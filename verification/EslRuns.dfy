/** Runs of the client against a server that answers every command, in order: reply pairing,
    background jobs and execute dispatch. */
module EslRuns {
  import opened Strings
  import opened EslClient

  /** The client, and how many of the commands it wrote the server has answered. */
  datatype Sys = Sys(client: Client, answered: nat)

  datatype Step =
    | DoSend(text: string, callback: Callback)
    | DoApi(text: string, callback: Callback)
    | DoFilter(header: string, value: string, callback: Callback)
    | DoDeleteFilter(header: string, value: string, callback: Callback)
    | DoBgapi(text: string, jobId: string, hasCallback: bool)
    | DoExecute(channel: string, eventUuid: string, handler: Option<nat>)
    | DoExit
    | Answer
    | Arrive(e: Incoming)

  /** Callers pass a callback of their own, or none. */
  predicate OfCaller(callback: Callback) { callback.NoCallback? || callback.User? }

  predicate Sane(step: Step) {
    match step
    case DoSend(_, callback) => OfCaller(callback)
    case DoApi(_, callback) => OfCaller(callback)
    case DoFilter(_, _, callback) => OfCaller(callback)
    case DoDeleteFilter(_, _, callback) => OfCaller(callback)
    case _ => true
  }

  /** What the server sends back for a command. */
  function AnswerTo(cmd: Command): Incoming {
    match cmd
    case ApiCall(_) => Incoming("api/response", "", "", "", "", "", "")
    case Connect => Incoming("command/reply", "CHANNEL_DATA", "", "", "", "", "")
    case _ => Incoming("command/reply", "", "", "", "", "", "")
  }

  /** Answers come only as such. */
  predicate IsAnswer(e: Incoming) { e.contentType == "command/reply" || e.contentType == "api/response" }

  /** An event in one of the three formats, that ends with an id. */
  predicate IsEvent(e: Incoming) {
    e.contentType in {"text/event-plain", "text/event-json", "text/event-xml"} && Uuid(e) != ""
  }

  predicate JobNotice(e: Incoming) { IsEvent(e) && e.eventName == "BACKGROUND_JOB" }

  predicate Completion(e: Incoming) { IsEvent(e) && e.eventName == "CHANNEL_EXECUTE_COMPLETE" }

  function Do(s: Sys, step: Step): Sys {
    var c := s.client;
    match step
    case DoSend(text, callback) => s.(client := SendRecv(c, Plain(text), callback))
    case DoApi(text, callback) => s.(client := Api(c, text, callback))
    case DoFilter(header, value, callback) => s.(client := Filter(c, header, value, callback))
    case DoDeleteFilter(header, value, callback) => s.(client := DeleteFilter(c, header, value, callback))
    case DoBgapi(text, jobId, hasCallback) => s.(client := Bgapi(c, text, jobId, hasCallback))
    case DoExecute(channel, eventUuid, handler) => s.(client := Execute(c, channel, eventUuid, handler))
    case DoExit => s.(client := Send(c, Exit, NoCallback))
    case Answer =>
      if s.answered < |c.written| then
        Sys(OnEvent(c, AnswerTo(c.written[s.answered]), s.answered), s.answered + 1)
      else s
    case Arrive(e) => if IsAnswer(e) then s else s.(client := OnEvent(c, e, 0))
  }

  /** What the events of a run come down to. */
  lemma EventSteps(s: Sys, step: Step)
    ensures step.Arrive? ==>
              var c, e := s.client, step.e;
              Do(s, step) == s.(client :=
                if JobNotice(e) then JobEvent(c, Uuid(e))
                else if Completion(e) then ExecuteComplete(c, c.executeListeners, Uuid(e), ExecutedId(e))
                else c)
    ensures step.Answer? && s.answered < |s.client.written| ==>
              var cmd := s.client.written[s.answered];
              Do(s, step) == Sys(
                if cmd.ApiCall? then ApiResponse(s.client, s.answered)
                else if cmd.Connect? && !s.client.inbound then s.client
                else CommandReply(s.client, s.answered),
                s.answered + 1)
  {
    hide JobEvent, ExecuteComplete, CommandReply, ApiResponse, Uuid, ExecutedId;
  }

  function Start0(inbound: bool): Sys { Sys(Fresh(inbound), 0) }

  function After(s: Sys, steps: seq<Step>): Sys
    decreases |steps|
  {
    if steps == [] then s else After(Do(s, steps[0]), steps[1..])
  }

  /* ---- reply pairing ---- */

  /** The numbers, from `from` on, of the commands that wait in a queue. */
  function Waiting(written: seq<Command>, from: nat, queue: Queue): seq<nat>
    decreases |written| - from
  {
    if from >= |written| then []
    else (if QueueOf(written[from]) == queue then [from] else []) + Waiting(written, from + 1, queue)
  }

  function Numbers(slots: seq<Slot>): seq<nat> {
    seq(|slots|, i requires 0 <= i < |slots| => slots[i].command)
  }

  /** Every answer so far took the slot of the command it answers. */
  predicate Paired(c: Client) {
    forall i :: 0 <= i < |c.taken| ==> c.taken[i].0 == c.taken[i].1
  }

  /** Every answered command of a queue had its slot taken by its own answer. */
  predicate Delivered(s: Sys, queue: Queue) {
    forall k :: 0 <= k < s.answered && k < |s.client.written| && QueueOf(s.client.written[k]) == queue ==>
      (k, k) in s.client.taken
  }

  /** The command queue holds the slots of all unanswered commands but the first `missing`, in order; the
      queue of api calls holds them all. */
  predicate Trails(s: Sys, missing: nat) {
    var waiting := Waiting(s.client.written, s.answered, Commands);
    && s.answered <= |s.client.written|
    && missing <= |waiting| && Numbers(s.client.cmdQueue) == waiting[missing..]
    && Numbers(s.client.apiQueue) == Waiting(s.client.written, s.answered, Apis)
    && (forall i :: 0 <= i < |s.client.written| ==> s.client.written[i].Connect? ==> !s.client.inbound)
  }

  /** Both queues hold the slots of the unanswered commands, in order, and every answer went where it belongs. */
  predicate InStep(s: Sys) { Trails(s, 0) && Paired(s.client) && Delivered(s, Commands) && Delivered(s, Apis) }

  /** Sent without queueing a callback, but answered by a `command/reply`. */
  predicate Unqueued(cmd: Command) { cmd.SendMsg? || cmd.Exit? }

  /** The step is the answer to a `sendmsg` or `exit`, and finds a callback of some command waiting. */
  predicate Disturbs(s: Sys, step: Step) {
    && step.Answer? && s.answered < |s.client.written|
    && Unqueued(s.client.written[s.answered])
    && s.client.cmdQueue != []
  }

  predicate Undisturbed(s: Sys, steps: seq<Step>)
    decreases |steps|
  {
    steps == [] || (!Disturbs(s, steps[0]) && Undisturbed(Do(s, steps[0]), steps[1..]))
  }

  lemma {:induction false} WaitingAppend(written: seq<Command>, from: nat, cmd: Command, queue: Queue)
    requires from <= |written|
    ensures Waiting(written + [cmd], from, queue) ==
            Waiting(written, from, queue) + (if QueueOf(cmd) == queue then [|written|] else [])
    decreases |written| - from
  {
    hide QueueOf, Waiting;
    var all, rest := written + [cmd], Waiting(written, from + 1, queue);
    WaitingNext(all, from);
    if from == |written| {
      NoneWaits(written, from, queue);
      NoneWaits(all, from + 1, queue);
    } else {
      WaitingNext(written, from);
      WaitingAppend(written, from + 1, cmd, queue);
      assert all[from] == written[from];
      Prepended(from, rest, if QueueOf(cmd) == queue then [|written|] else []);
    }
  }

  lemma NoneWaits(written: seq<Command>, from: nat, queue: Queue)
    requires from >= |written|
    ensures Waiting(written, from, queue) == []
  {
  }

  lemma Prepended(n: nat, rest: seq<nat>, more: seq<nat>)
    ensures [n] + (rest + more) == ([n] + rest) + more
  {
  }

  /** Commands that wait are numbered from `from` on, and wait in the queue asked for. */
  lemma {:induction false} WaitingFrom(written: seq<Command>, from: nat, queue: Queue)
    ensures forall k :: k in Waiting(written, from, queue) ==>
              from <= k < |written| && QueueOf(written[k]) == queue
    decreases |written| - from
  {
    hide QueueOf;
    if from < |written| {
      hide Waiting;
      WaitingNext(written, from);
      WaitingFrom(written, from + 1, queue);
    }
  }

  lemma {:induction false} WaitingHolds(written: seq<Command>, from: nat, k: nat, queue: Queue)
    requires from <= k < |written| && QueueOf(written[k]) == queue
    ensures k in Waiting(written, from, queue)
    decreases k - from
  {
    hide QueueOf, Waiting;
    WaitingNext(written, from);
    if from < k {
      WaitingHolds(written, from + 1, k, queue);
    }
  }

  /** The command at the front waits, if it has a queue. */
  lemma WaitingNext(written: seq<Command>, n: nat)
    requires n < |written|
    ensures forall queue :: Waiting(written, n, queue) ==
              (if QueueOf(written[n]) == queue then [n] + Waiting(written, n + 1, queue)
               else Waiting(written, n + 1, queue))
  {
    hide QueueOf;
  }

  lemma NumbersTail(slots: seq<Slot>)
    requires slots != []
    ensures Numbers(slots) == [slots[0].command] + Numbers(slots[1..])
    ensures Numbers(slots[1..]) == Numbers(slots)[1..]
  {
  }

  /** Leaving out one more from the front. */
  lemma DropOne(waiting: seq<nat>, n: nat, rest: seq<nat>, missing: nat)
    requires waiting == [n] + rest && missing < |waiting|
    ensures waiting[missing..][1..] == rest[missing..]
  {
  }

  lemma DropNext(waiting: seq<nat>, missing: nat)
    requires missing < |waiting|
    ensures waiting[missing..][1..] == waiting[missing + 1..]
  {
  }

  /* ---- steps other than answers keep what is missing ---- */

  /** Sending keeps what is missing, as long as the callback goes where the answer will look. */
  lemma SendTrails(s: Sys, missing: nat, cmd: Command, callback: Callback)
    requires Trails(s, missing)
    ensures QueueOf(cmd) == Commands ==> Trails(s.(client := SendRecv(s.client, cmd, callback)), missing)
    ensures cmd.ApiCall? ==> Trails(s.(client := Api(s.client, cmd.text, callback)), missing)
    ensures Unqueued(cmd) ==> Trails(s.(client := Send(s.client, cmd, callback)), missing)
  {
    hide Waiting;
    WaitingAppend(s.client.written, s.answered, cmd, Commands);
    WaitingAppend(s.client.written, s.answered, cmd, Apis);
    var slot := Slot(callback, |s.client.written|);
    assert Numbers(s.client.cmdQueue + [slot]) == Numbers(s.client.cmdQueue) + [slot.command];
    assert Numbers(s.client.apiQueue + [slot]) == Numbers(s.client.apiQueue) + [slot.command];
  }

  /** Fields the queues do not depend on may change freely. */
  lemma StartTrails(s: Sys, missing: nat, job: JobCall)
    requires Trails(s, missing)
    ensures Trails(s.(client := Start(s.client, job)), missing)
  {
    hide Waiting, Numbers;
    var c := s.client;
    var c' := if job.hasCallback then c.(jobListeners := c.jobListeners + [job])
              else if job.filtered then DeleteFilter(c, JOB, job.jobId, NoCallback) else c;
    SendTrails(s, missing, FilterDelete(JOB, job.jobId), NoCallback);
    assert Trails(s.(client := c'), missing);
    SendTrails(s.(client := c'), missing, BgApi(job), NoCallback);
  }

  lemma {:induction false} JobsOverTrails(s: Sys, missing: nat, jobs: seq<JobCall>, event: string)
    requires Trails(s, missing)
    ensures Trails(s.(client := JobsOver(s.client, jobs, event)), missing)
    decreases |jobs|
  {
    hide Waiting, Numbers;
    if jobs != [] {
      SendTrails(s, missing, FilterDelete(JOB, jobs[0].jobId), EndJob(jobs[0], event));
      var s' := s.(client := JobOver(s.client, jobs[0], event));
      assert Trails(s', missing);
      JobsOverTrails(s', missing, jobs[1..], event);
    }
  }

  lemma {:induction false} ExecuteCompleteKeeps(c: Client, listeners: seq<string>, channel: string, eventUuid: string)
    ensures var c' := ExecuteComplete(c, listeners, channel, eventUuid);
            c' == c.(fired := c'.fired) && c.fired <= c'.fired
    ensures var c' := ExecuteComplete(c, listeners, channel, eventUuid);
            forall i :: |c.fired| <= i < |c'.fired| ==> c'.fired[i].ExecuteFired?
    decreases |listeners|
  {
    if listeners != [] {
      var c' := if listeners[0] == channel && eventUuid in c.executeCallbacks
                then c.(fired := c.fired + [ExecuteFired(eventUuid, c.executeCallbacks[eventUuid])]) else c;
      ExecuteCompleteKeeps(c', listeners[1..], channel, eventUuid);
    }
  }

  lemma StepTrails(s: Sys, missing: nat, step: Step)
    requires Trails(s, missing) && !step.Answer?
    ensures Trails(Do(s, step), missing)
  {
    hide Waiting, Numbers, Start, JobsOver, Listening, ExecuteComplete;
    hide OnEvent, Uuid, ExecutedId, JobNotice, Completion;
    EventSteps(s, step);
    var c := s.client;
    match step
    case DoSend(text, callback) => SendTrails(s, missing, Plain(text), callback);
    case DoApi(text, callback) => SendTrails(s, missing, ApiCall(text), callback);
    case DoFilter(header, value, callback) =>
      SendTrails(s.(client := c.(usingFilters := true)), missing, FilterAdd(header, value), callback);
    case DoDeleteFilter(header, value, callback) => SendTrails(s, missing, FilterDelete(header, value), callback);
    case DoBgapi(text, jobId, hasCallback) =>
      var job := JobCall(|c.jobs|, text, jobId, hasCallback, c.usingFilters);
      var s' := s.(client := c.(jobs := c.jobs + [job]));
      SendTrails(s'.(client := s'.client.(usingFilters := true)), missing, FilterAdd(JOB, jobId), StartJob(job));
      StartTrails(s', missing, job);
    case DoExecute(channel, eventUuid, handler) =>
      var c' := Execute(c, channel, eventUuid, handler);
      var unsent := c'.(written := c.written, callbacks := c.callbacks);
      SendTrails(s.(client := unsent), missing, SendMsg(channel, eventUuid), NoCallback);
      assert c' == Send(unsent, SendMsg(channel, eventUuid), NoCallback);
    case DoExit => SendTrails(s, missing, Exit, NoCallback);
    case Arrive(e) =>
      var rest := c.(jobListeners := Listening(c.jobListeners, Uuid(e), false));
      JobsOverTrails(s.(client := rest), missing, Listening(c.jobListeners, Uuid(e), true), Uuid(e));
      ExecuteCompleteKeeps(c, c.executeListeners, Uuid(e), ExecutedId(e));
  }

  /* ---- what a step adds ---- */

  lemma {:induction false} JobsOverWrites(c: Client, jobs: seq<JobCall>, event: string)
    ensures var c' := JobsOver(c, jobs, event);
            && c'.taken == c.taken && c.written <= c'.written
            && forall i :: |c.written| <= i < |c'.written| ==> c'.written[i].FilterDelete?
    decreases |jobs|
  {
    if jobs != [] {
      JobsOverWrites(JobOver(c, jobs[0], event), jobs[1..], event);
    }
  }

  lemma StartWrites(c: Client, job: JobCall)
    ensures var c' := Start(c, job);
            && c'.taken == c.taken && c.written <= c'.written
            && forall i :: |c.written| <= i < |c'.written| ==> QueueOf(c'.written[i]) == Commands
  {
  }

  /** No caller's step takes a slot, and one that writes a command with a callback writes nothing unqueued. */
  lemma StepWrites(s: Sys, step: Step)
    requires !step.Answer?
    ensures var c, c' := s.client, Do(s, step).client;
            && Do(s, step).answered == s.answered && c'.taken == c.taken && c.written <= c'.written
            && forall i, j ::
                 (|c.written| <= i < |c'.written| && |c.written| <= j < |c'.written| &&
                  QueueOf(c'.written[i]) == Commands) ==> !Unqueued(c'.written[j])
  {
    hide JobsOver, Listening, ExecuteComplete, OnEvent, Start, Uuid, ExecutedId, JobNotice, Completion;
    EventSteps(s, step);
    var c := s.client;
    match step
    case DoBgapi(text, jobId, hasCallback) =>
      var job := JobCall(|c.jobs|, text, jobId, hasCallback, c.usingFilters);
      StartWrites(c.(jobs := c.jobs + [job]), job);
    case Arrive(e) =>
      JobsOverWrites(c.(jobListeners := Listening(c.jobListeners, Uuid(e), false)),
                     Listening(c.jobListeners, Uuid(e), true), Uuid(e));
      ExecuteCompleteKeeps(c, c.executeListeners, Uuid(e), ExecutedId(e));
    case _ =>
  }

  lemma RunWrites(c: Client, slot: Slot, reply: nat)
    ensures Run(c, slot, reply).taken == c.taken && c.written <= Run(c, slot, reply).written
  {
    hide Start;
    if slot.callback.StartJob? {
      StartWrites(c, slot.callback.job);
    }
  }

  /** The slot that an answer takes, if any. */
  function Taken(s: Sys): seq<(nat, nat)>
    requires s.answered < |s.client.written|
  {
    var c, n := s.client, s.answered;
    var cmd := c.written[n];
    if cmd.ApiCall? then if c.apiQueue == [] then [] else [(c.apiQueue[0].command, n)]
    else if (cmd.Connect? && !c.inbound) || c.cmdQueue == [] then []
    else [(c.cmdQueue[0].command, n)]
  }

  lemma AnswerWrites(s: Sys)
    requires s.answered < |s.client.written|
    ensures var s' := Do(s, Answer);
            && s'.answered == s.answered + 1 && s.client.written <= s'.client.written
            && s'.client.taken == s.client.taken + Taken(s)
  {
    hide Run, OnEvent, Do;
    EventSteps(s, Answer);
    var c, n := s.client, s.answered;
    if c.cmdQueue != [] {
      RunWrites(PopCommand(c, n), c.cmdQueue[0], n);
    }
    if c.apiQueue != [] {
      RunWrites(PopApi(c, n), c.apiQueue[0], n);
    }
  }

  /** The slot at the head of the commands. */
  lemma CommandHead(s: Sys, missing: nat)
    requires Trails(s, missing) && s.answered < |s.client.written|
    ensures QueueOf(s.client.written[s.answered]) == Commands && missing == 0 ==> s.client.cmdQueue != []
    ensures s.client.cmdQueue != [] ==>
              var k := s.client.cmdQueue[0].command;
              && s.answered <= k < |s.client.written| && QueueOf(s.client.written[k]) == Commands
              && (k == s.answered <==> QueueOf(s.client.written[s.answered]) == Commands && missing == 0)
  {
    hide QueueOf, Waiting;
    var c, n := s.client, s.answered;
    var waiting, rest := Waiting(c.written, n, Commands), Waiting(c.written, n + 1, Commands);
    WaitingFrom(c.written, n, Commands);
    WaitingFrom(c.written, n + 1, Commands);
    WaitingNext(c.written, n);
    assert |Numbers(c.cmdQueue)| == |waiting| - missing;
    if c.cmdQueue != [] {
      var k := c.cmdQueue[0].command;
      assert k == Numbers(c.cmdQueue)[0] == waiting[missing];
      assert k in waiting;
      if QueueOf(c.written[n]) == Commands && missing > 0 {
        assert waiting[missing] == rest[missing - 1];
        assert k in rest;
      } else if QueueOf(c.written[n]) != Commands {
        assert k in rest;
      }
    }
  }

  lemma ApiHead(s: Sys, missing: nat)
    requires Trails(s, missing) && s.answered < |s.client.written| && QueueOf(s.client.written[s.answered]) == Apis
    ensures s.client.apiQueue != [] && s.client.apiQueue[0].command == s.answered
  {
    hide QueueOf, Waiting;
    var c, n := s.client, s.answered;
    WaitingNext(c.written, n);
    assert |Numbers(c.apiQueue)| > 0 && Numbers(c.apiQueue)[0] == n;
  }

  /** An answer takes no slot of an earlier command; with nothing missing, it takes the slot of its own command
      unless it disturbs, and with something missing another one. */
  lemma TakenIs(s: Sys, missing: nat)
    requires Trails(s, missing) && s.answered < |s.client.written|
    ensures forall k, n :: (k, n) in Taken(s) ==> s.answered == n <= k < |s.client.written|
    ensures QueueOf(s.client.written[s.answered]) == Apis ==> Taken(s) == [(s.answered, s.answered)]
    ensures forall k, n :: (k, n) in Taken(s) ==>
              !s.client.written[s.answered].ApiCall? ==> !s.client.written[k].ApiCall?
    ensures QueueOf(s.client.written[s.answered]) == Commands ==>
              if missing == 0 then Taken(s) == [(s.answered, s.answered)] else (s.answered, s.answered) !in Taken(s)
    ensures QueueOf(s.client.written[s.answered]) == Nowhere ==>
              if Disturbs(s, Answer) then |Taken(s)| == 1 && (s.answered, s.answered) !in Taken(s) else Taken(s) == []
  {
    hide Trails;
    CommandHead(s, missing);
    if QueueOf(s.client.written[s.answered]) == Apis {
      ApiHead(s, missing);
    }
    if s.client.written[s.answered].Connect? {
      Greeted(s, missing, s.answered);
    }
  }

  /** Taking the slot at the head of the commands. */
  lemma PopTrails(s: Sys, missing: nat)
    requires Trails(s, missing) && s.answered < |s.client.written| && s.client.cmdQueue != []
    requires !s.client.written[s.answered].ApiCall?
    ensures var missing' := if QueueOf(s.client.written[s.answered]) == Commands then missing else missing + 1;
            Trails(Sys(PopCommand(s.client, s.answered), s.answered + 1), missing')
  {
    hide Waiting, QueueOf;
    var c, n := s.client, s.answered;
    WaitingNext(c.written, n);
    NumbersTail(c.cmdQueue);
    var waiting, rest := Waiting(c.written, n, Commands), Waiting(c.written, n + 1, Commands);
    assert |Numbers(c.cmdQueue)| > 0;
    hide Numbers;
    if QueueOf(c.written[n]) == Commands {
      DropOne(waiting, n, rest, missing);
    } else {
      DropNext(waiting, missing);
    }
    assert QueueOf(c.written[n]) != Apis by { NotApis(c.written[n]); }
  }

  lemma NotApis(cmd: Command)
    ensures QueueOf(cmd) == Apis <==> cmd.ApiCall?
  {
  }

  lemma PopApiTrails(s: Sys, missing: nat)
    requires Trails(s, missing) && s.answered < |s.client.written| && s.client.written[s.answered].ApiCall?
    ensures s.client.apiQueue != []
    ensures Trails(Sys(PopApi(s.client, s.answered), s.answered + 1), missing)
  {
    hide Waiting, QueueOf;
    var c, n := s.client, s.answered;
    WaitingNext(c.written, n);
    NotApis(c.written[n]);
    ApiHead(s, missing);
    NumbersTail(c.apiQueue);
    hide Numbers;
    TailOf(n, Waiting(c.written, n + 1, Apis));
  }

  lemma TailOf(n: nat, rest: seq<nat>)
    ensures ([n] + rest)[1..] == rest
  {
  }

  lemma RunTrails(s: Sys, missing: nat, slot: Slot, reply: nat)
    requires Trails(s, missing)
    ensures Trails(s.(client := Run(s.client, slot, reply)), missing)
  {
    hide Waiting, Numbers, Start;
    if slot.callback.StartJob? {
      StartTrails(s, missing, slot.callback.job);
    }
  }

  /** What is missing after an answer: one more if it disturbs, and one less only if it is that of a command
      whose callback is gone when no callback waits. */
  function MissingAfter(s: Sys, missing: nat): nat
    requires s.answered < |s.client.written|
  {
    if Disturbs(s, Answer) then missing + 1
    else if s.client.cmdQueue == [] && QueueOf(s.client.written[s.answered]) == Commands && missing > 0 then missing - 1
    else missing
  }

  /** An answer that finds no callback. */
  lemma SkipTrails(s: Sys, missing: nat)
    requires Trails(s, missing) && s.answered < |s.client.written| && !s.client.written[s.answered].ApiCall?
    requires s.client.cmdQueue == [] || QueueOf(s.client.written[s.answered]) == Nowhere
    ensures QueueOf(s.client.written[s.answered]) == Commands ==> missing > 0
    ensures Trails(s.(answered := s.answered + 1),
                   if QueueOf(s.client.written[s.answered]) == Commands then missing - 1 else missing)
  {
    hide Waiting, QueueOf;
    var c, n := s.client, s.answered;
    WaitingNext(c.written, n);
    NotApis(c.written[n]);
    var waiting, rest := Waiting(c.written, n, Commands), Waiting(c.written, n + 1, Commands);
    if QueueOf(c.written[n]) == Commands {
      assert |Numbers(c.cmdQueue)| == 0 && missing == |waiting|;
      assert rest[missing - 1..] == [];
    }
  }

  lemma AnswerTrails(s: Sys, missing: nat)
    requires Trails(s, missing) && s.answered < |s.client.written|
    ensures Trails(Do(s, Answer), MissingAfter(s, missing))
  {
    hide Run, Numbers, Waiting, OnEvent, Do, Trails;
    EventSteps(s, Answer);
    var c, n := s.client, s.answered;
    if c.written[n].ApiCall? {
      PopApiTrails(s, missing);
      RunTrails(Sys(PopApi(c, n), n + 1), missing, c.apiQueue[0], n);
    } else if (c.written[n].Connect? && !c.inbound) || c.cmdQueue == [] {
      SkipTrails(s, missing);
    } else {
      Greeted(s, missing, n);
      PopTrails(s, missing);
      RunTrails(Sys(PopCommand(c, n), n + 1), MissingAfter(s, missing), c.cmdQueue[0], n);
    }
  }

  lemma Greeted(s: Sys, missing: nat, n: nat)
    requires Trails(s, missing) && n < |s.client.written|
    ensures s.client.written[n].Connect? ==> !s.client.inbound && QueueOf(s.client.written[n]) == Nowhere
  {
  }

  /* ---- runs ---- */

  /** What is missing after any step. */
  function MissingThen(s: Sys, missing: nat, step: Step): nat {
    if step.Answer? && s.answered < |s.client.written| then MissingAfter(s, missing) else missing
  }

  /** In every run the queues trail the commands, and slots are taken by answers that do not come later
      than their own. */
  lemma StepRuns(s: Sys, missing: nat, step: Step)
    requires Trails(s, missing)
    ensures var s' := Do(s, step);
            && Trails(s', MissingThen(s, missing, step))
            && s.answered <= s'.answered <= |s.client.written|
            && s.client.written <= s'.client.written && s.client.taken <= s'.client.taken
            && forall i :: |s.client.taken| <= i < |s'.client.taken| ==>
                 s.answered <= s'.client.taken[i].1 <= s'.client.taken[i].0 < |s.client.written| &&
                 s'.client.taken[i].1 < s'.answered
  {
    hide Trails, Do, Disturbs, QueueOf;
    AnsweredSent(s, missing);
    if !step.Answer? {
      StepTrails(s, missing, step);
      StepWrites(s, step);
    } else if s.answered < |s.client.written| {
      AnswerTrails(s, missing);
      AnswerWrites(s);
      TakenIs(s, missing);
      var taken := Do(s, step).client.taken;
      forall i | |s.client.taken| <= i < |taken|
        ensures s.answered <= taken[i].1 <= taken[i].0 < |s.client.written| && taken[i].1 < Do(s, step).answered
      {
        assert taken[i] == Taken(s)[i - |s.client.taken|];
        assert (taken[i].0, taken[i].1) in Taken(s);
      }
    } else {
      Idle(s);
    }
  }

  lemma AnsweredSent(s: Sys, missing: nat)
    requires Trails(s, missing)
    ensures s.answered <= |s.client.written|
  {
  }

  lemma Idle(s: Sys)
    requires s.answered >= |s.client.written|
    ensures Do(s, Answer) == s
  {
  }

  /** Whatever is taken in a run from here on belongs to a command unanswered here. */
  lemma {:induction false} RunRuns(s: Sys, missing: nat, steps: seq<Step>) returns (left: nat)
    requires Trails(s, missing)
    ensures var s' := After(s, steps);
            && Trails(s', left)
            && s.answered <= s'.answered && s.client.written <= s'.client.written && s.client.taken <= s'.client.taken
            && forall i :: |s.client.taken| <= i < |s'.client.taken| ==>
                 s.answered <= s'.client.taken[i].1 <= s'.client.taken[i].0 < |s'.client.written| &&
                 s'.client.taken[i].1 < s'.answered
    decreases |steps|
  {
    hide Trails, Do, MissingThen;
    left := missing;
    if steps != [] {
      StepRuns(s, missing, steps[0]);
      left := RunRuns(Do(s, steps[0]), MissingThen(s, missing, steps[0]), steps[1..]);
    }
  }

  lemma FreshTrails(inbound: bool)
    ensures Trails(Start0(inbound), 0) && InStep(Start0(inbound))
  {
    var written := Fresh(inbound).written;
    assert Waiting(written, 0, Commands) == [] && Waiting(written, 0, Apis) == [] by {
      assert Waiting(written, 1, Commands) == [] && Waiting(written, 1, Apis) == [];
    }
  }

  /* ---- reply pairing of a run ---- */

  /** With nothing missing, an answer that disturbs nothing delivers. */
  lemma StepInStep(s: Sys, step: Step)
    requires InStep(s) && !Disturbs(s, step)
    ensures InStep(Do(s, step))
  {
    hide Trails, Do;
    StepRuns(s, 0, step);
    var s' := Do(s, step);
    if step.Answer? && s.answered < |s.client.written| {
      AnswerWrites(s);
      TakenIs(s, 0);
      forall k | 0 <= k < s'.answered && QueueOf(s'.client.written[k]) != Nowhere ensures (k, k) in s'.client.taken {
        assert s'.client.written[k] == s.client.written[k];
        assert k < s.answered ==> (k, k) in s.client.taken;
      }
    } else {
      Untaken(s, step);
      assert forall k :: 0 <= k < |s.client.written| ==> s'.client.written[k] == s.client.written[k];
    }
  }

  lemma Untaken(s: Sys, step: Step)
    requires step.Answer? ==> s.answered >= |s.client.written|
    ensures Do(s, step).client.taken == s.client.taken && Do(s, step).answered == s.answered
  {
    hide Do;
    if step.Answer? {
      Idle(s);
    } else {
      StepWrites(s, step);
    }
  }

  /** An answer that disturbs takes the slot of another command. */
  lemma DisturbedUnpaired(s: Sys)
    requires InStep(s) && Disturbs(s, Answer)
    ensures !Paired(Do(s, Answer).client)
  {
    hide Do;
    AnswerWrites(s);
    TakenIs(s, 0);
    var pair := Taken(s)[0];
    assert (pair.0, pair.1) in Taken(s);
    assert Do(s, Answer).client.taken[|s.client.taken|] == pair;
  }

  lemma {:induction false} PairingFrom(s: Sys, steps: seq<Step>)
    requires InStep(s)
    ensures Paired(After(s, steps).client) <==> Undisturbed(s, steps)
    ensures Undisturbed(s, steps) ==> InStep(After(s, steps))
    decreases |steps|
  {
    hide Do, Trails;
    if steps == [] {
    } else if Disturbs(s, steps[0]) {
      DisturbedUnpaired(s);
      StepRuns(s, 0, steps[0]);
      var s' := Do(s, steps[0]);
      var _ := RunRuns(s', MissingThen(s, 0, steps[0]), steps[1..]);
      assert s'.client.taken <= After(s, steps).client.taken;
    } else {
      StepInStep(s, steps[0]);
      PairingFrom(Do(s, steps[0]), steps[1..]);
    }
  }

  /** In a run from a fresh connection, slots are taken by no answers but their own exactly when no answer to a
      `sendmsg` or `exit` arrives while a command waits; and then every answered command that queued a callback
      had its slot taken by its own answer. */
  lemma SlotPairing(inbound: bool, steps: seq<Step>)
    ensures var s := After(Start0(inbound), steps);
            && (Paired(s.client) <==> Undisturbed(Start0(inbound), steps))
            && (Undisturbed(Start0(inbound), steps) ==> InStep(s))
  {
    FreshTrails(inbound);
    PairingFrom(Start0(inbound), steps);
  }

  lemma {:induction false} AfterAppend(s: Sys, steps: seq<Step>, more: seq<Step>)
    ensures After(s, steps + more) == After(After(s, steps), more)
    decreases |steps|
  {
    hide Do;
    if steps == [] {
      assert steps + more == more;
    } else {
      assert (steps + more)[1..] == steps[1..] + more;
      AfterAppend(Do(s, steps[0]), steps[1..], more);
    }
  }

  lemma After2(s: Sys, a: Step, b: Step)
    ensures After(s, [a, b]) == Do(Do(s, a), b)
  {
    hide Do;
    assert [a, b][1..] == [b] && [b][1..] == [];
    assert After(Do(s, a), [b]) == After(Do(Do(s, a), b), []);
  }

  lemma After3(s: Sys, a: Step, b: Step, d: Step)
    ensures After(s, [a, b, d]) == Do(Do(Do(s, a), b), d)
  {
    hide Do;
    assert [a, b, d][1..] == [b, d];
    After2(Do(s, a), b, d);
  }

  /** Everything is answered and no callback waits. */
  predicate Quiet(s: Sys) { s.answered == |s.client.written| && s.client.cmdQueue == [] }

  /** How a run begins that waits for the answer to `connect`, if that was sent. */
  function Opening(inbound: bool): seq<Step> { if inbound then [] else [Answer] }

  lemma Opened(inbound: bool)
    ensures var s := After(Start0(inbound), Opening(inbound));
            s == Sys(Fresh(inbound), |Opening(inbound)|) && Quiet(s)
  {
    if !inbound {
      assert [Answer][1..] == [];
      assert After(Start0(false), [Answer]) == Do(Start0(false), Answer);
    }
  }

  lemma Executing(s: Sys, channel: string, eventUuid: string)
    ensures var s' := Do(s, DoExecute(channel, eventUuid, None));
            && s'.answered == s.answered && s'.client.written == s.client.written + [SendMsg(channel, eventUuid)]
            && s'.client.cmdQueue == s.client.cmdQueue && s'.client.jobListeners == s.client.jobListeners
            && s'.client.fired == s.client.fired && s'.client.taken == s.client.taken
  {
  }

  /** While the queues are in step, a command waits at the answer to a `sendmsg` or `exit` exactly
      when one that queues a callback was written after it, before that answer. */
  lemma DisturbsWhen(s: Sys)
    requires Trails(s, 0) && s.answered < |s.client.written| && Unqueued(s.client.written[s.answered])
    ensures Disturbs(s, Answer) <==>
            exists k :: s.answered < k < |s.client.written| && QueueOf(s.client.written[k]) == Commands
  {
    hide Waiting, InStep;
    var c := s.client;
    assert QueueOf(c.written[s.answered]) == Nowhere;
    hide QueueOf;
    var waiting := Waiting(c.written, s.answered, Commands);
    WaitingFrom(c.written, s.answered, Commands);
    assert |Numbers(c.cmdQueue)| == |waiting|;
    if c.cmdQueue != [] {
      assert waiting[0] in waiting;
    }
    forall k | s.answered < k < |c.written| && QueueOf(c.written[k]) == Commands ensures c.cmdQueue != [] {
      WaitingHolds(c.written, s.answered, k, Commands);
    }
  }

  /* ---- reply pairing of a command ---- */

  /** All callbacks of unanswered commands wait, and no `sendmsg` or `exit` before command `k` is unanswered. */
  predicate CalmTo(s: Sys, k: nat) {
    && Numbers(s.client.cmdQueue) == Waiting(s.client.written, s.answered, Commands)
    && forall i :: s.answered <= i < k && i < |s.client.written| ==> !Unqueued(s.client.written[i])
  }

  predicate Calm(s: Sys) { CalmTo(s, |s.client.written|) }

  /** The answer to another command took the slot of command `k`. */
  predicate Stolen(c: Client, k: nat) {
    exists i :: 0 <= i < |c.taken| && c.taken[i].0 == k && c.taken[i].1 != k
  }

  lemma CalmMissing(s: Sys, missing: nat)
    requires Trails(s, missing)
    ensures Numbers(s.client.cmdQueue) == Waiting(s.client.written, s.answered, Commands) <==> missing == 0
  {
    hide Waiting;
    var waiting := Waiting(s.client.written, s.answered, Commands);
    assert |waiting[missing..]| == |waiting| - missing;
    assert waiting[0..] == waiting;
  }

  /** The next step keeps it decided whether command `k`, not answered in it, is paired. */
  lemma StepKeepsCalm(s: Sys, missing: nat, k: nat, step: Step)
    requires Trails(s, missing) && s.answered <= k < |s.client.written| && QueueOf(s.client.written[k]) == Commands
    requires Do(s, step).answered <= k
    ensures CalmTo(Do(s, step), k) <==> CalmTo(s, k)
    ensures (k, k) in Do(s, step).client.taken <==> (k, k) in s.client.taken
    ensures CalmTo(s, k) && !Stolen(s.client, k) ==> !Stolen(Do(s, step).client, k)
  {
    hide Trails, Do, Waiting, Numbers;
    var s', missing' := Do(s, step), MissingThen(s, missing, step);
    StepRuns(s, missing, step);
    CalmMissing(s, missing);
    CalmMissing(s', missing');
    if step.Answer? && s.answered < |s.client.written| {
      AnswerWrites(s);
      TakenIs(s, missing);
      Missed(s, missing, k);
    } else {
      Untaken(s, step);
    }
    assert forall i :: s'.answered <= i < k ==> s'.client.written[i] == s.client.written[i];
  }

  /** While a command waits, an answer to another one makes good for nothing missing. */
  lemma Missed(s: Sys, missing: nat, k: nat)
    requires Trails(s, missing) && s.answered < k < |s.client.written| && QueueOf(s.client.written[k]) == Commands
    ensures MissingAfter(s, missing) == 0 <==> missing == 0 && !Unqueued(s.client.written[s.answered])
  {
    hide Waiting;
    var c, n := s.client, s.answered;
    var waiting, rest := Waiting(c.written, n, Commands), Waiting(c.written, n + 1, Commands);
    WaitingHolds(c.written, n + 1, k, Commands);
    assert rest != [];
    WaitingNext(c.written, n);
    assert |Numbers(c.cmdQueue)| == |waiting[missing..]| == |waiting| - missing;
  }

  /** The step that answers command `k` takes its slot exactly when nothing is missing. */
  lemma OwnAnswerNow(s: Sys, missing: nat, k: nat, step: Step)
    requires Trails(s, missing) && s.answered <= k < |s.client.written| && QueueOf(s.client.written[k]) == Commands
    requires Do(s, step).answered > k && (k, k) !in s.client.taken
    ensures (k, k) in Do(s, step).client.taken <==> CalmTo(s, k)
    ensures CalmTo(s, k) && !Stolen(s.client, k) ==> !Stolen(Do(s, step).client, k)
  {
    hide Trails, Do, Waiting, Numbers;
    if !step.Answer? {
      StepWrites(s, step);
    }
    AnswerWrites(s);
    TakenIs(s, missing);
    CalmMissing(s, missing);
  }

  /** Once command `k` is answered, its slot is taken no more. */
  lemma Past(s: Sys, missing: nat, k: nat, steps: seq<Step>)
    requires Trails(s, missing) && k < s.answered
    ensures (k, k) in After(s, steps).client.taken <==> (k, k) in s.client.taken
    ensures Stolen(After(s, steps).client, k) ==> Stolen(s.client, k)
  {
    hide Trails, Do;
    var _ := RunRuns(s, missing, steps);
    var taken, taken' := s.client.taken, After(s, steps).client.taken;
    assert forall i :: 0 <= i < |taken| ==> taken'[i] == taken[i];
  }

  lemma {:induction false} CalmAnswer(s: Sys, missing: nat, k: nat, steps: seq<Step>)
    requires Trails(s, missing) && s.answered <= k < |s.client.written| && QueueOf(s.client.written[k]) == Commands
    requires CalmTo(s, k) && (k, k) !in s.client.taken && !Stolen(s.client, k)
    ensures (k, k) in After(s, steps).client.taken <==> k < After(s, steps).answered
    ensures !Stolen(After(s, steps).client, k)
    decreases |steps|
  {
    hide Trails, Do, CalmTo, Stolen;
    if steps != [] {
      var s', missing' := Do(s, steps[0]), MissingThen(s, missing, steps[0]);
      StepRuns(s, missing, steps[0]);
      if s'.answered <= k {
        StepKeepsCalm(s, missing, k, steps[0]);
        CalmAnswer(s', missing', k, steps[1..]);
      } else {
        OwnAnswerNow(s, missing, k, steps[0]);
        Past(s', missing', k, steps[1..]);
        var _ := RunRuns(s', missing', steps[1..]);
      }
    }
  }

  lemma {:induction false} RestlessAnswer(s: Sys, missing: nat, k: nat, steps: seq<Step>)
    requires Trails(s, missing) && s.answered <= k < |s.client.written| && QueueOf(s.client.written[k]) == Commands
    requires !CalmTo(s, k) && (k, k) !in s.client.taken
    ensures (k, k) !in After(s, steps).client.taken
    decreases |steps|
  {
    hide Trails, Do, CalmTo;
    if steps != [] {
      var s', missing' := Do(s, steps[0]), MissingThen(s, missing, steps[0]);
      StepRuns(s, missing, steps[0]);
      if s'.answered <= k {
        StepKeepsCalm(s, missing, k, steps[0]);
        RestlessAnswer(s', missing', k, steps[1..]);
      } else {
        OwnAnswerNow(s, missing, k, steps[0]);
        Past(s', missing', k, steps[1..]);
      }
    }
  }

  /** Whether it is calm behind a call is decided before it. */
  lemma CallKeepsCalm(s: Sys, missing: nat, step: Step, k: nat)
    requires Trails(s, missing) && !step.Answer?
    requires |s.client.written| <= k < |Do(s, step).client.written| &&
               QueueOf(Do(s, step).client.written[k]) == Commands
    ensures CalmTo(Do(s, step), k) <==> Calm(s)
  {
    hide Trails, Do, Waiting, Numbers;
    StepTrails(s, missing, step);
    StepWrites(s, step);
    CalmMissing(s, missing);
    CalmMissing(Do(s, step), missing);
    var written, written' := s.client.written, Do(s, step).client.written;
    assert forall i :: 0 <= i < |written| ==> written'[i] == written[i];
  }

  /** One command, in runs of any kind. The slot of command `k`, written in `step`, is taken by no
      answer but its own, and by that one once it comes, exactly when it was calm: all callbacks of unanswered
      commands were waiting, and no `sendmsg` or `exit` before it was unanswered. For all but the commands that a
      reply sends off, a caller can see that before the call. */
  lemma OwnSlot(inbound: bool, before: seq<Step>, step: Step, after: seq<Step>, k: nat)
    requires var s := After(Start0(inbound), before);
             && |s.client.written| <= k < |Do(s, step).client.written|
             && QueueOf(Do(s, step).client.written[k]) == Commands
    ensures var s := After(Start0(inbound), before);
            var calm := if step.Answer? then CalmTo(Do(s, step), k) else Calm(s);
            var s' := After(Do(s, step), after);
            && (k < s'.answered ==> ((k, k) in s'.client.taken <==> calm))
            && forall r :: (k, r) in s'.client.taken ==> (r == k <==> calm)
  {
    hide Trails, Do, Waiting, Numbers, CalmTo, Calm, QueueOf;
    FreshTrails(inbound);
    var s := After(Start0(inbound), before);
    var missing := RunRuns(Start0(inbound), 0, before);
    var s1, missing1 := Do(s, step), MissingThen(s, missing, step);
    StepRuns(s, missing, step);
    if !step.Answer? {
      CallKeepsCalm(s, missing, step, k);
    }
    if CalmTo(s1, k) {
      CalmAnswer(s1, missing1, k, after);
    } else {
      RestlessAnswer(s1, missing1, k, after);
    }
  }

  /* ---- api calls ---- */

  /** The slots of api calls are only taken by their own answers. */
  predicate ApisPaired(c: Client) {
    forall i :: 0 <= i < |c.taken| && c.taken[i].0 < |c.written| && c.written[c.taken[i].0].ApiCall? ==>
      c.taken[i].0 == c.taken[i].1
  }

  lemma StepApis(s: Sys, missing: nat, step: Step)
    requires Trails(s, missing) && ApisPaired(s.client) && Delivered(s, Apis)
    requires forall i :: 0 <= i < |s.client.taken| ==> s.client.taken[i].0 < |s.client.written|
    ensures ApisPaired(Do(s, step).client) && Delivered(Do(s, step), Apis)
  {
    hide Trails, Do, MissingThen;
    var s' := Do(s, step);
    StepRuns(s, missing, step);
    if step.Answer? && s.answered < |s.client.written| {
      AnswerWrites(s);
      TakenIs(s, missing);
    } else {
      Untaken(s, step);
    }
    assert forall k :: 0 <= k < |s.client.written| ==> s'.client.written[k] == s.client.written[k];
  }

  lemma {:induction false} ApisFrom(s: Sys, missing: nat, steps: seq<Step>)
    requires Trails(s, missing) && ApisPaired(s.client) && Delivered(s, Apis)
    requires forall i :: 0 <= i < |s.client.taken| ==> s.client.taken[i].0 < |s.client.written|
    ensures ApisPaired(After(s, steps).client) && Delivered(After(s, steps), Apis)
    decreases |steps|
  {
    hide Trails, Do, MissingThen, ApisPaired, Delivered;
    if steps != [] {
      StepRuns(s, missing, steps[0]);
      StepApis(s, missing, steps[0]);
      ApisFrom(Do(s, steps[0]), MissingThen(s, missing, steps[0]), steps[1..]);
    }
  }

  /** In runs of any kind api calls have their slots taken by their own answers, and by no others. */
  lemma ApiSlots(inbound: bool, steps: seq<Step>)
    ensures Delivered(After(Start0(inbound), steps), Apis) && ApisPaired(After(Start0(inbound), steps).client)
  {
    FreshTrails(inbound);
    ApisFrom(Start0(inbound), 0, steps);
  }
}
