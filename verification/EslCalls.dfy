/** What becomes of the calls made on a connection: what is written for each of them, in which order, and which
    listeners an event finds. */
module EslCalls {
  import opened Strings
  import opened EslClient
  import opened EslRuns
  import J = EslJobs

  /* ---- an event of a job ---- */

  lemma {:induction false} ListeningCounts(listeners: seq<JobCall>, jobId: string, wanted: bool)
    ensures forall job :: multiset(Listening(listeners, jobId, wanted))[job] ==
              if (job.jobId == jobId) == wanted then multiset(listeners)[job] else 0
  {
    if listeners != [] {
      var first, rest := listeners[0], listeners[1..];
      ListeningCounts(rest, jobId, wanted);
      assert listeners == [first] + rest;
    }
  }

  /** How much more often `x` is in `s'` than in `s`. */
  function More<T(==)>(s: seq<T>, s': seq<T>, x: T): int { multiset(s')[x] as int - multiset(s)[x] as int }

  /** For each of `jobs`, in a job event: the callback fires, or waits for the answer to the deletion of the filter. */
  ghost predicate Ends(c: Client, c': Client, jobs: seq<JobCall>, event: string) {
    && (forall job :: More(c.fired, c'.fired, JobFired(job, event, None)) ==
          if job.filtered then 0 else multiset(jobs)[job])
    && (forall job :: More(c.callbacks, c'.callbacks, EndJob(job, event)) ==
          if job.filtered then multiset(jobs)[job] else 0)
    && |c'.fired| + |c'.written| == |c.fired| + |c.written| + |jobs|
    && c'.jobListeners == c.jobListeners
  }

  lemma JobOverEnds(c: Client, job: JobCall, event: string)
    ensures Ends(c, JobOver(c, job, event), [job], event)
  {
  }

  lemma EndsBoth(c: Client, c1: Client, c2: Client, job: JobCall, jobs: seq<JobCall>, event: string)
    requires Ends(c, c1, [job], event) && Ends(c1, c2, jobs, event)
    ensures Ends(c, c2, [job] + jobs, event)
  {
    hide More;
    MoreMore(c.fired, c1.fired, c2.fired);
    MoreMore(c.callbacks, c1.callbacks, c2.callbacks);
    assert forall j :: multiset([job] + jobs)[j] == multiset([job])[j] + multiset(jobs)[j];
  }

  lemma MoreMore<T>(a: seq<T>, b: seq<T>, c: seq<T>)
    ensures forall x :: More(a, c, x) == More(a, b, x) + More(b, c, x)
  {
  }

  lemma {:induction false} JobsOverEnds(c: Client, jobs: seq<JobCall>, event: string)
    ensures Ends(c, JobsOver(c, jobs, event), jobs, event)
    decreases |jobs|
  {
    if jobs != [] {
      hide Ends, JobOver;
      JobOverEnds(c, jobs[0], event);
      var c1 := JobOver(c, jobs[0], event);
      JobsOverEnds(c1, jobs[1..], event);
      EndsBoth(c, c1, JobsOver(c1, jobs[1..], event), jobs[0], jobs[1..], event);
      assert jobs == [jobs[0]] + jobs[1..];
    }
  }

  /** The id an event is for: its `Job-UUID`, else its `Unique-ID`, else its `Core-UUID`. */
  predicate IsFor(e: Incoming, id: string) {
    || e.jobUuid == id
    || (e.jobUuid == "" && e.uniqueId == id)
    || (e.jobUuid == e.uniqueId == "" && e.coreUuid == id)
  }

  /** Exactly the listeners of `jobId` are removed. Each of them, as often as it listened, fires at once, or with
      filters in use waits for the answer to the deletion of its filter; nothing else happens. */
  ghost predicate Noticed(c: Client, c': Client, jobId: string) {
    var mine := (job: JobCall) => if job.jobId == jobId then multiset(c.jobListeners)[job] else 0;
    && (forall job :: multiset(c'.jobListeners)[job] == multiset(c.jobListeners)[job] - mine(job))
    && (forall job :: More(c.fired, c'.fired, JobFired(job, jobId, None)) == if job.filtered then 0 else mine(job))
    && (forall job :: More(c.callbacks, c'.callbacks, EndJob(job, jobId)) == if job.filtered then mine(job) else 0)
    && |c'.fired| + |c'.written| + |c'.jobListeners| == |c.fired| + |c.written| + |c.jobListeners|
  }

  /** An event BACKGROUND_JOB, in any of the three formats and whatever other ids it has, is noticed by the listeners of
      the id it is for; without any id nothing happens at all. */
  lemma JobNoticed(c: Client, e: Incoming, jobId: string, reply: nat)
    requires e.contentType in {"text/event-plain", "text/event-json", "text/event-xml"}
    requires e.eventName == "BACKGROUND_JOB"
    ensures jobId != "" && IsFor(e, jobId) ==> Noticed(c, OnEvent(c, e, reply), jobId)
    ensures e.jobUuid == e.uniqueId == e.coreUuid == "" ==> OnEvent(c, e, reply) == c
  {
    hide JobEvent, Noticed;
    JobEventNoticed(c, jobId);
  }

  lemma JobEventNoticed(c: Client, jobId: string)
    ensures Noticed(c, JobEvent(c, jobId), jobId)
  {
    hide JobsOver, Listening, More;
    var mine, rest := Listening(c.jobListeners, jobId, true), Listening(c.jobListeners, jobId, false);
    ListeningCounts(c.jobListeners, jobId, true);
    ListeningCounts(c.jobListeners, jobId, false);
    ListeningLength(c.jobListeners, jobId);
    JobsOverEnds(c.(jobListeners := rest), mine, jobId);
  }

  lemma {:induction false} ListeningLength(listeners: seq<JobCall>, jobId: string)
    ensures |Listening(listeners, jobId, true)| + |Listening(listeners, jobId, false)| == |listeners|
  {
    if listeners != [] {
      ListeningLength(listeners[1..], jobId);
    }
  }

  /** Listeners of one id are run in the order they listened: one that listened behind all others changes nothing of
      what a job event does to those, and comes last. */
  lemma LatestLast(c: Client, job: JobCall, e: Incoming, reply: nat)
    requires e.contentType in {"text/event-plain", "text/event-json", "text/event-xml"}
    requires e.eventName == "BACKGROUND_JOB" && e.jobUuid != ""
    ensures var before := OnEvent(c, e, reply);
            var after := OnEvent(c.(jobListeners := c.jobListeners + [job]), e, reply);
            if job.jobId != e.jobUuid then after == before.(jobListeners := before.jobListeners + [job])
            else if !job.filtered then after == before.(fired := before.fired + [JobFired(job, e.jobUuid, None)])
            else after == DeleteFilter(before, "Job-UUID", e.jobUuid, EndJob(job, e.jobUuid))
  {
    hide JobsOver, Listening;
    var jobId := e.jobUuid;
    var mine, rest := Listening(c.jobListeners, jobId, true), Listening(c.jobListeners, jobId, false);
    ListeningMore(c.jobListeners, job, jobId);
    assert OnEvent(c, e, reply) == JobsOver(c.(jobListeners := rest), mine, jobId);
    if job.jobId == jobId {
      assert OnEvent(c.(jobListeners := c.jobListeners + [job]), e, reply) ==
             JobsOver(c.(jobListeners := rest), mine + [job], jobId) by { assert rest + [] == rest; }
      JobsOverLast(c.(jobListeners := rest), mine, job, jobId);
    } else {
      assert mine + [] == mine;
      JobsOverHears(c.(jobListeners := rest), mine, job, jobId);
    }
  }

  lemma {:induction false} ListeningMore(listeners: seq<JobCall>, job: JobCall, jobId: string)
    ensures forall wanted :: Listening(listeners + [job], jobId, wanted) ==
              Listening(listeners, jobId, wanted) + (if (job.jobId == jobId) == wanted then [job] else [])
  {
    if listeners == [] {
      assert [] + [job] == [job] && [job][1..] == [];
    } else {
      ListeningMore(listeners[1..], job, jobId);
      assert (listeners + [job])[1..] == listeners[1..] + [job];
    }
  }

  lemma {:induction false} JobsOverLast(c: Client, jobs: seq<JobCall>, job: JobCall, event: string)
    ensures JobsOver(c, jobs + [job], event) == JobOver(JobsOver(c, jobs, event), job, event)
    decreases |jobs|
  {
    hide JobOver;
    if jobs == [] {
      assert [] + [job] == [job] && [job][1..] == [];
      JobsOverNone(JobOver(c, job, event), event);
    } else {
      JobsOverLast(JobOver(c, jobs[0], event), jobs[1..], job, event);
      assert (jobs + [job])[1..] == jobs[1..] + [job];
    }
  }

  lemma JobsOverNone(c: Client, event: string)
    ensures JobsOver(c, [], event) == c
  {
  }

  lemma {:induction false} JobsOverHears(c: Client, jobs: seq<JobCall>, job: JobCall, event: string)
    ensures JobsOver(c.(jobListeners := c.jobListeners + [job]), jobs, event) ==
            var c' := JobsOver(c, jobs, event); c'.(jobListeners := c'.jobListeners + [job])
    decreases |jobs|
  {
    if jobs != [] {
      JobsOverHears(JobOver(c, jobs[0], event), jobs[1..], job, event);
    }
  }

  /* ---- what callers write ---- */

  /** A command written for a job, not for a caller. A caller's deletion of a `Job-UUID` filter without a callback
      looks like one. */
  predicate OfJob(cmd: Command, callback: Callback) {
    || cmd.BgApi? || callback.StartJob? || callback.EndJob?
    || (cmd.FilterDelete? && cmd.header == "Job-UUID" && callback.NoCallback?)
  }

  /** The commands written that are not for jobs, with their callbacks. */
  function OfCallers(written: seq<Command>, callbacks: seq<Callback>): seq<(Command, Callback)>
    requires |written| == |callbacks|
  {
    if written == [] then []
    else
      var n := |written| - 1;
      OfCallers(written[..n], callbacks[..n]) +
      (if OfJob(written[n], callbacks[n]) then [] else [(written[n], callbacks[n])])
  }

  /** What a caller asks for in a step. */
  function Asked(step: Step): seq<(Command, Callback)> {
    match step
    case DoSend(text, callback) => [(Plain(text), callback)]
    case DoApi(text, callback) => [(ApiCall(text), callback)]
    case DoFilter(header, value, callback) => [(FilterAdd(header, value), callback)]
    case DoDeleteFilter(header, value, callback) =>
      if header == "Job-UUID" && callback.NoCallback? then [] else [(FilterDelete(header, value), callback)]
    case DoExecute(channel, eventUuid, _) => [(SendMsg(channel, eventUuid), NoCallback)]
    case DoExit => [(Exit, NoCallback)]
    case _ => []
  }

  function AllAsked(steps: seq<Step>): seq<(Command, Callback)> {
    if steps == [] then [] else AllAsked(steps[..|steps| - 1]) + Asked(steps[|steps| - 1])
  }

  /** From `c` to `c'` the callers' commands grew by `more`. */
  predicate Wrote(c: Client, c': Client, more: seq<(Command, Callback)>) {
    && |c.written| == |c.callbacks| && |c'.written| == |c'.callbacks|
    && OfCallers(c'.written, c'.callbacks) == OfCallers(c.written, c.callbacks) + more
  }

  lemma SendWrote(c: Client, cmd: Command, callback: Callback)
    requires |c.written| == |c.callbacks|
    ensures Wrote(c, Send(c, cmd, callback), if OfJob(cmd, callback) then [] else [(cmd, callback)])
  {
    hide OfJob;
    var c' := Send(c, cmd, callback);
    var n := |c.written|;
    assert c'.written[..n] == c.written && c'.callbacks[..n] == c.callbacks;
    if OfJob(cmd, callback) {
      assert OfCallers(c.written, c.callbacks) + [] == OfCallers(c.written, c.callbacks);
    }
  }

  lemma SameWrote(c: Client, c': Client)
    requires |c.written| == |c.callbacks| && c'.written == c.written && c'.callbacks == c.callbacks
    ensures Wrote(c, c', [])
  {
  }

  lemma WroteThen(c: Client, c1: Client, c2: Client, more: seq<(Command, Callback)>)
    requires Wrote(c, c1, []) && Wrote(c1, c2, more)
    ensures Wrote(c, c2, more)
  {
    hide OfCallers;
    assert OfCallers(c.written, c.callbacks) + [] == OfCallers(c.written, c.callbacks);
  }

  lemma QueueWrote(c: Client, cmd: Command, callback: Callback)
    requires |c.written| == |c.callbacks|
    ensures Wrote(c, SendRecv(c, cmd, callback), if OfJob(cmd, callback) then [] else [(cmd, callback)])
    ensures cmd.ApiCall? ==>
              Wrote(c, Api(c, cmd.text, callback), if OfJob(cmd, callback) then [] else [(cmd, callback)])
  {
    hide OfCallers, OfJob;
    SendWrote(c, cmd, callback);
  }

  lemma StartWrote(c: Client, job: JobCall)
    requires |c.written| == |c.callbacks|
    ensures Wrote(c, Start(c, job), [])
  {
    hide Wrote, SendRecv;
    var listening := c.(jobListeners := c.jobListeners + [job]);
    SameWrote(c, listening);
    SameWrote(c, c);
    QueueWrote(c, FilterDelete(JOB, job.jobId), NoCallback);
    var c' := if job.hasCallback then listening
              else if job.filtered then DeleteFilter(c, JOB, job.jobId, NoCallback) else c;
    assert Wrote(c, c', []);
    WroteLengths(c, c');
    QueueWrote(c', BgApi(job), NoCallback);
    WroteThen(c, c', Start(c, job), []);
  }

  lemma WroteLengths(c: Client, c': Client)
    requires Wrote(c, c', [])
    ensures |c'.written| == |c'.callbacks|
  {
  }

  lemma {:induction false} JobsOverWrote(c: Client, jobs: seq<JobCall>, event: string)
    requires |c.written| == |c.callbacks|
    ensures Wrote(c, JobsOver(c, jobs, event), [])
    decreases |jobs|
  {
    if jobs == [] {
      SameWrote(c, c);
    } else {
      hide Wrote, SendRecv;
      var job := jobs[0];
      var c1 := JobOver(c, job, event);
      QueueWrote(c, FilterDelete(JOB, job.jobId), EndJob(job, event));
      SameWrote(c, c.(fired := c.fired + [JobFired(job, event, None)]));
      WroteLengths(c, c1);
      JobsOverWrote(c1, jobs[1..], event);
      WroteThen(c, c1, JobsOver(c1, jobs[1..], event), []);
    }
  }

  lemma RunWrote(c: Client, slot: Slot, reply: nat)
    requires |c.written| == |c.callbacks|
    ensures Wrote(c, Run(c, slot, reply), [])
  {
    hide Wrote, Start;
    if slot.callback.StartJob? {
      StartWrote(c, slot.callback.job);
    } else {
      SameWrote(c, Run(c, slot, reply));
    }
  }

  lemma ReplyWrote(c: Client, reply: nat)
    requires |c.written| == |c.callbacks|
    ensures Wrote(c, CommandReply(c, reply), []) && Wrote(c, ApiResponse(c, reply), [])
  {
    hide Wrote, Run;
    SameWrote(c, c);
    if c.cmdQueue != [] {
      SameWrote(c, PopCommand(c, reply));
      RunWrote(PopCommand(c, reply), c.cmdQueue[0], reply);
      WroteThen(c, PopCommand(c, reply), CommandReply(c, reply), []);
    }
    if c.apiQueue != [] {
      SameWrote(c, PopApi(c, reply));
      RunWrote(PopApi(c, reply), c.apiQueue[0], reply);
      WroteThen(c, PopApi(c, reply), ApiResponse(c, reply), []);
    }
  }

  lemma BgapiWrote(c: Client, text: string, jobId: string, hasCallback: bool)
    requires |c.written| == |c.callbacks|
    ensures Wrote(c, Bgapi(c, text, jobId, hasCallback), [])
  {
    hide Wrote, Start, SendRecv;
    var job := JobCall(|c.jobs|, text, jobId, hasCallback, c.usingFilters);
    var c' := c.(jobs := c.jobs + [job]);
    var c1 := c'.(usingFilters := true);
    SameWrote(c, c');
    SameWrote(c, c1);
    QueueWrote(c1, FilterAdd(JOB, jobId), StartJob(job));
    StartWrote(c', job);
    WroteThen(c, c1, SendRecv(c1, FilterAdd(JOB, jobId), StartJob(job)), []);
    WroteThen(c, c', Start(c', job), []);
  }

  lemma StepWrote(s: Sys, step: Step)
    requires Sane(step) && |s.client.written| == |s.client.callbacks|
    ensures Wrote(s.client, Do(s, step).client, Asked(step))
  {
    hide Wrote, Send, SendRecv, Api, CommandReply, ApiResponse, JobsOver, Listening, ExecuteComplete, OnEvent, Bgapi;
    hide Uuid, ExecutedId, JobNotice, Completion;
    EventSteps(s, step);
    var c := s.client;
    SameWrote(c, c);
    match step
    case DoSend(text, callback) => QueueWrote(c, Plain(text), callback);
    case DoApi(text, callback) => QueueWrote(c, ApiCall(text), callback);
    case DoFilter(header, value, callback) =>
      var c1 := c.(usingFilters := true);
      SameWrote(c, c1);
      QueueWrote(c1, FilterAdd(header, value), callback);
      WroteThen(c, c1, SendRecv(c1, FilterAdd(header, value), callback), Asked(step));
    case DoDeleteFilter(header, value, callback) => QueueWrote(c, FilterDelete(header, value), callback);
    case DoBgapi(text, jobId, hasCallback) => BgapiWrote(c, text, jobId, hasCallback);
    case DoExecute(channel, eventUuid, handler) => ExecuteWrote(c, channel, eventUuid, handler);
    case DoExit => SendWrote(c, Exit, NoCallback);
    case Answer => ReplyWrote(c, s.answered);
    case Arrive(e) =>
      var rest := c.(jobListeners := Listening(c.jobListeners, Uuid(e), false));
      SameWrote(c, rest);
      JobsOverWrote(rest, Listening(c.jobListeners, Uuid(e), true), Uuid(e));
      WroteThen(c, rest, JobEvent(c, Uuid(e)), []);
      ExecuteCompleteKeeps(c, c.executeListeners, Uuid(e), ExecutedId(e));
      SameWrote(c, ExecuteComplete(c, c.executeListeners, Uuid(e), ExecutedId(e)));
  }

  lemma ExecuteWrote(c: Client, channel: string, eventUuid: string, handler: Option<nat>)
    requires |c.written| == |c.callbacks|
    ensures Wrote(c, Execute(c, channel, eventUuid, handler), [(SendMsg(channel, eventUuid), NoCallback)])
  {
    hide Wrote;
    var c' := Execute(c, channel, eventUuid, handler);
    var unsent := c'.(written := c.written, callbacks := c.callbacks);
    SameWrote(c, unsent);
    SendWrote(unsent, SendMsg(channel, eventUuid), NoCallback);
    assert c' == Send(unsent, SendMsg(channel, eventUuid), NoCallback);
    WroteThen(c, unsent, c', [(SendMsg(channel, eventUuid), NoCallback)]);
  }

  /** What is on the wire: apart from what is written for jobs, every run has written just what callers asked for,
      in order, each command with the callback given for it; an outbound connection has sent `connect` first. */
  lemma {:induction false} WireOrder(inbound: bool, steps: seq<Step>)
    requires forall i :: 0 <= i < |steps| ==> Sane(steps[i])
    ensures var c := After(Start0(inbound), steps).client;
            && |c.written| == |c.callbacks|
            && OfCallers(c.written, c.callbacks) == (if inbound then [] else [(Connect, NoCallback)]) + AllAsked(steps)
    decreases |steps|
  {
    hide Do, Asked;
    if steps == [] {
      FreshWrote(inbound);
      return;
    }
    hide After, OfCallers;
    var front, last := steps[..|steps| - 1], steps[|steps| - 1];
    assert AllAsked(steps) == AllAsked(front) + Asked(last);
    hide AllAsked, Start0;
    WireOrder(inbound, front);
    AfterLast(Start0(inbound), front, last);
    assert steps == front + [last];
    StepWrote(After(Start0(inbound), front), last);
  }

  lemma FreshWrote(inbound: bool)
    ensures var c := Fresh(inbound);
            && |c.written| == |c.callbacks|
            && OfCallers(c.written, c.callbacks) == if inbound then [] else [(Connect, NoCallback)]
  {
    if !inbound {
      assert [Connect][..0] == [] && [NoCallback][..0] == [];
    }
  }

  lemma AfterLast(s: Sys, front: seq<Step>, last: Step)
    ensures After(s, front + [last]) == Do(After(s, front), last)
  {
    hide Do;
    AfterAppend(s, front, [last]);
    assert [last][1..] == [];
    assert After(After(s, front), [last]) == After(Do(After(s, front), last), []);
  }

  /* ---- what is written for jobs ---- */

  /** Some caller set a filter. */
  predicate SomeFilter(steps: seq<Step>) { exists i :: 0 <= i < |steps| && steps[i].DoFilter? }

  /** The `bgapi` calls of a run: one made once a caller set a filter is filtered. */
  function CallsOf(steps: seq<Step>): seq<JobCall> {
    if steps == [] then []
    else
      var front, last := steps[..|steps| - 1], steps[|steps| - 1];
      CallsOf(front) +
      (if last.DoBgapi? then [JobCall(|CallsOf(front)|, last.text, last.jobId, last.hasCallback, SomeFilter(front))]
       else [])
  }

  lemma StartFilters(c: Client, job: JobCall)
    ensures Start(c, job).usingFilters == c.usingFilters
  {
  }

  lemma {:induction false} JobsOverFilters(c: Client, jobs: seq<JobCall>, event: string)
    ensures JobsOver(c, jobs, event).usingFilters == c.usingFilters
    decreases |jobs|
  {
    if jobs != [] {
      JobsOverFilters(JobOver(c, jobs[0], event), jobs[1..], event);
    }
  }

  lemma RunFilters(c: Client, slot: Slot, reply: nat)
    ensures Run(c, slot, reply).usingFilters == c.usingFilters
  {
    hide Start;
    if slot.callback.StartJob? {
      StartFilters(c, slot.callback.job);
    }
  }

  lemma BgapiFilters(c: Client, text: string, jobId: string, hasCallback: bool)
    ensures Bgapi(c, text, jobId, hasCallback).usingFilters == c.usingFilters
  {
    hide Start;
    var job := JobCall(|c.jobs|, text, jobId, hasCallback, c.usingFilters);
    StartFilters(c.(jobs := c.jobs + [job]), job);
  }

  lemma StepFilters(s: Sys, step: Step)
    ensures Do(s, step).client.usingFilters == (s.client.usingFilters || step.DoFilter?)
  {
    hide Run, JobsOver, Listening, ExecuteComplete, OnEvent, Bgapi, Uuid, ExecutedId, JobNotice, Completion;
    EventSteps(s, step);
    var c := s.client;
    match step
    case DoBgapi(text, jobId, hasCallback) => BgapiFilters(c, text, jobId, hasCallback);
    case Answer =>
      if c.cmdQueue != [] {
        RunFilters(PopCommand(c, s.answered), c.cmdQueue[0], s.answered);
      }
      if c.apiQueue != [] {
        RunFilters(PopApi(c, s.answered), c.apiQueue[0], s.answered);
      }
    case Arrive(e) =>
      JobsOverFilters(c.(jobListeners := Listening(c.jobListeners, Uuid(e), false)),
                      Listening(c.jobListeners, Uuid(e), true), Uuid(e));
      ExecuteCompleteKeeps(c, c.executeListeners, Uuid(e), ExecutedId(e));
    case _ =>
  }

  /** The jobs of a run are its `bgapi` calls, in order; a call is filtered exactly when a caller set a filter
      before. */
  lemma {:induction false} CallsAre(inbound: bool, steps: seq<Step>)
    ensures var c := After(Start0(inbound), steps).client;
            c.jobs == CallsOf(steps) && c.usingFilters == SomeFilter(steps)
    decreases |steps|
  {
    hide Do;
    if steps != [] {
      var front, last := steps[..|steps| - 1], steps[|steps| - 1];
      CallsAre(inbound, front);
      AfterLast(Start0(inbound), front, last);
      assert steps == front + [last];
      J.StepLaunches(After(Start0(inbound), front), last);
      StepFilters(After(Start0(inbound), front), last);
      assert SomeFilter(steps) <==> SomeFilter(front) || last.DoFilter? by { FilterLast(front, last); }
    }
  }

  lemma FilterLast(front: seq<Step>, last: Step)
    ensures SomeFilter(front + [last]) <==> SomeFilter(front) || last.DoFilter?
  {
    var steps := front + [last];
    assert steps[|front|] == last;
    if SomeFilter(front) {
      var i :| 0 <= i < |front| && front[i].DoFilter?;
      assert steps[i] == front[i];
    }
  }

  /** The callbacks that wait in a queue. */
  function Held(slots: seq<Slot>): seq<Callback> {
    seq(|slots|, i requires 0 <= i < |slots| => slots[i].callback)
  }

  /** How often the command of a call is written, or a callback waits that will write it. */
  function Launches(c: Client, job: JobCall): nat {
    multiset(c.written)[BgApi(job)] + multiset(Held(c.cmdQueue))[StartJob(job)] +
    multiset(Held(c.apiQueue))[StartJob(job)]
  }

  /** From `c` to `c'` there is one more launch of `added`, if that is a call, and none of any other. */
  ghost predicate Adds(c: Client, c': Client, added: Option<JobCall>) {
    forall job :: Launches(c', job) == Launches(c, job) + (if added == Some(job) then 1 else 0)
  }

  /** The call that a command or its callback launches. */
  function LaunchOf(cmd: Command, callback: Callback): Option<JobCall> {
    if cmd.BgApi? then Some(cmd.job) else if callback.StartJob? then Some(callback.job) else None
  }

  lemma AddedOnce<T>(s: seq<T>, x: T)
    ensures forall y :: multiset(s + [x])[y] == multiset(s)[y] + (if x == y then 1 else 0)
  {
  }

  lemma HeldMore(slots: seq<Slot>, slot: Slot)
    ensures Held(slots + [slot]) == Held(slots) + [slot.callback]
  {
  }

  lemma HeldLess(slots: seq<Slot>)
    requires slots != []
    ensures forall callback :: multiset(Held(slots))[callback] ==
              multiset(Held(slots[1..]))[callback] + (if slots[0].callback == callback then 1 else 0)
  {
    assert Held(slots) == [slots[0].callback] + Held(slots[1..]);
  }

  lemma SendAdds(c: Client, cmd: Command, callback: Callback)
    requires cmd.BgApi? ==> !callback.StartJob?
    ensures Adds(c, SendRecv(c, cmd, callback), LaunchOf(cmd, callback))
    ensures cmd.ApiCall? ==> Adds(c, Api(c, cmd.text, callback), LaunchOf(cmd, callback))
  {
    hide Held;
    var slot := Slot(callback, |c.written|);
    HeldMore(c.cmdQueue, slot);
    HeldMore(c.apiQueue, slot);
    AddedOnce(c.written, cmd);
    AddedOnce(Held(c.cmdQueue), callback);
    AddedOnce(Held(c.apiQueue), callback);
  }

  lemma PlainAdds(c: Client, cmd: Command)
    requires !cmd.BgApi?
    ensures Adds(c, Send(c, cmd, NoCallback), None)
  {
    hide Held;
    AddedOnce(c.written, cmd);
  }

  lemma SameAdds(c: Client, c': Client)
    requires c'.written == c.written && c'.cmdQueue == c.cmdQueue && c'.apiQueue == c.apiQueue
    ensures Adds(c, c', None)
  {
    hide Held;
  }

  lemma AddsThen(c: Client, c1: Client, c2: Client, added: Option<JobCall>)
    requires Adds(c, c1, None) && Adds(c1, c2, added)
    ensures Adds(c, c2, added)
  {
    hide Launches;
  }

  /** The closure run once a job's filter is in place launches it. */
  lemma StartAdds(c: Client, job: JobCall)
    ensures Adds(c, Start(c, job), Some(job))
  {
    hide Adds, SendRecv;
    var listening := c.(jobListeners := c.jobListeners + [job]);
    SameAdds(c, listening);
    SameAdds(c, c);
    SendAdds(c, FilterDelete(JOB, job.jobId), NoCallback);
    var c' := if job.hasCallback then listening
              else if job.filtered then DeleteFilter(c, JOB, job.jobId, NoCallback) else c;
    SendAdds(c', BgApi(job), NoCallback);
    AddsThen(c, c', Start(c, job), Some(job));
  }

  lemma {:induction false} JobsOverAdds(c: Client, jobs: seq<JobCall>, event: string)
    ensures Adds(c, JobsOver(c, jobs, event), None)
    decreases |jobs|
  {
    hide Adds, SendRecv;
    if jobs == [] {
      SameAdds(c, c);
    } else {
      var c1 := JobOver(c, jobs[0], event);
      SendAdds(c, FilterDelete(JOB, jobs[0].jobId), EndJob(jobs[0], event));
      SameAdds(c, c.(fired := c.fired + [JobFired(jobs[0], event, None)]));
      JobsOverAdds(c1, jobs[1..], event);
      AddsThen(c, c1, JobsOver(c1, jobs[1..], event), None);
    }
  }

  /** Taking a slot loses the launch in it, and running it makes up for that. */
  lemma PopAdds(c: Client, reply: nat)
    ensures c.cmdQueue != [] ==> Adds(PopCommand(c, reply), c, LaunchIn(c.cmdQueue[0]))
    ensures c.apiQueue != [] ==> Adds(PopApi(c, reply), c, LaunchIn(c.apiQueue[0]))
  {
    hide Held;
    if c.cmdQueue != [] {
      HeldLess(c.cmdQueue);
    }
    if c.apiQueue != [] {
      HeldLess(c.apiQueue);
    }
  }

  function LaunchIn(slot: Slot): Option<JobCall> {
    if slot.callback.StartJob? then Some(slot.callback.job) else None
  }

  lemma RunAdds(c: Client, slot: Slot, reply: nat)
    ensures Adds(c, Run(c, slot, reply), LaunchIn(slot))
  {
    hide Adds, Start;
    if slot.callback.StartJob? {
      StartAdds(c, slot.callback.job);
    } else {
      SameAdds(c, Run(c, slot, reply));
    }
  }

  lemma ReplyAdds(c: Client, reply: nat)
    ensures Adds(c, CommandReply(c, reply), None) && Adds(c, ApiResponse(c, reply), None)
  {
    hide Run, Launches, LaunchIn;
    PopAdds(c, reply);
    if c.cmdQueue != [] {
      RunAdds(PopCommand(c, reply), c.cmdQueue[0], reply);
    }
    if c.apiQueue != [] {
      RunAdds(PopApi(c, reply), c.apiQueue[0], reply);
    }
  }

  lemma BgapiAdds(c: Client, text: string, jobId: string, hasCallback: bool)
    ensures var job := JobCall(|c.jobs|, text, jobId, hasCallback, c.usingFilters);
            Adds(c, Bgapi(c, text, jobId, hasCallback), Some(job))
  {
    hide Adds, Start, SendRecv;
    var job := JobCall(|c.jobs|, text, jobId, hasCallback, c.usingFilters);
    var c' := c.(jobs := c.jobs + [job]);
    var c1 := c'.(usingFilters := true);
    SameAdds(c, c');
    SameAdds(c, c1);
    SendAdds(c1, FilterAdd(JOB, jobId), StartJob(job));
    StartAdds(c', job);
    AddsThen(c, c1, SendRecv(c1, FilterAdd(JOB, jobId), StartJob(job)), Some(job));
    AddsThen(c, c', Start(c', job), Some(job));
  }

  lemma StepAdds(s: Sys, step: Step)
    requires Sane(step)
    ensures var c := s.client;
            Adds(c, Do(s, step).client,
                 if step.DoBgapi?
                 then Some(JobCall(|c.jobs|, step.text, step.jobId, step.hasCallback, c.usingFilters)) else None)
  {
    hide Adds, Send, SendRecv, Api, CommandReply, ApiResponse, JobsOver, Listening, ExecuteComplete, OnEvent, Bgapi;
    hide Uuid, ExecutedId, JobNotice, Completion;
    EventSteps(s, step);
    var c := s.client;
    SameAdds(c, c);
    match step
    case DoSend(text, callback) => SendAdds(c, Plain(text), callback);
    case DoApi(text, callback) => SendAdds(c, ApiCall(text), callback);
    case DoFilter(header, value, callback) =>
      var c1 := c.(usingFilters := true);
      SameAdds(c, c1);
      SendAdds(c1, FilterAdd(header, value), callback);
      AddsThen(c, c1, SendRecv(c1, FilterAdd(header, value), callback), None);
    case DoDeleteFilter(header, value, callback) => SendAdds(c, FilterDelete(header, value), callback);
    case DoBgapi(text, jobId, hasCallback) => BgapiAdds(c, text, jobId, hasCallback);
    case DoExecute(channel, eventUuid, handler) => ExecuteAdds(c, channel, eventUuid, handler);
    case DoExit => PlainAdds(c, Exit);
    case Answer => ReplyAdds(c, s.answered);
    case Arrive(e) =>
      var rest := c.(jobListeners := Listening(c.jobListeners, Uuid(e), false));
      SameAdds(c, rest);
      JobsOverAdds(rest, Listening(c.jobListeners, Uuid(e), true), Uuid(e));
      AddsThen(c, rest, JobEvent(c, Uuid(e)), None);
      ExecuteCompleteKeeps(c, c.executeListeners, Uuid(e), ExecutedId(e));
      SameAdds(c, ExecuteComplete(c, c.executeListeners, Uuid(e), ExecutedId(e)));
  }

  lemma ExecuteAdds(c: Client, channel: string, eventUuid: string, handler: Option<nat>)
    ensures Adds(c, Execute(c, channel, eventUuid, handler), None)
  {
    hide Adds;
    var c' := Execute(c, channel, eventUuid, handler);
    var unsent := c'.(written := c.written, callbacks := c.callbacks);
    SameAdds(c, unsent);
    PlainAdds(unsent, SendMsg(channel, eventUuid));
    assert c' == Send(unsent, SendMsg(channel, eventUuid), NoCallback);
    AddsThen(c, unsent, c', None);
  }

  /** Every `bgapi` call of a run is launched once: its command is written, exactly once, or the callback that will
      write it waits, exactly once, for the answer to the filter set for it; and nothing else is launched. */
  lemma {:induction false} LaunchedOnce(inbound: bool, steps: seq<Step>)
    requires forall i :: 0 <= i < |steps| ==> Sane(steps[i])
    ensures var c := After(Start0(inbound), steps).client;
            forall job :: Launches(c, job) == if job in CallsOf(steps) then 1 else 0
    decreases |steps|
  {
    hide Do, Launches;
    if steps == [] {
      FreshLaunches(inbound);
    } else {
      var front, last := steps[..|steps| - 1], steps[|steps| - 1];
      LaunchedOnce(inbound, front);
      CallsAre(inbound, front);
      AfterLast(Start0(inbound), front, last);
      assert steps == front + [last];
      StepAdds(After(Start0(inbound), front), last);
      CallsNumbered(front);
    }
  }

  lemma FreshLaunches(inbound: bool)
    ensures forall job :: Launches(Fresh(inbound), job) == 0
  {
  }

  lemma {:induction false} CallsNumbered(steps: seq<Step>)
    ensures forall i :: 0 <= i < |CallsOf(steps)| ==> CallsOf(steps)[i].call == i
    decreases |steps|
  {
    hide SomeFilter;
    if steps != [] {
      CallsNumbered(steps[..|steps| - 1]);
    }
  }

  /* ---- with which filters ---- */

  /** Filtered, and without a callback. */
  predicate Bare(job: JobCall) { job.filtered && !job.hasCallback }

  /** The callback that launches a call waits for the answer to the filter of its own job, and the command of a call
      without callback is written right behind the deletion of its filter. */
  predicate FilteredFor(c: Client) {
    && |c.written| == |c.callbacks|
    && (forall k :: 0 <= k < |c.written| && c.callbacks[k].StartJob? ==>
          c.callbacks[k].job.filtered && c.written[k] == FilterAdd("Job-UUID", c.callbacks[k].job.jobId))
    && (forall k :: 0 <= k < |c.written| && c.callbacks[k].EndJob? ==>
          c.written[k] == FilterDelete("Job-UUID", c.callbacks[k].job.jobId))
    && (forall k :: 0 <= k < |c.written| && c.written[k].BgApi? && Bare(c.written[k].job) ==>
          k > 0 && c.written[k - 1] == FilterDelete("Job-UUID", c.written[k].job.jobId))
  }

  lemma SendFilteredFor(c: Client, cmd: Command, callback: Callback)
    requires FilteredFor(c)
    requires callback.StartJob? ==> callback.job.filtered && cmd == FilterAdd("Job-UUID", callback.job.jobId)
    requires callback.EndJob? ==> cmd == FilterDelete("Job-UUID", callback.job.jobId)
    requires cmd.BgApi? && Bare(cmd.job) ==>
               c.written != [] && c.written[|c.written| - 1] == FilterDelete("Job-UUID", cmd.job.jobId)
    ensures FilteredFor(Send(c, cmd, callback))
  {
  }

  lemma QueueFilteredFor(c: Client, cmd: Command, callback: Callback)
    requires FilteredFor(c)
    requires callback.StartJob? ==> callback.job.filtered && cmd == FilterAdd("Job-UUID", callback.job.jobId)
    requires callback.EndJob? ==> cmd == FilterDelete("Job-UUID", callback.job.jobId)
    requires cmd.BgApi? && Bare(cmd.job) ==>
               c.written != [] && c.written[|c.written| - 1] == FilterDelete("Job-UUID", cmd.job.jobId)
    ensures FilteredFor(SendRecv(c, cmd, callback))
    ensures cmd.ApiCall? ==> FilteredFor(Api(c, cmd.text, callback))
  {
    SendFilteredFor(c, cmd, callback);
  }

  lemma SameFilteredFor(c: Client, c': Client)
    requires FilteredFor(c) && c'.written == c.written && c'.callbacks == c.callbacks
    ensures FilteredFor(c')
  {
  }

  lemma StartFilteredFor(c: Client, job: JobCall)
    requires FilteredFor(c)
    ensures FilteredFor(Start(c, job))
  {
    hide FilteredFor;
    var listening := c.(jobListeners := c.jobListeners + [job]);
    SameFilteredFor(c, listening);
    QueueFilteredFor(c, FilterDelete(JOB, job.jobId), NoCallback);
    var c' := if job.hasCallback then listening
              else if job.filtered then DeleteFilter(c, JOB, job.jobId, NoCallback) else c;
    QueueFilteredFor(c', BgApi(job), NoCallback);
  }

  lemma {:induction false} JobsOverFilteredFor(c: Client, jobs: seq<JobCall>, event: string)
    requires FilteredFor(c)
    ensures FilteredFor(JobsOver(c, jobs, event))
    decreases |jobs|
  {
    hide FilteredFor, SendRecv;
    if jobs != [] {
      QueueFilteredFor(c, FilterDelete(JOB, jobs[0].jobId), EndJob(jobs[0], event));
      SameFilteredFor(c, c.(fired := c.fired + [JobFired(jobs[0], event, None)]));
      JobsOverFilteredFor(JobOver(c, jobs[0], event), jobs[1..], event);
    }
  }

  lemma RunFilteredFor(c: Client, slot: Slot, reply: nat)
    requires FilteredFor(c)
    ensures FilteredFor(Run(c, slot, reply))
  {
    hide FilteredFor, Start;
    if slot.callback.StartJob? {
      StartFilteredFor(c, slot.callback.job);
    } else {
      SameFilteredFor(c, Run(c, slot, reply));
    }
  }

  lemma ReplyFilteredFor(c: Client, reply: nat)
    requires FilteredFor(c)
    ensures FilteredFor(CommandReply(c, reply)) && FilteredFor(ApiResponse(c, reply))
  {
    hide FilteredFor, Run;
    if c.cmdQueue != [] {
      SameFilteredFor(c, PopCommand(c, reply));
      RunFilteredFor(PopCommand(c, reply), c.cmdQueue[0], reply);
    }
    if c.apiQueue != [] {
      SameFilteredFor(c, PopApi(c, reply));
      RunFilteredFor(PopApi(c, reply), c.apiQueue[0], reply);
    }
  }

  lemma BgapiFilteredFor(c: Client, text: string, jobId: string, hasCallback: bool)
    requires FilteredFor(c)
    ensures FilteredFor(Bgapi(c, text, jobId, hasCallback))
  {
    hide FilteredFor, Start, SendRecv;
    var job := JobCall(|c.jobs|, text, jobId, hasCallback, c.usingFilters);
    var c' := c.(jobs := c.jobs + [job]);
    SameFilteredFor(c, c');
    SameFilteredFor(c, c'.(usingFilters := true));
    if job.filtered {
      QueueFilteredFor(c'.(usingFilters := true), FilterAdd(JOB, jobId), StartJob(job));
    }
    StartFilteredFor(c', job);
  }

  lemma StepFilteredFor(s: Sys, step: Step)
    requires Sane(step) && FilteredFor(s.client)
    ensures FilteredFor(Do(s, step).client)
  {
    hide FilteredFor, Send, SendRecv, Api, CommandReply, ApiResponse, JobsOver, Listening, ExecuteComplete, OnEvent;
    hide Bgapi, Uuid, ExecutedId, JobNotice, Completion;
    EventSteps(s, step);
    var c := s.client;
    match step
    case DoSend(text, callback) => QueueFilteredFor(c, Plain(text), callback);
    case DoApi(text, callback) => QueueFilteredFor(c, ApiCall(text), callback);
    case DoFilter(header, value, callback) =>
      SameFilteredFor(c, c.(usingFilters := true));
      QueueFilteredFor(c.(usingFilters := true), FilterAdd(header, value), callback);
    case DoDeleteFilter(header, value, callback) => QueueFilteredFor(c, FilterDelete(header, value), callback);
    case DoBgapi(text, jobId, hasCallback) => BgapiFilteredFor(c, text, jobId, hasCallback);
    case DoExecute(channel, eventUuid, handler) => ExecuteFilteredFor(c, channel, eventUuid, handler);
    case DoExit => SendFilteredFor(c, Exit, NoCallback);
    case Answer => ReplyFilteredFor(c, s.answered);
    case Arrive(e) =>
      var rest := c.(jobListeners := Listening(c.jobListeners, Uuid(e), false));
      SameFilteredFor(c, rest);
      JobsOverFilteredFor(rest, Listening(c.jobListeners, Uuid(e), true), Uuid(e));
      ExecuteCompleteKeeps(c, c.executeListeners, Uuid(e), ExecutedId(e));
      SameFilteredFor(c, ExecuteComplete(c, c.executeListeners, Uuid(e), ExecutedId(e)));
  }

  lemma ExecuteFilteredFor(c: Client, channel: string, eventUuid: string, handler: Option<nat>)
    requires FilteredFor(c)
    ensures FilteredFor(Execute(c, channel, eventUuid, handler))
  {
    hide FilteredFor;
    var c' := Execute(c, channel, eventUuid, handler);
    var unsent := c'.(written := c.written, callbacks := c.callbacks);
    SameFilteredFor(c, unsent);
    SendFilteredFor(unsent, SendMsg(channel, eventUuid), NoCallback);
    assert c' == Send(unsent, SendMsg(channel, eventUuid), NoCallback);
  }

  lemma {:induction false} FiltersFrom(s: Sys, steps: seq<Step>)
    requires FilteredFor(s.client) && forall i :: 0 <= i < |steps| ==> Sane(steps[i])
    ensures FilteredFor(After(s, steps).client)
    decreases |steps|
  {
    hide FilteredFor, Do;
    if steps != [] {
      StepFilteredFor(s, steps[0]);
      FiltersFrom(Do(s, steps[0]), steps[1..]);
    }
  }

  /** Filters of jobs, in every run: a call waits for the answer to the filter of its own id, and only if filters were
      in use; its callback waits for the answer to the deletion of that filter; and without a callback the filter is
      deleted just before the command. */
  lemma FiltersOfJobs(inbound: bool, steps: seq<Step>)
    requires forall i :: 0 <= i < |steps| ==> Sane(steps[i])
    ensures FilteredFor(After(Start0(inbound), steps).client)
  {
    hide After;
    FiltersFrom(Start0(inbound), steps);
  }
}
