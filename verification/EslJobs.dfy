/** Background jobs and execute completions, over whole runs: what becomes of the callback of
    every `bgapi` and `execute` call. */
module EslJobs {
  import opened Strings
  import opened EslClient
  import opened EslRuns

  /* ---- where the callback of a bgapi call is ---- */

  function Mark(job: JobCall): multiset<nat> { if job.hasCallback then multiset{job.call} else multiset{} }

  /** The call whose callback a slot leads to; `early` counts the calls that are not listening yet. */
  function SlotMark(slot: Slot, early: bool): multiset<nat> {
    match slot.callback
    case StartJob(job) => if early then Mark(job) else multiset{}
    case EndJob(job, _) => Mark(job)
    case _ => multiset{}
  }

  function FiredMark(f: Fired): multiset<nat> {
    match f
    case JobFired(job, _, _) => Mark(job)
    case _ => multiset{}
  }

  function SlotMarks(slots: seq<Slot>, early: bool): multiset<nat> {
    if slots == [] then multiset{} else SlotMark(slots[0], early) + SlotMarks(slots[1..], early)
  }

  function JobMarks(jobs: seq<JobCall>): multiset<nat> {
    if jobs == [] then multiset{} else Mark(jobs[0]) + JobMarks(jobs[1..])
  }

  function FiredMarks(fired: seq<Fired>): multiset<nat> {
    if fired == [] then multiset{} else FiredMark(fired[0]) + FiredMarks(fired[1..])
  }

  /** One mark for each place from which the callback of a call may still fire, or where it fired. */
  function Places(c: Client, early: bool): multiset<nat> {
    SlotMarks(c.cmdQueue, early) + SlotMarks(c.apiQueue, early) + JobMarks(c.jobListeners) + FiredMarks(c.fired)
  }

  lemma {:induction false} SlotMarksAppend(slots: seq<Slot>, slot: Slot, early: bool)
    ensures SlotMarks(slots + [slot], early) == SlotMarks(slots, early) + SlotMark(slot, early)
  {
    hide SlotMark;
    if slots == [] {
      assert slots + [slot] == [slot] && [slot][1..] == [];
    } else {
      SlotMarksAppend(slots[1..], slot, early);
      assert (slots + [slot])[1..] == slots[1..] + [slot];
    }
  }

  lemma {:induction false} JobMarksAppend(jobs: seq<JobCall>, job: JobCall)
    ensures JobMarks(jobs + [job]) == JobMarks(jobs) + Mark(job)
  {
    hide Mark;
    if jobs == [] {
      assert jobs + [job] == [job] && [job][1..] == [];
    } else {
      JobMarksAppend(jobs[1..], job);
      assert (jobs + [job])[1..] == jobs[1..] + [job];
    }
  }

  lemma {:induction false} FiredMarksAppend(fired: seq<Fired>, f: Fired)
    ensures FiredMarks(fired + [f]) == FiredMarks(fired) + FiredMark(f)
  {
    hide FiredMark;
    if fired == [] {
      assert fired + [f] == [f] && [f][1..] == [];
    } else {
      FiredMarksAppend(fired[1..], f);
      assert (fired + [f])[1..] == fired[1..] + [f];
    }
  }

  lemma SendPlaces(c: Client, cmd: Command, callback: Callback, early: bool)
    ensures Places(SendRecv(c, cmd, callback), early) == Places(c, early) + SlotMark(Slot(callback, 0), early)
  {
    hide SlotMarks, JobMarks, FiredMarks;
    SlotMarksAppend(c.cmdQueue, Slot(callback, |c.written|), early);
  }

  lemma ApiPlaces(c: Client, text: string, callback: Callback, early: bool)
    ensures Places(Api(c, text, callback), early) == Places(c, early) + SlotMark(Slot(callback, 0), early)
  {
    hide SlotMarks, JobMarks, FiredMarks;
    SlotMarksAppend(c.apiQueue, Slot(callback, |c.written|), early);
  }

  lemma StartPlaces(c: Client, job: JobCall, early: bool)
    ensures Places(Start(c, job), early) == Places(c, early) + Mark(job)
  {
    hide SlotMarks, JobMarks, FiredMarks;
    JobMarksAppend(c.jobListeners, job);
    var c' := if job.hasCallback then c.(jobListeners := c.jobListeners + [job])
              else if job.filtered then DeleteFilter(c, JOB, job.jobId, NoCallback) else c;
    SendPlaces(c, FilterDelete(JOB, job.jobId), NoCallback, early);
    assert Places(c', early) == Places(c, early) + Mark(job);
    SendPlaces(c', BgApi(job), NoCallback, early);
  }

  lemma JobOverPlaces(c: Client, job: JobCall, event: string, early: bool)
    ensures Places(JobOver(c, job, event), early) == Places(c, early) + Mark(job)
  {
    hide SlotMarks, JobMarks, FiredMarks, Mark, SendRecv;
    SendPlaces(c, FilterDelete(JOB, job.jobId), EndJob(job, event), early);
    FiredMarksAppend(c.fired, JobFired(job, event, None));
  }

  lemma {:induction false} JobsOverPlaces(c: Client, jobs: seq<JobCall>, event: string, early: bool)
    ensures Places(JobsOver(c, jobs, event), early) == Places(c, early) + JobMarks(jobs)
    decreases |jobs|
  {
    hide Places, Mark, JobOver;
    if jobs != [] {
      JobOverPlaces(c, jobs[0], event, early);
      JobsOverPlaces(JobOver(c, jobs[0], event), jobs[1..], event, early);
    }
  }

  lemma {:induction false} ListeningSplits(listeners: seq<JobCall>, jobId: string)
    ensures JobMarks(listeners) ==
              JobMarks(Listening(listeners, jobId, true)) + JobMarks(Listening(listeners, jobId, false))
  {
    hide Mark;
    if listeners != [] {
      var job, rest := listeners[0], listeners[1..];
      ListeningSplits(rest, jobId);
      var mine := job.jobId == jobId;
      assert ([job] + Listening(rest, jobId, mine))[1..] == Listening(rest, jobId, mine);
      assert Listening(listeners, jobId, mine) == [job] + Listening(rest, jobId, mine);
      assert Listening(listeners, jobId, !mine) == Listening(rest, jobId, !mine);
    }
  }

  /** A job event moves the callbacks of its id on, and touches no other. */
  lemma JobEventPlaces(c: Client, jobId: string, early: bool)
    ensures Grows(c, JobEvent(c, jobId), early, multiset{})
  {
    hide SlotMarks, JobMarks, FiredMarks, JobsOver;
    ListeningSplits(c.jobListeners, jobId);
    JobsOverPlaces(c.(jobListeners := Listening(c.jobListeners, jobId, false)),
                   Listening(c.jobListeners, jobId, true), jobId, early);
  }

  lemma RunPlaces(c: Client, slot: Slot, reply: nat, early: bool)
    ensures Places(Run(c, slot, reply), early) == Places(c, early) + SlotMark(slot, true)
  {
    hide SlotMarks, JobMarks, FiredMarks, Start;
    match slot.callback
    case NoCallback =>
    case User(id) => FiredMarksAppend(c.fired, UserFired(id, slot.command, reply));
    case StartJob(job) => StartPlaces(c, job, early);
    case EndJob(job, event) => FiredMarksAppend(c.fired, JobFired(job, event, Some((slot.command, reply))));
  }

  /** From `c` to `c'` no callback is lost; counting the early ones, just `added` are new. */
  predicate Grows(c: Client, c': Client, early: bool, added: multiset<nat>) {
    && Places(c, early) <= Places(c', early)
    && (early ==> Places(c', early) == Places(c, early) + added)
  }

  lemma PopPlaces(c: Client, reply: nat, early: bool)
    ensures c.cmdQueue != [] ==>
              Places(c, early) == Places(PopCommand(c, reply), early) + SlotMark(c.cmdQueue[0], early)
    ensures c.apiQueue != [] ==>
              Places(c, early) == Places(PopApi(c, reply), early) + SlotMark(c.apiQueue[0], early)
  {
    hide JobMarks, FiredMarks, SlotMark;
  }

  lemma SlotMarkGrows(slot: Slot, early: bool)
    ensures SlotMark(slot, early) <= SlotMark(slot, true)
  {
  }

  /** An answer keeps every callback somewhere. */
  lemma CommandReplyPlaces(c: Client, reply: nat, early: bool)
    ensures Grows(c, CommandReply(c, reply), early, multiset{})
  {
    hide Places, SlotMark, Run;
    if c.cmdQueue != [] {
      PopPlaces(c, reply, early);
      RunPlaces(PopCommand(c, reply), c.cmdQueue[0], reply, early);
      SlotMarkGrows(c.cmdQueue[0], early);
    }
  }

  lemma ApiResponsePlaces(c: Client, reply: nat, early: bool)
    ensures Grows(c, ApiResponse(c, reply), early, multiset{})
  {
    hide Places, SlotMark, Run;
    if c.apiQueue != [] {
      PopPlaces(c, reply, early);
      RunPlaces(PopApi(c, reply), c.apiQueue[0], reply, early);
      SlotMarkGrows(c.apiQueue[0], early);
    }
  }

  lemma {:induction false} ExecuteCompletePlaces(c: Client, listeners: seq<string>, channel: string,
      eventUuid: string, early: bool)
    ensures Grows(c, ExecuteComplete(c, listeners, channel, eventUuid), early, multiset{})
    decreases |listeners|
  {
    hide SlotMarks, JobMarks, FiredMarks;
    if listeners != [] {
      var hit := listeners[0] == channel && eventUuid in c.executeCallbacks;
      var c' := if hit then c.(fired := c.fired + [ExecuteFired(eventUuid, c.executeCallbacks[eventUuid])]) else c;
      if hit {
        FiredMarksAppend(c.fired, ExecuteFired(eventUuid, c.executeCallbacks[eventUuid]));
      }
      ExecuteCompletePlaces(c', listeners[1..], channel, eventUuid, early);
    }
  }

  lemma BgapiPlaces(c: Client, text: string, jobId: string, hasCallback: bool, early: bool)
    ensures Grows(c, Bgapi(c, text, jobId, hasCallback), early, if hasCallback then multiset{|c.jobs|} else multiset{})
  {
    hide SlotMarks, JobMarks, FiredMarks, Start, SendRecv;
    var job := JobCall(|c.jobs|, text, jobId, hasCallback, c.usingFilters);
    var c' := c.(jobs := c.jobs + [job]);
    SendPlaces(c'.(usingFilters := true), FilterAdd(JOB, jobId), StartJob(job), early);
    StartPlaces(c', job, early);
  }

  /** What a caller does other than `bgapi` makes and moves no job callback. */
  lemma CallerPlaces(c: Client, cmd: Command, callback: Callback, early: bool)
    requires OfCaller(callback)
    ensures Grows(c, SendRecv(c, cmd, callback), early, multiset{})
  {
    hide SlotMarks, JobMarks, FiredMarks, SendRecv;
    SendPlaces(c, cmd, callback, early);
  }

  lemma ApiCallerPlaces(c: Client, text: string, callback: Callback, early: bool)
    requires OfCaller(callback)
    ensures Grows(c, Api(c, text, callback), early, multiset{})
  {
    hide SlotMarks, JobMarks, FiredMarks, Api;
    ApiPlaces(c, text, callback, early);
  }

  lemma SamePlaces(c: Client, c': Client, early: bool)
    requires c'.cmdQueue == c.cmdQueue && c'.apiQueue == c.apiQueue && c'.jobListeners == c.jobListeners &&
               c'.fired == c.fired
    ensures Grows(c, c', early, multiset{}) && Places(c', early) == Places(c, early)
  {
    hide SlotMarks, JobMarks, FiredMarks;
  }

  /** No step loses or doubles the callback of a `bgapi` call; making such a call adds one. */
  lemma StepPlaces(s: Sys, step: Step, early: bool)
    requires Sane(step)
    ensures Grows(s.client, Do(s, step).client, early,
                  if step.DoBgapi? && step.hasCallback then multiset{|s.client.jobs|} else multiset{})
  {
    hide Grows, Places, SendRecv, Api, CommandReply, ApiResponse, JobEvent, ExecuteComplete, OnEvent, Bgapi;
    EventSteps(s, step);
    var c := s.client;
    SamePlaces(c, c, early);
    match step
    case DoSend(text, callback) => CallerPlaces(c, Plain(text), callback, early);
    case DoApi(text, callback) => ApiCallerPlaces(c, text, callback, early);
    case DoFilter(header, value, callback) => FilterPlaces(c, header, value, callback, early);
    case DoDeleteFilter(header, value, callback) => CallerPlaces(c, FilterDelete(header, value), callback, early);
    case DoBgapi(text, jobId, hasCallback) => BgapiPlaces(c, text, jobId, hasCallback, early);
    case DoExecute(channel, eventUuid, handler) => SamePlaces(c, Execute(c, channel, eventUuid, handler), early);
    case DoExit => SamePlaces(c, Send(c, Exit, NoCallback), early);
    case Answer =>
      CommandReplyPlaces(c, s.answered, early);
      ApiResponsePlaces(c, s.answered, early);
    case Arrive(e) =>
      JobEventPlaces(c, Uuid(e), early);
      ExecuteCompletePlaces(c, c.executeListeners, Uuid(e), ExecutedId(e), early);
  }

  lemma FilterPlaces(c: Client, header: string, value: string, callback: Callback, early: bool)
    requires OfCaller(callback)
    ensures Grows(c, Filter(c, header, value, callback), early, multiset{})
  {
    hide Places, SendRecv;
    var c' := c.(usingFilters := true);
    SamePlaces(c, c', early);
    CallerPlaces(c', FilterAdd(header, value), callback, early);
  }

  /* ---- what every slot, listener and firing of a job says ---- */

  /** Command number `k` deletes the filter of a job. */
  predicate Deletes(written: seq<Command>, k: nat, jobId: string) {
    k < |written| && written[k] == FilterDelete(JOB, jobId)
  }

  predicate SlotSays(c: Client, slot: Slot) {
    match slot.callback
    case StartJob(job) => job in c.jobs && job.filtered
    case EndJob(job, event) =>
      && job in c.jobs && job.filtered && job.hasCallback && event == job.jobId
      && Deletes(c.written, slot.command, event)
    case _ => true
  }

  predicate FiredSays(c: Client, f: Fired) {
    match f
    case JobFired(job, event, deletion) =>
      && job in c.jobs && job.hasCallback && event == job.jobId && deletion.Some? == job.filtered
      && (deletion.Some? ==> deletion.value in c.taken && Deletes(c.written, deletion.value.0, event))
    case _ => true
  }

  predicate Says(c: Client) {
    && (forall i :: 0 <= i < |c.cmdQueue| ==> SlotSays(c, c.cmdQueue[i]))
    && (forall i :: 0 <= i < |c.apiQueue| ==> OfCaller(c.apiQueue[i].callback))
    && (forall i :: 0 <= i < |c.jobListeners| ==> c.jobListeners[i] in c.jobs && c.jobListeners[i].hasCallback)
    && (forall i :: 0 <= i < |c.fired| ==> FiredSays(c, c.fired[i]))
  }

  lemma SendSays(c: Client, cmd: Command, callback: Callback)
    requires Says(c)
    requires SlotSays(Send(c, cmd, callback), Slot(callback, |c.written|))
    ensures Says(SendRecv(c, cmd, callback)) && SendRecv(c, cmd, callback).jobs == c.jobs
    ensures Says(Send(c, cmd, callback))
  {
  }

  /** Adding a listener, a firing or a call to what says so keeps it so. */
  lemma AddSays(c: Client, job: JobCall, f: Fired)
    requires Says(c)
    ensures job in c.jobs && job.hasCallback ==> Says(c.(jobListeners := c.jobListeners + [job]))
    ensures FiredSays(c, f) ==> Says(c.(fired := c.fired + [f]))
    ensures Says(c.(jobs := c.jobs + [job])) && Says(c.(usingFilters := true))
  {
  }

  lemma StartSays(c: Client, job: JobCall)
    requires Says(c) && job in c.jobs
    ensures Says(Start(c, job))
  {
    hide Says, SendRecv;
    AddSays(c, job, UserFired(0, 0, 0));
    SendSays(c, FilterDelete(JOB, job.jobId), NoCallback);
    var c' := if job.hasCallback then c.(jobListeners := c.jobListeners + [job])
              else if job.filtered then DeleteFilter(c, JOB, job.jobId, NoCallback) else c;
    SendSays(c', BgApi(job), NoCallback);
  }

  lemma {:induction false} JobsOverSays(c: Client, jobs: seq<JobCall>, event: string)
    requires Says(c)
    requires forall i :: 0 <= i < |jobs| ==> jobs[i] in c.jobs && jobs[i].hasCallback && jobs[i].jobId == event
    ensures Says(JobsOver(c, jobs, event))
    decreases |jobs|
  {
    hide Says, SendRecv;
    if jobs != [] {
      var job := jobs[0];
      if job.filtered {
        SendSays(c, FilterDelete(JOB, event), EndJob(job, event));
      } else {
        AddSays(c, job, JobFired(job, event, None));
      }
      JobsOverSays(JobOver(c, job, event), jobs[1..], event);
    }
  }

  lemma {:induction false} ListeningOf(listeners: seq<JobCall>, jobId: string, wanted: bool)
    ensures forall j :: j in Listening(listeners, jobId, wanted) ==> j in listeners && (j.jobId == jobId) == wanted
  {
    if listeners != [] {
      ListeningOf(listeners[1..], jobId, wanted);
    }
  }

  lemma JobEventSays(c: Client, jobId: string)
    requires Says(c)
    ensures Says(JobEvent(c, jobId))
  {
    hide JobsOver, Listening;
    ListeningOf(c.jobListeners, jobId, true);
    ListeningOf(c.jobListeners, jobId, false);
    var mine, rest := Listening(c.jobListeners, jobId, true), Listening(c.jobListeners, jobId, false);
    assert forall i :: 0 <= i < |mine| ==> mine[i] in mine;
    assert forall i :: 0 <= i < |rest| ==> rest[i] in rest;
    JobsOverSays(c.(jobListeners := rest), mine, jobId);
  }

  lemma {:induction false} ExecuteCompleteSays(c: Client, listeners: seq<string>, channel: string, eventUuid: string)
    requires Says(c)
    ensures Says(ExecuteComplete(c, listeners, channel, eventUuid))
    ensures ExecuteComplete(c, listeners, channel, eventUuid).jobs == c.jobs
    decreases |listeners|
  {
    hide Says;
    if listeners != [] {
      var hit := listeners[0] == channel && eventUuid in c.executeCallbacks;
      var f := ExecuteFired(eventUuid, if hit then c.executeCallbacks[eventUuid] else 0);
      AddSays(c, JobCall(0, "", "", false, false), f);
      ExecuteCompleteSays(if hit then c.(fired := c.fired + [f]) else c, listeners[1..], channel, eventUuid);
    }
  }

  lemma RunSays(c: Client, slot: Slot, reply: nat)
    requires Says(c) && SlotSays(c, slot) && (slot.command, reply) in c.taken
    ensures Says(Run(c, slot, reply))
  {
    hide Says, Start;
    var nobody := JobCall(0, "", "", false, false);
    match slot.callback
    case NoCallback =>
    case User(id) => AddSays(c, nobody, UserFired(id, slot.command, reply));
    case StartJob(job) => StartSays(c, job);
    case EndJob(job, event) => AddSays(c, nobody, JobFired(job, event, Some((slot.command, reply))));
  }

  lemma CommandReplySays(c: Client, reply: nat)
    requires Says(c)
    ensures Says(CommandReply(c, reply))
  {
    hide Run;
    if c.cmdQueue != [] {
      var c' := PopCommand(c, reply);
      assert c'.taken[|c.taken|] == (c.cmdQueue[0].command, reply);
      RunSays(c', c.cmdQueue[0], reply);
    }
  }

  lemma ApiResponseSays(c: Client, reply: nat)
    requires Says(c)
    ensures Says(ApiResponse(c, reply))
  {
    hide Run;
    if c.apiQueue != [] {
      var c' := PopApi(c, reply);
      assert c'.taken[|c.taken|] == (c.apiQueue[0].command, reply);
      RunSays(c', c.apiQueue[0], reply);
    }
  }

  lemma BgapiSays(c: Client, text: string, jobId: string, hasCallback: bool)
    requires Says(c)
    ensures Says(Bgapi(c, text, jobId, hasCallback))
  {
    var job := JobCall(|c.jobs|, text, jobId, hasCallback, c.usingFilters);
    var c' := c.(jobs := c.jobs + [job]);
    assert Says(c') by {
      AddSays(c, job, UserFired(0, 0, 0));
    }
    if job.filtered {
      SetFilterSays(c, job);
    } else {
      StartSays(c', job);
    }
  }

  lemma SetFilterSays(c: Client, job: JobCall)
    requires Says(c) && job.filtered
    ensures Says(Filter(c.(jobs := c.jobs + [job]), JOB, job.jobId, StartJob(job)))
  {
    var cmd := FilterAdd(JOB, job.jobId);
    SendSays(c, cmd, NoCallback);
    var c' := Send(c, cmd, NoCallback);
    AddSays(c', job, UserFired(0, 0, 0));
  }

  lemma StepSays(s: Sys, step: Step)
    requires Sane(step) && Says(s.client)
    ensures Says(Do(s, step).client)
  {
    hide Says, SendRecv, CommandReply, ApiResponse, JobEvent, ExecuteComplete, OnEvent, Bgapi, Waiting, Numbers;
    EventSteps(s, step);
    var c := s.client;
    match step
    case DoSend(text, callback) => SendSays(c, Plain(text), callback);
    case DoApi(text, callback) => ApiSays(c, text, callback);
    case DoFilter(header, value, callback) =>
      AddSays(c, JobCall(0, "", "", false, false), UserFired(0, 0, 0));
      SendSays(c.(usingFilters := true), FilterAdd(header, value), callback);
    case DoDeleteFilter(header, value, callback) => SendSays(c, FilterDelete(header, value), callback);
    case DoBgapi(text, jobId, hasCallback) => BgapiSays(c, text, jobId, hasCallback);
    case DoExecute(channel, eventUuid, handler) => ExecuteSays(c, channel, eventUuid, handler);
    case DoExit => SendSays(c, Exit, NoCallback);
    case Answer =>
      if s.answered < |c.written| {
        if c.written[s.answered].ApiCall? {
          ApiResponseSays(c, s.answered);
        } else if !(c.written[s.answered].Connect? && !c.inbound) {
          CommandReplySays(c, s.answered);
        }
      }
    case Arrive(e) =>
      JobEventSays(c, Uuid(e));
      ExecuteCompleteSays(c, c.executeListeners, Uuid(e), ExecutedId(e));
  }

  lemma ApiSays(c: Client, text: string, callback: Callback)
    requires Says(c) && OfCaller(callback)
    ensures Says(Api(c, text, callback))
  {
    SendSays(c, ApiCall(text), NoCallback);
  }

  lemma ExecuteSays(c: Client, channel: string, eventUuid: string, handler: Option<nat>)
    requires Says(c)
    ensures Says(Execute(c, channel, eventUuid, handler))
  {
    hide Says;
    var c' := Execute(c, channel, eventUuid, handler).(written := c.written, callbacks := c.callbacks);
    ExecuteIgnored(c, c'.executeCallbacks, c'.executeHandlers, c'.executeListeners);
    SendSays(c', SendMsg(channel, eventUuid), NoCallback);
  }

  lemma ExecuteIgnored(c: Client, callbacks: map<string, nat>, handlers: set<string>, listeners: seq<string>)
    requires Says(c)
    ensures Says(c.(executeCallbacks := callbacks, executeHandlers := handlers, executeListeners := listeners))
  {
  }

  /* ---- the theorems ---- */

  /** Calls are numbered in order, each with a callback has one place, and once its command is
      written it is past the point of not listening. */
  predicate Placed(c: Client) {
    && (forall i :: 0 <= i < |c.jobs| ==> c.jobs[i].call == i)
    && Places(c, true) == JobMarks(c.jobs)
    && (forall i :: 0 <= i < |c.written| && c.written[i].BgApi? ==> Mark(c.written[i].job) <= Places(c, false))
  }

  /** From `c` to `c'` commands are only added, and a `bgapi` among them is past not listening. */
  predicate Launches(c: Client, c': Client) {
    && c.written <= c'.written && c.jobs <= c'.jobs
    && forall i :: |c.written| <= i < |c'.written| && c'.written[i].BgApi? ==>
        Mark(c'.written[i].job) <= Places(c', false)
  }

  lemma StartLaunches(c: Client, job: JobCall)
    ensures Launches(c, Start(c, job)) && Start(c, job).jobs == c.jobs
  {
    hide Places;
    StartPlaces(c, job, false);
  }

  lemma {:induction false} JobsOverLaunches(c: Client, jobs: seq<JobCall>, event: string)
    ensures var c' := JobsOver(c, jobs, event);
            && c'.jobs == c.jobs && c.written <= c'.written
            && forall i :: |c.written| <= i < |c'.written| ==> !c'.written[i].BgApi?
    decreases |jobs|
  {
    if jobs != [] {
      JobsOverLaunches(JobOver(c, jobs[0], event), jobs[1..], event);
    }
  }

  lemma {:induction false} ExecuteCompleteWrites(c: Client, listeners: seq<string>, channel: string, eventUuid: string)
    ensures ExecuteComplete(c, listeners, channel, eventUuid).written == c.written
    ensures ExecuteComplete(c, listeners, channel, eventUuid).jobs == c.jobs
    decreases |listeners|
  {
    if listeners != [] {
      var hit := listeners[0] == channel && eventUuid in c.executeCallbacks;
      var c' := if hit then c.(fired := c.fired + [ExecuteFired(eventUuid, c.executeCallbacks[eventUuid])]) else c;
      ExecuteCompleteWrites(c', listeners[1..], channel, eventUuid);
    }
  }

  lemma RunLaunches(c: Client, slot: Slot, reply: nat)
    ensures Launches(c, Run(c, slot, reply)) && Run(c, slot, reply).jobs == c.jobs
  {
    hide Places, Start;
    if slot.callback.StartJob? {
      StartLaunches(c, slot.callback.job);
    }
  }

  lemma ReplyLaunches(c: Client, reply: nat)
    ensures Launches(c, CommandReply(c, reply)) && CommandReply(c, reply).jobs == c.jobs
    ensures Launches(c, ApiResponse(c, reply)) && ApiResponse(c, reply).jobs == c.jobs
  {
    hide Places, Run;
    if c.cmdQueue != [] {
      RunLaunches(PopCommand(c, reply), c.cmdQueue[0], reply);
    }
    if c.apiQueue != [] {
      RunLaunches(PopApi(c, reply), c.apiQueue[0], reply);
    }
  }

  lemma BgapiLaunches(c: Client, text: string, jobId: string, hasCallback: bool)
    ensures var c' := Bgapi(c, text, jobId, hasCallback);
            Launches(c, c') && c'.jobs == c.jobs + [JobCall(|c.jobs|, text, jobId, hasCallback, c.usingFilters)]
  {
    hide Places, Start;
    var job := JobCall(|c.jobs|, text, jobId, hasCallback, c.usingFilters);
    StartLaunches(c.(jobs := c.jobs + [job]), job);
  }

  lemma StepLaunches(s: Sys, step: Step)
    ensures Launches(s.client, Do(s, step).client)
    ensures var c' := Do(s, step).client;
            if step.DoBgapi? then
              c'.jobs == s.client.jobs +
                [JobCall(|s.client.jobs|, step.text, step.jobId, step.hasCallback, s.client.usingFilters)]
            else c'.jobs == s.client.jobs
  {
    hide Places, CommandReply, ApiResponse, JobsOver, Listening, ExecuteComplete, OnEvent, Bgapi;
    hide Uuid, ExecutedId, JobNotice, Completion, Mark;
    EventSteps(s, step);
    var c := s.client;
    match step
    case DoBgapi(text, jobId, hasCallback) => BgapiLaunches(c, text, jobId, hasCallback);
    case Answer => ReplyLaunches(c, s.answered);
    case Arrive(e) =>
      JobsOverLaunches(c.(jobListeners := Listening(c.jobListeners, Uuid(e), false)),
                       Listening(c.jobListeners, Uuid(e), true), Uuid(e));
      ExecuteCompleteWrites(c, c.executeListeners, Uuid(e), ExecutedId(e));
    case _ =>
  }

  lemma StepPlaced(s: Sys, step: Step)
    requires Sane(step) && Placed(s.client)
    ensures Placed(Do(s, step).client)
  {
    hide Places, JobMarks, Do;
    var c, c' := s.client, Do(s, step).client;
    StepLaunches(s, step);
    StepPlaces(s, step, true);
    StepPlaces(s, step, false);
    if step.DoBgapi? {
      JobMarksAppend(c.jobs, c'.jobs[|c.jobs|]);
    }
    forall i | 0 <= i < |c'.written| && c'.written[i].BgApi? ensures Mark(c'.written[i].job) <= Places(c', false) {
      if i < |c.written| {
        assert c'.written[i] == c.written[i];
      }
    }
  }

  lemma {:induction false} RunPlaced(s: Sys, steps: seq<Step>)
    requires Placed(s.client) && Says(s.client)
    requires forall i :: 0 <= i < |steps| ==> Sane(steps[i])
    ensures Placed(After(s, steps).client) && Says(After(s, steps).client)
    decreases |steps|
  {
    hide Placed, Says, Do;
    if steps != [] {
      StepPlaced(s, steps[0]);
      StepSays(s, steps[0]);
      RunPlaced(Do(s, steps[0]), steps[1..]);
    }
  }

  /** Numbered calls have distinct marks. */
  lemma {:induction false} MarksOnce(jobs: seq<JobCall>, from: nat, n: nat)
    requires forall i :: 0 <= i < |jobs| ==> jobs[i].call == from + i
    ensures JobMarks(jobs)[n] <= 1 && (n < from ==> JobMarks(jobs)[n] == 0)
    decreases |jobs|
  {
    if jobs != [] {
      MarksOnce(jobs[1..], from + 1, n);
    }
  }

  /** Background jobs: in every run the callback of a `bgapi` call fires at most once, with an event of
      its own job id; and a call whose command is written is listening, or its event has come. */
  lemma JobCallbacks(inbound: bool, steps: seq<Step>)
    requires forall i :: 0 <= i < |steps| ==> Sane(steps[i])
    ensures var c := After(Start0(inbound), steps).client;
            && (forall n :: FiredMarks(c.fired)[n] <= 1)
            && (forall i :: 0 <= i < |c.fired| && c.fired[i].JobFired? ==>
                  c.fired[i].job in c.jobs && c.fired[i].job.hasCallback && c.fired[i].event == c.fired[i].job.jobId)
            && (forall i :: 0 <= i < |c.written| && c.written[i].BgApi? ==> Mark(c.written[i].job) <= Places(c, false))
  {
    hide After, SlotMarks, JobMarks, FiredMarks, Mark;
    var s := Start0(inbound);
    FreshSays(inbound);
    RunPlaced(s, steps);
    var c := After(s, steps).client;
    forall n ensures FiredMarks(c.fired)[n] <= 1 {
      MarksOnce(c.jobs, 0, n);
      assert FiredMarks(c.fired)[n] <= Places(c, true)[n];
    }
    assert forall i :: 0 <= i < |c.fired| ==> FiredSays(c, c.fired[i]);
  }

  /* ---- filters ---- */

  /** The filters the server has after the first `n` commands. */
  function FiltersAfter(written: seq<Command>, n: nat): set<(string, string)>
    requires n <= |written|
  {
    if n == 0 then {}
    else
      var before := FiltersAfter(written, n - 1);
      match written[n - 1]
      case FilterAdd(header, value) => before + {(header, value)}
      case FilterDelete(header, value) =>
        if value == "" then set f | f in before && f.0 != header else before - {(header, value)}
      case _ => before
  }

  lemma {:induction false} DeletedStays(written: seq<Command>, k: nat, n: nat, jobId: string)
    requires Deletes(written, k, jobId) && k < n <= |written|
    requires forall i :: k < i < n ==> written[i] != FilterAdd(JOB, jobId)
    ensures (JOB, jobId) !in FiltersAfter(written, n)
    decreases n
  {
    if k + 1 < n {
      DeletedStays(written, k, n - 1, jobId);
      assert written[n - 1] != FilterAdd(JOB, jobId);
    }
  }

  /** The filter a command deletes is gone from then on exactly when no later command sets it. */
  lemma FilterGone(written: seq<Command>, k: nat, jobId: string)
    requires Deletes(written, k, jobId)
    ensures (forall n :: k < n <= |written| ==> (JOB, jobId) !in FiltersAfter(written, n)) <==>
            (forall i :: k < i < |written| ==> written[i] != FilterAdd(JOB, jobId))
  {
    hide FiltersAfter;
    if forall i :: k < i < |written| ==> written[i] != FilterAdd(JOB, jobId) {
      forall n | k < n <= |written| ensures (JOB, jobId) !in FiltersAfter(written, n) {
        DeletedStays(written, k, n, jobId);
      }
    } else {
      var i :| k < i < |written| && written[i] == FilterAdd(JOB, jobId);
      JustSet(written, i, jobId);
    }
  }

  lemma JustSet(written: seq<Command>, i: nat, jobId: string)
    requires i < |written| && written[i] == FilterAdd(JOB, jobId)
    ensures (JOB, jobId) in FiltersAfter(written, i + 1)
  {
  }

  /* Which job event a deletion was written for. */

  function EndOf(slot: Slot): set<(string, nat)> {
    if slot.callback.EndJob? then {(slot.callback.event, slot.command)} else {}
  }

  function FiredEnd(f: Fired): set<(string, nat)> {
    if f.JobFired? && f.deletion.Some? then {(f.event, f.deletion.value.0)} else {}
  }

  /** The deletions that callbacks of jobs wait for or fired on, with their job ids. */
  function Ends(c: Client): set<(string, nat)> {
    (set slot, end | slot in c.cmdQueue && end in EndOf(slot) :: end) +
    (set slot, end | slot in c.apiQueue && end in EndOf(slot) :: end) +
    (set f, end | f in c.fired && end in FiredEnd(f) :: end)
  }

  /** From `c` to `c'` only deletions for `event`, written in between, are new. */
  predicate EndsFor(c: Client, c': Client, event: string) {
    && |c.written| <= |c'.written|
    && forall end :: end in Ends(c') ==> end in Ends(c) || (end.0 == event && |c.written| <= end.1 < |c'.written|)
  }

  lemma SendEnds(c: Client, cmd: Command, callback: Callback)
    ensures Ends(SendRecv(c, cmd, callback)) <= Ends(c) + EndOf(Slot(callback, |c.written|))
    ensures Ends(Send(c, cmd, callback)) == Ends(c)
  {
    hide EndOf, FiredEnd;
  }

  lemma ApiEnds(c: Client, text: string, callback: Callback)
    ensures Ends(Api(c, text, callback)) <= Ends(c) + EndOf(Slot(callback, |c.written|))
  {
    hide EndOf, FiredEnd;
  }

  lemma FireEnds(c: Client, f: Fired)
    ensures Ends(c.(fired := c.fired + [f])) <= Ends(c) + FiredEnd(f)
  {
    hide EndOf, FiredEnd;
  }

  lemma PopEnds(c: Client, reply: nat)
    ensures c.cmdQueue != [] ==> Ends(PopCommand(c, reply)) + EndOf(c.cmdQueue[0]) <= Ends(c)
    ensures c.apiQueue != [] ==> Ends(PopApi(c, reply)) + EndOf(c.apiQueue[0]) <= Ends(c)
  {
    hide EndOf, FiredEnd;
  }

  lemma StartEnds(c: Client, job: JobCall)
    ensures Ends(Start(c, job)) <= Ends(c)
  {
    hide Ends, SendRecv;
    var listening := c.(jobListeners := c.jobListeners + [job]);
    SameEnds(c, listening);
    SendEnds(c, FilterDelete(JOB, job.jobId), NoCallback);
    var c' := if job.hasCallback then listening
              else if job.filtered then DeleteFilter(c, JOB, job.jobId, NoCallback) else c;
    SendEnds(c', BgApi(job), NoCallback);
  }

  lemma SameEnds(c: Client, c': Client)
    requires c'.cmdQueue == c.cmdQueue && c'.apiQueue == c.apiQueue && c'.fired == c.fired
    ensures Ends(c') == Ends(c)
  {
    hide EndOf, FiredEnd;
  }

  lemma {:induction false} JobsOverEnds(c: Client, jobs: seq<JobCall>, event: string)
    ensures EndsFor(c, JobsOver(c, jobs, event), event)
    decreases |jobs|
  {
    hide Ends;
    if jobs != [] {
      var job := jobs[0];
      SendEnds(c, FilterDelete(JOB, job.jobId), EndJob(job, event));
      FireEnds(c, JobFired(job, event, None));
      JobsOverEnds(JobOver(c, job, event), jobs[1..], event);
    }
  }

  lemma RunEnds(c: Client, slot: Slot, reply: nat)
    ensures Ends(Run(c, slot, reply)) <= Ends(c) + EndOf(slot)
  {
    hide Ends, Start;
    match slot.callback
    case NoCallback =>
    case User(id) => FireEnds(c, UserFired(id, slot.command, reply));
    case StartJob(job) => StartEnds(c, job);
    case EndJob(job, event) => FireEnds(c, JobFired(job, event, Some((slot.command, reply))));
  }

  lemma ReplyEnds(c: Client, reply: nat)
    ensures Ends(CommandReply(c, reply)) <= Ends(c) && Ends(ApiResponse(c, reply)) <= Ends(c)
  {
    hide Ends, Run, EndOf;
    PopEnds(c, reply);
    if c.cmdQueue != [] {
      RunEnds(PopCommand(c, reply), c.cmdQueue[0], reply);
    }
    if c.apiQueue != [] {
      RunEnds(PopApi(c, reply), c.apiQueue[0], reply);
    }
  }

  lemma BgapiEnds(c: Client, text: string, jobId: string, hasCallback: bool)
    ensures Ends(Bgapi(c, text, jobId, hasCallback)) <= Ends(c)
  {
    hide Ends, Start, SendRecv;
    var job := JobCall(|c.jobs|, text, jobId, hasCallback, c.usingFilters);
    var c' := c.(jobs := c.jobs + [job]);
    SameEnds(c, c');
    SameEnds(c, c'.(usingFilters := true));
    SendEnds(c'.(usingFilters := true), FilterAdd(JOB, jobId), StartJob(job));
    StartEnds(c', job);
  }

  lemma ExecuteEnds(c: Client, channel: string, eventUuid: string, listeners: seq<string>)
    ensures Ends(ExecuteComplete(c, listeners, channel, eventUuid)) <= Ends(c)
  {
    hide ExecuteComplete, EndOf;
    ExecuteCompleteKeeps(c, listeners, channel, eventUuid);
    var fired' := ExecuteComplete(c, listeners, channel, eventUuid).fired;
    forall f | f in fired' && FiredEnd(f) != {} ensures f in c.fired {
      var i :| 0 <= i < |fired'| && fired'[i] == f;
      assert i < |c.fired| && fired'[i] == c.fired[i];
    }
  }

  lemma StepEnds(s: Sys, step: Step)
    requires Sane(step)
    ensures if step.Arrive? && JobNotice(step.e) then EndsFor(s.client, Do(s, step).client, Uuid(step.e))
            else Ends(Do(s, step).client) <= Ends(s.client)
  {
    hide Ends, SendRecv, Api, CommandReply, ApiResponse, JobsOver, Listening, ExecuteComplete, OnEvent, Bgapi;
    EventSteps(s, step);
    var c := s.client;
    match step
    case DoSend(text, callback) => SendEnds(c, Plain(text), callback);
    case DoApi(text, callback) => ApiEnds(c, text, callback);
    case DoFilter(header, value, callback) =>
      SameEnds(c, c.(usingFilters := true));
      SendEnds(c.(usingFilters := true), FilterAdd(header, value), callback);
    case DoDeleteFilter(header, value, callback) => SendEnds(c, FilterDelete(header, value), callback);
    case DoBgapi(text, jobId, hasCallback) => BgapiEnds(c, text, jobId, hasCallback);
    case DoExecute(channel, eventUuid, handler) => SameEnds(c, Execute(c, channel, eventUuid, handler));
    case DoExit => SendEnds(c, Exit, NoCallback);
    case Answer => ReplyEnds(c, s.answered);
    case Arrive(e) =>
      var rest := c.(jobListeners := Listening(c.jobListeners, Uuid(e), false));
      SameEnds(c, rest);
      JobsOverEnds(rest, Listening(c.jobListeners, Uuid(e), true), Uuid(e));
      ExecuteEnds(c, Uuid(e), ExecutedId(e), c.executeListeners);
  }

  /** Step number `at` is an event of job `jobId`, and command `k` was written in it. */
  predicate WrittenFor(s: Sys, steps: seq<Step>, at: nat, jobId: string, k: nat) {
    && at < |steps| && steps[at].Arrive? && JobNotice(steps[at].e) && Uuid(steps[at].e) == jobId
    && |After(s, steps[..at]).client.written| <= k < |Do(After(s, steps[..at]), steps[at]).client.written|
  }

  lemma {:induction false} EndWritten(s: Sys, steps: seq<Step>, jobId: string, k: nat) returns (at: nat)
    requires forall i :: 0 <= i < |steps| ==> Sane(steps[i])
    requires (jobId, k) in Ends(After(s, steps).client)
    ensures (jobId, k) in Ends(s.client) || WrittenFor(s, steps, at, jobId, k)
    decreases |steps|
  {
    hide Do, Ends;
    at := 0;
    if steps != [] {
      var s' := Do(s, steps[0]);
      var next := EndWritten(s', steps[1..], jobId, k);
      StepEnds(s, steps[0]);
      if (jobId, k) in Ends(s.client) {
      } else if (jobId, k) in Ends(s'.client) {
        assert After(s, steps[..0]) == s;
      } else {
        at := next + 1;
        assert steps[..at][1..] == steps[1..][..next] && steps[..at][0] == steps[0];
      }
    }
  }

  lemma FiredEnds(c: Client, k: nat)
    requires k < |c.fired| && c.fired[k].JobFired? && c.fired[k].deletion.Some?
    ensures (c.fired[k].event, c.fired[k].deletion.value.0) in Ends(c)
  {
    var f := c.fired[k];
    assert f in c.fired && (f.event, f.deletion.value.0) in FiredEnd(f);
  }

  /** Filters, in runs of any kind: a callback whose call was made while filters are in use fires when the deletion
      of its filter was written, and not later than its answer. The server lacks the filter from that deletion on
      exactly when it is not set again. */
  lemma FilterDeleted(inbound: bool, steps: seq<Step>, k: nat)
    requires forall i :: 0 <= i < |steps| ==> Sane(steps[i])
    requires var c := After(Start0(inbound), steps).client;
             k < |c.fired| && c.fired[k].JobFired? && c.fired[k].job.filtered
    ensures var c := After(Start0(inbound), steps).client;
            && c.fired[k].deletion.Some?
            && var (deletion, reply) := c.fired[k].deletion.value; var jobId := c.fired[k].job.jobId;
            && (deletion, reply) in c.taken && reply <= deletion && Deletes(c.written, deletion, jobId)
            && ((forall n :: deletion < n <= |c.written| ==> (JOB, jobId) !in FiltersAfter(c.written, n)) <==>
                (forall i :: deletion < i < |c.written| ==> c.written[i] != FilterAdd(JOB, jobId)))
  {
    hide Says, Do, Trails, FiltersAfter;
    var s := Start0(inbound);
    assert Placed(s.client) && Says(s.client) by { FreshSays(inbound); }
    RunPlaced(s, steps);
    var c := After(s, steps).client;
    SaysFired(c, k);
    FreshTrails(inbound);
    var _ := RunRuns(s, 0, steps);
    FilterGone(c.written, c.fired[k].deletion.value.0, c.fired[k].job.jobId);
  }

  lemma SaysFired(c: Client, k: nat)
    requires Says(c) && k < |c.fired|
    ensures FiredSays(c, c.fired[k])
  {
  }

  lemma FreshSays(inbound: bool)
    ensures Placed(Fresh(inbound)) && Says(Fresh(inbound)) && Ends(Fresh(inbound)) == {}
  {
  }

  /** Filters: such a callback fires on the very answer that deleted its filter exactly when it was calm at the job
      event that wrote the deletion: all callbacks of unanswered commands were waiting, and no `sendmsg` or `exit`
      was unanswered. The server then lacks the filter when the callback runs. Otherwise it fires too early, on the
      answer to an earlier command. */
  lemma FilterRestored(inbound: bool, steps: seq<Step>, k: nat) returns (at: nat)
    requires forall i :: 0 <= i < |steps| ==> Sane(steps[i])
    requires var c := After(Start0(inbound), steps).client;
             k < |c.fired| && c.fired[k].JobFired? && c.fired[k].job.filtered
    ensures var c := After(Start0(inbound), steps).client;
            && c.fired[k].deletion.Some?
            && var (deletion, reply) := c.fired[k].deletion.value;
            && WrittenFor(Start0(inbound), steps, at, c.fired[k].job.jobId, deletion)
            && (reply == deletion <==> Calm(After(Start0(inbound), steps[..at])))
            && (reply == deletion ==>
                  deletion < |c.written| && (JOB, c.fired[k].job.jobId) !in FiltersAfter(c.written, reply + 1))
            && (Undisturbed(Start0(inbound), steps) ==> reply == deletion)
  {
    hide Do, Ends, Calm, FiltersAfter, Undisturbed, Deletes;
    var s := Start0(inbound);
    FilterDeleted(inbound, steps, k);
    var c := After(s, steps).client;
    var f := c.fired[k];
    FiredEnds(c, k);
    FreshSays(inbound);
    JobCallbacks(inbound, steps);
    at := EndWritten(s, steps, f.event, f.deletion.value.0);
    JustDeleted(c.written, f.deletion.value.0, f.job.jobId);
    DeletionCalm(inbound, steps, at, f.event, f.deletion.value.0, f.deletion.value.1);
    SlotPairing(inbound, steps);
  }

  lemma JustDeleted(written: seq<Command>, k: nat, jobId: string)
    requires Deletes(written, k, jobId)
    ensures k < |written| && (JOB, jobId) !in FiltersAfter(written, k + 1)
  {
  }

  lemma DeletionCalm(inbound: bool, steps: seq<Step>, at: nat, jobId: string, k: nat, reply: nat)
    requires WrittenFor(Start0(inbound), steps, at, jobId, k)
    requires var c := After(Start0(inbound), steps).client; Deletes(c.written, k, jobId) && (k, reply) in c.taken
    ensures reply == k <==> Calm(After(Start0(inbound), steps[..at]))
  {
    hide Do, Calm, CalmTo, Trails;
    var s := Start0(inbound);
    var before, after := steps[..at], steps[at + 1..];
    assert steps == before + steps[at..] && steps[at..][1..] == after;
    AfterAppend(s, before, steps[at..]);
    var s1 := Do(After(s, before), steps[at]);
    assert After(s, steps) == After(s1, after);
    FreshTrails(inbound);
    var missing := RunRuns(s, 0, before);
    StepRuns(After(s, before), missing, steps[at]);
    var _ := RunRuns(s1, MissingThen(After(s, before), missing, steps[at]), after);
    assert s1.client.written[k] == After(s, steps).client.written[k];
    OwnSlot(inbound, before, steps[at], after, k);
  }

  /** A run with filters, an `execute` and a fresh job id in which the callback fires too early: on the answer to
      the `sendmsg`, while the deletion is unanswered and the server has the filter. */
  lemma EarlyJob(inbound: bool, header: string, value: string, text: string, jobId: string, channel: string,
                 eventUuid: string, e: Incoming)
    requires JobNotice(e) && e.jobUuid == jobId != ""
    ensures var s := After(Start0(inbound),
                           Opening(inbound) +
                           ([DoFilter(header, value, NoCallback), Answer] +
                            ([DoBgapi(text, jobId, true), Answer, Answer] +
                             [DoExecute(channel, eventUuid, None), Arrive(e), Answer])));
            var n := |Opening(inbound)|;
            && s.client.fired == [JobFired(JobCall(0, text, jobId, true, true), jobId, Some((n + 4, n + 3)))]
            && s.answered == n + 4 < |s.client.written| && s.client.written[n + 4] == FilterDelete(JOB, jobId)
            && (JOB, jobId) in FiltersAfter(s.client.written, s.answered)
  {
    hide After, Do, FiltersAfter, Opening;
    var opening, first := Opening(inbound), [DoFilter(header, value, NoCallback), Answer];
    var middle := [DoBgapi(text, jobId, true), Answer, Answer];
    var last := [DoExecute(channel, eventUuid, None), Arrive(e), Answer];
    AfterAppend(Start0(inbound), opening, first + (middle + last));
    Opened(inbound);
    var s0 := After(Start0(inbound), opening);
    AfterAppend(s0, first, middle + last);
    FilterInUse(s0, header, value);
    var s2 := After(s0, first);
    AfterAppend(s2, middle, last);
    JobStarted(s2, text, jobId);
    var s5 := After(s2, middle);
    JobEnded(s5, JobCall(0, text, jobId, true, true), channel, eventUuid, e);
    SetThen(After(s5, last).client.written, |opening| + 1, jobId);
  }

  /** A filter set by command number `k`, with two others behind it. */
  lemma SetThen(written: seq<Command>, k: nat, jobId: string)
    requires k + 2 < |written| && written[k] == FilterAdd(JOB, jobId)
    requires written[k + 1].BgApi? && written[k + 2].SendMsg?
    ensures (JOB, jobId) in FiltersAfter(written, k + 3)
  {
    JustSet(written, k, jobId);
    assert FiltersAfter(written, k + 2) == FiltersAfter(written, k + 1);
  }

  lemma FilterInUse(s: Sys, header: string, value: string)
    requires Quiet(s)
    ensures var s' := After(s, [DoFilter(header, value, NoCallback), Answer]);
            && Quiet(s') && s'.client.usingFilters && s'.client.written == s.client.written + [FilterAdd(header, value)]
            && s'.client.jobs == s.client.jobs && s'.client.jobListeners == s.client.jobListeners
            && s'.client.fired == s.client.fired
  {
    hide OnEvent, After;
    After2(s, DoFilter(header, value, NoCallback), Answer);
    EventSteps(Do(s, DoFilter(header, value, NoCallback)), Answer);
  }

  /** Where a `bgapi` call stands: what its client wrote, waits for, listens to and has fired. */
  predicate Stands(c: Client, written: seq<Command>, slots: seq<Slot>, listeners: seq<JobCall>, fired: seq<Fired>) {
    c.written == written && c.cmdQueue == slots && c.jobListeners == listeners && c.fired == fired
  }

  lemma JobStarted(s: Sys, text: string, jobId: string)
    requires Quiet(s) && s.client.usingFilters && s.client.jobs == []
    ensures var job := JobCall(0, text, jobId, true, true);
            var s' := After(s, [DoBgapi(text, jobId, true), Answer, Answer]);
            && s'.answered == s.answered + 2
            && Stands(s'.client, s.client.written + [FilterAdd(JOB, jobId), BgApi(job)], [],
                      s.client.jobListeners + [job], s.client.fired)
  {
    hide OnEvent, After, Do;
    After3(s, DoBgapi(text, jobId, true), Answer, Answer);
    var job := JobCall(0, text, jobId, true, true);
    var c, n := s.client, s.answered;
    Calling(s, text, jobId);
    var s1 := Do(s, DoBgapi(text, jobId, true));
    AnswerStarts(s1, job);
    var s2 := Do(s1, Answer);
    EventSteps(s2, Answer);
    assert s2.client.written == c.written + [FilterAdd(JOB, jobId), BgApi(job)];
  }

  lemma Calling(s: Sys, text: string, jobId: string)
    requires Quiet(s) && s.client.usingFilters && s.client.jobs == []
    ensures var s' := Do(s, DoBgapi(text, jobId, true));
            && s'.answered == s.answered
            && Stands(s'.client, s.client.written + [FilterAdd(JOB, jobId)],
                      [Slot(StartJob(JobCall(0, text, jobId, true, true)), s.answered)],
                      s.client.jobListeners, s.client.fired)
  {
  }

  lemma AnswerStarts(s: Sys, job: JobCall)
    requires job.hasCallback && s.client.cmdQueue == [Slot(StartJob(job), s.answered)]
    requires s.answered + 1 == |s.client.written| && s.client.written[s.answered].FilterAdd?
    ensures var s' := Do(s, Answer);
            && s'.answered == s.answered + 1
            && Stands(s'.client, s.client.written + [BgApi(job)], [Slot(NoCallback, s.answered + 1)],
                      s.client.jobListeners + [job], s.client.fired)
  {
    hide OnEvent;
    EventSteps(s, Answer);
  }

  lemma JobEnded(s: Sys, job: JobCall, channel: string, eventUuid: string, e: Incoming)
    requires JobNotice(e) && Uuid(e) == job.jobId
    requires Quiet(s) && s.client.jobListeners == [job] && job.filtered
    ensures var n := s.answered;
            var s' := After(s, [DoExecute(channel, eventUuid, None), Arrive(e), Answer]);
            && s'.client.written == s.client.written + [SendMsg(channel, eventUuid), FilterDelete(JOB, job.jobId)]
            && s'.client.fired == s.client.fired + [JobFired(job, job.jobId, Some((n + 1, n)))] && s'.answered == n + 1
  {
    hide OnEvent, After, Do;
    After3(s, DoExecute(channel, eventUuid, None), Arrive(e), Answer);
    Executing(s, channel, eventUuid);
    var s1 := Do(s, DoExecute(channel, eventUuid, None));
    EventSteps(s1, Arrive(e));
    JobEventOne(s1.client, job);
    var s2 := Do(s1, Arrive(e));
    assert s2.client.written == s.client.written + [SendMsg(channel, eventUuid), FilterDelete(JOB, job.jobId)];
    EventSteps(s2, Answer);
  }

  lemma JobEventOne(c: Client, job: JobCall)
    requires c.jobListeners == [job]
    ensures JobEvent(c, job.jobId) == JobOver(c.(jobListeners := []), job, job.jobId)
  {
    hide JobOver;
    assert [job][1..] == [];
    var c' := c.(jobListeners := []);
    assert JobsOver(c', [job], job.jobId) == JobsOver(JobOver(c', job, job.jobId), [], job.jobId);
    assert Listening([job], job.jobId, true) == [job] && Listening([job], job.jobId, false) == [];
  }

  /* ---- execute ---- */

  /** One completion listener a channel, for exactly the channels that have one. */
  ghost predicate OneListener(c: Client) {
    && (forall i, j :: 0 <= i < j < |c.executeListeners| ==> c.executeListeners[i] != c.executeListeners[j])
    && (forall channel :: channel in c.executeHandlers <==> channel in c.executeListeners)
  }

  lemma {:induction false} CompletionOnce(c: Client, listeners: seq<string>, channel: string, eventUuid: string)
    requires forall i, j :: 0 <= i < j < |listeners| ==> listeners[i] != listeners[j]
    ensures ExecuteComplete(c, listeners, channel, eventUuid) ==
            if channel in listeners && eventUuid in c.executeCallbacks
            then c.(fired := c.fired + [ExecuteFired(eventUuid, c.executeCallbacks[eventUuid])]) else c
    decreases |listeners|
  {
    if listeners != [] {
      var hit := listeners[0] == channel && eventUuid in c.executeCallbacks;
      CompletionOnce(if hit then c.(fired := c.fired + [ExecuteFired(eventUuid, c.executeCallbacks[eventUuid])]) else c,
                     listeners[1..], channel, eventUuid);
    }
  }

  /** What `execute` keeps is the same in both. */
  predicate SameExecutes(c: Client, c': Client) {
    && c'.executeListeners == c.executeListeners && c'.executeHandlers == c.executeHandlers
    && c'.executeCallbacks == c.executeCallbacks
  }

  lemma {:induction false} JobsOverListeners(c: Client, jobs: seq<JobCall>, event: string)
    ensures SameExecutes(c, JobsOver(c, jobs, event))
    decreases |jobs|
  {
    if jobs != [] {
      JobsOverListeners(JobOver(c, jobs[0], event), jobs[1..], event);
    }
  }

  lemma StartListeners(c: Client, job: JobCall)
    ensures SameExecutes(c, Start(c, job))
  {
  }

  lemma BgapiListeners(c: Client, text: string, jobId: string, hasCallback: bool)
    ensures SameExecutes(c, Bgapi(c, text, jobId, hasCallback))
  {
    hide Start;
    var job := JobCall(|c.jobs|, text, jobId, hasCallback, c.usingFilters);
    StartListeners(c.(jobs := c.jobs + [job]), job);
  }

  lemma RunListeners(c: Client, slot: Slot, reply: nat)
    ensures SameExecutes(c, Run(c, slot, reply))
  {
    hide Start;
    if slot.callback.StartJob? {
      StartListeners(c, slot.callback.job);
    }
  }

  lemma ReplyListeners(c: Client, reply: nat)
    ensures SameExecutes(c, CommandReply(c, reply)) && SameExecutes(c, ApiResponse(c, reply))
  {
    hide Run;
    if c.cmdQueue != [] {
      RunListeners(PopCommand(c, reply), c.cmdQueue[0], reply);
    }
    if c.apiQueue != [] {
      RunListeners(PopApi(c, reply), c.apiQueue[0], reply);
    }
  }

  lemma StepExecutes(s: Sys, step: Step)
    requires OneListener(s.client) && !step.DoExecute?
    ensures SameExecutes(s.client, Do(s, step).client)
  {
    hide JobsOver, Listening, OnEvent, ExecuteComplete, CommandReply, ApiResponse, Bgapi;
    EventSteps(s, step);
    var c := s.client;
    match step
    case DoBgapi(text, jobId, hasCallback) => BgapiListeners(c, text, jobId, hasCallback);
    case Answer => ReplyListeners(c, s.answered);
    case Arrive(e) =>
      JobsOverListeners(c.(jobListeners := Listening(c.jobListeners, Uuid(e), false)),
                        Listening(c.jobListeners, Uuid(e), true), Uuid(e));
      CompletionOnce(c, c.executeListeners, Uuid(e), ExecutedId(e));
    case _ =>
  }

  /** Some `execute` of the run was on this channel. */
  predicate Executed(steps: seq<Step>, channel: string) {
    exists i :: 0 <= i < |steps| && steps[i].DoExecute? && steps[i].channel == channel
  }

  /** The callback of the last `execute` of the run under this id. */
  function LastHandler(steps: seq<Step>, eventUuid: string): Option<nat> {
    if steps == [] then None
    else
      var last := steps[|steps| - 1];
      if last.DoExecute? && last.eventUuid == eventUuid then last.handler
      else LastHandler(steps[..|steps| - 1], eventUuid)
  }

  /** The listeners and callbacks of a client are those of the `execute` calls of the run. */
  ghost predicate Registered(c: Client, steps: seq<Step>) {
    && OneListener(c)
    && (forall channel :: channel in c.executeHandlers <==> Executed(steps, channel))
    && (forall eventUuid :: LastHandler(steps, eventUuid) ==
          if eventUuid in c.executeCallbacks then Some(c.executeCallbacks[eventUuid]) else None)
  }

  lemma StepRegistered(s: Sys, steps: seq<Step>, step: Step)
    requires Registered(s.client, steps)
    ensures Registered(Do(s, step).client, steps + [step])
  {
    var c, c', steps' := s.client, Do(s, step).client, steps + [step];
    assert forall i :: 0 <= i < |steps| ==> steps'[i] == steps[i];
    assert steps'[|steps|] == step && steps'[..|steps|] == steps;
    assert forall channel :: Executed(steps, channel) ==> Executed(steps', channel);
    hide Do, OneListener;
    if step.DoExecute? {
      ExecuteListener(s, step.channel, step.eventUuid, step.handler);
    } else {
      StepExecutes(s, step);
      SameListener(c, c');
    }
  }

  lemma ExecuteListener(s: Sys, channel: string, eventUuid: string, handler: Option<nat>)
    requires OneListener(s.client)
    ensures var c, c' := s.client, Do(s, DoExecute(channel, eventUuid, handler)).client;
            && OneListener(c') && c'.executeHandlers == c.executeHandlers + {channel}
            && c'.executeCallbacks ==
               if handler.Some? then c.executeCallbacks[eventUuid := handler.value]
               else c.executeCallbacks - {eventUuid}
  {
  }

  lemma SameListener(c: Client, c': Client)
    requires OneListener(c) && SameExecutes(c, c')
    ensures OneListener(c')
  {
  }

  lemma {:induction false} RunRegistered(inbound: bool, steps: seq<Step>)
    ensures Registered(After(Start0(inbound), steps).client, steps)
    decreases |steps|
  {
    hide Do;
    if steps != [] {
      hide Registered;
      var front, last := steps[..|steps| - 1], steps[|steps| - 1];
      RunRegistered(inbound, front);
      assert steps == front + [last];
      AfterAppend(Start0(inbound), front, [last]);
      assert After(After(Start0(inbound), front), [last]) == Do(After(Start0(inbound), front), last) by {
        assert [last][1..] == [];
      }
      StepRegistered(After(Start0(inbound), front), front, last);
    }
  }

  /** Execute dispatch: after any run, a completion event for a channel, which names it in its `Unique-ID` and whatever
      else is in it, fires exactly one callback, once, if the run ever executed on that channel and its last `execute`
      under the event's id had one: that callback. The id is the `Application-UUID`, or without one the
      `Event-UUID`. */
  lemma ExecuteDispatch(inbound: bool, steps: seq<Step>, e: Incoming)
    requires e.contentType in {"text/event-plain", "text/event-json", "text/event-xml"}
    requires e.eventName == "CHANNEL_EXECUTE_COMPLETE" && e.jobUuid == "" && e.uniqueId != ""
    ensures var s := After(Start0(inbound), steps);
            var id := if e.applicationUuid != "" then e.applicationUuid else e.eventUuid;
            var handler := LastHandler(steps, id);
            Do(s, Arrive(e)).client ==
            if Executed(steps, e.uniqueId) && handler.Some?
            then s.client.(fired := s.client.fired + [ExecuteFired(id, handler.value)])
            else s.client
  {
    hide OnEvent, ExecuteComplete, LastHandler, Executed;
    var s := After(Start0(inbound), steps);
    RunRegistered(inbound, steps);
    EventSteps(s, Arrive(e));
    CompletionOnce(s.client, s.client.executeListeners, e.uniqueId, ExecutedId(e));
  }
}
