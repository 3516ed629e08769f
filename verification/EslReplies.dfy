/** Reply pairing: the callback a caller queued with a command runs on the answer to that command. */
module EslReplies {
  import opened Strings
  import opened EslClient
  import opened EslRuns

  /* ---- what runs is what was queued ---- */

  /** The slot holds the callback its command was sent with. */
  predicate Holds(c: Client, slot: Slot) {
    slot.command < |c.callbacks| && slot.callback == c.callbacks[slot.command]
  }

  /** How often answer `r` took the slot of command `k`, if that was sent with callback `id`. */
  function Takes(c: Client, id: nat, k: nat, r: nat): nat {
    if k < |c.callbacks| && c.callbacks[k] == User(id) then multiset(c.taken)[(k, r)] else 0
  }

  /** Slots hold the callbacks their commands were sent with, and a caller's callback ran as often, and on the same
      answers, as the slot of its command was taken. */
  ghost predicate Wired(c: Client) {
    && |c.callbacks| == |c.written|
    && (forall k :: 0 <= k < |c.written| && QueueOf(c.written[k]) == Nowhere ==> c.callbacks[k] == NoCallback)
    && (forall i :: 0 <= i < |c.cmdQueue| ==> Holds(c, c.cmdQueue[i]))
    && (forall i :: 0 <= i < |c.apiQueue| ==> Holds(c, c.apiQueue[i]))
    && (forall i :: 0 <= i < |c.taken| ==> c.taken[i].0 < |c.written|)
    && (forall id: nat, k: nat, r: nat :: multiset(c.fired)[UserFired(id, k, r)] == Takes(c, id, k, r))
  }

  lemma Untaken0(taken: seq<(nat, nat)>, k: nat, r: nat)
    requires forall i :: 0 <= i < |taken| ==> taken[i].0 < k
    ensures multiset(taken)[(k, r)] == 0
  {
    assert (k, r) !in taken;
  }

  /** Sending a command leaves open what ran. */
  lemma SendWired(c: Client, cmd: Command, callback: Callback)
    requires Wired(c) && (QueueOf(cmd) == Nowhere ==> callback == NoCallback)
    ensures Wired(Send(c, cmd, callback))
  {
    var c' := Send(c, cmd, callback);
    forall id: nat, k: nat, r: nat ensures Takes(c', id, k, r) == Takes(c, id, k, r) {
      if k == |c.callbacks| {
        Untaken0(c.taken, k, r);
      }
    }
  }

  lemma QueueWired(c: Client, cmd: Command, callback: Callback)
    requires Wired(c) && QueueOf(cmd) != Nowhere
    ensures Wired(SendRecv(c, cmd, callback))
    ensures cmd.ApiCall? ==> Wired(Api(c, cmd.text, callback))
  {
    hide Takes;
    SendWired(c, cmd, callback);
    SameTakes(Send(c, cmd, callback), SendRecv(c, cmd, callback));
    if cmd.ApiCall? {
      SameTakes(Send(c, cmd, callback), Api(c, cmd.text, callback));
    }
  }

  lemma SameTakes(c: Client, c': Client)
    requires c'.callbacks == c.callbacks && c'.taken == c.taken
    ensures forall id: nat, k: nat, r: nat :: Takes(c', id, k, r) == Takes(c, id, k, r)
  {
  }

  /** Nothing but the queues, callbacks, slots taken and firings matters. */
  lemma SameWired(c: Client, c': Client)
    requires Wired(c) && c'.written == c.written && c'.callbacks == c.callbacks && c'.taken == c.taken
    requires c'.cmdQueue == c.cmdQueue && c'.apiQueue == c.apiQueue && c'.fired == c.fired
    ensures Wired(c')
  {
    hide Takes;
    SameTakes(c, c');
  }

  lemma FireWired(c: Client, f: Fired)
    requires Wired(c) && !f.UserFired?
    ensures Wired(c.(fired := c.fired + [f]))
  {
    hide Takes;
    SameTakes(c, c.(fired := c.fired + [f]));
  }

  lemma StartWired(c: Client, job: JobCall)
    requires Wired(c)
    ensures Wired(Start(c, job))
  {
    hide Wired, SendRecv;
    var listening := c.(jobListeners := c.jobListeners + [job]);
    SameWired(c, listening);
    QueueWired(c, FilterDelete(JOB, job.jobId), NoCallback);
    var c' := if job.hasCallback then listening
              else if job.filtered then DeleteFilter(c, JOB, job.jobId, NoCallback) else c;
    QueueWired(c', BgApi(job), NoCallback);
  }

  lemma {:induction false} JobsOverWired(c: Client, jobs: seq<JobCall>, event: string)
    requires Wired(c)
    ensures Wired(JobsOver(c, jobs, event))
    decreases |jobs|
  {
    hide Wired, SendRecv;
    if jobs != [] {
      var job := jobs[0];
      QueueWired(c, FilterDelete(JOB, job.jobId), EndJob(job, event));
      FireWired(c, JobFired(job, event, None));
      JobsOverWired(JobOver(c, job, event), jobs[1..], event);
    }
  }

  lemma {:induction false} ExecuteCompleteWired(c: Client, listeners: seq<string>, channel: string, eventUuid: string)
    requires Wired(c)
    ensures Wired(ExecuteComplete(c, listeners, channel, eventUuid))
    decreases |listeners|
  {
    hide Wired;
    if listeners != [] {
      var hit := listeners[0] == channel && eventUuid in c.executeCallbacks;
      var f := ExecuteFired(eventUuid, if hit then c.executeCallbacks[eventUuid] else 0);
      FireWired(c, f);
      ExecuteCompleteWired(if hit then c.(fired := c.fired + [f]) else c, listeners[1..], channel, eventUuid);
    }
  }

  lemma TakesMore(c: Client, slot: Slot, reply: nat)
    requires Holds(c, slot)
    ensures var c' := c.(taken := c.taken + [(slot.command, reply)]);
            forall id: nat, k: nat, r: nat :: Takes(c', id, k, r) ==
              Takes(c, id, k, r) + (if slot.callback == User(id) && slot.command == k && reply == r then 1 else 0)
  {
  }

  lemma FiredMore(fired: seq<Fired>, f: Fired)
    ensures forall g :: multiset(fired + [f])[g] == multiset(fired)[g] + (if f == g then 1 else 0)
  {
  }

  /** A slot that is taken and holds no caller's callback. */
  lemma TakeWired(c: Client, slot: Slot, reply: nat)
    requires Wired(c) && Holds(c, slot) && !slot.callback.User?
    ensures Wired(c.(taken := c.taken + [(slot.command, reply)]))
  {
    hide Takes;
    TakesMore(c, slot, reply);
  }

  /** A slot that is taken, and the caller's callback in it, which runs. */
  lemma UserWired(c: Client, slot: Slot, reply: nat)
    requires Wired(c) && Holds(c, slot) && slot.callback.User?
    ensures Wired(Run(c.(taken := c.taken + [(slot.command, reply)]), slot, reply))
  {
    hide Takes;
    TakesMore(c, slot, reply);
    FiredMore(c.fired, UserFired(slot.callback.id, slot.command, reply));
    SameTakes(c.(taken := c.taken + [(slot.command, reply)]),
              Run(c.(taken := c.taken + [(slot.command, reply)]), slot, reply));
  }

  lemma ShorterWired(c: Client)
    requires Wired(c)
    ensures c.cmdQueue != [] ==> Wired(c.(cmdQueue := c.cmdQueue[1..])) && Holds(c, c.cmdQueue[0])
    ensures c.apiQueue != [] ==> Wired(c.(apiQueue := c.apiQueue[1..])) && Holds(c, c.apiQueue[0])
  {
    hide Takes;
    if c.cmdQueue != [] {
      SameTakes(c, c.(cmdQueue := c.cmdQueue[1..]));
    }
    if c.apiQueue != [] {
      SameTakes(c, c.(apiQueue := c.apiQueue[1..]));
    }
  }

  lemma PopWired(c: Client, slot: Slot, reply: nat)
    requires Wired(c) && Holds(c, slot)
    ensures Wired(Run(c.(taken := c.taken + [(slot.command, reply)]), slot, reply))
  {
    hide Wired, Start;
    var c' := c.(taken := c.taken + [(slot.command, reply)]);
    match slot.callback
    case User(_) => UserWired(c, slot, reply);
    case NoCallback => TakeWired(c, slot, reply);
    case StartJob(job) =>
      TakeWired(c, slot, reply);
      StartWired(c', job);
    case EndJob(job, event) =>
      TakeWired(c, slot, reply);
      FireWired(c', JobFired(job, event, Some((slot.command, reply))));
  }

  lemma ReplyWired(c: Client, reply: nat)
    requires Wired(c)
    ensures Wired(CommandReply(c, reply)) && Wired(ApiResponse(c, reply))
  {
    hide Wired, Run;
    ShorterWired(c);
    if c.cmdQueue != [] {
      PopWired(c.(cmdQueue := c.cmdQueue[1..]), c.cmdQueue[0], reply);
    }
    if c.apiQueue != [] {
      PopWired(c.(apiQueue := c.apiQueue[1..]), c.apiQueue[0], reply);
    }
  }

  lemma BgapiWired(c: Client, text: string, jobId: string, hasCallback: bool)
    requires Wired(c)
    ensures Wired(Bgapi(c, text, jobId, hasCallback))
  {
    hide Wired, Start, SendRecv;
    var job := JobCall(|c.jobs|, text, jobId, hasCallback, c.usingFilters);
    var c' := c.(jobs := c.jobs + [job]);
    SameWired(c, c');
    SameWired(c, c'.(usingFilters := true));
    QueueWired(c'.(usingFilters := true), FilterAdd(JOB, jobId), StartJob(job));
    StartWired(c', job);
  }

  lemma ExecuteWired(c: Client, channel: string, eventUuid: string, handler: Option<nat>)
    requires Wired(c)
    ensures Wired(Execute(c, channel, eventUuid, handler))
  {
    hide Wired;
    var c' := Execute(c, channel, eventUuid, handler);
    var unsent := c'.(written := c.written, callbacks := c.callbacks);
    SameWired(c, unsent);
    SendWired(unsent, SendMsg(channel, eventUuid), NoCallback);
    assert c' == Send(unsent, SendMsg(channel, eventUuid), NoCallback);
  }

  /** No step runs a caller's callback but with its slot, or takes a slot without running what it holds. */
  lemma StepWired(s: Sys, step: Step)
    requires Wired(s.client)
    ensures Wired(Do(s, step).client)
  {
    hide Wired, Send, SendRecv, Api, CommandReply, ApiResponse, JobsOver, Listening, ExecuteComplete, OnEvent, Bgapi;
    hide Execute, Uuid, ExecutedId, JobNotice, Completion;
    EventSteps(s, step);
    var c := s.client;
    match step
    case DoSend(text, callback) => QueueWired(c, Plain(text), callback);
    case DoApi(text, callback) => QueueWired(c, ApiCall(text), callback);
    case DoFilter(header, value, callback) =>
      SameWired(c, c.(usingFilters := true));
      QueueWired(c.(usingFilters := true), FilterAdd(header, value), callback);
    case DoDeleteFilter(header, value, callback) => QueueWired(c, FilterDelete(header, value), callback);
    case DoBgapi(text, jobId, hasCallback) => BgapiWired(c, text, jobId, hasCallback);
    case DoExecute(channel, eventUuid, handler) => ExecuteWired(c, channel, eventUuid, handler);
    case DoExit => SendWired(c, Exit, NoCallback);
    case Answer => ReplyWired(c, s.answered);
    case Arrive(e) =>
      var rest := c.(jobListeners := Listening(c.jobListeners, Uuid(e), false));
      SameWired(c, rest);
      JobsOverWired(rest, Listening(c.jobListeners, Uuid(e), true), Uuid(e));
      ExecuteCompleteWired(c, c.executeListeners, Uuid(e), ExecutedId(e));
  }

  lemma {:induction false} RunsWired(s: Sys, steps: seq<Step>)
    requires Wired(s.client)
    ensures Wired(After(s, steps).client)
    decreases |steps|
  {
    hide Wired, Do;
    if steps != [] {
      StepWired(s, steps[0]);
      RunsWired(Do(s, steps[0]), steps[1..]);
    }
  }

  lemma FreshWired(inbound: bool)
    ensures Wired(Fresh(inbound))
  {
  }

  /* ---- no answer takes two slots ---- */

  predicate Ordered(s: Sys) {
    && (forall i :: 0 <= i < |s.client.taken| ==> s.client.taken[i].1 < s.answered)
    && (forall i, j :: 0 <= i < j < |s.client.taken| ==> s.client.taken[i].1 < s.client.taken[j].1)
  }

  lemma StepOrdered(s: Sys, step: Step)
    requires Ordered(s)
    ensures Ordered(Do(s, step))
  {
    hide Do;
    if !step.Answer? {
      StepWrites(s, step);
    } else if s.answered < |s.client.written| {
      AnswerWrites(s);
    } else {
      Idle(s);
    }
  }

  lemma {:induction false} RunsOrdered(s: Sys, steps: seq<Step>)
    requires Ordered(s)
    ensures Ordered(After(s, steps))
    decreases |steps|
  {
    hide Ordered, Do;
    if steps != [] {
      StepOrdered(s, steps[0]);
      RunsOrdered(Do(s, steps[0]), steps[1..]);
    }
  }

  lemma {:induction false} TakenOnce(taken: seq<(nat, nat)>, pair: (nat, nat))
    requires forall i, j :: 0 <= i < j < |taken| ==> taken[i].1 < taken[j].1
    ensures multiset(taken)[pair] == if pair in taken then 1 else 0
    decreases |taken|
  {
    if taken != [] {
      var front, last := taken[..|taken| - 1], taken[|taken| - 1];
      TakenOnce(front, pair);
      assert taken == front + [last];
      assert forall i :: 0 <= i < |front| ==> front[i] != last;
    }
  }

  /* ---- the theorems ---- */

  /** A caller's callback sent with command `k` ran exactly once, on the answer to that command; nobody else's did. */
  predicate RanOnce(c: Client, k: nat) {
    k < |c.callbacks| && c.callbacks[k].User? ==>
      && multiset(c.fired)[UserFired(c.callbacks[k].id, k, k)] == 1
      && RunsOnlyOn(c, k)
  }

  /** What ran for command `k` is the callback it was sent with, and ran on its own answer. */
  predicate RunsOnlyOn(c: Client, k: nat) {
    forall i :: 0 <= i < |c.fired| && c.fired[i].UserFired? && c.fired[i].command == k ==>
      k < |c.callbacks| && c.callbacks[k] == User(c.fired[i].id) && c.fired[i].reply == k
  }

  /** In every run, a caller's callback ran on the answers that took the slot of its command, once on each. */
  lemma Firings(inbound: bool, steps: seq<Step>)
    ensures var c := After(Start0(inbound), steps).client;
            && |c.callbacks| == |c.written|
            && forall id: nat, k: nat, r: nat :: multiset(c.fired)[UserFired(id, k, r)] ==
                 if k < |c.callbacks| && c.callbacks[k] == User(id) && (k, r) in c.taken then 1 else 0
  {
    var s := After(Start0(inbound), steps);
    FreshWired(inbound);
    RunsWired(Start0(inbound), steps);
    RunsOrdered(Start0(inbound), steps);
    forall id: nat, k: nat, r: nat
      ensures multiset(s.client.fired)[UserFired(id, k, r)] ==
              if k < |s.client.callbacks| && s.client.callbacks[k] == User(id) && (k, r) in s.client.taken then 1 else 0
    {
      TakenOnce(s.client.taken, (k, r));
      assert multiset(s.client.fired)[UserFired(id, k, r)] == Takes(s.client, id, k, r);
    }
  }

  /** What ran for a command whose slot is only taken by its own answer. */
  lemma FiringsOf(inbound: bool, steps: seq<Step>, k: nat)
    ensures var c := After(Start0(inbound), steps).client;
            (forall r :: (k, r) in c.taken ==> r == k) ==> RunsOnlyOn(c, k) && ((k, k) in c.taken ==> RanOnce(c, k))
  {
    hide After;
    Firings(inbound, steps);
    var c := After(Start0(inbound), steps).client;
    if forall r :: (k, r) in c.taken ==> r == k {
      forall i | 0 <= i < |c.fired| && c.fired[i].UserFired? && c.fired[i].command == k
        ensures k < |c.callbacks| && c.callbacks[k] == User(c.fired[i].id) && c.fired[i].reply == k
      {
        assert multiset(c.fired)[UserFired(c.fired[i].id, k, c.fired[i].reply)] > 0;
      }
    }
  }

  /** A command sent with a caller's callback has a queue for it. */
  lemma Queued(inbound: bool, steps: seq<Step>, k: nat)
    ensures var c := After(Start0(inbound), steps).client;
            && |c.callbacks| == |c.written|
            && (k < |c.written| && c.callbacks[k].User? ==> QueueOf(c.written[k]) != Nowhere)
  {
    hide After;
    FreshWired(inbound);
    RunsWired(Start0(inbound), steps);
  }

  lemma NoCaller(c: Client, k: nat)
    requires k < |c.callbacks| ==> !c.callbacks[k].User?
    ensures RanOnce(c, k)
  {
  }

  lemma AllSent(s: Sys)
    requires InStep(s)
    ensures s.answered <= |s.client.written|
    ensures forall k :: 0 <= k < s.answered && QueueOf(s.client.written[k]) != Nowhere ==> (k, k) in s.client.taken
  {
    hide Waiting, Numbers;
  }

  /** Reply pairing of a run: every slot is taken by the answer to its own command, exactly when no answer to a
      `sendmsg` or `exit` arrives while a command waits. Then the callback a caller sent with a command runs on no
      other answer, and has run exactly once when the command is answered. */
  lemma ReplyPairing(inbound: bool, steps: seq<Step>)
    ensures var s := After(Start0(inbound), steps);
            && (Paired(s.client) <==> Undisturbed(Start0(inbound), steps))
            && (Undisturbed(Start0(inbound), steps) ==>
                  && InStep(s) && (forall k :: RunsOnlyOn(s.client, k))
                  && forall k :: 0 <= k < s.answered ==> RanOnce(s.client, k))
  {
    hide After, RunsOnlyOn, RanOnce, Trails;
    SlotPairing(inbound, steps);
    var s := After(Start0(inbound), steps);
    if Undisturbed(Start0(inbound), steps) {
      forall k ensures RunsOnlyOn(s.client, k) {
        FiringsOf(inbound, steps, k);
      }
      AllSent(s);
      forall k | 0 <= k < s.answered ensures RanOnce(s.client, k) {
        FiringsOf(inbound, steps, k);
        Queued(inbound, steps, k);
        if (k, k) !in s.client.taken {
          NoCaller(s.client, k);
        }
      }
    }
  }

  /** Reply pairing of one command, in runs of any kind. The callback a caller sent with command `k`, in `step`, runs on
      the answer to that command once it comes, and exactly once, if it was calm: all callbacks of unanswered commands
      were waiting, and no `sendmsg` or `exit` before it was unanswered. If it was not calm, it never runs on that
      answer. For all but the commands that a reply sends off, a caller can see that before the call. */
  lemma OwnAnswer(inbound: bool, before: seq<Step>, step: Step, after: seq<Step>, k: nat)
    requires var s := After(Start0(inbound), before);
             && |s.client.written| <= k < |Do(s, step).client.written|
             && QueueOf(Do(s, step).client.written[k]) == Commands
    ensures var s := After(Start0(inbound), before);
            var calm := if step.Answer? then CalmTo(Do(s, step), k) else Calm(s);
            var s' := After(Do(s, step), after);
            && (calm ==> RunsOnlyOn(s'.client, k) && (k < s'.answered ==> RanOnce(s'.client, k)))
            && (!calm ==> forall id :: UserFired(id, k, k) !in s'.client.fired)
  {
    hide Do, CalmTo, Calm, QueueOf, RanOnce, RunsOnlyOn;
    var s := After(Start0(inbound), before);
    var s', steps := After(Do(s, step), after), before + ([step] + after);
    OwnSlot(inbound, before, step, after, k);
    AfterAppend(Start0(inbound), before, [step] + after);
    assert ([step] + after)[1..] == after;
    assert s' == After(Start0(inbound), steps);
    FiringsOf(inbound, steps, k);
    Firings(inbound, steps);
    forall id ensures UserFired(id, k, k) in s'.client.fired ==> (k, k) in s'.client.taken {
      assert multiset(s'.client.fired)[UserFired(id, k, k)] <= 1;
    }
  }

  /** An api call's callback runs on its own answer and no other, exactly once when that has come, in runs of any
      kind. */
  lemma ApiPairing(inbound: bool, steps: seq<Step>, k: nat)
    ensures var s := After(Start0(inbound), steps);
            k < |s.client.written| && s.client.written[k].ApiCall? ==>
              RunsOnlyOn(s.client, k) && (k < s.answered ==> RanOnce(s.client, k))
  {
    hide After, RunsOnlyOn, RanOnce;
    ApiSlots(inbound, steps);
    FiringsOf(inbound, steps, k);
  }
  /** A run that is disturbed: the callback of a command runs on the answer to the `sendmsg` before it, and the answer
      to the command itself runs nothing. */
  lemma DisturbedRun(inbound: bool, channel: string, eventUuid: string, text: string, id: nat)
    ensures var steps := Opening(inbound) + [DoExecute(channel, eventUuid, None), DoSend(text, User(id)), Answer];
            var s := After(Start0(inbound), steps);
            var n := |Opening(inbound)|;
            && s.client.taken == [(n + 1, n)] && s.client.fired == [UserFired(id, n + 1, n)] && s.answered == n + 1
            && !Undisturbed(Start0(inbound), steps)
  {
    hide Do, After;
    var opening, rest := Opening(inbound), [DoExecute(channel, eventUuid, None), DoSend(text, User(id)), Answer];
    AfterAppend(Start0(inbound), opening, rest);
    Opened(inbound);
    var s0 := After(Start0(inbound), opening);
    After3(s0, rest[0], rest[1], rest[2]);
    var s1 := Do(s0, rest[0]);
    Executing(s0, channel, eventUuid);
    var s2 := Do(s1, rest[1]);
    assert s2 == s1.(client := SendRecv(s1.client, Plain(text), User(id))) by { Sending(s1, text, id); }
    EventSteps(s2, Answer);
    assert Do(s2, Answer).client.taken[0] == (|opening| + 1, |opening|);
    SlotPairing(inbound, opening + rest);
  }

  lemma Sending(s: Sys, text: string, id: nat)
    ensures Do(s, DoSend(text, User(id))) == s.(client := SendRecv(s.client, Plain(text), User(id)))
  {
  }
}
