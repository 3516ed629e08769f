/** After a queue bridged a call: the agent's, the caller's and the disconnect handler, cut at every
    `await`, sharing one latch. */
module Hangup {
  import opened Strings

  datatype Handler = ByAgent | ByCaller | ByDisconnect

  datatype HangupCase = BY_AGENT | BY_USER

  /** Where a handler waits. `Idle`: its event has not come; the others are named by what is awaited. */
  datatype Pc = Idle | AfterQueue | AgentStatistic | Process | TransferStatic | QueueStatistic | Over

  datatype Promise = Pending | Resolved | Rejected

  datatype State = State(
    transferStatic: bool,
    doneOver: bool,
    passes: seq<Handler>,
    agent: Pc, caller: Pc, disconnect: Pc, timer: bool,
    isCallerHangup: bool, seenCallerHangup: bool,
    callerHangup: bool, satisfaction: bool,
    writes: seq<HangupCase>,
    promise: Promise)

  /** Once the handlers are listening. `transferStatic` is the queue's option; `hungUp` tells whether the listener
      of the waiting call saw the caller hang up before. */
  function Listening(transferStatic: bool, hungUp: bool): State {
    State(transferStatic, false, [], Idle, Idle, Idle, false, hungUp, false, false, false, [], Pending)
  }

  /** What `onDisconnect` reads from its argument: whether the session is the call's, and how long to linger. */
  datatype Notice = Notice(sameSession: bool, linger: int)

  /** A promise is settled by the first `resolve` or `reject`. */
  function Settled(p: Promise, how: Promise): Promise { if p.Pending? then how else p }

  function Pass(s: State, h: Handler): State { s.(doneOver := true, passes := s.passes + [h]) }

  /** What can happen next: one of the three events, an `await` that ends (`ok`) or throws, the timer. A disconnect
      without notice is one whose handler is given no event: reading a header of it throws. */
  datatype Step =
    | AgentHangup | CallerHangup | Disconnect(notice: Option<Notice>)
    | AgentResumes(ok: bool) | CallerResumes(ok: bool) | LingerOver

  /** `onAgentHangup`, from one `await` to the next. */
  function AgentStep(s: State, ok: bool): State {
    match s.agent
    case Idle => s
    case Over => s
    case AfterQueue => if ok then AgentLatches(s) else s.(agent := Over, promise := Settled(s.promise, Rejected))
    case _ => if ok then AgentGoesOn(s) else s.(agent := Over, promise := Settled(s.promise, Rejected))
  }

  function AgentLatches(s: State): State {
    if s.doneOver then s.(agent := Over, promise := Settled(s.promise, Resolved))
    else Pass(s, ByAgent).(seenCallerHangup := s.isCallerHangup, agent := AgentStatistic)
  }

  /** What the agent's handler awaits behind the latch, one after the other. */
  function NextAwait(pc: Pc, transferStatic: bool): Pc {
    match pc
    case AgentStatistic => Process
    case Process => if transferStatic then TransferStatic else QueueStatistic
    case TransferStatic => QueueStatistic
    case _ => Over
  }

  /** The case is written on the way to its `await`; the satisfaction IVR is chosen at the end. */
  function AgentGoesOn(s: State): State {
    var next := NextAwait(s.agent, s.transferStatic);
    s.(agent := next,
       writes := if next.QueueStatistic? then s.writes + [BY_AGENT] else s.writes,
       satisfaction := s.satisfaction || (next.Over? && !s.seenCallerHangup && s.transferStatic),
       promise := if next.Over? then Settled(s.promise, Resolved) else s.promise)
  }

  /** `onCallerHangup`, from one `await` to the next. */
  function CallerStep(s: State, ok: bool): State {
    if s.caller.Idle? || s.caller.Over? then s
    else
      var writing := ok && s.caller.AgentStatistic?;
      s.(caller := if writing then QueueStatistic else Over,
         writes := if writing then s.writes + [BY_USER] else s.writes,
         promise := if ok then s.promise else Settled(s.promise, Rejected))
  }

  /** `onCallerHangup`, up to its first `await`. */
  function CallerHangsUp(s: State): State {
    if s.doneOver then s.(isCallerHangup := true, caller := Over)
    else Pass(s, ByCaller).(isCallerHangup := true, callerHangup := true, caller := AgentStatistic)
  }

  /** `onDisconnect`. */
  function Disconnects(s: State, notice: Option<Notice>): State {
    if notice.None? then s.(disconnect := Over, promise := Settled(s.promise, Rejected))
    else if notice.value.sameSession && !s.doneOver then
      Pass(s, ByDisconnect).(disconnect := Over, timer := notice.value.linger > 0)
    else s.(disconnect := Over)
  }

  /** Each event is listened to once. */
  function Do(s: State, step: Step): State {
    match step
    case AgentHangup => if s.agent == Idle then s.(agent := AfterQueue) else s
    case CallerHangup => if s.caller == Idle then CallerHangsUp(s) else s
    case Disconnect(notice) => if s.disconnect == Idle then Disconnects(s, notice) else s
    case AgentResumes(ok) => AgentStep(s, ok)
    case CallerResumes(ok) => CallerStep(s, ok)
    case LingerOver => if s.timer then s.(promise := Settled(s.promise, Resolved)) else s
  }

  function After(s: State, steps: seq<Step>): State
    decreases |steps|
  {
    if steps == [] then s else After(Do(s, steps[0]), steps[1..])
  }

  /** The latch was passed at most once, by the handler that tells so in the result. */
  predicate Latched(s: State) {
    && (s.doneOver <==> s.passes != []) && |s.passes| <= 1
    && (s.callerHangup <==> s.passes == [ByCaller])
    && (s.timer ==> s.passes == [ByDisconnect])
    && (s.promise.Resolved? ==> s.agent == Over || s.timer)
  }

  /** Only the handler that passed the latch goes on to write, and writes its own case once. */
  predicate Writes(s: State) {
    && (s.agent.AgentStatistic? || s.agent.Process? || s.agent.TransferStatic? ==>
        s.passes == [ByAgent] && s.writes == [])
    && (s.agent == QueueStatistic ==> s.passes == [ByAgent] && s.writes == [BY_AGENT])
    && (s.caller == AgentStatistic ==> s.passes == [ByCaller] && s.writes == [])
    && (s.caller == QueueStatistic ==> s.passes == [ByCaller] && s.writes == [BY_USER])
    && (s.caller.Idle? || s.caller.AgentStatistic? || s.caller.QueueStatistic? || s.caller.Over?)
    && (s.writes == [] || (s.writes == [BY_AGENT] && s.passes == [ByAgent]) ||
        (s.writes == [BY_USER] && s.passes == [ByCaller]))
    && (s.satisfaction ==> s.agent == Over && s.writes == [BY_AGENT] && s.transferStatic && !s.seenCallerHangup)
  }

  predicate Inv(s: State) { Latched(s) && Writes(s) }

  lemma EventInv(s: State, step: Step)
    requires Inv(s) && !step.AgentResumes? && !step.CallerResumes?
    ensures Inv(Do(s, step))
  {
    hide AgentStep, CallerStep, CallerHangsUp, Disconnects;
    match step
    case CallerHangup =>
      if s.caller == Idle {
        CallerHangsUpInv(s);
      }
    case Disconnect(notice) =>
      if s.disconnect == Idle {
        DisconnectsInv(s, notice);
      }
    case _ =>
  }

  lemma CallerHangsUpInv(s: State)
    requires Inv(s) && s.caller == Idle
    ensures Inv(CallerHangsUp(s))
  {
    if !s.doneOver {
      PassFirst(s);
    }
  }

  lemma DisconnectsInv(s: State, notice: Option<Notice>)
    requires Inv(s) && s.disconnect == Idle
    ensures Inv(Disconnects(s, notice))
  {
    hide Inv;
    if notice.None? {
      OverInv(s, Settled(s.promise, Rejected));
    } else if notice.value.sameSession && !s.doneOver {
      PassInv(s, notice.value.linger > 0);
    } else {
      OverInv(s, s.promise);
    }
  }

  lemma OverInv(s: State, promise: Promise)
    requires Inv(s) && (promise.Resolved? ==> s.promise.Resolved?)
    ensures Inv(s.(disconnect := Over, promise := promise))
  {
  }

  lemma PassInv(s: State, timer: bool)
    requires Inv(s) && !s.doneOver
    ensures Inv(Pass(s, ByDisconnect).(disconnect := Over, timer := timer))
  {
    assert s.passes + [ByDisconnect] == [ByDisconnect];
  }

  /** A latch that is open was passed by nobody. */
  lemma PassFirst(s: State)
    requires Latched(s) && !s.doneOver
    ensures forall h :: Pass(s, h).passes == [h]
  {
  }

  lemma WriteFirst(s: State)
    requires s.writes == []
    ensures forall w :: s.writes + [w] == [w]
  {
  }

  lemma AgentInv(s: State, ok: bool)
    requires Inv(s)
    ensures Inv(AgentStep(s, ok))
  {
    hide AgentLatches, AgentGoesOn;
    if s.agent.AfterQueue? {
      AgentLatchesInv(s);
    } else if !s.agent.Idle? && !s.agent.Over? {
      AgentGoesOnInv(s);
    }
  }

  lemma AgentLatchesInv(s: State)
    requires Inv(s) && s.agent.AfterQueue?
    ensures Inv(AgentLatches(s))
  {
    if !s.doneOver {
      PassFirst(s);
    }
  }

  lemma AgentGoesOnInv(s: State)
    requires Inv(s) && !s.agent.Idle? && !s.agent.Over? && !s.agent.AfterQueue?
    ensures Inv(AgentGoesOn(s))
  {
    if s.writes == [] {
      WriteFirst(s);
    }
  }

  lemma CallerInv(s: State, ok: bool)
    requires Inv(s)
    ensures Inv(CallerStep(s, ok))
  {
    if s.writes == [] {
      WriteFirst(s);
    }
  }

  lemma StepInv(s: State, step: Step)
    requires Inv(s)
    ensures Inv(Do(s, step))
  {
    hide Inv, AgentStep, CallerStep;
    match step
    case AgentResumes(ok) => AgentInv(s, ok);
    case CallerResumes(ok) => CallerInv(s, ok);
    case _ => EventInv(s, step);
  }

  lemma {:induction false} RunInv(s: State, steps: seq<Step>)
    requires Inv(s)
    ensures Inv(After(s, steps))
    decreases |steps|
  {
    hide Inv, Do;
    if steps != [] {
      StepInv(s, steps[0]);
      RunInv(Do(s, steps[0]), steps[1..]);
    }
  }

  /** Hangup attributed once: in every interleaving at most one handler passes the latch, at most one
      case is written, and it is the passing handler's; the result never tells both a caller's hangup and
      the satisfaction IVR, which follows only an agent's hangup that found the caller still there. */
  lemma AttributedOnce(transferStatic: bool, hungUp: bool, steps: seq<Step>)
    ensures var s := After(Listening(transferStatic, hungUp), steps);
            && |s.passes| <= 1 && (s.doneOver <==> |s.passes| == 1)
            && |s.writes| <= 1
            && (BY_AGENT in s.writes ==> s.passes == [ByAgent]) && (BY_USER in s.writes ==> s.passes == [ByCaller])
            && !(s.callerHangup && s.satisfaction)
            && (s.satisfaction ==> s.passes == [ByAgent] && s.transferStatic && !s.seenCallerHangup)
            && (s.satisfaction ==> !hungUp)
  {
    RunInv(Listening(transferStatic, hungUp), steps);
    if hungUp {
      HungUpStays(Listening(transferStatic, hungUp), steps);
    }
  }

  /** A hangup of the caller that was noted before stays noted, and the agent's handler sees it. */
  lemma {:induction false} HungUpStays(s: State, steps: seq<Step>)
    requires s.isCallerHangup && (s.passes == [ByAgent] ==> s.seenCallerHangup) && Inv(s)
    ensures After(s, steps).passes == [ByAgent] ==> After(s, steps).seenCallerHangup
    decreases |steps|
  {
    hide Inv, Do;
    if steps != [] {
      StepInv(s, steps[0]);
      StepHungUp(s, steps[0]);
      HungUpStays(Do(s, steps[0]), steps[1..]);
    }
  }

  lemma StepHungUp(s: State, step: Step)
    requires s.isCallerHangup && (s.passes == [ByAgent] ==> s.seenCallerHangup) && Inv(s)
    ensures var s' := Do(s, step); s'.isCallerHangup && (s'.passes == [ByAgent] ==> s'.seenCallerHangup)
  {
    hide Writes, Settled, AgentStep;
    if !s.doneOver {
      PassFirst(s);
    }
    if step.AgentResumes? {
      AgentHungUp(s, step.ok);
    }
  }

  lemma AgentHungUp(s: State, ok: bool)
    requires s.isCallerHangup && (s.passes == [ByAgent] ==> s.seenCallerHangup)
    ensures var s' := AgentStep(s, ok); s'.isCallerHangup && (s'.passes == [ByAgent] ==> s'.seenCallerHangup)
  {
    hide Settled, NextAwait, AgentLatches;
    LatchSees(s);
  }

  lemma LatchSees(s: State)
    requires s.isCallerHangup && (s.passes == [ByAgent] ==> s.seenCallerHangup)
    ensures var s' := AgentLatches(s); s'.isCallerHangup && (s'.passes == [ByAgent] ==> s'.seenCallerHangup)
  {
    hide Settled;
  }

  /** The caller's hangup alone never resolves the promise: that takes the end of the agent's handler, or a
      disconnect that passed the latch with a time to linger. */
  lemma ResolvedBy(transferStatic: bool, hungUp: bool, steps: seq<Step>)
    ensures var s := After(Listening(transferStatic, hungUp), steps);
            s.promise.Resolved? ==> s.agent == Over || (s.timer && s.passes == [ByDisconnect])
  {
    RunInv(Listening(transferStatic, hungUp), steps);
  }

  /** As the listener is registered: the first argument of a handler is the connection's number, so no disconnect
      comes with a notice. */
  predicate AsRegistered(steps: seq<Step>) {
    forall i :: 0 <= i < |steps| && steps[i].Disconnect? ==> steps[i].notice.None?
  }

  /** As registered, the disconnect handler passes the latch in no run and no timer is set: the promise resolves
      only at the end of the agent's handler, and a disconnect rejects it, if it is not settled by then. */
  lemma DisconnectRejects(transferStatic: bool, hungUp: bool, steps: seq<Step>)
    requires AsRegistered(steps)
    ensures var s := After(Listening(transferStatic, hungUp), steps);
            && s.passes != [ByDisconnect] && !s.timer
            && (s.promise.Resolved? ==> s.agent == Over)
            && (s.promise.Pending? ==> forall i :: 0 <= i < |steps| ==> !steps[i].Disconnect?)
  {
    RunInv(Listening(transferStatic, hungUp), steps);
    NeverByDisconnect(Listening(transferStatic, hungUp), steps);
  }

  lemma {:induction false} NeverByDisconnect(s: State, steps: seq<Step>)
    requires AsRegistered(steps) && Inv(s) && s.passes != [ByDisconnect] &&
               (s.disconnect == Over ==> !s.promise.Pending?)
    requires s.disconnect == Idle || s.disconnect == Over
    ensures var s' := After(s, steps);
            && s'.passes != [ByDisconnect] && (s'.disconnect == Over ==> !s'.promise.Pending?)
            && (s'.disconnect == Idle ==> s.disconnect == Idle)
            && (s'.disconnect == Idle ==> forall i :: 0 <= i < |steps| ==> !steps[i].Disconnect?)
            && (s'.disconnect == Idle || s'.disconnect == Over)
    decreases |steps|
  {
    hide Inv, Do;
    if steps != [] {
      var s' := Do(s, steps[0]);
      StepInv(s, steps[0]);
      StepByDisconnect(s, steps[0]);
      NeverByDisconnect(s', steps[1..]);
      assert forall i :: 0 < i < |steps| ==> steps[i] == steps[1..][i - 1];
    }
  }

  /** The agent's and the caller's handler leave the disconnect handler, and a settled promise, alone. */
  lemma GoesOnKeeps(s: State)
    ensures var r := AgentGoesOn(s);
            && r.disconnect == s.disconnect && r.passes == s.passes
            && (r.promise == s.promise || r.promise == Settled(s.promise, Resolved))
  {
    hide Settled, NextAwait;
  }

  lemma LatchKeeps(s: State)
    ensures AgentLatches(s).disconnect == s.disconnect
    ensures AgentLatches(s).passes == s.passes || (!s.doneOver && AgentLatches(s).passes == s.passes + [ByAgent])
    ensures AgentLatches(s).promise == s.promise || AgentLatches(s).promise == Settled(s.promise, Resolved)
  {
    hide Settled;
    if s.doneOver {
      return;
    }
  }

  lemma AgentKeeps(s: State, ok: bool)
    ensures AgentStep(s, ok).disconnect == s.disconnect
    ensures AgentStep(s, ok).passes == s.passes || (!s.doneOver && AgentStep(s, ok).passes == s.passes + [ByAgent])
    ensures !s.promise.Pending? ==> AgentStep(s, ok).promise == s.promise
  {
    hide AgentLatches, AgentGoesOn;
    GoesOnKeeps(s);
    LatchKeeps(s);
  }

  lemma CallerKeeps(s: State, ok: bool)
    ensures CallerStep(s, ok).disconnect == s.disconnect && CallerStep(s, ok).passes == s.passes
    ensures CallerStep(s, ok).promise == if s.caller.Idle? || s.caller.Over? || ok then s.promise
                                         else Settled(s.promise, Rejected)
  {
    hide Settled;
    if s.caller.Idle? || s.caller.Over? {
      return;
    }
  }

  lemma StepByDisconnect(s: State, step: Step)
    requires step.Disconnect? ==> step.notice.None?
    requires Inv(s) && s.passes != [ByDisconnect] && (s.disconnect == Over ==> !s.promise.Pending?)
    requires s.disconnect == Idle || s.disconnect == Over
    ensures var s' := Do(s, step);
            && s'.passes != [ByDisconnect] && (s'.disconnect == Over ==> !s'.promise.Pending?)
            && s'.disconnect == (if step.Disconnect? then Over else s.disconnect)
  {
    hide Writes, AgentStep, CallerStep;
    if !s.doneOver {
      PassFirst(s);
    }
    match step
    case AgentResumes(ok) => AgentKeeps(s, ok);
    case CallerResumes(ok) => CallerKeeps(s, ok);
    case _ =>
  }

  /* ---- what a step does to the rest ---- */

  /** The promise stays, or is resolved, or rejected by what may fail; the queue's option stays. */
  predicate Carries(s: State, s': State, fails: bool) {
    && s'.transferStatic == s.transferStatic
    && (s'.promise == s.promise || s'.promise == Settled(s.promise, if fails then Rejected else Resolved))
  }

  lemma AgentCarries(s: State, ok: bool)
    ensures var s' := AgentStep(s, ok);
            && Carries(s, s', !ok) && s'.timer == s.timer && s'.disconnect == s.disconnect
            && (s'.agent == Over && s.agent != Over ==>
                  s'.promise == Settled(s.promise, if ok then Resolved else Rejected))
            && (s.agent == Over ==> s' == s) && (s.agent != Idle ==> s'.agent != Idle)
            && (s.agent != Idle && s.agent != Over ==> AwaitsLeft(s'.agent) < AwaitsLeft(s.agent))
  {
    hide Settled, AgentLatches, AgentGoesOn, NextAwait;
    if s.agent == Idle || s.agent == Over || !ok {
      return;
    }
    if s.agent == AfterQueue {
      LatchCarries(s);
      return;
    }
    GoesOnCarries(s);
    hide AwaitsLeft;
    FewerAwaits(s.agent, s.transferStatic);
  }

  lemma FewerAwaits(pc: Pc, transferStatic: bool)
    requires pc != Idle && pc != Over && pc != AfterQueue
    ensures AwaitsLeft(NextAwait(pc, transferStatic)) < AwaitsLeft(pc) && NextAwait(pc, transferStatic) != Idle
  {
  }

  lemma LatchCarries(s: State)
    ensures var s' := AgentLatches(s);
            && s'.transferStatic == s.transferStatic && s'.timer == s.timer && s'.disconnect == s.disconnect
            && s'.agent == (if s.doneOver then Over else AgentStatistic)
            && s'.promise == if s.doneOver then Settled(s.promise, Resolved) else s.promise
  {
    hide Settled;
    if s.doneOver {
      return;
    }
  }

  lemma GoesOnCarries(s: State)
    ensures var s' := AgentGoesOn(s);
            && s'.transferStatic == s.transferStatic && s'.timer == s.timer && s'.disconnect == s.disconnect
            && s'.agent == NextAwait(s.agent, s.transferStatic)
            && s'.promise == if s'.agent == Over then Settled(s.promise, Resolved) else s.promise
  {
    hide Settled, NextAwait;
  }

  lemma CallerCarries(s: State, ok: bool)
    ensures var s' := CallerStep(s, ok);
            && Carries(s, s', !ok) && s'.timer == s.timer && s'.disconnect == s.disconnect && s'.agent == s.agent
  {
    hide Settled;
    if s.caller.Idle? || s.caller.Over? {
      return;
    }
  }

  lemma HangsUpCarries(s: State)
    ensures var s' := CallerHangsUp(s);
            && s'.transferStatic == s.transferStatic && s'.promise == s.promise && s'.timer == s.timer
            && s'.disconnect == s.disconnect && s'.agent == s.agent
  {
  }

  lemma DisconnectsCarries(s: State, notice: Option<Notice>)
    ensures var s' := Disconnects(s, notice);
            && Carries(s, s', notice.None?) && s'.agent == s.agent && s'.disconnect == Over
  {
    hide Settled;
    if notice.None? {
      return;
    }
  }

  /** What every step does to the option, the promise, the agent's handler and the timer. */
  lemma StepCarries(s: State, step: Step)
    ensures var s' := Do(s, step);
            && Carries(s, s', Fails(step))
            && (s'.agent == Over && s.agent != Over ==> !s'.promise.Pending?)
            && (s.agent == Over ==> s'.agent == Over) && (s.agent != Idle ==> s'.agent != Idle)
            && (s.agent != Idle ==> AwaitsLeft(s'.agent) <= AwaitsLeft(s.agent))
            && (s.agent != Idle && s.agent != Over && step.AgentResumes? ==> AwaitsLeft(s'.agent) < AwaitsLeft(s.agent))
            && (s.disconnect == Over ==> s'.disconnect == Over && s'.timer == s.timer)
            && (s.timer && step == LingerOver ==> !s'.promise.Pending?)
  {
    hide AgentStep, CallerStep, CallerHangsUp, Disconnects;
    match step
    case AgentHangup =>
    case CallerHangup => HangsUpCarries(s);
    case Disconnect(notice) => DisconnectsCarries(s, notice);
    case AgentResumes(ok) => AgentCarries(s, ok);
    case CallerResumes(ok) => CallerCarries(s, ok);
    case LingerOver =>
  }

  /* ---- what the handlers come to ---- */

  /** The agent's handler settles the promise before it is over. */
  predicate Settles(s: State) { s.agent == Over ==> !s.promise.Pending? }

  /** Whoever came, the latch is passed: the caller's hangup is noted, and what the agent's handler saw of it when it
      passed is what there was before the handlers listened. */
  predicate Sees(s: State, hungUp: bool) {
    && (s.caller == Idle ==> s.isCallerHangup == hungUp) && (s.caller != Idle ==> s.doneOver && s.isCallerHangup)
    && (s.passes == [ByAgent] ==> s.seenCallerHangup == hungUp)
    && (s.agent != Idle && s.agent != AfterQueue && !s.promise.Rejected? ==> s.doneOver)
  }

  /** While no await of the agent's handler fails, what it has written so far. */
  predicate AgentWrites(s: State) {
    s.passes == [ByAgent] ==>
      && s.agent != Idle && s.agent != AfterQueue
      && (s.agent == QueueStatistic || s.agent == Over ==> s.writes == [BY_AGENT])
      && (s.agent == Over ==> (s.satisfaction <==> s.transferStatic && !s.seenCallerHangup))
  }

  /** While no await of the caller's handler fails, what it has written so far. */
  predicate CallerWrites(s: State) {
    s.passes == [ByCaller] ==> s.caller != Idle && (s.caller != AgentStatistic ==> s.writes == [BY_USER])
  }

  /** Everything that is kept while the awaits of the step end well. */
  predicate Exact(s: State, hungUp: bool) { Settles(s) && Sees(s, hungUp) && AgentWrites(s) && CallerWrites(s) }

  lemma LatchExact(s: State, hungUp: bool)
    requires Inv(s) && Exact(s, hungUp) && s.agent == AfterQueue
    ensures Exact(AgentLatches(s), hungUp)
  {
    if !s.doneOver {
      PassFirst(s);
    }
  }

  lemma GoesOnExact(s: State, hungUp: bool)
    requires Inv(s) && Exact(s, hungUp) && s.agent != Idle && s.agent != Over && s.agent != AfterQueue
    ensures Exact(AgentGoesOn(s), hungUp)
  {
    hide Latched;
    if s.writes == [] {
      WriteFirst(s);
    }
  }

  lemma CallerExact(s: State, hungUp: bool)
    requires Inv(s) && Exact(s, hungUp)
    ensures Exact(CallerStep(s, true), hungUp)
  {
    if s.writes == [] {
      WriteFirst(s);
    }
  }

  lemma CallerHangsUpExact(s: State, hungUp: bool)
    requires Inv(s) && Exact(s, hungUp) && s.caller == Idle
    ensures Exact(CallerHangsUp(s), hungUp)
  {
    if !s.doneOver {
      PassFirst(s);
    }
  }

  lemma DisconnectsExact(s: State, hungUp: bool, notice: Option<Notice>)
    requires Inv(s) && Exact(s, hungUp)
    ensures Exact(Disconnects(s, notice), hungUp)
  {
    if !s.doneOver {
      PassFirst(s);
    }
  }

  /** The step is no await that fails. */
  predicate EndsWell(step: Step) { step != AgentResumes(false) && step != CallerResumes(false) }

  lemma StepExact(s: State, hungUp: bool, step: Step)
    requires Inv(s) && Exact(s, hungUp) && EndsWell(step)
    ensures Exact(Do(s, step), hungUp)
  {
    hide Inv, AgentLatches, AgentGoesOn, CallerStep, CallerHangsUp, Disconnects, Settled;
    match step
    case AgentHangup =>
    case CallerHangup =>
      if s.caller == Idle {
        CallerHangsUpExact(s, hungUp);
      }
    case Disconnect(notice) => DisconnectsExact(s, hungUp, notice);
    case AgentResumes(ok) =>
      if s.agent == AfterQueue {
        LatchExact(s, hungUp);
      } else if s.agent != Idle && s.agent != Over {
        GoesOnExact(s, hungUp);
      }
    case CallerResumes(ok) => CallerExact(s, hungUp);
    case LingerOver => LingerExact(s, hungUp);
  }

  lemma LingerExact(s: State, hungUp: bool)
    requires Exact(s, hungUp)
    ensures Exact(s.(promise := Settled(s.promise, Resolved)), hungUp)
  {
  }

  lemma {:induction false} RunExact(s: State, hungUp: bool, steps: seq<Step>)
    requires Inv(s) && Exact(s, hungUp) && forall i :: 0 <= i < |steps| ==> EndsWell(steps[i])
    ensures Exact(After(s, steps), hungUp)
    decreases |steps|
  {
    hide Inv, Exact, Do;
    if steps != [] {
      StepInv(s, steps[0]);
      StepExact(s, hungUp, steps[0]);
      RunExact(Do(s, steps[0]), hungUp, steps[1..]);
    }
  }

  /** What is written, when no await fails: the agent's handler, if it passed the latch and is over, has noted that the
      agent hung up, and chosen the satisfaction IVR exactly if the queue wants it and the caller had not hung up
      before; the caller's handler, if it passed and is over, has written that the user did. Once the caller hung up
      the latch is passed by somebody. */
  lemma WrittenExactly(transferStatic: bool, hungUp: bool, steps: seq<Step>)
    requires forall i :: 0 <= i < |steps| ==> EndsWell(steps[i])
    ensures var s := After(Listening(transferStatic, hungUp), steps);
            && (s.passes == [ByAgent] && s.agent == Over ==>
                  s.writes == [BY_AGENT] && (s.satisfaction <==> transferStatic && !hungUp))
            && (s.passes == [ByCaller] && s.caller == Over ==> s.writes == [BY_USER] && s.callerHangup)
            && (s.caller != Idle ==> s.doneOver)
  {
    hide Do;
    var s := Listening(transferStatic, hungUp);
    RunExact(s, hungUp, steps);
    RunInv(s, steps);
    KeepsOption(s, steps);
  }

  lemma {:induction false} KeepsOption(s: State, steps: seq<Step>)
    ensures After(s, steps).transferStatic == s.transferStatic
    decreases |steps|
  {
    hide Do;
    if steps != [] {
      StepCarries(s, steps[0]);
      KeepsOption(Do(s, steps[0]), steps[1..]);
    }
  }

  /* ---- how long the handlers take ---- */

  /** How many awaits of the agent's handler ended, from its event on. */
  function AgentAwaits(started: bool, steps: seq<Step>): nat
    decreases |steps|
  {
    if steps == [] then 0
    else
      (if started && steps[0].AgentResumes? then 1 else 0) +
      AgentAwaits(started || steps[0].AgentHangup?, steps[1..])
  }

  /** How many awaits the agent's handler has left behind the latch. */
  function Left(pc: Pc, transferStatic: bool): nat {
    match pc
    case AgentStatistic => if transferStatic then 4 else 3
    case Process => if transferStatic then 3 else 2
    case TransferStatic => 2
    case QueueStatistic => 1
    case _ => 0
  }

  /** Where the agent's handler is once `n` of its awaits ended well. */
  predicate Paced(s: State, n: nat) {
    && (s.agent == Idle || s.agent == AfterQueue ==> n == 0 && s.passes != [ByAgent])
    && (s.agent != Idle && s.agent != AfterQueue ==>
          && n > 0
          && (if s.passes == [ByAgent] then Left(s.agent, s.transferStatic) + n == (if s.transferStatic then 5 else 4)
                                            || (s.agent == Over && n >= (if s.transferStatic then 5 else 4))
              else s.agent == Over))
  }

  /** The latch is passed by nobody more, or for the first time and not by the agent. */
  predicate OthersPass(s: State, s': State) {
    && s'.agent == s.agent && s'.transferStatic == s.transferStatic
    && (s'.passes == s.passes || (s.passes == [] && s'.passes != [ByAgent]))
  }

  lemma HangsUpPasses(s: State)
    requires Latched(s)
    ensures OthersPass(s, CallerHangsUp(s))
  {
    if !s.doneOver {
      PassFirst(s);
    }
  }

  lemma DisconnectsPasses(s: State, notice: Option<Notice>)
    requires Latched(s)
    ensures OthersPass(s, Disconnects(s, notice))
  {
    hide Settled;
    if notice.Some? && !s.doneOver {
      PassFirst(s);
    }
  }

  lemma CallerPasses(s: State, ok: bool)
    ensures OthersPass(s, CallerStep(s, ok))
  {
    hide Settled;
    if s.caller.Idle? || s.caller.Over? {
      return;
    }
  }

  lemma OthersPaced(s: State, s': State, n: nat)
    requires Paced(s, n) && OthersPass(s, s')
    ensures Paced(s', n)
  {
  }

  /** What is not of the agent's handler leaves it where it is. */
  lemma OtherStepPaced(s: State, n: nat, step: Step)
    requires Latched(s) && Paced(s, n) && !step.AgentHangup? && !step.AgentResumes?
    ensures Paced(Do(s, step), n) && Do(s, step).agent == s.agent
  {
    hide Latched, Paced, Settled, CallerStep, CallerHangsUp, Disconnects, AgentStep;
    match step {
      case CallerHangup => HangsUpPasses(s);
      case Disconnect(notice) => DisconnectsPasses(s, notice);
      case CallerResumes(ok) => CallerPasses(s, ok);
      case _ =>
    }
    OthersPaced(s, Do(s, step), n);
  }

  lemma AgentStepPaced(s: State, n: nat)
    requires Inv(s) && Paced(s, n)
    ensures Paced(AgentStep(s, true), n + if s.agent != Idle then 1 else 0)
    ensures AgentStep(s, true).agent != Idle <==> s.agent != Idle
  {
    hide Writes, Settled, AgentGoesOn;
    if s.agent == AfterQueue {
      if !s.doneOver {
        PassFirst(s);
      }
    } else if s.agent != Idle && s.agent != Over {
      GoesOnPaced(s, n);
    }
  }

  lemma StepPaced(s: State, n: nat, step: Step)
    requires Inv(s) && Paced(s, n) && step != AgentResumes(false)
    ensures Paced(Do(s, step), n + if s.agent != Idle && step.AgentResumes? then 1 else 0)
    ensures Do(s, step).agent != Idle <==> s.agent != Idle || step.AgentHangup?
  {
    hide Latched, Writes, Left, AgentStep;
    if step.AgentResumes? {
      AgentStepPaced(s, n);
    } else if !step.AgentHangup? {
      OtherStepPaced(s, n, step);
    }
  }

  lemma GoesOnPaced(s: State, n: nat)
    requires Inv(s) && Paced(s, n) && s.agent != Idle && s.agent != AfterQueue && s.agent != Over
    ensures Paced(AgentGoesOn(s), n + 1) && AgentGoesOn(s).agent != Idle
  {
    hide Settled, Latched;
  }

  lemma {:induction false} RunPaced(s: State, n: nat, steps: seq<Step>)
    requires Inv(s) && Paced(s, n) && forall i :: 0 <= i < |steps| ==> EndsWell(steps[i])
    ensures Paced(After(s, steps), n + AgentAwaits(s.agent != Idle, steps))
    decreases |steps|
  {
    hide Inv, Paced, Do;
    if steps != [] {
      StepInv(s, steps[0]);
      StepPaced(s, n, steps[0]);
      RunPaced(Do(s, steps[0]), n + if s.agent != Idle && steps[0].AgentResumes? then 1 else 0, steps[1..]);
    }
  }

  lemma AtStart(transferStatic: bool, hungUp: bool)
    ensures var s := Listening(transferStatic, hungUp); Inv(s) && Exact(s, hungUp) && Paced(s, 0)
  {
  }

  /** The agent's handler in time, in every interleaving in which no await fails: if it passed the latch, it is over
      exactly once four of its awaits ended, five with the satisfaction IVR, and the case is written exactly once all
      but the last did; if it did not pass, it is over exactly once the first ended. */
  lemma AgentPaces(transferStatic: bool, hungUp: bool, steps: seq<Step>)
    requires forall i :: 0 <= i < |steps| ==> EndsWell(steps[i])
    ensures var s := After(Listening(transferStatic, hungUp), steps);
            var n := AgentAwaits(false, steps);
            var all := if transferStatic then 5 else 4;
            && (s.passes == [ByAgent] ==> (s.agent == Over <==> n >= all) && (s.writes == [BY_AGENT] <==> n >= all - 1))
            && (s.passes != [ByAgent] ==> (s.agent == Over <==> n > 0))
  {
    hide Do, Latched, Settles, Sees, CallerWrites;
    var s := Listening(transferStatic, hungUp);
    AtStart(transferStatic, hungUp);
    RunPaced(s, 0, steps);
    RunExact(s, hungUp, steps);
    RunInv(s, steps);
    KeepsOption(s, steps);
  }

  /** A handler whose await fails is over, and rejects a promise that is pending. */
  lemma FailureRejects(s: State)
    requires s.promise.Pending?
    ensures s.agent != Idle && s.agent != Over ==>
              Do(s, AgentResumes(false)).agent == Over && Do(s, AgentResumes(false)).promise.Rejected?
    ensures s.caller != Idle && s.caller != Over ==>
              Do(s, CallerResumes(false)).caller == Over && Do(s, CallerResumes(false)).promise.Rejected?
  {
    hide AgentStep, CallerStep;
    if s.agent != Idle && s.agent != Over {
      AgentRejects(s);
    }
    if s.caller != Idle && s.caller != Over {
      CallerRejects(s);
    }
  }

  lemma AgentRejects(s: State)
    requires s.promise.Pending? && s.agent != Idle && s.agent != Over
    ensures AgentStep(s, false).agent == Over && AgentStep(s, false).promise.Rejected?
  {
    hide AgentLatches, AgentGoesOn;
  }

  lemma CallerRejects(s: State)
    requires s.promise.Pending? && s.caller != Idle && s.caller != Over
    ensures CallerStep(s, false).caller == Over && CallerStep(s, false).promise.Rejected?
  {
  }

  /* ---- the promise ---- */

  lemma StepSettles(s: State, step: Step)
    requires Settles(s)
    ensures Settles(Do(s, step))
    ensures !s.promise.Pending? ==> Do(s, step).promise == s.promise
  {
    hide Do;
    StepCarries(s, step);
  }

  /** The step is an await that fails, or a disconnect without notice. */
  predicate Fails(step: Step) {
    step == AgentResumes(false) || step == CallerResumes(false) || step == Disconnect(None)
  }

  lemma StepRejects(s: State, step: Step)
    requires !s.promise.Rejected? && !Fails(step)
    ensures !Do(s, step).promise.Rejected?
  {
    hide Do, Fails;
    StepCarries(s, step);
  }

  lemma {:induction false} RunSettles(s: State, steps: seq<Step>)
    requires Settles(s)
    ensures Settles(After(s, steps))
    ensures !s.promise.Pending? ==> After(s, steps).promise == s.promise
    ensures !s.promise.Rejected? && (forall i :: 0 <= i < |steps| ==> !Fails(steps[i])) ==>
              !After(s, steps).promise.Rejected?
    decreases |steps|
  {
    hide Settles, Do, Fails;
    if steps != [] {
      var s' := Do(s, steps[0]);
      StepSettles(s, steps[0]);
      if !s.promise.Rejected? && !Fails(steps[0]) {
        StepRejects(s, steps[0]);
      }
      assert forall i :: 0 < i < |steps| ==> steps[i] == steps[1..][i - 1];
      RunSettles(s', steps[1..]);
    }
  }

  /** The promise, in every interleaving: it is settled once, and it is by the time the agent's handler is over; if
      nothing failed, it is then resolved. A handler that waits is over after five awaits that end at most. */
  lemma SettledByAgent(transferStatic: bool, hungUp: bool, steps: seq<Step>, more: seq<Step>)
    ensures var s := After(Listening(transferStatic, hungUp), steps);
            && (s.agent == Over ==> !s.promise.Pending?)
            && ((forall i :: 0 <= i < |steps| ==> !Fails(steps[i])) && s.agent == Over ==> s.promise.Resolved?)
            && (!s.promise.Pending? ==> After(s, more).promise == s.promise)
            && (s.agent != Idle && Awaited(more) >= 5 ==> After(s, more).agent == Over)
  {
    hide After, Do;
    var s0 := Listening(transferStatic, hungUp);
    RunSettles(s0, steps);
    var s := After(s0, steps);
    RunSettles(s, more);
    AgentEnds(s, more);
  }

  /** How many awaits of the agent's handler end in a run. */
  function Awaited(steps: seq<Step>): nat {
    if steps == [] then 0 else (if steps[0].AgentResumes? then 1 else 0) + Awaited(steps[1..])
  }

  /** How many awaits are left at most. */
  function AwaitsLeft(pc: Pc): nat {
    match pc
    case AfterQueue => 5
    case AgentStatistic => 4
    case Process => 3
    case TransferStatic => 2
    case QueueStatistic => 1
    case _ => 0
  }

  lemma StepEnds(s: State, step: Step)
    requires s.agent != Idle
    ensures Do(s, step).agent != Idle
    ensures AwaitsLeft(Do(s, step).agent) <= AwaitsLeft(s.agent)
    ensures step.AgentResumes? && s.agent != Over ==> AwaitsLeft(Do(s, step).agent) < AwaitsLeft(s.agent)
    ensures s.agent == Over ==> Do(s, step).agent == Over
  {
    hide Do, AwaitsLeft, Carries;
    StepCarries(s, step);
  }

  lemma {:induction false} AgentEnds(s: State, steps: seq<Step>)
    ensures s.agent != Idle && Awaited(steps) >= AwaitsLeft(s.agent) ==> After(s, steps).agent == Over
    decreases |steps|
  {
    hide Do;
    if s.agent != Idle {
      if steps == [] {
      } else {
        StepEnds(s, steps[0]);
        AgentEnds(Do(s, steps[0]), steps[1..]);
      }
    }
  }

  /* ---- a disconnect ---- */

  /** A disconnect of the call's own session, the first one, passes an open latch and lingers if it is told to; one of
      another session passes nothing. When the time is over, the promise is settled. */
  lemma DisconnectLingers(s: State, notice: Notice, more: seq<Step>)
    requires Inv(s) && s.disconnect == Idle
    ensures var s' := Do(s, Disconnect(Some(notice)));
            && s'.promise == s.promise && s'.disconnect == Over
            && (notice.sameSession && !s.doneOver ==>
                  s'.passes == [ByDisconnect] && s'.doneOver && (s'.timer <==> notice.linger > 0))
            && (!notice.sameSession || s.doneOver ==> s'.(disconnect := Idle) == s)
    ensures var s' := Do(s, Disconnect(Some(notice)));
            s'.timer && LingerOver in more ==> !After(s', more).promise.Pending?
  {
    hide After;
    if !s.doneOver {
      PassFirst(s);
    }
    TimerSettles(Do(s, Disconnect(Some(notice))), more);
  }

  lemma TimerStep(s: State, step: Step)
    requires s.timer && s.disconnect == Over
    ensures Do(s, step).timer && Do(s, step).disconnect == Over
    ensures !s.promise.Pending? || step == LingerOver ==> !Do(s, step).promise.Pending?
  {
    hide Do;
    StepCarries(s, step);
  }

  lemma {:induction false} TimerSettles(s: State, steps: seq<Step>)
    requires s.disconnect == Over
    ensures s.timer && (LingerOver in steps || !s.promise.Pending?) ==> !After(s, steps).promise.Pending?
    decreases |steps|
  {
    hide Do;
    if s.timer && steps != [] {
      TimerStep(s, steps[0]);
      TimerSettles(Do(s, steps[0]), steps[1..]);
      assert LingerOver in steps ==> steps[0] == LingerOver || LingerOver in steps[1..];
    }
  }

  /** The handlers as they run, on the variables they share. */
  class AfterBridge {
    const transferStatic: bool
    var doneOver: bool
    var passes: seq<Handler>
    var agent: Pc
    var caller: Pc
    var disconnect: Pc
    var timer: bool
    var isCallerHangup: bool
    var seenCallerHangup: bool
    var callerHangup: bool
    var satisfaction: bool
    var writes: seq<HangupCase>
    var promise: Promise

    function View(): State
      reads this
    {
      State(transferStatic, doneOver, passes, agent, caller, disconnect, timer, isCallerHangup, seenCallerHangup,
            callerHangup, satisfaction, writes, promise)
    }

    constructor (transferStatic: bool, hungUp: bool)
      ensures View() == Listening(transferStatic, hungUp)
    {
      this.transferStatic := transferStatic;
      doneOver, passes, agent, caller, disconnect, timer := false, [], Idle, Idle, Idle, false;
      isCallerHangup, seenCallerHangup, callerHangup, satisfaction := hungUp, false, false, false;
      writes, promise := [], Pending;
    }

    method Settle(how: Promise)
      requires how != Pending
      modifies this`promise
      ensures promise == if old(promise).Pending? then how else old(promise)
    {
      if promise.Pending? {
        promise := how;
      }
    }

    /** The agent's CHANNEL_HANGUP, up to the first `await`. */
    method OnAgentHangup()
      modifies this
      ensures View() == Do(old(View()), AgentHangup)
    {
      if agent == Idle {
        agent := AfterQueue;
      }
    }

    /** The agent's handler behind an `await`. */
    method AgentResume(ok: bool)
      modifies this
      ensures View() == Do(old(View()), AgentResumes(ok))
    {
      hide AgentLatches, AgentGoesOn;
      if agent == Idle || agent == Over {
        return;
      }
      if !ok {
        agent := Over;
        Settle(Rejected);
        return;
      }
      if agent == AfterQueue {
        AfterDone();
      } else {
        GoOn();
      }
    }

    /** The agent's handler behind the latch: from what it awaited to what it awaits next. */
    method GoOn()
      modifies this
      ensures View() == AgentGoesOn(old(View()))
    {
      hide NextAwait;
      agent := NextAwait(agent, transferStatic);
      if agent == QueueStatistic {
        writes := writes + [BY_AGENT];
      } else if agent == Over {
        if !seenCallerHangup && transferStatic {
          satisfaction := true;
        }
        Settle(Resolved);
      }
    }

    /** The agent's handler once `doneAfter` is over: the latch. */
    method AfterDone()
      requires agent == AfterQueue
      modifies this
      ensures View() == AgentLatches(old(View()))
    {
      if !doneOver {
        doneOver := true;
        passes := passes + [ByAgent];
        seenCallerHangup := isCallerHangup;
        agent := AgentStatistic;
      } else {
        agent := Over;
        Settle(Resolved);
      }
    }

    /** The caller's CHANNEL_HANGUP, up to the first `await`. */
    method OnCallerHangup()
      modifies this
      ensures View() == Do(old(View()), CallerHangup)
    {
      if caller == Idle {
        isCallerHangup := true;
        if !doneOver {
          doneOver := true;
          passes := passes + [ByCaller];
          callerHangup := true;
          caller := AgentStatistic;
        } else {
          caller := Over;
        }
      }
    }

    method CallerResume(ok: bool)
      modifies this
      ensures View() == Do(old(View()), CallerResumes(ok))
    {
      if caller == Idle || caller == Over {
        return;
      }
      if !ok {
        caller := Over;
        Settle(Rejected);
      } else if caller == AgentStatistic {
        writes := writes + [BY_USER];
        caller := QueueStatistic;
      } else {
        caller := Over;
      }
    }

    method OnDisconnect(notice: Option<Notice>)
      modifies this
      ensures View() == Do(old(View()), Disconnect(notice))
    {
      hide Disconnects;
      if disconnect == Idle {
        Disconnected(notice);
      }
    }

    method Disconnected(notice: Option<Notice>)
      modifies this
      ensures View() == Disconnects(old(View()), notice)
    {
      disconnect := Over;
      if notice == None {
        Settle(Rejected);
      } else if notice.value.sameSession && !doneOver {
        doneOver := true;
        passes := passes + [ByDisconnect];
        timer := notice.value.linger > 0;
      }
    }

    method OnLingerOver()
      modifies this
      ensures View() == Do(old(View()), LingerOver)
    {
      if timer {
        Settle(Resolved);
      }
    }
  }
}
