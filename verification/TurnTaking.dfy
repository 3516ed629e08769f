/** Which waiting job of a queue may look for an agent next. */
module TurnTaking {
  import opened Strings

  datatype Job = Job(id: int, priority: Option<int>, timeout: Option<int>)

  predicate Truthy(n: Option<int>) { n.Some? && n.value != 0 }

  /** `a` goes before `me`: a smaller priority, or the same and a smaller timeout; a missing or zero
      one does not count. */
  predicate Precedes(a: Job, me: Job) {
    || (Truthy(a.priority) && Truthy(me.priority) && a.priority.value < me.priority.value)
    || (a.priority == me.priority && Truthy(a.timeout) && Truthy(me.timeout) && a.timeout.value < me.timeout.value)
  }

  predicate MayProceed(me: Job, active: seq<Job>) {
    forall k :: 0 <= k < |active| ==> !Precedes(active[k], me)
  }

  /** Going before is a strict order, also with missing values. */
  lemma StrictOrder(a: Job, b: Job, c: Job)
    ensures !Precedes(a, a)
    ensures Precedes(a, b) && Precedes(b, c) ==> Precedes(a, c)
    ensures Precedes(a, b) ==> !Precedes(b, a)
  {
  }

  /** Between jobs with different priorities the smaller one goes first, and a missing or zero one neither before nor
      behind; between equal ones, also missing ones, the smaller timeout does, under the same reservation. */
  lemma GoesFirst(a: Job, b: Job)
    ensures a.priority != b.priority ==>
              (Precedes(a, b) <==>
               a.priority !in {None, Some(0)} && b.priority !in {None, Some(0)} && a.priority.value < b.priority.value)
    ensures a.priority == b.priority ==>
              (Precedes(a, b) <==>
               a.timeout !in {None, Some(0)} && b.timeout !in {None, Some(0)} && a.timeout.value < b.timeout.value)
  {
  }

  /** Among jobs that all have a priority and a timeout, it is the turn of exactly those that come first by priority,
      and by timeout among equal priorities. */
  lemma FirstInLine(me: Job, active: seq<Job>)
    requires me.priority !in {None, Some(0)} && me.timeout !in {None, Some(0)}
    requires forall k :: 0 <= k < |active| ==>
               active[k].priority !in {None, Some(0)} && active[k].timeout !in {None, Some(0)}
    ensures MayProceed(me, active) <==>
            forall k :: 0 <= k < |active| ==>
              || me.priority.value < active[k].priority.value
              || (me.priority == active[k].priority && me.timeout.value <= active[k].timeout.value)
  {
    hide Precedes;
    forall k | 0 <= k < |active|
      ensures !Precedes(active[k], me) <==>
              || me.priority.value < active[k].priority.value
              || (me.priority == active[k].priority && me.timeout.value <= active[k].timeout.value)
    {
      GoesFirst(active[k], me);
    }
  }

  /** Some job of any that are active may proceed. */
  lemma {:induction false} SomeoneProceeds(active: seq<Job>) returns (k: nat)
    requires active != []
    ensures k < |active| && MayProceed(active[k], active)
    decreases |active|
  {
    if |active| == 1 {
      k := 0;
    } else {
      var rest := active[1..];
      var j := SomeoneProceeds(rest);
      assert forall i :: 0 < i < |active| ==> active[i] == rest[i - 1];
      if Precedes(active[0], rest[j]) {
        k := 0;
        forall i | 0 < i < |active| ensures !Precedes(active[i], active[0]) {
          StrictOrder(active[i], active[0], rest[j]);
        }
      } else {
        k := j + 1;
      }
    }
  }

  /** The turn loop against the snapshots of active jobs it gets, one a round; `stopped` is the stop flag
      as each round finds it. */
  method WaitTurn(me: Job, snapshots: seq<seq<Job>>, stopped: seq<bool>) returns (rounds: nat, isMyTurn: bool)
    requires |stopped| == |snapshots|
    ensures rounds <= |snapshots|
    ensures forall r :: 0 <= r < rounds ==>
              !stopped[r] && (MayProceed(me, snapshots[r]) <==> isMyTurn && r == rounds - 1)
    ensures isMyTurn ==> rounds > 0
    ensures !isMyTurn ==> rounds == |snapshots| || stopped[rounds]
  {
    rounds, isMyTurn := 0, false;
    while rounds < |snapshots| && !stopped[rounds] && !isMyTurn
      invariant rounds <= |snapshots|
      invariant forall r :: 0 <= r < rounds ==>
                  !stopped[r] && (MayProceed(me, snapshots[r]) <==> isMyTurn && r == rounds - 1)
      invariant isMyTurn ==> rounds > 0
    {
      var activeJobs := snapshots[rounds];
      isMyTurn := true;
      var k := 0;
      while k < |activeJobs|
        invariant 0 <= k <= |activeJobs| && isMyTurn
        invariant forall j :: 0 <= j < k ==> !Precedes(activeJobs[j], me)
      {
        if Precedes(activeJobs[k], me) {
          isMyTurn := false;
          break;
        }
        k := k + 1;
      }
      assert isMyTurn <==> MayProceed(me, activeJobs);
      rounds := rounds + 1;
    }
  }
}
