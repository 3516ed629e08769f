/** The round-robin strategy: the members of a queue are scanned from behind the agent that was
    called last. */
module RoundRobin {
  import opened Strings

  predicate Distinct(s: seq<string>) { forall i, j :: 0 <= i < j < |s| ==> s[i] != s[j] }

  /** `members.indexOf(agent)`. */
  function IndexOf(members: seq<string>, agent: string): (i: int)
    ensures -1 <= i < |members| && (i >= 0 ==> members[i] == agent)
    ensures i == -1 <==> agent !in members
  {
    if members == [] then -1
    else if members[0] == agent then 0
    else
      var i := IndexOf(members[1..], agent);
      assert agent in members <==> agent in members[1..];
      if i < 0 then -1 else i + 1
  }

  /** Where the scan starts: behind the last agent, or at the first member when there is none, it has no
      number, or is not a member. */
  function Start(members: seq<string>, last: Option<string>): (i: nat)
    ensures i <= |members|
  {
    if last.Some? && last.value != "" then IndexOf(members, last.value) + 1 else 0
  }

  function ScanOrder(members: seq<string>, last: Option<string>): seq<string> {
    var i := Start(members, last);
    members[i..] + members[..i]
  }

  /** The members before the first free one are not free. */
  function FirstFree(scan: seq<string>, free: string -> bool): Option<string> {
    if scan == [] then None else if free(scan[0]) then Some(scan[0]) else FirstFree(scan[1..], free)
  }

  /** A member can be picked: not locked, and its agent can be called. */
  function Free(locked: set<string>, canDial: string -> bool): string -> bool {
    m => m !in locked && canDial(m)
  }

  /** `roundRobinStrategy`: rotate, leave out the locked, take the first that can be called. */
  method Pick(members: seq<string>, last: Option<string>, locked: set<string>, canDial: string -> bool)
    returns (pick: Option<string>)
    ensures pick == FirstFree(ScanOrder(members, last), Free(locked, canDial))
  {
    var newArray := members;
    if last.Some? && last.value != "" {
      var index := IndexOf(members, last.value);
      if index > -1 {
        newArray := members[index + 1..] + members[..index + 1];
      }
    }
    assert newArray == ScanOrder(members, last);
    var unlocked := Filter(newArray, locked);
    pick := CycleFind(unlocked, canDial);
    FreeOfUnlocked(newArray, locked, canDial);
  }

  function Unlocked(scan: seq<string>, locked: set<string>): seq<string> {
    if scan == [] then [] else (if scan[0] in locked then [] else [scan[0]]) + Unlocked(scan[1..], locked)
  }

  lemma UnlockedFrom(scan: seq<string>, locked: set<string>, i: nat)
    requires i < |scan|
    ensures Unlocked(scan[i..], locked) ==
            (if scan[i] in locked then [] else [scan[i]]) + Unlocked(scan[i + 1..], locked)
  {
    assert scan[i..][1..] == scan[i + 1..];
  }

  method Filter(scan: seq<string>, locked: set<string>) returns (r: seq<string>)
    ensures r == Unlocked(scan, locked)
  {
    r := [];
    var i := 0;
    assert scan[0..] == scan;
    while i < |scan|
      invariant 0 <= i <= |scan|
      invariant Unlocked(scan, locked) == r + Unlocked(scan[i..], locked)
    {
      hide Unlocked;
      UnlockedFrom(scan, locked, i);
      ghost var rest := Unlocked(scan[i + 1..], locked);
      if scan[i] !in locked {
        assert r + ([scan[i]] + rest) == (r + [scan[i]]) + rest;
        r := r + [scan[i]];
      } else {
        assert r + ([] + rest) == r + rest;
      }
      i := i + 1;
    }
  }

  /** `cycleFind`. */
  method CycleFind(scan: seq<string>, canDial: string -> bool) returns (found: Option<string>)
    ensures found == FirstFree(scan, canDial)
  {
    found := None;
    var i := 0;
    while i < |scan|
      invariant 0 <= i <= |scan|
      invariant found == None && FirstFree(scan, canDial) == FirstFree(scan[i..], canDial)
    {
      assert scan[i..][1..] == scan[i + 1..];
      if canDial(scan[i]) {
        found := Some(scan[i]);
        break;
      }
      i := i + 1;
    }
  }

  lemma {:induction false} FreeOfUnlocked(scan: seq<string>, locked: set<string>, canDial: string -> bool)
    ensures FirstFree(Unlocked(scan, locked), canDial) == FirstFree(scan, Free(locked, canDial))
  {
    if scan != [] {
      FreeOfUnlocked(scan[1..], locked, canDial);
      var rest := Unlocked(scan[1..], locked);
      assert Unlocked(scan, locked) == if scan[0] in locked then rest else [scan[0]] + rest;
      assert ([scan[0]] + rest)[1..] == rest;
    }
  }

  /* ---- what is picked ---- */

  /** How far around the circle from where the scan starts `j` is. */
  function Distance(n: nat, start: nat, j: nat): int
    requires start <= n && j < n
  {
    if j >= start then j - start else j - start + n
  }

  lemma ScanAt(members: seq<string>, last: Option<string>, j: nat)
    requires j < |members|
    ensures |ScanOrder(members, last)| == |members|
    ensures 0 <= Distance(|members|, Start(members, last), j) < |members|
    ensures ScanOrder(members, last)[Distance(|members|, Start(members, last), j)] == members[j]
  {
  }

  /** The scan starts just behind the last agent; at the first member if there is none, it has no number or is no
      member. */
  lemma ScanFrom(members: seq<string>, last: Option<string>)
    requires Distinct(members)
    ensures last.None? || last.value == "" || last.value !in members ==> ScanOrder(members, last) == members
    ensures forall i :: 0 <= i < |members| && last == Some(members[i]) && members[i] != "" ==>
              ScanOrder(members, last) == members[i + 1..] + members[..i + 1]
  {
  }

  predicate AllBusy(members: seq<string>, locked: set<string>, canDial: string -> bool) {
    forall j :: 0 <= j < |members| ==> members[j] in locked || !canDial(members[j])
  }

  /** Nobody is picked exactly when every member is locked or cannot be called; a pick is a member that is neither, and
      all members scanned before it are one or the other. */
  lemma PicksFree(members: seq<string>, last: Option<string>, locked: set<string>, canDial: string -> bool)
    ensures var scan := ScanOrder(members, last);
            var pick := FirstFree(scan, Free(locked, canDial));
            && (pick.None? <==> AllBusy(members, locked, canDial))
            && (pick.Some? ==> pick.value !in locked && canDial(pick.value))
            && (pick.Some? ==>
                  exists k :: 0 <= k < |scan| && scan[k] == pick.value && AllBusy(scan[..k], locked, canDial))
  {
    hide ScanOrder, FirstFree;
    NearestFree(members, last, Free(locked, canDial));
    var scan := ScanOrder(members, last);
    FirstFreeIs(scan, Free(locked, canDial));
    match FirstFree(scan, Free(locked, canDial))
    case None =>
    case Some(m) =>
      var k :| 0 <= k < |scan| && scan[k] == m && First(scan, Free(locked, canDial), k);
      assert forall l :: 0 <= l < k ==> scan[..k][l] == scan[l];
  }

  /** The scan order is the members, each as often as before. */
  lemma ScanPermutes(members: seq<string>, last: Option<string>)
    ensures multiset(ScanOrder(members, last)) == multiset(members)
  {
    var i := Start(members, last);
    assert members == members[..i] + members[i..];
  }

  /** The member at `k` is free, and none before it is. */
  predicate First(scan: seq<string>, free: string -> bool, k: nat) {
    k < |scan| && free(scan[k]) && forall l :: 0 <= l < k ==> !free(scan[l])
  }

  lemma {:induction false} FirstFreeIs(scan: seq<string>, free: string -> bool)
    ensures FirstFree(scan, free).None? ==> forall k :: 0 <= k < |scan| ==> !free(scan[k])
    ensures FirstFree(scan, free).Some? ==>
              exists k :: 0 <= k < |scan| && scan[k] == FirstFree(scan, free).value && First(scan, free, k)
  {
    if scan != [] && !free(scan[0]) {
      var rest := scan[1..];
      FirstFreeIs(rest, free);
      assert forall k :: 0 < k < |scan| ==> scan[k] == rest[k - 1];
      if FirstFree(rest, free).Some? {
        var k :| 0 <= k < |rest| && rest[k] == FirstFree(rest, free).value && First(rest, free, k);
        assert scan[k + 1] == rest[k] && First(scan, free, k + 1);
      }
    }
  }

  /** `j` is free, and no free member comes sooner around the circle. */
  predicate Nearest(members: seq<string>, start: nat, free: string -> bool, j: nat)
    requires start <= |members|
  {
    && j < |members| && free(members[j])
    && forall i :: 0 <= i < |members| && free(members[i]) ==>
        Distance(|members|, start, j) <= Distance(|members|, start, i)
  }

  /** Nobody is picked exactly when no member is free; else the pick is the free member least far around
      the circle from behind the last agent. */
  lemma NearestFree(members: seq<string>, last: Option<string>, free: string -> bool)
    ensures var pick := FirstFree(ScanOrder(members, last), free);
            && (pick.None? <==> forall j :: 0 <= j < |members| ==> !free(members[j]))
            && (pick.Some? ==> exists j :: 0 <= j < |members| && members[j] == pick.value &&
                                 Nearest(members, Start(members, last), free, j))
  {
    hide ScanOrder, FirstFree, Start;
    var scan, start, n := ScanOrder(members, last), Start(members, last), |members|;
    FirstFreeIs(scan, free);
    forall i | 0 <= i < n ensures |scan| == n && 0 <= Distance(n, start, i) < n &&
        scan[Distance(n, start, i)] == members[i] {
      ScanAt(members, last, i);
    }
    ScanLength(members, last);
    match FirstFree(scan, free)
    case None =>
    case Some(m) =>
      var k :| 0 <= k < n && scan[k] == m && First(scan, free, k);
      var j := if k < n - start then start + k else k - (n - start);
      assert Distance(n, start, j) == k;
      assert Nearest(members, start, free, j);
  }

  lemma ScanLength(members: seq<string>, last: Option<string>)
    ensures |ScanOrder(members, last)| == |members|
  {
  }

  /* ---- fairness ---- */

  /** The picks of `n` rounds in which every member is free and each pick is the next round's last agent. */
  function Rounds(members: seq<string>, last: Option<string>, n: nat): seq<string>
    decreases n
  {
    if n == 0 then []
    else
      match FirstFree(ScanOrder(members, last), _ => true)
      case None => []
      case Some(m) => [m] + Rounds(members, Some(m), n - 1)
  }

  /** Around the circle once: the member `k` places on from the start of the list. */
  function Around(members: seq<string>, k: nat): string
    requires k < 2 * |members|
  {
    if k < |members| then members[k] else members[k - |members|]
  }

  /** The first pick is the member where the scan starts, and the next scan starts behind it. */
  lemma FirstPick(members: seq<string>, last: Option<string>)
    requires members != [] && Distinct(members) && "" !in members
    ensures var start, m := Start(members, last), ScanOrder(members, last)[0];
            && FirstFree(ScanOrder(members, last), _ => true) == Some(m)
            && m == Around(members, start) && Start(members, Some(m)) == (if start < |members| then start else 0) + 1
  {
    var start := Start(members, last);
    var i := if start < |members| then start else 0;
    assert ScanOrder(members, last)[0] == members[i];
    assert members[i] in members;
  }

  /** From behind the last agent, the rounds pick the members around the circle. */
  lemma {:induction false} RoundsAre(members: seq<string>, last: Option<string>, n: nat)
    requires members != [] && Distinct(members) && "" !in members
    ensures |Rounds(members, last, n)| == n
    ensures forall k :: 0 <= k < n && Start(members, last) + k < 2 * |members| ==>
              Rounds(members, last, n)[k] == Around(members, Start(members, last) + k)
    decreases n
  {
    hide ScanOrder, Start, Distinct;
    if n > 0 {
      ScanLength(members, last);
      FirstPick(members, last);
      RoundsAre(members, Some(ScanOrder(members, last)[0]), n - 1);
    }
  }

  /** Fairness: with all members free, as many rounds as there are members pick each of them once. */
  lemma EveryoneOnce(members: seq<string>, last: Option<string>)
    requires members != [] && Distinct(members) && "" !in members
    ensures multiset(Rounds(members, last, |members|)) == multiset(members)
  {
    var n, start := |members|, Start(members, last);
    RoundsAre(members, last, n);
    assert Rounds(members, last, n) == ScanOrder(members, last);
    ScanPermutes(members, last);
  }
}
