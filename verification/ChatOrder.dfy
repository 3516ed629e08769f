/** The order of messages in a chat: by id, whatever the order they arrive in. */
module ChatOrder {
  import opened Strings
  import opened ChatSpec
  import L = ChatLaws

  /** The ids of the messages that have one, in the order of the messages. */
  function Ids(messages: seq<Message>): seq<int> {
    if messages == [] then []
    else (if Num(messages[0].id) == 0 then [] else [Num(messages[0].id)]) + Ids(messages[1..])
  }

  predicate Ascending(messages: seq<Message>) {
    forall i, j :: 0 <= i < j < |messages| && Num(messages[i].id) != 0 && Num(messages[j].id) != 0 ==>
      Num(messages[i].id) < Num(messages[j].id)
  }

  predicate HasId(messages: seq<Message>, id: int) {
    exists i :: 0 <= i < |messages| && Num(messages[i].id) == id
  }

  /* ---- one arrival ---- */

  /** `id` may stand at `k`: it is no id, or lies between the ids around. */
  predicate Fits(messages: seq<Message>, k: nat, id: int)
    requires k <= |messages|
  {
    id == 0 || forall j :: 0 <= j < |messages| && Num(messages[j].id) != 0 ==>
      (j < k ==> Num(messages[j].id) < id) && (j > k ==> id < Num(messages[j].id))
  }

  /** When an arrival keeps the order: a known message must fit where it stands with the id it gets, a new
      one with a negative id must be larger than all; any other new one is put where it belongs. */
  predicate KeepsOrder(c: Chat, m: Message) {
    var k := FindMessage(c.messages, m);
    if k < |c.messages| then Fits(c.messages, k, Num(Over(m.id, c.messages[k].id)))
    else Num(m.id) >= 0 || Fits(c.messages, |c.messages|, Num(m.id))
  }

  lemma AssignOrder(messages: seq<Message>, k: nat, x: Message)
    requires Ascending(messages) && k < |messages|
    ensures Ascending(messages[k := x]) <==> Fits(messages, k, Num(x.id))
  {
    var r := messages[k := x];
    assert r[k] == x && forall j :: 0 <= j < |messages| && j != k ==> r[j] == messages[j];
    if Ascending(r) && Num(x.id) != 0 {
      forall j | 0 <= j < |messages| && Num(messages[j].id) != 0
        ensures (j < k ==> Num(messages[j].id) < Num(x.id)) && (j > k ==> Num(x.id) < Num(messages[j].id))
      {
        assert j != k ==> Num(r[j].id) == Num(messages[j].id) != 0;
      }
    }
  }

  /** All ids before `p` are smaller, all from `p` on larger. */
  predicate Between(messages: seq<Message>, p: nat, id: int) {
    forall j :: 0 <= j < |messages| && Num(messages[j].id) != 0 ==>
      if j < p then Num(messages[j].id) < id else id < Num(messages[j].id)
  }

  lemma InsertedAt(messages: seq<Message>, p: nat, x: Message)
    requires p <= |messages|
    ensures var r := InsertAt(messages, p, x);
            && |r| == |messages| + 1 && r[p] == x
            && (forall j :: 0 <= j < p ==> r[j] == messages[j])
            && (forall j :: p <= j < |messages| ==> r[j + 1] == messages[j])
            && (forall j :: p < j < |r| ==> r[j] == messages[j - 1])
  {
  }

  /** Inserting at `p` keeps the order exactly when the id belongs there, or is no id. */
  lemma InsertOrder(messages: seq<Message>, p: nat, x: Message)
    requires Ascending(messages) && p <= |messages|
    ensures Ascending(InsertAt(messages, p, x)) <==> Num(x.id) == 0 || Between(messages, p, Num(x.id))
  {
    hide InsertAt;
    InsertedAt(messages, p, x);
    var r := InsertAt(messages, p, x);
    if Ascending(r) && Num(x.id) != 0 {
      InsertedBetween(messages, p, x);
    }
    if Num(x.id) == 0 || Between(messages, p, Num(x.id)) {
      forall i, j | 0 <= i < j < |r| && Num(r[i].id) != 0 && Num(r[j].id) != 0 ensures Num(r[i].id) < Num(r[j].id) {
        var i', j' := if i < p then i else i - 1, if j < p then j else j - 1;
        assert i != p ==> r[i] == messages[i'];
        assert j != p ==> r[j] == messages[j'];
      }
    }
  }

  lemma InsertedBetween(messages: seq<Message>, p: nat, x: Message)
    requires p <= |messages| && Num(x.id) != 0 && Ascending(InsertAt(messages, p, x))
    ensures Between(messages, p, Num(x.id))
  {
    hide InsertAt;
    InsertedAt(messages, p, x);
    var r := InsertAt(messages, p, x);
    forall j | 0 <= j < |messages| && Num(messages[j].id) != 0
      ensures if j < p then Num(messages[j].id) < Num(x.id) else Num(x.id) < Num(messages[j].id)
    {
      var j' := if j < p then j else j + 1;
      assert r[j'] == messages[j] && r[p] == x;
    }
  }

  /** Behind the place an id belongs there are only larger ids. */
  lemma LargerBehind(messages: seq<Message>, id: int)
    requires Ascending(messages)
    ensures forall j :: InsertPos(messages, id) <= j < |messages| && Num(messages[j].id) != 0 ==>
              id < Num(messages[j].id)
  {
    var p := InsertPos(messages, id);
    forall j | p <= j < |messages| && Num(messages[j].id) != 0 ensures id < Num(messages[j].id) {
    }
  }

  lemma TipOrder(c: Chat, m: Message)
    requires Ascending(c.messages)
    ensures Ascending(WithTip(c, m)) && c.messages <= WithTip(c, m)
    ensures forall j :: |c.messages| <= j < |WithTip(c, m)| ==> Num(WithTip(c, m)[j].id) == 0
    ensures forall id :: id != 0 ==> (HasId(WithTip(c, m), id) <==> HasId(c.messages, id))
  {
    hide TipDue;
    var t := WithTip(c, m);
    forall id | id != 0 ensures HasId(t, id) <==> HasId(c.messages, id) {
      if HasId(c.messages, id) {
        var i :| 0 <= i < |c.messages| && Num(c.messages[i].id) == id;
        assert t[i] == c.messages[i];
      }
    }
  }

  /** An arrival keeps ascending ids ascending exactly when it meets the condition. */
  lemma ArrivalKeepsOrder(c: Chat, m: Message, me: int)
    requires Ascending(c.messages)
    ensures Ascending(InsertInto(c, m, me).messages) <==> KeepsOrder(c, m)
  {
    hide LastContent, TipDue, WithTip, InsertPos;
    var k := FindMessage(c.messages, m);
    if k < |c.messages| {
      AssignOrder(c.messages, k, Assign(c.messages[k], m));
    } else {
      TipOrder(c, m);
      NewOrder(c, WithTip(c, m), m);
    }
  }

  lemma NewOrder(c: Chat, messages: seq<Message>, m: Message)
    requires Ascending(messages) && c.messages <= messages && FindMessage(c.messages, m) == |c.messages|
    requires forall j :: |c.messages| <= j < |messages| ==> Num(messages[j].id) == 0
    ensures var p := if Num(m.id) > 0 then InsertPos(messages, Num(m.id)) else |messages|;
            Ascending(InsertAt(messages, p, m)) <==> KeepsOrder(c, m)
  {
    hide InsertPos;
    var id := Num(m.id);
    var p := if id > 0 then InsertPos(messages, id) else |messages|;
    InsertOrder(messages, p, m);
    LargerBehind(messages, id);
    forall j | 0 <= j < |messages| && Num(messages[j].id) != 0 ensures id != 0 ==> Num(messages[j].id) != id {
      assert messages[j] == c.messages[j] && !Matches(c.messages[j], m);
    }
  }

  /** The id a pending message gets later through its `tmpId` can break the order. */
  lemma TmpIdBreaksOrder(c: Chat, me: int)
    ensures var blank := Message(None, None, None, None, None, None, None, None, None, None, None, None, None);
            var pending, later := blank.(tmpId := Some("t")), blank.(id := Some(5));
            var confirmed := blank.(id := Some(9), tmpId := Some("t"));
            var c' := c.(messages := [pending, later]);
            Ascending(c'.messages) && !Ascending(InsertInto(c', confirmed, me).messages)
  {
    var blank := Message(None, None, None, None, None, None, None, None, None, None, None, None, None);
    var pending, later := blank.(tmpId := Some("t")), blank.(id := Some(5));
    var confirmed := blank.(id := Some(9), tmpId := Some("t"));
    var c' := c.(messages := [pending, later]);
    var r := InsertInto(c', confirmed, me).messages;
    assert FindMessage(c'.messages, confirmed) == 0;
    assert Num(r[0].id) == 9 && Num(r[1].id) == 5;
  }

  /* ---- server messages ---- */

  /** A message from the server: it has an id, and no `tmpId` that is not empty. */
  predicate FromServer(m: Message) { Num(m.id) > 0 && (m.tmpId == None || m.tmpId == Some("")) }

  /** A server message is put in its place, and adds its id and no other. */
  lemma ServerArrival(c: Chat, m: Message, me: int)
    requires Ascending(c.messages) && FromServer(m)
    ensures Ascending(InsertInto(c, m, me).messages)
    ensures forall id :: id != 0 ==>
              (HasId(InsertInto(c, m, me).messages, id) <==> HasId(c.messages, id) || id == Num(m.id))
  {
    hide LastContent, TipDue, WithTip, InsertPos;
    ArrivalKeepsOrder(c, m, me);
    var k := FindMessage(c.messages, m);
    if k < |c.messages| {
      assert c.messages[k].id == m.id;
      SameIds(c.messages, k, Assign(c.messages[k], m));
    } else {
      TipOrder(c, m);
      var t := WithTip(c, m);
      MoreIds(t, InsertPos(t, Num(m.id)), m);
    }
  }

  lemma SameIds(messages: seq<Message>, k: nat, x: Message)
    requires k < |messages| && Num(x.id) == Num(messages[k].id)
    ensures forall id :: HasId(messages[k := x], id) <==> HasId(messages, id)
  {
    var r := messages[k := x];
    assert forall j :: 0 <= j < |r| ==> Num(r[j].id) == Num(messages[j].id);
  }

  lemma MoreIds(messages: seq<Message>, p: nat, x: Message)
    requires p <= |messages|
    ensures forall id :: HasId(InsertAt(messages, p, x), id) <==> HasId(messages, id) || id == Num(x.id)
  {
    var r := InsertAt(messages, p, x);
    assert r[p] == x;
    assert forall j :: 0 <= j < |messages| ==> r[if j < p then j else j + 1] == messages[j];
    assert forall i :: 0 <= i < |r| && i != p ==> r[i] == messages[if i < p then i else i - 1];
    forall id ensures HasId(r, id) <==> HasId(messages, id) || id == Num(x.id) {
      if HasId(messages, id) {
        var j :| 0 <= j < |messages| && Num(messages[j].id) == id;
        assert Num(r[if j < p then j else j + 1].id) == id;
      }
    }
  }

  /** A second arrival of the same server message changes nothing more: nothing is inserted, counted or
      mentioned twice. */
  lemma RepeatIsIdle(c: Chat, m: Message, me: int)
    requires FromServer(m)
    ensures InsertInto(InsertInto(c, m, me), m, me) == InsertInto(c, m, me)
  {
    hide TipDue, UnreadCount, Mentions, InsertPos, WithTip, Assign;
    var k := FindMessage(c.messages, m);
    var once := InsertInto(c, m, me);
    if k < |c.messages| {
      AssignTwice(c.messages[k], m);
      FindIs(once.messages, m, k);
      assert once.messages[k := Assign(once.messages[k], m)] == once.messages;
    } else {
      var t := WithTip(c, m);
      var p := InsertPos(t, Num(m.id));
      InsertedAt(t, p, m);
      NoMatchInTip(c, m);
      FindIs(once.messages, m, p);
      AssignSelf(m);
      assert once.messages[p := m] == once.messages;
    }
  }

  lemma {:induction false} FindIs(messages: seq<Message>, m: Message, k: nat)
    requires k < |messages| && Matches(messages[k], m) && forall j :: 0 <= j < k ==> !Matches(messages[j], m)
    ensures FindMessage(messages, m) == k
  {
  }

  lemma NoMatchInTip(c: Chat, m: Message)
    requires FromServer(m) && FindMessage(c.messages, m) == |c.messages|
    ensures forall j :: 0 <= j < |WithTip(c, m)| ==> !Matches(WithTip(c, m)[j], m)
  {
  }

  lemma AssignTwice(x: Message, m: Message)
    requires m.id.Some?
    ensures Assign(Assign(x, m), m) == Assign(x, m) && Assign(x, m).id == m.id
  {
  }

  lemma AssignSelf(m: Message)
    ensures Assign(m, m) == m
  {
  }

  /* ---- ascending messages with the same ids list them alike ---- */

  predicate Increasing(s: seq<int>) { forall i, j :: 0 <= i < j < |s| ==> s[i] < s[j] }

  lemma {:induction false} IdsOf(messages: seq<Message>)
    ensures forall id :: id in Ids(messages) <==> id != 0 && HasId(messages, id)
    ensures Ascending(messages) ==> Increasing(Ids(messages))
  {
    if messages != [] {
      var rest := messages[1..];
      IdsOf(rest);
      assert forall i :: 0 <= i < |rest| ==> rest[i] == messages[i + 1];
      forall id ensures HasId(messages, id) <==> HasId(rest, id) || id == Num(messages[0].id) {
        if HasId(rest, id) {
          var i :| 0 <= i < |rest| && Num(rest[i].id) == id;
          assert messages[i + 1] == rest[i];
        }
      }
      if Ascending(messages) && Num(messages[0].id) != 0 {
        forall k | 0 <= k < |Ids(rest)| ensures Num(messages[0].id) < Ids(rest)[k] {
          assert Ids(rest)[k] in Ids(rest);
          var i :| 0 <= i < |rest| && Num(rest[i].id) == Ids(rest)[k];
          assert messages[i + 1] == rest[i];
        }
      }
    }
  }

  lemma {:induction false} IncreasingUnique(a: seq<int>, b: seq<int>)
    requires Increasing(a) && Increasing(b) && forall x :: x in a <==> x in b
    ensures a == b
    decreases |a|
  {
    FirstIsMember(a);
    FirstIsMember(b);
    if a != [] && b != [] {
      assert a[0] in a && b[0] in b;
      assert a[0] == b[0];
      forall x ensures x in a[1..] <==> x in b[1..] {
        assert x in a[1..] <==> x in a && x != a[0] by { TailMembers(a, x); }
        assert x in b[1..] <==> x in b && x != b[0] by { TailMembers(b, x); }
      }
      IncreasingUnique(a[1..], b[1..]);
    }
  }

  lemma FirstIsMember(a: seq<int>)
    ensures a != [] ==> a[0] in a
  {
  }

  lemma TailMembers(a: seq<int>, x: int)
    requires a != [] && Increasing(a)
    ensures x in a[1..] <==> x in a && x != a[0]
  {
    assert a == [a[0]] + a[1..];
  }

  /* ---- any order of arrival ---- */

  function InsertAll(s: Store, ms: seq<Message>, me: int): Store
    decreases |ms|
  {
    if ms == [] then s else InsertAll(Insert(s, ms[0], me), ms[1..], me)
  }

  /** Among `ms` is a message of `key` with the id. */
  predicate Arrives(ms: seq<Message>, key: Key, id: int) {
    exists i :: 0 <= i < |ms| && TargetOf(ms[i]) == Some(key) && Num(ms[i].id) == id
  }

  lemma InsertKeeps(c: Chat, m: Message, me: int)
    ensures KeyOf(InsertInto(c, m, me)) == KeyOf(c) && InsertInto(c, m, me).deleted == c.deleted
  {
    hide LastContent, TipDue, Placed, UnreadCount, Mentions, Assign;
  }

  /** One arrival changes the messages of its own chat only, and moves no chat. */
  lemma InsertHits(s: Store, m: Message, me: int, i: nat)
    requires L.Unique(s.chats) && L.Alive(s.chats) && i < |s.chats|
    ensures var s' := Insert(s, m, me);
            && |s'.chats| == |s.chats| && L.Unique(s'.chats) && L.Alive(s'.chats)
            && KeyOf(s'.chats[i]) == KeyOf(s.chats[i])
            && s'.chats[i].messages ==
               if TargetOf(m) == Some(KeyOf(s.chats[i])) then InsertInto(s.chats[i], m, me).messages
               else s.chats[i].messages
  {
    hide InsertInto, Kept, SaveAll, FindKey, TargetOf;
    var k := FindChat(s.chats, m);
    if k < |s.chats| {
      InsertKeeps(s.chats[k], m, me);
      var chats := s.chats[k := InsertInto(s.chats[k], m, me).(stored := false)];
      L.KeptAll(chats);
      assert forall j :: 0 <= j < |chats| ==> KeyOf(Kept(chats)[j]) == KeyOf(s.chats[j]);
    }
  }

  lemma {:induction false} InsertAllHits(s: Store, ms: seq<Message>, me: int, i: nat)
    requires L.Unique(s.chats) && L.Alive(s.chats) && i < |s.chats| && Ascending(s.chats[i].messages)
    requires forall k :: 0 <= k < |ms| ==> FromServer(ms[k])
    ensures var s' := InsertAll(s, ms, me);
            && i < |s'.chats| && Ascending(s'.chats[i].messages)
            && forall id :: id != 0 ==>
                 (HasId(s'.chats[i].messages, id) <==>
                     HasId(s.chats[i].messages, id) || Arrives(ms, KeyOf(s.chats[i]), id))
    decreases |ms|
  {
    hide Insert, InsertInto, HasId, TargetOf, L.Unique, L.Alive, Ascending;
    if ms != [] {
      var key := KeyOf(s.chats[i]);
      InsertHits(s, ms[0], me, i);
      ServerArrival(s.chats[i], ms[0], me);
      InsertAllHits(Insert(s, ms[0], me), ms[1..], me, i);
      forall id ensures Arrives(ms, key, id) <==>
          (TargetOf(ms[0]) == Some(key) && Num(ms[0].id) == id) || Arrives(ms[1..], key, id) {
        ArrivesTail(ms, key, id);
      }
    }
  }

  lemma ArrivesTail(ms: seq<Message>, key: Key, id: int)
    requires ms != []
    ensures Arrives(ms, key, id) <==> (TargetOf(ms[0]) == Some(key) && Num(ms[0].id) == id) || Arrives(ms[1..], key, id)
  {
    hide TargetOf;
    assert forall i :: 0 < i < |ms| ==> ms[i] == ms[1..][i - 1];
    if Arrives(ms[1..], key, id) {
      var i :| 0 <= i < |ms[1..]| && TargetOf(ms[1..][i]) == Some(key) && Num(ms[1..][i].id) == id;
      assert TargetOf(ms[i + 1]) == Some(key);
    }
  }

  /** Arrival order: whatever the order and repetition in which server messages arrive, each chat lists
      their ids in the same strictly ascending order. */
  lemma ArrivalOrder(s: Store, ms: seq<Message>, ms': seq<Message>, me: int, i: nat)
    requires L.Unique(s.chats) && L.Alive(s.chats) && i < |s.chats| && Ascending(s.chats[i].messages)
    requires forall k :: 0 <= k < |ms| ==> FromServer(ms[k])
    requires forall k :: 0 <= k < |ms'| ==> FromServer(ms'[k])
    requires forall id :: Arrives(ms, KeyOf(s.chats[i]), id) <==> Arrives(ms', KeyOf(s.chats[i]), id)
    ensures var a, b := InsertAll(s, ms, me), InsertAll(s, ms', me);
            && i < |a.chats| && i < |b.chats|
            && Ids(a.chats[i].messages) == Ids(b.chats[i].messages)
            && Increasing(Ids(a.chats[i].messages))
  {
    hide InsertAll, Ids, HasId, Arrives, L.Unique, L.Alive, Ascending, Increasing;
    InsertAllHits(s, ms, me, i);
    InsertAllHits(s, ms', me, i);
    var a, b := InsertAll(s, ms, me).chats[i].messages, InsertAll(s, ms', me).chats[i].messages;
    IdsOf(a);
    IdsOf(b);
    assert forall id :: id in Ids(a) <==> id in Ids(b);
    IncreasingUnique(Ids(a), Ids(b));
  }
}
