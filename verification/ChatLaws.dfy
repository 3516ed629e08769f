/** What every run of the chat store keeps: the backing store agrees with the chats marked stored,
    saving and loading are inverse, and messages are in the order of their ids however they arrive. */
module ChatLaws {
  import opened Strings
  import opened ChatSpec

  /* ---- the backing store ---- */

  predicate Unique(chats: seq<Chat>) {
    forall i, j :: 0 <= i < j < |chats| ==> KeyOf(chats[i]) != KeyOf(chats[j])
  }

  /** A chat marked stored is what the backing store holds under its key, but for the mark. */
  predicate StoredAgrees(c: Chat, backing: map<Key, Chat>) {
    c.stored ==> !c.deleted && KeyOf(c) in backing && backing[KeyOf(c)] == c.(stored := false)
  }

  predicate Agrees(chats: seq<Chat>, backing: map<Key, Chat>) {
    forall i :: 0 <= i < |chats| ==> StoredAgrees(chats[i], backing)
  }

  predicate Alive(chats: seq<Chat>) {
    forall i :: 0 <= i < |chats| ==> !chats[i].deleted
  }

  predicate HasKey(chats: seq<Chat>, key: Key) {
    exists i :: 0 <= i < |chats| && KeyOf(chats[i]) == key
  }

  /** Every stored key belongs to a chat. */
  ghost predicate Covers(s: Store) {
    forall key :: key in s.backing ==> HasKey(s.chats, key)
  }

  /** The keys noted at the last save are stored, each once. */
  predicate IndexSound(s: Store) {
    match s.index
    case None => s.backing == map[]
    case Some(index) =>
      && (forall i :: 0 <= i < |index.keys| ==> index.keys[i] in s.backing)
      && (forall i, j :: 0 <= i < j < |index.keys| ==> index.keys[i] != index.keys[j])
  }

  /** Every stored key was noted. */
  predicate Noted(s: Store) {
    s.index.Some? ==> forall key :: key in s.backing ==> key in s.index.value.keys
  }

  /** Stored chats sit under their own key, unmarked. */
  predicate Clean(s: Store) {
    forall key :: key in s.backing ==> KeyOf(s.backing[key]) == key && !s.backing[key].stored && !s.backing[key].deleted
  }

  /** What every run keeps; `full` adds what is lost by a `clear` that is not followed by a load. */
  ghost predicate Inv(s: Store, full: bool) {
    && Unique(s.chats) && Agrees(s.chats, s.backing) && Alive(s.chats) && Clean(s) && IndexSound(s)
    && (full ==> Covers(s) && Noted(s))
  }

  lemma {:induction false} SaveAllElsewhere(chats: seq<Chat>, backing: map<Key, Chat>, key: Key)
    requires !HasKey(chats, key)
    ensures key in SaveAll(chats, backing) <==> key in backing
    ensures key in backing ==> SaveAll(chats, backing)[key] == backing[key]
    decreases |chats|
  {
    if chats != [] {
      assert KeyOf(chats[0]) != key;
      forall i | 0 <= i < |chats| - 1 ensures KeyOf(chats[1..][i]) != key {
        assert chats[1..][i] == chats[i + 1];
      }
      SaveAllElsewhere(chats[1..], SaveOne(chats[0], backing), key);
    }
  }

  /** Each chat decides about its own key only. */
  lemma {:induction false} SaveAllAt(chats: seq<Chat>, backing: map<Key, Chat>, i: nat)
    requires Unique(chats) && i < |chats|
    ensures var key := KeyOf(chats[i]); var one := SaveOne(chats[i], backing);
            && (key in SaveAll(chats, backing) <==> key in one)
            && (key in one ==> SaveAll(chats, backing)[key] == one[key])
    decreases |chats|
  {
    var key, next := KeyOf(chats[i]), SaveOne(chats[0], backing);
    assert forall j :: 0 < j < |chats| ==> chats[1..][j - 1] == chats[j];
    if i == 0 {
      assert !HasKey(chats[1..], key);
      SaveAllElsewhere(chats[1..], next, key);
    } else {
      SaveAllAt(chats[1..], next, i - 1);
      assert KeyOf(chats[0]) != key;
    }
  }

  /** What is kept: every chat that is not deleted ... */
  lemma {:induction false} KeptHas(chats: seq<Chat>, i: nat) returns (k: nat)
    requires i < |chats| && !chats[i].deleted
    ensures k < |Kept(chats)| && Kept(chats)[k] == chats[i].(stored := true)
    decreases |chats|
  {
    if i == 0 {
      k := 0;
    } else {
      k := KeptHas(chats[1..], i - 1);
      k := if chats[0].deleted then k else k + 1;
    }
  }

  /** ... and nothing else. */
  lemma {:induction false} KeptFrom(chats: seq<Chat>, k: nat) returns (i: nat)
    requires k < |Kept(chats)|
    ensures i < |chats| && !chats[i].deleted && Kept(chats)[k] == chats[i].(stored := true)
    decreases |chats|
  {
    if chats[0].deleted {
      i := KeptFrom(chats[1..], k);
      i := i + 1;
    } else if k == 0 {
      i := 0;
    } else {
      i := KeptFrom(chats[1..], k - 1);
      i := i + 1;
    }
  }

  lemma {:induction false} KeptUnique(chats: seq<Chat>)
    requires Unique(chats)
    ensures Unique(Kept(chats))
  {
    if chats != [] {
      var rest := chats[1..];
      assert forall i :: 0 <= i < |rest| ==> rest[i] == chats[i + 1];
      KeptUnique(rest);
      forall k | 0 <= k < |Kept(rest)| ensures KeyOf(Kept(rest)[k]) != KeyOf(chats[0]) {
        var i := KeptFrom(rest, k);
      }
    }
  }

  /** Without deletions all chats are kept, in order. */
  lemma {:induction false} KeptAll(chats: seq<Chat>)
    requires Alive(chats)
    ensures |Kept(chats)| == |chats| && forall i :: 0 <= i < |chats| ==> Kept(chats)[i] == chats[i].(stored := true)
  {
    if chats != [] {
      KeptAll(chats[1..]);
    }
  }

  lemma KeptKey(chats: seq<Chat>, i: nat)
    requires Unique(chats) && i < |chats|
    ensures HasKey(Kept(chats), KeyOf(chats[i])) <==> !chats[i].deleted
  {
    if HasKey(Kept(chats), KeyOf(chats[i])) {
      var k :| 0 <= k < |Kept(chats)| && KeyOf(Kept(chats)[k]) == KeyOf(chats[i]);
      var j := KeptFrom(chats, k);
      assert i == j;
    }
    if !chats[i].deleted {
      var k := KeptHas(chats, i);
      assert KeyOf(Kept(chats)[k]) == KeyOf(chats[i]);
    }
  }

  /** Saving, for chats of distinct keys that agree with the backing store: every chat that is not
      deleted is then stored as it is. */
  lemma SaveAgrees(s: Store)
    requires Unique(s.chats) && Agrees(s.chats, s.backing)
    ensures var s' := Save(s);
            && Unique(s'.chats) && Agrees(s'.chats, s'.backing) && Alive(s'.chats)
            && forall i :: 0 <= i < |s'.chats| ==> s'.chats[i].stored
  {
    var s' := Save(s);
    KeptUnique(s.chats);
    forall k | 0 <= k < |s'.chats| ensures s'.chats[k].stored && StoredAgrees(s'.chats[k], s'.backing) {
      var i := KeptFrom(s.chats, k);
      SaveAllAt(s.chats, s.backing, i);
      assert StoredAgrees(s.chats[i], s.backing);
    }
  }

  lemma KeyAfterSave(s: Store, i: nat)
    requires Unique(s.chats) && Agrees(s.chats, s.backing) && i < |s.chats|
    ensures KeyOf(s.chats[i]) in Save(s).backing <==> !s.chats[i].deleted
  {
    SaveAllAt(s.chats, s.backing, i);
    assert StoredAgrees(s.chats[i], s.backing);
  }

  /** After a save the stored keys are exactly those of the chats not deleted, if and only if before it
      no key was stored but those of the chats. */
  lemma SaveExact(s: Store)
    requires Unique(s.chats) && Agrees(s.chats, s.backing)
    ensures var s' := Save(s); (forall key :: key in s'.backing <==> HasKey(s'.chats, key)) <==> Covers(s)
  {
    var s' := Save(s);
    forall key ensures HasKey(s.chats, key) ==> (key in s'.backing <==> HasKey(s'.chats, key))
               ensures !HasKey(s.chats, key) ==> !HasKey(s'.chats, key) && (key in s'.backing <==> key in s.backing)
    {
      if HasKey(s.chats, key) {
        var i :| 0 <= i < |s.chats| && KeyOf(s.chats[i]) == key;
        KeyAfterSave(s, i);
        KeptKey(s.chats, i);
      } else {
        SaveAllElsewhere(s.chats, s.backing, key);
        KeptElsewhere(s.chats, key);
      }
    }
  }

  lemma KeptElsewhere(chats: seq<Chat>, key: Key)
    requires !HasKey(chats, key)
    ensures !HasKey(Kept(chats), key)
  {
    forall k | 0 <= k < |Kept(chats)| ensures KeyOf(Kept(chats)[k]) != key {
      var i := KeptFrom(chats, k);
    }
  }

  /* ---- every run ---- */

  datatype Op =
    | DoOpen(key: Key, showName: string, headImage: string, now: int)
    | DoMoveTop(i: nat, now: int)
    | DoResetUnread(key: Key)
    | DoReaded(friendId: int, maxId: Option<int>)
    | DoRemove(i: nat)
    | DoRemoveKey(key: Key)
    | DoInsert(message: Message)
    | DoUpdate(message: Message)
    | DoDelete(message: Message)
    | DoRename(key: Key, headImage: string, showName: string)
    | DoSave
    | DoClear
    | DoLoad

  function Do(s: Store, op: Op, me: int): Store {
    match op
    case DoOpen(key, showName, headImage, now) => OpenChat(s, key, showName, headImage, now)
    case DoMoveTop(i, now) => if i < |s.chats| then MoveTop(s, i, now) else s
    case DoResetUnread(key) => ResetUnread(s, key)
    case DoReaded(friendId, maxId) => Readed(s, friendId, maxId)
    case DoRemove(i) => RemoveChat(s, i)
    case DoRemoveKey(key) => RemoveKey(s, key)
    case DoInsert(message) => Insert(s, message, me)
    case DoUpdate(message) => Update(s, message)
    case DoDelete(message) => DeleteMessage(s, message)
    case DoRename(key, headImage, showName) => Rename(s, key, headImage, showName)
    case DoSave => Save(s)
    case DoClear => Clear(s)
    case DoLoad => Load(s)
  }

  function After(s: Store, ops: seq<Op>, me: int): Store
    decreases |ops|
  {
    if ops == [] then s else After(Do(s, ops[0], me), ops[1..], me)
  }

  /** The chats before a save: distinct, agreeing, and covering what is stored. */
  ghost predicate Ready(s: Store, full: bool) {
    Unique(s.chats) && Agrees(s.chats, s.backing) && Clean(s) && (full ==> Covers(s))
  }

  lemma SaveCleans(s: Store)
    requires Ready(s, false)
    ensures Clean(Save(s))
  {
    forall key | key in Save(s).backing
      ensures var c := Save(s).backing[key]; KeyOf(c) == key && !c.stored && !c.deleted
    {
      if HasKey(s.chats, key) {
        var i :| 0 <= i < |s.chats| && KeyOf(s.chats[i]) == key;
        KeyAfterSave(s, i);
        SaveAllAt(s.chats, s.backing, i);
        assert StoredAgrees(s.chats[i], s.backing);
      } else {
        SaveAllElsewhere(s.chats, s.backing, key);
      }
    }
  }

  lemma SaveInv(s: Store, full: bool)
    requires Ready(s, full)
    ensures Inv(Save(s), full)
  {
    hide Save, Covers, Clean;
    SaveAgrees(s);
    SaveExact(s);
    SaveCleans(s);
    SavedIndex(s, full);
  }

  lemma SavedIndex(s: Store, full: bool)
    requires Unique(Save(s).chats) && Agrees(Save(s).chats, Save(s).backing)
    requires forall i :: 0 <= i < |Save(s).chats| ==> Save(s).chats[i].stored
    requires full ==> forall key :: key in Save(s).backing <==> HasKey(Save(s).chats, key)
    ensures IndexSound(Save(s)) && (full ==> Covers(Save(s)) && Noted(Save(s)))
  {
    hide SaveAll, Kept;
    var s' := Save(s);
    var keys := KeysOf(s'.chats);
    forall i | 0 <= i < |keys| ensures keys[i] in s'.backing {
      assert StoredAgrees(s'.chats[i], s'.backing);
    }
    forall key | HasKey(s'.chats, key) ensures key in keys {
      var i :| 0 <= i < |s'.chats| && KeyOf(s'.chats[i]) == key;
      assert keys[i] == key;
    }
  }

  /** Changing one chat keeps the store ready to be saved, if it keeps its key and is marked dirty. */
  lemma TouchReady(s: Store, i: nat, c: Chat, full: bool)
    requires Inv(s, full) && i < |s.chats| && KeyOf(c) == KeyOf(s.chats[i]) && !c.stored
    ensures Ready(s.(chats := s.chats[i := c]), full)
  {
    var chats := s.chats[i := c];
    assert forall j :: 0 <= j < |chats| ==> KeyOf(chats[j]) == KeyOf(s.chats[j]);
    forall key | HasKey(s.chats, key) ensures HasKey(chats, key) {
      var j :| 0 <= j < |s.chats| && KeyOf(s.chats[j]) == key;
      assert KeyOf(chats[j]) == key;
    }
  }

  lemma TouchInv(s: Store, i: nat, c: Chat, full: bool)
    requires Inv(s, full) && i < |s.chats| && KeyOf(c) == KeyOf(s.chats[i])
    ensures Inv(Touch(s, i, c), full)
  {
    hide Inv, Ready, Save;
    TouchReady(s, i, c.(stored := false), full);
    SaveInv(s.(chats := s.chats[i := c.(stored := false)]), full);
  }

  lemma MoveTopInv(s: Store, i: nat, now: int, full: bool)
    requires Inv(s, full) && i < |s.chats|
    ensures Inv(MoveTop(s, i, now), full)
  {
    hide Save;
    if i > 0 {
      var top := s.chats[i].(lastSendTime := Some(now), stored := false);
      var chats := [top] + s.chats[..i] + s.chats[i + 1..];
      Moved(s.chats, i, chats);
      forall j | 0 <= j < |chats| ensures StoredAgrees(chats[j], s.backing) {
        assert StoredAgrees(s.chats[OldPlace(i, j)], s.backing);
      }
      SaveInv(s.(chats := chats), full);
    }
  }

  lemma Moved(old_: seq<Chat>, i: nat, chats: seq<Chat>)
    requires i < |old_| == |chats| && KeyOf(chats[0]) == KeyOf(old_[i])
    requires chats[1..] == old_[..i] + old_[i + 1..]
    ensures forall j :: 0 <= j < |chats| ==>
              KeyOf(chats[j]) == KeyOf(old_[OldPlace(i, j)]) && (j > 0 ==> chats[j] == old_[OldPlace(i, j)])
    ensures Unique(old_) ==> Unique(chats)
    ensures forall key :: HasKey(old_, key) ==> HasKey(chats, key)
  {
    forall j | 0 < j < |chats| ensures chats[j] == old_[OldPlace(i, j)] {
      assert chats[j] == chats[1..][j - 1];
    }
    forall key | HasKey(old_, key) ensures HasKey(chats, key) {
      var j :| 0 <= j < |old_| && KeyOf(old_[j]) == key;
      var k := if j == i then 0 else if j < i then j + 1 else j;
      assert OldPlace(i, k) == j;
    }
  }

  lemma OpenInv(s: Store, key: Key, showName: string, headImage: string, now: int, full: bool)
    requires Inv(s, full)
    ensures Inv(OpenChat(s, key, showName, headImage, now), full)
  {
    hide MoveTop;
    var i := FindKey(s.chats, key);
    if i < |s.chats| {
      MoveTopInv(s, i, now, full);
    } else {
      var chats := [NewChat(key, showName, headImage, now)] + s.chats;
      forall k | HasKey(s.chats, k) ensures HasKey(chats, k) {
        var j :| 0 <= j < |s.chats| && KeyOf(s.chats[j]) == k;
        assert KeyOf(chats[j + 1]) == k;
      }
    }
  }

  lemma ReadedInv(s: Store, friendId: int, maxId: Option<int>, full: bool)
    requires Inv(s, full)
    ensures Inv(Readed(s, friendId, maxId), full)
  {
    hide Save;
    var i := FindKey(s.chats, (Private, friendId));
    if i < |s.chats| {
      var c := s.chats[i];
      var some := exists k :: 0 <= k < |c.messages| && BecomesRead(c.messages[k], maxId);
      var c' := c.(messages := ReadMessages(c.messages, maxId), stored := c.stored && !some);
      if some {
        TouchReady(s, i, c', full);
      } else {
        assert c'.messages == c.messages;
        assert s.chats[i := c'] == s.chats;
      }
      SaveInv(s.(chats := s.chats[i := c']), full);
    }
  }

  lemma InsertInv(s: Store, m: Message, me: int, full: bool)
    requires Inv(s, full)
    ensures Inv(Insert(s, m, me), full)
  {
    hide Touch, InsertPos, LastContent, WithTip;
    var s' := SeenId(s, m);
    assert Inv(s', full);
    var i := FindChat(s.chats, m);
    if i < |s.chats| {
      TouchInv(s', i, InsertInto(s.chats[i], m, me), full);
    }
  }

  lemma {:induction false} FetchAllIs(keys: seq<Key>, backing: map<Key, Chat>)
    requires forall i :: 0 <= i < |keys| ==> keys[i] in backing
    ensures |FetchAll(keys, backing)| == |keys| && forall i :: 0 <= i < |keys| ==>
              FetchAll(keys, backing)[i] == backing[keys[i]]
  {
    if keys != [] {
      FetchAllIs(keys[1..], backing);
    }
  }

  /** Loading brings back every noted chat, unmarked. */
  lemma LoadInv(s: Store)
    requires Inv(s, false)
    ensures Inv(Load(s), Noted(s))
  {
    hide FetchAll, UnloadAll;
    if s.index.Some? {
      var keys, s' := s.index.value.keys, Load(s);
      FetchAllIs(keys, s.backing);
      assert forall i :: 0 <= i < |keys| ==> s'.chats[i] == Restored(s.backing[keys[i]]);
      LoadedCovers(s, s'.chats, keys);
    }
  }

  lemma LoadedCovers(s: Store, chats: seq<Chat>, keys: seq<Key>)
    requires |chats| == |keys| && Clean(s) && forall i :: 0 <= i < |keys| ==> keys[i] in s.backing
    requires forall i :: 0 <= i < |keys| ==> chats[i] == Restored(s.backing[keys[i]])
    ensures forall i :: 0 <= i < |keys| ==> KeyOf(chats[i]) == keys[i] && !chats[i].stored && !chats[i].deleted
    ensures forall key :: key in keys ==> HasKey(chats, key)
  {
    forall key | key in keys ensures HasKey(chats, key) {
      var i :| 0 <= i < |keys| && keys[i] == key;
      assert KeyOf(chats[i]) == key;
    }
  }

  lemma ClearInv(s: Store)
    requires Inv(s, false)
    ensures Inv(Clear(s), false) && (Noted(s) ==> Noted(Clear(s)))
  {
  }

  lemma Weaker(s: Store, full: bool)
    requires Inv(s, full)
    ensures Inv(s, false) && (full ==> Noted(s))
  {
  }

  lemma StepInv(s: Store, op: Op, me: int, full: bool)
    requires Inv(s, full)
    ensures Inv(Do(s, op, me), full && !op.DoClear?)
  {
    hide Inv, Touch, MoveTop, OpenChat, Readed, Insert, Save, Load, Clear, FindChat;
    match op
    case DoOpen(key, showName, headImage, now) => OpenInv(s, key, showName, headImage, now, full);
    case DoMoveTop(i, now) =>
      if i < |s.chats| {
        MoveTopInv(s, i, now, full);
      }
    case DoReaded(friendId, maxId) => ReadedInv(s, friendId, maxId, full);
    case DoInsert(message) => InsertInv(s, message, me, full);
    case DoClear =>
      Weaker(s, full);
      ClearInv(s);
    case DoLoad =>
      Weaker(s, full);
      LoadInv(s);
      Weaker(Load(s), Noted(s));
    case _ => TouchOpInv(s, op, me, full);
  }

  lemma TouchOpInv(s: Store, op: Op, me: int, full: bool)
    requires Inv(s, full)
    requires op.DoResetUnread? || op.DoRemove? || op.DoRemoveKey? || op.DoUpdate? || op.DoDelete? || op.DoRename? ||
             op.DoSave?
    ensures Inv(Do(s, op, me), full)
  {
    hide Inv, Touch, Save, FindChat, FindKey;
    var i :=
      match op
      case DoResetUnread(key) => FindKey(s.chats, key)
      case DoRemove(i) => i
      case DoRemoveKey(key) => FindKey(s.chats, key)
      case DoUpdate(m) => FindChat(s.chats, m)
      case DoDelete(m) => FindChat(s.chats, m)
      case DoRename(key, _, _) => FindKey(s.chats, key)
      case _ => 0;
    if op.DoSave? {
      InvReady(s, full);
      SaveInv(s, full);
    } else if i < |s.chats| {
      var c := s.chats[i];
      match op
      case DoResetUnread(_) => TouchInv(s, i, c.(unreadCount := 0, atMe := false, atAll := false), full);
      case DoRemove(_) => TouchInv(s, i, c.(deleted := true), full);
      case DoRemoveKey(_) => TouchInv(s, i, c.(deleted := true), full);
      case DoUpdate(m) =>
        var k := FindMessage(c.messages, m);
        if k < |c.messages| {
          TouchInv(s, i, c.(messages := c.messages[k := Assign(c.messages[k], m)]), full);
        }
      case DoDelete(m) => TouchInv(s, i, c.(messages := WithoutFirst(c.messages, m)), full);
      case DoRename(_, headImage, showName) => TouchInv(s, i, c.(headImage := headImage, showName := showName), full);
      case _ =>
    }
  }

  lemma InvReady(s: Store, full: bool)
    requires Inv(s, full)
    ensures Ready(s, full)
  {
  }

  lemma {:induction false} RunInv(s: Store, ops: seq<Op>, me: int)
    requires Inv(s, false)
    ensures Inv(After(s, ops, me), false)
    decreases |ops|
  {
    hide Inv, Do;
    if ops != [] {
      StepInv(s, ops[0], me, false);
      RunInv(Do(s, ops[0], me), ops[1..], me);
    }
  }

  /** Between a `clear` and the next load no chat is opened and nothing is saved, and the run does not
      end in between; `away` says that it starts in between. */
  predicate Tidy(ops: seq<Op>, away: bool) {
    if ops == [] then !away
    else
      && !(away && (ops[0].DoOpen? || ops[0].DoSave?))
      && Tidy(ops[1..], if away then !ops[0].DoLoad? else ops[0].DoClear?)
  }

  /** Without chats, what neither opens, saves nor loads leaves the chats and the stored keys alone. */
  lemma AwayStays(s: Store, op: Op, me: int)
    requires s.chats == [] && !op.DoOpen? && !op.DoSave? && !op.DoLoad?
    ensures var s' := Do(s, op, me); s'.chats == [] && s'.backing == s.backing && s'.index == s.index
  {
  }

  lemma {:induction false} TidyCovers(s: Store, ops: seq<Op>, me: int, away: bool)
    requires Tidy(ops, away) && Inv(s, !away) && Noted(s) && (away ==> s.chats == [])
    ensures Covers(After(s, ops, me))
    decreases |ops|
  {
    hide Inv, Do, Noted, Covers;
    if ops == [] {
      Full(s);
    } else {
      var s' := Do(s, ops[0], me);
      StepInv(s, ops[0], me, !away);
      if away && !ops[0].DoLoad? {
        AwayStays(s, ops[0], me);
        SameNoted(s, s');
      } else if away {
        assert s' == Load(s) by { hide *; LoadIs(s, ops[0], me); }
        LoadInv(s);
        Full(s');
      } else if ops[0].DoClear? {
        assert s' == Clear(s) by { hide *; ClearIs(s, ops[0], me); }
        SameNoted(s, s');
      } else {
        Full(s');
      }
      TidyCovers(s', ops[1..], me, if away then !ops[0].DoLoad? else ops[0].DoClear?);
    }
  }

  lemma Full(s: Store)
    requires Inv(s, true)
    ensures Covers(s) && Noted(s)
  {
  }

  lemma SameNoted(s: Store, s': Store)
    requires Noted(s) && s'.backing == s.backing && s'.index == s.index
    ensures Noted(s')
  {
  }

  lemma LoadIs(s: Store, op: Op, me: int)
    requires op.DoLoad?
    ensures Do(s, op, me) == Load(s)
  {
  }

  lemma ClearIs(s: Store, op: Op, me: int)
    requires op.DoClear?
    ensures Do(s, op, me) == Clear(s)
  {
  }

  /** Write-back agreement: after any run from an empty store, chats have distinct keys, none is deleted, a chat
      marked stored is what the backing store holds, and a save stores every chat as it is. It stores nothing else
      exactly when every stored key belongs to a chat, as is so after every tidy run. */
  lemma WriteBack(ops: seq<Op>, me: int)
    ensures var s := After(EMPTY, ops, me);
            && Unique(s.chats) && Alive(s.chats) && Agrees(s.chats, s.backing)
            && (forall i :: 0 <= i < |s.chats| ==>
                  KeyOf(s.chats[i]) in Save(s).backing &&
                  Save(s).backing[KeyOf(s.chats[i])] == s.chats[i].(stored := false))
            && ((forall key :: key in Save(s).backing ==> HasKey(s.chats, key)) <==> Covers(s))
            && (Tidy(ops, false) ==> Covers(s))
  {
    hide Save, SaveAll, Tidy, Covers;
    EmptyInv();
    RunInv(EMPTY, ops, me);
    var s := After(EMPTY, ops, me);
    SaveExact(s);
    SaveKeepsChats(s);
    if Tidy(ops, false) {
      TidyCovers(EMPTY, ops, me, false);
    }
  }

  lemma EmptyInv()
    ensures Inv(EMPTY, false) && Inv(EMPTY, true) && Noted(EMPTY)
  {
  }

  lemma SaveKeepsChats(s: Store)
    requires Unique(s.chats) && Agrees(s.chats, s.backing) && Alive(s.chats)
    ensures |Save(s).chats| == |s.chats|
    ensures forall i :: 0 <= i < |s.chats| ==> Save(s).chats[i] == s.chats[i].(stored := true)
    ensures forall i :: 0 <= i < |s.chats| ==>
              KeyOf(s.chats[i]) in Save(s).backing && Save(s).backing[KeyOf(s.chats[i])] == s.chats[i].(stored := false)
    ensures forall key :: HasKey(Save(s).chats, key) <==> HasKey(s.chats, key)
  {
    KeptAll(s.chats);
    forall i | 0 <= i < |s.chats|
      ensures KeyOf(s.chats[i]) in Save(s).backing && Save(s).backing[KeyOf(s.chats[i])] == s.chats[i].(stored := false)
    {
      SaveAllAt(s.chats, s.backing, i);
      assert StoredAgrees(s.chats[i], s.backing);
    }
    forall key ensures HasKey(Save(s).chats, key) <==> HasKey(s.chats, key) {
      if HasKey(s.chats, key) {
        var i :| 0 <= i < |s.chats| && KeyOf(s.chats[i]) == key;
        assert KeyOf(Save(s).chats[i]) == key;
      }
    }
  }

  /** An untidy end: behind a `clear` without a load, a save stores just the chats exactly when nothing was
      stored before. */
  lemma ClearThenSave(ops: seq<Op>, me: int)
    ensures var s := After(EMPTY, ops, me);
            (forall key :: key in Save(Clear(s)).backing ==> HasKey(Save(Clear(s)).chats, key)) <==> s.backing == map[]
  {
    var s := After(EMPTY, ops, me);
    assert Clear(s).chats == [];
    if s.backing != map[] {
      var key :| key in s.backing;
      assert key in Save(Clear(s)).backing;
    }
  }

  /** The messages of a chat that was loaded: as they were, but that those still loading have failed. */
  predicate GivenUp(messages: seq<Message>, messages': seq<Message>) {
    && |messages'| == |messages|
    && forall k :: 0 <= k < |messages| ==>
         if messages[k].loadStatus == Some("loading")
         then messages'[k] == messages[k].(loadStatus := Some("fail")) else messages'[k] == messages[k]
  }

  /** What a load restores of a chat: everything but the mark, with its messages as loaded. */
  predicate Revived(c: Chat, c': Chat) {
    !c'.stored && c'.(messages := c.messages, stored := c.stored) == c && GivenUp(c.messages, c'.messages)
  }

  /** A load goes through the index in order: each key adds the chat stored under it, if there is one, behind those
      before it, with its messages as loaded; what is not in the index is not loaded. */
  lemma LoadsInOrder(s: Store, privateMax: int, groupMax: int, keys: seq<Key>, key: Key)
    ensures Load(s.(index := Some(Index(privateMax, groupMax, [])))).chats == []
    ensures var before := Load(s.(index := Some(Index(privateMax, groupMax, keys)))).chats;
            var after := Load(s.(index := Some(Index(privateMax, groupMax, keys + [key])))).chats;
            if key !in s.backing then after == before
            else
              && |after| == |before| + 1 && after[..|before|] == before
              && var c, c' := s.backing[key], after[|before|];
              c'.(messages := c.messages) == c && GivenUp(c.messages, c'.messages)
  {
    FetchesNext(keys, key, s.backing);
    hide FetchAll;
    var fetched := FetchAll(keys, s.backing);
    var more := FetchAll(keys + [key], s.backing);
    if key in s.backing {
      assert RestoreAll(more)[..|fetched|] == RestoreAll(fetched);
    }
  }

  lemma {:induction false} FetchesNext(keys: seq<Key>, key: Key, backing: map<Key, Chat>)
    ensures FetchAll(keys + [key], backing) == FetchAll(keys, backing) + (if key in backing then [backing[key]] else [])
    ensures FetchAll([], backing) == []
  {
    if keys == [] {
      assert [] + [key] == [key] && [key][1..] == [];
    } else {
      FetchesNext(keys[1..], key, backing);
      assert (keys + [key])[1..] == keys[1..] + [key];
    }
  }

  /** Save and load: what any run saved, a load restores, also into a store that holds other chats or, as in a page
      opened anew, none: the same chats in the same order and the same largest ids, with loading messages failed and
      every chat marked for the next save. Where nothing was ever saved, a load changes nothing. */
  lemma SaveLoad(ops: seq<Op>, me: int, page: Store)
    ensures var s := After(EMPTY, ops, me);
            page.backing == Save(s).backing && page.index == Save(s).index ==>
              var s' := Load(page);
              && |s'.chats| == |s.chats| && s'.privateMax == s.privateMax && s'.groupMax == s.groupMax
              && (forall i :: 0 <= i < |s.chats| ==> Revived(s.chats[i], s'.chats[i]))
              && s'.backing == page.backing && s'.index == page.index
    ensures page.index == None ==> Load(page) == page
  {
    hide Save, SaveAll, FetchAll;
    EmptyInv();
    RunInv(EMPTY, ops, me);
    var s := After(EMPTY, ops, me);
    SaveKeepsChats(s);
    if page.backing == Save(s).backing && page.index == Save(s).index {
      LoadsIndex(s, page);
    }
  }

  lemma LoadsIndex(s: Store, page: Store)
    requires page.backing == Save(s).backing && page.index == Save(s).index
    requires |Save(s).chats| == |s.chats|
    requires forall i :: 0 <= i < |s.chats| ==> Save(s).chats[i] == s.chats[i].(stored := true)
    requires forall i :: 0 <= i < |s.chats| ==>
               KeyOf(s.chats[i]) in page.backing && page.backing[KeyOf(s.chats[i])] == s.chats[i].(stored := false)
    ensures var s' := Load(page);
            && |s'.chats| == |s.chats| && s'.privateMax == s.privateMax && s'.groupMax == s.groupMax
            && (forall i :: 0 <= i < |s.chats| ==> s'.chats[i] == Restored(s.chats[i].(stored := false)))
            && s'.backing == page.backing && s'.index == page.index
  {
    hide SaveAll, Kept;
    var keys := Save(s).index.value.keys;
    assert forall i :: 0 <= i < |keys| ==> keys[i] == KeyOf(Save(s).chats[i]) == KeyOf(s.chats[i]);
    FetchAllIs(keys, page.backing);
  }
}
