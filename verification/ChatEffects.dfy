/** What each mutation of the chat store does to the chats, field by field, and what it leaves alone. The stores are
    those that runs reach: chats have distinct keys and none is deleted. */
module ChatEffects {
  import opened Strings
  import opened ChatSpec
  import L = ChatLaws

  predicate Live(s: Store) { L.Unique(s.chats) && L.Alive(s.chats) }

  /** Saved, with no chat changed but the one at `i`, and the largest ids as they were. */
  predicate OnlyAt(s: Store, s': Store, i: nat) {
    && i < |s.chats| == |s'.chats| && s'.privateMax == s.privateMax && s'.groupMax == s.groupMax
    && (forall j :: 0 <= j < |s.chats| && j != i ==> s'.chats[j] == s.chats[j].(stored := true))
    && s'.chats[i].stored
  }

  lemma TouchOnly(s: Store, i: nat, c: Chat)
    requires Live(s) && i < |s.chats| && !c.deleted
    ensures OnlyAt(s, Touch(s, i, c), i) && Touch(s, i, c).chats[i] == c.(stored := true)
  {
    hide SaveAll, Kept, KeysOf;
    L.KeptAll(s.chats[i := c.(stored := false)]);
  }

  lemma Found(chats: seq<Chat>, i: nat)
    requires L.Unique(chats) && i < |chats|
    ensures FindKey(chats, KeyOf(chats[i])) == i
  {
    hide KeyOf;
  }

  /* ---- counters, marks and names ---- */

  /** Resetting clears the three counters of one chat, and nothing else. */
  lemma ResetsUnread(s: Store, i: nat)
    requires Live(s) && i < |s.chats|
    ensures var s' := ResetUnread(s, (s.chats[i].kind, s.chats[i].targetId));
            && OnlyAt(s, s', i)
            && var c, c' := s.chats[i], s'.chats[i];
            && c'.unreadCount == 0 && !c'.atMe && !c'.atAll
            && c'.(unreadCount := c.unreadCount, atMe := c.atMe, atAll := c.atAll, stored := c.stored) == c
  {
    hide Save, Touch, FindKey;
    Found(s.chats, i);
    TouchOnly(s, i, s.chats[i].(unreadCount := 0, atMe := false, atAll := false));
  }

  /** The friend has read a message of ours: it has an id, was sent, and is not newer than `maxId`, if that is given. */
  predicate ReadByFriend(m: Message, maxId: Option<int>) {
    && m.id.Some? && m.id.value != 0 && m.selfSend == Some(true)
    && m.status.Some? && m.status.value < 2
    && (maxId.None? || maxId.value == 0 || m.id.value <= maxId.value)
  }

  /** A friend's reading marks just the messages read, and changes nothing else. */
  lemma MarksRead(s: Store, i: nat, maxId: Option<int>)
    requires Live(s) && i < |s.chats| && s.chats[i].kind == Private
    ensures var s' := Readed(s, s.chats[i].targetId, maxId);
            && OnlyAt(s, s', i)
            && var c, c' := s.chats[i], s'.chats[i];
            && |c'.messages| == |c.messages|
            && (forall k :: 0 <= k < |c.messages| ==>
                  if ReadByFriend(c.messages[k], maxId)
                  then c'.messages[k].status == Some(3)
                       && c'.messages[k].(status := c.messages[k].status) == c.messages[k]
                  else c'.messages[k] == c.messages[k])
            && c'.(messages := c.messages, stored := c.stored) == c
  {
    hide SaveAll, Kept, KeysOf, FindKey;
    Found(s.chats, i);
    var c := s.chats[i];
    var some := exists k :: 0 <= k < |c.messages| && BecomesRead(c.messages[k], maxId);
    L.KeptAll(s.chats[i := c.(messages := ReadMessages(c.messages, maxId), stored := c.stored && !some)]);
  }

  /** A changed name or image goes into the chat, and nothing else does; without a change nothing happens at all. */
  lemma Renames(s: Store, i: nat, headImage: string, name: string)
    requires Live(s) && i < |s.chats|
    ensures var c := s.chats[i];
            var s' := Rename(s, (c.kind, c.targetId), headImage, name);
            if c.headImage == headImage && c.showName == name then s' == s
            else
              && OnlyAt(s, s', i)
              && var c' := s'.chats[i];
              && c'.headImage == headImage && c'.showName == name
              && c'.(headImage := c.headImage, showName := c.showName, stored := c.stored) == c
  {
    hide Save, Touch, FindKey;
    Found(s.chats, i);
    TouchOnly(s, i, s.chats[i].(headImage := headImage, showName := name));
  }

  /* ---- opening, moving and removing ---- */

  /** The chat at `i` is in front and the others follow as they were; all are saved. */
  predicate Fronted(s: Store, s': Store, i: nat) {
    && i < |s.chats| == |s'.chats| && s'.privateMax == s.privateMax && s'.groupMax == s.groupMax
    && (forall j :: 0 < j < |s'.chats| ==>
          s'.chats[j] == s.chats[if j <= i then j - 1 else j].(stored := true))
  }

  /** Moving to the top: nothing for the chat that is there, else it is put in front with a new time. */
  lemma MovesTop(s: Store, i: nat, now: int)
    requires Live(s) && i < |s.chats|
    ensures var s' := MoveTop(s, i, now);
            if i == 0 then s' == s
            else
              && Fronted(s, s', i)
              && s'.chats[0].lastSendTime == Some(now) && s'.chats[0].stored
              && s'.chats[0].(lastSendTime := s.chats[i].lastSendTime, stored := s.chats[i].stored) == s.chats[i]
  {
    hide SaveAll, Kept, KeysOf;
    if i > 0 {
      L.KeptAll([s.chats[i].(lastSendTime := Some(now), stored := false)] + s.chats[..i] + s.chats[i + 1..]);
    }
  }

  /** Opening a chat that is there moves it to the top. */
  lemma OpensKnown(s: Store, i: nat, showName: string, headImage: string, now: int)
    requires Live(s) && i < |s.chats|
    ensures OpenChat(s, (s.chats[i].kind, s.chats[i].targetId), showName, headImage, now) == MoveTop(s, i, now)
  {
    hide MoveTop, FindKey;
    Found(s.chats, i);
  }

  /** Opening one that is not there puts an empty chat in front, with nothing unread, unsaved; the others stay. */
  lemma OpensNew(s: Store, kind: Kind, targetId: int, showName: string, headImage: string, now: int)
    requires forall j :: 0 <= j < |s.chats| ==> s.chats[j].kind != kind || s.chats[j].targetId != targetId
    ensures var s' := OpenChat(s, (kind, targetId), showName, headImage, now);
            && |s'.chats| == |s.chats| + 1 && s'.chats[1..] == s.chats && s'.(chats := s.chats) == s
            && var c := s'.chats[0];
            && c.kind == kind && c.targetId == targetId && c.showName == showName && c.headImage == headImage
            && c.messages == [] && c.unreadCount == 0 && !c.atMe && !c.atAll && !c.stored && !c.deleted
            && c.lastContent == Some("") && c.lastSendTime == Some(now)
            && c.sendNickName == None && c.lastTimeTip == None
  {
    hide Save;
  }

  /** Removing a chat takes it out of the list and out of the backing store; the others stay. */
  lemma Removes(s: Store, i: nat)
    requires Live(s) && L.Agrees(s.chats, s.backing) && i < |s.chats|
    ensures var s' := RemoveChat(s, i);
            && s' == RemoveKey(s, KeyOf(s.chats[i]))
            && |s'.chats| == |s.chats| - 1 && KeyOf(s.chats[i]) !in s'.backing
            && s'.privateMax == s.privateMax && s'.groupMax == s.groupMax
            && forall j :: 0 <= j < |s'.chats| ==> s'.chats[j] == s.chats[if j < i then j else j + 1].(stored := true)
  {
    hide SaveAll, KeysOf, FindKey, Kept;
    Found(s.chats, i);
    var chats := s.chats[i := s.chats[i].(deleted := true, stored := false)];
    KeptWithout(chats, i);
    assert forall j :: 0 <= j < |chats| ==> KeyOf(chats[j]) == KeyOf(s.chats[j]);
    L.SaveAllAt(chats, s.backing, i);
  }

  lemma {:induction false} KeptWithout(chats: seq<Chat>, i: nat)
    requires i < |chats| && forall j :: 0 <= j < |chats| ==> chats[j].deleted == (j == i)
    ensures |Kept(chats)| == |chats| - 1
    ensures forall j :: 0 <= j < |Kept(chats)| ==> Kept(chats)[j] == chats[if j < i then j else j + 1].(stored := true)
    decreases |chats|
  {
    var rest := chats[1..];
    assert forall j :: 0 <= j < |rest| ==> rest[j] == chats[j + 1];
    if i == 0 {
      L.KeptAll(rest);
    } else {
      KeptWithout(rest, i - 1);
      assert Kept(chats) == [chats[0].(stored := true)] + Kept(rest);
    }
  }

  /** What concerns a chat that is not there changes nothing. */
  lemma NobodyThere(s: Store, kind: Kind, targetId: int, maxId: Option<int>, headImage: string, name: string)
    requires forall j :: 0 <= j < |s.chats| ==> s.chats[j].kind != kind || s.chats[j].targetId != targetId
    ensures ResetUnread(s, (kind, targetId)) == RemoveKey(s, (kind, targetId)) == s
    ensures Rename(s, (kind, targetId), headImage, name) == s
    ensures kind == Private ==> Readed(s, targetId, maxId) == s
  {
    hide Save;
  }

  /* ---- messages ---- */

  /** The chat a message belongs to: its group's, or the other side's. */
  predicate Addressed(m: Message, kind: Kind, targetId: int) {
    if m.groupId.Some? && m.groupId.value != 0 then kind == Group && targetId == m.groupId.value
    else kind == Private && Some(targetId) == if m.selfSend == Some(true) then m.recvId else m.sendId
  }

  lemma FoundFor(s: Store, m: Message, i: nat)
    requires L.Unique(s.chats) && i < |s.chats| && Addressed(m, s.chats[i].kind, s.chats[i].targetId)
    ensures FindChat(s.chats, m) == i
  {
    hide FindKey;
    Found(s.chats, i);
  }

  lemma NotFoundFor(s: Store, m: Message)
    requires forall j :: 0 <= j < |s.chats| ==> !Addressed(m, s.chats[j].kind, s.chats[j].targetId)
    ensures FindChat(s.chats, m) == |s.chats|
  {
  }

  /** The same message: of the same id, or of the same temporary one. */
  predicate Same(old_: Message, m: Message) {
    || (m.id.Some? && m.id.value != 0 && old_.id == m.id)
    || (m.tmpId.Some? && m.tmpId.value != "" && old_.tmpId == m.tmpId)
  }

  /** The first message of a chat that is the same. */
  predicate FirstSame(messages: seq<Message>, m: Message, k: nat) {
    k < |messages| && Same(messages[k], m) && forall j :: 0 <= j < k ==> !Same(messages[j], m)
  }

  lemma {:induction false} FoundAt(messages: seq<Message>, m: Message, k: nat)
    requires FirstSame(messages, m, k)
    ensures FindMessage(messages, m) == k
  {
    assert forall j :: 0 <= j < |messages| ==> (Matches(messages[j], m) <==> Same(messages[j], m));
    assert FindMessage(messages, m) < |messages|;
  }

  /** A field that the newer message sets has its value; one that it leaves unset keeps the old one. */
  predicate Newer<T(==)>(old_: Option<T>, m: Option<T>, new_: Option<T>) {
    (m.Some? ==> new_ == m) && (m.None? ==> new_ == old_)
  }

  predicate Merged(old_: Message, m: Message, new_: Message) {
    && Newer(old_.id, m.id, new_.id) && Newer(old_.tmpId, m.tmpId, new_.tmpId)
    && Newer(old_.groupId, m.groupId, new_.groupId) && Newer(old_.sendId, m.sendId, new_.sendId)
    && Newer(old_.recvId, m.recvId, new_.recvId) && Newer(old_.selfSend, m.selfSend, new_.selfSend)
    && Newer(old_.kind, m.kind, new_.kind) && Newer(old_.status, m.status, new_.status)
    && Newer(old_.content, m.content, new_.content) && Newer(old_.sendTime, m.sendTime, new_.sendTime)
    && Newer(old_.sendNickName, m.sendNickName, new_.sendNickName) && Newer(old_.atUserIds, m.atUserIds, new_.atUserIds)
    && Newer(old_.loadStatus, m.loadStatus, new_.loadStatus)
  }

  /** One message of a list is merged with `m`, and no other is touched. */
  predicate MergedAt(messages: seq<Message>, messages': seq<Message>, m: Message, k: nat) {
    && k < |messages| == |messages'| && Merged(messages[k], m, messages'[k])
    && forall j :: 0 <= j < |messages| && j != k ==> messages'[j] == messages[j]
  }

  lemma AssignMerges(old_: Message, m: Message)
    ensures Merged(old_, m, Assign(old_, m))
  {
  }

  /** The largest ids: that of the message's kind takes its id in, the other one stays. */
  predicate Notes(s: Store, m: Message, s': Store) {
    var id := if m.id.Some? then m.id.value else 0;
    var grouped := m.groupId.Some? && m.groupId.value != 0;
    && s'.privateMax == (if !grouped && id != 0 && id > s.privateMax then id else s.privateMax)
    && s'.groupMax == (if grouped && id != 0 && id > s.groupMax then id else s.groupMax)
  }

  /** No chat but the one at `i` changes. */
  predicate OthersStay(s: Store, s': Store, i: nat) {
    && i < |s.chats| == |s'.chats| && s'.chats[i].stored
    && forall j :: 0 <= j < |s.chats| && j != i ==> s'.chats[j] == s.chats[j].(stored := true)
  }

  lemma InsertIs(s: Store, m: Message, me: int, i: nat)
    requires Live(s) && i < |s.chats| && Addressed(m, s.chats[i].kind, s.chats[i].targetId)
    requires !InsertInto(s.chats[i], m, me).deleted
    ensures var s' := Insert(s, m, me);
            Notes(s, m, s') && OthersStay(s, s', i) && s'.chats[i] == InsertInto(s.chats[i], m, me).(stored := true)
  {
    hide Touch, InsertInto, FindChat;
    FoundFor(s, m, i);
    TouchOnly(SeenId(s, m), i, InsertInto(s.chats[i], m, me));
  }

  /** A message that arrives for one already there is merged into it, field by field; the chat shows a recalled
      text, and nothing else changes. */
  lemma InsertMerges(s: Store, m: Message, me: int, i: nat, k: nat)
    requires Live(s) && i < |s.chats| && Addressed(m, s.chats[i].kind, s.chats[i].targetId)
    requires FirstSame(s.chats[i].messages, m, k)
    ensures var s' := Insert(s, m, me);
            && Notes(s, m, s') && OthersStay(s, s', i)
            && var c, c' := s.chats[i], s'.chats[i];
            && MergedAt(c.messages, c'.messages, m, k)
            && c'.lastContent == (if m.kind == Some(10) then m.content else c.lastContent)
            && c'.(messages := c.messages, lastContent := c.lastContent, stored := c.stored) == c
  {
    hide Insert, FindMessage, Assign, Merged, Notes;
    FoundAt(s.chats[i].messages, m, k);
    InsertIs(s, m, me, i);
    AssignMerges(s.chats[i].messages[k], m);
  }

  /** An update merges a message that is there, field by field, and changes nothing else; without such a message
      nothing happens. */
  lemma UpdateMerges(s: Store, m: Message, i: nat)
    requires Live(s) && i < |s.chats| && Addressed(m, s.chats[i].kind, s.chats[i].targetId)
    ensures forall k: nat :: FirstSame(s.chats[i].messages, m, k) ==>
              && OnlyAt(s, Update(s, m), i)
              && var c, c' := s.chats[i], Update(s, m).chats[i];
              && MergedAt(c.messages, c'.messages, m, k)
              && c'.(messages := c.messages, stored := c.stored) == c
    ensures (forall j :: 0 <= j < |s.chats[i].messages| ==> !Same(s.chats[i].messages[j], m)) ==> Update(s, m) == s
  {
    hide Touch, FindChat, FindMessage, Assign, Merged;
    FoundFor(s, m, i);
    var c := s.chats[i];
    forall k: nat | FirstSame(c.messages, m, k)
      ensures OnlyAt(s, Update(s, m), i) && MergedAt(c.messages, Update(s, m).chats[i].messages, m, k)
      ensures Update(s, m).chats[i].(messages := c.messages, stored := c.stored) == c {
      FoundAt(c.messages, m, k);
      AssignMerges(c.messages[k], m);
      TouchOnly(s, i, c.(messages := c.messages[k := Assign(c.messages[k], m)]));
    }
    NoneFound(c.messages, m);
  }

  lemma NoneFound(messages: seq<Message>, m: Message)
    ensures (forall j :: 0 <= j < |messages| ==> !Same(messages[j], m)) ==> FindMessage(messages, m) == |messages|
  {
    assert forall j :: 0 <= j < |messages| ==> (Matches(messages[j], m) <==> Same(messages[j], m));
  }

  /* A message that is new to its chat. */

  /** It was not sent by the user and is not read yet. */
  predicate FromOthers(m: Message) { m.selfSend != Some(true) && m.status != Some(3) }

  /** The preview of a message by its kind: pictures, files, voice, calls, and texts as they are. */
  predicate Preview(m: Message, before: Option<string>, after: Option<string>) {
    && (m.kind == Some(1) ==> after == Some("[图片]")) && (m.kind == Some(2) ==> after == Some("[文件]"))
    && (m.kind == Some(3) ==> after == Some("[语音]")) && (m.kind == Some(40) ==> after == Some("[语音通话]"))
    && (m.kind == Some(41) ==> after == Some("[视频通话]"))
    && (m.kind in {Some(0), Some(10), Some(21)} ==> after == m.content)
    && (m.kind !in {Some(0), Some(1), Some(2), Some(3), Some(10), Some(21), Some(40), Some(41)} ==> after == before)
  }

  /** A time tip is shown: there was none, or more than ten minutes have passed since. */
  predicate LongAfter(last: Option<int>, sendTime: Option<int>) {
    || last.None? || last.value == 0
    || (sendTime.Some? && sendTime.value - last.value > 600000)
  }

  predicate IsTip(tip: Message, sendTime: Option<int>) {
    && tip.kind == Some(20) && tip.sendTime == sendTime && tip.id == None && tip.tmpId == None && tip.content == None
    && tip.groupId == None && tip.sendId == None && tip.recvId == None && tip.selfSend == None && tip.status == None
    && tip.sendNickName == None && tip.atUserIds == None && tip.loadStatus == None
  }

  /** `m` stands at `p`: behind no message of a larger id and before the first one, or at the end without an id. */
  predicate PlacedAt(messages: seq<Message>, m: Message, p: nat) {
    && p <= |messages|
    && if m.id.Some? && m.id.value > 0 then
         && (forall j :: 0 <= j < p && messages[j].id.Some? ==>
               messages[j].id.value == 0 || messages[j].id.value <= m.id.value)
         && (p < |messages| ==> messages[p].id.Some? && messages[p].id.value != 0 && messages[p].id.value > m.id.value)
       else p == |messages|
  }

  /** The messages once a new one is placed, with a time tip before it if one is due. */
  ghost predicate NewlyPlaced(c: Chat, m: Message, messages: seq<Message>) {
    exists tips: seq<Message>, p: nat ::
      && (if LongAfter(c.lastTimeTip, m.sendTime) then |tips| == 1 && IsTip(tips[0], m.sendTime) else tips == [])
      && PlacedAt(c.messages + tips, m, p)
      && messages == (c.messages + tips)[..p] + [m] + (c.messages + tips)[p..]
  }

  lemma PlacesNew(c: Chat, m: Message)
    ensures NewlyPlaced(c, m, Placed(c, m))
  {
    var tips := if TipDue(c, m) then [TimeTip(m.sendTime)] else [];
    var messages := c.messages + tips;
    assert WithTip(c, m) == messages;
    assert TipDue(c, m) <==> tips != [];
    hide TipDue, TimeTip, WithTip;
    var p := if Num(m.id) > 0 then InsertPos(messages, Num(m.id)) else |messages|;
    assert PlacedAt(messages, m, p);
    hide PlacedAt, InsertPos;
    assert Placed(c, m) == messages[..p] + [m] + messages[p..];
  }

  /** A new message is placed, counted if it is unread, noted if it names the user or all, and shown as the last one;
      nothing else changes. */
  lemma InsertAdds(s: Store, m: Message, me: int, i: nat)
    requires Live(s) && i < |s.chats| && Addressed(m, s.chats[i].kind, s.chats[i].targetId)
    requires forall j :: 0 <= j < |s.chats[i].messages| ==> !Same(s.chats[i].messages[j], m)
    ensures var s' := Insert(s, m, me);
            && Notes(s, m, s') && OthersStay(s, s', i)
            && var c, c' := s.chats[i], s'.chats[i];
            var named := if FromOthers(m) && c.kind == Group && m.atUserIds.Some? then m.atUserIds.value else [];
            && NewlyPlaced(c, m, c'.messages)
            && c'.unreadCount == (if FromOthers(m) && m.kind != Some(21) then c.unreadCount + 1 else c.unreadCount)
            && c'.atMe == (c.atMe || me in named) && c'.atAll == (c.atAll || -1 in named)
            && Preview(m, c.lastContent, c'.lastContent)
            && c'.lastSendTime == m.sendTime && c'.sendNickName == m.sendNickName
            && c'.lastTimeTip == (if LongAfter(c.lastTimeTip, m.sendTime) then m.sendTime else c.lastTimeTip)
            && c'.kind == c.kind && c'.targetId == c.targetId && c'.showName == c.showName
            && c'.headImage == c.headImage && !c'.deleted
  {
    hide Insert, FindMessage, Placed, NewlyPlaced, Notes, OthersStay;
    var c := s.chats[i];
    NoneFound(c.messages, m);
    InsertIs(s, m, me, i);
    PlacesNew(c, m);
  }

  /** Without a chat of its own a message only counts for the largest ids. */
  lemma InsertNowhere(s: Store, m: Message, me: int)
    requires forall j :: 0 <= j < |s.chats| ==> !Addressed(m, s.chats[j].kind, s.chats[j].targetId)
    ensures Notes(s, m, Insert(s, m, me))
    ensures Insert(s, m, me).(privateMax := s.privateMax, groupMax := s.groupMax) == s
    ensures Update(s, m) == s && DeleteMessage(s, m) == s
  {
    NotFoundFor(s, m);
  }

  /** The message that a deletion means: of the same id, or both sent by the user at the same time. */
  predicate Meant(old_: Message, m: Message) {
    || (old_.id.Some? && old_.id.value != 0 && old_.id == m.id)
    || (m.selfSend == Some(true) && old_.selfSend == Some(true) && old_.sendTime == m.sendTime)
  }

  /** A deletion takes out the first message that is meant, and nothing else. */
  lemma Deletes(s: Store, m: Message, i: nat, k: nat)
    requires Live(s) && i < |s.chats| && Addressed(m, s.chats[i].kind, s.chats[i].targetId)
    requires k <= |s.chats[i].messages| && forall j :: 0 <= j < k ==> !Meant(s.chats[i].messages[j], m)
    requires k < |s.chats[i].messages| ==> Meant(s.chats[i].messages[k], m)
    ensures var s' := DeleteMessage(s, m);
            && OnlyAt(s, s', i)
            && var c, c' := s.chats[i], s'.chats[i];
            && c'.messages == (if k < |c.messages| then c.messages[..k] + c.messages[k + 1..] else c.messages)
            && c'.(messages := c.messages, stored := c.stored) == c
  {
    hide Touch, FindChat, WithoutFirst;
    FoundFor(s, m, i);
    var c := s.chats[i];
    assert forall j :: 0 <= j < |c.messages| ==> (Doomed(c.messages[j], m) <==> Meant(c.messages[j], m));
    WithoutFirstAt(c.messages, m, k);
    TouchOnly(s, i, c.(messages := WithoutFirst(c.messages, m)));
  }

  lemma WithoutFirstStep(messages: seq<Message>, m: Message)
    requires messages != []
    ensures WithoutFirst(messages, m) ==
            if Doomed(messages[0], m) then messages[1..] else [messages[0]] + WithoutFirst(messages[1..], m)
  {
    hide Doomed;
  }

  lemma Without<T>(s: seq<T>, i: nat)
    requires 0 < i < |s|
    ensures [s[0]] + (s[1..][..i - 1] + s[1..][i..]) == s[..i] + s[i + 1..]
  {
  }

  /** With the first doomed message at `i`, that one goes. */
  lemma {:induction false} WithoutFirstAt(messages: seq<Message>, m: Message, i: nat)
    requires i <= |messages| && (forall j :: 0 <= j < i ==> !Doomed(messages[j], m))
    requires i < |messages| ==> Doomed(messages[i], m)
    ensures WithoutFirst(messages, m) == if i < |messages| then messages[..i] + messages[i + 1..] else messages
    decreases i
  {
    if messages != [] {
      hide Doomed, WithoutFirst;
      WithoutFirstStep(messages, m);
      if i > 0 {
        WithoutFirstAt(messages[1..], m, i - 1);
        if i < |messages| {
          Without(messages, i);
        }
      }
    }
  }
}
