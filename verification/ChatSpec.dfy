/** The chat store as a value, outside loading mode: a list of chats, the largest message ids seen,
    and the key-value store behind them. None stands for a property that is not set. */
module ChatSpec {
  import opened Strings

  const IMAGE := 1
  const FILE := 2
  const AUDIO := 3
  const TEXT := 0
  const RECALL := 10
  const TIP_TIME := 20
  const TIP_TEXT := 21
  const ACT_RT_VOICE := 40
  const ACT_RT_VIDEO := 41

  const STATUS_RECALL := 2
  const STATUS_READED := 3

  datatype Kind = Private | Group

  datatype Message = Message(
    id: Option<int>, tmpId: Option<string>,
    groupId: Option<int>, sendId: Option<int>, recvId: Option<int>, selfSend: Option<bool>,
    kind: Option<int>, status: Option<int>, content: Option<string>,
    sendTime: Option<int>, sendNickName: Option<string>, atUserIds: Option<seq<int>>, loadStatus: Option<string>)

  datatype Chat = Chat(
    kind: Kind, targetId: int, showName: string, headImage: string,
    lastContent: Option<string>, lastSendTime: Option<int>, sendNickName: Option<string>, lastTimeTip: Option<int>,
    unreadCount: int, messages: seq<Message>, atMe: bool, atAll: bool, stored: bool, deleted: bool)

  /** `chats-<user>-<type>-<targetId>`, for one user. */
  type Key = (Kind, int)

  datatype Index = Index(privateMax: int, groupMax: int, keys: seq<Key>)

  datatype Store = Store(
    chats: seq<Chat>, privateMax: int, groupMax: int, backing: map<Key, Chat>, index: Option<Index>)

  const EMPTY := Store([], 0, 0, map[], None)

  function KeyOf(c: Chat): Key { (c.kind, c.targetId) }

  function KeysOf(chats: seq<Chat>): seq<Key> {
    seq(|chats|, i requires 0 <= i < |chats| => KeyOf(chats[i]))
  }

  /** The number a JavaScript condition sees: 0 for a missing one. */
  function Num(n: Option<int>): int { if n.Some? then n.value else 0 }

  predicate Is(b: Option<bool>) { b == Some(true) }

  predicate SameTmpId(a: Message, b: Message) {
    b.tmpId.Some? && b.tmpId.value != "" && a.tmpId == b.tmpId
  }

  /* ---- saving ---- */

  /** What one chat does to the backing store. */
  function SaveOne(c: Chat, backing: map<Key, Chat>): map<Key, Chat> {
    if c.stored then backing else if c.deleted then backing - {KeyOf(c)} else backing[KeyOf(c) := c]
  }

  function SaveAll(chats: seq<Chat>, backing: map<Key, Chat>): map<Key, Chat> {
    if chats == [] then backing else SaveAll(chats[1..], SaveOne(chats[0], backing))
  }

  /** The chats that are not deleted, marked stored. */
  function Kept(chats: seq<Chat>): seq<Chat> {
    if chats == [] then []
    else (if chats[0].deleted then [] else [chats[0].(stored := true)]) + Kept(chats[1..])
  }

  /** `saveToStorage`. */
  function Save(s: Store): Store {
    var kept := Kept(s.chats);
    s.(chats := kept, backing := SaveAll(s.chats, s.backing),
       index := Some(Index(s.privateMax, s.groupMax, KeysOf(kept))))
  }

  /* ---- looking up ---- */

  /** The index of the first chat of a kind and target, or the number of chats. */
  function FindKey(chats: seq<Chat>, key: Key): (i: nat)
    ensures i <= |chats| && (i < |chats| ==> KeyOf(chats[i]) == key)
    ensures forall j :: 0 <= j < i ==> KeyOf(chats[j]) != key
  {
    if chats == [] || KeyOf(chats[0]) == key then 0 else 1 + FindKey(chats[1..], key)
  }

  /** The chat a message belongs to, by the group, the receiver or the sender. */
  function TargetOf(m: Message): Option<Key> {
    if Num(m.groupId) != 0 then Some((Group, m.groupId.value))
    else
      match if Is(m.selfSend) then m.recvId else m.sendId
      case None => None
      case Some(id) => Some((Private, id))
  }

  function FindChat(chats: seq<Chat>, m: Message): (i: nat)
    ensures i <= |chats|
    ensures i < |chats| ==> TargetOf(m) == Some(KeyOf(chats[i]))
  {
    match TargetOf(m)
    case None => |chats|
    case Some(key) => FindKey(chats, key)
  }

  predicate Matches(old_: Message, m: Message) {
    (Num(m.id) != 0 && old_.id == m.id) || SameTmpId(old_, m)
  }

  function FindMessage(messages: seq<Message>, m: Message): (i: nat)
    ensures i <= |messages| && (i < |messages| ==> Matches(messages[i], m))
    ensures forall j :: 0 <= j < i ==> !Matches(messages[j], m)
  {
    if messages == [] || Matches(messages[0], m) then 0 else 1 + FindMessage(messages[1..], m)
  }

  /* ---- changing one chat ---- */

  function Over<T>(new_: Option<T>, old_: Option<T>): Option<T> { if new_.Some? then new_ else old_ }

  /** `Object.assign(old_, m)`. */
  function Assign(old_: Message, m: Message): Message {
    Message(Over(m.id, old_.id), Over(m.tmpId, old_.tmpId), Over(m.groupId, old_.groupId), Over(m.sendId, old_.sendId),
            Over(m.recvId, old_.recvId), Over(m.selfSend, old_.selfSend), Over(m.kind, old_.kind),
            Over(m.status, old_.status),
            Over(m.content, old_.content), Over(m.sendTime, old_.sendTime), Over(m.sendNickName, old_.sendNickName),
            Over(m.atUserIds, old_.atUserIds), Over(m.loadStatus, old_.loadStatus))
  }

  /** Where a message goes: before the first one with a larger id, if it has an id of its own. */
  function InsertPos(messages: seq<Message>, id: int): (i: nat)
    ensures i <= |messages|
    ensures i < |messages| ==> Num(messages[i].id) != 0 && id < Num(messages[i].id)
    ensures forall j :: 0 <= j < i ==> Num(messages[j].id) == 0 || Num(messages[j].id) <= id
  {
    if messages == [] || (Num(messages[0].id) != 0 && id < Num(messages[0].id)) then 0
    else 1 + InsertPos(messages[1..], id)
  }

  function TimeTip(sendTime: Option<int>): Message {
    Message(None, None, None, None, None, None, Some(TIP_TIME), None, None, sendTime, None, None, None)
  }

  /** A time tip is due: there was none, or the last is more than ten minutes older. */
  predicate TipDue(c: Chat, m: Message) {
    Num(c.lastTimeTip) == 0 || (m.sendTime.Some? && c.lastTimeTip.value < m.sendTime.value - 600 * 1000)
  }

  function LastContent(m: Message, old_: Option<string>): Option<string> {
    if m.kind == Some(IMAGE) then Some("[图片]")
    else if m.kind == Some(FILE) then Some("[文件]")
    else if m.kind == Some(AUDIO) then Some("[语音]")
    else if m.kind == Some(ACT_RT_VOICE) then Some("[语音通话]")
    else if m.kind == Some(ACT_RT_VIDEO) then Some("[视频通话]")
    else if m.kind in {Some(TEXT), Some(RECALL), Some(TIP_TEXT)} then m.content
    else old_
  }

  function WithTip(c: Chat, m: Message): seq<Message> {
    if TipDue(c, m) then c.messages + [TimeTip(m.sendTime)] else c.messages
  }

  function InsertAt<T>(s: seq<T>, i: nat, x: T): seq<T>
    requires i <= |s|
  {
    s[..i] + [x] + s[i..]
  }

  /** It comes from somebody else and is not read yet. */
  predicate Unread(m: Message) { !Is(m.selfSend) && m.status != Some(STATUS_READED) }

  function UnreadCount(c: Chat, m: Message): int {
    if Unread(m) && m.kind != Some(TIP_TEXT) then c.unreadCount + 1 else c.unreadCount
  }

  /** An unread message of a group names `who`; -1 stands for everybody. */
  predicate Mentions(c: Chat, m: Message, who: int) {
    Unread(m) && c.kind == Group && m.atUserIds.Some? && who in m.atUserIds.value
  }

  /** The messages once a new one is in its place, with the time tip before it was placed. */
  function Placed(c: Chat, m: Message): seq<Message> {
    var messages := WithTip(c, m);
    InsertAt(messages, if Num(m.id) > 0 then InsertPos(messages, Num(m.id)) else |messages|, m)
  }

  /** A message that is new to the chat. `me` is the id of the user. */
  function InsertNew(c: Chat, m: Message, me: int): Chat {
    c.(lastContent := LastContent(m, c.lastContent),
       lastSendTime := m.sendTime,
       sendNickName := m.sendNickName,
       unreadCount := UnreadCount(c, m),
       atMe := c.atMe || Mentions(c, m, me),
       atAll := c.atAll || Mentions(c, m, -1),
       lastTimeTip := if TipDue(c, m) then m.sendTime else c.lastTimeTip,
       messages := Placed(c, m),
       stored := false)
  }

  /** A message the chat already holds. */
  function InsertOld(c: Chat, m: Message, k: nat): Chat
    requires k < |c.messages|
  {
    c.(messages := c.messages[k := Assign(c.messages[k], m)],
       lastContent := if m.kind == Some(RECALL) then m.content else c.lastContent,
       stored := false)
  }

  function InsertInto(c: Chat, m: Message, me: int): Chat {
    var k := FindMessage(c.messages, m);
    if k < |c.messages| then InsertOld(c, m, k) else InsertNew(c, m, me)
  }

  /* ---- the mutations ---- */

  function NewChat(key: Key, showName: string, headImage: string, now: int): Chat {
    Chat(key.0, key.1, showName, headImage, Some(""), Some(now), None, None, 0, [], false, false, false, false)
  }

  /** Where the chat at `j` was before the one at `i` moved to the top. */
  function OldPlace(i: nat, j: nat): nat { if j == 0 then i else if j <= i then j - 1 else j }

  function MoveTop(s: Store, i: nat, now: int): Store
    requires i < |s.chats|
  {
    if i == 0 then s
    else Save(s.(chats := [s.chats[i].(lastSendTime := Some(now), stored := false)] + s.chats[..i] + s.chats[i + 1..]))
  }

  function OpenChat(s: Store, key: Key, showName: string, headImage: string, now: int): Store {
    var i := FindKey(s.chats, key);
    if i < |s.chats| then MoveTop(s, i, now) else s.(chats := [NewChat(key, showName, headImage, now)] + s.chats)
  }

  /** Change one chat, mark it dirty and save. */
  function Touch(s: Store, i: nat, c: Chat): Store
    requires i < |s.chats|
  {
    Save(s.(chats := s.chats[i := c.(stored := false)]))
  }

  function ResetUnread(s: Store, key: Key): Store {
    var i := FindKey(s.chats, key);
    if i < |s.chats| then Touch(s, i, s.chats[i].(unreadCount := 0, atMe := false, atAll := false)) else s
  }

  /** The message counts as read by the friend: one of ours, sent, up to `maxId` if that is given. */
  predicate BecomesRead(m: Message, maxId: Option<int>) {
    && Num(m.id) != 0 && Is(m.selfSend) && m.status.Some? && m.status.value < STATUS_RECALL
    && (Num(maxId) == 0 || m.id.value <= maxId.value)
  }

  function ReadMessages(messages: seq<Message>, maxId: Option<int>): seq<Message> {
    seq(|messages|, i requires 0 <= i < |messages| =>
      if BecomesRead(messages[i], maxId) then messages[i].(status := Some(STATUS_READED)) else messages[i])
  }

  function Readed(s: Store, friendId: int, maxId: Option<int>): Store {
    var i := FindKey(s.chats, (Private, friendId));
    if i == |s.chats| then s
    else
      var c := s.chats[i];
      var some := exists k :: 0 <= k < |c.messages| && BecomesRead(c.messages[k], maxId);
      Save(s.(chats := s.chats[i := c.(messages := ReadMessages(c.messages, maxId), stored := c.stored && !some)]))
  }

  /** Without a chat at `i` the source throws before it changes anything. */
  function RemoveChat(s: Store, i: nat): Store {
    if i < |s.chats| then Touch(s, i, s.chats[i].(deleted := true)) else s
  }

  function RemoveKey(s: Store, key: Key): Store { RemoveChat(s, FindKey(s.chats, key)) }

  function SeenId(s: Store, m: Message): Store {
    var id := Num(m.id);
    if Num(m.groupId) != 0 then s.(groupMax := if id != 0 && id > s.groupMax then id else s.groupMax)
    else s.(privateMax := if id != 0 && id > s.privateMax then id else s.privateMax)
  }

  /** Without a chat for the message the source returns, or throws, after noting its id. */
  function Insert(s: Store, m: Message, me: int): Store {
    var s' := SeenId(s, m);
    var i := FindChat(s.chats, m);
    if i < |s.chats| then Touch(s', i, InsertInto(s.chats[i], m, me)) else s'
  }

  function Update(s: Store, m: Message): Store {
    var i := FindChat(s.chats, m);
    if i == |s.chats| then s
    else
      var c := s.chats[i];
      var k := FindMessage(c.messages, m);
      if k < |c.messages| then Touch(s, i, c.(messages := c.messages[k := Assign(c.messages[k], m)])) else s
  }

  predicate Doomed(old_: Message, m: Message) {
    || (Num(old_.id) != 0 && old_.id == m.id)
    || (Is(m.selfSend) && Is(old_.selfSend) && old_.sendTime == m.sendTime)
  }

  function WithoutFirst(messages: seq<Message>, m: Message): seq<Message> {
    if messages == [] then []
    else if Doomed(messages[0], m) then messages[1..]
    else [messages[0]] + WithoutFirst(messages[1..], m)
  }

  /** Without a chat for the message the source throws before it changes anything. */
  function DeleteMessage(s: Store, m: Message): Store {
    var i := FindChat(s.chats, m);
    if i == |s.chats| then s else Touch(s, i, s.chats[i].(messages := WithoutFirst(s.chats[i].messages, m)))
  }

  function Rename(s: Store, key: Key, headImage: string, name: string): Store {
    var i := FindKey(s.chats, key);
    if i < |s.chats| && (s.chats[i].headImage != headImage || s.chats[i].showName != name)
    then Touch(s, i, s.chats[i].(headImage := headImage, showName := name)) else s
  }

  /* ---- loading ---- */

  /** `localForage.getItem` of every key, without those that are gone. */
  function FetchAll(keys: seq<Key>, backing: map<Key, Chat>): seq<Chat> {
    if keys == [] then []
    else (if keys[0] in backing then [backing[keys[0]]] else []) + FetchAll(keys[1..], backing)
  }

  function Unload(m: Message): Message {
    if m.loadStatus == Some("loading") then m.(loadStatus := Some("fail")) else m
  }

  function UnloadAll(messages: seq<Message>): seq<Message> {
    seq(|messages|, i requires 0 <= i < |messages| => Unload(messages[i]))
  }

  function Restored(c: Chat): Chat { c.(messages := UnloadAll(c.messages)) }

  function RestoreAll(chats: seq<Chat>): seq<Chat> {
    seq(|chats|, i requires 0 <= i < |chats| => Restored(chats[i]))
  }

  /** `loadChat` and `initChats`; nothing happens when nothing was ever saved. */
  function Load(s: Store): Store {
    match s.index
    case None => s
    case Some(Index(privateMax, groupMax, keys)) =>
      s.(chats := RestoreAll(FetchAll(keys, s.backing)), privateMax := privateMax, groupMax := groupMax)
  }

  /** `clear`: the chats go, what is stored stays. */
  function Clear(s: Store): Store { s.(chats := []) }
}
