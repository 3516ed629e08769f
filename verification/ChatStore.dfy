/** The chat store object: a list of chat objects changed in place, in front of a key-value store.
    Every mutation changes what the object stands for as `ChatSpec` says. */
module ChatStoreObject {
  import opened Strings
  import F = ChatEffects
  import S = ChatSpec

  class ChatObject {
    var kind: S.Kind
    var targetId: int
    var showName: string
    var headImage: string
    var lastContent: Option<string>
    var lastSendTime: Option<int>
    var sendNickName: Option<string>
    var lastTimeTip: Option<int>
    var unreadCount: int
    var messages: seq<S.Message>
    var atMe: bool
    var atAll: bool
    var stored: bool
    var deleted: bool

    /** The chat as `JSON.parse(JSON.stringify(chat))` copies it. */
    function View(): S.Chat
      reads this
    {
      S.Chat(kind, targetId, showName, headImage, lastContent, lastSendTime, sendNickName, lastTimeTip,
             unreadCount, messages, atMe, atAll, stored, deleted)
    }

    constructor (c: S.Chat)
      ensures View() == c
    {
      kind, targetId, showName, headImage := c.kind, c.targetId, c.showName, c.headImage;
      lastContent, lastSendTime, sendNickName, lastTimeTip := c.lastContent, c.lastSendTime, c.sendNickName,
          c.lastTimeTip;
      unreadCount, messages, atMe, atAll := c.unreadCount, c.messages, c.atMe, c.atAll;
      stored, deleted := c.stored, c.deleted;
    }

    method FindMessage(m: S.Message) returns (k: nat)
      ensures k == S.FindMessage(messages, m)
    {
      k := 0;
      while k < |messages| && !S.Matches(messages[k], m)
        invariant k <= |messages|
        invariant forall j :: 0 <= j < k ==> !S.Matches(messages[j], m)
      {
        k := k + 1;
      }
    }

    method InsertPos(id: int) returns (p: nat)
      ensures p == S.InsertPos(messages, id)
    {
      p := 0;
      while p < |messages| && !(S.Num(messages[p].id) != 0 && id < S.Num(messages[p].id))
        invariant p <= |messages|
        invariant forall j :: 0 <= j < p ==> S.Num(messages[j].id) == 0 || S.Num(messages[j].id) <= id
      {
        p := p + 1;
      }
    }

    /** The part of `insertMessage` that changes the chat. */
    method Insert(m: S.Message, me: int)
      modifies this
      ensures View() == S.InsertInto(old(View()), m, me) && !stored
    {
      var k := FindMessage(m);
      if k < |messages| {
        messages := messages[k := S.Assign(messages[k], m)];
        if m.kind == Some(S.RECALL) {
          lastContent := m.content;
        }
        stored := false;
      } else {
        InsertNew(m, me);
      }
    }

    method InsertNew(m: S.Message, me: int)
      modifies this
      ensures View() == S.InsertNew(old(View()), m, me)
    {
      hide S.Placed, S.TipDue, S.Mentions, S.UnreadCount, S.LastContent;
      ghost var before := View();
      NoteArrival(m, me);
      PlacedAlike(before, View(), m);
      Place(m);
    }

    /** Last message, unread count and mentions. */
    method NoteArrival(m: S.Message, me: int)
      modifies this`lastContent, this`lastSendTime, this`sendNickName, this`unreadCount, this`atMe, this`atAll
      ensures lastContent == S.LastContent(m, old(lastContent)) && lastSendTime == m.sendTime &&
                sendNickName == m.sendNickName
      ensures unreadCount == S.UnreadCount(old(View()), m)
      ensures atMe == (old(atMe) || S.Mentions(old(View()), m, me)) &&
                atAll == (old(atAll) || S.Mentions(old(View()), m, -1))
    {
      lastContent := S.LastContent(m, lastContent);
      lastSendTime := m.sendTime;
      sendNickName := m.sendNickName;
      if !S.Is(m.selfSend) && m.status != Some(S.STATUS_READED) && m.kind != Some(S.TIP_TEXT) {
        unreadCount := unreadCount + 1;
      }
      if !S.Is(m.selfSend) && kind == S.Group && m.atUserIds.Some? && m.status != Some(S.STATUS_READED) {
        if me in m.atUserIds.value {
          atMe := true;
        }
        if -1 in m.atUserIds.value {
          atAll := true;
        }
      }
    }

    /** The time tip, if it is due, and the message itself. */
    method Place(m: S.Message)
      modifies this`messages, this`lastTimeTip, this`stored
      ensures messages == S.Placed(old(View()), m)
      ensures lastTimeTip == (if S.TipDue(old(View()), m) then m.sendTime else old(lastTimeTip)) && !stored
    {
      if S.Num(lastTimeTip) == 0 || (m.sendTime.Some? && lastTimeTip.value < m.sendTime.value - 600 * 1000) {
        messages := messages + [S.TimeTip(m.sendTime)];
        lastTimeTip := m.sendTime;
      }
      var insertPos := |messages|;
      if S.Num(m.id) > 0 {
        insertPos := InsertPos(S.Num(m.id));
      }
      messages := messages[..insertPos] + [m] + messages[insertPos..];
      stored := false;
    }

    /** Mark our messages read, up to `maxId` if it is given. */
    method MarkRead(maxId: Option<int>)
      modifies this`messages, this`stored
      ensures messages == S.ReadMessages(old(messages), maxId)
      ensures stored == (old(stored) && !exists k :: 0 <= k < |old(messages)| && S.BecomesRead(old(messages)[k], maxId))
    {
      ghost var before := messages;
      var i := 0;
      while i < |messages|
        invariant 0 <= i <= |messages| == |before|
        invariant forall k :: 0 <= k < i ==> messages[k] == S.ReadMessages(before, maxId)[k]
        invariant forall k :: i <= k < |messages| ==> messages[k] == before[k]
        invariant stored == (old(stored) && !exists k :: 0 <= k < i && S.BecomesRead(before[k], maxId))
      {
        if S.BecomesRead(messages[i], maxId) {
          messages := messages[i := messages[i].(status := Some(S.STATUS_READED))];
          stored := false;
        }
        i := i + 1;
      }
    }

    /** Remove the first message that `m` names. */
    method DropMessage(m: S.Message)
      modifies this`messages
      ensures messages == S.WithoutFirst(old(messages), m)
    {
      hide S.WithoutFirst, S.Doomed;
      var i := 0;
      while i < |messages| && !S.Doomed(messages[i], m)
        invariant 0 <= i <= |messages|
        invariant forall j :: 0 <= j < i ==> !S.Doomed(messages[j], m)
      {
        i := i + 1;
      }
      F.WithoutFirstAt(messages, m, i);
      if i < |messages| {
        messages := messages[..i] + messages[i + 1..];
      }
    }
  }

  lemma Fronted<T>(s: seq<T>, i: nat)
    requires i < |s|
    ensures var r := [s[i]] + s[..i] + s[i + 1..];
            |r| == |s| && forall j :: 0 <= j < |r| ==> r[j] == s[S.OldPlace(i, j)]
  {
  }

  /** Where a message goes depends on the messages and the last time tip only. */
  lemma PlacedAlike(c: S.Chat, c': S.Chat, m: S.Message)
    requires c'.messages == c.messages && c'.lastTimeTip == c.lastTimeTip
    ensures S.Placed(c', m) == S.Placed(c, m) && S.TipDue(c', m) == S.TipDue(c, m)
  {
  }

  lemma {:induction false} KeptAppend(chats: seq<S.Chat>, c: S.Chat)
    ensures S.Kept(chats + [c]) == S.Kept(chats) + (if c.deleted then [] else [c.(stored := true)])
  {
    if chats == [] {
      assert chats + [c] == [c] && [c][1..] == [];
    } else {
      KeptAppend(chats[1..], c);
      assert (chats + [c])[1..] == chats[1..] + [c];
    }
  }

  class ChatStore {
    var chats: seq<ChatObject>
    var privateMsgMaxId: int
    var groupMsgMaxId: int
    var backing: map<S.Key, S.Chat>
    var index: Option<S.Index>
    const me: int

    // The value this object stands for.
    ghost var model: S.Store

    ghost predicate Valid()
      reads this, chats
    {
      && model == S.Store(model.chats, privateMsgMaxId, groupMsgMaxId, backing, index)
      && Shows()
    }

    /** The chat objects are distinct and stand for the chats of the model. */
    ghost predicate Shows()
      reads this, chats
    {
      && |chats| == |model.chats|
      && (forall i, j :: 0 <= i < j < |chats| ==> chats[i] != chats[j])
      && (forall i :: 0 <= i < |chats| ==> chats[i].View() == model.chats[i])
    }

    constructor (me: int)
      ensures Valid() && model == S.EMPTY && this.me == me
    {
      this.me := me;
      chats, privateMsgMaxId, groupMsgMaxId := [], 0, 0;
      backing, index := map[], None;
      model := S.EMPTY;
    }

    method FindKey(key: S.Key) returns (i: nat)
      requires Valid()
      ensures i == S.FindKey(model.chats, key)
    {
      i := 0;
      while i < |chats| && !(chats[i].kind == key.0 && chats[i].targetId == key.1)
        invariant i <= |chats|
        invariant forall j :: 0 <= j < i ==> S.KeyOf(model.chats[j]) != key
      {
        assert chats[i].View() == model.chats[i];
        i := i + 1;
      }
      assert i < |chats| ==> chats[i].View() == model.chats[i];
    }

    method FindChat(m: S.Message) returns (i: nat)
      requires Valid()
      ensures i == S.FindChat(model.chats, m)
    {
      match S.TargetOf(m)
      case None => i := |chats|;
      case Some(key) => i := FindKey(key);
    }

    method SaveToStorage()
      requires Valid()
      modifies this, chats
      ensures Valid() && model == S.Save(old(model))
      ensures forall c :: c in chats ==> c in old(chats)
    {
      ghost var before := model.chats;
      var chatKeys := SaveEach(before);
      index := Some(S.Index(privateMsgMaxId, groupMsgMaxId, chatKeys));
      DropDeleted(before);
      model := S.Save(model);
    }

    method SaveEach(ghost before: seq<S.Chat>) returns (chatKeys: seq<S.Key>)
      requires |chats| == |before| && forall i :: 0 <= i < |chats| ==> chats[i].View() == before[i]
      requires forall i, j :: 0 <= i < j < |chats| ==> chats[i] != chats[j]
      modifies this`backing, chats
      ensures backing == S.SaveAll(before, old(backing)) && chatKeys == S.KeysOf(S.Kept(before))
      ensures forall i :: 0 <= i < |chats| ==> chats[i].View() == before[i].(stored := true)
    {
      hide S.SaveAll, S.SaveOne, S.Kept, S.KeysOf;
      chatKeys := [];
      SaveEnds(before);
      var i := 0;
      while i < |chats|
        invariant 0 <= i <= |chats|
        invariant forall j :: 0 <= j < i ==> chats[j].View() == before[j].(stored := true)
        invariant forall j :: i <= j < |chats| ==> chats[j].View() == before[j]
        invariant S.SaveAll(before[i..], backing) == S.SaveAll(before, old(backing))
        invariant chatKeys == S.KeysOf(S.Kept(before[..i]))
      {
        SaveStep(before, i, backing);
        var key := SaveChat(chats[i]);
        chatKeys := chatKeys + key;
        i := i + 1;
      }
    }

    /** Store or remove one chat if it changed; the keys it adds to the index. */
    method SaveChat(chat: ChatObject) returns (keys: seq<S.Key>)
      modifies this`backing, chat`stored
      ensures backing == S.SaveOne(old(chat.View()), old(backing))
      ensures chat.View() == old(chat.View()).(stored := true)
      ensures keys == if chat.deleted then [] else [S.KeyOf(chat.View())]
    {
      var chatKey := (chat.kind, chat.targetId);
      if !chat.stored {
        if chat.deleted {
          backing := backing - {chatKey};
        } else {
          backing := backing[chatKey := chat.View()];
        }
        chat.stored := true;
      }
      keys := if chat.deleted then [] else [chatKey];
    }

    /** `chats.filter(chat => !chat.delete)`. */
    method DropDeleted(ghost before: seq<S.Chat>)
      requires |chats| == |before| && forall i :: 0 <= i < |chats| ==> chats[i].View() == before[i].(stored := true)
      requires forall i, j :: 0 <= i < j < |chats| ==> chats[i] != chats[j]
      modifies this`chats
      ensures |chats| == |S.Kept(before)| && forall i :: 0 <= i < |chats| ==> chats[i].View() == S.Kept(before)[i]
      ensures forall i, j :: 0 <= i < j < |chats| ==> chats[i] != chats[j]
      ensures forall c :: c in chats ==> c in old(chats)
    {
      hide S.Kept;
      DropEnds(before);
      var kept: seq<ChatObject> := [];
      var i := 0;
      while i < |chats|
        invariant 0 <= i <= |chats| && chats == old(chats)
        invariant |kept| == |S.Kept(before[..i])|
        invariant forall j :: 0 <= j < |kept| ==> kept[j] in chats[..i] && kept[j].View() == S.Kept(before[..i])[j]
        invariant forall j, k :: 0 <= j < k < |kept| ==> kept[j] != kept[k]
      {
        assert before[..i + 1] == before[..i] + [before[i]];
        KeptAppend(before[..i], before[i]);
        assert chats[i].View() == before[i].(stored := true);
        if !chats[i].deleted {
          kept := kept + [chats[i]];
        }
        i := i + 1;
      }
      chats := kept;
    }

    /** The chat object at `i` was changed: the model follows. */
    ghost method Changed(i: nat)
      requires i < |chats| == |model.chats|
      requires model == S.Store(model.chats, privateMsgMaxId, groupMsgMaxId, backing, index)
      requires forall j, k :: 0 <= j < k < |chats| ==> chats[j] != chats[k]
      requires forall j :: 0 <= j < |chats| && j != i ==> chats[j].View() == model.chats[j]
      modifies this`model
      ensures Valid()
      ensures model == old(model).(chats := old(model.chats)[i := chats[i].View()])
    {
      model := model.(chats := model.chats[i := chats[i].View()]);
    }

    method MoveTop(i: nat, now: int)
      requires Valid() && i < |chats|
      modifies this, chats
      ensures Valid() && model == S.MoveTop(old(model), i, now)
    {
      hide S.Save, S.InsertInto, S.FindKey, S.FindMessage, S.WithoutFirst;
      if i > 0 {
        var chat := chats[i];
        chat.lastSendTime := Some(now);
        chat.stored := false;
        Changed(i);
        ToFront(i);
        SaveToStorage();
      }
    }

    /** `splice` it out and `unshift` it. */
    method ToFront(i: nat)
      requires Valid() && i < |chats|
      modifies this`chats, this`model
      ensures Valid() && chats == [old(chats)[i]] + old(chats)[..i] + old(chats)[i + 1..]
      ensures model == old(model).(chats := [old(model.chats)[i]] + old(model.chats)[..i] + old(model.chats)[i + 1..])
    {
      Fronted(chats, i);
      Fronted(model.chats, i);
      chats := [chats[i]] + chats[..i] + chats[i + 1..];
      model := model.(chats := [model.chats[i]] + model.chats[..i] + model.chats[i + 1..]);
    }

    method OpenChat(key: S.Key, showName: string, headImage: string, now: int)
      requires Valid()
      modifies this, chats
      ensures Valid() && model == S.OpenChat(old(model), key, showName, headImage, now)
    {
      hide S.Save, S.MoveTop, S.FindKey;
      var i := FindKey(key);
      if i < |chats| {
        MoveTop(i, now);
      } else {
        var chat := new ChatObject(S.NewChat(key, showName, headImage, now));
        chats := [chat] + chats;
        model := model.(chats := [chat.View()] + model.chats);
      }
    }

    method ResetUnreadCount(key: S.Key)
      requires Valid()
      modifies this, chats
      ensures Valid() && model == S.ResetUnread(old(model), key)
    {
      hide S.Save, S.InsertInto, S.FindKey, S.FindMessage, S.WithoutFirst;
      var i := FindKey(key);
      if i < |chats| {
        var chat := chats[i];
        chat.unreadCount := 0;
        chat.atMe := false;
        chat.atAll := false;
        chat.stored := false;
        Changed(i);
        SaveToStorage();
      }
    }

    method ReadedMessage(friendId: int, maxId: Option<int>)
      requires Valid()
      modifies this, chats
      ensures Valid() && model == S.Readed(old(model), friendId, maxId)
    {
      hide S.Save, S.InsertInto, S.FindKey, S.FindMessage, S.WithoutFirst;
      var i := FindKey((S.Private, friendId));
      if i < |chats| {
        chats[i].MarkRead(maxId);
        Changed(i);
        SaveToStorage();
      }
    }

    method RemoveChat(i: nat)
      requires Valid()
      modifies this, chats
      ensures Valid() && model == S.RemoveChat(old(model), i)
    {
      hide S.Save, S.InsertInto, S.FindKey, S.FindMessage, S.WithoutFirst;
      if i < |chats| {
        chats[i].deleted := true;
        chats[i].stored := false;
        Changed(i);
        SaveToStorage();
      }
    }

    /** `removePrivateChat` and `removeGroupChat`. */
    method RemoveKey(key: S.Key)
      requires Valid()
      modifies this, chats
      ensures Valid() && model == S.RemoveKey(old(model), key)
    {
      var i := FindKey(key);
      if i < |chats| {
        RemoveChat(i);
      }
    }

    method InsertMessage(m: S.Message)
      requires Valid()
      modifies this, chats
      ensures Valid() && model == S.Insert(old(model), m, me)
    {
      hide S.Save, S.InsertInto, S.FindKey, S.FindMessage, S.WithoutFirst;
      NoteId(m);
      var i := FindChat(m);
      if i < |chats| {
        chats[i].Insert(m, me);
        Changed(i);
        SaveToStorage();
      }
    }

    /** Keep the largest message id seen, of each kind. */
    method NoteId(m: S.Message)
      requires Valid()
      modifies this`privateMsgMaxId, this`groupMsgMaxId, this`model
      ensures Valid() && model == S.SeenId(old(model), m)
    {
      var id := S.Num(m.id);
      if S.Num(m.groupId) != 0 {
        if id != 0 && id > groupMsgMaxId {
          groupMsgMaxId := id;
        }
      } else if id != 0 && id > privateMsgMaxId {
        privateMsgMaxId := id;
      }
      model := S.SeenId(model, m);
    }

    method UpdateMessage(m: S.Message)
      requires Valid()
      modifies this, chats
      ensures Valid() && model == S.Update(old(model), m)
    {
      hide S.Save, S.InsertInto, S.FindKey, S.FindMessage, S.WithoutFirst;
      var i := FindChat(m);
      if i < |chats| {
        var chat := chats[i];
        var k := chat.FindMessage(m);
        if k < |chat.messages| {
          chat.messages := chat.messages[k := S.Assign(chat.messages[k], m)];
          chat.stored := false;
          Changed(i);
          SaveToStorage();
        }
      }
    }

    method DeleteMessage(m: S.Message)
      requires Valid()
      modifies this, chats
      ensures Valid() && model == S.DeleteMessage(old(model), m)
    {
      hide S.Save, S.InsertInto, S.FindKey, S.FindMessage, S.WithoutFirst;
      var i := FindChat(m);
      if i < |chats| {
        chats[i].DropMessage(m);
        chats[i].stored := false;
        Changed(i);
        SaveToStorage();
      }
    }

    /** `updateChatFromFriend` and `updateChatFromGroup`. */
    method Rename(key: S.Key, headImage: string, showName: string)
      requires Valid()
      modifies this, chats
      ensures Valid() && model == S.Rename(old(model), key, headImage, showName)
    {
      hide S.Save, S.InsertInto, S.FindKey, S.FindMessage, S.WithoutFirst;
      var i := FindKey(key);
      if i < |chats| {
        var chat := chats[i];
        if chat.headImage != headImage || chat.showName != showName {
          chat.headImage := headImage;
          chat.showName := showName;
          chat.stored := false;
          Changed(i);
          SaveToStorage();
        }
      }
    }

    method Clear()
      requires Valid()
      modifies this
      ensures Valid() && model == S.Clear(old(model))
    {
      chats := [];
      model := S.Clear(model);
    }

    /** `loadChat`, and `initChats` with what it fetched. */
    method LoadChat()
      requires Valid()
      modifies this
      ensures Valid() && model == S.Load(old(model))
    {
      if index.Some? {
        var chatsData := index.value;
        var fetched := S.FetchAll(chatsData.keys, backing);
        var restored := InitChats(fetched);
        privateMsgMaxId := chatsData.privateMax;
        groupMsgMaxId := chatsData.groupMax;
        chats := restored;
        model := S.Load(model);
      }
    }

    /** New chat objects; images still loading have failed. */
    method InitChats(fetched: seq<S.Chat>) returns (restored: seq<ChatObject>)
      ensures |restored| == |fetched| && forall i :: 0 <= i < |restored| ==>
                restored[i].View() == S.Restored(fetched[i])
      ensures forall i, j :: 0 <= i < j < |restored| ==> restored[i] != restored[j]
    {
      restored := [];
      var i := 0;
      while i < |fetched|
        invariant 0 <= i <= |fetched| && |restored| == i
        invariant forall j :: 0 <= j < i ==> fresh(restored[j]) && restored[j].View() == S.Restored(fetched[j])
        invariant forall j, k :: 0 <= j < k < i ==> restored[j] != restored[k]
      {
        var chat := new ChatObject(S.Restored(fetched[i]));
        restored := restored + [chat];
        i := i + 1;
      }
    }
  }

  lemma DropEnds(before: seq<S.Chat>)
    ensures S.Kept(before[..0]) == [] && before[..|before|] == before
  {
  }

  lemma SaveEnds(before: seq<S.Chat>)
    ensures before[0..] == before && before[..|before|] == before
    ensures S.KeysOf(S.Kept(before[..0])) == []
    ensures forall backing :: S.SaveAll(before[|before|..], backing) == backing
  {
  }

  lemma SaveStep(before: seq<S.Chat>, i: nat, backing: map<S.Key, S.Chat>)
    requires i < |before|
    ensures S.SaveAll(before[i..], backing) == S.SaveAll(before[i + 1..], S.SaveOne(before[i], backing))
    ensures S.Kept(before[..i + 1]) ==
              S.Kept(before[..i]) + (if before[i].deleted then [] else [before[i].(stored := true)])
    ensures S.KeysOf(S.Kept(before[..i + 1])) ==
              S.KeysOf(S.Kept(before[..i])) + (if before[i].deleted then [] else [S.KeyOf(before[i])])
  {
    assert before[i..][1..] == before[i + 1..];
    assert before[..i + 1] == before[..i] + [before[i]];
    KeptAppend(before[..i], before[i]);
  }
}
