# Verified model of the call centre's stateful cores

A Dafny model of five parts of a FreeSWITCH call-centre and chat application, and proofs about whole
runs of them. `dafny verify dfyconfig.toml` checks everything.

- **Event-socket client** (`Framing`, `Headers`, `HeaderLaws`, `EslParser`, `EventCodec`, `EslClient`, `EslRuns`,
  `EslReplies`, `EslJobs`, `EslCalls`, `EslConnection`): the incremental framer over the bytes of a socket and what its
  events say, the event printer and its way back, and the connection that pairs replies with commands and follows
  background jobs.
- **Chat store** (`ChatSpec`, `ChatLaws`, `ChatOrder`, `ChatEffects`, `ChatStoreObject`): chats changed in place in
  front of a key-value store, the ordered, de-duplicating insertion of messages, and what each mutation changes.
- **IVR interpreter and local dialling** (`Ivr`, `CallFlow`): an arbitrary goto table, three mutually recursive
  methods and one depth counter.
- **Queue dispatch** (`TurnTaking`, `RoundRobin`, `QueueTopics`, `Hangup`): whose turn it is, which agent is
  picked, which queues come back after a restart, and who is blamed for a hangup.
- **Call scores** (`Mos`): the R-to-MOS mapping of Annex B of ITU-T Rec. G.107 and the E-model around it.

Where the source changes objects, a class with the same fields has methods proved to do what functions on
values say; the laws are proved about those functions, for all inputs and all runs.

## How to read it

- `Framing` knows nothing of header syntax. A `Reader` says which Content-Length a raw block announces (None
  where `_parseHeaderText` returns nothing) and which frames throw while their event is built or delivered;
  `EslParser.ReaderOf` is the reader of the real header parser. An exception leaves the handler but not the
  object, so a parser that threw goes on with the next `data` event: that is why dividing a stream can matter,
  and `ChunkInvariance` says exactly when.
- A negative Content-Length is followed as JavaScript's `slice` does.
- `Headers.Host` holds what is taken from Node: UTF-8, `decodeURIComponent`, and whether an event throws. The
  round trip of events relies on UTF-8 only as far as `EventCodec.Utf8` says.
- In `EslClient` a queue slot carries the number of the command it was queued for, and a `bgapi` call its own
  number; the callback each command was sent with is kept beside the command. The source has none of these; they only
  make it possible to say which callback belongs to which command.
- The server of `EslRuns` answers every command in order; everything else (when answers and events come and with
  which headers, what callers do) is any sequence of steps. What a callback of a caller does in turn is further
  steps of the run. The connection's own commands (authentication, subscription) are commands like a caller's. The
  runs about what is written give job ids that are not empty, as the source generates them.
- Events are any `EslClient.Incoming`, with all three ids, in any of the three formats; what the object does not listen
  to is `Unheard`.
- `Ivr.World` stands for database rows, key presses, queues and extensions. All that can change is asked with the
  number of actions executed so far, so tables may change during a call.
- `Hangup` cuts the three handlers at every `await`; an `await` may also throw. The helper that registers listeners
  calls them with the connection's number first (src/esl/free-switch-pbx.service.ts:922), while `onDisconnect` takes
  the event as its first argument, so reading a header throws. The model has a disconnect with the event and one
  without: what holds of every interleaving holds of both, and `DisconnectRejects` is about the handler as registered.
- Replies and callbacks are paired by order alone, and `sendmsg` and `exit` are answered without having queued a
  callback. On its outbound connections the application sets filters, executes and starts background jobs
  (src/esl/free-switch-pbx.service.ts:154, 188 and 482; on inbound ones its filter call returns at once, 147-151), so
  runs in which a callback gets the answer to another command do occur. `OwnAnswer` says for every call whether it is
  one of those, by what is unanswered at the call.

## Model

| member | source | states |
|---|---|---|
| EslParser.Parser.OnData | src/esl/NodeESL/Parser.ts:27-36 | one data event takes the parser object from one state of the framer to the next, and throws exactly when the framer does |
| EslParser.Parser.IndexOfHeaderEnd | src/esl/NodeESL/Parser.ts:41-49 | the loop returns the first place of two newlines, or -1 |
| EslParser.Parser.ParseHeaders | src/esl/NodeESL/Parser.ts:51-85 | cutting header blocks in place, with the recursion into bodies, is the framer's step; it terminates because every cut shrinks the buffer |
| EslParser.Parser.ParseBody | src/esl/NodeESL/Parser.ts:87-103 | cutting a body in place and going on is the framer's step |
| Framing.ChunkInvariance | src/esl/NodeESL/Parser.ts:27-103 | any two divisions of a stream into data events emit the same events and end in the same buffer, pending length and headers, if and only if the stream is steady: no block ends after the first throw and nothing follows a negative Content-Length |
| Framing.SteadyFeed | src/esl/NodeESL/Parser.ts:27-103 | after any part of a steady stream, feeding the rest in pieces ends where one event with everything ends |
| Framing.ThrowSplits | src/esl/NodeESL/Parser.ts:105-109 | when a block can be cut behind the first throw, one event and a division after the throw end differently |
| Framing.NegativeSplits | src/esl/NodeESL/Parser.ts:69-76 | when something follows a negative Content-Length, one event and byte-by-byte feeding end differently |
| Framing.FramingRoundTrip | src/esl/NodeESL/Parser.ts:41-103 | the encoding of any well-formed frames and any part of a further one, divided in any way, emits exactly those frames in order and leaves exactly that part |
| Framing.Conservation | src/esl/NodeESL/Parser.ts:41-103 | at every point of a stream without throws and negative lengths, emitted frames and what is pending are the bytes received, the frames are well-formed and nothing more can be cut |
| Framing.Resumes | src/esl/NodeESL/Parser.ts:51-103 | what was left over after one part of a stream, and the next part, decide which frames follow |
| EslParser.Receive | src/esl/NodeESL/Parser.ts:27-103 | a new parser object given the bytes of a socket, however divided, ends as the framer does, with one emission a frame: no body where the frame has none, the text whose encoding its body is, and the headers its block spells out; for the encoding of well-formed frames and part of a further one those are the frames, in order, and just that part is kept |
| HeaderLaws.BlockSays | src/esl/NodeESL/Parser.ts:105-141 | a block of lines `name: text` that fit reads as an object with exactly those names: each with its last text percent-decoded, empty where decoding throws or the name is a skipped one, a Content-Length as the number or NaN its text reads as |
| HeaderLaws.BareLine | src/esl/NodeESL/Parser.ts:110-141 | a line without ": " is a name with an empty text |
| Strings.ParseIntReads | src/esl/NodeESL/Parser.ts:128-133 | a length reads as the number after its white space and sign, up to the first character that is no digit |
| EslParser.LengthSays | src/esl/NodeESL/Parser.ts:51-85 | the framer goes by the number in the last Content-Length line of a block, 0 if there is none or it is no number |
| EslParser.ThrowsBy | src/esl/NodeESL/Parser.ts:87-109 | whether an event throws while it is built or delivered depends on the headers its block spells out and the text of its body |
| Framing.SlicesShare | src/esl/NodeESL/Parser.ts:87-103 | cutting off a body shares out the buffer: so many bytes to the body, with a negative length so many to the rest |
| EslParser.EmptyBlock | src/esl/NodeESL/Parser.ts:105-109 | a stream that opens with an empty block, which throws, can be divided freely if and only if no block ends behind it |
| EslParser.NegativeBlock | src/esl/NodeESL/Parser.ts:69-76 | a stream that opens with a block of a negative Content-Length can be divided freely if and only if nothing follows |
| EventCodec.Event.AddHeader | src/esl/NodeESL/Event.ts:226-229 | a header is set in its old place, or added at the end |
| EventCodec.Event.Serialize | src/esl/NodeESL/Event.ts:59-142 | printing records the body's byte length among the headers and returns the lines and body, trimmed |
| EventCodec.PrintParse | src/esl/NodeESL/Parser.ts:172-187 | for headers that fit, parsing the printed event gives the body back if and only if the body is not empty, on one line and not ended by white space; then every header comes back with its text, and no other |
| EventCodec.PrintNew | src/esl/NodeESL/Connection.ts:706-750 | an event made, given headers and a body, and printed, parses back to its body if and only if that fits, and then to exactly the headers it was given |
| EventCodec.NewReadsBack | src/esl/NodeESL/Connection.ts:706-750 | what is read back has the last text of each header that was set, the event's name and subclass where they were not set again, the length, the body, and no other header |
| EventCodec.PlainSays | src/esl/NodeESL/Parser.ts:172-187 | any body with a header block is read as the headers the block spells out, but `_body`, and the text that the announced length takes of the bytes behind the blank line, with a negative one as `slice` does; without a length it is the text of a header `_body`, or empty |
| EventCodec.PrintedIs | src/esl/NodeESL/Event.ts:131-142 | what is printed is the lines and the body without the white space around them, all of it, and nothing else is lost |
| EventCodec.LineReadBack | src/esl/NodeESL/Parser.ts:110-141 | a printed line reads back its key and text: split, shift and join on ": " is a cut at the first one |
| EventCodec.NewlineLost | src/esl/NodeESL/Event.ts:137-140 | a body with a newline does not come back, because a newline is printed as three characters that the recorded length does not count |
| EventCodec.NoBodyThrows | src/esl/NodeESL/Parser.ts:172-177 | an event printed without a body has no end of headers, and parsing it throws |
| EslConnection.Connection.SendRecv | src/esl/NodeESL/Connection.ts:246-256 | the callback is queued and the command written |
| EslConnection.Connection.Bgapi | src/esl/NodeESL/Connection.ts:284-342 | a job call sets its filter first when filters are in use, else listens and writes |
| EslConnection.Connection.OnCommandReply | src/esl/NodeESL/Connection.ts:148-157 | a reply takes the first slot of the queue, if there is one, and runs its callback |
| EslConnection.Connection.OnBackgroundJob | src/esl/NodeESL/Connection.ts:316-320 | a job event removes and runs every listener of its id, in order |
| EslConnection.Connection.DoExec | src/esl/NodeESL/Connection.ts:759-784 | an execute registers its callback under its own id, a listener once a channel, and writes |
| EslConnection.Connection.OnEvent | src/esl/NodeESL/Connection.ts:815-866 | an event is emitted under the name its content type gives, and handled under that name |
| EslReplies.ReplyPairing | src/esl/NodeESL/Connection.ts:148-167 | in any run slots are taken by no answers but their own, if and only if no answer to a sendmsg or exit comes while a command waits; and then the callback a caller sent with a command runs on no other answer, and exactly once when the command is answered; commands without callback hold a slot, CHANNEL_DATA takes none |
| EslReplies.OwnAnswer | src/esl/NodeESL/Connection.ts:148-157 | in runs of any kind, also disturbed ones, the callback a caller sent with one command runs exactly once on the answer to it, and on no other, if at the call all callbacks of unanswered commands were waiting and no sendmsg or exit was unanswered; if not, it never runs on that answer |
| EslReplies.ApiPairing | src/esl/NodeESL/Connection.ts:160-167 | in runs of any kind the callback of an api call runs on its own answer and no other, exactly once when that has come |
| EslReplies.Firings | src/esl/NodeESL/Connection.ts:246-278 | in runs of any kind a caller's callback has run once on each answer that took the slot of the command it was sent with, and on no other |
| EslReplies.DisturbedRun | src/esl/NodeESL/Connection.ts:781 | on either kind of connection, an execute and a command sent behind it: the answer to the sendmsg takes the slot and runs the callback of the command |
| EslRuns.StepInStep | src/esl/NodeESL/Connection.ts:246-278 | every undisturbed step keeps both queues equal to the unanswered commands of their kind, in order |
| EslRuns.OwnSlot | src/esl/NodeESL/Connection.ts:148-157 | in runs of any kind the slot of one command is taken by its own answer once that comes, and by no other, if and only if it was calm at the call |
| EslRuns.DisturbsWhen | src/esl/NodeESL/Connection.ts:781 | a command waits at the answer to a sendmsg or exit exactly when one was written after it and before that answer |
| EslJobs.JobCallbacks | src/esl/NodeESL/Connection.ts:284-342 | in any run a bgapi callback fires at most once, only with its own Job-UUID, and once its command is written it is listening or its event has come |
| EslJobs.StepPlaces | src/esl/NodeESL/Connection.ts:301-326 | no step loses or doubles the callback of a job call |
| EslJobs.FilterRestored | src/esl/NodeESL/Connection.ts:316-335 | in runs of any kind such a callback fires on the very answer that deleted its filter if and only if, at the job event that wrote the deletion, all callbacks of unanswered commands were waiting and no sendmsg or exit was unanswered, and the server then lacks the filter; else it fires too early |
| EslJobs.FilterDeleted | src/esl/NodeESL/Connection.ts:328-335 | in runs of any kind a callback whose call was made while filters are in use fires after the deletion of its filter was written and not after its answer, and the server lacks the filter from the deletion on if and only if it is not set again |
| EslJobs.EarlyJob | src/esl/NodeESL/Connection.ts:781 | on either kind of connection, a run with a filter, a fresh job and an execute in which the callback fires on the answer to the sendmsg, while the server still has the filter |
| EslJobs.ExecuteDispatch | src/esl/NodeESL/Connection.ts:766-779 | after any run a completion event without Job-UUID fires exactly one callback, once, if some execute of the run was on its channel and the last one under its application's id, or under its event id without one, had a callback: that one |
| EslCalls.JobNoticed | src/esl/NodeESL/Connection.ts:815-817 | any BACKGROUND_JOB event, whatever ids and format it has, removes exactly the listeners of its Job-UUID, else of its Unique-ID, else of its Core-UUID; each fires at once, or with filters waits for the answer to a deletion written for it, and nothing else happens |
| EslCalls.LatestLast | src/esl/NodeESL/Connection.ts:316-320 | listeners of one job id are run in the order they listened |
| EslCalls.WireOrder | src/esl/NodeESL/Connection.ts:246-278 | apart from what is written for jobs, any run has written exactly what callers asked for, in order, each command with its own callback, behind the `connect` of an outbound connection |
| EslCalls.CallsAre | src/esl/NodeESL/Connection.ts:284-342 | the jobs of any run are its bgapi calls in order, each filtered exactly when a filter was set before it |
| EslCalls.LaunchedOnce | src/esl/NodeESL/Connection.ts:301-326 | in runs of any kind each bgapi call is launched exactly once: its command is written, or one callback waits to write it; nothing else is launched |
| EslCalls.FiltersOfJobs | src/esl/NodeESL/Connection.ts:328-335 | in runs of any kind a call waits only for the filter of its own id, its callback only for the deletion of that filter, and a call without callback deletes it just before its command |
| ChatStoreObject.ChatObject.InsertPos | web/src/store/chatStore.js:256-268 | the loop returns the place before the first larger id |
| ChatStoreObject.ChatObject.FindMessage | web/src/store/chatStore.js:490-508 | the loop returns the first message of the same id or temporary id |
| ChatStoreObject.ChatObject.Insert | web/src/store/chatStore.js:190-270 | a message is merged into the one already there, or counted, tipped and put in its place |
| ChatStoreObject.ChatObject.MarkRead | web/src/store/chatStore.js:89-101 | our sent messages up to the given id become read, and the chat dirty only if one did |
| ChatStoreObject.ChatStore.SaveToStorage | web/src/store/chatStore.js:371-405 | every dirty chat is stored or removed, the index noted, and deleted chats dropped |
| ChatStoreObject.ChatStore.OpenChat | web/src/store/chatStore.js:36-68 | a chat that is there moves to the top, else a new one is put there |
| ChatStoreObject.ChatStore.MoveTop | web/src/store/chatStore.js:129-143 | a chat is taken out, put in front, touched and saved |
| ChatStoreObject.ChatStore.ResetUnreadCount | web/src/store/chatStore.js:73-88 | the counters of a chat are cleared and it is saved |
| ChatStoreObject.ChatStore.ReadedMessage | web/src/store/chatStore.js:89-101 | the friend's chat is marked read and the store saved |
| ChatStoreObject.ChatStore.RemoveChat | web/src/store/chatStore.js:102-110 | a chat is marked deleted and dirty, and saved |
| ChatStoreObject.ChatStore.InsertMessage | web/src/store/chatStore.js:144-272 | the largest id is noted; the message goes to its chat, which is saved; without a chat nothing else changes |
| ChatStoreObject.ChatStore.UpdateMessage | web/src/store/chatStore.js:273-283 | a message that is there is overwritten, and its chat saved |
| ChatStoreObject.ChatStore.DeleteMessage | web/src/store/chatStore.js:284-304 | the first message named by id or sending time is removed |
| ChatStoreObject.ChatStore.Rename | web/src/store/chatStore.js:305-332 | a chat whose name or image changed is saved |
| ChatStoreObject.ChatStore.LoadChat | web/src/store/chatStore.js:413-441 | the chats of the index are fetched into new objects, loading images failed |
| ChatEffects.InsertMerges | web/src/store/chatStore.js:190-200 | an arrival for a message already there gives it every field that is set and leaves the others, shows a recalled text, and changes no other message and no other chat |
| ChatEffects.InsertAdds | web/src/store/chatStore.js:201-270 | a new message stands before the first larger id, behind a time tip when ten minutes passed; it is counted if unread, noted if it names the user or all, and previewed by its kind; nothing else changes |
| ChatEffects.InsertNowhere | web/src/store/chatStore.js:144-189 | without a chat of its own a message only raises the largest id of its kind, and an update or deletion does nothing |
| ChatEffects.UpdateMerges | web/src/store/chatStore.js:273-283 | an update gives the first such message every field that is set and leaves the others; without one nothing happens |
| ChatEffects.Deletes | web/src/store/chatStore.js:284-304 | exactly the first message of the same id, or sent by the user at the same time, goes; nothing else changes |
| ChatEffects.MarksRead | web/src/store/chatStore.js:89-101 | exactly the user's sent messages up to the given id become read, whatever else they hold stays |
| ChatEffects.ResetsUnread | web/src/store/chatStore.js:73-88 | the counter and both marks of one chat are cleared, nothing else changes |
| ChatEffects.Removes | web/src/store/chatStore.js:102-128 | a removed chat is in the list and in the backing store no more; the others keep their order and contents |
| ChatEffects.MovesTop | web/src/store/chatStore.js:129-143 | the chat stands in front with the new time, the others behind it in their order; the chat in front stays as it is |
| ChatEffects.OpensNew | web/src/store/chatStore.js:36-68 | a chat that was not there stands in front, empty, nothing unread, not saved; the others stay |
| ChatEffects.OpensKnown | web/src/store/chatStore.js:36-47 | opening a chat that is there does what moving it to the top does |
| ChatEffects.Renames | web/src/store/chatStore.js:305-332 | a changed name or image goes into the chat and nothing else changes; without a change nothing happens |
| ChatEffects.NobodyThere | web/src/store/chatStore.js:73-128 | what concerns a chat that is not there changes nothing |
| ChatLaws.WriteBack | web/src/store/chatStore.js:371-405 | after any run, with clears and loads anywhere, chats have distinct keys, one marked stored is what the backing store holds, and a save stores every chat as it is; it stores nothing else if and only if every stored key belongs to a chat, as after every run that neither opens nor saves between a clear and the next load |
| ChatLaws.SaveExact | web/src/store/chatStore.js:380-404 | after a save the stored keys are those of the chats not deleted, if and only if no other key was stored before |
| ChatLaws.ClearThenSave | web/src/store/chatStore.js:406-410 | behind a clear without a load a save stores just the chats if and only if nothing was stored |
| ChatLaws.SaveLoad | web/src/store/chatStore.js:413-441 | what any run saved, a load restores into a store of any contents, as on a page opened anew: the same chats in the same order and the same largest ids, each chat as it was but for its loading messages, which have failed, and its mark, which is off; where nothing was saved a load changes nothing |
| ChatLaws.LoadsInOrder | web/src/store/chatStore.js:413-441 | from any store a load adds the chats stored under the keys of the index, in that order, passing over keys that are gone, and no other chat |
| ChatLaws.StepInv | web/src/store/chatStore.js:19-411 | every mutation keeps the agreement, the uniqueness of keys and the soundness of the index; all but a clear keep what is stored covered and noted |
| ChatOrder.ArrivalOrder | web/src/store/chatStore.js:255-269 | whatever the order and repetition of server messages over all chats, each chat lists their ids in the same strictly ascending order |
| ChatOrder.ArrivalKeepsOrder | web/src/store/chatStore.js:190-269 | an arrival keeps ascending ids ascending if and only if a known message fits where it stands with the id it gets, and a new negative id is larger than all |
| ChatOrder.TmpIdBreaksOrder | web/src/store/chatStore.js:499-506 | an id given to a pending message through its temporary id can break the order |
| ChatOrder.RepeatIsIdle | web/src/store/chatStore.js:190-200 | a second arrival of a server message changes nothing more |
| CallFlow.Flow.IvrAction | src/esl/ivr.service.ts:51-97 | the recursion over the mutable counter ends as the interpreter function does |
| CallFlow.Flow.DialLocal | src/esl/flow-base.service.ts:40-87 | dialling a local number ends as the dialling function does, and terminates |
| CallFlow.Flow.DialIvr | src/esl/flow-base.service.ts:834-905 | answering, interpreting from the first action and dialling on end as the functions do |
| CallFlow.Flow.DialQueue | src/esl/flow-base.service.ts:907-928 | after a queue the IVR it names is interpreted, and its result ignored |
| CallFlow.Flow.IncreaseIvrCurrentDeep | src/esl/runtime-data.service.ts:309-312 | the counter grows by the given number |
| Ivr.RefinesMachine | src/esl/ivr.service.ts:55-92 | the interpreter rejects for depth if and only if the goto machine has a position left after as many steps as the counter allows; else it ends as the machine does after the one number of steps at which it halts |
| Ivr.TraceIsMachine | src/esl/ivr.service.ts:58-81 | the actions executed are those at the positions the machine passes |
| Ivr.InOrder | src/esl/ivr.service.ts:58-81 | actions that ask for the next one are executed in the order of their ordinals up to the first that does not; the trace and the counter grow by just those, and the outcome is that of the last |
| Ivr.GotoReads | src/esl/ivr.service.ts:74-79 | an argument goes on at its first part and at the number in its second part, or at the first action if that is zero or no number; further parts do not matter |
| Ivr.GotoPlain | src/esl/ivr.service.ts:74-79 | an argument without comma goes on at the first action of that number |
| Ivr.Jumps | src/esl/ivr.service.ts:71-81 | an action that names a position is followed by the one there |
| Ivr.ActionEnds | src/esl/ivr.service.ts:100-213 | by the kind of an action the interpreter ends with "todo", normally, or as the call shows, and rejects where that fails; the first action names the main IVR |
| Ivr.NeverIvr | src/esl/ivr.service.ts:71-83 | a result never asks to go on in an IVR |
| Ivr.GotoEncoding | src/esl/ivr.service.ts:74-79 | "number,ordinal" goes to that position if and only if the number has no comma and the ordinal is not zero |
| Ivr.CallBounded | src/esl/flow-base.service.ts:40-87 | for any table a whole call ends, executes no more actions than the counter allows, and is cut off for depth only when it used them all |
| Ivr.FreshCallBounded | src/esl/runtime-data.service.ts:121-126 | a fresh call executes at most a hundred actions |
| Ivr.DialsIvr | src/esl/flow-base.service.ts:834-905 | an IVR is answered unless the call is, interpreted from its first action, and dialled on from exactly if that ends with a local number |
| Ivr.DialsQueue | src/esl/flow-base.service.ts:907-928 | a queue fails, ends, or is followed by the position it names, whose result is ignored unless it rejects |
| Ivr.DialsOther | src/esl/flow-base.service.ts:40-87 | other tenants and unknown numbers are refused, an extension ends as it does, anything else succeeds, and the run data stay |
| Ivr.AnsweredOnce | src/esl/flow-base.service.ts:840-846 | dialling from an answered call never asks for an answer, and the call stays answered |
| TurnTaking.StrictOrder | src/esl/queue-worker.service.ts:446-464 | going before is irreflexive, transitive and asymmetric, also with missing values |
| TurnTaking.GoesFirst | src/esl/queue-worker.service.ts:446-464 | the smaller priority goes first, between equal ones the smaller timeout; a missing or zero one goes neither before nor behind |
| TurnTaking.FirstInLine | src/esl/queue-worker.service.ts:431-469 | among jobs with priority and timeout it is the turn of exactly those that no smaller priority, and no smaller timeout at the same priority, stands against |
| TurnTaking.SomeoneProceeds | src/esl/queue-worker.service.ts:431-469 | of any active jobs one may proceed |
| TurnTaking.WaitTurn | src/esl/queue-worker.service.ts:431-469 | the turn loop ends unstopped exactly at the first snapshot in which no job goes before |
| RoundRobin.Pick | src/esl/queue-worker.service.ts:319-371 | rotating, filtering the locked and searching picks the first free member of the scan order |
| RoundRobin.CycleFind | src/esl/queue-worker.service.ts:292-317 | the loop returns the first member that can be called |
| RoundRobin.NearestFree | src/esl/queue-worker.service.ts:333-365 | nobody is picked if and only if no member is free; else the pick is the free member least far around the circle behind the last agent |
| RoundRobin.ScanFrom | src/esl/queue-worker.service.ts:328-342 | the scan starts just behind the last agent, or at the first member if that is none of them |
| RoundRobin.PicksFree | src/esl/queue-worker.service.ts:359-366 | nobody is picked exactly when every member is locked or cannot be called; the members scanned before a pick all were |
| RoundRobin.ScanPermutes | src/esl/queue-worker.service.ts:338-342 | the scan order is a permutation of the members |
| RoundRobin.EveryoneOnce | src/esl/queue-worker.service.ts:328-366 | with all members free, as many picks as members, each the last agent of the next, are each of them once |
| QueueTopics.Worker.Add | src/esl/queue-worker.service.ts:90-177 | a topic gets one queue, made at the end of the parallel arrays, so that indices stay valid, and its key is cached |
| QueueTopics.Worker.GetQueueByName | src/esl/queue-worker.service.ts:179-190 | the queue of a topic, if it has one |
| QueueTopics.Worker.ReadyCacheBullQueue | src/esl/queue-worker.service.ts:192-208 | recovery adds exactly the topics the cached keys read back as, and keeps the others |
| QueueTopics.KeyRoundTrip | src/esl/queue-worker.service.ts:197-201 | a cached key reads back its own topic when the queue number holds no "::", and else nothing |
| QueueTopics.RecoversParts | src/esl/queue-worker.service.ts:192-208 | any key of four parts is recovered, by the number its third part starts with, or NaN, and its fourth; a key of fewer parts is not |
| QueueTopics.KeySpelled | src/esl/queue-worker.service.ts:210-213 | a cached key is its two prefixes, the tenant's number and the queue's number, joined by "::" |
| QueueTopics.TopicsDistinct | src/esl/queue-worker.service.ts:90-100 | a topic belongs to one tenant and one queue number |
| QueueTopics.RecoveryExact | src/esl/queue-worker.service.ts:192-222 | recovery from the keys in any order rebuilds exactly the topics asked for if and only if no queue number holds "::" |
| Hangup.AttributedOnce | src/esl/ccqueue.service.ts:247-415 | in every interleaving at most one handler passes the latch and at most one case is written, its own; the result never has both a caller hangup and the satisfaction IVR, which needs an agent hangup that found the caller there, also before the handlers listened |
| Hangup.ResolvedBy | src/esl/ccqueue.service.ts:345-411 | the promise resolves only by the end of the agent's handler or a disconnect that passed the latch and lingers |
| Hangup.SettledByAgent | src/esl/ccqueue.service.ts:247-349 | in every interleaving the promise is settled once the agent's handler is over, resolved if nothing failed, and never changes again; a waiting handler is over after five awaits |
| Hangup.WrittenExactly | src/esl/ccqueue.service.ts:266-390 | in every interleaving without failures the handler that passed the latch and is over has written exactly its case; the satisfaction IVR follows if and only if the queue wants it and the caller had not hung up before; once the caller hung up the latch is passed |
| Hangup.AgentPaces | src/esl/ccqueue.service.ts:266-349 | in every interleaving without failures the agent's handler, if it passed the latch, is over exactly when four of its awaits ended, five with the satisfaction IVR, and has written its case exactly when all but the last did; if not, it is over exactly when the first ended |
| Hangup.FailureRejects | src/esl/ccqueue.service.ts:340-390 | a handler whose await fails is over and rejects a promise that is pending |
| Hangup.DisconnectLingers | src/esl/ccqueue.service.ts:392-411 | the first disconnect of the call's own session passes an open latch and lingers if told to, and the promise is settled when that time is over; one of another session does nothing |
| Hangup.DisconnectRejects | src/esl/free-switch-pbx.service.ts:917-925 | as registered, with the connection number in place of the event, the disconnect handler never passes the latch or lingers: a disconnect rejects a promise that is not settled |
| Hangup.AfterBridge.AgentResume | src/esl/ccqueue.service.ts:266-349 | the agent's handler from one await to the next |
| Hangup.AfterBridge.OnCallerHangup | src/esl/ccqueue.service.ts:351-390 | the caller's handler up to its first await |
| Hangup.AfterBridge.OnDisconnect | src/esl/ccqueue.service.ts:392-415 | the disconnect handler: with an event of the call's own session it passes the latch and may linger; without an event it throws, and the promise is rejected |
| Mos.ScoreBounds | web/src/vsip/helpers/webrtcmetrics/utils/score.js:4-14 | every score lies between 0.98 and 4.5 and the branches meet at 0 and 100 |
| Mos.RisesExactly | web/src/vsip/helpers/webrtcmetrics/utils/score.js:13 | from a rating up to 100 the score does not fall if and only if 3 r r - 320 r + 1000 is not positive there, as at 4 and not at 0 |
| Mos.MeanGrows | web/src/vsip/helpers/webrtcmetrics/utils/score.js:37-67 | a sample that is not there does not count, one that is weighs as much as each before it, and without any the default stands |
| Mos.DelayCosts | web/src/vsip/helpers/webrtcmetrics/utils/score.js:71-74 | a millisecond of delay costs 0.024 up to 177.3 and 0.134 beyond |
| Mos.RatingIs | web/src/vsip/helpers/webrtcmetrics/utils/score.js:68-76 | without loss and delay the rating is 89.8632, and delay is half of round trip and half of jitter |
| Mos.EModelMos | web/src/vsip/helpers/webrtcmetrics/utils/score.js:64-78 | the score of a report from the means of the samples that are there, within the bounds |
| Mos.DelayHurts | web/src/vsip/helpers/webrtcmetrics/utils/score.js:71-78 | more delay never raises the score up to a limit if and only if the limit is 0, the rating without delay is not positive, or the rating at the limit is above 100 or not below 0 and where the score rises |
| Mos.LossHurts | web/src/vsip/helpers/webrtcmetrics/utils/score.js:68-69 | more loss never raises the loss term within [0, limit] if and only if the limit is at most 15.7 |

## Left out

- Sockets, Redis, Bull, repositories, controllers, guards, logging and HTTP: parameters, or not modelled.
- Wildcards of EventEmitter2: listeners are found by exact name. An event whose own name and id spell the name of another topic is not considered.
- XML and JSON event bodies, and the `Modesl-Reply-...` headers added to replies: an event is the headers and body it was emitted with; whether building it throws is a parameter of the framer.
- EventCodec.PrintParse: asks that header names and texts are ASCII without newline, that texts have no '%', that names hold no ": " and are none of the two skipped ones, `__proto__` or `_body`, and that the first name does not start with white space; each is a guard of the reading code. The order of the headers is not restated, since integer-like names move to the front of a JavaScript object.
- EventCodec.PlainSays: asks that the header text is ASCII, because the source cuts bytes at a place counted in characters.
- Integers are unbounded; a Content-Length beyond 2^53 is not rounded.
- `execAsync`, `execLock` and the texts of commands other than their kind: they do not take part in pairing.
- A listener of a caller that calls `bgapi` with the id of the job whose event is being emitted.
- Message objects are values inside their chat; the alias a caller keeps to a message it inserted is not modelled. Chats are objects.
- `activeChat`, loading mode and `refreshChats`; target ids are numbers, and the one user's key prefix is implicit. The key-value store does each operation at once, in order.
- ChatStoreObject.ChatStore.MoveTop: asks for an index of a chat, as its callers give; another index puts an undefined chat in the list.
- Actions of the IVR other than their outcome: digits, dates, web calls and comparisons. The service's main IVR is kept for one call.
- QueueTopics.RecoversParts: `parseInt` without a base would read hexadecimal numbers, which is not modelled; tenants are cached in decimal.
- WaitTurn sees the stop flag once a round; the waiting between looks is not modelled.
- Agent locks expire by time and agent states are written under another number than they are read, so that two calls never get the same agent is not claimed.
- The random strategy: its shuffle does not round its index.
- The queue statistics themselves: a write is noted when it is issued.
- `computeMOS`, with its logarithm, and how samples are taken out of reports; floating-point rounding.
