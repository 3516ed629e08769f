/** The event-socket client as a value: what each operation of the connection does to its queues,
    listeners and socket. The numbers in slots and on job calls are not in the source; they name
    the command a callback was queued for, and the closures of one `bgapi` call. */
module EslClient {
  import opened Strings

  const JOB := "Job-UUID"

  datatype Command =
    | Plain(text: string)
    | FilterAdd(header: string, value: string)
    | FilterDelete(header: string, value: string)
    | BgApi(job: JobCall)
    | ApiCall(text: string)
    | SendMsg(channel: string, eventUuid: string)
    | Exit
    | Connect

  datatype Queue = Commands | Apis | Nowhere

  /** Where the callback of a command waits; `sendmsg`, `exit` and `connect` are sent without one. */
  function QueueOf(cmd: Command): Queue {
    match cmd
    case Plain(_) => Commands
    case FilterAdd(_, _) => Commands
    case FilterDelete(_, _) => Commands
    case BgApi(_) => Commands
    case ApiCall(_) => Apis
    case _ => Nowhere
  }

  /** A callback: the caller's, or one of the two closures `bgapi` makes. */
  datatype Callback = NoCallback | User(id: nat) | StartJob(job: JobCall) | EndJob(job: JobCall, event: string)

  datatype Slot = Slot(callback: Callback, command: nat)

  /** What one `bgapi` call closes over. */
  datatype JobCall = JobCall(call: nat, text: string, jobId: string, hasCallback: bool, filtered: bool)

  /** A callback that ran: the command it was queued for, and the one on whose answer it ran. `deletion` holds both
      for a job, where the command deletes the job's filter. */
  datatype Fired =
    | UserFired(id: nat, command: nat, reply: nat)
    | JobFired(job: JobCall, event: string, deletion: Option<(nat, nat)>)
    | ExecuteFired(eventUuid: string, id: nat)

  datatype Client = Client(
    inbound: bool,
    cmdQueue: seq<Slot>,
    apiQueue: seq<Slot>,
    usingFilters: bool,
    jobs: seq<JobCall>,
    jobListeners: seq<JobCall>,
    executeCallbacks: map<string, nat>,
    executeHandlers: set<string>,
    executeListeners: seq<string>,
    written: seq<Command>,
    callbacks: seq<Callback>,
    taken: seq<(nat, nat)>,
    fired: seq<Fired>)

  /** A connection right after its socket is up; an outbound one has sent `connect`. */
  function Fresh(inbound: bool): Client {
    Client(inbound, [], [], false, [], [], map[], {}, [], if inbound then [] else [Connect],
           if inbound then [] else [NoCallback], [], [])
  }

  /* ---- operations ---- */

  /** A command is written; `callback` is the one queued for it. */
  function Send(c: Client, cmd: Command, callback: Callback): Client {
    c.(written := c.written + [cmd], callbacks := c.callbacks + [callback])
  }

  function SendRecv(c: Client, cmd: Command, callback: Callback): Client {
    Send(c.(cmdQueue := c.cmdQueue + [Slot(callback, |c.written|)]), cmd, callback)
  }

  function Api(c: Client, text: string, callback: Callback): Client {
    Send(c.(apiQueue := c.apiQueue + [Slot(callback, |c.written|)]), ApiCall(text), callback)
  }

  function Filter(c: Client, header: string, value: string, callback: Callback): Client {
    SendRecv(c.(usingFilters := true), FilterAdd(header, value), callback)
  }

  function DeleteFilter(c: Client, header: string, value: string, callback: Callback): Client {
    SendRecv(c, FilterDelete(header, value), callback)
  }

  function Bgapi(c: Client, text: string, jobId: string, hasCallback: bool): Client {
    var job := JobCall(|c.jobs|, text, jobId, hasCallback, c.usingFilters);
    var c' := c.(jobs := c.jobs + [job]);
    if job.filtered then Filter(c', JOB, jobId, StartJob(job)) else Start(c', job)
  }

  /** The closure run once the job's filter is in place: listen, then send the command. */
  function Start(c: Client, job: JobCall): Client {
    var c' :=
      if job.hasCallback then c.(jobListeners := c.jobListeners + [job])
      else if job.filtered then DeleteFilter(c, JOB, job.jobId, NoCallback)
      else c;
    SendRecv(c', BgApi(job), NoCallback)
  }

  /** The `once` listener of a job. */
  function JobOver(c: Client, job: JobCall, event: string): Client {
    if job.filtered then DeleteFilter(c, JOB, job.jobId, EndJob(job, event))
    else c.(fired := c.fired + [JobFired(job, event, None)])
  }

  function JobsOver(c: Client, jobs: seq<JobCall>, event: string): Client
    decreases |jobs|
  {
    if jobs == [] then c else JobsOver(JobOver(c, jobs[0], event), jobs[1..], event)
  }

  /** The listeners of a job id, or those of the other ids. */
  function Listening(listeners: seq<JobCall>, jobId: string, wanted: bool): seq<JobCall> {
    if listeners == [] then []
    else
      (if (listeners[0].jobId == jobId) == wanted then [listeners[0]] else []) +
      Listening(listeners[1..], jobId, wanted)
  }

  /** A `BACKGROUND_JOB::jobId` event: every listener of that name is removed and run, in order. */
  function JobEvent(c: Client, jobId: string): Client
  {
    JobsOver(c.(jobListeners := Listening(c.jobListeners, jobId, false)), Listening(c.jobListeners, jobId, true), jobId)
  }

  /** The callback of a slot runs on the answer to command number `reply`. */
  function Run(c: Client, slot: Slot, reply: nat): Client
  {
    match slot.callback
    case NoCallback => c
    case User(id) => c.(fired := c.fired + [UserFired(id, slot.command, reply)])
    case StartJob(job) => Start(c, job)
    case EndJob(job, event) => c.(fired := c.fired + [JobFired(job, event, Some((slot.command, reply)))])
  }

  /** The first slot of a queue taken out of it. */
  function PopCommand(c: Client, reply: nat): Client
    requires c.cmdQueue != []
  {
    c.(cmdQueue := c.cmdQueue[1..], taken := c.taken + [(c.cmdQueue[0].command, reply)])
  }

  function PopApi(c: Client, reply: nat): Client
    requires c.apiQueue != []
  {
    c.(apiQueue := c.apiQueue[1..], taken := c.taken + [(c.apiQueue[0].command, reply)])
  }

  /** A `command/reply` event: the answer to command number `reply` takes the first slot. */
  function CommandReply(c: Client, reply: nat): Client
  {
    if c.cmdQueue == [] then c else Run(PopCommand(c, reply), c.cmdQueue[0], reply)
  }

  /** An `api/response` event. */
  function ApiResponse(c: Client, reply: nat): Client
  {
    if c.apiQueue == [] then c else Run(PopApi(c, reply), c.apiQueue[0], reply)
  }

  /** `_doExec`; None stands for no callback. */
  function Execute(c: Client, channel: string, eventUuid: string, callback: Option<nat>): Client {
    var callbacks :=
      if callback.Some? then c.executeCallbacks[eventUuid := callback.value] else c.executeCallbacks - {eventUuid};
    var c' := c.(executeCallbacks := callbacks);
    Send(if channel in c.executeHandlers then c'
         else c'.(executeHandlers := c.executeHandlers + {channel}, executeListeners := c.executeListeners + [channel]),
         SendMsg(channel, eventUuid), NoCallback)
  }

  /** A `CHANNEL_EXECUTE_COMPLETE::channel` event: every listener of that name runs. */
  function ExecuteComplete(c: Client, listeners: seq<string>, channel: string, eventUuid: string): Client
    decreases |listeners|
  {
    if listeners == [] then c
    else
      var c' := if listeners[0] == channel && eventUuid in c.executeCallbacks
                then c.(fired := c.fired + [ExecuteFired(eventUuid, c.executeCallbacks[eventUuid])]) else c;
      ExecuteComplete(c', listeners[1..], channel, eventUuid)
  }

  /* ---- events from the socket ---- */

  /** The headers `_onEvent` looks at; "" stands for a missing one. */
  datatype Incoming = Incoming(
    contentType: string, eventName: string, jobUuid: string, uniqueId: string, coreUuid: string,
    applicationUuid: string, eventUuid: string)

  /** The name an event is emitted under; `Unheard` stands for the names this object does not listen to. */
  datatype Topic = CommandReplyTopic | ApiResponseTopic | ChannelData | Named(name: string, uuid: string) | Unheard

  function Uuid(e: Incoming): string {
    if e.jobUuid != "" then e.jobUuid else if e.uniqueId != "" then e.uniqueId else e.coreUuid
  }

  function TopicOf(inbound: bool, e: Incoming): Topic {
    match e.contentType
    case "command/reply" => if e.eventName == "CHANNEL_DATA" && !inbound then ChannelData else CommandReplyTopic
    case "api/response" => ApiResponseTopic
    case "text/event-json" => Named(e.eventName, Uuid(e))
    case "text/event-plain" => Named(e.eventName, Uuid(e))
    case "text/event-xml" => Named(e.eventName, Uuid(e))
    case _ => Unheard
  }

  /** The id of the `execute` a completion is for. */
  function ExecutedId(e: Incoming): string { if e.applicationUuid != "" then e.applicationUuid else e.eventUuid }

  /** `_onEvent`; `reply` is the number of the command an answer is for. Listeners of a job or a channel hear only
      names that end with an id. */
  function OnEvent(c: Client, e: Incoming, reply: nat): Client
  {
    match TopicOf(c.inbound, e)
    case CommandReplyTopic => CommandReply(c, reply)
    case ApiResponseTopic => ApiResponse(c, reply)
    case Named(name, uuid) =>
      if name == "BACKGROUND_JOB" && uuid != "" then JobEvent(c, uuid)
      else if name == "CHANNEL_EXECUTE_COMPLETE" && uuid != "" then
        ExecuteComplete(c, c.executeListeners, uuid, ExecutedId(e))
      else c
    case _ => c
  }
}
