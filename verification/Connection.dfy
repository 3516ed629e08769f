/** The `Connection` object: its two callback queues, its listeners and what it writes. Every method
    changes the object as `EslClient` says. */
module EslConnection {
  import opened Strings
  import E = EslClient

  class Connection {
    var inbound: bool
    var cmdCallbackQueue: seq<E.Slot>
    var apiCallbackQueue: seq<E.Slot>
    var usingFilters: bool
    var jobs: seq<E.JobCall>
    var jobListeners: seq<E.JobCall>
    var executeCallbacks: map<string, nat>
    var executeHandlers: set<string>
    var executeListeners: seq<string>

    // What was written to the socket and with which callback, which slots were taken, and which callbacks ran.
    var written: seq<E.Command>
    var callbacks: seq<E.Callback>
    var taken: seq<(nat, nat)>
    var fired: seq<E.Fired>

    ghost function Client(): E.Client
      reads this
    {
      E.Client(inbound, cmdCallbackQueue, apiCallbackQueue, usingFilters, jobs, jobListeners,
               executeCallbacks, executeHandlers, executeListeners, written, callbacks, taken, fired)
    }

    constructor (inbound: bool)
      ensures Client() == E.Fresh(inbound)
    {
      this.inbound := inbound;
      cmdCallbackQueue, apiCallbackQueue, usingFilters := [], [], false;
      jobs, jobListeners := [], [];
      executeCallbacks, executeHandlers, executeListeners := map[], {}, [];
      written := if inbound then [] else [E.Connect];
      callbacks := if inbound then [] else [E.NoCallback];
      taken, fired := [], [];
    }

    method Send(cmd: E.Command, callback: E.Callback)
      modifies this
      ensures Client() == E.Send(old(Client()), cmd, callback)
    {
      callbacks := callbacks + [callback];
      written := written + [cmd];
    }

    method SendRecv(cmd: E.Command, callback: E.Callback)
      modifies this
      ensures Client() == E.SendRecv(old(Client()), cmd, callback)
    {
      cmdCallbackQueue := cmdCallbackQueue + [E.Slot(callback, |written|)];
      Send(cmd, callback);
    }

    method Api(text: string, callback: E.Callback)
      modifies this
      ensures Client() == E.Api(old(Client()), text, callback)
    {
      apiCallbackQueue := apiCallbackQueue + [E.Slot(callback, |written|)];
      Send(E.ApiCall(text), callback);
    }

    method Filter(header: string, value: string, callback: E.Callback)
      modifies this
      ensures Client() == E.Filter(old(Client()), header, value, callback)
    {
      usingFilters := true;
      SendRecv(E.FilterAdd(header, value), callback);
    }

    method FilterDelete(header: string, value: string, callback: E.Callback)
      modifies this
      ensures Client() == E.DeleteFilter(old(Client()), header, value, callback)
    {
      SendRecv(E.FilterDelete(header, value), callback);
    }

    method Bgapi(text: string, jobId: string, hasCallback: bool)
      modifies this
      ensures Client() == E.Bgapi(old(Client()), text, jobId, hasCallback)
    {
      var job := E.JobCall(|jobs|, text, jobId, hasCallback, usingFilters);
      jobs := jobs + [job];
      if usingFilters {
        Filter(E.JOB, jobId, E.StartJob(job));
      } else {
        StartJob(job);
      }
    }

    method StartJob(job: E.JobCall)
      modifies this
      ensures Client() == E.Start(old(Client()), job)
    {
      if job.hasCallback {
        jobListeners := jobListeners + [job];
      } else if job.filtered {
        FilterDelete(E.JOB, job.jobId, E.NoCallback);
      }
      SendRecv(E.BgApi(job), E.NoCallback);
    }

    method Run(slot: E.Slot, reply: nat)
      modifies this
      ensures Client() == E.Run(old(Client()), slot, reply)
    {
      match slot.callback
      case NoCallback =>
      case User(id) => fired := fired + [E.UserFired(id, slot.command, reply)];
      case StartJob(job) => StartJob(job);
      case EndJob(job, event) => fired := fired + [E.JobFired(job, event, Some((slot.command, reply)))];
    }

    method OnCommandReply(reply: nat)
      modifies this
      ensures Client() == E.CommandReply(old(Client()), reply)
    {
      if |cmdCallbackQueue| == 0 {
        return;
      }
      var slot := cmdCallbackQueue[0];
      cmdCallbackQueue := cmdCallbackQueue[1..];
      taken := taken + [(slot.command, reply)];
      Run(slot, reply);
    }

    method OnApiResponse(reply: nat)
      modifies this
      ensures Client() == E.ApiResponse(old(Client()), reply)
    {
      if |apiCallbackQueue| == 0 {
        return;
      }
      var slot := apiCallbackQueue[0];
      apiCallbackQueue := apiCallbackQueue[1..];
      taken := taken + [(slot.command, reply)];
      Run(slot, reply);
    }

    /** Emitting `BACKGROUND_JOB::jobId` runs the `once` listeners of that name. */
    method OnBackgroundJob(jobId: string)
      modifies this
      ensures Client() == E.JobEvent(old(Client()), jobId)
    {
      var mine := E.Listening(jobListeners, jobId, true);
      jobListeners := E.Listening(jobListeners, jobId, false);
      var i := 0;
      while i < |mine|
        invariant 0 <= i <= |mine|
        invariant E.JobsOver(Client(), mine[i..], jobId) == E.JobEvent(old(Client()), jobId)
      {
        assert mine[i..][1..] == mine[i + 1..];
        JobOver(mine[i], jobId);
        i := i + 1;
      }
    }

    method JobOver(job: E.JobCall, event: string)
      modifies this
      ensures Client() == E.JobOver(old(Client()), job, event)
    {
      if job.filtered {
        FilterDelete(E.JOB, job.jobId, E.EndJob(job, event));
      } else {
        fired := fired + [E.JobFired(job, event, None)];
      }
    }

    method DoExec(channel: string, eventUuid: string, callback: Option<nat>)
      modifies this
      ensures Client() == E.Execute(old(Client()), channel, eventUuid, callback)
    {
      if callback.Some? {
        executeCallbacks := executeCallbacks[eventUuid := callback.value];
      } else {
        executeCallbacks := executeCallbacks - {eventUuid};
      }
      if channel !in executeHandlers {
        executeHandlers := executeHandlers + {channel};
        executeListeners := executeListeners + [channel];
      }
      Send(E.SendMsg(channel, eventUuid), E.NoCallback);
    }

    /** Emitting `CHANNEL_EXECUTE_COMPLETE::channel` runs every listener of that name. */
    method OnExecuteComplete(channel: string, eventUuid: string)
      modifies this
      ensures Client() == E.ExecuteComplete(old(Client()), old(executeListeners), channel, eventUuid)
    {
      var i := 0;
      while i < |executeListeners|
        invariant 0 <= i <= |executeListeners| && executeListeners == old(executeListeners)
        invariant E.ExecuteComplete(Client(), executeListeners[i..], channel, eventUuid) ==
                  E.ExecuteComplete(old(Client()), old(executeListeners), channel, eventUuid)
      {
        assert executeListeners[i..][1..] == executeListeners[i + 1..];
        if executeListeners[i] == channel && eventUuid in executeCallbacks {
          fired := fired + [E.ExecuteFired(eventUuid, executeCallbacks[eventUuid])];
        }
        i := i + 1;
      }
    }

    method OnEvent(e: E.Incoming, reply: nat)
      modifies this
      ensures Client() == E.OnEvent(old(Client()), e, reply)
    {
      match E.TopicOf(inbound, e)
      case CommandReplyTopic => OnCommandReply(reply);
      case ApiResponseTopic => OnApiResponse(reply);
      case Named(name, uuid) =>
        if name == "BACKGROUND_JOB" && uuid != "" {
          OnBackgroundJob(uuid);
        } else if name == "CHANNEL_EXECUTE_COMPLETE" && uuid != "" {
          OnExecuteComplete(uuid, E.ExecutedId(e));
        }
      case _ =>
    }
  }
}
