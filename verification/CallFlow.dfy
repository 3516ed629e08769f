/** The IVR service and the dial methods around it, changing the run data of one connection. Every
    method ends as the functions of `Ivr` say. */
module CallFlow {
  import opened Strings
  import opened Ivr

  class Flow {
    const world: World

    // The run data of the connection, the service's main IVR, and the actions executed.
    var ivrCurrentDeep: nat
    var ivrMaxDeep: nat
    var answered: bool
    var mainIvrNumber: string
    var trace: seq<Position>

    function Run(): Call
      reads this
    {
      Call(ivrCurrentDeep, ivrMaxDeep, answered, trace, mainIvrNumber)
    }

    /** `initData`. */
    constructor (world: World)
      ensures Run() == FRESH && this.world == world
    {
      this.world := world;
      ivrCurrentDeep, ivrMaxDeep, answered, mainIvrNumber, trace := 0, 100, false, "", [];
    }

    method IncreaseIvrCurrentDeep(number: nat)
      modifies this`ivrCurrentDeep
      ensures ivrCurrentDeep == old(ivrCurrentDeep) + number
    {
      ivrCurrentDeep := ivrCurrentDeep + number;
    }

    method IvrAction(ivrNumber: string, ordinal: int) returns (o: Outcome)
      modifies this
      ensures (Run(), o) == Ivr.IvrAction(world, old(Run()), (ivrNumber, ordinal))
      decreases ivrMaxDeep - ivrCurrentDeep
    {
      if ivrCurrentDeep >= ivrMaxDeep {
        return Rejected(TooDeep);
      }
      var count := |trace|;
      var row := world.row(count, (ivrNumber, ordinal));
      if row == None {
        return Done(NORMAL);
      }
      if mainIvrNumber == "" {
        mainIvrNumber := ivrNumber;
      }
      trace := trace + [(ivrNumber, ordinal)];
      IncreaseIvrCurrentDeep(1);
      var result := DoneAction(world, count, row.value);
      if result == None {
        return Rejected(Failed);
      }
      if result.value.nextType != "ivr" {
        return Done(result.value);
      }
      var gotoIvrNumber, gotoIvrActId := ivrNumber, ordinal + 1;
      if result.value.nextArgs.Some? && result.value.nextArgs.value != "" {
        var args2 := Split(result.value.nextArgs.value, ",");
        gotoIvrNumber := args2[0];
        var n := if |args2| > 1 then world.number(args2[1]) else None;
        gotoIvrActId := if n.Some? && n.value != 0 then n.value else 1;
      }
      o := IvrAction(gotoIvrNumber, gotoIvrActId);
    }

    method DialLocal(number: string) returns (failure: Option<Reason>)
      modifies this
      ensures (Run(), failure) == Ivr.DialLocal(world, old(Run()), number)
      decreases ivrMaxDeep - ivrCurrentDeep, 1
    {
      if '@' in number {
        return Some(OtherTenant);
      }
      var localType := world.localType(|trace|, number);
      if localType == None {
        return Some(UnknownNumber);
      }
      if localType.value == "ivr" {
        failure := DialIvr(number);
      } else if localType.value == "extension" {
        failure := if world.extension(|trace|, number) then None else Some(Failed);
      } else if localType.value == "queue" {
        failure := DialQueue(number);
      } else {
        failure := None;
      }
    }

    method DialIvr(number: string) returns (failure: Option<Reason>)
      modifies this
      ensures (Run(), failure) == Ivr.DialIvr(world, old(Run()), number)
      decreases ivrMaxDeep - ivrCurrentDeep, 0
    {
      if !answered {
        if !world.answers(|trace|) {
          return Some(Failed);
        }
        answered := true;
      }
      var o := IvrAction(number, 1);
      if o.Done? && o.result.nextType == "diallocal" {
        failure := DialLocal(Shown(o.result.nextArgs));
      } else {
        failure := Finished(o);
      }
    }

    method DialQueue(number: string) returns (failure: Option<Reason>)
      modifies this
      ensures (Run(), failure) == Ivr.DialQueue(world, old(Run()), number)
    {
      var result := world.queue(|trace|, number);
      if result == None {
        return Some(Failed);
      }
      if result.value.gotoIvrNumber == "" {
        return None;
      }
      var o := IvrAction(result.value.gotoIvrNumber, result.value.gotoIvrActId);
      failure := Finished(o);
    }
  }
}
