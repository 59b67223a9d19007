/** Intent epochs order the Start and Stop requests of a UI process; the OS-stop
    fence holds new starts back until the system confirmed a stop. */
module StopFence {
  import opened Lists

  const EPOCH_MAX: nat := 0xffff_ffff_ffff_ffff

  /** Raised while `epoch` is not 0. */
  datatype OsStop = OsStop(epoch: nat, attempt: string, inFlight: bool)

  /** A fence can be put in flight only by the current intent: an existing one for
      exactly its own attempt, a new one only for no attempt at all. */
  predicate MayBegin(intent: nat, stop: OsStop, epoch: nat, attempt: string) {
    && epoch != 0 && intent == epoch && !stop.inFlight
    && if stop.epoch == 0 then attempt == "" else stop.epoch == epoch && stop.attempt == attempt
  }

  predicate InFlightFor(stop: OsStop, epoch: nat, attempt: string) {
    stop == OsStop(epoch, attempt, true)
  }

  class Intents {
    var intent: nat
    var stop: OsStop

    ghost predicate Valid()
      reads this
    {
      intent <= EPOCH_MAX && (stop.inFlight ==> stop.epoch != 0) && (stop.epoch == 0 ==> stop == OsStop(0, "", false))
    }

    constructor ()
      ensures Valid() && intent == 0 && stop == OsStop(0, "", false)
    {
      intent, stop := 0, OsStop(0, "", false);
    }

    method AdvanceIntent() returns (epoch: Option<nat>)
      requires Valid()
      modifies this`intent
      ensures Valid()
      ensures epoch.None? <==> old(intent) == EPOCH_MAX
      ensures if epoch.None? then intent == old(intent) else epoch == Some(intent) && intent == old(intent) + 1
    {
      if intent == EPOCH_MAX {
        return None;
      }
      intent := intent + 1;
      return Some(intent);
    }

    method IsStopCurrent(epoch: nat, attempt: string) returns (current: bool)
      ensures current <==> epoch != 0 && intent == epoch && stop == OsStop(epoch, attempt, false)
    {
      var exact := stop.epoch == epoch && stop.attempt == attempt;
      return epoch > 0 && intent == epoch && exact && !stop.inFlight;
    }

    method BeginOsStop(epoch: nat, attempt: string) returns (begun: bool)
      requires Valid()
      modifies this`stop
      ensures Valid() && (begun <==> MayBegin(intent, old(stop), epoch, attempt))
      ensures begun <==> && epoch != 0 && intent == epoch
                         && (old(stop) == OsStop(epoch, attempt, false) || (old(stop) == OsStop(0, "", false) && attempt == ""))
      ensures stop == if begun then OsStop(epoch, attempt, true) else old(stop)
    {
      if epoch == 0 || intent != epoch || stop.inFlight {
        return false;
      }
      if stop.epoch == 0 {
        if attempt != "" {
          return false;
        }
        stop := stop.(epoch := epoch, attempt := "");
      } else if stop.epoch != epoch || stop.attempt != attempt {
        return false;
      }
      stop := stop.(inFlight := true);
      return true;
    }

    method CompleteOsStop(epoch: nat, attempt: string) returns (completed: bool)
      requires Valid()
      modifies this`stop
      ensures Valid() && (completed <==> InFlightFor(old(stop), epoch, attempt))
      ensures completed <==> old(stop) == OsStop(epoch, attempt, true)
      ensures stop == if completed then OsStop(0, "", false) else old(stop)
    {
      if stop.epoch != epoch || stop.attempt != attempt || !stop.inFlight {
        return false;
      }
      stop := OsStop(0, "", false);
      return true;
    }

    method FailOsStop(epoch: nat, attempt: string) returns (failed: bool)
      requires Valid()
      modifies this`stop
      ensures Valid() && (failed <==> InFlightFor(old(stop), epoch, attempt))
      ensures failed <==> old(stop) == OsStop(epoch, attempt, true)
      ensures stop == if failed then OsStop(epoch, attempt, false) else old(stop)
    {
      if stop.epoch != epoch || stop.attempt != attempt || !stop.inFlight {
        return false;
      }
      stop := stop.(inFlight := false);
      return true;
    }
  }
}
