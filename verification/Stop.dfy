/** Stopping a process, tier by tier, and asking the operating system about it while pids are recycled. */
module Stop {
  import opened Common

  datatype Target = Target(pid: nat, created: int)

  datatype Holder = Holder(created: int, exited: bool, code: int)

  datatype Access = Allowed | Denied | Broken

  /** What a call finds under the target's pid at one moment: who holds the pid, whether the process may be opened,
      which of the queries fail, and whether the caller's context has been cancelled. */
  datatype Slot = Slot(
    holder: Option<Holder>, access: Access, timesFail: bool, codeFails: bool, waitFails: bool, cancelled: bool)

  datatype Method = Endpoint | CtrlC | Terminate

  datatype Error = NotRunning | CallFailed | Survived

  datatype Answer = Yes | No | Unknown

  datatype Result = StoppedBy(how: Method) | Refused(error: Error)

  const STILL_ACTIVE := 259
  const DEFAULT_GRACE := 30_000      // milliseconds
  const TERMINATE_GRACE := 10_000
  const SLICE := 200

  predicate StillRuns(s: Slot, t: Target) {
    s.holder.Some? && s.holder.value.created == t.created && !s.holder.value.exited
  }

  /** The process is there, but it cannot be opened or told from a later holder of its pid. */
  predicate Hidden(s: Slot, t: Target) {
    StillRuns(s, t) && (s.access != Allowed || s.timesFail)
  }

  predicate FaultFree(s: Slot) {
    && s.access == Allowed && !s.timesFail && !s.codeFails && !s.waitFails && !s.cancelled
    && (s.holder.Some? ==> s.holder.value.code != STILL_ACTIVE)
  }

  /** winproc.Alive */
  function AliveAnswer(s: Slot, t: Target): Answer {
    if t.pid == 0 || s.holder.None? || s.access == Denied then No
    else if s.access == Broken then Unknown
    else if s.holder.value.exited && !s.codeFails && s.holder.value.code != STILL_ACTIVE then No
    else if s.timesFail then Unknown
    else if t.created != 0 && s.holder.value.created != t.created then No
    else Yes
  }

  /** A recycled pid is told apart, and an exited process is not taken for a running one. */
  lemma AliveIsRunning(s: Slot, t: Target)
    requires t.pid != 0 && t.created != 0
    ensures FaultFree(s) ==> AliveAnswer(s, t) == if StillRuns(s, t) then Yes else No
    ensures AliveAnswer(s, t) == No ==> !StillRuns(s, t) || s.access == Denied
    ensures AliveAnswer(s, t) == Yes ==> StillRuns(s, t) || s.holder.value.exited
  {
  }

  class Host {
    const at: nat -> Slot
    var clock: nat
    var waited: nat        // milliseconds spent waiting
    var kills: seq<nat>    // what had been waited when a process was killed

    constructor (at: nat -> Slot)
      ensures this.at == at && clock == 0 && waited == 0 && kills == []
    {
      this.at, clock, waited, kills := at, 0, 0, [];
    }

    /** The target does not come back: a pid is never reused with the same creation time. */
    ghost predicate Irreversible(t: Target) {
      forall i, j :: i <= j && !StillRuns(at(i), t) ==> !StillRuns(at(j), t)
    }

    ghost predicate HiddenSince(t: Target, from: nat)
      reads this
    {
      exists m :: from <= m < clock && Hidden(at(m), t)
    }

    ghost predicate FaultFreeSince(from: nat)
      reads this
    {
      forall m :: from <= m < clock ==> FaultFree(at(m))
    }

    method Alive(t: Target) returns (a: Answer)
      modifies this`clock
      ensures clock == old(clock) + 1
      ensures a == AliveAnswer(at(old(clock)), t)
    {
      a := AliveAnswer(at(clock), t);
      clock := clock + 1;
    }

    /** Waits in slices, so that a cancelled context is noticed. Yes means gone, No means the whole time is over. */
    method WaitExit(t: Target, timeout: nat) returns (gone: Answer)
      requires t.created != 0 && timeout > 0
      modifies this`clock, this`waited
      ensures clock > old(clock)
      ensures old(waited) <= waited <= old(waited) + timeout
      ensures gone == No ==> waited == old(waited) + timeout
      ensures gone == Yes ==> !StillRuns(at(clock - 1), t) || Hidden(at(old(clock)), t)
      ensures gone == No ==> StillRuns(at(clock - 1), t)
      ensures gone == Unknown ==> exists m :: old(clock) <= m < clock && !FaultFree(at(m))
    {
      var s := at(clock);
      clock := clock + 1;
      if s.holder.None? || s.access != Allowed {
        return Yes;
      }
      if s.timesFail || s.holder.value.created != t.created {
        return Yes;
      }
      var remaining: int := timeout;
      while true
        invariant clock > old(clock)
        invariant remaining < timeout ==> StillRuns(at(clock - 1), t)
        invariant 0 <= remaining <= timeout && waited == old(waited) + timeout - remaining
        decreases remaining
      {
        if remaining <= 0 {
          return No;
        }
        var slice := if remaining < SLICE then remaining else SLICE;
        s := at(clock);
        clock := clock + 1;
        if s.waitFails {
          return Unknown;
        }
        if !StillRuns(s, t) {
          return Yes;
        }
        waited := waited + slice;
        if s.cancelled {
          return Unknown;
        }
        remaining := remaining - slice;
      }
    }

    /** Looks once more before it kills. */
    method TerminateProcess(t: Target, works: bool) returns (failure: Option<Error>)
      modifies this`clock, this`kills
      ensures clock > old(clock)
      ensures kills == if failure == None then old(kills) + [waited] else old(kills)
      ensures failure == Some(NotRunning) <==> AliveAnswer(at(old(clock)), t) == No
      ensures failure == None <==> works && AliveAnswer(at(old(clock)), t) == Yes
      ensures failure in {None, Some(NotRunning), Some(CallFailed)}
    {
      var alive := Alive(t);
      if alive == Unknown {
        return Some(CallFailed);
      }
      if alive == No {
        return Some(NotRunning);
      }
      if !works {
        return Some(CallFailed);
      }
      kills := kills + [waited];
      return None;
    }

    /** How long each graceful tier is given. */
    function Grace(graceOption: int): nat {
      if graceOption <= 0 then DEFAULT_GRACE else graceOption
    }

    /** Asks the app, then the console, then kills. A stop that succeeded means that the process is gone, unless it was
        hidden at some moment; it fails as not running only if the process is gone or may not be opened; and if no call
        fails, it otherwise only fails for a process that outlived being killed. It kills last, once, and only after
        every tier that was accepted or delivered has had its whole grace. */
    method Stop(t: Target, graceOption: int, hasEndpoint: bool, accepted: bool, delivered: bool, killable: bool)
      returns (r: Result)
      requires t.pid != 0 && t.created != 0 && Irreversible(t)
      modifies this`clock, this`waited, this`kills
      ensures clock > old(clock)
      ensures var tiers := (if hasEndpoint && accepted then 1 else 0) + (if delivered then 1 else 0);
              || kills == old(kills)
              || kills == old(kills) + [old(waited) + tiers * Grace(graceOption)]
      ensures kills == old(kills) <== r in {StoppedBy(Endpoint), StoppedBy(CtrlC), Refused(NotRunning)}
      ensures kills != old(kills) <== r in {StoppedBy(Terminate), Refused(Survived)}
      ensures r == Refused(Survived) ==> kills != [] && waited == kills[|kills| - 1] + TERMINATE_GRACE
      ensures r.StoppedBy? ==> !StillRuns(at(clock), t) || HiddenSince(t, old(clock))
      ensures r == Refused(NotRunning) ==>
          !StillRuns(at(clock), t) || exists m :: old(clock) <= m < clock && at(m).access == Denied
      ensures r == Refused(Survived) ==> StillRuns(at(clock - 1), t) && killable
      ensures FaultFreeSince(old(clock)) && r == Refused(CallFailed) ==> !killable
      ensures r == StoppedBy(Endpoint) ==> hasEndpoint && accepted
      ensures r == StoppedBy(CtrlC) ==> delivered
      ensures r == StoppedBy(Terminate) ==> killable
    {
      var grace := if graceOption <= 0 then DEFAULT_GRACE else graceOption;
      var alive := Alive(t);
      if alive == Unknown {
        assert !FaultFree(at(old(clock)));
        return Refused(CallFailed);
      }
      if alive == No {
        assert !StillRuns(at(old(clock)), t) || at(old(clock)).access == Denied;
        return Refused(NotRunning);
      }
      if hasEndpoint && accepted {
        var gone := WaitExit(t, grace);
        if gone == Unknown {
          return Refused(CallFailed);
        }
        if gone == Yes {
          return StoppedBy(Endpoint);
        }
      }
      if delivered {
        var gone := WaitExit(t, grace);
        if gone == Unknown {
          return Refused(CallFailed);
        }
        if gone == Yes {
          return StoppedBy(CtrlC);
        }
      }
      ghost var before := clock;
      var failure := TerminateProcess(t, killable);
      if failure.Some? {
        AliveIsRunning(at(before), t);
        return Refused(failure.value);
      }
      var gone := WaitExit(t, TERMINATE_GRACE);
      if gone == Unknown {
        return Refused(CallFailed);
      }
      if gone == No {
        return Refused(Survived);
      }
      return StoppedBy(Terminate);
    }
  }
}
