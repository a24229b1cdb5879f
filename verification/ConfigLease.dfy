/**
  The host's side of a device configuration change: gateway maintenance held
  under a timer, released early when the outcome is known, and the
  classification of outcomes that decides which.
  Every operation below runs under the management lock, as does the timer.
  */
module ConfigLease {
  import opened Frames
  import D = DeviceConfig
  import T = ConfigTransaction

  // --------------------------------------------------- how an update request ends

  // One call to the device as the host learns of it.
  datatype Answer = Accepted | Rejected | Unknown

  datatype Outcome = NotApplied | Applied | Ambiguous

  // What becomes of one call: whether it reaches the device, and whether the
  // authentic answer comes back.
  datatype Trip = Trip(arrives: bool, answered: bool)

  function Told(t: Trip, ok: bool): Answer {
    if t.arrives && t.answered then (if ok then Accepted else Rejected) else Unknown
  }

  ghost predicate StageAccepted(b: D.Build, s: T.State, values: D.Config) {
    !s.applied && !(b.usb && (D.UartBaud in values || D.UartFlowControl in values))
    && D.Valid(b, D.WithUart(s.desired, s.effective) + values)
  }

  ghost predicate ApplyAccepted(b: D.Build, s: T.State, step: T.Step)
    requires step.Applied?
  {
    !s.applied && T.UsbAllows(b, s.desired) && step.write.Written?
    && (step.network || T.SameNetwork(s.effective, s.desired))
  }

  datatype Result = Result(device: T.State, outcome: Outcome, applySent: bool)

  // StageApply against the device: stage, then apply, or after a rejection a
  // look at whether something is pending.  mode: the switch of the host's own
  // serial port succeeded.
  ghost function StageApply(b: D.Build, s: T.State, values: D.Config, apply: T.Step,
                            stageTrip: Trip, getTrip: Trip, applyTrip: Trip, mode: bool): Result
    requires apply.Applied?
  {
    var s1 := if stageTrip.arrives then T.StageNow(b, s, values) else s;
    match Told(stageTrip, StageAccepted(b, s, values))
    case Unknown => Result(s1, Ambiguous, false)
    case Rejected =>
      var known := getTrip.arrives && getTrip.answered;
      Result(s1, if known && !s1.applied then NotApplied else Ambiguous, false)
    case Accepted =>
      var s2 := if applyTrip.arrives then T.Next(b, s1, apply) else s1;
      var told := Told(applyTrip, ApplyAccepted(b, s1, apply));
      Result(s2, if told.Accepted? && mode then Applied else Ambiguous, true)
  }

  // "Not applied" is said exactly when staging was rejected and the device
  // answered that nothing is pending; then no apply was sent, nothing is
  // pending, and the device's state is what it was.
  lemma NotAppliedIsCertain(b: D.Build, s: T.State, values: D.Config, apply: T.Step,
                            stageTrip: Trip, getTrip: Trip, applyTrip: Trip, mode: bool)
    requires apply.Applied?
    ensures var r := StageApply(b, s, values, apply, stageTrip, getTrip, applyTrip, mode);
            (r.outcome.NotApplied? <==> stageTrip.arrives && stageTrip.answered && getTrip.arrives && getTrip.answered
                                        && !StageAccepted(b, s, values) && !s.applied)
            && (r.outcome.NotApplied? ==> !r.applySent && !r.device.applied && r.device == s)
  {
    hide D.Valid, T.ApplyNow, D.WithUart;
  }

  // Whenever an apply may have taken effect the outcome is another one.
  lemma PendingIsNeverNotApplied(b: D.Build, s: T.State, values: D.Config, apply: T.Step,
                                 stageTrip: Trip, getTrip: Trip, applyTrip: Trip, mode: bool)
    requires apply.Applied?
    ensures var r := StageApply(b, s, values, apply, stageTrip, getTrip, applyTrip, mode);
            r.device.applied ==> !r.outcome.NotApplied?
  {
    hide D.Valid, T.ApplyNow, D.WithUart;
  }

  // Success is reported exactly when both calls and the switch of the host's own
  // port went well; the device is then trying the caller's values over what it
  // was editing, with the UART settings in force unless the caller named others,
  // and will give them up 30 seconds after the apply.
  lemma AppliedMeansPending(b: D.Build, s: T.State, values: D.Config, apply: T.Step,
                            stageTrip: Trip, getTrip: Trip, applyTrip: Trip, mode: bool)
    requires apply.Applied? && T.Inv(b, s)
    ensures var r := StageApply(b, s, values, apply, stageTrip, getTrip, applyTrip, mode);
            var tried := D.WithUart(s.desired, s.effective) + values;
            var staged := !s.applied && D.Valid(b, tried)
                          && !(b.usb && (D.UartBaud in values || D.UartFlowControl in values));
            (r.outcome.Applied? <==>
             staged && stageTrip == applyTrip == Trip(true, true) && mode && apply.write.Written?
             && (apply.network || T.SameNetwork(s.effective, tried)) && T.UsbAllows(b, tried))
            && (r.outcome.Applied? ==>
                  r.applySent && r.device.applied && r.device.desired == tried
                  && r.device.persisted == s.persisted && r.device.deadline == apply.now + 30_000_000)
  {
    hide D.Valid, D.WithUart, T.Inv, T.SameNetwork, T.SameUart, T.UsbAllows;
  }

  // ------------------------------------------------------------------- the lease

  // timer: the epoch of the callback configTimer refers to.
  datatype Lease = Lease(maintenance: bool, timer: Option<nat>, epoch: nat)

  // idle: the gateway has no request in flight, so Pause can succeed.  The
  // callback of any epoch may run late, however often it was stopped.
  datatype Op =
    | Patch(idle: bool, outcome: Outcome)
    | Confirm(ok: bool)
    | Rollback(idle: bool, ok: bool)
    | Disconnect
    | FactoryReset(idle: bool, ok: bool)
    | Firmware(idle: bool)
    | Fires(epoch: nat)

  function Hold(s: Lease): Lease { s.(epoch := s.epoch + 1, timer := Some(s.epoch + 1)) }

  function Finish(s: Lease): Lease { Lease(false, None, s.epoch + 1) }

  // Pause: the state after it, and whether it succeeded.
  predicate CanPause(s: Lease, idle: bool) { !s.maintenance && idle }

  function Next(s: Lease, op: Op): Lease {
    match op
    case Patch(idle, outcome) =>
      if !CanPause(s, idle) then s
      else if outcome.NotApplied? then Finish(s.(maintenance := true)) else Hold(s.(maintenance := true))
    case Confirm(ok) => if ok then Finish(s) else s
    case Rollback(idle, ok) =>
      if s.timer.None? && !CanPause(s, idle) then s
      else
        var s' := s.(maintenance := true);
        if ok then Finish(s') else if s.timer.None? then Hold(s') else s'
    case Disconnect => Finish(s)
    case FactoryReset(idle, ok) =>
      if !CanPause(s, idle) then s
      else if ok then s.(maintenance := false) else Hold(s.(maintenance := true))
    case Firmware(idle) => if !CanPause(s, idle) then s else s.(maintenance := false)
    case Fires(epoch) => if epoch != s.epoch then s else s.(timer := None, maintenance := false)
  }

  function After(ops: seq<Op>): Lease {
    if ops == [] then Lease(false, None, 0) else Next(After(ops[..|ops| - 1]), ops[|ops| - 1])
  }

  // Between operations, maintenance is on exactly when a timer will end it,
  // and that timer is the current one.
  predicate Sound(s: Lease) { s.maintenance == s.timer.Some? && (s.timer.Some? ==> s.timer.value == s.epoch) }

  lemma {:induction false} LeaseIsSound(ops: seq<Op>)
    ensures Sound(After(ops))
    decreases |ops|
  {
    if ops != [] { LeaseIsSound(ops[..|ops| - 1]); }
  }

  // A callback ends maintenance only for the lease it was started for.
  lemma StaleTimersAreHarmless(ops: seq<Op>, epoch: nat)
    ensures var s := After(ops);
            var s' := Next(s, Fires(epoch));
            (s.timer != Some(epoch) ==> s' == s) && (s.timer == Some(epoch) ==> !s'.maintenance && s'.timer.None?)
  {
    LeaseIsSound(ops);
  }

  // ---------------------------------------------------- the lease and the deadline

  // 33 seconds, on the device's clock.
  const LEASE_US := 33_000_000

  ghost function DeviceRun(b: D.Build, s: T.State, steps: seq<T.Step>): T.State {
    if steps == [] then s else T.Next(b, DeviceRun(b, s, steps[..|steps| - 1]), steps[|steps| - 1])
  }

  predicate StartsNothing(steps: seq<T.Step>) {
    forall i | 0 <= i < |steps| :: !steps[i].Applied? && !steps[i].Reset?
  }

  lemma {:induction false} StaysSettled(b: D.Build, s: T.State, steps: seq<T.Step>, i: nat)
    requires StartsNothing(steps) && i <= |steps|
    requires !DeviceRun(b, s, steps[..i]).applied
    ensures !DeviceRun(b, s, steps).applied
    decreases |steps|
  {
    hide T.Next;
    if i == |steps| {
      assert steps[..i] == steps;
    } else {
      var n := |steps| - 1;
      assert steps[..n][..i] == steps[..i];
      StaysSettled(b, s, steps[..n], i);
      NothingStarts(b, DeviceRun(b, s, steps[..n]), steps[n]);
    }
  }

  lemma NothingStarts(b: D.Build, s: T.State, step: T.Step)
    requires !s.applied && !step.Applied? && !step.Reset?
    ensures !T.Next(b, s, step).applied
  {
    hide D.Valid, D.WithSafeUart, D.WithUart;
  }

  // While a transaction is pending its deadline stands; once it is not, it
  // stays settled: so a tick late enough decides it, whatever else happens.
  lemma {:induction false} DeadlineStands(b: D.Build, s: T.State, steps: seq<T.Step>)
    requires s.applied && StartsNothing(steps)
    ensures var s' := DeviceRun(b, s, steps); s'.applied ==> s'.deadline == s.deadline
    decreases |steps|
  {
    if steps != [] {
      var n := |steps| - 1;
      DeadlineStands(b, s, steps[..n]);
      var t := DeviceRun(b, s, steps[..n]);
      if t.applied {
        if T.Next(b, t, steps[n]).applied { T.PendingIsFrozen(b, t, steps[n]); }
      } else {
        NothingStarts(b, t, steps[n]);
      }
    }
  }

  // The lease outlasts the transaction it protects: if the apply took effect no
  // later than three seconds after the lease began, and the device's
  // maintenance task ran between the deadline and the end of the lease, then
  // nothing is pending on the device when the lease ends.
  lemma LeaseOutlastsTransaction(b: D.Build, s: T.State, appliedAt: nat, heldAt: nat, steps: seq<T.Step>, i: nat)
    requires s.applied && s.deadline == appliedAt + T.CONFIRM_US && appliedAt <= heldAt + 3_000_000
    requires StartsNothing(steps) && i < |steps| && steps[i].Ticked?
    requires s.deadline <= steps[i].now <= heldAt + LEASE_US
    ensures s.deadline <= heldAt + LEASE_US && !DeviceRun(b, s, steps).applied
  {
    var front, one := steps[..i], steps[..i + 1];
    assert one[..|one| - 1] == front && one[|one| - 1] == steps[i];
    DeadlineStands(b, s, front);
    var t := DeviceRun(b, s, front);
    var k := steps[i];
    if t.applied {
      T.DeadlineDecides(b, t, k.now, k.idle, k.uart, k.cleanup);
    } else {
      NothingStarts(b, t, k);
    }
    StaysSettled(b, s, steps, i + 1);
  }

  // ---------------------------------------------------------------------- the code

  class Server {
    var maintenance: bool
    var configTimer: Option<nat>
    var configEpoch: nat

    function View(): Lease
      reads this
    {
      Lease(maintenance, configTimer, configEpoch)
    }

    constructor ()
      ensures View() == Lease(false, None, 0)
    {
      maintenance, configTimer, configEpoch := false, None, 0;
    }

    method Pause(idle: bool) returns (ok: bool)
      modifies this`maintenance
      ensures ok == CanPause(old(View()), idle) && maintenance == (old(maintenance) || ok)
    {
      if maintenance { return false; }
      maintenance := true;
      if !idle {
        maintenance := false;
        return false;
      }
      return true;
    }

    method HoldConfigMaintenance()
      modifies this
      ensures View() == Hold(old(View()))
    {
      configEpoch := configEpoch + 1;
      configTimer := Some(configEpoch);
    }

    method EndConfigMaintenance()
      modifies this
      ensures View() == Finish(old(View()))
    {
      configEpoch := configEpoch + 1;
      configTimer := None;
      maintenance := false;
    }

    method TimerFires(epoch: nat)
      modifies this
      ensures View() == Next(old(View()), Fires(epoch))
      ensures epoch == old(configEpoch) ==> !maintenance && configTimer == None
      ensures epoch != old(configEpoch) ==> View() == old(View())
    {
      if epoch != configEpoch { return; }
      configTimer := None;
      maintenance := false;
    }

    method PatchConfig(idle: bool, outcome: Outcome) returns (status: nat)
      modifies this
      ensures View() == Next(old(View()), Patch(idle, outcome))
      ensures status == 409 <==> old(maintenance) || !idle
      ensures status == 409 ==> View() == old(View())
      ensures status == 200 <==> !old(maintenance) && idle && outcome.Applied?
      ensures status != 409 && outcome.NotApplied? ==> !maintenance && configTimer == None
      ensures status != 409 && !outcome.NotApplied? ==>
                maintenance && configEpoch == old(configEpoch) + 1 && configTimer == Some(configEpoch)
    {
      var ok := Pause(idle);
      if !ok { return 409; }
      if outcome.NotApplied? { EndConfigMaintenance(); } else { HoldConfigMaintenance(); }
      return if outcome.Applied? then 200 else 400;
    }

    // saved: the host then stored the serial settings it now uses.
    method ConfirmConfig(ok: bool, saved: bool) returns (status: nat)
      modifies this
      ensures View() == Next(old(View()), Confirm(ok)) && status == if ok && saved then 200 else 400
      ensures ok ==> !maintenance && configTimer == None && configEpoch != old(configEpoch)
      ensures !ok ==> View() == old(View())
    {
      if ok { EndConfigMaintenance(); }
      return if ok && saved then 200 else 400;
    }

    method RollbackConfig(idle: bool, ok: bool) returns (status: nat)
      requires Sound(View())
      modifies this
      ensures View() == Next(old(View()), Rollback(idle, ok)) && Sound(View())
      ensures status == 409 <==> old(configTimer) == None && (old(maintenance) || !idle)
      ensures status == 409 ==> View() == old(View())
      ensures status != 409 ==> status == (if ok then 200 else 400) && maintenance == !ok
    {
      if configTimer == None {
        var paused := Pause(idle);
        if !paused { return 409; }
      }
      if ok { EndConfigMaintenance(); } else if configTimer == None { HoldConfigMaintenance(); }
      return if ok then 200 else 400;
    }

    method ResetDevice(idle: bool, ok: bool) returns (status: nat)
      modifies this
      ensures View() == Next(old(View()), FactoryReset(idle, ok))
      ensures status == 409 <==> old(maintenance) || !idle
      ensures status == 409 ==> View() == old(View())
      ensures status != 409 ==> status == (if ok then 200 else 400) && maintenance == !ok
      ensures status == 400 ==> configTimer == Some(configEpoch)
    {
      var paused := Pause(idle);
      if !paused { return 409; }
      if ok { maintenance := false; } else { HoldConfigMaintenance(); }
      return if ok then 200 else 400;
    }
  }
}
