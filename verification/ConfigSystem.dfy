/**
  The host's lease and the device's transaction as one system: whether gateway
  traffic can flow while a change is pending on the device.  Operations run
  under the management lock; the device's tick and power losses come between
  and, where the host waits, inside them.
  */
module ConfigSystem {
  import opened Frames
  import opened ConfigLease
  import D = DeviceConfig
  import T = ConfigTransaction

  datatype Joint = Joint(device: T.State, lease: Lease)

  // ticks: what the device's maintenance task does while the host waits for
  // the switch back to the safe UART settings.
  datatype Call =
    | Patching(idle: bool, values: D.Config, apply: T.Step, stageTrip: Trip, getTrip: Trip, applyTrip: Trip, mode: bool)
    | Confirming(trip: Trip, confirm: T.Step)
    | RollingBack(idle: bool, trip: Trip, now: nat, ticks: seq<T.Step>, mode: bool)
    | Resetting(idle: bool, trip: Trip, reset: T.Step, ticks: seq<T.Step>, mode: bool,
                confirmTrip: Trip, confirm: T.Step)
    | Disconnecting
    | Updating(idle: bool)
    | TimerFiring(epoch: nat)
    | Itself(step: T.Step)

  predicate OnlyTicks(ticks: seq<T.Step>) { forall i | 0 <= i < |ticks| :: ticks[i].Ticked? }

  predicate Proper(call: Call) {
    match call
    case Patching(_, _, apply, _, _, _, _) => apply.Applied?
    case Confirming(_, confirm) => confirm.Confirmed?
    case RollingBack(_, _, _, ticks, _) => OnlyTicks(ticks)
    case Resetting(_, _, reset, ticks, _, _, confirm) => reset.Reset? && OnlyTicks(ticks) && confirm.Confirmed?
    case Itself(step) => step.Ticked? || step.PowerLost?
    case _ => true
  }

  ghost predicate ConfirmAccepted(b: D.Build, s: T.State, confirm: T.Step) {
    s.applied && !T.Next(b, s, confirm).applied
  }

  ghost predicate ResetAccepted(b: D.Build, s: T.State, reset: T.Step)
    requires reset.Reset?
  {
    !s.applied && ApplyAccepted(b, T.DefaultNow(s), T.Applied(reset.now, reset.write, reset.network))
  }

  ghost function Reached(b: D.Build, s: T.State, trip: Trip, step: T.Step): T.State {
    if trip.arrives then T.Next(b, s, step) else s
  }

  ghost function Rollback(b: D.Build, s: Joint, call: Call): Joint
    requires call.RollingBack?
  {
    if s.lease.timer.None? && !CanPause(s.lease, call.idle) then s
    else
      var asked := Reached(b, s.device, call.trip, T.RollbackAsked(call.now));
      var told := Told(call.trip, true).Accepted?;
      Joint(if told then DeviceRun(b, asked, call.ticks) else asked,
            Next(s.lease, ConfigLease.Rollback(call.idle, told && call.mode)))
  }

  // Reset the configuration, switch the port back, confirm.
  ghost function Reset(b: D.Build, s: Joint, call: Call): Joint
    requires call.Resetting? && call.reset.Reset?
  {
    if !CanPause(s.lease, call.idle) then s
    else
      var reset := Reached(b, s.device, call.trip, call.reset);
      if !Told(call.trip, ResetAccepted(b, s.device, call.reset)).Accepted? then
        Joint(reset, Next(s.lease, FactoryReset(call.idle, false)))
      else
        var waited := DeviceRun(b, reset, call.ticks);
        if !call.mode then Joint(waited, Next(s.lease, FactoryReset(call.idle, false)))
        else
          var ok := Told(call.confirmTrip, ConfirmAccepted(b, waited, call.confirm)).Accepted?;
          Joint(Reached(b, waited, call.confirmTrip, call.confirm), Next(s.lease, FactoryReset(call.idle, ok)))
  }

  ghost function Do(b: D.Build, s: Joint, call: Call): Joint {
    if !Proper(call) then s
    else
      match call
      case Patching(idle, values, apply, stageTrip, getTrip, applyTrip, mode) =>
        if !CanPause(s.lease, idle) then s
        else
          var r := StageApply(b, s.device, values, apply, stageTrip, getTrip, applyTrip, mode);
          Joint(r.device, Next(s.lease, Patch(idle, r.outcome)))
      case Confirming(trip, confirm) =>
        Joint(Reached(b, s.device, trip, confirm),
              Next(s.lease, Confirm(Told(trip, ConfirmAccepted(b, s.device, confirm)).Accepted?)))
      case RollingBack(_, _, _, _, _) => Rollback(b, s, call)
      case Resetting(_, _, _, _, _, _, _) => Reset(b, s, call)
      case Disconnecting => s.(lease := Next(s.lease, Disconnect))
      case Updating(idle) => s.(lease := Next(s.lease, Firmware(idle)))
      case TimerFiring(epoch) => s.(lease := Next(s.lease, Fires(epoch)))
      case Itself(step) => s.(device := T.Next(b, s.device, step))
  }

  // Host and device start afresh, the device from whatever its flash holds.
  ghost function After(b: D.Build, durable: Option<T.Doc>, calls: seq<Call>): Joint {
    if calls == [] then Joint(T.Boot(b, durable), Lease(false, None, 0))
    else Do(b, After(b, durable, calls[..|calls| - 1]), calls[|calls| - 1])
  }

  // While a change is pending on the device the gateway is in maintenance.
  predicate Covered(s: Joint) { (s.device.applied ==> s.lease.maintenance) && Sound(s.lease) }

  // Maintenance ends while the device's transaction is still pending: the host
  // disconnects, the lease runs out, or a rollback that the device acknowledged
  // has not been carried out when the host has waited for it.
  ghost predicate Uncovers(b: D.Build, s: Joint, call: Call) {
    match call
    case Disconnecting => s.device.applied
    case TimerFiring(epoch) => s.lease.timer == Some(epoch) && s.device.applied
    case RollingBack(idle, trip, now, ticks, mode) =>
      Proper(call) && (s.lease.timer.Some? || CanPause(s.lease, idle)) && trip.arrives && trip.answered && mode
      && DeviceRun(b, T.Next(b, s.device, T.RollbackAsked(now)), ticks).applied
    case _ => false
  }

  lemma PatchIsCovered(b: D.Build, s: Joint, call: Call)
    requires Covered(s) && call.Patching? && Proper(call)
    ensures Covered(Do(b, s, call))
    ensures CanPause(s.lease, call.idle) && !Do(b, s, call).lease.maintenance ==>
              !Do(b, s, call).device.applied && Do(b, s, call).device == s.device
  {
    NotAppliedIsCertain(b, s.device, call.values, call.apply, call.stageTrip, call.getTrip, call.applyTrip, call.mode);
    hide StageApply, D.Valid;
  }

  predicate TickRollsBack(t: T.State, tick: T.Step) {
    tick.Ticked? && T.RollsBack(t, tick.now, tick.idle, tick.uart)
  }

  ghost predicate NoneRollsBack(b: D.Build, s: T.State, ticks: seq<T.Step>) {
    forall i {:trigger ticks[i]} | 0 <= i < |ticks| :: !TickRollsBack(DeviceRun(b, s, ticks[..i]), ticks[i])
  }

  lemma OneMoreTick(b: D.Build, s: T.State, ticks: seq<T.Step>)
    requires ticks != []
    ensures var n := |ticks| - 1;
            NoneRollsBack(b, s, ticks) <==>
              NoneRollsBack(b, s, ticks[..n]) && !TickRollsBack(DeviceRun(b, s, ticks[..n]), ticks[n])
  {
    hide DeviceRun, TickRollsBack;
    var n := |ticks| - 1;
    var front := ticks[..n];
    forall i | 0 <= i < n ensures front[..i] == ticks[..i] && front[i] == ticks[i] { }
    if NoneRollsBack(b, s, ticks) {
      forall i | 0 <= i < n ensures !TickRollsBack(DeviceRun(b, s, front[..i]), front[i]) {
        assert !TickRollsBack(DeviceRun(b, s, ticks[..i]), ticks[i]);
      }
    }
    if NoneRollsBack(b, s, front) && !TickRollsBack(DeviceRun(b, s, front), ticks[n]) {
      forall i | 0 <= i < |ticks| ensures !TickRollsBack(DeviceRun(b, s, ticks[..i]), ticks[i]) {
        if i < n { assert !TickRollsBack(DeviceRun(b, s, front[..i]), front[i]); }
      }
    }
  }

  // A transaction outlasts ticks exactly if none of them rolls it back.
  lemma {:induction false} OutlastsTicks(b: D.Build, s: T.State, ticks: seq<T.Step>)
    requires OnlyTicks(ticks)
    ensures DeviceRun(b, s, ticks).applied <==> s.applied && NoneRollsBack(b, s, ticks)
    decreases |ticks|
  {
    if ticks != [] {
      var n := |ticks| - 1;
      OutlastsTicks(b, s, ticks[..n]);
      OneMoreTick(b, s, ticks);
      OneTick(b, DeviceRun(b, s, ticks[..n]), ticks[n]);
      hide T.Next, T.RollsBack, NoneRollsBack;
    }
  }

  lemma OneTick(b: D.Build, t: T.State, tick: T.Step)
    requires tick.Ticked?
    ensures T.Next(b, t, tick).applied <==> t.applied && !T.RollsBack(t, tick.now, tick.idle, tick.uart)
  {
    hide D.WithSafeUart;
  }

  lemma AskingLeavesPending(b: D.Build, s: T.State, trip: Trip, now: nat)
    ensures Reached(b, s, trip, T.RollbackAsked(now)).applied == s.applied
  {
  }

  lemma RollbackIsCovered(b: D.Build, s: Joint, call: Call)
    requires Covered(s) && call.RollingBack? && Proper(call)
    ensures Covered(Do(b, s, call)) <==> !Uncovers(b, s, call)
  {
    AskingLeavesPending(b, s.device, call.trip, call.now);
    OutlastsTicks(b, Reached(b, s.device, call.trip, T.RollbackAsked(call.now)), call.ticks);
    hide DeviceRun, NoneRollsBack;
  }

  lemma ConfirmIsCovered(b: D.Build, s: Joint, trip: Trip, confirm: T.Step)
    requires Covered(s) && confirm.Confirmed?
    ensures Covered(Do(b, s, Confirming(trip, confirm)))
  {
    hide D.Valid;
  }

  // A factory reset that reports success has been confirmed by the device.
  lemma ResetIsCovered(b: D.Build, s: Joint, call: Call)
    requires Covered(s) && call.Resetting? && Proper(call)
    ensures Covered(Do(b, s, call))
  {
    hide DeviceRun, ResetAccepted;
    if CanPause(s.lease, call.idle) {
      var reset := Reached(b, s.device, call.trip, call.reset);
      var waited := DeviceRun(b, reset, call.ticks);
      hide T.Next;
    }
  }

  lemma ItselfIsCovered(b: D.Build, s: Joint, step: T.Step)
    requires Covered(s) && (step.Ticked? || step.PowerLost?)
    ensures Covered(Do(b, s, Itself(step)))
  {
    NothingStartsAlone(b, s.device, step);
    hide T.Next;
  }

  lemma NothingStartsAlone(b: D.Build, s: T.State, step: T.Step)
    requires step.Ticked? || step.PowerLost?
    ensures T.Next(b, s, step).applied ==> s.applied
  {
    hide D.WithSafeUart, D.Valid;
  }

  lemma StepIsCovered(b: D.Build, s: Joint, call: Call)
    requires Covered(s)
    ensures Covered(Do(b, s, call)) <==> !Uncovers(b, s, call)
  {
    if Proper(call) {
      hide StageApply, Rollback, Reset, DeviceRun, T.Next, ConfirmAccepted;
      match call
      case Patching(_, _, _, _, _, _, _) => PatchIsCovered(b, s, call);
      case Confirming(trip, confirm) => ConfirmIsCovered(b, s, trip, confirm);
      case RollingBack(_, _, _, _, _) => RollbackIsCovered(b, s, call);
      case Resetting(_, _, _, _, _, _, _) => ResetIsCovered(b, s, call);
      case Itself(step) => ItselfIsCovered(b, s, step);
      case _ =>
    }
  }

  ghost predicate NeverUncovers(b: D.Build, durable: Option<T.Doc>, calls: seq<Call>) {
    forall i {:trigger calls[i]} | 0 <= i < |calls| :: !Uncovers(b, After(b, durable, calls[..i]), calls[i])
  }

  // In every run of both sides without such an end, no gateway request is
  // admitted while a change is pending on the device.
  lemma {:induction false} PendingIsCovered(b: D.Build, durable: Option<T.Doc>, calls: seq<Call>)
    requires NeverUncovers(b, durable, calls)
    ensures Covered(After(b, durable, calls))
    decreases |calls|
  {
    hide Do, Uncovers, Covered;
    if calls == [] {
      StartIsCovered(b, durable);
    } else {
      var n := |calls| - 1;
      forall i | 0 <= i < n ensures !Uncovers(b, After(b, durable, calls[..n][..i]), calls[..n][i]) {
        assert calls[..n][..i] == calls[..i] && calls[..n][i] == calls[i];
      }
      PendingIsCovered(b, durable, calls[..n]);
      StepIsCovered(b, After(b, durable, calls[..n]), calls[n]);
    }
  }

  lemma StartIsCovered(b: D.Build, durable: Option<T.Doc>)
    ensures Covered(After(b, durable, []))
  {
    hide D.Valid, D.Defaults;
  }

  // The condition is exact: the first such end leaves a pending change with
  // the gateway open.
  lemma UncoveringOpensTheGateway(b: D.Build, durable: Option<T.Doc>, calls: seq<Call>, call: Call)
    requires NeverUncovers(b, durable, calls) && Uncovers(b, After(b, durable, calls), call)
    ensures var t := Do(b, After(b, durable, calls), call); t.device.applied && !t.lease.maintenance
  {
    PendingIsCovered(b, durable, calls);
    hide After, NeverUncovers;
    EarlyEndOpens(b, After(b, durable, calls), call);
  }

  lemma EarlyEndOpens(b: D.Build, s: Joint, call: Call)
    requires Covered(s) && Uncovers(b, s, call)
    ensures var t := Do(b, s, call); t.device.applied && !t.lease.maintenance
  {
    hide Reset, StageApply, T.Next, DeviceRun, Rollback;
    if call.RollingBack? { RollbackOpens(b, s, call); }
  }

  lemma RollbackOpens(b: D.Build, s: Joint, call: Call)
    requires Covered(s) && call.RollingBack? && Uncovers(b, s, call)
    ensures var t := Rollback(b, s, call); t.device.applied && !t.lease.maintenance
  {
    hide T.Next, DeviceRun;
  }

  // Such an end is always at hand: a rollback acknowledged before any tick.
  lemma RollbackUncovers(b: D.Build, s: Joint, now: nat)
    requires Covered(s) && s.device.applied
    ensures Uncovers(b, s, RollingBack(true, Trip(true, true), now, [], true))
  {
    AskingLeavesPending(b, s.device, Trip(true, true), now);
    hide T.Next;
  }

  // Whatever came before: a PATCH that paused the gateway gives it back at once
  // only with nothing pending on the device and the device as it was.
  lemma PatchReleasesOnlyWhenCertain(b: D.Build, durable: Option<T.Doc>, calls: seq<Call>, call: Call)
    requires call.Patching? && Proper(call)
    ensures var s := After(b, durable, calls);
            var t := Do(b, s, call);
            CanPause(s.lease, call.idle) && !t.lease.maintenance ==> !t.device.applied && t.device == s.device
  {
    var s := After(b, durable, calls);
    hide After;
    NotAppliedIsCertain(b, s.device, call.values, call.apply, call.stageTrip, call.getTrip, call.applyTrip, call.mode);
    hide StageApply, D.Valid;
  }
}
