/**
  The device's configuration transaction as a state machine over its calls, its
  maintenance tick and power losses: values being edited, in force and
  confirmed; a confirmation deadline, a delayed UART switch, a scheduled
  rollback, and a flash store whose write and commit can fail separately.
  Time is the device's microsecond clock; zero means "not set".
  */
module ConfigTransaction {
  import opened Frames
  import opened DeviceConfig

  const CONFIRM_US := 30_000_000
  const DELAY_US := 1_000_000
  const INT_MAX: nat := 0x7fff_ffff

  // revision None: the stored number is missing or no number.
  datatype Doc = Doc(revision: Option<nat>, values: Config)

  // staged: what the store would write at the next commit; durable: what a
  // power loss leaves.
  datatype Store = Store(staged: Option<Doc>, durable: Option<Doc>)

  datatype State = State(
    desired: Config, effective: Config, persisted: Config, revision: u32,
    applied: bool, deadline: int, switchAt: int, rollbackAt: int,
    nvs: Store)

  // How far a write to the store gets.
  datatype Write = Refused | Torn | Written

  datatype Step =
    | Defaulted
    | Staged(values: Config)
    | Applied(now: nat, write: Write, network: bool)
    | Reset(now: nat, write: Write, network: bool)
    | Confirmed(ready: bool, write: Write, cleanup: bool)
    | RollbackAsked(now: nat)
    | Ticked(now: nat, idle: bool, uart: bool, cleanup: bool)
    | PowerLost

  // ------------------------------------------------------------------ the store

  function Commit(nvs: Store, ok: bool): Store { if ok then nvs.(durable := nvs.staged) else nvs }

  function Save(nvs: Store, doc: Doc, write: Write): Store {
    match write
    case Refused => nvs
    case Torn => nvs.(staged := Some(doc))
    case Written => Store(Some(doc), Some(doc))
  }

  datatype Loaded = Loaded(values: Config, revision: u32)

  // What boot makes of the stored document: valueint saturates.
  ghost function Load(b: Build, doc: Option<Doc>): Loaded {
    if doc.None? || !Valid(b, doc.value.values) then Loaded(Defaults(), 1)
    else
      var r := doc.value.revision;
      Loaded(doc.value.values, if r.None? then 1 else if r.value > INT_MAX then INT_MAX else r.value)
  }

  // --------------------------------------------------------------------- the steps

  // After a power loss only the durable document is left.
  ghost function Boot(b: Build, durable: Option<Doc>): State {
    var l := Load(b, durable);
    State(l.values, WithSafeUart(l.values), l.values, l.revision, false, 0, 0, 0, Store(durable, durable))
  }

  function RolledBack(s: State, cleanup: bool): State {
    s.(desired := s.persisted, effective := WithSafeUart(s.persisted),
       applied := false, deadline := 0, switchAt := 0, nvs := Commit(s.nvs, cleanup))
  }

  function SameUart(a: Config, c: Config): bool
  {
    (UartBaud in a && UartBaud in c ==> a[UartBaud] == c[UartBaud])
    && (UartFlowControl in a && UartFlowControl in c ==> a[UartFlowControl] == c[UartFlowControl])
  }

  // The radio is reconfigured only when one of its settings differs.
  predicate SameNetwork(a: Config, c: Config) {
    forall k | k in [WifiSsid, WifiPassword, WifiHostname, IpDhcp, IpAddress, IpGateway, IpNetmask, IpDns] ::
      k in a && k in c && a[k] == c[k]
  }

  predicate UsbAllows(b: Build, desired: Config) {
    b.usb ==> UartBaud in desired && desired[UartBaud] == Number(115200)
              && UartFlowControl in desired && desired[UartFlowControl] == Flag(false)
  }

  function ApplyNow(b: Build, s: State, now: nat, write: Write, network: bool): State {
    if s.applied || !UsbAllows(b, s.desired) then s
    else
      // The candidate entry is only ever erased again; its commit flushes the rest.
      var nvs := Commit(s.nvs, write.Written?);
      if !write.Written? then s.(nvs := nvs)
      else
        s.(nvs := nvs, applied := true, deadline := now + CONFIRM_US,
           switchAt := if SameUart(s.effective, s.desired) then 0 else now + DELAY_US,
           effective := WithUart(s.desired, s.effective),
           rollbackAt := if network || SameNetwork(s.effective, s.desired) then s.rollbackAt else now + DELAY_US)
  }

  function DefaultNow(s: State): State { if s.applied then s else s.(desired := Defaults()) }

  // The UART settings in force, unless the caller names others.
  ghost function StageNow(b: Build, s: State, values: Config): State {
    if s.applied || (b.usb && (UartBaud in values || UartFlowControl in values)) then s
    else
      var candidate := WithUart(s.desired, s.effective) + values;
      if Valid(b, candidate) then s.(desired := candidate) else s
  }

  function ConfirmNow(s: State, ready: bool, write: Write, cleanup: bool): State {
    if !s.applied || s.switchAt != 0 then s
    else if WifiSsid in s.desired && s.desired[WifiSsid] != Text("") && !ready then s
    else
      var nvs := Save(s.nvs, Doc(Some(Succ(s.revision)), s.desired), write);
      if !write.Written? then s.(nvs := nvs)
      else s.(nvs := Commit(nvs, cleanup), revision := Succ(s.revision), persisted := s.desired,
              applied := false, deadline := 0)
  }

  ghost function Next(b: Build, s: State, step: Step): State {
    match step
    case Defaulted => DefaultNow(s)
    case Staged(values) => StageNow(b, s, values)
    case Applied(now, write, network) => ApplyNow(b, s, now, write, network)
    case Reset(now, write, network) => if s.applied then s else ApplyNow(b, DefaultNow(s), now, write, network)
    case Confirmed(ready, write, cleanup) => ConfirmNow(s, ready, write, cleanup)
    case RollbackAsked(now) => s.(rollbackAt := now + DELAY_US)
    case Ticked(now, idle, uart, cleanup) => Tick(s, now, idle, uart, cleanup)
    case PowerLost => Boot(b, s.nvs.durable)
  }

  function Switched(s: State, uart: bool, cleanup: bool): State {
    if uart then s.(effective := s.desired, switchAt := 0) else RolledBack(s, cleanup)
  }

  function Tick(s: State, now: nat, idle: bool, uart: bool, cleanup: bool): State {
    var s1 := if s.applied && s.switchAt != 0 && now >= s.switchAt && idle then Switched(s, uart, cleanup) else s;
    var s2 := if s1.applied && now >= s1.deadline then RolledBack(s1, cleanup) else s1;
    if s2.rollbackAt != 0 && now >= s2.rollbackAt && idle then RolledBack(s2.(rollbackAt := 0), cleanup) else s2
  }

  ghost function After(b: Build, durable: Option<Doc>, steps: seq<Step>): State {
    if steps == [] then Boot(b, durable)
    else Next(b, After(b, durable, steps[..|steps| - 1]), steps[|steps| - 1])
  }

  // -------------------------------------------------------------- the invariant

  // Equal but for the two UART settings.
  predicate Agree(a: Config, c: Config) { WithSafeUart(a) == WithSafeUart(c) }

  ghost predicate Inv(b: Build, s: State) {
    && Valid(b, s.desired) && Valid(b, s.effective) && Valid(b, s.persisted)
    && (!s.applied ==> Agree(s.effective, s.persisted))
    && (s.applied ==> Agree(s.effective, s.desired))
    && (s.applied && s.switchAt == 0 ==> s.effective == s.desired)
  }

  lemma UartTrades(o: Config, u: Config)
    ensures Agree(WithSafeUart(o), o) && Agree(WithUart(o, u), o)
    ensures Agree(o, u) && UartBaud in o && UartFlowControl in o && UartBaud in u && UartFlowControl in u
            && SameUart(o, u)
            ==> o == u
  {
    assert WithSafeUart(WithSafeUart(o)) == WithSafeUart(o);
    assert WithSafeUart(WithUart(o, u)) == WithSafeUart(o);
    if Agree(o, u) && UartBaud in o && UartFlowControl in o && UartBaud in u && UartFlowControl in u && SameUart(o, u) {
      assert o == WithSafeUart(o)[UartBaud := o[UartBaud]][UartFlowControl := o[UartFlowControl]];
      assert u == WithSafeUart(u)[UartBaud := u[UartBaud]][UartFlowControl := u[UartFlowControl]];
    }
  }

  lemma BootIsFine(b: Build, durable: Option<Doc>)
    ensures Inv(b, Boot(b, durable))
  {
    DefaultsAreValid(b);
    var l := Load(b, durable);
    hide Valid, Defaults, WithSafeUart;
    assert Valid(b, l.values);
    UartIsIndependent(b, l.values, l.values);
    UartTrades(l.values, l.values);
  }

  lemma RollbackIsFine(b: Build, s: State, cleanup: bool)
    requires Valid(b, s.persisted)
    ensures Inv(b, RolledBack(s, cleanup))
  {
    hide Valid, WithSafeUart;
    UartIsIndependent(b, s.persisted, s.persisted);
    UartTrades(s.persisted, s.persisted);
  }

  lemma HasUart(b: Build, o: Config)
    requires Valid(b, o)
    ensures UartBaud in o && UartFlowControl in o
  {
    hide FieldOk, NetworkOk;
  }

  lemma ApplyIsFine(b: Build, s: State, now: nat, write: Write, network: bool)
    requires Inv(b, s)
    ensures Inv(b, ApplyNow(b, s, now, write, network))
  {
    hide Valid, WithSafeUart, WithUart, SameUart, SameNetwork, UsbAllows;
    UartIsIndependent(b, s.desired, s.effective);
    HasUart(b, s.desired);
    HasUart(b, s.effective);
    UartTrades(s.desired, s.effective);
    var e := WithUart(s.desired, s.effective);
    HasUart(b, e);
    UartTrades(e, s.desired);
    SameAfterTrade(s.desired, s.effective);
  }

  lemma SameAfterTrade(o: Config, u: Config)
    requires UartBaud in o && UartFlowControl in o && UartBaud in u && UartFlowControl in u
    ensures SameUart(u, o) ==> SameUart(WithUart(o, u), o)
  {
  }

  lemma EditIsFine(b: Build, s: State, values: Config)
    requires Inv(b, s)
    ensures Inv(b, DefaultNow(s)) && Inv(b, StageNow(b, s, values))
  {
    DefaultsAreValid(b);
    hide Valid, WithSafeUart, WithUart, Defaults;
  }

  lemma ConfirmIsFine(b: Build, s: State, ready: bool, write: Write, cleanup: bool)
    requires Inv(b, s)
    ensures Inv(b, ConfirmNow(s, ready, write, cleanup))
  {
    hide Valid, WithSafeUart;
  }

  lemma TickIsFine(b: Build, s: State, now: nat, idle: bool, uart: bool, cleanup: bool)
    requires Inv(b, s)
    ensures Inv(b, Tick(s, now, idle, uart, cleanup))
  {
    RollbackIsFine(b, s, cleanup);
    var s1 := if s.applied && s.switchAt != 0 && now >= s.switchAt && idle then Switched(s, uart, cleanup) else s;
    assert Inv(b, s1) by { hide Valid, WithSafeUart, RolledBack; }
    RollbackIsFine(b, s1, cleanup);
    var s2 := if s1.applied && now >= s1.deadline then RolledBack(s1, cleanup) else s1;
    assert Inv(b, s2);
    RollbackIsFine(b, s2.(rollbackAt := 0), cleanup);
    hide Inv, Switched, RolledBack;
  }

  lemma StepIsFine(b: Build, s: State, step: Step)
    requires Inv(b, s)
    ensures Inv(b, Next(b, s, step))
  {
    hide ApplyNow, DefaultNow, StageNow, ConfirmNow, Tick, Boot, Inv;
    match step
    case Defaulted => EditIsFine(b, s, map[]);
    case Staged(values) => EditIsFine(b, s, values);
    case Applied(now, write, network) => ApplyIsFine(b, s, now, write, network);
    case Reset(now, write, network) =>
      EditIsFine(b, s, map[]);
      ApplyIsFine(b, DefaultNow(s), now, write, network);
    case Confirmed(ready, write, cleanup) => ConfirmIsFine(b, s, ready, write, cleanup);
    case RollbackAsked(now) => AskingIsFine(b, s, now + DELAY_US);
    case Ticked(now, idle, uart, cleanup) => TickIsFine(b, s, now, idle, uart, cleanup);
    case PowerLost => BootIsFine(b, s.nvs.durable);
  }

  lemma AskingIsFine(b: Build, s: State, at: int)
    requires Inv(b, s)
    ensures Inv(b, s.(rollbackAt := at))
  {
    hide Valid, WithSafeUart;
  }

  // Whatever the flash store holds at first, and in every run after it: the
  // three configurations are valid; with nothing pending the one in force is
  // the confirmed one but for the UART; with a transaction pending and no UART
  // switch outstanding it is the one being tried.
  lemma {:induction false} RunIsFine(b: Build, durable: Option<Doc>, steps: seq<Step>)
    ensures Inv(b, After(b, durable, steps))
    decreases |steps|
  {
    if steps == [] {
      BootIsFine(b, durable);
    } else {
      var n := |steps| - 1;
      RunIsFine(b, durable, steps[..n]);
      hide Inv, Next, Boot;
      StepIsFine(b, After(b, durable, steps[..n]), steps[n]);
    }
  }

  // ---------------------------------------------------------------- the theorems

  lemma TickPersistsNothing(s: State, now: nat, idle: bool, uart: bool, cleanup: bool)
    ensures var s' := Tick(s, now, idle, uart, cleanup);
            s'.persisted == s.persisted && s'.revision == s.revision && s'.nvs.staged == s.nvs.staged
            && (s'.nvs.durable == s.nvs.durable || s'.nvs.durable == s.nvs.staged)
  {
    hide WithSafeUart;
  }

  // Only a confirmation that reached the flash moves the confirmed values and
  // the revision, and then both together.
  lemma OnlyConfirmationPersists(b: Build, s: State, step: Step)
    requires !step.PowerLost?
    ensures var s' := Next(b, s, step);
            (s'.persisted == s.persisted && s'.revision == s.revision)
            || (step.Confirmed? && step.write.Written? && s.applied && s.switchAt == 0
                && (step.ready || WifiSsid !in s.desired || s.desired[WifiSsid] == Text(""))
                && s'.persisted == s.desired && s'.revision == Succ(s.revision) && !s'.applied)
  {
    match step
    case Ticked(now, idle, uart, cleanup) =>
      TickPersistsNothing(s, now, idle, uart, cleanup);
      hide Tick;
    case _ =>
      hide WithUart, WithSafeUart, SameUart, SameNetwork, UsbAllows, Valid;
  }

  // The values are being tried, the UART switch is over, and if they name a
  // network it has given the device an address.
  predicate Vouches(s: State, step: Step, values: Config) {
    step.Confirmed? && s.applied && s.switchAt == 0 && s.desired == values
        && (WifiSsid in values && values[WifiSsid] != Text("") ==> step.ready)
  }

  ghost predicate Vouched(b: Build, durable: Option<Doc>, steps: seq<Step>, values: Config) {
    exists i | 0 <= i < |steps| :: Vouches(After(b, durable, steps[..i]), steps[i], values)
  }

  ghost predicate DocVouched(b: Build, durable: Option<Doc>, steps: seq<Step>, doc: Option<Doc>) {
    doc == durable || (doc.Some? && Valid(b, doc.value.values) && Vouched(b, durable, steps, doc.value.values))
  }

  ghost predicate AllVouched(b: Build, durable: Option<Doc>, steps: seq<Step>, s: State) {
    (s.persisted == Load(b, durable).values || Vouched(b, durable, steps, s.persisted))
    && DocVouched(b, durable, steps, s.nvs.staged) && DocVouched(b, durable, steps, s.nvs.durable)
  }

  lemma StaysVouched(b: Build, durable: Option<Doc>, steps: seq<Step>, n: nat, s: State)
    requires n <= |steps| && AllVouched(b, durable, steps[..n], s)
    ensures AllVouched(b, durable, steps, s)
  {
    hide After, Vouches, Valid, Load;
    forall values | Vouched(b, durable, steps[..n], values) ensures Vouched(b, durable, steps, values) {
      var i :| 0 <= i < n && Vouches(After(b, durable, steps[..n][..i]), steps[..n][i], values);
      assert steps[..n][..i] == steps[..i] && steps[..n][i] == steps[i];
      assert Vouches(After(b, durable, steps[..i]), steps[i], values);
    }
  }

  lemma StepVouches(b: Build, durable: Option<Doc>, steps: seq<Step>, s: State)
    requires steps != [] && s == After(b, durable, steps[..|steps| - 1])
    requires Inv(b, s) && AllVouched(b, durable, steps, s)
    ensures AllVouched(b, durable, steps, Next(b, s, steps[|steps| - 1]))
  {
    var n := |steps| - 1;
    hide After, Vouched, Valid;
    match steps[n]
    case Confirmed(ready, write, cleanup) =>
      assert Vouches(s, steps[n], s.desired) ==> Vouched(b, durable, steps, s.desired) by {
        VouchedBy(b, durable, steps, n, s.desired);
      }
      assert Inv(b, s);
    case PowerLost =>
      hide Inv, WithSafeUart, Defaults;
    case _ =>
      StepCommits(b, s, steps[n]);
      hide Next, Commits, Inv, Load;
  }

  lemma VouchedBy(b: Build, durable: Option<Doc>, steps: seq<Step>, i: nat, values: Config)
    requires i < |steps|
    ensures Vouches(After(b, durable, steps[..i]), steps[i], values) ==> Vouched(b, durable, steps, values)
  {
    hide Vouches, After;
  }

  // In every run the confirmed values, and every document the flash holds or is
  // about to, are those the device started with, or were confirmed at a step at
  // which their network, if they name one, had given the device an address.
  lemma {:induction false} OnlyReachedNetworksPersist(b: Build, durable: Option<Doc>, steps: seq<Step>)
    ensures AllVouched(b, durable, steps, After(b, durable, steps))
    decreases |steps|
  {
    if steps == [] {
      hide Valid, Defaults, WithSafeUart;
    } else {
      var n := |steps| - 1;
      OnlyReachedNetworksPersist(b, durable, steps[..n]);
      RunIsFine(b, durable, steps[..n]);
      hide AllVouched, Next, Inv, Boot;
      var s := After(b, durable, steps[..n]);
      StaysVouched(b, durable, steps, n, s);
      StepVouches(b, durable, steps, s);
    }
  }

  // A pending transaction is never edited: as long as it is pending its values
  // and its deadline stand.
  lemma PendingIsFrozen(b: Build, s: State, step: Step)
    requires s.applied && Next(b, s, step).applied
    ensures var s' := Next(b, s, step);
            s'.desired == s.desired && s'.deadline == s.deadline && s'.persisted == s.persisted
  {
  }

  // A tick at or past the deadline leaves nothing pending, and what is then in
  // force is the confirmed configuration on the safe UART settings.
  lemma DeadlineDecides(b: Build, s: State, now: nat, idle: bool, uart: bool, cleanup: bool)
    requires s.applied && now >= s.deadline
    ensures var s' := Next(b, s, Ticked(now, idle, uart, cleanup));
            !s'.applied && s'.desired == s.persisted && s'.effective == WithSafeUart(s.persisted)
            && s'.persisted == s.persisted && s'.switchAt == 0
  {
    TickDecides(s, now, idle, uart, cleanup);
    hide Tick, WithSafeUart;
  }

  lemma TickDecides(s: State, now: nat, idle: bool, uart: bool, cleanup: bool)
    requires s.applied && now >= s.deadline
    ensures var s' := Tick(s, now, idle, uart, cleanup);
            !s'.applied && s'.desired == s.persisted && s'.effective == WithSafeUart(s.persisted)
            && s'.persisted == s.persisted && s'.switchAt == 0
  {
    hide WithSafeUart, Commit;
    var s1 := if s.applied && s.switchAt != 0 && now >= s.switchAt && idle then Switched(s, uart, cleanup) else s;
    assert s1.persisted == s.persisted && (s1.applied ==> s1.deadline == s.deadline);
  }

  // A rollback that was asked for is tied to no transaction: a confirmation in
  // between does not stop it, and it then takes the confirmed configuration
  // off its UART settings; a transaction applied in between is dropped by it.
  lemma RollbackOutlivesConfirmation(b: Build, s: State, asked: nat, now: nat)
    requires Inv(b, s) && s.applied && s.switchAt == 0 && now >= asked + DELAY_US
    ensures var confirmed := Next(b, Next(b, s, RollbackAsked(asked)), Confirmed(true, Written, true));
            var later := Next(b, confirmed, Ticked(now, true, true, true));
            confirmed.effective == s.desired && later.persisted == s.desired
                && later.effective == WithSafeUart(s.desired)
  {
    hide Valid, WithSafeUart;
  }

  lemma RollbackHitsNextTransaction(b: Build, s: State, asked: nat, applied: nat, now: nat)
    requires Inv(b, s) && !s.applied && UsbAllows(b, s.desired) && now >= asked + DELAY_US
    ensures var pending := Next(b, Next(b, s, RollbackAsked(asked)), Applied(applied, Written, true));
            var later := Next(b, pending, Ticked(now, true, true, true));
            pending.applied && !later.applied && later.effective == WithSafeUart(s.persisted)
  {
    hide Valid, WithSafeUart, WithUart, SameUart, SameNetwork;
  }

  // -------------------------------------------------- final confirmations

  ghost function Onward(b: Build, s: State, steps: seq<Step>): State {
    if steps == [] then s else Next(b, Onward(b, s, steps[..|steps| - 1]), steps[|steps| - 1])
  }

  // No new transaction takes effect, no rollback is asked for, no power is lost.
  predicate LeavesAlone(step: Step) {
    match step
    case Applied(_, write, _) => !write.Written?
    case Reset(_, write, _) => !write.Written?
    case RollbackAsked(_) => false
    case PowerLost => false
    case _ => true
  }

  predicate AllLeaveAlone(steps: seq<Step>) { forall i | 0 <= i < |steps| :: LeavesAlone(steps[i]) }

  // Whatever then happens, the confirmed configuration stays in force, with its
  // UART settings.
  ghost predicate Final(b: Build, s: State) {
    forall steps | AllLeaveAlone(steps) ::
      var t := Onward(b, s, steps); t.effective == s.persisted && t.persisted == s.persisted
  }

  // Nothing pending, and what is confirmed is in force with its UART settings.
  predicate InForce(s: State, values: Config) {
    !s.applied && s.persisted == values && s.effective == values
        && (s.rollbackAt == 0 || WithSafeUart(values) == values)
  }

  lemma StepKeepsInForce(b: Build, s: State, step: Step, values: Config)
    requires InForce(s, values) && LeavesAlone(step)
    ensures InForce(Next(b, s, step), values)
  {
    hide Valid, WithUart, SameUart, SameNetwork, UsbAllows, Defaults;
  }

  lemma {:induction false} RunKeepsInForce(b: Build, s: State, steps: seq<Step>, values: Config)
    requires InForce(s, values) && AllLeaveAlone(steps)
    ensures InForce(Onward(b, s, steps), values)
    decreases |steps|
  {
    hide InForce, Next;
    if steps != [] {
      var n := |steps| - 1;
      RunKeepsInForce(b, s, steps[..n], values);
      StepKeepsInForce(b, Onward(b, s, steps[..n]), steps[n], values);
    }
  }

  // A confirmation is final if and only if no rollback was scheduled when it
  // was given, or the confirmed UART settings are the safe ones.
  lemma ConfirmationIsFinal(b: Build, s: State, confirm: Step)
    requires Inv(b, s) && s.applied && confirm.Confirmed? && !Next(b, s, confirm).applied
    ensures var c := Next(b, s, confirm);
            c.persisted == s.desired == c.effective && c.rollbackAt == s.rollbackAt
            && (Final(b, c) <==> s.rollbackAt == 0 || WithSafeUart(s.desired) == s.desired)
  {
    hide Valid, WithSafeUart;
    var c := Next(b, s, confirm);
    if s.rollbackAt == 0 || WithSafeUart(s.desired) == s.desired {
      assert InForce(c, s.desired);
      forall steps | AllLeaveAlone(steps)
        ensures InForce(Onward(b, c, steps), s.desired)
      {
        RunKeepsInForce(b, c, steps, s.desired);
      }
    } else {
      RollbackIsCarriedOut(b, c);
    }
  }

  lemma RollbackIsCarriedOut(b: Build, c: State)
    requires !c.applied && c.rollbackAt != 0 && WithSafeUart(c.persisted) != c.persisted
    ensures !Final(b, c)
  {
    hide WithSafeUart;
    var now: nat := if c.rollbackAt < 0 then 0 else c.rollbackAt;
    var steps := [Ticked(now, true, true, true)];
    assert steps[..0] == [] && AllLeaveAlone(steps);
    assert Onward(b, c, []) == c;
    var t := Onward(b, c, steps);
    assert t == RolledBack(c.(rollbackAt := 0), true);
  }

  // Ticks come before the deadline and switch the UART when it is due; the
  // transaction is not confirmed, no rollback is asked for, no power is lost.
  predicate GivesTime(step: Step, deadline: int) {
    match step
    case Ticked(now, _, uart, _) => now < deadline && uart
    case Confirmed(_, write, _) => !write.Written?
    case RollbackAsked(_) => false
    case PowerLost => false
    case _ => true
  }

  predicate AllGiveTime(steps: seq<Step>, deadline: int) {
    forall i | 0 <= i < |steps| :: GivesTime(steps[i], deadline)
  }

  ghost predicate Stands(b: Build, s: State) {
    forall steps | AllGiveTime(steps, s.deadline) ::
      var t := Onward(b, s, steps); t.applied && t.desired == s.desired && t.deadline == s.deadline
  }

  predicate Safe(s: State, values: Config, deadline: int) {
    s.applied && s.desired == values && s.deadline == deadline && (s.rollbackAt == 0 || s.rollbackAt >= deadline)
  }

  lemma StepKeepsSafe(b: Build, s: State, step: Step, values: Config, deadline: int)
    requires Safe(s, values, deadline) && GivesTime(step, deadline)
    ensures Safe(Next(b, s, step), values, deadline)
  {
    hide Valid, WithUart, WithSafeUart, SameUart, SameNetwork, UsbAllows, Defaults;
  }

  lemma {:induction false} RunKeepsSafe(b: Build, s: State, steps: seq<Step>, values: Config, deadline: int)
    requires Safe(s, values, deadline) && AllGiveTime(steps, deadline)
    ensures Safe(Onward(b, s, steps), values, deadline)
    decreases |steps|
  {
    hide Safe, Next;
    if steps != [] {
      var n := |steps| - 1;
      RunKeepsSafe(b, s, steps[..n], values, deadline);
      StepKeepsSafe(b, Onward(b, s, steps[..n]), steps[n], values, deadline);
    }
  }

  // A pending transaction is safe until its deadline if and only if no rollback
  // is scheduled before that.
  lemma TransactionStands(b: Build, s: State)
    requires s.applied && s.deadline > 0
    ensures Stands(b, s) <==> s.rollbackAt == 0 || s.rollbackAt >= s.deadline
  {
    if s.rollbackAt == 0 || s.rollbackAt >= s.deadline {
      forall steps | AllGiveTime(steps, s.deadline)
        ensures Safe(Onward(b, s, steps), s.desired, s.deadline)
      {
        RunKeepsSafe(b, s, steps, s.desired, s.deadline);
      }
    } else {
      hide WithSafeUart;
      var now: nat := if s.rollbackAt < 0 then 0 else s.rollbackAt;
      var steps := [Ticked(now, true, true, true)];
      assert steps[..0] == [] && AllGiveTime(steps, s.deadline);
      assert Onward(b, s, []) == s;
      assert !Onward(b, s, steps).applied;
    }
  }

  // ------------------------------------------------------------- the flash store

  // The tick takes the confirmed configuration back into force.
  predicate RollsBack(s: State, now: nat, idle: bool, uart: bool) {
    (s.applied && s.switchAt != 0 && now >= s.switchAt && idle && !uart)
    || (s.applied && now >= s.deadline)
    || (s.rollbackAt != 0 && now >= s.rollbackAt && idle)
  }

  // A commit that is not the one of a save succeeds.
  predicate Commits(b: Build, s: State, step: Step) {
    match step
    case Applied(_, write, _) => !s.applied && UsbAllows(b, s.desired) && write.Written?
    case Reset(_, write, _) => !s.applied && UsbAllows(b, Defaults()) && write.Written?
    case Ticked(now, idle, uart, cleanup) => RollsBack(s, now, idle, uart) && cleanup
    case _ => false
  }

  // It writes out what a save had left behind.
  predicate Flushes(b: Build, s: State, step: Step) { s.nvs.staged != s.nvs.durable && Commits(b, s, step) }

  // The durable document is the confirmed configuration; what a torn save left
  // in the store carries the number after it.
  ghost predicate StoreOk(b: Build, s: State) {
    var l := Load(b, s.nvs.durable);
    l.values == s.persisted && (s.revision <= INT_MAX ==> l.revision == s.revision)
    && (s.nvs.staged != s.nvs.durable ==>
          s.nvs.staged.Some? && s.nvs.staged.value.revision == Some(Succ(s.revision))
              && Valid(b, s.nvs.staged.value.values))
  }

  lemma TickCommits(s: State, now: nat, idle: bool, uart: bool, cleanup: bool)
    ensures var s' := Tick(s, now, idle, uart, cleanup);
            s'.nvs == Commit(s.nvs, RollsBack(s, now, idle, uart) && cleanup)
  {
    hide WithSafeUart;
  }

  // Every commit there is, but those of a confirmation.
  lemma StepCommits(b: Build, s: State, step: Step)
    requires !step.Confirmed? && !step.PowerLost?
    ensures var s' := Next(b, s, step);
            s'.nvs == Commit(s.nvs, Commits(b, s, step)) && s'.persisted == s.persisted && s'.revision == s.revision
  {
    match step
    case Ticked(now, idle, uart, cleanup) =>
      TickPersistsNothing(s, now, idle, uart, cleanup);
      TickCommits(s, now, idle, uart, cleanup);
      hide Tick, RollsBack;
    case _ =>
      hide Valid, WithSafeUart, WithUart, SameUart, SameNetwork, UsbAllows, Defaults;
  }

  lemma SaveKeepsStore(b: Build, s: State, ready: bool, write: Write, cleanup: bool)
    requires Inv(b, s) && StoreOk(b, s)
    ensures StoreOk(b, ConfirmNow(s, ready, write, cleanup))
  {
    hide Valid, WithSafeUart, Defaults;
  }

  lemma StepKeepsStore(b: Build, s: State, step: Step)
    requires Inv(b, s) && StoreOk(b, s) && !Flushes(b, s, step)
    ensures StoreOk(b, Next(b, s, step))
  {
    hide Valid, Defaults;
    match step
    case Confirmed(ready, write, cleanup) =>
      SaveKeepsStore(b, s, ready, write, cleanup);
    case PowerLost =>
      BootKeepsStore(b, s.nvs.durable);
    case _ =>
      StepCommits(b, s, step);
      hide Next, Commits, Inv, Load;
  }

  ghost predicate NeverFlushes(b: Build, durable: Option<Doc>, steps: seq<Step>) {
    forall i {:trigger steps[i]} | 0 <= i < |steps| :: !Flushes(b, After(b, durable, steps[..i]), steps[i])
  }

  lemma NoneFlushedBefore(b: Build, durable: Option<Doc>, steps: seq<Step>)
    requires NeverFlushes(b, durable, steps) && steps != []
    ensures var n := |steps| - 1;
            NeverFlushes(b, durable, steps[..n]) && !Flushes(b, After(b, durable, steps[..n]), steps[n])
  {
    hide After, Flushes;
    var n := |steps| - 1;
    forall i | 0 <= i < n ensures !Flushes(b, After(b, durable, steps[..n][..i]), steps[..n][i]) {
      assert steps[..n][..i] == steps[..i] && steps[..n][i] == steps[i];
    }
  }

  // As long as no commit but a save's own succeeds after a save that was torn
  // between write and commit, the flash holds the confirmed values with their
  // revision: a power loss at any moment costs no confirmed setting and adopts
  // no other.
  lemma {:induction false} FlashHoldsTheConfirmed(b: Build, durable: Option<Doc>, steps: seq<Step>)
    requires NeverFlushes(b, durable, steps)
    ensures StoreOk(b, After(b, durable, steps))
    ensures var s := After(b, durable, steps);
            var s' := Next(b, s, PowerLost);
            s'.persisted == s.persisted && (s.revision <= INT_MAX ==> s'.revision == s.revision)
    decreases |steps|
  {
    if steps == [] {
      BootKeepsStore(b, durable);
    } else {
      var n := |steps| - 1;
      NoneFlushedBefore(b, durable, steps);
      hide Inv, StoreOk, Next, Boot, NeverFlushes, Flushes;
      FlashHoldsTheConfirmed(b, durable, steps[..n]);
      RunIsFine(b, durable, steps[..n]);
      StepKeepsStore(b, After(b, durable, steps[..n]), steps[n]);
    }
    hide After, Inv;
    PowerLossKeeps(b, After(b, durable, steps));
  }

  lemma BootKeepsStore(b: Build, durable: Option<Doc>)
    ensures StoreOk(b, Boot(b, durable))
  {
    hide Valid, Defaults;
  }

  lemma PowerLossKeeps(b: Build, s: State)
    requires StoreOk(b, s)
    ensures var s' := Next(b, s, PowerLost);
            s'.persisted == s.persisted && (s.revision <= INT_MAX ==> s'.revision == s.revision)
  {
    hide Load;
  }

  // The condition is exact: in every run, the first commit that writes out a
  // torn save makes the next boot adopt what was never confirmed.
  lemma FlushAdoptsTheUnconfirmed(b: Build, durable: Option<Doc>, steps: seq<Step>, step: Step)
    requires NeverFlushes(b, durable, steps) && Flushes(b, After(b, durable, steps), step)
    requires After(b, durable, steps).revision < INT_MAX
    ensures var s := After(b, durable, steps);
            var booted := Next(b, Next(b, s, step), PowerLost);
            s.nvs.staged.Some? && booted.persisted == s.nvs.staged.value.values && booted.revision == s.revision + 1
            && Next(b, s, step).revision == s.revision && !StoreOk(b, Next(b, s, step))
  {
    hide After, StoreOk, Next, Flushes, NeverFlushes;
    FlashHoldsTheConfirmed(b, durable, steps);
    var s := After(b, durable, steps);
    FlushWritesOut(b, s, step);
    BootAdopts(b, Next(b, s, step), s.nvs.staged.value, s.revision + 1);
  }

  lemma FlushWritesOut(b: Build, s: State, step: Step)
    requires StoreOk(b, s) && Flushes(b, s, step)
    ensures var t := Next(b, s, step);
            s.nvs.staged.Some? && s.nvs.staged.value.revision == Some(Succ(s.revision))
            && Valid(b, s.nvs.staged.value.values) && t.nvs.durable == s.nvs.staged && t.revision == s.revision
  {
    assert !step.Confirmed? && !step.PowerLost?;
    StepCommits(b, s, step);
    hide Next, Commits, Load, Valid;
  }

  lemma BootAdopts(b: Build, s: State, doc: Doc, revision: u32)
    requires s.nvs.durable == Some(doc) && Valid(b, doc.values) && doc.revision == Some(revision) && revision <= INT_MAX
    ensures var booted := Next(b, s, PowerLost); booted.persisted == doc.values && booted.revision == revision
    ensures s.revision + 1 == revision ==> !StoreOk(b, s)
  {
    hide Valid, Defaults;
  }

  // Such a flush happens: the commit of the rollback that follows a torn save
  // writes it out.
  lemma TornSaveComesBack(b: Build, s: State, now: nat)
    requires Inv(b, s) && s.applied && s.switchAt == 0 && now >= s.deadline && s.revision < INT_MAX
    ensures var torn := Next(b, s, Confirmed(true, Torn, true));
            var back := Next(b, torn, Ticked(now, true, true, true));
            var booted := Next(b, back, PowerLost);
            torn.persisted == s.persisted && back.persisted == s.persisted && !back.applied
            && booted.persisted == s.desired && booted.revision == s.revision + 1
  {
    hide Valid, WithSafeUart;
    var torn := Next(b, s, Confirmed(true, Torn, true));
    assert torn == s.(nvs := s.nvs.(staged := Some(Doc(Some(s.revision + 1), s.desired))));
    var back := Next(b, torn, Ticked(now, true, true, true));
    assert back.nvs.durable == Some(Doc(Some(s.revision + 1), s.desired));
  }

  // Beyond an int the number read back at boot is not the one written.
  lemma LargeRevisionsSaturate(b: Build, s: State)
    requires Inv(b, s) && StoreOk(b, s) && s.nvs.durable == Some(Doc(Some(s.revision), s.persisted))
             && s.revision > INT_MAX
    ensures Next(b, s, PowerLost).revision == INT_MAX
  {
  }
}
