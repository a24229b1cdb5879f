/**
  The management task's configuration code over its own variables, proved
  against ConfigTransaction.Next.  Failures of the flash store and of the radio
  and UART drivers are arguments.
  */
module ConfigCode {
  import opened Frames
  import opened DeviceConfig
  import opened ConfigTransaction

  class Management {
    const build: Build
    var desired: Config
    var effective: Config
    var persisted: Config
    var revision: u32
    var applied: bool
    var confirmDeadline: int
    var switchAt: int
    var rollbackAt: int
    var staged: Option<Doc>
    var durable: Option<Doc>

    function View(): State
      reads this
    {
      State(desired, effective, persisted, revision, applied, confirmDeadline, switchAt, rollbackAt,
            Store(staged, durable))
    }

    // What u2_management_init makes of the stored document.
    constructor (b: Build, stored: Option<Doc>)
      ensures build == b && View() == Boot(b, stored)
    {
      build := b;
      persisted, revision := Defaults(), 1;
      desired, effective := map[], map[];
      applied, confirmDeadline, switchAt, rollbackAt := false, 0, 0, 0;
      staged, durable := stored, stored;
      new;
      hide Valid, Defaults, WithSafeUart;
      persisted, revision := Stored(b, stored);
      desired := persisted;
      effective := WithSafeUart(persisted);
    }

    static method Stored(b: Build, stored: Option<Doc>) returns (values: Config, revision: u32)
      ensures Loaded(values, revision) == Load(b, stored)
    {
      hide Valid, Defaults;
      values, revision := Defaults(), 1;
      if stored.Some? {
        var ok := Validate(b, stored.value.values);
        if ok {
          values := stored.value.values;
          var r := stored.value.revision;
          if r.Some? { revision := if r.value > INT_MAX then INT_MAX else r.value; }
        }
      }
    }

    method Defaulted() returns (ok: bool)
      modifies this
      ensures View() == DefaultNow(old(View())) && ok == !old(applied)
      ensures desired == if ok then Defaults() else old(desired)
    {
      if applied { return false; }
      desired := Defaults();
      return true;
    }

    // config.stage: the present UART settings unless the caller names others,
    // then the caller's values one by one, then validation of the whole.
    method Stage(values: Config) returns (ok: bool)
      requires UartBaud in effective && UartFlowControl in effective
      modifies this
      ensures View() == StageNow(build, old(View()), values)
      ensures ok <==> !old(applied) && !(build.usb && (UartBaud in values || UartFlowControl in values))
                      && Valid(build, WithUart(old(desired), old(effective)) + values)
      ensures !ok ==> desired == old(desired)
      ensures ok ==>
                forall k: Key ::
                  (k in desired <==> k in old(desired) || k in values || k in {UartBaud, UartFlowControl})
                  && (k in values ==> desired[k] == values[k])
                  && (k !in values && k in {UartBaud, UartFlowControl} ==> desired[k] == old(effective)[k])
                  && (k !in values && k in old(desired) && k !in {UartBaud, UartFlowControl} ==>
                        desired[k] == old(desired)[k])
    {
      hide Valid, Defaults;
      if applied { return false; }
      if build.usb && (UartBaud in values || UartFlowControl in values) { return false; }
      var candidate := Overlaid(values);
      ok := Validate(build, candidate);
      if ok { desired := candidate; }
    }

    method Overlaid(values: Config) returns (candidate: Config)
      requires UartBaud in effective && UartFlowControl in effective
      ensures candidate == WithUart(desired, effective) + values
    {
      candidate := desired;
      if UartBaud !in values { candidate := candidate[UartBaud := effective[UartBaud]]; }
      if UartFlowControl !in values { candidate := candidate[UartFlowControl := effective[UartFlowControl]]; }
      assert candidate + values == WithUart(desired, effective) + values;
      candidate := Merge(candidate, values);
    }

    static method Merge(base: Config, values: Config) returns (merged: Config)
      ensures merged == base + values
    {
      merged := base;
      var rest := values.Keys;
      while rest != {}
        invariant rest <= values.Keys
        invariant merged.Keys == base.Keys + (values.Keys - rest)
        invariant forall k | k in merged :: merged[k] == if k in values && k !in rest then values[k] else base[k]
        decreases |rest|
      {
        var k :| k in rest;
        merged := merged[k := values[k]];
        rest := rest - {k};
      }
    }

    method NetworkChanged() returns (changed: bool)
      ensures changed == !SameNetwork(effective, desired)
    {
      var keys := [WifiSsid, WifiPassword, WifiHostname, IpDhcp, IpAddress, IpGateway, IpNetmask, IpDns];
      changed := false;
      for i := 0 to |keys|
        invariant changed <==> exists j | 0 <= j < i ::
                    !(keys[j] in effective && keys[j] in desired && effective[keys[j]] == desired[keys[j]])
      {
        if !(keys[i] in effective && keys[i] in desired && effective[keys[i]] == desired[keys[i]]) { changed := true; }
      }
    }

    method Apply(now: nat, write: Write, network: bool) returns (ok: bool)
      modifies this
      ensures View() == ApplyNow(build, old(View()), now, write, network)
      ensures applied <==>
                old(applied)
                || (write.Written?
                    && (build.usb ==>
                          UartBaud in old(desired) && old(desired)[UartBaud] == Number(115200)
                          && UartFlowControl in old(desired) && old(desired)[UartFlowControl] == Flag(false)))
      ensures ok <==> applied && !old(applied) && (network || SameNetwork(old(effective), old(desired)))
      ensures desired == old(desired) && persisted == old(persisted) && revision == old(revision)
      ensures applied && !old(applied) ==> confirmDeadline == now + 30_000_000
      ensures applied && !old(applied) && UartBaud in old(effective) && UartFlowControl in old(effective) ==>
                effective == desired[UartBaud := old(effective)[UartBaud]]
                                    [UartFlowControl := old(effective)[UartFlowControl]]
    {
      hide SameNetwork, SameUart;
      if applied { return false; }
      if !UsbAllows(build, desired) { return false; }
      if !write.Written? { return false; }
      var networkChanged := NetworkChanged();
      durable := staged;
      var uartChanged := !SameUart(effective, desired);
      applied := true;
      confirmDeadline := now + CONFIRM_US;
      switchAt := if uartChanged then now + DELAY_US else 0;
      effective := WithUart(desired, effective);
      if networkChanged && !network {
        rollbackAt := now + DELAY_US;
        return false;
      }
      return true;
    }

    method Confirm(ready: bool, write: Write, cleanup: bool) returns (ok: bool)
      modifies this
      ensures View() == ConfirmNow(old(View()), ready, write, cleanup)
      ensures ok <==> old(applied) && old(switchAt) == 0 && write.Written?
                      && (ready || WifiSsid !in old(desired) || old(desired)[WifiSsid] == Text(""))
      ensures ok ==> persisted == old(desired) && revision == Succ(old(revision)) && !applied && confirmDeadline == 0
                     && durable == Some(Doc(Some(revision), persisted))
      ensures !ok ==> persisted == old(persisted) && revision == old(revision) && applied == old(applied)
                      && durable == old(durable)
      ensures desired == old(desired) && effective == old(effective) && rollbackAt == old(rollbackAt)
    {
      if !applied || switchAt != 0 { return false; }
      if WifiSsid in desired && desired[WifiSsid] != Text("") && !ready { return false; }
      if write.Refused? { return false; }
      staged := Some(Doc(Some(Succ(revision)), desired));
      if write.Torn? { return false; }
      durable := staged;
      revision := Succ(revision);
      persisted := desired;
      applied := false;
      confirmDeadline := 0;
      if cleanup { durable := staged; }
      return true;
    }

    method Rollback(cleanup: bool)
      modifies this
      ensures View() == RolledBack(old(View()), cleanup)
    {
      applied := false;
      confirmDeadline := 0;
      switchAt := 0;
      desired := persisted;
      effective := persisted[UartBaud := Number(115200)][UartFlowControl := Flag(false)];
      if cleanup { durable := staged; }
    }

    method Tick(now: nat, idle: bool, uart: bool, cleanup: bool)
      modifies this
      ensures View() == ConfigTransaction.Tick(old(View()), now, idle, uart, cleanup)
      ensures old(applied) && now >= old(confirmDeadline) ==> !applied
      ensures var due := old(applied) && old(switchAt) != 0 && now >= old(switchAt) && idle;
              var called := old(rollbackAt) != 0 && now >= old(rollbackAt) && idle;
              old(applied) && now < old(confirmDeadline) && !called && (uart || !due) ==>
                applied && desired == old(desired)
                && effective == (if due then desired else old(effective))
                && switchAt == (if due then 0 else old(switchAt))
      ensures persisted == old(persisted) && revision == old(revision)
      ensures (old(applied) && now >= old(confirmDeadline))
              || (old(rollbackAt) != 0 && now >= old(rollbackAt) && idle) ==>
                !applied && desired == persisted
                && effective == persisted[UartBaud := Number(115200)][UartFlowControl := Flag(false)]
      ensures !old(applied) && !(old(rollbackAt) != 0 && now >= old(rollbackAt) && idle) ==> View() == old(View())
    {
      if applied && switchAt != 0 && now >= switchAt && idle {
        if !uart {
          Rollback(cleanup);
        } else {
          effective := desired;
          switchAt := 0;
        }
      }
      if applied && now >= confirmDeadline { Rollback(cleanup); }
      if rollbackAt != 0 && now >= rollbackAt && idle {
        rollbackAt := 0;
        Rollback(cleanup);
      }
    }
  }
}
