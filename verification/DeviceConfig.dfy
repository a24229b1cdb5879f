/**
  The device's configuration transaction: values being edited, in force and
  confirmed; a confirmation deadline, a delayed UART switch, a scheduled
  rollback, and the flash store with its separate write and commit.
  Time is the device's microsecond clock; zero means "not set".
  */
module DeviceConfig {
  import opened Frames

  // ---------------------------------------------------------------------- values

  datatype Key =
    | WifiSsid | WifiPassword | WifiHostname
    | IpDhcp | IpAddress | IpGateway | IpNetmask | IpDns
    | UartBaud | UartFlowControl
    | TcpConnectTimeout | TcpIdleTimeout | TelemetryInterval | LogsLevel
    | Unknown(name: string)

  // Number: a whole number that fits an int.
  datatype Value = Text(text: string) | Flag(on: bool) | Number(n: int) | Other

  type Config = map<Key, Value>

  // What the build and the platform decide: native USB instead of a UART, the
  // flow-control pins, and inet_pton.
  datatype Build = Build(usb: bool, flowPins: bool, ipv4: string -> bool)

  function Keys(): seq<Key> {
    [WifiSsid, WifiPassword, WifiHostname, IpDhcp, IpAddress, IpGateway, IpNetmask, IpDns,
     UartBaud, UartFlowControl, TcpConnectTimeout, TcpIdleTimeout, TelemetryInterval, LogsLevel]
  }

  predicate Between(low: int, n: int, high: int) { low <= n <= high }

  predicate FieldOk(k: Key, v: Value) {
    match k
    case WifiSsid => v.Text? && |v.text| <= 32
    case WifiPassword => v.Text? && |v.text| <= 64
    case WifiHostname => v.Text? && Between(1, |v.text|, 32)
    case IpDhcp => v.Flag?
    case IpAddress => v.Text? && Between(7, |v.text|, 15)
    case IpGateway => v.Text? && Between(7, |v.text|, 15)
    case IpNetmask => v.Text? && Between(7, |v.text|, 15)
    case IpDns => v.Text? && Between(7, |v.text|, 15)
    case UartBaud => v.Number? && Between(9600, v.n, 3000000)
    case UartFlowControl => v.Flag?
    case TcpConnectTimeout => v.Number? && Between(1000, v.n, 120000)
    case TcpIdleTimeout => v.Number? && Between(1000, v.n, 86400000)
    case TelemetryInterval => v.Number? && Between(250, v.n, 60000)
    case LogsLevel => v.Number? && Between(0, v.n, 5)
    case Unknown(_) => false
  }

  function Default(k: Key): Value {
    match k
    case WifiSsid => Text("")
    case WifiPassword => Text("")
    case WifiHostname => Text("uart2llm")
    case IpDhcp => Flag(true)
    case IpAddress => Text("192.168.1.50")
    case IpGateway => Text("192.168.1.1")
    case IpNetmask => Text("255.255.255.0")
    case IpDns => Text("1.1.1.1")
    case UartBaud => Number(115200)
    case UartFlowControl => Flag(false)
    case TcpConnectTimeout => Number(30000)
    case TcpIdleTimeout => Number(300000)
    case TelemetryInterval => Number(1000)
    case LogsLevel => Number(3)
    case Unknown(_) => Other
  }

  function Defaults(): Config { map k | k in Keys() :: Default(k) }

  predicate Hex(c: char) { '0' <= c <= '9' || 'a' <= c <= 'f' || 'A' <= c <= 'F' }

  predicate HostChar(c: char) { 'a' <= c <= 'z' || 'A' <= c <= 'Z' || '0' <= c <= '9' || c == '-' }

  predicate PasswordOk(p: string) {
    (p == "" || 8 <= |p|) && (|p| == 64 ==> forall i | 0 <= i < 64 :: Hex(p[i]))
  }

  ghost predicate Shaped(o: Config) {
    forall k: Key :: (k in o <==> !k.Unknown?) && (k in o ==> FieldOk(k, o[k]))
  }

  predicate HostOk(host: string) { forall i | 0 <= i < |host| :: HostChar(host[i]) }

  predicate AddressesOk(b: Build, address: string, gateway: string, netmask: string, dns: string) {
    b.ipv4(address) && b.ipv4(gateway) && b.ipv4(netmask) && b.ipv4(dns)
  }

  ghost predicate NetworkOk(b: Build, o: Config)
    requires Shaped(o)
  {
    && PasswordOk(o[WifiPassword].text) && HostOk(o[WifiHostname].text)
    && (!o[IpDhcp].on ==>
          AddressesOk(b, o[IpAddress].text, o[IpGateway].text, o[IpNetmask].text, o[IpDns].text))
  }

  ghost predicate Valid(b: Build, o: Config) {
    Shaped(o) && NetworkOk(b, o) && (o[UartFlowControl].on ==> b.flowPins)
  }

  lemma KeysAreAll(k: Key)
    ensures k in Keys() <==> !k.Unknown?
  {
    var all := Keys();
    assert all[0] == WifiSsid && all[1] == WifiPassword && all[2] == WifiHostname && all[3] == IpDhcp;
    assert all[4] == IpAddress && all[5] == IpGateway && all[6] == IpNetmask && all[7] == IpDns;
    assert all[8] == UartBaud && all[9] == UartFlowControl && all[10] == TcpConnectTimeout;
    assert all[11] == TcpIdleTimeout && all[12] == TelemetryInterval && all[13] == LogsLevel;
  }

  // The validation the code does, loop by loop.
  method CheckShape(o: Config) returns (ok: bool)
    ensures ok <==> Shaped(o)
  {
    hide FieldOk, Keys;
    var rest := o.Keys;
    while rest != {}
      invariant rest <= o.Keys
      invariant forall k | k in o && k !in rest :: !k.Unknown?
      decreases |rest|
    {
      var k :| k in rest;
      KeysAreAll(k);
      if k !in Keys() { return false; }
      rest := rest - {k};
    }
    var keys := Keys();
    for i := 0 to |keys|
      invariant forall j | 0 <= j < i :: keys[j] in o && FieldOk(keys[j], o[keys[j]])
    {
      KeysAreAll(keys[i]);
      if keys[i] !in o || !FieldOk(keys[i], o[keys[i]]) { return false; }
    }
    forall k: Key ensures (k in o <==> !k.Unknown?) && (k in o ==> FieldOk(k, o[k])) { KeysAreAll(k); }
    return true;
  }

  method CheckPassword(password: string) returns (ok: bool)
    ensures ok <==> PasswordOk(password)
  {
    if password != "" && |password| < 8 { return false; }
    if |password| == 64 {
      for i := 0 to 64
        invariant forall j | 0 <= j < i :: Hex(password[j])
      {
        if !Hex(password[i]) { return false; }
      }
    }
    return true;
  }

  method Validate(b: Build, o: Config) returns (ok: bool)
    ensures ok <==> Valid(b, o)
  {
    var shaped := CheckShape(o);
    if !shaped { return false; }
    assert FieldOk(WifiPassword, o[WifiPassword]) && FieldOk(WifiHostname, o[WifiHostname]);
    var passwordOk := CheckPassword(o[WifiPassword].text);
    if !passwordOk { return false; }
    var host := o[WifiHostname].text;
    for i := 0 to |host|
      invariant forall j | 0 <= j < i :: HostChar(host[j])
    {
      if !HostChar(host[i]) { return false; }
    }
    if o[UartFlowControl].on && !b.flowPins { return false; }
    return o[IpDhcp].on
           || AddressesOk(b, o[IpAddress].text, o[IpGateway].text, o[IpNetmask].text, o[IpDns].text);
  }

  // The UART runs with the values of u, the rest as in o.
  function WithUart(o: Config, u: Config): Config {
    o[UartBaud := if UartBaud in u then u[UartBaud] else Other]
     [UartFlowControl := if UartFlowControl in u then u[UartFlowControl] else Other]
  }

  function WithSafeUart(o: Config): Config { o[UartBaud := Number(115200)][UartFlowControl := Flag(false)] }

  lemma DefaultFits(k: Key)
    requires !k.Unknown?
    ensures FieldOk(k, Default(k))
  {
  }

  lemma DefaultsAreShaped()
    ensures Shaped(Defaults())
    ensures forall k: Key | !k.Unknown? :: Defaults()[k] == Default(k)
  {
    hide Keys, FieldOk, Default;
    forall k: Key ensures (k in Defaults() <==> !k.Unknown?) && (k in Defaults() ==> FieldOk(k, Defaults()[k])) {
      KeysAreAll(k);
      if !k.Unknown? { DefaultFits(k); }
    }
  }

  lemma DefaultsAreValid(b: Build)
    ensures Valid(b, Defaults())
  {
    DefaultsAreShaped();
    hide Keys, FieldOk, AddressesOk, Defaults;
    var o := Defaults();
    assert o[WifiPassword] == Text("") && o[WifiHostname] == Text("uart2llm");
    assert o[IpDhcp] == Flag(true) && o[UartFlowControl] == Flag(false);
    assert HostOk("uart2llm");
  }

  // Two valid configurations may trade their UART settings.
  lemma UartIsIndependent(b: Build, o: Config, u: Config)
    requires Valid(b, o) && Valid(b, u)
    ensures Valid(b, WithUart(o, u)) && Valid(b, WithSafeUart(o))
  {
    hide PasswordOk, HostOk, AddressesOk, FieldOk;
    SafeUartFits();
    UartFits(o, u[UartBaud], u[UartFlowControl]);
    UartFits(o, Number(115200), Flag(false));
  }

  lemma SafeUartFits()
    ensures FieldOk(UartBaud, Number(115200)) && FieldOk(UartFlowControl, Flag(false))
  {
  }

  lemma UartFits(o: Config, baud: Value, flow: Value)
    requires Shaped(o) && FieldOk(UartBaud, baud) && FieldOk(UartFlowControl, flow)
    ensures Shaped(o[UartBaud := baud][UartFlowControl := flow])
  {
    hide FieldOk;
  }
}
