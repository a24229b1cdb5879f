/**
  Both ends and the medium between them, as one system of interleaved steps.
  The medium is two sets of frames that were ever transmitted: delivering any
  member at any time covers loss, repetition and reordering.
  */
module LinkSystem {
  import opened Frames
  import opened LinkHistory
  import H = LinkHost
  import D = LinkDevice

  datatype System = System(
    host: H.Host, device: D.Device,
    toDevice: set<Frame>, toHost: set<Frame>,
    down: History,           // host to device
    up: History,             // device to host
    used: set<u32>,          // sessions of all host links so far
    adopted: set<u32>)       // sessions the device has been in
  {
    ghost predicate Wide() { host.Wide() && device.Wide() }
  }

  // Before the first connection: no link is open and the device has booted.
  function Init(): (s: System)
    ensures s.Wide()
  {
    System(H.NewHost(0).(closed := true), D.Booted(), {}, {}, NO_HISTORY, NO_HISTORY, {}, {})
  }

  datatype Step =
    // host: link object, handshake, reader and writer goroutines
    | NewLink(session: u32)
    | CloseLink
    | QueueHello
    | HandshakeDone
    | HostReceives(frame: Frame)
    | QueueControl
    | QueueAbort(channel: byte, open: u32)
    | WriteHigh
    | WriteChannel(channel: byte)
    // host: one send per channel
    | SendBegins(channel: byte, kind: byte, payload: seq<byte>)
    | SendReacts(channel: byte, event: H.Event)
    // host: users of the channels
    | ConnOpens(channel: byte)
    | ConnReads(channel: byte)
    | ConnFreed(channel: byte)
    | ReplyRead
    // device: receive task and resets
    | DeviceReceives(frame: Frame)
    | WrapResets
    | WorkerResets(channel: byte)
    | CountersCleared
    | QueuesCleared
    | SessionPublished
    // device: workers and users
    | WorkerDoes(channel: byte, deed: D.Deed)
    | DeviceQueues(channel: byte, message: D.Message)
    | DeviceTakes(channel: byte)

  const MAX_RETRIES := 10

  predicate Enabled(s: System, step: Step)
    requires s.Wide()
  {
    var h, d := s.host, s.device;
    match step
    case NewLink(session) => h.closed && session != 0 && session !in s.used
    case CloseLink => !h.closed
    case QueueHello => !h.closed && !h.ready && |h.high| < H.HIGH_QUEUE
    case HandshakeDone => !h.closed && h.hello
    case HostReceives(f) => !h.closed && h.control.None? && f in s.toHost && f.channel < CHANNELS
    case QueueControl => !h.closed && h.control.Some? && |h.high| < H.HIGH_QUEUE
    case QueueAbort(c, open) => !h.closed && IsDataChannel(c) && |h.high| < H.HIGH_QUEUE
    case WriteHigh => !h.closed && h.high != []
    case WriteChannel(c) => !h.closed && c < CHANNELS && h.channels[c].outgoing.Some?
    case SendBegins(c, kind, payload) =>
      !h.closed && h.ready && c < CHANNELS && h.channels[c].sending.Idle? &&
      OPEN <= kind <= ERROR && |payload| <= MAX_PAYLOAD
    case SendReacts(c, e) => !h.closed && c < CHANNELS && CanReact(h.channels[c], e)
    case ConnOpens(c) => !h.closed && c < CHANNELS && IsDataChannel(c) && h.channels[c].conn.None?
    case ConnReads(c) =>
      !h.closed && c < CHANNELS && h.channels[c].conn.Some? && h.channels[c].conn.value.incoming != []
    case ConnFreed(c) => !h.closed && c < CHANNELS && h.channels[c].conn.Some?
    case ReplyRead => !h.closed && h.replies != []
    case DeviceReceives(f) => d.reset.Unlocked? && d.wrapped.None? && f in s.toDevice && f.channel < CHANNELS
    case WrapResets => d.reset.Unlocked? && d.wrapped.Some?
    case WorkerResets(c) => d.reset.Unlocked? && c < CHANNELS && d.lanes[c].worker.Resetting?
    case CountersCleared => d.reset.Zeroed?
    case QueuesCleared => d.reset.Counted?
    case SessionPublished => d.reset.Emptied?
    case WorkerDoes(c, deed) => c < CHANNELS && D.CanDo(d.lanes[c], deed)
    case DeviceQueues(c, m) =>
      c < CHANNELS && OPEN <= m.kind <= ERROR && |m.payload| <= MAX_PAYLOAD && |d.lanes[c].tx| < D.TxCapacity(c)
    case DeviceTakes(c) => c < CHANNELS && d.lanes[c].rx != []
  }

  // Which events can reach a sender: queue space, a pending signal, or time.
  predicate CanReact(ch: H.Channel, e: H.Event) {
    match e
    case Queued => ch.sending.Enqueueing? && ch.outgoing.None?
    case Cancelled => !ch.sending.Idle?
    case AckIs(n) => ch.sending.Waiting? && ch.ack != [] && ch.ack[0] == n
    case BusyIs(n) => ch.sending.Waiting? && ch.busy != [] && ch.busy[0] == n
    case TimerFired => ch.sending.Waiting?
  }

  function OnHost(s: System, c: byte, ch: H.Channel): System
    requires s.Wide() && c < CHANNELS
  {
    s.(host := s.host.(channels := s.host.channels[c := ch]))
  }

  function OnLane(s: System, c: byte, lane: D.Lane): System
    requires s.Wide() && c < CHANNELS
  {
    s.(device := s.device.(lanes := s.device.lanes[c := lane]))
  }

  function Only(f: Option<Frame>): set<Frame> { if f.Some? then {f.value} else {} }

  // ------------------------------------------------------------- host steps

  function HostReceive(s: System, f: Frame): System
    requires s.Wide() && f.channel < CHANNELS
  {
    var s' := s.(host := H.Accepted(s.host, f));
    if H.Judge(s.host, f).Accept? then s'.(up := Take(s.up, f)) else s'
  }

  function SendReact(s: System, c: byte, e: H.Event): System
    requires s.Wide() && c < CHANNELS && CanReact(s.host.channels[c], e)
  {
    var ch := s.host.channels[c];
    var r := H.React(ch.sending, ch.sequence, e, MAX_RETRIES);
    var ch' := ch.(sending := r.sending, sequence := r.sequence,
                   outgoing := if e.Queued? then Some(ch.sending.frame) else ch.outgoing,
                   ack := if e.AckIs? then ch.ack[1..] else ch.ack,
                   busy := if e.BusyIs? then ch.busy[1..] else ch.busy);
    var s' := OnHost(s, c, ch');
    var s'' := s'.(host := s'.host.(closed := r.closes));
    if e.Queued? then s''.(down := Record(s.down, ch.sending.frame))
    else if e.AckIs? && e.seq_ == ch.sending.frame.sequence then s''.(down := Finish(s.down, ch.sending.frame))
    else s''
  }

  // ----------------------------------------------------------- device steps

  // A HELLO for another session resets; the acknowledgement follows the reset.
  function DeviceReceive(s: System, f: Frame): System
    requires s.Wide() && f.channel < CHANNELS && s.device.reset.Unlocked?
  {
    if D.IsHello(f) then
      if f.session == s.device.session then s.(toHost := s.toHost + {D.ControlFrame(HELLO_ACK, f)})
      else s.(device := D.BeginReset(s.device, 0, f.session))
    else
      var s' := s.(device := D.Received(s.device, f),
                   toHost := s.toHost + Only(D.Reply(s.device, f)));
      if D.Judge(s.device, f).Accept? then s'.(down := Take(s.down, f)) else s'
  }

  function SessionPublish(s: System): System
    requires s.Wide() && s.device.reset.Emptied?
  {
    var r := s.device.reset.replacement;
    var s' := s.(device := D.Publish(s.device));
    if r == 0 then s'
    else s'.(adopted := s.adopted + {r}, toHost := s.toHost + {Frame(HELLO_ACK, r, 0, 0, [])})
  }

  function WorkerDo(s: System, c: byte, deed: D.Deed): System
    requires s.Wide() && c < CHANNELS && D.CanDo(s.device.lanes[c], deed)
  {
    var lane := s.device.lanes[c];
    var s' := OnLane(s, c, D.Do(lane, c, s.device.session, deed));
    if deed.Transmit? then s'.(toHost := s.toHost + {lane.worker.frame}, up := Record(s.up, lane.worker.frame))
    else if deed.Conclude? && lane.worker.ok && lane.worker.frame.session == s.device.session
      then s'.(up := Finish(s.up, lane.worker.frame))
    else s'
  }

  // --------------------------------------------------------------- one step

  function Apply(s: System, step: Step): (s': System)
    requires s.Wide() && Enabled(s, step)
    ensures s'.Wide()
  {
    var h, d := s.host, s.device;
    match step
    case NewLink(session) => s.(host := H.NewHost(session), used := s.used + {session})
    case CloseLink => s.(host := h.(closed := true))
    case QueueHello => s.(host := h.(high := h.high + [Frame(HELLO, h.session, 0, 0, [])]))
    case HandshakeDone => s.(host := h.(ready := true, hello := false))
    case HostReceives(f) => HostReceive(s, f)
    case QueueControl => s.(host := h.(high := h.high + [h.control.value], control := None))
    case QueueAbort(c, open) => s.(host := h.(high := h.high + [Frame(ABORT, h.session, c, open, [])]))
    case WriteHigh => s.(host := h.(high := h.high[1..]), toDevice := s.toDevice + {h.high[0]})
    case WriteChannel(c) =>
      OnHost(s, c, h.channels[c].(outgoing := None)).(toDevice := s.toDevice + {h.channels[c].outgoing.value})
    case SendBegins(c, kind, payload) =>
      var f := Frame(kind, h.session, c, h.channels[c].sequence, payload);
      OnHost(s, c, h.channels[c].(sending := H.Enqueueing(f, 0, false, false)))
    case SendReacts(c, e) => SendReact(s, c, e)
    case ConnOpens(c) => OnHost(s, c, h.channels[c].(conn := Some(H.Conn([], false))))
    case ConnReads(c) =>
      var conn := h.channels[c].conn.value;
      OnHost(s, c, h.channels[c].(conn := Some(conn.(incoming := conn.incoming[1..]))))
    case ConnFreed(c) => OnHost(s, c, h.channels[c].(conn := None))
    case ReplyRead => s.(host := h.(replies := h.replies[1..]))
    case DeviceReceives(f) => DeviceReceive(s, f)
    case WrapResets => s.(device := D.BeginReset(d, d.wrapped.value, 0).(wrapped := None))
    case WorkerResets(c) =>
      var s' := OnLane(s, c, d.lanes[c].(worker := D.Sleeping));
      s'.(device := D.BeginReset(s'.device, d.lanes[c].worker.session, 0))
    case CountersCleared => s.(device := D.ClearCounters(d))
    case QueuesCleared => s.(device := D.ClearQueues(d))
    case SessionPublished => SessionPublish(s)
    case WorkerDoes(c, deed) => WorkerDo(s, c, deed)
    case DeviceQueues(c, m) => OnLane(s, c, d.lanes[c].(tx := d.lanes[c].tx + [m]))
    case DeviceTakes(c) => OnLane(s, c, d.lanes[c].(rx := d.lanes[c].rx[1..]))
  }

  function Next(s: System, step: Step): (s': System)
    requires s.Wide()
    ensures s'.Wide()
  {
    if Enabled(s, step) then Apply(s, step) else s
  }

  // A run: steps that are not possible when their turn comes do nothing.
  function After(steps: seq<Step>): (s: System)
    ensures s.Wide()
  {
    if steps == [] then Init() else Next(After(steps[..|steps| - 1]), steps[|steps| - 1])
  }

  lemma AfterOne(steps: seq<Step>, step: Step)
    ensures After(steps + [step]) == Next(After(steps), step)
  {
    assert (steps + [step])[..|steps|] == steps;
  }

  // A session has left something on a channel that its numbers depend on:
  // frames taken or transmitted, or one that the worker is about to transmit.
  predicate Traces(w: D.Worker, k: Key, down: History, up: History) {
    At(down.got, k) != [] || At(up.sent, k) != [] || (w.Cleared? && w.frame.session == k.session)
  }

  ghost predicate Traced(s: System, x: u32)
    requires s.Wide()
  {
    exists c: byte :: c < CHANNELS && Traces(s.device.lanes[c].worker, Key(x, c), s.down, s.up)
  }

  // A HELLO takes the device back to a session that has left a trace: the one
  // thing the code does not check, since it only compares with the current one.
  ghost predicate Returns(s: System, step: Step)
    requires s.Wide()
  {
    step.DeviceReceives? && Enabled(s, step) && D.IsHello(step.frame) &&
    step.frame.session != s.device.session && Traced(s, step.frame.session)
  }

  ghost predicate NeverReturns(steps: seq<Step>) {
    forall n {:trigger After(steps[..n])} | 0 <= n < |steps| :: !Returns(After(steps[..n]), steps[n])
  }
}
