/**
  The device end of the link: the receive task, one transmit worker per channel
  and the session reset they both can start, cut at the points where another
  task can run.
  */
module LinkDevice {
  import opened Frames

  const MAX_ATTEMPTS := 10

  // A queued message has no sequence number until its worker takes it up.
  datatype Message = Message(session: u32, kind: byte, payload: seq<byte>)

  datatype Worker =
    | Sleeping
    | Fetched(message: Message)
    | Trying(frame: Frame, attempt: int)
    | Cleared(frame: Frame, attempt: int)     // session checked, about to transmit
    | Polling(frame: Frame, attempt: int)
    | Finishing(frame: Frame, ok: bool)
    | Resetting(session: u32)

  datatype Lane = Lane(rxNext: u32, txNext: u32, ackSeq: u32, busySeq: u32,
                       rx: seq<Frame>, tx: seq<Message>, worker: Worker)

  // reset_session holds its lock through four steps other tasks can observe.
  datatype Reset = Unlocked | Zeroed(replacement: u32) | Counted(replacement: u32) | Emptied(replacement: u32)

  // wrapped: the receive task has counted past the last number and must reset.
  datatype Device = Device(session: u32, reset: Reset, wrapped: Option<u32>, lanes: seq<Lane>)
  {
    predicate Wide() { |lanes| == CHANNELS }
  }

  const FRESH_LANE := Lane(1, 1, 0, 0, [], [], Sleeping)

  function Booted(): (d: Device)
    ensures d.Wide()
  {
    Device(0, Unlocked, None, seq(CHANNELS, _ => FRESH_LANE))
  }

  function RxCapacity(c: int): nat {
    if c == 0 then 8 else if IsDataChannel(c) then 5 else if c == 6 then 2 else 4
  }

  function TxCapacity(c: int): nat { if c == 0 then 8 else if c == 6 then 2 else 4 }

  // ------------------------------------------------------------------ receiving

  datatype Verdict = Ignore | AckSignal | BusySignal | Duplicate | Accept | Refuse

  predicate IsHello(f: Frame) {
    f.kind == HELLO && f.channel == 0 && f.sequence == 0 && f.payload == [] && f.session != 0
  }

  function Judge(d: Device, f: Frame): Verdict
    requires d.Wide() && f.channel < CHANNELS
  {
    var lane := d.lanes[f.channel];
    if f.session == 0 || f.session != d.session then Ignore
    else if f.kind == ACK then if f.payload == [] then AckSignal else Ignore
    else if f.kind == BUSY then if f.payload == [] then BusySignal else Ignore
    else if f.kind == ABORT || f.kind < OPEN || f.kind > ERROR || f.sequence > lane.rxNext then Ignore
    else if IsDataChannel(f.channel) && f.kind != OPEN && f.kind != DATA && f.kind != CLOSE then Ignore
    else if !IsDataChannel(f.channel) && f.kind != RPC then Ignore
    else if f.sequence == 0 || (f.kind == DATA && |f.payload| > DATA_CHUNK) then Ignore
    else if f.sequence < lane.rxNext then Duplicate
    else if IsDataChannel(f.channel) && f.kind == DATA && |lane.rx| >= 4 then Refuse
    else if |lane.rx| >= RxCapacity(f.channel) then Refuse
    else Accept
  }

  // The part of the device's checks that looks at the frame alone.
  predicate Deliverable(f: Frame) {
    && f.session != 0 && f.channel < CHANNELS && OPEN <= f.kind <= ERROR && f.sequence != 0
    && (if IsDataChannel(f.channel) then f.kind == OPEN || f.kind == DATA || f.kind == CLOSE else f.kind == RPC)
    && (f.kind == DATA ==> |f.payload| <= DATA_CHUNK)
  }

  function ControlFrame(kind: byte, f: Frame): Frame { Frame(kind, f.session, f.channel, f.sequence, []) }

  // The frame the receive task answers with at once, if any.
  function Reply(d: Device, f: Frame): Option<Frame>
    requires d.Wide() && f.channel < CHANNELS
  {
    match Judge(d, f)
    case Duplicate => Some(ControlFrame(ACK, f))
    case Refuse => Some(ControlFrame(BUSY, f))
    case Accept => if Succ(d.lanes[f.channel].rxNext) == 0 then None else Some(ControlFrame(ACK, f))
    case _ => None
  }

  function Received(d: Device, f: Frame): (d': Device)
    requires d.Wide() && f.channel < CHANNELS
    ensures d'.Wide()
  {
    var c := f.channel;
    var lane := d.lanes[c];
    match Judge(d, f)
    case AckSignal => d.(lanes := d.lanes[c := lane.(ackSeq := f.sequence)])
    case BusySignal => d.(lanes := d.lanes[c := lane.(busySeq := f.sequence)])
    case Accept =>
      var next := Succ(lane.rxNext);
      d.(lanes := d.lanes[c := lane.(rxNext := next, rx := lane.rx + [f])],
         wrapped := if next == 0 then Some(d.session) else d.wrapped)
    case _ => d
  }

  // ---------------------------------------------------------------------- reset

  // reset_session(expected, replacement) takes the lock, or sees it is not wanted.
  function BeginReset(d: Device, expected: u32, replacement: u32): (d': Device)
    requires d.reset.Unlocked?
    ensures d.Wide() ==> d'.Wide()
  {
    if expected != 0 && expected != d.session then d
    else d.(session := 0, reset := Zeroed(replacement))
  }

  function ClearCounters(d: Device): Device
    requires d.reset.Zeroed?
  {
    d.(reset := Counted(d.reset.replacement),
       lanes := seq(|d.lanes|, i requires 0 <= i < |d.lanes| =>
                      d.lanes[i].(rxNext := 1, txNext := 1, ackSeq := 0, busySeq := 0)))
  }

  function ClearQueues(d: Device): Device
    requires d.reset.Counted?
  {
    d.(reset := Emptied(d.reset.replacement),
       lanes := seq(|d.lanes|, i requires 0 <= i < |d.lanes| => d.lanes[i].(rx := [], tx := [])))
  }

  function Publish(d: Device): Device
    requires d.reset.Emptied?
  {
    d.(reset := Unlocked, session := d.reset.replacement)
  }

  // --------------------------------------------------------------- transmitting

  datatype Deed = Fetch | Number | Check | Transmit | SeeAck | Deadline | Conclude

  predicate CanDo(lane: Lane, deed: Deed) {
    match deed
    case Fetch => lane.worker.Sleeping? && lane.tx != []
    case Number => lane.worker.Fetched?
    case Check => lane.worker.Trying?
    case Transmit => lane.worker.Cleared?
    case SeeAck => lane.worker.Polling? && lane.ackSeq == lane.worker.frame.sequence
    case Deadline => lane.worker.Polling?
    case Conclude => lane.worker.Finishing?
  }

  // One step of channel c's transmit worker while the device is in session.
  function Do(lane: Lane, c: byte, session: u32, deed: Deed): Lane
    requires CanDo(lane, deed)
  {
    match deed
    case Fetch =>
      var m := lane.tx[0];
      lane.(tx := lane.tx[1..], worker := if m.session == 0 || m.session != session then Sleeping else Fetched(m))
    case Number =>
      var m := lane.worker.message;
      lane.(worker := Trying(Frame(m.kind, m.session, c, lane.txNext, m.payload), 0))
    case Check =>
      var f, attempt := lane.worker.frame, lane.worker.attempt;
      lane.(worker := if attempt < MAX_ATTEMPTS && f.session == session then Cleared(f, attempt)
          else Finishing(f, false))
    case Transmit =>
      lane.(worker := Polling(lane.worker.frame, lane.worker.attempt))
    case SeeAck =>
      lane.(worker := Finishing(lane.worker.frame, true))
    case Deadline =>
      var f := lane.worker.frame;
      if lane.busySeq == f.sequence then lane.(busySeq := 0, worker := Trying(f, 0))
      else lane.(worker := Trying(f, lane.worker.attempt + 1))
    case Conclude =>
      var f := lane.worker.frame;
      if f.session != session then lane.(worker := Sleeping)
      else if !lane.worker.ok then lane.(worker := Resetting(f.session))
      else if Succ(lane.txNext) == 0 then lane.(txNext := 0, worker := Resetting(f.session))
      else lane.(txNext := Succ(lane.txNext), worker := Sleeping)
  }
}
