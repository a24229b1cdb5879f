/**
  The host end of the link: what the receiver does with one frame, and the
  stop-and-wait sender of one channel as the events it blocks on.
  */
module LinkHost {
  import opened Frames

  const ACK_QUEUE := 2
  const HIGH_QUEUE := 32
  const REPLY_QUEUE := 2
  const CONN_QUEUE := 8

  // One stream using a data channel.
  datatype Conn = Conn(incoming: seq<Frame>, remoteClosed: bool)

  // Where a call of send stands.  attempt is -1 just after BUSY.
  datatype Sending =
    | Idle
    | Enqueueing(frame: Frame, attempt: int, queued: bool, cancelled: bool)
    | Waiting(frame: Frame, attempt: int, cancelled: bool)

  datatype Channel = Channel(sequence: u32, expected: u32, ack: seq<u32>, busy: seq<u32>,
                             outgoing: Option<Frame>, sending: Sending, conn: Option<Conn>)

  datatype Host = Host(session: u32, closed: bool, ready: bool, hello: bool,
                       high: seq<Frame>, control: Option<Frame>, replies: seq<Frame>,
                       channels: seq<Channel>)
  {
    predicate Wide() { |channels| == CHANNELS }
  }

  const FRESH_CHANNEL := Channel(1, 1, [], [], None, Idle, None)

  function NewHost(session: u32): (h: Host)
    ensures h.Wide()
  {
    Host(session, false, false, false, [], None, [], seq(CHANNELS, _ => FRESH_CHANNEL))
  }

  function ControlFrame(kind: byte, f: Frame): Frame { Frame(kind, f.session, f.channel, f.sequence, []) }

  // ------------------------------------------------------------------ receiving

  datatype Verdict = Ignore | HelloReply | AckSignal | BusySignal | Duplicate | Accept | Refuse

  predicate RightKind(f: Frame) {
    if IsRpcChannel(f.channel) then f.kind == RPC_REPLY
    else f.kind == OPENED || f.kind == DATA || f.kind == CLOSE || f.kind == ERROR
  }

  function Judge(h: Host, f: Frame): Verdict
    requires h.Wide() && f.channel < CHANNELS
  {
    var ch := h.channels[f.channel];
    if f.session != h.session then Ignore
    else if f.kind == ABORT then Ignore
    else if f.kind == HELLO_ACK && f.channel == 0 && f.sequence == 0 then HelloReply
    else if f.kind == ACK then AckSignal
    else if f.kind == BUSY then BusySignal
    else if f.kind < OPEN || f.sequence == 0 || !RightKind(f) then Ignore
    else if f.sequence < ch.expected then Duplicate
    else if f.sequence > ch.expected then Ignore
    else if IsRpcChannel(f.channel) then if |h.replies| < REPLY_QUEUE then Accept else Refuse
    else if ch.conn.None? || |ch.conn.value.incoming| < CONN_QUEUE then Accept
    else Refuse
  }

  function Signal(queue: seq<u32>, n: u32): seq<u32> { if |queue| < ACK_QUEUE then queue + [n] else queue }

  function Deliver(conn: Option<Conn>, f: Frame): Option<Conn> {
    match conn
    case None => None
    case Some(c) => Some(Conn(c.incoming + [f], c.remoteClosed || f.kind == CLOSE))
  }

  function Accepted(h: Host, f: Frame): (h': Host)
    requires h.Wide() && f.channel < CHANNELS
    ensures h'.Wide()
  {
    var c := f.channel;
    var ch := h.channels[c];
    match Judge(h, f)
    case Ignore => h
    case HelloReply => h.(hello := true)
    case AckSignal => h.(channels := h.channels[c := ch.(ack := Signal(ch.ack, f.sequence))])
    case BusySignal => h.(channels := h.channels[c := ch.(busy := Signal(ch.busy, f.sequence))])
    case Duplicate => h.(control := Some(ControlFrame(ACK, f)))
    case Refuse => h.(control := Some(ControlFrame(BUSY, f)))
    case Accept =>
      var next := Succ(ch.expected);
      var taken := ch.(expected := next, conn := if IsDataChannel(c) then Deliver(ch.conn, f) else ch.conn);
      var h1 := h.(channels := h.channels[c := taken],
                   replies := if IsRpcChannel(c) then h.replies + [f] else h.replies);
      if next == 0 then h1.(closed := true) else h1.(control := Some(ControlFrame(ACK, f)))
  }

  // -------------------------------------------------------------------- sending

  // What ends one of send's waits.
  datatype Event =
    | Queued              // the frame entered the outgoing queue
    | Cancelled           // the caller's or the cleanup context ended
    | AckIs(seq_: u32)
    | BusyIs(seq_: u32)
    | TimerFired

  datatype Reaction = Reaction(sending: Sending, sequence: u32, closes: bool)

  function React(sending: Sending, sequence: u32, e: Event, maxRetries: nat): Reaction {
    match (sending, e)
    case (Enqueueing(f, attempt, queued, cancelled), Queued) =>
      Reaction(Waiting(f, attempt, cancelled), sequence, false)
    case (Enqueueing(f, attempt, queued, cancelled), Cancelled) =>
      if !queued then Reaction(Idle, sequence, false)
      else if !cancelled then Reaction(Enqueueing(f, attempt, true, true), sequence, false)
      else Reaction(Idle, sequence, true)
    case (Waiting(f, attempt, cancelled), AckIs(n)) =>
      if n == f.sequence then Reaction(Idle, Succ(sequence), Succ(sequence) == 0)
      else Reaction(sending, sequence, false)
    case (Waiting(f, attempt, cancelled), BusyIs(n)) =>
      if n == f.sequence then Reaction(Waiting(f, -1, cancelled), sequence, false)
      else Reaction(sending, sequence, false)
    case (Waiting(f, attempt, cancelled), TimerFired) =>
      if attempt + 1 <= maxRetries then Reaction(Enqueueing(f, attempt + 1, true, cancelled), sequence, false)
      else Reaction(Idle, sequence, true)
    case (Waiting(f, attempt, cancelled), Cancelled) =>
      if cancelled then Reaction(Idle, sequence, true)
      else Reaction(Waiting(f, attempt, true), sequence, false)
    case _ => Reaction(sending, sequence, false)
  }
}
