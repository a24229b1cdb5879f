/**
  One stream slot through its successive users: the host's Conn objects, the
  device's receive, write, read and connect tasks, and the two reliable queues
  between them (LinkOrder.QueueOrderIsSendOrder, LinkSafety.DeliveryIsFifo).
  One live session; steps are the points where another task can run.  The fields src, id and the sets and
  counters marked as history only record what happened.
  */
module StreamSlot {
  import opened Frames

  // ------------------------------------------------------------------ messages

  // Host to device; id is the Conn that sent it.
  datatype Down =
    | Open(id: nat, sequence: nat)
    | Data(id: nat, sequence: nat, bytes: seq<byte>)
    | Close(id: nat, sequence: nat)

  // Device to host; src is the user of the slot it was produced for.  Failed
  // and Overtaken are both ERROR on the wire; Overtaken is the reply to an OPEN
  // that found the connect queue full, queued behind that user's own CLOSE.
  datatype Up =
    | Opened(src: nat)
    | Failed(src: nat)
    | Overtaken(src: nat)
    | Bytes(src: nat, bytes: seq<byte>)
    | Closed(src: nat)

  // ---------------------------------------------------------------------- host

  // From Draining on Close has begun; openSent: an OPEN was sent before.
  datatype Phase = Fresh | Opening | Live | Draining(openSent: bool) | CloseSent | CloseAcked

  // read: what Read has returned; clean: no DATA frame was drained yet.
  datatype Conn = Conn(id: nat, phase: Phase, incoming: seq<Up>, remoteClosed: bool, read: seq<byte>, clean: bool)

  // ids counts the Conns made so far: history.
  datatype Host = Host(conn: Option<Conn>, ids: nat, nextSeq: nat)

  // -------------------------------------------------------------------- device

  datatype Job = Job(generation: nat, src: nat)

  // The receive task, around its two stores of a cancellation.
  datatype Rx = RxIdle | RxStore(q: nat) | RxArm

  // incoming_task, with the message it is working on.
  datatype Incoming =
    | IIdle
    | IOpenCheck(id: nat, sequence: nat)
    | IReject(id: nat)
    | IQueueFull(id: nat)
    | IWrite(id: nat, bytes: seq<byte>)
    | IWriteFailed
    | IFailSending(src: nat)        // holds tx_guard
    | ICloseCheck
    | ICloseSlot
    | ICloseSending(src: nat)       // holds tx_guard
    | IAfterClose
    | ISendLoose
    | IReset

  datatype Outgoing =
    | OIdle
    | OSend(src: nat, bytes: seq<byte>, ended: bool, generation: nat)   // holds tx_guard
    | OEnd(generation: nat, src: nat)
    | OCloseSending(src: nat)                                           // holds tx_guard

  datatype Dial = DIdle | DDialing(job: Job) | DSending(ok: bool, src: nat)   // the last holds tx_guard

  datatype Device = Device(
    fd: Option<nat>,                // an open socket, and for whom it was opened
    generation: nat, session: bool, openSeq: nat, cancelSeq: nat, cancelArmed: bool,
    epoch: nat, netEpoch: nat, closing: bool,
    dialQueue: Option<Job>, rxq: seq<Down>,
    rx: Rx, incoming: Incoming, outgoing: Outgoing, dial: Dial,
    // history
    processed: nat,                 // CLOSEs completely handled
    awaited: nat, openSeen: bool,    // the user the next message belongs to; its OPEN has come
    everOpened: bool,               // some OPEN was accepted in this session
    closesGot: set<nat>, abortsGot: set<nat>,
    fetched: map<nat, seq<byte>>,     // bytes read from each user's socket
    lost: set<nat>,                 // users for whom bytes read were dropped
    misrouted: bool)                // a DATA of one Conn went to another's socket

  datatype Slot = Slot(host: Host, dev: Device, down: seq<Down>, emitted: seq<Up>, taken: nat, lateData: bool)
  {
    predicate Shaped() { taken <= |emitted| }
  }

  // What earlier sessions may leave in the device's slot: old numbers, and
  // connects that have not ended, all of earlier generations.
  datatype Leftover = Leftover(openSeq: nat, cancelSeq: nat, generation: nat, epoch: nat,
                               queue: Option<Job>, dialing: Option<Job>)
  {
    predicate Valid() {
      && (queue.Some? ==> queue.value.generation < generation)
      && (dialing.Some? ==> dialing.value.generation < generation)
      && (queue.Some? && dialing.Some? ==> dialing.value.generation < queue.value.generation)
    }
  }

  function Init(l: Leftover): Slot {
    Slot(Host(None, 0, 1),
         Device(None, l.generation, false, l.openSeq, l.cancelSeq, false, l.epoch, l.epoch, false,
                l.queue, [], RxIdle, IIdle, OIdle, if l.dialing.Some? then DDialing(l.dialing.value) else DIdle,
                0, 0, false, false, {}, {}, map[], {}, false),
         [], [], 0, false)
  }

  // ----------------------------------------------------------- device predicates

  predicate IsCancelled(d: Device) { d.cancelArmed && d.cancelSeq > d.openSeq }

  predicate StreamValid(d: Device) { d.session && !IsCancelled(d) && d.epoch == d.netEpoch }

  predicate TxFree(d: Device) {
    !d.incoming.IFailSending? && !d.incoming.ICloseSending? &&
    !d.outgoing.OSend? && !d.outgoing.OCloseSending? && !d.dial.DSending?
  }

  function ReadBy(d: Device, id: nat): seq<byte> { if id in d.fetched then d.fetched[id] else [] }

  // --------------------------------------------------------------------- steps

  datatype Recv = Got(bytes: seq<byte>) | Ended | Nothing

  datatype Step =
    // host
    | HostAllocates
    | HostOpens
    | HostGivesUpOpen
    | HostOpenAcked
    | HostWrites(bytes: seq<byte>)
    | StaleWrites(id: nat, bytes: seq<byte>)
    | HostBeginsClose
    | HostSendsClose
    | HostCloseAcked
    | HostFrees
    | HostAccepts
    | HostReads
    | HostDrains
    // device
    | RxTakes
    | RxAbort(open: nat)
    | RxStores
    | RxArms
    | NetworkLost
    | IncomingTakes
    | IncomingOpens(allowed: bool)
    | IncomingAnswers
    | IncomingWrites(ok: bool, more: bool)
    | IncomingCloses
    | OutgoingLooks(recv: Recv, idle: bool)
    | OutgoingSends
    | OutgoingDrops
    | OutgoingCloses
    | DialTakes
    | DialEnds(ok: bool)
    | DialReports

  predicate Enabled(s: Slot, step: Step) {
    var h, d := s.host, s.dev;
    match step
    case HostAllocates => h.conn.None?
    case HostOpens => h.conn.Some? && h.conn.value.phase.Fresh? && s.down == []
    case HostGivesUpOpen => h.conn.Some? && h.conn.value.phase.Fresh?
    case HostOpenAcked => h.conn.Some? && h.conn.value.phase.Opening? && s.down == []
    case HostWrites(_) => h.conn.Some? && (h.conn.value.phase.Live? || h.conn.value.phase.Draining?) && s.down == []
    case StaleWrites(id, _) => id < h.ids && s.down == []
    case HostBeginsClose => h.conn.Some? && h.conn.value.phase.Live?
    case HostSendsClose => h.conn.Some? && h.conn.value.phase.Draining? && s.down == []
    case HostCloseAcked => h.conn.Some? && h.conn.value.phase.CloseSent? && s.down == []
    case HostFrees => h.conn.Some? && h.conn.value.phase.CloseAcked? && h.conn.value.remoteClosed
    case HostAccepts => s.taken < |s.emitted| && (h.conn.Some? ==> |h.conn.value.incoming| < 8)
    case HostReads => h.conn.Some? && h.conn.value.incoming != []
    case HostDrains => h.conn.Some? && h.conn.value.incoming != [] && !h.conn.value.phase.Fresh?
                       && !h.conn.value.phase.Opening? && !h.conn.value.phase.Live?
    case RxTakes => d.rx.RxIdle? && s.down != [] && |d.rxq| < (if s.down[0].Data? then 4 else 5)
    case RxAbort(_) => d.rx.RxIdle?
    case RxStores => d.rx.RxStore?
    case RxArms => d.rx.RxArm?
    case NetworkLost => true
    case IncomingTakes => d.incoming.IIdle? && d.rxq != []
    case IncomingOpens(_) => d.incoming.IOpenCheck?
    case IncomingAnswers => d.incoming.IReject? || d.incoming.IQueueFull?
    case IncomingWrites(_, _) => d.incoming.IWrite?
    case IncomingCloses =>
      (d.incoming.IWriteFailed? && TxFree(d)) || d.incoming.IFailSending? || d.incoming.ICloseCheck? ||
      (d.incoming.ICloseSlot? && TxFree(d)) || d.incoming.ICloseSending? || d.incoming.IAfterClose? ||
      d.incoming.ISendLoose? || d.incoming.IReset?
    case OutgoingLooks(recv, _) => d.outgoing.OIdle? && TxFree(d) && (recv.Got? ==> recv.bytes != [])
    case OutgoingSends => d.outgoing.OSend? || d.outgoing.OCloseSending?
    case OutgoingDrops => d.outgoing.OSend? && !StreamValid(d)
    case OutgoingCloses => d.outgoing.OEnd? && TxFree(d)
    case DialTakes => d.dial.DIdle? && d.dialQueue.Some?
    case DialEnds(_) => d.dial.DDialing? && TxFree(d)
    case DialReports => d.dial.DSending?
  }

  // ---------------------------------------------------------------- host steps

  function OnConn(s: Slot, c: Conn): Slot { s.(host := s.host.(conn := Some(c))) }

  function Emit(s: Slot, m: Up, d: Device): Slot { s.(emitted := s.emitted + [m], dev := d) }

  function Hand(s: Slot, m: Down): Slot {
    s.(down := s.down + [m], host := s.host.(nextSeq := s.host.nextSeq + 1))
  }

  function Accepting(c: Conn, m: Up): Conn {
    c.(incoming := c.incoming + [m], remoteClosed := c.remoteClosed || m.Closed?)
  }

  function Reading(c: Conn): Conn
    requires c.incoming != []
  {
    c.(incoming := c.incoming[1..], read := if c.incoming[0].Bytes? then c.read + c.incoming[0].bytes else c.read)
  }

  function Emptying(c: Conn): Conn
    requires c.incoming != []
  {
    c.(incoming := c.incoming[1..], clean := c.clean && !c.incoming[0].Bytes?)
  }

  // A Conn other than id has its OPEN queued and its CLOSE not.
  predicate OtherIsOpen(h: Host, id: nat) {
    h.conn.Some? && h.conn.value.id != id
    && (h.conn.value.phase.Opening? || h.conn.value.phase.Live? || h.conn.value.phase == Draining(true))
  }

  function HostStep(s: Slot, step: Step): Slot
    requires s.Shaped() && Enabled(s, step)
  {
    var h := s.host;
    match step
    case HostAllocates => s.(host := h.(conn := Some(Conn(h.ids, Fresh, [], false, [], true)), ids := h.ids + 1))
    case HostOpens => OnConn(Hand(s, Open(h.conn.value.id, h.nextSeq)), h.conn.value.(phase := Opening))
    case HostGivesUpOpen => OnConn(s, h.conn.value.(phase := Draining(false)))
    case HostOpenAcked => OnConn(s, h.conn.value.(phase := Live))
    case HostWrites(bytes) => Hand(s, Data(h.conn.value.id, h.nextSeq, bytes))
    case StaleWrites(id, bytes) =>
      Hand(s, Data(id, h.nextSeq, bytes)).(lateData := s.lateData || OtherIsOpen(h, id))
    case HostBeginsClose => OnConn(s, h.conn.value.(phase := Draining(true)))
    case HostSendsClose => OnConn(Hand(s, Close(h.conn.value.id, h.nextSeq)), h.conn.value.(phase := CloseSent))
    case HostCloseAcked => OnConn(s, h.conn.value.(phase := CloseAcked))
    case HostFrees => s.(host := h.(conn := None))
    case HostAccepts =>
      var m := s.emitted[s.taken];
      s.(taken := s.taken + 1, host := if h.conn.None? then h else h.(conn := Some(Accepting(h.conn.value, m))))
    case HostReads => OnConn(s, Reading(h.conn.value))
    case HostDrains => OnConn(s, Emptying(h.conn.value))
    case _ => s
  }

  // -------------------------------------------------------------- device steps

  // close_generation: cut, it gets past its guards.  The caller goes on to i and o.
  function CloseSection(d: Device, cut: bool, i: Incoming, o: Outgoing): Device {
    d.(fd := if cut then None else d.fd, generation := if cut then d.generation + 1 else d.generation,
       closing := if cut then d.session else d.closing, incoming := i, outgoing := o)
  }

  function Started(m: Down): Incoming {
    match m
    case Open(id, q) => IOpenCheck(id, q)
    case Data(id, _, bytes) => IWrite(id, bytes)
    case Close(_, _) => ICloseCheck
  }

  function IncomingTake(d: Device): Device
    requires d.rxq != []
  {
    var m := d.rxq[0];
    d.(rxq := d.rxq[1..], incoming := Started(m),
       awaited := if m.Close? then d.awaited + 1 else d.awaited,
       openSeen := m.Open? || (m.Data? && d.openSeen))
  }

  function IncomingOpen(d: Device, allowed: bool): Device
    requires d.incoming.IOpenCheck?
  {
    if !allowed || d.session then d.(incoming := IReject(d.incoming.id))
    else
      var job := Job(d.generation + 1, d.incoming.id);
      var queued := d.dialQueue.None?;
      d.(session := true, epoch := d.netEpoch, openSeq := d.incoming.sequence, closing := false,
         generation := d.generation + 1, everOpened := true,
         dialQueue := if queued then Some(job) else d.dialQueue,
         incoming := if queued then IIdle else IQueueFull(d.incoming.id))
  }

  // One turn of the write loop; more: the socket took only a part.
  function IncomingWrite(d: Device, ok: bool, more: bool): Device
    requires d.incoming.IWrite?
  {
    var over := d.incoming.bytes == [] || !StreamValid(d);
    var failed := d.fd.None? || !ok;
    d.(incoming := if !over && failed then IWriteFailed else if over || !more then IIdle else d.incoming,
       misrouted := d.misrouted || (!over && !failed && d.fd.value != d.incoming.id))
  }

  function AfterClosing(d: Device): Incoming {
    var sends := !d.closing && d.session;
    match d.incoming
    case IWriteFailed => if sends then IFailSending(d.processed) else IIdle
    case ICloseCheck => if d.closing then IReset else ICloseSlot
    case ICloseSlot => if sends then ICloseSending(d.processed) else IAfterClose
    case ICloseSending(_) => IAfterClose
    case IAfterClose => if d.session then IReset else ISendLoose
    case ISendLoose => IReset
    case _ => IIdle
  }

  function IncomingClosing(d: Device): Device {
    if d.incoming.IReset? then
      d.(closing := false, session := false, incoming := IIdle, processed := d.processed + 1)
    else
      CloseSection(d, !d.closing && (d.incoming.IWriteFailed? || d.incoming.ICloseSlot?), AfterClosing(d), d.outgoing)
  }

  function IncomingClose(s: Slot): Slot {
    var i := s.dev.incoming;
    if i.IFailSending? || i.ICloseSending? then Emit(s, Closed(i.src), IncomingClosing(s.dev))
    else if i.ISendLoose? then Emit(s, Closed(s.dev.processed), IncomingClosing(s.dev))
    else s.(dev := IncomingClosing(s.dev))
  }

  // The user's own CLOSE has been queued by another task.
  predicate CloseQueued(d: Device) { d.closing && !d.outgoing.OCloseSending? }

  // The ERROR that answers an OPEN.
  function Answer(d: Device): Up
    requires d.incoming.IReject? || d.incoming.IQueueFull?
  {
    if d.incoming.IQueueFull? && CloseQueued(d) then Overtaken(d.incoming.id) else Failed(d.incoming.id)
  }

  function OutgoingLook(d: Device, recv: Recv, idle: bool): Device {
    var invalidated := d.session && !d.closing && !StreamValid(d);
    var got := d.fd.Some? && !invalidated && recv.Got?;
    var ended := invalidated || (d.fd.Some? && (recv.Ended? || idle));
    d.(fetched := if got then d.fetched[d.fd.value := ReadBy(d, d.fd.value) + recv.bytes] else d.fetched,
       outgoing := if got then OSend(d.fd.value, recv.bytes, idle, d.generation)
                   else if ended then OEnd(d.generation, d.processed) else OIdle)
  }

  function OutgoingSend(s: Slot): Slot
    requires s.dev.outgoing.OSend? || s.dev.outgoing.OCloseSending?
  {
    match s.dev.outgoing
    case OSend(src, bytes, ended, generation) =>
      Emit(s, Bytes(src, bytes), s.dev.(outgoing := if ended then OEnd(generation, src) else OIdle))
    case _ => Emit(s, Closed(s.dev.outgoing.src), s.dev.(outgoing := OIdle))
  }

  function OutgoingClose(d: Device): Device
    requires d.outgoing.OEnd?
  {
    var cut := d.generation == d.outgoing.generation && !d.closing;
    CloseSection(d, cut, d.incoming, if cut && d.session then OCloseSending(d.processed) else OIdle)
  }

  function DialEnd(d: Device, ok: bool): Device
    requires d.dial.DDialing?
  {
    var job := d.dial.job;
    var current := d.session && d.generation == job.generation && !d.closing && StreamValid(d);
    d.(fd := if current && ok then Some(job.src) else d.fd,
       dial := if current then DSending(ok, job.src) else DIdle)
  }

  function DeviceStep(s: Slot, step: Step): Slot
    requires s.Shaped() && Enabled(s, step)
  {
    var d := s.dev;
    match step
    case RxTakes =>
      var m := s.down[0];
      s.(down := s.down[1..],
         dev := d.(rxq := d.rxq + [m],
                   rx := if m.Close? then RxStore(m.sequence) else RxIdle,
                   closesGot := if m.Close? then d.closesGot + {m.sequence} else d.closesGot))
    case RxAbort(q) =>
      s.(dev := d.(abortsGot := d.abortsGot + {q},
                   rx := if d.session && d.openSeq == q then RxStore(q + 1) else RxIdle))
    case RxStores => s.(dev := d.(cancelSeq := d.rx.q, rx := RxArm))
    case RxArms => s.(dev := d.(cancelArmed := true, rx := RxIdle))
    case NetworkLost => s.(dev := d.(netEpoch := d.netEpoch + 1))
    case IncomingTakes => s.(dev := IncomingTake(d))
    case IncomingOpens(allowed) => s.(dev := IncomingOpen(d, allowed))
    case IncomingAnswers => Emit(s, Answer(d), d.(incoming := IIdle))
    case IncomingWrites(ok, more) => s.(dev := IncomingWrite(d, ok, more))
    case IncomingCloses => IncomingClose(s)
    case OutgoingLooks(recv, idle) => s.(dev := OutgoingLook(d, recv, idle))
    case OutgoingSends => OutgoingSend(s)
    case OutgoingDrops =>
      s.(dev := d.(outgoing := if d.outgoing.ended then OEnd(d.outgoing.generation, d.outgoing.src) else OIdle,
                   lost := d.lost + {d.outgoing.src}))
    case OutgoingCloses => s.(dev := OutgoingClose(d))
    case DialTakes => s.(dev := d.(dialQueue := None, dial := DDialing(d.dialQueue.value)))
    case DialEnds(ok) => s.(dev := DialEnd(d, ok))
    case DialReports =>
      Emit(s, if d.dial.ok then Opened(d.dial.src) else Failed(d.dial.src), d.(dial := DIdle))
    case _ => s
  }

  predicate OnHost(step: Step) {
    match step
    case HostAllocates => true
    case HostOpens => true
    case HostGivesUpOpen => true
    case HostOpenAcked => true
    case HostWrites(_) => true
    case StaleWrites(_, _) => true
    case HostBeginsClose => true
    case HostSendsClose => true
    case HostCloseAcked => true
    case HostFrees => true
    case HostAccepts => true
    case HostReads => true
    case HostDrains => true
    case _ => false
  }

  function Next(s: Slot, step: Step): (s': Slot)
    requires s.Shaped()
    ensures s'.Shaped()
  {
    if !Enabled(s, step) then s
    else if OnHost(step) then HostStep(s, step)
    else DeviceStep(s, step)
  }

  function After(s0: Slot, steps: seq<Step>): (s: Slot)
    requires s0.Shaped()
    ensures s.Shaped()
  {
    if steps == [] then s0 else Next(After(s0, steps[..|steps| - 1]), steps[|steps| - 1])
  }
}
