/**
  The invariant of a stream slot and the proof that every step keeps it, one
  conjunct at a time.
  */
module StreamInv {
  import opened Frames
  import opened StreamSlot
  import opened StreamOrder

  // ------------------------------------------------------------- the invariant

  // incoming_task is between taking a CLOSE and clearing the slot.
  predicate Handling(i: Incoming) {
    i.ICloseCheck? || i.ICloseSlot? || i.ICloseSending? || i.IAfterClose? || i.ISendLoose? || i.IReset?
  }

  function One(b: bool): nat { if b then 1 else 0 }

  function Holders(d: Device): nat {
    One(d.incoming.IFailSending? || d.incoming.ICloseSending?)
    + One(d.outgoing.OSend? || d.outgoing.OCloseSending?) + One(d.dial.DSending?)
  }

  // CLOSEs decided on, under tx_guard, and not queued yet.
  function Pending(d: Device): nat {
    One(d.incoming.IFailSending? || d.incoming.ICloseSending?) + One(d.outgoing.OCloseSending?)
  }

  // The current user's CLOSE has been decided on.
  function Extra(d: Device): nat { One(d.closing || d.incoming.IReset?) }

  predicate IncomingOk(d: Device) {
    match d.incoming
    case IOpenCheck(id, _) => !d.session && d.openSeen && id == d.awaited
    case IReject(id) => !d.session && d.openSeen && id == d.awaited
    case IFailSending(src) => d.closing && src == d.processed
    case ICloseSending(src) => d.closing && src == d.processed
    case IAfterClose => d.session ==> d.closing
    case ISendLoose => !d.session
    case IReset => d.session ==> d.closing
    case _ => true
  }

  predicate OutgoingOk(d: Device) {
    match d.outgoing
    case OSend(src, _, _, _) => d.session && !d.closing && src == d.processed
    case OCloseSending(src) =>
      if d.closing then src == d.processed
      else !d.session && src + 1 == d.processed && !Handling(d.incoming)
           && !d.incoming.IOpenCheck? && !d.incoming.IReject?
    case _ => true
  }

  predicate DialOk(d: Device) {
    d.dial.DSending? ==> d.session && !d.closing && d.dial.src == d.processed
  }

  predicate Sections(d: Device) {
    && Holders(d) <= 1
    && (d.closing ==> d.session && d.fd.None?)
    && (d.fd.Some? ==> d.session && !d.closing && d.fd.value == d.processed)
    && (d.session ==> d.everOpened)
    && d.awaited == d.processed + One(Handling(d.incoming))
    && (if Handling(d.incoming) then !d.openSeen else d.session ==> d.openSeen)
    && IncomingOk(d) && OutgoingOk(d) && DialOk(d)
  }

  // The fields that say whose generation is current.
  datatype Turn = Turn(generation: nat, open: bool, src: nat, connected: bool)

  function TurnOf(d: Device): Turn { Turn(d.generation, d.session && !d.closing, d.processed, d.fd.Some?) }

  // A generation number still current belongs to the open user.
  predicate Owned(t: Turn, generation: nat, src: nat) {
    generation <= t.generation && (generation == t.generation ==> t.open && src == t.src)
  }

  predicate DialGeneration(t: Turn, job: Job) {
    Owned(t, job.generation, job.src) && (job.generation == t.generation ==> !t.connected)
  }

  predicate JobsOf(t: Turn, queue: Option<Job>, dial: Dial, outgoing: Outgoing) {
    && (queue.Some? ==> DialGeneration(t, queue.value))
    && (dial.DDialing? ==> DialGeneration(t, dial.job))
    && (dial.DDialing? && queue.Some? ==> dial.job.generation < queue.value.generation)
    && (outgoing.OSend? ==> Owned(t, outgoing.generation, outgoing.src))
    && (outgoing.OEnd? ==> Owned(t, outgoing.generation, outgoing.src))
  }

  predicate Jobs(d: Device) { JobsOf(TurnOf(d), d.dialQueue, d.dial, d.outgoing) }

  // A user whose OPEN found the connect queue full never gets a socket.
  predicate FullOk(d: Device) {
    d.incoming.IQueueFull? ==>
      && d.incoming.id == d.processed && d.session && d.fd.None? && !d.outgoing.OSend? && !d.dial.DSending?
      && (d.dialQueue.Some? ==> d.dialQueue.value.generation < d.generation)
      && (d.dial.DDialing? ==> d.dial.job.generation < d.generation)
  }

  predicate Counted(s: Slot) {
    Closes(s.emitted) + Pending(s.dev) == s.dev.processed + Extra(s.dev)
  }

  predicate EndsAt(h: Host, p: Place) {
    match h.conn
    case None => p == Place(h.ids, false)
    case Some(c) =>
      c.id + 1 == h.ids &&
      match c.phase
      case Fresh => p == Place(c.id, false)
      case Opening => p == Place(c.id, true)
      case Live => p == Place(c.id, true)
      case Draining(openSent) => p == Place(c.id, openSent)
      case CloseSent => p == Place(c.id + 1, false)
      case CloseAcked => p == Place(c.id + 1, false)
  }

  function Pipe(s: Slot): seq<Down> { s.dev.rxq + s.down }

  predicate Piped(s: Slot) {
    var p := Place(s.dev.awaited, s.dev.openSeen);
    Chain(Pipe(s), p, !s.lateData) && EndsAt(s.host, End(Pipe(s), p))
  }

  function Low(d: Device): nat {
    if d.incoming.IOpenCheck? then d.incoming.sequence else if d.everOpened then d.openSeq else 0
  }

  predicate Ordered(s: Slot) {
    Ascending(Pipe(s), Low(s.dev), s.host.nextSeq)
    && (s.dev.incoming.IOpenCheck? && s.dev.everOpened ==> s.dev.openSeq < s.dev.incoming.sequence)
  }

  predicate TagsOk(s: Slot) { Tagged(s.emitted, s.host.ids) }

  predicate AllFrom(q: seq<Up>, id: nat) {
    forall i | 0 <= i < |q| :: !q[i].Overtaken? ==> q[i].src == id
  }

  // Close has not begun.
  predicate BeforeClose(p: Phase) { p.Fresh? || p.Opening? || p.Live? }

  predicate ConnOk(c: Conn, taken: seq<Up>) {
    Closes(taken) == c.id + One(c.remoteClosed) && AllFrom(c.incoming, c.id)
    && (BeforeClose(c.phase) ==> c.clean)
    && (c.clean ==> c.read + BytesOf(c.incoming, c.id) == BytesOf(taken, c.id))
  }

  predicate Hosted(s: Slot)
    requires s.Shaped()
  {
    match s.host.conn
    case None => Closes(s.emitted[..s.taken]) == s.host.ids
    case Some(c) => c.id + 1 == s.host.ids && ConnOk(c, s.emitted[..s.taken])
  }

  // Where a cancellation can have come from.
  predicate Origin(d: Device, q: nat) {
    q in d.closesGot || (q >= 1 && q - 1 in d.abortsGot && d.everOpened && q - 1 <= d.openSeq)
  }

  predicate Origins(d: Device) {
    && (d.rx.RxStore? ==> Origin(d, d.rx.q))
    && (d.cancelArmed || d.rx.RxArm? ==> Origin(d, d.cancelSeq))
  }

  // The open user's stream is invalid and no store under way can revive it.
  predicate Doomed(d: Device) {
    d.epoch < d.netEpoch || (IsCancelled(d) && (d.rx.RxStore? ==> d.rx.q > d.openSeq))
  }

  predicate Settled(d: Device) {
    && d.epoch <= d.netEpoch
    && (d.outgoing.OSend? ==> d.outgoing.src !in d.lost && (StreamValid(d) || Doomed(d)))
    && (d.processed in d.lost ==> d.closing || (d.session && Doomed(d)))
    && (forall id | id in d.lost :: id <= d.processed)
  }

  function InHand(d: Device, id: nat): seq<byte> {
    if d.outgoing.OSend? && d.outgoing.src == id then d.outgoing.bytes else []
  }

  predicate KeptFor(s: Slot, id: nat) {
    if id in s.dev.lost then BytesOf(s.emitted, id) <= ReadBy(s.dev, id)
    else BytesOf(s.emitted, id) + InHand(s.dev, id) == ReadBy(s.dev, id)
  }

  ghost predicate Kept(s: Slot) { forall id: nat :: KeptFor(s, id) }

  predicate Routed(s: Slot) {
    !s.lateData ==>
      !s.dev.misrouted && (s.dev.incoming.IWrite? && s.dev.openSeen ==> s.dev.incoming.id == s.dev.awaited)
  }

  ghost predicate Inv(s: Slot) {
    && s.Shaped() && Sections(s.dev) && Jobs(s.dev) && FullOk(s.dev) && Counted(s) && Piped(s) && Ordered(s)
    && TagsOk(s) && Hosted(s) && Origins(s.dev) && Settled(s.dev) && Kept(s) && Routed(s)
  }

  // -------------------------------------------------------- first consequences

  // Never more CLOSEs, sent or decided on, than the host made users; and the
  // open user is one the host made.
  lemma CloseBound(s: Slot)
    requires Sections(s.dev) && Counted(s) && Piped(s)
    ensures Closes(s.emitted) + Pending(s.dev) <= s.host.ids
    ensures s.dev.session || s.dev.openSeen || Handling(s.dev.incoming) ==> s.dev.processed < s.host.ids
    ensures s.dev.processed <= s.host.ids
  {
    EndNeverFallsBack(Pipe(s), Place(s.dev.awaited, s.dev.openSeen), !s.lateData);
  }

  // While the read task still owes the last user's CLOSE there is no next user.
  lemma NoNextUser(s: Slot)
    requires s.Shaped() && Sections(s.dev) && Counted(s) && Piped(s) && Hosted(s)
    requires s.dev.outgoing.OCloseSending? && !s.dev.closing
    ensures s.dev.awaited == s.dev.processed && s.host.ids <= s.dev.processed
    ensures Pipe(s) != [] ==> Pipe(s)[0].Data?
    ensures !s.dev.openSeen
  {
    PrefixHasNoMore(s.emitted, s.taken, 0);
    var p := Place(s.dev.awaited, s.dev.openSeen);
    EndNeverFallsBack(Pipe(s), p, !s.lateData);
    if Pipe(s) != [] && !Pipe(s)[0].Data? {
      EndNeverFallsBack(Pipe(s)[1..], Pass(p, Pipe(s)[0]), !s.lateData);
    }
  }

  // The message at the head of the pipe belongs where the device stands.
  lemma HeadFits(s: Slot)
    requires s.Shaped() && Sections(s.dev) && Counted(s) && Piped(s) && Hosted(s) && s.dev.rxq != []
    ensures Fits(Place(s.dev.awaited, s.dev.openSeen), s.dev.rxq[0], !s.lateData)
    ensures s.dev.outgoing.OCloseSending? && !s.dev.closing ==> s.dev.rxq[0].Data?
  {
    assert Pipe(s)[0] == s.dev.rxq[0];
    if s.dev.outgoing.OCloseSending? && !s.dev.closing {
      hide Sections, Counted, Piped, Hosted;
      NoNextUser(s);
    }
  }

  // ------------------------------------------------------------------ Sections

  lemma TakeKeepsSections(d: Device, strict: bool)
    requires Sections(d) && d.incoming.IIdle? && d.rxq != [] && Fits(Place(d.awaited, d.openSeen), d.rxq[0], strict)
    requires d.outgoing.OCloseSending? && !d.closing ==> d.rxq[0].Data?
    ensures Sections(IncomingTake(d))
  {
  }

  lemma OpenKeepsSections(d: Device, allowed: bool)
    requires Sections(d) && d.incoming.IOpenCheck?
    ensures Sections(IncomingOpen(d, allowed))
  {
  }

  lemma WriteKeepsSections(d: Device, ok: bool, more: bool)
    requires Sections(d) && d.incoming.IWrite?
    ensures Sections(IncomingWrite(d, ok, more))
  {
  }

  lemma CloseKeepsSections(s: Slot)
    requires Sections(s.dev) && Enabled(s, IncomingCloses)
    ensures Sections(IncomingClosing(s.dev))
  {
  }

  lemma LookKeepsSections(d: Device, recv: Recv, idle: bool)
    requires Sections(d) && d.outgoing.OIdle? && TxFree(d)
    ensures Sections(OutgoingLook(d, recv, idle))
  {
  }

  lemma EndKeepsSections(d: Device)
    requires Sections(d) && d.outgoing.OEnd? && Owned(TurnOf(d), d.outgoing.generation, d.outgoing.src) && TxFree(d)
    ensures Sections(OutgoingClose(d))
  {
  }

  lemma DialKeepsSections(d: Device, ok: bool)
    requires Sections(d) && d.dial.DDialing? && DialGeneration(TurnOf(d), d.dial.job) && TxFree(d)
    ensures Sections(DialEnd(d, ok))
  {
  }

  lemma SendKeepsSections(s: Slot, step: Step)
    requires Sections(s.dev) && s.Shaped() && Enabled(s, step)
    requires step.OutgoingSends? || step.OutgoingDrops? || step.IncomingAnswers?
    ensures Sections(DeviceStep(s, step).dev)
  {
  }

  lemma RxKeepsSections(s: Slot, step: Step)
    requires Sections(s.dev) && s.Shaped() && Enabled(s, step)
    requires IsRx(step)
    ensures Sections(DeviceStep(s, step).dev)
  {
  }

  lemma RestKeepsSections(s: Slot, step: Step)
    requires Sections(s.dev) && s.Shaped() && Enabled(s, step)
    requires step.NetworkLost? || step.DialTakes? || step.DialReports?
    ensures Sections(DeviceStep(s, step).dev)
  {
  }

  lemma StepKeepsSections(s: Slot, step: Step)
    requires Inv(s) && Enabled(s, step) && !OnHost(step)
    ensures Sections(DeviceStep(s, step).dev)
  {
    hide IncomingTake, IncomingOpen, IncomingWrite, IncomingClosing, OutgoingLook, OutgoingClose, DialEnd, Sections;
    var d := s.dev;
    match step
    case IncomingTakes =>
      HeadFits(s);
      TakeKeepsSections(d, !s.lateData);
    case IncomingOpens(allowed) => OpenKeepsSections(d, allowed);
    case IncomingWrites(ok, more) => WriteKeepsSections(d, ok, more);
    case IncomingCloses => CloseKeepsSections(s);
    case OutgoingLooks(recv, idle) => LookKeepsSections(d, recv, idle);
    case OutgoingCloses => EndKeepsSections(d);
    case DialEnds(ok) => DialKeepsSections(d, ok);
    case OutgoingSends => SendKeepsSections(s, step);
    case OutgoingDrops => SendKeepsSections(s, step);
    case IncomingAnswers => SendKeepsSections(s, step);
    case RxTakes => RxKeepsSections(s, step);
    case RxAbort(_) => RxKeepsSections(s, step);
    case RxStores => RxKeepsSections(s, step);
    case RxArms => RxKeepsSections(s, step);
    case _ => RestKeepsSections(s, step);
  }

  // ---------------------------------------------------------------------- Jobs

  lemma OpenKeepsJobs(d: Device, allowed: bool)
    requires Sections(d) && Jobs(d) && d.incoming.IOpenCheck?
    ensures Jobs(IncomingOpen(d, allowed))
  {
  }

  lemma TakeKeepsJobs(d: Device)
    requires Jobs(d) && d.rxq != []
    ensures Jobs(IncomingTake(d))
  {
    hide JobsOf;
  }

  lemma WriteKeepsJobs(d: Device, ok: bool, more: bool)
    requires Jobs(d) && d.incoming.IWrite?
    ensures Jobs(IncomingWrite(d, ok, more))
  {
    hide JobsOf, StreamValid;
  }

  lemma CloseKeepsJobs(s: Slot)
    requires Sections(s.dev) && Jobs(s.dev) && Enabled(s, IncomingCloses)
    ensures Jobs(IncomingClosing(s.dev))
  {
  }

  lemma LookKeepsJobs(d: Device, recv: Recv, idle: bool)
    requires Sections(d) && Jobs(d) && d.outgoing.OIdle? && TxFree(d)
    ensures Jobs(OutgoingLook(d, recv, idle))
  {
  }

  lemma OutgoingKeepsJobs(s: Slot, step: Step)
    requires Jobs(s.dev) && s.Shaped() && Enabled(s, step)
    requires step.OutgoingSends? || step.OutgoingDrops?
    ensures Jobs(DeviceStep(s, step).dev)
  {
  }

  lemma EndKeepsJobs(d: Device)
    requires Jobs(d) && d.outgoing.OEnd?
    ensures Jobs(OutgoingClose(d))
  {
    if d.generation != d.outgoing.generation || d.closing {
    } else if d.session {
    }
  }

  lemma DialKeepsJobs(d: Device, ok: bool)
    requires Jobs(d) && d.dial.DDialing?
    ensures Jobs(DialEnd(d, ok))
  {
    hide StreamValid;
  }

  lemma StepKeepsJobs(s: Slot, step: Step)
    requires Inv(s) && Enabled(s, step) && !OnHost(step)
    ensures Jobs(DeviceStep(s, step).dev)
  {
    match step
    case IncomingOpens(allowed) => OpenKeepsJobs(s.dev, allowed);
    case IncomingCloses => CloseKeepsJobs(s);
    case IncomingTakes => TakeKeepsJobs(s.dev);
    case IncomingWrites(ok, more) => WriteKeepsJobs(s.dev, ok, more);
    case OutgoingLooks(recv, idle) => LookKeepsJobs(s.dev, recv, idle);
    case OutgoingSends => OutgoingKeepsJobs(s, step);
    case OutgoingDrops => OutgoingKeepsJobs(s, step);
    case OutgoingCloses => EndKeepsJobs(s.dev);
    case DialEnds(ok) => DialKeepsJobs(s.dev, ok);
    case DialTakes =>
    case DialReports =>
    case _ =>
  }

  // -------------------------------------------------------------------- FullOk

  lemma OpenKeepsFull(d: Device, allowed: bool)
    requires Sections(d) && Jobs(d) && d.incoming.IOpenCheck?
    ensures FullOk(IncomingOpen(d, allowed))
  {
  }

  lemma OutgoingKeepsFull(d: Device, recv: Recv, idle: bool)
    requires FullOk(d)
    ensures d.outgoing.OIdle? ==> FullOk(OutgoingLook(d, recv, idle))
    ensures d.outgoing.OEnd? ==> FullOk(OutgoingClose(d))
  {
  }

  lemma DialKeepsFull(d: Device, ok: bool)
    requires FullOk(d) && d.dial.DDialing?
    ensures FullOk(DialEnd(d, ok))
  {
    hide StreamValid;
  }

  lemma IncomingLeavesFull(d: Device, ok: bool, more: bool)
    requires !d.incoming.IQueueFull? && !d.incoming.IOpenCheck?
    ensures d.rxq != [] ==> FullOk(IncomingTake(d))
    ensures d.incoming.IWrite? ==> FullOk(IncomingWrite(d, ok, more))
    ensures FullOk(IncomingClosing(d))
  {
    hide StreamValid;
  }

  lemma RestKeepsFull(s: Slot, step: Step)
    requires s.Shaped() && FullOk(s.dev) && Enabled(s, step)
    requires step.RxTakes? || step.RxAbort? || step.RxStores? || step.RxArms? || step.NetworkLost?
             || step.IncomingAnswers? || step.OutgoingSends? || step.OutgoingDrops?
             || step.DialTakes? || step.DialReports?
    ensures FullOk(DeviceStep(s, step).dev)
  {
    hide Answer;
  }

  lemma StepKeepsFull(s: Slot, step: Step)
    requires Inv(s) && Enabled(s, step) && !OnHost(step)
    ensures FullOk(DeviceStep(s, step).dev)
  {
    hide Sections, Jobs, FullOk, Counted, Piped, Ordered, TagsOk, Hosted, Origins, Settled, Kept, Routed, IncomingTake,
         IncomingOpen, IncomingWrite, IncomingClosing, OutgoingLook, OutgoingClose, DialEnd, StreamValid;
    var d := s.dev;
    match step
    case IncomingOpens(allowed) => OpenKeepsFull(d, allowed);
    case IncomingTakes => IncomingLeavesFull(d, false, false);
    case IncomingWrites(ok, more) => IncomingLeavesFull(d, ok, more);
    case IncomingCloses => IncomingLeavesFull(d, false, false);
    case OutgoingLooks(recv, idle) => OutgoingKeepsFull(d, recv, idle);
    case OutgoingCloses => OutgoingKeepsFull(d, Nothing, false);
    case DialEnds(ok) => DialKeepsFull(d, ok);
    case _ => RestKeepsFull(s, step);
  }

  // ---------------------------------------------------------------- calm steps

  function Stand(d: Device): Place { Place(d.awaited, d.openSeen) }

  // What the receive task and the order of messages depend on.
  datatype Marks = Marks(
    rx: Rx, armed: bool, cancelSeq: nat, closes: set<nat>, aborts: set<nat>, ever: bool, openSeq: nat)

  function MarksOf(d: Device): Marks {
    Marks(d.rx, d.cancelArmed, d.cancelSeq, d.closesGot, d.abortsGot, d.everOpened, d.openSeq)
  }

  predicate Calm(d: Device, d': Device) {
    MarksOf(d') == MarksOf(d) && d'.rxq == d.rxq && Stand(d') == Stand(d)
    && (d'.incoming == d.incoming || (!d.incoming.IOpenCheck? && !d'.incoming.IOpenCheck?))
  }

  lemma WriteIsCalm(d: Device, ok: bool, more: bool)
    requires d.incoming.IWrite?
    ensures Calm(d, IncomingWrite(d, ok, more))
  {
    hide StreamValid;
  }

  lemma CloseIsCalm(d: Device)
    requires Handling(d.incoming) || d.incoming.IWriteFailed? || d.incoming.IFailSending?
    ensures Calm(d, IncomingClosing(d))
  {
  }

  lemma LookIsCalm(d: Device, recv: Recv, idle: bool)
    requires d.outgoing.OIdle?
    ensures Calm(d, OutgoingLook(d, recv, idle))
  {
    hide StreamValid;
  }

  lemma EndIsCalm(d: Device)
    requires d.outgoing.OEnd?
    ensures Calm(d, OutgoingClose(d))
  {
  }

  lemma DialIsCalm(d: Device, ok: bool)
    requires d.dial.DDialing?
    ensures Calm(d, DialEnd(d, ok))
  {
    hide StreamValid;
  }

  predicate IsRx(step: Step) { step.RxTakes? || step.RxAbort? || step.RxStores? || step.RxArms? }

  predicate IsCalm(step: Step) { !OnHost(step) && !IsRx(step) && !step.IncomingTakes? && !step.IncomingOpens? }

  lemma RestIsCalm(s: Slot, step: Step)
    requires s.Shaped() && Enabled(s, step)
    requires step.NetworkLost? || step.IncomingAnswers? || step.OutgoingSends? || step.OutgoingDrops?
             || step.DialTakes? || step.DialReports?
    ensures Calm(s.dev, DeviceStep(s, step).dev)
  {
  }

  lemma StepIsCalm(s: Slot, step: Step)
    requires s.Shaped() && Enabled(s, step) && IsCalm(step)
    ensures Calm(s.dev, DeviceStep(s, step).dev) && DeviceStep(s, step).down == s.down
  {
    hide StreamValid, IncomingWrite, IncomingClosing, OutgoingLook, OutgoingClose, DialEnd, Calm;
    var d := s.dev;
    match step
    case IncomingWrites(ok, more) => WriteIsCalm(d, ok, more);
    case IncomingCloses => CloseIsCalm(d);
    case OutgoingLooks(recv, idle) => LookIsCalm(d, recv, idle);
    case OutgoingCloses => EndIsCalm(d);
    case DialEnds(ok) => DialIsCalm(d, ok);
    case _ => RestIsCalm(s, step);
  }

  // ----------------------------------------------------------- Counted, TagsOk

  // What a device step queues for the host.
  function Says(d: Device, step: Step): seq<Up> {
    match step
    case IncomingAnswers => if d.incoming.IReject? || d.incoming.IQueueFull? then [Answer(d)] else []
    case IncomingCloses =>
      if d.incoming.IFailSending? || d.incoming.ICloseSending? then [Closed(d.incoming.src)]
      else if d.incoming.ISendLoose? then [Closed(d.processed)] else []
    case OutgoingSends =>
      if d.outgoing.OSend? then [Bytes(d.outgoing.src, d.outgoing.bytes)]
      else if d.outgoing.OCloseSending? then [Closed(d.outgoing.src)] else []
    case DialReports =>
      if d.dial.DSending? then [if d.dial.ok then Opened(d.dial.src) else Failed(d.dial.src)] else []
    case _ => []
  }

  lemma DeviceSays(s: Slot, step: Step)
    requires s.Shaped() && Enabled(s, step) && !OnHost(step)
    ensures var s' := DeviceStep(s, step);
            s'.emitted == s.emitted + Says(s.dev, step)
            && s'.host == s.host && s'.taken == s.taken && s'.lateData == s.lateData
  {
    hide IncomingTake, IncomingOpen, IncomingWrite, IncomingClosing, OutgoingLook, OutgoingClose, DialEnd;
  }

  // The number of CLOSEs the counters promise.
  function Promised(d: Device): int { d.processed + Extra(d) - Pending(d) }

  function Closing(said: seq<Up>): nat { One(said != [] && said[0].Closed?) }

  lemma DecidingKeepsPromise(d: Device)
    requires Sections(d) && (d.incoming.IWriteFailed? || d.incoming.ICloseSlot? ==> TxFree(d))
    requires d.incoming.IWriteFailed? || d.incoming.ICloseCheck? || d.incoming.ICloseSlot?
    ensures Promised(IncomingClosing(d)) == Promised(d)
  {
    hide IncomingOk, OutgoingOk, DialOk;
  }

  lemma SendingKeepsPromise(d: Device)
    requires Sections(d) && (d.incoming.IFailSending? || d.incoming.ICloseSending?)
    ensures Promised(IncomingClosing(d)) == Promised(d) + 1
  {
    hide OutgoingOk, DialOk;
  }

  lemma ClearingKeepsPromise(d: Device)
    requires Sections(d) && (d.incoming.IAfterClose? || d.incoming.ISendLoose? || d.incoming.IReset?)
    ensures Promised(IncomingClosing(d)) == Promised(d) + One(d.incoming.ISendLoose?)
  {
    hide OutgoingOk, DialOk;
  }

  lemma OutgoingKeepsPromise(s: Slot, step: Step)
    requires s.Shaped() && Sections(s.dev) && Enabled(s, step) && (step.OutgoingSends? || step.OutgoingDrops?)
    ensures Promised(DeviceStep(s, step).dev) == Promised(s.dev) + Closing(Says(s.dev, step))
  {
  }

  lemma EndKeepsPromise(d: Device)
    requires Sections(d) && d.outgoing.OEnd? && Owned(TurnOf(d), d.outgoing.generation, d.outgoing.src) && TxFree(d)
    ensures Promised(OutgoingClose(d)) == Promised(d)
  {
  }

  lemma OpenKeepsPromise(d: Device, allowed: bool)
    requires Sections(d) && d.incoming.IOpenCheck?
    ensures Promised(IncomingOpen(d, allowed)) == Promised(d)
  {
  }

  lemma QuietKeepsPromise(s: Slot, step: Step)
    requires s.Shaped() && Enabled(s, step) && !OnHost(step)
    requires !step.IncomingCloses? && !step.IncomingOpens?
             && !step.OutgoingSends? && !step.OutgoingDrops? && !step.OutgoingCloses?
    ensures Promised(DeviceStep(s, step).dev) == Promised(s.dev) && Closing(Says(s.dev, step)) == 0
  {
  }

  lemma StepKeepsPromise(s: Slot, step: Step)
    requires s.Shaped() && Sections(s.dev) && Jobs(s.dev) && Enabled(s, step) && !OnHost(step)
    ensures Promised(DeviceStep(s, step).dev) == Promised(s.dev) + Closing(Says(s.dev, step))
  {
    hide IncomingClosing, IncomingOpen, OutgoingClose, IncomingOk, OutgoingOk, DialOk, StreamValid, Promised;
    match step
    case IncomingCloses =>
      if s.dev.incoming.IWriteFailed? || s.dev.incoming.ICloseCheck? || s.dev.incoming.ICloseSlot? {
        DecidingKeepsPromise(s.dev);
      } else if s.dev.incoming.IFailSending? || s.dev.incoming.ICloseSending? {
        SendingKeepsPromise(s.dev);
      } else {
        ClearingKeepsPromise(s.dev);
      }
    case OutgoingSends => OutgoingKeepsPromise(s, step);
    case OutgoingDrops => OutgoingKeepsPromise(s, step);
    case OutgoingCloses => EndKeepsPromise(s.dev);
    case IncomingOpens(allowed) => OpenKeepsPromise(s.dev, allowed);
    case _ => QuietKeepsPromise(s, step);
  }

  lemma Counting(e: seq<Up>, said: seq<Up>)
    requires |said| <= 1
    ensures Closes(e + said) == Closes(e) + Closing(said)
  {
    if said == [] {
      assert e + said == e;
    } else {
      assert said == [said[0]];
      EmitOne(e, said[0], 0);
    }
  }

  // What is queued carries the number of the CLOSE to come.
  lemma SaidInTurn(s: Slot, step: Step)
    requires Sections(s.dev) && FullOk(s.dev) && Enabled(s, step) && !OnHost(step) && Says(s.dev, step) != []
    ensures |Says(s.dev, step)| == 1
    ensures var m, d := Says(s.dev, step)[0], s.dev;
            if m.Overtaken? then m.src < Promised(d)
            else m.src == Promised(d) && (d.session || d.openSeen || Handling(d.incoming) || Pending(d) > 0)
  {
  }

  lemma StepKeepsCounted(s: Slot, step: Step)
    requires Inv(s) && Enabled(s, step) && !OnHost(step)
    ensures Counted(DeviceStep(s, step))
  {
    DeviceSays(s, step);
    StepKeepsPromise(s, step);
    if Says(s.dev, step) != [] { SaidInTurn(s, step); }
    hide Sections, Jobs, Piped, Ordered, TagsOk, Hosted, Origins, Settled, Kept, Routed, DeviceStep, Says, Closes,
         Pending, Extra, Closing;
    Counting(s.emitted, Says(s.dev, step));
  }

  lemma StepKeepsTags(s: Slot, step: Step)
    requires Inv(s) && Enabled(s, step) && !OnHost(step)
    ensures TagsOk(DeviceStep(s, step))
  {
    DeviceSays(s, step);
    CloseBound(s);
    var said, s' := Says(s.dev, step), DeviceStep(s, step);
    if said != [] {
      SaidInTurn(s, step);
      assert said == [said[0]];
      hide Sections, Jobs, Piped, Ordered, Hosted, Origins, Settled, Kept, Routed, DeviceStep, Says, Closes,
           Pending, Extra, Closing, Tagged, FullOk;
      TaggedExtends(s.emitted, said[0], s.host.ids);
    } else {
      assert s'.emitted == s.emitted;
    }
  }

  // ----------------------------------------------------------- Piped, Ordered

  // Only incoming_task takes from the pipe, and only at its head.
  lemma PipeMoves(s: Slot, step: Step)
    requires s.Shaped() && Enabled(s, step) && !OnHost(step)
    ensures var s' := DeviceStep(s, step);
            if step.IncomingTakes? then
              Pipe(s) != [] && Pipe(s') == Pipe(s)[1..] && Stand(s'.dev) == Pass(Stand(s.dev), Pipe(s)[0])
            else Pipe(s') == Pipe(s) && Stand(s'.dev) == Stand(s.dev)
  {
    if IsCalm(step) {
      StepIsCalm(s, step);
      hide DeviceStep;
    } else if step.RxTakes? {
      assert s.down == [s.down[0]] + s.down[1..];
      assert Pipe(DeviceStep(s, step)) == Pipe(s);
    }
  }

  lemma StepKeepsPiped(s: Slot, step: Step)
    requires Inv(s) && Enabled(s, step) && !OnHost(step)
    ensures Piped(DeviceStep(s, step))
  {
    DeviceSays(s, step);
    PipeMoves(s, step);
    hide Sections, Jobs, Counted, Ordered, TagsOk, Hosted, Origins, Settled, Kept, Routed, DeviceStep, Says,
         Enabled, Pipe;
  }

  lemma LowMoves(s: Slot, step: Step)
    requires s.Shaped() && Enabled(s, step) && !OnHost(step)
    ensures var d, d' := s.dev, DeviceStep(s, step).dev;
            if step.IncomingTakes? then
              d'.everOpened == d.everOpened && d'.openSeq == d.openSeq && !d.incoming.IOpenCheck?
              && (d'.incoming.IOpenCheck? ==> d'.incoming.sequence == Pipe(s)[0].sequence)
            else if step.IncomingOpens? then
              d.incoming.IOpenCheck? && !d'.incoming.IOpenCheck?
              && ((d'.everOpened == d.everOpened && d'.openSeq == d.openSeq)
                  || (d'.everOpened && d'.openSeq == d.incoming.sequence))
            else
              d'.everOpened == d.everOpened && d'.openSeq == d.openSeq
              && d'.incoming.IOpenCheck? == d.incoming.IOpenCheck?
              && (d.incoming.IOpenCheck? ==> d'.incoming == d.incoming)
  {
    if IsCalm(step) {
      StepIsCalm(s, step);
      hide DeviceStep;
    }
  }

  lemma StepKeepsOrdered(s: Slot, step: Step)
    requires Inv(s) && Enabled(s, step) && !OnHost(step)
    ensures Ordered(DeviceStep(s, step))
    ensures Low(s.dev) <= Low(DeviceStep(s, step).dev) || step.IncomingOpens?
  {
    DeviceSays(s, step);
    PipeMoves(s, step);
    LowMoves(s, step);
    hide Sections, Jobs, Counted, Piped, TagsOk, Hosted, Origins, Settled, Kept, Routed, DeviceStep, Says, Enabled,
         Pipe;
    var s' := DeviceStep(s, step);
    if step.IncomingTakes? {
      AscendingFrom(Pipe(s'), Pipe(s)[0].sequence, Low(s'.dev), s.host.nextSeq);
    } else {
      AscendingFrom(Pipe(s'), Low(s.dev), Low(s'.dev), s.host.nextSeq);
    }
  }

  // ------------------------------------------------------------------- Origins

  lemma OpenKeepsOrigin(d: Device, allowed: bool, q: nat)
    requires d.incoming.IOpenCheck? && (d.everOpened ==> d.openSeq < d.incoming.sequence)
    ensures Origin(d, q) ==> Origin(IncomingOpen(d, allowed), q)
  {
  }

  lemma RxKeepsOrigins(s: Slot, step: Step)
    requires Sections(s.dev) && Origins(s.dev) && s.Shaped() && Enabled(s, step)
    requires IsRx(step)
    ensures Origins(DeviceStep(s, step).dev)
  {
    hide IncomingOk, OutgoingOk, DialOk;
  }

  lemma StepKeepsOrigins(s: Slot, step: Step)
    requires Inv(s) && Enabled(s, step) && !OnHost(step)
    ensures Origins(DeviceStep(s, step).dev)
  {
    hide Jobs, Counted, Piped, TagsOk, Hosted, Settled, Kept, Routed;
    if IsRx(step) {
      RxKeepsOrigins(s, step);
    } else if step.IncomingOpens? {
      hide Sections;
      if s.dev.rx.RxStore? { OpenKeepsOrigin(s.dev, step.allowed, s.dev.rx.q); }
      OpenKeepsOrigin(s.dev, step.allowed, s.dev.cancelSeq);
    } else if !step.IncomingTakes? {
      StepIsCalm(s, step);
      hide DeviceStep, Sections, Enabled;
    }
  }
}
