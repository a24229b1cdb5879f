/**
  What a stream slot is there for.  From every state in which the slot is free
  some run opens it for a new Conn and carries bytes both ways; and a
  cancellation that names the stream does cut it off.
  */
module StreamService {
  import opened Frames
  import opened StreamSlot
  import opened StreamOrder
  import opened StreamInv
  import opened StreamSafety
  import opened StreamProgress

  // ---------------------------------------------------------- a slot at rest

  // Nothing is under way in either direction.
  predicate Resting(s: Slot) {
    s.down == [] && s.taken == |s.emitted| && s.dev.rxq == [] && s.dev.rx.RxIdle? && s.dev.incoming.IIdle?
    && s.dev.outgoing.OIdle? && s.dev.dial.DIdle? && s.dev.dialQueue.None?
  }

  // The receive side of the device has nothing left to do.
  predicate Drained(s: Slot) {
    s.down == [] && s.dev.rxq == [] && s.dev.rx.RxIdle? && s.dev.incoming.IIdle? && s.host.conn.None?
  }

  lemma FreeSlotHasNoSession(s: Slot)
    requires Reachable(s) && Drained(s)
    ensures !s.dev.session && s.dev.fd.None? && !s.dev.outgoing.OSend? && !s.dev.dial.DSending?
  {
    ReachableIsFine(s);
    hide Reachable, Jobs, Counted, Ordered, TagsOk, Hosted, Origins, Settled, Kept, Routed, FullOk;
    assert Pipe(s) == [];
  }

  lemma Drains(s: Slot) returns (t: Slot)
    requires Reachable(s) && s.Shaped() && s.host.conn.None?
    ensures Leads(s, t) && Reachable(t) && t.Shaped() && Drained(t) && TxFree(t.dev) && t.host == s.host
  {
    hide Leads, TxFree, Reachable;
    var a := EverythingIsDelivered(s);
    var b := ReceiveQueueEmpties(a);
    var c := ReceiverSettles(b);
    var d := IncomingFinishes(c);
    t := GuardIsFreed(d);
    Through(s, a, b);
    Through(s, b, c);
    Through(s, c, d);
    Through(s, d, t);
    StaysReachable(s, t);
  }

  // The steps used below, one by one.
  lemma OnDevice(s: Slot, step: Step)
    requires s.Shaped() && Enabled(s, step) && !OnHost(step)
    ensures Next(s, step) == DeviceStep(s, step)
  {
    hide Enabled, DeviceStep;
  }

  lemma DialFails(s: Slot)
    requires s.Shaped() && s.dev.dial.DDialing? && TxFree(s.dev) && !s.dev.session
    ensures Next(s, DialEnds(false)) == s.(dev := s.dev.(dial := DIdle))
  {
    OnDevice(s, DialEnds(false));
    hide Next, StreamValid;
  }

  lemma DialSucceeds(s: Slot)
    requires s.Shaped() && s.dev.dial.DDialing? && TxFree(s.dev) && StreamValid(s.dev) && !s.dev.closing
    requires s.dev.generation == s.dev.dial.job.generation
    ensures var src := s.dev.dial.job.src;
            Next(s, DialEnds(true)) == s.(dev := s.dev.(fd := Some(src), dial := DSending(true, src)))
  {
    OnDevice(s, DialEnds(true));
    hide Next;
  }

  lemma DialStarts(s: Slot)
    requires s.Shaped() && s.dev.dial.DIdle? && s.dev.dialQueue.Some?
    ensures Next(s, DialTakes) == s.(dev := s.dev.(dialQueue := None, dial := DDialing(s.dev.dialQueue.value)))
  {
    OnDevice(s, DialTakes);
    hide Next;
  }

  lemma DialTells(s: Slot)
    requires s.Shaped() && s.dev.dial.DSending? && s.dev.dial.ok
    ensures Next(s, DialReports) == Emit(s, Opened(s.dev.dial.src), s.dev.(dial := DIdle))
  {
    OnDevice(s, DialReports);
    hide Next;
  }

  lemma OpenIsAccepted(s: Slot)
    requires s.Shaped() && s.dev.incoming.IOpenCheck? && !s.dev.session && s.dev.dialQueue.None?
    ensures var d, job := s.dev, Job(s.dev.generation + 1, s.dev.incoming.id);
            Next(s, IncomingOpens(true))
            == s.(dev := d.(session := true, epoch := d.netEpoch, openSeq := d.incoming.sequence, closing := false,
                            generation := d.generation + 1, everOpened := true, dialQueue := Some(job),
                            incoming := IIdle))
  {
    OnDevice(s, IncomingOpens(true));
    hide Next;
  }

  lemma MessageIsReceived(s: Slot)
    requires s.Shaped() && Enabled(s, RxTakes) && !s.down[0].Close?
    ensures Next(s, RxTakes) == s.(down := s.down[1..], dev := s.dev.(rxq := s.dev.rxq + [s.down[0]]))
  {
    OnDevice(s, RxTakes);
    hide Next;
  }

  lemma MessageIsTaken(s: Slot)
    requires s.Shaped() && s.dev.incoming.IIdle? && s.dev.rxq != [] && !s.dev.rxq[0].Close?
    ensures Next(s, IncomingTakes)
            == s.(dev := s.dev.(rxq := s.dev.rxq[1..], incoming := Started(s.dev.rxq[0]),
                                openSeen := s.dev.rxq[0].Open? || s.dev.openSeen))
  {
    OnDevice(s, IncomingTakes);
    hide Next;
  }

  lemma BytesAreWritten(s: Slot)
    requires s.Shaped() && s.dev.incoming.IWrite? && s.dev.incoming.bytes != [] && StreamValid(s.dev)
    requires s.dev.fd == Some(s.dev.incoming.id)
    ensures Next(s, IncomingWrites(true, false)) == s.(dev := s.dev.(incoming := IIdle))
  {
    OnDevice(s, IncomingWrites(true, false));
    hide Next;
  }

  lemma BytesAreRead(s: Slot, bytes: seq<byte>)
    requires s.Shaped() && s.dev.outgoing.OIdle? && TxFree(s.dev) && s.dev.fd.Some? && StreamValid(s.dev) && bytes != []
    ensures var d, src := s.dev, s.dev.fd.value;
            Next(s, OutgoingLooks(Got(bytes), false))
            == s.(dev := d.(fetched := d.fetched[src := ReadBy(d, src) + bytes],
                            outgoing := OSend(src, bytes, false, d.generation)))
  {
    OnDevice(s, OutgoingLooks(Got(bytes), false));
    hide Next;
  }

  lemma BytesAreSent(s: Slot)
    requires s.Shaped() && s.dev.outgoing.OSend? && !s.dev.outgoing.ended
    ensures Next(s, OutgoingSends)
            == Emit(s, Bytes(s.dev.outgoing.src, s.dev.outgoing.bytes), s.dev.(outgoing := OIdle))
  {
    OnDevice(s, OutgoingSends);
    hide Next;
  }

  predicate SameSide(s: Slot, t: Slot) { t.host == s.host && t.down == s.down && t.taken == s.taken }

  lemma TxStaysFree(d: Device, e: Device)
    requires TxFree(d) && e.dial.DIdle? && e.incoming == d.incoming && e.outgoing == d.outgoing
    ensures TxFree(e)
  {
  }

  // Connects and ends left over from earlier users come to nothing.
  lemma DialTaskRests(s: Slot) returns (t: Slot)
    requires s.Shaped() && Drained(s) && TxFree(s.dev) && !s.dev.session
    ensures Leads(s, t) && t.Shaped() && Drained(t) && TxFree(t.dev) && SameSide(s, t)
    ensures t.dev.dial.DIdle? && t.dev.dialQueue.None? && t.dev.outgoing == s.dev.outgoing && t.emitted == s.emitted
  {
    hide Leads, Next;
    var u := DialingEnds(s);
    TxStaysFree(s.dev, u.dev);
    t := QueuedEnds(u);
    TxStaysFree(u.dev, t.dev);
    Through(s, u, t);
  }

  lemma DialingEnds(s: Slot) returns (t: Slot)
    requires s.Shaped() && TxFree(s.dev) && !s.dev.session
    ensures Leads(s, t) && t.Shaped() && t == s.(dev := s.dev.(dial := DIdle))
  {
    Stays(s);
    t := s;
    hide Leads, StreamValid, Next;
    if s.dev.dial.DDialing? {
      DialFails(s);
      t := Moves(s, s, DialEnds(false));
    }
  }

  lemma QueuedEnds(s: Slot) returns (t: Slot)
    requires s.Shaped() && TxFree(s.dev) && !s.dev.session && s.dev.dial.DIdle?
    ensures Leads(s, t) && t.Shaped() && t == s.(dev := s.dev.(dialQueue := None))
  {
    Stays(s);
    t := s;
    hide Leads, StreamValid, Next;
    if s.dev.dialQueue.Some? {
      DialStarts(s);
      var u := Moves(s, s, DialTakes);
      DialFails(u);
      t := Moves(s, u, DialEnds(false));
    }
  }

  lemma OutgoingTaskRests(s: Slot) returns (t: Slot)
    requires s.Shaped() && Drained(s) && TxFree(s.dev) && !s.dev.session
    ensures Leads(s, t) && t.Shaped() && Drained(t) && TxFree(t.dev) && SameSide(s, t) && t.dev.outgoing.OIdle?
    ensures !t.dev.session && t.dev.dial == s.dev.dial && t.dev.dialQueue == s.dev.dialQueue
  {
    Stays(s);
    t := s;
    hide Leads;
    if t.dev.outgoing.OEnd? { t := Moves(s, t, OutgoingCloses); }
  }

  lemma Rests(s: Slot) returns (t: Slot)
    requires Reachable(s) && s.Shaped() && s.host.conn.None?
    ensures Leads(s, t) && Reachable(t) && t.Shaped() && Resting(t) && t.host.conn.None? && t.host.ids == s.host.ids
  {
    var a := Drains(s);
    FreeSlotHasNoSession(a);
    var b := OutgoingTaskRests(a);
    var c := DialTaskRests(b);
    hide Leads, Reachable, TxFree;
    Through(s, a, b);
    Through(s, b, c);
    StaysReachable(s, c);
    FreeSlotHasNoSession(c);
    t := TakesUpTo(c, |c.emitted|);
    Through(s, c, t);
    StaysReachable(s, t);
  }

  // --------------------------------------------------- numbers of cancellations

  // Every CLOSE the device has seen is older than the next number the host gives.
  predicate ClosesAreOld(s: Slot) { forall q | q in s.dev.closesGot :: q < s.host.nextSeq }

  lemma {:induction false} FirstIsBelow(q: seq<Down>, low: nat, high: nat, i: nat)
    requires Ascending(q, low, high) && i < |q|
    ensures low < q[i].sequence < high
    decreases |q|
  {
    if i > 0 {
      FirstIsBelow(q[1..], q[0].sequence, high, i - 1);
    } else if |q| > 1 {
      FirstIsBelow(q[1..], q[0].sequence, high, 0);
    }
  }

  lemma StepKeepsClosesOld(s: Slot, step: Step)
    requires s.Shaped() && Ordered(s) && ClosesAreOld(s)
    ensures ClosesAreOld(Next(s, step))
  {
    if step.RxTakes? && Enabled(s, step) {
      FirstIsBelow(Pipe(s), Low(s.dev), s.host.nextSeq, |s.dev.rxq|);
      assert Pipe(s)[|s.dev.rxq|] == s.down[0];
      hide Ordered;
    } else {
      hide Ordered, ClosesAreOld;
      GotOnlyByTaking(s, step);
      StaysOld(s, Next(s, step));
    }
  }

  lemma StaysOld(s: Slot, t: Slot)
    requires ClosesAreOld(s) && GetsNone(s, t)
    ensures ClosesAreOld(t)
  {
  }

  lemma GotOnlyByTaking(s: Slot, step: Step)
    requires s.Shaped() && (!step.RxTakes? || !Enabled(s, step))
    ensures GetsNone(s, Next(s, step))
  {
    hide Enabled, HostStep, DeviceStep;
    if Enabled(s, step) {
      if OnHost(step) {
        HostOnlyCounts(s, step);
      } else if step.RxAbort? || step.RxStores? || step.RxArms? || step.NetworkLost? {
        ReceiverGetsNone(s, step);
      } else {
        TaskGetsNone(s, step);
      }
    }
  }

  lemma TaskGetsNone(s: Slot, step: Step)
    requires s.Shaped() && Enabled(s, step) && !OnHost(step) && !IsRx(step) && !step.NetworkLost?
    ensures GetsNone(s, DeviceStep(s, step))
  {
    hide DeviceStep, Enabled, GetsNone;
    match step
    case IncomingTakes => TakeGetsNone(s);
    case IncomingOpens(allowed) => OpenGetsNone(s, allowed);
    case IncomingAnswers => AnswerGetsNone(s);
    case IncomingWrites(ok, more) => WriteGetsNone(s, ok, more);
    case IncomingCloses => CloseGetsNone(s);
    case OutgoingLooks(recv, idle) => LookGetsNone(s, recv, idle);
    case OutgoingSends => SendGetsNone(s);
    case OutgoingDrops => DropGetsNone(s);
    case OutgoingCloses => EndGetsNone(s);
    case _ => DialGetsNone(s, step);
  }

  predicate GetsNone(s: Slot, t: Slot) { t.dev.closesGot == s.dev.closesGot && t.host.nextSeq >= s.host.nextSeq }

  lemma HostOnlyCounts(s: Slot, step: Step)
    requires s.Shaped() && Enabled(s, step) && OnHost(step)
    ensures GetsNone(s, HostStep(s, step))
  {
    hide OtherIsOpen, Accepting, Reading, Emptying;
  }

  lemma ReceiverGetsNone(s: Slot, step: Step)
    requires s.Shaped() && Enabled(s, step) && (step.RxAbort? || step.RxStores? || step.RxArms? || step.NetworkLost?)
    ensures GetsNone(s, DeviceStep(s, step)) && !OnHost(step)
  {
  }

  lemma TakeGetsNone(s: Slot)
    requires s.Shaped() && Enabled(s, IncomingTakes)
    ensures GetsNone(s, DeviceStep(s, IncomingTakes))
  {
    hide Started;
  }

  lemma OpenGetsNone(s: Slot, allowed: bool)
    requires s.Shaped() && Enabled(s, IncomingOpens(allowed))
    ensures GetsNone(s, DeviceStep(s, IncomingOpens(allowed)))
  {
  }

  lemma AnswerGetsNone(s: Slot)
    requires s.Shaped() && Enabled(s, IncomingAnswers)
    ensures GetsNone(s, DeviceStep(s, IncomingAnswers))
  {
    hide Answer;
  }

  lemma WriteGetsNone(s: Slot, ok: bool, more: bool)
    requires s.Shaped() && Enabled(s, IncomingWrites(ok, more))
    ensures GetsNone(s, DeviceStep(s, IncomingWrites(ok, more)))
  {
    hide StreamValid;
  }

  lemma CloseGetsNone(s: Slot)
    requires s.Shaped() && Enabled(s, IncomingCloses)
    ensures GetsNone(s, DeviceStep(s, IncomingCloses))
  {
    hide IncomingClosing, TxFree;
    ClosingGetsNone(s.dev);
  }

  lemma ClosingGetsNone(d: Device)
    ensures IncomingClosing(d).closesGot == d.closesGot
  {
    hide AfterClosing;
  }

  lemma LookGetsNone(s: Slot, recv: Recv, idle: bool)
    requires s.Shaped() && Enabled(s, OutgoingLooks(recv, idle))
    ensures GetsNone(s, DeviceStep(s, OutgoingLooks(recv, idle)))
  {
    hide TxFree, StreamValid, ReadBy;
  }

  lemma SendGetsNone(s: Slot)
    requires s.Shaped() && Enabled(s, OutgoingSends)
    ensures GetsNone(s, DeviceStep(s, OutgoingSends))
  {
  }

  lemma DropGetsNone(s: Slot)
    requires s.Shaped() && Enabled(s, OutgoingDrops)
    ensures GetsNone(s, DeviceStep(s, OutgoingDrops))
  {
    hide StreamValid;
  }

  lemma EndGetsNone(s: Slot)
    requires s.Shaped() && Enabled(s, OutgoingCloses)
    ensures GetsNone(s, DeviceStep(s, OutgoingCloses))
  {
    hide TxFree;
  }

  lemma DialGetsNone(s: Slot, step: Step)
    requires s.Shaped() && Enabled(s, step) && (step.DialTakes? || step.DialEnds? || step.DialReports?)
    ensures GetsNone(s, DeviceStep(s, step))
  {
    hide TxFree, StreamValid;
  }

  lemma {:induction false} RunKeepsClosesOld(l: Leftover, steps: seq<Step>)
    requires l.Valid()
    ensures ClosesAreOld(After(Init(l), steps))
    decreases |steps|
  {
    if steps != [] {
      var n := |steps| - 1;
      RunKeepsClosesOld(l, steps[..n]);
      InitIsFine(l);
      RunKeepsInv(Init(l), steps[..n]);
      hide Init, Next, ClosesAreOld;
      StepKeepsClosesOld(After(Init(l), steps[..n]), steps[n]);
    }
  }

  // No cancellation so far reaches a stream opened under the next number.
  lemma CancelsAreOld(s: Slot)
    requires Reachable(s) && s.dev.rx.RxIdle?
    ensures s.dev.cancelArmed ==> s.dev.cancelSeq <= s.host.nextSeq
  {
    var l: Leftover, steps: seq<Step> :| l.Valid() && s == After(Init(l), steps);
    RunKeepsClosesOld(l, steps);
    ReachableIsFine(s);
    OpenIsOld(s);
    hide Init, Next, Ordered, Sections, Jobs, Counted, Piped, TagsOk, Hosted, Settled, Kept, Routed, FullOk;
    assert s.dev.cancelArmed ==> Origin(s.dev, s.dev.cancelSeq);
  }

  lemma OpenIsOld(s: Slot)
    requires Ordered(s)
    ensures s.dev.everOpened ==> s.dev.openSeq < s.host.nextSeq
  {
    if s.dev.everOpened {
      if Pipe(s) != [] { FirstIsBelow(Pipe(s), Low(s.dev), s.host.nextSeq, 0); }
    }
  }

  // ---------------------------------------------------------- a new user is served

  // The Conn is live, the device holds a socket for it, and nothing is under way.
  predicate Connected(s: Slot, id: nat) {
    Resting(s) && StreamValid(s.dev) && !s.dev.closing && s.dev.fd == Some(id)
    && s.host.conn.Some? && s.host.conn.value.id == id && s.host.conn.value.phase.Live?
  }

  lemma HostAsks(s: Slot) returns (t: Slot)
    requires s.Shaped() && Resting(s) && s.host.conn.None? && !s.dev.session
    ensures Leads(s, t) && t.Shaped()
    ensures var c := Conn(s.host.ids, Opening, [], false, [], true);
            t == s.(host := Host(Some(c), s.host.ids + 1, s.host.nextSeq + 1),
                    dev := s.dev.(incoming := IOpenCheck(s.host.ids, s.host.nextSeq), openSeen := true))
  {
    Stays(s);
    hide Leads;
    t := Moves(s, s, HostAllocates);
    t := Moves(s, t, HostOpens);
    hide Next;
    MessageIsReceived(t);
    t := Moves(s, t, RxTakes);
    MessageIsTaken(t);
    t := Moves(s, t, IncomingTakes);
  }

  // Whether the stream is valid depends on a few fields only.
  lemma StaysValid(d: Device, e: Device)
    requires d.session == e.session && d.epoch == e.epoch && d.netEpoch == e.netEpoch && d.openSeq == e.openSeq
    requires d.cancelArmed == e.cancelArmed && d.cancelSeq == e.cancelSeq
    ensures StreamValid(d) == StreamValid(e)
  {
  }

  lemma DeviceConnects(s: Slot) returns (t: Slot)
    requires s.Shaped() && s.dev.incoming.IOpenCheck? && !s.dev.session && TxFree(s.dev)
    requires s.dev.dial.DIdle? && s.dev.dialQueue.None? && s.dev.outgoing.OIdle?
    requires s.dev.cancelArmed ==> s.dev.cancelSeq <= s.dev.incoming.sequence
    ensures Leads(s, t) && t.Shaped() && t.host == s.host && t.down == s.down && t.taken == s.taken
    ensures t.emitted == s.emitted + [Opened(s.dev.incoming.id)]
    ensures StreamValid(t.dev) && !t.dev.closing && t.dev.fd == Some(s.dev.incoming.id)
    ensures t.dev.rxq == s.dev.rxq && t.dev.rx == s.dev.rx && t.dev.incoming.IIdle? && t.dev.outgoing.OIdle?
    ensures t.dev.dial.DIdle? && t.dev.dialQueue.None?
  {
    Stays(s);
    hide Leads, Next;
    OpenIsAccepted(s);
    var a := Moves(s, s, IncomingOpens(true));
    DialStarts(a);
    var b := Moves(s, a, DialTakes);
    assert StreamValid(b.dev);
    hide StreamValid;
    DialSucceeds(b);
    var c := Moves(s, b, DialEnds(true));
    StaysValid(b.dev, c.dev);
    DialTells(c);
    t := Moves(s, c, DialReports);
    StaysValid(c.dev, t.dev);
  }

  lemma HostLearns(s: Slot) returns (t: Slot)
    requires s.Shaped() && s.down == [] && s.taken + 1 == |s.emitted|
    requires s.host.conn.Some? && s.host.conn.value.phase.Opening? && s.host.conn.value.incoming == []
    ensures Leads(s, t) && t.Shaped() && t.dev == s.dev && t.down == [] && t.taken == |t.emitted|
    ensures t.host.conn == Some(Accepting(s.host.conn.value.(phase := Live), s.emitted[s.taken]))
  {
    Stays(s);
    hide Leads;
    t := Moves(s, s, HostOpenAcked);
    t := Moves(s, t, HostAccepts);
  }

  // A free slot can serve its next user: the device opens a socket for it, and
  // what the new Conn is told first is that it is open.
  lemma FreeSlotServes(s: Slot) returns (t: Slot)
    requires Reachable(s) && s.Shaped() && s.host.conn.None?
    ensures Leads(s, t) && Reachable(t) && t.Shaped() && Connected(t, s.host.ids)
    ensures t.host.conn.value == Conn(s.host.ids, Live, [Opened(s.host.ids)], false, [], true)
  {
    var a := Rests(s);
    FreeSlotHasNoSession(a);
    CancelsAreOld(a);
    var b := HostAsks(a);
    hide Leads, Reachable, StreamValid;
    var c := DeviceConnects(b);
    t := HostLearns(c);
    Through(s, a, b);
    Through(s, b, c);
    Through(s, c, t);
    StaysReachable(s, t);
  }

  lemma DeviceFetches(s: Slot, bytes: seq<byte>) returns (t: Slot)
    requires s.Shaped() && s.dev.outgoing.OIdle? && TxFree(s.dev) && s.dev.fd.Some? && StreamValid(s.dev) && bytes != []
    ensures var src := s.dev.fd.value;
            t == s.(dev := s.dev.(fetched := s.dev.fetched[src := ReadBy(s.dev, src) + bytes], outgoing := OIdle),
                    emitted := s.emitted + [Bytes(src, bytes)])
    ensures Leads(s, t) && t.Shaped()
  {
    Stays(s);
    hide Leads, StreamValid, Next;
    BytesAreRead(s, bytes);
    t := Moves(s, s, OutgoingLooks(Got(bytes), false));
    BytesAreSent(t);
    t := Moves(s, t, OutgoingSends);
  }

  lemma HostReceives(s: Slot) returns (t: Slot)
    requires s.Shaped() && s.taken + 1 == |s.emitted| && s.emitted[s.taken].Bytes?
    requires s.host.conn.Some? && s.host.conn.value.incoming == []
    ensures Leads(s, t) && t.Shaped() && t.taken == |t.emitted| && t.dev == s.dev && t.down == s.down
    ensures t.host.conn == Some(s.host.conn.value.(read := s.host.conn.value.read + s.emitted[s.taken].bytes))
  {
    Stays(s);
    hide Leads, TxFree;
    t := Moves(s, s, HostAccepts);
    t := Moves(s, t, HostReads);
  }

  // From there bytes come in: what the socket gives is what Read returns.
  lemma BytesComeIn(s: Slot, id: nat, bytes: seq<byte>) returns (t: Slot)
    requires s.Shaped() && Connected(s, id) && bytes != [] && s.host.conn.value.incoming == []
    ensures Leads(s, t) && t.Shaped() && Connected(t, id) && t.host.conn.value.incoming == []
    ensures t.host.conn.value.read == s.host.conn.value.read + bytes
    ensures ReadBy(t.dev, id) == ReadBy(s.dev, id) + bytes
  {
    var a := DeviceFetches(s, bytes);
    StaysValid(s.dev, a.dev);
    hide StreamValid, Leads;
    t := HostReceives(a);
    Through(s, a, t);
  }

  lemma DeviceGets(s: Slot, bytes: seq<byte>) returns (t: Slot)
    requires s.Shaped() && s.down == [] && s.dev.rxq == [] && s.dev.rx.RxIdle? && s.dev.incoming.IIdle?
    requires s.host.conn.Some? && s.host.conn.value.phase.Live?
    ensures Leads(s, t) && t.Shaped()
    ensures t == s.(host := s.host.(nextSeq := s.host.nextSeq + 1),
                    dev := s.dev.(incoming := IWrite(s.host.conn.value.id, bytes)))
  {
    Stays(s);
    hide Leads;
    t := Moves(s, s, HostWrites(bytes));
    assert t == Hand(s, Data(s.host.conn.value.id, s.host.nextSeq, bytes));
    hide Next;
    MessageIsReceived(t);
    t := Moves(s, t, RxTakes);
    MessageIsTaken(t);
    t := Moves(s, t, IncomingTakes);
  }

  // And they go out: the Conn's Write has the write task at work on those bytes
  // with the Conn's own socket open (StreamCode.WriteMessage writes them all).
  lemma BytesGoOut(s: Slot, id: nat, bytes: seq<byte>) returns (t: Slot, u: Slot)
    requires s.Shaped() && Connected(s, id) && bytes != []
    ensures Leads(s, t) && t.Shaped() && t.dev.incoming == IWrite(id, bytes)
    ensures StreamValid(t.dev) && t.dev.fd == Some(id)
    ensures u == Next(t, IncomingWrites(true, false)) && Leads(s, u) && u.Shaped() && Connected(u, id)
    ensures u.dev.misrouted == s.dev.misrouted && u.host.conn == s.host.conn
  {
    t := DeviceGets(s, bytes);
    StaysValid(s.dev, t.dev);
    hide Leads, StreamValid, Next;
    BytesAreWritten(t);
    u := Moves(s, t, IncomingWrites(true, false));
    StaysValid(t.dev, u.dev);
  }

  // The whole of it: from every reachable state with a free slot, for all bytes
  // in either direction, some run opens the slot for a new Conn, brings what that
  // Conn wrote to its own open socket at w, and returns what the socket gave from
  // its Read at t.
  lemma FreeSlotCarriesBytes(s: Slot, sent: seq<byte>, received: seq<byte>) returns (w: Slot, t: Slot)
    requires Reachable(s) && s.Shaped() && s.host.conn.None? && sent != [] && received != []
    ensures Leads(s, w) && w.dev.incoming == IWrite(s.host.ids, sent)
    ensures StreamValid(w.dev) && w.dev.fd == Some(s.host.ids)
    ensures w.Shaped() && Leads(Next(w, IncomingWrites(true, false)), t) && Leads(s, t)
    ensures t.Shaped() && Connected(t, s.host.ids) && t.host.conn.value.read == received
  {
    var a := FreeSlotServes(s);
    hide Reachable, StreamValid;
    Stays(a);
    var b := Moves(a, a, HostReads);
    hide Leads, Next;
    Through(s, a, b);
    var c;
    w, c := BytesGoOut(b, s.host.ids, sent);
    Through(s, b, w);
    t := BytesComeIn(c, s.host.ids, received);
    Through(s, b, c);
    Through(s, c, t);
  }

  // ------------------------------------------------------- cancellations work

  // An ABORT that names the stream's OPEN invalidates the stream.
  lemma AbortCutsOff(s: Slot)
    requires s.Shaped() && s.dev.rx.RxIdle? && s.dev.session
    ensures var t := Next(Next(Next(s, RxAbort(s.dev.openSeq)), RxStores), RxArms);
            t.dev.session && t.dev.openSeq == s.dev.openSeq && !StreamValid(t.dev) && t.dev.rx.RxIdle?
  {
  }

  // So does the CLOSE of its own user, as soon as it is received and before it
  // is worked on.
  lemma CloseCutsOff(s: Slot)
    requires Reachable(s) && s.Shaped() && Enabled(s, RxTakes) && s.down[0].Close? && s.dev.session
    ensures var t := Next(Next(Next(s, RxTakes), RxStores), RxArms);
            t.dev.session && t.dev.openSeq == s.dev.openSeq && !StreamValid(t.dev) && t.dev.rx.RxIdle?
  {
    ReachableIsFine(s);
    CloseIsLater(s);
    hide Reachable, Inv, Next;
    OnDevice(s, RxTakes);
    var a, q := Next(s, RxTakes), s.down[0].sequence;
    assert a.dev.rx == RxStore(q) && a.dev.session && a.dev.openSeq == s.dev.openSeq < q;
    StoredCutsOff(a, q);
  }

  lemma StoredCutsOff(s: Slot, q: nat)
    requires s.Shaped() && s.dev.rx == RxStore(q) && s.dev.session && q > s.dev.openSeq
    ensures var t := Next(Next(s, RxStores), RxArms);
            t.dev.session && t.dev.openSeq == s.dev.openSeq && !StreamValid(t.dev) && t.dev.rx.RxIdle?
  {
  }

  lemma CloseIsLater(s: Slot)
    requires Sections(s.dev) && Ordered(s) && s.down != [] && s.dev.session
    ensures s.down[0].sequence > s.dev.openSeq
  {
    hide Ascending;
    FirstIsBelow(Pipe(s), Low(s.dev), s.host.nextSeq, |s.dev.rxq|);
    assert Pipe(s)[|s.dev.rxq|] == s.down[0];
  }
}
