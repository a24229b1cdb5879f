/**
  What the users of a stream slot can rely on, in every run: their bytes are
  their own, each gets exactly one CLOSE, and a freed slot is clean.
  */
module StreamSafety {
  import opened Frames
  import opened StreamSlot
  import opened StreamOrder
  import opened StreamInv

  // ------------------------------------------------------------------- Settled

  predicate IsOutgoing(step: Step) {
    step.OutgoingLooks? || step.OutgoingSends? || step.OutgoingDrops? || step.OutgoingCloses?
  }

  lemma RxKeepsSettled(s: Slot, step: Step)
    requires Sections(s.dev) && Settled(s.dev) && Ordered(s) && s.Shaped() && Enabled(s, step) && IsRx(step)
    ensures Settled(DeviceStep(s, step).dev)
  {
    hide IncomingOk, DialOk;
    if step.RxTakes? {
      assert Pipe(s) == s.dev.rxq + [s.down[0]] + s.down[1..];
      AscendingTail(s.dev.rxq, s.down[0], s.down[1..], Low(s.dev), s.host.nextSeq);
    }
  }

  lemma OpenKeepsSettled(d: Device, allowed: bool)
    requires Sections(d) && Settled(d) && d.incoming.IOpenCheck?
    ensures Settled(IncomingOpen(d, allowed))
  {
  }

  lemma CloseKeepsSettled(d: Device)
    requires Sections(d) && Settled(d) && (d.incoming.IWriteFailed? || d.incoming.ICloseSlot? ==> TxFree(d))
    requires Handling(d.incoming) || d.incoming.IWriteFailed? || d.incoming.IFailSending?
    ensures Settled(IncomingClosing(d))
  {
    hide DialOk;
  }

  lemma OutgoingKeepsSettled(s: Slot, step: Step)
    requires Sections(s.dev) && Settled(s.dev) && s.Shaped() && Enabled(s, step) && IsOutgoing(step)
    ensures Settled(DeviceStep(s, step).dev)
  {
    hide IncomingOk, DialOk;
    match step
    case OutgoingLooks(_, _) =>
    case OutgoingSends =>
    case OutgoingDrops =>
    case OutgoingCloses =>
  }

  lemma RestKeepsSettled(s: Slot, step: Step)
    requires Settled(s.dev) && s.Shaped() && Enabled(s, step) && !OnHost(step)
    requires !IsRx(step) && !IsOutgoing(step) && !step.IncomingOpens? && !step.IncomingCloses?
    ensures Settled(DeviceStep(s, step).dev)
  {
  }

  lemma StepKeepsSettled(s: Slot, step: Step)
    requires Inv(s) && Enabled(s, step) && !OnHost(step)
    ensures Settled(DeviceStep(s, step).dev)
  {
    hide Sections, Settled, Ordered, Jobs, Counted, Piped, TagsOk, Hosted, Kept, Routed, Origins, IncomingClosing,
         IncomingOpen;
    if IsRx(step) {
      RxKeepsSettled(s, step);
    } else if IsOutgoing(step) {
      OutgoingKeepsSettled(s, step);
    } else if step.IncomingOpens? {
      OpenKeepsSettled(s.dev, step.allowed);
    } else if step.IncomingCloses? {
      CloseKeepsSettled(s.dev);
    } else {
      RestKeepsSettled(s, step);
    }
  }

  // ---------------------------------------------------------------------- Kept

  predicate Quiet(d: Device, d': Device) {
    d'.outgoing == d.outgoing && d'.fetched == d.fetched && d'.lost == d.lost
  }

  lemma TakeIsQuiet(d: Device)
    requires d.rxq != []
    ensures Quiet(d, IncomingTake(d))
  {
  }

  lemma OpenIsQuiet(d: Device, allowed: bool)
    requires d.incoming.IOpenCheck?
    ensures Quiet(d, IncomingOpen(d, allowed))
  {
  }

  lemma WriteIsQuiet(d: Device, ok: bool, more: bool)
    requires d.incoming.IWrite?
    ensures Quiet(d, IncomingWrite(d, ok, more))
  {
    hide StreamValid;
  }

  lemma CloseIsQuiet(d: Device)
    ensures Quiet(d, IncomingClosing(d))
  {
    hide AfterClosing;
  }

  lemma DialIsQuiet(d: Device, ok: bool)
    requires d.dial.DDialing?
    ensures Quiet(d, DialEnd(d, ok))
  {
    hide StreamValid;
  }

  lemma RestIsQuiet(s: Slot, step: Step)
    requires s.Shaped() && Enabled(s, step)
    requires IsRx(step) || step.NetworkLost? || step.IncomingAnswers? || step.DialTakes? || step.DialReports?
    ensures Quiet(s.dev, DeviceStep(s, step).dev)
  {
  }

  lemma OthersAreQuiet(s: Slot, step: Step)
    requires s.Shaped() && Enabled(s, step) && !OnHost(step) && !IsOutgoing(step)
    ensures Quiet(s.dev, DeviceStep(s, step).dev)
  {
    hide Quiet, StreamValid, IncomingTake, IncomingOpen, IncomingWrite, IncomingClosing, DialEnd;
    var d := s.dev;
    match step
    case IncomingTakes => TakeIsQuiet(d);
    case IncomingOpens(allowed) => OpenIsQuiet(d, allowed);
    case IncomingWrites(ok, more) => WriteIsQuiet(d, ok, more);
    case IncomingCloses => CloseIsQuiet(d);
    case DialEnds(ok) => DialIsQuiet(d, ok);
    case _ => RestIsQuiet(s, step);
  }

  lemma OthersSayNoBytes(d: Device, step: Step, e: seq<Up>, id: nat)
    requires !step.OutgoingSends?
    ensures BytesOf(e + Says(d, step), id) == BytesOf(e, id)
  {
    var said := Says(d, step);
    if said == [] {
      assert e + said == e;
    } else {
      assert said == [said[0]];
      EmitOne(e, said[0], id);
    }
  }

  lemma LookKeepsBytes(s: Slot, recv: Recv, idle: bool, id: nat)
    requires Sections(s.dev) && Settled(s.dev) && KeptFor(s, id) && s.dev.outgoing.OIdle?
    ensures KeptFor(s.(dev := OutgoingLook(s.dev, recv, idle)), id)
  {
    hide IncomingOk, OutgoingOk, DialOk, BytesOf;
  }

  lemma SendKeepsBytes(s: Slot, id: nat)
    requires Settled(s.dev) && KeptFor(s, id) && (s.dev.outgoing.OSend? || s.dev.outgoing.OCloseSending?)
    ensures KeptFor(OutgoingSend(s), id)
  {
    hide BytesOf, StreamValid, Doomed;
    if s.dev.outgoing.OSend? {
      EmitOne(s.emitted, Bytes(s.dev.outgoing.src, s.dev.outgoing.bytes), id);
    } else {
      EmitOne(s.emitted, Closed(s.dev.outgoing.src), id);
    }
  }

  lemma DropKeepsBytes(s: Slot, id: nat)
    requires s.Shaped() && Settled(s.dev) && KeptFor(s, id) && Enabled(s, OutgoingDrops)
    ensures KeptFor(DeviceStep(s, OutgoingDrops), id)
  {
    hide BytesOf, StreamValid, Doomed;
  }

  lemma EndKeepsBytes(s: Slot, id: nat)
    requires KeptFor(s, id) && s.dev.outgoing.OEnd?
    ensures KeptFor(s.(dev := OutgoingClose(s.dev)), id)
  {
    hide BytesOf;
  }

  lemma OutgoingKeepsBytes(s: Slot, step: Step, id: nat)
    requires Sections(s.dev) && Settled(s.dev) && KeptFor(s, id) && s.Shaped() && Enabled(s, step) && IsOutgoing(step)
    ensures KeptFor(DeviceStep(s, step), id)
  {
    hide KeptFor, Sections, Settled, OutgoingLook, OutgoingSend, OutgoingClose, StreamValid;
    match step
    case OutgoingLooks(recv, idle) => LookKeepsBytes(s, recv, idle, id);
    case OutgoingSends => SendKeepsBytes(s, id);
    case OutgoingDrops => DropKeepsBytes(s, id);
    case OutgoingCloses => EndKeepsBytes(s, id);
  }

  lemma QuietKeepsBytes(s: Slot, step: Step, id: nat)
    requires KeptFor(s, id) && s.Shaped() && Enabled(s, step) && !OnHost(step) && !IsOutgoing(step)
    ensures KeptFor(DeviceStep(s, step), id)
  {
    DeviceSays(s, step);
    OthersAreQuiet(s, step);
    OthersSayNoBytes(s.dev, step, s.emitted, id);
    hide DeviceStep, Enabled, Says, BytesOf;
  }

  lemma StepKeepsKept(s: Slot, step: Step)
    requires Inv(s) && Enabled(s, step) && !OnHost(step)
    ensures Kept(DeviceStep(s, step))
  {
    hide DeviceStep, Enabled, Sections, Settled, Ordered, Jobs, Counted, Piped, TagsOk, Hosted, Routed, Origins,
         KeptFor;
    forall id: nat ensures KeptFor(DeviceStep(s, step), id) {
      assert KeptFor(s, id);
      if IsOutgoing(step) {
        OutgoingKeepsBytes(s, step, id);
      } else {
        QuietKeepsBytes(s, step, id);
      }
    }
  }

  // ------------------------------------------------------------ Hosted, Routed

  lemma StepKeepsHosted(s: Slot, step: Step)
    requires Inv(s) && Enabled(s, step) && !OnHost(step)
    ensures DeviceStep(s, step).Shaped() && Hosted(DeviceStep(s, step))
  {
    DeviceSays(s, step);
    var s' := DeviceStep(s, step);
    assert s'.emitted[..s'.taken] == s.emitted[..s.taken];
    hide DeviceStep, Enabled, Sections, Settled, Ordered, Jobs, Counted, Piped, TagsOk, Kept, Routed, Origins, Says;
  }

  lemma StepKeepsRouted(s: Slot, step: Step)
    requires Inv(s) && Enabled(s, step) && !OnHost(step)
    ensures Routed(DeviceStep(s, step))
  {
    DeviceSays(s, step);
    PipeMoves(s, step);
    hide Jobs, Counted, TagsOk, Hosted, Origins, Settled, Kept, Ordered;
    match step
    case IncomingTakes =>
      HeadFits(s);
    case IncomingWrites(_, _) =>
    case _ => RestKeepsRouted(s, step);
  }

  predicate WritesNothing(d: Device, d': Device) {
    d'.misrouted == d.misrouted && (d'.incoming.IWrite? ==> d'.incoming == d.incoming)
  }

  lemma IncomingWritesNothing(d: Device, allowed: bool)
    ensures d.incoming.IOpenCheck? ==> WritesNothing(d, IncomingOpen(d, allowed))
    ensures WritesNothing(d, IncomingClosing(d))
  {
  }

  lemma OthersWriteNothing(d: Device, recv: Recv, idle: bool)
    ensures WritesNothing(d, OutgoingLook(d, recv, idle))
    ensures d.outgoing.OEnd? ==> WritesNothing(d, OutgoingClose(d))
    ensures d.dial.DDialing? ==> WritesNothing(d, DialEnd(d, idle))
  {
    hide StreamValid;
  }

  lemma RestWritesNothing(s: Slot, step: Step)
    requires s.Shaped() && Enabled(s, step)
    requires IsRx(step) || step.NetworkLost? || step.IncomingAnswers? || step.OutgoingSends? || step.OutgoingDrops?
             || step.DialTakes? || step.DialReports?
    ensures WritesNothing(s.dev, DeviceStep(s, step).dev)
  {
  }

  lemma RestKeepsRouted(s: Slot, step: Step)
    requires s.Shaped() && Enabled(s, step) && !OnHost(step)
    requires !step.IncomingTakes? && !step.IncomingWrites?
    ensures WritesNothing(s.dev, DeviceStep(s, step).dev)
  {
    hide StreamValid, IncomingOpen, IncomingClosing, OutgoingLook, OutgoingClose, DialEnd, WritesNothing;
    match step
    case IncomingOpens(allowed) => IncomingWritesNothing(s.dev, allowed);
    case IncomingCloses => IncomingWritesNothing(s.dev, false);
    case OutgoingLooks(recv, idle) => OthersWriteNothing(s.dev, recv, idle);
    case OutgoingCloses => OthersWriteNothing(s.dev, Nothing, false);
    case DialEnds(ok) => OthersWriteNothing(s.dev, Nothing, ok);
    case _ => RestWritesNothing(s, step);
  }

  // ----------------------------------------------------------- steps of the host

  // A message for the device joins the end of the pipe.
  lemma HostPipes(s: Slot, step: Step)
    requires s.Shaped() && Enabled(s, step) && OnHost(step)
    ensures var s' := HostStep(s, step);
            s'.dev == s.dev && s'.emitted == s.emitted && s.taken <= s'.taken
            && s.host.ids <= s'.host.ids && (s.lateData ==> s'.lateData)
            && s.down <= s'.down && |s'.down| <= |s.down| + 1
            && s'.host.nextSeq == s.host.nextSeq + |s'.down| - |s.down|
            && (|s'.down| == |s.down| + 1 ==> s'.down[|s.down|].sequence == s.host.nextSeq)
  {
  }

  lemma HostKeepsPiped(s: Slot, step: Step)
    requires s.Shaped() && Piped(s) && Enabled(s, step) && OnHost(step)
    ensures Piped(HostStep(s, step))
  {
    var s' := HostStep(s, step);
    HostPipes(s, step);
    var p := Stand(s.dev);
    if !s.lateData && s'.lateData { ChainRelaxes(Pipe(s), p, true); }
    if |s'.down| > |s.down| {
      var m := s'.down[|s.down|];
      assert s'.down == s.down + [m];
      assert Pipe(s') == Pipe(s) + [m];
      ChainExtends(Pipe(s), p, m, !s'.lateData);
    } else {
      assert s'.down == s.down;
    }
    hide Chain, End;
  }

  lemma HostKeepsOrdered(s: Slot, step: Step)
    requires s.Shaped() && Ordered(s) && Enabled(s, step) && OnHost(step)
    ensures Ordered(HostStep(s, step))
  {
    var s' := HostStep(s, step);
    HostPipes(s, step);
    hide HostStep, Enabled;
    if |s'.down| > |s.down| {
      var m := s'.down[|s.down|];
      assert s'.down == s.down + [m];
      assert Pipe(s') == Pipe(s) + [m];
      AscendingExtends(Pipe(s), Low(s.dev), m, s'.host.nextSeq);
    } else {
      assert s'.down == s.down;
    }
  }

  // What the host takes next is for the Conn in the slot.
  lemma NextIsMine(s: Slot)
    requires s.Shaped() && TagsOk(s) && Hosted(s) && Sections(s.dev) && Counted(s) && Piped(s)
    requires s.taken < |s.emitted| && !s.emitted[s.taken].Overtaken?
    ensures s.host.conn.Some? && s.emitted[s.taken].src == s.host.conn.value.id && !s.host.conn.value.remoteClosed
  {
    TaggedAt(s.emitted, s.taken, s.host.ids);
    hide Tagged, Sections, Counted, Piped;
  }

  lemma AcceptKeepsConn(c: Conn, taken: seq<Up>, m: Up)
    requires ConnOk(c, taken)
    requires !m.Overtaken? ==> m.src == c.id && !c.remoteClosed
    ensures ConnOk(Accepting(c, m), taken + [m])
  {
    hide Closes, BytesOf;
    EmitOne(taken, m, c.id);
    EmitOne(c.incoming, m, c.id);
    var waiting, more := BytesOf(c.incoming, c.id), PayloadFor(m, c.id);
    assert c.read + (waiting + more) == (c.read + waiting) + more;
  }

  lemma AcceptKeepsHosted(s: Slot)
    requires s.Shaped() && TagsOk(s) && Hosted(s) && Sections(s.dev) && Counted(s) && Piped(s)
    requires Enabled(s, HostAccepts)
    ensures Hosted(HostStep(s, HostAccepts))
  {
    var m := s.emitted[s.taken];
    assert s.emitted[..s.taken + 1] == s.emitted[..s.taken] + [m];
    if !m.Overtaken? { NextIsMine(s); }
    hide Tagged, Sections, Counted, Piped, Closes, BytesOf, ConnOk;
    if s.host.conn.Some? {
      AcceptKeepsConn(s.host.conn.value, s.emitted[..s.taken], m);
    } else {
      EmitOne(s.emitted[..s.taken], m, 0);
    }
  }

  lemma {:induction false} FirstBytes(q: seq<Up>, id: nat)
    requires q != []
    ensures BytesOf(q, id) == PayloadFor(q[0], id) + BytesOf(q[1..], id)
    decreases |q|
  {
    var n := |q| - 1;
    hide PayloadFor;
    if n == 0 {
      assert q[..0] == [] && q[1..] == [];
    } else {
      assert q[..n][1..] == q[1..][..n - 1];
      FirstBytes(q[..n], id);
      assert BytesOf(q, id) == BytesOf(q[..n], id) + PayloadFor(q[n], id);
      assert BytesOf(q[1..], id) == BytesOf(q[1..][..n - 1], id) + PayloadFor(q[n], id);
    }
  }

  lemma ReadKeepsConn(c: Conn, taken: seq<Up>)
    requires ConnOk(c, taken) && c.incoming != []
    ensures ConnOk(Reading(c), taken) && (!BeforeClose(c.phase) ==> ConnOk(Emptying(c), taken))
  {
    hide Closes, BytesOf;
    FirstBytes(c.incoming, c.id);
    var m := c.incoming[0];
    assert m.Bytes? ==> m.src == c.id;
    assert AllFrom(c.incoming[1..], c.id);
    assert Reading(c).read == c.read + PayloadFor(m, c.id);
  }

  lemma ReadKeepsHosted(s: Slot, step: Step)
    requires s.Shaped() && Hosted(s) && Enabled(s, step) && (step.HostReads? || step.HostDrains?)
    ensures Hosted(HostStep(s, step))
  {
    hide ConnOk;
    ReadKeepsConn(s.host.conn.value, s.emitted[..s.taken]);
  }

  lemma AllocationKeepsHosted(s: Slot)
    requires s.Shaped() && TagsOk(s) && Hosted(s) && Enabled(s, HostAllocates)
    ensures Hosted(HostStep(s, HostAllocates))
  {
    NothingForLaterUsers(s.emitted, s.host.ids, s.host.ids);
    PrefixHasNoMore(s.emitted, s.taken, s.host.ids);
  }

  lemma HostKeepsHosted(s: Slot, step: Step)
    requires Inv(s) && Enabled(s, step) && OnHost(step)
    ensures HostStep(s, step).Shaped() && Hosted(HostStep(s, step)) && TagsOk(HostStep(s, step))
  {
    HostPipes(s, step);
    TaggedRelaxes(s.emitted, s.host.ids, HostStep(s, step).host.ids);
    hide Tagged, Closes, BytesOf, Jobs, Ordered, Origins, Settled, Kept, Routed, Sections, Counted, Piped;
    if step.HostAccepts? {
      AcceptKeepsHosted(s);
    } else if step.HostReads? || step.HostDrains? {
      ReadKeepsHosted(s, step);
    } else if step.HostAllocates? {
      AllocationKeepsHosted(s);
    } else {
    }
  }

  // ------------------------------------------------------------------- all runs

  lemma HostKeepsInv(s: Slot, step: Step)
    requires Inv(s) && Enabled(s, step) && OnHost(step)
    ensures Inv(HostStep(s, step))
  {
    HostPipes(s, step);
    HostKeepsPiped(s, step);
    HostKeepsOrdered(s, step);
    HostKeepsHosted(s, step);
    var s' := HostStep(s, step);
    hide HostStep, Enabled, Sections, Jobs, Ordered, Piped, TagsOk, Hosted, Origins, Settled;
    forall id: nat ensures KeptFor(s', id) { assert KeptFor(s, id); }
  }

  lemma DeviceKeepsInv(s: Slot, step: Step)
    requires Inv(s) && Enabled(s, step) && !OnHost(step)
    ensures Inv(DeviceStep(s, step))
  {
    StepKeepsSections(s, step);
    StepKeepsJobs(s, step);
    StepKeepsFull(s, step);
    StepKeepsCounted(s, step);
    StepKeepsPiped(s, step);
    StepKeepsOrdered(s, step);
    StepKeepsTags(s, step);
    StepKeepsHosted(s, step);
    StepKeepsOrigins(s, step);
    StepKeepsSettled(s, step);
    StepKeepsKept(s, step);
    StepKeepsRouted(s, step);
    hide DeviceStep, Sections, Jobs, FullOk, Counted, Ordered, Piped, TagsOk, Hosted, Origins, Settled, Kept, Routed,
         Enabled;
  }

  lemma InitIsFine(l: Leftover)
    requires l.Valid()
    ensures Inv(Init(l))
  {
    var s := Init(l);
    assert Pipe(s) == [];
    assert s.emitted[..s.taken] == [];
    forall id: nat ensures KeptFor(s, id) { }
  }

  // Every state a slot can reach in one session.
  ghost predicate Reachable(s: Slot) {
    exists l: Leftover, steps: seq<Step> :: l.Valid() && s == After(Init(l), steps)
  }

  lemma {:induction false} RunKeepsInv(s0: Slot, steps: seq<Step>)
    requires Inv(s0)
    ensures Inv(After(s0, steps))
    decreases |steps|
  {
    if steps != [] {
      var n := |steps| - 1;
      RunKeepsInv(s0, steps[..n]);
      var s := After(s0, steps[..n]);
      hide Inv, HostStep, DeviceStep, OnHost, Enabled;
      if Enabled(s, steps[n]) {
        if OnHost(steps[n]) { HostKeepsInv(s, steps[n]); } else { DeviceKeepsInv(s, steps[n]); }
      }
    }
  }

  lemma ReachableIsFine(s: Slot)
    requires Reachable(s)
    ensures Inv(s)
  {
    var l: Leftover, steps: seq<Step> :| l.Valid() && s == After(Init(l), steps);
    InitIsFine(l);
    hide Inv, Init, Next;
    RunKeepsInv(Init(l), steps);
  }

  // ---------------------------------------------------------------- the theorems

  // Isolation: whatever the host takes from a slot next was produced for the
  // Conn in that slot, and comes before that Conn's CLOSE.  The one exception
  // is an overtaken ERROR.
  lemma DeliveredToItsUser(s: Slot)
    requires Reachable(s) && s.taken < |s.emitted|
    requires !s.emitted[s.taken].Overtaken?
    ensures s.host.conn.Some? && s.emitted[s.taken].src == s.host.conn.value.id && !s.host.conn.value.remoteClosed
  {
    ReachableIsFine(s);
    hide Reachable, Sections, Jobs, Counted, Piped, Ordered, TagsOk, Hosted, Origins, Settled, Kept, Routed;
    NextIsMine(s);
  }

  // The exception, exactly: the answer to an OPEN that found the connect queue
  // full is overtaken if and only if its user's CLOSE was queued before it.
  lemma OvertakenExactly(s: Slot)
    requires Reachable(s) && s.dev.incoming.IQueueFull?
    ensures Answer(s.dev).Overtaken? <==> ClosedFor(s.emitted, s.dev.incoming.id) == 1
    ensures s.dev.incoming.id == s.dev.processed
  {
    ReachableIsFine(s);
    OneClosePerUser(s, s.dev.incoming.id);
    hide Reachable, Closes, ClosedFor, Jobs, Ordered, Origins, Settled, Kept, Routed, TagsOk, Hosted, Piped;
  }

  // An overtaken ERROR finds its user's Conn closed by the device, or gone.
  lemma OvertakenIsLate(s: Slot)
    requires Reachable(s) && s.taken < |s.emitted| && s.emitted[s.taken].Overtaken?
    ensures s.host.conn.Some? && s.host.conn.value.id <= s.emitted[s.taken].src ==>
              s.host.conn.value.id == s.emitted[s.taken].src && s.host.conn.value.remoteClosed
  {
    ReachableIsFine(s);
    hide Reachable, Sections, Jobs, Counted, Piped, Ordered, Origins, Settled, Kept, Routed;
    TaggedAt(s.emitted, s.taken, s.host.ids);
  }

  // Until its Close begins, and after that while Close has drained no DATA, a
  // Conn has read a prefix of the bytes the device read from the socket it
  // opened for that very Conn.
  lemma ReadsAreAPrefix(s: Slot)
    requires Reachable(s) && s.host.conn.Some?
    requires BeforeClose(s.host.conn.value.phase) || s.host.conn.value.clean
    ensures s.host.conn.value.read <= ReadBy(s.dev, s.host.conn.value.id)
  {
    ReachableIsFine(s);
    var id := s.host.conn.value.id;
    PrefixHasNoMore(s.emitted, s.taken, id);
    assert KeptFor(s, id);
    assert BytesOf(s.emitted, id) <= ReadBy(s.dev, id);
    assert s.host.conn.value.read <= BytesOf(s.emitted[..s.taken], id);
  }

  // Exactly one CLOSE for each user: one for those before the device's count,
  // none yet for the others, in every run.
  lemma OneClosePerUser(s: Slot, id: nat)
    requires Reachable(s)
    ensures ClosedFor(s.emitted, id) == if id < Closes(s.emitted) then 1 else 0
    ensures Closes(s.emitted) <= s.host.ids
    ensures s.dev.processed <= Closes(s.emitted) + Pending(s.dev)
  {
    ReachableIsFine(s);
    OneCloseEach(s.emitted, s.host.ids, id);
    hide Reachable, Closes, ClosedFor, Jobs, Ordered, Origins, Settled, Kept, Routed, TagsOk, Hosted;
    CloseBound(s);
  }

  // When a slot is given back, its CLOSE has been acknowledged, the device's
  // one CLOSE for it has been taken, and nothing made for it is still to come.
  lemma FreedSlotIsClean(s: Slot)
    requires Reachable(s) && Enabled(s, HostFrees)
    ensures ClosedFor(s.emitted[..s.taken], s.host.conn.value.id) == 1
    ensures s.host.conn.value.id + 1 == s.host.ids == Closes(s.emitted)
    ensures forall k | s.taken <= k < |s.emitted| :: s.emitted[k].Overtaken?
    ensures End(Pipe(s), Stand(s.dev)) == Place(s.host.ids, false)
  {
    ReachableIsFine(s);
    var c := s.host.conn.value;
    PrefixHasNoMore(s.emitted, s.taken, c.id);
    CloseBound(s);
    forall k | s.taken <= k < |s.emitted| && !s.emitted[k].Overtaken? ensures false {
      TaggedAt(s.emitted, k, s.host.ids);
      assert s.emitted[..k][..s.taken] == s.emitted[..s.taken];
      PrefixHasNoMore(s.emitted[..k], s.taken, c.id);
    }
    TaggedPrefix(s.emitted, s.taken, s.host.ids);
    OneCloseEach(s.emitted[..s.taken], s.host.ids, c.id);
  }

  lemma {:induction false} TaggedPrefix(e: seq<Up>, k: nat, ids: nat)
    requires Tagged(e, ids) && k <= |e|
    ensures Tagged(e[..k], ids)
    decreases |e|
  {
    if k == |e| {
      assert e[..k] == e;
    } else {
      assert e[..|e| - 1][..k] == e[..k];
      TaggedPrefix(e[..|e| - 1], k, ids);
    }
  }

  // A stream is only ever cancelled by a CLOSE numbered above its OPEN, or by
  // an ABORT that names its OPEN.
  lemma StaleCancelsAreHarmless(s: Slot)
    requires Reachable(s) && s.dev.session && IsCancelled(s.dev)
    ensures (exists q :: q in s.dev.closesGot && q > s.dev.openSeq) || s.dev.openSeq in s.dev.abortsGot
  {
    ReachableIsFine(s);
    hide Reachable, Jobs, Counted, Piped, Ordered, TagsOk, Hosted, Settled, Kept, Routed;
    assert Origin(s.dev, s.dev.cancelSeq);
  }

  // A connect that ends, or an end of stream found earlier, touches the slot
  // only while its own user is still open there.
  lemma LateJobsAreHarmless(s: Slot)
    requires Reachable(s)
    ensures s.dev.dial.DDialing? && s.dev.dial.job.generation == s.dev.generation ==>
              s.dev.session && !s.dev.closing && s.dev.fd.None? && s.dev.dial.job.src == s.dev.processed
    ensures s.dev.outgoing.OEnd? && s.dev.outgoing.generation == s.dev.generation ==>
              s.dev.session && !s.dev.closing && s.dev.outgoing.src == s.dev.processed
  {
    ReachableIsFine(s);
    hide Reachable, Sections, Counted, Piped, Ordered, TagsOk, Hosted, Origins, Settled, Kept, Routed;
  }

  // The other direction: DATA reaches only the socket opened for the Conn that
  // wrote it, unless a Write was queued while another Conn was open.
  lemma WrittenToItsSocket(s: Slot)
    requires Reachable(s) && !s.lateData
    ensures !s.dev.misrouted
  {
    ReachableIsFine(s);
  }
}
