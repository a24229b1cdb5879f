/**
  Where the guarantees of StreamSafety end.  For each exception its theorems
  name: that every state of the kind it names does lead to a breach, and a run
  that reaches such a state.
  */
module StreamLimits {
  import opened Frames
  import opened StreamSlot
  import opened StreamOrder
  import opened StreamInv
  import opened StreamSafety
  import opened StreamProgress

  // -------------------------------------------------------- overtaken replies

  // The device has queued the user's CLOSE before the answer to its OPEN.
  predicate Overtaking(s: Slot, t: Slot) {
    DeviceOnly(s, t) && t.dev.incoming == s.dev.incoming && CloseQueued(t.dev)
  }

  lemma OwnCloseGoesOut(s: Slot) returns (t: Slot)
    requires s.Shaped() && s.dev.incoming.IQueueFull? && s.dev.closing
    ensures Leads(s, t) && t.Shaped() && Overtaking(s, t)
  {
    Stays(s);
    t := s;
    if s.dev.outgoing.OCloseSending? { t := Moves(s, s, OutgoingSends); }
  }

  lemma OwnCloseIsDecided(s: Slot) returns (t: Slot)
    requires s.Shaped() && s.dev.incoming.IQueueFull? && s.dev.session && TxFree(s.dev) && s.dev.outgoing.OEnd?
    ensures Leads(s, t) && t.Shaped() && DeviceOnly(s, t) && t.dev.incoming == s.dev.incoming
    ensures t.dev.closing || (t.dev.outgoing.OIdle? && t.dev == s.dev.(outgoing := OIdle))
    ensures s.dev.outgoing.generation == s.dev.generation ==> t.dev.closing
  {
    Stays(s);
    hide Leads;
    t := Moves(s, s, OutgoingCloses);
  }

  lemma EndIsSeen(s: Slot) returns (t: Slot)
    requires s.Shaped() && s.dev.session && !s.dev.closing && s.dev.fd.None? && s.dev.epoch <= s.dev.netEpoch
    requires s.dev.outgoing.OIdle? && TxFree(s.dev)
    ensures Leads(s, t) && t.Shaped() && DeviceOnly(s, t) && t.dev.incoming == s.dev.incoming
    ensures t.dev.session && TxFree(t.dev) && t.dev.outgoing == OEnd(t.dev.generation, t.dev.processed)
  {
    Stays(s);
    hide Leads;
    var u := Moves(s, s, NetworkLost);
    assert u == s.(dev := s.dev.(netEpoch := s.dev.netEpoch + 1));
    t := Moves(s, u, OutgoingLooks(Nothing, false));
  }

  // Losing the network is enough to make the read task close the stream.
  lemma CloseGoesFirst(s: Slot) returns (t: Slot)
    requires Reachable(s) && s.dev.incoming.IQueueFull?
    ensures s.Shaped() && Leads(s, t) && t.Shaped() && Overtaking(s, t)
  {
    ReachableIsFine(s);
    hide Reachable, Leads, Next, Jobs, Counted, Piped, Ordered, TagsOk, Hosted, Origins, Kept, Routed;
    Stays(s);
    var u := s;
    if !u.dev.closing && u.dev.outgoing.OEnd? {
      u := OwnCloseIsDecided(s);
    }
    if !u.dev.closing {
      var v := EndIsSeen(u);
      Through(s, u, v);
      u := OwnCloseIsDecided(v);
      Through(s, v, u);
    }
    t := OwnCloseGoesOut(u);
    Through(s, u, t);
  }

  lemma OvertakenPlace(s: Slot)
    requires Reachable(s) && s.dev.incoming.IQueueFull? && CloseQueued(s.dev)
    ensures Closes(s.emitted) == s.dev.incoming.id + 1
  {
    ReachableIsFine(s);
    hide Reachable, Closes, Jobs, Piped, Ordered, TagsOk, Hosted, Origins, Settled, Kept, Routed;
  }

  // With an overtaken reply next in line, the slot's next user can be there.
  lemma NextUserIsThere(s: Slot) returns (t: Slot)
    requires Reachable(s) && s.taken < |s.emitted| && Closes(s.emitted[..s.taken]) > 0
    ensures s.Shaped() && Leads(s, t) && t.Shaped() && t.taken == s.taken && s.emitted <= t.emitted
    ensures t.host.conn.Some? && t.host.conn.value.id == Closes(s.emitted[..s.taken])
  {
    ReachableIsFine(s);
    hide Reachable, Leads, Closes, Sections, Jobs, FullOk, Counted, Piped, Ordered, TagsOk, Origins, Settled, Kept,
         Routed;
    Stays(s);
    t := s;
    if s.host.conn.Some? && s.host.conn.value.remoteClosed {
      hide Next;
      t := CloseCompletes(s);
    }
    if t.host.conn.None? { t := Moves(s, t, HostAllocates); }
  }

  // From every state in which an OPEN found the connect queue full, some run
  // hands the ERROR that answers it to the next user of the slot.
  lemma QueueFullReplyCanCross(s: Slot)
    requires Reachable(s) && s.dev.incoming.IQueueFull?
    ensures s.Shaped()
    ensures exists t :: Leads(s, t) && t.taken < |t.emitted| && t.emitted[t.taken] == Overtaken(s.dev.incoming.id)
                        && t.host.conn.Some? && t.host.conn.value.id == s.dev.incoming.id + 1
  {
    hide Reachable, Leads, Closes;
    var id := s.dev.incoming.id;
    var u := CloseGoesFirst(s);
    StaysReachable(s, u);
    OvertakenPlace(u);
    var k := |u.emitted|;
    var v := Moves(s, u, IncomingAnswers);
    assert v.emitted == u.emitted + [Overtaken(id)];
    var w := TakesUpTo(v, k);
    Through(s, v, w);
    StaysReachable(s, w);
    assert w.emitted[..k] == u.emitted;
    var t := NextUserIsThere(w);
    Through(s, w, t);
    assert t.emitted[k] == w.emitted[k];
  }

  // ----------------------------------------------------------- skipping reads

  // Once Close has begun, a Read that follows the draining of a DATA skips its
  // bytes: whatever was still to be read in order, the rest comes without it.
  lemma ReadAfterDrainSkips(s: Slot)
    requires Reachable(s) && Enabled(s, HostDrains) && s.host.conn.value.clean
    requires |s.host.conn.value.incoming| >= 2
    requires s.host.conn.value.incoming[0].Bytes? && s.host.conn.value.incoming[1].Bytes?
    ensures s.Shaped()
    ensures var c, t := s.host.conn.value, After(s, [HostDrains, HostReads]);
            var first, second := c.incoming[0].bytes, c.incoming[1].bytes;
            t.host.conn.Some? && t.host.conn.value.read == c.read + second
            && c.read + first + second <= ReadBy(t.dev, c.id)
            && (t.host.conn.value.read <= ReadBy(t.dev, c.id) <==> second <= first + second)
  {
    IsShaped(s);
    hide Reachable, After, Next;
    var c := s.host.conn.value;
    ReadsInOrder(s, c);
    TwoSteps(s, HostDrains, HostReads);
    DrainThenRead(s);
    Shift(c.read, c.incoming[0].bytes, c.incoming[1].bytes, ReadBy(s.dev, c.id));
  }

  lemma DrainThenRead(s: Slot)
    requires s.Shaped() && Enabled(s, HostDrains)
    requires |s.host.conn.value.incoming| >= 2
    requires s.host.conn.value.incoming[0].Bytes? && s.host.conn.value.incoming[1].Bytes?
    ensures var c := s.host.conn.value;
            var t := Next(Next(s, HostDrains), HostReads);
            t.dev == s.dev && t.host.conn.Some? && t.host.conn.value.read == c.read + c.incoming[1].bytes
  {
    var c := s.host.conn.value;
    var u := OnConn(s, Emptying(c));
    assert Next(s, HostDrains) == u;
    assert Next(u, HostReads) == OnConn(u, Reading(Emptying(c)));
  }

  lemma TwoSteps(s: Slot, a: Step, b: Step)
    requires s.Shaped()
    ensures After(s, [a, b]) == Next(Next(s, a), b)
  {
    hide Next;
    assert [a, b][..1] == [a];
    assert [a][..0] == [];
    assert After(s, [a]) == Next(s, a);
  }

  // What Conn c has in its channel is the next it is to read.
  lemma ReadsInOrder(s: Slot, c: Conn)
    requires Reachable(s) && s.host.conn == Some(c) && c.clean && |c.incoming| >= 2
    requires c.incoming[0].Bytes? && c.incoming[1].Bytes?
    ensures c.read + c.incoming[0].bytes + c.incoming[1].bytes <= ReadBy(s.dev, c.id)
  {
    ReachableIsFine(s);
    hide Reachable, Sections, Jobs, FullOk, Counted, Piped, Ordered, TagsOk, Origins, Settled, Routed;
    PrefixHasNoMore(s.emitted, s.taken, c.id);
    assert KeptFor(s, c.id);
    hide BytesOf, ConnOk;
    TwoInHand(c, s.emitted[..s.taken]);
  }

  lemma TwoInHand(c: Conn, taken: seq<Up>)
    requires ConnOk(c, taken) && c.clean && |c.incoming| >= 2
    requires c.incoming[0].Bytes? && c.incoming[1].Bytes?
    ensures c.read + c.incoming[0].bytes + c.incoming[1].bytes <= BytesOf(taken, c.id)
  {
    hide BytesOf, Closes;
    var q := c.incoming;
    assert q[0].src == c.id && q[1].src == c.id;
    FirstBytes(q, c.id);
    FirstBytes(q[1..], c.id);
    assert q[1..][0] == q[1];
    var rest := BytesOf(q[1..][1..], c.id);
    assert c.read + q[0].bytes + q[1].bytes + rest == c.read + (q[0].bytes + (q[1].bytes + rest));
  }

  lemma Shift(a: seq<byte>, b: seq<byte>, c: seq<byte>, all: seq<byte>)
    requires a + b + c <= all
    ensures a + c <= all <==> c <= b + c
  {
    assert all[|a|..|a| + |b| + |c|] == b + c;
    if c <= b + c {
      assert all[..|a| + |c|] == a + (b + c)[..|c|];
    }
    if a + c <= all {
      assert (b + c)[..|c|] == all[|a|..|a| + |c|] == c;
    }
  }

  lemma Onward(s: Slot, step: Step)
    requires Reachable(s)
    ensures s.Shaped() && Reachable(Next(s, step))
  {
    var l: Leftover, steps: seq<Step> :| l.Valid() && s == After(Init(l), steps);
    assert (steps + [step])[..|steps + [step]| - 1] == steps;
    assert After(Init(l), steps + [step]) == Next(s, step);
  }

  // ------------------------------------------------------- stretches of a run

  // No user, and nothing under way in the tasks that matter here.
  predicate Vacant(s: Slot) {
    s.host.conn.None? && s.down == [] && s.taken == |s.emitted| && s.dev.rx.RxIdle? && s.dev.rxq == []
    && s.dev.incoming.IIdle? && !s.dev.session && !s.dev.closing
  }

  function WithOpen(d: Device, id: nat, q: nat): Device { d.(incoming := IOpenCheck(id, q), openSeen := true) }

  function OpenedState(s: Slot): Slot {
    var id, q := s.host.ids, s.host.nextSeq;
    s.(host := Host(Some(Conn(id, Live, [], false, [], true)), id + 1, q + 1),
       dev := IncomingOpen(WithOpen(s.dev, id, q), true))
  }

  lemma Asks(s: Slot)
    requires Reachable(s) && Vacant(s)
    ensures var id, q := s.host.ids, s.host.nextSeq;
            Reachable(s.(host := Host(Some(Conn(id, Opening, [], false, [], true)), id + 1, q + 1),
                         dev := s.dev.(rxq := [Open(id, q)])))
  {
    hide Reachable;
    var id, q := s.host.ids, s.host.nextSeq;
    Onward(s, HostAllocates);
    var s1 := s.(host := Host(Some(Conn(id, Fresh, [], false, [], true)), id + 1, q));
    assert Next(s, HostAllocates) == s1;
    Onward(s1, HostOpens);
    var s2 := s.(host := Host(Some(Conn(id, Opening, [], false, [], true)), id + 1, q + 1), down := [Open(id, q)]);
    assert Next(s1, HostOpens) == s2;
    Onward(s2, RxTakes);
  }

  lemma Opens(s: Slot)
    requires Reachable(s) && Vacant(s)
    ensures Reachable(OpenedState(s))
  {
    hide Reachable;
    Asks(s);
    var id, q := s.host.ids, s.host.nextSeq;
    var s3 := s.(host := Host(Some(Conn(id, Opening, [], false, [], true)), id + 1, q + 1),
        dev := s.dev.(rxq := [Open(id, q)]));
    Onward(s3, IncomingTakes);
    var s4 := s3.(dev := WithOpen(s.dev, id, q));
    assert Next(s3, IncomingTakes) == s4;
    OpensAndAcks(s4);
  }

  lemma OpensAndAcks(s: Slot)
    requires Reachable(s) && s.dev.incoming.IOpenCheck? && s.down == []
    requires s.host.conn.Some? && s.host.conn.value.phase.Opening?
    ensures Reachable(s.(host := s.host.(conn := Some(s.host.conn.value.(phase := Live))),
                         dev := IncomingOpen(s.dev, true)))
  {
    hide Reachable, IncomingOpen;
    Onward(s, IncomingOpens(true));
    var s' := s.(dev := IncomingOpen(s.dev, true));
    assert Next(s, IncomingOpens(true)) == s';
    Onward(s', HostOpenAcked);
  }

  // The host takes whatever comes next.
  lemma Accepts(s: Slot, m: Up)
    requires Reachable(s) && s.host.conn.Some? && s.taken + 1 == |s.emitted| && s.emitted[s.taken] == m
    requires |s.host.conn.value.incoming| < 8
    ensures Reachable(s.(taken := s.taken + 1, host := s.host.(conn := Some(Accepting(s.host.conn.value, m)))))
  {
    hide Reachable;
    Onward(s, HostAccepts);
  }

  lemma Connects(s: Slot)
    requires Reachable(s) && s.dev.dial.DIdle? && s.dev.outgoing.OIdle? && s.dev.incoming.IIdle? && StreamValid(s.dev)
    requires !s.dev.closing && s.dev.dialQueue.Some? && s.dev.dialQueue.value.generation == s.dev.generation
    ensures var src := s.dev.dialQueue.value.src;
            Reachable(s.(emitted := s.emitted + [Opened(src)], dev := s.dev.(dialQueue := None, fd := Some(src))))
  {
    hide Reachable;
    var job := s.dev.dialQueue.value;
    Onward(s, DialTakes);
    var s1 := s.(dev := s.dev.(dialQueue := None, dial := DDialing(job)));
    assert Next(s, DialTakes) == s1;
    Connected(s1, job);
    assert s1.dev.(dial := DIdle, fd := Some(job.src)) == s.dev.(dialQueue := None, fd := Some(job.src));
  }

  lemma Connected(s: Slot, job: Job)
    requires Reachable(s) && s.dev.dial == DDialing(job) && job.generation == s.dev.generation
    requires s.dev.outgoing.OIdle? && s.dev.incoming.IIdle? && StreamValid(s.dev) && !s.dev.closing
    ensures Reachable(s.(emitted := s.emitted + [Opened(job.src)], dev := s.dev.(dial := DIdle, fd := Some(job.src))))
  {
    hide Reachable;
    Onward(s, DialEnds(true));
    var s1 := s.(dev := s.dev.(dial := DSending(true, job.src), fd := Some(job.src)));
    assert Next(s, DialEnds(true)) == s1;
    Onward(s1, DialReports);
  }

  lemma Fetches(s: Slot, b: byte)
    requires Reachable(s) && s.dev.fd.Some? && StreamValid(s.dev) && s.dev.outgoing.OIdle? && TxFree(s.dev)
    requires s.host.conn.Some? && s.taken == |s.emitted| && |s.host.conn.value.incoming| < 8
    ensures var src := s.dev.fd.value;
            Reachable(s.(emitted := s.emitted + [Bytes(src, [b])], taken := s.taken + 1,
                         host := s.host.(conn := Some(Accepting(s.host.conn.value, Bytes(src, [b])))),
                         dev := s.dev.(fetched := s.dev.fetched[src := ReadBy(s.dev, src) + [b]])))
  {
    hide Reachable;
    var src := s.dev.fd.value;
    var m := Bytes(src, [b]);
    var read := s.dev.fetched[src := ReadBy(s.dev, src) + [b]];
    Onward(s, OutgoingLooks(Got([b]), false));
    var s1 := s.(dev := s.dev.(fetched := read, outgoing := OSend(src, [b], false, s.dev.generation)));
    assert Next(s, OutgoingLooks(Got([b]), false)) == s1;
    Onward(s1, OutgoingSends);
    var s2 := s.(emitted := s.emitted + [m], dev := s.dev.(fetched := read));
    assert Next(s1, OutgoingSends) == s2;
    Accepts(s2, m);
  }

  lemma Closing(s: Slot)
    requires Reachable(s) && s.host.conn.Some? && s.host.conn.value.phase.Live? && s.down == []
    requires s.dev.rx.RxIdle? && s.dev.rxq == []
    ensures var c, q := s.host.conn.value, s.host.nextSeq;
            Reachable(s.(host := Host(Some(c.(phase := CloseAcked)), s.host.ids, q + 1),
                         dev := s.dev.(rxq := [Close(c.id, q)], rx := RxStore(q), closesGot := s.dev.closesGot + {q})))
  {
    hide Reachable;
    var c, q := s.host.conn.value, s.host.nextSeq;
    Onward(s, HostBeginsClose);
    var s1 := s.(host := s.host.(conn := Some(c.(phase := Draining(true)))));
    assert Next(s, HostBeginsClose) == s1;
    Onward(s1, HostSendsClose);
    var s2 := s.(host := Host(Some(c.(phase := CloseSent)), s.host.ids, q + 1), down := [Close(c.id, q)]);
    assert Next(s1, HostSendsClose) == s2;
    Onward(s2, RxTakes);
    var d := s.dev.(rxq := [Close(c.id, q)], rx := RxStore(q), closesGot := s.dev.closesGot + {q});
    var s3 := s2.(down := [], dev := d);
    assert Next(s2, RxTakes) == s3;
    Onward(s3, HostCloseAcked);
  }

  // ------------------------------------------------------------------ the limits

  const FRESH := Leftover(0, 0, 0, 0, None, None)

  lemma Start(l: Leftover)
    requires l.Valid()
    ensures Reachable(Init(l)) && Vacant(Init(l))
  {
    assert After(Init(l), []) == Init(l);
  }

  // A connected first user, as its Conn is handed to the caller.
  lemma FirstUser() returns (s: Slot)
    ensures Reachable(s) && s.host.conn == Some(Conn(0, Live, [], false, [], true)) && s.taken == |s.emitted|
    ensures s.dev.fd == Some(0) && StreamValid(s.dev) && s.dev.outgoing.OIdle? && TxFree(s.dev)
            && s.dev.fetched == map[]
  {
    var s0 := Init(FRESH);
    Start(FRESH);
    Opens(s0);
    var s1 := OpenedState(s0);
    Connects(s1);
    var s2 := s1.(emitted := [Opened(0)], dev := s1.dev.(dialQueue := None, fd := Some(0)));
    assert s1.emitted + [Opened(0)] == [Opened(0)];
    Accepts(s2, Opened(0));
    var c := s2.host.conn.value;
    var s3 := s2.(taken := 1, host := s2.host.(conn := Some(Accepting(c, Opened(0)))));
    hide Reachable;
    Onward(s3, HostReads);
    s := Next(s3, HostReads);
  }

  // Such a state is reached: two bytes have come when Close begins.
  lemma ReadDuringCloseSkips()
    ensures exists s :: Reachable(s) && s.host.conn.Some?
                        && !(s.host.conn.value.read <= ReadBy(s.dev, s.host.conn.value.id))
  {
    hide Reachable;
    var s := FirstUser();
    var c := s.host.conn.value;
    Fetches(s, 1);
    assert ReadBy(s.dev, 0) + [1] == [1];
    assert s.dev.fetched[0 := [1]] == map[0 := [1]];
    assert Accepting(c, Bytes(0, [1])).incoming == [Bytes(0, [1])];
    var s1 := s.(emitted := s.emitted + [Bytes(0, [1])], taken := s.taken + 1,
                 host := s.host.(conn := Some(Accepting(c, Bytes(0, [1])))),
                 dev := s.dev.(fetched := map[0 := [1]]));
    Fetches(s1, 2);
    assert ReadBy(s1.dev, 0) + [2] == [1, 2];
    assert s1.dev.fetched[0 := [1, 2]] == map[0 := [1, 2]];
    var c2 := Conn(0, Live, [Bytes(0, [1]), Bytes(0, [2])], false, [], true);
    assert Accepting(s1.host.conn.value, Bytes(0, [2])) == c2;
    CloseDrains(s1.(emitted := s1.emitted + [Bytes(0, [2])], taken := s1.taken + 1,
                    host := s1.host.(conn := Some(c2)), dev := s1.dev.(fetched := map[0 := [1, 2]])), c2);
  }

  lemma CloseDrains(s: Slot, c: Conn)
    requires Reachable(s) && s.host.conn == Some(c)
    requires c == Conn(0, Live, [Bytes(0, [1]), Bytes(0, [2])], false, [], true)
    ensures exists t :: Reachable(t) && t.host.conn.Some?
                        && !(t.host.conn.value.read <= ReadBy(t.dev, t.host.conn.value.id))
  {
    hide Reachable, After;
    Onward(s, HostBeginsClose);
    var s1 := s.(host := s.host.(conn := Some(c.(phase := Draining(true)))));
    assert Next(s, HostBeginsClose) == s1;
    ReadAfterDrainSkips(s1);
    TwoSteps(s1, HostDrains, HostReads);
    Onward(s1, HostDrains);
    Onward(Next(s1, HostDrains), HostReads);
    var first, second: seq<byte> := [1], [2];
    assert second[0] != (first + second)[0];
    KeepsConn(s1);
  }

  lemma KeepsConn(s: Slot)
    requires s.Shaped() && s.host.conn.Some?
    ensures var t := Next(Next(s, HostDrains), HostReads);
            t.host.conn.Some? && t.host.conn.value.id == s.host.conn.value.id && t.dev == s.dev
  {
  }

  // A user closed on both sides, up to the moment its slot is free again
  function ClosedState(s: Slot, src: nat): Slot
    requires s.host.conn.Some?
  {
    var q := s.host.nextSeq;
    var d := s.dev;
    s.(host := Host(None, s.host.ids, q + 1), emitted := s.emitted + [Closed(src)], taken := s.taken + 1,
       dev := d.(closesGot := d.closesGot + {q}, cancelSeq := q, cancelArmed := true, fd := None,
                 generation := d.generation + 1, closing := false, session := false, openSeen := false,
                 awaited := d.awaited + 1, processed := d.processed + 1))
  }

  lemma Cancels(s: Slot)
    requires Reachable(s) && s.dev.rx.RxStore?
    ensures Reachable(s.(dev := s.dev.(rx := RxIdle, cancelSeq := s.dev.rx.q, cancelArmed := true)))
  {
    hide Reachable;
    Onward(s, RxStores);
    var s1 := s.(dev := s.dev.(rx := RxArm, cancelSeq := s.dev.rx.q));
    assert Next(s, RxStores) == s1;
    Onward(s1, RxArms);
  }

  lemma Cuts(s: Slot, m: Down)
    requires Reachable(s) && s.dev.rxq == [m] && m.Close? && s.dev.incoming.IIdle? && TxFree(s.dev)
    requires s.dev.session && !s.dev.closing
    ensures var d := s.dev;
            Reachable(s.(dev := d.(rxq := [], incoming := ICloseSending(d.processed), awaited := d.awaited + 1,
                                   openSeen := false, fd := None, generation := d.generation + 1, closing := true)))
  {
    hide Reachable;
    var d := s.dev;
    Onward(s, IncomingTakes);
    var d1 := d.(rxq := [], incoming := ICloseCheck, awaited := d.awaited + 1, openSeen := false);
    assert [m][1..] == [];
    assert Next(s, IncomingTakes) == s.(dev := d1);
    Onward(s.(dev := d1), IncomingCloses);
    var d2 := d1.(incoming := ICloseSlot);
    assert Next(s.(dev := d1), IncomingCloses) == s.(dev := d2);
    Onward(s.(dev := d2), IncomingCloses);
  }

  lemma Answers(s: Slot)
    requires Reachable(s) && s.dev.incoming.ICloseSending? && s.dev.session && s.dev.closing
    ensures var d := s.dev;
            Reachable(s.(emitted := s.emitted + [Closed(d.incoming.src)],
                         dev := d.(incoming := IIdle, closing := false, session := false,
                             processed := d.processed + 1)))
  {
    hide Reachable;
    var d := s.dev;
    Onward(s, IncomingCloses);
    var s1 := s.(emitted := s.emitted + [Closed(d.incoming.src)], dev := d.(incoming := IAfterClose));
    assert Next(s, IncomingCloses) == s1;
    Onward(s1, IncomingCloses);
    var s2 := s1.(dev := d.(incoming := IReset));
    assert Next(s1, IncomingCloses) == s2;
    Onward(s2, IncomingCloses);
  }

  lemma ClosesUser(s: Slot)
    requires Reachable(s) && s.host.conn.Some? && s.host.conn.value.phase.Live? && s.down == []
    requires s.host.conn.value.incoming == [] && s.taken == |s.emitted| && TxFree(s.dev)
    requires s.dev.rx.RxIdle? && s.dev.rxq == [] && s.dev.incoming.IIdle? && s.dev.session && !s.dev.closing
    ensures Reachable(ClosedState(s, s.dev.processed))
  {
    hide Reachable;
    var c, q, d := s.host.conn.value, s.host.nextSeq, s.dev;
    var m := Close(c.id, q);
    Closing(s);
    var h := Host(Some(c.(phase := CloseAcked)), s.host.ids, q + 1);
    var d1 := d.(rxq := [m], rx := RxStore(q), closesGot := d.closesGot + {q});
    Cancels(s.(host := h, dev := d1));
    var d2 := d.(rxq := [m], closesGot := d.closesGot + {q}, cancelSeq := q, cancelArmed := true);
    assert d1.(rx := RxIdle, cancelSeq := d1.rx.q, cancelArmed := true) == d2;
    Cuts(s.(host := h, dev := d2), m);
    var d3 := d2.(rxq := [], incoming := ICloseSending(d.processed), awaited := d.awaited + 1,
                  openSeen := false, fd := None, generation := d.generation + 1, closing := true);
    Answers(s.(host := h, dev := d3));
    var d4 := ClosedState(s, d.processed).dev;
    assert d3.(incoming := IIdle, closing := false, session := false, processed := d.processed + 1) == d4;
    Frees(s.(host := h, emitted := s.emitted + [Closed(d.processed)], dev := d4), Closed(d.processed));
  }

  lemma Frees(s: Slot, m: Up)
    requires Reachable(s) && s.host.conn.Some? && s.host.conn.value.phase.CloseAcked?
             && s.host.conn.value.incoming == []
    requires m.Closed? && s.taken + 1 == |s.emitted| && s.emitted[s.taken] == m
    ensures Reachable(s.(taken := s.taken + 1, host := s.host.(conn := None)))
  {
    hide Reachable;
    Accepts(s, m);
    var s1 := s.(taken := s.taken + 1, host := s.host.(conn := Some(Accepting(s.host.conn.value, m))));
    Onward(s1, HostFrees);
  }

  lemma DropsLateDial(s: Slot, job: Job)
    requires Reachable(s) && s.dev.dialQueue == Some(job) && s.dev.dial.DIdle? && TxFree(s.dev) && !s.dev.session
    ensures Reachable(s.(dev := s.dev.(dialQueue := None)))
  {
    hide Reachable;
    Onward(s, DialTakes);
    var s1 := s.(dev := s.dev.(dialQueue := None, dial := DDialing(job)));
    assert Next(s, DialTakes) == s1;
    Onward(s1, DialEnds(false));
    assert Next(s1, DialEnds(false)) == s.(dev := s.dev.(dialQueue := None));
  }

  // From every state in which the present user's socket is open and its tasks
  // are at rest, a Write of any other Conn goes into that socket.
  lemma Misroutes(s: Slot, stale: nat, bytes: seq<byte>)
    requires Reachable(s) && s.down == [] && stale < s.host.ids && bytes != []
    requires s.dev.fd.Some? && s.dev.fd.value != stale && StreamValid(s.dev)
    requires s.dev.rx.RxIdle? && s.dev.rxq == [] && s.dev.incoming.IIdle?
    ensures s.Shaped()
    ensures After(s, [StaleWrites(stale, bytes), RxTakes, IncomingTakes, IncomingWrites(true, false)]).dev.misrouted
  {
    IsShaped(s);
    hide Reachable;
    var m := Data(stale, s.host.nextSeq, bytes);
    var steps := [StaleWrites(stale, bytes), RxTakes, IncomingTakes, IncomingWrites(true, false)];
    assert steps == [steps[0], steps[1]] + [steps[2], steps[3]];
    AfterBoth(s, [steps[0], steps[1]], [steps[2], steps[3]]);
    TwoSteps(s, steps[0], steps[1]);
    var u := Next(Next(s, steps[0]), steps[1]);
    TwoSteps(u, steps[2], steps[3]);
    hide After;
    Delivers(s, stale, bytes);
    WritesWrongly(u, m);
  }

  lemma Delivers(s: Slot, stale: nat, bytes: seq<byte>)
    requires s.Shaped() && s.down == [] && stale < s.host.ids && s.dev.rx.RxIdle? && s.dev.rxq == []
    ensures Next(Next(s, StaleWrites(stale, bytes)), RxTakes).dev
         == s.dev.(rxq := [Data(stale, s.host.nextSeq, bytes)])
  {
    var s1 := Next(s, StaleWrites(stale, bytes));
    assert s1.down == [Data(stale, s.host.nextSeq, bytes)] && s1.dev == s.dev;
  }

  lemma WritesWrongly(s: Slot, m: Down)
    requires s.Shaped() && s.dev.rxq == [m] && m.Data? && m.bytes != [] && s.dev.incoming.IIdle? && StreamValid(s.dev)
    requires s.dev.fd.Some? && s.dev.fd.value != m.id
    ensures Next(Next(s, IncomingTakes), IncomingWrites(true, false)).dev.misrouted
  {
    var s1 := Next(s, IncomingTakes);
    assert s1.dev == IncomingTake(s.dev);
  }

  // Such a state is reached: a Write that takes the channel only after its own
  // Conn's CLOSE barrier is over finds the slot's next user connected.
  lemma LateWriteReachesNextUser()
    ensures exists s :: Reachable(s) && s.dev.misrouted
  {
    hide Reachable;
    var s0 := Init(FRESH);
    Start(FRESH);
    Opens(s0);
    var s1 := OpenedState(s0);
    ClosesUser(s1);
    var s2 := ClosedState(s1, 0);
    DropsLateDial(s2, Job(1, 0));
    var s3 := s2.(dev := s2.dev.(dialQueue := None));
    SecondUserIsHit(s3);
  }

  lemma SecondUserIsHit(s: Slot)
    requires Reachable(s) && Vacant(s) && s.host.ids == 1 && s.dev.dialQueue.None?
    requires s.dev.dial.DIdle? && s.dev.outgoing.OIdle? && s.dev.cancelSeq < s.host.nextSeq
    ensures exists t :: Reachable(t) && t.dev.misrouted
  {
    hide Reachable, After;
    Opens(s);
    var s4 := OpenedState(s);
    Connects(s4);
    var s5 := s4.(emitted := s4.emitted + [Opened(1)], dev := s4.dev.(dialQueue := None, fd := Some(1)));
    Misroutes(s5, 0, [7]);
    var steps := [StaleWrites(0, [7]), RxTakes, IncomingTakes, IncomingWrites(true, false)];
    assert Leads(s5, After(s5, steps));
    StaysReachable(s5, After(s5, steps));
  }

  // A first OPEN that finds connects of an earlier session still queued and
  // still running.
  const BUSY_DIALER := Leftover(0, 0, 2, 0, Some(Job(1, 0)), Some(Job(0, 0)))

  // An OPEN does find the connect queue full, and its ERROR does cross.
  lemma ErrorReachesNextUser()
    ensures exists s :: Reachable(s) && s.taken < |s.emitted| && s.host.conn.Some?
                        && s.emitted[s.taken] == Overtaken(0) && s.host.conn.value.id == 1
  {
    hide Reachable, Leads;
    var s0 := Init(BUSY_DIALER);
    Start(BUSY_DIALER);
    Opens(s0);
    var s1 := OpenedState(s0);
    QueueFullReplyCanCross(s1);
    var t :| Leads(s1, t) && t.taken < |t.emitted| && t.emitted[t.taken] == Overtaken(0)
             && t.host.conn.Some? && t.host.conn.value.id == 1;
    StaysReachable(s1, t);
  }
}
