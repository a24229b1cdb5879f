/**
  What the link is for.  From every state its runs reach, with everything that
  is under way on the wire lost, some run still completes what either end has
  begun: a send of the host, a message of the device, a new connection.
  */
module LinkLive {
  import opened Frames
  import opened LinkHistory
  import opened LinkSystem
  import opened LinkSafety
  import opened LinkLoss
  import H = LinkHost
  import D = LinkDevice

  const LAST_NUMBER := 0xFFFF_FFFF

  // Nothing that was transmitted so far arrives any more.
  function Lost(s: System): System { s.(toDevice := {}, toHost := {}) }

  // Both ends are in the same session, and the device has not run out of
  // numbers.
  predicate Meets(s: System) {
    !s.host.closed && s.host.session == s.device.session != 0 && s.device.reset.Unlocked? && s.device.wrapped.None?
  }

  // ------------------------------------------------------------ host to device

  // The call of send on a channel has frame f in hand and may still transmit it.
  predicate MaySend(sn: H.Sending, f: Frame) {
    match sn
    case Idle => false
    case Enqueueing(g, _, _, _) => g == f
    case Waiting(g, attempt, _) => g == f && attempt < MAX_RETRIES
  }

  // Only channel c of the host, the medium and the record of frames sent differ.
  predicate HostTurn(s: System, t: System, c: byte)
    requires s.Wide() && t.Wide() && c < CHANNELS
  {
    t.device == s.device && t.toHost == s.toHost && t.up == s.up
    && t.down.got == s.down.got && t.down.done == s.down.done
    && t.host == s.host.(channels := s.host.channels[c := t.host.channels[c]])
    && t.host.channels[c].sequence == s.host.channels[c].sequence
  }

  // After a timeout, the frame is to be queued again.
  lemma TimeoutLeadsToRetry(s: System, c: byte, f: Frame) returns (t: System)
    requires s.Wide() && c < CHANNELS && !s.host.closed && MaySend(s.host.channels[c].sending, f)
    ensures t.Wide() && Leads(s, t) && HostTurn(s, t, c) && t.toDevice == s.toDevice
    ensures t.host.channels[c].sending.Enqueueing? && t.host.channels[c].sending.frame == f
  {
    Stays(s);
    hide Leads;
    t := s;
    if s.host.channels[c].sending.Waiting? { t := Moves(s, s, SendReacts(c, H.TimerFired)); }
  }

  lemma OutgoingIsWritten(s: System, c: byte) returns (t: System)
    requires s.Wide() && c < CHANNELS && !s.host.closed
    ensures t.Wide() && Leads(s, t) && HostTurn(s, t, c) && t.host.channels[c].outgoing.None?
    ensures t.host.channels[c].sending == s.host.channels[c].sending && s.toDevice <= t.toDevice
    ensures s.host.channels[c].outgoing.Some? ==> s.host.channels[c].outgoing.value in t.toDevice
  {
    Stays(s);
    hide Leads;
    t := s;
    if s.host.channels[c].outgoing.Some? { t := Moves(s, s, WriteChannel(c)); }
  }

  lemma FrameIsQueued(s: System, c: byte, f: Frame) returns (t: System)
    requires s.Wide() && c < CHANNELS && !s.host.closed && s.host.channels[c].outgoing.None?
    requires s.host.channels[c].sending.Enqueueing? && s.host.channels[c].sending.frame == f
    ensures t.Wide() && Leads(s, t) && HostTurn(s, t, c) && t.host.channels[c].outgoing == Some(f)
    ensures t.host.channels[c].sending.Waiting? && t.host.channels[c].sending.frame == f
  {
    Stays(s);
    hide Leads;
    t := Moves(s, s, SendReacts(c, H.Queued));
  }

  // The host transmits the frame, again if need be.
  lemma FrameGoesOut(s: System, c: byte, f: Frame) returns (t: System)
    requires s.Wide() && c < CHANNELS && !s.host.closed && MaySend(s.host.channels[c].sending, f)
    ensures t.Wide() && Leads(s, t) && HostTurn(s, t, c) && f in t.toDevice
    ensures t.host.channels[c].sending.Waiting? && t.host.channels[c].sending.frame == f
  {
    hide Leads, MaySend;
    var u := TimeoutLeadsToRetry(s, c, f);
    var v := OutgoingIsWritten(u, c);
    Through(s, u, v);
    var w := FrameIsQueued(v, c, f);
    Through(s, v, w);
    t := OutgoingIsWritten(w, c);
    Through(s, w, t);
  }

  // The device's user takes what has been received.
  lemma {:induction false} DeviceQueueEmpties(s: System, c: byte) returns (t: System)
    requires s.Wide() && c < CHANNELS
    ensures t.Wide() && Leads(s, t) && t == OnLane(s, c, s.device.lanes[c].(rx := []))
    decreases |s.device.lanes[c].rx|
  {
    Stays(s);
    hide Leads;
    var lane := s.device.lanes[c];
    if lane.rx == [] {
      assert lane.(rx := []) == lane;
      assert s.device.lanes[c := lane] == s.device.lanes;
      t := s;
    } else {
      var u := Moves(s, s, DeviceTakes(c));
      assert u == OnLane(s, c, lane.(rx := lane.rx[1..]));
      t := DeviceQueueEmpties(u, c);
      Through(s, u, t);
    }
  }

  function AckOf(f: Frame): Frame { Frame(ACK, f.session, f.channel, f.sequence, []) }

  // The device answers a frame it has taken, or takes it and answers.
  lemma DeviceAcknowledges(s: System, f: Frame) returns (t: System)
    requires s.Wide() && D.Deliverable(f) && s.device.session == f.session && f in s.toDevice
    requires s.device.reset.Unlocked? && s.device.wrapped.None?
    requires 1 <= f.sequence <= s.device.lanes[f.channel].rxNext && f.sequence < LAST_NUMBER
    ensures t.Wide() && Leads(s, t) && t.host == s.host && t.up == s.up && AckOf(f) in t.toHost
    ensures t.down == if f.sequence == s.device.lanes[f.channel].rxNext then Take(s.down, f) else s.down
  {
    var u := DeviceQueueEmpties(s, f.channel);
    hide Leads;
    t := Moves(s, u, DeviceReceives(f));
  }

  // The sender has learned that f was taken.
  predicate Completed(s: System, t: System, c: byte, f: Frame)
    requires t.Wide() && c < CHANNELS
  {
    !t.host.closed && t.host.channels[c].sending.Idle? && t.host.channels[c].sequence == f.sequence + 1
    && t.down == Finish(s.down, f)
  }

  predicate WaitsFor(s: System, c: byte, f: Frame)
    requires s.Wide() && c < CHANNELS
  {
    !s.host.closed && s.host.channels[c].sending.Waiting? && s.host.channels[c].sending.frame == f
    && s.host.channels[c].sequence == f.sequence < LAST_NUMBER
  }

  lemma AckIsSeen(s: System, c: byte, f: Frame) returns (t: System)
    requires s.Wide() && c < CHANNELS && WaitsFor(s, c, f) && s.host.channels[c].ack != []
    ensures t.Wide() && Leads(s, t)
    ensures s.host.channels[c].ack[0] == f.sequence ==> Completed(s, t, c, f)
    ensures s.host.channels[c].ack[0] != f.sequence ==>
              WaitsFor(t, c, f) && t.host.channels[c].ack == s.host.channels[c].ack[1..] && t.down == s.down
              && t.toHost == s.toHost && t.host.session == s.host.session && t.host.control == s.host.control
  {
    Stays(s);
    hide Leads;
    t := Moves(s, s, SendReacts(c, H.AckIs(s.host.channels[c].ack[0])));
  }

  // Acknowledgements of other frames are read and dropped; one of f completes.
  lemma {:induction false} AcksAreRead(s: System, c: byte, f: Frame) returns (t: System)
    requires s.Wide() && c < CHANNELS && WaitsFor(s, c, f)
    ensures t.Wide() && Leads(s, t)
    ensures Completed(s, t, c, f)
            || (WaitsFor(t, c, f) && t.host.channels[c].ack == [] && t.down == s.down && t.toHost == s.toHost
                && t.host.session == s.host.session && t.host.control == s.host.control)
    ensures f.sequence in s.host.channels[c].ack ==> Completed(s, t, c, f)
    decreases |s.host.channels[c].ack|
  {
    hide Leads, Completed, WaitsFor;
    if s.host.channels[c].ack == [] {
      Stays(s);
      t := s;
    } else {
      var ack := s.host.channels[c].ack;
      t := AckIsSeen(s, c, f);
      if ack[0] != f.sequence {
        var u := t;
        t := AcksAreRead(u, c, f);
        Through(s, u, t);
        assert f.sequence in ack ==> f.sequence in ack[1..];
        SameStart(s, u, t, c, f);
      }
    }
  }

  lemma SameStart(s: System, u: System, t: System, c: byte, f: Frame)
    requires t.Wide() && c < CHANNELS && s.down == u.down
    ensures Completed(u, t, c, f) <==> Completed(s, t, c, f)
  {
  }

  lemma AckIsTakenIn(s: System, c: byte, f: Frame) returns (t: System)
    requires s.Wide() && c < CHANNELS && WaitsFor(s, c, f) && s.host.channels[c].ack == [] && s.host.control.None?
    requires AckOf(f) in s.toHost && f.session == s.host.session && f.channel == c
    ensures t.Wide() && Leads(s, t) && WaitsFor(t, c, f) && t.host.channels[c].ack == [f.sequence] && t.down == s.down
  {
    Stays(s);
    hide Leads;
    assert H.Judge(s.host, AckOf(f)).AckSignal?;
    t := Moves(s, s, HostReceives(AckOf(f)));
  }

  // The acknowledgement reaches the waiting call of send.
  lemma AckReachesSender(s: System, c: byte, f: Frame) returns (t: System)
    requires s.Wide() && c < CHANNELS && WaitsFor(s, c, f)
    requires AckOf(f) in s.toHost && f.session == s.host.session && f.channel == c
    ensures t.Wide() && Leads(s, t) && Completed(s, t, c, f)
  {
    hide Leads, Completed;
    var u := ControlGoesOut(s);
    assert WaitsFor(u, c, f);
    hide WaitsFor;
    var v := AcksAreRead(u, c, f);
    Through(s, u, v);
    SameStart(s, u, v, c, f);
    if Completed(u, v, c, f) {
      t := v;
    } else {
      var w := AckIsTakenIn(v, c, f);
      Through(s, v, w);
      t := AcksAreRead(w, c, f);
      Through(s, w, t);
      SameStart(s, w, t, c, f);
    }
  }

  // What the invariant says of a send under way: the device expects its frame,
  // or has taken it.
  lemma SendIsExpected(s: System, c: byte, f: Frame)
    requires Inv(s) && Meets(s) && c < CHANNELS && MaySend(s.host.channels[c].sending, f) && f.sequence < LAST_NUMBER
    ensures f.channel == c && f.session == s.host.session && s.host.channels[c].sequence == f.sequence
    ensures 1 <= f.sequence <= s.device.lanes[c].rxNext == |At(s.down.got, KeyOf(f))| + 1
    ensures f.sequence == s.device.lanes[c].rxNext || Recorded(s.down.got, f)
  {
    var k := Key(s.host.session, c);
    var ch := s.host.channels[c];
    assert ChannelOk(ch, k, s.down, s.up) && InStep(s.down, k);
    assert LaneOk(s.device.lanes[c], c, StandingOf(s.device), s.adopted, s.down, s.up);
    assert KeyOf(f) == k;
    if f.sequence != s.device.lanes[c].rxNext {
      assert At(s.down.sent, k)[f.sequence - 1] == f;
      assert At(s.down.got, k)[f.sequence - 1] == At(s.down.sent, k)[f.sequence - 1];
    }
  }

  // Whatever has been lost so far, a send whose retries are not used up can
  // still succeed: the device takes the frame, or has taken it and says so
  // again, and the call comes back with the next number.
  lemma SendSurvivesLoss(steps: seq<Step>, c: byte, f: Frame)
    requires NeverReturns(steps) && c < CHANNELS && Meets(After(steps))
    requires MaySend(After(steps).host.channels[c].sending, f) && D.Deliverable(f) && f.sequence < LAST_NUMBER
    ensures exists t: System ::
              t.Wide() && Leads(Lost(After(steps)), t)
              && !t.host.closed && t.host.channels[c].sending.Idle? && t.host.channels[c].sequence == f.sequence + 1
              && Recorded(t.down.got, f)
              && At(t.down.done, KeyOf(f)) == At(After(steps).down.done, KeyOf(f)) + [f]
  {
    RunKeepsInv(steps);
    var s0 := After(steps);
    hide After;
    SendIsExpected(s0, c, f);
    hide Inv, Leads;
    var s := Lost(s0);
    var u := FrameGoesOut(s, c, f);
    var v := DeviceAcknowledges(u, f);
    Through(s, u, v);
    var t := AckReachesSender(v, c, f);
    Through(s, v, t);
  }

  // ------------------------------------------------------------ device to host

  // The worker has frame f in hand and may still transmit it.
  predicate MayTransmit(w: D.Worker, f: Frame) {
    match w
    case Trying(g, attempt) => g == f && attempt < D.MAX_ATTEMPTS
    case Cleared(g, _) => g == f
    case Polling(g, attempt) => g == f && attempt + 1 < D.MAX_ATTEMPTS
    case _ => false
  }

  // Only channel c's worker, the medium and the record of frames sent differ.
  predicate WorkerTurn(s: System, t: System, c: byte)
    requires s.Wide() && t.Wide() && c < CHANNELS
  {
    t.host == s.host && t.down == s.down && t.toDevice == s.toDevice && s.toHost <= t.toHost
    && t.up.got == s.up.got && t.up.done == s.up.done
    && t.device == s.device.(lanes := s.device.lanes[c := t.device.lanes[c]])
    && t.device.lanes[c].txNext == s.device.lanes[c].txNext && t.device.lanes[c].tx == s.device.lanes[c].tx
  }

  lemma DeadlineLeadsToRetry(s: System, c: byte, f: Frame) returns (t: System)
    requires s.Wide() && c < CHANNELS && MayTransmit(s.device.lanes[c].worker, f) && f.session == s.device.session
    ensures t.Wide() && Leads(s, t) && WorkerTurn(s, t, c)
    ensures t.device.lanes[c].worker.Cleared? && t.device.lanes[c].worker.frame == f
  {
    Stays(s);
    hide Leads;
    t := s;
    if t.device.lanes[c].worker.Polling? { t := Moves(s, t, WorkerDoes(c, D.Deadline)); }
    if t.device.lanes[c].worker.Trying? { t := Moves(s, t, WorkerDoes(c, D.Check)); }
  }

  lemma WorkerSends(s: System, c: byte, f: Frame) returns (t: System)
    requires s.Wide() && c < CHANNELS && MayTransmit(s.device.lanes[c].worker, f) && f.session == s.device.session
    ensures t.Wide() && Leads(s, t) && WorkerTurn(s, t, c) && f in t.toHost
    ensures t.device.lanes[c].worker.Polling? && t.device.lanes[c].worker.frame == f
  {
    var u := DeadlineLeadsToRetry(s, c, f);
    hide Leads, MayTransmit;
    t := Moves(s, u, WorkerDoes(c, D.Transmit));
  }

  // Only what was delivered to the host's users differs.
  predicate UsersRead(s: System, t: System) {
    t.device == s.device && t.up == s.up && t.down == s.down && t.toHost == s.toHost && t.toDevice == s.toDevice
    && t.host.closed == s.host.closed && t.host.session == s.host.session && t.host.control == s.host.control
    && |t.host.channels| == |s.host.channels|
    && (forall c | 0 <= c < |s.host.channels| :: t.host.channels[c].expected == s.host.channels[c].expected)
  }

  lemma {:induction false} RepliesAreRead(s: System) returns (t: System)
    requires s.Wide() && !s.host.closed
    ensures t.Wide() && Leads(s, t) && UsersRead(s, t) && t.host.replies == []
    decreases |s.host.replies|
  {
    Stays(s);
    hide Leads;
    if s.host.replies == [] {
      t := s;
    } else {
      var u := Moves(s, s, ReplyRead);
      t := RepliesAreRead(u);
      Through(s, u, t);
    }
  }

  lemma {:induction false} ConnIsRead(s: System, c: byte) returns (t: System)
    requires s.Wide() && c < CHANNELS && !s.host.closed
    ensures t.Wide() && Leads(s, t) && UsersRead(s, t)
    ensures t.host.channels[c].conn.None? || t.host.channels[c].conn.value.incoming == []
    decreases if s.host.channels[c].conn.Some? then |s.host.channels[c].conn.value.incoming| else 0
  {
    Stays(s);
    hide Leads;
    if s.host.channels[c].conn.None? || s.host.channels[c].conn.value.incoming == [] {
      t := s;
    } else {
      var u := Moves(s, s, ConnReads(c));
      t := ConnIsRead(u, c);
      Through(s, u, t);
    }
  }

  lemma RoomIsMade(s: System, c: byte) returns (t: System)
    requires s.Wide() && c < CHANNELS && !s.host.closed
    ensures t.Wide() && Leads(s, t) && UsersRead(s, t)
    ensures if IsRpcChannel(c) then t.host.replies == []
            else t.host.channels[c].conn.None? || t.host.channels[c].conn.value.incoming == []
  {
    if IsRpcChannel(c) { t := RepliesAreRead(s); } else { t := ConnIsRead(s, c); }
  }

  lemma HostTakesIn(s: System, f: Frame) returns (t: System)
    requires s.Wide() && !s.host.closed && s.host.control.None? && f in s.toHost && f.channel < CHANNELS
    requires f.session == s.host.session && Sequenced(f) && H.RightKind(f)
    requires 1 <= f.sequence <= s.host.channels[f.channel].expected && f.sequence < LAST_NUMBER
    requires if IsRpcChannel(f.channel) then s.host.replies == []
             else s.host.channels[f.channel].conn.None? || s.host.channels[f.channel].conn.value.incoming == []
    ensures t.Wide() && Leads(s, t) && t.device == s.device && t.down == s.down && t.toDevice == s.toDevice
    ensures !t.host.closed && t.host.control == Some(AckOf(f))
    ensures t.up == if f.sequence == s.host.channels[f.channel].expected then Take(s.up, f) else s.up
  {
    Stays(s);
    hide Leads;
    t := Moves(s, s, HostReceives(f));
  }

  // The host answers a frame it has taken, or takes it and answers.
  lemma HostAcknowledges(s: System, f: Frame) returns (t: System)
    requires s.Wide() && !s.host.closed && f in s.toHost && f.channel < CHANNELS
    requires f.session == s.host.session && Sequenced(f) && H.RightKind(f)
    requires 1 <= f.sequence <= s.host.channels[f.channel].expected && f.sequence < LAST_NUMBER
    ensures t.Wide() && Leads(s, t) && t.device == s.device && t.down == s.down && AckOf(f) in t.toDevice
    ensures t.up == if f.sequence == s.host.channels[f.channel].expected then Take(s.up, f) else s.up
  {
    hide Leads, H.RightKind;
    var u := ControlGoesOut(s);
    var v := RoomIsMade(u, f.channel);
    Through(s, u, v);
    var w := HostTakesIn(v, f);
    Through(s, v, w);
    t := ControlGoesOut(w);
    Through(s, w, t);
  }

  // What the invariant says of a frame in a worker's hands.
  lemma FrameIsExpected(s: System, c: byte, f: Frame)
    requires Inv(s) && Meets(s) && c < CHANNELS && MayTransmit(s.device.lanes[c].worker, f)
    requires f.session == s.device.session && f.sequence < LAST_NUMBER
    ensures f.channel == c && Sequenced(f) && s.device.lanes[c].txNext == f.sequence
    ensures 1 <= f.sequence <= s.host.channels[c].expected == |At(s.up.got, KeyOf(f))| + 1
    ensures f.sequence == s.host.channels[c].expected || Recorded(s.up.got, f)
  {
    var k := Key(s.host.session, c);
    assert ChannelOk(s.host.channels[c], k, s.down, s.up) && InStep(s.up, k);
    assert LaneOk(s.device.lanes[c], c, StandingOf(s.device), s.adopted, s.down, s.up);
    assert KeyOf(f) == k;
    if f.sequence != s.host.channels[c].expected {
      assert At(s.up.sent, k)[f.sequence - 1] == f;
      assert At(s.up.got, k)[f.sequence - 1] == At(s.up.sent, k)[f.sequence - 1];
    }
  }

  // The same for the device: whatever has been lost so far, a frame whose
  // attempts are not used up can still be delivered and counted as such.
  lemma WorkerSurvivesLoss(steps: seq<Step>, c: byte, f: Frame)
    requires NeverReturns(steps) && c < CHANNELS && Meets(After(steps))
    requires MayTransmit(After(steps).device.lanes[c].worker, f) && f.session == After(steps).device.session
    requires H.RightKind(f) && f.sequence < LAST_NUMBER
    ensures exists t: System ::
              t.Wide() && Leads(Lost(After(steps)), t) && Recorded(t.up.got, f)
              && At(t.up.done, KeyOf(f)) == At(After(steps).up.done, KeyOf(f)) + [f]
  {
    RunKeepsInv(steps);
    var s0 := After(steps);
    hide After;
    FrameIsExpected(s0, c, f);
    hide Inv, Leads;
    var s := Lost(s0);
    var u := WorkerSends(s, c, f);
    var v := HostAcknowledges(u, f);
    Through(s, u, v);
    var w := AckIsNoted(v, f);
    Through(s, v, w);
    var t := WorkerIsSatisfied(w, f, w.device.lanes[c].worker.attempt);
    Through(s, w, t);
  }

  // A message of the current session at the head of an idle lane is taken up,
  // numbered next and on its way.
  lemma MessageIsTakenUp(s: System, c: byte) returns (t: System)
    requires s.Wide() && c < CHANNELS && s.device.lanes[c].worker.Sleeping? && s.device.lanes[c].tx != []
    requires s.device.lanes[c].tx[0].session == s.device.session != 0
    ensures var lane, m := s.device.lanes[c], s.device.lanes[c].tx[0];
            t.Wide() && Leads(s, t)
            && t == OnLane(s, c, lane.(tx := lane.tx[1..],
                                       worker := D.Trying(Frame(m.kind, m.session, c, lane.txNext, m.payload), 0)))
  {
    Stays(s);
    hide Leads;
    var lane := s.device.lanes[c];
    var u := Moves(s, s, WorkerDoes(c, D.Fetch));
    assert u == OnLane(s, c, lane.(tx := lane.tx[1..], worker := D.Fetched(lane.tx[0])));
    t := Moves(s, u, WorkerDoes(c, D.Number));
  }

  // -------------------------------------------------------------- connecting

  predicate Listens(d: D.Device) { d.reset.Unlocked? && d.wrapped.None? }

  function StagesLeft(r: D.Reset): nat {
    match r
    case Unlocked => 0
    case Zeroed(_) => 3
    case Counted(_) => 2
    case Emptied(_) => 1
  }

  lemma ResetGoesOn(s: System) returns (t: System)
    requires s.Wide() && !s.device.reset.Unlocked?
    ensures t.Wide() && Leads(s, t) && t.host == s.host && t.used == s.used && t.device.wrapped == s.device.wrapped
    ensures StagesLeft(t.device.reset) < StagesLeft(s.device.reset)
  {
    Stays(s);
    hide Leads;
    match s.device.reset
    case Zeroed(_) => t := Moves(s, s, CountersCleared);
    case Counted(_) => t := Moves(s, s, QueuesCleared);
    case Emptied(_) => t := Moves(s, s, SessionPublished);
  }

  lemma {:induction false} ResetEnds(s: System) returns (t: System)
    requires s.Wide()
    ensures t.Wide() && Leads(s, t) && t.host == s.host && t.used == s.used && t.device.wrapped == s.device.wrapped
    ensures t.device.reset.Unlocked?
    decreases StagesLeft(s.device.reset)
  {
    hide Leads, Next;
    if s.device.reset.Unlocked? {
      Stays(s);
      t := s;
    } else {
      var u := ResetGoesOn(s);
      t := ResetEnds(u);
      Through(s, u, t);
    }
  }

  // A device in the middle of a reset, or about to make one, gets through.
  lemma DeviceListens(s: System) returns (t: System)
    requires s.Wide()
    ensures t.Wide() && Leads(s, t) && t.host == s.host && t.used == s.used && Listens(t.device)
  {
    hide Leads;
    t := ResetEnds(s);
    if t.device.wrapped.Some? {
      var u := Moves(s, t, WrapResets);
      t := ResetEnds(u);
      Through(s, u, t);
    }
  }

  lemma HelloIsSent(s: System, x: u32) returns (t: System)
    requires s.Wide() && s.host.closed && x != 0 && x !in s.used
    ensures t.Wide() && Leads(s, t) && t.device == s.device && t.host == H.NewHost(x)
    ensures Frame(HELLO, x, 0, 0, []) in t.toDevice
  {
    Stays(s);
    hide Leads;
    var u := Moves(s, s, NewLink(x));
    assert u.host == H.NewHost(x) && u.device == s.device;
    var v := Moves(s, u, QueueHello);
    t := Moves(s, v, WriteHigh);
    assert v.host.high == [Frame(HELLO, x, 0, 0, [])];
  }

  lemma HelloIsAdopted(s: System, x: u32) returns (t: System)
    requires s.Wide() && Listens(s.device) && x != 0 && Frame(HELLO, x, 0, 0, []) in s.toDevice
    ensures t.Wide() && Leads(s, t) && t.host == s.host && t.device.session == x && Listens(t.device)
    ensures Frame(HELLO_ACK, x, 0, 0, []) in t.toHost
  {
    Stays(s);
    hide Leads;
    var hello := Frame(HELLO, x, 0, 0, []);
    var u := Moves(s, s, DeviceReceives(hello));
    t := u;
    if s.device.session != x {
      assert u == s.(device := s.device.(session := 0, reset := D.Zeroed(x)));
      t := PublishedAndAnswered(u);
      Through(s, u, t);
    }
  }

  lemma PublishedAndAnswered(s: System) returns (t: System)
    requires s.Wide() && s.device.reset.Zeroed? && s.device.reset.replacement != 0 && s.device.wrapped.None?
    ensures var x := s.device.reset.replacement;
            t.Wide() && Leads(s, t) && t.host == s.host && t.device.session == x && Listens(t.device)
            && Frame(HELLO_ACK, x, 0, 0, []) in t.toHost
  {
    Stays(s);
    hide Leads;
    var u := Moves(s, s, CountersCleared);
    assert u == s.(device := D.ClearCounters(s.device));
    var v := Moves(s, u, QueuesCleared);
    assert v == u.(device := D.ClearQueues(u.device));
    t := Moves(s, v, SessionPublished);
  }

  lemma HandshakeIsDone(s: System, x: u32) returns (t: System)
    requires s.Wide() && s.host == H.NewHost(x) && Frame(HELLO_ACK, x, 0, 0, []) in s.toHost
    ensures t.Wide() && Leads(s, t) && t.device == s.device && t.host == H.NewHost(x).(ready := true)
  {
    Stays(s);
    hide Leads;
    var u := Moves(s, s, HostReceives(Frame(HELLO_ACK, x, 0, 0, [])));
    assert u.host == H.NewHost(x).(hello := true) && u.device == s.device;
    t := Moves(s, u, HandshakeDone);
  }

  // From every state, with everything under way lost, some run connects anew:
  // the device resets into the session and the host is ready to send.
  lemma ConnectingIsPossible(steps: seq<Step>, x: u32)
    requires After(steps).host.closed && x != 0 && x !in After(steps).used
    ensures exists t: System ::
              t.Wide() && Leads(Lost(After(steps)), t) && Meets(t) && t.host == H.NewHost(x).(ready := true)
  {
    var s := Lost(After(steps));
    hide After, Leads;
    var u := DeviceListens(s);
    var v := HelloIsSent(u, x);
    Through(s, u, v);
    var w := HelloIsAdopted(v, x);
    Through(s, v, w);
    var t := HandshakeIsDone(w, x);
    Through(s, w, t);
  }
}
