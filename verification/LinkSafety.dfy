/**
  Exactly-once, in-order delivery on every channel, in both directions, in
  every reachable state: the invariant that ties both ends to the medium.
  */
module LinkSafety {
  import opened Frames
  import opened LinkHistory
  import opened LinkSystem
  import H = LinkHost
  import D = LinkDevice

  // ------------------------------------------------------------ the invariant

  predicate Fits(f: Frame, k: Key) { Sequenced(f) && KeyOf(f) == k }

  predicate SendingOk(sn: H.Sending, sequence: u32, k: Key, sent: seq<Frame>) {
    match sn
    case Idle => |sent| == sequence - 1
    case Enqueueing(f, _, queued, _) =>
      Fits(f, k) && f.sequence == sequence &&
      if queued then 1 <= sequence == |sent| && sent[sequence - 1] == f else |sent| == sequence - 1
    case Waiting(f, _, _) =>
      Fits(f, k) && f.sequence == sequence && 1 <= sequence == |sent| && sent[sequence - 1] == f
  }

  ghost predicate ChannelOk(ch: H.Channel, k: Key, down: History, up: History) {
    && 1 <= ch.sequence && |At(down.done, k)| == ch.sequence - 1
    && 1 <= ch.expected && |At(up.got, k)| == ch.expected - 1
    && (ch.outgoing.Some? ==> Fits(ch.outgoing.value, k) && Recorded(down.sent, ch.outgoing.value))
    && (forall i | 0 <= i < |ch.ack| :: ch.ack[i] <= |At(down.got, k)|)
    && SendingOk(ch.sending, ch.sequence, k, At(down.sent, k))
  }

  // Frames outside the sequence space: HELLO names a session some link used,
  // ACK a frame the acknowledging side has taken.
  predicate ControlOk(f: Frame, used: set<u32>, got: Log) {
    && (f.kind == HELLO ==> f.session in used)
    && (f.kind == ACK ==> Taken(got, f))
    && !Sequenced(f)
  }

  ghost predicate HostOk(s: System) {
    && s.Wide()
    && (!s.host.closed ==>
          && s.host.session in s.used
          && (forall f | f in s.host.high :: ControlOk(f, s.used, s.up.got))
          && (s.host.control.Some? ==> ControlOk(s.host.control.value, s.used, s.up.got))
          && (forall c: byte | c < CHANNELS :: ChannelOk(s.host.channels[c], Key(s.host.session, c), s.down, s.up)))
  }

  predicate DownOk(f: Frame, s: System) {
    if Sequenced(f) then Recorded(s.down.sent, f) else ControlOk(f, s.used, s.up.got)
  }

  predicate UpOk(f: Frame, s: System) {
    (Sequenced(f) ==> Recorded(s.up.sent, f)) && (f.kind == ACK ==> Taken(s.down.got, f))
  }

  ghost predicate MediumOk(s: System) {
    && (forall f | f in s.toDevice :: DownOk(f, s))
    && (forall f | f in s.toHost :: UpOk(f, s))
  }

  // No history before a session's birth.
  ghost predicate BirthOk(s: System) {
    && 0 !in s.used && s.adopted <= s.used
    && (forall k :: At(s.down.sent, k) != [] ==> k.session in s.used)
    && (forall k :: At(s.down.got, k) != [] ==> k.session in s.adopted)
    && (forall k :: At(s.up.sent, k) != [] ==> k.session in s.adopted)
  }

  // No frame outstanding: the next number is one past everything sent.
  predicate Settled(txNext: u32, k: Key, up: History) {
    k.session != 0 ==> 1 <= txNext && |At(up.sent, k)| == txNext - 1
  }

  // f is the next frame of its session and channel, transmitted or not yet.
  predicate Owns(up: History, f: Frame) {
    var sent := At(up.sent, KeyOf(f));
    && 1 <= f.sequence && |At(up.done, KeyOf(f))| == f.sequence - 1
    && (|sent| == f.sequence - 1 || (|sent| == f.sequence && sent[f.sequence - 1] == f))
  }

  // A worker's frame of a session the device is not in: no number was used up
  // for it, or the session has left a trace.
  predicate Unspent(up: History, k: Key, number: u32) {
    1 <= number && (At(up.sent, k) == [] ==> number == 1)
  }

  predicate WorkerOk(w: D.Worker, txNext: u32, c: byte, session: u32, adopted: set<u32>, up: History) {
    var k := Key(session, c);
    match w
    case Sleeping => Settled(txNext, k, up)
    case Fetched(m) =>
      Settled(txNext, k, up) && m.session in adopted && OPEN <= m.kind <= ERROR
          && Unspent(up, Key(m.session, c), txNext)
    case Resetting(x) => x != session ==> Settled(txNext, k, up)
    case Trying(f, _) =>
      BearsOk(f, txNext, k, adopted, up)
      && if f.session == session then Owns(up, f) else Unspent(up, KeyOf(f), f.sequence)
    case Cleared(f, _) => BearsOk(f, txNext, k, adopted, up) && Owns(up, f)
    case Polling(f, _) => BearsOk(f, txNext, k, adopted, up) && Owns(up, f) && Recorded(up.sent, f)
    case Finishing(f, ok) =>
      Sequenced(f) && f.channel == c && f.session in adopted && (ok ==> Recorded(up.sent, f))
      && if f.session != session then Settled(txNext, k, up)
         else ok ==> f.sequence == txNext && Owns(up, f) && Taken(up.got, f)
  }

  predicate BearsOk(f: Frame, txNext: u32, k: Key, adopted: set<u32>, up: History) {
    && Sequenced(f) && f.channel == k.channel && f.session in adopted
    && if f.session == k.session then f.sequence == txNext else Settled(txNext, k, up)
  }

  predicate CountersOk(lane: D.Lane, k: Key, down: History, up: History) {
    k.session != 0 ==>
      && (lane.rxNext == |At(down.got, k)| + 1 || (lane.rxNext == 0 && |At(down.got, k)| == 0xFFFF_FFFF))
      && (lane.txNext == 0 ==> lane.worker == D.Resetting(k.session))
      && (lane.txNext != 0 ==> |At(up.done, k)| == lane.txNext - 1)
      && lane.ackSeq <= |At(up.got, k)|
  }

  // The device's session, and the one its reset is to publish; 0 is none.
  datatype Standing = Standing(session: u32, expected: u32)

  function StandingOf(d: D.Device): Standing {
    Standing(d.session, if d.reset.Unlocked? then 0 else d.reset.replacement)
  }

  ghost predicate LaneOk(lane: D.Lane, c: byte, at: Standing, adopted: set<u32>, down: History, up: History) {
    && CountersOk(lane, Key(at.session, c), down, up)
    && WorkerOk(lane.worker, lane.txNext, c, at.session, adopted, up)
    && (at.expected != 0 ==> !Traces(lane.worker, Key(at.expected, c), down, up))
    && (forall i | 0 <= i < |lane.tx| :: OPEN <= lane.tx[i].kind <= ERROR)
  }

  predicate StartsOver(lane: D.Lane) { lane.rxNext == 1 && lane.txNext == 1 && lane.ackSeq == 0 }

  ghost predicate DeviceOk(s: System) {
    && s.Wide()
    && (s.device.session != 0 ==> s.device.reset.Unlocked? && s.device.session in s.adopted)
    && (!s.device.reset.Unlocked? ==> s.device.reset.replacement == 0 || s.device.reset.replacement in s.used)
    && (s.device.reset.Counted? || s.device.reset.Emptied? ==>
        forall c: byte | c < CHANNELS :: StartsOver(s.device.lanes[c]))
    && (forall c: byte | c < CHANNELS :: LaneOk(s.device.lanes[c], c, StandingOf(s.device), s.adopted, s.down, s.up))
  }

  ghost predicate Inv(s: System) {
    && Ordered(s.down) && Ordered(s.up)
    && HostOk(s) && DeviceOk(s) && MediumOk(s) && BirthOk(s)
  }

  // ------------------------------------------------------------ frame lemmas

  lemma ChannelFrame(ch: H.Channel, k: Key, down: History, up: History, down': History, up': History)
    requires ChannelOk(ch, k, down, up)
    requires At(down'.sent, k) == At(down.sent, k) && At(down'.done, k) == At(down.done, k)
    requires |At(down'.got, k)| >= |At(down.got, k)| && At(up'.got, k) == At(up.got, k)
    ensures ChannelOk(ch, k, down', up')
  {
  }

  lemma WorkerFrame(w: D.Worker, txNext: u32, c: byte, session: u32, adopted: set<u32>, up: History, up': History)
    requires WorkerOk(w, txNext, c, session, adopted, up)
    requires forall x :: var k := Key(x, c); At(up'.sent, k) == At(up.sent, k) && At(up'.done, k) == At(up.done, k)
    requires forall x :: var k := Key(x, c); |At(up'.got, k)| >= |At(up.got, k)|
    ensures WorkerOk(w, txNext, c, session, adopted, up')
  {
    if w.Trying? || w.Cleared? || w.Polling? || w.Finishing? {
      assert KeyOf(w.frame) == Key(w.frame.session, c);
    }
  }

  lemma LaneFrame(lane: D.Lane, c: byte, at: Standing, adopted: set<u32>,
                  down: History, up: History, down': History, up': History)
    requires LaneOk(lane, c, at, adopted, down, up)
    requires forall x :: At(down'.got, Key(x, c)) == At(down.got, Key(x, c))
    requires forall x :: var k := Key(x, c); At(up'.sent, k) == At(up.sent, k) && At(up'.done, k) == At(up.done, k)
    requires forall x :: var k := Key(x, c); |At(up'.got, k)| >= |At(up.got, k)|
    ensures LaneOk(lane, c, at, adopted, down', up')
  {
    WorkerFrame(lane.worker, lane.txNext, c, at.session, adopted, up, up');
    hide WorkerOk;
  }

  lemma MediumFrame(s: System, s': System)
    requires MediumOk(s) && Grows(s.down, s'.down) && Grows(s.up, s'.up) && s.used <= s'.used
    ensures forall f | f in s.toDevice :: DownOk(f, s')
    ensures forall f | f in s.toHost :: UpOk(f, s')
    ensures forall f | ControlOk(f, s.used, s.up.got) :: ControlOk(f, s'.used, s'.up.got)
  {
    forall f | f in s.toDevice || f in s.toHost || ControlOk(f, s.used, s.up.got)
      ensures f in s.toDevice ==> DownOk(f, s')
      ensures f in s.toHost ==> UpOk(f, s')
      ensures ControlOk(f, s.used, s.up.got) ==> ControlOk(f, s'.used, s'.up.got)
    {
      GrowthKeeps(s.down, s'.down, f);
      GrowthKeeps(s.up, s'.up, f);
    }
  }

  // ------------------------------------------------------- host steps keep it

  lemma HostAlone(s: System, s': System)
    requires Inv(s) && s' == s.(host := s'.host) && HostOk(s')
    ensures Inv(s')
  {
  }

  // Changing one channel leaves the others as they were.
  lemma OneChannel(s: System, c: byte, ch: H.Channel)
    requires Inv(s) && c < CHANNELS && !s.host.closed && ChannelOk(ch, Key(s.host.session, c), s.down, s.up)
    ensures Inv(OnHost(s, c, ch))
  {
    HostAlone(s, OnHost(s, c, ch));
  }

  lemma HostLocalStep(s: System, step: Step)
    requires Inv(s) && Enabled(s, step)
    requires step.CloseLink? || step.QueueHello? || step.HandshakeDone? || step.QueueControl? || step.QueueAbort?
             || step.ReplyRead?
    ensures Inv(Apply(s, step))
  {
    HostAlone(s, Apply(s, step));
  }

  lemma ChannelLocalStep(s: System, step: Step)
    requires Inv(s) && Enabled(s, step)
    requires step.ConnOpens? || step.ConnReads? || step.ConnFreed? || step.SendBegins?
    ensures Inv(Apply(s, step))
  {
    var c := step.channel;
    assert ChannelOk(s.host.channels[c], Key(s.host.session, c), s.down, s.up);
    OneChannel(s, c, Apply(s, step).host.channels[c]);
  }

  // Transmitting a recorded frame, or a control frame that tells the truth.
  lemma MediumGains(s: System, f: Frame, g: Frame)
    requires Inv(s) && DownOk(f, s) && UpOk(g, s)
    ensures Inv(s.(toDevice := s.toDevice + {f})) && Inv(s.(toHost := s.toHost + {g}))
  {
  }

  lemma WriteHighStep(s: System, step: Step)
    requires Inv(s) && Enabled(s, step) && step.WriteHigh?
    ensures Inv(Apply(s, step))
  {
    var f := s.host.high[0];
    assert f in s.host.high;
    var s1 := s.(host := s.host.(high := s.host.high[1..]));
    HostAlone(s, s1);
    MediumGains(s1, f, Frame(HELLO_ACK, 0, 0, 0, []));
  }

  lemma WriteChannelStep(s: System, step: Step)
    requires Inv(s) && Enabled(s, step) && step.WriteChannel?
    ensures Inv(Apply(s, step))
  {
    var c := step.channel;
    var ch := s.host.channels[c];
    assert ChannelOk(ch, Key(s.host.session, c), s.down, s.up);
    OneChannel(s, c, ch.(outgoing := None));
    MediumGains(OnHost(s, c, ch.(outgoing := None)), ch.outgoing.value, Frame(HELLO_ACK, 0, 0, 0, []));
  }

  lemma NewLinkStep(s: System, step: Step)
    requires Inv(s) && Enabled(s, step) && step.NewLink?
    ensures Inv(Apply(s, step))
  {
    var s' := Apply(s, step);
    MediumFrame(s, s');
    forall c: byte | c < CHANNELS
      ensures ChannelOk(s'.host.channels[c], Key(step.session, c), s.down, s.up)
    {
      var k := Key(step.session, c);
      assert InStep(s.down, k) && InStep(s.up, k);
      assert At(s.down.sent, k) == [] && At(s.up.sent, k) == [];
    }
  }

  // The receiver takes the next frame from the medium.
  lemma HostTakesFrame(s: System, f: Frame)
    requires Inv(s) && !s.host.closed && f in s.toHost && f.channel < CHANNELS && H.Judge(s.host, f).Accept?
    ensures Ordered(Take(s.up, f)) && Grows(s.up, Take(s.up, f)) && Recorded(s.up.sent, f)
    ensures f.sequence == |At(s.up.got, KeyOf(f))| + 1
  {
    assert ChannelOk(s.host.channels[f.channel], Key(s.host.session, f.channel), s.down, s.up);
    assert UpOk(f, s);
    TakeKeepsOrder(s.up, f);
  }

  lemma HostReceivesStep(s: System, step: Step)
    requires Inv(s) && Enabled(s, step) && step.HostReceives?
    ensures Inv(Apply(s, step))
  {
    var f := step.frame;
    var c := f.channel;
    assert ChannelOk(s.host.channels[c], Key(s.host.session, c), s.down, s.up);
    assert UpOk(f, s);
    match H.Judge(s.host, f) {
      case Accept => HostAcceptsFrame(s, f);
      case AckSignal => OneChannel(s, c, Apply(s, step).host.channels[c]);
      case BusySignal => OneChannel(s, c, Apply(s, step).host.channels[c]);
      case _ => HostAlone(s, Apply(s, step));
    }
  }

  lemma HostAcceptsFrame(s: System, f: Frame)
    requires Inv(s) && !s.host.closed && f in s.toHost && f.channel < CHANNELS && H.Judge(s.host, f).Accept?
    ensures Inv(HostReceive(s, f))
  {
    HostTakesFrame(s, f);
    var s' := HostReceive(s, f);
    MediumFrame(s, s');
    DevicesFrame(s, s');
    forall c: byte | c < CHANNELS && !s'.host.closed
      ensures ChannelOk(s'.host.channels[c], Key(s.host.session, c), s'.down, s'.up)
    {
      assert ChannelOk(s.host.channels[c], Key(s.host.session, c), s.down, s.up);
    }
  }

  // The device does not notice what the host takes.
  lemma DevicesFrame(s: System, s': System)
    requires Inv(s) && s'.device == s.device && s'.adopted == s.adopted && s.used <= s'.used
    requires s'.Wide()
    requires forall k :: At(s'.down.got, k) == At(s.down.got, k)
    requires forall k :: At(s'.up.sent, k) == At(s.up.sent, k) && At(s'.up.done, k) == At(s.up.done, k)
    requires forall k :: |At(s'.up.got, k)| >= |At(s.up.got, k)|
    ensures DeviceOk(s')
  {
    forall c: byte | c < CHANNELS
      ensures LaneOk(s'.device.lanes[c], c, StandingOf(s'.device), s'.adopted, s'.down, s'.up)
    {
      LaneFrame(s.device.lanes[c], c, StandingOf(s.device), s.adopted, s.down, s.up, s'.down, s'.up);
    }
  }

  lemma SendReactsStep(s: System, step: Step)
    requires Inv(s) && Enabled(s, step) && step.SendReacts?
    ensures Inv(Apply(s, step))
  {
    var c, e := step.channel, step.event;
    var ch := s.host.channels[c];
    assert ChannelOk(ch, Key(s.host.session, c), s.down, s.up);
    if e.Queued? {
      SendQueued(s, c);
    } else if e.AckIs? && e.seq_ == ch.sending.frame.sequence {
      SendAcked(s, c, e);
    } else {
      SendUnmoved(s, c, e);
    }
  }

  lemma SendUnmoved(s: System, c: byte, e: H.Event)
    requires Inv(s) && !s.host.closed && c < CHANNELS && CanReact(s.host.channels[c], e)
    requires !e.Queued? && !(e.AckIs? && e.seq_ == s.host.channels[c].sending.frame.sequence)
    ensures Inv(SendReact(s, c, e))
  {
    var ch := s.host.channels[c];
    assert ChannelOk(ch, Key(s.host.session, c), s.down, s.up);
    var s' := SendReact(s, c, e);
    if !s'.host.closed {
      OneChannel(s, c, s'.host.channels[c]);
    } else {
      HostAlone(s, s');
    }
  }

  // One channel's sends are recorded: the other channels do not notice.
  lemma HostSends(s: System, s': System, c: byte, ch: H.Channel)
    requires Inv(s) && !s.host.closed && c < CHANNELS
    requires s' == OnHost(s, c, ch).(host := s'.host, down := s'.down)
    requires s'.host == OnHost(s, c, ch).host || (s'.Wide() && s'.host.closed)
    requires Ordered(s'.down) && Grows(s.down, s'.down)
    requires forall k :: At(s'.down.got, k) == At(s.down.got, k)
    requires forall k :: At(s'.down.sent, k) != [] ==> At(s.down.sent, k) != [] || k.session == s.host.session
    requires forall k | k != Key(s.host.session, c) ::
               At(s'.down.sent, k) == At(s.down.sent, k) && At(s'.down.done, k) == At(s.down.done, k)
    requires !s'.host.closed ==> ChannelOk(ch, Key(s.host.session, c), s'.down, s.up)
    ensures Inv(s')
  {
    MediumFrame(s, s');
    DevicesFrame(s, s');
    forall d: byte | d < CHANNELS && !s'.host.closed
      ensures ChannelOk(s'.host.channels[d], Key(s.host.session, d), s'.down, s'.up)
    {
      assert ChannelOk(s.host.channels[d], Key(s.host.session, d), s.down, s.up);
    }
  }

  lemma SendQueued(s: System, c: byte)
    requires Inv(s) && !s.host.closed && c < CHANNELS && CanReact(s.host.channels[c], H.Queued)
    ensures Inv(SendReact(s, c, H.Queued))
  {
    var ch := s.host.channels[c];
    var f := ch.sending.frame;
    var k := Key(s.host.session, c);
    assert ChannelOk(ch, k, s.down, s.up) && InStep(s.down, k);
    RecordKeepsOrder(s.down, f);
    var s' := SendReact(s, c, H.Queued);
    HostSends(s, s', c, s'.host.channels[c]);
  }

  lemma SendAcked(s: System, c: byte, e: H.Event)
    requires Inv(s) && !s.host.closed && c < CHANNELS && CanReact(s.host.channels[c], e)
    requires e.AckIs? && e.seq_ == s.host.channels[c].sending.frame.sequence
    ensures Inv(SendReact(s, c, e))
  {
    var ch := s.host.channels[c];
    var f := ch.sending.frame;
    var k := Key(s.host.session, c);
    assert ChannelOk(ch, k, s.down, s.up) && InStep(s.down, k);
    FinishKeepsOrder(s.down, f);
    var s' := SendReact(s, c, e);
    HostSends(s, s', c, s'.host.channels[c]);
  }

  // ----------------------------------------------------- device steps keep it

  lemma DeviceAlone(s: System, s': System)
    requires Inv(s) && s' == s.(device := s'.device) && DeviceOk(s')
    ensures Inv(s')
  {
  }

  lemma OneLane(s: System, c: byte, lane: D.Lane)
    requires Inv(s) && c < CHANNELS && LaneOk(lane, c, StandingOf(s.device), s.adopted, s.down, s.up)
    requires s.device.reset.Unlocked? || (StartsOver(s.device.lanes[c]) ==> StartsOver(lane))
    ensures Inv(OnLane(s, c, lane))
  {
    DeviceAlone(s, OnLane(s, c, lane));
  }

  lemma LaneUsersStep(s: System, step: Step)
    requires Inv(s) && Enabled(s, step) && (step.DeviceQueues? || step.DeviceTakes?)
    ensures Inv(Apply(s, step))
  {
    var c := step.channel;
    assert LaneOk(s.device.lanes[c], c, StandingOf(s.device), s.adopted, s.down, s.up);
    OneLane(s, c, Apply(s, step).device.lanes[c]);
  }

  // While no session is published nothing is claimed about the counters, and
  // a worker that still carries a frame has used up no number of its session, or
  // the session has left a trace.
  lemma LaneUnpublished(lane: D.Lane, c: byte, at: Standing, expected: u32, adopted: set<u32>, down: History,
      up: History)
    requires LaneOk(lane, c, at, adopted, down, up)
    requires at.session == 0 || at.session in adopted
    requires 0 !in adopted
    requires expected != 0 ==> !Traces(lane.worker, Key(expected, c), down, up)
    ensures LaneOk(lane, c, Standing(0, expected), adopted, down, up)
  {
  }

  lemma BeginResetKeeps(s: System, expected: u32, replacement: u32)
    requires Inv(s) && s.device.reset.Unlocked?
    requires replacement == 0 || (replacement in s.used && !Traced(s, replacement))
    ensures Inv(s.(device := D.BeginReset(s.device, expected, replacement)))
  {
    var s' := s.(device := D.BeginReset(s.device, expected, replacement));
    if s' != s {
      forall c: byte | c < CHANNELS
        ensures LaneOk(s.device.lanes[c], c, Standing(0, replacement), s.adopted, s.down, s.up)
      {
        LaneUnpublished(s.device.lanes[c], c, StandingOf(s.device), replacement, s.adopted, s.down, s.up);
      }
      DeviceAlone(s, s');
    }
  }

  lemma WrapResetsStep(s: System, step: Step)
    requires Inv(s) && Enabled(s, step) && step.WrapResets?
    ensures Inv(Apply(s, step))
  {
    var expected := s.device.wrapped.value;
    BeginResetKeeps(s, expected, 0);
    DeviceAlone(s.(device := D.BeginReset(s.device, expected, 0)), Apply(s, step));
  }

  lemma WorkerResetsStep(s: System, step: Step)
    requires Inv(s) && Enabled(s, step) && step.WorkerResets?
    ensures Inv(Apply(s, step))
  {
    var c := step.channel;
    var lane := s.device.lanes[c];
    var awake := lane.(worker := D.Sleeping);
    assert LaneOk(lane, c, StandingOf(s.device), s.adopted, s.down, s.up);
    var s1 := s.(device := D.BeginReset(s.device, lane.worker.session, 0));
    BeginResetKeeps(s, lane.worker.session, 0);
    assert LaneOk(lane, c, StandingOf(s1.device), s.adopted, s.down, s.up);
    OneLane(s1, c, awake);
    assert OnLane(s1, c, awake) == Apply(s, step);
  }

  lemma ClearingStep(s: System, step: Step)
    requires Inv(s) && Enabled(s, step) && (step.CountersCleared? || step.QueuesCleared?)
    ensures Inv(Apply(s, step))
  {
    var s' := Apply(s, step);
    forall c: byte | c < CHANNELS
      ensures LaneOk(s'.device.lanes[c], c, StandingOf(s'.device), s.adopted, s.down, s.up)
    {
      assert LaneOk(s.device.lanes[c], c, StandingOf(s.device), s.adopted, s.down, s.up);
    }
    DeviceAlone(s, s');
  }

  // A session that has left no trace starts with empty history on every channel.
  lemma SessionPublishedStep(s: System, step: Step)
    requires Inv(s) && Enabled(s, step) && step.SessionPublished?
    ensures Inv(Apply(s, step))
  {
    var r := s.device.reset.replacement;
    var s' := Apply(s, step);
    if r == 0 {
      DeviceAlone(s, s');
    } else {
      forall c: byte | c < CHANNELS
        ensures LaneOk(s'.device.lanes[c], c, Standing(r, 0), s'.adopted, s.down, s.up)
      {
        LaneBorn(s, c);
      }
      assert DeviceOk(s');
    }
  }

  lemma LaneBorn(s: System, c: byte)
    requires Inv(s) && s.device.reset.Emptied? && s.device.reset.replacement != 0 && c < CHANNELS
    ensures var r := s.device.reset.replacement;
            LaneOk(s.device.lanes[c], c, Standing(r, 0), s.adopted + {r}, s.down, s.up)
  {
    var r := s.device.reset.replacement;
    var k := Key(r, c);
    assert InStep(s.down, k) && InStep(s.up, k);
    assert StartsOver(s.device.lanes[c]) && LaneOk(s.device.lanes[c], c, Standing(0, r), s.adopted, s.down, s.up);
    assert At(s.down.got, k) == [] && At(s.up.sent, k) == [];
  }

  lemma DeviceReceivesStep(s: System, step: Step)
    requires Inv(s) && Enabled(s, step) && step.DeviceReceives? && !Returns(s, step)
    ensures Inv(Apply(s, step))
  {
    var f := step.frame;
    assert DownOk(f, s);
    if D.IsHello(f) {
      if f.session == s.device.session {
        MediumGains(s, Frame(ABORT, 0, 0, 0, []), D.ControlFrame(HELLO_ACK, f));
      } else {
        BeginResetKeeps(s, 0, f.session);
      }
    } else if D.Judge(s.device, f).Accept? {
      DeviceAcceptsFrame(s, f);
    } else {
      DeviceAnswers(s, f);
    }
  }

  lemma DeviceAnswers(s: System, f: Frame)
    requires Inv(s) && s.device.reset.Unlocked? && f in s.toDevice && f.channel < CHANNELS
    requires !D.IsHello(f) && !D.Judge(s.device, f).Accept?
    ensures Inv(DeviceReceive(s, f))
  {
    var c := f.channel;
    assert DownOk(f, s);
    assert LaneOk(s.device.lanes[c], c, StandingOf(s.device), s.adopted, s.down, s.up);
    var s1 := s.(device := D.Received(s.device, f));
    if s1.device != s.device {
      OneLane(s, c, s1.device.lanes[c]);
    }
    var reply := D.Reply(s.device, f);
    if reply.Some? {
      MediumGains(s1, Frame(ABORT, 0, 0, 0, []), reply.value);
      assert DeviceReceive(s, f) == s1.(toHost := s1.toHost + {reply.value});
    } else {
      assert DeviceReceive(s, f) == s1;
    }
  }

  lemma DeviceAcceptsFrame(s: System, f: Frame)
    requires Inv(s) && s.device.reset.Unlocked? && f in s.toDevice && f.channel < CHANNELS
    requires !D.IsHello(f) && D.Judge(s.device, f).Accept?
    ensures Inv(DeviceReceive(s, f))
  {
    var c := f.channel;
    assert DownOk(f, s);
    assert LaneOk(s.device.lanes[c], c, StandingOf(s.device), s.adopted, s.down, s.up);
    TakeKeepsOrder(s.down, f);
    var s' := DeviceReceive(s, f);
    MediumFrame(s, s');
    assert MediumOk(s') by { assert Taken(s'.down.got, f); }
    HostFrame(s, s');
    forall d: byte | d < CHANNELS
      ensures LaneOk(s'.device.lanes[d], d, StandingOf(s'.device), s'.adopted, s'.down, s'.up)
    {
      assert LaneOk(s.device.lanes[d], d, StandingOf(s.device), s.adopted, s.down, s.up);
      if d != c {
        LaneFrame(s.device.lanes[d], d, StandingOf(s.device), s.adopted, s.down, s.up, s'.down, s'.up);
      }
    }
  }

  // The host does not notice what the device takes or transmits.
  lemma HostFrame(s: System, s': System)
    requires Inv(s) && s'.host == s.host && s'.used == s.used && s'.Wide()
    requires forall k :: At(s'.down.sent, k) == At(s.down.sent, k) && At(s'.down.done, k) == At(s.down.done, k)
    requires forall k :: |At(s'.down.got, k)| >= |At(s.down.got, k)|
    requires forall k :: At(s'.up.got, k) == At(s.up.got, k)
    ensures HostOk(s')
  {
    forall c: byte | c < CHANNELS && !s.host.closed
      ensures ChannelOk(s'.host.channels[c], Key(s.host.session, c), s'.down, s'.up)
    {
      ChannelFrame(s.host.channels[c], Key(s.host.session, c), s.down, s.up, s'.down, s'.up);
    }
  }

  lemma WorkerDoesStep(s: System, step: Step)
    requires Inv(s) && Enabled(s, step) && step.WorkerDoes?
    ensures Inv(Apply(s, step))
  {
    var c, deed := step.channel, step.deed;
    var w := s.device.lanes[c].worker;
    if deed.Transmit? {
      WorkerTransmits(s, c);
    } else if deed.Conclude? && w.ok && w.frame.session == s.device.session {
      WorkerConcludes(s, c);
    } else {
      WorkerUnmoved(s, c, deed);
    }
  }

  lemma WorkerUnmoved(s: System, c: byte, deed: D.Deed)
    requires Inv(s) && c < CHANNELS && D.CanDo(s.device.lanes[c], deed) && !deed.Transmit?
    requires deed.Conclude? ==>
               !s.device.lanes[c].worker.ok
               || s.device.lanes[c].worker.frame.session != s.device.session
    ensures Inv(WorkerDo(s, c, deed))
  {
    var lane := s.device.lanes[c];
    assert LaneOk(lane, c, StandingOf(s.device), s.adopted, s.down, s.up);
    LaneUnmoved(lane, c, StandingOf(s.device), s.adopted, s.down, s.up, deed);
    OneLane(s, c, D.Do(lane, c, s.device.session, deed));
  }

  lemma LaneUnmoved(lane: D.Lane, c: byte, at: Standing, adopted: set<u32>, down: History, up: History, deed: D.Deed)
    requires LaneOk(lane, c, at, adopted, down, up) && Ordered(up) && D.CanDo(lane, deed) && !deed.Transmit?
    requires (at.session == 0 || at.session in adopted) && 0 !in adopted && (at.expected != 0 ==> at.session == 0)
    requires deed.Conclude? ==> !lane.worker.ok || lane.worker.frame.session != at.session
    ensures LaneOk(D.Do(lane, c, at.session, deed), c, at, adopted, down, up)
    ensures StartsOver(lane) ==> StartsOver(D.Do(lane, c, at.session, deed))
  {
    assert InStep(up, Key(at.session, c));
  }

  // One channel's transmissions are recorded: the other lanes do not notice.
  lemma DeviceSends(s: System, s': System, c: byte, lane: D.Lane)
    requires Inv(s) && c < CHANNELS
    requires s' == OnLane(s, c, lane).(up := s'.up, toHost := s'.toHost)
    requires Ordered(s'.up) && Grows(s.up, s'.up)
    requires forall k :: At(s'.up.got, k) == At(s.up.got, k)
    requires forall k :: At(s'.up.sent, k) != [] ==> k.session in s.adopted
    requires forall k: Key | k.channel != c ::
               At(s'.up.sent, k) == At(s.up.sent, k) && At(s'.up.done, k) == At(s.up.done, k)
    requires forall f | f in s'.toHost && f !in s.toHost :: UpOk(f, s')
    requires LaneOk(lane, c, StandingOf(s.device), s.adopted, s.down, s'.up)
    requires s.device.reset.Unlocked? || (StartsOver(s.device.lanes[c]) ==> StartsOver(lane))
    ensures Inv(s')
  {
    MediumFrame(s, s');
    HostFrame(s, s');
    forall d: byte | d < CHANNELS
      ensures LaneOk(s'.device.lanes[d], d, StandingOf(s.device), s.adopted, s.down, s'.up)
    {
      assert LaneOk(s.device.lanes[d], d, StandingOf(s.device), s.adopted, s.down, s.up);
      if d != c {
        LaneFrame(s.device.lanes[d], d, StandingOf(s.device), s.adopted, s.down, s.up, s'.down, s'.up);
      }
    }
  }

  lemma LaneTransmits(lane: D.Lane, c: byte, at: Standing, adopted: set<u32>, down: History, up: History)
    requires LaneOk(lane, c, at, adopted, down, up) && Ordered(up) && lane.worker.Cleared?
    requires at.expected != 0 ==> at.session == 0
    ensures var f, k := lane.worker.frame, KeyOf(lane.worker.frame);
            (Recorded(up.sent, f) || (f.sequence == |At(up.sent, k)| + 1 && |At(up.sent, k)| <= |At(up.got, k)|))
            && LaneOk(D.Do(lane, c, at.session, D.Transmit), c, at, adopted, down, Record(up, f))
  {
    assert InStep(up, KeyOf(lane.worker.frame));
  }

  lemma WorkerTransmits(s: System, c: byte)
    requires Inv(s) && c < CHANNELS && D.CanDo(s.device.lanes[c], D.Transmit)
    ensures Inv(WorkerDo(s, c, D.Transmit))
  {
    var lane := s.device.lanes[c];
    var f := lane.worker.frame;
    assert LaneOk(lane, c, StandingOf(s.device), s.adopted, s.down, s.up);
    LaneTransmits(lane, c, StandingOf(s.device), s.adopted, s.down, s.up);
    assert f.session in s.adopted && Sequenced(f) && f.channel == c;
    RecordKeepsOrder(s.up, f);
    var s' := WorkerDo(s, c, D.Transmit);
    hide LaneOk;
    DeviceSends(s, s', c, s'.device.lanes[c]);
  }

  lemma WorkerConcludes(s: System, c: byte)
    requires Inv(s) && c < CHANNELS && D.CanDo(s.device.lanes[c], D.Conclude)
    requires s.device.lanes[c].worker.ok && s.device.lanes[c].worker.frame.session == s.device.session
    ensures Inv(WorkerDo(s, c, D.Conclude))
  {
    var lane := s.device.lanes[c];
    var f := lane.worker.frame;
    assert LaneOk(lane, c, StandingOf(s.device), s.adopted, s.down, s.up) && InStep(s.up, KeyOf(f));
    FinishKeepsOrder(s.up, f);
    var s' := WorkerDo(s, c, D.Conclude);
    assert InStep(s'.up, KeyOf(f));
    DeviceSends(s, s', c, s'.device.lanes[c]);
  }

  // ------------------------------------------------------------- main theorem

  lemma InitOk()
    ensures Inv(Init())
  {
  }

  lemma HostStepKeepsInv(s: System, step: Step)
    requires Inv(s) && Enabled(s, step)
    ensures OnHostSide(step) ==> Inv(Apply(s, step))
  {
    hide Apply;
    match step {
      case NewLink(_) => NewLinkStep(s, step);
      case HostReceives(_) => HostReceivesStep(s, step);
      case WriteHigh => WriteHighStep(s, step);
      case WriteChannel(_) => WriteChannelStep(s, step);
      case SendReacts(_, _) => SendReactsStep(s, step);
      case SendBegins(_, _, _) => ChannelLocalStep(s, step);
      case ConnOpens(_) => ChannelLocalStep(s, step);
      case ConnReads(_) => ChannelLocalStep(s, step);
      case ConnFreed(_) => ChannelLocalStep(s, step);
      case CloseLink => HostLocalStep(s, step);
      case QueueHello => HostLocalStep(s, step);
      case HandshakeDone => HostLocalStep(s, step);
      case QueueControl => HostLocalStep(s, step);
      case QueueAbort(_, _) => HostLocalStep(s, step);
      case ReplyRead => HostLocalStep(s, step);
      case _ =>
    }
  }

  lemma DeviceStepKeepsInv(s: System, step: Step)
    requires Inv(s) && Enabled(s, step) && !Returns(s, step)
    ensures !OnHostSide(step) ==> Inv(Apply(s, step))
  {
    hide Apply;
    match step {
      case DeviceReceives(_) => DeviceReceivesStep(s, step);
      case WrapResets => WrapResetsStep(s, step);
      case WorkerResets(_) => WorkerResetsStep(s, step);
      case CountersCleared => ClearingStep(s, step);
      case QueuesCleared => ClearingStep(s, step);
      case SessionPublished => SessionPublishedStep(s, step);
      case WorkerDoes(_, _) => WorkerDoesStep(s, step);
      case DeviceQueues(_, _) => LaneUsersStep(s, step);
      case DeviceTakes(_) => LaneUsersStep(s, step);
      case _ =>
    }
  }

  predicate OnHostSide(step: Step) {
    match step
    case DeviceReceives(_) => false
    case WrapResets => false
    case WorkerResets(_) => false
    case CountersCleared => false
    case QueuesCleared => false
    case SessionPublished => false
    case WorkerDoes(_, _) => false
    case DeviceQueues(_, _) => false
    case DeviceTakes(_) => false
    case _ => true
  }

  lemma StepKeepsInv(s: System, step: Step)
    requires Inv(s) && !Returns(s, step)
    ensures Inv(Next(s, step))
  {
    if Enabled(s, step) {
      HostStepKeepsInv(s, step);
      DeviceStepKeepsInv(s, step);
    }
  }

  lemma {:induction false} RunKeepsInv(steps: seq<Step>)
    requires NeverReturns(steps)
    ensures Inv(After(steps))
    decreases |steps|
  {
    if steps == [] {
      InitOk();
    } else {
      var n := |steps| - 1;
      forall m | 0 <= m < n ensures !Returns(After(steps[..n][..m]), steps[..n][m]) {
        assert steps[..n][..m] == steps[..m];
      }
      RunKeepsInv(steps[..n]);
      StepKeepsInv(After(steps[..n]), steps[n]);
    }
  }

  ghost predicate ExactlyOnce(h: History) {
    forall k: Key ::
      && At(h.got, k) <= At(h.sent, k)                       // an in-order prefix of what was sent
      && |At(h.sent, k)| <= |At(h.got, k)| + 1               // at most one frame outstanding
      && At(h.done, k) <= At(h.got, k)                       // completed sends were received
      && (forall i | 0 <= i < |At(h.sent, k)| :: At(h.sent, k)[i].sequence == i + 1)
      && (forall i, j | 0 <= i < j < |At(h.got, k)| :: At(h.got, k)[i] != At(h.got, k)[j])
  }

  // Over any run in which the device never returns to a session that has left
  // a trace, both directions deliver exactly once and in order, on every
  // channel of every session there has been.
  lemma ExactlyOnceDelivery(steps: seq<Step>)
    requires NeverReturns(steps)
    ensures ExactlyOnce(After(steps).down) && ExactlyOnce(After(steps).up)
  {
    RunKeepsInv(steps);
    var s := After(steps);
    hide After;
    HistoryDelivers(s.down);
    HistoryDelivers(s.up);
  }

  lemma HistoryDelivers(h: History)
    requires LinkHistory.Ordered(h)
    ensures ExactlyOnce(h)
  {
    forall k: Key
      ensures InStep(h, k)
      ensures forall i, j | 0 <= i < j < |At(h.got, k)| :: At(h.got, k)[i] != At(h.got, k)[j]
    {
      NoDuplicates(h, k);
    }
  }

  // What the device transmits: a number keeps its frame, through every retry.
  lemma RepliesAreUnambiguous(steps: seq<Step>, f: Frame, g: Frame)
    requires NeverReturns(steps)
    requires Sequenced(f) && Sequenced(g) && KeyOf(f) == KeyOf(g) && f.sequence == g.sequence
    ensures f in After(steps).toHost && g in After(steps).toHost ==> f == g
  {
    RunKeepsInv(steps);
    var s := After(steps);
    if f in s.toHost && g in s.toHost { assert UpOk(f, s) && UpOk(g, s); }
  }

  // The host's and the device's own counters tell how much has arrived: every
  // send that advanced a sequence number was taken at the other end.
  lemma AdvancedMeansTaken(steps: seq<Step>, c: byte)
    requires NeverReturns(steps) && c < CHANNELS
    ensures var s := After(steps);
            !s.host.closed ==> s.host.channels[c].sequence - 1 <= |At(s.down.got, Key(s.host.session, c))|
    ensures var s := After(steps);
            s.device.session != 0 ==> s.device.lanes[c].txNext - 1 <= |At(s.up.got, Key(s.device.session, c))|
  {
    RunKeepsInv(steps);
    var s := After(steps);
    if !s.host.closed {
      var k := Key(s.host.session, c);
      assert ChannelOk(s.host.channels[c], k, s.down, s.up) && InStep(s.down, k);
    }
    if s.device.session != 0 {
      var k := Key(s.device.session, c);
      assert LaneOk(s.device.lanes[c], c, StandingOf(s.device), s.adopted, s.down, s.up) && InStep(s.up, k);
    }
  }

  // Seen from above, a channel is a queue: a step takes nothing, or exactly the
  // next frame in the order the frames were handed over.
  lemma DeliveryIsFifo(steps: seq<Step>, step: Step, k: Key)
    requires NeverReturns(steps + [step])
    ensures var s, s' := After(steps), After(steps + [step]);
            var sent := At(s'.down.sent, k);
            At(s'.down.got, k) == At(s.down.got, k)
            || (|At(s.down.got, k)| < |sent| && At(s'.down.got, k) == At(s.down.got, k) + [sent[|At(s.down.got, k)|]])
    ensures var s, s' := After(steps), After(steps + [step]);
            var sent := At(s'.up.sent, k);
            At(s'.up.got, k) == At(s.up.got, k)
            || (|At(s.up.got, k)| < |sent| && At(s'.up.got, k) == At(s.up.got, k) + [sent[|At(s.up.got, k)|]])
  {
    RunKeepsInv(steps + [step]);
    AfterOne(steps, step);
    var s, s' := After(steps), After(steps + [step]);
    assert InStep(s'.down, k) && InStep(s'.up, k);
    GotGrowsByOne(s, step, k);
  }

  lemma GotGrowsByOne(s: System, step: Step, k: Key)
    requires s.Wide()
    ensures var s' := Next(s, step);
            At(s'.down.got, k) == At(s.down.got, k) || exists f :: At(s'.down.got, k) == At(s.down.got, k) + [f]
    ensures var s' := Next(s, step);
            At(s'.up.got, k) == At(s.up.got, k) || exists f :: At(s'.up.got, k) == At(s.up.got, k) + [f]
  {
  }
}
