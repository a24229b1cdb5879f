/**
  From the device's transmit queue to the channel: while a session lasts, the
  frames it transmits are the messages queued for it, in the order of the queue.
  */
module LinkOrder {
  import opened Frames
  import opened LinkHistory
  import opened LinkSystem
  import opened LinkSafety
  import D = LinkDevice

  function Text(f: Frame): D.Message { D.Message(f.session, f.kind, f.payload) }

  function Texts(fs: seq<Frame>): seq<D.Message> { seq(|fs|, i requires 0 <= i < |fs| => Text(fs[i])) }

  // The messages of session x; a worker drops the others.
  function Meant(tx: seq<D.Message>, x: u32): seq<D.Message> {
    if tx == [] then [] else (if tx[0].session == x then [tx[0]] else []) + Meant(tx[1..], x)
  }

  // The message of session x a worker holds and has not transmitted.
  function InHand(w: D.Worker, x: u32, up: History): seq<D.Message> {
    match w
    case Fetched(m) => if m.session == x then [m] else []
    case Trying(f, _) => if f.session == x && !Recorded(up.sent, f) then [Text(f)] else []
    case Cleared(f, _) => if f.session == x && !Recorded(up.sent, f) then [Text(f)] else []
    case _ => []
  }

  // Sent, in hand and waiting, from the first to the last.
  function Line(lane: D.Lane, k: Key, up: History): seq<D.Message> {
    Texts(At(up.sent, k)) + InHand(lane.worker, k.session, up) + Meant(lane.tx, k.session)
  }

  // The worker has given the session up and will only reset it.
  predicate GivenUp(w: D.Worker, x: u32) {
    (w.Finishing? && !w.ok && w.frame.session == x) || w == D.Resetting(x)
  }

  lemma {:induction false} MeantExtends(tx: seq<D.Message>, m: D.Message, x: u32)
    ensures Meant(tx + [m], x) == Meant(tx, x) + (if m.session == x then [m] else [])
    decreases |tx|
  {
    var last := if m.session == x then [m] else [];
    if tx == [] {
      assert tx + [m] == [m] && [m][1..] == [];
      assert Meant([m], x) == last + [];
    } else {
      var all, first := tx + [m], if tx[0].session == x then [tx[0]] else [];
      assert all[0] == tx[0] && all[1..] == tx[1..] + [m];
      MeantExtends(tx[1..], m, x);
      assert Meant(all, x) == first + (Meant(tx[1..], x) + last);
    }
  }

  // The worker takes the first message of the queue, or drops it.
  lemma FetchKeepsLine(lane: D.Lane, c: byte, session: u32, up: History)
    requires D.CanDo(lane, D.Fetch) && session != 0
    ensures Line(D.Do(lane, c, session, D.Fetch), Key(session, c), up) == Line(lane, Key(session, c), up)
  {
    var m, lane' := lane.tx[0], D.Do(lane, c, session, D.Fetch);
    var sent, rest := Texts(At(up.sent, Key(session, c))), Meant(lane.tx[1..], session);
    hide Texts;
    assert InHand(lane.worker, session, up) == [];
    if m.session == session {
      assert Meant(lane.tx, session) == [m] + rest;
      assert sent + [] + ([m] + rest) == sent + [m] + rest;
    } else {
      assert Meant(lane.tx, session) == [] + rest;
      assert InHand(lane'.worker, session, up) == [];
    }
  }

  // What a worker holds stays in its hands, or it has given the session up.
  lemma TurnKeepsHand(lane: D.Lane, c: byte, at: Standing, adopted: set<u32>, down: History, up: History, deed: D.Deed)
    requires LaneOk(lane, c, at, adopted, down, up) && LinkHistory.Ordered(up) && D.CanDo(lane, deed)
    requires !deed.Transmit? && !deed.Fetch? && at.session != 0
    ensures var lane' := D.Do(lane, c, at.session, deed);
            lane'.tx == lane.tx
            && (GivenUp(lane'.worker, at.session)
                || (!GivenUp(lane.worker, at.session)
                    && InHand(lane'.worker, at.session, up) == InHand(lane.worker, at.session, up)))
  {
    assert InStep(up, Key(at.session, c));
  }

  // What a worker's turn does to the line.
  lemma TurnKeepsLine(lane: D.Lane, c: byte, at: Standing, adopted: set<u32>, down: History, up: History, deed: D.Deed)
    requires LaneOk(lane, c, at, adopted, down, up) && LinkHistory.Ordered(up) && D.CanDo(lane, deed)
    requires !deed.Transmit? && at.session != 0
    ensures var lane', k := D.Do(lane, c, at.session, deed), Key(at.session, c);
            GivenUp(lane'.worker, at.session)
            || (!GivenUp(lane.worker, at.session) && Line(lane', k, up) == Line(lane, k, up))
  {
    if deed.Fetch? {
      FetchKeepsLine(lane, c, at.session, up);
    } else {
      hide LaneOk;
      TurnKeepsHand(lane, c, at, adopted, down, up, deed);
      hide D.Do, InHand, Texts, Meant, GivenUp;
    }
  }

  lemma TextsExtend(fs: seq<Frame>, f: Frame)
    ensures Texts(fs + [f]) == Texts(fs) + [Text(f)]
  {
  }

  lemma TransmitKeepsLine(lane: D.Lane, c: byte, session: u32, up: History)
    requires lane.worker.Cleared? && lane.worker.frame.channel == c
    requires var f := lane.worker.frame; Recorded(up.sent, f) || f.sequence == |At(up.sent, KeyOf(f))| + 1
    ensures var lane', k := D.Do(lane, c, session, D.Transmit), Key(session, c);
            Line(lane', k, Record(up, lane.worker.frame)) == Line(lane, k, up)
  {
    var f, k := lane.worker.frame, Key(session, c);
    var sent := At(up.sent, k);
    TextsExtend(sent, f);
    hide Texts, Meant, Text;
    if f.session == session && !Recorded(up.sent, f) {
      assert KeyOf(f) == k && At(Record(up, f).sent, k) == sent + [f];
      assert Texts(sent) + [Text(f)] + [] == Texts(sent) + [Text(f)];
    } else {
      assert At(Record(up, f).sent, k) == sent;
      assert InHand(lane.worker, session, up) == [];
    }
  }

  // Channel c's lane and record as a step of another task leaves them.
  predicate LaneStands(s: System, t: System, c: byte)
    requires s.Wide() && t.Wide() && c < CHANNELS
  {
    var k := Key(s.device.session, c);
    t.device.lanes[c].worker == s.device.lanes[c].worker && t.device.lanes[c].tx == s.device.lanes[c].tx
    && At(t.up.sent, k) == At(s.up.sent, k)
  }

  lemma StandingKeepsLine(s: System, t: System, c: byte)
    requires Inv(s) && t.Wide() && c < CHANNELS && LaneStands(s, t, c) && s.device.session != 0
    ensures var k := Key(s.device.session, c); Line(t.device.lanes[c], k, t.up) == Line(s.device.lanes[c], k, s.up)
  {
    assert LaneOk(s.device.lanes[c], c, StandingOf(s.device), s.adopted, s.down, s.up);
  }

  lemma OtherWorkerStands(s: System, d: byte, deed: D.Deed, c: byte)
    requires Inv(s) && c < CHANNELS && d < CHANNELS && d != c && D.CanDo(s.device.lanes[d], deed)
    ensures LaneStands(s, WorkerDo(s, d, deed), c)
  {
    assert LaneOk(s.device.lanes[d], d, StandingOf(s.device), s.adopted, s.down, s.up);
  }

  lemma HostStands(s: System, step: Step, c: byte)
    requires s.Wide() && Enabled(s, step) && c < CHANNELS && OnHostSide(step)
    ensures LaneStands(s, Apply(s, step), c)
  {
    match step
    case HostReceives(_) =>
    case SendReacts(_, _) =>
    case _ =>
  }

  lemma ReceiverStands(s: System, f: Frame, c: byte)
    requires s.Wide() && Enabled(s, DeviceReceives(f)) && c < CHANNELS
    ensures LaneStands(s, DeviceReceive(s, f), c)
  {
  }

  lemma OthersStand(s: System, step: Step, c: byte)
    requires s.Wide() && Enabled(s, step) && c < CHANNELS && !step.WorkerDoes?
    requires step.DeviceQueues? || step.WorkerResets? ==> step.channel != c
    requires s.device.session != 0 && Apply(s, step).device.session == s.device.session
    requires !step.CountersCleared? && !step.QueuesCleared?
    ensures LaneStands(s, Apply(s, step), c)
  {
    if OnHostSide(step) {
      HostStands(s, step, c);
    } else if step.DeviceReceives? {
      ReceiverStands(s, step.frame, c);
      hide DeviceReceive;
    } else {
      hide DeviceReceive, HostReceive, SendReact, WorkerDo;
    }
  }

  // While a session lasts, channel c's line only grows at its end, by what the
  // tasks queue; from its front messages pass to the record of frames sent.
  // A worker that has given the session up sends nothing more for it.
  lemma QueueOrderIsSendOrder(s: System, step: Step, c: byte)
    requires Inv(s) && Enabled(s, step) && c < CHANNELS
    requires s.device.session != 0 && Apply(s, step).device.session == s.device.session
    ensures var x, t := s.device.session, Apply(s, step);
            var k := Key(x, c);
            var queued := if step.DeviceQueues? && step.channel == c && step.message.session == x
                          then [step.message] else [];
            GivenUp(t.device.lanes[c].worker, x)
            || (!GivenUp(s.device.lanes[c].worker, x)
                && Line(t.device.lanes[c], k, t.up) == Line(s.device.lanes[c], k, s.up) + queued)
    ensures var x, t := s.device.session, Apply(s, step);
            GivenUp(s.device.lanes[c].worker, x) ==> At(t.up.sent, Key(x, c)) == At(s.up.sent, Key(x, c))
  {
    var lane := s.device.lanes[c];
    assert LaneOk(lane, c, StandingOf(s.device), s.adopted, s.down, s.up);
    hide Line, LaneOk;
    if step.WorkerDoes? && step.channel == c {
      LineAtWork(s, step.deed, c);
    } else if step.WorkerDoes? {
      OtherWorkerStands(s, step.channel, step.deed, c);
      StandingKeepsLine(s, Apply(s, step), c);
    } else if step.DeviceQueues? && step.channel == c {
      LineQueued(s, step.message, c);
    } else if step.WorkerResets? && step.channel == c {
      ResetterStands(s, c);
    } else {
      OthersStand(s, step, c);
      StandingKeepsLine(s, Apply(s, step), c);
    }
  }

  lemma LineAtWork(s: System, deed: D.Deed, c: byte)
    requires Inv(s) && c < CHANNELS && D.CanDo(s.device.lanes[c], deed) && s.device.session != 0
    ensures var x, t := s.device.session, WorkerDo(s, c, deed);
            GivenUp(t.device.lanes[c].worker, x)
            || (!GivenUp(s.device.lanes[c].worker, x)
                && Line(t.device.lanes[c], Key(x, c), t.up) == Line(s.device.lanes[c], Key(x, c), s.up))
  {
    var lane := s.device.lanes[c];
    assert LaneOk(lane, c, StandingOf(s.device), s.adopted, s.down, s.up);
    if deed.Transmit? {
      TransmitKeepsLine(lane, c, s.device.session, s.up);
    } else {
      TurnKeepsLine(lane, c, StandingOf(s.device), s.adopted, s.down, s.up, deed);
      var t := WorkerDo(s, c, deed);
      assert t.up.sent == s.up.sent;
    }
  }

  lemma LineQueued(s: System, m: D.Message, c: byte)
    requires s.Wide() && c < CHANNELS
    ensures var lane, k := s.device.lanes[c], Key(s.device.session, c);
            var queued := if m.session == s.device.session then [m] else [];
            Line(lane.(tx := lane.tx + [m]), k, s.up) == Line(lane, k, s.up) + queued
  {
    MeantExtends(s.device.lanes[c].tx, m, s.device.session);
  }

  lemma ResetterStands(s: System, c: byte)
    requires Inv(s) && c < CHANNELS && Enabled(s, WorkerResets(c))
    requires s.device.session != 0 && Apply(s, WorkerResets(c)).device.session == s.device.session
    ensures var x, t := s.device.session, Apply(s, WorkerResets(c));
            !GivenUp(s.device.lanes[c].worker, x)
            && Line(t.device.lanes[c], Key(x, c), t.up) == Line(s.device.lanes[c], Key(x, c), s.up)
  {
  }
}
