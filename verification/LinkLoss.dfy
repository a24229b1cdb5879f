/**
  What a return to a session that has left a trace does to the frames of the
  device: its worker numbers a new message like an old one, the host takes the
  new frame for a repetition, and the worker counts it as delivered.
  */
module LinkLoss {
  import opened Frames
  import opened LinkHistory
  import opened LinkSystem
  import opened LinkSafety
  import H = LinkHost
  import D = LinkDevice

  // -------------------------------------------------------------- going onward

  function Onward(s: System, more: seq<Step>): (t: System)
    requires s.Wide()
    ensures t.Wide()
  {
    if more == [] then s else Next(Onward(s, more[..|more| - 1]), more[|more| - 1])
  }

  // Some run leads from s to t.
  ghost predicate Leads(s: System, t: System)
    requires s.Wide()
  {
    exists more: seq<Step> :: Onward(s, more) == t
  }

  lemma {:induction false} OnwardIsAfter(steps: seq<Step>, more: seq<Step>)
    ensures Onward(After(steps), more) == After(steps + more)
    decreases |more|
  {
    hide Next;
    if more == [] {
      assert steps + more == steps;
    } else {
      var n := |more| - 1;
      OnwardIsAfter(steps, more[..n]);
      assert steps + more == (steps + more[..n]) + [more[n]];
      AfterOne(steps + more[..n], more[n]);
    }
  }

  lemma Stays(s: System)
    requires s.Wide()
    ensures Leads(s, s)
  {
    assert Onward(s, []) == s;
  }

  lemma Moves(s: System, t: System, step: Step) returns (u: System)
    requires s.Wide() && t.Wide() && Leads(s, t)
    ensures u == Next(t, step) && Leads(s, u)
  {
    hide Next;
    var a: seq<Step> :| Onward(s, a) == t;
    assert (a + [step])[..|a + [step]| - 1] == a;
    u := Next(t, step);
    assert Onward(s, a + [step]) == u;
  }

  lemma {:induction false} OnwardBoth(s: System, a: seq<Step>, b: seq<Step>)
    requires s.Wide()
    ensures Onward(s, a + b) == Onward(Onward(s, a), b)
    decreases |b|
  {
    hide Next;
    if b == [] {
      assert a + b == a;
    } else {
      var n := |b| - 1;
      assert (a + b)[..|a + b| - 1] == a + b[..n];
      OnwardBoth(s, a, b[..n]);
    }
  }

  lemma Through(s: System, t: System, u: System)
    requires s.Wide() && t.Wide() && Leads(s, t) && Leads(t, u)
    ensures Leads(s, u)
  {
    var a: seq<Step> :| Onward(s, a) == t;
    var b: seq<Step> :| Onward(t, b) == u;
    OnwardBoth(s, a, b);
  }

  // -------------------------------------------------- the device, between sessions

  // Only the device has moved, and the host has taken nothing.
  predicate DeviceOnly(s: System, t: System) {
    t.host == s.host && t.down == s.down && t.toDevice == s.toDevice && s.toHost <= t.toHost
    && t.up.got == s.up.got && t.up.done == s.up.done
  }

  ghost predicate SentGrows(s: System, t: System) {
    forall k :: At(s.up.sent, k) <= At(t.up.sent, k)
  }

  predicate Holds(w: D.Worker) {
    match w
    case Sleeping => true
    case Fetched(m) => m.session != 0
    case Resetting(_) => false
    case Trying(f, _) => f.session != 0
    case Cleared(f, _) => f.session != 0
    case Polling(f, _) => f.session != 0
    case Finishing(f, _) => f.session != 0
  }

  // The turns a worker needs to give up, once its session is no longer current.
  function Turns(w: D.Worker): nat {
    match w
    case Sleeping => 0
    case Fetched(_) => 4
    case Trying(_, _) => 3
    case Cleared(_, _) => 5
    case Polling(_, _) => 4
    case Finishing(_, _) => 1
    case Resetting(_) => 0
  }

  function GivingUp(w: D.Worker): D.Deed
    requires Holds(w) && !w.Sleeping?
  {
    match w
    case Fetched(_) => D.Number
    case Trying(_, _) => D.Check
    case Cleared(_, _) => D.Transmit
    case Polling(_, _) => D.Deadline
    case _ => D.Conclude
  }

  lemma GivesUpOne(s: System, c: byte) returns (t: System)
    requires s.Wide() && c < CHANNELS && s.device.session == 0
    requires Holds(s.device.lanes[c].worker) && !s.device.lanes[c].worker.Sleeping?
    ensures t.Wide() && Leads(s, t) && DeviceOnly(s, t) && SentGrows(s, t)
    ensures t.device == s.device.(lanes := s.device.lanes[c := t.device.lanes[c]])
    ensures Holds(t.device.lanes[c].worker) && Turns(t.device.lanes[c].worker) < Turns(s.device.lanes[c].worker)
    ensures s.device.lanes[c].worker.Cleared? ==> At(t.up.sent, KeyOf(s.device.lanes[c].worker.frame)) != []
  {
    Stays(s);
    hide Leads;
    t := Moves(s, s, WorkerDoes(c, GivingUp(s.device.lanes[c].worker)));
  }

  // While a reset is under way a worker lets go of what it carries.
  lemma {:induction false} WorkerGivesUp(s: System, c: byte) returns (t: System)
    requires s.Wide() && c < CHANNELS && s.device.session == 0 && Holds(s.device.lanes[c].worker)
    ensures t.Wide() && Leads(s, t) && DeviceOnly(s, t) && SentGrows(s, t)
    ensures t.device == s.device.(lanes := s.device.lanes[c := t.device.lanes[c]])
    ensures t.device.lanes[c].worker.Sleeping?
    ensures s.device.lanes[c].worker.Cleared? ==> At(t.up.sent, KeyOf(s.device.lanes[c].worker.frame)) != []
    decreases Turns(s.device.lanes[c].worker)
  {
    hide Leads, Next, Holds;
    if s.device.lanes[c].worker.Sleeping? {
      Stays(s);
      t := s;
    } else {
      var u := GivesUpOne(s, c);
      t := WorkerGivesUp(u, c);
      Through(s, u, t);
    }
  }

  // The rest of a reset.
  lemma ResetCompletes(s: System, c: byte) returns (t: System)
    requires s.Wide() && s.device.reset.Zeroed? && c < CHANNELS
    ensures t.Wide() && Leads(s, t) && DeviceOnly(s, t) && t.up == s.up
    ensures t.device.session == s.device.reset.replacement && t.device.reset.Unlocked?
    ensures t.device.wrapped == s.device.wrapped
    ensures t.device.lanes[c] == D.FRESH_LANE.(worker := s.device.lanes[c].worker)
  {
    Stays(s);
    hide Leads;
    var u := Moves(s, s, CountersCleared);
    assert u == s.(device := D.ClearCounters(s.device));
    var v := Moves(s, u, QueuesCleared);
    assert v == u.(device := D.ClearQueues(u.device));
    t := Moves(s, v, SessionPublished);
  }

  // Somewhere a HELLO of session x is on its way to the device.
  predicate HelloArrives(s: System, hello: Frame)
    requires s.Wide()
  {
    Enabled(s, DeviceReceives(hello)) && D.IsHello(hello) && hello.session != s.device.session
  }

  // A worker that wants to reset the session gets its way before the HELLO.
  lemma ResetterSettles(s: System, hello: Frame, c: byte) returns (t: System)
    requires s.Wide() && c < CHANNELS && HelloArrives(s, hello) && s.device.lanes[c].worker.Resetting?
    ensures t.Wide() && Leads(s, t) && DeviceOnly(s, t) && t.up == s.up
    ensures HelloArrives(t, hello) && t.device.lanes[c].worker.Sleeping?
  {
    Stays(s);
    hide Leads;
    var lane := s.device.lanes[c];
    var u := Moves(s, s, WorkerResets(c));
    t := u;
    if u.device.reset.Zeroed? {
      hide Next;
      t := ResetCompletes(u, c);
      Through(s, u, t);
    }
  }

  // The device starts session x over: channel c's worker sleeps, at number one.
  lemma StartsOverIn(s: System, hello: Frame, c: byte) returns (t: System)
    requires s.Wide() && c < CHANNELS && HelloArrives(s, hello) && Holds(s.device.lanes[c].worker)
    ensures t.Wide() && Leads(s, t) && DeviceOnly(s, t) && SentGrows(s, t)
    ensures t.device.session == hello.session && t.device.reset.Unlocked? && t.device.wrapped.None?
    ensures t.device.lanes[c] == D.FRESH_LANE
    ensures s.device.lanes[c].worker.Cleared? ==> At(t.up.sent, KeyOf(s.device.lanes[c].worker.frame)) != []
  {
    Stays(s);
    hide Leads;
    var u := Moves(s, s, DeviceReceives(hello));
    assert u == s.(device := s.device.(session := 0, reset := D.Zeroed(hello.session)));
    hide Next;
    var v := WorkerGivesUp(u, c);
    Through(s, u, v);
    t := ResetCompletes(v, c);
    Through(s, v, t);
  }

  // A kind and payload that make another frame than old.
  function Another(old_: Frame, c: byte): D.Message {
    D.Message(old_.session, if IsDataChannel(c) then DATA else RPC_REPLY, if old_.payload == [] then [0] else [])
  }

  function FirstFrame(m: D.Message, c: byte): Frame { Frame(m.kind, m.session, c, 1, m.payload) }

  lemma MessageIsQueued(s: System, m: D.Message, c: byte) returns (t: System)
    requires s.Wide() && c < CHANNELS && s.device.lanes[c] == D.FRESH_LANE
    requires OPEN <= m.kind <= ERROR && |m.payload| <= MAX_PAYLOAD
    ensures t.Wide() && Leads(s, t) && t == OnLane(s, c, D.FRESH_LANE.(tx := [m]))
  {
    Stays(s);
    hide Leads;
    t := Moves(s, s, DeviceQueues(c, m));
    assert s.device.lanes[c].tx + [m] == [m];
  }

  lemma MessageIsNumbered(s: System, m: D.Message, c: byte) returns (t: System)
    requires s.Wide() && c < CHANNELS && s.device.lanes[c] == D.FRESH_LANE.(tx := [m])
    requires m.session == s.device.session != 0
    ensures t.Wide() && Leads(s, t) && t == OnLane(s, c, D.FRESH_LANE.(worker := D.Trying(FirstFrame(m, c), 0)))
  {
    Stays(s);
    hide Leads;
    var u := Moves(s, s, WorkerDoes(c, D.Fetch));
    assert [m][1..] == [];
    assert u == OnLane(s, c, D.FRESH_LANE.(worker := D.Fetched(m)));
    t := Moves(s, u, WorkerDoes(c, D.Number));
  }

  lemma FrameIsSent(s: System, f: Frame, c: byte) returns (t: System)
    requires s.Wide() && c < CHANNELS && f.session == s.device.session
    requires s.device.lanes[c] == D.FRESH_LANE.(worker := D.Trying(f, 0))
    ensures t.Wide() && Leads(s, t)
    ensures t == OnLane(s, c, D.FRESH_LANE.(worker := D.Polling(f, 0)))
                 .(toHost := s.toHost + {f}, up := Record(s.up, f))
  {
    Stays(s);
    hide Leads;
    var u := Moves(s, s, WorkerDoes(c, D.Check));
    assert u == OnLane(s, c, D.FRESH_LANE.(worker := D.Cleared(f, 0)));
    t := Moves(s, u, WorkerDoes(c, D.Transmit));
  }

  // After the return: a frame like none before it, under number one.
  predicate Renumbered(t: System, f: Frame, x: u32, c: byte)
    requires t.Wide() && c < CHANNELS
  {
    var k := Key(x, c);
    && t.device.session == x && t.device.reset.Unlocked? && t.device.wrapped.None?
    && t.device.lanes[c] == D.FRESH_LANE.(worker := D.Polling(f, 0))
    && KeyOf(f) == k && f.sequence == 1 && f in t.toHost
    && f.kind == (if IsDataChannel(c) then DATA else RPC_REPLY)
    && |At(t.up.sent, k)| >= 2 && At(t.up.sent, k)[0] != f && At(t.up.sent, k)[|At(t.up.sent, k)| - 1] == f
  }

  lemma NumbersAgain(s: System, x: u32, c: byte) returns (t: System, f: Frame)
    requires s.Wide() && c < CHANNELS && s.device.lanes[c] == D.FRESH_LANE && x != 0
    requires s.device.session == x && s.device.reset.Unlocked? && s.device.wrapped.None?
    requires At(s.up.sent, Key(x, c)) != []
    ensures t.Wide() && Leads(s, t) && DeviceOnly(s, t) && Renumbered(t, f, x, c) && SentGrows(s, t)
  {
    var k := Key(x, c);
    var old_ := At(s.up.sent, k)[0];
    var m := Another(old_.(session := x), c);
    f := FirstFrame(m, c);
    var q := MessageIsQueued(s, m, c);
    var u := MessageIsNumbered(q, m, c);
    Through(s, q, u);
    t := FrameIsSent(u, f, c);
    Through(s, u, t);
    hide Leads;
    assert !Recorded(s.up.sent, f);
    assert At(t.up.sent, k) == At(s.up.sent, k) + [f];
  }

  // A return to session x on whose channel c the device has sent, or is about
  // to send, is followed in some run by two frames under number one.
  lemma ReturnRenumbers(s: System, hello: Frame, c: byte) returns (t: System, f: Frame)
    requires Inv(s) && c < CHANNELS && HelloArrives(s, hello)
    requires var w, k := s.device.lanes[c].worker, Key(hello.session, c);
             At(s.up.sent, k) != [] || (w.Cleared? && w.frame.session == hello.session)
    ensures t.Wide() && Leads(s, t) && DeviceOnly(s, t) && Renumbered(t, f, hello.session, c) && SentGrows(s, t)
  {
    assert LaneOk(s.device.lanes[c], c, StandingOf(s.device), s.adopted, s.down, s.up);
    var w := s.device.lanes[c].worker;
    assert !w.Resetting? ==> Holds(w);
    assert w.Cleared? ==> KeyOf(w.frame) == Key(w.frame.session, c);
    hide Inv, LaneOk, Leads, HelloArrives, Renumbered;
    var u := s;
    Stays(s);
    if w.Resetting? { u := ResetterSettles(s, hello, c); }
    var v := StartsOverIn(u, hello, c);
    Through(s, u, v);
    assert At(u.up.sent, Key(hello.session, c)) <= At(v.up.sent, Key(hello.session, c));
    t, f := NumbersAgain(v, hello.session, c);
    Through(s, v, t);
    forall k ensures At(s.up.sent, k) <= At(t.up.sent, k) { assert At(v.up.sent, k) <= At(t.up.sent, k); }
  }

  // --------------------------------------------------------- the host's part

  // Only the host's queues towards the device have moved.
  predicate Flushed(s: System, t: System) {
    t.device == s.device && t.up == s.up && t.down == s.down && t.toHost == s.toHost && s.toDevice <= t.toDevice
    && t.host == s.host.(high := t.host.high, control := t.host.control)
  }

  lemma {:induction false} HighEmpties(s: System) returns (t: System)
    requires s.Wide() && !s.host.closed
    ensures t.Wide() && Leads(s, t) && Flushed(s, t) && t.host.high == [] && t.host.control == s.host.control
    ensures forall f | f in s.host.high :: f in t.toDevice
    decreases |s.host.high|
  {
    Stays(s);
    hide Leads;
    if s.host.high == [] {
      t := s;
    } else {
      var u := Moves(s, s, WriteHigh);
      assert u == s.(host := s.host.(high := s.host.high[1..]), toDevice := s.toDevice + {s.host.high[0]});
      t := HighEmpties(u);
      Through(s, u, t);
      forall f | f in s.host.high ensures f in t.toDevice {
        assert f == s.host.high[0] || f in s.host.high[1..];
      }
    }
  }

  // Everything the host has decided to say goes out.
  lemma ControlGoesOut(s: System) returns (t: System)
    requires s.Wide() && !s.host.closed
    ensures t.Wide() && Leads(s, t) && Flushed(s, t) && t.host.control.None?
    ensures s.host.control.Some? ==> s.host.control.value in t.toDevice
  {
    t := HighEmpties(s);
    hide Leads;
    if s.host.control.Some? {
      var u := Moves(s, t, QueueControl);
      assert s.host.control.value in u.host.high;
      t := HighEmpties(u);
      Through(s, u, t);
    }
  }

  lemma HostRepeatsAck(s: System, f: Frame) returns (t: System)
    requires s.Wide() && !s.host.closed && s.host.control.None? && f in s.toHost && f.channel < CHANNELS
    requires f.session == s.host.session && f.sequence != 0
    requires f.kind == (if IsDataChannel(f.channel) then DATA else RPC_REPLY)
    requires f.sequence < s.host.channels[f.channel].expected
    ensures t.Wide() && Leads(s, t) && t == s.(host := s.host.(control := Some(H.ControlFrame(ACK, f))))
  {
    Stays(s);
    hide Leads;
    assert H.Judge(s.host, f).Duplicate?;
    t := Moves(s, s, HostReceives(f));
  }

  lemma AckIsNoted(s: System, f: Frame) returns (t: System)
    requires s.Wide() && f.channel < CHANNELS && s.device.reset.Unlocked? && s.device.wrapped.None?
    requires f.session == s.device.session != 0 && Frame(ACK, f.session, f.channel, f.sequence, []) in s.toDevice
    ensures t.Wide() && Leads(s, t)
    ensures t == OnLane(s, f.channel, s.device.lanes[f.channel].(ackSeq := f.sequence))
  {
    Stays(s);
    hide Leads;
    var ack := Frame(ACK, f.session, f.channel, f.sequence, []);
    assert D.Judge(s.device, ack).AckSignal?;
    t := Moves(s, s, DeviceReceives(ack));
  }

  lemma WorkerIsSatisfied(s: System, f: Frame, attempt: int) returns (t: System)
    requires s.Wide() && f.channel < CHANNELS && f.session == s.device.session
    requires s.device.lanes[f.channel].worker == D.Polling(f, attempt)
    requires s.device.lanes[f.channel].ackSeq == f.sequence
    ensures t.Wide() && Leads(s, t) && t.up == Finish(s.up, f) && t.toHost == s.toHost
  {
    Stays(s);
    hide Leads;
    var u := Moves(s, s, WorkerDoes(f.channel, D.SeeAck));
    assert u == OnLane(s, f.channel, s.device.lanes[f.channel].(worker := D.Finishing(f, true)));
    t := Moves(s, u, WorkerDoes(f.channel, D.Conclude));
  }

  // A repetition's acknowledgement completes the send of the new frame.
  lemma AckCompletes(s: System, f: Frame, x: u32, c: byte) returns (t: System)
    requires s.Wide() && c < CHANNELS && x != 0 && Renumbered(s, f, x, c)
    requires !s.host.closed && s.host.session == x && s.host.channels[c].expected > 1
    ensures t.Wide() && Leads(s, t) && t.up == Finish(s.up, f) && t.toHost == s.toHost
  {
    hide Leads, Next;
    var u := ControlGoesOut(s);
    var v := HostRepeatsAck(u, f);
    Through(s, u, v);
    var w := ControlGoesOut(v);
    Through(s, v, w);
    var y := AckIsNoted(w, f);
    Through(s, w, y);
    t := WorkerIsSatisfied(y, f, 0);
    Through(s, y, t);
  }

  // If the host's link of session x is still open and has taken frames on the
  // channel, a return to x is followed in some run by a frame that the device
  // counts as delivered and the host never takes.
  lemma ReturnLosesFrames(s: System, hello: Frame, c: byte)
    requires Inv(s) && c < CHANNELS && HelloArrives(s, hello)
    requires !s.host.closed && s.host.session == hello.session && At(s.up.got, Key(hello.session, c)) != []
    ensures exists t: System, f: Frame ::
              var k := Key(hello.session, c);
              t.Wide() && Leads(s, t) && f in t.toHost && KeyOf(f) == k
              && At(t.up.done, k) == At(s.up.done, k) + [f]
              && At(t.up.got, k) == At(s.up.got, k) && f !in At(t.up.got, k)
  {
    var k := Key(hello.session, c);
    assert ChannelOk(s.host.channels[c], k, s.down, s.up) && InStep(s.up, k);
    assert At(s.up.got, k)[0] == At(s.up.sent, k)[0];
    var t, f := ReturnRenumbers(s, hello, c);
    var u := AckCompletes(t, f, hello.session, c);
    Through(s, t, u);
    hide Leads;
    assert At(s.up.sent, k) <= At(t.up.sent, k);
    forall i | 0 <= i < |At(s.up.got, k)| ensures At(s.up.got, k)[i] != f {
      assert At(s.up.got, k)[i] == At(s.up.sent, k)[i];
      assert At(s.up.sent, k)[i].sequence == i + 1;
    }
    assert f in u.toHost;
  }
}
