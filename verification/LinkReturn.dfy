/**
  The limit of exactly-once delivery.  The device adopts any HELLO whose session
  is not its current one, so a late repetition of an old HELLO takes it back to
  a session that has left a trace, with its counters at one again.
  */
module LinkReturn {
  import opened Frames
  import opened LinkHistory
  import opened LinkSystem
  import opened LinkSafety
  import opened LinkLoss
  import H = LinkHost
  import D = LinkDevice

  // Everything the device ever took is still there to be repeated.
  ghost predicate Repeatable(s: System) {
    forall k, i {:trigger At(s.down.got, k)[i]} | 0 <= i < |At(s.down.got, k)| ::
      At(s.down.got, k)[i] in s.toDevice && D.Deliverable(At(s.down.got, k)[i])
  }

  lemma StepKeepsRepeatable(s: System, step: Step)
    requires s.Wide() && Repeatable(s)
    ensures Repeatable(Next(s, step))
  {
    if Enabled(s, step) {
      var s' := Apply(s, step);
      if step.DeviceReceives? && !D.IsHello(step.frame) && D.Judge(s.device, step.frame).Accept? {
        assert s'.down.got == Append(s.down.got, step.frame);
      } else {
        assert s'.down.got == s.down.got;
      }
      assert s.toDevice <= s'.toDevice;
      forall k, i | 0 <= i < |At(s'.down.got, k)|
        ensures At(s'.down.got, k)[i] in s'.toDevice && D.Deliverable(At(s'.down.got, k)[i])
      {
        if i < |At(s.down.got, k)| { assert At(s'.down.got, k)[i] == At(s.down.got, k)[i]; }
      }
    }
  }

  lemma {:induction false} TakenIsRepeatable(steps: seq<Step>)
    ensures Repeatable(After(steps))
    decreases |steps|
  {
    if steps != [] {
      var n := |steps| - 1;
      TakenIsRepeatable(steps[..n]);
      StepKeepsRepeatable(After(steps[..n]), steps[n]);
    }
  }

  // The steps that take the device into the session a HELLO names.
  function Adopt(hello: Frame): seq<Step> { [DeviceReceives(hello), CountersCleared, QueuesCleared, SessionPublished] }

  // What is left of a system when the device has come back to session x.
  predicate Back(s: System, t: System, x: u32, c: byte)
    requires t.Wide() && c < CHANNELS
  {
    t.host == s.host && t.down == s.down && t.used == s.used && t.toDevice == s.toDevice
    && Frame(HELLO_ACK, x, 0, 0, []) in t.toHost
    && t.adopted == s.adopted + {x} && t.device.session == x
    && t.device.reset.Unlocked? && t.device.wrapped.None?
    && t.device.lanes[c].rxNext == 1 && t.device.lanes[c].rx == []
  }

  lemma FourSteps(s: System, hello: Frame, c: byte)
    requires s.Wide() && HelloArrives(s, hello) && c < CHANNELS
    ensures var t := Next(Next(Next(Next(s, DeviceReceives(hello)), CountersCleared), QueuesCleared), SessionPublished);
            Back(s, t, hello.session, c)
  {
    var s1 := Next(s, DeviceReceives(hello));
    assert s1 == s.(device := s.device.(session := 0, reset := D.Zeroed(hello.session)));
    var s2 := Next(s1, CountersCleared);
    assert s2 == s1.(device := D.ClearCounters(s1.device));
    var s3 := Next(s2, QueuesCleared);
    assert s3 == s2.(device := D.ClearQueues(s2.device));
  }

  lemma AfterReturn(s: System, hello: Frame, c: byte)
    requires s.Wide() && HelloArrives(s, hello) && c < CHANNELS
    ensures Back(s, Onward(s, Adopt(hello)), hello.session, c)
  {
    hide Next, Back, Onward;
    Four(s, Adopt(hello));
    FourSteps(s, hello, c);
  }

  lemma Four(s: System, more: seq<Step>)
    requires s.Wide() && |more| == 4
    ensures Onward(s, more) == Next(Next(Next(Next(s, more[0]), more[1]), more[2]), more[3])
  {
    hide Next;
    assert more[..3][..2] == more[..2] && more[..2][..1] == more[..1] && more[..1][..0] == [];
    assert Onward(s, more[..1]) == Next(s, more[0]);
    assert Onward(s, more[..2]) == Next(Onward(s, more[..1]), more[1]);
    assert Onward(s, more[..3]) == Next(Onward(s, more[..2]), more[2]);
  }

  // A frame that the device took before the return it can take again.
  lemma ReturnRepeats(s: System, hello: Frame, first: Frame)
    requires s.Wide() && HelloArrives(s, hello)
    requires first in s.toDevice && D.Deliverable(first) && first.session == hello.session && first.sequence == 1
    ensures Onward(s, Adopt(hello) + [DeviceReceives(first)]).down == Take(s.down, first)
  {
    AfterReturn(s, hello, first.channel);
    var more := Adopt(hello) + [DeviceReceives(first)];
    assert more[..|more| - 1] == Adopt(hello);
    var t := Onward(s, Adopt(hello));
    assert Onward(s, more) == Next(t, DeviceReceives(first));
    hide Onward;
    assert D.Judge(t.device, first).Accept? && Enabled(t, DeviceReceives(first));
  }

  ghost predicate Delivers(s: System) { ExactlyOnce(s.down) && ExactlyOnce(s.up) }

  lemma TakenTwice(s: System, hello: Frame, c: byte)
    requires Inv(s) && Repeatable(s) && HelloArrives(s, hello) && c < CHANNELS
    requires At(s.down.got, Key(hello.session, c)) != []
    ensures exists t :: Leads(s, t) && !ExactlyOnce(t.down)
  {
    var k := Key(hello.session, c);
    var first := At(s.down.got, k)[0];
    assert InStep(s.down, k) && first == At(s.down.sent, k)[0];
    ReturnRepeats(s, hello, first);
    var t := Onward(s, Adopt(hello) + [DeviceReceives(first)]);
    assert Leads(s, t);
    hide Leads, Inv, HelloArrives, Repeatable, Onward;
    var n := |At(s.down.got, k)|;
    assert At(t.down.got, k) == At(s.down.got, k) + [first];
    assert At(t.down.got, k)[0] == At(t.down.got, k)[n];
  }

  lemma NumberedTwice(s: System, hello: Frame, c: byte)
    requires Inv(s) && HelloArrives(s, hello) && c < CHANNELS
    requires var w, k := s.device.lanes[c].worker, Key(hello.session, c);
             At(s.up.sent, k) != [] || (w.Cleared? && w.frame.session == hello.session)
    ensures exists t :: Leads(s, t) && !ExactlyOnce(t.up)
  {
    var t, f := ReturnRenumbers(s, hello, c);
    hide Leads, Inv, HelloArrives;
    var sent := At(t.up.sent, Key(hello.session, c));
    assert sent[|sent| - 1].sequence == 1;
  }

  // Together with ExactlyOnceDelivery: delivery holds in every run without a
  // return to a session that has left a trace, and whenever such a return is
  // possible some run breaks it.
  lemma ReturningBreaksDelivery(steps: seq<Step>, hello: Frame)
    requires NeverReturns(steps) && Returns(After(steps), DeviceReceives(hello))
    ensures exists more: seq<Step> :: !Delivers(After(steps + more))
  {
    var s := After(steps);
    RunKeepsInv(steps);
    TakenIsRepeatable(steps);
    hide After, Inv, Repeatable;
    var x := hello.session;
    var c: byte :| c < CHANNELS && Traces(s.device.lanes[c].worker, Key(x, c), s.down, s.up);
    if At(s.down.got, Key(x, c)) != [] {
      TakenTwice(s, hello, c);
      var t :| Leads(s, t) && !ExactlyOnce(t.down);
      Breaks(steps, t);
    } else {
      NumberedTwice(s, hello, c);
      var t :| Leads(s, t) && !ExactlyOnce(t.up);
      Breaks(steps, t);
    }
  }

  lemma Breaks(steps: seq<Step>, t: System)
    requires Leads(After(steps), t) && !Delivers(t)
    ensures exists more: seq<Step> :: !Delivers(After(steps + more))
  {
    var more: seq<Step> :| Onward(After(steps), more) == t;
    OnwardIsAfter(steps, more);
  }

  // ------------------------------------------------------------ a run that does

  const HELLO_1 := Frame(HELLO, 1, 0, 0, [])
  const HELLO_2 := Frame(HELLO, 2, 0, 0, [])
  const REQUEST := Frame(RPC, 1, 0, 1, [])

  const REQUEST_1 := [HostReceives(Frame(HELLO_ACK, 1, 0, 0, [])), HandshakeDone, SendBegins(0, RPC, []),
                      SendReacts(0, H.Queued), WriteChannel(0), DeviceReceives(REQUEST)]

  function Announce(session: u32): seq<Step> { [NewLink(session), QueueHello, WriteHigh] }

  // Connect, have one request accepted, close, connect again.
  function Reconnection(): seq<Step> {
    Announce(1) + Adopt(HELLO_1) + REQUEST_1 + [CloseLink] + Announce(2) + Adopt(HELLO_2)
  }

  // Left to right, with the check that no step returns to an old session.
  ghost predicate Plays(s: System, steps: seq<Step>, t: System)
    requires s.Wide()
    decreases |steps|
  {
    if steps == [] then s == t
    else !Returns(s, steps[0]) && Plays(Next(s, steps[0]), steps[1..], t)
  }

  lemma {:induction false} PlaysIsAfter(before: seq<Step>, steps: seq<Step>, t: System)
    requires NeverReturns(before) && Plays(After(before), steps, t)
    ensures NeverReturns(before + steps) && After(before + steps) == t
    decreases |steps|
  {
    hide Next;
    hide After;
    hide Returns;
    if steps == [] {
      assert before + steps == before;
    } else {
      var next := before + [steps[0]];
      AfterOne(before, steps[0]);
      forall n | 0 <= n < |next| ensures !Returns(After(next[..n]), next[n]) {
        if n < |before| { assert next[..n] == before[..n]; } else { assert next[..n] == before; }
      }
      PlaysIsAfter(next, steps[1..], t);
      assert next + steps[1..] == before + steps;
    }
  }

  lemma PlaysOne(s: System, step: Step, rest: seq<Step>, t: System)
    requires s.Wide() && !Returns(s, step) && Plays(Next(s, step), rest, t)
    ensures Plays(s, [step] + rest, t)
  {
  }

  // A session the device has never been in has left no trace.
  lemma NewIsUntraced(s: System, x: u32)
    requires Inv(s) && x !in s.adopted
    ensures !Traced(s, x)
  {
    forall c: byte | c < CHANNELS
      ensures !Traces(s.device.lanes[c].worker, Key(x, c), s.down, s.up)
    {
      assert LaneOk(s.device.lanes[c], c, StandingOf(s.device), s.adopted, s.down, s.up);
    }
  }

  lemma {:induction false} PlayingKeepsInv(s: System, steps: seq<Step>, t: System)
    requires Inv(s) && Plays(s, steps, t)
    ensures Inv(t)
    decreases |steps|
  {
    assert s.Wide();
    hide Inv, Next, Returns;
    if steps != [] {
      StepKeepsInv(s, steps[0]);
      PlayingKeepsInv(Next(s, steps[0]), steps[1..], t);
    }
  }

  // The device resets into a session announced by a HELLO on the wire.
  lemma PlaysAdoption(s: System, hello: Frame, c: byte) returns (t: System)
    requires Inv(s) && HelloArrives(s, hello) && hello.session !in s.adopted && c < CHANNELS
    ensures Plays(s, Adopt(hello), t)
    ensures t.Wide()
    ensures Back(s, t, hello.session, c)
  {
    AfterReturn(s, hello, c);
    Four(s, Adopt(hello));
    NewIsUntraced(s, hello.session);
    hide Next, Onward, Inv, Traced;
    var s1 := Next(s, DeviceReceives(hello));
    var s2 := Next(s1, CountersCleared);
    var s3 := Next(s2, QueuesCleared);
    t := Next(s3, SessionPublished);
    PlaysOne(s3, SessionPublished, [], t);
    PlaysOne(s2, QueuesCleared, [SessionPublished], t);
    PlaysOne(s1, CountersCleared, [QueuesCleared, SessionPublished], t);
    PlaysOne(s, DeviceReceives(hello), [CountersCleared, QueuesCleared, SessionPublished], t);
  }

  lemma {:induction false} PlaysBoth(s: System, a: seq<Step>, t: System, b: seq<Step>, u: System)
    requires s.Wide() && t.Wide() && Plays(s, a, t) && Plays(t, b, u)
    ensures Plays(s, a + b, u)
    decreases |a|
  {
    if a == [] {
      assert a + b == b;
    } else {
      PlaysBoth(Next(s, a[0]), a[1..], t, b, u);
      assert (a + b)[1..] == a[1..] + b;
    }
  }

  lemma PlaysAnnounce(s: System, session: u32) returns (t: System)
    requires s.Wide() && s.host.closed && session != 0 && session !in s.used
    ensures Plays(s, Announce(session), t)
    ensures t.Wide() && t == s.(host := H.NewHost(session), used := s.used + {session},
            toDevice := s.toDevice + {Frame(HELLO, session, 0, 0, [])})
  {
    var s1 := Next(s, NewLink(session));
    var s2 := Next(s1, QueueHello);
    t := Next(s2, WriteHigh);
    hide Next;
    PlaysOne(s2, WriteHigh, [], t);
    PlaysOne(s1, QueueHello, [WriteHigh], t);
    PlaysOne(s, NewLink(session), [QueueHello, WriteHigh], t);
  }

  lemma PlaysHandshake(s: System) returns (t: System)
    requires s.Wide() && s.host == H.NewHost(1) && Frame(HELLO_ACK, 1, 0, 0, []) in s.toHost
    ensures Plays(s, REQUEST_1[..2], t)
    ensures t.Wide() && t == s.(host := H.NewHost(1).(ready := true))
  {
    var s1 := Next(s, REQUEST_1[0]);
    t := Next(s1, HandshakeDone);
    assert REQUEST_1[..2] == [REQUEST_1[0], HandshakeDone];
    hide Next;
    PlaysOne(s1, HandshakeDone, [], t);
    PlaysOne(s, REQUEST_1[0], [HandshakeDone], t);
  }

  lemma PlaysRequest(s: System) returns (t: System)
    requires s.Wide() && s.host == H.NewHost(1).(ready := true) && s.down == NO_HISTORY
    ensures Plays(s, REQUEST_1[2..5], t)
    ensures t.Wide() && t == s.(host := t.host, toDevice := s.toDevice + {REQUEST}, down := Record(NO_HISTORY, REQUEST))
    ensures !t.host.closed
  {
    var s1 := Next(s, REQUEST_1[2]);
    var s2 := Next(s1, REQUEST_1[3]);
    t := Next(s2, REQUEST_1[4]);
    assert REQUEST_1[2..5] == [REQUEST_1[2], REQUEST_1[3], REQUEST_1[4]];
    hide Next;
    PlaysOne(s2, REQUEST_1[4], [], t);
    PlaysOne(s1, REQUEST_1[3], [REQUEST_1[4]], t);
    PlaysOne(s, REQUEST_1[2], [REQUEST_1[3], REQUEST_1[4]], t);
  }

  lemma PlaysTaking(s: System) returns (t: System)
    requires s.Wide() && REQUEST in s.toDevice && s.device.session == 1 && s.device.reset.Unlocked?
             && s.device.wrapped.None?
    requires s.device.lanes[0].rxNext == 1 && s.device.lanes[0].rx == [] && !s.host.closed
    ensures Plays(s, [REQUEST_1[5], CloseLink], t)
    ensures t.Wide() && t.host.closed && t.down == Take(s.down, REQUEST) && t.used == s.used && t.adopted == s.adopted
    ensures t.toDevice == s.toDevice && t.device.session == 1 && t.device.reset.Unlocked? && t.device.wrapped.None?
  {
    assert D.Judge(s.device, REQUEST).Accept?;
    var s1 := Next(s, REQUEST_1[5]);
    t := Next(s1, CloseLink);
    hide Next;
    PlaysOne(s1, CloseLink, [], t);
    PlaysOne(s, REQUEST_1[5], [CloseLink], t);
  }

  function Served(): seq<Step> { Announce(1) + Adopt(HELLO_1) + REQUEST_1 + [CloseLink] }

  // The first connection: one request is accepted, and the host closes.
  lemma PlaysServed(s0: System) returns (t: System)
    requires Inv(s0) && s0 == Init()
    ensures Plays(s0, Served(), t) && t.Wide() && t.host.closed && t.down == Take(Record(NO_HISTORY, REQUEST), REQUEST)
    ensures t.used == t.adopted == {1} && t.toDevice == {HELLO_1, REQUEST}
    ensures t.device.session == 1 && t.device.reset.Unlocked? && t.device.wrapped.None?
  {
    hide Plays, Next, Inv;
    var s1 := PlaysAnnounce(s0, 1);
    PlayingKeepsInv(s0, Announce(1), s1);
    var s2 := PlaysAdoption(s1, HELLO_1, 0);
    var s3 := PlaysHandshake(s2);
    var s4 := PlaysRequest(s3);
    t := PlaysTaking(s4);
    var a, b, c, d := Announce(1), Adopt(HELLO_1), REQUEST_1[..2], REQUEST_1[2..5];
    PlaysBoth(s0, a, s1, b, s2);
    PlaysBoth(s0, a + b, s2, c, s3);
    PlaysBoth(s0, a + b + c, s3, d, s4);
    PlaysBoth(s0, a + b + c + d, s4, [REQUEST_1[5], CloseLink], t);
    assert a + b + c + d + [REQUEST_1[5], CloseLink] == Served();
  }

  lemma ServedIsTraced(s: System)
    requires s.Wide() && At(s.down.got, Key(1, 0)) == [REQUEST]
    ensures Traced(s, 1)
  {
    assert Traces(s.device.lanes[0].worker, Key(1, 0), s.down, s.up);
  }

  lemma PlaysReconnection(s0: System) returns (t: System)
    requires Inv(s0) && s0 == Init()
    ensures t.Wide() && Plays(s0, Reconnection(), t)
    ensures t.down == Take(Record(NO_HISTORY, REQUEST), REQUEST)
    ensures t.device.session == 2 && HelloArrives(t, HELLO_1)
  {
    hide Plays, Next, Inv;
    var s5 := PlaysServed(s0);
    var s6 := PlaysAnnounce(s5, 2);
    PlaysBoth(s0, Served(), s5, Announce(2), s6);
    PlayingKeepsInv(s0, Served() + Announce(2), s6);
    t := PlaysAdoption(s6, HELLO_2, 0);
    PlaysBoth(s0, Served() + Announce(2), s6, Adopt(HELLO_2), t);
    assert Served() + Announce(2) + Adopt(HELLO_2) == Reconnection();
  }

  // Returning is possible: a host that reconnects while its first HELLO is
  // still somewhere on the link.
  lemma ReturnsHappen()
    ensures NeverReturns(Reconnection())
    ensures Returns(After(Reconnection()), DeviceReceives(HELLO_1))
    ensures At(After(Reconnection()).down.got, Key(1, 0)) == [REQUEST]
  {
    InitOk();
    var s0 := After([]);
    assert s0 == Init();
    hide Plays, Next, Inv, Traced, After, Reconnection;
    var t := PlaysReconnection(s0);
    PlaysIsAfter([], Reconnection(), t);
    assert [] + Reconnection() == Reconnection();
    ServedIsTraced(t);
  }
}
