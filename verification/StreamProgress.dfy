/**
  How a stream slot gets on.  No task of the device waits for ever for another:
  from every state some run empties both queues towards the device, and once
  the host has taken a Conn's CLOSE some run gives that Conn's slot back.
  */
module StreamProgress {
  import opened Frames
  import opened StreamSlot
  import opened StreamInv
  import opened StreamSafety

  // Some run leads from s to t.
  ghost predicate Leads(s: Slot, t: Slot)
    requires s.Shaped()
  {
    exists steps: seq<Step> :: After(s, steps) == t
  }

  lemma {:induction false} AfterBoth(s: Slot, a: seq<Step>, b: seq<Step>)
    requires s.Shaped()
    ensures After(s, a + b) == After(After(s, a), b)
    decreases |b|
  {
    hide Next;
    if b == [] {
      assert a + b == a;
    } else {
      var n := |b| - 1;
      assert (a + b)[..|a + b| - 1] == a + b[..n];
      AfterBoth(s, a, b[..n]);
    }
  }

  lemma Stays(s: Slot)
    requires s.Shaped()
    ensures Leads(s, s)
  {
    assert After(s, []) == s;
  }

  lemma Through(s: Slot, t: Slot, u: Slot)
    requires s.Shaped() && Leads(s, t) && t.Shaped() && Leads(t, u)
    ensures Leads(s, u)
  {
    var a: seq<Step> :| After(s, a) == t;
    var b: seq<Step> :| After(t, b) == u;
    AfterBoth(s, a, b);
  }

  lemma Moves(s: Slot, t: Slot, step: Step) returns (u: Slot)
    requires s.Shaped() && Leads(s, t) && t.Shaped()
    ensures u == Next(t, step) && Leads(s, u)
  {
    hide Next;
    var a: seq<Step> :| After(s, a) == t;
    assert (a + [step])[..|a + [step]| - 1] == a;
    u := Next(t, step);
    assert After(s, a + [step]) == u;
  }

  lemma IsShaped(s: Slot)
    requires Reachable(s)
    ensures s.Shaped()
  {
    var l: Leftover, steps: seq<Step> :| l.Valid() && s == After(Init(l), steps);
  }

  lemma StaysReachable(s: Slot, t: Slot)
    requires Reachable(s) && s.Shaped() && Leads(s, t)
    ensures Reachable(t)
  {
    var l: Leftover, a: seq<Step> :| l.Valid() && s == After(Init(l), a);
    var b: seq<Step> :| After(s, b) == t;
    AfterBoth(Init(l), a, b);
  }

  // ------------------------------------------------------------------ the device

  // Nothing has happened to the host, and the device has only sent more.
  predicate DeviceOnly(s: Slot, t: Slot) { t.host == s.host && t.taken == s.taken && s.emitted <= t.emitted }

  predicate TasksOnly(s: Slot, t: Slot) {
    DeviceOnly(s, t) && t.down == s.down && t.dev.rxq == s.dev.rxq && t.dev.rx == s.dev.rx
  }

  lemma OutgoingLetsGo(s: Slot) returns (t: Slot)
    requires s.Shaped()
    ensures Leads(s, t) && t.Shaped() && TasksOnly(s, t) && t.dev.incoming == s.dev.incoming && t.dev.dial == s.dev.dial
    ensures !t.dev.outgoing.OSend? && !t.dev.outgoing.OCloseSending?
  {
    Stays(s);
    t := s;
    if s.dev.outgoing.OSend? || s.dev.outgoing.OCloseSending? { t := Moves(s, s, OutgoingSends); }
  }

  // The holder of tx_guard, if it is another task, sends its message and lets go.
  lemma GuardIsFreed(s: Slot) returns (t: Slot)
    requires s.Shaped() && !s.dev.incoming.IFailSending? && !s.dev.incoming.ICloseSending?
    ensures Leads(s, t) && t.Shaped() && TasksOnly(s, t) && t.dev.incoming == s.dev.incoming && TxFree(t.dev)
  {
    t := OutgoingLetsGo(s);
    if t.dev.dial.DSending? { t := Moves(s, t, DialReports); }
  }

  // The turns incoming_task has yet to make for the message in its hands.
  function Turns(i: Incoming): nat {
    match i
    case IIdle => 0
    case IOpenCheck(_, _) => 2
    case IReject(_) => 1
    case IQueueFull(_) => 1
    case IWrite(_, _) => 3
    case IWriteFailed => 2
    case IFailSending(_) => 1
    case ICloseCheck => 6
    case ICloseSlot => 5
    case ICloseSending(_) => 4
    case IAfterClose => 3
    case ISendLoose => 2
    case IReset => 1
  }

  lemma TurnsShrink(d: Device)
    requires Handling(d.incoming) || d.incoming.IWriteFailed? || d.incoming.IFailSending?
    ensures Turns(IncomingClosing(d).incoming) < Turns(d.incoming)
    ensures var d' := IncomingClosing(d); d'.rxq == d.rxq && d'.rx == d.rx
  {
  }

  lemma WriteTurnsShrink(d: Device, ok: bool)
    requires d.incoming.IWrite?
    ensures Turns(IncomingWrite(d, ok, false).incoming) < Turns(d.incoming)
    ensures var d' := IncomingWrite(d, ok, false); d'.rxq == d.rxq && d'.rx == d.rx
  {
    hide StreamValid;
  }

  lemma ClosingGoesOn(s: Slot) returns (t: Slot)
    requires s.Shaped() && (s.dev.incoming.IWriteFailed? || s.dev.incoming.ICloseSlot? ==> TxFree(s.dev))
    requires Handling(s.dev.incoming) || s.dev.incoming.IWriteFailed? || s.dev.incoming.IFailSending?
    ensures Leads(s, t) && t.Shaped() && TasksOnly(s, t) && Turns(t.dev.incoming) < Turns(s.dev.incoming)
  {
    Stays(s);
    hide Leads, TxFree, IncomingClosing, Turns;
    TurnsShrink(s.dev);
    t := Moves(s, s, IncomingCloses);
  }

  lemma WritingGoesOn(s: Slot) returns (t: Slot)
    requires s.Shaped() && s.dev.incoming.IWrite?
    ensures Leads(s, t) && t.Shaped() && TasksOnly(s, t) && Turns(t.dev.incoming) < Turns(s.dev.incoming)
  {
    Stays(s);
    hide Leads, TxFree, IncomingWrite, Turns;
    WriteTurnsShrink(s.dev, true);
    t := Moves(s, s, IncomingWrites(true, false));
  }

  lemma OpeningGoesOn(s: Slot) returns (t: Slot)
    requires s.Shaped() && (s.dev.incoming.IOpenCheck? || s.dev.incoming.IReject? || s.dev.incoming.IQueueFull?)
    ensures Leads(s, t) && t.Shaped() && TasksOnly(s, t) && Turns(t.dev.incoming) < Turns(s.dev.incoming)
  {
    Stays(s);
    hide Leads, TxFree, StreamValid, Answer;
    if s.dev.incoming.IOpenCheck? {
      t := Moves(s, s, IncomingOpens(false));
    } else {
      t := Moves(s, s, IncomingAnswers);
    }
  }

  lemma IncomingGoesOn(s: Slot) returns (t: Slot)
    requires s.Shaped() && !s.dev.incoming.IIdle?
    requires s.dev.incoming.IWriteFailed? || s.dev.incoming.ICloseSlot? ==> TxFree(s.dev)
    ensures Leads(s, t) && t.Shaped() && TasksOnly(s, t) && Turns(t.dev.incoming) < Turns(s.dev.incoming)
  {
    hide Leads, TxFree, Turns, TasksOnly;
    match s.dev.incoming
    case IOpenCheck(_, _) => t := OpeningGoesOn(s);
    case IReject(_) => t := OpeningGoesOn(s);
    case IQueueFull(_) => t := OpeningGoesOn(s);
    case IWrite(_, _) => t := WritingGoesOn(s);
    case _ => t := ClosingGoesOn(s);
  }

  // incoming_task gets to the end of whatever message it works on.
  lemma {:induction false} IncomingFinishes(s: Slot) returns (t: Slot)
    requires s.Shaped()
    ensures Leads(s, t) && t.Shaped() && TasksOnly(s, t) && t.dev.incoming.IIdle?
    decreases Turns(s.dev.incoming)
  {
    hide Leads, TxFree, Next;
    if s.dev.incoming.IIdle? {
      Stays(s);
      t := s;
    } else {
      var u := s;
      Stays(s);
      if s.dev.incoming.IWriteFailed? || s.dev.incoming.ICloseSlot? { u := GuardIsFreed(s); }
      var v := IncomingGoesOn(u);
      t := IncomingFinishes(v);
      Through(s, u, v);
      Through(s, v, t);
    }
  }

  lemma {:induction false} ReceiveQueueEmpties(s: Slot) returns (t: Slot)
    requires s.Shaped()
    ensures Leads(s, t) && t.Shaped() && DeviceOnly(s, t) && t.down == s.down && t.dev.rx == s.dev.rx && t.dev.rxq == []
    decreases |s.dev.rxq|
  {
    hide Leads;
    if s.dev.rxq == [] {
      Stays(s);
      t := s;
    } else {
      var u := IncomingFinishes(s);
      var v := Moves(s, u, IncomingTakes);
      t := ReceiveQueueEmpties(v);
      Through(s, v, t);
    }
  }

  lemma ReceiverSettles(s: Slot) returns (t: Slot)
    requires s.Shaped()
    ensures Leads(s, t) && t.Shaped() && DeviceOnly(s, t) && t.down == s.down && t.dev.rxq == s.dev.rxq
            && t.dev.rx.RxIdle?
  {
    Stays(s);
    t := s;
    hide Leads;
    if t.dev.rx.RxStore? { t := Moves(s, t, RxStores); }
    if t.dev.rx.RxArm? { t := Moves(s, t, RxArms); }
  }

  // Whatever the host has sent can be delivered.
  lemma {:induction false} EverythingIsDelivered(s: Slot) returns (t: Slot)
    requires s.Shaped()
    ensures Leads(s, t) && t.Shaped() && DeviceOnly(s, t) && t.down == []
    decreases |s.down|
  {
    hide Leads;
    if s.down == [] {
      Stays(s);
      t := s;
    } else {
      var u := ReceiveQueueEmpties(s);
      var v := ReceiverSettles(u);
      Through(s, u, v);
      var w := Moves(s, v, RxTakes);
      t := EverythingIsDelivered(w);
      Through(s, w, t);
    }
  }

  // -------------------------------------------------------------------- the host

  function Ahead(p: Phase): nat {
    match p
    case Fresh => 5
    case Opening => 5
    case Live => 4
    case Draining(_) => 3
    case CloseSent => 2
    case CloseAcked => 1
  }

  lemma CloseGoesOn(s: Slot) returns (t: Slot)
    requires s.Shaped() && s.host.conn.Some? && s.host.conn.value.remoteClosed && !s.host.conn.value.phase.CloseAcked?
    requires s.down == []
    ensures Leads(s, t) && t.Shaped() && t.host.conn.Some? && t.host.conn.value.remoteClosed
    ensures t.host.ids == s.host.ids && t.taken == s.taken && t.emitted == s.emitted
    ensures Ahead(t.host.conn.value.phase) < Ahead(s.host.conn.value.phase)
  {
    Stays(s);
    hide Leads;
    match s.host.conn.value.phase
    case Fresh => t := Moves(s, s, HostGivesUpOpen);
    case Opening => t := Moves(s, s, HostOpenAcked);
    case Live => t := Moves(s, s, HostBeginsClose);
    case Draining(_) => t := Moves(s, s, HostSendsClose);
    case CloseSent => t := Moves(s, s, HostCloseAcked);
  }

  // Close comes to its end, and nothing more need be taken for that.
  lemma {:induction false} CloseCompletes(s: Slot) returns (t: Slot)
    requires s.Shaped() && s.host.conn.Some? && s.host.conn.value.remoteClosed
    ensures Leads(s, t) && t.Shaped() && t.host.conn.None?
    ensures t.host.ids == s.host.ids && t.taken == s.taken && s.emitted <= t.emitted
    decreases Ahead(s.host.conn.value.phase)
  {
    hide Leads;
    if s.host.conn.value.phase.CloseAcked? {
      Stays(s);
      t := Moves(s, s, HostFrees);
    } else {
      hide Next;
      var u := EverythingIsDelivered(s);
      var v := CloseGoesOn(u);
      t := CloseCompletes(v);
      Through(s, u, v);
      Through(s, v, t);
    }
  }

  // The host takes what was sent up to place k, reading where it has no room.
  lemma {:induction false} TakesUpTo(s: Slot, k: nat) returns (t: Slot)
    requires s.Shaped() && s.taken <= k <= |s.emitted|
    ensures Leads(s, t) && t.Shaped() && t.emitted == s.emitted && t.taken == k && t.host.ids == s.host.ids
    ensures t.dev == s.dev && t.down == s.down && (s.host.conn.None? ==> t.host.conn.None?)
    decreases k - s.taken, if s.host.conn.Some? then |s.host.conn.value.incoming| else 0
  {
    Stays(s);
    hide Leads;
    if s.taken == k {
      t := s;
    } else {
      var full := s.host.conn.Some? && |s.host.conn.value.incoming| >= 8;
      var u := Moves(s, s, if full then HostReads else HostAccepts);
      t := TakesUpTo(u, k);
      Through(s, u, t);
    }
  }
}
