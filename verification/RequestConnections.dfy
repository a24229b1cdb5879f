/**
  The tunnels of one HTTP request: dials of any number of goroutines against
  the close that runs when the handler is done, one critical section or
  blocking operation at a time.
  */
module RequestConnections {

  // A dial: counted in, with the dialer, holding what it returned, registered
  // but not yet counted out, or over.  A refused or failed dial returns no
  // connection.
  datatype Dial = Entered | AtDialer | Holding | Registered | Failing | Over

  datatype Closer = NotStarted | Waiting | Closing(next: nat) | Finished

  // A connection is named after the dial that made it.  returned, shut and
  // late are history; late: the dialer was reached after close's wait.
  datatype State = State(
    closed: bool, pending: int, connections: seq<nat>, dials: map<nat, Dial>, closer: Closer, slotFreed: bool,
    returned: set<nat>, shut: set<nat>, late: bool)

  datatype Step =
    | DialEnters(d: nat)
    | DialReaches(d: nat)
    | DialerReturns(d: nat, ok: bool)
    | DialRegisters(d: nat)
    | DialEnds(d: nat)
    | TransportCloses(c: nat)
    | CloseStarts
    | WaitEnds
    | CloseOne
    | SlotFreed

  function Init(): State { State(false, 0, [], map[], NotStarted, false, {}, {}, false) }

  predicate Enabled(s: State, step: Step) {
    match step
    case DialEnters(d) => d !in s.dials
    case DialReaches(d) => d in s.dials && s.dials[d].Entered?
    case DialerReturns(d, _) => d in s.dials && s.dials[d].AtDialer?
    case DialRegisters(d) => d in s.dials && s.dials[d].Holding?
    case DialEnds(d) => d in s.dials && (s.dials[d].Registered? || s.dials[d].Failing?)
    case TransportCloses(c) => c in s.connections
    case CloseStarts => s.closer.NotStarted?
    case WaitEnds => s.closer.Waiting? && s.pending == 0
    case CloseOne => s.closer.Closing?
    case SlotFreed => s.closer.Finished?
  }

  function Next(s: State, step: Step): State {
    if !Enabled(s, step) then s
    else
      match step
      case DialEnters(d) =>
        if s.closed then s.(dials := s.dials[d := Over])
        else s.(pending := s.pending + 1, dials := s.dials[d := Entered])
      case DialReaches(d) => s.(dials := s.dials[d := AtDialer], late := s.late || Past(s.closer))
      case DialerReturns(d, ok) =>
        if ok then s.(dials := s.dials[d := Holding], returned := s.returned + {d})
        else s.(dials := s.dials[d := Failing])
      case DialRegisters(d) => s.(connections := s.connections + [d], dials := s.dials[d := Registered])
      case DialEnds(d) => s.(pending := s.pending - 1, dials := s.dials[d := Over])
      case TransportCloses(c) => s.(shut := s.shut + {c})
      case CloseStarts => s.(closed := true, closer := Waiting)
      case WaitEnds => s.(closer := Closing(0))
      case CloseOne =>
        var i := s.closer.next;
        if i < |s.connections| then s.(shut := s.shut + {s.connections[i]}, closer := Closing(i + 1))
        else s.(closer := Finished)
      case SlotFreed => s.(slotFreed := true)
  }

  function After(steps: seq<Step>): State {
    if steps == [] then Init() else Next(After(steps[..|steps| - 1]), steps[|steps| - 1])
  }

  // -------------------------------------------------------------- the invariant

  function Running(m: map<nat, Dial>): set<nat> { set d | d in m && !m[d].Over? }

  predicate Past(c: Closer) { c.Closing? || c.Finished? }

  function Done(s: State): nat {
    match s.closer
    case Closing(i) => i
    case Finished => |s.connections|
    case _ => 0
  }

  predicate Inv(s: State) {
    && s.pending == |Running(s.dials)|
    && s.closed == !s.closer.NotStarted? && !s.late
    && (Past(s.closer) ==> s.pending == 0)
    && (forall d | d in s.returned :: d in s.connections || (d in s.dials && s.dials[d].Holding?))
    && (forall d | d in s.connections :: d in s.dials && (s.dials[d].Registered? || s.dials[d].Over?))
    && (forall i, j | 0 <= i < j < |s.connections| :: s.connections[i] != s.connections[j])
    && (forall d | d in s.shut :: d in s.connections)
    && Done(s) <= |s.connections|
    && (forall i | 0 <= i < Done(s) :: s.connections[i] in s.shut)
    && (s.slotFreed ==> s.closer.Finished?)
  }

  lemma Runs(m: map<nat, Dial>, d: nat, p: Dial)
    ensures Running(m[d := p]) == if p.Over? then Running(m) - {d} else Running(m) + {d}
  {
  }

  predicate IsDial(step: Step) {
    step.DialEnters? || step.DialReaches? || step.DialerReturns? || step.DialRegisters? || step.DialEnds?
  }

  // A dial under way is counted, so the wait is not over.
  lemma DialIsCounted(s: State, step: Step)
    requires Inv(s) && Enabled(s, step) && IsDial(step)
    ensures Next(s, step).pending == |Running(Next(s, step).dials)|
    ensures !step.DialEnters? ==> s.pending > 0
  {
    var d, p := step.d, Next(s, step).dials[step.d];
    Runs(s.dials, d, p);
    if d in s.dials {
      assert d in Running(s.dials);
      assert Running(s.dials) + {d} == Running(s.dials);
    } else {
      assert d !in Running(s.dials);
      assert Running(s.dials) - {d} == Running(s.dials);
    }
    hide Running;
  }

  // A connection joins the others.
  lemma RegisteringKeepsInv(s: State, d: nat)
    requires Inv(s) && Enabled(s, DialRegisters(d))
    ensures Inv(Next(s, DialRegisters(d)))
  {
    DialIsCounted(s, DialRegisters(d));
    hide Running;
    var s' := Next(s, DialRegisters(d));
    assert d !in s.connections;
    assert forall e :: e in s'.connections <==> e in s.connections || e == d;
  }

  lemma DialKeepsInv(s: State, step: Step)
    requires Inv(s) && Enabled(s, step) && IsDial(step)
    ensures Inv(Next(s, step))
  {
    if step.DialRegisters? {
      RegisteringKeepsInv(s, step.d);
    } else {
      DialIsCounted(s, step);
      hide Running;
    }
  }

  lemma StepKeepsInv(s: State, step: Step)
    requires Inv(s)
    ensures Inv(Next(s, step))
  {
    if Enabled(s, step) {
      if IsDial(step) {
        DialKeepsInv(s, step);
      }
    }
  }

  lemma {:induction false} RunKeepsInv(steps: seq<Step>)
    ensures Inv(After(steps))
    decreases |steps|
  {
    if steps != [] {
      var n := |steps| - 1;
      RunKeepsInv(steps[..n]);
      hide Inv, Next;
      StepKeepsInv(After(steps[..n]), steps[n]);
    }
  }

  // When close has finished, every connection the dialer ever returned has
  // been closed and no dial is under way; no dial reaches the dialer once
  // close's wait is over, though a dial counted before close began may reach it
  // until then; the request's slot is given back only after that.
  lemma NoTunnelLeaks(steps: seq<Step>)
    ensures var s := After(steps);
            (s.closer.Finished? ==> s.returned <= s.shut && forall d | d in s.dials :: s.dials[d].Over?)
            && !s.late && (s.slotFreed ==> s.closer.Finished?)
  {
    RunKeepsInv(steps);
    var s := After(steps);
    if s.closer.Finished? {
      forall d | d in s.dials ensures s.dials[d].Over? { assert d !in Running(s.dials); }
      forall d | d in s.returned ensures d in s.shut {
        assert d in s.connections;
        var i :| 0 <= i < |s.connections| && s.connections[i] == d;
      }
    }
  }

  // ------------------------------------------------------------------ progress

  // A dial from beginning to end, the dialer succeeding.
  function Dialled(s: State, d: nat): State {
    var called := Next(Next(s, DialEnters(d)), DialReaches(d));
    Next(Next(Next(called, DialerReturns(d, true)), DialRegisters(d)), DialEnds(d))
  }

  // After any run a dial that begins before close gets its connection, which
  // nobody has closed; one that begins later is refused, and the dialer never
  // hears of it.
  lemma DialGetsThrough(steps: seq<Step>, d: nat)
    requires d !in After(steps).dials
    ensures var s, t := After(steps), Dialled(After(steps), d);
            t.dials == s.dials[d := Over] && t.pending == s.pending && t.closer == s.closer && t.shut == s.shut
            && if s.closer.NotStarted? then
                 t.connections == s.connections + [d] && t.returned == s.returned + {d} && d !in t.shut
               else t.connections == s.connections && t.returned == s.returned
  {
    RunKeepsInv(steps);
    var s := After(steps);
    assert s.closed == !s.closer.NotStarted? && d !in s.connections && d !in s.shut;
    hide After, Inv;
    assert s.dials[d := Entered][d := AtDialer][d := Holding][d := Registered][d := Over] == s.dials[d := Over];
  }

  function Played(s: State, steps: seq<Step>): State
    decreases |steps|
  {
    if steps == [] then s else Played(Next(s, steps[0]), steps[1..])
  }

  // Turns a dial has yet to take.
  function Left(p: Dial): nat {
    match p
    case Entered => 4
    case AtDialer => 3
    case Holding => 2
    case Registered => 1
    case Failing => 1
    case Over => 0
  }

  function Onward(p: Dial, d: nat): Step
    requires !p.Over?
  {
    match p
    case Entered => DialReaches(d)
    case AtDialer => DialerReturns(d, false)
    case Holding => DialRegisters(d)
    case _ => DialEnds(d)
  }

  lemma DialGoesOn(s: State, d: nat)
    requires d in s.dials && !s.dials[d].Over?
    ensures var t := Next(s, Onward(s.dials[d], d));
            t.closer == s.closer && t.dials.Keys == s.dials.Keys && Left(t.dials[d]) < Left(s.dials[d])
            && t.dials == s.dials[d := t.dials[d]]
  {
  }

  // Every dial under way can end, whatever close is doing.
  lemma {:induction false} DialEndsAlone(s: State, d: nat) returns (t: State, steps: seq<Step>)
    requires Inv(s) && d in s.dials
    ensures t == Played(s, steps) && Inv(t) && t.closer == s.closer && Running(t.dials) == Running(s.dials) - {d}
    decreases Left(s.dials[d])
  {
    t, steps := s, [];
    if !s.dials[d].Over? {
      var step := Onward(s.dials[d], d);
      DialGoesOn(s, d);
      StepKeepsInv(s, step);
      var u := Next(s, step);
      Runs(s.dials, d, u.dials[d]);
      hide Inv, Next, Left, Running;
      var rest;
      t, rest := DialEndsAlone(u, d);
      steps := [step] + rest;
      assert steps[1..] == rest;
    }
  }

  lemma {:induction false} PlayedBoth(s: State, a: seq<Step>, b: seq<Step>)
    ensures Played(s, a + b) == Played(Played(s, a), b)
    decreases |a|
  {
    if a == [] {
      assert a + b == b;
    } else {
      assert (a + b)[1..] == a[1..] + b;
      PlayedBoth(Next(s, a[0]), a[1..], b);
    }
  }

  lemma {:induction false} AllDialsEnd(s: State) returns (t: State, steps: seq<Step>)
    requires Inv(s)
    ensures t == Played(s, steps) && Inv(t) && t.closer == s.closer && Running(t.dials) == {}
    decreases Running(s.dials)
  {
    t, steps := s, [];
    if Running(s.dials) != {} {
      var d :| d in Running(s.dials);
      var u, a := DialEndsAlone(s, d);
      hide Inv;
      var b;
      t, b := AllDialsEnd(u);
      PlayedBoth(s, a, b);
      steps := a + b;
    }
  }

  lemma {:induction false} SweepEnds(s: State) returns (steps: seq<Step>)
    requires Inv(s) && s.closer.Closing?
    ensures Played(s, steps).closer.Finished?
    decreases |s.connections| - Done(s)
  {
    StepKeepsInv(s, CloseOne);
    var t := Next(s, CloseOne);
    steps := [CloseOne];
    assert steps[1..] == [];
    if t.closer.Closing? {
      hide Inv;
      var rest := SweepEnds(t);
      steps := [CloseOne] + rest;
      assert steps[1..] == rest;
    }
  }

  // From every state some run lets close finish: it waits for no dial for ever.
  lemma CloseCanFinish(steps: seq<Step>) returns (more: seq<Step>)
    ensures Played(After(steps), more).closer.Finished?
  {
    RunKeepsInv(steps);
    hide After;
    var s := After(steps);
    StepKeepsInv(s, CloseStarts);
    var t, a := AllDialsEnd(Next(s, CloseStarts));
    StepKeepsInv(t, WaitEnds);
    var u := Next(t, WaitEnds);
    hide Inv;
    var b := [];
    if u.closer.Closing? { b := SweepEnds(u); }
    assert Played(t, [WaitEnds] + b) == Played(u, b) by { assert ([WaitEnds] + b)[1..] == b; }
    PlayedBoth(Next(s, CloseStarts), a, [WaitEnds] + b);
    more := [CloseStarts] + (a + ([WaitEnds] + b));
    assert more[1..] == a + ([WaitEnds] + b);
  }

  // ---------------------------------------------------------------------- the code

  // A raw connection, closed at most once however many callers close it.
  class OwnedConn {
    var once: bool
    ghost var closes: nat            // times the wrapped connection was closed

    ghost predicate Valid()
      reads this
    {
      closes == if once then 1 else 0
    }

    constructor ()
      ensures Valid() && !once
    {
      once, closes := false, 0;
    }

    method Close()
      requires Valid()
      modifies this
      ensures Valid() && once && closes == 1
    {
      if !once {
        once := true;
        closes := closes + 1;
      }
    }
  }

  // close's sweep over the first n connections.
  function Swept(s: State, n: nat): State {
    if n == 0 then s else Next(Swept(s, n - 1), CloseOne)
  }

  class Connections {
    var closed: bool
    var pending: int
    var connections: seq<OwnedConn>

    // The object stands where state s of the run is.
    ghost predicate Shows(s: State)
      reads this, connections
    {
      && closed == s.closed && pending == s.pending && |connections| == |s.connections|
      && (forall i | 0 <= i < |connections| ::
            connections[i].Valid() && (connections[i].once <==> s.connections[i] in s.shut))
      && (forall i, j | 0 <= i < j < |connections| :: connections[i] != connections[j])
    }

    constructor ()
      ensures Shows(Init())
    {
      closed, pending, connections := false, 0, [];
    }

    // dial, up to the call of the dialer
    method Enter(ghost s: State, ghost d: nat) returns (ok: bool)
      requires Shows(s) && d !in s.dials
      modifies this
      ensures Shows(Next(s, DialEnters(d))) && ok == Next(s, DialEnters(d)).dials[d].Entered?
      ensures ok == !old(closed) && pending == old(pending) + if ok then 1 else 0
    {
      if closed { return false; }
      pending := pending + 1;
      return true;
    }

    // dial, once the dialer has returned a connection
    method Register(ghost s: State, ghost d: nat) returns (c: OwnedConn)
      requires Shows(s) && Inv(s) && Enabled(s, DialRegisters(d))
      modifies this
      ensures fresh(c) && !c.once && connections == old(connections) + [c]
      ensures Shows(Next(s, DialRegisters(d)))
    {
      assert d !in s.connections;
      c := new OwnedConn();
      connections := connections + [c];
    }

    // dial's deferred end
    method Leave(ghost s: State, ghost d: nat)
      requires Shows(s) && Enabled(s, DialEnds(d))
      modifies this
      ensures Shows(Next(s, DialEnds(d)))
    {
      pending := pending - 1;
    }

    // The transport, or anyone else, closes the i-th connection.
    method CloseConnection(ghost s: State, i: nat)
      requires Shows(s) && Inv(s) && i < |connections|
      modifies connections[i]
      ensures Shows(Next(s, TransportCloses(s.connections[i])))
    {
      connections[i].Close();
    }

    // close, up to the wait
    method Shut(ghost s: State)
      requires Shows(s) && Enabled(s, CloseStarts)
      modifies this
      ensures Shows(Next(s, CloseStarts))
    {
      closed := true;
    }

    // One turn of close's loop.
    method CloseNext(ghost s: State, i: nat)
      requires Shows(s) && Inv(s) && s.closer == Closing(i) && i < |connections|
      modifies connections[i]
      ensures Shows(Next(s, CloseOne)) && Inv(Next(s, CloseOne)) && Next(s, CloseOne).closer == Closing(i + 1)
    {
      StepKeepsInv(s, CloseOne);
      connections[i].Close();
    }

    // The rest of close, when the wait is over.
    method CloseAll(ghost s: State)
      requires Shows(s) && Inv(s) && Enabled(s, WaitEnds)
      modifies connections
      ensures var t := Swept(Next(s, WaitEnds), |connections| + 1); Shows(t) && t.closer.Finished?
      ensures forall c | c in connections :: c.once && c.closes == 1
    {
      ghost var t := Next(s, WaitEnds);
      StepKeepsInv(s, WaitEnds);
      assert Shows(t) && t.closer == Closing(0);
      hide Inv, Next;
      for i := 0 to |connections|
        invariant Shows(Swept(t, i)) && Inv(Swept(t, i)) && Swept(t, i).closer == Closing(i)
      {
        hide Shows;
        CloseNext(Swept(t, i), i);
      }
      AllAreShut(Swept(t, |connections|));
    }

    lemma AllAreShut(s: State)
      requires Shows(s) && Inv(s) && s.closer == Closing(|connections|)
      ensures forall c | c in connections :: c.once && c.closes == 1
      ensures Shows(Next(s, CloseOne)) && Next(s, CloseOne).closer.Finished?
    {
      forall i | 0 <= i < |connections| ensures connections[i].once { assert s.connections[i] in s.shut; }
    }
  }
}
