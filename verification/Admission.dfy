/**
  Request admission against maintenance: any number of requests run the
  admission sequence of the gateway, one atomic operation at a time, against a
  management side that pauses and resumes it.
  */
module Admission {
  import opened Frames

  // Where a request stands.  Loaded holds the count it read.  Leaving: turned
  // away by the second check, its slot not yet given back.
  datatype Place = Arriving | Cleared | Loaded(n: int) | Admitted | Serving | Leaving

  // Management calls are serialized by their own lock; Swapped is between the
  // two operations of Pause.
  datatype Admin = Free | Swapped | Paused

  datatype State = State(active: int, maintenance: bool, admin: Admin, requests: map<nat, Place>)

  datatype Step =
    | Arrives(r: nat)
    | FirstCheck(r: nat)
    | Loads(r: nat)
    | Swaps(r: nat)
    | SecondCheck(r: nat)
    | Finishes(r: nat)
    | PauseSwaps
    | PauseLoads
    | Resumes

  function Init(): State { State(0, false, Free, map[]) }

  predicate HoldsSlot(p: Place) { p.Admitted? || p.Serving? || p.Leaving? }

  function Holders(m: map<nat, Place>): set<nat> { set r | r in m && HoldsSlot(m[r]) }

  predicate Enabled(s: State, step: Step) {
    match step
    case Arrives(r) => r !in s.requests
    case FirstCheck(r) => r in s.requests && s.requests[r].Arriving?
    case Loads(r) => r in s.requests && s.requests[r].Cleared?
    case Swaps(r) => r in s.requests && s.requests[r].Loaded?
    case SecondCheck(r) => r in s.requests && s.requests[r].Admitted?
    case Finishes(r) => r in s.requests && (s.requests[r].Serving? || s.requests[r].Leaving?)
    case PauseSwaps => s.admin.Free?
    case PauseLoads => s.admin.Swapped?
    case Resumes => !s.admin.Swapped?
  }

  function Next(s: State, max: nat, step: Step): State {
    if !Enabled(s, step) then s
    else
      match step
      case Arrives(r) => s.(requests := s.requests[r := Arriving])
      case FirstCheck(r) =>
        s.(requests := if s.maintenance then s.requests - {r} else s.requests[r := Cleared])
      case Loads(r) =>
        s.(requests := if s.active >= max then s.requests - {r} else s.requests[r := Loaded(s.active)])
      case Swaps(r) =>
        if s.active == s.requests[r].n then s.(active := s.active + 1, requests := s.requests[r := Admitted])
        else s.(requests := s.requests[r := Cleared])
      case SecondCheck(r) => s.(requests := s.requests[r := if s.maintenance then Leaving else Serving])
      case Finishes(r) => s.(active := s.active - 1, requests := s.requests - {r})
      case PauseSwaps => if s.maintenance then s else s.(maintenance := true, admin := Swapped)
      case PauseLoads => if s.active != 0 then s.(maintenance := false, admin := Free) else s.(admin := Paused)
      case Resumes => s.(maintenance := false, admin := Free)
  }

  function After(max: nat, steps: seq<Step>): State {
    if steps == [] then Init() else Next(After(max, steps[..|steps| - 1]), max, steps[|steps| - 1])
  }

  predicate Inv(s: State, max: nat) {
    && s.active == |Holders(s.requests)| <= max
    && s.maintenance == !s.admin.Free?
    && (s.admin.Paused? ==> forall r | r in s.requests :: !s.requests[r].Serving?)
    && (forall r | r in s.requests :: s.requests[r].Loaded? ==> s.requests[r].n < max)
  }

  lemma Moves(m: map<nat, Place>, r: nat, p: Place)
    ensures Holders(m[r := p]) == if HoldsSlot(p) then Holders(m) + {r} else Holders(m) - {r}
    ensures Holders(m - {r}) == Holders(m) - {r}
  {
  }

  function Slot(m: map<nat, Place>, r: nat): nat { if r in m && HoldsSlot(m[r]) then 1 else 0 }

  // A request may move if the counter moves with the slots it holds.
  lemma MoveKeepsInv(s: State, max: nat, r: nat, p: Place, active: int)
    requires Inv(s, max) && active <= max && active == s.active + (if HoldsSlot(p) then 1 else 0) - Slot(s.requests, r)
    requires (s.admin.Paused? ==> !p.Serving?) && (p.Loaded? ==> p.n < max)
    ensures Inv(s.(active := active, requests := s.requests[r := p]), max)
  {
    Moves(s.requests, r, p);
    assert r in Holders(s.requests) <==> Slot(s.requests, r) == 1;
    hide Holders;
  }

  lemma LeaveKeepsInv(s: State, max: nat, r: nat)
    requires Inv(s, max)
    ensures Inv(s.(active := s.active - Slot(s.requests, r), requests := s.requests - {r}), max)
  {
    Moves(s.requests, r, Arriving);
    assert r in Holders(s.requests) <==> Slot(s.requests, r) == 1;
    hide Holders;
  }

  lemma RequestKeepsInv(s: State, max: nat, step: Step)
    requires Inv(s, max) && Enabled(s, step)
    requires step.Arrives? || step.FirstCheck? || step.Loads? || step.Swaps? || step.SecondCheck? || step.Finishes?
    ensures Inv(Next(s, max, step), max)
  {
    var r := step.r;
    LeaveKeepsInv(s, max, r);
    match step
    case Arrives(_) => MoveKeepsInv(s, max, r, Arriving, s.active);
    case FirstCheck(_) => MoveKeepsInv(s, max, r, Cleared, s.active);
    case Loads(_) => if s.active < max { MoveKeepsInv(s, max, r, Loaded(s.active), s.active); }
    case Swaps(_) =>
      MoveKeepsInv(s, max, r, Cleared, s.active);
      if s.active == s.requests[r].n { MoveKeepsInv(s, max, r, Admitted, s.active + 1); }
    case SecondCheck(_) => MoveKeepsInv(s, max, r, if s.maintenance then Leaving else Serving, s.active);
    case Finishes(_) =>
  }

  lemma AdminKeepsInv(s: State, max: nat, step: Step)
    requires Inv(s, max) && (step.PauseSwaps? || step.PauseLoads? || step.Resumes?)
    ensures Inv(Next(s, max, step), max)
  {
    if step.PauseLoads? && s.active == 0 {
      assert Holders(s.requests) == {};
      forall r | r in s.requests ensures !s.requests[r].Serving? {
        assert r !in Holders(s.requests);
      }
    }
  }

  lemma StepKeepsInv(s: State, max: nat, step: Step)
    requires Inv(s, max)
    ensures Inv(Next(s, max, step), max)
  {
    if Enabled(s, step) {
      hide Inv;
      if step.PauseSwaps? || step.PauseLoads? || step.Resumes? {
        AdminKeepsInv(s, max, step);
      } else {
        RequestKeepsInv(s, max, step);
      }
    }
  }

  lemma {:induction false} RunKeepsInv(max: nat, steps: seq<Step>)
    ensures Inv(After(max, steps), max)
    decreases |steps|
  {
    if steps != [] {
      var n := |steps| - 1;
      RunKeepsInv(max, steps[..n]);
      hide Inv, Next;
      StepKeepsInv(After(max, steps[..n]), max, steps[n]);
    }
  }

  // From a Pause that succeeded to the Resume that ends it, no request is past
  // its second check.
  lemma MaintenanceIsExclusive(max: nat, steps: seq<Step>, r: nat)
    requires After(max, steps).admin.Paused?
    ensures r in After(max, steps).requests ==> !After(max, steps).requests[r].Serving?
  {
    RunKeepsInv(max, steps);
  }

  // The counter is exactly the number of slots held, and within the limit.
  lemma CounterIsExact(max: nat, steps: seq<Step>)
    ensures var s := After(max, steps);
            s.active == |Holders(s.requests)| && 0 <= s.active <= max
  {
    RunKeepsInv(max, steps);
  }

  // A Pause that fails leaves requests as they were, and it fails exactly when
  // some slot is held or maintenance is already on.
  lemma PauseFailsOnlyWhenBusy(max: nat, steps: seq<Step>)
    requires After(max, steps).admin.Free?
    ensures var s := After(max, steps);
            var s' := Next(Next(s, max, PauseSwaps), max, PauseLoads);
            s'.requests == s.requests && s'.active == s.active
            && (s'.admin.Paused? <==> Holders(s.requests) == {}) && (!s'.admin.Paused? ==> s' == s)
  {
    RunKeepsInv(max, steps);
  }

  // One request from its arrival to its second check with nothing in between.
  function Alone(s: State, max: nat, r: nat): State {
    var checked := Next(Next(s, max, Arrives(r)), max, FirstCheck(r));
    Next(Next(Next(checked, max, Loads(r)), max, Swaps(r)), max, SecondCheck(r))
  }

  // After any run such a request is served, and holds one slot, if the gateway
  // is not in maintenance and below its limit; otherwise it leaves no trace.
  lemma AloneIsServed(max: nat, steps: seq<Step>, r: nat)
    requires r !in After(max, steps).requests
    ensures var s := After(max, steps);
            var t := Alone(s, max, r);
            if s.admin.Free? && s.active < max then
              t.requests == s.requests[r := Serving] && t.active == s.active + 1 && !t.maintenance
            else t == s
  {
    RunKeepsInv(max, steps);
    hide After, Inv;
    var s := After(max, steps);
    var arrived := Next(s, max, Arrives(r));
    assert s.requests[r := Arriving] - {r} == s.requests;
    assert s.requests[r := Cleared] - {r} == s.requests;
    assert s.maintenance == !s.admin.Free? by { RunKeepsInv(max, steps); MaintenanceIsAdmins(max, steps); }
    assert s.requests[r := Arriving][r := Cleared] == s.requests[r := Cleared];
    assert s.requests[r := Cleared][r := Loaded(s.active)][r := Admitted][r := Serving] == s.requests[r := Serving];
  }

  lemma MaintenanceIsAdmins(max: nat, steps: seq<Step>)
    ensures After(max, steps).maintenance == !After(max, steps).admin.Free?
  {
    RunKeepsInv(max, steps);
  }

  // From every state some run gives every slot back, so that a Pause succeeds.
  lemma {:induction false} SlotsCanDrain(s: State, max: nat) returns (steps: seq<Step>)
    requires Inv(s, max) && s.admin.Free?
    ensures var t := Played(s, max, steps);
            Next(Next(t, max, PauseSwaps), max, PauseLoads).admin.Paused?
    decreases Holders(s.requests)
  {
    if Holders(s.requests) == {} {
      steps := [];
    } else {
      var r :| r in Holders(s.requests);
      var s1 := Next(s, max, SecondCheck(r));
      var s2 := Next(s1, max, Finishes(r));
      StepKeepsInv(s, max, SecondCheck(r));
      StepKeepsInv(s1, max, Finishes(r));
      Moves(s.requests, r, Serving);
      Moves(s1.requests, r, Serving);
      hide Inv, Holders;
      var rest := SlotsCanDrain(s2, max);
      steps := [SecondCheck(r), Finishes(r)] + rest;
      assert steps[1..][1..] == rest && steps[1..][0] == Finishes(r);
    }
  }

  function Played(s: State, max: nat, steps: seq<Step>): State
    decreases |steps|
  {
    if steps == [] then s else Played(Next(s, max, steps[0]), max, steps[1..])
  }

  // ---------------------------------------------------------------- the code's loops

  // The compare-and-swap loop; interference[i] is what active is by attempt i's
  // load, and by its swap.
  method Admit(max: nat, interference: seq<(int, int)>) returns (admitted: Option<int>, tries: nat)
    requires interference != []
    ensures tries <= |interference|
    ensures admitted.Some? ==>
              0 < tries && interference[tries - 1].0 == interference[tries - 1].1 < max
              && admitted.value == interference[tries - 1].1 + 1 <= max
    ensures forall i | 0 <= i < tries - 1 :: interference[i].0 != interference[i].1 && interference[i].0 < max
    ensures admitted.None? ==>
              0 < tries
              && (interference[tries - 1].0 >= max
                  || (tries == |interference| && interference[tries - 1].0 != interference[tries - 1].1))
  {
    tries := 0;
    while tries < |interference|
      invariant tries <= |interference|
      invariant forall i | 0 <= i < tries :: interference[i].0 != interference[i].1 && interference[i].0 < max
    {
      var n := interference[tries].0;
      tries := tries + 1;
      if n >= max { return None, tries; }
      if interference[tries - 1].1 == n { return Some(n + 1), tries; }
    }
    admitted := None;
  }

  type Bytes = seq<byte>

  const CHUNK := 1024

  // idleConn.Write over a connection that takes takes[i] bytes of piece i and
  // may then fail.  What is reported written is what was written, no piece is
  // larger than a chunk, and success means everything was.
  method WriteInChunks(b: Bytes, takes: seq<(nat, bool)>)
    returns (total: nat, ok: bool, pieces: seq<Bytes>, written: Bytes)
    requires |takes| >= |b| && forall i | 0 <= i < |takes| :: takes[i].0 <= CHUNK
    ensures total <= |b| && written == b[..total]
    ensures forall i | 0 <= i < |pieces| :: 0 < |pieces[i]| <= CHUNK
    ensures ok ==> total == |b|
    ensures |pieces| <= |takes|
    ensures !ok ==> pieces != [] && (takes[|pieces| - 1].1 || takes[|pieces| - 1].0 == 0)
  {
    total, pieces, written, ok := 0, [], [], true;
    var rest := b;
    while rest != []
      invariant total <= |b| && rest == b[total..] && written == b[..total]
      invariant |pieces| <= total
      invariant forall i | 0 <= i < |pieces| :: 0 < |pieces[i]| <= CHUNK
      decreases |rest|
    {
      var chunk := if |rest| > CHUNK then rest[..CHUNK] else rest;
      var (n0, failed) := takes[|pieces|];
      var n := if n0 > |chunk| then |chunk| else n0;
      pieces := pieces + [chunk];
      written := written + chunk[..n];
      total := total + n;
      rest := rest[n..];
      if failed { return total, false, pieces, written; }
      if n == 0 { return total, false, pieces, written; }
    }
  }
}
