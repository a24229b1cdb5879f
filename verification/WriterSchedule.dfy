/**
  The single writer that serves a priority queue and a ring of channel queues.
  Producers push and then signal; the writer looks at one queue at a time, so
  pushes can slip in behind its cursor.  The device serves its four management
  lanes with the same cursor, hence the number of queues is a parameter.
  */
module WriterSchedule {
  datatype Writer =
    | Top                  // about to look at the priority queue
    | Scanning(i: nat)     // looked at i channel queues since the cursor
    | Waiting              // blocked until a wake token arrives
    | Writing

  // signalling: producers that have pushed and not yet offered the token.
  datatype State = State(writer: Writer, next: nat, high: nat, queues: seq<nat>, wake: bool, signalling: nat)
  {
    predicate Shaped() { next < |queues| && (writer.Scanning? ==> writer.i < |queues|) }
  }

  datatype Step =
    | PushHigh
    | Push(queue: nat)
    | Signal
    | LookHigh
    | LookNext
    | Wake
    | Written

  function Init(n: nat): (s: State)
    requires n > 0
    ensures s.Shaped()
  {
    State(Top, 0, 0, seq(n, _ => 0), false, 0)
  }

  function Slot(s: State, i: nat): (j: nat)
    requires s.Shaped()
    ensures j < |s.queues|
  {
    (s.next + i) % |s.queues|
  }

  // The channel LookNext would serve now, if any.
  predicate Serves(s: State, step: Step, j: nat)
    requires s.Shaped()
  {
    step.LookNext? && s.writer.Scanning? && Slot(s, s.writer.i) == j && s.queues[j] > 0
  }

  function Next(s: State, step: Step): (s': State)
    requires s.Shaped()
    ensures s'.Shaped() && |s'.queues| == |s.queues|
  {
    match step
    case PushHigh => s.(high := s.high + 1, signalling := s.signalling + 1)
    case Push(j) =>
      if j < |s.queues| then s.(queues := s.queues[j := s.queues[j] + 1], signalling := s.signalling + 1) else s
    case Signal => if s.signalling > 0 then s.(signalling := s.signalling - 1, wake := true) else s
    case LookHigh =>
      if !s.writer.Top? then s
      else if s.high > 0 then s.(high := s.high - 1, writer := Writing)
      else s.(writer := Scanning(0))
    case LookNext =>
      if !s.writer.Scanning? then s
      else
        var j := Slot(s, s.writer.i);
        if s.queues[j] > 0 then
          s.(queues := s.queues[j := s.queues[j] - 1], next := (j + 1) % |s.queues|, writer := Writing)
        else if s.writer.i + 1 == |s.queues| then s.(writer := Waiting)
        else s.(writer := Scanning(s.writer.i + 1))
    case Wake => if s.writer.Waiting? && s.wake then s.(wake := false, writer := Top) else s
    case Written => if s.writer.Writing? then s.(writer := Top) else s
  }

  function After(n: nat, steps: seq<Step>): (s: State)
    requires n > 0
    ensures s.Shaped() && |s.queues| == n
  {
    if steps == [] then Init(n) else Next(After(n, steps[..|steps| - 1]), steps[|steps| - 1])
  }

  // -------------------------------------------------------- no lost wake-up

  // Steps from the cursor to queue j, around the ring.
  function Distance(n: nat, next: nat, j: nat): (d: nat)
    requires next < n && j < n
    ensures d < n && (next + d) % n == j
  {
    if j >= next then j - next else j + n - next
  }

  // The current pass has already looked at queue j.
  predicate Passed(s: State, j: nat)
    requires s.Shaped() && j < |s.queues|
  {
    s.writer.Waiting? || (s.writer.Scanning? && Distance(|s.queues|, s.next, j) < s.writer.i)
  }

  predicate Noticed(s: State) { s.wake || s.signalling > 0 }

  ghost predicate Attentive(s: State)
    requires s.Shaped()
  {
    && (s.high > 0 && (s.writer.Scanning? || s.writer.Waiting?) ==> Noticed(s))
    && (forall j | 0 <= j < |s.queues| :: s.queues[j] > 0 && Passed(s, j) ==> Noticed(s))
  }

  lemma DistanceIsUnique(n: nat, next: nat, i: nat)
    requires next < n && i < n
    ensures Distance(n, next, (next + i) % n) == i
  {
    if next + i < n {
      assert (next + i) % n == next + i;
    } else {
      assert (next + i) % n == next + i - n;
    }
  }

  lemma StepKeepsAttention(s: State, step: Step)
    requires s.Shaped() && Attentive(s)
    ensures Attentive(Next(s, step))
  {
    var s' := Next(s, step);
    var n := |s.queues|;
    if step.LookNext? && s.writer.Scanning? {
      DistanceIsUnique(n, s.next, s.writer.i);
    }
    forall j | 0 <= j < n && s'.queues[j] > 0 && Passed(s', j)
      ensures Noticed(s')
    {
      if step.Push? {
      } else if Passed(s, j) {
      } else {
        // newly passed: it was the queue just looked at
        assert step.LookNext? && Distance(n, s.next, j) == s.writer.i;
        assert Slot(s, s.writer.i) == j;
      }
    }
  }

  // A blocked writer with work to do has a token waiting or one on its way.
  lemma {:induction false} NoLostWakeup(n: nat, steps: seq<Step>)
    requires n > 0
    ensures Attentive(After(n, steps))
    ensures var s := After(n, steps);
            s.writer.Waiting? && (s.high > 0 || exists j :: 0 <= j < n && s.queues[j] > 0) ==> Noticed(s)
    decreases |steps|
  {
    if steps != [] {
      NoLostWakeup(n, steps[..|steps| - 1]);
      StepKeepsAttention(After(n, steps[..|steps| - 1]), steps[|steps| - 1]);
    }
  }

  // ---------------------------------------------------------------- fairness

  function Play(s: State, steps: seq<Step>): (s': State)
    requires s.Shaped()
    ensures s'.Shaped() && |s'.queues| == |s.queues|
    decreases |steps|
  {
    if steps == [] then s else Play(Next(s, steps[0]), steps[1..])
  }

  // Queue j is never empty along the way, before each step.
  ghost predicate Backlogged(s: State, steps: seq<Step>, j: nat)
    requires s.Shaped() && j < |s.queues|
    decreases |steps|
  {
    steps == [] || (s.queues[j] > 0 && Backlogged(Next(s, steps[0]), steps[1..], j))
  }

  // How many channel transmissions the steps make, and how many of them for j.
  ghost function Served(s: State, steps: seq<Step>): nat
    requires s.Shaped()
    decreases |steps|
  {
    if steps == [] then 0
    else (if exists j :: Serves(s, steps[0], j) then 1 else 0) + Served(Next(s, steps[0]), steps[1..])
  }

  ghost function ServedFor(s: State, steps: seq<Step>, j: nat): nat
    requires s.Shaped()
    decreases |steps|
  {
    if steps == [] then 0
    else (if Serves(s, steps[0], j) then 1 else 0) + ServedFor(Next(s, steps[0]), steps[1..], j)
  }

  // Other transmissions that can still precede j's turn.
  function Patience(s: State, j: nat): (p: nat)
    requires s.Shaped() && j < |s.queues|
    ensures p < |s.queues|
  {
    if Passed(s, j) then |s.queues| - 1 else Distance(|s.queues|, s.next, j)
  }

  lemma PatienceShrinks(s: State, step: Step, j: nat)
    requires s.Shaped() && j < |s.queues| && s.queues[j] > 0 && !Serves(s, step, j)
    ensures Patience(Next(s, step), j) <= Patience(s, j)
    ensures (exists t :: Serves(s, step, t)) ==> Patience(Next(s, step), j) < Patience(s, j)
  {
    var n := |s.queues|;
    if step.LookNext? && s.writer.Scanning? {
      var i := s.writer.i;
      var t := Slot(s, i);
      DistanceIsUnique(n, s.next, i);
      assert t != j ==> Distance(n, s.next, j) != i;
      if s.queues[t] > 0 {
        AfterServing(n, s.next, t, j);
      }
    }
  }

  // Moving the cursor past a nearer queue shortens the way to j; past a farther
  // one it still leaves less than a full turn.
  lemma AfterServing(n: nat, next: nat, t: nat, j: nat)
    requires next < n && t < n && j < n && t != j
    ensures Distance(n, (t + 1) % n, j) < n - 1
    ensures Distance(n, next, t) < Distance(n, next, j) ==> Distance(n, (t + 1) % n, j) < Distance(n, next, j)
  {
    if t + 1 < n {
      assert (t + 1) % n == t + 1;
    } else {
      assert (t + 1) % n == 0;
    }
  }

  lemma {:induction false} OthersAreBounded(s: State, steps: seq<Step>, j: nat)
    requires s.Shaped() && j < |s.queues| && Backlogged(s, steps, j) && ServedFor(s, steps, j) == 0
    ensures Served(s, steps) <= Patience(s, j)
    decreases |steps|
  {
    if steps != [] {
      var here := if Serves(s, steps[0], j) then 1 else 0;
      assert ServedFor(s, steps, j) == here + ServedFor(Next(s, steps[0]), steps[1..], j);
      OthersAreBounded(Next(s, steps[0]), steps[1..], j);
      PatienceShrinks(s, steps[0], j);
    }
  }

  // From any point of any run: a channel that stays backlogged is among any n
  // consecutive channel transmissions, eight for the host, four for the device.
  lemma BackloggedIsServed(n: nat, before: seq<Step>, steps: seq<Step>, j: nat)
    requires n > 0 && j < n
    requires Backlogged(After(n, before), steps, j) && Served(After(n, before), steps) >= n
    ensures ServedFor(After(n, before), steps, j) >= 1
  {
    if ServedFor(After(n, before), steps, j) == 0 {
      OthersAreBounded(After(n, before), steps, j);
    }
  }

  // -------------------------------------------------------------- progress

  // The writer and those who have pushed go on; nobody pushes.
  predicate Quiet(steps: seq<Step>) { forall i | 0 <= i < |steps| :: !steps[i].Push? && !steps[i].PushHigh? }

  // Steps left in the current pass.
  function Ahead(s: State): nat
    requires s.Shaped()
  {
    match s.writer
    case Writing => |s.queues| + 2
    case Top => |s.queues| + 1
    case Scanning(i) => |s.queues| - i
    case Waiting => 0
  }

  // What the writer does next, or what it waits for.
  function Forward(s: State): Step {
    match s.writer
    case Writing => Written
    case Top => LookHigh
    case Scanning(_) => LookNext
    case Waiting => if s.wake then Wake else Signal
  }

  // One step on serves the queue or comes nearer to it.
  lemma ForwardNears(s: State, j: nat)
    requires s.Shaped() && Attentive(s) && j < |s.queues| && s.queues[j] > 0 && !Serves(s, Forward(s), j)
    ensures var t := Next(s, Forward(s));
            t.queues[j] == s.queues[j] && t.high <= s.high
            && (t.high == s.high ==>
                  Patience(t, j) <= Patience(s, j)
                  && (Patience(t, j) == Patience(s, j) ==>
                        (Passed(t, j) ==> Passed(s, j))
                        && (Passed(t, j) == Passed(s, j) ==>
                              Ahead(t) <= Ahead(s) && (Ahead(t) == Ahead(s) ==> t.signalling < s.signalling))))
  {
    PatienceShrinks(s, Forward(s), j);
    if s.writer.Scanning? {
      DistanceIsUnique(|s.queues|, s.next, s.writer.i);
      assert s.queues[Slot(s, s.writer.i)] > 0 ==> Serves(s, LookNext, Slot(s, s.writer.i));
    }
  }

  lemma {:induction false} QueueIsReached(s: State, j: nat) returns (steps: seq<Step>)
    requires s.Shaped() && Attentive(s) && j < |s.queues| && s.queues[j] > 0
    ensures Quiet(steps) && ServedFor(s, steps, j) >= 1
    decreases s.high, Patience(s, j), if Passed(s, j) then 1 else 0, Ahead(s), s.signalling
  {
    var step := Forward(s);
    steps := [step];
    if !Serves(s, step, j) {
      ForwardNears(s, j);
      StepKeepsAttention(s, step);
      hide Next, Attentive, Serves, Passed, Patience, Ahead;
      var rest := QueueIsReached(Next(s, step), j);
      steps := [step] + rest;
      assert steps[1..] == rest;
    } else {
      assert steps[1..] == [];
    }
  }

  // After any run, a queue that holds something is served in some run without a
  // further push, the writer blocked or not.
  lemma WaitingIsServed(n: nat, before: seq<Step>, j: nat)
    requires n > 0 && j < n && After(n, before).queues[j] > 0
    ensures exists steps :: Quiet(steps) && ServedFor(After(n, before), steps, j) >= 1
  {
    NoLostWakeup(n, before);
    var steps := QueueIsReached(After(n, before), j);
  }

  lemma {:induction false} TopIsReached(s: State) returns (steps: seq<Step>)
    requires s.Shaped() && Attentive(s) && s.high > 0
    ensures Quiet(steps) && Play(s, steps).writer.Top? && Play(s, steps).high == s.high
    decreases if s.writer.Top? then 0 else Ahead(s) + 1, s.signalling
  {
    if s.writer.Top? {
      steps := [];
    } else {
      var step := Forward(s);
      StepKeepsAttention(s, step);
      var t := Next(s, step);
      var rest := [];
      if t.writer.Writing? {
        rest := [Written];
        assert rest[1..] == [] && Play(Next(t, Written), rest[1..]) == Next(t, Written);
      } else {
        hide Attentive;
        rest := TopIsReached(t);
      }
      steps := [step] + rest;
      assert steps[1..] == rest && Play(s, steps) == Play(t, rest);
    }
  }

  // The priority queue is looked at first: some run without a further push takes
  // from it, and the channel queues come next only when it is empty.
  lemma PriorityIsServed(n: nat, before: seq<Step>)
    requires n > 0 && After(n, before).high > 0
    ensures exists steps ::
              Quiet(steps) && Play(After(n, before), steps).writer.Top?
              && Next(Play(After(n, before), steps), LookHigh).high == After(n, before).high - 1
  {
    NoLostWakeup(n, before);
    var steps := TopIsReached(After(n, before));
  }

  // ------------------------------------------------------------ the scan loop

  class Cursor {
    var next: nat

    ghost predicate Valid(n: nat)
      reads this
    {
      next < n
    }

    // One undisturbed pass, as both the writer and the lane task make it.
    method Scan(waiting: seq<nat>) returns (found: bool, j: nat)
      requires Valid(|waiting|)
      modifies this
      ensures Valid(|waiting|)
      ensures found <==> exists k :: 0 <= k < |waiting| && waiting[k] > 0
      ensures found ==> j < |waiting| && waiting[j] > 0 && next == (j + 1) % |waiting|
      ensures found ==> forall k | 0 <= k < |waiting| && waiting[k] > 0 ::
                          Distance(|waiting|, old(next), j) <= Distance(|waiting|, old(next), k)
      ensures !found ==> next == old(next)
    {
      var n := |waiting|;
      found, j := false, 0;
      for i := 0 to n
        invariant next == old(next)
        invariant forall k | 0 <= k < n && Distance(n, next, k) < i :: waiting[k] == 0
      {
        j := (next + i) % n;
        DistanceIsUnique(n, next, i);
        if waiting[j] > 0 {
          next := (j + 1) % n;
          found := true;
          return;
        }
        forall k | 0 <= k < n && Distance(n, next, k) == i ensures k == j {
        }
      }
    }
  }
}
