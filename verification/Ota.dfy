/**
  Firmware updates: the device's state machine behind ota.begin, write, end and
  abort, and the host loop that feeds it an uploaded image.
  Digest stands for SHA-256; drivers' failures are arguments.
  */
module Ota {
  import opened Frames

  type Bytes = seq<byte>
  type Digest = Bytes -> Bytes

  const CHUNK := 1024
  const IDLE_US := 60_000_000
  const SMALLEST := 256

  // A digest parameter of a call: not given, unusable, or 32 bytes.
  datatype Param = Absent | Bad | Given(digest: Bytes)

  // An image made bootable: what was written, and what it was checked against.
  datatype Selected = Selected(image: Bytes, size: nat, first: Option<Bytes>, last: Option<Bytes>, session: nat)

  datatype State = State(
    active: bool, size: nat, offset: nat, expected: Bytes, hasHash: bool, activity: int,
    otaSession: nat, session: nat,
    flash: Bytes,                  // written to the partition since begin
    hashed: Bytes,                 // fed to the digest since begin
    first: Option<Bytes>,          // history: the digest begin was given
    boots: seq<Selected>)          // history: every image ever made bootable

  datatype Step =
    | Begin(now: int, size: int, capacity: nat, hash: Param, pending: bool, prepared: bool, hashReady: bool)
    | Write(now: int, offset: int, data: Option<Bytes>, flashOk: bool, hashOk: bool)
    | End(hash: Param, hashOk: bool, verified: bool, selected: bool)
    | Abort
    | Tick(now: int)
    | NewSession(session: nat)

  function Init(session: nat): State { State(false, 0, 0, [], false, 0, 0, session, [], [], None, []) }

  function Aborted(s: State): State { s.(active := false, size := 0, offset := 0) }

  datatype Reply = Ok | Refused

  predicate BeginRefused(s: State, step: Step)
    requires step.Begin?
  {
    s.active || step.pending || step.size < SMALLEST || step.size > step.capacity || step.hash.Bad?
  }

  function BeginNow(s: State, step: Step): (State, Reply)
    requires step.Begin?
  {
    if BeginRefused(s, step) || !step.prepared then (s, Refused)
    else
      var s' := s.(active := step.hashReady, size := if step.hashReady then step.size else 0, offset := 0,
                   activity := step.now, otaSession := s.session, hasHash := step.hash.Given?,
                   expected := if step.hash.Given? then step.hash.digest else s.expected,
                   first := if step.hash.Given? then Some(step.hash.digest) else None,
                   flash := [], hashed := []);
      (s', if step.hashReady then Ok else Refused)
  }

  function WriteNow(s: State, step: Step): (State, Reply)
    requires step.Write?
  {
    if !s.active || step.offset != s.offset || step.data.None? then (s, Refused)
    else
      var bytes := step.data.value;
      if |bytes| > CHUNK || bytes == [] || s.offset + |bytes| > s.size then (s, Refused)
      else if !step.flashOk then (Aborted(s), Refused)
      else if !step.hashOk then (Aborted(s.(flash := s.flash + bytes)), Refused)
      else
        (s.(offset := s.offset + |bytes|, activity := step.now, flash := s.flash + bytes, hashed := s.hashed + bytes),
         Ok)
  }

  function EndNow(d: Digest, s: State, step: Step): (State, Reply)
    requires step.End?
  {
    if !s.active || s.offset != s.size then (s, Refused)
    else if (!s.hasHash && step.hash.Absent?) || step.hash.Bad? then (s, Refused)
    else if step.hash.Given? && s.hasHash && step.hash.digest != s.expected then (Aborted(s), Refused)
    else
      var expected := if step.hash.Given? then step.hash.digest else s.expected;
      var s' := s.(expected := expected);
      if !step.hashOk || d(s.hashed) != expected then (Aborted(s'), Refused)
      else if !step.verified || !step.selected then (s'.(active := false), Refused)
      else
        var last := if step.hash.Given? then Some(step.hash.digest) else None;
        (s'.(active := false, boots := s.boots + [Selected(s.flash, s.size, s.first, last, s.session)]), Ok)
  }

  function TickNow(s: State, now: int): State {
    if s.active && (now - s.activity > IDLE_US || s.otaSession != s.session) then Aborted(s) else s
  }

  function Next(d: Digest, s: State, step: Step): (State, Reply) {
    match step
    case Begin(_, _, _, _, _, _, _) => BeginNow(s, step)
    case Write(_, _, _, _, _) => WriteNow(s, step)
    case End(_, _, _, _) => EndNow(d, s, step)
    case Abort => (Aborted(s), Ok)
    case Tick(now) => (TickNow(s, now), Ok)
    case NewSession(session) => (s.(session := session), Ok)
  }

  function After(d: Digest, session: nat, steps: seq<Step>): State {
    if steps == [] then Init(session) else Next(d, After(d, session, steps[..|steps| - 1]), steps[|steps| - 1]).0
  }

  // -------------------------------------------------------------------- integrity

  // An image that may boot: whole, and what every digest given for it says.
  predicate Sound(d: Digest, b: Selected) {
    |b.image| == b.size && b.size >= SMALLEST
    && (b.first.Some? || b.last.Some?)
    && (b.first.Some? ==> d(b.image) == b.first.value)
    && (b.last.Some? ==> d(b.image) == b.last.value)
  }

  predicate Inv(d: Digest, s: State) {
    && (s.active ==> s.flash == s.hashed && |s.flash| == s.offset && s.offset <= s.size && s.size >= SMALLEST
                     && s.hasHash == s.first.Some? && (s.hasHash ==> s.expected == s.first.value))
    && (forall i | 0 <= i < |s.boots| :: Sound(d, s.boots[i]))
  }

  lemma StepKeepsInv(d: Digest, s: State, step: Step)
    requires Inv(d, s)
    ensures Inv(d, Next(d, s, step).0)
  {
    hide Sound;
    match step
    case Begin(_, _, _, _, _, _, _) => BeginKeepsInv(d, s, step);
    case Write(_, _, _, _, _) =>
    case End(_, _, _, _) => EndKeepsInv(d, s, step);
    case Abort =>
    case Tick(_) =>
    case NewSession(_) =>
  }

  lemma BeginKeepsInv(d: Digest, s: State, step: Step)
    requires Inv(d, s) && step.Begin?
    ensures Inv(d, BeginNow(s, step).0)
  {
    hide Sound;
  }

  lemma EndKeepsInv(d: Digest, s: State, step: Step)
    requires Inv(d, s) && step.End?
    ensures Inv(d, EndNow(d, s, step).0)
  {
    var r := EndNow(d, s, step);
    if r.1.Ok? {
      var b := r.0.boots[|s.boots|];
      assert Sound(d, b);
    }
    hide Sound;
  }

  // In every run of calls, ticks and session changes, with any failures: only
  // whole images with the right digests are ever made bootable.
  lemma {:induction false} BootsAreSound(d: Digest, session: nat, steps: seq<Step>)
    ensures Inv(d, After(d, session, steps))
    ensures forall b | b in After(d, session, steps).boots :: Sound(d, b)
    decreases |steps|
  {
    if steps != [] {
      var n := |steps| - 1;
      BootsAreSound(d, session, steps[..n]);
      hide Inv, Next;
      StepKeepsInv(d, After(d, session, steps[..n]), steps[n]);
    }
  }

  // The writes since the last begin, in the order they were accepted, are
  // contiguous from zero: a write is accepted exactly at the end of the others.
  lemma WritesAreContiguous(d: Digest, session: nat, steps: seq<Step>, step: Step)
    requires step.Write? && Next(d, After(d, session, steps), step).1.Ok?
    ensures var s := After(d, session, steps);
            var s' := Next(d, s, step).0;
            step.offset == |s.flash| && s'.flash == s.flash + step.data.value && |s'.flash| <= s.size
  {
    BootsAreSound(d, session, steps);
  }

  // ------------------------------------------------- updates and session changes

  // The update in progress is another session's.
  predicate Stale(s: State) { s.active && s.otaSession != s.session }

  // Step n of the run changed the session under an update, and no tick has
  // come since.
  predicate ChangedAt(d: Digest, session: nat, steps: seq<Step>, n: nat)
    requires n < |steps|
  {
    var s := After(d, session, steps[..n]);
    steps[n].NewSession? && s.active && s.otaSession == s.session != steps[n].session
    && forall j | n < j < |steps| :: !steps[j].Tick?
  }

  lemma {:induction false} StaleSinceChange(d: Digest, session: nat, steps: seq<Step>)
    requires Stale(After(d, session, steps))
    ensures exists n :: 0 <= n < |steps| && ChangedAt(d, session, steps, n)
    decreases |steps|
  {
    var m := |steps| - 1;
    var before := After(d, session, steps[..m]);
    if Stale(before) {
      StaleSinceChange(d, session, steps[..m]);
      var n :| 0 <= n < m && ChangedAt(d, session, steps[..m], n);
      assert steps[..m][..n] == steps[..n];
      assert ChangedAt(d, session, steps, n);
    } else {
      assert ChangedAt(d, session, steps, m);
    }
  }

  // Over all runs: an End that finishes another session's update is accepted
  // only while no tick has come since the session changed.
  lemma TickEndsOldUpdate(d: Digest, session: nat, steps: seq<Step>, end: Step)
    requires end.End? && Next(d, After(d, session, steps), end).1.Ok?
    requires After(d, session, steps).otaSession != After(d, session, steps).session
    ensures exists n :: 0 <= n < |steps| && ChangedAt(d, session, steps, n)
  {
    StaleSinceChange(d, session, steps);
  }

  function Onward(d: Digest, s: State, more: seq<Step>): State {
    if more == [] then s else Next(d, Onward(d, s, more[..|more| - 1]), more[|more| - 1]).0
  }

  // The update is idle: sessions come and go, and ticks.
  predicate Waiting(more: seq<Step>) { forall i | 0 <= i < |more| :: more[i].NewSession? || more[i].Tick? }

  // A tick that finds the update too old, or another session's.
  predicate Sweeps(s: State, step: Step) {
    step.Tick? && (step.now - s.activity > IDLE_US || s.otaSession != s.session)
  }

  predicate NeverSwept(d: Digest, s: State, more: seq<Step>) {
    forall i | 0 <= i < |more| :: !Sweeps(Onward(d, s, more[..i]), more[i])
  }

  lemma {:induction false} IdleUpdate(d: Digest, s: State, more: seq<Step>)
    requires s.active && Waiting(more)
    ensures var t := Onward(d, s, more);
            if NeverSwept(d, s, more) then t == s.(session := t.session)
            else !t.active
    decreases |more|
  {
    if more != [] {
      var m := |more| - 1;
      IdleUpdate(d, s, more[..m]);
      assert forall i | 0 <= i < m :: more[..m][..i] == more[..i];
      var u := Onward(d, s, more[..m]);
      if NeverSwept(d, s, more[..m]) {
        assert NeverSwept(d, s, more) <==> !Sweeps(u, more[m]);
      } else {
        var i :| 0 <= i < m && Sweeps(Onward(d, s, more[..m][..i]), more[..m][i]);
        assert Sweeps(Onward(d, s, more[..i]), more[i]);
      }
    }
  }

  // Both sides: after any sequence of session changes and ticks a complete
  // update can be finished, by whichever session is then there, if and only if
  // no tick found it too old or another session's.
  lemma NewSessionFinishesOldUpdate(d: Digest, s: State, more: seq<Step>)
    requires Inv(d, s) && s.active && s.offset == s.size && (s.hasHash ==> s.expected == d(s.hashed))
    requires Waiting(more)
    ensures var t := Onward(d, s, more);
            var r := Next(d, t, End(Given(d(s.hashed)), true, true, true));
            (r.1.Ok? <==> NeverSwept(d, s, more))
            && (r.1.Ok? ==> r.0.boots == s.boots + [Selected(s.flash, s.size, s.first, Some(d(s.hashed)), t.session)])
  {
    IdleUpdate(d, s, more);
  }
}
