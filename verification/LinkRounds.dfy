/**
  One call of the host's send, told by its events alone.  A round is what one
  attempt sees: the wait for the outgoing queue, the wait for the ACK, and the
  timeout that ends it.
  */
module LinkRounds {
  import opened Frames
  import H = LinkHost

  // Everything send does with the events that reach it, in their order.
  function Drive(sending: H.Sending, sequence: u32, events: seq<H.Event>, maxRetries: nat): H.Reaction
    decreases |events|
  {
    if events == [] || sending.Idle? then H.Reaction(sending, sequence, false)
    else
      var r := H.React(sending, sequence, events[0], maxRetries);
      if r.closes then r else Drive(r.sending, r.sequence, events[1..], maxRetries)
  }

  // How often the frame enters the outgoing queue meanwhile.
  function Transmitted(sending: H.Sending, sequence: u32, events: seq<H.Event>, maxRetries: nat): nat
    decreases |events|
  {
    if events == [] || sending.Idle? then 0
    else
      var r := H.React(sending, sequence, events[0], maxRetries);
      (if sending.Enqueueing? && events[0].Queued? then 1 else 0)
      + if r.closes then 0 else Transmitted(r.sending, r.sequence, events[1..], maxRetries)
  }

  datatype Course = Course(end: H.Reaction, transmissions: nat)

  function Go(sending: H.Sending, sequence: u32, events: seq<H.Event>, maxRetries: nat): Course {
    Course(Drive(sending, sequence, events, maxRetries), Transmitted(sending, sequence, events, maxRetries))
  }

  function More(c: Course, n: nat): Course { c.(transmissions := c.transmissions + n) }

  lemma OneEvent(sending: H.Sending, sequence: u32, e: H.Event, rest: seq<H.Event>, maxRetries: nat)
    requires !sending.Idle?
    ensures var r := H.React(sending, sequence, e, maxRetries);
            var n := if sending.Enqueueing? && e.Queued? then 1 else 0;
            Go(sending, sequence, [e] + rest, maxRetries)
            == if r.closes then Course(r, n) else More(Go(r.sending, r.sequence, rest, maxRetries), n)
  {
    assert ([e] + rest)[1..] == rest;
    hide H.React;
  }

  // ---------------------------------------------------------------------- rounds

  function Cancels(events: seq<H.Event>): nat {
    if events == [] then 0 else (if events[0].Cancelled? then 1 else 0) + Cancels(events[1..])
  }

  // before: what comes while the frame waits for the queue; after: what comes
  // while its ACK is awaited.
  datatype Round = Round(before: seq<H.Event>, after: seq<H.Event>)

  // The frame gets queued, and no ACK of its number comes before the timeout.
  predicate Passes(r: Round, sequence: u32) {
    (forall e | e in r.before :: !e.Queued?) && (forall e | e in r.after :: !e.TimerFired? && e != H.AckIs(sequence))
  }

  function Opening(r: Round): seq<H.Event> { r.before + ([H.Queued] + r.after) }

  function Told(rs: seq<Round>): seq<H.Event> {
    if rs == [] then [] else Told(rs[..|rs| - 1]) + (Opening(rs[|rs| - 1]) + [H.TimerFired])
  }

  function CancelsOf(rs: seq<Round>): nat {
    if rs == [] then 0
    else CancelsOf(rs[..|rs| - 1]) + (Cancels(rs[|rs| - 1].before) + Cancels(rs[|rs| - 1].after))
  }

  // The timeouts in a row since the device last said that it is busy.
  function Used(rs: seq<Round>, sequence: u32): nat {
    if rs == [] then 0
    else if H.BusyIs(sequence) in rs[|rs| - 1].after then 0
    else Used(rs[..|rs| - 1], sequence) + 1
  }

  // Rounds that a call of send survives: never more timeouts in a row than it
  // has retries, cancelled once at most, and not before the first transmission.
  predicate Survived(rs: seq<Round>, sequence: u32, maxRetries: nat) {
    rs == [] || (
      var n := |rs| - 1;
      Survived(rs[..n], sequence, maxRetries) && Passes(rs[n], sequence)
      && Used(rs, sequence) <= maxRetries && CancelsOf(rs) <= 1 && (n == 0 ==> Cancels(rs[n].before) == 0))
  }

  lemma {:induction false} QueueIsAwaited(f: Frame, a: int, queued: bool, cancelled: bool, before: seq<H.Event>,
                                          rest: seq<H.Event>, maxRetries: nat)
    requires forall e | e in before :: !e.Queued?
    requires Cancels(before) + (if cancelled then 1 else 0) <= 1 && (!queued ==> Cancels(before) == 0)
    ensures Go(H.Enqueueing(f, a, queued, cancelled), f.sequence, before + rest, maxRetries)
         == Go(H.Enqueueing(f, a, queued, cancelled || Cancels(before) > 0), f.sequence, rest, maxRetries)
    decreases |before|
  {
    if before == [] {
      assert before + rest == rest;
    } else {
      var e, tail := before[0], before[1..];
      assert before + rest == [e] + (tail + rest);
      OneEvent(H.Enqueueing(f, a, queued, cancelled), f.sequence, e, tail + rest, maxRetries);
      QueueIsAwaited(f, a, queued, cancelled || e.Cancelled?, tail, rest, maxRetries);
      hide Go;
    }
  }

  lemma {:induction false} AckIsAwaited(f: Frame, a: int, cancelled: bool, after: seq<H.Event>,
                                        rest: seq<H.Event>, maxRetries: nat)
    requires forall e | e in after :: !e.TimerFired? && e != H.AckIs(f.sequence)
    requires Cancels(after) + (if cancelled then 1 else 0) <= 1
    ensures Go(H.Waiting(f, a, cancelled), f.sequence, after + rest, maxRetries)
         == Go(H.Waiting(f, if H.BusyIs(f.sequence) in after then -1 else a, cancelled || Cancels(after) > 0),
               f.sequence, rest, maxRetries)
    decreases |after|
  {
    if after == [] {
      assert after + rest == rest;
    } else {
      var e, tail := after[0], after[1..];
      assert after + rest == [e] + (tail + rest);
      OneEvent(H.Waiting(f, a, cancelled), f.sequence, e, tail + rest, maxRetries);
      var a' := if e == H.BusyIs(f.sequence) then -1 else a;
      AckIsAwaited(f, a', cancelled || e.Cancelled?, tail, rest, maxRetries);
      assert H.BusyIs(f.sequence) in after <==> e == H.BusyIs(f.sequence) || H.BusyIs(f.sequence) in tail;
      assert H.React(H.Waiting(f, a, cancelled), f.sequence, e, maxRetries)
          == H.Reaction(H.Waiting(f, a', cancelled || e.Cancelled?), f.sequence, false);
      hide Go, H.React;
    }
  }

  // The round up to the wait for its end: one transmission.
  lemma RoundOpens(f: Frame, a: int, queued: bool, cancelled: bool, r: Round, rest: seq<H.Event>, maxRetries: nat)
    requires Passes(r, f.sequence) && (!queued ==> Cancels(r.before) == 0)
    requires Cancels(r.before) + Cancels(r.after) + (if cancelled then 1 else 0) <= 1
    ensures var a' := if H.BusyIs(f.sequence) in r.after then -1 else a;
            var cancelled' := cancelled || Cancels(r.before) + Cancels(r.after) > 0;
            Go(H.Enqueueing(f, a, queued, cancelled), f.sequence, Opening(r) + rest, maxRetries)
            == More(Go(H.Waiting(f, a', cancelled'), f.sequence, rest, maxRetries), 1)
  {
    var queue := [H.Queued] + (r.after + rest);
    var c := cancelled || Cancels(r.before) > 0;
    assert Opening(r) + rest == r.before + queue;
    QueueIsAwaited(f, a, queued, cancelled, r.before, queue, maxRetries);
    OneEvent(H.Enqueueing(f, a, queued, c), f.sequence, H.Queued, r.after + rest, maxRetries);
    AckIsAwaited(f, a, c, r.after, rest, maxRetries);
    hide Go;
  }

  // After rounds it survives, send stands before its next attempt, with as many
  // transmissions behind it.
  lemma {:induction false} RoundsPass(f: Frame, rs: seq<Round>, rest: seq<H.Event>, maxRetries: nat)
    requires Survived(rs, f.sequence, maxRetries)
    ensures Go(H.Enqueueing(f, 0, false, false), f.sequence, Told(rs) + rest, maxRetries)
         == More(Go(H.Enqueueing(f, Used(rs, f.sequence), rs != [], CancelsOf(rs) > 0), f.sequence, rest, maxRetries),
                 |rs|)
    decreases |rs|
  {
    if rs == [] {
      assert Told(rs) + rest == rest;
    } else {
      var front, r := rs[..|rs| - 1], rs[|rs| - 1];
      var tail := [H.TimerFired] + rest;
      var a, c := Used(front, f.sequence), CancelsOf(front) > 0;
      assert Told(rs) + rest == Told(front) + (Opening(r) + tail);
      hide Go;
      RoundsPass(f, front, Opening(r) + tail, maxRetries);
      RoundOpens(f, a, front != [], c, r, tail, maxRetries);
      OneEvent(H.Waiting(f, if H.BusyIs(f.sequence) in r.after then -1 else a, CancelsOf(rs) > 0), f.sequence,
               H.TimerFired, rest, maxRetries);
    }
  }

  // An ACK in the round after them completes the send.
  lemma AckEndsRounds(f: Frame, rs: seq<Round>, last: Round, rest: seq<H.Event>, maxRetries: nat)
    requires Survived(rs, f.sequence, maxRetries) && Passes(last, f.sequence)
    requires CancelsOf(rs) + Cancels(last.before) + Cancels(last.after) <= 1
    requires rs == [] ==> Cancels(last.before) == 0
    ensures var next := Succ(f.sequence);
            Go(H.Enqueueing(f, 0, false, false), f.sequence,
               Told(rs) + (Opening(last) + ([H.AckIs(f.sequence)] + rest)), maxRetries)
            == Course(H.Reaction(H.Idle, next, next == 0), |rs| + 1)
  {
    var tail := [H.AckIs(f.sequence)] + rest;
    var a, c := Used(rs, f.sequence), CancelsOf(rs) > 0;
    RoundsPass(f, rs, Opening(last) + tail, maxRetries);
    RoundOpens(f, a, rs != [], c, last, tail, maxRetries);
    var a' := if H.BusyIs(f.sequence) in last.after then -1 else a;
    var c' := c || Cancels(last.before) + Cancels(last.after) > 0;
    OneEvent(H.Waiting(f, a', c'), f.sequence, H.AckIs(f.sequence), rest, maxRetries);
    IdleEnds(Succ(f.sequence), rest, maxRetries);
    hide Go;
  }

  lemma IdleEnds(sequence: u32, rest: seq<H.Event>, maxRetries: nat)
    ensures Go(H.Idle, sequence, rest, maxRetries) == Course(H.Reaction(H.Idle, sequence, false), 0)
  {
  }

  // One timeout more than there are retries closes the link.
  lemma TimeoutsEndRounds(f: Frame, rs: seq<Round>, last: Round, rest: seq<H.Event>, maxRetries: nat)
    requires Survived(rs, f.sequence, maxRetries) && Passes(last, f.sequence)
    requires CancelsOf(rs) + Cancels(last.before) + Cancels(last.after) <= 1
    requires rs == [] ==> Cancels(last.before) == 0
    requires Used(rs, f.sequence) == maxRetries && H.BusyIs(f.sequence) !in last.after
    ensures Go(H.Enqueueing(f, 0, false, false), f.sequence, Told(rs) + (Opening(last) + ([H.TimerFired] + rest)),
               maxRetries)
         == Course(H.Reaction(H.Idle, f.sequence, true), |rs| + 1)
  {
    var tail := [H.TimerFired] + rest;
    var c := CancelsOf(rs) > 0;
    RoundsPass(f, rs, Opening(last) + tail, maxRetries);
    RoundOpens(f, maxRetries, rs != [], c, last, tail, maxRetries);
    var c' := c || Cancels(last.before) + Cancels(last.after) > 0;
    OneEvent(H.Waiting(f, maxRetries, c'), f.sequence, H.TimerFired, rest, maxRetries);
    hide Go;
  }

  // ---------------------------------------------------------- reading the events

  lemma {:induction false} CancelsAdd(a: seq<H.Event>, b: seq<H.Event>)
    ensures Cancels(a + b) == Cancels(a) + Cancels(b)
    decreases |a|
  {
    if a == [] {
      assert a + b == b;
    } else {
      assert (a + b)[1..] == a[1..] + b;
      CancelsAdd(a[1..], b);
    }
  }

  lemma CancelsGrow(events: seq<H.Event>, e0: nat, e: nat)
    requires e0 <= e < |events|
    ensures Cancels(events[e0..e + 1]) == Cancels(events[e0..e]) + (if events[e].Cancelled? then 1 else 0)
  {
    assert events[e0..e + 1] == events[e0..e] + [events[e]];
    CancelsAdd(events[e0..e], [events[e]]);
    assert [events[e]][1..] == [];
  }

  // The round read off a stretch of events: queued at q, over at e.
  function Read(events: seq<H.Event>, e0: nat, q: nat, e: nat): Round
    requires e0 <= q < e <= |events|
  {
    Round(events[e0..q], events[q + 1..e])
  }

  lemma RoundIsRead(events: seq<H.Event>, e0: nat, q: nat, e: nat)
    requires e0 <= q < e < |events| && events[q].Queued?
    ensures events == events[..e0] + (Opening(Read(events, e0, q, e)) + ([events[e]] + events[e + 1..]))
    ensures events[..e + 1] == events[..e0] + (Opening(Read(events, e0, q, e)) + [events[e]])
  {
  }

  lemma ToldOneMore(rs: seq<Round>, r: Round)
    ensures Told(rs + [r]) == Told(rs) + (Opening(r) + [H.TimerFired])
    ensures CancelsOf(rs + [r]) == CancelsOf(rs) + (Cancels(r.before) + Cancels(r.after))
    ensures forall n: u32 :: Used(rs + [r], n) == if H.BusyIs(n) in r.after then 0 else Used(rs, n) + 1
  {
    assert (rs + [r])[..|rs|] == rs;
  }

  // One more round is survived if it leaves a retry.
  lemma SurvivedOneMore(rs: seq<Round>, r: Round, n: u32, maxRetries: nat)
    requires Survived(rs, n, maxRetries) && Passes(r, n) && CancelsOf(rs) + (Cancels(r.before) + Cancels(r.after)) <= 1
    requires rs == [] ==> Cancels(r.before) == 0
    requires (if H.BusyIs(n) in r.after then 0 else Used(rs, n) + 1) <= maxRetries
    ensures Survived(rs + [r], n, maxRetries)
  {
    ToldOneMore(rs, r);
    assert (rs + [r])[..|rs|] == rs;
  }
}
