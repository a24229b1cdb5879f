/**
  A paired session over a network that may lose, repeat, reorder or forge: the
  client of SecureClient, and a peer that opens a request under its own counter
  and replies under the next.  The cipher is ideal: a box opens under the nonce
  it was sealed with and no other.
  */
module SecureSession {
  import opened Frames

  datatype Box = Box(counter: nat, text: seq<byte>)

  datatype Exchange = Exchange(request: seq<byte>, reply: seq<byte>)

  // calling: the request of the Call that holds the mutex.  start, calls,
  // served and sealed are history; sealed also is what the network knows.
  datatype State = State(
    start: nat,
    ready: bool, counter: nat, calling: Option<seq<byte>>, calls: seq<Exchange>, requests: nat,
    peer: nat, served: seq<Exchange>,
    sealed: seq<Box>)

  datatype Step =
    | CallBegins(payload: seq<byte>)
    | PeerOpens(box: Box, reply: seq<byte>)
    | CallEnds(response: Option<Box>)     // None: the transport failed, or what came is no box

  const LAST_COUNTER: nat := 0xffff_fffe

  // The nonce the device hands out may hold any counter but zero.
  function Init(start: nat): State { State(start, true, start, None, [], 0, start, [], []) }

  predicate Enabled(s: State, step: Step) {
    match step
    case CallBegins(_) => s.calling.None?
    case PeerOpens(box, _) => box in s.sealed
    case CallEnds(response) => s.calling.Some? && (response.Some? ==> response.value in s.sealed)
  }

  function Next(s: State, step: Step): State {
    if !Enabled(s, step) then s
    else
      match step
      case CallBegins(payload) =>
        if !s.ready then s
        else if s.counter >= LAST_COUNTER then s.(ready := false)
        else s.(calling := Some(payload), requests := s.requests + 1, sealed := s.sealed + [Box(s.counter, payload)])
      case PeerOpens(box, reply) =>
        if box.counter != s.peer then s
        else s.(peer := s.peer + 2, served := s.served + [Exchange(box.text, reply)],
                sealed := s.sealed + [Box(s.peer + 1, reply)])
      case CallEnds(response) =>
        if response.None? || response.value.counter != s.counter + 1 then s.(ready := false, calling := None)
        else s.(counter := s.counter + 2, calling := None,
                calls := s.calls + [Exchange(s.calling.value, response.value.text)])
  }

  function After(start: nat, steps: seq<Step>): State {
    if steps == [] then Init(start) else Next(After(start, steps[..|steps| - 1]), steps[|steps| - 1])
  }

  // -------------------------------------------------------------- the invariant

  // The request sealed but not yet served, if any, is the client's last one.
  predicate Asking(s: State) { s.requests == |s.served| + 1 }

  predicate Placed(s: State, b: Box) {
    var k := b.counter - s.start;
    0 <= k <= 2 * |s.served| && (k == 2 * |s.served| ==> Asking(s))
    && (k < 2 * |s.served| ==> b.text == if k % 2 == 0 then s.served[k / 2].request else s.served[k / 2].reply)
  }

  predicate Inv(s: State) {
    && s.peer == s.start + 2 * |s.served|
    && |s.served| <= s.requests <= |s.served| + 1
    && s.counter == s.start + 2 * |s.calls|
    && s.calls <= s.served
    && |s.calls| <= s.requests <= |s.calls| + 1
    && (s.calling.Some? ==> s.ready && s.requests == |s.calls| + 1)
    && (s.ready && s.calling.None? ==> s.requests == |s.calls|)
    && (s.calling.Some? && |s.served| == s.requests ==> s.served[|s.calls|].request == s.calling.value)
    && (s.calling.Some? && Asking(s) ==> forall b | b in s.sealed && b.counter == s.peer :: b.text == s.calling.value)
    && (forall b | b in s.sealed :: Placed(s, b))
    && (forall i, j | 0 <= i < j < |s.sealed| :: s.sealed[i].counter != s.sealed[j].counter)
    && (s.requests > 0 ==> s.start + 2 * s.requests <= LAST_COUNTER + 1)
  }

  lemma BeginKeepsInv(s: State, payload: seq<byte>)
    requires Inv(s) && s.calling.None?
    ensures Inv(Next(s, CallBegins(payload)))
  {
    var s' := Next(s, CallBegins(payload));
    if s'.calling.Some? {
      forall b | b in s'.sealed ensures Placed(s', b) {
        if b in s.sealed { assert Placed(s, b); }
      }
      forall b | b in s.sealed ensures b.counter < s.counter { assert Placed(s, b); }
    }
  }

  lemma PeerKeepsInv(s: State, box: Box, reply: seq<byte>)
    requires Inv(s) && box in s.sealed
    ensures Inv(Next(s, PeerOpens(box, reply)))
  {
    var s' := Next(s, PeerOpens(box, reply));
    assert Placed(s, box);
    if box.counter == s.peer {
      var n := |s.served|;
      forall b | b in s'.sealed ensures Placed(s', b) {
        if b in s.sealed {
          assert Placed(s, b);
          if b.counter == s.peer {
            SameBox(s, b, box);
            assert (b.counter - s.start) / 2 == n;
          } else {
            assert s'.served[(b.counter - s.start) / 2] == s.served[(b.counter - s.start) / 2];
          }
        } else {
          assert (b.counter - s.start) / 2 == n;
        }
      }
      forall i | 0 <= i < |s.sealed| ensures s.sealed[i].counter != s.peer + 1 {
        assert Placed(s, s.sealed[i]);
      }
    }
  }

  lemma SameBox(s: State, b: Box, b': Box)
    requires Inv(s) && b in s.sealed && b' in s.sealed && b.counter == b'.counter
    ensures b == b'
  {
    var i :| 0 <= i < |s.sealed| && s.sealed[i] == b;
    var j :| 0 <= j < |s.sealed| && s.sealed[j] == b';
  }

  lemma EndKeepsInv(s: State, response: Option<Box>)
    requires Inv(s) && Enabled(s, CallEnds(response))
    ensures Inv(Next(s, CallEnds(response)))
  {
    var s' := Next(s, CallEnds(response));
    if s'.ready {
      var b := response.value;
      assert Placed(s, b);
      var m := |s.calls|;
      assert b.counter - s.start == 2 * m + 1;
      assert s.served[m].request == s.calling.value && s.served[m].reply == b.text;
      assert s'.calls == s.served[..m + 1];
    }
    forall b | b in s'.sealed ensures Placed(s', b) { assert Placed(s, b); }
  }

  lemma {:induction false} RunKeepsInv(start: nat, steps: seq<Step>)
    ensures Inv(After(start, steps)) && After(start, steps).start == start
    decreases |steps|
  {
    if steps != [] {
      var n := |steps| - 1;
      RunKeepsInv(start, steps[..n]);
      var s := After(start, steps[..n]);
      hide Inv;
      if Enabled(s, steps[n]) {
        match steps[n]
        case CallBegins(payload) => BeginKeepsInv(s, payload);
        case PeerOpens(box, reply) => PeerKeepsInv(s, box, reply);
        case CallEnds(response) => EndKeepsInv(s, response);
      }
    }
  }

  // ---------------------------------------------------------------- the theorems

  // Neither side ever seals two messages under one nonce, and no counter of a
  // session wraps.
  lemma NoNonceTwice(start: nat, steps: seq<Step>, i: nat, j: nat)
    requires i < j < |After(start, steps).sealed|
    ensures var s := After(start, steps);
            s.sealed[i].counter != s.sealed[j].counter
            && start <= s.sealed[i].counter <= LAST_COUNTER
  {
    RunKeepsInv(start, steps);
    var s := After(start, steps);
    assert Placed(s, s.sealed[i]);
    assert s.sealed[i].counter <= s.start + 2 * s.requests - 1;
  }

  // Between calls the two counters are equal; during one the peer is at the
  // request or one exchange past it.
  lemma LockStep(start: nat, steps: seq<Step>)
    ensures var s := After(start, steps);
            s.ready ==> if s.calling.None? then s.peer == s.counter else s.peer == s.counter || s.peer == s.counter + 2
  {
    RunKeepsInv(start, steps);
  }

  // What successful calls returned is what the peer replied to those very
  // requests, in order, with no exchange left out or repeated.
  lemma RepliesAreAuthentic(start: nat, steps: seq<Step>)
    ensures var s := After(start, steps);
            s.calls <= s.served && |s.served| <= |s.calls| + 1
  {
    RunKeepsInv(start, steps);
  }

  // After a failure the client seals nothing, whatever happens.
  lemma {:induction false} NothingAfterFailure(start: nat, steps: seq<Step>, more: seq<Step>)
    requires !After(start, steps).ready
    ensures !After(start, steps + more).ready
    ensures After(start, steps + more).requests == After(start, steps).requests
    ensures After(start, steps + more).calls == After(start, steps).calls
    decreases |more|
  {
    if more == [] {
      assert steps + more == steps;
    } else {
      var n := |more| - 1;
      NothingAfterFailure(start, steps, more[..n]);
      var all := steps + more;
      assert all[..|all| - 1] == steps + more[..n] && all[|all| - 1] == more[n];
      RunKeepsInv(start, steps + more[..n]);
    }
  }

  // Whatever went before, an exchange that the network lets through succeeds:
  // the call returns the peer's reply and the next one may follow.
  lemma ExchangeSucceeds(start: nat, steps: seq<Step>, payload: seq<byte>, reply: seq<byte>)
    requires var s := After(start, steps); s.ready && s.calling.None? && s.counter < LAST_COUNTER
    ensures var s := After(start, steps);
            var asked, answered := Box(s.counter, payload), Box(s.counter + 1, reply);
            var t := Next(Next(Next(s, CallBegins(payload)), PeerOpens(asked, reply)), CallEnds(Some(answered)));
            t.ready && t.calling.None? && t.counter == s.counter + 2 && t.calls == s.calls + [Exchange(payload, reply)]
            && t.served == s.served + [Exchange(payload, reply)]
  {
    LockStep(start, steps);
    var s := After(start, steps);
    hide After;
    var asked, answered := Box(s.counter, payload), Box(s.counter + 1, reply);
    var u := Next(s, CallBegins(payload));
    assert asked == u.sealed[|s.sealed|];
    var v := Next(u, PeerOpens(asked, reply));
    assert answered == v.sealed[|u.sealed|];
  }
}
