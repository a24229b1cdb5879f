/**
  What the two queues of a stream slot carry, read from front to back: which
  user of the slot a message belongs to, and how a run of messages moves the
  slot from one user to the next.
  */
module StreamOrder {
  import opened Frames
  import opened StreamSlot

  // ------------------------------------------------------------ host to device

  // The user whose messages come next, and whether its OPEN has gone by.
  datatype Place = Place(id: nat, seen: bool)

  function Rank(p: Place): nat { 2 * p.id + (if p.seen then 1 else 0) }

  function Pass(p: Place, m: Down): Place {
    match m
    case Open(_, _) => p.(seen := true)
    case Data(_, _, _) => p
    case Close(_, _) => Place(p.id + 1, false)
  }

  // strict: while a user is open only that user's DATA was queued.
  predicate Fits(p: Place, m: Down, strict: bool) {
    match m
    case Open(id, _) => id == p.id && !p.seen
    case Data(id, _, _) => strict && p.seen ==> id == p.id
    case Close(id, _) => id == p.id
  }

  predicate Chain(q: seq<Down>, p: Place, strict: bool) {
    q == [] || (Fits(p, q[0], strict) && Chain(q[1..], Pass(p, q[0]), strict))
  }

  function End(q: seq<Down>, p: Place): Place {
    if q == [] then p else End(q[1..], Pass(p, q[0]))
  }

  lemma {:induction false} EndNeverFallsBack(q: seq<Down>, p: Place, strict: bool)
    requires Chain(q, p, strict)
    ensures Rank(End(q, p)) >= Rank(p)
    decreases |q|
  {
    if q != [] { EndNeverFallsBack(q[1..], Pass(p, q[0]), strict); }
  }

  lemma {:induction false} ChainExtends(q: seq<Down>, p: Place, m: Down, strict: bool)
    requires Chain(q, p, strict) && Fits(End(q, p), m, strict)
    ensures Chain(q + [m], p, strict) && End(q + [m], p) == Pass(End(q, p), m)
    decreases |q|
  {
    if q != [] {
      assert (q + [m])[1..] == q[1..] + [m];
      ChainExtends(q[1..], Pass(p, q[0]), m, strict);
    } else {
      assert q + [m] == [m];
      assert [m][1..] == [];
    }
  }

  lemma {:induction false} ChainRelaxes(q: seq<Down>, p: Place, strict: bool)
    requires Chain(q, p, strict)
    ensures Chain(q, p, false)
    decreases |q|
  {
    if q != [] { ChainRelaxes(q[1..], Pass(p, q[0]), strict); }
  }

  // Sequence numbers strictly between low and high, growing.
  predicate Ascending(q: seq<Down>, low: nat, high: nat) {
    if q == [] then low < high
    else low < q[0].sequence && Ascending(q[1..], q[0].sequence, high)
  }

  lemma {:induction false} AscendingExtends(q: seq<Down>, low: nat, m: Down, high: nat)
    requires Ascending(q, low, m.sequence) && m.sequence < high
    ensures Ascending(q + [m], low, high)
    decreases |q|
  {
    if q != [] {
      assert (q + [m])[1..] == q[1..] + [m];
      AscendingExtends(q[1..], q[0].sequence, m, high);
    } else {
      assert [m][1..] == [];
    }
  }

  lemma AscendingFrom(q: seq<Down>, low: nat, low': nat, high: nat)
    requires Ascending(q, low, high) && low' <= low
    ensures Ascending(q, low', high)
  {
  }

  lemma {:induction false} AscendingTail(a: seq<Down>, m: Down, b: seq<Down>, low: nat, high: nat)
    requires Ascending(a + [m] + b, low, high)
    ensures low < m.sequence
    decreases |a|
  {
    if a != [] {
      assert (a + [m] + b)[0] == a[0];
      assert (a + [m] + b)[1..] == a[1..] + [m] + b;
      AscendingTail(a[1..], m, b, a[0].sequence, high);
    } else {
      assert (a + [m] + b)[0] == m;
    }
  }

  // ------------------------------------------------------------ device to host

  function Closes(e: seq<Up>): nat {
    if e == [] then 0 else Closes(e[..|e| - 1]) + (if e[|e| - 1].Closed? then 1 else 0)
  }

  // The bytes produced for one user, in order.
  function BytesOf(e: seq<Up>, id: nat): seq<byte> {
    if e == [] then []
    else BytesOf(e[..|e| - 1], id) + PayloadFor(e[|e| - 1], id)
  }

  function PayloadFor(m: Up, id: nat): seq<byte> {
    if m.Bytes? && m.src == id then m.bytes else []
  }

  function ClosedFor(e: seq<Up>, id: nat): nat {
    if e == [] then 0
    else ClosedFor(e[..|e| - 1], id) + (if e[|e| - 1] == Closed(id) then 1 else 0)
  }

  // A message was produced for the user whose CLOSE is the next one to come; an
  // overtaken ERROR for one whose CLOSE has gone by.
  predicate Tagged(e: seq<Up>, ids: nat) {
    e == [] || (
      var n := |e| - 1;
      Tagged(e[..n], ids)
      && (if e[n].Overtaken? then e[n].src < Closes(e[..n]) else e[n].src == Closes(e[..n]) && e[n].src < ids))
  }

  lemma Last(e: seq<Up>, m: Up)
    ensures (e + [m])[..|e + [m]| - 1] == e && (e + [m])[|e + [m]| - 1] == m
  {
  }

  lemma EmitOne(e: seq<Up>, m: Up, id: nat)
    ensures Closes(e + [m]) == Closes(e) + (if m.Closed? then 1 else 0)
    ensures BytesOf(e + [m], id) == BytesOf(e, id) + PayloadFor(m, id)
    ensures ClosedFor(e + [m], id) == ClosedFor(e, id) + (if m == Closed(id) then 1 else 0)
  {
    Last(e, m);
  }

  lemma TaggedExtends(e: seq<Up>, m: Up, ids: nat)
    requires Tagged(e, ids)
    requires if m.Overtaken? then m.src < Closes(e) else m.src == Closes(e) && m.src < ids
    ensures Tagged(e + [m], ids)
  {
    Last(e, m);
  }

  lemma {:induction false} TaggedRelaxes(e: seq<Up>, ids: nat, ids': nat)
    requires Tagged(e, ids) && ids <= ids'
    ensures Tagged(e, ids')
    decreases |e|
  {
    if e != [] { TaggedRelaxes(e[..|e| - 1], ids, ids'); }
  }

  lemma {:induction false} TaggedAt(e: seq<Up>, k: nat, ids: nat)
    requires Tagged(e, ids) && k < |e|
    ensures if e[k].Overtaken? then e[k].src < Closes(e[..k]) else e[k].src == Closes(e[..k]) < ids
    decreases |e|
  {
    var n := |e| - 1;
    if k < n {
      assert e[..n][..k] == e[..k];
      TaggedAt(e[..n], k, ids);
    }
  }

  lemma {:induction false} PrefixHasNoMore(e: seq<Up>, k: nat, id: nat)
    requires k <= |e|
    ensures Closes(e[..k]) <= Closes(e)
    ensures BytesOf(e[..k], id) <= BytesOf(e, id)
    decreases |e|
  {
    if k == |e| {
      assert e[..k] == e;
    } else {
      var n := |e| - 1;
      assert e[..n][..k] == e[..k];
      PrefixHasNoMore(e[..n], k, id);
    }
  }

  lemma {:induction false} NothingForLaterUsers(e: seq<Up>, ids: nat, id: nat)
    requires Tagged(e, ids) && ids <= id
    ensures BytesOf(e, id) == []
    decreases |e|
  {
    if e != [] { NothingForLaterUsers(e[..|e| - 1], ids, id); }
  }

  // Exactly one CLOSE for every user the device has finished with.
  lemma {:induction false} OneCloseEach(e: seq<Up>, ids: nat, id: nat)
    requires Tagged(e, ids)
    ensures ClosedFor(e, id) == if id < Closes(e) then 1 else 0
    decreases |e|
  {
    if e != [] { OneCloseEach(e[..|e| - 1], ids, id); }
  }
}
