/**
  The ring of sixty one-second buckets behind "requests in the last minute".
  Requests may take the lock in another order than they read the clock, and the
  clock may move on while the buckets are added up.
  */
module RequestRing {

  const SLOTS := 60

  datatype Bucket = Bucket(second: int, count: nat)

  // How many of the times are s.
  function At(times: seq<nat>, s: int): nat {
    if times == [] then 0 else At(times[..|times| - 1], s) + (if times[|times| - 1] == s then 1 else 0)
  }

  predicate InWindow(t: int, now: int) { 0 <= now - t < SLOTS }

  // How many of the times lie in the minute that ends now.
  function Within(times: seq<nat>, now: nat): nat {
    if times == [] then 0
    else Within(times[..|times| - 1], now) + (if InWindow(times[|times| - 1], now) then 1 else 0)
  }

  // The one second of that minute that falls on bucket i.
  function SecondFor(i: nat, now: nat): int { now - (now - i) % SLOTS }

  lemma SecondIsUnique(i: nat, now: nat, t: int)
    requires i < SLOTS
    ensures t == SecondFor(i, now) <==> t % SLOTS == i && InWindow(t, now)
  {
  }

  // The clock as it is read for each bucket in turn.
  predicate Readings(nows: seq<nat>) {
    |nows| == SLOTS && forall i, j | 0 <= i <= j < SLOTS :: nows[i] <= nows[j]
  }

  // The request is in the minute of its own bucket's reading.
  predicate Seen(t: nat, nows: seq<nat>)
    requires |nows| == SLOTS
  {
    InWindow(t, nows[t % SLOTS])
  }

  function SeenOf(times: seq<nat>, nows: seq<nat>): nat
    requires |nows| == SLOTS
  {
    if times == [] then 0
    else SeenOf(times[..|times| - 1], nows) + (if Seen(times[|times| - 1], nows) then 1 else 0)
  }

  function Sum(times: seq<nat>, nows: seq<nat>, n: nat): nat
    requires |nows| == SLOTS && n <= SLOTS
  {
    if n == 0 then 0 else Sum(times, nows, n - 1) + At(times, SecondFor(n - 1, nows[n - 1]))
  }

  lemma {:induction false} OneMore(times: seq<nat>, t: nat, nows: seq<nat>, n: nat)
    requires |nows| == SLOTS && n <= SLOTS
    ensures Sum(times + [t], nows, n) == Sum(times, nows, n) + (if Seen(t, nows) && t % SLOTS < n then 1 else 0)
    decreases n
  {
    if n != 0 {
      OneMore(times, t, nows, n - 1);
      var all := times + [t];
      assert all[..|all| - 1] == times;
      SecondIsUnique(n - 1, nows[n - 1], t);
    }
  }

  lemma {:induction false} NoneAtAll(nows: seq<nat>, n: nat)
    requires |nows| == SLOTS && n <= SLOTS
    ensures Sum([], nows, n) == 0
    decreases n
  {
    if n != 0 { NoneAtAll(nows, n - 1); }
  }

  // Bucket by bucket or request by request, the total is the same.
  lemma {:induction false} SumIsSeen(times: seq<nat>, nows: seq<nat>)
    requires |nows| == SLOTS
    ensures Sum(times, nows, SLOTS) == SeenOf(times, nows)
    decreases |times|
  {
    if times == [] {
      NoneAtAll(nows, SLOTS);
    } else {
      var n := |times| - 1;
      SumIsSeen(times[..n], nows);
      OneMore(times[..n], times[n], nows, SLOTS);
      assert times == times[..n] + [times[n]];
    }
  }

  // The total lies between the counts for the last and the first reading, so it
  // is exact whenever the second does not change meanwhile.
  lemma {:induction false} SumIsWithin(times: seq<nat>, nows: seq<nat>)
    requires Readings(nows) && forall j | 0 <= j < |times| :: times[j] <= nows[0]
    ensures Within(times, nows[SLOTS - 1]) <= Sum(times, nows, SLOTS) <= Within(times, nows[0])
    decreases |times|
  {
    SumIsSeen(times, nows);
    if times != [] {
      var n := |times| - 1;
      SumIsWithin(times[..n], nows);
      SumIsSeen(times[..n], nows);
    }
  }

  lemma {:induction false} AtSeen(times: seq<nat>, s: int)
    ensures At(times, s) > 0 <==> exists i :: 0 <= i < |times| && times[i] == s
    decreases |times|
  {
    if times != [] {
      var n := |times| - 1;
      AtSeen(times[..n], s);
      if At(times[..n], s) > 0 {
        var i :| 0 <= i < n && times[..n][i] == s;
        assert times[i] == s;
      }
    }
  }

  // A bucket counts the latest second of its own that anything began in.
  predicate Holds(b: Bucket, times: seq<nat>, i: nat) {
    && (b.count > 0 ==> b.count == At(times, b.second) && b.second % SLOTS == i)
    && (forall j | 0 <= j < |times| && times[j] % SLOTS == i :: times[j] <= b.second && b.count > 0)
  }

  function Adds(b: Bucket, now: int): nat { if InWindow(b.second, now) then b.count else 0 }

  lemma BucketAddsItsSecond(b: Bucket, times: seq<nat>, now: nat, i: nat)
    requires i < SLOTS && Holds(b, times, i) && forall j | 0 <= j < |times| :: times[j] <= now
    ensures Adds(b, now) == At(times, SecondFor(i, now))
  {
    var s := SecondFor(i, now);
    SecondIsUnique(i, now, s);
    SecondIsUnique(i, now, b.second);
    AtSeen(times, s);
    AtSeen(times, b.second);
  }

  lemma AtMore(times: seq<nat>, t: nat, s: int)
    ensures At(times + [t], s) == At(times, s) + (if t == s then 1 else 0)
  {
    assert (times + [t])[..|times|] == times;
  }

  // The bucket of the present second, after one more request.
  function Bumped(b: Bucket, now: nat): Bucket { Bucket(now, (if b.second != now then 0 else b.count) + 1) }

  lemma BeginKeepsBucket(b: Bucket, times: seq<nat>, i: nat, now: nat)
    requires i < SLOTS && Holds(b, times, i) && forall j | 0 <= j < |times| :: times[j] < now + SLOTS
    ensures Holds(if i == now % SLOTS then Bumped(b, now) else b, times + [now], i)
  {
    AtMore(times, now, now);
    AtMore(times, now, b.second);
    AtSeen(times, now);
    AtSeen(times, b.second);
    hide At;
  }

  class Ring {
    const buckets: array<Bucket>
    ghost var times: seq<nat>        // when each request began
    ghost var latest: nat

    ghost predicate Valid()
      reads this, buckets
    {
      buckets.Length == SLOTS
      && (forall i | 0 <= i < SLOTS :: Holds(buckets[i], times, i))
      && (forall j | 0 <= j < |times| :: times[j] <= latest)
    }

    constructor ()
      ensures Valid() && fresh(buckets) && times == [] && latest == 0
    {
      buckets := new Bucket[SLOTS](i => Bucket(0, 0));
      times, latest := [], 0;
    }

    // now was read before the lock was taken: it may be earlier than what other
    // requests brought, but not by a whole minute.
    method Begin(now: nat)
      requires Valid() && latest < now + SLOTS
      modifies this, buckets
      ensures Valid() && times == old(times) + [now] && latest == if now > old(latest) then now else old(latest)
    {
      var k := now % SLOTS;
      var b := buckets[k];
      if b.second != now { b := Bucket(now, 0); }
      buckets[k] := Bucket(b.second, b.count + 1);
      ghost var before := times;
      forall i | 0 <= i < SLOTS ensures Holds(buckets[i], before + [now], i) {
        BeginKeepsBucket(old(buckets[i]), before, i, now);
      }
      times, latest := before + [now], if now > latest then now else latest;
    }

    // The loop of Statistics, which reads the clock for every bucket.
    method Recent(nows: seq<nat>) returns (total: nat)
      requires Valid() && Readings(nows) && latest <= nows[0]
      ensures Within(times, nows[SLOTS - 1]) <= total <= Within(times, nows[0])
    {
      total := 0;
      for i := 0 to SLOTS
        invariant total == Sum(times, nows, i)
      {
        var b := buckets[i];
        var age := nows[i] - b.second;
        if 0 <= age < SLOTS { total := total + b.count; }
        BucketAddsItsSecond(b, times, nows[i], i);
      }
      SumIsWithin(times, nows);
    }
  }
}
