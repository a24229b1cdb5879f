/**
  The update code of both ends over their own variables: the device's ota.*
  calls, and the host loop that turns an uploaded request body into them.
  */
module OtaUpload {
  import opened Frames
  import opened Ota

  // What one call meets: a change of session and the maintenance task before
  // it, whether it reaches the device and its reply the host, and how the
  // drivers fare.
  datatype Trip = Trip(
    session: Option<nat>, tick: bool, now: int, arrives: bool, answered: bool, first: bool, second: bool)
  {
    predicate Smooth() { session.None? && arrives && answered && first && second }

    // The tick before the call, if any, is not too late for an update last
    // active then.
    predicate InTime(activity: int) { tick ==> now - activity <= IDLE_US }
  }

  const MAX_IMAGE := 0x40_0000

  function Concat(pieces: seq<Bytes>): Bytes {
    if pieces == [] then [] else Concat(pieces[..|pieces| - 1]) + pieces[|pieces| - 1]
  }

  class Device {
    const digest: Digest
    const capacity: nat
    var session: nat
    var active: bool
    var size: nat
    var offset: nat
    var expected: Bytes
    var hasHash: bool
    var activity: int
    var otaSession: nat
    ghost var flash: Bytes
    var hashed: Bytes
    ghost var first: Option<Bytes>
    ghost var boots: seq<Selected>

    ghost function View(): State
      reads this
    {
      State(active, size, offset, expected, hasHash, activity, otaSession, session, flash, hashed, first, boots)
    }

    ghost predicate Valid()
      reads this
    {
      Inv(digest, View())
    }

    constructor (d: Digest, room: nat, s: nat)
      ensures Valid() && View() == Init(s) && digest == d && capacity == room && session == s
    {
      digest, capacity, session := d, room, s;
      active, size, offset, expected, hasHash, activity, otaSession := false, 0, 0, [], false, 0, 0;
      flash, hashed, first, boots := [], [], None, [];
    }

    method AbortOta()
      modifies this`active, this`size, this`offset
      ensures View() == Aborted(old(View()))
    {
      active, size, offset := false, 0, 0;
    }

    // What begin sets once the partition is ready.
    method Start(now: int, n: nat, hash: Param)
      modifies this
      ensures View() == old(View()).(
                          active := true, size := n, offset := 0, activity := now, otaSession := session,
                          hasHash := hash.Given?, expected := if hash.Given? then hash.digest else old(expected),
                          first := if hash.Given? then Some(hash.digest) else None, flash := [], hashed := [])
    {
      hasHash := hash.Given?;
      if hash.Given? { expected := hash.digest; }
      first := if hash.Given? then Some(hash.digest) else None;
      active, size, offset, activity, otaSession, flash, hashed := true, n, 0, now, session, [], [];
    }

    method Begin(now: int, n: int, hash: Param, pending: bool, prepared: bool, hashReady: bool) returns (r: Reply)
      requires Valid()
      modifies this
      ensures (View(), r) == BeginNow(old(View()), Step.Begin(now, n, capacity, hash, pending, prepared, hashReady))
      ensures Valid()
    {
      BeginKeepsInv(digest, View(), Step.Begin(now, n, capacity, hash, pending, prepared, hashReady));
      hide Inv;
      if active || pending || n < SMALLEST || n > capacity || hash.Bad? || !prepared { return Refused; }
      Start(now, n, hash);
      if !hashReady {
        AbortOta();
        return Refused;
      }
      return Ok;
    }

    method Write(now: int, at: int, data: Option<Bytes>, flashOk: bool, hashOk: bool) returns (r: Reply)
      requires Valid()
      modifies this
      ensures (View(), r) == WriteNow(old(View()), Step.Write(now, at, data, flashOk, hashOk))
      ensures Valid()
    {
      if !active || at != offset || data.None? { return Refused; }
      var bytes := data.value;
      if |bytes| > CHUNK || bytes == [] || offset + |bytes| > size { return Refused; }
      if !flashOk {
        AbortOta();
        return Refused;
      }
      flash := flash + bytes;
      if !hashOk {
        AbortOta();
        return Refused;
      }
      hashed := hashed + bytes;
      offset, activity := offset + |bytes|, now;
      return Ok;
    }

    method End(hash: Param, hashOk: bool, verified: bool, selected: bool) returns (r: Reply)
      requires Valid()
      modifies this
      ensures (View(), r) == EndNow(digest, old(View()), Step.End(hash, hashOk, verified, selected))
      ensures Valid()
    {
      EndKeepsInv(digest, View(), Step.End(hash, hashOk, verified, selected));
      hide Sound;
      if !active || offset != size { return Refused; }
      if (!hasHash && hash.Absent?) || hash.Bad? { return Refused; }
      if hash.Given? {
        if hasHash && hash.digest != expected {
          AbortOta();
          return Refused;
        }
        expected := hash.digest;
      }
      if !hashOk || digest(hashed) != expected {
        AbortOta();
        return Refused;
      }
      active := false;
      if !verified || !selected { return Refused; }
      boots := boots + [Selected(flash, size, first, if hash.Given? then Some(hash.digest) else None, session)];
      return Ok;
    }

    method NewSession(x: nat)
      requires Valid()
      modifies this`session
      ensures View() == old(View()).(session := x) && Valid()
    {
      session := x;
    }

    method Tick(now: int)
      requires Valid()
      modifies this`active, this`size, this`offset
      ensures View() == TickNow(old(View()), now) && Valid()
    {
      if active && (now - activity > IDLE_US || otaSession != session) { AbortOta(); }
    }
  }

  // What happens to the device before a call.
  method Before(dev: Device, t: Trip)
    requires dev.Valid()
    modifies dev
    ensures dev.Valid() && dev.boots == old(dev.boots)
    ensures dev.active ==> old(dev.active)
    ensures dev.active ==> dev.View() == old(dev.View()).(session := dev.session)
    ensures t.Smooth() && old(dev.active) && old(dev.otaSession) == old(dev.session) && t.InTime(old(dev.activity)) ==>
              dev.View() == old(dev.View())
    ensures t.session.None? ==> dev.session == old(dev.session)
    ensures !old(dev.active) ==> !dev.active
  {
    if t.session.Some? { dev.NewSession(t.session.value); }
    if t.tick { dev.Tick(t.now); }
  }

  // An update of the current session is under way: body is written so far.
  ghost predicate Uploading(dev: Device, body: Bytes, size: int)
    reads dev
  {
    dev.active && dev.flash == body && dev.size == size && dev.first == None && !dev.hasHash
  }

  // One call as the host sees it: Ok only if it arrived, was accepted and the
  // reply came back.
  method CallWrite(dev: Device, ghost body: Bytes, size: int, data: Bytes, t: Trip) returns (r: Reply)
    requires dev.Valid() && Uploading(dev, body, size) && 0 < |data| <= CHUNK && |body| + |data| <= size
    modifies dev
    ensures dev.Valid() && dev.boots == old(dev.boots)
    ensures r.Ok? ==>
              Uploading(dev, body + data, size) && dev.activity == t.now
              && dev.otaSession == old(dev.otaSession)
    ensures t.Smooth() && old(dev.otaSession) == old(dev.session) && t.InTime(old(dev.activity)) ==>
              r.Ok? && dev.session == old(dev.session)
  {
    var at := dev.offset;
    Before(dev, t);
    if !t.arrives { return Refused; }
    r := dev.Write(t.now, at, Some(data), t.first, t.second);
    if !t.answered { r := Refused; }
  }

  method CallEnd(dev: Device, ghost body: Bytes, size: int, sum: Bytes, t: Trip) returns (r: Reply)
    requires dev.Valid() && Uploading(dev, body, size) && |body| == size
    modifies dev
    ensures dev.Valid()
    ensures dev.boots == old(dev.boots)
            || dev.boots == old(dev.boots) + [Selected(body, size, None, Some(sum), dev.session)]
    ensures r.Ok? ==> dev.boots != old(dev.boots)
    ensures t.Smooth() && old(dev.otaSession) == old(dev.session) && t.InTime(old(dev.activity)) ==>
              sum == dev.digest(body) ==> r.Ok?
  {
    Before(dev, t);
    if !t.arrives { return Refused; }
    r := dev.End(Given(sum), true, t.first, t.second);
    if !t.answered { r := Refused; }
  }

  method CallBegin(dev: Device, n: int, t: Trip) returns (r: Reply)
    requires dev.Valid()
    modifies dev
    ensures dev.Valid() && dev.boots == old(dev.boots)
    ensures r.Ok? ==> n >= 0 && Uploading(dev, [], n) && dev.activity == t.now && dev.otaSession == dev.session
    ensures t.Smooth() && !old(dev.active) && SMALLEST <= n <= dev.capacity ==> r.Ok?
  {
    Before(dev, t);
    if !t.arrives { return Refused; }
    r := dev.Begin(t.now, n, Absent, false, t.first, t.second);
    if !t.answered { r := Refused; }
  }

  lemma ConcatMore(pieces: seq<Bytes>, i: nat)
    requires i < |pieces|
    ensures Concat(pieces[..i + 1]) == Concat(pieces[..i]) + pieces[i]
  {
    assert pieces[..i + 1][..i] == pieces[..i];
  }

  // The time of the last call before piece i is sent; empty pieces make none.
  function LastCall(pieces: seq<Bytes>, trips: seq<Trip>, i: nat): int
    requires i <= |pieces| < |trips|
  {
    if i == 0 then trips[0].now
    else if pieces[i - 1] == [] then LastCall(pieces, trips, i - 1) else trips[i].now
  }

  // Every call is smooth, and ticks come while the update is still fresh.
  predicate AllGoWell(pieces: seq<Bytes>, trips: seq<Trip>)
    requires |trips| == |pieces| + 3
  {
    && (forall i | 0 <= i < |trips| :: trips[i].Smooth())
    && (forall i | 0 <= i < |pieces| :: pieces[i] != [] ==> trips[i + 1].InTime(LastCall(pieces, trips, i)))
    && trips[|pieces| + 1].InTime(LastCall(pieces, trips, |pieces|))
  }

  lemma {:induction false} ConcatGrows(pieces: seq<Bytes>, i: nat)
    requires i <= |pieces|
    ensures |Concat(pieces[..i])| <= |Concat(pieces)|
    decreases |pieces| - i
  {
    if i == |pieces| {
      assert pieces[..i] == pieces;
    } else {
      ConcatMore(pieces, i);
      ConcatGrows(pieces, i + 1);
    }
  }

  // The upload handler: read the body in pieces of at most a chunk, hash and
  // send each, then finish with the digest of all of them; anything else ends
  // in an abort.  A new bootable image, if any, is the body, and there is one
  // whenever the handler reports success; and it does report success when the
  // body is whole and of a size the device takes, and every call goes well.
  method Firmware(dev: Device, pieces: seq<Bytes>, interrupted: bool, contentLength: int, trips: seq<Trip>)
    returns (ok: bool)
    requires dev.Valid() && |trips| == |pieces| + 3
    requires forall i | 0 <= i < |pieces| :: |pieces[i]| <= CHUNK
    modifies dev
    ensures dev.Valid()
    ensures ok ==>
              !interrupted && |Concat(pieces)| == contentLength && 1 <= contentLength <= MAX_IMAGE
              && |dev.boots| == |old(dev.boots)| + 1
    ensures |dev.boots| > |old(dev.boots)| ==>
              var body := Concat(pieces);
              dev.boots == old(dev.boots) + [Selected(body, |body|, None, Some(dev.digest(body)), dev.session)]
    ensures |dev.boots| <= |old(dev.boots)| ==> dev.boots == old(dev.boots)
    ensures (!interrupted && |Concat(pieces)| == contentLength && SMALLEST <= contentLength <= MAX_IMAGE
             && contentLength <= dev.capacity && !old(dev.active) && AllGoWell(pieces, trips)) ==> ok
  {
    if contentLength <= 0 || contentLength > MAX_IMAGE { return false; }
    var r := CallBegin(dev, contentLength, trips[0]);
    if r.Refused? { return false; }
    var body := [];
    var sent, i := true, 0;
    ghost var boots := dev.boots;
    ghost var well := |Concat(pieces)| == contentLength && AllGoWell(pieces, trips);
    while i < |pieces| && sent
      invariant i <= |pieces| && dev.Valid() && dev.boots == boots
      invariant sent ==> body == Concat(pieces[..i]) && |body| <= contentLength && Uploading(dev, body, contentLength)
      invariant well ==> sent && dev.activity == LastCall(pieces, trips, i) && dev.otaSession == dev.session
      decreases |pieces| - i, sent
    {
      sent, body := SendPiece(dev, pieces, i, body, contentLength, trips);
      i := i + 1;
    }
    assert pieces[..|pieces|] == pieces;
    ok := false;
    if sent && !interrupted && |body| == contentLength {
      r := CallEnd(dev, body, contentLength, dev.digest(body), trips[|pieces| + 1]);
      ok := r.Ok?;
    }
    if !ok && trips[|pieces| + 2].arrives { dev.AbortOta(); }
  }

  // One turn of the handler's loop.
  method SendPiece(dev: Device, pieces: seq<Bytes>, i: nat, body: Bytes, contentLength: int, trips: seq<Trip>)
    returns (sent: bool, body': Bytes)
    requires dev.Valid() && |trips| == |pieces| + 3 && i < |pieces| && |pieces[i]| <= CHUNK
    requires body == Concat(pieces[..i]) && |body| <= contentLength && Uploading(dev, body, contentLength)
    modifies dev
    ensures dev.Valid() && dev.boots == old(dev.boots)
    ensures sent ==>
              body' == Concat(pieces[..i + 1]) && |body'| <= contentLength
              && Uploading(dev, body', contentLength)
    ensures (|Concat(pieces)| == contentLength && AllGoWell(pieces, trips)
             && old(dev.activity) == LastCall(pieces, trips, i) && old(dev.otaSession) == old(dev.session)) ==>
              sent && dev.activity == LastCall(pieces, trips, i + 1) && dev.otaSession == dev.session
  {
    ConcatMore(pieces, i);
    ConcatGrows(pieces, i + 1);
    var n := |pieces[i]|;
    if n == 0 {
      assert body + pieces[i] == body;
      return true, body;
    }
    if |body| + n > contentLength { return false, body; }
    var r := CallWrite(dev, body, contentLength, pieces[i], trips[i + 1]);
    return r.Ok?, body + pieces[i];
  }
}
