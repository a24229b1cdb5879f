/**
  The stream code of both ends over their own variables.  On the device each
  method is one stretch between two points where another task can run, proved
  to be the step of StreamSlot that StreamInv speaks about; on the host the
  loops of Conn are proved against the byte stream they carry.
  */
module StreamCode {
  import opened Frames
  import opened StreamSlot

  // --------------------------------------------------------------------- network.c

  class Connection {
    var fd: Option<nat>
    var generation: nat
    var session: bool
    var openSeq: nat
    var cancelSeq: nat
    var cancelArmed: bool
    var epoch: nat
    var closing: bool
    var dialQueue: Option<Job>
    ghost var rest: Device           // where the tasks stand, and what happened

    ghost function View(): Device
      reads this
    {
      rest.(fd := fd, generation := generation, session := session, openSeq := openSeq, cancelSeq := cancelSeq,
            cancelArmed := cancelArmed, epoch := epoch, closing := closing, dialQueue := dialQueue)
    }

    method Valid(netEpoch: nat) returns (valid: bool)
      requires netEpoch == rest.netEpoch
      ensures valid == StreamValid(View())
    {
      valid := session && !(cancelArmed && cancelSeq > openSeq) && epoch == netEpoch;
    }

    // close_generation with notify set: closed says whether a CLOSE follows.
    method CloseGeneration(wanted: Option<nat>) returns (cut: bool, closed: bool)
      modifies this`fd, this`generation, this`closing
      ensures cut == ((wanted.Some? ==> wanted.value == old(generation)) && !old(closing))
      ensures closed == (cut && session)
      ensures fd == (if cut then None else old(fd)) && generation == old(generation) + (if cut then 1 else 0)
      ensures closing == if cut then session else old(closing)
    {
      if wanted.Some? && generation != wanted.value { return false, false; }
      if closing { return false, false; }
      if fd.Some? { fd := None; }
      generation := generation + 1;
      closing := session;
      return true, session;
    }

    // The read task at the end of a stream it saw end.
    method OutgoingEnds(seen: nat)
      requires rest.outgoing.OEnd? && rest.outgoing.generation == seen
      modifies this
      ensures View() == OutgoingClose(old(View()))
    {
      ghost var before := View();
      var cut, closed := CloseGeneration(Some(seen));
      ghost var o := if closed then OCloseSending(before.processed) else OIdle;
      assert OutgoingClose(before) == CloseSection(before, cut, before.incoming, o) by { hide CloseSection; }
      hide OutgoingClose;
      rest := rest.(outgoing := o);
      assert View() == CloseSection(before, cut, before.incoming, o);
    }

    // incoming_task on a CLOSE or a failed write, at close_slot.
    method IncomingCloses()
      requires rest.incoming.IWriteFailed? || rest.incoming.ICloseSlot?
      modifies this
      ensures View() == IncomingClosing(old(View()))
    {
      ghost var before := View();
      var cut, closed := CloseGeneration(None);
      rest := rest.(incoming := AfterClosing(before));
      assert View() == CloseSection(before, cut, AfterClosing(before), before.outgoing);
    }

    // The last stretch of a CLOSE.
    method IncomingClears()
      requires rest.incoming.IReset?
      modifies this
      ensures View() == IncomingClosing(old(View()))
    {
      closing := false;
      session := false;
      rest := rest.(incoming := IIdle, processed := rest.processed + 1);
    }

    // user names the target to connect to.
    method IncomingOpens(allowed: bool, sequence: nat, user: nat, netEpoch: nat)
      requires rest.incoming == IOpenCheck(user, sequence) && netEpoch == rest.netEpoch
      modifies this
      ensures View() == IncomingOpen(old(View()), allowed)
    {
      if !allowed || session {
        rest := rest.(incoming := IReject(user));
      } else {
        Accept(sequence, user, netEpoch);
      }
    }

    method Accept(sequence: nat, user: nat, netEpoch: nat)
      requires rest.incoming == IOpenCheck(user, sequence) && netEpoch == rest.netEpoch && !session
      modifies this
      ensures View() == IncomingOpen(old(View()), true)
    {
      var queued := Occupy(sequence, user, netEpoch);
      rest := rest.(everOpened := true, incoming := if queued then IIdle else IQueueFull(user));
    }

    method Occupy(sequence: nat, user: nat, netEpoch: nat) returns (queued: bool)
      modifies this`session, this`epoch, this`openSeq, this`closing, this`generation, this`dialQueue
      ensures session && epoch == netEpoch && openSeq == sequence && !closing && generation == old(generation) + 1
      ensures queued == old(dialQueue).None?
      ensures dialQueue == if queued then Some(Job(generation, user)) else old(dialQueue)
    {
      session := true;
      epoch := netEpoch;
      openSeq := sequence;
      closing := false;
      generation := generation + 1;
      queued := dialQueue.None?;
      if queued { dialQueue := Some(Job(generation, user)); }
    }

    method DialEnds(job: Job, ok: bool, netEpoch: nat) returns (current: bool)
      requires rest.dial == DDialing(job) && netEpoch == rest.netEpoch
      modifies this
      ensures View() == DialEnd(old(View()), ok)
      ensures current == rest.dial.DSending?
    {
      var valid := Valid(netEpoch);
      current := session && generation == job.generation && !closing && valid;
      if current && ok { fd := Some(job.src); }
      rest := rest.(dial := if current then DSending(ok, job.src) else DIdle);
    }
  }

  // The write loop of incoming_task: turn i finds the socket turns[i].fd and
  // the stream valid or not, and the socket takes taken bytes, or none because
  // it is busy or broken; late: past the deadline.
  datatype Turn = Turn(valid: bool, fd: Option<nat>, taken: nat, busy: bool, late: bool)

  datatype Written = Written(fd: nat, bytes: seq<byte>)

  function Flat(w: seq<Written>): seq<byte> {
    if w == [] then [] else Flat(w[..|w| - 1]) + w[|w| - 1].bytes
  }

  // What the socket takes over some turns, if the data lasts.
  function Taken(turns: seq<Turn>): nat {
    if turns == [] then 0
    else
      var t := turns[|turns| - 1];
      Taken(turns[..|turns| - 1]) + if t.fd.None? then 0 else t.taken
  }

  lemma OneMoreTaken(turns: seq<Turn>, n: nat)
    requires n < |turns|
    ensures Taken(turns[..n + 1]) == Taken(turns[..n]) + if turns[n].fd.None? then 0 else turns[n].taken
  {
    assert turns[..n + 1][..n] == turns[..n];
  }

  lemma OneMoreFlat(out: seq<Written>, w: Written)
    ensures Flat(out + [w]) == Flat(out) + w.bytes
  {
    assert (out + [w])[..|out|] == out;
  }

  // Every byte goes out once and in order, only in turns that find the stream
  // valid and to the socket found there; failed says that a turn found no
  // socket or one that gave up, and then the rest is dropped.
  method WriteMessage(data: seq<byte>, turns: seq<Turn>) returns (out: seq<Written>, failed: bool, used: nat)
    ensures used <= |turns|
    ensures Flat(out) <= data
    ensures forall i | 0 <= i < |out| :: exists k :: 0 <= k < used && turns[k].valid && turns[k].fd == Some(out[i].fd)
    ensures |Flat(out)| == if Taken(turns[..used]) < |data| then Taken(turns[..used]) else |data|
    ensures failed ==>
              used > 0 && turns[used - 1].valid
              && (turns[used - 1].fd.None?
                  || (turns[used - 1].taken == 0 && (!turns[used - 1].busy || turns[used - 1].late)))
    ensures !failed && used < |turns| ==> Flat(out) == data || !turns[used].valid
  {
    out, failed, used := [], false, 0;
    var offset := 0;
    assert Taken(turns[..0]) == 0 && Flat(out) == data[..0];
    hide Taken, Flat;
    while offset < |data| && used < |turns| && turns[used].valid
      invariant used <= |turns| && offset <= |data| && Flat(out) == data[..offset] && !failed
      invariant offset == if Taken(turns[..used]) < |data| then Taken(turns[..used]) else |data|
      invariant forall i | 0 <= i < |out| ::
                  exists k :: 0 <= k < used && turns[k].valid && turns[k].fd == Some(out[i].fd)
      decreases |turns| - used
    {
      var t := turns[used];
      var left := |data| - offset;
      var sent := if t.fd.None? then 0 else if t.taken > left then left else t.taken;
      used := used + 1;
      OneMoreTaken(turns, used - 1);
      if sent > 0 {
        var w := Written(t.fd.value, data[offset..offset + sent]);
        OneMoreFlat(out, w);
        out := out + [w];
        assert turns[used - 1].valid && turns[used - 1].fd == Some(w.fd);
        offset := offset + sent;
      } else if t.fd.None? || !t.busy || t.late {
        failed := true;
        break;
      }
    }
  }

  // ----------------------------------------------------------------------- conn.go

  datatype Got = Bytes(data: seq<byte>) | Eof | Refused | Odd

  // What a Conn still has to hand out: bytes up to the first CLOSE or ERROR.
  function Stream(incoming: seq<Up>): seq<byte> {
    if incoming == [] || incoming[0].Closed? || incoming[0].Failed? || incoming[0].Overtaken? then []
    else (if incoming[0].Bytes? then incoming[0].bytes else []) + Stream(incoming[1..])
  }

  lemma SplitFront(b: seq<byte>, n: nat, rest: seq<byte>)
    requires n <= |b|
    ensures b + rest == b[..n] + (b[n..] + rest)
  {
    assert b == b[..n] + b[n..];
  }

  // Only a CLOSE or an ERROR ends the stream, and only another kind of frame is
  // reported as odd: the last of the n frames taken says which.
  predicate EndedBy(r: Got, was: bool, frames: seq<Up>, n: int)
    requires 0 <= n <= |frames|
  {
    match r
    case Bytes(_) => true
    case Eof => was || (n > 0 && frames[n - 1].Closed?)
    case Refused => n > 0 && (frames[n - 1].Failed? || frames[n - 1].Overtaken?)
    case Odd => n > 0 && frames[n - 1].Opened?
  }

  lemma DropOne(frames: seq<Up>, n: nat)
    requires n < |frames|
    ensures frames[n..][0] == frames[n] && frames[n..][1..] == frames[n + 1..]
  {
  }

  class HostConn {
    var buffer: seq<byte>
    var eof: bool
    var incoming: seq<Up>
    var closed: bool
    var released: bool
    var linkOpen: bool

    function Rest(): seq<byte>
      reads this
    {
      buffer + if eof then [] else Stream(incoming)
    }

    constructor ()
      ensures Rest() == [] && buffer == [] && !eof && incoming == [] && !closed && !released && linkOpen
    {
      buffer, eof, incoming := [], false, [];
      closed, released, linkOpen := false, false, true;
    }

    // Close, once: acked, the CLOSE was acknowledged; answered, the device's
    // came in time; ended, the link ended by itself meanwhile.  A slot is given
    // back in a session that stays open only past both halves of the barrier.
    method Close(acked: bool, answered: bool, ended: bool)
      requires closed ==> released
      modifies this`closed, this`released, this`linkOpen
      ensures closed && released
      ensures old(closed) ==> linkOpen == old(linkOpen)
      ensures !old(closed) ==> linkOpen == (old(linkOpen) && acked && answered && !ended)
    {
      if closed { return; }
      closed := true;
      if ended { linkOpen := false; }
      if acked {
        if !answered && linkOpen { linkOpen := false; }
      } else {
        linkOpen := false;
      }
      released := true;
    }

    // One Read: it hands out the next bytes of the stream, at most room of
    // them, and says the end has come only when nothing is left of it.
    method Read(room: nat) returns (r: Option<Got>)
      requires room > 0
      modifies this
      ensures r.Some? && r.value.Bytes? ==> 0 < |r.value.data| <= room && old(Rest()) == r.value.data + Rest()
      ensures r.Some? && r.value.Bytes? ==> |r.value.data| == room || buffer == []
      ensures r.Some? && r.value.Odd? ==> old(Rest()) == Rest()
      ensures r.None? || r.value.Eof? || r.value.Refused? ==> old(Rest()) == [] && Rest() == []
      ensures r.Some? && r.value.Eof? ==> eof && buffer == []
      ensures r.None? ==> incoming == [] && !eof
      ensures |incoming| <= |old(incoming)| && incoming == old(incoming)[|old(incoming)| - |incoming|..]
      ensures r.Some? && !r.value.Bytes? ==> EndedBy(r.value, old(eof), old(incoming), |old(incoming)| - |incoming|)
    {
      ghost var frames, n := incoming, 0;
      while true
        invariant Rest() == old(Rest()) && frames == old(incoming)
        invariant n <= |frames| && incoming == frames[n..]
        invariant eof ==> EndedBy(Eof, old(eof), frames, n)
        decreases |frames| - n
      {
        if buffer != [] {
          r := TakeBytes(room);
          return;
        }
        if eof { return Some(Eof); }
        if incoming == [] { return None; }        // it would wait
        DropOne(frames, n);
        n := n + 1;
        hide Stream;
        r := TakeFrame();
        if r.Some? { return; }
      }
    }

    method TakeBytes(room: nat) returns (r: Option<Got>)
      requires room > 0 && buffer != []
      modifies this`buffer
      ensures r.Some? && r.value.Bytes? && 0 < |r.value.data| <= room && old(Rest()) == r.value.data + Rest()
      ensures |r.value.data| == room || buffer == []
    {
      var n := if |buffer| > room then room else |buffer|;
      var out := buffer[..n];
      SplitFront(buffer, n, if eof then [] else Stream(incoming));
      buffer := buffer[n..];
      return Some(Got.Bytes(out));
    }

    // The next frame: bytes to hand out, the end, or an error to report at once.
    method TakeFrame() returns (r: Option<Got>)
      requires buffer == [] && !eof && incoming != []
      modifies this`buffer, this`eof, this`incoming
      ensures incoming == old(incoming)[1..] && Rest() == old(Rest())
      ensures r.None? && eof ==> buffer == [] && old(incoming)[0].Closed?
      ensures r.Some? ==> buffer == [] && (r.value.Refused? || r.value.Odd?)
      ensures r.Some? && r.value.Refused? ==> eof && (old(incoming)[0].Failed? || old(incoming)[0].Overtaken?)
      ensures r.Some? && r.value.Odd? ==> old(incoming)[0].Opened?
    {
      r := None;
      var f := incoming[0];
      incoming := incoming[1..];
      if f.Bytes? {
        buffer := f.bytes;
      } else if f.Closed? {
        eof := true;
      } else if f.Failed? || f.Overtaken? {
        eof := true;
        r := Some(Refused);
      } else {
        r := Some(Odd);
      }
    }
  }

  // Write: chunk by chunk, each a send that may fail, until closed is seen; the
  // frames are those that were acknowledged.
  method WriteStream(p: seq<byte>, sends: seq<(bool, bool)>) returns (total: nat, ok: bool, frames: seq<seq<byte>>)
    requires |sends| >= |p|
    ensures total <= |p| && Joined(frames) == p[..total]
    ensures forall i | 0 <= i < |frames| :: 0 < |frames[i]| <= DATA_CHUNK
    ensures ok <==> total == |p|
    ensures forall i | 0 <= i < |frames| :: |frames[i]| == DATA_CHUNK || (ok && i == |frames| - 1)
    ensures |frames| <= |sends| && forall i | 0 <= i < |frames| :: sends[i] == (false, true)
    ensures !ok ==> |frames| < |sends| && sends[|frames|] != (false, true)
  {
    total, ok, frames := 0, true, [];
    var rest, turn := p, 0;
    while rest != []
      invariant total <= |p| && rest == p[total..] && Joined(frames) == p[..total] && turn <= total
      invariant forall i | 0 <= i < |frames| :: 0 < |frames[i]| <= DATA_CHUNK
      invariant turn == |frames| && ok && forall i | 0 <= i < turn :: sends[i] == (false, true)
      invariant forall i | 0 <= i < |frames| :: |frames[i]| == DATA_CHUNK || (rest == [] && i == |frames| - 1)
      decreases |rest|
    {
      var (closed, sent) := sends[turn];
      turn := turn + 1;
      if closed { return total, false, frames; }
      var n := if |rest| > DATA_CHUNK then DATA_CHUNK else |rest|;
      if !sent { return total, false, frames; }
      ghost var before := frames;
      frames := frames + [rest[..n]];
      assert frames[..|frames| - 1] == before;
      total := total + n;
      rest := rest[n..];
    }
  }

  function Joined(frames: seq<seq<byte>>): seq<byte> {
    if frames == [] then [] else Joined(frames[..|frames| - 1]) + frames[|frames| - 1]
  }
}
