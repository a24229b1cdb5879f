/**
  What has happened on the reliable channels, in one direction of the link:
  the frames a sender handed over, the frames the receiver took, and the sends
  that completed, per session and channel.  The laws here are independent of
  how either end is implemented.
  */
module LinkHistory {
  import opened Frames

  datatype Key = Key(session: u32, channel: byte)

  type Log = map<Key, seq<Frame>>

  datatype History = History(sent: Log, got: Log, done: Log)

  const NO_HISTORY := History(map[], map[], map[])

  function KeyOf(f: Frame): Key { Key(f.session, f.channel) }

  function At(log: Log, k: Key): seq<Frame> { if k in log then log[k] else [] }

  function Append(log: Log, f: Frame): Log { log[KeyOf(f) := At(log, KeyOf(f)) + [f]] }

  // f is the frame that holds its sequence number.
  predicate Recorded(log: Log, f: Frame) {
    1 <= f.sequence <= |At(log, KeyOf(f))| && At(log, KeyOf(f))[f.sequence - 1] == f
  }

  // The receiver has taken everything up to f's sequence number.
  predicate Taken(log: Log, f: Frame) { f.sequence <= |At(log, KeyOf(f))| }

  ghost predicate Numbered(log: Log) {
    forall k, i {:trigger At(log, k)[i]} | 0 <= i < |At(log, k)| ::
        At(log, k)[i].sequence == i + 1 && KeyOf(At(log, k)[i]) == k
  }

  // The receiver is at most one frame behind; completed sends were received.
  predicate InStep(h: History, k: Key) {
    && At(h.done, k) <= At(h.got, k) <= At(h.sent, k)
    && |At(h.sent, k)| <= |At(h.got, k)| + 1
  }

  ghost predicate Ordered(h: History) {
    Numbered(h.sent) && forall k :: InStep(h, k)
  }

  ghost predicate Grows(old_: History, new_: History) {
    forall k :: At(old_.sent, k) <= At(new_.sent, k) && At(old_.got, k) <= At(new_.got, k)
  }

  function Record(h: History, f: Frame): History {
    if Recorded(h.sent, f) then h else h.(sent := Append(h.sent, f))
  }

  function Take(h: History, f: Frame): History { h.(got := Append(h.got, f)) }

  function Finish(h: History, f: Frame): History { h.(done := Append(h.done, f)) }

  // No frame is taken twice.
  lemma NoDuplicates(h: History, k: Key)
    requires Ordered(h)
    ensures forall i, j | 0 <= i < j < |At(h.got, k)| :: At(h.got, k)[i] != At(h.got, k)[j]
  {
    assert InStep(h, k);
    forall i, j | 0 <= i < j < |At(h.got, k)|
      ensures At(h.got, k)[i] != At(h.got, k)[j]
    {
      assert At(h.got, k)[i] == At(h.sent, k)[i] && At(h.got, k)[j] == At(h.sent, k)[j];
    }
  }

  lemma RecordKeepsOrder(h: History, f: Frame)
    requires Ordered(h)
    requires
      || Recorded(h.sent, f)
      || (f.sequence == |At(h.sent, KeyOf(f))| + 1 && |At(h.sent, KeyOf(f))| <= |At(h.got, KeyOf(f))|)
    ensures Ordered(Record(h, f)) && Grows(h, Record(h, f))
    ensures Recorded(Record(h, f).sent, f)
  {
    var h' := Record(h, f);
    forall k ensures InStep(h', k) && At(h.sent, k) <= At(h'.sent, k) {
      assert InStep(h, k);
    }
    forall k, i | 0 <= i < |At(h'.sent, k)|
      ensures At(h'.sent, k)[i].sequence == i + 1 && KeyOf(At(h'.sent, k)[i]) == k
    {
      if i < |At(h.sent, k)| { assert At(h'.sent, k)[i] == At(h.sent, k)[i]; }
    }
  }

  lemma TakeKeepsOrder(h: History, f: Frame)
    requires Ordered(h) && Recorded(h.sent, f) && f.sequence == |At(h.got, KeyOf(f))| + 1
    ensures Ordered(Take(h, f)) && Grows(h, Take(h, f))
  {
    var h' := Take(h, f);
    forall k ensures InStep(h', k) && At(h.got, k) <= At(h'.got, k) {
      assert InStep(h, k);
    }
  }

  lemma FinishKeepsOrder(h: History, f: Frame)
    requires Ordered(h) && Recorded(h.sent, f)
    requires f.sequence == |At(h.done, KeyOf(f))| + 1 && Taken(h.got, f)
    ensures Ordered(Finish(h, f)) && Grows(h, Finish(h, f))
  {
    var h' := Finish(h, f);
    forall k ensures InStep(h', k) {
      assert InStep(h, k);
      if k == KeyOf(f) {
        var i := f.sequence - 1;
        assert At(h.got, k)[i] == At(h.sent, k)[i] == f;
      }
    }
  }

  lemma GrowthKeeps(h: History, h': History, f: Frame)
    requires Grows(h, h')
    ensures Recorded(h.sent, f) ==> Recorded(h'.sent, f)
    ensures Taken(h.got, f) ==> Taken(h'.got, f)
  {
    var k := KeyOf(f);
    assert At(h.sent, k) <= At(h'.sent, k) && At(h.got, k) <= At(h'.got, k);
  }
}
