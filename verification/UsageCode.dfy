/**
  The observer's body reader over its own variables: whatever the caller reads
  is passed on untouched, and what is recorded depends on the body alone.
  */
module UsageCode {
  import opened Frames
  import opened UsageObserver
  import opened UsageEvents

  class UsageBody {
    const metadata: Metadata
    const sse: bool
    var found: Found
    var buffer: Bytes
    var event: Bytes
    var discard: bool
    var eventDiscard: bool
    var exhausted: bool
    ghost var passed: Bytes          // everything the caller has been given

    function View(): Scanner
      reads this
    {
      Scanner(buffer, discard, event, eventDiscard, found)
    }

    // A JSON answer is looked at only if all of it fits; no text at all is no JSON.
    ghost predicate Valid()
      reads this
    {
      metadata([]) == NOTHING &&
      if sse then !exhausted && View() == Scan(metadata, passed)
      else exhausted == (|passed| > JSON_LIMIT) && (!exhausted ==> buffer == passed) && |buffer| <= JSON_LIMIT
    }

    constructor (m: Metadata, isSse: bool)
      requires m([]) == NOTHING
      ensures Valid() && passed == [] && metadata == m && sse == isSse && found == NOTHING
    {
      metadata, sse := m, isSse;
      found, buffer, event := NOTHING, [], [];
      discard, eventDiscard, exhausted, passed := false, false, false, [];
    }

    method TakeLine(line: Bytes)
      modifies this`event, this`eventDiscard, this`found
      ensures View() == Line(metadata, old(View()), line)
    {
      var text := TrimSuffix(line, CR);
      if text == [] {
        if !eventDiscard && event != [] { found := Override(found, metadata(TrimSuffix(event, LF))); }
        event, eventDiscard := [], false;
        return;
      }
      if IsData(text) && !eventDiscard {
        var data := text[5..];
        if data != [] && data[0] == SPACE { data := data[1..]; }
        assert data == DataOf(text);
        if |event| + |data| + 1 > EVENT_LIMIT {
          event, eventDiscard := [], true;
          return;
        }
        event := event + data;
        event := event + [LF];
      }
    }

    method TakeByte(v: byte)
      modifies this`buffer, this`discard, this`event, this`eventDiscard, this`found
      ensures View() == Byte(metadata, old(View()), v)
    {
      hide Line, Override;
      if v == LF {
        if discard { eventDiscard := true; } else { TakeLine(buffer); }
        buffer, discard := [], false;
      } else if !discard {
        if |buffer| == LINE_LIMIT {
          buffer, discard := [], true;
        } else {
          buffer := buffer + [v];
        }
      }
    }

    method TakeBytes(p: Bytes)
      requires sse && Valid()
      modifies this
      ensures Valid() && passed == old(passed) + p
    {
      hide Byte;
      for i := 0 to |p|
        invariant Valid() && passed == old(passed) + p[..i]
      {
        TakeByte(p[i]);
        passed := passed + [p[i]];
        assert passed[..|passed| - 1] == old(passed) + p[..i];
      }
    }

    // One read: the caller gets what the connection gave, untouched.
    method Read(p: Bytes, eof: bool) returns (out: Bytes, end: bool)
      requires Valid()
      modifies this
      ensures Valid() && out == p && end == eof && passed == old(passed) + p
      ensures sse ==> found == Parsed(metadata, passed)
      // what was recorded of finished events, however the stream goes on
      ensures sse ==>
                forall events, rows, tail |
                  Wellformed(events) && AllProper(rows) && 0x0a !in tail
                  && passed == Stream(events) + (Written(rows) + tail) :: found == Recorded(metadata, events)
      ensures !sse && !eof ==> found == old(found)
      ensures !sse && eof ==>
                found == if |passed| <= JSON_LIMIT then Override(old(found), metadata(passed)) else old(found)
      ensures |buffer| <= (if sse then LINE_LIMIT else JSON_LIMIT) && (sse ==> |event| <= EVENT_LIMIT)
    {
      out, end := p, eof;
      if sse {
        TakeBytes(p);
        ScanIsParse(metadata, passed);
        forall events, rows, tail |
            Wellformed(events) && AllProper(rows) && 0x0a !in tail
            && passed == Stream(events) + (Written(rows) + tail)
          ensures Parsed(metadata, passed) == Recorded(metadata, events)
        {
          StreamIsRecorded(metadata, events, rows, tail);
        }
        hide Scan, Parsed, Lines, Events;
        return;
      }
      if !exhausted {
        if |buffer| + |p| <= JSON_LIMIT {
          buffer := buffer + p;
        } else {
          buffer, exhausted := [], true;
        }
        passed := passed + p;
        if eof { found := Override(found, metadata(buffer)); }
      } else {
        passed := passed + p;
      }
    }
  }
}
