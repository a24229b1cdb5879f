/**
  A provider's event stream in the bytes the provider writes, and what the
  observer records of it: of each event that ends in a blank line the text of
  its data lines, joined by line feeds.
  */
module UsageEvents {
  import opened Frames
  import opened UsageObserver

  // A line of an event: data with or without the one space that is not part of
  // it, or any other field or comment.
  datatype Content = Spaced(text: Bytes) | Tight(text: Bytes) | Other(bytes: Bytes)

  // crlf: it ends in CR LF, not in LF alone.
  datatype Row = Row(line: Content, crlf: bool)

  datatype Event = Event(rows: seq<Row>, crlf: bool)

  predicate Plain(b: Bytes) { 0x0a !in b && 0x0d !in b }

  predicate Proper(l: Content) {
    match l
    case Spaced(t) => Plain(t)
    case Tight(t) => Plain(t) && (t == [] || t[0] != 0x20)
    case Other(b) => Plain(b) && b != [] && (|b| < 5 || b[..5] != [0x64, 0x61, 0x74, 0x61, 0x3a])
  }

  function Bare(l: Content): Bytes {
    match l
    case Spaced(t) => [0x64, 0x61, 0x74, 0x61, 0x3a, 0x20] + t
    case Tight(t) => [0x64, 0x61, 0x74, 0x61, 0x3a] + t
    case Other(b) => b
  }

  function Raw(r: Row): Bytes { Bare(r.line) + if r.crlf then [0x0d] else [] }

  function Written(rows: seq<Row>): Bytes {
    if rows == [] then [] else Written(rows[..|rows| - 1]) + (Raw(rows[|rows| - 1]) + [0x0a])
  }

  function BlankLine(crlf: bool): Bytes { if crlf then [0x0d, 0x0a] else [0x0a] }

  function Stream(events: seq<Event>): Bytes {
    if events == [] then []
    else
      var e := events[|events| - 1];
      Stream(events[..|events| - 1]) + (Written(e.rows) + BlankLine(e.crlf))
  }

  // The data lines' texts, each with a line feed behind it.
  function Texts(rows: seq<Row>): Bytes {
    if rows == [] then []
    else
      var l := rows[|rows| - 1].line;
      Texts(rows[..|rows| - 1]) + if l.Other? then [] else l.text + [0x0a]
  }

  predicate Observable(rows: seq<Row>) {
    (forall i | 0 <= i < |rows| :: |Raw(rows[i])| <= 65536) && |Texts(rows)| <= 65536
  }

  // What one event tells: nothing if it has no data or is too large.
  function Told(m: Metadata, rows: seq<Row>): Found {
    var t := Texts(rows);
    if Observable(rows) && t != [] then m(t[..|t| - 1]) else Found(None, None)
  }

  // Of what the events tell the last stands, model and usage each for itself.
  function Recorded(m: Metadata, events: seq<Event>): Found {
    if events == [] then Found(None, None)
    else
      var before, f := Recorded(m, events[..|events| - 1]), Told(m, events[|events| - 1].rows);
      Found(if f.model.Some? then f.model else before.model, if f.usage.Some? then f.usage else before.usage)
  }

  predicate AllProper(rows: seq<Row>) { forall i | 0 <= i < |rows| :: Proper(rows[i].line) }

  predicate Wellformed(events: seq<Event>) { forall i | 0 <= i < |events| :: AllProper(events[i].rows) }

  // ------------------------------------------------------------------- the proof

  function RawLines(rows: seq<Row>): seq<Bytes> {
    if rows == [] then [] else RawLines(rows[..|rows| - 1]) + [Raw(rows[|rows| - 1])]
  }

  // A line joins the others when its line feed comes.
  lemma {:induction false} TailStaysOpen(body: Bytes, tail: Bytes)
    requires Lines(body).open == [] && 0x0a !in tail
    ensures Lines(body + tail) == Parts(Lines(body).complete, tail)
    decreases |tail|
  {
    if tail == [] {
      assert body + tail == body;
    } else {
      var n := |tail| - 1;
      TailStaysOpen(body, tail[..n]);
      assert (body + tail)[..|body + tail| - 1] == body + tail[..n];
      assert tail == tail[..n] + [tail[n]];
    }
  }

  lemma LineEnds(body: Bytes, line: Bytes)
    requires Lines(body).open == [] && 0x0a !in line
    ensures Lines(body + (line + [0x0a])) == Parts(Lines(body).complete + [line], [])
  {
    TailStaysOpen(body, line);
    Regroup(body, line, [0x0a]);
    LineFeedEnds(body + line);
  }

  lemma LineFeedEnds(body: Bytes)
    ensures Lines(body + [0x0a]) == Parts(Lines(body).complete + [Lines(body).open], [])
  {
    assert (body + [0x0a])[..|body|] == body;
  }

  lemma RawIsOneLine(r: Row)
    requires Proper(r.line)
    ensures 0x0a !in Raw(r) && TrimSuffix(Raw(r), CR) == Bare(r.line) && Bare(r.line) != []
    ensures IsData(Bare(r.line)) == !r.line.Other?
    ensures !r.line.Other? ==> DataOf(Bare(r.line)) == r.line.text
  {
    var b := Bare(r.line);
    assert 0x0d !in b && 0x0a !in b;
    if r.crlf {
      assert Raw(r)[..|Raw(r)| - 1] == b;
    } else {
      assert Raw(r) == b;
      assert b[|b| - 1] in b;
    }
    match r.line
    case Spaced(t) => assert b[6..] == t;
    case Tight(t) => assert b[5..] == t;
    case Other(_) =>
  }

  lemma Regroup(a: Bytes, b: Bytes, c: Bytes)
    ensures a + (b + c) == (a + b) + c
  {
  }

  lemma RegroupLines(a: seq<Bytes>, b: seq<Bytes>, c: seq<Bytes>)
    ensures a + (b + c) == (a + b) + c
  {
  }

  // The lines of an event so far, as the whole-body parser has them.
  lemma {:induction false} RowsAreRead(body: Bytes, rows: seq<Row>)
    requires Lines(body).open == [] && AllProper(rows)
    ensures Lines(body + Written(rows)) == Parts(Lines(body).complete + RawLines(rows), [])
    decreases |rows|
  {
    hide Lines, Raw, Proper;
    if rows == [] {
      assert body + [] == body && Lines(body).complete + [] == Lines(body).complete;
    } else {
      var front, r := rows[..|rows| - 1], rows[|rows| - 1];
      var c := Lines(body).complete;
      RowsAreRead(body, front);
      RawIsOneLine(r);
      LineEnds(body + Written(front), Raw(r));
      Regroup(body, Written(front), Raw(r) + [0x0a]);
      RegroupLines(c, RawLines(front), [Raw(r)]);
    }
  }

  lemma {:induction false} RowsJoinEvent(lines: seq<Bytes>, rows: seq<Row>)
    requires Events(lines).open == [] && AllProper(rows)
    ensures Events(lines + RawLines(rows)) == Parts(Events(lines).complete, RawLines(rows))
    decreases |rows|
  {
    hide Events, Raw, Proper, Bare;
    if rows == [] {
      assert lines + [] == lines;
    } else {
      var front, r := rows[..|rows| - 1], rows[|rows| - 1];
      RowsJoinEvent(lines, front);
      RawIsOneLine(r);
      RegroupLines(lines, RawLines(front), [Raw(r)]);
      OneMoreInEvents(lines + RawLines(front), Raw(r));
      hide TrimSuffix;
    }
  }

  lemma {:induction false} RowsAreTold(rows: seq<Row>)
    requires AllProper(rows)
    ensures Data(RawLines(rows)) == Texts(rows) && (Usable(RawLines(rows)) <==> Observable(rows))
    decreases |rows|
  {
    if rows == [] {
      NoLines();
    } else {
      var front, r := rows[..|rows| - 1], rows[|rows| - 1];
      assert RawLines(rows) == RawLines(front) + [Raw(r)] && front + [r] == rows && AllProper(front);
      RawIsOneLine(r);
      hide Data, Usable, Raw, Bare, IsData, DataOf, TrimSuffix, Proper, Observable, AllProper, RawLines, Texts;
      RowsAreTold(front);
      OneMoreLine(RawLines(front), Raw(r));
      OneMoreObserved(front, r);
    }
  }

  lemma OneMoreObserved(rows: seq<Row>, r: Row)
    ensures Texts(rows + [r]) == Texts(rows) + if r.line.Other? then [] else r.line.text + [0x0a]
    ensures Observable(rows + [r]) <==>
              Observable(rows) && |Raw(r)| <= 65536
              && |Texts(rows)| + (if r.line.Other? then 0 else |r.line.text| + 1) <= 65536
  {
    var all := rows + [r];
    assert all[..|rows|] == rows && all[|rows|] == r;
    hide Raw;
    if Observable(all) {
      forall i | 0 <= i < |rows| ensures |Raw(rows[i])| <= 65536 { assert all[i] == rows[i]; }
    }
  }

  lemma YieldIsTold(m: Metadata, rows: seq<Row>)
    requires AllProper(rows)
    ensures Yield(m, RawLines(rows)) == Told(m, rows)
  {
    RowsAreTold(rows);
    var t := Texts(rows);
    if t != [] { TextsEnd(rows); }
    hide Data, Usable, Observable, Texts;
  }

  lemma {:induction false} TextsEnd(rows: seq<Row>)
    requires Texts(rows) != []
    ensures Texts(rows)[|Texts(rows)| - 1] == 0x0a
    decreases |rows|
  {
    var front := rows[..|rows| - 1];
    if rows[|rows| - 1].line.Other? {
      assert Texts(rows) == Texts(front);
      TextsEnd(front);
    }
  }

  lemma BlankLineEnds(body: Bytes, crlf: bool)
    requires Lines(body).open == []
    ensures exists line :: Blank(line) && Lines(body + BlankLine(crlf)) == Parts(Lines(body).complete + [line], [])
  {
    var line: Bytes := if crlf then [0x0d] else [];
    assert BlankLine(crlf) == line + [0x0a];
    LineEnds(body, line);
    assert [0x0d][..0] == [];
    assert Blank(line);
  }

  predicate AtRest(body: Bytes) { Lines(body).open == [] && Events(Lines(body).complete).open == [] }

  // One more event ends, and is the last to tell.
  lemma EventEnds(m: Metadata, body: Bytes, e: Event)
    requires AtRest(body) && AllProper(e.rows)
    ensures var all := body + (Written(e.rows) + BlankLine(e.crlf));
            AtRest(all) && Parsed(m, all) == Override(Parsed(m, body), Told(m, e.rows))
  {
    hide Lines, Events, Written, RawLines, LastModel, LastUsage, Yield, Told, Blank, BlankLine, AllProper;
    var lines, open := Lines(body).complete, RawLines(e.rows);
    RowsAreRead(body, e.rows);
    RowsJoinEvent(lines, e.rows);
    BlankLineEnds(body + Written(e.rows), e.crlf);
    Regroup(body, Written(e.rows), BlankLine(e.crlf));
    var all := body + (Written(e.rows) + BlankLine(e.crlf));
    var line :| Blank(line) && Lines(all) == Parts(lines + open + [line], []);
    OneMoreInEvents(lines + open, line);
    OneMoreEvent(m, Events(lines).complete, open);
    YieldIsTold(m, e.rows);
  }

  lemma {:induction false} EventsAreParsed(m: Metadata, events: seq<Event>)
    requires Wellformed(events)
    ensures AtRest(Stream(events)) && Parsed(m, Stream(events)) == Recorded(m, events)
    decreases |events|
  {
    if events != [] {
      var n := |events| - 1;
      EventsAreParsed(m, events[..n]);
      EventEnds(m, Stream(events[..n]), events[n]);
      hide AtRest, Parsed, Told, Written;
    }
  }

  // Whatever stream a provider writes, with an event under way at its end and
  // the last line not ended: recorded is what its finished events tell, no more
  // and no less.
  lemma StreamIsRecorded(m: Metadata, events: seq<Event>, rows: seq<Row>, tail: Bytes)
    requires Wellformed(events) && AllProper(rows) && 0x0a !in tail
    ensures Parsed(m, Stream(events) + (Written(rows) + tail)) == Recorded(m, events)
    ensures Scan(m, Stream(events) + (Written(rows) + tail)).found == Recorded(m, events)
  {
    EventsAreParsed(m, events);
    OpenTellsNothing(m, Stream(events), rows, tail);
    ScanIsParse(m, Stream(events) + (Written(rows) + tail));
    hide Parsed, Scan, Recorded, Stream, Written, Matches;
  }

  lemma OpenTellsNothing(m: Metadata, body: Bytes, rows: seq<Row>, tail: Bytes)
    requires AtRest(body) && AllProper(rows) && 0x0a !in tail
    ensures Parsed(m, body + (Written(rows) + tail)) == Parsed(m, body)
  {
    RowsAreRead(body, rows);
    RowsJoinEvent(Lines(body).complete, rows);
    TailStaysOpen(body + Written(rows), tail);
    Regroup(body, Written(rows), tail);
    hide Lines, Events, Written, RawLines, LastModel, LastUsage;
  }

  // One document t in one event: the bytes "data: ", t, LF, LF.
  lemma DocumentIsRecorded(m: Metadata, t: Bytes)
    requires Plain(t) && |t| <= 65529
    ensures Parsed(m, [0x64, 0x61, 0x74, 0x61, 0x3a, 0x20] + t + [0x0a, 0x0a]) == m(t)
    ensures Parsed(m, [0x64, 0x61, 0x74, 0x61, 0x3a, 0x20] + t + [0x0d, 0x0a, 0x0d, 0x0a]) == m(t)
    ensures t == [] || t[0] != 0x20 ==> Parsed(m, [0x64, 0x61, 0x74, 0x61, 0x3a] + t + [0x0a, 0x0a]) == m(t)
    ensures Parsed(m, [0x64, 0x61, 0x74, 0x61, 0x3a, 0x20] + t + [0x0a]) == Found(None, None)
  {
    hide Parsed, Plain;
    var head, tight := [0x64, 0x61, 0x74, 0x61, 0x3a, 0x20] + t, [0x64, 0x61, 0x74, 0x61, 0x3a] + t;
    assert Raw(Row(Spaced(t), false)) == head && Raw(Row(Tight(t), false)) == tight;
    assert Raw(Row(Spaced(t), true)) == head + [0x0d];
    OneRow(m, Row(Spaced(t), false), false);
    assert head + [0x0a] + [0x0a] == head + [0x0a, 0x0a];
    OneRow(m, Row(Spaced(t), true), true);
    assert head + [0x0d] + [0x0a] + [0x0d, 0x0a] == head + [0x0d, 0x0a, 0x0d, 0x0a];
    if t == [] || t[0] != 0x20 {
      OneRow(m, Row(Tight(t), false), false);
      assert tight + [0x0a] + [0x0a] == tight + [0x0a, 0x0a];
    }
  }

  lemma OneRow(m: Metadata, r: Row, crlf: bool)
    requires Proper(r.line) && !r.line.Other? && |r.line.text| <= 65529
    ensures Parsed(m, Raw(r) + [0x0a] + BlankLine(crlf)) == m(r.line.text)
    ensures Parsed(m, Raw(r) + [0x0a]) == Found(None, None)
  {
    OneRowTold(m, r);
    hide Parsed, Scan, Told, Raw, Proper, BlankLine;
    var e := Event([r], crlf);
    assert [r][..0] == [] && [e][..0] == [];
    var raw := Raw(r) + [0x0a];
    assert Written([r]) == [] + raw == raw;
    assert Stream([e]) == [] + (raw + BlankLine(crlf)) == raw + BlankLine(crlf);
    StreamIsRecorded(m, [e], [], []);
    assert Stream([e]) + ([] + []) == Stream([e]);
    StreamIsRecorded(m, [], [r], []);
    assert [] + (raw + []) == raw;
  }

  lemma OneRowTold(m: Metadata, r: Row)
    requires !r.line.Other? && |r.line.text| <= 65529
    ensures Told(m, [r]) == m(r.line.text)
  {
    OneMoreObserved([], r);
    assert [] + [r] == [r];
    assert [] + (r.line.text + [0x0a]) == r.line.text + [0x0a];
    assert Texts([r])[..|r.line.text|] == r.line.text;
  }
}
