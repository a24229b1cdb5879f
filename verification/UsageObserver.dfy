/**
  The observer that watches a provider's answer go by for its model name and
  token usage: a bounded byte-by-byte scanner, proved to find what a parser
  holding the whole body would find, however the body is cut into reads.
  What one JSON document yields (metadata) is a parameter.
  */
module UsageObserver {
  import opened Frames

  type Bytes = seq<byte>

  const LF: byte := 0x0a
  const CR: byte := 0x0d
  const SPACE: byte := 0x20
  const LINE_LIMIT := 65536
  const EVENT_LIMIT := 65536
  const JSON_LIMIT := 262144

  // What a document yields, and what an answer has yielded so far: a model
  // name and usage figures, each of them possibly absent.
  datatype Found = Found(model: Option<Bytes>, usage: Option<Bytes>)

  const NOTHING := Found(None, None)

  type Metadata = Bytes -> Found

  function Override(o: Found, f: Found): Found {
    Found(if f.model.Some? then f.model else o.model, if f.usage.Some? then f.usage else o.usage)
  }

  // ------------------------------------------------------------------ the scanner

  datatype Scanner = Scanner(buffer: Bytes, discard: bool, event: Bytes, eventDiscard: bool, found: Found)

  function TrimSuffix(b: Bytes, v: byte): Bytes {
    if b != [] && b[|b| - 1] == v then b[..|b| - 1] else b
  }

  // "data:"
  function Prefix(): Bytes { [0x64, 0x61, 0x74, 0x61, 0x3a] }

  predicate IsData(line: Bytes) { Prefix() <= line }

  function DataOf(line: Bytes): Bytes
    requires IsData(line)
  {
    if |line| > 5 && line[5] == SPACE then line[6..] else line[5..]
  }

  function Line(m: Metadata, s: Scanner, raw: Bytes): Scanner {
    var line := TrimSuffix(raw, CR);
    if line == [] then
      var found := if !s.eventDiscard && s.event != [] then Override(s.found, m(TrimSuffix(s.event, LF))) else s.found;
      s.(event := [], eventDiscard := false, found := found)
    else if IsData(line) && !s.eventDiscard then
      var data := DataOf(line);
      if |s.event| + |data| + 1 > EVENT_LIMIT then s.(event := [], eventDiscard := true)
      else s.(event := s.event + data + [LF])
    else s
  }

  function Byte(m: Metadata, s: Scanner, v: byte): Scanner {
    if v == LF then
      var s' := if s.discard then s.(eventDiscard := true) else Line(m, s, s.buffer);
      s'.(buffer := [], discard := false)
    else if s.discard then s
    else if |s.buffer| == LINE_LIMIT then s.(buffer := [], discard := true)
    else s.(buffer := s.buffer + [v])
  }

  function Scan(m: Metadata, body: Bytes): Scanner {
    if body == [] then Scanner([], false, [], false, NOTHING)
    else Byte(m, Scan(m, body[..|body| - 1]), body[|body| - 1])
  }

  // ------------------------------------------------------- the whole-body parser

  datatype Parts<T> = Parts(complete: seq<T>, open: T)

  // The body as lines ended by a line feed, and what follows the last one.
  function Lines(body: Bytes): Parts<Bytes> {
    if body == [] then Parts([], [])
    else
      var p, v := Lines(body[..|body| - 1]), body[|body| - 1];
      if v == LF then Parts(p.complete + [p.open], []) else Parts(p.complete, p.open + [v])
  }

  predicate TooLong(line: Bytes) { |line| > LINE_LIMIT }

  predicate Blank(line: Bytes) { !TooLong(line) && TrimSuffix(line, CR) == [] }

  // The lines as events ended by a blank line (section 9.2.6 of the WHATWG HTML
  // standard), and the lines of the event still open.
  function Events(lines: seq<Bytes>): Parts<seq<Bytes>> {
    if lines == [] then Parts([], [])
    else
      var p, line := Events(lines[..|lines| - 1]), lines[|lines| - 1];
      if Blank(line) then Parts(p.complete + [p.open], []) else Parts(p.complete, p.open + [line])
  }

  // The data of an event: each data line followed by a line feed.
  function Data(lines: seq<Bytes>): Bytes {
    if lines == [] then []
    else
      var line := TrimSuffix(lines[|lines| - 1], CR);
      Data(lines[..|lines| - 1]) + (if IsData(line) then DataOf(line) + [LF] else [])
  }

  predicate Usable(lines: seq<Bytes>) {
    (forall i | 0 <= i < |lines| :: !TooLong(lines[i])) && |Data(lines)| <= EVENT_LIMIT
  }

  function Yield(m: Metadata, lines: seq<Bytes>): Found {
    if Usable(lines) && Data(lines) != [] then m(TrimSuffix(Data(lines), LF)) else NOTHING
  }

  // Of the values the events yield the last one stands.
  function LastModel(m: Metadata, events: seq<seq<Bytes>>): Option<Bytes> {
    if events == [] then None
    else
      var f := Yield(m, events[|events| - 1]);
      if f.model.Some? then f.model else LastModel(m, events[..|events| - 1])
  }

  function LastUsage(m: Metadata, events: seq<seq<Bytes>>): Option<Bytes> {
    if events == [] then None
    else
      var f := Yield(m, events[|events| - 1]);
      if f.usage.Some? then f.usage else LastUsage(m, events[..|events| - 1])
  }

  function Parsed(m: Metadata, body: Bytes): Found {
    var events := Events(Lines(body).complete).complete;
    Found(LastModel(m, events), LastUsage(m, events))
  }

  // ------------------------------------------------------------- they are the same

  ghost predicate Matches(m: Metadata, s: Scanner, lines: Parts<Bytes>) {
    var events := Events(lines.complete);
    && s.discard == TooLong(lines.open)
    && (!s.discard ==> s.buffer == lines.open)
    && s.eventDiscard == !Usable(events.open)
    && (!s.eventDiscard ==> s.event == Data(events.open))
    && |s.buffer| <= LINE_LIMIT && |s.event| <= EVENT_LIMIT
    && s.found == Found(LastModel(m, events.complete), LastUsage(m, events.complete))
  }

  lemma OneMoreLine(lines: seq<Bytes>, line: Bytes)
    ensures (lines + [line])[..|lines + [line]| - 1] == lines
    ensures var text := TrimSuffix(line, CR);
            Data(lines + [line]) == Data(lines) + (if IsData(text) then DataOf(text) + [LF] else [])
    ensures var text := TrimSuffix(line, CR);
            Usable(lines + [line]) <==>
              Usable(lines) && !TooLong(line)
              && |Data(lines)| + (if IsData(text) then |DataOf(text)| + 1 else 0) <= EVENT_LIMIT
  {
    var all := lines + [line];
    assert all[..|all| - 1] == lines && all[|all| - 1] == line;
    if Usable(all) {
      forall i | 0 <= i < |lines| ensures !TooLong(lines[i]) { assert lines[i] == all[i]; }
    }
  }

  lemma OneMoreEvent(m: Metadata, events: seq<seq<Bytes>>, e: seq<Bytes>)
    ensures var o := Override(Found(LastModel(m, events), LastUsage(m, events)), Yield(m, e));
            o == Found(LastModel(m, events + [e]), LastUsage(m, events + [e]))
  {
    var all := events + [e];
    assert all[..|all| - 1] == events && all[|all| - 1] == e;
  }

  lemma OneMoreInEvents(lines: seq<Bytes>, line: Bytes)
    ensures var p := Events(lines);
            Events(lines + [line])
            == if Blank(line) then Parts(p.complete + [p.open], []) else Parts(p.complete, p.open + [line])
  {
    var all := lines + [line];
    assert all[..|all| - 1] == lines && all[|all| - 1] == line;
  }

  // A blank line ends the event.
  lemma BlankMatches(m: Metadata, s: Scanner, lines: Parts<Bytes>)
    requires Matches(m, s, lines) && Blank(lines.open)
    ensures Matches(m, Byte(m, s, LF), Parts(lines.complete + [lines.open], []))
  {
    var events := Events(lines.complete);
    OneMoreInEvents(lines.complete, lines.open);
    OneMoreEvent(m, events.complete, events.open);
    NoLines();
    hide Data, DataOf, IsData, Usable, LastModel, LastUsage, Events;
  }

  // Any other line joins it, as data, as something else, or as too much.
  lemma TextMatches(m: Metadata, s: Scanner, lines: Parts<Bytes>)
    requires Matches(m, s, lines) && !Blank(lines.open)
    ensures Matches(m, Byte(m, s, LF), Parts(lines.complete + [lines.open], []))
  {
    OneMoreInEvents(lines.complete, lines.open);
    OneMoreLine(Events(lines.complete).open, lines.open);
    hide Data, DataOf, IsData, Usable, LastModel, LastUsage, Events, Override;
  }

  // A line that is over, of either kind.
  lemma LineMatches(m: Metadata, s: Scanner, lines: Parts<Bytes>)
    requires Matches(m, s, lines)
    ensures Matches(m, Byte(m, s, LF), Parts(lines.complete + [lines.open], []))
  {
    hide Matches, Byte, Blank;
    if Blank(lines.open) { BlankMatches(m, s, lines); } else { TextMatches(m, s, lines); }
  }

  lemma NoLines()
    ensures Usable([]) && Data([]) == []
  {
  }

  // However far the body has come, the scanner has found exactly what the
  // parser finds in it, and its buffers are within their limits.
  lemma {:induction false} ScanIsParse(m: Metadata, body: Bytes)
    ensures Matches(m, Scan(m, body), Lines(body))
    ensures Scan(m, body).found == Parsed(m, body)
    decreases |body|
  {
    if body == [] {
      NoLines();
    } else {
      var front, v := body[..|body| - 1], body[|body| - 1];
      ScanIsParse(m, front);
      if v == LF {
        LineMatches(m, Scan(m, front), Lines(front));
      } else {
        hide Line, Events, LastModel, LastUsage, Usable, Data;
      }
    }
  }

  // ------------------------------------------------------ the standard's lines

  // Section 9.2.6 of the WHATWG HTML standard ends a line at a line feed, a
  // carriage return, or both together.  returned: the last byte was a carriage
  // return, so that a line feed now belongs to the line end already counted.
  datatype Split = Split(complete: seq<Bytes>, open: Bytes, returned: bool)

  function Standard(body: Bytes): Split {
    if body == [] then Split([], [], false)
    else
      var p, v := Standard(body[..|body| - 1]), body[|body| - 1];
      if v == LF && p.returned then p.(returned := false)
      else if v == LF || v == CR then Split(p.complete + [p.open], [], v == CR)
      else Split(p.complete, p.open + [v], false)
  }

  // The lines as the scanner takes them: what it trims is part of the line end.
  function Trimmed(lines: seq<Bytes>): seq<Bytes> {
    if lines == [] then [] else Trimmed(lines[..|lines| - 1]) + [TrimSuffix(lines[|lines| - 1], CR)]
  }

  // The carriage returns without a line feed behind them.
  function Lone(body: Bytes): int {
    if body == [] then 0
    else
      var front, v := body[..|body| - 1], body[|body| - 1];
      Lone(front) + (if v == CR then 1 else if v == LF && EndsInReturn(front) then -1 else 0)
  }

  predicate EndsInReturn(b: Bytes) { b != [] && b[|b| - 1] == CR }

  predicate NoLoneReturn(body: Bytes) {
    forall i | 0 <= i < |body| && body[i] == CR :: i + 1 < |body| && body[i + 1] == LF
  }

  lemma OneMoreTrimmed(lines: seq<Bytes>, line: Bytes)
    ensures Trimmed(lines + [line]) == Trimmed(lines) + [TrimSuffix(line, CR)]
  {
    var all := lines + [line];
    assert all[..|all| - 1] == lines && all[|all| - 1] == line;
  }

  lemma {:induction false} TrimmedLength(lines: seq<Bytes>)
    ensures |Trimmed(lines)| == |lines|
    decreases |lines|
  {
    if lines != [] { TrimmedLength(lines[..|lines| - 1]); }
  }

  // Every lone carriage return costs the scanner one line.
  lemma {:induction false} LoneReturnsCount(body: Bytes)
    ensures Standard(body).returned == EndsInReturn(body)
    ensures |Standard(body).complete| == |Lines(body).complete| + Lone(body)
    decreases |body|
  {
    if body != [] { LoneReturnsCount(body[..|body| - 1]); }
  }

  lemma {:induction false} LoneIsCounted(body: Bytes)
    ensures Lone(body) >= (if EndsInReturn(body) then 1 else 0)
    ensures Lone(body) == 0 <==> NoLoneReturn(body)
    ensures Lone(body) == 1 && EndsInReturn(body) <==> EndsInReturn(body) && NoLoneReturn(body[..|body| - 1])
    decreases |body|
  {
    if body != [] {
      var n := |body| - 1;
      var front := body[..n];
      LoneIsCounted(front);
      if EndsInReturn(front) {
        assert body[n - 1] == CR;
        assert forall i | 0 <= i < n - 1 :: front[..n - 1][i] == body[i];
      }
      assert forall i | 0 <= i < n :: front[i] == body[i];
      if NoLoneReturn(body) && !EndsInReturn(front) { assert NoLoneReturn(front); }
    }
  }

  predicate LoneAtMostLast(body: Bytes) {
    NoLoneReturn(body) || (EndsInReturn(body) && NoLoneReturn(body[..|body| - 1]))
  }

  lemma FrontAtMostLast(body: Bytes)
    requires body != [] && LoneAtMostLast(body)
    ensures LoneAtMostLast(body[..|body| - 1])
    ensures EndsInReturn(body[..|body| - 1]) ==> body[|body| - 1] == LF
  {
    var n := |body| - 1;
    var front := body[..n];
    assert forall i | 0 <= i < n :: front[i] == body[i];
    if EndsInReturn(front) {
      assert front[n - 1] == CR == body[n - 1];
      assert forall i | 0 <= i < n - 1 :: front[..n - 1][i] == body[i];
    }
  }

  // With no lone return before the end, the two differ only by a line whose
  // end has come as far as its carriage return.
  lemma {:induction false} LinesAgree(body: Bytes)
    requires LoneAtMostLast(body)
    ensures var p, q := Lines(body), Standard(body);
            q.complete == Trimmed(p.complete) + (if EndsInReturn(body) then [TrimSuffix(p.open, CR)] else [])
            && q.open == (if EndsInReturn(body) then [] else p.open)
    decreases |body|
  {
    if body != [] {
      var front, v := body[..|body| - 1], body[|body| - 1];
      FrontAtMostLast(body);
      LoneReturnsCount(front);
      LinesAgree(front);
      hide LoneAtMostLast, Lone;
      var p := Lines(front);
      if v == LF {
        OneMoreTrimmed(p.complete, p.open);
        hide Trimmed;
        if !EndsInReturn(front) { OpenHasNoReturn(front); }
      } else if v == CR {
        hide Trimmed;
        OpenHasNoReturn(front);
      }
    }
  }

  // The open line ends like the body, unless it is empty.
  lemma OpenHasNoReturn(body: Bytes)
    ensures EndsInReturn(body) <==> EndsInReturn(Lines(body).open)
  {
    if body != [] { assert Lines(body) == Lines(body); }
  }

  // The scanner's lines are the standard's if and only if no carriage return
  // stands alone.
  lemma LinesAreStandard(body: Bytes)
    ensures Trimmed(Lines(body).complete) == Standard(body).complete <==> NoLoneReturn(body)
  {
    LoneReturnsCount(body);
    LoneIsCounted(body);
    TrimmedLength(Lines(body).complete);
    if NoLoneReturn(body) { LinesAgree(body); }
  }

  // An event whose lines end in carriage returns alone is never seen, though
  // the standard has both its lines.
  lemma LoneReturnsAreMissed(m: Metadata, v: byte)
    requires v != LF && v != CR
    ensures var body := Prefix() + [v, CR, CR];
            Standard(body).complete == [Prefix() + [v], []] && Scan(m, body).found == NOTHING
  {
    var line := Prefix() + [v];
    PlainLine(line);
    var one, two := line + [CR], line + [CR, CR];
    assert one[..|one| - 1] == line && two[..|two| - 1] == one;
    assert Prefix() + [v, CR, CR] == two;
    assert Standard(two).complete == [line, []];
    NoFeedsNoLines(two);
    ScanIsParse(m, two);
    hide Scan;
    assert Events(Lines(two).complete) == Parts([], []);
  }

  lemma {:induction false} PlainLine(line: Bytes)
    requires LF !in line && CR !in line
    ensures Standard(line) == Split([], line, false)
    decreases |line|
  {
    if line != [] {
      var front := line[..|line| - 1];
      PlainLine(front);
      assert line == front + [line[|line| - 1]];
    }
  }

  lemma {:induction false} NoFeedsNoLines(body: Bytes)
    requires LF !in body
    ensures Lines(body).complete == []
    decreases |body|
  {
    if body != [] { NoFeedsNoLines(body[..|body| - 1]); }
  }
}
