/**
  Lists fetched page by page: the host's loops over tasks and over a core dump,
  against a device that may change between two pages.
  */
module Pagination {
  import opened Frames

  const PAGE := 12
  const PAGES := 32

  predicate Increasing(s: seq<nat>) { forall i, j | 0 <= i < j < |s| :: s[i] < s[j] }

  // ----------------------------------------------------------------------- tasks

  datatype Page = Page(items: seq<nat>, next: Option<nat>)

  // The device's answer: from its sorted snapshot, the numbers past the cursor,
  // a full page of them or all, and the last one returned unless that is the
  // end.
  method TaskPage(tasks: seq<nat>, after: nat) returns (p: Page, ghost start: nat)
    requires Increasing(tasks)
    ensures Increasing(p.items) && |p.items| <= PAGE
    ensures forall t | t in p.items :: t in tasks && t > after
    ensures p.next.None? ==> forall t | t in tasks && t > after :: t in p.items
    ensures p.next.Some? ==>
              |p.items| == PAGE && p.next.value == p.items[PAGE - 1]
              && forall t | t in tasks && after < t <= p.next.value :: t in p.items
    ensures start + |p.items| <= |tasks| && p.items == tasks[start..start + |p.items|]
    ensures p.next.None? <==> start + |p.items| == |tasks|
    ensures (forall i | 0 <= i < start :: tasks[i] <= after) && (start < |tasks| ==> tasks[start] > after)
  {
    var first := 0;
    while first < |tasks| && tasks[first] <= after
      invariant first <= |tasks| && forall i | 0 <= i < first :: tasks[i] <= after
    {
      first := first + 1;
    }
    start := first;
    var end := if first + PAGE > |tasks| then |tasks| else first + PAGE;
    var items := [];
    for i := first to end
      invariant items == tasks[first..i]
    {
      items := items + [tasks[i]];
    }
    Sliced(tasks, first, end, after);
    p := Page(items, if end < |tasks| then Some(tasks[end - 1]) else None);
  }

  lemma Sliced(tasks: seq<nat>, start: nat, end: nat, after: nat)
    requires Increasing(tasks) && start <= end <= |tasks| && (start < |tasks| ==> start < end)
    requires (forall i | 0 <= i < start :: tasks[i] <= after) && (start < |tasks| ==> tasks[start] > after)
    ensures Increasing(tasks[start..end])
    ensures forall t | t in tasks[start..end] :: t in tasks && t > after
    ensures forall t | t in tasks && t > after && (end == |tasks| || t <= tasks[end - 1]) :: t in tasks[start..end]
  {
    var items := tasks[start..end];
    forall t | t in tasks && t > after && (end == |tasks| || t <= tasks[end - 1]) ensures t in items {
      var i :| 0 <= i < |tasks| && tasks[i] == t;
      assert items[i - start] == t;
    }
    forall t | t in items ensures t in tasks && t > after {
      var i :| 0 <= i < |items| && items[i] == t;
      assert tasks[start + i] == t && tasks[start] <= t;
    }
  }

  function Min(a: nat, b: nat): nat { if a < b then a else b }

  predicate Unchanged(lists: seq<seq<nat>>) { forall i | 0 <= i < |lists| :: lists[i] == lists[0] }

  // GET /tasks.  lists[i] is what the device's tasks are at page i, paired[i]
  // whether it is still paired then.  What comes back is in order and without
  // repetition, whatever the device does.  Either the device said that there is
  // no next page, and no task that lived throughout is missing; or the pairing
  // was lost before that; or the limit of pages was reached, all of them full.
  // An unchanged list comes back page by page, and whole if it is short enough.
  method Tasks(lists: seq<seq<nat>>, paired: seq<bool>) returns (items: seq<nat>, ok: bool, complete: bool, pages: nat)
    requires |lists| == |paired| == PAGES
    requires forall i | 0 <= i < PAGES :: Increasing(lists[i]) && forall t | t in lists[i] :: t > 0
    ensures Increasing(items) && pages <= PAGES && forall i | 0 <= i < pages :: paired[i]
    ensures forall t | t in items :: exists i :: 0 <= i < pages && t in lists[i]
    ensures complete ==> ok && pages > 0 && forall t | (forall i | 0 <= i < pages :: t in lists[i]) :: t in items
    ensures ok && !complete ==> pages < PAGES && !paired[pages]
    ensures !ok ==> pages == PAGES && !complete
    ensures !complete ==> |items| == PAGE * pages
    ensures Unchanged(lists) ==> items == lists[0][..Min(|lists[0]|, PAGE * pages)]
    ensures Unchanged(lists) && |lists[0]| <= PAGE * PAGES && (forall i | 0 <= i < PAGES :: paired[i]) ==>
              complete && items == lists[0]
  {
    items, ok, complete, pages := [], true, false, 0;
    var after := 0;
    while pages < PAGES && paired[pages]
      invariant pages < PAGES && Increasing(items) && ok && !complete && forall i | 0 <= i < pages :: paired[i]
      invariant |items| == PAGE * pages && after == if items == [] then 0 else items[|items| - 1]
      invariant forall t | t in items :: exists i :: 0 <= i < pages && t in lists[i]
      invariant forall t | (forall i | 0 <= i < pages :: t in lists[i]) && 0 < t <= after :: t in items
      invariant Unchanged(lists) ==>
                  |items| <= |lists[0]| && items == lists[0][..|items|]
                  && (pages > 0 ==> |items| < |lists[0]|)
      decreases PAGES - pages
    {
      var p, start := TaskPage(lists[pages], after);
      ghost var before := items;
      if Unchanged(lists) { NextPage(lists[0], before, after, start, p.items); }
      items := items + p.items;
      Joined(before, p.items, after);
      forall t | t in items ensures exists i :: 0 <= i < pages + 1 && t in lists[i] {
        if t in p.items { assert t in lists[pages]; }
      }
      NothingSkipped(lists, pages, before, p, after);
      pages := pages + 1;
      if p.next.None? {
        complete := true;
        return;
      }
      after := p.next.value;
      if pages == PAGES {
        ok := false;
        return;
      }
    }
  }

  // What lived through all pages so far is in the items so far.
  lemma NothingSkipped(lists: seq<seq<nat>>, page: nat, before: seq<nat>, p: Page, after: nat)
    requires page < |lists| && forall t | t in lists[page] :: t > 0
    requires forall t | (forall i | 0 <= i < page :: t in lists[i]) && 0 < t <= after :: t in before
    requires p.next.None? ==> forall t | t in lists[page] && t > after :: t in p.items
    requires p.next.Some? ==> forall t | t in lists[page] && after < t <= p.next.value :: t in p.items
    ensures forall t | (forall i | 0 <= i < page + 1 :: t in lists[i]) && (p.next.None? || t <= p.next.value) ::
              t in before + p.items
  {
    forall t | (forall i | 0 <= i < page + 1 :: t in lists[i]) && (p.next.None? || t <= p.next.value)
      ensures t in before + p.items
    {
      assert t in lists[page];
      if t <= after { assert forall i | 0 <= i < page :: t in lists[i]; }
    }
  }

  // From an unchanged list the next page is the next stretch.
  lemma NextPage(list: seq<nat>, before: seq<nat>, after: nat, start: nat, items: seq<nat>)
    requires Increasing(list) && (forall t | t in list :: t > 0) && |before| <= |list| && before == list[..|before|]
    requires after == if before == [] then 0 else before[|before| - 1]
    requires start + |items| <= |list| && items == list[start..start + |items|]
    requires (forall i | 0 <= i < start :: list[i] <= after) && (start < |list| ==> list[start] > after)
    ensures start == |before| && before + items == list[..|before| + |items|]
  {
    if |before| < |list| {
      assert list[|before|] in list;
      assert list[|before|] > after;
    }
  }

  lemma Joined(a: seq<nat>, b: seq<nat>, after: nat)
    requires Increasing(a) && Increasing(b) && (a == [] || a[|a| - 1] <= after) && forall t | t in b :: t > after
    ensures Increasing(a + b)
  {
    forall i, j | 0 <= i < j < |a + b| ensures (a + b)[i] < (a + b)[j] {
      if i < |a| <= j {
        assert b[j - |a|] in b;
        assert a[i] <= a[|a| - 1];
      }
    }
  }

  // ------------------------------------------------------------------- core dumps

  const DUMP_LIMIT := 65536
  const PIECE := 1024

  datatype Piece = Missing | Piece(offset: nat, size: nat, data: seq<byte>, eof: bool)

  // crash.read
  function CrashRead(dump: Option<seq<byte>>, offset: nat): Piece {
    if dump.None? || offset > |dump.value| then Missing
    else
      var left := |dump.value| - offset;
      var n := if left > PIECE then PIECE else left;
      Piece(offset, |dump.value|, dump.value[offset..offset + n], offset + n == |dump.value|)
  }

  datatype Export = Failed | Exported(data: seq<byte>)

  // The export loop against a dump that may be cleared or replaced between two
  // pieces: it always ends, within the limit; and a dump left alone comes out
  // whole exactly when it is within the limit.
  method CrashExport(dumps: seq<Option<seq<byte>>>) returns (r: Export, calls: nat)
    requires |dumps| > DUMP_LIMIT
    ensures calls <= DUMP_LIMIT && (r.Exported? ==> |r.data| <= DUMP_LIMIT)
    ensures (forall i | 0 <= i < |dumps| :: dumps[i] == dumps[0]) ==>
              r == if dumps[0].Some? && |dumps[0].value| <= DUMP_LIMIT then Exported(dumps[0].value) else Failed
  {
    var data: seq<byte> := [];
    calls := 0;
    ghost var steady := forall i | 0 <= i < |dumps| :: dumps[i] == dumps[0];
    while |data| < DUMP_LIMIT
      invariant calls <= |data| <= DUMP_LIMIT
      invariant steady && data != [] ==>
                  dumps[0].Some? && |data| < |dumps[0].value| <= DUMP_LIMIT
                  && data == dumps[0].value[..|data|]
      decreases DUMP_LIMIT - |data|
    {
      var p := CrashRead(dumps[calls], |data|);
      calls := calls + 1;
      if p.Missing? { return Failed, calls; }
      if p.offset != |data| || p.size > DUMP_LIMIT || |data| + |p.data| > DUMP_LIMIT { return Failed, calls; }
      data := data + p.data;
      if p.eof { return Exported(data), calls; }
      if p.data == [] { return Failed, calls; }
    }
    return Failed, calls;
  }
}
