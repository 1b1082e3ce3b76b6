/**
  The crash-resumable full scan (server/capture.ts, server/routes/subscriptions.ts).

  Pages are staged one transaction at a time; the last transaction streams the staged rows back
  through an id cursor and publishes them, unless the run was reset meanwhile. `Scan` holds the
  tables one subscription touches and runs the transactions. `FullScanRuns` lets them interleave
  with crashes, user resets and the batch summary.
 */
module FullScan {

  import opened Options

  datatype Item = Item(content: string, title: Option<string>, detailUrl: Option<string>)
  datatype Row = Row(id: nat, scan: string, page: nat, position: nat, item: Item)

  // --- What a scan is meant to publish ---

  predicate Listed(items: seq<Item>, content: string) {
    exists i :: 0 <= i < |items| && items[i].content == content
  }

  /** The items whose content no earlier item has, in order. */
  function FirstOccurrences(items: seq<Item>): seq<Item> {
    if items == [] then []
    else
      var init, last := items[..|items| - 1], items[|items| - 1];
      FirstOccurrences(init) + if Listed(init, last.content) then [] else [last]
  }

  function Flatten(pages: seq<seq<Item>>): seq<Item> {
    if pages == [] then [] else Flatten(pages[..|pages| - 1]) + pages[|pages| - 1]
  }

  function JoinLines(items: seq<Item>): string {
    if items == [] then ""
    else if |items| == 1 then items[0].content
    else JoinLines(items[..|items| - 1]) + "\n" + items[|items| - 1].content
  }

  // --- The staging table ---

  function RowsOf(rows: seq<Row>, scan: string): seq<Row> {
    if rows == [] then []
    else
      var init, last := rows[..|rows| - 1], rows[|rows| - 1];
      RowsOf(init, scan) + if last.scan == scan then [last] else []
  }

  function Items(rows: seq<Row>): (items: seq<Item>)
    ensures |items| == |rows| && forall i :: 0 <= i < |rows| ==> items[i] == rows[i].item
  {
    seq(|rows|, i requires 0 <= i < |rows| => rows[i].item)
  }

  /** The insert that skips a row whose content the scan already holds; a skipped row uses up its id too. */
  function InsertItems(rows: seq<Row>, nextId: nat, scan: string, page: nat, position: nat,
      items: seq<Item>): (seq<Row>, nat)
    decreases items
  {
    if items == [] then (rows, nextId)
    else
      var rows' := if Listed(Items(RowsOf(rows, scan)), items[0].content) then rows
                   else rows + [Row(nextId, scan, page, position, items[0])];
      InsertItems(rows', nextId + 1, scan, page, position + 1, items[1..])
  }

  /** Row order of the query: page number, then position, then id. */
  predicate Before(a: Row, b: Row) {
    a.page < b.page || (a.page == b.page && (a.position < b.position || (a.position == b.position && a.id < b.id)))
  }

  function Insert(sorted: seq<Row>, r: Row): seq<Row> {
    if sorted == [] || Before(sorted[|sorted| - 1], r) then sorted + [r]
    else Insert(sorted[..|sorted| - 1], r) + [sorted[|sorted| - 1]]
  }

  function OrderBy(rows: seq<Row>): (r: seq<Row>)
    ensures |r| == |rows|
    ensures multiset(r) == multiset(rows)
  {
    if rows == [] then []
    else
      var sorted := OrderBy(rows[..|rows| - 1]);
      InsertKeeps(sorted, rows[|rows| - 1]);
      assert rows == rows[..|rows| - 1] + [rows[|rows| - 1]];
      Insert(sorted, rows[|rows| - 1])
  }

  lemma {:induction false} InsertKeeps(sorted: seq<Row>, r: Row)
    ensures |Insert(sorted, r)| == |sorted| + 1 && multiset(Insert(sorted, r)) == multiset(sorted) + multiset{r}
  {
    if !(sorted == [] || Before(sorted[|sorted| - 1], r)) {
      InsertKeeps(sorted[..|sorted| - 1], r);
      assert sorted == sorted[..|sorted| - 1] + [sorted[|sorted| - 1]];
    }
  }

  function After(rows: seq<Row>, cursor: nat): (r: seq<Row>)
    ensures forall x <- r :: x.id > cursor
    ensures |r| <= |rows|
  {
    if rows == [] then []
    else
      var init, last := rows[..|rows| - 1], rows[|rows| - 1];
      After(init, cursor) + if last.id > cursor then [last] else []
  }

  const PAGE := 200

  /** One cursor query: the rows of a scan with a larger id, ordered, at most 200 of them. */
  function CursorPage(rows: seq<Row>, scan: string, cursor: nat): (r: seq<Row>) {
    var all := OrderBy(After(RowsOf(rows, scan), cursor));
    if |all| <= PAGE then all else all[..PAGE]
  }

  /** Ids grow along the table, and within one scan they grow in the order of the query. */
  predicate Aligned(rows: seq<Row>, nextId: nat) {
    && (forall i :: 0 <= i < |rows| ==> 0 < rows[i].id < nextId)
    && (forall i, j :: 0 <= i < j < |rows| ==> rows[i].id < rows[j].id)
    && (forall i, j :: 0 <= i < j < |rows| && rows[i].scan == rows[j].scan ==> Before(rows[i], rows[j]))
  }

  predicate InOrder(rows: seq<Row>) {
    && (forall i :: 0 <= i < |rows| ==> 0 < rows[i].id)
    && (forall i, j :: 0 <= i < j < |rows| ==> rows[i].id < rows[j].id && Before(rows[i], rows[j]))
  }

  lemma {:induction false} RowsOfIsIn(rows: seq<Row>, scan: string)
    ensures forall r <- RowsOf(rows, scan) :: r in rows && r.scan == scan
    ensures forall r <- rows :: r.scan == scan ==> r in RowsOf(rows, scan)
  {
    if rows != [] {
      RowsOfIsIn(rows[..|rows| - 1], scan);
    }
  }

  lemma {:induction false} RowsOfInOrder(rows: seq<Row>, nextId: nat, scan: string)
    requires Aligned(rows, nextId)
    ensures InOrder(RowsOf(rows, scan))
  {
    if rows != [] {
      var init, last := rows[..|rows| - 1], rows[|rows| - 1];
      RowsOfInOrder(init, nextId, scan);
      RowsOfIsIn(init, scan);
      var got := RowsOf(init, scan);
      forall i | 0 <= i < |got| ensures got[i].id < last.id && (last.scan == scan ==> Before(got[i], last)) {
        assert got[i] in init;
        var j :| 0 <= j < |init| && init[j] == got[i];
        assert rows[j] == got[i];
      }
    }
  }

  lemma {:induction false} OrderByOrdered(rows: seq<Row>)
    requires InOrder(rows)
    ensures OrderBy(rows) == rows
  {
    if rows != [] {
      OrderByOrdered(rows[..|rows| - 1]);
    }
  }

  /** The id the cursor holds once the first `k` rows are read. */
  function CursorAt(rows: seq<Row>, k: nat): nat
    requires k <= |rows|
  {
    if k == 0 then 0 else rows[k - 1].id
  }

  lemma CursorMoves(rows: seq<Row>, k: nat, batch: seq<Row>)
    requires k + |batch| <= |rows| && batch == rows[k..k + |batch|]
    ensures CursorAt(rows, k + |batch|) == if batch == [] then CursorAt(rows, k) else batch[|batch| - 1].id
    ensures CursorAt(rows, 0) == 0
  {
  }

  lemma CursorSplits(rows: seq<Row>, k: nat)
    requires InOrder(rows) && k <= |rows|
    ensures forall i :: 0 <= i < |rows| ==> (rows[i].id > CursorAt(rows, k) <==> i >= k)
  {
    forall i | 0 <= i < |rows| ensures rows[i].id > CursorAt(rows, k) <==> i >= k {
      if k > 0 { assert i < k - 1 ==> rows[i].id < rows[k - 1].id; }
    }
  }

  /** The rows a cursor leaves over, when it splits the table at `k`. */
  lemma {:induction false} AfterCursor(rows: seq<Row>, cursor: nat, k: nat)
    requires k <= |rows| && forall i :: 0 <= i < |rows| ==> (rows[i].id > cursor <==> i >= k)
    ensures After(rows, cursor) == rows[k..]
  {
    if |rows| > k {
      AfterCursor(rows[..|rows| - 1], cursor, k);
    } else {
      AfterNone(rows, cursor);
    }
  }

  lemma {:induction false} AfterNone(rows: seq<Row>, cursor: nat)
    requires forall i :: 0 <= i < |rows| ==> rows[i].id <= cursor
    ensures After(rows, cursor) == []
  {
    if rows != [] {
      AfterNone(rows[..|rows| - 1], cursor);
    }
  }

  lemma CursorPageIs(rows: seq<Row>, nextId: nat, scan: string, k: nat)
    requires Aligned(rows, nextId) && k <= |RowsOf(rows, scan)|
    ensures var all := RowsOf(rows, scan);
            CursorPage(rows, scan, CursorAt(all, k)) == all[k..if k + PAGE <= |all| then k + PAGE else |all|]
  {
    hide Aligned, Before, RowsOf, After, OrderBy, InOrder;
    var all := RowsOf(rows, scan);
    RowsOfInOrder(rows, nextId, scan);
    CursorSplits(all, k);
    AfterCursor(all, CursorAt(all, k), k);
    TailInOrder(all, k);
    OrderByOrdered(all[k..]);
    assert k + PAGE <= |all| ==> all[k..][..PAGE] == all[k..k + PAGE];
  }

  lemma TailInOrder(rows: seq<Row>, k: nat)
    requires InOrder(rows) && k <= |rows|
    ensures InOrder(rows[k..])
  {
  }

  // --- Inserting a page ---

  /** The scan's rows after an insert, and what the insert leaves alone. */
  lemma {:induction false} InsertItemsMeans(rows: seq<Row>, nextId: nat, scan: string, page: nat, position: nat,
      items: seq<Item>)
    requires Aligned(rows, nextId) && 0 < nextId
    requires forall r <- rows :: r.scan == scan ==> r.page < page || (r.page == page && r.position < position)
    ensures var (rows', next') := InsertItems(rows, nextId, scan, page, position, items);
            && Aligned(rows', next') && nextId <= next' && rows <= rows'
            && Items(RowsOf(rows', scan)) == Added(Items(RowsOf(rows, scan)), items)
            && (forall s :: s != scan ==> RowsOf(rows', s) == RowsOf(rows, s))
            && (forall r <- rows' :: r.scan == scan ==>
                  r.page < page || (r.page == page && r.position < position + |items|))
    decreases items
  {
    if items == [] {
      return;
    }
    var x := items[0];
    var base := Items(RowsOf(rows, scan));
    if Listed(base, x.content) {
      AlignedLater(rows, nextId);
      hide Aligned, RowsOf, Listed;
      InsertItemsMeans(rows, nextId + 1, scan, page, position + 1, items[1..]);
    } else {
      var r := Row(nextId, scan, page, position, x);
      var rows1 := rows + [r];
      AppendRow(rows, nextId, r);
      hide Aligned, RowsOf, Listed;
      assert Items(RowsOf(rows1, scan)) == base + [x];
      InsertItemsMeans(rows1, nextId + 1, scan, page, position + 1, items[1..]);
    }
  }

  lemma AlignedLater(rows: seq<Row>, nextId: nat)
    requires Aligned(rows, nextId)
    ensures Aligned(rows, nextId + 1)
  {
  }

  lemma AppendRow(rows: seq<Row>, nextId: nat, r: Row)
    requires Aligned(rows, nextId) && 0 < nextId && r.id == nextId
    requires forall x <- rows :: x.scan == r.scan ==> x.page < r.page || (x.page == r.page && x.position < r.position)
    ensures Aligned(rows + [r], nextId + 1)
    ensures forall s :: RowsOf(rows + [r], s) == RowsOf(rows, s) + if s == r.scan then [r] else []
  {
    assert (rows + [r])[..|rows|] == rows;
  }

  /** `items` added to `base`, keeping the first item of every content. */
  function Added(base: seq<Item>, items: seq<Item>): seq<Item>
    decreases items
  {
    if items == [] then base
    else Added(if Listed(base, items[0].content) then base else base + [items[0]], items[1..])
  }

  lemma {:induction false} AddedAppend(base: seq<Item>, a: seq<Item>, b: seq<Item>)
    ensures Added(base, a + b) == Added(Added(base, a), b)
    decreases a
  {
    hide Listed;
    if a == [] {
      assert a + b == b;
    } else {
      AddedAppend(if Listed(base, a[0].content) then base else base + [a[0]], a[1..], b);
      assert (a + b)[1..] == a[1..] + b;
    }
  }

  lemma {:induction false} SameListed(items: seq<Item>, content: string)
    ensures Listed(FirstOccurrences(items), content) <==> Listed(items, content)
  {
    if items != [] {
      var init, last := items[..|items| - 1], items[|items| - 1];
      SameListed(init, content);
      SameListed(init, last.content);
      ListedAppend(init, last, content);
      ListedAppend(FirstOccurrences(init), last, content);
      assert items == init + [last] && FirstOccurrences(init) + [] == FirstOccurrences(init);
    }
  }

  lemma ListedAppend(items: seq<Item>, x: Item, content: string)
    ensures Listed(items + [x], content) <==> Listed(items, content) || x.content == content
  {
    if Listed(items, content) {
      var i :| 0 <= i < |items| && items[i].content == content;
      assert (items + [x])[i].content == content;
    }
    assert (items + [x])[|items|] == x;
  }

  /** Inserting row by row keeps exactly the first occurrences. */
  lemma {:induction false} AddedIsFirst(items: seq<Item>)
    ensures Added([], items) == FirstOccurrences(items)
  {
    if items != [] {
      var init, last := items[..|items| - 1], items[|items| - 1];
      AddedIsFirst(init);
      assert items == init + [last];
      AddedAppend([], init, [last]);
      SameListed(init, last.content);
      assert [last][1..] == [];
    }
  }

  lemma AddPage(done: seq<Item>, items: seq<Item>)
    ensures Added(FirstOccurrences(done), items) == FirstOccurrences(done + items)
  {
    AddedIsFirst(done);
    AddedIsFirst(done + items);
    AddedAppend([], done, items);
  }

  /** Splitting the insert into statements changes nothing. */
  lemma {:induction false} InsertInParts(rows: seq<Row>, nextId: nat, scan: string, page: nat, position: nat,
      a: seq<Item>, b: seq<Item>)
    ensures var (rows1, next1) := InsertItems(rows, nextId, scan, page, position, a);
            InsertItems(rows, nextId, scan, page, position, a + b)
            == InsertItems(rows1, next1, scan, page, position + |a|, b)
    decreases a
  {
    if a == [] {
      assert a + b == b;
    } else {
      assert (a + b)[1..] == a[1..] + b;
      hide RowsOf, Listed;
      var rows' := if Listed(Items(RowsOf(rows, scan)), a[0].content) then rows
                   else rows + [Row(nextId, scan, page, position, a[0])];
      InsertInParts(rows', nextId + 1, scan, page, position + 1, a[1..], b);
    }
  }

  // --- The tables and their transactions ---

  /** Extraction drops empty contents before a page is staged. */
  predicate NonEmpty(rows: seq<Row>) {
    forall i :: 0 <= i < |rows| ==> rows[i].item.content != ""
  }

  datatype BatchStatus = Scanning | ScanFailed | Processing | Completed

  datatype Tables = Tables(
    run: Option<string>, total: Option<nat>, next: nat, completed: bool, content: Option<string>,
        hashed: Option<string>,
    staged: seq<Row>, nextId: nat, batches: map<string, BatchStatus>)

  /** The first transaction of a fresh scan. */
  function StartTx(t: Tables, scan: string, total: nat): Tables {
    t.(staged := [], run := Some(scan), total := Some(total), next := 1, batches := t.batches[scan := Scanning])
  }

  /** The rows are inserted whatever happened; the progress moves only while the run is still current. */
  function StageTx(t: Tables, scan: string, page: nat, items: seq<Item>): Tables {
    var (rows, next) := InsertItems(t.staged, t.nextId, scan, page, 1, items);
    var t' := t.(staged := rows, nextId := next);
    if t.run == Some(scan) then t'.(next := page + 1) else t'
  }

  function Published(t: Tables, scan: string): string { JoinLines(Items(RowsOf(t.staged, scan))) }

  function WithoutScan(rows: seq<Row>, scan: string): seq<Row> {
    if rows == [] then []
    else
      var init, last := rows[..|rows| - 1], rows[|rows| - 1];
      WithoutScan(init, scan) + if last.scan == scan then [] else [last]
  }

  /** The closing transaction: nothing at all when the run is no longer current. */
  function CommitTx(t: Tables, scan: string, total: nat): Tables {
    if t.run != Some(scan) then t
    else t.(run := None, total := Some(total), next := 1, completed := true,
            content := Some(Published(t, scan)), hashed := Some(Published(t, scan)),
            staged := WithoutScan(t.staged, scan),
            batches := if scan in t.batches then t.batches[scan := Processing] else t.batches)
  }

  class Scan {
    var run: Option<string>
    var total: Option<nat>
    var next: nat
    var completed: bool
    var content: Option<string>
    /** The text fed to the digest of `content`. */
    var hashed: Option<string>
    var staged: seq<Row>
    var nextId: nat
    var batches: map<string, BatchStatus>

    function Model(): Tables
      reads this
    {
      Tables(run, total, next, completed, content, hashed, staged, nextId, batches)
    }

    /** The ids and orders the cursor relies on, and contents that extraction never leaves empty. */
    ghost predicate Valid()
      reads this
    {
      Aligned(staged, nextId) && 0 < nextId && NonEmpty(staged)
    }

    method Start(scan: string, pages: nat)
      modifies this
      ensures Model() == StartTx(old(Model()), scan, pages)
    {
      staged, run, total, next := [], Some(scan), Some(pages), 1;
      batches := batches[scan := Scanning];
    }

    /** One page, in statements of at most 100 rows. */
    method StagePage(scan: string, page: nat, items: seq<Item>)
      modifies this
      ensures Model() == StageTx(old(Model()), scan, page, items)
    {
      hide InsertItems;
      var offset := 0;
      InsertNothing(staged, nextId, scan, page, items);
      while offset < |items|
        invariant 0 <= offset <= |items|
        invariant (staged, nextId) == InsertItems(old(staged), old(nextId), scan, page, 1, items[..offset])
        invariant Model() == old(Model()).(staged := staged, nextId := nextId)
      {
        var end := if offset + 100 <= |items| then offset + 100 else |items|;
        InsertInParts(old(staged), old(nextId), scan, page, 1, items[..offset], items[offset..end]);
        assert items[..offset] + items[offset..end] == items[..end];
        var (rows, id) := InsertItems(staged, nextId, scan, page, 1 + offset, items[offset..end]);
        staged, nextId := rows, id;
        offset := end;
      }
      assert items[..offset] == items;
      if run == Some(scan) {
        next := page + 1;
      }
    }

    /** The first cursor pass: the text and the digest input grow together, row by row. */
    method StreamContent(scan: string) returns (text: string, digested: string, count: nat)
      requires Valid()
      ensures text == digested == Published(Model(), scan)
      ensures count == |RowsOf(staged, scan)|
    {
      text, digested, count := StreamRows(staged, nextId, scan);
    }

    /** The second cursor pass: every staged row is handed to the archive once, in slices of at most 200. */
    method ArchiveSlices(scan: string) returns (slices: seq<seq<Row>>)
      requires Valid()
      ensures Concat(slices) == RowsOf(staged, scan)
      ensures forall i :: 0 <= i < |slices| ==> 0 < |slices[i]| <= PAGE
      ensures forall i :: 0 <= i < |slices| - 1 ==> |slices[i]| == PAGE
    {
      hide RowsOf, CursorPage, Aligned, CursorAt, Concat;
      slices := [];
      var cursor := 0;
      ghost var all := RowsOf(staged, scan);
      ghost var count := 0;
      CursorMoves(all, 0, []);
      ConcatAppend([], []);
      while true
        invariant 0 <= count <= |all|
        invariant cursor == CursorAt(all, count)
        invariant Concat(slices) == all[..count]
        invariant forall i :: 0 <= i < |slices| ==> 0 < |slices[i]| <= PAGE
        invariant forall i :: 0 <= i < |slices| && count < |all| ==> |slices[i]| == PAGE
        invariant forall i :: 0 <= i < |slices| - 1 ==> |slices[i]| == PAGE
        decreases |all| - count
      {
        CursorPageIs(staged, nextId, scan, count);
        var batch := CursorPage(staged, scan, cursor);
        if |batch| == 0 {
          assert all[..count] == all;
          break;
        }
        cursor := batch[|batch| - 1].id;
        CursorMoves(all, count, batch);
        ConcatAppend(slices, batch);
        assert all[..count] + batch == all[..count + |batch|];
        slices := slices + [batch];
        count := count + |batch|;
      }
    }

    /** The closing transaction; `stored` says whether the run was still the current one. */
    method Commit(scan: string, pages: nat) returns (stored: bool, slices: seq<seq<Row>>)
      requires Valid()
      modifies this
      ensures stored == (old(run) == Some(scan))
      ensures Model() == CommitTx(old(Model()), scan, pages)
      ensures Concat(slices) == if stored then RowsOf(old(staged), scan) else []
      ensures forall i :: 0 <= i < |slices| ==> 0 < |slices[i]| <= PAGE
      ensures forall i :: 0 <= i < |slices| - 1 ==> |slices[i]| == PAGE
    {
      hide RowsOf, JoinLines, Aligned, Concat, WithoutScan;
      ConcatAppend([], []);
      var text, digested, count := StreamContent(scan);
      slices := [];
      stored := run == Some(scan);
      if !stored {
        return;
      }
      content, hashed, completed := Some(text), Some(digested), true;
      run, total, next := None, Some(pages), 1;
      slices := ArchiveSlices(scan);
      if scan in batches {
        batches := batches[scan := Processing];
      }
      staged := WithoutScan(staged, scan);
    }
  }

  /** The first `count` rows are in the text and in the digest, and the cursor stands on the last of them. */
  ghost predicate Streamed(all: seq<Row>, count: nat, cursor: nat, text: string, digested: string) {
    count <= |all| && cursor == CursorAt(all, count) && text == digested == JoinLines(Items(all[..count]))
  }

  lemma StreamedAll(all: seq<Row>, cursor: nat, text: string, digested: string)
    requires Streamed(all, |all|, cursor, text, digested)
    ensures text == digested == JoinLines(Items(all))
  {
    assert all[..|all|] == all;
  }

  method StreamRows(rows: seq<Row>, ghost nextId: nat, scan: string)
      returns (text: string, digested: string, count: nat)
    requires Aligned(rows, nextId) && NonEmpty(rows)
    ensures text == digested == JoinLines(Items(RowsOf(rows, scan)))
    ensures count == |RowsOf(rows, scan)|
  {
    AllNonEmpty(rows, scan);
    ghost var all := RowsOf(rows, scan);
    text, digested, count := "", "", 0;
    var cursor := 0;
    assert Streamed(all, 0, 0, "", "");
    hide RowsOf, CursorPage, JoinLines, Aligned, NonEmpty, Streamed;
    while true
      invariant count <= |all|
      invariant Streamed(all, count, cursor, text, digested)
      decreases |all| - count
    {
      PageAfter(rows, nextId, scan, all, count, cursor, text, digested);
      var batch := CursorPage(rows, scan, cursor);
      if |batch| == 0 {
        break;
      }
      text, digested := AppendRows(text, digested, all, count, cursor, batch);
      cursor := batch[|batch| - 1].id;
      count := count + |batch|;
    }
    StreamedAll(all, cursor, text, digested);
  }

  /** The next page continues where the text ends, and is empty only when all rows are in it. */
  lemma PageAfter(rows: seq<Row>, nextId: nat, scan: string, all: seq<Row>, count: nat, cursor: nat, text: string,
      digested: string)
    requires Aligned(rows, nextId) && all == RowsOf(rows, scan) && Streamed(all, count, cursor, text, digested)
    ensures var batch := CursorPage(rows, scan, cursor);
            && count + |batch| <= |all| && batch == all[count..count + |batch|]
            && (batch == [] ==> count == |all|)
  {
    hide RowsOf, CursorPage, JoinLines, Aligned, CursorAt;
    CursorPageIs(rows, nextId, scan, count);
  }

  /** The inner loop of the first pass: one slice appended to the text and to the digest input. */
  method AppendRows(text0: string, digested0: string, ghost all: seq<Row>, ghost count: nat, ghost cursor: nat,
      batch: seq<Row>)
    returns (text: string, digested: string)
    requires count + |batch| <= |all| && batch == all[count..count + |batch|] && batch != []
    requires NonEmpty(all) && Streamed(all, count, cursor, text0, digested0)
    ensures Streamed(all, count + |batch|, batch[|batch| - 1].id, text, digested)
  {
    hide JoinLines;
    text, digested := text0, digested0;
    for k := 0 to |batch|
      invariant text == digested == JoinLines(Items(all[..count + k]))
    {
      StreamOne(all, count + k);
      if text != "" {
        text, digested := text + "\n", digested + "\n";
      }
      text, digested := text + batch[k].item.content, digested + batch[k].item.content;
    }
  }

  lemma InsertNothing(rows: seq<Row>, nextId: nat, scan: string, page: nat, items: seq<Item>)
    ensures InsertItems(rows, nextId, scan, page, 1, items[..0]) == (rows, nextId)
  {
  }

  lemma ConcatAppend(slices: seq<seq<Row>>, batch: seq<Row>)
    ensures Concat(slices + [batch]) == Concat(slices) + batch
    ensures Concat([]) == []
  {
    assert (slices + [batch])[..|slices|] == slices;
  }

  function Concat(slices: seq<seq<Row>>): seq<Row> {
    if slices == [] then [] else Concat(slices[..|slices| - 1]) + slices[|slices| - 1]
  }

  /** A list cut as the cursor cuts it: pages of 200, and a rest. */
  function InPages(items: seq<Item>): seq<seq<Item>>
    decreases |items|
  {
    if items == [] then []
    else if |items| <= PAGE then [items]
    else [items[..PAGE]] + InPages(items[PAGE..])
  }

  lemma AllNonEmpty(rows: seq<Row>, scan: string)
    requires NonEmpty(rows)
    ensures NonEmpty(RowsOf(rows, scan))
  {
    RowsOfIsIn(rows, scan);
    var all := RowsOf(rows, scan);
    forall i | 0 <= i < |all| ensures all[i].item.content != "" {
      assert all[i] in rows;
    }
  }

  /** One more row: a line break first unless the text is still empty. */
  lemma StreamOne(rows: seq<Row>, k: nat)
    requires k < |rows| && NonEmpty(rows)
    ensures var text := JoinLines(Items(rows[..k]));
            JoinLines(Items(rows[..k + 1])) == (if text != "" then text + "\n" else text) + rows[k].item.content
  {
    var items := Items(rows[..k + 1]);
    assert items[..k] == Items(rows[..k]);
    assert items[k] == rows[k].item;
    if k > 0 {
      assert Items(rows[..k])[k - 1].content != "";
      JoinNonEmpty(Items(rows[..k]));
    }
  }

  lemma JoinNonEmpty(items: seq<Item>)
    requires items != [] && items[|items| - 1].content != ""
    ensures JoinLines(items) != ""
  {
  }
}
