/**
  Every run of a full scan: one scanner that may crash between any two transactions, the user
  routes that reset it, the worker that gives it up, and the batch summary
  (server/capture.ts, server/routes/subscriptions.ts, server/worker.ts, server/notifications.ts).
 */
module FullScanRuns {
  import opened Options
  import opened FullScan

  /** What the scanner process holds in memory; a crash forgets it. */
  datatype Scanner =
    | Idle
    | Fetched(run: Option<string>, known: Option<nat>, next: nat)
    | Loaded(run: Option<string>, known: Option<nat>, next: nat, pending: Option<string>)
    | Reading(scan: string, total: nat, page: nat)

  /** The items that one read of a page gave. */
  datatype Read = Read(page: nat, items: seq<Item>)

  /** One published scan, with the page reads that were committed for it. */
  datatype Record = Record(scan: string, total: nat, taken: seq<Read>, content: string, hashed: string)

  /** `taken`, `log` and `summaries` are history: they record what happened and decide nothing. */
  datatype State = State(db: Tables, scanner: Scanner, taken: seq<Read>, log: seq<Record>, summaries: seq<string>)

  datatype Step =
    | Load
    | FindBatch(pending: Option<string>)
    | Begin(newId: string, pages: nat)
    | Resume
    | Stage(items: seq<Item>)
    | Commit
    | Crash
    | GiveUp
    | ResetScan(batch: string)
    | ResetArchive
    | ReaddPagination
    | OneClick(batch: string)
    | Summarise(batch: string)

  function Lists(taken: seq<Read>): (r: seq<seq<Item>>)
    ensures |r| == |taken| && forall i :: 0 <= i < |r| ==> r[i] == taken[i].items
  {
    seq(|taken|, i requires 0 <= i < |taken| => taken[i].items)
  }

  /** One read of each page, from the first on. */
  predicate InOrder(taken: seq<Read>) {
    forall i :: 0 <= i < |taken| ==> taken[i].page == i + 1
  }

  function Initial(): State {
    State(Tables(None, None, 1, false, None, None, [], 1, map[]), Idle, [], [], [])
  }

  predicate Restarts(l: Scanner)
    requires l.Loaded?
  {
    l.run.None? || l.known.None? || l.known == Some(0)
  }

  function ScanId(l: Scanner, newId: string): string
    requires l.Loaded?
  {
    if l.run.Some? then l.run.value else if l.pending.Some? then l.pending.value else newId
  }

  predicate Enabled(s: State, step: Step) {
    match step
    case Load => s.scanner.Idle? && !s.db.completed
    case FindBatch(pending) =>
      && s.scanner.Fetched?
      && if s.scanner.run.Some? then pending.None?
         else if pending.Some? then pending.value in s.db.batches && s.db.batches[pending.value] == Scanning
         else forall b :: b in s.db.batches ==> s.db.batches[b] != Scanning
    case Begin(newId, pages) =>
      s.scanner.Loaded? && Restarts(s.scanner) && 1 <= pages <= 100 && newId !in s.db.batches
    case Resume => s.scanner.Loaded? && !Restarts(s.scanner)
    case Stage(items) =>
      && s.scanner.Reading? && s.scanner.page <= s.scanner.total
      && items != [] && forall i :: 0 <= i < |items| ==> items[i].content != ""
    case Commit => s.scanner.Reading? && s.scanner.page > s.scanner.total
    case GiveUp => !s.scanner.Idle?
    case Summarise(batch) => batch in s.db.batches && s.db.batches[batch] == Processing
    case _ => true
  }

  function InsertBatch(batches: map<string, BatchStatus>, id: string): map<string, BatchStatus> {
    if id in batches then batches else batches[id := Scanning]
  }

  function AllFailed(batches: map<string, BatchStatus>): map<string, BatchStatus> {
    map b <- batches :: if batches[b] == Scanning then ScanFailed else batches[b]
  }

  function ClearRun(t: Tables): Tables {
    t.(staged := [], run := None, total := None, next := 1, completed := false)
  }

  function Apply(s: State, step: Step): State
    requires Enabled(s, step)
  {
    var db := s.db;
    match step
    case Load => s.(scanner := Fetched(db.run, db.total, db.next))
    case FindBatch(pending) => s.(scanner := Loaded(s.scanner.run, s.scanner.known, s.scanner.next, pending))
    case Begin(newId, pages) =>
      var scan := ScanId(s.scanner, newId);
      s.(db := StartTx(db, scan, pages), scanner := Reading(scan, pages, 1), taken := [])
    case Resume =>
      var l := s.scanner;
      s.(db := db.(batches := InsertBatch(db.batches, l.run.value)),
         scanner := Reading(l.run.value, l.known.value, if l.next < 1 then 1 else l.next))
    case Stage(items) =>
      var r := s.scanner;
      s.(db := StageTx(db, r.scan, r.page, items), scanner := r.(page := r.page + 1),
         taken := if db.run == Some(r.scan) then s.taken + [Read(r.page, items)] else s.taken)
    case Commit =>
      var r := s.scanner;
      var stored := db.run == Some(r.scan);
      s.(db := CommitTx(db, r.scan, r.total), scanner := Idle,
         log := if stored then s.log + [Record(r.scan, r.total, s.taken, Published(db, r.scan), Published(db, r.scan))]
             else s.log)
    case Crash => s.(scanner := Idle)
    case GiveUp => s.(db := db.(batches := AllFailed(db.batches)), scanner := Idle)
    case ResetScan(batch) => s.(db := ClearRun(db).(batches := db.batches[batch := Scanning]))
    case ResetArchive => s.(db := ClearRun(db).(content := None, hashed := None))
    case ReaddPagination => s.(db := db.(completed := false, total := None))
    case OneClick(batch) => s.(db := db.(batches := InsertBatch(db.batches, batch)))
    case Summarise(batch) => s.(db := db.(batches := db.batches[batch := Completed]),
        summaries := s.summaries + [batch])
  }

  // --- The invariant ---

  predicate PagesBelow(rows: seq<Row>, scan: string, page: nat) {
    forall i :: 0 <= i < |rows| && rows[i].scan == scan ==> rows[i].page < page
  }

  predicate RowsOk(t: Tables) {
    Aligned(t.staged, t.nextId) && 0 < t.nextId && NonEmpty(t.staged)
  }

  predicate Open(t: Tables, batch: string) {
    batch in t.batches ==> t.batches[batch] == Scanning || t.batches[batch] == ScanFailed
  }

  /**
    While a run is current, its rows are the first occurrences of the pages read, and `next` is the page
    after them.
   */
  predicate LiveOk(t: Tables, taken: seq<Read>) {
    t.run.Some? ==>
      var scan := t.run.value;
      && Items(RowsOf(t.staged, scan)) == FirstOccurrences(Flatten(Lists(taken)))
      && InOrder(taken)
      && PagesBelow(t.staged, scan, |taken| + 1)
      && t.next == |taken| + 1
      && (t.total.Some? ==> |taken| <= t.total.value)
      && Open(t, scan)
  }

  /** What the scanner read about a run that was under way. */
  predicate FetchOk(t: Tables, run: Option<string>, known: Option<nat>, next: nat) {
    run.Some? ==>
      && Open(t, run.value)
      && (known.Some? ==> PagesBelow(t.staged, run.value, next) && 1 <= next <= known.value + 1)
      && (t.run == run ==> next == t.next && (t.total.Some? ==> t.total == known))
  }

  predicate ScannerOk(t: Tables, scanner: Scanner) {
    match scanner
    case Idle => true
    case Fetched(run, known, next) => FetchOk(t, run, known, next)
    case Loaded(run, known, next, pending) =>
      && FetchOk(t, run, known, next)
      && (pending.Some? ==> Open(t, pending.value))
    case Reading(scan, total, page) =>
      && 1 <= page <= total + 1
      && PagesBelow(t.staged, scan, page)
      && (t.run == Some(scan) ==> page == t.next && (t.total.Some? ==> t.total == Some(total)))
  }

  predicate Faithful(r: Record) {
    && |r.taken| == r.total && InOrder(r.taken)
    && r.content == JoinLines(FirstOccurrences(Flatten(Lists(r.taken))))
    && r.hashed == r.content
  }

  predicate LogOk(log: seq<Record>) {
    forall i :: 0 <= i < |log| ==> Faithful(log[i])
  }

  predicate Inv(s: State) {
    RowsOk(s.db) && LiveOk(s.db, s.taken) && ScannerOk(s.db, s.scanner) && LogOk(s.log)
  }

  predicate SummariesOk(s: State) {
    && (forall i ::
         0 <= i < |s.summaries| ==> s.summaries[i] in s.db.batches && s.db.batches[s.summaries[i]] == Completed)
    && (forall i, j :: 0 <= i < j < |s.summaries| ==> s.summaries[i] != s.summaries[j])
  }

  lemma NoRows(nextId: nat)
    ensures Aligned([], nextId) && NonEmpty([])
  {
  }

  lemma BeginKeeps(s: State, newId: string, pages: nat)
    requires Inv(s) && Enabled(s, Begin(newId, pages))
    ensures Inv(Apply(s, Begin(newId, pages)))
  {
  }

  /** What one staged page does to the rows: `RowsOk` and the page bounds carry over. */
  lemma StageRows(t: Tables, scan: string, page: nat, items: seq<Item>)
    requires RowsOk(t) && PagesBelow(t.staged, scan, page)
    requires forall i :: 0 <= i < |items| ==> items[i].content != ""
    ensures var t' := StageTx(t, scan, page, items);
            && RowsOk(t') && PagesBelow(t'.staged, scan, page + 1)
            && Items(RowsOf(t'.staged, scan)) == Added(Items(RowsOf(t.staged, scan)), items)
            && forall other :: other != scan ==> RowsOf(t'.staged, other) == RowsOf(t.staged, other)
  {
    forall x | x in t.staged && x.scan == scan ensures x.page < page {
      var i :| 0 <= i < |t.staged| && t.staged[i] == x;
    }
    hide Aligned, RowsOf, InsertItems, Added, NonEmpty;
    InsertItemsMeans(t.staged, t.nextId, scan, page, 1, items);
    InsertedNonEmpty(t.staged, t.nextId, scan, page, 1, items);
    var rows := InsertItems(t.staged, t.nextId, scan, page, 1, items).0;
    forall i | 0 <= i < |rows| && rows[i].scan == scan ensures rows[i].page < page + 1 {
      assert rows[i] in rows;
    }
  }

  lemma StageCurrent(t: Tables, scan: string, page: nat, items: seq<Item>, taken: seq<Read>)
    requires RowsOk(t) && PagesBelow(t.staged, scan, page) && LiveOk(t, taken)
    requires forall i :: 0 <= i < |items| ==> items[i].content != ""
    requires t.run == Some(scan) && page == t.next && (t.total.Some? ==> page <= t.total.value)
    ensures LiveOk(StageTx(t, scan, page, items), taken + [Read(page, items)])
  {
    hide RowsOk, RowsOf, StageTx, FirstOccurrences, Flatten, Added, PagesBelow, Lists, InOrder, Items;
    var t', after := StageTx(t, scan, page, items), taken + [Read(page, items)];
    assert Items(RowsOf(t'.staged, scan)) == FirstOccurrences(Flatten(Lists(after))) by {
      StageRows(t, scan, page, items);
      AddPage(Flatten(Lists(taken)), items);
      ListsAppend(taken, Read(page, items));
      FlattenAppend(Lists(taken), items);
    }
    assert PagesBelow(t'.staged, scan, page + 1) by { StageRows(t, scan, page, items); }
    StageNext(t, scan, page, items);
    ListsAppend(taken, Read(page, items));
  }

  lemma ListsAppend(taken: seq<Read>, r: Read)
    ensures Lists(taken + [r]) == Lists(taken) + [r.items]
    ensures InOrder(taken) && r.page == |taken| + 1 ==> InOrder(taken + [r])
  {
    assert Lists(taken + [r]) == Lists(taken) + [r.items];
  }

  lemma StageOther(t: Tables, scan: string, page: nat, items: seq<Item>, taken: seq<Read>)
    requires RowsOk(t) && PagesBelow(t.staged, scan, page) && LiveOk(t, taken) && t.run != Some(scan)
    requires forall i :: 0 <= i < |items| ==> items[i].content != ""
    ensures LiveOk(StageTx(t, scan, page, items), taken)
  {
    StageRows(t, scan, page, items);
    if t.run.Some? {
      OthersBelow(t.staged, t.nextId, scan, page, items, t.run.value, |taken| + 1);
    }
    hide RowsOk, RowsOf, InsertItems, FirstOccurrences, Flatten, Added, PagesBelow, Lists, InOrder;
  }

  lemma StageKeeps(s: State, items: seq<Item>)
    requires Inv(s) && Enabled(s, Stage(items))
    ensures Inv(Apply(s, Stage(items)))
  {
    hide RowsOk, LiveOk, LogOk, StageTx;
    var r, t := s.scanner, s.db;
    StageRows(t, r.scan, r.page, items);
    if t.run == Some(r.scan) {
      StageCurrent(t, r.scan, r.page, items, s.taken);
    } else {
      StageOther(t, r.scan, r.page, items, s.taken);
    }
    StageNext(t, r.scan, r.page, items);
  }

  lemma StageNext(t: Tables, scan: string, page: nat, items: seq<Item>)
    ensures var t' := StageTx(t, scan, page, items);
            t'.run == t.run && t'.total == t.total && t'.batches == t.batches && t'.completed == t.completed
                && (t.run == Some(scan) ==> t'.next == page + 1)
  {
  }

  lemma FlattenAppend(pages: seq<seq<Item>>, items: seq<Item>)
    ensures Flatten(pages + [items]) == Flatten(pages) + items
  {
    assert (pages + [items])[..|pages|] == pages;
  }

  lemma {:induction false} InsertedNonEmpty(rows: seq<Row>, nextId: nat, scan: string, page: nat, position: nat,
      items: seq<Item>)
    requires NonEmpty(rows) && forall i :: 0 <= i < |items| ==> items[i].content != ""
    ensures NonEmpty(InsertItems(rows, nextId, scan, page, position, items).0)
    decreases items
  {
    hide RowsOf, Listed;
    if items != [] {
      if Listed(Items(RowsOf(rows, scan)), items[0].content) {
        InsertedNonEmpty(rows, nextId + 1, scan, page, position + 1, items[1..]);
      } else {
        var rows1 := rows + [Row(nextId, scan, page, position, items[0])];
        InsertedNonEmpty(rows1, nextId + 1, scan, page, position + 1, items[1..]);
      }
    }
  }

  lemma {:induction false} InsertedScans(rows: seq<Row>, nextId: nat, scan: string, page: nat, position: nat,
      items: seq<Item>)
    ensures var rows' := InsertItems(rows, nextId, scan, page, position, items).0;
            rows <= rows' && forall i :: |rows| <= i < |rows'| ==> rows'[i].scan == scan
    decreases items
  {
    hide RowsOf, Listed;
    if items != [] {
      if Listed(Items(RowsOf(rows, scan)), items[0].content) {
        InsertedScans(rows, nextId + 1, scan, page, position + 1, items[1..]);
      } else {
        var rows1 := rows + [Row(nextId, scan, page, position, items[0])];
        InsertedScans(rows1, nextId + 1, scan, page, position + 1, items[1..]);
        var rows' := InsertItems(rows1, nextId + 1, scan, page, position + 1, items[1..]).0;
        assert rows'[|rows|] == rows1[|rows|];
      }
    }
  }

  lemma OthersBelow(rows: seq<Row>, nextId: nat, scan: string, page: nat, items: seq<Item>, other: string, bound: nat)
    requires PagesBelow(rows, other, bound) && other != scan
    ensures PagesBelow(InsertItems(rows, nextId, scan, page, 1, items).0, other, bound)
  {
    InsertedScans(rows, nextId, scan, page, 1, items);
  }

  lemma {:induction false} WithoutScanIsIn(rows: seq<Row>, scan: string)
    ensures forall r <- WithoutScan(rows, scan) :: r in rows
  {
    if rows != [] {
      WithoutScanIsIn(rows[..|rows| - 1], scan);
    }
  }

  lemma {:induction false} WithoutScanAligned(rows: seq<Row>, nextId: nat, scan: string)
    requires Aligned(rows, nextId)
    ensures Aligned(WithoutScan(rows, scan), nextId)
  {
    hide Before;
    if rows != [] {
      var init, last := rows[..|rows| - 1], rows[|rows| - 1];
      WithoutScanAligned(init, nextId, scan);
      WithoutScanIsIn(init, scan);
      var got := WithoutScan(init, scan);
      forall i | 0 <= i < |got| ensures got[i].id < last.id && (got[i].scan == last.scan ==> Before(got[i], last)) {
        assert got[i] in init;
        var j :| 0 <= j < |init| && init[j] == got[i];
        assert rows[j] == got[i];
      }
    }
  }

  lemma CommitKeeps(s: State)
    requires Inv(s) && Enabled(s, Commit)
    ensures Inv(Apply(s, Commit))
  {
    var r, t := s.scanner, s.db;
    WithoutScanAligned(t.staged, t.nextId, r.scan);
    WithoutScanIsIn(t.staged, r.scan);
    hide Aligned, RowsOf, FirstOccurrences, JoinLines, WithoutScan;
    var rest := WithoutScan(t.staged, r.scan);
    forall i | 0 <= i < |rest| ensures rest[i].item.content != "" {
      assert rest[i] in t.staged;
    }
  }

  /** Steps of the scanner that leave the staged rows alone. */
  lemma ScannerKeeps(s: State, step: Step)
    requires Inv(s) && Enabled(s, step)
    requires step.Load? || step.FindBatch? || step.Resume? || step.Crash?
    ensures Inv(Apply(s, step))
  {
    hide RowsOf, LogOk, Flatten, Lists, InOrder, FirstOccurrences, Aligned, NonEmpty, PagesBelow;
  }

  lemma ResetKeeps(s: State, step: Step)
    requires Inv(s) && Enabled(s, step)
    requires step.ResetScan? || step.ResetArchive?
    ensures Inv(Apply(s, step))
  {
    hide RowsOf, LogOk, Flatten, Lists, InOrder, FirstOccurrences, Aligned, NonEmpty;
    NoRows(s.db.nextId);
  }

  lemma BatchesKeep(s: State, step: Step)
    requires Inv(s) && Enabled(s, step)
    requires step.GiveUp? || step.ReaddPagination? || step.OneClick? || step.Summarise?
    ensures Inv(Apply(s, step))
  {
    hide RowsOf, LogOk, Flatten, Lists, InOrder, FirstOccurrences, Aligned, NonEmpty, PagesBelow;
  }

  lemma StepKeeps(s: State, step: Step)
    requires Inv(s) && Enabled(s, step)
    ensures Inv(Apply(s, step))
  {
    match step
    case Begin(newId, pages) => BeginKeeps(s, newId, pages);
    case Stage(items) => StageKeeps(s, items);
    case Commit => CommitKeeps(s);
    case ResetScan(_) => ResetKeeps(s, step);
    case ResetArchive => ResetKeeps(s, step);
    case GiveUp => BatchesKeep(s, step);
    case ReaddPagination => BatchesKeep(s, step);
    case OneClick(_) => BatchesKeep(s, step);
    case Summarise(_) => BatchesKeep(s, step);
    case _ => ScannerKeeps(s, step);
  }

  // --- Runs ---

  /** `steps` can be taken one after the other from `s`, and end in `s'`. */
  predicate Run(s: State, steps: seq<Step>, s': State)
    decreases |steps|
  {
    if steps == [] then s == s'
    else Enabled(s, steps[0]) && Run(Apply(s, steps[0]), steps[1..], s')
  }

  lemma {:induction false} RunKeeps(s: State, steps: seq<Step>, s': State)
    requires Inv(s) && Run(s, steps, s')
    ensures Inv(s')
    decreases |steps|
  {
    if steps != [] {
      StepKeeps(s, steps[0]);
      hide Inv, Enabled, Apply;
      RunKeeps(Apply(s, steps[0]), steps[1..], s');
    }
  }

  /**
    Whatever crashes, resets and page contents a run meets, every published text is the newline
    join of the first occurrences, in order, of exactly one committed read of each page from the first
    to the last, and its digest is taken of that same text.
   */
  lemma EveryPublishedScanIsFaithful(steps: seq<Step>, s: State)
    requires Run(Initial(), steps, s)
    ensures forall i :: 0 <= i < |s.log| ==> Faithful(s.log[i])
  {
    assert Inv(Initial());
    RunKeeps(Initial(), steps, s);
  }

  /** At every moment of every run the tables meet what the cursor passes rely on. */
  lemma StagedRowsStayAligned(steps: seq<Step>, s: State)
    requires Run(Initial(), steps, s)
    ensures RowsOk(s.db)
  {
    assert Inv(Initial());
    RunKeeps(Initial(), steps, s);
  }

  /** Once a run is reset, nothing is published until a scan starts over from its first page. */
  lemma {:induction false} ResetPublishesNothing(s: State, steps: seq<Step>, s': State)
    requires s.db.run.None? && Run(s, steps, s')
    requires forall i :: 0 <= i < |steps| ==> !steps[i].Begin?
    ensures s'.log == s.log && s'.db.run.None?
    decreases |steps|
  {
    if steps != [] {
      var next := Apply(s, steps[0]);
      assert next.log == s.log && next.db.run.None?;
      ResetPublishesNothing(next, steps[1..], s');
    }
  }

  /** A crashed scan resumes at the first page that has no committed read, and keeps every committed one. */
  lemma ResumeContinues(s: State)
    requires Inv(s) && s.scanner.Idle? && !s.db.completed && s.db.run.Some? && s.db.total.Some? && s.db.total.value > 0
    ensures var loaded := Apply(Apply(s, Load), FindBatch(None));
            && Enabled(loaded, Resume)
            && Apply(loaded, Resume).scanner == Reading(s.db.run.value, s.db.total.value, |s.taken| + 1)
            && Apply(loaded, Resume).db.staged == s.db.staged
  {
  }

  // --- The batch summary ---

  /**
    A step can undo the rule that a summarised batch stays completed only in one way: the
    full-scan route reopening a batch that has been summarised since the route read its id.
   */
  lemma SummaryStep(s: State, step: Step)
    requires Inv(s) && SummariesOk(s) && Enabled(s, step)
    ensures SummariesOk(Apply(s, step)) <==> !(step.ResetScan? && step.batch in s.summaries)
  {
    hide RowsOf, FirstOccurrences, Flatten, Aligned, JoinLines, InsertItems, WithoutScan;
    var s' := Apply(s, step);
    match step
    case ResetScan(batch) =>
      if batch in s.summaries {
        var i :| 0 <= i < |s.summaries| && s.summaries[i] == batch;
        assert s'.db.batches[s'.summaries[i]] == Scanning;
      }
    case Begin(newId, pages) =>
      assert Open(s.db, ScanId(s.scanner, newId));
    case Summarise(batch) =>
      assert forall i :: 0 <= i < |s.summaries| ==> s.summaries[i] != batch;
    case _ =>
  }

  /** No step of the run reopens a batch that has already been summarised. */
  predicate NoStaleReset(s: State, steps: seq<Step>)
    decreases |steps|
  {
    steps != [] && Enabled(s, steps[0]) ==>
      !(steps[0].ResetScan? && steps[0].batch in s.summaries) && NoStaleReset(Apply(s, steps[0]), steps[1..])
  }

  lemma {:induction false} SummariesStay(s: State, steps: seq<Step>, s': State)
    requires Inv(s) && SummariesOk(s) && Run(s, steps, s') && NoStaleReset(s, steps)
    ensures SummariesOk(s')
    decreases |steps|
  {
    if steps != [] {
      StepKeeps(s, steps[0]);
      SummaryStep(s, steps[0]);
      hide Inv, SummariesOk, Enabled, Apply;
      SummariesStay(Apply(s, steps[0]), steps[1..], s');
    }
  }

  /** No batch is summarised twice, in any run in which the full-scan route reopens no summarised batch. */
  lemma EachBatchSummarisedOnce(steps: seq<Step>, s: State)
    requires Run(Initial(), steps, s) && NoStaleReset(Initial(), steps)
    ensures forall i, j :: 0 <= i < j < |s.summaries| ==> s.summaries[i] != s.summaries[j]
  {
    assert Inv(Initial()) && SummariesOk(Initial());
    SummariesStay(Initial(), steps, s);
  }

  /**
    The route reads the id of a scanning batch before its transaction writes it. When the scan
    commits and is summarised in between, the same batch is summarised a second time.
   */
  lemma StaleResetSummarisesTwice(s: State, items: seq<Item>)
    requires s.db.run.None? && !s.db.completed && s.scanner.Idle? && s.summaries == [] && s.db.batches == map[]
    requires items != [] && forall i :: 0 <= i < |items| ==> items[i].content != ""
    ensures exists steps, s' :: Run(s, steps, s') && s'.summaries == ["b", "b"]
  {
    hide InsertItems, WithoutScan, Published;
    var s1 := OnePageScan(s, None, items);
    var s2 := Apply(s1, ResetScan("b"));
    var s3 := OnePageScan(s2, Some("b"), items);
    var once := OnePage(None, items);
    var again := OnePage(Some("b"), items);
    RunAppend(s, once, s1, [ResetScan("b")], s2);
    RunAppend(s, once + [ResetScan("b")], s2, again, s3);
  }

  function OnePage(pending: Option<string>, items: seq<Item>): seq<Step> {
    [Load, FindBatch(pending), Begin(if pending.None? then "b" else "c", 1), Stage(items), Commit, Summarise("b")]
  }

  /** A one-page scan under the batch `b`, from loading to summary. */
  lemma OnePageScan(s: State, pending: Option<string>, items: seq<Item>) returns (s': State)
    requires s.db.run.None? && !s.db.completed && s.scanner.Idle?
    requires items != [] && forall i :: 0 <= i < |items| ==> items[i].content != ""
    requires if pending.None? then s.db.batches == map[]
        else pending == Some("b") && s.db.batches == map["b" := Scanning]
    ensures Run(s, OnePage(pending, items), s')
    ensures s'.summaries == s.summaries + ["b"] && s'.scanner.Idle? && s'.db.batches == map["b" := Completed]
  {
    hide StageTx, WithoutScan, Published, Apply, Enabled, Run;
    var newId := if pending.None? then "b" else "c";
    var s0, s1, s2 := Begun(s, pending, newId);
    var s3, s4;
    s3, s4, s' := Ended(s2, items);
    RunFive(s0, FindBatch(pending), s1, Begin(newId, 1), s2, Stage(items), s3, Commit, s4, Summarise("b"), s');
    RunFrom(s, Load, [FindBatch(pending), Begin(newId, 1), Stage(items), Commit, Summarise("b")], s0, s');
    assert OnePage(pending, items)
        == [Load] + [FindBatch(pending), Begin(newId, 1), Stage(items), Commit, Summarise("b")];
  }

  /** A one-page scan under the batch `b` up to its first page. */
  lemma Begun(s: State, pending: Option<string>, newId: string) returns (s0: State, s1: State, s2: State)
    requires s.db.run.None? && !s.db.completed && s.scanner.Idle? && newId == if pending.None? then "b" else "c"
    requires if pending.None? then s.db.batches == map[]
        else pending == Some("b") && s.db.batches == map["b" := Scanning]
    ensures Enabled(s, Load) && s0 == Apply(s, Load) && Enabled(s0, FindBatch(pending))
        && s1 == Apply(s0, FindBatch(pending))
    ensures Enabled(s1, Begin(newId, 1)) && s2 == Apply(s1, Begin(newId, 1))
    ensures s2.db.run == Some("b") && s2.scanner == Reading("b", 1, 1) && s2.db.batches == map["b" := Scanning]
        && s2.summaries == s.summaries
  {
    s0 := Apply(s, Load);
    s1 := Apply(s0, FindBatch(pending));
    s2 := Apply(s1, Begin(newId, 1));
  }

  /** And from its first page to its summary. */
  lemma Ended(s2: State, items: seq<Item>) returns (s3: State, s4: State, s': State)
    requires items != [] && forall i :: 0 <= i < |items| ==> items[i].content != ""
    requires s2.db.run == Some("b") && s2.scanner == Reading("b", 1, 1) && s2.db.batches == map["b" := Scanning]
    ensures Enabled(s2, Stage(items)) && s3 == Apply(s2, Stage(items)) && Enabled(s3, Commit) && s4 == Apply(s3, Commit)
    ensures Enabled(s4, Summarise("b")) && s' == Apply(s4, Summarise("b"))
    ensures s'.summaries == s2.summaries + ["b"] && s'.scanner.Idle? && s'.db.batches == map["b" := Completed]
    ensures s'.db.run.None? && s'.db.completed
  {
    hide StageTx, WithoutScan, Published;
    StageNext(s2.db, "b", 1, items);
    s3 := Apply(s2, Stage(items));
    s4 := Apply(s3, Commit);
    s' := Apply(s4, Summarise("b"));
  }

  lemma RunFrom(s: State, step: Step, rest: seq<Step>, r: State, s': State)
    requires Enabled(s, step) && Apply(s, step) == r && Run(r, rest, s')
    ensures Run(s, [step] + rest, s')
  {
    hide Enabled, Apply;
    assert ([step] + rest)[1..] == rest;
  }

  lemma RunFive(s: State, a: Step, s1: State, b: Step, s2: State, c: Step, s3: State, d: Step, s4: State, e: Step,
      s5: State)
    requires Enabled(s, a) && s1 == Apply(s, a) && Enabled(s1, b) && s2 == Apply(s1, b)
    requires Enabled(s2, c) && s3 == Apply(s2, c) && Enabled(s3, d) && s4 == Apply(s3, d)
    requires Enabled(s4, e) && s5 == Apply(s4, e)
    ensures Run(s, [a, b, c, d, e], s5)
  {
    hide Enabled, Apply;
    assert [e][1..] == [] && [d, e][1..] == [e] && [c, d, e][1..] == [d, e];
    assert [b, c, d, e][1..] == [c, d, e] && [a, b, c, d, e][1..] == [b, c, d, e];
    assert Run(s4, [e], s5);
    assert Run(s3, [d, e], s5);
    assert Run(s2, [c, d, e], s5);
    assert Run(s1, [b, c, d, e], s5);
  }

  lemma {:induction false} RunAppend(s: State, a: seq<Step>, mid: State, b: seq<Step>, s': State)
    requires Run(s, a, mid) && Run(mid, b, s')
    ensures Run(s, a + b, s')
    decreases |a|
  {
    hide Enabled, Apply;
    if a == [] {
      assert a + b == b;
    } else {
      RunAppend(Apply(s, a[0]), a[1..], mid, b, s');
      assert (a + b)[1..] == a[1..] + b;
    }
  }
}
