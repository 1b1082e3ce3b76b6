/**
  The tables of the archive as the server updates them, statement by statement
  (server/capture.ts, server/archive-code-index.ts, server/routes/code-search.ts). Each method is
  proved to have the effect of the corresponding transaction of `ArchiveRuns`.
 */
module ArchiveStore {
  import opened Options
  import opened ProductCodes
  import opened ArchiveLookup
  import opened ArchiveWrites
  import opened ArchiveItems
  import opened ArchiveInvariant
  import opened ArchiveRuns
  import opened FullScan

  /** What the scan commit reads once, before its first slice. */
  datatype ExistingState = ExistingState(archiveWasEmpty: bool, previousItems: set<string>)

  predicate NoRows(entries: seq<Entry>, sub: nat) {
    forall i :: 0 <= i < |entries| ==> entries[i].sub != sub
  }

  function StateOf(entries: seq<Entry>, sub: nat, frozen: Option<ExistingState>,
      lastItems: set<string>): ExistingState
  {
    if frozen.Some? then frozen.value else ExistingState(NoRows(entries, sub), lastItems)
  }

  // --- The loops of archiveNewItems ---

  method UniqueItemsOf(items: seq<Item>) returns (unique: seq<Item>)
    ensures unique == UniqueItems(items)
  {
    unique := [];
    assert items[..0] == [];
    for i := 0 to |items|
      invariant unique == UniqueItems(items[..i])
    {
      hide Put;
      assert items[..i + 1][..i] == items[..i];
      unique := Put(unique, items[i]);
    }
    assert items[..|items|] == items;
  }

  method InsertItemsLoop(start: Pass, sub: nat, items: seq<Item>) returns (p: Pass)
    ensures p == InsertAll(start, sub, items)
  {
    p := start;
    assert items[..0] == [];
    for i := 0 to |items|
      invariant p == InsertAll(start, sub, items[..i])
    {
      hide ArchiveKey, HashTaken, InsertAll;
      var item := items[i];
      InsertAllNext(start, sub, items, i);
      var code := ArchiveKey(item.content);
      if !(code.Some? && code.value in p.existing) {
        if !HashTaken(p.entries, sub, item.content) {
          var e := Entry(p.nextId, sub, item.content, item.title, code, item.content);
          p := p.(entries := p.entries + [e], added := p.added + [e]);
        }
        p := p.(nextId := p.nextId + 1);
        if code.Some? { p := p.(existing := p.existing + {code.value}); }
      }
    }
    assert items[..|items|] == items;
  }

  lemma InsertAllNext(start: Pass, sub: nat, items: seq<Item>, i: nat)
    requires i < |items|
    ensures InsertAll(start, sub, items[..i + 1]) == InsertOne(InsertAll(start, sub, items[..i]), sub, items[i])
  {
    hide InsertOne;
    assert items[..i + 1][..i] == items[..i];
  }

  /** The title a row gets from the pending updates. */
  function TitleAfter(e: Entry, updates: map<nat, string>): Option<string> {
    if e.id in updates then Some(updates[e.id]) else e.title
  }

  predicate AllTruthy(batch: seq<Item>) {
    forall i :: 0 <= i < |batch| ==> Truthy(batch[i].title)
  }

  lemma NewTitleNext(e: Entry, batch: seq<Item>, k: nat)
    requires k < |batch|
    ensures NewTitle(e, batch[..k + 1]) ==
            if Concerns(batch[k], e) && batch[k].title != e.title then batch[k].title else NewTitle(e, batch[..k])
    ensures NewTitle(e, batch[..0]) == e.title
  {
    hide Concerns;
    assert batch[..k + 1][..k] == batch[..k];
  }

  /** For each item, for each row: the map keeps the last differing title. */
  method TitleUpdates(rows: seq<Entry>, batch: seq<Item>) returns (updates: map<nat, string>)
    requires DistinctIds(rows) && AllTruthy(batch)
    ensures forall i :: 0 <= i < |rows| ==> TitleAfter(rows[i], updates) == NewTitle(rows[i], batch)
    ensures forall id :: id in updates ==> HasId(rows, id)
  {
    hide Concerns, HasId, NewTitle;
    updates := map[];
    forall i | 0 <= i < |rows| ensures NewTitle(rows[i], batch[..0]) == rows[i].title {
      NoTitles(rows[i], batch);
    }
    for k := 0 to |batch|
      invariant forall i :: 0 <= i < |rows| ==> TitleAfter(rows[i], updates) == NewTitle(rows[i], batch[..k])
      invariant forall id :: id in updates ==> HasId(rows, id)
    {
      for j := 0 to |rows|
        invariant forall i :: 0 <= i < j ==> TitleAfter(rows[i], updates) == NewTitle(rows[i], batch[..k + 1])
        invariant forall i :: j <= i < |rows| ==> TitleAfter(rows[i], updates) == NewTitle(rows[i], batch[..k])
        invariant forall id :: id in updates ==> HasId(rows, id)
      {
        NewTitleNext(rows[j], batch, k);
        HasIdAt(rows, j);
        if Concerns(batch[k], rows[j]) && batch[k].title != rows[j].title {
          updates := updates[rows[j].id := batch[k].title.value];
        }
      }
    }
    assert batch[..|batch|] == batch;
  }

  lemma NoTitles(e: Entry, batch: seq<Item>)
    ensures NewTitle(e, batch[..0]) == e.title
  {
    assert batch[..0] == [];
  }

  lemma HasIdAt(rows: seq<Entry>, j: nat)
    requires j < |rows|
    ensures HasId(rows, rows[j].id)
  {
  }

  predicate ConcernedBy(e: Entry, sub: nat, batch: seq<Item>) {
    e.sub == sub && exists k :: 0 <= k < |batch| && Concerns(batch[k], e)
  }

  /** WHERE content_hash IN … OR archive_code IN …. */
  function ConcernedRows(entries: seq<Entry>, sub: nat, batch: seq<Item>): seq<Entry> {
    if entries == [] then []
    else
      var init, last := entries[..|entries| - 1], entries[|entries| - 1];
      ConcernedRows(init, sub, batch) + if ConcernedBy(last, sub, batch) then [last] else []
  }

  lemma {:induction false} ConcernedRowsAre(entries: seq<Entry>, sub: nat, batch: seq<Item>, e: Entry)
    ensures e in ConcernedRows(entries, sub, batch) <==> e in entries && ConcernedBy(e, sub, batch)
  {
    hide ConcernedBy;
    if entries != [] {
      var init, last := entries[..|entries| - 1], entries[|entries| - 1];
      ConcernedRowsAre(init, sub, batch, e);
      assert entries == init + [last];
    }
  }

  lemma {:induction false} ConcernedRowsDistinct(entries: seq<Entry>, nextId: nat, sub: nat, batch: seq<Item>)
    requires Ordered(entries, nextId)
    ensures DistinctIds(ConcernedRows(entries, sub, batch))
  {
    hide ConcernedBy;
    if entries != [] {
      var init, last := entries[..|entries| - 1], entries[|entries| - 1];
      ConcernedRowsDistinct(init, nextId, sub, batch);
      var rows := ConcernedRows(init, sub, batch);
      forall i | 0 <= i < |rows| ensures rows[i].id != last.id {
        ConcernedRowsAre(init, sub, batch, rows[i]);
        var k :| 0 <= k < |init| && init[k] == rows[i];
        assert entries[k] == rows[i];
      }
    }
  }

  lemma {:induction false} UnconcernedKeepsTitle(e: Entry, batch: seq<Item>)
    requires forall k :: 0 <= k < |batch| ==> !Concerns(batch[k], e)
    ensures NewTitle(e, batch) == e.title
  {
    hide Concerns;
    if batch != [] {
      var init := batch[..|batch| - 1];
      assert forall k :: 0 <= k < |init| ==> init[k] == batch[k];
      UnconcernedKeepsTitle(e, init);
    }
  }

  lemma UnconcernedHasNoId(entries: seq<Entry>, nextId: nat, sub: nat, batch: seq<Item>, i: nat)
    requires Ordered(entries, nextId) && i < |entries| && !ConcernedBy(entries[i], sub, batch)
    ensures !HasId(ConcernedRows(entries, sub, batch), entries[i].id)
  {
    hide ConcernedBy;
    var rows := ConcernedRows(entries, sub, batch);
    forall j | 0 <= j < |rows| ensures rows[j].id != entries[i].id {
      ConcernedRowsAre(entries, sub, batch, rows[j]);
      var k :| 0 <= k < |entries| && entries[k] == rows[j];
      assert k != i;
    }
  }

  /** Over the whole table, the updates give each row of the subscription its new title and no other row any. */
  lemma UpdatesReach(entries: seq<Entry>, nextId: nat, sub: nat, batch: seq<Item>, updates: map<nat, string>, i: nat)
    requires Ordered(entries, nextId) && i < |entries|
    requires var rows := ConcernedRows(entries, sub, batch);
      && (forall j :: 0 <= j < |rows| ==> TitleAfter(rows[j], updates) == NewTitle(rows[j], batch))
      && (forall id :: id in updates ==> HasId(rows, id))
    ensures TitleAfter(entries[i], updates) == Retitled(entries[i], sub, batch).title
  {
    hide Concerns, NewTitle;
    var rows, e := ConcernedRows(entries, sub, batch), entries[i];
    ConcernedRowsAre(entries, sub, batch, e);
    if ConcernedBy(e, sub, batch) {
      var j :| 0 <= j < |rows| && rows[j] == e;
    } else {
      if e.sub == sub {
        UnconcernedKeepsTitle(e, batch);
      }
      UnconcernedHasNoId(entries, nextId, sub, batch, i);
    }
  }

  /** UPDATE … SET title = CASE id …, and the rows it changed. */
  method ApplyTitles(entries: seq<Entry>, ghost nextId: nat, sub: nat, batch: seq<Item>, updates: map<nat, string>)
      returns (after: seq<Entry>, changed: seq<Entry>)
    requires Ordered(entries, nextId)
    requires forall i ::
        0 <= i < |entries| ==> TitleAfter(entries[i], updates) == Retitled(entries[i], sub, batch).title
    ensures after == RetitledRows(entries, sub, batch) && changed == ChangedRows(entries, sub, batch)
  {
    after, changed := [], [];
    assert entries[..0] == [];
    for i := 0 to |entries|
      invariant after == RetitledRows(entries[..i], sub, batch)
      invariant changed == ChangedRows(entries[..i], sub, batch)
    {
      hide NewTitle, ChangedRows;
      var e := entries[i];
      ghost var r := Retitled(e, sub, batch);
      var retitled := e.(title := TitleAfter(e, updates));
      assert retitled == r;
      ChangedRowsNext(entries, sub, batch, i);
      assert RetitledRows(entries[..i + 1], sub, batch) == RetitledRows(entries[..i], sub, batch) + [r];
      after := after + [retitled];
      if retitled.title != e.title { changed := changed + [retitled]; }
    }
    assert entries[..|entries|] == entries;
  }

  lemma ChangedRowsNext(entries: seq<Entry>, sub: nat, batch: seq<Item>, i: nat)
    requires i < |entries|
    ensures var r := Retitled(entries[i], sub, batch);
            ChangedRows(entries[..i + 1], sub, batch)
            == ChangedRows(entries[..i], sub, batch) + if r.title != entries[i].title then [r] else []
  {
    hide Retitled;
    assert entries[..i + 1][..i] == entries[..i];
  }

  lemma {:induction false} TitledTruthy(items: seq<Item>)
    ensures AllTruthy(Titled(items))
  {
    if items != [] {
      TitledTruthy(items[..|items| - 1]);
    }
  }

  method CandidateCodesOf(items: seq<Item>) returns (codes: seq<string>)
    ensures forall k :: k in codes <==> k in CandidateCodes(items)
    ensures "" !in codes
  {
    codes := Distinct(CandidateCodes(items));
    forall k | k in codes ensures k != "" {
      CandidateCodesAre(items, k);
      var i :| 0 <= i < |items| && ArchiveKey(items[i].content) == Some(k);
      KeyOfKey(items[i].content, k);
    }
  }

  lemma RequestedIs(codes: seq<string>, k: string)
    ensures k in Requested(codes) <==> k in codes && k != ""
  {
  }

  class Store {
    var entries: seq<Entry>
    var index: set<Alias>
    var nextId: nat
    var cursor: nat
    var done: bool

    function Model(): Archive
      reads this
    {
      Archive(entries, index, nextId, cursor, done)
    }

    /** The codes that are archived, asked for a hundred at a time. */
    method KnownCodes(sub: nat, codes: seq<string>) returns (existing: set<string>)
      requires Ordered(entries, nextId) && "" !in codes
      ensures LookupAllows(Model(), sub, codes, existing)
    {
      hide MustFind, MayFind, Ordered, Reachable, Requested, IsFound;
      existing := {};
      var offset := 0;
      while offset < |codes|
        invariant 0 <= offset <= |codes|
        invariant LookupAllows(Model(), sub, codes[..offset], existing)
      {
        var next := Min(offset + CHUNK, |codes|);
        var matches := FindArchiveCodeMatches(Model(), codes[offset..next], sub, false);
        var names := set i | 0 <= i < |matches| :: matches[i].code;
        AnswerAllows(Model(), sub, codes[offset..next], matches, names);
        AllowsMore(Model(), sub, codes, offset, next, existing, names);
        existing := existing + names;
        offset := next;
      }
      assert codes[..|codes|] == codes;
    }

    /** One statement per batch of a hundred titles, and the aliases of the rows it changed. */
    method UpdateTitles(sub: nat, titled: seq<Item>)
      requires Ordered(entries, nextId) && AllTruthy(titled)
      modifies `entries, `index
      ensures Model() == RetitleAll(old(Model()), sub, titled)
    {
      hide RetitleAll, RetitleBatch, ConcernedRows, Retitled, ChangedRows, Reindexed, AllTruthy;
      var offset := 0;
      while offset < |titled|
        invariant 0 <= offset <= |titled| && Ordered(entries, nextId)
        invariant RetitleAll(Model(), sub, titled[offset..]) == RetitleAll(old(Model()), sub, titled)
        modifies `entries, `index
      {
        var next := Min(offset + CHUNK, |titled|);
        var batch := titled[offset..next];
        RetitleSplit(Model(), sub, titled, offset, next);
        ghost var before := Model();
        UpdateBatch(sub, batch);
        RetitleBatchOrdered(before, sub, batch);
        offset := next;
      }
      RetitleNone(Model(), sub, titled[offset..]);
    }

    method UpdateBatch(sub: nat, batch: seq<Item>)
      requires Ordered(entries, nextId) && AllTruthy(batch)
      modifies `entries, `index
      ensures Model() == RetitleBatch(old(Model()), sub, batch)
    {
      var rows := ConcernedRows(entries, sub, batch);
      ConcernedRowsDistinct(entries, nextId, sub, batch);
      var updates := TitleUpdates(rows, batch);
      forall i | 0 <= i < |entries| ensures TitleAfter(entries[i], updates) == Retitled(entries[i], sub, batch).title {
        UpdatesReach(entries, nextId, sub, batch, updates, i);
      }
      ChangedRowsDistinct(entries, nextId, sub, batch);
      hide ConcernedRows, Retitled, ChangedRows, Reindexed;
      var after, changed := ApplyTitles(entries, nextId, sub, batch, updates);
      index := ReplaceArchiveCodes(index, changed);
      entries := after;
    }

    /** `archiveNewItems`: `frozen` is what a scan commit read beforehand, `lastItems` what the last check stored. */
    method ArchiveNewItems(sub: nat, items: seq<Item>, frozen: Option<ExistingState>, lastItems: set<string>)
        returns (inserted: seq<Entry>, ghost existing: set<string>)
      requires Ordered(entries, nextId)
      modifies `entries, `index, `nextId
      ensures var known := StateOf(old(entries), sub, frozen, lastItems);
        && LookupAllows(old(Model()), sub,
             CandidateCodes(Additions(UniqueItems(items), known.archiveWasEmpty, known.previousItems)), existing)
        && Model() == ArchiveTx(old(Model()), sub, items, known.archiveWasEmpty, known.previousItems, existing)
      ensures Untitled(entries) == Untitled(old(entries) + inserted)
    {
      hide LookupAllows, Reindexed, InsertAll, RetitleAll;
      ghost var before := Model();
      var known := StateOf(entries, sub, frozen, lastItems);
      var current := UniqueItemsOf(items);
      var additions := Additions(current, known.archiveWasEmpty, known.previousItems);
      var codes := CandidateCodesOf(additions);
      var existingCodes := KnownCodes(sub, codes);
      existing := existingCodes;
      SameCodesAllow(Model(), sub, codes, CandidateCodes(additions), existing);
      var start := Pass(entries, nextId, existingCodes, []);
      var p := InsertItemsLoop(start, sub, additions);
      InsertAllGrows(start, sub, additions);
      InsertAllOrdered(start, sub, additions);
      AddedDistinct(entries, p.added, p.nextId);
      inserted := p.added;
      entries, nextId := p.entries, p.nextId;
      index := ReplaceArchiveCodes(index, p.added);
      TitledTruthy(current);
      RetitleAllUntitled(Model(), sub, Titled(current));
      UpdateTitles(sub, Titled(current));
    }

    /** The insert of the one-click subscribe, unless the lookup names an entry. */
    method SubscribeCode(sub: nat, code: string, title: Option<string>)
        returns (id: nat, added: bool, ghost found: bool)
      requires Ordered(entries, nextId) && NormalizeProductCode(code) == Some(code)
      modifies `entries, `index, `nextId
      ensures added == !found && (MustFind(old(Model()), sub, LowerAll(code)) ==> found)
      ensures Model() == if found then old(Model()) else OneClickTx(old(Model()), sub, code, title)
      ensures if found then IsFound(old(Model()), sub, [LowerAll(code)], Match(id, LowerAll(code)))
          else id == old(nextId)
    {
      NormalizedKey(code, code);
      hide MustFind, Reindexed, NormalizeProductCode, ArchiveKey, LowerAll, Reachable, RowCarries, IsFound, Requested;
      var key := LowerAll(code);
      var matches := FindArchiveCodeMatches(Model(), [key], sub, false);
      OneAnswer(Model(), sub, key, matches);
      hide Ordered;
      found := matches != [];
      if matches != [] {
        id, added := matches[0].id, false;
      } else {
        id, added := nextId, true;
        InsertCode(sub, code, title);
      }
    }

    method InsertCode(sub: nat, code: string, title: Option<string>)
      modifies `entries, `index, `nextId
      ensures Model() == OneClickTx(old(Model()), sub, code, title)
    {
      hide Reindexed, LowerAll;
      var e := OneClickEntry(nextId, sub, code, title);
      index := ReplaceArchiveCodes(index, [e]);
      entries, nextId := entries + [e], nextId + 1;
    }

    /** One committed page of the backfill. */
    method BackfillPage(target: nat)
      requires Ordered(entries, nextId)
      modifies `index, `cursor
      ensures Model() == BackfillPageTx(old(Model()), target)
    {
      var rows := OldRows(entries, cursor, target, CHUNK);
      OldRowsDistinct(entries, nextId, cursor, target, CHUNK);
      hide OldRows, Reindexed;
      index := ReplaceArchiveCodes(index, rows);
      cursor := PageEnd(rows, target);
    }

    /** Left to itself from any cursor, the backfill ends with every row indexed and changes no row. */
    method BackfillArchiveCodeIndex()
      requires Valid(Model(), None)
      modifies `index, `cursor, `done
      ensures done && Valid(Model(), None)
      ensures forall i :: 0 <= i < |entries| ==> Indexed(index, entries[i])
    {
      hide Valid, BackfillPageTx;
      if !done {
        var target := MaxId(entries);
        StartKeeps(Model());
        while cursor < target
          invariant Valid(Model(), Some(target)) && !done
          modifies `index, `cursor
          decreases target - cursor
        {
          BackfillPageKeeps(Model(), target);
          ValidOrdered(Model(), Some(target));
          BackfillPageKeepsFlag(Model(), target);
          BackfillPage(target);
        }
        FinishKeeps(Model(), target);
        done := true;
      }
      DoneIndexed(Model());
    }
  }

  lemma ValidOrdered(a: Archive, target: Option<nat>)
    requires Valid(a, target)
    ensures Ordered(a.entries, a.nextId)
  {
  }

  lemma BackfillPageKeepsFlag(a: Archive, target: nat)
    ensures BackfillPageTx(a, target).done == a.done && BackfillPageTx(a, target).entries == a.entries
  {
  }

  lemma DoneIndexed(a: Archive)
    requires Valid(a, None) && a.done
    ensures forall i :: 0 <= i < |a.entries| ==> Indexed(a.index, a.entries[i])
  {
    hide NoTwins, UniqueHashes, IndexSound, Indexed;
  }

  lemma OneAnswer(a: Archive, sub: nat, key: string, matches: seq<Match>)
    requires key != ""
    requires forall m :: m in matches ==> IsFound(a, sub, Requested([key]), m)
    requires a.done ==> forall m :: m in matches <==> IndexHas(a, sub, Requested([key]), m)
    requires !a.done ==> forall c :: c in Requested([key]) && Reachable(a, sub, c) ==> Mentioned(matches, c)
    ensures MustFind(a, sub, key) ==> matches != []
    ensures matches != [] ==> IsFound(a, sub, [key], Match(matches[0].id, key))
  {
    RequestedOne(key);
    hide Reachable, RowCarries, MustFind;
    if MustFind(a, sub, key) {
      MustBeNamed(a, sub, [key], matches, key);
    }
    if matches != [] {
      assert IsFound(a, sub, [key], matches[0]);
      assert matches[0] == Match(matches[0].id, key);
    }
  }

  lemma RequestedOne(key: string)
    requires key != ""
    ensures Requested([key]) == [key]
  {
    assert [key][..0] == [] && Distinct([key][..0]) == [];
    assert Distinct([key]) == [key];
    assert [key][1..] == [] && DropEmpty([]) == [];
  }

  lemma SameCodesAllow(a: Archive, sub: nat, codes: seq<string>, others: seq<string>, existing: set<string>)
    requires LookupAllows(a, sub, codes, existing) && forall k :: k in codes <==> k in others
    ensures LookupAllows(a, sub, others, existing)
  {
    hide MustFind, MayFind;
  }

  lemma InsertOneOrdered(p: Pass, sub: nat, item: Item)
    requires Ordered(p.entries, p.nextId)
    ensures var q := InsertOne(p, sub, item); Ordered(q.entries, q.nextId)
  {
    hide ArchiveKey, HashTaken;
  }

  lemma {:induction false} InsertAllOrdered(p: Pass, sub: nat, items: seq<Item>)
    requires Ordered(p.entries, p.nextId)
    ensures var q := InsertAll(p, sub, items); Ordered(q.entries, q.nextId)
  {
    hide InsertOne, Ordered;
    if items != [] {
      InsertAllOrdered(p, sub, items[..|items| - 1]);
      InsertOneOrdered(InsertAll(p, sub, items[..|items| - 1]), sub, items[|items| - 1]);
    }
  }

  lemma AddedDistinct(entries: seq<Entry>, added: seq<Entry>, nextId: nat)
    requires Ordered(entries + added, nextId)
    ensures DistinctIds(added)
  {
    var all := entries + added;
    forall i, j | 0 <= i < j < |added| ensures added[i].id != added[j].id {
      assert all[|entries| + i] == added[i] && all[|entries| + j] == added[j];
    }
  }

  lemma RetitleBatchOrdered(a: Archive, sub: nat, batch: seq<Item>)
    requires Ordered(a.entries, a.nextId)
    ensures Ordered(RetitleBatch(a, sub, batch).entries, a.nextId)
  {
    hide NewTitle, Reindexed;
  }

  lemma RetitleSplit(a: Archive, sub: nat, titled: seq<Item>, i: nat, j: nat)
    requires i < |titled| && j == Min(i + CHUNK, |titled|) && AllTruthy(titled)
    ensures i < j <= |titled| && AllTruthy(titled[i..j])
    ensures RetitleAll(a, sub, titled[i..]) == RetitleAll(RetitleBatch(a, sub, titled[i..j]), sub, titled[j..])
  {
    hide RetitleBatch;
    var rest := titled[i..];
    assert rest[..j - i] == titled[i..j] && rest[j - i..] == titled[j..];
    forall k | 0 <= k < j - i ensures Truthy(titled[i..j][k].title) {
      assert titled[i..j][k] == titled[i + k];
    }
  }

  lemma RetitleNone(a: Archive, sub: nat, titled: seq<Item>)
    requires titled == []
    ensures RetitleAll(a, sub, titled) == a
  {
  }

  lemma AnswerAllows(a: Archive, sub: nat, codes: seq<string>, matches: seq<Match>, names: set<string>)
    requires "" !in codes
    requires forall m :: m in matches ==> IsFound(a, sub, Requested(codes), m)
    requires a.done ==> forall m :: m in matches <==> IndexHas(a, sub, Requested(codes), m)
    requires !a.done ==> forall c :: c in Requested(codes) && Reachable(a, sub, c) ==> Mentioned(matches, c)
    requires names == set i | 0 <= i < |matches| :: matches[i].code
    ensures LookupAllows(a, sub, codes, names)
  {
    hide Carries, Reachable, Requested;
    forall k | k in names ensures k in codes && MayFind(a, sub, k) {
      var i :| 0 <= i < |matches| && matches[i].code == k;
      assert IsFound(a, sub, Requested(codes), matches[i]);
      RequestedIs(codes, k);
      assert Match(matches[i].id, k) == matches[i];
    }
    forall k | k in codes && MustFind(a, sub, k) ensures k in names {
      RequestedIs(codes, k);
      MustBeNamed(a, sub, codes, matches, k);
    }
  }

  lemma MustBeNamed(a: Archive, sub: nat, codes: seq<string>, matches: seq<Match>, k: string)
    requires k in Requested(codes) && MustFind(a, sub, k)
    requires a.done ==> forall m :: m in matches <==> IndexHas(a, sub, Requested(codes), m)
    requires !a.done ==> forall c :: c in Requested(codes) && Reachable(a, sub, c) ==> Mentioned(matches, c)
    ensures Mentioned(matches, k)
  {
    hide Within, Requested;
    if a.done {
      var id :| Alias(id, sub, k) in a.index;
      assert IndexHas(a, sub, Requested(codes), Match(id, k));
      MentionedBy(matches, Match(id, k));
    }
  }

  lemma AllowsMore(a: Archive, sub: nat, codes: seq<string>, i: nat, j: nat, existing: set<string>, names: set<string>)
    requires i <= j <= |codes|
    requires LookupAllows(a, sub, codes[..i], existing) && LookupAllows(a, sub, codes[i..j], names)
    ensures LookupAllows(a, sub, codes[..j], existing + names)
  {
    hide MustFind, MayFind;
    assert codes[..j] == codes[..i] + codes[i..j];
  }
}
