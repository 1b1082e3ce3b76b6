/**
  The closing transaction of a full scan, over both sets of tables (server/capture.ts): the staged rows
  are published, and handed to the archive in slices. In every run of a scan the archive then holds what
  one call on the first occurrences of all pages would have put there, exactly when the slices agree.
 */
module ScanCommit {
  import opened Options
  import opened ArchiveLookup
  import opened ArchiveItems
  import opened ArchiveInvariant
  import opened ArchiveSlices
  import opened ArchiveStore
  import opened SliceAgreement
  import opened SliceInputs
  import opened SliceTitles
  import opened FullScan
  import FullScanRuns

  function ItemSlices(slices: seq<seq<Row>>): (r: seq<seq<Item>>)
    ensures |r| == |slices| && forall i :: 0 <= i < |r| ==> r[i] == Items(slices[i])
  {
    seq(|slices|, i requires 0 <= i < |slices| => Items(slices[i]))
  }

  lemma {:induction false} FlattenItems(slices: seq<seq<Row>>)
    ensures Flatten(ItemSlices(slices)) == Items(Concat(slices))
  {
    if slices == [] {
      assert Items(Concat(slices)) == [];
    } else {
      var init, last := slices[..|slices| - 1], slices[|slices| - 1];
      FlattenItems(init);
      assert ItemSlices(slices)[..|init|] == ItemSlices(init);
      assert Items(Concat(init) + last) == Items(Concat(init)) + Items(last);
    }
  }

  /** What the slices so far did to the archive. */
  ghost predicate Committed(before: Archive, c: Cut, known: seq<set<string>>, now: Archive) {
    && |known| == |c.slices|
    && SlicesAllowed(before, c.sub, c.slices, c.wasEmpty, c.previous, known)
    && now == CommitSlices(before, c.sub, c.slices, c.wasEmpty, c.previous, known)
  }

  lemma NothingCommitted(a: Archive, c: Cut)
    requires c.slices == []
    ensures Committed(a, c, [], a)
  {
  }

  lemma OneMore(before: Archive, c: Cut, known: seq<set<string>>, now: Archive, items: seq<Item>, existing: set<string>)
    requires Committed(before, c, known, now)
    requires LookupAllows(now, c.sub, CandidateCodes(Additions(UniqueItems(items), c.wasEmpty, c.previous)), existing)
    ensures Committed(before, c.(slices := c.slices + [items]), known + [existing],
                      ArchiveTx(now, c.sub, items, c.wasEmpty, c.previous, existing))
  {
    hide ArchiveTx, LookupAllows, CandidateCodes, Additions, UniqueItems;
    var d := c.(slices := c.slices + [items]);
    assert d.slices[..|c.slices|] == c.slices && (known + [existing])[..|c.slices|] == known;
  }

  /** The archive half of the commit: one call a slice, with the state read once before the first. */
  method ArchiveInSlices(store: Store, slices: seq<seq<Row>>, sub: nat, lastItems: set<string>,
      ghost target: Option<nat>)
      returns (ghost known: seq<set<string>>)
    requires Valid(store.Model(), target)
    modifies store`entries, store`index, store`nextId
    ensures Committed(old(store.Model()), Cut(sub, ItemSlices(slices), NoRows(old(store.entries), sub), lastItems),
        known, store.Model())
    ensures Valid(store.Model(), target)
  {
    hide Valid, Committed, ArchiveTx, LookupAllows, CandidateCodes, Additions, UniqueItems;
    var frozen := ExistingState(NoRows(store.entries, sub), lastItems);
    ghost var c := Cut(sub, [], frozen.archiveWasEmpty, frozen.previousItems);
    known := [];
    NothingCommitted(store.Model(), c);
    for n := 0 to |slices|
      invariant c == Cut(sub, ItemSlices(slices[..n]), frozen.archiveWasEmpty, frozen.previousItems)
      invariant Committed(old(store.Model()), c, known, store.Model()) && Valid(store.Model(), target)
      modifies store`entries, store`index, store`nextId
    {
      ghost var before := store.Model();
      ValidOrdered(before, target);
      var items := Items(slices[n]);
      ghost var existing;
      var inserted;
      inserted, existing := store.ArchiveNewItems(sub, items, Some(frozen), lastItems);
      OneMore(old(store.Model()), c, known, before, items, existing);
      ArchiveTxKeeps(before, target, sub, items, frozen.archiveWasEmpty, frozen.previousItems, existing);
      c, known := c.(slices := c.slices + [items]), known + [existing];
      assert ItemSlices(slices[..n + 1]) == ItemSlices(slices[..n]) + [items];
    }
    assert slices[..|slices|] == slices;
  }

  lemma ValidOrdered(a: Archive, target: Option<nat>)
    requires Valid(a, target)
    ensures Ordered(a.entries, a.nextId)
  {
  }

  // --- The cut ---

  /** Full pages, and a rest. */
  predicate FullPages(slices: seq<seq<Item>>) {
    && (forall i :: 0 <= i < |slices| ==> 0 < |slices[i]| <= PAGE)
    && (forall i :: 0 <= i < |slices| - 1 ==> |slices[i]| == PAGE)
  }

  lemma {:induction false} FlattenFront(slices: seq<seq<Item>>)
    requires slices != []
    ensures Flatten(slices) == slices[0] + Flatten(slices[1..])
  {
    if |slices| == 1 {
      assert slices[..0] == [] && slices[1..] == [];
    } else {
      var init := slices[..|slices| - 1];
      FlattenFront(init);
      assert slices[1..][..|slices| - 2] == init[1..];
    }
  }

  /** There is one way to cut a list into full pages and a rest. */
  lemma {:induction false} PagesAreTheCut(slices: seq<seq<Item>>)
    requires FullPages(slices)
    ensures slices == InPages(Flatten(slices))
    decreases |slices|
  {
    if slices != [] {
      FlattenFront(slices);
      PagesAreTheCut(slices[1..]);
      if |slices| == 1 {
        assert slices[1..] == [] && slices == [slices[0]] && Flatten([]) == [];
        assert Flatten(slices) == slices[0];
      } else {
        MorePages(slices);
      }
    }
  }

  lemma MorePages(slices: seq<seq<Item>>)
    requires |slices| > 1 && FullPages(slices) && Flatten(slices) == slices[0] + Flatten(slices[1..])
    requires slices[1..] == InPages(Flatten(slices[1..]))
    ensures slices == InPages(Flatten(slices))
  {
    FlattenFront(slices[1..]);
    hide Flatten;
    var all := Flatten(slices);
    assert |all| > PAGE && all[..PAGE] == slices[0] && all[PAGE..] == Flatten(slices[1..]);
    assert slices == [slices[0]] + slices[1..];
  }

  /** What a scan hands to the archive: its staged items, in pages, with what the archive was like before. */
  function CutOf(rows: seq<Row>, id: string, sub: nat, entries: seq<Entry>, lastItems: set<string>): Cut {
    Cut(sub, InPages(Items(RowsOf(rows, id))), NoRows(entries, sub), lastItems)
  }

  /**
    The whole transaction: nothing at all when the run was reset, else the staged items go through the
    archive in pages of 200.
   */
  method CommitScan(scan: Scan, store: Store, id: string, pages: nat, sub: nat, lastItems: set<string>,
      ghost target: Option<nat>)
      returns (stored: bool, ghost known: seq<set<string>>)
    requires scan.Valid() && Valid(store.Model(), target)
    modifies scan, store`entries, store`index, store`nextId
    ensures stored == (old(scan.run) == Some(id)) && scan.Model() == CommitTx(old(scan.Model()), id, pages)
    ensures !stored ==> store.Model() == old(store.Model())
    ensures stored ==> Committed(old(store.Model()), CutOf(old(scan.staged), id, sub, old(store.entries), lastItems),
        known, store.Model())
    ensures Valid(store.Model(), target)
  {
    hide Valid, Committed, CommitTx, RowsOf, Flatten, Concat, NoRows, InPages;
    var slices;
    stored, slices := scan.Commit(id, pages);
    known := [];
    if stored {
      known := ArchiveInSlices(store, slices, sub, lastItems, target);
      FlattenItems(slices);
      PagesAreTheCut(ItemSlices(slices));
    }
  }

  /** What a scan that is ready to commit has staged: the first occurrences of one read of each page, in order. */
  lemma StagedIsFaithful(steps: seq<FullScanRuns.Step>, s: FullScanRuns.State)
    requires FullScanRuns.Run(FullScanRuns.Initial(), steps, s) && FullScanRuns.Enabled(s, FullScanRuns.Commit)
    requires s.db.run == Some(s.scanner.scan)
    ensures |s.taken| == s.scanner.total && FullScanRuns.InOrder(s.taken)
    ensures Items(RowsOf(s.db.staged, s.scanner.scan)) == FirstOccurrences(Flatten(FullScanRuns.Lists(s.taken)))
  {
    assert FullScanRuns.Inv(FullScanRuns.Initial());
    FullScanRuns.RunKeeps(FullScanRuns.Initial(), steps, s);
    hide RowsOf, FirstOccurrences, Flatten, FullScanRuns.Run;
  }

  lemma {:induction false} FlattenPages(items: seq<Item>)
    ensures Flatten(InPages(items)) == items
    decreases |items|
  {
    if items != [] {
      if |items| <= PAGE {
        assert [items][..0] == [];
      } else {
        FlattenPages(items[PAGE..]);
        FlattenFront(InPages(items));
      }
    }
  }

  /**
    In every run of a full scan: the commit leaves the rows that one call on the first occurrences of its
    pages would exactly when the lookups of its pages of 200 agree with that call's, and then the same
    titles if no two items speak about one row. With a complete index that is told from the rows at the
    start and the items alone, for the rows and for the whole tables.
   */
  lemma CommitIsOneCall(steps: seq<FullScanRuns.Step>, s: FullScanRuns.State, a: Archive, target: Option<nat>, sub: nat,
      lastItems: set<string>,
                        known: seq<set<string>>, after: Archive, existing: set<string>)
    requires FullScanRuns.Run(FullScanRuns.Initial(), steps, s) && FullScanRuns.Enabled(s, FullScanRuns.Commit)
    requires s.db.run == Some(s.scanner.scan) && Valid(a, target)
    requires Committed(a, CutOf(s.db.staged, s.scanner.scan, sub, a.entries, lastItems), known, after)
    requires var all := FirstOccurrences(Flatten(FullScanRuns.Lists(s.taken)));
             LookupAllows(a, sub, CandidateCodes(Additions(UniqueItems(all), NoRows(a.entries, sub), lastItems)),
                 existing)
    ensures var all := FirstOccurrences(Flatten(FullScanRuns.Lists(s.taken)));
            var c := Cut(sub, InPages(all), NoRows(a.entries, sub), lastItems);
            var whole := ArchiveTx(a, sub, all, NoRows(a.entries, sub), lastItems, existing);
      && |known| == |c.slices|
      && (SameRows(after, whole) <==> forall n :: 0 <= n < |c.slices| ==> AgreeAt(a, c, known, existing, n))
      && (SameRows(after, whole) && OneItemEach(whole.entries, sub, all) ==> after.entries == whole.entries)
      && (a.done ==> (SameRows(after, whole) <==> forall n :: 0 <= n < |c.slices| ==> InputAgrees(a.entries, c, n)))
      && (a.done ==> (after.entries == whole.entries && after.nextId == whole.nextId
                      <==> TitlesAgree(a.entries, c) && forall n ::
                             0 <= n < |c.slices| ==> InputAgrees(a.entries, c, n)))
  {
    StagedIsFaithful(steps, s);
    var all := FirstOccurrences(Flatten(FullScanRuns.Lists(s.taken)));
    StagedItemsDistinct(Flatten(FullScanRuns.Lists(s.taken)));
    FlattenPages(all);
    hide *;
    CutIs(s.db.staged, s.scanner.scan, sub, a.entries, lastItems, all);
    var c := Cut(sub, InPages(all), NoRows(a.entries, sub), lastItems);
    CommittedParts(a, target, c, all, known, after, existing);
    SlicesAgreeExactly(a, target, c, known, existing);
    var whole := ArchiveTx(a, sub, all, NoRows(a.entries, sub), lastItems, existing);
    if SameRows(after, whole) && OneItemEach(whole.entries, sub, all) {
      SlicesLeaveTheSame(a, target, c, known, existing);
    }
    if a.done {
      SlicesAgreeOnInput(a, target, c, known, existing);
      TablesAgreeOnInput(a, target, c, known, existing);
    }
  }

  lemma CutIs(rows: seq<Row>, id: string, sub: nat, entries: seq<Entry>, lastItems: set<string>, all: seq<Item>)
    requires Items(RowsOf(rows, id)) == all
    ensures CutOf(rows, id, sub, entries, lastItems) == Cut(sub, InPages(all), NoRows(entries, sub), lastItems)
  {
  }

  lemma CommittedParts(a: Archive, target: Option<nat>, c: Cut, all: seq<Item>, known: seq<set<string>>, after: Archive,
      existing: set<string>)
    requires Valid(a, target) && Committed(a, c, known, after) && Flatten(c.slices) == all && DistinctContents(all)
    requires LookupAllows(a, c.sub, CandidateCodes(Additions(UniqueItems(all), c.wasEmpty, c.previous)), existing)
    ensures |known| == |c.slices| && SlicesAllowed(a, c.sub, c.slices, c.wasEmpty, c.previous, known)
    ensures after == CommitSlices(a, c.sub, c.slices, c.wasEmpty, c.previous, known)
    ensures a.done ==> Given(a, target, c, known, existing)
  {
    hide Valid, SlicesAllowed, CommitSlices, LookupAllows, CandidateCodes, Additions, UniqueItems, Flatten,
        DistinctContents;
  }
}
