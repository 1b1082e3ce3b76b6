/**
  Scans whose commit does not do what one call would (server/capture.ts): 201 items, so that the first
  slice is full. Between the two items that matter stand 199 that carry no code and no title.
 */
module SliceExamples {
  import opened Options
  import opened ProductCodes
  import opened ArchiveLookup
  import opened ArchiveWrites
  import opened ArchiveItems
  import opened ArchiveInvariant
  import opened ArchiveSlices
  import opened SliceAgreement
  import opened SliceTitles
  import opened SliceInputs
  import opened FullScan

  // --- The items in between ---

  function Dashes(n: nat): (r: string)
    ensures |r| == n && forall i :: 0 <= i < n ==> r[i] == '-'
  {
    seq(n, _ => '-')
  }

  function Padding(): (r: seq<Item>)
    ensures |r| == PAGE - 1 && forall i :: 0 <= i < |r| ==> r[i] == Item(Dashes(i + 1), None, None)
  {
    seq(PAGE - 1, i requires 0 <= i < PAGE - 1 => Item(Dashes(i + 1), None, None))
  }

  lemma {:induction false} DashesDecode(s: string)
    requires forall i :: 0 <= i < |s| ==> s[i] == '-'
    ensures DecodeHyphens(s) == s && CollapseBlanks(s) == s
  {
    if s != "" {
      DashesDecode(s[1..]);
    }
  }

  /** A line of dashes is no code, and none stands in it. */
  lemma DashesCarryNothing(s: string, k: string)
    requires forall i :: 0 <= i < |s| ==> s[i] == '-'
    ensures ArchiveKey(s).None? && k !in ProductCodeKeys(s)
  {
    DashesDecode(s);
    KeysExact(s, k);
    hide CodesFrom, ProductCodeKeys;
    if j, code :| CodeStandsAt(Decode(s), j, code) && code.Key() == k {
      MatchEnds(s, j, false, code);
      assert false;
    }
  }

  /** The scan of a first item, the padding, and a last item. */
  function Scanned(first: Item, last: Item): seq<Item> { [first] + Padding() + [last] }

  function TwoPages(first: Item, last: Item, wasEmpty: bool): Cut {
    Cut(7, InPages(Scanned(first, last)), wasEmpty, {})
  }

  /** It fills one page, and its last item begins the next. */
  lemma PagesAre(first: Item, last: Item)
    ensures InPages(Scanned(first, last)) == [[first] + Padding(), [last]]
  {
    var all := Scanned(first, last);
    assert all[..PAGE] == [first] + Padding() && all[PAGE..] == [last];
  }

  lemma {:induction false} TitledPlainly(items: seq<Item>)
    requires forall i :: 0 <= i < |items| ==> items[i].title.None?
    ensures Titled(items) == []
  {
    if items != [] {
      TitledPlainly(items[..|items| - 1]);
    }
  }

  /** What the parts of such a commit are. */
  lemma PartsAre(first: Item, last: Item, wasEmpty: bool)
    requires DistinctContents(Flatten(TwoPages(first, last, wasEmpty).slices))
    ensures var c := TwoPages(first, last, wasEmpty);
      && c.slices == [[first] + Padding(), [last]] && Flatten(c.slices) == Scanned(first, last)
      && AdditionsOf(c, 0) == [first] + Padding() && AdditionsOf(c, 1) == [last]
      && AllUpto(c, 0) == [] && AllUpto(c, 1) == [first] + Padding() && AllUpto(c, 2) == Scanned(first, last)
      && Titled(c.slices[0]) == Titled([first]) && Titled(Flatten(c.slices)) == Titled([first]) + Titled([last])
  {
    var c, one := TwoPages(first, last, wasEmpty), [first] + Padding();
    PagesAre(first, last);
    FlattenTwo(one, [last]);
    hide InPages, Flatten, Titled, AdditionsOf, AllUpto, DistinctContents;
    DistinctWithin(c.slices);
    assert c.slices[0] == one && c.slices[1] == [last];
    TwoAdditions(c, one, [last]);
    TitledPlainly(Padding());
    TitledAppend([first], Padding());
    TitledAppend(one, [last]);
  }

  lemma TwoAdditions(c: Cut, one: seq<Item>, two: seq<Item>)
    requires c.slices == [one, two] && c.previous == {} && DistinctContents(one) && DistinctContents(two)
    ensures AdditionsOf(c, 0) == one && AdditionsOf(c, 1) == two
    ensures AllUpto(c, 0) == [] && AllUpto(c, 1) == one && AllUpto(c, 2) == one + two
  {
    FlattenTwo(one, two);
    assert c.slices[..1] == [one] && c.slices[..2] == c.slices && c.slices[..0] == [];
    assert [one][..0] == [] && Flatten([one]) == one && Flatten([]) == [];
    DistinctAreUnique(one);
    DistinctAreUnique(two);
    hide UniqueItems, Flatten, DistinctContents;
    AllAreNew(one, c.wasEmpty);
    AllAreNew(two, c.wasEmpty);
    AllAreNew([], c.wasEmpty);
    AllAreNew(one + two, c.wasEmpty);
    hide Additions;
  }

  lemma FlattenTwo(one: seq<Item>, two: seq<Item>)
    ensures Flatten([one, two]) == one + two
  {
    assert [one, two][..1] == [one] && [one][..0] == [];
    assert Flatten([one]) == one;
  }

  // --- What the last item is decided by ---

  /** A key that is known stays out. */
  lemma KnownStaysOut(r: Rows, known: set<string>, sub: nat, items: seq<Item>, k: string)
    requires k in known && !KeyHeld(r.entries, sub, k)
    ensures !KeyHeld(SimpleAll(r, known, sub, items).entries, sub, k)
  {
    hide ArchiveKey, SimpleAll;
    SimplePrefix(r, known, sub, items);
    var after := SimpleAll(r, known, sub, items).entries;
    assert forall i :: 0 <= i < |r.entries| ==> r.entries[i] == after[i];
    forall i | 0 <= i < |after| && after[i].sub == sub ensures ArchiveKey(after[i].content) != Some(k) {
      var j := SimpleRow(r, known, sub, items, i);
    }
  }

  /** Whether a key that no row and no earlier item has is archived, by the simple archive. */
  lemma ArchivedUnlessKnown(r: Rows, known: set<string>, sub: nat, items: seq<Item>, k: string)
    requires AllHashing(r.entries) && !KeyHeld(r.entries, sub, k) && HasCode(items, k)
    ensures KeyHeld(SimpleAll(r, known, sub, items).entries, sub, k) <==> k !in known
  {
    hide KeyHeld, SimpleAll, HasCode, AllHashing;
    if k in known {
      KnownStaysOut(r, known, sub, items, k);
    } else {
      SimpleHeld(r, known, sub, items, k);
    }
  }

  lemma FirstSliceAgrees(entries: seq<Entry>, c: Cut)
    requires |c.slices| > 0
    ensures InputAgrees(entries, c, 0)
  {
    hide HasCode, Carries, AdditionsOf;
    assert Flatten(c.slices[..0]) == [];
    assert AllUpto(c, 0) == [];
    forall k ensures OldCarries(entries, c, 0, k) <==> SomeCarries(entries, c.sub, k) {
      assert forall i :: 0 <= i < |entries| ==> Titling(entries[i], TitleBy(entries[i], c, 0, 0)) == entries[i];
    }
    assert forall k :: !HasCode([], k) by { NoCodes(); }
  }

  lemma NoCodes()
    ensures forall k :: !HasCode([], k)
  {
  }

  /**
    The last item of such a scan has a code that no row and no earlier item has as its key. One call
    archives it exactly when no row carries the code at the start, the slices when none does by then.
   */
  lemma LastItemDecides(a: Archive, target: Option<nat>, first: Item, last: Item, wasEmpty: bool,
      known: seq<set<string>>, existing: set<string>, k: string)
    requires Given(a, target, TwoPages(first, last, wasEmpty), known, existing)
    requires ArchiveKey(last.content) == Some(k) && ArchiveKey(first.content) != Some(k) && !KeyHeld(a.entries, 7, k)
    ensures var c := TwoPages(first, last, wasEmpty);
      && |known| == |c.slices| == 2
      && (KeyHeld(ArchiveTx(a, 7, Scanned(first, last), wasEmpty, {}, existing).entries, 7, k)
      <==> !SomeCarries(a.entries, 7, k))
      && (KeyHeld(CommitSlices(a, 7, c.slices, wasEmpty, {}, known).entries, 7, k)
          <==> !OldCarries(a.entries, c, 1, k) && !NewCarries(a.entries, c, 1, k))
  {
    var c := TwoPages(first, last, wasEmpty);
    PartsAre(first, last, wasEmpty);
    KeysOfScan(first, last, k);
    GivenParts(a, target, c, known, existing);
    hide *;
    WholeDecides(a, target, c, known, existing, k);
    FirstAgrees(a, target, c, known, existing);
    SlicesDecide(a, target, c, known, existing, k);
  }

  lemma KeysOfScan(first: Item, last: Item, k: string)
    requires ArchiveKey(last.content) == Some(k) && ArchiveKey(first.content) != Some(k)
    ensures HasCode([last], k) && HasCode(Scanned(first, last), k) && !HasCode([first] + Padding(), k)
  {
    hide ArchiveKey;
    assert [last][0] == last;
    assert Scanned(first, last)[PAGE] == last;
    var one := [first] + Padding();
    forall i | 0 <= i < |one| ensures ArchiveKey(one[i].content) != Some(k) {
      if i > 0 {
        DashesCarryNothing(one[i].content, k);
      }
    }
  }

  lemma GivenParts(a: Archive, target: Option<nat>, c: Cut, known: seq<set<string>>, existing: set<string>)
    requires Given(a, target, c, known, existing)
    ensures |known| == |c.slices| && Valid(a, target) && AllHashing(RowsOfArchive(a).entries)
        && Agreeing(a, target, c, known, existing, 0)
    ensures CommitSlices(a, c.sub, c.slices, c.wasEmpty, c.previous, known) == Upto(a, c, known, |c.slices|)
  {
    GivenAgreeing(a, target, c, known, existing);
    UptoAll(a, c, known);
    ValidHashing(a, target);
    UntitledHashing(a.entries);
    hide Valid, SlicesAllowed, DistinctContents, Flatten, LookupAllows, CandidateCodes, Additions, UniqueItems;
  }

  lemma WholeDecides(a: Archive, target: Option<nat>, c: Cut, known: seq<set<string>>, existing: set<string>, k: string)
    requires Given(a, target, c, known, existing) && AllHashing(RowsOfArchive(a).entries)
        && !KeyHeld(a.entries, c.sub, k)
    requires HasCode(AllUpto(c, |c.slices|), k)
    ensures KeyHeld(ArchiveTx(a, c.sub, Flatten(c.slices), c.wasEmpty, c.previous, existing).entries, c.sub, k)
        <==> !SomeCarries(a.entries, c.sub, k)
  {
    AllIsAll(c);
    DistinctAreUnique(Flatten(c.slices));
    hide Valid, SlicesAllowed, DistinctContents, Flatten, LookupAllows, CandidateCodes, Additions, UniqueItems, AllUpto,
        HasCode, KeyHeld, SomeCarries, AllHashing, SimpleAll, ArchiveTx;
    var whole := ArchiveTx(a, c.sub, Flatten(c.slices), c.wasEmpty, c.previous, existing);
    CallIsSimple(a, target, c.sub, Flatten(c.slices), c.wasEmpty, c.previous, existing);
    ExistingIs(a, target, c, existing, k);
    UntitledSame(a.entries, c.sub, k);
    UntitledSame(whole.entries, c.sub, k);
    ArchivedUnlessKnown(RowsOfArchive(a), existing, c.sub, AllUpto(c, |c.slices|), k);
  }

  lemma FirstAgrees(a: Archive, target: Option<nat>, c: Cut, known: seq<set<string>>, existing: set<string>)
    requires Agreeing(a, target, c, known, existing, 0) && |c.slices| > 0
    ensures Agreeing(a, target, c, known, existing, 1)
  {
    FirstSliceAgrees(a.entries, c);
    SliceCondition(a, target, c, known, existing, 0);
    hide Valid, Allowed, DistinctContents, Flatten, LookupAllows, CandidateCodes, AllUpto, AgreeAt, InputAgrees;
  }

  lemma SlicesDecide(a: Archive, target: Option<nat>, c: Cut, known: seq<set<string>>, existing: set<string>, k: string)
    requires Agreeing(a, target, c, known, existing, 1) && |c.slices| == 2 && |known| == 2
    requires Given(a, target, c, known, existing) && AllHashing(RowsOfArchive(a).entries)
        && !KeyHeld(a.entries, c.sub, k)
    requires HasCode(AdditionsOf(c, 1), k) && !HasCode(AllUpto(c, 1), k)
    ensures KeyHeld(Upto(a, c, known, 2).entries, c.sub, k)
        <==> !OldCarries(a.entries, c, 1, k) && !NewCarries(a.entries, c, 1, k)
  {
    AgreeingParts(a, target, c, known, existing, 1);
    hide *;
    var mid := Upto(a, c, known, 1);
    UntitledSame(a.entries, c.sub, k);
    UntitledSame(mid.entries, c.sub, k);
    RowsAre(a);
    RowsAre(mid);
    NotHeldYet(RowsOfArchive(a), existing, c.sub, AllUpto(c, 1), k);
    SliceIsSimple(a, target, c, known, 1);
    UntitledHashing(mid.entries);
    RowsAre(Upto(a, c, known, 2));
    UntitledSame(Upto(a, c, known, 2).entries, c.sub, k);
    ArchivedUnlessKnown(RowsOfArchive(mid), known[1], c.sub, AdditionsOf(c, 1), k);
    SecondLookup(a, target, c, known, existing, k);
  }

  lemma RowsAre(a: Archive)
    ensures RowsOfArchive(a).entries == Untitled(a.entries)
  {
  }

  lemma NotHeldYet(r: Rows, known: set<string>, sub: nat, items: seq<Item>, k: string)
    requires AllHashing(r.entries) && !KeyHeld(r.entries, sub, k) && !HasCode(items, k)
    ensures !KeyHeld(SimpleAll(r, known, sub, items).entries, sub, k)
  {
    hide KeyHeld, SimpleAll, HasCode, AllHashing;
    if k in known {
      KnownStaysOut(r, known, sub, items, k);
    } else {
      SimpleHeld(r, known, sub, items, k);
    }
  }

  lemma SecondLookup(a: Archive, target: Option<nat>, c: Cut, known: seq<set<string>>, existing: set<string>, k: string)
    requires Agreeing(a, target, c, known, existing, 1) && Given(a, target, c, known, existing)
    requires |c.slices| == 2 && |known| == 2 && HasCode(AdditionsOf(c, 1), k)
    ensures k in known[1] <==> OldCarries(a.entries, c, 1, k) || NewCarries(a.entries, c, 1, k)
  {
    AgreeingParts(a, target, c, known, existing, 1);
    hide Agreeing, Valid, Allowed, SlicesAllowed, DistinctContents, Flatten, LookupAllows, CandidateCodes, Additions,
        UniqueItems, AllUpto, HasCode, SomeCarries, OldCarries, NewCarries, Upto, AdditionsOf;
    IndexedLookups(a, target, c, known, existing, 1, k);
    if SomeCarries(Upto(a, c, known, 1).entries, c.sub, k) {
      CarriedBack(a, target, c, known, existing, 1, k);
    }
    if OldCarries(a.entries, c, 1, k) || NewCarries(a.entries, c, 1, k) {
      CarriedForth(a, target, c, known, existing, 1, k);
    }
  }

  // --- The archives and their lookups ---

  const EMPTY := Archive([], {}, 1, 0, true)

  /** An archive of one row, indexed. */
  function RowArchive(e: Entry): Archive { Archive([e], Reindexed({}, [e]), e.id + 1, 0, true) }

  lemma EmptyIsValid()
    ensures Valid(EMPTY, None)
  {
  }

  lemma NothingIndexed(nextId: nat)
    ensures var empty := Archive([], {}, nextId, 0, true);
            Ordered(empty.entries, empty.nextId) && IndexSound(empty) && OnlyOldMissing(empty, None)
  {
  }

  lemma RowIndexed(e: Entry)
    ensures IndexSound(RowArchive(e)) && OnlyOldMissing(RowArchive(e), None)
  {
    NothingIndexed(e.id);
    hide Reindexed, ArchiveKey, IndexSound, OnlyOldMissing, Ordered;
    assert RowArchive(e).entries == [] + [e];
    AddIndexed(Archive([], {}, e.id, 0, true), None, [e], RowArchive(e));
  }

  lemma RowArchiveIsValid(e: Entry)
    requires Hashing(e)
    ensures Valid(RowArchive(e), None)
  {
    RowIndexed(e);
    hide Reindexed, ArchiveKey, IndexSound, OnlyOldMissing, Twins, Hashing;
  }

  /** What the lookups of the slices, and of one call, may report. */
  ghost predicate Looked(a: Archive, c: Cut, known: seq<set<string>>, existing: set<string>) {
    && |known| == |c.slices|
    && SlicesAllowed(a, c.sub, c.slices, c.wasEmpty, c.previous, known)
    && LookupAllows(a, c.sub, CandidateCodes(Additions(UniqueItems(Flatten(c.slices)), c.wasEmpty, c.previous)),
         existing)
  }

  lemma ScanIsGiven(a: Archive, first: Item, last: Item, wasEmpty: bool, known: seq<set<string>>, existing: set<string>)
    requires Valid(a, None) && a.done && Looked(a, TwoPages(first, last, wasEmpty), known, existing)
    requires ArchiveKey(first.content).Some? && ArchiveKey(last.content).Some? && first.content != last.content
    ensures Given(a, None, TwoPages(first, last, wasEmpty), known, existing)
    ensures DistinctContents(Flatten(TwoPages(first, last, wasEmpty).slices))
  {
    var all := Scanned(first, last);
    PagesAre(first, last);
    FlattenTwo([first] + Padding(), [last]);
    hide ArchiveKey, Valid, SlicesAllowed, LookupAllows, CandidateCodes, Additions, UniqueItems, Flatten, InPages;
    forall i, j | 0 <= i < j < |all| ensures all[i].content != all[j].content {
      if i == 0 && j < PAGE {
        DashesCarryNothing(all[j].content, "");
      } else if 0 < i && j == PAGE {
        DashesCarryNothing(all[i].content, "");
      } else if 0 < i {
        assert |all[i].content| != |all[j].content|;
      }
    }
  }

  lemma RetoldOne(e: Entry, item: Item)
    ensures Retold(e, [item]) == if Concerns(item, e) then item.title else e.title
  {
    hide Concerns;
    assert [item][..1] == [item] && [item][1..] == [] && [item][..0] == [];
    assert NewTitle(e, []) == e.title;
  }

  lemma TitledOne(item: Item)
    ensures Titled([item]) == if Truthy(item.title) then [item] else []
  {
    assert [item][..0] == [] && Titled([]) == [];
  }

  /** The title of a row after the first page, which has no titled item but its first. */
  lemma TitleAfterPage(e: Entry, first: Item, last: Item, wasEmpty: bool)
    requires DistinctContents(Flatten(TwoPages(first, last, wasEmpty).slices))
    ensures |TwoPages(first, last, wasEmpty).slices| == 2
    ensures TitleBy(e, TwoPages(first, last, wasEmpty), 0, 1)
            == if Truthy(first.title) && Concerns(first, e) then first.title else e.title
  {
    PartsAre(first, last, wasEmpty);
    TitledOne(first);
    RetoldOne(e, first);
    hide Concerns, Titled, TwoPages, Flatten, DistinctContents, AllUpto, AdditionsOf;
    var c := TwoPages(first, last, wasEmpty);
    assert TitleBy(e, c, 0, 0) == e.title && Titling(e, e.title) == e;
  }

  lemma SameRowsHold(x: Archive, y: Archive, sub: nat, k: string)
    requires SameRows(x, y)
    ensures KeyHeld(x.entries, sub, k) <==> KeyHeld(y.entries, sub, k)
  {
    UntitledSame(x.entries, sub, k);
    UntitledSame(y.entries, sub, k);
    hide KeyHeld, Untitled;
  }

  // --- An item title that names a later code ---

  lemma FirstItemCarries(k1: string, k2: string)
    requires ArchiveKey(k1) == Some(k1) && ArchiveKey(k2) == Some(k2) && k1 != k2
    requires DistinctContents(Flatten(TwoPages(Item(k1, Some(k2), None), Item(k2, None, None), true).slices))
    ensures var c := TwoPages(Item(k1, Some(k2), None), Item(k2, None, None), true);
            |c.slices| == 2 && NewCarries([], c, 1, k2)
  {
    var one, two := Item(k1, Some(k2), None), Item(k2, None, None);
    var c := TwoPages(one, two, true);
    PartsAre(one, two, true);
    TitleAfterPage(NewEntry(0, 7, one), one, two, true);
    ArchiveKeyIsFound(k2, k2);
    CodesSplit(k1, Some(k2), k2);
    NoCodes();
    hide ArchiveKey, CodesOf, ProductCodeKeys, HasCode, TwoPages, TitleBy, Flatten, DistinctContents;
    assert AdditionsOf(c, 0)[0] == one && AllUpto(c, 0) + AdditionsOf(c, 0)[..0] == [];
    assert Archives([], c, 0, 0);
    assert Carries(RowFor(c, 0, 0, 1), k2);
  }

  /** The title of the first item names the code of the last. One call archives both, the slices leave the last out. */
  lemma AliasedTitleDiffers(first: Code, second: Code, known: seq<set<string>>, existing: set<string>)
    requires first.Valid() && second.Valid() && first.Key() != second.Key()
    requires var one, two := Item(first.Key(), Some(second.Key()), None), Item(second.Key(), None, None);
             Looked(EMPTY, TwoPages(one, two, true), known, existing)
    ensures var c := TwoPages(Item(first.Key(), Some(second.Key()), None), Item(second.Key(), None, None), true);
            var sliced := CommitSlices(EMPTY, 7, c.slices, true, {}, known);
            var whole := ArchiveTx(EMPTY, 7, Flatten(c.slices), true, {}, existing);
      && KeyHeld(whole.entries, 7, second.Key()) && !KeyHeld(sliced.entries, 7, second.Key())
      && !SameRows(sliced, whole)
  {
    KeyIsNormal(first);
    KeyIsNormal(second);
    var k1, k2 := first.Key(), second.Key();
    var one, two := Item(k1, Some(k2), None), Item(k2, None, None);
    var c := TwoPages(one, two, true);
    hide ArchiveKey, NormalizeProductCode, ProductCodeKey, LowerAll, CommitSlices, ArchiveTx, Looked, TwoPages, Flatten,
        Given, DistinctContents, NewCarries, OldCarries, SameRows;
    EmptyIsValid();
    ScanIsGiven(EMPTY, one, two, true, known, existing);
    PartsAre(one, two, true);
    FirstItemCarries(k1, k2);
    LastItemDecides(EMPTY, None, one, two, true, known, existing, k2);
    var sliced, whole := CommitSlices(EMPTY, 7, c.slices, true, {}, known),
        ArchiveTx(EMPTY, 7, Flatten(c.slices), true, {}, existing);
    if SameRows(sliced, whole) {
      SameRowsHold(sliced, whole, 7, k2);
    }
  }

  // --- A stored title that an earlier slice replaces ---

  function NamingRow(k1: string, k2: string): Entry { Entry(1, 7, k1, Some(k2), Some(k1), k1) }

  lemma NamingCarries(k1: string, k2: string)
    requires ArchiveKey(k1) == Some(k1) && ArchiveKey(k2) == Some(k2) && k1 != k2
    ensures Carries(NamingRow(k1, k2), k1) && Carries(NamingRow(k1, k2), k2)
        && !Carries(Titling(NamingRow(k1, k2), Some(k1)), k2)
  {
    ArchiveKeyIsFound(k1, k1);
    ArchiveKeyIsFound(k2, k2);
    CodesSplit(k1, Some(k2), k1);
    CodesSplit(k1, Some(k2), k2);
    CodesSplit(k1, Some(k1), k2);
    hide ArchiveKey, CodesOf, ProductCodeKeys;
    if k2 in ProductCodeKeys(k1) {
      OnlyOwnKey(k1, k1, k2);
    }
  }

  /** After the first page no row carries the second code any more. */
  lemma NobodyCarries(k1: string, k2: string)
    requires ArchiveKey(k1) == Some(k1) && ArchiveKey(k2) == Some(k2) && k1 != k2
    requires DistinctContents(Flatten(TwoPages(Item(k1, Some(k1), None), Item(k2, None, None), false).slices))
    ensures var c := TwoPages(Item(k1, Some(k1), None), Item(k2, None, None), false); var e := NamingRow(k1, k2);
            |c.slices| == 2 && SomeCarries([e], 7, k2) && !OldCarries([e], c, 1, k2) && !NewCarries([e], c, 1, k2)
  {
    var one, two, e := Item(k1, Some(k1), None), Item(k2, None, None), NamingRow(k1, k2);
    var c := TwoPages(one, two, false);
    NamingCarries(k1, k2);
    KeyOfKey(k1, k1);
    TitleAfterPage(e, one, two, false);
    assert Concerns(one, e) && Truthy(one.title) && e.sub == 7 && c.sub == 7;
    hide *;
    OneRowCarries(e, c, k1);
    OneRowCarries(e, c, k2);
    NewOnesCarryNothing(k1, k2, c);
  }

  lemma OneRowCarries(e: Entry, c: Cut, k: string)
    requires 1 <= |c.slices| && e.sub == c.sub
    ensures SomeCarries([e], e.sub, k) <==> Carries(e, k)
    ensures OldCarries([e], c, 1, k) <==> Carries(Titling(e, TitleBy(e, c, 0, 1)), k)
  {
    hide Carries, TitleBy, Titling;
    assert [e][0] == e;
  }

  lemma NewOnesCarryNothing(k1: string, k2: string, c: Cut)
    requires ArchiveKey(k1) == Some(k1) && SomeCarries([NamingRow(k1, k2)], 7, k1)
    requires c == TwoPages(Item(k1, Some(k1), None), Item(k2, None, None), false) && DistinctContents(Flatten(c.slices))
    ensures |c.slices| == 2 && !NewCarries([NamingRow(k1, k2)], c, 1, k2)
  {
    var entries := [NamingRow(k1, k2)];
    FirstOf(Item(k1, Some(k1), None), Item(k2, None, None), false);
    assert ArchiveKey(Item(k1, Some(k1), None).content) == Some(k1);
    hide *;
    KnownNotArchived(entries, c, k1);
    forall l | 0 < l < |AdditionsOf(c, 0)| ensures !Carries(RowFor(c, 0, l, 1), k2) {
      PaddingCarriesNothing(k1, k2, c, l);
    }
    NoneCarries(entries, c, k2);
  }

  lemma FirstOf(first: Item, last: Item, wasEmpty: bool)
    requires DistinctContents(Flatten(TwoPages(first, last, wasEmpty).slices))
    ensures var c := TwoPages(first, last, wasEmpty);
            |c.slices| == 2 && |AdditionsOf(c, 0)| > 0 && AdditionsOf(c, 0)[0] == first && c.sub == 7
  {
    PartsAre(first, last, wasEmpty);
    hide AdditionsOf, Flatten, InPages;
  }

  lemma NoneCarries(entries: seq<Entry>, c: Cut, k: string)
    requires |c.slices| > 0 && |AdditionsOf(c, 0)| > 0 && !Archives(entries, c, 0, 0)
    requires forall l :: 0 < l < |AdditionsOf(c, 0)| ==> !Carries(RowFor(c, 0, l, 1), k)
    ensures !NewCarries(entries, c, 1, k)
  {
    hide AdditionsOf, Archives, Carries, RowFor;
  }

  lemma KnownNotArchived(entries: seq<Entry>, c: Cut, k: string)
    requires |c.slices| > 0 && |AdditionsOf(c, 0)| > 0 && ArchiveKey(AdditionsOf(c, 0)[0].content) == Some(k)
    requires SomeCarries(entries, c.sub, k)
    ensures !Archives(entries, c, 0, 0)
  {
    hide ArchiveKey, AdditionsOf, HasCode, SomeCarries, AllUpto;
  }

  lemma PaddingCarriesNothing(k1: string, k2: string, c: Cut, l: nat)
    requires ArchiveKey(k1) == Some(k1)
    requires c == TwoPages(Item(k1, Some(k1), None), Item(k2, None, None), false) && DistinctContents(Flatten(c.slices))
    requires |c.slices| == 2 && 0 < l < |AdditionsOf(c, 0)|
    ensures !Carries(RowFor(c, 0, l, 1), k2)
  {
    var one, two := Item(k1, Some(k1), None), Item(k2, None, None);
    PaddingAt(one, two, false, l);
    DashesCarryNothing(Dashes(l), k2);
    var e := NewEntry(0, 7, Item(Dashes(l), None, None));
    assert !Concerns(one, e);
    TitleAfterPage(e, one, two, false);
    assert c.sub == 7;
    hide *;
    RowOfDashes(c, l);
    UntitledCarries(RowFor(c, 0, l, 1), k2);
  }

  lemma PaddingAt(first: Item, last: Item, wasEmpty: bool, l: nat)
    requires DistinctContents(Flatten(TwoPages(first, last, wasEmpty).slices))
    requires |TwoPages(first, last, wasEmpty).slices| == 2 && 0 < l < |AdditionsOf(TwoPages(first, last, wasEmpty), 0)|
    ensures AdditionsOf(TwoPages(first, last, wasEmpty), 0)[l] == Item(Dashes(l), None, None)
  {
    PartsAre(first, last, wasEmpty);
    hide AdditionsOf, Flatten, InPages, AllUpto;
  }

  lemma RowOfDashes(c: Cut, l: nat)
    requires |c.slices| == 2 && c.sub == 7 && l < |AdditionsOf(c, 0)|
        && AdditionsOf(c, 0)[l] == Item(Dashes(l), None, None)
    ensures RowFor(c, 0, l, 1) == Titling(NewEntry(0, 7, Item(Dashes(l), None, None)),
        TitleBy(NewEntry(0, 7, Item(Dashes(l), None, None)), c, 0, 1))
    ensures NewEntry(0, 7, Item(Dashes(l), None, None)).content == Dashes(l)
        && NewEntry(0, 7, Item(Dashes(l), None, None)).title == None
    ensures RowFor(c, 0, l, 1).content == Dashes(l)
    ensures RowFor(c, 0, l, 1).title == TitleBy(NewEntry(0, 7, Item(Dashes(l), None, None)), c, 0, 1)
  {
    hide TitleBy, ArchiveKey, AdditionsOf;
  }

  lemma UntitledCarries(e: Entry, k: string)
    requires e.title.None? && k !in ProductCodeKeys(e.content)
    ensures !Carries(e, k)
  {
    DashesCarryNothing("", k);
    CodesSplit(e.content, e.title, k);
    hide CodesOf, ProductCodeKeys;
  }

  /**
    A stored title names the code of the last item until the first item replaces it. One call leaves the
    last out, the slices archive it.
   */
  lemma ReplacedTitleDiffers(first: Code, second: Code, known: seq<set<string>>, existing: set<string>)
    requires first.Valid() && second.Valid() && first.Key() != second.Key()
    requires var one, two := Item(first.Key(), Some(first.Key()), None), Item(second.Key(), None, None);
             Looked(RowArchive(NamingRow(first.Key(), second.Key())), TwoPages(one, two, false), known, existing)
    ensures var a := RowArchive(NamingRow(first.Key(), second.Key()));
            var c := TwoPages(Item(first.Key(), Some(first.Key()), None), Item(second.Key(), None, None), false);
            var sliced := CommitSlices(a, 7, c.slices, false, {}, known);
            var whole := ArchiveTx(a, 7, Flatten(c.slices), false, {}, existing);
      && Valid(a, None) && !KeyHeld(whole.entries, 7, second.Key()) && KeyHeld(sliced.entries, 7, second.Key())
      && !SameRows(sliced, whole)
  {
    KeyIsNormal(first);
    KeyIsNormal(second);
    var k1, k2 := first.Key(), second.Key();
    var one, two := Item(k1, Some(k1), None), Item(k2, None, None);
    var a, c := RowArchive(NamingRow(k1, k2)), TwoPages(one, two, false);
    RowArchiveIsValid(NamingRow(k1, k2));
    hide ArchiveKey, NormalizeProductCode, ProductCodeKey, LowerAll, CommitSlices, ArchiveTx, Looked, TwoPages, Flatten,
        Given, DistinctContents, NewCarries, OldCarries, SameRows, SomeCarries, Valid, Reindexed;
    ScanIsGiven(a, one, two, false, known, existing);
    PartsAre(one, two, false);
    NobodyCarries(k1, k2);
    assert [NamingRow(k1, k2)][0].content == k1;
    LastItemDecides(a, None, one, two, false, known, existing, k2);
    var sliced, whole := CommitSlices(a, 7, c.slices, false, {}, known),
        ArchiveTx(a, 7, Flatten(c.slices), false, {}, existing);
    if SameRows(sliced, whole) {
      SameRowsHold(sliced, whole, 7, k2);
    }
  }

  // --- Two titles for one row ---

  /** The code as the one-click route writes it. */
  function Written(code: Code): string { UpperAll(code.prefix) + "-" + code.number }

  function ClickedRow(code: Code,
      title: string): Entry { Entry(1, 7, Written(code), Some(title), Some(code.Key()), code.Key()) }

  lemma WrittenIs(code: Code)
    requires code.Valid()
    ensures ArchiveKey(Written(code)) == Some(code.Key()) && ArchiveKey(code.Key()) == Some(code.Key())
        && Written(code) != code.Key()
  {
    KeyIsNormal(code);
    NormalizedKey(code.Key(), Written(code));
    CaseKeepsValid(code);
    assert Written(code)[0] == Upper(code.prefix[0]) && code.Key()[0] == Lower(code.prefix[0]);
    assert IsLetter(code.prefix[0]);
  }

  lemma TitlesFlip(e: Entry, first: Item, last: Item)
    requires Concerns(first, e) && Concerns(last, e) && last.title == e.title && first.title != e.title
    ensures Retold(e, [first, last]) == first.title && Retold(Titling(e, first.title), [last]) == e.title
  {
    RetoldOne(Titling(e, first.title), last);
    assert Concerns(last, Titling(e, first.title));
    hide Concerns;
    var both := [first, last];
    assert both[..2] == both && both[2..] == [] && both[..1] == [first] && [first][..0] == [];
    assert NewTitle(e, [first]) == first.title;
    assert NewTitle(e, both) == NewTitle(e, [first]);
  }

  /**
    A row with the title `kept`, and two items about it, the first with another title and the last, on the
    next page, with `kept` again. A batch compares with the title it finds: one call leaves the other
    title, the slices `kept`.
   */
  lemma FlippedTitleDiffers(code: Code, kept: string, other: string, known: seq<set<string>>, existing: set<string>)
    requires code.Valid() && kept != other && kept != "" && other != ""
    requires var one, two := Item(code.Key(), Some(other), None), Item(Written(code), Some(kept), None);
             Looked(RowArchive(ClickedRow(code, kept)), TwoPages(one, two, false), known, existing)
    ensures var a := RowArchive(ClickedRow(code, kept));
            var c := TwoPages(Item(code.Key(), Some(other), None), Item(Written(code), Some(kept), None), false);
            var sliced := CommitSlices(a, 7, c.slices, false, {}, known);
            var whole := ArchiveTx(a, 7, Flatten(c.slices), false, {}, existing);
      && Valid(a, None) && |sliced.entries| > 0 && |whole.entries| > 0
      && sliced.entries[0] == ClickedRow(code, kept) && whole.entries[0] == ClickedRow(code, other)
  {
    var e := ClickedRow(code, kept);
    var one, two := Item(code.Key(), Some(other), None), Item(Written(code), Some(kept), None);
    var a, c := RowArchive(e), TwoPages(one, two, false);
    WrittenIs(code);
    RowArchiveIsValid(e);
    hide ArchiveKey, LowerAll, CommitSlices, ArchiveTx, Looked, TwoPages, Flatten, Given, DistinctContents, Valid,
        Reindexed, Written, Hashing;
    assert Concerns(one, e) && Concerns(two, e) && Truthy(one.title) && Truthy(two.title);
    assert ClickedRow(code, kept).title == Some(kept);
    ScanIsGiven(a, one, two, false, known, existing);
    GivenParts(a, None, c, known, existing);
    hide *;
    FlippedBySlices(a, e, one, two, c, known);
    FlippedByOne(a, e, one, two, c, existing);
    RowArchiveIs(e);
    RetitledRow(code, kept, other);
    PartsAre(one, two, false);
  }

  lemma RowArchiveIs(e: Entry)
    ensures RowArchive(e).entries == [e] && [e][0] == e
  {
  }

  lemma RetitledRow(code: Code, kept: string, other: string)
    ensures Titling(ClickedRow(code, kept), Some(other)) == ClickedRow(code, other)
    ensures Titling(ClickedRow(code, kept), Some(kept)) == ClickedRow(code, kept)
    ensures ClickedRow(code, kept).sub == 7 && ClickedRow(code, kept).title == Some(kept)
    ensures TwoPages(Item(code.Key(), Some(other), None), Item(Written(code), Some(kept), None), false).sub == 7
  {
    hide Written, LowerAll, InPages;
  }

  lemma FlippedBySlices(a: Archive, e: Entry, one: Item, two: Item, c: Cut, known: seq<set<string>>)
    requires c == TwoPages(one, two, false) && DistinctContents(Flatten(c.slices)) && |known| == |c.slices|
    requires a.entries == [e] && e.sub == 7 && Truthy(one.title) && Truthy(two.title)
    requires Concerns(one, e) && Concerns(two, e) && two.title == e.title && one.title != e.title
    ensures |c.slices| == 2 && |Upto(a, c, known, 2).entries| > 0
        && Upto(a, c, known, 2).entries[0] == Titling(e, e.title)
  {
    PartsAre(one, two, false);
    TitleOfBothPages(e, one, two, c);
    DistinctWithin(c.slices);
    hide Concerns, Flatten, DistinctContents, Upto, TitleBy, AdditionsOf, InPages;
    UptoKeepsRows(a, c, known, 2);
    var m, l := UptoRow(a, c, known, 2, 0);
  }

  lemma FlippedByOne(a: Archive, e: Entry, one: Item, two: Item, c: Cut, existing: set<string>)
    requires c == TwoPages(one, two, false) && DistinctContents(Flatten(c.slices))
    requires a.entries == [e] && e.sub == 7 && Truthy(one.title) && Truthy(two.title)
    requires Concerns(one, e) && Concerns(two, e) && two.title == e.title && one.title != e.title
    ensures var whole := ArchiveTx(a, 7, Flatten(c.slices), false, {}, existing);
            |whole.entries| > 0 && whole.entries[0] == Titling(e, one.title)
  {
    FlatTitles(one, two);
    hide *;
    TitlesFlip(e, one, two);
    TxKeepsRows(a, 7, Flatten(c.slices), false, {}, existing);
    var j := TxRow(a, 7, Flatten(c.slices), false, {}, existing, 0);
  }

  lemma FlatTitles(one: Item, two: Item)
    requires DistinctContents(Flatten(TwoPages(one, two, false).slices)) && Truthy(one.title) && Truthy(two.title)
    ensures Titled(Flatten(TwoPages(one, two, false).slices)) == [one, two]
  {
    PartsAre(one, two, false);
    TitledOne(one);
    TitledOne(two);
    hide TwoPages, Flatten, Titled, DistinctContents;
  }

  lemma TitleOfBothPages(e: Entry, one: Item, two: Item, c: Cut)
    requires c == TwoPages(one, two, false) && DistinctContents(Flatten(c.slices)) && Truthy(one.title)
        && Truthy(two.title)
    requires Concerns(one, e) && Concerns(two, e) && two.title == e.title && one.title != e.title
    ensures |c.slices| == 2 && TitleBy(e, c, 0, 2) == e.title
  {
    PartsAre(one, two, false);
    TitleAfterPage(e, one, two, false);
    TitledOne(two);
    TitlesFlip(e, one, two);
    hide Concerns, TwoPages, Flatten, DistinctContents, Retold, Titled, AdditionsOf, AllUpto;
    assert TitleBy(e, c, 0, 2) == Retold(Titling(e, TitleBy(e, c, 0, 1)), Titled(c.slices[1]));
  }
}
