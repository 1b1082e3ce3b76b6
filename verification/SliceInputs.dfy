/**
  When the slices of a scan commit do what one call would, told from the input alone: the rows there
  are at the start, and the items with their slices (server/capture.ts). The index is complete.

  An item whose product code is new is archived by both. What makes a slice skip it is another row that
  carries the code by then; what makes it archive a known one is that every such row has lost it.
 */
module SliceInputs {
  import opened Options
  import opened ProductCodes
  import opened ArchiveLookup
  import opened ArchiveWrites
  import opened ArchiveItems
  import opened ArchiveInvariant
  import opened ArchiveSlices
  import opened SliceAgreement
  import opened SliceTitles
  import opened FullScan

  /**
    One call archives the item: no row carries its code and no earlier item has it; without a code, no row
    has its digest.
   */
  ghost predicate Archives(entries: seq<Entry>, c: Cut, m: nat, l: nat)
    requires m < |c.slices| && l < |AdditionsOf(c, m)|
  {
    var item := AdditionsOf(c, m)[l];
    match ArchiveKey(item.content)
    case Some(k) => !SomeCarries(entries, c.sub, k) && !HasCode(AllUpto(c, m) + AdditionsOf(c, m)[..l], k)
    case None => !HashTaken(entries, c.sub, item.content)
  }

  /** A row of the start, under the title the first `n` slices tell it, carries the code. */
  ghost predicate OldCarries(entries: seq<Entry>, c: Cut, n: nat, k: string)
    requires n <= |c.slices|
  {
    exists i ::
        0 <= i < |entries| && entries[i].sub == c.sub && Carries(Titling(entries[i], TitleBy(entries[i], c, 0, n)), k)
  }

  /** The row of an item, as its own slice and those after it tell its title. */
  function RowFor(c: Cut, m: nat, l: nat, n: nat): Entry
    requires m < |c.slices| && l < |AdditionsOf(c, m)| && n <= |c.slices|
  {
    var e := NewEntry(0, c.sub, AdditionsOf(c, m)[l]);
    Titling(e, TitleBy(e, c, m, n))
  }

  /** So does the row of an item that one of the first `n` slices archives. */
  ghost predicate NewCarries(entries: seq<Entry>, c: Cut, n: nat, k: string)
    requires n <= |c.slices|
  {
    exists m, l ::
        0 <= m < n && 0 <= l < |AdditionsOf(c, m)| && Archives(entries, c, m, l) && Carries(RowFor(c, m, l, n), k)
  }

  /**
    Of the codes of the items of slice `n`, some row carries by then exactly those that one carries at the
    start and those of earlier items.
   */
  ghost predicate InputAgrees(entries: seq<Entry>, c: Cut, n: nat)
    requires n < |c.slices|
  {
    forall k :: HasCode(AdditionsOf(c, n), k) ==>
      (OldCarries(entries, c, n, k) || NewCarries(entries, c, n, k)
      <==> SomeCarries(entries, c.sub, k) || HasCode(AllUpto(c, n), k))
  }

  // --- Which items the simple archive adds ---

  ghost predicate AddedFor(r: Rows, after: seq<Entry>, content: string) {
    exists i :: |r.entries| <= i < |after| && after[i].content == content
  }

  predicate Fresh(r: Rows, known: set<string>, sub: nat, items: seq<Item>, j: nat)
    requires j < |items|
  {
    match ArchiveKey(items[j].content)
    case Some(k) => k !in known && !KeyHeld(r.entries, sub, k) && !HasCode(items[..j], k)
    case None => !HashTaken(r.entries, sub, items[j].content)
  }

  /** The keys held after the items: those held before, and those of the items that were not known. */
  lemma SimpleHeld(r: Rows, known: set<string>, sub: nat, items: seq<Item>, k: string)
    requires AllHashing(r.entries) && k !in known
    ensures KeyHeld(SimpleAll(r, known, sub, items).entries, sub, k)
        <==> KeyHeld(r.entries, sub, k) || HasCode(items, k)
  {
    SimplePrefix(r, known, sub, items);
    hide ArchiveKey, SimpleAll;
    var after := SimpleAll(r, known, sub, items).entries;
    if KeyHeld(r.entries, sub, k) {
      HeldStays(r.entries, after, sub, k);
    }
    if HasCode(items, k) {
      SimpleHolds(r, known, sub, items, k);
    }
    if KeyHeld(after, sub, k) {
      var i :| 0 <= i < |after| && after[i].sub == sub && ArchiveKey(after[i].content) == Some(k);
      var j := SimpleRow(r, known, sub, items, i);
      if i < |r.entries| {
        assert r.entries[i] == after[i];
      }
    }
  }

  /** The digest of an item without a code is taken only by a row there was. */
  lemma {:induction false} SimpleTaken(r: Rows, known: set<string>, sub: nat, items: seq<Item>, content: string)
    requires !Listed(items, content)
    ensures HashTaken(SimpleAll(r, known, sub, items).entries, sub, content) <==> HashTaken(r.entries, sub, content)
  {
    hide ArchiveKey, KeyHeld;
    if items != [] {
      var n := |items| - 1;
      NotListedBefore(items, content);
      SimpleTaken(r, known, sub, items[..n], content);
      var before := SimpleAll(r, known, sub, items[..n]);
      OneTaken(before, known, sub, items[n], content);
    }
  }

  lemma NotListedBefore(items: seq<Item>, content: string)
    requires items != [] && !Listed(items, content)
    ensures !Listed(items[..|items| - 1], content) && items[|items| - 1].content != content
  {
  }

  lemma OneTaken(r: Rows, known: set<string>, sub: nat, item: Item, content: string)
    requires item.content != content
    ensures HashTaken(SimpleOne(r, known, sub, item).entries, sub, content) <==> HashTaken(r.entries, sub, content)
  {
    hide ArchiveKey, KeyHeld;
    var after := SimpleOne(r, known, sub, item).entries;
    assert forall i :: 0 <= i < |r.entries| ==> after[i] == r.entries[i];
  }

  lemma OneAdds(r: Rows, known: set<string>, sub: nat, items: seq<Item>, j: nat)
    requires j < |items| && AllHashing(r.entries) && DistinctContents(items)
    ensures var before := SimpleAll(r, known, sub, items[..j]);
            SimpleOne(before, known, sub, items[j]).entries != before.entries <==> Fresh(r, known, sub, items, j)
  {
    var before, item := SimpleAll(r, known, sub, items[..j]), items[j];
    assert !Listed(items[..j], item.content);
    SimpleHashing(r, known, sub, items[..j]);
    SimpleTaken(r, known, sub, items[..j], item.content);
    hide ArchiveKey, SimpleAll, KeyHeld, HashTaken, HasCode;
    match ArchiveKey(item.content)
    case Some(k) =>
      if k !in known {
        SimpleHeld(r, known, sub, items[..j], k);
      }
      if HashTaken(before.entries, sub, item.content) {
        HashTakenHoldsKey(before.entries, sub, item.content, k);
      }
    case None =>
  }

  /** The simple archive adds a row for exactly the fresh items. */
  lemma {:induction false} SimpleAdds(r: Rows, known: set<string>, sub: nat, items: seq<Item>, n: nat, j: nat)
    requires j < n <= |items| && AllHashing(r.entries) && DistinctContents(items)
    ensures AddedFor(r, SimpleAll(r, known, sub, items[..n]).entries, items[j].content)
        <==> Fresh(r, known, sub, items, j)
    decreases n
  {
    hide ArchiveKey, KeyHeld, HashTaken, Fresh;
    var before := SimpleAll(r, known, sub, items[..n - 1]);
    SimplePrefix(r, known, sub, items[..n - 1]);
    assert items[..n][..n - 1] == items[..n - 1] && items[..n][n - 1] == items[n - 1];
    OneAdds(r, known, sub, items, n - 1);
    var after := SimpleOne(before, known, sub, items[n - 1]);
    OneAppends(r, before, known, sub, items[n - 1], items[j].content);
    if j < n - 1 {
      SimpleAdds(r, known, sub, items, n - 1, j);
    } else {
      NotYetAdded(r, known, sub, items[..j], items[j].content);
    }
  }

  lemma OneAppends(r: Rows, before: Rows, known: set<string>, sub: nat, item: Item, content: string)
    requires r.entries <= before.entries
    ensures var after := SimpleOne(before, known, sub, item).entries;
            AddedFor(r, after, content) <==> AddedFor(r, before.entries, content)
                                             || (after != before.entries && item.content == content)
  {
    hide ArchiveKey, KeyHeld, HashTaken;
    var after := SimpleOne(before, known, sub, item).entries;
    assert forall i :: 0 <= i < |before.entries| ==> after[i] == before.entries[i];
    if after != before.entries {
      assert after[|before.entries|].content == item.content;
    }
  }

  lemma NotYetAdded(r: Rows, known: set<string>, sub: nat, items: seq<Item>, content: string)
    requires !Listed(items, content)
    ensures !AddedFor(r, SimpleAll(r, known, sub, items).entries, content)
  {
    hide SimpleAll, ArchiveKey;
    assert forall j :: 0 <= j < |items| ==> items[j].content != content;
    var after := SimpleAll(r, known, sub, items).entries;
    forall i | |r.entries| <= i < |after| ensures after[i].content != content {
      var j := SimpleRow(r, known, sub, items, i);
    }
  }

  // --- Which items the slices add ---

  lemma {:induction false} UnknownDistinct(items: seq<Item>, previous: set<string>)
    requires DistinctContents(items)
    ensures DistinctContents(Unknown(items, previous))
  {
    if items != [] {
      var init, last := items[..|items| - 1], items[|items| - 1];
      UnknownDistinct(init, previous);
      forall i | 0 <= i < |Unknown(init, previous)| ensures Unknown(init, previous)[i].content != last.content {
        UnknownAre(init, previous, Unknown(init, previous)[i]);
      }
    }
  }

  lemma AllDistinct(c: Cut, n: nat)
    requires n <= |c.slices| && DistinctContents(Flatten(c.slices))
    ensures DistinctContents(AllUpto(c, n)) && DistinctContents(Flatten(c.slices[..n]))
  {
    FlattenPrefix(c.slices, n);
    assert DistinctContents(Flatten(c.slices[..n]));
    UnknownDistinct(Flatten(c.slices[..n]), c.previous);
  }

  lemma {:induction false} FlattenPrefix(slices: seq<seq<Item>>, n: nat)
    requires n <= |slices|
    ensures Flatten(slices[..n]) <= Flatten(slices)
    decreases |slices|
  {
    if n == |slices| {
      assert slices[..n] == slices;
    } else {
      FlattenPrefix(slices[..|slices| - 1], n);
      assert slices[..|slices| - 1][..n] == slices[..n];
    }
  }

  /** The place of an addition among those of all slices. */
  lemma {:induction false} AllUptoAt(c: Cut, m: nat, l: nat, n: nat)
    requires m < n <= |c.slices| && l < |AdditionsOf(c, m)|
    requires forall i :: 0 <= i < |c.slices| ==> DistinctContents(c.slices[i])
    ensures var j := |AllUpto(c, m)| + l;
      && j < |AllUpto(c, n)| && AllUpto(c, n)[j] == AdditionsOf(c, m)[l]
      && AllUpto(c, n)[..j] == AllUpto(c, m) + AdditionsOf(c, m)[..l]
    decreases n
  {
    hide AllUpto, AdditionsOf, DistinctContents;
    AllUptoNext(c, n - 1);
    if m < n - 1 {
      AllUptoAt(c, m, l, n - 1);
    }
  }

  /** What the lookup of one call reports, in terms of the rows. */
  lemma ExistingIs(a: Archive, target: Option<nat>, c: Cut, existing: set<string>, k: string)
    requires Valid(a, target) && a.done && DistinctContents(Flatten(c.slices)) && HasCode(AllUpto(c, |c.slices|), k)
    requires LookupAllows(a, c.sub, CandidateCodes(AllUpto(c, |c.slices|)), existing)
    ensures k in existing <==> SomeCarries(a.entries, c.sub, k)
  {
    hide *;
    CompleteLookup(a, target, c.sub, AllUpto(c, |c.slices|), existing, k);
  }

  lemma HeldIsCarried(entries: seq<Entry>, sub: nat, k: string)
    requires KeyHeld(entries, sub, k)
    ensures SomeCarries(entries, sub, k)
  {
    hide ArchiveKey, CodesOf, ProductCodeKeys;
    var i :| 0 <= i < |entries| && entries[i].sub == sub && ArchiveKey(entries[i].content) == Some(k);
    ArchiveKeyIsFound(entries[i].content, k);
    CodesSplit(entries[i].content, entries[i].title, k);
    assert Carries(entries[i], k);
  }

  lemma FreshIsArchived(a: Archive, target: Option<nat>, c: Cut, existing: set<string>, m: nat, l: nat)
    requires Valid(a, target) && a.done && DistinctContents(Flatten(c.slices)) && m < |c.slices|
        && l < |AdditionsOf(c, m)|
    requires LookupAllows(a, c.sub, CandidateCodes(AllUpto(c, |c.slices|)), existing)
    ensures var j := |AllUpto(c, m)| + l;
            j < |AllUpto(c, |c.slices|)|
            && (Fresh(RowsOfArchive(a), existing, c.sub, AllUpto(c, |c.slices|), j) <==> Archives(a.entries, c, m, l))
  {
    var all, j, item := AllUpto(c, |c.slices|), |AllUpto(c, m)| + l, AdditionsOf(c, m)[l];
    hide *;
    DistinctWithin(c.slices);
    AllUptoAt(c, m, l, |c.slices|);
    FreshIs(a, existing, c, all, j, m, l);
    match ArchiveKey(item.content)
    case None =>
    case Some(k) => KeyedIsKnown(a, target, c, existing, k, j);
  }

  /** Both conditions for one item, side by side. */
  lemma FreshIs(a: Archive, existing: set<string>, c: Cut, all: seq<Item>, j: nat, m: nat, l: nat)
    requires m < |c.slices| && l < |AdditionsOf(c, m)| && j < |all| && all[j] == AdditionsOf(c, m)[l]
    requires all[..j] == AllUpto(c, m) + AdditionsOf(c, m)[..l]
    ensures var key := ArchiveKey(all[j].content);
      && (key.None? ==> (Fresh(RowsOfArchive(a), existing, c.sub, all, j) <==> Archives(a.entries, c, m, l)))
      && (key.Some? ==>
            && (Fresh(RowsOfArchive(a), existing, c.sub, all, j)
                <==> key.value !in existing && !KeyHeld(a.entries, c.sub, key.value) && !HasCode(all[..j], key.value))
            && (Archives(a.entries, c, m, l)
                <==> !SomeCarries(a.entries, c.sub, key.value) && !HasCode(all[..j], key.value)))
  {
    hide AllUpto, AdditionsOf, ArchiveKey, SomeCarries, KeyHeld, HashTaken, HasCode, Untitled;
    match ArchiveKey(all[j].content)
    case None => UntitledSame(a.entries, c.sub, all[j].content);
    case Some(k) => UntitledSame(a.entries, c.sub, k);
  }

  /** When an item with a code is skipped by one call: some row carries the code, as it does if one has its key. */
  lemma KeyedIsKnown(a: Archive, target: Option<nat>, c: Cut, existing: set<string>, k: string, j: nat)
    requires Valid(a, target) && a.done && DistinctContents(Flatten(c.slices))
    requires LookupAllows(a, c.sub, CandidateCodes(AllUpto(c, |c.slices|)), existing)
    requires j < |AllUpto(c, |c.slices|)| && ArchiveKey(AllUpto(c, |c.slices|)[j].content) == Some(k)
    ensures k in existing <==> SomeCarries(a.entries, c.sub, k)
    ensures KeyHeld(a.entries, c.sub, k) ==> SomeCarries(a.entries, c.sub, k)
  {
    assert HasCode(AllUpto(c, |c.slices|), k);
    hide *;
    ExistingIs(a, target, c, existing, k);
    if KeyHeld(a.entries, c.sub, k) {
      HeldIsCarried(a.entries, c.sub, k);
    }
  }

  /** What the slices agree on so far, and what one call is given. */
  ghost predicate Agreeing(a: Archive, target: Option<nat>, c: Cut, known: seq<set<string>>, existing: set<string>,
      n: nat)
  {
    && |known| == |c.slices| && n <= |c.slices| && Valid(a, target) && a.done && Allowed(a, c, known, |c.slices|)
    && DistinctContents(Flatten(c.slices)) && LookupAllows(a, c.sub, CandidateCodes(AllUpto(c, |c.slices|)), existing)
    && forall m :: 0 <= m < n ==> AgreeAt(a, c, known, existing, m)
  }

  lemma AgreeingParts(a: Archive, target: Option<nat>, c: Cut, known: seq<set<string>>, existing: set<string>, n: nat)
    requires Agreeing(a, target, c, known, existing, n)
    ensures |known| == |c.slices| && n <= |c.slices| && Valid(a, target) && a.done && Allowed(a, c, known, |c.slices|)
        && Allowed(a, c, known, n)
    ensures DistinctContents(Flatten(c.slices))
        && LookupAllows(a, c.sub, CandidateCodes(AllUpto(c, |c.slices|)), existing)
    ensures forall m :: 0 <= m < |c.slices| ==> DistinctContents(c.slices[m])
    ensures RowsOfArchive(Upto(a, c, known, n)) == SimpleAll(RowsOfArchive(a), existing, c.sub, AllUpto(c, n))
    ensures AllHashing(RowsOfArchive(a).entries) && |a.entries| <= |Upto(a, c, known, n).entries|
  {
    hide Valid, Allowed, SlicesAllowed, AllUpto, DistinctContents, Flatten, LookupAllows, CandidateCodes, AgreeAt, Upto,
        SimpleAll, AllHashing;
    DistinctWithin(c.slices);
    AllowedBefore(a, c, known, n, |c.slices|);
    AgreeingPrefix(a, target, c, known, existing, n);
    UptoKeepsRows(a, c, known, n);
    ValidHashing(a, target);
    UntitledHashing(a.entries);
  }

  lemma ValidHashing(a: Archive, target: Option<nat>)
    requires Valid(a, target)
    ensures AllHashing(a.entries)
  {
    hide ArchiveKey;
  }

  /** While they agree, the slices add a row for exactly the items that the input says are archived. */
  lemma SlicesAdd(a: Archive, target: Option<nat>, c: Cut, known: seq<set<string>>, existing: set<string>, n: nat,
      m: nat, l: nat)
    requires Agreeing(a, target, c, known, existing, n) && m < n && l < |AdditionsOf(c, m)|
    ensures AddedFor(RowsOfArchive(a), RowsOfArchive(Upto(a, c, known, n)).entries, AdditionsOf(c, m)[l].content)
        <==> Archives(a.entries, c, m, l)
  {
    AgreeingParts(a, target, c, known, existing, n);
    AllDistinct(c, |c.slices|);
    hide *;
    AllUptoAt(c, m, l, n);
    AllUptoAt(c, m, l, |c.slices|);
    AllUptoGrows(c, n, |c.slices|);
    var all, j := AllUpto(c, |c.slices|), |AllUpto(c, m)| + l;
    SimpleAdds(RowsOfArchive(a), existing, c.sub, all, |AllUpto(c, n)|, j);
    FreshIsArchived(a, target, c, existing, m, l);
  }

  lemma {:induction false} AllUptoGrows(c: Cut, n: nat, m: nat)
    requires n <= m <= |c.slices| && forall i :: 0 <= i < |c.slices| ==> DistinctContents(c.slices[i])
    ensures |AllUpto(c, n)| <= |AllUpto(c, m)| && AllUpto(c, m)[..|AllUpto(c, n)|] == AllUpto(c, n)
    decreases m
  {
    hide AllUpto, AdditionsOf, DistinctContents;
    if n < m {
      AllUptoNext(c, m - 1);
      AllUptoGrows(c, n, m - 1);
    }
  }

  // --- Which codes the rows carry ---

  lemma CarriesSame(e: Entry, f: Entry, k: string)
    requires e.content == f.content && e.title == f.title
    ensures Carries(e, k) <==> Carries(f, k)
  {
  }

  /** The place of an item among the additions is told by its content. */
  lemma OnePlace(c: Cut, m: nat, l: nat, m': nat, l': nat)
    requires DistinctContents(Flatten(c.slices)) && m < |c.slices| && m' < |c.slices|
    requires l < |AdditionsOf(c, m)| && l' < |AdditionsOf(c, m')|
    requires AdditionsOf(c, m)[l].content == AdditionsOf(c, m')[l'].content
    ensures m == m' && l == l'
  {
    DistinctWithin(c.slices);
    var i := AdditionIsListed(c, m, l);
    var i' := AdditionIsListed(c, m', l');
    if m < m' {
      DistinctAcross(c.slices, m, i, m', i');
    } else if m' < m {
      DistinctAcross(c.slices, m', i', m, i);
    } else {
      DistinctAreUnique(c.slices[m]);
      UnknownDistinct(c.slices[m], c.previous);
    }
  }

  /** A row of an item, found by its content, is the one the slices made for it. */
  lemma RowOfItem(a: Archive, c: Cut, known: seq<set<string>>, n: nat, i: nat, m: nat, l: nat)
    requires |known| == |c.slices| && n <= |c.slices| && DistinctContents(Flatten(c.slices))
    requires m < n && l < |AdditionsOf(c, m)| && |a.entries| <= i < |Upto(a, c, known, n).entries|
    requires Upto(a, c, known, n).entries[i].content == AdditionsOf(c, m)[l].content
    ensures var e := Upto(a, c, known, n).entries[i];
            e.sub == c.sub && e.content == RowFor(c, m, l, n).content && e.title == RowFor(c, m, l, n).title
  {
    DistinctWithin(c.slices);
    hide Upto, DistinctContents, Flatten, AdditionsOf, TitleBy, ArchiveKey;
    var e := Upto(a, c, known, n).entries[i];
    var m', l' := UptoRow(a, c, known, n, i);
    OnePlace(c, m, l, m', l');
    TitleBySame(NewEntry(e.id, c.sub, AdditionsOf(c, m)[l]), NewEntry(0, c.sub, AdditionsOf(c, m)[l]), c, m, n);
  }

  lemma CarriedBack(a: Archive, target: Option<nat>, c: Cut, known: seq<set<string>>, existing: set<string>, n: nat,
      k: string)
    requires Agreeing(a, target, c, known, existing, n) && SomeCarries(Upto(a, c, known, n).entries, c.sub, k)
    ensures OldCarries(a.entries, c, n, k) || NewCarries(a.entries, c, n, k)
  {
    AgreeingParts(a, target, c, known, existing, n);
    var entries := Upto(a, c, known, n).entries;
    hide Agreeing, Valid, Allowed, Upto, AllUpto, DistinctContents, Flatten, LookupAllows, CandidateCodes, SimpleAll,
        AllHashing, TitleBy, AdditionsOf, Carries, Archives, ArchiveKey;
    var i :| 0 <= i < |entries| && entries[i].sub == c.sub && Carries(entries[i], k);
    var m, l := UptoRow(a, c, known, n, i);
    if |a.entries| <= i {
      RowOfItem(a, c, known, n, i, m, l);
      CarriesSame(entries[i], RowFor(c, m, l, n), k);
      assert RowsOfArchive(Upto(a, c, known, n)).entries[i].content == AdditionsOf(c, m)[l].content;
      assert AddedFor(RowsOfArchive(a), RowsOfArchive(Upto(a, c, known, n)).entries, AdditionsOf(c, m)[l].content);
      SlicesAdd(a, target, c, known, existing, n, m, l);
    }
  }

  lemma OldForth(a: Archive, c: Cut, known: seq<set<string>>, n: nat, k: string)
    requires |known| == |c.slices| && n <= |c.slices| && forall m ::
        0 <= m < |c.slices| ==> DistinctContents(c.slices[m])
    requires |a.entries| <= |Upto(a, c, known, n).entries| && OldCarries(a.entries, c, n, k)
    ensures SomeCarries(Upto(a, c, known, n).entries, c.sub, k)
  {
    hide Upto, DistinctContents, TitleBy, AdditionsOf, Carries;
    var i :| 0 <= i < |a.entries| && a.entries[i].sub == c.sub
        && Carries(Titling(a.entries[i], TitleBy(a.entries[i], c, 0, n)), k);
    var m, l := UptoRow(a, c, known, n, i);
    assert Carries(Upto(a, c, known, n).entries[i], k);
  }

  lemma NewForth(a: Archive, c: Cut, known: seq<set<string>>, n: nat, m: nat, l: nat, k: string)
    requires |known| == |c.slices| && n <= |c.slices| && DistinctContents(Flatten(c.slices))
    requires m < n && l < |AdditionsOf(c, m)| && Carries(RowFor(c, m, l, n), k)
    requires AddedFor(RowsOfArchive(a), RowsOfArchive(Upto(a, c, known, n)).entries, AdditionsOf(c, m)[l].content)
    ensures SomeCarries(Upto(a, c, known, n).entries, c.sub, k)
  {
    hide Upto, DistinctContents, Flatten, AdditionsOf, Carries, RowFor;
    var entries, rows := Upto(a, c, known, n).entries, RowsOfArchive(Upto(a, c, known, n)).entries;
    var i :| |a.entries| <= i < |rows| && rows[i].content == AdditionsOf(c, m)[l].content;
    RowOfItem(a, c, known, n, i, m, l);
    CarriesSame(entries[i], RowFor(c, m, l, n), k);
  }

  lemma CarriedForth(a: Archive, target: Option<nat>, c: Cut, known: seq<set<string>>, existing: set<string>, n: nat,
      k: string)
    requires Agreeing(a, target, c, known, existing, n)
        && (OldCarries(a.entries, c, n, k) || NewCarries(a.entries, c, n, k))
    ensures SomeCarries(Upto(a, c, known, n).entries, c.sub, k)
  {
    AgreeingParts(a, target, c, known, existing, n);
    if OldCarries(a.entries, c, n, k) {
      hide *;
      OldForth(a, c, known, n, k);
    } else {
      hide Agreeing, Upto, SomeCarries, OldCarries, Carries, Archives, RowFor, AdditionsOf, AddedFor, DistinctContents,
          Flatten;
      var m, l :| 0 <= m < n && 0 <= l < |AdditionsOf(c, m)| && Archives(a.entries, c, m, l)
          && Carries(RowFor(c, m, l, n), k);
      hide *;
      SlicesAdd(a, target, c, known, existing, n, m, l);
      NewForth(a, c, known, n, m, l, k);
    }
  }

  lemma HeldSoFar(a: Archive, target: Option<nat>, c: Cut, known: seq<set<string>>, existing: set<string>, n: nat,
      k: string)
    requires Agreeing(a, target, c, known, existing, n) && n < |c.slices| && HasCode(AdditionsOf(c, n), k)
    ensures SomeCarries(a.entries, c.sub, k) || KeyHeld(Upto(a, c, known, n).entries, c.sub, k)
            <==> SomeCarries(a.entries, c.sub, k) || HasCode(AllUpto(c, n), k)
  {
    AgreeingParts(a, target, c, known, existing, n);
    CodeAmongAll(c, n, k);
    assert c.slices[..|c.slices|] == c.slices;
    hide *;
    AllIsAll(c);
    ExistingIs(a, target, c, existing, k);
    HeldOnRows(a, Upto(a, c, known, n), c.sub, existing, AllUpto(c, n), k);
  }

  lemma AllIsAll(c: Cut)
    ensures AllUpto(c, |c.slices|) == Additions(Flatten(c.slices), c.wasEmpty, c.previous)
  {
    assert c.slices[..|c.slices|] == c.slices;
  }

  lemma HeldOnRows(a: Archive, now: Archive, sub: nat, existing: set<string>, items: seq<Item>, k: string)
    requires AllHashing(RowsOfArchive(a).entries)
        && RowsOfArchive(now) == SimpleAll(RowsOfArchive(a), existing, sub, items)
    requires k in existing <==> SomeCarries(a.entries, sub, k)
    ensures SomeCarries(a.entries, sub, k) || KeyHeld(now.entries, sub, k)
        <==> SomeCarries(a.entries, sub, k) || HasCode(items, k)
  {
    hide SimpleAll, SomeCarries, KeyHeld, HasCode, AllHashing, Untitled;
    UntitledSame(a.entries, sub, k);
    UntitledSame(now.entries, sub, k);
    if k !in existing {
      SimpleHeld(RowsOfArchive(a), existing, sub, items, k);
      if KeyHeld(a.entries, sub, k) {
        HeldIsCarried(a.entries, sub, k);
      }
    }
  }

  /** While the slices before it agree, a slice does exactly when its input does. */
  lemma SliceCondition(a: Archive, target: Option<nat>, c: Cut, known: seq<set<string>>, existing: set<string>, n: nat)
    requires Agreeing(a, target, c, known, existing, n) && n < |c.slices|
    ensures AgreeAt(a, c, known, existing, n) <==> InputAgrees(a.entries, c, n)
  {
    AgreeingParts(a, target, c, known, existing, n);
    AllIsAll(c);
    DistinctAreUnique(Flatten(c.slices));
    hide *;
    IndexedSlice(a, target, c, known, existing, n);
    CarriedCondition(a, target, c, known, existing, n);
  }

  lemma CarriedCondition(a: Archive, target: Option<nat>, c: Cut, known: seq<set<string>>, existing: set<string>,
      n: nat)
    requires Agreeing(a, target, c, known, existing, n) && n < |c.slices| && |known| == |c.slices|
    ensures CarriedAgreeAt(a, c, known, n) <==> InputAgrees(a.entries, c, n)
  {
    hide Agreeing, Upto, AllUpto, AdditionsOf, SomeCarries, KeyHeld, HasCode, OldCarries, NewCarries;
    forall k | HasCode(AdditionsOf(c, n), k)
      ensures SomeCarries(Upto(a, c, known, n).entries, c.sub, k)
          <==> OldCarries(a.entries, c, n, k) || NewCarries(a.entries, c, n, k)
      ensures SomeCarries(a.entries, c.sub, k) || KeyHeld(Upto(a, c, known, n).entries, c.sub, k)
              <==> SomeCarries(a.entries, c.sub, k) || HasCode(AllUpto(c, n), k)
    {
      if SomeCarries(Upto(a, c, known, n).entries, c.sub, k) {
        CarriedBack(a, target, c, known, existing, n, k);
      }
      if OldCarries(a.entries, c, n, k) || NewCarries(a.entries, c, n, k) {
        CarriedForth(a, target, c, known, existing, n, k);
      }
      HeldSoFar(a, target, c, known, existing, n, k);
    }
  }

  lemma {:induction false} AgreeOnInput(a: Archive, target: Option<nat>, c: Cut, known: seq<set<string>>,
      existing: set<string>, n: nat)
    requires n <= |c.slices| && Agreeing(a, target, c, known, existing, 0)
    ensures |known| == |c.slices|
    ensures (forall m :: 0 <= m < n ==> AgreeAt(a, c, known, existing, m))
        <==> (forall m :: 0 <= m < n ==> InputAgrees(a.entries, c, m))
  {
    hide Valid, Allowed, SlicesAllowed, AllUpto, DistinctContents, Flatten, LookupAllows, CandidateCodes, AgreeAt,
        InputAgrees;
    if n > 0 {
      AgreeOnInput(a, target, c, known, existing, n - 1);
      if forall m :: 0 <= m < n - 1 ==> AgreeAt(a, c, known, existing, m) {
        SliceCondition(a, target, c, known, existing, n - 1);
      }
    }
  }

  /**
    What a commit is given: a valid archive with a complete index, items that never repeat, and what its
    lookups and those of one call report.
   */
  ghost predicate Given(a: Archive, target: Option<nat>, c: Cut, known: seq<set<string>>, existing: set<string>) {
    && |known| == |c.slices| && Valid(a, target) && a.done && DistinctContents(Flatten(c.slices))
    && SlicesAllowed(a, c.sub, c.slices, c.wasEmpty, c.previous, known)
    && LookupAllows(a, c.sub, CandidateCodes(Additions(UniqueItems(Flatten(c.slices)), c.wasEmpty, c.previous)),
         existing)
  }

  lemma GivenAgreeing(a: Archive, target: Option<nat>, c: Cut, known: seq<set<string>>, existing: set<string>)
    requires Given(a, target, c, known, existing)
    ensures Agreeing(a, target, c, known, existing, 0)
  {
    assert c.slices[..|c.slices|] == c.slices && known[..|known|] == known;
    DistinctAreUnique(Flatten(c.slices));
    AllIsAll(c);
    hide Valid, SlicesAllowed, DistinctContents, Flatten, LookupAllows, CandidateCodes, Additions, UniqueItems;
  }

  /**
    Which inputs the slices archive as one call would: those where at every slice, of the codes of its
    items, the rows that are there or were archived carry exactly those carried at the start and those of
    earlier items. Nothing that the lookups or the slices make of the input enters the condition.
   */
  lemma SlicesAgreeOnInput(a: Archive, target: Option<nat>, c: Cut, known: seq<set<string>>, existing: set<string>)
    requires Given(a, target, c, known, existing)
    ensures SameRows(CommitSlices(a, c.sub, c.slices, c.wasEmpty, c.previous, known),
                     ArchiveTx(a, c.sub, Flatten(c.slices), c.wasEmpty, c.previous, existing))
            <==> forall n :: 0 <= n < |c.slices| ==> InputAgrees(a.entries, c, n)
  {
    GivenAgreeing(a, target, c, known, existing);
    hide Agreeing, Valid, SlicesAllowed, DistinctContents, Flatten, LookupAllows, CandidateCodes, Additions,
        UniqueItems, CommitSlices, ArchiveTx, AgreeAt, InputAgrees, SameRows;
    SlicesAgreeExactly(a, target, c, known, existing);
    AgreeOnInput(a, target, c, known, existing, |c.slices|);
  }

  // --- The titles as well ---

  /** Every row, of the start or archived, is told the same title by the slices' batches and by those of one call. */
  ghost predicate TitlesAgree(entries: seq<Entry>, c: Cut) {
    && (forall i :: 0 <= i < |entries| && entries[i].sub == c.sub ==>
          TitleBy(entries[i], c, 0, |c.slices|) == Retold(entries[i], Titled(Flatten(c.slices))))
    && (forall m, l :: 0 <= m < |c.slices| && 0 <= l < |AdditionsOf(c, m)| && Archives(entries, c, m, l) ==>
          RowFor(c, m, l, |c.slices|).title
              == Retold(NewEntry(0, c.sub, AdditionsOf(c, m)[l]), Titled(Flatten(c.slices))))
  }

  /** The two tables hold the same row. */
  lemma SameRowOnInput(a: Archive, target: Option<nat>, c: Cut, known: seq<set<string>>, existing: set<string>, i: nat)
    requires Agreeing(a, target, c, known, existing, |c.slices|) && TitlesAgree(a.entries, c)
    requires |known| == |c.slices|
    requires var whole := ArchiveTx(a, c.sub, Flatten(c.slices), c.wasEmpty, c.previous, existing);
             SameRows(Upto(a, c, known, |c.slices|), whole) && i < |whole.entries|
    ensures i < |Upto(a, c, known, |c.slices|).entries|
    ensures Upto(a, c, known, |c.slices|).entries[i]
            == ArchiveTx(a, c.sub, Flatten(c.slices), c.wasEmpty, c.previous, existing).entries[i]
  {
    AgreeingParts(a, target, c, known, existing, |c.slices|);
    hide Agreeing, Upto, ArchiveTx, DistinctContents, Flatten, AdditionsOf, SameRows, Retold, TitleBy, Titled, Archives,
        ArchiveKey, SimpleAll, AllUpto, Valid, Allowed, LookupAllows, CandidateCodes;
    var m, l := RowBoth(a, c, known, existing, i);
    if |a.entries| <= i {
      var e := NewEntry(Upto(a, c, known, |c.slices|).entries[i].id, c.sub, AdditionsOf(c, m)[l]);
      assert RowsOfArchive(Upto(a, c, known, |c.slices|)).entries[i].content == AdditionsOf(c, m)[l].content;
      SlicesAdd(a, target, c, known, existing, |c.slices|, m, l);
      NewTitlesSame(c, m, l, e.id);
    }
  }

  /** Whatever id the row of an item gets. */
  lemma NewTitlesSame(c: Cut, m: nat, l: nat, id: nat)
    requires m < |c.slices| && l < |AdditionsOf(c, m)|
    ensures var e, f := NewEntry(id, c.sub, AdditionsOf(c, m)[l]), NewEntry(0, c.sub, AdditionsOf(c, m)[l]);
            TitleBy(e, c, m, |c.slices|) == TitleBy(f, c, m, |c.slices|)
                && Retold(e, Titled(Flatten(c.slices))) == Retold(f, Titled(Flatten(c.slices)))
  {
    hide AdditionsOf, Titled, Flatten, TitleBy, Retold, ArchiveKey;
    var e, f := NewEntry(id, c.sub, AdditionsOf(c, m)[l]), NewEntry(0, c.sub, AdditionsOf(c, m)[l]);
    TitleBySame(e, f, c, m, |c.slices|);
    RetoldSame(e, f, Titled(Flatten(c.slices)));
  }

  /** What the two tables are, when they are the same. */
  ghost predicate SameTables(a: Archive, c: Cut, known: seq<set<string>>, existing: set<string>) {
    && |known| == |c.slices|
    && var sliced, whole := Upto(a, c, known, |c.slices|),
         ArchiveTx(a, c.sub, Flatten(c.slices), c.wasEmpty, c.previous, existing);
       SameRows(sliced, whole) && sliced.entries == whole.entries
  }

  lemma TitlesFromTables(a: Archive, target: Option<nat>, c: Cut, known: seq<set<string>>, existing: set<string>)
    requires Agreeing(a, target, c, known, existing, |c.slices|) && SameTables(a, c, known, existing)
    ensures TitlesAgree(a.entries, c)
  {
    hide Agreeing, SameTables, Flatten, AdditionsOf, Retold, TitleBy, Titled, Archives, RowFor, NewEntry;
    forall i | 0 <= i < |a.entries| && a.entries[i].sub == c.sub
      ensures TitleBy(a.entries[i], c, 0, |c.slices|) == Retold(a.entries[i], Titled(Flatten(c.slices)))
    {
      OldTitleFromTables(a, target, c, known, existing, i);
    }
    forall m, l | 0 <= m < |c.slices| && 0 <= l < |AdditionsOf(c, m)| && Archives(a.entries, c, m, l)
      ensures RowFor(c, m, l, |c.slices|).title
          == Retold(NewEntry(0, c.sub, AdditionsOf(c, m)[l]), Titled(Flatten(c.slices)))
    {
      NewTitleFromTables(a, target, c, known, existing, m, l);
    }
  }

  lemma OldTitleFromTables(a: Archive, target: Option<nat>, c: Cut, known: seq<set<string>>, existing: set<string>,
      i: nat)
    requires Agreeing(a, target, c, known, existing, |c.slices|) && SameTables(a, c, known, existing)
    requires i < |a.entries| && a.entries[i].sub == c.sub
    ensures TitleBy(a.entries[i], c, 0, |c.slices|) == Retold(a.entries[i], Titled(Flatten(c.slices)))
  {
    AgreeingParts(a, target, c, known, existing, |c.slices|);
    hide Agreeing, Upto, ArchiveTx, DistinctContents, Flatten, AdditionsOf, SameRows, Retold, TitleBy, Titled, Archives,
        ArchiveKey, SimpleAll, AllUpto, Valid, Allowed, LookupAllows, CandidateCodes;
    var m, l := RowBoth(a, c, known, existing, i);
  }

  lemma NewTitleFromTables(a: Archive, target: Option<nat>, c: Cut, known: seq<set<string>>, existing: set<string>,
      m: nat, l: nat)
    requires Agreeing(a, target, c, known, existing, |c.slices|) && SameTables(a, c, known, existing)
    requires m < |c.slices| && l < |AdditionsOf(c, m)| && Archives(a.entries, c, m, l)
    ensures RowFor(c, m, l, |c.slices|).title
        == Retold(NewEntry(0, c.sub, AdditionsOf(c, m)[l]), Titled(Flatten(c.slices)))
  {
    AgreeingParts(a, target, c, known, existing, |c.slices|);
    SlicesAdd(a, target, c, known, existing, |c.slices|, m, l);
    hide Agreeing, Upto, ArchiveTx, DistinctContents, Flatten, AdditionsOf, SameRows, Retold, TitleBy, Titled, Archives,
        ArchiveKey, SimpleAll, AllUpto, Valid, Allowed, LookupAllows, CandidateCodes;
    var rows := RowsOfArchive(Upto(a, c, known, |c.slices|)).entries;
    var i :| |a.entries| <= i < |rows| && rows[i].content == AdditionsOf(c, m)[l].content;
    var m', l' := RowBoth(a, c, known, existing, i);
    OnePlace(c, m, l, m', l');
    NewTitlesSame(c, m, l, Upto(a, c, known, |c.slices|).entries[i].id);
  }

  /**
    Which inputs leave the same tables, titles included: those that archive the same, and whose rows are
    told the same titles.
   */
  lemma TablesAgreeOnInput(a: Archive, target: Option<nat>, c: Cut, known: seq<set<string>>, existing: set<string>)
    requires Given(a, target, c, known, existing)
    ensures var sliced := CommitSlices(a, c.sub, c.slices, c.wasEmpty, c.previous, known);
            var whole := ArchiveTx(a, c.sub, Flatten(c.slices), c.wasEmpty, c.previous, existing);
            sliced.entries == whole.entries && sliced.nextId == whole.nextId
            <==> TitlesAgree(a.entries, c) && forall n :: 0 <= n < |c.slices| ==> InputAgrees(a.entries, c, n)
  {
    GivenAgreeing(a, target, c, known, existing);
    assert |known| == |c.slices|;
    SlicesAgreeOnInput(a, target, c, known, existing);
    UptoAll(a, c, known);
    hide *;
    var sliced, whole := Upto(a, c, known, |c.slices|),
        ArchiveTx(a, c.sub, Flatten(c.slices), c.wasEmpty, c.previous, existing);
    if sliced.entries == whole.entries && sliced.nextId == whole.nextId {
      EqualAreSame(sliced, whole);
      AgreeingAll(a, target, c, known, existing);
      TablesAre(a, c, known, existing);
      TitlesFromTables(a, target, c, known, existing);
    }
    if TitlesAgree(a.entries, c) && forall n :: 0 <= n < |c.slices| ==> InputAgrees(a.entries, c, n) {
      AgreeingAll(a, target, c, known, existing);
      SameRowsAre(sliced, whole);
      forall i | 0 <= i < |whole.entries| ensures sliced.entries[i] == whole.entries[i] {
        SameRowOnInput(a, target, c, known, existing, i);
      }
    }
  }

  lemma TablesAre(a: Archive, c: Cut, known: seq<set<string>>, existing: set<string>)
    requires |known| == |c.slices|
    requires var sliced, whole := Upto(a, c, known, |c.slices|),
        ArchiveTx(a, c.sub, Flatten(c.slices), c.wasEmpty, c.previous, existing);
             SameRows(sliced, whole) && sliced.entries == whole.entries
    ensures SameTables(a, c, known, existing)
  {
  }

  lemma EqualAreSame(x: Archive, y: Archive)
    requires x.entries == y.entries && x.nextId == y.nextId
    ensures SameRows(x, y)
  {
  }

  lemma AgreeingAll(a: Archive, target: Option<nat>, c: Cut, known: seq<set<string>>, existing: set<string>)
    requires Agreeing(a, target, c, known, existing, 0) && forall n ::
        0 <= n < |c.slices| ==> InputAgrees(a.entries, c, n)
    ensures Agreeing(a, target, c, known, existing, |c.slices|)
  {
    AgreeOnInput(a, target, c, known, existing, |c.slices|);
    hide Valid, Allowed, SlicesAllowed, AllUpto, DistinctContents, Flatten, LookupAllows, CandidateCodes, AgreeAt,
        InputAgrees;
  }
}
