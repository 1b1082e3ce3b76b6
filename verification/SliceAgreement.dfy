/**
  Exactly when the slices of a scan commit archive what one call would (server/capture.ts).

  Both decide item by item whether its key is known. One call knows what its lookup reported and the
  keys of the rows it added; a slice knows what its own lookup reported. The rows come out the same
  exactly when the two sides never disagree about a key.
 */
module SliceAgreement {
  import opened Options
  import opened ProductCodes
  import opened ArchiveLookup
  import opened ArchiveWrites
  import opened ArchiveItems
  import opened ArchiveInvariant
  import opened ArchiveRuns
  import opened ArchiveSlices
  import opened FullScan

  // --- What the simple archive adds ---

  /** The simple archive only appends, and every new row is an item whose key was not known. */
  lemma {:induction false} SimpleRow(r: Rows, known: set<string>, sub: nat, items: seq<Item>, i: nat) returns (j: nat)
    requires i < |SimpleAll(r, known, sub, items).entries|
    ensures var after := SimpleAll(r, known, sub, items).entries;
      && r.entries <= after
      && (|r.entries| <= i ==>
            j < |items| && after[i].content == items[j].content && after[i].sub == sub
            && forall k :: ArchiveKey(items[j].content) == Some(k) ==> k !in known)
  {
    hide ArchiveKey, KeyHeld, HashTaken;
    j := 0;
    if items != [] {
      var n := |items| - 1;
      var before := SimpleAll(r, known, sub, items[..n]);
      if i < |before.entries| {
        j := SimpleRow(r, known, sub, items[..n], i);
      } else {
        SimplePrefix(r, known, sub, items[..n]);
        j := n;
      }
    }
  }

  lemma {:induction false} SimplePrefix(r: Rows, known: set<string>, sub: nat, items: seq<Item>)
    ensures r.entries <= SimpleAll(r, known, sub, items).entries
  {
    hide ArchiveKey, KeyHeld, HashTaken;
    if items != [] {
      SimplePrefix(r, known, sub, items[..|items| - 1]);
    }
  }

  lemma {:induction false} SimpleHashing(r: Rows, known: set<string>, sub: nat, items: seq<Item>)
    requires AllHashing(r.entries)
    ensures AllHashing(SimpleAll(r, known, sub, items).entries)
  {
    hide ArchiveKey, KeyHeld, HashTaken;
    if items != [] {
      SimpleHashing(r, known, sub, items[..|items| - 1]);
    }
  }

  lemma HeldStays(a: seq<Entry>, b: seq<Entry>, sub: nat, k: string)
    requires a <= b && KeyHeld(a, sub, k)
    ensures KeyHeld(b, sub, k)
  {
    hide ArchiveKey;
    var i :| 0 <= i < |a| && a[i].sub == sub && ArchiveKey(a[i].content) == Some(k);
    assert b[i] == a[i];
  }

  lemma OneHolds(r: Rows, known: set<string>, sub: nat, item: Item, k: string)
    requires AllHashing(r.entries) && ArchiveKey(item.content) == Some(k) && k !in known
    ensures KeyHeld(SimpleOne(r, known, sub, item).entries, sub, k)
  {
    hide ArchiveKey;
    if !KeyHeld(r.entries, sub, k) {
      if HashTaken(r.entries, sub, item.content) {
        HashTakenHoldsKey(r.entries, sub, item.content, k);
      } else {
        KeyHeldAppend(r.entries, Entry(r.nextId, sub, item.content, None, Some(k), item.content), sub, k);
      }
    }
  }

  /** The key of an item that was not known is the key of some row afterwards. */
  lemma {:induction false} SimpleHolds(r: Rows, known: set<string>, sub: nat, items: seq<Item>, k: string)
    requires AllHashing(r.entries) && HasCode(items, k) && k !in known
    ensures KeyHeld(SimpleAll(r, known, sub, items).entries, sub, k)
  {
    hide ArchiveKey, KeyHeld, HashTaken, SimpleOne, AllHashing;
    var n := |items| - 1;
    var before := SimpleAll(r, known, sub, items[..n]);
    SimpleHashing(r, known, sub, items[..n]);
    if ArchiveKey(items[n].content) == Some(k) {
      OneHolds(before, known, sub, items[n], k);
    } else {
      var i :| 0 <= i < |items| && ArchiveKey(items[i].content) == Some(k);
      assert ArchiveKey(items[..n][i].content) == Some(k);
      SimpleHolds(r, known, sub, items[..n], k);
      SimplePrefix(before, known, sub, [items[n]]);
      assert [items[n]][..0] == [];
      assert SimpleAll(before, known, sub, []) == before;
      assert SimpleAll(before, known, sub, [items[n]]) == SimpleOne(before, known, sub, items[n]);
      HeldStays(before.entries, SimpleOne(before, known, sub, items[n]).entries, sub, k);
    }
  }

  ghost predicate SameDecisions(r: Rows, one: set<string>, other: set<string>, sub: nat, items: seq<Item>) {
    forall k :: HasCode(items, k) ==> (k in one || KeyHeld(r.entries, sub, k)
        <==> k in other || KeyHeld(r.entries, sub, k))
  }

  /** Two known sets that agree on the keys of the items, up to the keys of rows, archive the same. */
  lemma {:induction false} SameKnown(r: Rows, one: set<string>, other: set<string>, sub: nat, items: seq<Item>)
    requires SameDecisions(r, one, other, sub, items)
    ensures SimpleAll(r, one, sub, items) == SimpleAll(r, other, sub, items)
  {
    hide ArchiveKey, KeyHeld, HashTaken;
    if items != [] {
      var n := |items| - 1;
      forall k | HasCode(items[..n], k) ensures HasCode(items, k) {
        var i :| 0 <= i < n && ArchiveKey(items[..n][i].content) == Some(k);
        assert ArchiveKey(items[i].content) == Some(k);
      }
      SameKnown(r, one, other, sub, items[..n]);
      var before := SimpleAll(r, one, sub, items[..n]);
      SimplePrefix(r, one, sub, items[..n]);
      var key := ArchiveKey(items[n].content);
      if key.Some? {
        assert HasCode(items, key.value);
        if KeyHeld(r.entries, sub, key.value) {
          HeldStays(r.entries, before.entries, sub, key.value);
        }
      }
    }
  }

  // --- One call ---

  lemma {:induction false} RetitleAllKeepsNext(a: Archive, sub: nat, titled: seq<Item>)
    ensures RetitleAll(a, sub, titled).nextId == a.nextId
    decreases |titled|
  {
    if titled != [] {
      var n := Min(CHUNK, |titled|);
      RetitleAllKeepsNext(RetitleBatch(a, sub, titled[..n]), sub, titled[n..]);
    }
  }

  /** A call on a valid archive is the simple archive with what its lookups reported. */
  lemma CallIsSimple(a: Archive, target: Option<nat>, sub: nat, items: seq<Item>, wasEmpty: bool, previous: set<string>,
      existing: set<string>)
    requires Valid(a, target)
    requires LookupAllows(a, sub, CandidateCodes(Additions(UniqueItems(items), wasEmpty, previous)), existing)
    ensures var b := ArchiveTx(a, sub, items, wasEmpty, previous, existing);
      && Valid(b, target)
      && RowsOfArchive(b) == SimpleAll(RowsOfArchive(a), existing, sub,
           Additions(UniqueItems(items), wasEmpty, previous))
  {
    ArchiveTxKeeps(a, target, sub, items, wasEmpty, previous, existing);
    var current := UniqueItems(items);
    var additions := Additions(current, wasEmpty, previous);
    var start := Pass(a.entries, a.nextId, existing, []);
    HeldIsReported(a, target, sub, additions, existing);
    AllIsSimple(start, existing, sub, additions, additions);
    hide InsertAll, UniqueItems, Additions, Titled, AllHashing, Untitled, Valid, Reindexed, SimpleAll, LookupAllows;
    var p := InsertAll(start, sub, additions);
    var b := a.(entries := p.entries, nextId := p.nextId, index := Reindexed(a.index, p.added));
    RetitleAllUntitled(b, sub, Titled(current));
    RetitleAllKeepsNext(b, sub, Titled(current));
  }

  /** The lookup reports the key of every row, so what the loop knows at first is what was reported. */
  lemma HeldIsReported(a: Archive, target: Option<nat>, sub: nat, additions: seq<Item>, existing: set<string>)
    requires Valid(a, target) && LookupAllows(a, sub, CandidateCodes(additions), existing)
    ensures forall k :: HasCode(additions, k) && KeyHeld(a.entries, sub, k) ==> k in existing
    ensures KnownExactly(Pass(a.entries, a.nextId, existing, []), existing, sub, additions)
    ensures AllHashing(a.entries)
  {
    hide ArchiveKey, MustFind, CandidateCodes, HasCode, NoTwins, MayFind, Ordered, IndexSound, KeyHeld;
    forall k | HasCode(additions, k) && KeyHeld(a.entries, sub, k) ensures k in existing {
      CandidateCodesAre(additions, k);
      HeldMustBeFound(a, target, sub, k);
    }
  }

  // --- A commit in slices ---

  /** What one scan commit is given. The lookup of its slice `n` reports the codes `known[n]`. */
  datatype Cut = Cut(sub: nat, slices: seq<seq<Item>>, wasEmpty: bool, previous: set<string>)

  /** The archive after the first `n` slices. */
  function Upto(a: Archive, c: Cut, known: seq<set<string>>, n: nat): Archive
    requires |known| == |c.slices| && n <= |c.slices|
  {
    CommitSlices(a, c.sub, c.slices[..n], c.wasEmpty, c.previous, known[..n])
  }

  function AdditionsOf(c: Cut, n: nat): seq<Item>
    requires n < |c.slices|
  {
    Additions(UniqueItems(c.slices[n]), c.wasEmpty, c.previous)
  }

  ghost predicate Allowed(a: Archive, c: Cut, known: seq<set<string>>, n: nat)
    requires |known| == |c.slices| && n <= |c.slices|
  {
    SlicesAllowed(a, c.sub, c.slices[..n], c.wasEmpty, c.previous, known[..n])
  }

  lemma UptoNext(a: Archive, c: Cut, known: seq<set<string>>, n: nat)
    requires |known| == |c.slices| && n < |c.slices|
    ensures Upto(a, c, known, n + 1)
        == ArchiveTx(Upto(a, c, known, n), c.sub, c.slices[n], c.wasEmpty, c.previous, known[n])
    ensures Allowed(a, c, known, n + 1)
        ==> Allowed(a, c, known, n) && LookupAllows(Upto(a, c, known, n), c.sub, CandidateCodes(AdditionsOf(c, n)),
              known[n])
  {
    hide ArchiveTx, LookupAllows, CandidateCodes, Additions, UniqueItems;
    assert c.slices[..n + 1][..n] == c.slices[..n] && known[..n + 1][..n] == known[..n];
  }

  lemma UptoStart(a: Archive, c: Cut, known: seq<set<string>>)
    requires |known| == |c.slices|
    ensures Upto(a, c, known, 0) == a
  {
  }

  lemma {:induction false} AllowedBefore(a: Archive, c: Cut, known: seq<set<string>>, n: nat, m: nat)
    requires |known| == |c.slices| && n <= m <= |c.slices| && Allowed(a, c, known, m)
    ensures Allowed(a, c, known, n)
    decreases m
  {
    hide *;
    if n < m {
      UptoNext(a, c, known, m - 1);
      AllowedBefore(a, c, known, n, m - 1);
    }
  }

  lemma {:induction false} UptoValid(a: Archive, target: Option<nat>, c: Cut, known: seq<set<string>>, n: nat)
    requires |known| == |c.slices| && n <= |c.slices| && Valid(a, target) && Allowed(a, c, known, n)
    ensures Valid(Upto(a, c, known, n), target)
  {
    hide Allowed, Upto, Valid, LookupAllows, ArchiveTx, CandidateCodes, Additions, UniqueItems;
    if n == 0 {
      UptoStart(a, c, known);
    } else {
      UptoNext(a, c, known, n - 1);
      UptoValid(a, target, c, known, n - 1);
      ArchiveTxKeeps(Upto(a, c, known, n - 1), target, c.sub, c.slices[n - 1], c.wasEmpty, c.previous, known[n - 1]);
    }
  }

  /** Each slice is the simple archive with what its own lookup reported. */
  lemma SliceIsSimple(a: Archive, target: Option<nat>, c: Cut, known: seq<set<string>>, n: nat)
    requires |known| == |c.slices| && n < |c.slices| && Valid(a, target) && Allowed(a, c, known, n + 1)
    ensures RowsOfArchive(Upto(a, c, known, n + 1))
        == SimpleAll(RowsOfArchive(Upto(a, c, known, n)), known[n], c.sub, AdditionsOf(c, n))
    ensures forall k ::
        HasCode(AdditionsOf(c, n), k) && KeyHeld(Upto(a, c, known, n).entries, c.sub, k) ==> k in known[n]
    ensures AllHashing(Upto(a, c, known, n).entries)
  {
    UptoNext(a, c, known, n);
    UptoValid(a, target, c, known, n);
    hide *;
    SliceCall(Upto(a, c, known, n), target, c, known, n);
  }

  lemma SliceCall(before: Archive, target: Option<nat>, c: Cut, known: seq<set<string>>, n: nat)
    requires n < |c.slices| && n < |known| && Valid(before, target)
    requires LookupAllows(before, c.sub, CandidateCodes(AdditionsOf(c, n)), known[n])
    ensures RowsOfArchive(ArchiveTx(before, c.sub, c.slices[n], c.wasEmpty, c.previous, known[n]))
            == SimpleAll(RowsOfArchive(before), known[n], c.sub, AdditionsOf(c, n))
    ensures forall k :: HasCode(AdditionsOf(c, n), k) && KeyHeld(before.entries, c.sub, k) ==> k in known[n]
    ensures AllHashing(before.entries)
  {
    hide Valid, LookupAllows, CandidateCodes, Additions, UniqueItems, ArchiveTx, RowsOfArchive, SimpleAll, HasCode,
        KeyHeld, AllHashing;
    CallIsSimple(before, target, c.sub, c.slices[n], c.wasEmpty, c.previous, known[n]);
    HeldIsReported(before, target, c.sub, AdditionsOf(c, n), known[n]);
  }

  // --- When the slices agree with one call ---

  /**
    Of the keys of the slice, its lookup reports exactly those the one lookup reports and those the slices
    before it archived.
   */
  ghost predicate AgreeAt(a: Archive, c: Cut, known: seq<set<string>>, existing: set<string>, n: nat)
    requires |known| == |c.slices| && n < |c.slices|
  {
    forall k ::
        HasCode(AdditionsOf(c, n), k) ==> (k in known[n]
            <==> k in existing || KeyHeld(Upto(a, c, known, n).entries, c.sub, k))
  }

  /** What one call would look at up to the slice. */
  function AllUpto(c: Cut, n: nat): seq<Item>
    requires n <= |c.slices|
  {
    Additions(Flatten(c.slices[..n]), c.wasEmpty, c.previous)
  }

  lemma AllUptoNext(c: Cut, n: nat)
    requires n < |c.slices| && DistinctContents(c.slices[n])
    ensures AllUpto(c, n + 1) == AllUpto(c, n) + AdditionsOf(c, n)
  {
    DistinctAreUnique(c.slices[n]);
    hide UniqueItems;
    assert c.slices[..n + 1][..n] == c.slices[..n];
    UnknownAppend(Flatten(c.slices[..n]), c.slices[n], c.previous);
  }

  /** As long as the slices agree, their rows are those of the one call so far. */
  lemma {:induction false} AgreeingPrefix(a: Archive, target: Option<nat>, c: Cut, known: seq<set<string>>,
      existing: set<string>, n: nat)
    requires |known| == |c.slices| && n <= |c.slices| && Valid(a, target) && Allowed(a, c, known, n)
    requires forall m :: 0 <= m < |c.slices| ==> DistinctContents(c.slices[m])
    requires forall m :: 0 <= m < n ==> AgreeAt(a, c, known, existing, m)
    ensures RowsOfArchive(Upto(a, c, known, n)) == SimpleAll(RowsOfArchive(a), existing, c.sub, AllUpto(c, n))
  {
    hide *;
    if n == 0 {
      UptoStart(a, c, known);
      NothingYet(a, c, existing);
    } else {
      UptoNext(a, c, known, n - 1);
      AgreeingPrefix(a, target, c, known, existing, n - 1);
      SliceIsSimple(a, target, c, known, n - 1);
      assert AgreeAt(a, c, known, existing, n - 1);
      AgreeingSlice(a, c, known, existing, n - 1);
      AllUptoNext(c, n - 1);
      SimpleAppend(RowsOfArchive(a), existing, c.sub, AllUpto(c, n - 1), AdditionsOf(c, n - 1));
    }
  }

  lemma NothingYet(a: Archive, c: Cut, existing: set<string>)
    ensures SimpleAll(RowsOfArchive(a), existing, c.sub, AllUpto(c, 0)) == RowsOfArchive(a)
  {
    assert AllUpto(c, 0) == [];
  }

  lemma AgreeingSlice(a: Archive, c: Cut, known: seq<set<string>>, existing: set<string>, n: nat)
    requires |known| == |c.slices| && n < |c.slices| && AgreeAt(a, c, known, existing, n)
    requires forall k ::
        HasCode(AdditionsOf(c, n), k) && KeyHeld(Upto(a, c, known, n).entries, c.sub, k) ==> k in known[n]
    ensures SimpleAll(RowsOfArchive(Upto(a, c, known, n)), known[n], c.sub, AdditionsOf(c, n))
            == SimpleAll(RowsOfArchive(Upto(a, c, known, n)), existing, c.sub, AdditionsOf(c, n))
  {
    hide Upto, HasCode, KeyHeld, AdditionsOf, SimpleAll;
    var r := RowsOfArchive(Upto(a, c, known, n));
    forall k | HasCode(AdditionsOf(c, n), k)
      ensures k in known[n] || KeyHeld(r.entries, c.sub, k) <==> k in existing || KeyHeld(r.entries, c.sub, k)
    {
      UntitledSame(Upto(a, c, known, n).entries, c.sub, k);
    }
    SameKnown(r, known[n], existing, c.sub, AdditionsOf(c, n));
  }

  // --- And only then ---

  /** Rows of the slices from the `n`th on come from the items of those slices. */
  lemma {:induction false} LaterRow(a: Archive, target: Option<nat>, c: Cut, known: seq<set<string>>, n: nat, m: nat,
      i: nat) returns (at: nat, j: nat)
    requires |known| == |c.slices| && n <= m <= |c.slices| && Valid(a, target) && Allowed(a, c, known, m)
    requires forall l :: 0 <= l < |c.slices| ==> DistinctContents(c.slices[l])
    requires |RowsOfArchive(Upto(a, c, known, n)).entries| <= i < |RowsOfArchive(Upto(a, c, known, m)).entries|
    ensures n <= at < m && j < |c.slices[at]|
        && RowsOfArchive(Upto(a, c, known, m)).entries[i].content == c.slices[at][j].content
    decreases m
  {
    hide *;
    UptoNext(a, c, known, m - 1);
    SliceIsSimple(a, target, c, known, m - 1);
    var before := RowsOfArchive(Upto(a, c, known, m - 1));
    j := SimpleRow(before, known[m - 1], c.sub, AdditionsOf(c, m - 1), i);
    if |before.entries| <= i {
      at := m - 1;
      j := AdditionIsListed(c, at, j);
    } else {
      at, j := LaterRow(a, target, c, known, n, m - 1, i);
    }
  }

  lemma AdditionIsListed(c: Cut, n: nat, i: nat) returns (j: nat)
    requires n < |c.slices| && DistinctContents(c.slices[n]) && i < |AdditionsOf(c, n)|
    ensures j < |c.slices[n]| && c.slices[n][j] == AdditionsOf(c, n)[i]
  {
    DistinctAreUnique(c.slices[n]);
    UnknownAre(c.slices[n], c.previous, AdditionsOf(c, n)[i]);
    j :| 0 <= j < |c.slices[n]| && c.slices[n][j] == AdditionsOf(c, n)[i];
  }

  lemma {:induction false} UptoGrows(a: Archive, target: Option<nat>, c: Cut, known: seq<set<string>>, n: nat, m: nat)
    requires |known| == |c.slices| && n <= m <= |c.slices| && Valid(a, target) && Allowed(a, c, known, m)
    ensures RowsOfArchive(Upto(a, c, known, n)).entries <= RowsOfArchive(Upto(a, c, known, m)).entries
    decreases m
  {
    hide *;
    if n < m {
      UptoNext(a, c, known, m - 1);
      SliceIsSimple(a, target, c, known, m - 1);
      SimplePrefix(RowsOfArchive(Upto(a, c, known, m - 1)), known[m - 1], c.sub, AdditionsOf(c, m - 1));
      UptoGrows(a, target, c, known, n, m - 1);
    }
  }

  /** A row that gained the key `k`, and lies behind the rows there were. */
  lemma GainedRow(r: Rows, known: set<string>, sub: nat, items: seq<Item>, k: string) returns (i: nat)
    requires AllHashing(r.entries) && HasCode(items, k) && k !in known && !KeyHeld(r.entries, sub, k)
    ensures var after := SimpleAll(r, known, sub, items).entries;
            |r.entries| <= i < |after| && ArchiveKey(after[i].content) == Some(k)
  {
    SimpleHolds(r, known, sub, items, k);
    SimplePrefix(r, known, sub, items);
    hide SimpleAll, ArchiveKey, HasCode;
    var after := SimpleAll(r, known, sub, items).entries;
    assert forall l :: 0 <= l < |r.entries| ==> r.entries[l] == after[l];
    i :| 0 <= i < |after| && after[i].sub == sub && ArchiveKey(after[i].content) == Some(k);
  }

  lemma UntitledHashing(entries: seq<Entry>)
    requires AllHashing(entries)
    ensures AllHashing(Untitled(entries))
  {
    hide ArchiveKey;
  }

  /** What one call makes of all items, seen from the `n`th slice: its rows so far, those of the slice, and the rest. */
  lemma WholeParts(c: Cut, r: Rows, existing: set<string>, n: nat)
    requires n < |c.slices| && forall m :: 0 <= m < |c.slices| ==> DistinctContents(c.slices[m])
    ensures var before := SimpleAll(r, existing, c.sub, AllUpto(c, n));
            var with := SimpleAll(before, existing, c.sub, AdditionsOf(c, n));
            r.entries <= before.entries <= with.entries <= SimpleAll(r, existing, c.sub, AllUpto(c, |c.slices|)).entries
  {
    hide *;
    SimplePrefix(r, existing, c.sub, AllUpto(c, n));
    AllUptoNext(c, n);
    SimpleAppend(r, existing, c.sub, AllUpto(c, n), AdditionsOf(c, n));
    SimplePrefix(SimpleAll(r, existing, c.sub, AllUpto(c, n)), existing, c.sub, AdditionsOf(c, n));
    WholeGrows(c, r, existing, n + 1, |c.slices|);
  }

  lemma {:induction false} WholeGrows(c: Cut, r: Rows, existing: set<string>, n: nat, m: nat)
    requires n <= m <= |c.slices| && forall l :: 0 <= l < |c.slices| ==> DistinctContents(c.slices[l])
    ensures SimpleAll(r, existing, c.sub, AllUpto(c, n)).entries <= SimpleAll(r, existing, c.sub, AllUpto(c, m)).entries
    decreases m
  {
    hide *;
    if n < m {
      AllUptoNext(c, m - 1);
      SimpleAppend(r, existing, c.sub, AllUpto(c, m - 1), AdditionsOf(c, m - 1));
      SimplePrefix(SimpleAll(r, existing, c.sub, AllUpto(c, m - 1)), existing, c.sub, AdditionsOf(c, m - 1));
      WholeGrows(c, r, existing, n, m - 1);
    }
  }

  lemma {:induction false} FlattenAt(slices: seq<seq<Item>>, n: nat, i: nat)
    requires n < |slices| && i < |slices[n]|
    ensures var at := |Flatten(slices[..n])| + i;
            at < |Flatten(slices[..n + 1])| <= |Flatten(slices)| && Flatten(slices)[at] == slices[n][i]
  {
    var last := |slices| - 1;
    if n == last {
      assert slices[..n + 1] == slices;
    } else {
      FlattenAt(slices[..last], n, i);
      assert slices[..last][..n] == slices[..n] && slices[..last][..n + 1] == slices[..n + 1];
    }
  }

  lemma {:induction false} FlattenGrows(slices: seq<seq<Item>>, n: nat, m: nat)
    requires n <= m <= |slices|
    ensures |Flatten(slices[..n])| <= |Flatten(slices[..m])|
    decreases m
  {
    if n < m {
      FlattenGrows(slices, n, m - 1);
      assert slices[..m][..m - 1] == slices[..m - 1];
    }
  }

  lemma DistinctAcross(slices: seq<seq<Item>>, n: nat, i: nat, m: nat, j: nat)
    requires DistinctContents(Flatten(slices)) && n < m < |slices| && i < |slices[n]| && j < |slices[m]|
    ensures slices[n][i].content != slices[m][j].content
  {
    FlattenAt(slices, n, i);
    FlattenAt(slices, m, j);
    FlattenGrows(slices, n + 1, m);
  }

  lemma DistinctWithin(slices: seq<seq<Item>>)
    requires DistinctContents(Flatten(slices))
    ensures forall m :: 0 <= m < |slices| ==> DistinctContents(slices[m])
  {
    forall m, i, j | 0 <= m < |slices| && 0 <= i < j < |slices[m]|
        ensures slices[m][i].content != slices[m][j].content {
      FlattenAt(slices, m, i);
      FlattenAt(slices, m, j);
    }
  }

  function WholeRows(a: Archive, c: Cut, existing: set<string>): Rows {
    SimpleAll(RowsOfArchive(a), existing, c.sub, AllUpto(c, |c.slices|))
  }

  /** What both directions of a disagreement at slice `n` start from. */
  ghost predicate AgreeSoFar(a: Archive, target: Option<nat>, c: Cut, known: seq<set<string>>, existing: set<string>,
      n: nat)
  {
    && |known| == |c.slices| && n < |c.slices| && Valid(a, target) && Allowed(a, c, known, |c.slices|)
    && DistinctContents(Flatten(c.slices))
    && (forall m :: 0 <= m < n ==> AgreeAt(a, c, known, existing, m))
  }

  lemma SoFar(a: Archive, target: Option<nat>, c: Cut, known: seq<set<string>>, existing: set<string>, n: nat)
    requires AgreeSoFar(a, target, c, known, existing, n)
    ensures |known| == |c.slices| && n < |c.slices| && Valid(a, target) && Allowed(a, c, known, |c.slices|)
        && Allowed(a, c, known, n + 1)
    ensures forall m :: 0 <= m < |c.slices| ==> DistinctContents(c.slices[m])
    ensures RowsOfArchive(Upto(a, c, known, n)) == SimpleAll(RowsOfArchive(a), existing, c.sub, AllUpto(c, n))
    ensures AllHashing(RowsOfArchive(Upto(a, c, known, n)).entries)
    ensures forall k ::
        KeyHeld(RowsOfArchive(Upto(a, c, known, n)).entries, c.sub, k)
        <==> KeyHeld(Upto(a, c, known, n).entries, c.sub, k)
  {
    hide Valid, Allowed, SlicesAllowed, Upto, AgreeAt, SimpleAll, AllUpto, AllHashing, KeyHeld, DistinctContents,
        Flatten;
    DistinctWithin(c.slices);
    AllowedBefore(a, c, known, n + 1, |c.slices|);
    AllowedBefore(a, c, known, n, n + 1);
    AgreeingPrefix(a, target, c, known, existing, n);
    SliceIsSimple(a, target, c, known, n);
    UntitledHashing(Upto(a, c, known, n).entries);
    forall k ensures KeyHeld(RowsOfArchive(Upto(a, c, known, n)).entries, c.sub, k)
        <==> KeyHeld(Upto(a, c, known, n).entries, c.sub, k) {
      UntitledSame(Upto(a, c, known, n).entries, c.sub, k);
    }
  }

  /** A key reported to a slice alone: one call archives its item, the slices never do. */
  lemma OverreportShows(a: Archive, target: Option<nat>, c: Cut, known: seq<set<string>>, existing: set<string>, n: nat,
      k: string)
    requires AgreeSoFar(a, target, c, known, existing, n) && HasCode(AdditionsOf(c, n), k)
    requires k in known[n] && k !in existing && !KeyHeld(Upto(a, c, known, n).entries, c.sub, k)
    ensures RowsOfArchive(Upto(a, c, known, |c.slices|)).entries != WholeRows(a, c, existing).entries
  {
    SoFar(a, target, c, known, existing, n);
    assert DistinctContents(Flatten(c.slices));
    hide AgreeSoFar, Valid, Allowed, Upto, SimpleAll, AllUpto, AllHashing, KeyHeld, DistinctContents, Flatten, HasCode,
        ArchiveKey, AdditionsOf, RowsOfArchive;
    var r, end := RowsOfArchive(Upto(a, c, known, n)), |c.slices|;
    var i := GainedRow(r, existing, c.sub, AdditionsOf(c, n), k);
    var j := SimpleRow(r, existing, c.sub, AdditionsOf(c, n), i);
    j := AdditionIsListed(c, n, j);
    WholeParts(c, RowsOfArchive(a), existing, n);
    UptoGrows(a, target, c, known, n + 1, end);
    SliceIsSimple(a, target, c, known, n);
    var sliced := RowsOfArchive(Upto(a, c, known, end)).entries;
    if sliced == WholeRows(a, c, existing).entries {
      assert sliced[i].content == c.slices[n][j].content;
      if i < |RowsOfArchive(Upto(a, c, known, n + 1)).entries| {
        var l := SimpleRow(r, known[n], c.sub, AdditionsOf(c, n), i);
      } else {
        var m, l := LaterRow(a, target, c, known, n + 1, end, i);
        DistinctAcross(c.slices, n, j, m, l);
      }
      assert false;
    }
  }

  /** A key reported to the one call alone: a slice archives its item, the one call never does. */
  lemma UnderreportShows(a: Archive, target: Option<nat>, c: Cut, known: seq<set<string>>, existing: set<string>,
      n: nat, k: string)
    requires AgreeSoFar(a, target, c, known, existing, n) && HasCode(AdditionsOf(c, n), k)
    requires k !in known[n] && k in existing
    ensures RowsOfArchive(Upto(a, c, known, |c.slices|)).entries != WholeRows(a, c, existing).entries
  {
    SoFar(a, target, c, known, existing, n);
    hide AgreeSoFar, Valid, Allowed, Upto, SimpleAll, AllUpto, AllHashing, KeyHeld, DistinctContents, Flatten, HasCode,
        ArchiveKey, AdditionsOf, RowsOfArchive;
    var r, end := RowsOfArchive(Upto(a, c, known, n)), |c.slices|;
    SliceIsSimple(a, target, c, known, n);
    var i := GainedRow(r, known[n], c.sub, AdditionsOf(c, n), k);
    WholeParts(c, RowsOfArchive(a), existing, n);
    UptoGrows(a, target, c, known, n + 1, end);
    var sliced := RowsOfArchive(Upto(a, c, known, end)).entries;
    if sliced == WholeRows(a, c, existing).entries {
      var j := SimpleRow(RowsOfArchive(a), existing, c.sub, AllUpto(c, end), i);
      assert false;
    }
  }

  /** The slices agree with one call at every slice if their rows come out the same. */
  lemma {:induction false} SameRowsAgree(a: Archive, target: Option<nat>, c: Cut, known: seq<set<string>>,
      existing: set<string>, n: nat)
    requires |known| == |c.slices| && n <= |c.slices| && Valid(a, target) && Allowed(a, c, known, |c.slices|)
        && DistinctContents(Flatten(c.slices))
    requires RowsOfArchive(Upto(a, c, known, |c.slices|)).entries == WholeRows(a, c, existing).entries
    ensures forall m :: 0 <= m < n ==> AgreeAt(a, c, known, existing, m)
  {
    hide Valid, Allowed, Upto, DistinctContents, Flatten, HasCode, KeyHeld, WholeRows, RowsOfArchive, AdditionsOf;
    if n > 0 {
      SameRowsAgree(a, target, c, known, existing, n - 1);
      AllowedBefore(a, c, known, n, |c.slices|);
      SliceIsSimple(a, target, c, known, n - 1);
      forall k | HasCode(AdditionsOf(c, n - 1), k)
        ensures k in known[n - 1] <==> k in existing || KeyHeld(Upto(a, c, known, n - 1).entries, c.sub, k)
      {
        if k in known[n - 1] && k !in existing && !KeyHeld(Upto(a, c, known, n - 1).entries, c.sub, k) {
          OverreportShows(a, target, c, known, existing, n - 1, k);
        } else if k !in known[n - 1] && k in existing {
          UnderreportShows(a, target, c, known, existing, n - 1, k);
        }
      }
    }
  }

  /** The same rows, titles apart, and the same next id. */
  predicate SameRows(x: Archive, y: Archive) { RowsOfArchive(x) == RowsOfArchive(y) }

  /**
    The slices of a commit archive the rows that one call would exactly when every slice's lookup
    reports, of the keys of its items, those the one call's lookup reports and those the slices before it
    archived, and no others.
   */
  lemma SlicesAgreeExactly(a: Archive, target: Option<nat>, c: Cut, known: seq<set<string>>, existing: set<string>)
    requires |known| == |c.slices| && Valid(a, target) && DistinctContents(Flatten(c.slices))
    requires SlicesAllowed(a, c.sub, c.slices, c.wasEmpty, c.previous, known)
    requires LookupAllows(a, c.sub, CandidateCodes(Additions(UniqueItems(Flatten(c.slices)), c.wasEmpty, c.previous)),
        existing)
    ensures SameRows(CommitSlices(a, c.sub, c.slices, c.wasEmpty, c.previous, known),
                     ArchiveTx(a, c.sub, Flatten(c.slices), c.wasEmpty, c.previous, existing))
            <==> forall n :: 0 <= n < |c.slices| ==> AgreeAt(a, c, known, existing, n)
  {
    var end := |c.slices|;
    assert c.slices[..end] == c.slices && known[..end] == known;
    DistinctAreUnique(Flatten(c.slices));
    hide SlicesAllowed, CommitSlices, ArchiveTx, LookupAllows, CandidateCodes, UniqueItems, Additions, SimpleAll,
        Untitled, Valid, AgreeAt, DistinctContents, Flatten;
    CallIsSimple(a, target, c.sub, Flatten(c.slices), c.wasEmpty, c.previous, existing);
    DistinctWithin(c.slices);
    if SameRows(Upto(a, c, known, end), ArchiveTx(a, c.sub, Flatten(c.slices), c.wasEmpty, c.previous, existing)) {
      SameRowsAgree(a, target, c, known, existing, end);
    }
    if forall n :: 0 <= n < end ==> AgreeAt(a, c, known, existing, n) {
      AgreeingPrefix(a, target, c, known, existing, end);
    }
  }

  // --- The same in terms of the rows, once the index is complete ---

  ghost predicate SomeCarries(entries: seq<Entry>, sub: nat, k: string) {
    exists i :: 0 <= i < |entries| && entries[i].sub == sub && Carries(entries[i], k)
  }

  /** With a complete index a lookup reports exactly what some row carries, in its content or its title. */
  lemma CompleteLookup(a: Archive, target: Option<nat>, sub: nat, additions: seq<Item>, existing: set<string>,
      k: string)
    requires Valid(a, target) && a.done && LookupAllows(a, sub, CandidateCodes(additions), existing)
        && HasCode(additions, k)
    ensures k in existing <==> SomeCarries(a.entries, sub, k)
  {
    CandidateCodesAre(additions, k);
    hide ArchiveKey, CandidateCodes, HasCode, NoTwins, UniqueHashes, Ordered, Carries, Reachable;
    if SomeCarries(a.entries, sub, k) {
      var i :| 0 <= i < |a.entries| && a.entries[i].sub == sub && Carries(a.entries[i], k);
      assert Indexed(a.index, a.entries[i]);
      assert Alias(a.entries[i].id, sub, k) in a.index;
      assert MustFind(a, sub, k);
    }
    if k in existing {
      assert MayFind(a, sub, k);
      FoundIsSome(a, sub, k);
    }
  }

  lemma FoundIsSome(a: Archive, sub: nat, k: string)
    requires IndexSound(a) && MayFind(a, sub, k)
    ensures SomeCarries(a.entries, sub, k)
  {
    hide Carries;
    var id :| Alias(id, sub, k) in a.index || RowCarries(a, sub, Match(id, k));
    if Alias(id, sub, k) in a.index {
      assert Vouched(a.entries, Alias(id, sub, k));
      var i :| 0 <= i < |a.entries| && Owns(a.entries[i], Alias(id, sub, k));
    } else {
      var e :| e in a.entries && e.sub == sub && e.id == id && Carries(e, k);
      var i :| 0 <= i < |a.entries| && a.entries[i] == e;
    }
  }

  lemma TxKeepsDone(a: Archive, sub: nat, items: seq<Item>, w: bool, previous: set<string>, existing: set<string>)
    ensures ArchiveTx(a, sub, items, w, previous, existing).done == a.done
  {
    hide InsertAll, UniqueItems, Titled, Reindexed, RetitleAll, Additions;
    var p := InsertAll(Pass(a.entries, a.nextId, existing, []), sub, Additions(UniqueItems(items), w, previous));
    RetitleAllDone(a.(entries := p.entries, nextId := p.nextId, index := Reindexed(a.index, p.added)), sub,
        Titled(UniqueItems(items)));
  }

  lemma {:induction false} UptoDone(a: Archive, c: Cut, known: seq<set<string>>, n: nat)
    requires |known| == |c.slices| && n <= |c.slices|
    ensures Upto(a, c, known, n).done == a.done
  {
    hide *;
    if n == 0 {
      UptoStart(a, c, known);
    } else {
      UptoNext(a, c, known, n - 1);
      UptoDone(a, c, known, n - 1);
      TxKeepsDone(Upto(a, c, known, n - 1), c.sub, c.slices[n - 1], c.wasEmpty, c.previous, known[n - 1]);
    }
  }

  /**
    Of the codes of the slice's items, some row carries exactly those some row carried at the start and
    those that are archive keys by now.
   */
  ghost predicate CarriedAgreeAt(a: Archive, c: Cut, known: seq<set<string>>, n: nat)
    requires |known| == |c.slices| && n < |c.slices|
  {
    forall k :: HasCode(AdditionsOf(c, n), k) ==>
      (SomeCarries(Upto(a, c, known, n).entries, c.sub, k)
      <==> SomeCarries(a.entries, c.sub, k) || KeyHeld(Upto(a, c, known, n).entries, c.sub, k))
  }

  /**
    Once the index is complete: exactly when at no slice a row carries the code of an item through a title
    or a longer content alone, nor has lost one it carried at the start.
   */
  lemma IndexedSlicesAgree(a: Archive, target: Option<nat>, c: Cut, known: seq<set<string>>, existing: set<string>)
    requires |known| == |c.slices| && Valid(a, target) && a.done && DistinctContents(Flatten(c.slices))
    requires SlicesAllowed(a, c.sub, c.slices, c.wasEmpty, c.previous, known)
    requires LookupAllows(a, c.sub, CandidateCodes(Additions(UniqueItems(Flatten(c.slices)), c.wasEmpty, c.previous)),
        existing)
    ensures SameRows(CommitSlices(a, c.sub, c.slices, c.wasEmpty, c.previous, known),
                     ArchiveTx(a, c.sub, Flatten(c.slices), c.wasEmpty, c.previous, existing))
            <==> forall n :: 0 <= n < |c.slices| ==> CarriedAgreeAt(a, c, known, n)
  {
    var end := |c.slices|;
    assert c.slices[..end] == c.slices && known[..end] == known;
    assert Allowed(a, c, known, end);
    hide *;
    SlicesAgreeExactly(a, target, c, known, existing);
    forall n | 0 <= n < |c.slices| ensures AgreeAt(a, c, known, existing, n) <==> CarriedAgreeAt(a, c, known, n) {
      IndexedSlice(a, target, c, known, existing, n);
    }
  }

  lemma IndexedSlice(a: Archive, target: Option<nat>, c: Cut, known: seq<set<string>>, existing: set<string>, n: nat)
    requires |known| == |c.slices| && n < |c.slices| && Valid(a, target) && a.done
        && DistinctContents(Flatten(c.slices))
    requires Allowed(a, c, known, |c.slices|)
    requires LookupAllows(a, c.sub, CandidateCodes(Additions(UniqueItems(Flatten(c.slices)), c.wasEmpty, c.previous)),
        existing)
    ensures AgreeAt(a, c, known, existing, n) <==> CarriedAgreeAt(a, c, known, n)
  {
    hide Allowed, LookupAllows, CandidateCodes, UniqueItems, Additions, Valid, DistinctContents, Flatten, Upto, HasCode,
        KeyHeld, SomeCarries, AdditionsOf;
    forall k | HasCode(AdditionsOf(c, n), k)
      ensures k in known[n] <==> SomeCarries(Upto(a, c, known, n).entries, c.sub, k)
      ensures k in existing <==> SomeCarries(a.entries, c.sub, k)
    {
      IndexedLookups(a, target, c, known, existing, n, k);
    }
  }

  lemma IndexedLookups(a: Archive, target: Option<nat>, c: Cut, known: seq<set<string>>, existing: set<string>, n: nat,
      k: string)
    requires |known| == |c.slices| && n < |c.slices| && Valid(a, target) && a.done
        && DistinctContents(Flatten(c.slices))
    requires Allowed(a, c, known, |c.slices|) && HasCode(AdditionsOf(c, n), k)
    requires LookupAllows(a, c.sub, CandidateCodes(Additions(UniqueItems(Flatten(c.slices)), c.wasEmpty, c.previous)),
        existing)
    ensures k in known[n] <==> SomeCarries(Upto(a, c, known, n).entries, c.sub, k)
    ensures k in existing <==> SomeCarries(a.entries, c.sub, k)
  {
    DistinctWithin(c.slices);
    DistinctAreUnique(Flatten(c.slices));
    hide Allowed, SlicesAllowed, Upto, LookupAllows, CandidateCodes, Valid, DistinctContents, Flatten, UniqueItems,
        SomeCarries, HasCode, Additions;
    AllowedBefore(a, c, known, n + 1, |c.slices|);
    UptoNext(a, c, known, n);
    UptoValid(a, target, c, known, n);
    UptoDone(a, c, known, n);
    CompleteLookup(Upto(a, c, known, n), target, c.sub, AdditionsOf(c, n), known[n], k);
    CodeAmongAll(c, n, k);
    CompleteLookup(a, target, c.sub, Additions(Flatten(c.slices), c.wasEmpty, c.previous), existing, k);
  }

  lemma CodeAmongAll(c: Cut, n: nat, k: string)
    requires n < |c.slices| && HasCode(AdditionsOf(c, n), k) && forall m ::
        0 <= m < |c.slices| ==> DistinctContents(c.slices[m])
    ensures HasCode(Additions(Flatten(c.slices), c.wasEmpty, c.previous), k)
  {
    hide ArchiveKey, Flatten, UniqueItems, DistinctContents;
    var i :| 0 <= i < |AdditionsOf(c, n)| && ArchiveKey(AdditionsOf(c, n)[i].content) == Some(k);
    var item := AdditionsOf(c, n)[i];
    var j := AdditionIsListed(c, n, i);
    UnknownAre(c.slices[n], c.previous, item);
    FlattenAt(c.slices, n, j);
    DistinctAreUnique(c.slices[n]);
    UnknownAre(Flatten(c.slices), c.previous, item);
    var all := Additions(Flatten(c.slices), c.wasEmpty, c.previous);
    assert item in all;
    var l :| 0 <= l < |all| && all[l] == item;
  }
}
