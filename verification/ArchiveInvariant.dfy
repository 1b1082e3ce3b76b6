/**
  What every writer of the archive keeps (server/capture.ts, server/archive-code-index.ts,
  server/routes/code-search.ts): the index is sound, only rows the backfill has yet to reach may be
  missing from it, and no two entries of a subscription share a product code.
 */
module ArchiveInvariant {
  import opened Options
  import opened ProductCodes
  import opened ArchiveLookup
  import opened ArchiveWrites
  import opened ArchiveItems
  import opened FullScan

  predicate Twins(e: Entry, f: Entry) {
    e.sub == f.sub && ArchiveKey(e.content).Some? && ArchiveKey(e.content) == ArchiveKey(f.content)
  }

  ghost predicate NoTwins(entries: seq<Entry>) {
    forall i, j :: 0 <= i < j < |entries| ==> !Twins(entries[i], entries[j])
  }

  /** A digest is that of the content, or, for a one-click entry, that of its lower-case code. */
  predicate Hashing(e: Entry) {
    e.hashed == e.content || ArchiveKey(e.content) == Some(e.hashed)
  }

  /** The unique index on subscription and digest. */
  ghost predicate UniqueHashes(entries: seq<Entry>) {
    && (forall i :: 0 <= i < |entries| ==> Hashing(entries[i]))
    && (forall i, j ::
         0 <= i < j < |entries| && entries[i].sub == entries[j].sub ==> entries[i].hashed != entries[j].hashed)
  }

  /** A row missing from the index is one the backfill has yet to reach: there is none once it is done. */
  ghost predicate OnlyOldMissing(a: Archive, target: Option<nat>) {
    forall i :: 0 <= i < |a.entries| ==> Indexed(a.index, a.entries[i]) || Awaits(a, target, a.entries[i].id)
  }

  predicate Awaits(a: Archive, target: Option<nat>, id: nat) {
    !a.done && a.cursor < id && (target.Some? ==> id <= target.value)
  }

  ghost predicate Valid(a: Archive, target: Option<nat>) {
    && Ordered(a.entries, a.nextId) && IndexSound(a) && OnlyOldMissing(a, target)
    && NoTwins(a.entries) && UniqueHashes(a.entries)
  }

  /** Rows with the titles left out. */
  function Untitled(entries: seq<Entry>): (r: seq<Entry>)
    ensures |r| == |entries| && forall i :: 0 <= i < |r| ==> r[i] == entries[i].(title := None)
  {
    seq(|entries|, i requires 0 <= i < |entries| => entries[i].(title := None))
  }

  predicate KeyHeld(entries: seq<Entry>, sub: nat, key: string) {
    exists i :: 0 <= i < |entries| && entries[i].sub == sub && ArchiveKey(entries[i].content) == Some(key)
  }

  lemma UntitledSame(entries: seq<Entry>, sub: nat, text: string)
    ensures HashTaken(Untitled(entries), sub, text) <==> HashTaken(entries, sub, text)
    ensures KeyHeld(Untitled(entries), sub, text) <==> KeyHeld(entries, sub, text)
  {
    hide ArchiveKey;
    var r := Untitled(entries);
    if HashTaken(entries, sub, text) {
      var i :| 0 <= i < |entries| && entries[i].sub == sub && entries[i].hashed == text;
      assert r[i].hashed == text;
    }
    if KeyHeld(entries, sub, text) {
      var i :| 0 <= i < |entries| && entries[i].sub == sub && ArchiveKey(entries[i].content) == Some(text);
      assert ArchiveKey(r[i].content) == Some(text);
    }
  }

  lemma KeyHeldAppend(entries: seq<Entry>, e: Entry, sub: nat, k: string)
    ensures KeyHeld(entries + [e], sub, k)
        <==> KeyHeld(entries, sub, k) || (e.sub == sub && ArchiveKey(e.content) == Some(k))
  {
    hide ArchiveKey;
    var r := entries + [e];
    if KeyHeld(entries, sub, k) {
      var i :| 0 <= i < |entries| && entries[i].sub == sub && ArchiveKey(entries[i].content) == Some(k);
      assert r[i] == entries[i];
    }
    assert r[|entries|] == e;
  }

  predicate AllHashing(entries: seq<Entry>) {
    forall i :: 0 <= i < |entries| ==> Hashing(entries[i])
  }

  lemma HashTakenHoldsKey(entries: seq<Entry>, sub: nat, content: string, key: string)
    requires AllHashing(entries) && HashTaken(entries, sub, content) && ArchiveKey(content) == Some(key)
    ensures KeyHeld(entries, sub, key)
  {
    hide ArchiveKey;
    var i :| 0 <= i < |entries| && entries[i].sub == sub && entries[i].hashed == content;
    assert Hashing(entries[i]);
    if entries[i].content != content {
      KeyOfKey(entries[i].content, content);
    }
  }

  // --- The lookup never misses the archive key of an entry ---

  lemma KeyMustBeFound(a: Archive, target: Option<nat>, i: nat, key: string)
    requires OnlyOldMissing(a, target) && i < |a.entries| && ArchiveKey(a.entries[i].content) == Some(key)
    ensures MustFind(a, a.entries[i].sub, key)
  {
    var e := a.entries[i];
    ArchiveKeyIsFound(e.content, key);
    assert Carries(e, key);
    hide Carries, ArchiveKey, LowerAll, SearchPatterns;
    if Indexed(a.index, e) {
      assert Alias(e.id, e.sub, key) in a.index;
    } else {
      ArchiveKeyPasses(e.content, key);
      assert Within(e, e.sub, None, SearchPatterns(key));
      assert Reachable(a, e.sub, key);
    }
  }

  // --- Rebuilding the aliases of some rows ---

  lemma ReindexSound(index: set<Alias>, entries: seq<Entry>, rows: seq<Entry>, later: seq<Entry>)
    requires forall alias :: alias in index ==> Vouched(entries, alias)
    requires forall i :: 0 <= i < |rows| ==> rows[i] in later
    requires forall i :: 0 <= i < |entries| ==> entries[i] in later || HasId(rows, entries[i].id)
    ensures forall alias :: alias in Reindexed(index, rows) ==> Vouched(later, alias)
  {
    hide Carries, Reindexed;
    forall alias | alias in Reindexed(index, rows) ensures Vouched(later, alias) {
      if OwnedBy(rows, alias) {
        var i :| 0 <= i < |rows| && Owns(rows[i], alias);
        assert rows[i] in later;
      } else {
        assert Vouched(entries, alias);
        var i :| 0 <= i < |entries| && Owns(entries[i], alias);
        assert entries[i] in later;
      }
    }
  }

  lemma ReindexCovers(index: set<Alias>, rows: seq<Entry>, e: Entry)
    requires e in rows || (Indexed(index, e) && !HasId(rows, e.id))
    ensures Indexed(Reindexed(index, rows), e)
  {
    hide Carries, Reindexed;
    forall code | Carries(e, code) ensures Alias(e.id, e.sub, code) in Reindexed(index, rows) {
      var alias := Alias(e.id, e.sub, code);
      if e in rows {
        var i :| 0 <= i < |rows| && rows[i] == e;
        assert Owns(rows[i], alias);
        assert OwnedBy(rows, alias);
      } else {
        assert alias in index && !HasId(rows, alias.id);
      }
    }
  }

  // --- The insert loop ---

  /** The codes of the items that some entry of the subscription has are among those known. */
  ghost predicate KeysKnown(p: Pass, sub: nat, items: seq<Item>) {
    forall i, k ::
        0 <= i < |p.entries| && p.entries[i].sub == sub && ArchiveKey(p.entries[i].content) == Some(k)
            && HasCode(items, k)
        ==> k in p.existing
  }

  ghost predicate PassValid(p: Pass, sub: nat, items: seq<Item>) {
    Ordered(p.entries, p.nextId) && NoTwins(p.entries) && UniqueHashes(p.entries) && KeysKnown(p, sub, items)
  }

  ghost predicate PassGrows(p: Pass, entries: seq<Entry>, nextId: nat) {
    && p.entries == entries + p.added && nextId <= p.nextId
    && (forall i :: 0 <= i < |p.added| ==> nextId <= p.added[i].id)
  }

  lemma InsertOneKeeps(p: Pass, sub: nat, items: seq<Item>, item: Item, q: Pass)
    requires PassValid(p, sub, items) && item in items && q == InsertOne(p, sub, item)
    ensures PassValid(q, sub, items)
  {
    hide ArchiveKey;
    if q.entries != p.entries {
      var key := ArchiveKey(item.content);
      assert key.Some? ==> HasCode(items, key.value);
      AppendKeeps(p.entries, p.nextId, q.entries[|p.entries|]);
    }
    hide HasCode, NoTwins, UniqueHashes, Ordered;
  }

  lemma AppendKeeps(entries: seq<Entry>, nextId: nat, e: Entry)
    requires Ordered(entries, nextId) && NoTwins(entries) && UniqueHashes(entries)
    requires e.id == nextId && Hashing(e)
    requires forall i :: 0 <= i < |entries| ==> !Twins(entries[i], e)
    requires !HashTaken(entries, e.sub, e.hashed)
    ensures Ordered(entries + [e], nextId + 1) && NoTwins(entries + [e]) && UniqueHashes(entries + [e])
  {
    hide Twins, Hashing;
  }

  lemma InsertOneGrows(p: Pass, sub: nat, item: Item, entries: seq<Entry>, nextId: nat)
    requires PassGrows(p, entries, nextId)
    ensures PassGrows(InsertOne(p, sub, item), entries, nextId)
  {
    hide ArchiveKey, HashTaken;
    var q := InsertOne(p, sub, item);
    if q.added != p.added {
      assert q.entries == entries + q.added;
    }
  }

  lemma {:induction false} InsertAllKeeps(p: Pass, sub: nat, all: seq<Item>, items: seq<Item>)
    requires PassValid(p, sub, all) && forall i :: 0 <= i < |items| ==> items[i] in all
    ensures PassValid(InsertAll(p, sub, items), sub, all)
  {
    hide PassValid, InsertOne;
    if items != [] {
      var init, last := items[..|items| - 1], items[|items| - 1];
      InsertAllKeeps(p, sub, all, init);
      InsertOneKeeps(InsertAll(p, sub, init), sub, all, last, InsertAll(p, sub, items));
    }
  }

  lemma {:induction false} InsertAllGrows(p: Pass, sub: nat, items: seq<Item>)
    requires p.added == []
    ensures PassGrows(InsertAll(p, sub, items), p.entries, p.nextId)
  {
    hide InsertOne;
    if items == [] {
      assert p.entries == p.entries + p.added;
    } else {
      InsertAllGrows(p, sub, items[..|items| - 1]);
      hide PassGrows;
      InsertOneGrows(InsertAll(p, sub, items[..|items| - 1]), sub, items[|items| - 1], p.entries, p.nextId);
    }
  }

  /** Rows with fresh ids, indexed as they are added, leave nothing new missing. */
  lemma AddIndexed(a: Archive, target: Option<nat>, added: seq<Entry>, b: Archive)
    requires Ordered(a.entries, a.nextId) && IndexSound(a) && OnlyOldMissing(a, target)
    requires b == a.(entries := a.entries + added, nextId := b.nextId, index := Reindexed(a.index, added))
    requires forall i :: 0 <= i < |added| ==> a.nextId <= added[i].id
    ensures IndexSound(b) && OnlyOldMissing(b, target)
  {
    hide Indexed, Reindexed, Owns, Vouched;
    ReindexSound(a.index, a.entries, added, b.entries);
    forall i | 0 <= i < |b.entries| ensures Indexed(b.index, b.entries[i]) || Awaits(b, target, b.entries[i].id) {
      var e := b.entries[i];
      if i >= |a.entries| {
        assert e == added[i - |a.entries|];
        ReindexCovers(a.index, added, e);
      } else if Indexed(a.index, e) {
        ReindexCovers(a.index, added, e);
      } else {
        assert Awaits(a, target, a.entries[i].id);
      }
    }
  }

  // --- Titles ---

  lemma {:induction false} ChangedRowIs(entries: seq<Entry>, sub: nat, batch: seq<Item>, r: Entry) returns (k: nat)
    requires r in ChangedRows(entries, sub, batch)
    ensures k < |entries| && r == Retitled(entries[k], sub, batch) && r.title != entries[k].title
  {
    hide Retitled;
    var init, last := entries[..|entries| - 1], entries[|entries| - 1];
    if r in ChangedRows(init, sub, batch) {
      k := ChangedRowIs(init, sub, batch, r);
    } else {
      k := |entries| - 1;
    }
  }

  lemma {:induction false} ChangedRowListed(entries: seq<Entry>, sub: nat, batch: seq<Item>, k: nat)
    requires k < |entries| && Retitled(entries[k], sub, batch).title != entries[k].title
    ensures Retitled(entries[k], sub, batch) in ChangedRows(entries, sub, batch)
  {
    hide Retitled;
    if k < |entries| - 1 {
      ChangedRowListed(entries[..|entries| - 1], sub, batch, k);
    }
  }

  lemma {:induction false} ChangedRowsDistinct(entries: seq<Entry>, nextId: nat, sub: nat, batch: seq<Item>)
    requires Ordered(entries, nextId)
    ensures DistinctIds(ChangedRows(entries, sub, batch))
  {
    if entries != [] {
      var init, last := entries[..|entries| - 1], entries[|entries| - 1];
      var rows := ChangedRows(init, sub, batch);
      ChangedRowsDistinct(init, nextId, sub, batch);
      hide Retitled;
      forall i | 0 <= i < |rows| ensures rows[i].id != last.id {
        var k := ChangedRowIs(init, sub, batch, rows[i]);
        assert init[k] == entries[k];
      }
    }
  }

  /** A row keeps its id, subscription, content and digest; the index follows its title. */
  lemma RetitleBatchKeeps(a: Archive, target: Option<nat>, sub: nat, batch: seq<Item>)
    requires Valid(a, target)
    ensures Valid(RetitleBatch(a, sub, batch), target)
  {
    var b := RetitleBatch(a, sub, batch);
    RetitleKeepsRows(a.entries, a.nextId, b.entries);
    RetitleIndex(a, target, sub, batch);
  }

  lemma RetitleKeepsRows(entries: seq<Entry>, nextId: nat, later: seq<Entry>)
    requires |later| == |entries| && forall i ::
        0 <= i < |entries| ==> later[i].(title := entries[i].title) == entries[i]
    requires Ordered(entries, nextId) && NoTwins(entries) && UniqueHashes(entries)
    ensures Ordered(later, nextId) && NoTwins(later) && UniqueHashes(later)
  {
    hide ArchiveKey;
    forall i, j | 0 <= i < j < |later| ensures later[i].id < later[j].id && !Twins(later[i], later[j]) {
      assert !Twins(entries[i], entries[j]);
    }
    forall i | 0 <= i < |later| ensures Hashing(later[i]) && later[i].id < nextId {
      assert Hashing(entries[i]);
    }
  }

  lemma UnchangedKeepsId(entries: seq<Entry>, nextId: nat, sub: nat, batch: seq<Item>, i: nat)
    requires Ordered(entries, nextId) && i < |entries|
    requires Retitled(entries[i], sub, batch).title == entries[i].title
    ensures !HasId(ChangedRows(entries, sub, batch), entries[i].id) && Retitled(entries[i], sub, batch) == entries[i]
  {
    hide Retitled;
    var rows := ChangedRows(entries, sub, batch);
    forall j | 0 <= j < |rows| ensures rows[j].id != entries[i].id {
      var k := ChangedRowIs(entries, sub, batch, rows[j]);
      assert k != i;
    }
  }

  lemma RetitleIndex(a: Archive, target: Option<nat>, sub: nat, batch: seq<Item>)
    requires Valid(a, target)
    ensures IndexSound(RetitleBatch(a, sub, batch)) && OnlyOldMissing(RetitleBatch(a, sub, batch), target)
  {
    hide Indexed, Reindexed, Owns, Vouched, Retitled, NoTwins, UniqueHashes, Awaits, HasId;
    var b, rows := RetitleBatch(a, sub, batch), ChangedRows(a.entries, sub, batch);
    forall j | 0 <= j < |rows| ensures rows[j] in b.entries {
      var k := ChangedRowIs(a.entries, sub, batch, rows[j]);
      assert b.entries[k] == rows[j];
    }
    forall i | 0 <= i < |a.entries| ensures a.entries[i] in b.entries || HasId(rows, a.entries[i].id) {
      if Retitled(a.entries[i], sub, batch).title == a.entries[i].title {
        UnchangedKeepsId(a.entries, a.nextId, sub, batch, i);
        assert b.entries[i] == a.entries[i];
      } else {
        ChangedRowListed(a.entries, sub, batch, i);
        HasIdOf(rows, b.entries[i]);
      }
    }
    ReindexSound(a.index, a.entries, rows, b.entries);
    forall i | 0 <= i < |b.entries| ensures Indexed(b.index, b.entries[i]) || Awaits(b, target, b.entries[i].id) {
      RetitledIndexed(a, target, sub, batch, i);
    }
  }

  lemma HasIdOf(rows: seq<Entry>, e: Entry)
    requires e in rows
    ensures HasId(rows, e.id)
  {
  }

  lemma RetitledIndexed(a: Archive, target: Option<nat>, sub: nat, batch: seq<Item>, i: nat)
    requires Ordered(a.entries, a.nextId) && OnlyOldMissing(a, target) && i < |a.entries|
    ensures var b := RetitleBatch(a, sub, batch); Indexed(b.index, b.entries[i]) || Awaits(b, target, b.entries[i].id)
  {
    hide Indexed, Reindexed, Retitled, HasId;
    var b, rows := RetitleBatch(a, sub, batch), ChangedRows(a.entries, sub, batch);
    if Retitled(a.entries[i], sub, batch).title == a.entries[i].title {
      UnchangedKeepsId(a.entries, a.nextId, sub, batch, i);
      if Indexed(a.index, a.entries[i]) {
        ReindexCovers(a.index, rows, b.entries[i]);
      }
    } else {
      ChangedRowListed(a.entries, sub, batch, i);
      ReindexCovers(a.index, rows, b.entries[i]);
    }
  }

  lemma {:induction false} RetitleAllKeeps(a: Archive, target: Option<nat>, sub: nat, titled: seq<Item>)
    requires Valid(a, target)
    ensures Valid(RetitleAll(a, sub, titled), target)
    decreases |titled|
  {
    hide Valid, RetitleBatch;
    if titled != [] {
      var n := Min(CHUNK, |titled|);
      RetitleBatchKeeps(a, target, sub, titled[..n]);
      RetitleAllKeeps(RetitleBatch(a, sub, titled[..n]), target, sub, titled[n..]);
    }
  }

  // --- One call of archiveNewItems ---

  /** Whatever the lookups were allowed to report, the call keeps the archive valid. */
  lemma ArchiveTxKeeps(a: Archive, target: Option<nat>, sub: nat, items: seq<Item>, wasEmpty: bool,
      previous: set<string>, existing: set<string>)
    requires Valid(a, target)
    requires LookupAllows(a, sub, CandidateCodes(Additions(UniqueItems(items), wasEmpty, previous)), existing)
    ensures Valid(ArchiveTx(a, sub, items, wasEmpty, previous, existing), target)
  {
    var current := UniqueItems(items);
    var additions := Additions(current, wasEmpty, previous);
    var start := Pass(a.entries, a.nextId, existing, []);
    KnownFromLookup(a, target, sub, additions, existing);
    InsertAllKeeps(start, sub, additions, additions);
    InsertAllGrows(start, sub, additions);
    hide InsertAll, LookupAllows, NoTwins, UniqueHashes, KeysKnown, Additions, UniqueItems, CandidateCodes;
    var p := InsertAll(start, sub, additions);
    var b := a.(entries := p.entries, nextId := p.nextId, index := Reindexed(a.index, p.added));
    AddIndexed(a, target, p.added, b);
    RetitleAllKeeps(b, target, sub, Titled(current));
  }

  lemma KnownFromLookup(a: Archive, target: Option<nat>, sub: nat, additions: seq<Item>, existing: set<string>)
    requires Valid(a, target) && LookupAllows(a, sub, CandidateCodes(additions), existing)
    ensures KeysKnown(Pass(a.entries, a.nextId, existing, []), sub, additions)
  {
    hide ArchiveKey, MustFind, CandidateCodes, HasCode, NoTwins, UniqueHashes, IndexSound, MayFind;
    forall i, k | 0 <= i < |a.entries| && a.entries[i].sub == sub && ArchiveKey(a.entries[i].content) == Some(k)
        && HasCode(additions, k)
      ensures k in existing
    {
      KeyMustBeFound(a, target, i, k);
      CandidateCodesAre(additions, k);
    }
  }
}
