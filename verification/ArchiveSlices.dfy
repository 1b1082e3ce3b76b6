/**
  The scan commit archives its rows in slices (server/capture.ts). Each slice looks up the codes
  again, so it sees the rows, and the titles, that the slices before it wrote. The slices archive what
  one call would when no row or item carries any code but its own archive key; `SliceInputs` says for
  which inputs they do, and `SliceExamples` shows titles that make them differ.
 */
module ArchiveSlices {
  import opened Options
  import opened ProductCodes
  import opened ArchiveLookup
  import opened ArchiveWrites
  import opened ArchiveItems
  import opened ArchiveInvariant
  import opened FullScan

  /** The only code an item carries is its own archive key. */
  ghost predicate PlainItem(item: Item) {
    forall c :: c in CodesOf(item.content, item.title) ==> ArchiveKey(item.content) == Some(c)
  }

  ghost predicate PlainRow(e: Entry) {
    && (forall c :: Carries(e, c) ==> ArchiveKey(e.content) == Some(c))
    && (e.code.Some? && e.code.value != "" ==> e.code == ArchiveKey(e.content))
  }

  ghost predicate AllPlain(entries: seq<Entry>, sub: nat) {
    forall i :: 0 <= i < |entries| && entries[i].sub == sub ==> PlainRow(entries[i])
  }

  ghost predicate AllPlainItems(items: seq<Item>) {
    forall i :: 0 <= i < |items| ==> PlainItem(items[i])
  }

  // --- The simple archive: an item is new unless its key is known, or an entry has its key or its digest ---

  datatype Rows = Rows(entries: seq<Entry>, nextId: nat)

  function SimpleOne(r: Rows, known: set<string>, sub: nat, item: Item): Rows {
    var key := ArchiveKey(item.content);
    if key.Some? && (key.value in known || KeyHeld(r.entries, sub, key.value)) then r
    else if HashTaken(r.entries, sub, item.content) then r.(nextId := r.nextId + 1)
    else Rows(r.entries + [Entry(r.nextId, sub, item.content, None, key, item.content)], r.nextId + 1)
  }

  function SimpleAll(r: Rows, known: set<string>, sub: nat, items: seq<Item>): Rows {
    if items == [] then r else SimpleOne(SimpleAll(r, known, sub, items[..|items| - 1]), known, sub, items[|items| - 1])
  }

  lemma {:induction false} SimpleAppend(r: Rows, known: set<string>, sub: nat, a: seq<Item>, b: seq<Item>)
    ensures SimpleAll(r, known, sub, a + b) == SimpleAll(SimpleAll(r, known, sub, a), known, sub, b)
  {
    hide SimpleOne;
    if b == [] {
      assert a + b == a;
    } else {
      SimpleAppend(r, known, sub, a, b[..|b| - 1]);
      assert (a + b)[..|a + b| - 1] == a + b[..|b| - 1];
    }
  }

  function RowsOfArchive(a: Archive): Rows { Rows(Untitled(a.entries), a.nextId) }

  // --- One call is the simple archive ---

  /** Among the codes of the items, the loop knows exactly those given and those some entry has as its key. */
  ghost predicate KnownExactly(p: Pass, known: set<string>, sub: nat, items: seq<Item>) {
    forall k :: HasCode(items, k) ==> (k in p.existing <==> k in known || KeyHeld(p.entries, sub, k))
  }

  lemma OneIsSimple(p: Pass, known: set<string>, sub: nat, items: seq<Item>, item: Item)
    requires KnownExactly(p, known, sub, items) && AllHashing(p.entries) && item in items
    ensures var q := InsertOne(p, sub, item);
      && KnownExactly(q, known, sub, items) && AllHashing(q.entries)
      && Rows(Untitled(q.entries), q.nextId) == SimpleOne(Rows(Untitled(p.entries), p.nextId), known, sub, item)
  {
    hide ArchiveKey, KeyHeld, HashTaken;
    var key, q := ArchiveKey(item.content), InsertOne(p, sub, item);
    UntitledSame(p.entries, sub, item.content);
    if key.Some? {
      assert HasCode(items, key.value);
      UntitledSame(p.entries, sub, key.value);
      if HashTaken(p.entries, sub, item.content) {
        HashTakenHoldsKey(p.entries, sub, item.content, key.value);
      }
    }
    if q.entries != p.entries {
      var e := q.entries[|p.entries|];
      assert Untitled(q.entries) == Untitled(p.entries) + [e.(title := None)];
      hide Untitled;
      forall k | HasCode(items, k) ensures k in q.existing <==> k in known || KeyHeld(q.entries, sub, k) {
        KeyHeldAppend(p.entries, e, sub, k);
      }
    }
  }

  lemma {:induction false} AllIsSimple(p: Pass, known: set<string>, sub: nat, all: seq<Item>, items: seq<Item>)
    requires KnownExactly(p, known, sub, all) && AllHashing(p.entries) && forall i ::
        0 <= i < |items| ==> items[i] in all
    ensures var q := InsertAll(p, sub, items);
      && KnownExactly(q, known, sub, all) && AllHashing(q.entries)
      && Rows(Untitled(q.entries), q.nextId) == SimpleAll(Rows(Untitled(p.entries), p.nextId), known, sub, items)
  {
    hide InsertOne, KnownExactly, AllHashing, SimpleOne, Untitled;
    if items != [] {
      var init := items[..|items| - 1];
      AllIsSimple(p, known, sub, all, init);
      OneIsSimple(InsertAll(p, sub, init), known, sub, all, items[|items| - 1]);
    }
  }

  /** On plain rows a lookup reports exactly the keys that entries have, indexed or not. */
  lemma LookupIsExact(a: Archive, target: Option<nat>, sub: nat, additions: seq<Item>, existing: set<string>)
    requires Valid(a, target) && AllPlain(a.entries, sub) && LookupAllows(a, sub, CandidateCodes(additions), existing)
    ensures KnownExactly(Pass(a.entries, a.nextId, existing, []), {}, sub, additions)
  {
    hide ArchiveKey, MustFind, CandidateCodes, HasCode, NoTwins, UniqueHashes, MayFind, Ordered, IndexSound, AllPlain,
        KeyHeld;
    forall k | HasCode(additions, k) ensures k in existing <==> KeyHeld(a.entries, sub, k) {
      CandidateCodesAre(additions, k);
      if KeyHeld(a.entries, sub, k) {
        HeldMustBeFound(a, target, sub, k);
      }
      if k in existing {
        MayFindHeld(a, sub, k);
      }
    }
  }

  lemma HeldMustBeFound(a: Archive, target: Option<nat>, sub: nat, k: string)
    requires OnlyOldMissing(a, target) && KeyHeld(a.entries, sub, k)
    ensures MustFind(a, sub, k)
  {
    hide ArchiveKey, MustFind, OnlyOldMissing;
    var i :| 0 <= i < |a.entries| && a.entries[i].sub == sub && ArchiveKey(a.entries[i].content) == Some(k);
    KeyMustBeFound(a, target, i, k);
  }

  lemma MayFindHeld(a: Archive, sub: nat, k: string)
    requires IndexSound(a) && AllPlain(a.entries, sub) && MayFind(a, sub, k)
    ensures KeyHeld(a.entries, sub, k)
  {
    hide ArchiveKey, Carries;
    var id :| Alias(id, sub, k) in a.index || RowCarries(a, sub, Match(id, k));
    if Alias(id, sub, k) in a.index {
      assert Vouched(a.entries, Alias(id, sub, k));
      var i :| 0 <= i < |a.entries| && Owns(a.entries[i], Alias(id, sub, k));
      assert PlainRow(a.entries[i]);
    } else {
      var e :| e in a.entries && e.sub == sub && e.id == id && Carries(e, k);
      assert PlainRow(e);
    }
  }

  lemma {:induction false} InsertedRowsPlain(p: Pass, sub: nat, items: seq<Item>)
    requires AllPlain(p.entries, sub) && AllPlainItems(items)
    ensures AllPlain(InsertAll(p, sub, items).entries, sub)
  {
    hide CodesOf, ArchiveKey, HashTaken;
    if items != [] {
      var init, last := items[..|items| - 1], items[|items| - 1];
      assert AllPlainItems(init) by {
        hide PlainItem;
      }
      InsertedRowsPlain(p, sub, init);
      assert PlainItem(last);
    }
  }

  /** The title a row ends with is its own or that of an item about it. */
  lemma {:induction false} NewTitleFrom(e: Entry, batch: seq<Item>) returns (k: nat)
    ensures NewTitle(e, batch) == e.title
        || (k < |batch| && Concerns(batch[k], e) && NewTitle(e, batch) == batch[k].title)
  {
    hide Concerns;
    k := 0;
    if batch != [] {
      k := |batch| - 1;
      if !(Concerns(batch[k], e) && batch[k].title != e.title) {
        k := NewTitleFrom(e, batch[..|batch| - 1]);
      }
    }
  }

  lemma ConcernsSameKey(item: Item, e: Entry)
    requires Concerns(item, e) && Hashing(e) && PlainRow(e)
    ensures ArchiveKey(item.content) == ArchiveKey(e.content)
  {
    if ArchiveKey(item.content).Some? {
      KeyOfKey(item.content, ArchiveKey(item.content).value);
    }
    if e.hashed == item.content && e.content != e.hashed {
      KeyOfKey(e.content, e.hashed);
    }
  }

  lemma CodesSplit(content: string, title: Option<string>, c: string)
    ensures c in CodesOf(content, title) <==> c in ProductCodeKeys(content) || c in ProductCodeKeys(TitleText(title))
  {
    hide ProductCodeKeys;
  }

  lemma RetitledRowPlain(e: Entry, sub: nat, batch: seq<Item>)
    requires Hashing(e) && PlainRow(e) && AllPlainItems(batch)
    ensures PlainRow(Retitled(e, sub, batch))
  {
    hide CodesOf, ArchiveKey, Hashing, Concerns;
    var r := Retitled(e, sub, batch);
    var k := NewTitleFrom(e, batch);
    if r.title != e.title {
      var item := batch[k];
      ConcernsSameKey(item, e);
      assert PlainItem(item);
      forall c | Carries(r, c) ensures ArchiveKey(e.content) == Some(c) {
        CodesSplit(r.content, r.title, c);
        CodesSplit(e.content, e.title, c);
        CodesSplit(item.content, item.title, c);
        assert Carries(e, c) || c in CodesOf(item.content, item.title);
      }
    }
  }

  lemma {:induction false} RetitleAllPlain(a: Archive, sub: nat, titled: seq<Item>)
    requires AllPlain(a.entries, sub) && AllHashing(a.entries) && AllPlainItems(titled)
    ensures var b := RetitleAll(a, sub, titled);
            AllPlain(b.entries, sub) && Untitled(b.entries) == Untitled(a.entries) && b.nextId == a.nextId
    decreases |titled|
  {
    hide PlainRow, Hashing, PlainItem;
    if titled != [] {
      var n := Min(CHUNK, |titled|);
      var batch, b := titled[..n], RetitleBatch(a, sub, titled[..n]);
      forall i | 0 <= i < |b.entries|
          ensures (b.entries[i].sub == sub ==> PlainRow(b.entries[i])) && Hashing(b.entries[i]) {
        RetitledKeepsHashing(a.entries[i], sub, batch);
        if a.entries[i].sub == sub {
          RetitledRowPlain(a.entries[i], sub, batch);
        }
      }
      assert Untitled(b.entries) == Untitled(a.entries);
      RetitleAllPlain(b, sub, titled[n..]);
    }
  }

  lemma RetitledKeepsHashing(e: Entry, sub: nat, batch: seq<Item>)
    requires Hashing(e)
    ensures Hashing(Retitled(e, sub, batch))
  {
    hide ArchiveKey, NewTitle;
  }

  lemma {:induction false} TitledPlain(items: seq<Item>)
    requires AllPlainItems(items)
    ensures AllPlainItems(Titled(items))
  {
    hide PlainItem;
    if items != [] {
      TitledPlain(items[..|items| - 1]);
    }
  }

  lemma AdditionsPlain(items: seq<Item>, wasEmpty: bool, previous: set<string>)
    requires AllPlainItems(items)
    ensures AllPlainItems(Additions(items, wasEmpty, previous))
  {
    hide PlainItem;
    var r := Additions(items, wasEmpty, previous);
    forall i | 0 <= i < |r| ensures PlainItem(r[i]) {
      UnknownAre(items, previous, r[i]);
    }
  }

  /** One call on plain rows and items archives what the simple archive does, whatever the lookups may report. */
  lemma CallIsPlain(a: Archive, target: Option<nat>, sub: nat, items: seq<Item>, wasEmpty: bool, previous: set<string>,
      existing: set<string>)
    requires Valid(a, target) && AllPlain(a.entries, sub) && AllPlainItems(UniqueItems(items))
    requires LookupAllows(a, sub, CandidateCodes(Additions(UniqueItems(items), wasEmpty, previous)), existing)
    ensures var b := ArchiveTx(a, sub, items, wasEmpty, previous, existing);
      && Valid(b, target) && AllPlain(b.entries, sub)
      && Rows(Untitled(b.entries), b.nextId)
         == SimpleAll(Rows(Untitled(a.entries), a.nextId), {}, sub, Additions(UniqueItems(items), wasEmpty, previous))
  {
    ArchiveTxKeeps(a, target, sub, items, wasEmpty, previous, existing);
    var current := UniqueItems(items);
    var additions := Additions(current, wasEmpty, previous);
    var start := Pass(a.entries, a.nextId, existing, []);
    LookupIsExact(a, target, sub, additions, existing);
    AllIsSimple(start, {}, sub, additions, additions);
    AdditionsPlain(current, wasEmpty, previous);
    InsertedRowsPlain(start, sub, additions);
    TitledPlain(current);
    hide InsertAll, UniqueItems, Additions, Titled, AllPlain, AllHashing, Untitled, AllPlainItems, Valid, Reindexed,
        SimpleAll, LookupAllows;
    var p := InsertAll(start, sub, additions);
    RetitleAllPlain(a.(entries := p.entries, nextId := p.nextId, index := Reindexed(a.index, p.added)), sub,
        Titled(current));
  }

  // --- Slices ---

  /** The staged items of a scan, as `FullScanRuns.EveryPublishedScanIsFaithful` gives them, never repeat a content. */
  lemma {:induction false} StagedItemsDistinct(items: seq<Item>)
    ensures DistinctContents(FirstOccurrences(items))
  {
    if items != [] {
      var init, last := items[..|items| - 1], items[|items| - 1];
      StagedItemsDistinct(init);
      SameListed(init, last.content);
      hide FirstOccurrences;
      var kept := FirstOccurrences(init);
      forall i | 0 <= i < |kept| && !Listed(init, last.content) ensures kept[i].content != last.content {
      }
      LastOccurrence(items);
    }
  }

  lemma LastOccurrence(items: seq<Item>)
    requires items != []
    ensures var init, last := items[..|items| - 1], items[|items| - 1];
            FirstOccurrences(items) == FirstOccurrences(init) + if Listed(init, last.content) then [] else [last]
  {
  }

  lemma {:induction false} PutNew(list: seq<Item>, item: Item)
    requires !Listed(list, item.content)
    ensures Put(list, item) == list + [item]
  {
    if list != [] {
      ListedTail(list, item.content);
      PutNew(list[1..], item);
    }
  }

  lemma {:induction false} DistinctAreUnique(items: seq<Item>)
    requires DistinctContents(items)
    ensures UniqueItems(items) == items
  {
    if items != [] {
      var init, last := items[..|items| - 1], items[|items| - 1];
      DistinctAreUnique(init);
      PutNew(init, last);
    }
  }

  lemma {:induction false} UnknownAppend(a: seq<Item>, b: seq<Item>, previous: set<string>)
    ensures Unknown(a + b, previous) == Unknown(a, previous) + Unknown(b, previous)
  {
    if b == [] {
      assert a + b == a;
    } else {
      hide Unknown;
      var init, last := b[..|b| - 1], b[|b| - 1];
      UnknownAppend(a, init, previous);
      assert (a + b)[..|a + b| - 1] == a + init && (a + b)[|a + b| - 1] == last;
      UnknownSnoc(a + b, previous);
      UnknownSnoc(b, previous);
    }
  }

  lemma UnknownSnoc(items: seq<Item>, previous: set<string>)
    requires items != []
    ensures var last := items[|items| - 1];
            Unknown(items, previous) == Unknown(items[..|items| - 1], previous) + if last.content in previous then []
                else [last]
  {
  }

  /** The scan commit: the state of the archive and of the last check is read once, the codes anew for each slice. */
  function CommitSlices(a: Archive, sub: nat, slices: seq<seq<Item>>, wasEmpty: bool, previous: set<string>,
      known: seq<set<string>>): Archive
    requires |known| == |slices|
  {
    if slices == [] then a
    else
      var n := |slices| - 1;
      ArchiveTx(CommitSlices(a, sub, slices[..n], wasEmpty, previous, known[..n]), sub, slices[n], wasEmpty, previous,
          known[n])
  }

  ghost predicate SlicesAllowed(a: Archive, sub: nat, slices: seq<seq<Item>>, wasEmpty: bool, previous: set<string>,
      known: seq<set<string>>)
    requires |known| == |slices|
  {
    slices == [] ||
    var n := |slices| - 1;
    && SlicesAllowed(a, sub, slices[..n], wasEmpty, previous, known[..n])
    && LookupAllows(CommitSlices(a, sub, slices[..n], wasEmpty, previous, known[..n]), sub,
                    CandidateCodes(Additions(UniqueItems(slices[n]), wasEmpty, previous)), known[n])
  }

  ghost predicate GoodItems(items: seq<Item>) { DistinctContents(items) && AllPlainItems(items) }

  lemma GoodParts(a: seq<Item>, b: seq<Item>)
    requires GoodItems(a + b)
    ensures GoodItems(a) && GoodItems(b)
  {
    hide PlainItem;
    assert forall i :: 0 <= i < |a| ==> (a + b)[i] == a[i];
    assert forall i :: 0 <= i < |b| ==> (a + b)[|a| + i] == b[i];
  }

  lemma {:induction false} SlicesArePlain(a: Archive, target: Option<nat>, sub: nat, slices: seq<seq<Item>>,
      wasEmpty: bool, previous: set<string>, known: seq<set<string>>)
    requires |known| == |slices| && SlicesAllowed(a, sub, slices, wasEmpty, previous, known)
    requires Valid(a, target) && AllPlain(a.entries, sub) && GoodItems(Flatten(slices))
    ensures var b := CommitSlices(a, sub, slices, wasEmpty, previous, known);
      && Valid(b, target) && AllPlain(b.entries, sub)
      && RowsOfArchive(b) == SimpleAll(RowsOfArchive(a), {}, sub, Additions(Flatten(slices), wasEmpty, previous))
    decreases |slices|
  {
    hide ArchiveTx, LookupAllows, Valid, AllPlain, GoodItems, Untitled, CandidateCodes, UniqueItems, SimpleOne;
    if slices == [] {
      assert Additions([], wasEmpty, previous) == [];
    } else {
      var n := |slices| - 1;
      var before, last := Flatten(slices[..n]), slices[n];
      GoodParts(before, last);
      SlicesArePlain(a, target, sub, slices[..n], wasEmpty, previous, known[..n]);
      LastSlicePlain(CommitSlices(a, sub, slices[..n], wasEmpty, previous, known[..n]), target, sub, last, wasEmpty,
          previous, known[n]);
      UnknownAppend(before, last, previous);
      SimpleAppend(RowsOfArchive(a), {}, sub, Additions(before, wasEmpty, previous),
          Additions(last, wasEmpty, previous));
    }
  }

  lemma LastSlicePlain(a: Archive, target: Option<nat>, sub: nat, items: seq<Item>, wasEmpty: bool,
      previous: set<string>, existing: set<string>)
    requires Valid(a, target) && AllPlain(a.entries, sub) && GoodItems(items)
    requires LookupAllows(a, sub, CandidateCodes(Additions(UniqueItems(items), wasEmpty, previous)), existing)
    ensures var b := ArchiveTx(a, sub, items, wasEmpty, previous, existing);
      && Valid(b, target) && AllPlain(b.entries, sub)
      && RowsOfArchive(b) == SimpleAll(RowsOfArchive(a), {}, sub, Additions(items, wasEmpty, previous))
  {
    DistinctAreUnique(items);
    hide ArchiveTx, LookupAllows, Valid, AllPlain, AllPlainItems, Untitled, CandidateCodes, UniqueItems, SimpleAll,
        Additions, DistinctContents;
    CallIsPlain(a, target, sub, items, wasEmpty, previous, existing);
  }

  /** However the staged rows are cut, the slices archive the rows one call would, under the same ids. */
  lemma SlicesArchiveTheSame(a: Archive, target: Option<nat>, sub: nat, slices: seq<seq<Item>>, wasEmpty: bool,
      previous: set<string>,
                             known: seq<set<string>>, existing: set<string>)
    requires Valid(a, target) && AllPlain(a.entries, sub) && GoodItems(Flatten(slices))
    requires |known| == |slices| && SlicesAllowed(a, sub, slices, wasEmpty, previous, known)
    requires LookupAllows(a, sub, CandidateCodes(Additions(UniqueItems(Flatten(slices)), wasEmpty, previous)), existing)
    ensures var sliced, whole := CommitSlices(a, sub, slices, wasEmpty, previous, known),
        ArchiveTx(a, sub, Flatten(slices), wasEmpty, previous, existing);
            Untitled(sliced.entries) == Untitled(whole.entries) && sliced.nextId == whole.nextId
  {
    hide ArchiveTx, CommitSlices, SlicesAllowed, LookupAllows, Valid, AllPlain, GoodItems, Untitled, CandidateCodes,
        UniqueItems, SimpleAll, Additions;
    SlicesArePlain(a, target, sub, slices, wasEmpty, previous, known);
    LastSlicePlain(a, target, sub, Flatten(slices), wasEmpty, previous, existing);
  }

  lemma {:induction false} RetitleAllLength(a: Archive, sub: nat, titled: seq<Item>)
    ensures |RetitleAll(a, sub, titled).entries| == |a.entries|
    decreases |titled|
  {
    if titled != [] {
      var n := Min(CHUNK, |titled|);
      RetitleAllLength(RetitleBatch(a, sub, titled[..n]), sub, titled[n..]);
    }
  }

  /** With no content known from the last check, every item is an addition. */
  lemma {:induction false} AllAreNew(items: seq<Item>, w: bool)
    ensures Additions(items, w, {}) == items
  {
    if items != [] {
      AllAreNew(items[..|items| - 1], w);
    }
  }

  function NewEntry(id: nat, sub: nat, item: Item): Entry {
    Entry(id, sub, item.content, item.title, ArchiveKey(item.content), item.content)
  }

  lemma {:induction false} RetitleAllDone(a: Archive, sub: nat, titled: seq<Item>)
    ensures RetitleAll(a, sub, titled).done == a.done
    decreases |titled|
  {
    if titled != [] {
      var n := Min(CHUNK, |titled|);
      RetitleAllDone(RetitleBatch(a, sub, titled[..n]), sub, titled[n..]);
    }
  }

  /** What makes an item plain: for a content that is a code, a title that names no other. */
  lemma PlainItemIs(item: Item, key: string)
    requires ArchiveKey(item.content) == Some(key)
    ensures PlainItem(item) <==> forall c :: c in ProductCodeKeys(TitleText(item.title)) ==> c == key
  {
    hide ArchiveKey, ProductCodeKeys, CodesOf;
    forall c ensures c in CodesOf(item.content, item.title)
        ==> c == key || c in ProductCodeKeys(TitleText(item.title)) {
      CodesSplit(item.content, item.title, c);
      if c in ProductCodeKeys(item.content) {
        OnlyOwnKey(item.content, key, c);
      }
    }
    forall c | c in ProductCodeKeys(TitleText(item.title)) ensures c in CodesOf(item.content, item.title) {
      CodesSplit(item.content, item.title, c);
    }
  }}
