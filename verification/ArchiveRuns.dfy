/**
  Every run of the archive's writers: checks and scan commits, one-click subscribes, resets, and the
  backfill of the code index, interrupted anywhere (server/capture.ts, server/archive-code-index.ts,
  server/routes/code-search.ts, server/routes/subscriptions.ts).
 */
module ArchiveRuns {
  import opened Options
  import opened ProductCodes
  import opened ArchiveLookup
  import opened ArchiveWrites
  import opened ArchiveItems
  import opened ArchiveInvariant
  import opened FullScan

  // --- The one-click subscribe ---

  function OneClickEntry(id: nat, sub: nat, code: string, title: Option<string>): Entry {
    Entry(id, sub, code, title, Some(LowerAll(code)), LowerAll(code))
  }

  function OneClickTx(a: Archive, sub: nat, code: string, title: Option<string>): Archive {
    var e := OneClickEntry(a.nextId, sub, code, title);
    a.(entries := a.entries + [e], nextId := a.nextId + 1, index := Reindexed(a.index, [e]))
  }

  /** When the lookup misses the code, the insert cannot violate the unique index either. */
  lemma OneClickNeverConflicts(a: Archive, target: Option<nat>, sub: nat, code: string)
    requires Valid(a, target) && NormalizeProductCode(code) == Some(code)
    requires !MustFind(a, sub, LowerAll(code))
    ensures !HashTaken(a.entries, sub, LowerAll(code))
    ensures forall i :: 0 <= i < |a.entries| ==> !Twins(a.entries[i], OneClickEntry(a.nextId, sub, code, None))
  {
    NormalizedKey(code, code);
    hide ArchiveKey, MustFind, LowerAll, NoTwins, IndexSound, OnlyOldMissing, NormalizeProductCode;
    var key := LowerAll(code);
    KeyOfKey(code, key);
    forall i | 0 <= i < |a.entries| && a.entries[i].sub == sub
      ensures a.entries[i].hashed != key && ArchiveKey(a.entries[i].content) != Some(key)
    {
      assert Hashing(a.entries[i]);
      if ArchiveKey(a.entries[i].content) == Some(key) {
        KeyMustBeFound(a, target, i, key);
      }
    }
  }

  lemma OneClickKeeps(a: Archive, target: Option<nat>, sub: nat, code: string, title: Option<string>)
    requires Valid(a, target) && NormalizeProductCode(code) == Some(code)
    requires !MustFind(a, sub, LowerAll(code))
    ensures Valid(OneClickTx(a, sub, code, title), target)
  {
    NormalizedKey(code, code);
    OneClickNeverConflicts(a, target, sub, code);
    hide MustFind, NormalizeProductCode;
    AppendOneClick(a, target, sub, code, title);
  }

  lemma AppendOneClick(a: Archive, target: Option<nat>, sub: nat, code: string, title: Option<string>)
    requires Valid(a, target) && ArchiveKey(code) == Some(LowerAll(code)) && !HashTaken(a.entries, sub, LowerAll(code))
    requires forall i :: 0 <= i < |a.entries| ==> !Twins(a.entries[i], OneClickEntry(a.nextId, sub, code, None))
    ensures Valid(OneClickTx(a, sub, code, title), target)
  {
    hide ArchiveKey, LowerAll, Reindexed, IndexSound, OnlyOldMissing, HashTaken;
    var e := OneClickEntry(a.nextId, sub, code, title);
    forall i | 0 <= i < |a.entries| ensures !Twins(a.entries[i], e) {
      assert !Twins(a.entries[i], OneClickEntry(a.nextId, sub, code, None));
    }
    hide NoTwins, UniqueHashes, Ordered, Twins;
    AppendKeeps(a.entries, a.nextId, e);
    AddIndexed(a, target, [e], OneClickTx(a, sub, code, title));
  }

  // --- The archive reset ---

  function WithoutSub(entries: seq<Entry>, sub: nat): (r: seq<Entry>)
    ensures forall e :: e in r <==> e in entries && e.sub != sub
  {
    if entries == [] then []
    else
      var init, last := entries[..|entries| - 1], entries[|entries| - 1];
      assert entries == init + [last];
      WithoutSub(init, sub) + if last.sub == sub then [] else [last]
  }

  function ResetTx(a: Archive, sub: nat): Archive {
    a.(entries := WithoutSub(a.entries, sub), index := set alias | alias in a.index && alias.sub != sub)
  }

  lemma {:induction false} WithoutSubInOrder(entries: seq<Entry>, sub: nat, i: nat, j: nat) returns (k: nat, l: nat)
    requires i < j < |WithoutSub(entries, sub)|
    ensures k < l < |entries| && entries[k] == WithoutSub(entries, sub)[i] && entries[l] == WithoutSub(entries, sub)[j]
  {
    var init := entries[..|entries| - 1];
    if j < |WithoutSub(init, sub)| {
      k, l := WithoutSubInOrder(init, sub, i, j);
    } else {
      assert WithoutSub(init, sub)[i] in init;
      k :| 0 <= k < |init| && init[k] == WithoutSub(init, sub)[i];
      l := |entries| - 1;
    }
  }

  /** Deleting rows keeps every relation that holds between any two of them. */
  lemma WithoutSubKeeps(entries: seq<Entry>, nextId: nat, sub: nat)
    requires Ordered(entries, nextId) && NoTwins(entries) && UniqueHashes(entries)
    ensures var r := WithoutSub(entries, sub); Ordered(r, nextId) && NoTwins(r) && UniqueHashes(r)
  {
    hide Twins, Hashing, WithoutSub;
    var r := WithoutSub(entries, sub);
    forall i, j | 0 <= i < j < |r|
      ensures r[i].id < r[j].id && !Twins(r[i], r[j]) && (r[i].sub == r[j].sub ==> r[i].hashed != r[j].hashed)
    {
      var k, l := WithoutSubInOrder(entries, sub, i, j);
    }
    forall i | 0 <= i < |r| ensures r[i].id < nextId && Hashing(r[i]) {
      assert r[i] in entries;
    }
  }

  lemma ResetKeeps(a: Archive, target: Option<nat>, sub: nat)
    requires Valid(a, target)
    ensures Valid(ResetTx(a, sub), target)
  {
    var b := ResetTx(a, sub);
    WithoutSubKeeps(a.entries, a.nextId, sub);
    hide Carries, NoTwins, UniqueHashes, Ordered;
    forall alias | alias in b.index ensures Vouched(b.entries, alias) {
      var i :| 0 <= i < |a.entries| && Owns(a.entries[i], alias);
      assert a.entries[i] in b.entries;
    }
    forall i | 0 <= i < |b.entries| ensures Indexed(b.index, b.entries[i]) || Awaits(b, target, b.entries[i].id) {
      assert b.entries[i] in a.entries;
      var k :| 0 <= k < |a.entries| && a.entries[k] == b.entries[i];
    }
  }

  // --- The backfill ---

  /** WHERE id > cursor AND id <= target ORDER BY id ASC LIMIT. */
  function OldRows(entries: seq<Entry>, cursor: nat, target: nat, limit: nat): seq<Entry> {
    if entries == [] || limit == 0 then []
    else if cursor < entries[0].id <= target then [entries[0]] + OldRows(entries[1..], cursor, target, limit - 1)
    else OldRows(entries[1..], cursor, target, limit)
  }

  function MaxId(entries: seq<Entry>): nat { if entries == [] then 0 else entries[|entries| - 1].id }

  function PageEnd(rows: seq<Entry>, target: nat): nat { if rows == [] then target else rows[|rows| - 1].id }

  function BackfillPageTx(a: Archive, target: nat): Archive {
    var rows := OldRows(a.entries, a.cursor, target, CHUNK);
    a.(index := Reindexed(a.index, rows), cursor := PageEnd(rows, target))
  }

  lemma {:induction false} OldRowIs(entries: seq<Entry>, cursor: nat, target: nat, limit: nat, i: nat) returns (k: nat)
    requires i < |OldRows(entries, cursor, target, limit)|
    ensures k < |entries| && entries[k] == OldRows(entries, cursor, target, limit)[i]
        && cursor < entries[k].id <= target
  {
    if !(cursor < entries[0].id <= target) {
      k := OldRowIs(entries[1..], cursor, target, limit, i);
      k := k + 1;
    } else if i == 0 {
      k := 0;
    } else {
      k := OldRowIs(entries[1..], cursor, target, limit - 1, i - 1);
      k := k + 1;
    }
  }

  lemma {:induction false} OldRowsDistinct(entries: seq<Entry>, nextId: nat, cursor: nat, target: nat, limit: nat)
    requires Ordered(entries, nextId)
    ensures DistinctIds(OldRows(entries, cursor, target, limit))
  {
    if entries != [] && limit != 0 {
      if !(cursor < entries[0].id <= target) {
        OldRowsDistinct(entries[1..], nextId, cursor, target, limit);
      } else {
        OldRowsDistinct(entries[1..], nextId, cursor, target, limit - 1);
        var rest := OldRows(entries[1..], cursor, target, limit - 1);
        forall i | 0 <= i < |rest| ensures entries[0].id != rest[i].id {
          var k := OldRowIs(entries[1..], cursor, target, limit - 1, i);
        }
      }
    }
  }

  lemma {:induction false} OldRowsCover(entries: seq<Entry>, nextId: nat, cursor: nat, target: nat, limit: nat,
      e: Entry)
    requires Ordered(entries, nextId) && 0 < limit && e in entries && cursor < e.id <= target
    ensures var rows := OldRows(entries, cursor, target, limit); rows != [] && (e in rows || rows[|rows| - 1].id < e.id)
  {
    var rest := entries[1..];
    assert entries == [entries[0]] + rest;
    if !(cursor < entries[0].id <= target) {
      OldRowsCover(rest, nextId, cursor, target, limit, e);
    } else if e != entries[0] && 1 < limit {
      OldRowsCover(rest, nextId, cursor, target, limit - 1, e);
    }
  }

  /** A page moves the cursor forward and leaves no row at or below it missing. */
  lemma BackfillPageKeeps(a: Archive, target: nat)
    requires Valid(a, Some(target)) && a.cursor < target
    ensures var b := BackfillPageTx(a, target); Valid(b, Some(target)) && a.cursor < b.cursor <= target
  {
    hide NoTwins, UniqueHashes, Indexed, Reindexed, Owns, Vouched, OldRows, HasId;
    var rows, b := OldRows(a.entries, a.cursor, target, CHUNK), BackfillPageTx(a, target);
    forall i | 0 <= i < |rows| ensures rows[i] in a.entries && a.cursor < rows[i].id <= target {
      var k := OldRowIs(a.entries, a.cursor, target, CHUNK, i);
    }
    ReindexSound(a.index, a.entries, rows, a.entries);
    forall i | 0 <= i < |a.entries| ensures Indexed(b.index, a.entries[i]) || Awaits(b, Some(target), a.entries[i].id) {
      PageIndexes(a, target, i);
    }
  }

  lemma NotAmongOldRows(entries: seq<Entry>, nextId: nat, cursor: nat, target: nat, limit: nat, e: Entry)
    requires Ordered(entries, nextId) && e in entries && e !in OldRows(entries, cursor, target, limit)
    ensures !HasId(OldRows(entries, cursor, target, limit), e.id)
  {
    hide OldRows;
    var rows := OldRows(entries, cursor, target, limit);
    var i :| 0 <= i < |entries| && entries[i] == e;
    forall j | 0 <= j < |rows| ensures rows[j].id != e.id {
      var k := OldRowIs(entries, cursor, target, limit, j);
      assert k != i;
    }
  }

  lemma PageIndexes(a: Archive, target: nat, i: nat)
    requires Ordered(a.entries, a.nextId) && OnlyOldMissing(a, Some(target)) && a.cursor < target && i < |a.entries|
    ensures var b := BackfillPageTx(a, target);
        Indexed(b.index, a.entries[i]) || Awaits(b, Some(target), a.entries[i].id)
  {
    hide Indexed, Reindexed, OldRows;
    var rows, e := OldRows(a.entries, a.cursor, target, CHUNK), a.entries[i];
    if e in rows {
      ReindexCovers(a.index, rows, e);
    } else {
      NotAmongOldRows(a.entries, a.nextId, a.cursor, target, CHUNK, e);
      if Indexed(a.index, e) {
        ReindexCovers(a.index, rows, e);
      } else {
        OldRowsCover(a.entries, a.nextId, a.cursor, target, CHUNK, e);
      }
    }
  }

  lemma StartKeeps(a: Archive)
    requires Valid(a, None)
    ensures Valid(a, Some(MaxId(a.entries)))
  {
    hide Indexed, NoTwins, UniqueHashes, IndexSound;
    forall i | 0 <= i < |a.entries|
      ensures Indexed(a.index, a.entries[i]) || Awaits(a, Some(MaxId(a.entries)), a.entries[i].id)
    {
      assert i < |a.entries| - 1 ==> a.entries[i].id < a.entries[|a.entries| - 1].id;
    }
  }

  /** Past the target every row is indexed, so the flag may be set. */
  lemma FinishKeeps(a: Archive, target: nat)
    requires Valid(a, Some(target)) && target <= a.cursor
    ensures Valid(a.(done := true), None)
  {
    hide Indexed, NoTwins, UniqueHashes, Vouched;
    forall i | 0 <= i < |a.entries| ensures Indexed(a.index, a.entries[i]) {
      assert Indexed(a.index, a.entries[i]) || Awaits(a, Some(target), a.entries[i].id);
    }
  }

  lemma ForgetTarget(a: Archive, target: Option<nat>)
    requires Valid(a, target)
    ensures Valid(a, None)
  {
    hide Indexed, NoTwins, UniqueHashes, IndexSound, Ordered;
  }

  // --- Runs ---

  /** `target` is held in memory by a running backfill; a crash forgets it. */
  datatype State = State(archive: Archive, target: Option<nat>)

  datatype Step =
    | Check(sub: nat, items: seq<Item>, wasEmpty: bool, previous: set<string>, existing: set<string>)
    | OneClick(sub: nat, code: string, title: Option<string>, found: bool)
    | Reset(sub: nat)
    | StartBackfill
    | BackfillPage
    | FinishBackfill
    | Crash

  ghost predicate Enabled(s: State, step: Step) {
    var a := s.archive;
    match step
    case Check(sub, items, wasEmpty, previous, existing) =>
      LookupAllows(a, sub, CandidateCodes(Additions(UniqueItems(items), wasEmpty, previous)), existing)
    case OneClick(sub, code, _, found) =>
      NormalizeProductCode(code) == Some(code) && (MustFind(a, sub, LowerAll(code)) ==> found)
    case Reset(_) => true
    case StartBackfill => !a.done && s.target.None?
    case BackfillPage => s.target.Some? && a.cursor < s.target.value
    case FinishBackfill => s.target.Some? && s.target.value <= a.cursor
    case Crash => true
  }

  function Next(s: State, step: Step): State {
    var a := s.archive;
    match step
    case Check(sub, items, wasEmpty, previous,
        existing) => s.(archive := ArchiveTx(a, sub, items, wasEmpty, previous, existing))
    case OneClick(sub, code, title, found) => if found then s else s.(archive := OneClickTx(a, sub, code, title))
    case Reset(sub) => s.(archive := ResetTx(a, sub))
    case StartBackfill => s.(target := Some(MaxId(a.entries)))
    case BackfillPage => if s.target.Some? then s.(archive := BackfillPageTx(a, s.target.value)) else s
    case FinishBackfill => State(a.(done := true), None)
    case Crash => s.(target := None)
  }

  ghost predicate Steps(s: State, run: seq<Step>)
    decreases |run|
  {
    run == [] || (Enabled(s, run[0]) && Steps(Next(s, run[0]), run[1..]))
  }

  function After(s: State, run: seq<Step>): State
    decreases |run|
  {
    if run == [] then s else After(Next(s, run[0]), run[1..])
  }

  lemma StepKeeps(s: State, step: Step)
    requires Valid(s.archive, s.target) && Enabled(s, step)
    ensures Valid(Next(s, step).archive, Next(s, step).target)
  {
    hide Valid, ArchiveTx, OneClickTx, ResetTx, BackfillPageTx, LookupAllows, MustFind;
    match step
    case Check(sub, items, wasEmpty, previous, existing) => ArchiveTxKeeps(s.archive, s.target, sub, items, wasEmpty,
        previous, existing);
    case OneClick(sub, code, title, found) =>
      if !found {
        OneClickKeeps(s.archive, s.target, sub, code, title);
      }
    case Reset(sub) => ResetKeeps(s.archive, s.target, sub);
    case StartBackfill => StartKeeps(s.archive);
    case BackfillPage => BackfillPageKeeps(s.archive, s.target.value);
    case FinishBackfill => FinishKeeps(s.archive, s.target.value);
    case Crash => ForgetTarget(s.archive, s.target);
  }

  /** From any valid archive, however little of it is indexed, no run makes two entries share a code. */
  lemma {:induction false} RunKeeps(s: State, run: seq<Step>)
    requires Valid(s.archive, s.target) && Steps(s, run)
    ensures Valid(After(s, run).archive, After(s, run).target)
    decreases |run|
  {
    hide Valid, Enabled, Next;
    if run != [] {
      StepKeeps(s, run[0]);
      RunKeeps(Next(s, run[0]), run[1..]);
    }
  }

  /** An archive from before the index existed is a valid start: nothing indexed, no code held twice. */
  lemma LegacyIsValid(entries: seq<Entry>, nextId: nat)
    requires Ordered(entries, nextId) && NoTwins(entries) && UniqueHashes(entries)
    requires forall i :: 0 <= i < |entries| ==> 0 < entries[i].id
    ensures Valid(Archive(entries, {}, nextId, 0, false), None)
  {
    hide NoTwins, UniqueHashes, Indexed;
  }

  /** Every entry that ever carries a product code as its content is alone with it in its subscription. */
  lemma OneEntryPerCode(s: State, run: seq<Step>, e: Entry, f: Entry)
    requires Valid(s.archive, s.target) && Steps(s, run)
    requires e in After(s, run).archive.entries && f in After(s, run).archive.entries && e.sub == f.sub
    requires ArchiveKey(e.content).Some? && ArchiveKey(e.content) == ArchiveKey(f.content)
    ensures e == f
  {
    RunKeeps(s, run);
    hide After, Steps;
    SameCodeSameRow(After(s, run).archive.entries, e, f);
  }

  lemma SameCodeSameRow(entries: seq<Entry>, e: Entry, f: Entry)
    requires NoTwins(entries) && e in entries && f in entries && Twins(e, f)
    ensures e == f
  {
    hide ArchiveKey;
    var i :| 0 <= i < |entries| && entries[i] == e;
    var j :| 0 <= j < |entries| && entries[j] == f;
    TwinsAreOne(entries, i, j);
  }

  lemma TwinsAreOne(entries: seq<Entry>, i: nat, j: nat)
    requires NoTwins(entries) && i < |entries| && j < |entries|
    ensures Twins(entries[i], entries[j]) ==> i == j
  {
    hide ArchiveKey;
  }

  // --- What a lookup means in a valid archive ---

  lemma FoundIsCarried(a: Archive, sub: nat, codes: seq<string>, m: Match)
    requires IndexSound(a) && IsFound(a, sub, codes, m)
    ensures m.code in codes && RowCarries(a, sub, m)
  {
    hide Carries;
    if IndexHas(a, sub, codes, m) {
      assert Vouched(a.entries, Alias(m.id, sub, m.code));
      var i :| 0 <= i < |a.entries| && Owns(a.entries[i], Alias(m.id, sub, m.code));
      assert a.entries[i] in a.entries;
    }
  }

  /** Once the backfill is done, the index holds exactly the codes that the rows carry. */
  lemma IndexIsExact(a: Archive, sub: nat, codes: seq<string>, m: Match)
    requires Valid(a, None) && a.done
    ensures IndexHas(a, sub, codes, m) <==> m.code in codes && RowCarries(a, sub, m)
  {
    hide Carries, NoTwins, UniqueHashes, IndexSound;
    if IndexHas(a, sub, codes, m) {
      FoundIsCarried(a, sub, codes, m);
    }
    if m.code in codes && RowCarries(a, sub, m) {
      var e :| e in a.entries && e.sub == sub && e.id == m.id && Carries(e, m.code);
      var i :| 0 <= i < |a.entries| && a.entries[i] == e;
      assert Indexed(a.index, a.entries[i]);
    }
  }

  /** Before that, a full lookup is exact for every code its row writes with at most one separator. */
  lemma PlainlyWrittenIsReached(a: Archive, sub: nat, codes: seq<string>, e: Entry, before: string, code: Code,
      after: string)
    requires e in a.entries && e.sub == sub && code.Valid() && code.Key() in codes && Carries(e, code.Key())
    requires e.content == before + code.Text() + after || e.title == Some(before + code.Text() + after)
    ensures Reached(a, sub, codes, Match(e.id, code.Key()))
  {
    SingleSeparatorPasses(before, code, after);
    var k := code.Key();
    hide Carries, LowerAll, MatchesSome, SearchPatterns, PatternsOf;
    assert Selected(e, SearchPatterns(k));
    WithinSome(e, sub, codes, k);
    assert Supplies(e, codes, Match(e.id, k));
  }

  /** The exact limit of the lookup before the backfill is done: indexed, or carried by a row some pattern selects. */
  lemma ReachedExactly(a: Archive, sub: nat, codes: seq<string>, m: Match)
    requires Ordered(a.entries, a.nextId)
    ensures Reached(a, sub, codes, m) <==>
            m.code in codes && (Alias(m.id, sub, m.code) in a.index
              || exists e, c ::
                   e in a.entries && e.id == m.id && e.sub == sub && Carries(e, m.code) && c in codes
                       && Selected(e, SearchPatterns(c)))
  {
    hide Carries, SearchPatterns, PatternsOf, Selected;
    if LegacyHas(a, sub, PatternsOf(codes), codes, 0, m) {
      var e :| e in a.entries && Within(e, sub, None, PatternsOf(codes)) && 0 <= e.id && Supplies(e, codes, m);
      var c := SelectedBySome(e, codes);
    }
    if e, c :| e in a.entries && e.id == m.id && e.sub == sub && Carries(e, m.code) && c in codes
               && Selected(e, SearchPatterns(c)) {
      if m.code in codes {
        WithinSome(e, sub, codes, c);
        assert Supplies(e, codes, m);
      }
    }
  }

  lemma SelectedBySome(e: Entry, codes: seq<string>) returns (c: string)
    requires Selected(e, PatternsOf(codes))
    ensures c in codes && Selected(e, SearchPatterns(c))
  {
    hide LowerAll, SearchPatterns;
    if MatchesSome(PatternsOf(codes), LowerAll(e.content)) {
      c := MatchedBySome(codes, LowerAll(e.content));
    } else {
      c := MatchedBySome(codes, LowerAll(TitleText(e.title)));
    }
  }

  lemma {:induction false} MatchedBySome(codes: seq<string>, t: string) returns (c: string)
    requires MatchesSome(PatternsOf(codes), t)
    ensures c in codes && MatchesSome(SearchPatterns(c), t)
  {
    hide SearchPatterns, Like;
    c := "";
    if codes != [] {
      var head, rest := SearchPatterns(codes[0]), PatternsOf(codes[1..]);
      var i :| 0 <= i < |head + rest| && Like((head + rest)[i], t);
      if i < |head| {
        c := codes[0];
      } else {
        assert rest[i - |head|] == (head + rest)[i];
        c := MatchedBySome(codes[1..], t);
      }
    }
  }

  /** The row of `WideGapUnreached`. */
  function GapEntry(prefix: string, gap: string, number: string): Entry {
    Entry(1, 7, prefix + gap + number, None, None, prefix + gap + number)
  }

  /**
    A row the patterns cannot see: two blanks inside its code, not yet indexed. The row carries the code; no
    lookup of that code finds it.
   */
  lemma WideGapUnreached(prefix: string, gap: string, number: string)
    requires Code(prefix, "-", number).Valid()
    requires |gap| >= 2 && forall i :: 0 <= i < |gap| ==> IsBlank(gap[i])
    ensures var k, a := Code(prefix, "-", number).Key(), Archive([GapEntry(prefix, gap, number)], {}, 2, 0, false);
            Valid(a, None) && RowCarries(a, 7, Match(1, k)) && !Reached(a, 7, [k], Match(1, k))
  {
    var k, e := Code(prefix, "-", number).Key(), GapEntry(prefix, gap, number);
    WideGapMissed(prefix, gap, number);
    CarriesContent(e, k);
    NothingInEmpty(Code(prefix, "-", number));
    hide Carries, SearchPatterns, MatchesSome, LowerAll, Valid, ProductCodeKeys, IsBlank;
    OneOldRow(e, k);
  }

  lemma OneOldRow(e: Entry, k: string)
    requires e.id == 1 && e.sub == 7 && e.hashed == e.content && Carries(e, k) && !Selected(e, SearchPatterns(k))
    ensures var a := Archive([e], {}, 2, 0, false);
            Valid(a, None) && RowCarries(a, 7, Match(1, k)) && !Reached(a, 7, [k], Match(1, k))
  {
    hide Carries, Selected, SearchPatterns, ArchiveKey;
    var a := Archive([e], {}, 2, 0, false);
    LegacyIsValid([e], 2);
    hide Valid;
    assert e in a.entries;
    ReachedExactly(a, 7, [k], Match(1, k));
    hide Reached;
    assert forall x :: x in a.entries ==> x == e;
  }

  lemma CarriesContent(e: Entry, k: string)
    requires k in ProductCodeKeys(e.content)
    ensures Carries(e, k)
  {
    hide ProductCodeKeys;
  }

  /** No pattern of a code matches the empty title. */
  lemma NothingInEmpty(code: Code)
    requires code.Valid()
    ensures !MatchesSome(SearchPatterns(code.Key()), LowerAll(""))
  {
    assert LowerAll("") == "";
    PatternsExact(code, "");
  }

  // --- What a check is for: everything it brings ends up archived ---

  lemma {:induction false} RetitleAllUntitled(a: Archive, sub: nat, titled: seq<Item>)
    ensures Untitled(RetitleAll(a, sub, titled).entries) == Untitled(a.entries)
    decreases |titled|
  {
    hide Retitled;
    if titled != [] {
      var n := Min(CHUNK, |titled|);
      RetitleAllUntitled(RetitleBatch(a, sub, titled[..n]), sub, titled[n..]);
      assert Untitled(RetitledRows(a.entries, sub, titled[..n])) == Untitled(a.entries);
    }
  }

  /** The item needs no insert any more: its digest is taken or its code is known. */
  predicate Settled(p: Pass, sub: nat, item: Item) {
    HashTaken(p.entries, sub, item.content)
        || (ArchiveKey(item.content).Some? && ArchiveKey(item.content).value in p.existing)
  }

  /** Every code known was reported by the lookups or is the key of a row. */
  ghost predicate Explained(p: Pass, sub: nat, reported: set<string>) {
    && AllHashing(p.entries)
    && (forall k :: k in p.existing ==> k in reported || KeyHeld(p.entries, sub, k))
  }

  lemma HashTakenAppend(entries: seq<Entry>, e: Entry, sub: nat, text: string)
    ensures HashTaken(entries + [e], sub, text) <==> HashTaken(entries, sub, text) || (e.sub == sub && e.hashed == text)
  {
    var r := entries + [e];
    if HashTaken(entries, sub, text) {
      var i :| 0 <= i < |entries| && entries[i].sub == sub && entries[i].hashed == text;
      assert r[i] == entries[i];
    }
    assert r[|entries|] == e;
  }

  lemma InsertOneSettles(p: Pass, sub: nat, item: Item, other: Item)
    ensures var q := InsertOne(p, sub, item);
        Settled(q, sub, item) && (Settled(p, sub, other) ==> Settled(q, sub, other))
  {
    hide ArchiveKey, HashTaken;
    var q := InsertOne(p, sub, item);
    if q.entries != p.entries {
      HashTakenAppend(p.entries, q.entries[|p.entries|], sub, item.content);
      HashTakenAppend(p.entries, q.entries[|p.entries|], sub, other.content);
    }
  }

  lemma {:induction false} InsertAllSettles(p: Pass, sub: nat, items: seq<Item>, i: nat)
    requires i < |items|
    ensures Settled(InsertAll(p, sub, items), sub, items[i])
  {
    hide InsertOne, Settled;
    var init := items[..|items| - 1];
    if i < |init| {
      InsertAllSettles(p, sub, init, i);
    }
    InsertOneSettles(InsertAll(p, sub, init), sub, items[|items| - 1], items[i]);
  }

  lemma InsertOneExplains(p: Pass, sub: nat, item: Item, reported: set<string>)
    requires Explained(p, sub, reported)
    ensures Explained(InsertOne(p, sub, item), sub, reported)
  {
    hide ArchiveKey, HashTaken, KeyHeld;
    var key, q := ArchiveKey(item.content), InsertOne(p, sub, item);
    if key.Some? && HashTaken(p.entries, sub, item.content) {
      HashTakenHoldsKey(p.entries, sub, item.content, key.value);
    }
    if q.entries != p.entries {
      forall k | k in q.existing ensures k in reported || KeyHeld(q.entries, sub, k) {
        KeyHeldAppend(p.entries, q.entries[|p.entries|], sub, k);
      }
    }
  }

  lemma {:induction false} InsertAllExplains(p: Pass, sub: nat, items: seq<Item>, reported: set<string>)
    requires Explained(p, sub, reported)
    ensures Explained(InsertAll(p, sub, items), sub, reported)
  {
    hide InsertOne, Explained;
    if items != [] {
      InsertAllExplains(p, sub, items[..|items| - 1], reported);
      InsertOneExplains(InsertAll(p, sub, items[..|items| - 1]), sub, items[|items| - 1], reported);
    }
  }

  /**
    A call loses nothing it was given: afterwards some row has the digest of each new item, or its
    product code as key, unless a row carried that code when the call began.
   */
  lemma EveryAdditionArchived(a: Archive, target: Option<nat>, sub: nat, items: seq<Item>, wasEmpty: bool,
      previous: set<string>,
                              existing: set<string>, i: nat)
    requires Valid(a, target)
    requires var additions := Additions(UniqueItems(items), wasEmpty, previous);
             LookupAllows(a, sub, CandidateCodes(additions), existing) && i < |additions|
    ensures var b, content := ArchiveTx(a, sub, items, wasEmpty, previous, existing),
        Additions(UniqueItems(items), wasEmpty, previous)[i].content;
            var key := ArchiveKey(content);
            || HashTaken(b.entries, sub, content)
            || (key.Some? && (KeyHeld(b.entries, sub, key.value)
                 || exists id :: RowCarries(a, sub, Match(id, key.value))))
  {
    var current := UniqueItems(items);
    var additions := Additions(current, wasEmpty, previous);
    var start := Pass(a.entries, a.nextId, existing, []);
    InsertAllSettles(start, sub, additions, i);
    InsertAllExplains(start, sub, additions, existing);
    hide InsertAll, UniqueItems, Additions, CandidateCodes, HashTaken, KeyHeld, ArchiveKey, Reindexed, RetitleAll,
        Titled, NoTwins, UniqueHashes;
    var p, content := InsertAll(start, sub, additions), additions[i].content;
    var b := a.(entries := p.entries, nextId := p.nextId, index := Reindexed(a.index, p.added));
    RetitleAllUntitled(b, sub, Titled(current));
    SameUntitled(b.entries, RetitleAll(b, sub, Titled(current)).entries, sub, content);
    var key := ArchiveKey(content);
    if key.Some? {
      SameUntitled(b.entries, RetitleAll(b, sub, Titled(current)).entries, sub, key.value);
      if key.value in existing {
        ReportedIsCarried(a, sub, key.value);
      }
    }
  }

  lemma SameUntitled(before: seq<Entry>, after: seq<Entry>, sub: nat, text: string)
    requires Untitled(before) == Untitled(after)
    ensures HashTaken(before, sub, text) <==> HashTaken(after, sub, text)
    ensures KeyHeld(before, sub, text) <==> KeyHeld(after, sub, text)
  {
    UntitledSame(before, sub, text);
    UntitledSame(after, sub, text);
  }

  lemma ReportedIsCarried(a: Archive, sub: nat, k: string)
    requires IndexSound(a) && MayFind(a, sub, k)
    ensures exists id :: RowCarries(a, sub, Match(id, k))
  {
    var id :| Alias(id, sub, k) in a.index || RowCarries(a, sub, Match(id, k));
    if Alias(id, sub, k) in a.index {
      assert IndexHas(a, sub, [k], Match(id, k));
      FoundIsCarried(a, sub, [k], Match(id, k));
    }
  }
}
