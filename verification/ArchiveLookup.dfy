/**
  The product-code index of the archive and the scan it speeds up (server/archive-code-index.ts).

  Every writer keeps the index current for the rows it touches; a backfill indexes older rows a
  page at a time. Until it is done, a lookup also reads the rows the LIKE patterns select.
 */
module ArchiveLookup {
  import opened Options
  import opened ProductCodes

  /** `hashed` is the text whose digest the row carries: digests are taken to be injective. */
  datatype Entry = Entry(id: nat, sub: nat, content: string, title: Option<string>, code: Option<string>,
      hashed: string)
  datatype Alias = Alias(id: nat, sub: nat, code: string)
  datatype Match = Match(id: nat, code: string)

  datatype Archive = Archive(entries: seq<Entry>, index: set<Alias>, nextId: nat, cursor: nat, done: bool)

  function TitleText(title: Option<string>): string { if title.Some? then title.value else "" }

  /** The codes of a row: those in its content, then those its title adds. */
  function CodesOf(content: string, title: Option<string>): seq<string> {
    Distinct(ProductCodeKeys(content) + ProductCodeKeys(TitleText(title)))
  }

  predicate Carries(e: Entry, code: string) { code in CodesOf(e.content, e.title) }

  /** A code with this key stands in the text. */
  ghost predicate HoldsKey(text: string, key: string) {
    exists j, code :: CodeStandsAt(Decode(text), j, code) && code.Key() == key
  }

  /** A row carries exactly the codes that stand in its content or in its title. */
  lemma CarriesExact(e: Entry, key: string)
    ensures Carries(e, key) <==> HoldsKey(e.content, key) || (e.title.Some? && HoldsKey(e.title.value, key))
  {
    KeysExact(e.content, key);
    KeysExact(TitleText(e.title), key);
    NothingInEmpty(key);
    hide Decode, ProductCodeKeys, CodeStandsAt;
  }

  lemma NothingInEmpty(key: string)
    ensures !HoldsKey("", key)
  {
    assert Decode("") == "";
    forall j, code ensures !CodeStandsAt("", j, code) {
      assert code.Valid() ==> |code.Text()| >= 4;
    }
  }

  /** Ids grow in the order of insertion and are never reused. */
  predicate Ordered(entries: seq<Entry>, nextId: nat) {
    && (forall i, j :: 0 <= i < j < |entries| ==> entries[i].id < entries[j].id)
    && (forall i :: 0 <= i < |entries| ==> entries[i].id < nextId)
  }

  // --- The requested codes ---

  function DropEmpty(codes: seq<string>): (r: seq<string>)
    ensures forall c :: c in r <==> c in codes && c != ""
  {
    if codes == [] then []
    else (if codes[0] == "" then [] else [codes[0]]) + DropEmpty(codes[1..])
  }

  function Requested(codes: seq<string>): (r: seq<string>)
    ensures forall c :: c in r <==> c in codes && c != ""
  {
    DropEmpty(Distinct(codes))
  }

  predicate Mentioned(matches: seq<Match>, code: string) {
    exists i :: 0 <= i < |matches| && matches[i].code == code
  }

  predicate AllMentioned(matches: seq<Match>, codes: seq<string>) {
    forall i :: 0 <= i < |codes| ==> Mentioned(matches, codes[i])
  }

  function Unmentioned(codes: seq<string>, matches: seq<Match>): (r: seq<string>)
    ensures forall c :: c in r <==> c in codes && !Mentioned(matches, c)
  {
    if codes == [] then []
    else (if Mentioned(matches, codes[0]) then [] else [codes[0]]) + Unmentioned(codes[1..], matches)
  }

  // --- The rows a LIKE clause selects, a page at a time from the newest ---

  function PatternsOf(codes: seq<string>): seq<string> {
    if codes == [] then [] else SearchPatterns(codes[0]) + PatternsOf(codes[1..])
  }

  predicate Selected(e: Entry, patterns: seq<string>) {
    MatchesSome(patterns, LowerAll(e.content)) || MatchesSome(patterns, LowerAll(TitleText(e.title)))
  }

  predicate Within(e: Entry, sub: nat, before: Option<nat>, patterns: seq<string>) {
    e.sub == sub && (before.Some? ==> e.id < before.value) && Selected(e, patterns)
  }

  const LEGACY_PAGE := 200

  /** WHERE … ORDER BY id DESC LIMIT, over a table kept in the order of ids. */
  function LegacyPage(entries: seq<Entry>, sub: nat, before: Option<nat>, patterns: seq<string>,
      limit: nat): (page: seq<Entry>)
    ensures |page| <= limit
  {
    if entries == [] || limit == 0 then []
    else
      var init, last := entries[..|entries| - 1], entries[|entries| - 1];
      if Within(last, sub, before, patterns) then [last] + LegacyPage(init, sub, before, patterns, limit - 1)
      else LegacyPage(init, sub, before, patterns, limit)
  }

  /** A page holds selected rows only. */
  lemma {:induction false} PageSound(entries: seq<Entry>, sub: nat, before: Option<nat>, patterns: seq<string>,
      limit: nat, e: Entry)
    requires e in LegacyPage(entries, sub, before, patterns, limit)
    ensures e in entries && Within(e, sub, before, patterns)
  {
    hide Within;
    var init, last := entries[..|entries| - 1], entries[|entries| - 1];
    assert entries == init + [last];
    if !Within(last, sub, before, patterns) {
      PageSound(init, sub, before, patterns, limit, e);
    } else if e != last {
      PageSound(init, sub, before, patterns, limit - 1, e);
    }
  }

  /** The newest row comes first. */
  lemma {:induction false} PageDescends(entries: seq<Entry>, nextId: nat, sub: nat, before: Option<nat>,
      patterns: seq<string>, limit: nat, i: nat, j: nat)
    requires Ordered(entries, nextId)
    requires i < j < |LegacyPage(entries, sub, before, patterns, limit)|
    ensures var page := LegacyPage(entries, sub, before, patterns, limit); page[j].id < page[i].id
  {
    hide Within;
    var init, last := entries[..|entries| - 1], entries[|entries| - 1];
    if !Within(last, sub, before, patterns) {
      PageDescends(init, nextId, sub, before, patterns, limit, i, j);
    } else if 0 < i {
      PageDescends(init, nextId, sub, before, patterns, limit - 1, i - 1, j - 1);
    } else {
      var rest := LegacyPage(init, sub, before, patterns, limit - 1);
      PageSound(init, sub, before, patterns, limit - 1, rest[j - 1]);
    }
  }

  /** A page skips no selected row above its last id; a short page skips none at all. */
  lemma {:induction false} PageCovers(entries: seq<Entry>, nextId: nat, sub: nat, before: Option<nat>,
      patterns: seq<string>, limit: nat, e: Entry)
    requires Ordered(entries, nextId) && 0 < limit
    requires e in entries && Within(e, sub, before, patterns)
    ensures var page := LegacyPage(entries, sub, before, patterns, limit);
            e in page || (|page| == limit && e.id < page[limit - 1].id)
  {
    hide Within;
    var init, last := entries[..|entries| - 1], entries[|entries| - 1];
    assert entries == init + [last];
    if !Within(last, sub, before, patterns) {
      PageCovers(init, nextId, sub, before, patterns, limit, e);
    } else if e != last && 1 < limit {
      PageCovers(init, nextId, sub, before, patterns, limit - 1, e);
    }
  }

  /** Where the next page starts: below the last id of a full page, nowhere after a short one. */
  function NextBound(page: seq<Entry>, limit: nat): nat
    requires 0 < limit
  {
    if |page| < limit then 0 else page[|page| - 1].id
  }

  function BoundOf(a: Archive, before: Option<nat>): nat { if before.Some? then before.value else a.nextId }

  /** A page is exactly the selected rows between its bounds. */
  lemma PageIsSlice(a: Archive, sub: nat, before: Option<nat>, patterns: seq<string>, limit: nat, e: Entry)
    requires Ordered(a.entries, a.nextId) && 0 < limit && BoundOf(a, before) <= a.nextId
    requires e in a.entries
    ensures var page := LegacyPage(a.entries, sub, before, patterns, limit);
            e in page <==> Within(e, sub, None, patterns) && NextBound(page, limit) <= e.id < BoundOf(a, before)
  {
    hide LegacyPage, Selected;
    var page := LegacyPage(a.entries, sub, before, patterns, limit);
    if e in page {
      PageSound(a.entries, sub, before, patterns, limit, e);
      var i :| 0 <= i < |page| && page[i] == e;
      if i < |page| - 1 {
        PageDescends(a.entries, a.nextId, sub, before, patterns, limit, i, |page| - 1);
      }
    }
    if Within(e, sub, before, patterns) {
      PageCovers(a.entries, a.nextId, sub, before, patterns, limit, e);
    }
  }

  // --- The lookup ---

  ghost predicate NoRepeats(matches: seq<Match>) {
    forall i, j :: 0 <= i < j < |matches| ==> matches[i] != matches[j]
  }

  predicate IndexHas(a: Archive, sub: nat, codes: seq<string>, m: Match) {
    m.code in codes && Alias(m.id, sub, m.code) in a.index
  }

  predicate Supplies(e: Entry, codes: seq<string>, m: Match) {
    e.id == m.id && m.code in codes && Carries(e, m.code)
  }

  predicate RowsHave(rows: seq<Entry>, codes: seq<string>, m: Match) {
    exists i :: 0 <= i < |rows| && Supplies(rows[i], codes, m)
  }

  /** A row at or above `bound` that passes the patterns carries the code. */
  ghost predicate LegacyHas(a: Archive, sub: nat, patterns: seq<string>, codes: seq<string>, bound: nat, m: Match) {
    exists e :: e in a.entries && Within(e, sub, None, patterns) && bound <= e.id && Supplies(e, codes, m)
  }

  /** The matches are those the index gave and those of the rows read so far. */
  ghost predicate ReadDownTo(a: Archive, sub: nat, patterns: seq<string>, requested: seq<string>, wanted: seq<string>,
      bound: nat, matches: seq<Match>)
  {
    forall m :: m in matches <==> IndexHas(a, sub, requested, m) || LegacyHas(a, sub, patterns, wanted, bound, m)
  }

  lemma ReadNothing(a: Archive, sub: nat, patterns: seq<string>, requested: seq<string>, wanted: seq<string>,
      matches: seq<Match>)
    requires Ordered(a.entries, a.nextId)
    requires forall m :: m in matches <==> IndexHas(a, sub, requested, m)
    ensures ReadDownTo(a, sub, patterns, requested, wanted, a.nextId, matches)
  {
    hide Within, Supplies, IndexHas;
  }

  lemma ReadPage(a: Archive, sub: nat, before: Option<nat>, patterns: seq<string>, requested: seq<string>,
      wanted: seq<string>,
                 matches: seq<Match>, page: seq<Entry>, grown: seq<Match>)
    requires Ordered(a.entries, a.nextId) && BoundOf(a, before) <= a.nextId
    requires ReadDownTo(a, sub, patterns, requested, wanted, BoundOf(a, before), matches)
    requires page == LegacyPage(a.entries, sub, before, patterns, LEGACY_PAGE)
    requires forall m :: m in grown <==> m in matches || RowsHave(page, wanted, m)
    ensures ReadDownTo(a, sub, patterns, requested, wanted, NextBound(page, LEGACY_PAGE), grown)
  {
    forall m ensures m in grown <==> IndexHas(a, sub, requested, m)
                                     || LegacyHas(a, sub, patterns, wanted, NextBound(page, LEGACY_PAGE), m) {
      ReadPageAt(a, sub, before, patterns, wanted, page, m);
      hide LegacyHas, RowsHave, IndexHas;
    }
  }

  lemma ReadPageAt(a: Archive, sub: nat, before: Option<nat>, patterns: seq<string>, wanted: seq<string>,
      page: seq<Entry>, m: Match)
    requires Ordered(a.entries, a.nextId) && BoundOf(a, before) <= a.nextId
    requires page == LegacyPage(a.entries, sub, before, patterns, LEGACY_PAGE)
    ensures LegacyHas(a, sub, patterns, wanted, NextBound(page, LEGACY_PAGE), m)
            <==> LegacyHas(a, sub, patterns, wanted, BoundOf(a, before), m) || RowsHave(page, wanted, m)
  {
    hide LegacyPage, Supplies;
    var next := NextBound(page, LEGACY_PAGE);
    NextBoundBelow(a, sub, before, patterns);
    if e :| e in a.entries && Within(e, sub, None, patterns) && next <= e.id && Supplies(e, wanted, m) {
      PageIsSlice(a, sub, before, patterns, LEGACY_PAGE, e);
      hide Within;
      if e in page {
        var i :| 0 <= i < |page| && page[i] == e;
        assert RowsHave(page, wanted, m);
      }
    }
    hide Within;
    if RowsHave(page, wanted, m) {
      var i :| 0 <= i < |page| && Supplies(page[i], wanted, m);
      PageSound(a.entries, sub, before, patterns, LEGACY_PAGE, page[i]);
      PageIsSlice(a, sub, before, patterns, LEGACY_PAGE, page[i]);
    }
  }

  lemma NextBoundBelow(a: Archive, sub: nat, before: Option<nat>, patterns: seq<string>)
    requires Ordered(a.entries, a.nextId) && BoundOf(a, before) <= a.nextId
    ensures var page := LegacyPage(a.entries, sub, before, patterns, LEGACY_PAGE);
            NextBound(page, LEGACY_PAGE) <= BoundOf(a, before)
                && (page != [] ==> NextBound(page, LEGACY_PAGE) < BoundOf(a, before))
  {
    hide LegacyPage, Selected;
    var page := LegacyPage(a.entries, sub, before, patterns, LEGACY_PAGE);
    if page != [] {
      var e := page[|page| - 1];
      PageSound(a.entries, sub, before, patterns, LEGACY_PAGE, e);
    }
  }

  /** The rows of the index for these codes, in whatever order the database gives them. */
  method SelectIndexed(a: Archive, sub: nat, codes: seq<string>) returns (rows: seq<Match>)
    ensures NoRepeats(rows)
    ensures forall m :: m in rows <==> IndexHas(a, sub, codes, m)
  {
    rows := [];
    var rest := a.index;
    while rest != {}
      invariant rest <= a.index && NoRepeats(rows)
      invariant forall m :: m in rows <==> IndexHas(a, sub, codes, m) && Alias(m.id, sub, m.code) !in rest
      decreases |rest|
    {
      var alias :| alias in rest;
      rest := rest - {alias};
      if alias.sub == sub && alias.code in codes {
        rows := rows + [Match(alias.id, alias.code)];
      }
    }
  }

  method AddCodesOf(row: Entry, wanted: seq<string>, matches: seq<Match>, found: set<Match>)
      returns (grown: seq<Match>, seen: set<Match>)
    requires NoRepeats(matches) && forall m :: m in matches <==> m in found
    ensures NoRepeats(grown) && forall m :: m in grown <==> m in seen
    ensures forall m :: m in grown <==> m in matches || Supplies(row, wanted, m)
  {
    var codes := CodesOf(row.content, row.title);
    grown, seen := matches, found;
    for k := 0 to |codes|
      invariant NoRepeats(grown) && forall m :: m in grown <==> m in seen
      invariant forall m :: m in grown <==> m in matches || (m.id == row.id && m.code in wanted && m.code in codes[..k])
    {
      hide CodesOf;
      var m := Match(row.id, codes[k]);
      if codes[k] in wanted && m !in seen {
        grown, seen := grown + [m], seen + {m};
      }
    }
    assert codes[..|codes|] == codes;
  }

  method AddPage(page: seq<Entry>, wanted: seq<string>, matches: seq<Match>, found: set<Match>)
      returns (grown: seq<Match>, seen: set<Match>)
    requires NoRepeats(matches) && forall m :: m in matches <==> m in found
    ensures NoRepeats(grown) && forall m :: m in grown <==> m in seen
    ensures forall m :: m in grown <==> m in matches || RowsHave(page, wanted, m)
  {
    hide Supplies, NoRepeats;
    grown, seen := matches, found;
    for k := 0 to |page|
      invariant NoRepeats(grown) && forall m :: m in grown <==> m in seen
      invariant forall m :: m in grown <==> m in matches || RowsHave(page[..k], wanted, m)
    {
      ghost var was := grown;
      grown, seen := AddCodesOf(page[k], wanted, grown, seen);
      forall m ensures RowsHave(page[..k + 1], wanted, m)
          <==> RowsHave(page[..k], wanted, m) || Supplies(page[k], wanted, m) {
        RowsHaveNext(page, k, wanted, m);
      }
    }
    assert page[..|page|] == page;
  }

  lemma RowsHaveNext(page: seq<Entry>, k: nat, wanted: seq<string>, m: Match)
    requires k < |page|
    ensures RowsHave(page[..k + 1], wanted, m) <==> RowsHave(page[..k], wanted, m) || Supplies(page[k], wanted, m)
  {
    hide Supplies;
    assert page[..k + 1][k] == page[k];
    if RowsHave(page[..k], wanted, m) {
      var i :| 0 <= i < k && Supplies(page[..k][i], wanted, m);
      assert page[..k + 1][i] == page[..k][i];
    }
    if RowsHave(page[..k + 1], wanted, m) {
      var i :| 0 <= i < k + 1 && Supplies(page[..k + 1][i], wanted, m);
      assert i < k ==> page[..k][i] == page[i];
    }
  }

  lemma {:induction false} PatternsInclude(codes: seq<string>, code: string, t: string)
    requires code in codes && MatchesSome(SearchPatterns(code), t)
    ensures MatchesSome(PatternsOf(codes), t)
  {
    hide SearchPatterns, Like;
    var head, rest := SearchPatterns(codes[0]), PatternsOf(codes[1..]);
    if code == codes[0] {
      var i :| 0 <= i < |head| && Like(head[i], t);
      assert (head + rest)[i] == head[i];
    } else {
      PatternsInclude(codes[1..], code, t);
      var i :| 0 <= i < |rest| && Like(rest[i], t);
      assert (head + rest)[|head| + i] == rest[i];
    }
  }

  /** A row of the subscription carries the code of the match. */
  ghost predicate RowCarries(a: Archive, sub: nat, m: Match) {
    exists e :: e in a.entries && e.sub == sub && e.id == m.id && Carries(e, m.code)
  }

  ghost predicate IsFound(a: Archive, sub: nat, codes: seq<string>, m: Match) {
    m.code in codes && (IndexHas(a, sub, codes, m) || RowCarries(a, sub, m))
  }

  /** The exact answer while rows are still unindexed: what the index has and what the LIKE patterns reach. */
  ghost predicate Reached(a: Archive, sub: nat, codes: seq<string>, m: Match) {
    IndexHas(a, sub, codes, m) || LegacyHas(a, sub, PatternsOf(codes), codes, 0, m)
  }

  /** The index has a row with this code, or one carries it that the patterns of the code select. */
  ghost predicate Reachable(a: Archive, sub: nat, code: string) {
    || (exists id :: Alias(id, sub, code) in a.index)
    || exists e :: e in a.entries && Within(e, sub, None, SearchPatterns(code)) && Carries(e, code)
  }

  lemma WithinSome(e: Entry, sub: nat, codes: seq<string>, code: string)
    requires code in codes && Within(e, sub, None, SearchPatterns(code))
    ensures Within(e, sub, None, PatternsOf(codes))
  {
    hide SearchPatterns, MatchesSome, PatternsOf;
    if MatchesSome(SearchPatterns(code), LowerAll(e.content)) {
      PatternsInclude(codes, code, LowerAll(e.content));
    } else {
      PatternsInclude(codes, code, LowerAll(TitleText(e.title)));
    }
  }

  /** When every selected row is read, or every wanted code is mentioned, no reachable code is missing. */
  lemma ReachableMentioned(a: Archive, sub: nat, requested: seq<string>, wanted: seq<string>, bound: nat,
      matches: seq<Match>, code: string)
    requires ReadDownTo(a, sub, PatternsOf(wanted), requested, wanted, bound, matches)
    requires bound == 0 || AllMentioned(matches, wanted)
    requires code in requested && Reachable(a, sub, code)
    requires code in wanted || exists id :: Alias(id, sub, code) in a.index
    ensures Mentioned(matches, code)
  {
    hide Within, Carries, PatternsOf, SearchPatterns, Mentioned;
    if id :| Alias(id, sub, code) in a.index {
      MentionedBy(matches, Match(id, code));
    } else if bound == 0 {
      var e :| e in a.entries && Within(e, sub, None, SearchPatterns(code)) && Carries(e, code);
      WithinSome(e, sub, wanted, code);
      assert Supplies(e, wanted, Match(e.id, code));
      MentionedBy(matches, Match(e.id, code));
    }
  }

  lemma MentionedBy(matches: seq<Match>, m: Match)
    requires m in matches
    ensures Mentioned(matches, m.code)
  {
  }

  lemma ReadIsFound(a: Archive, sub: nat, patterns: seq<string>, requested: seq<string>, wanted: seq<string>,
      bound: nat, matches: seq<Match>, m: Match)
    requires ReadDownTo(a, sub, patterns, requested, wanted, bound, matches) && m in matches
    requires forall c :: c in wanted ==> c in requested
    ensures IsFound(a, sub, requested, m)
  {
    hide Carries, Selected;
    if !IndexHas(a, sub, requested, m) {
      var e :| e in a.entries && Within(e, sub, None, patterns) && bound <= e.id && Supplies(e, wanted, m);
      assert RowCarries(a, sub, m);
    }
  }

  lemma NoPatterns(a: Archive, sub: nat, requested: seq<string>, wanted: seq<string>, matches: seq<Match>)
    requires ReadDownTo(a, sub, [], requested, wanted, a.nextId, matches) && Ordered(a.entries, a.nextId)
    ensures ReadDownTo(a, sub, [], requested, wanted, 0, matches)
  {
    hide Carries, LowerAll;
  }

  /** The paging loop, which stops early only when every wanted code is mentioned and one match each will do. */
  method ReadLegacy(a: Archive, sub: nat, patterns: seq<string>, ghost requested: seq<string>, wanted: seq<string>,
                    indexed: seq<Match>, known: set<Match>, allMatches: bool)
      returns (matches: seq<Match>, ghost bound: nat)
    requires Ordered(a.entries, a.nextId)
    requires NoRepeats(indexed) && forall m :: m in indexed <==> m in known
    requires ReadDownTo(a, sub, patterns, requested, wanted, a.nextId, indexed)
    ensures NoRepeats(matches)
    ensures ReadDownTo(a, sub, patterns, requested, wanted, bound, matches)
    ensures bound == 0 || (!allMatches && AllMentioned(matches, wanted))
  {
    hide ReadDownTo, NoRepeats, LegacyPage, RowsHave, AllMentioned;
    matches := indexed;
    var found, before: Option<nat>, reading := known, None, true;
    bound := a.nextId;
    while reading
      invariant NoRepeats(matches) && forall m :: m in matches <==> m in found
      invariant ReadDownTo(a, sub, patterns, requested, wanted, bound, matches)
      invariant bound <= a.nextId && (reading ==> BoundOf(a, before) == bound)
      invariant !reading ==> bound == 0 || (!allMatches && AllMentioned(matches, wanted))
      decreases reading, bound
    {
      var page := LegacyPage(a.entries, sub, before, patterns, LEGACY_PAGE);
      ghost var was := matches;
      matches, found := AddPage(page, wanted, matches, found);
      ReadPage(a, sub, before, patterns, requested, wanted, was, page, matches);
      NextBoundBelow(a, sub, before, patterns);
      bound := NextBound(page, LEGACY_PAGE);
      if |page| < LEGACY_PAGE || (!allMatches && AllMentioned(matches, wanted)) {
        reading := false;
      } else {
        before := Some(page[|page| - 1].id);
      }
    }
  }

  /**
    Once the backfill is done the index alone answers. Before, with `allMatches`, the answer is exactly
    what the index and the patterns reach; without, it names every requested code they reach.
   */
  method FindArchiveCodeMatches(a: Archive, codes: seq<string>, sub: nat, allMatches: bool)
      returns (matches: seq<Match>)
    requires Ordered(a.entries, a.nextId)
    ensures NoRepeats(matches)
    ensures forall m :: m in matches ==> IsFound(a, sub, Requested(codes), m)
    ensures a.done ==> forall m :: m in matches <==> IndexHas(a, sub, Requested(codes), m)
    ensures !a.done && allMatches ==> forall m :: m in matches <==> Reached(a, sub, Requested(codes), m)
    ensures !a.done && !allMatches ==> forall c ::
        c in Requested(codes) && Reachable(a, sub, c) ==> Mentioned(matches, c)
  {
    hide LegacyHas, Within, SearchPatterns, Carries;
    var requested := Requested(codes);
    matches := SelectIndexed(a, sub, requested);
    if a.done { return; }
    var wanted := if allMatches then requested else Unmentioned(requested, matches);
    ghost var indexed := matches;
    var patterns := PatternsOf(wanted);
    ReadNothing(a, sub, patterns, requested, wanted, matches);
    ghost var bound := a.nextId;
    if patterns != [] {
      var found := set m | m in matches;
      matches, bound := ReadLegacy(a, sub, patterns, requested, wanted, matches, found, allMatches);
    } else {
      NoPatterns(a, sub, requested, wanted, matches);
      bound := 0;
    }
    hide ReadDownTo, AllMentioned, IsFound, Reachable, Reached, NoRepeats;
    forall m | m in matches ensures IsFound(a, sub, requested, m) {
      ReadIsFound(a, sub, patterns, requested, wanted, bound, matches, m);
    }
    if allMatches {
      forall m ensures m in matches <==> Reached(a, sub, requested, m) {
        ReadAll(a, sub, requested, matches, m);
      }
    } else {
      forall c | c in requested && Reachable(a, sub, c) ensures Mentioned(matches, c) {
        IndexedMention(a, sub, requested, indexed, c);
        ReachableMentioned(a, sub, requested, wanted, bound, matches, c);
      }
    }
  }

  lemma ReadAll(a: Archive, sub: nat, codes: seq<string>, matches: seq<Match>, m: Match)
    requires ReadDownTo(a, sub, PatternsOf(codes), codes, codes, 0, matches)
    ensures m in matches <==> Reached(a, sub, codes, m)
  {
  }

  lemma IndexedMention(a: Archive, sub: nat, requested: seq<string>, indexed: seq<Match>, c: string)
    requires forall m :: m in indexed <==> IndexHas(a, sub, requested, m)
    ensures Mentioned(indexed, c) ==> exists id :: Alias(id, sub, c) in a.index
  {
    if Mentioned(indexed, c) {
      var i :| 0 <= i < |indexed| && indexed[i].code == c;
      assert IndexHas(a, sub, requested, indexed[i]);
    }
  }
}
