/**
  What one check adds to the archive (`archiveNewItems`, server/capture.ts).

  The items of a page are merged by content, the ones already known are dropped, the rest are
  inserted unless their product code is known, and titles are brought up to date in batches.
 */
module ArchiveItems {
  import opened Options
  import opened ProductCodes
  import opened ArchiveLookup
  import opened ArchiveWrites
  import opened FullScan

  predicate Truthy(o: Option<string>) { o.Some? && o.value != "" }

  function Or(first: Option<string>, second: Option<string>): Option<string> { if first.Some? then first else second }

  // --- uniqueItems ---

  function Merge(known: Item, item: Item): (r: Item)
    requires known.content == item.content
    ensures r.content == item.content
  {
    if (!Truthy(known.title) && Truthy(item.title)) || (!Truthy(known.detailUrl) && Truthy(item.detailUrl))
    then Item(item.content, Or(item.title, known.title), Or(item.detailUrl, known.detailUrl))
    else known
  }

  /** A map keeps the place of the first item with a content. */
  function Put(list: seq<Item>, item: Item): seq<Item> {
    if list == [] then [item]
    else if list[0].content == item.content then [Merge(list[0], item)] + list[1..]
    else [list[0]] + Put(list[1..], item)
  }

  function UniqueItems(items: seq<Item>): seq<Item> {
    if items == [] then [] else Put(UniqueItems(items[..|items| - 1]), items[|items| - 1])
  }

  function Contents(items: seq<Item>): (r: seq<string>)
    ensures |r| == |items| && forall i :: 0 <= i < |items| ==> r[i] == items[i].content
  {
    seq(|items|, i requires 0 <= i < |items| => items[i].content)
  }

  lemma {:induction false} PutContents(list: seq<Item>, item: Item)
    ensures Contents(Put(list, item)) == if Listed(list, item.content) then Contents(list)
        else Contents(list) + [item.content]
  {
    if list == [] {
      assert Contents([item]) == [item.content];
    } else {
      var head, tail := list[0], list[1..];
      assert list == [head] + tail;
      ContentsCons(head, tail);
      if head.content == item.content {
        assert Listed(list, item.content);
        ContentsCons(Merge(head, item), tail);
      } else {
        PutContents(tail, item);
        ListedTail(list, item.content);
        hide Listed, Contents, Merge;
        ContentsCons(head, Put(tail, item));
      }
    }
  }

  lemma ContentsCons(head: Item, tail: seq<Item>)
    ensures Contents([head] + tail) == [head.content] + Contents(tail)
  {
  }

  lemma ListedTail(list: seq<Item>, content: string)
    requires list != [] && list[0].content != content
    ensures Listed(list, content) <==> Listed(list[1..], content)
  {
    if i :| 0 <= i < |list| && list[i].content == content {
      assert list[1..][i - 1].content == content;
    }
    if i :| 0 <= i < |list[1..]| && list[1..][i].content == content {
      assert list[i + 1].content == content;
    }
  }

  /** The merge keeps the contents, and their order, that dropping repeats would keep. */
  lemma {:induction false} UniqueItemsContents(items: seq<Item>)
    ensures Contents(UniqueItems(items)) == Contents(FirstOccurrences(items))
  {
    hide Put, Listed;
    if items != [] {
      var init, last := items[..|items| - 1], items[|items| - 1];
      UniqueItemsContents(init);
      PutContents(UniqueItems(init), last);
      SameContentsListed(UniqueItems(init), FirstOccurrences(init), last.content);
      SameListed(init, last.content);
      assert Contents(FirstOccurrences(init) + [last]) == Contents(FirstOccurrences(init)) + [last.content];
    }
  }

  lemma SameContentsListed(a: seq<Item>, b: seq<Item>, content: string)
    requires Contents(a) == Contents(b)
    ensures Listed(a, content) <==> Listed(b, content)
  {
    if i :| 0 <= i < |a| && a[i].content == content {
      assert Contents(b)[i] == content;
    }
    if i :| 0 <= i < |b| && b[i].content == content {
      assert Contents(a)[i] == content;
    }
  }

  // --- Which title and link an item keeps ---

  /** As they are extracted: a title or link that is there is not empty. */
  predicate Clean(items: seq<Item>) {
    forall i :: 0 <= i < |items| ==> items[i].title != Some("") && items[i].detailUrl != Some("")
  }

  /** The first item of this content with a title. */
  function FirstTitled(items: seq<Item>, content: string): (r: Option<nat>)
    ensures r.Some? ==>
              r.value < |items| && items[r.value].content == content && items[r.value].title.Some?
  {
    if items == [] then None
    else
      var n := |items| - 1;
      var before := FirstTitled(items[..n], content);
      if before.None? && items[n].content == content && items[n].title.Some? then Some(n) else before
  }

  /** The first item of this content with a link. */
  function FirstLinked(items: seq<Item>, content: string): (r: Option<nat>)
    ensures r.Some? ==>
              r.value < |items| && items[r.value].content == content && items[r.value].detailUrl.Some?
  {
    if items == [] then None
    else
      var n := |items| - 1;
      var before := FirstLinked(items[..n], content);
      if before.None? && items[n].content == content && items[n].detailUrl.Some? then Some(n) else before
  }

  lemma {:induction false} FirstAreFirst(items: seq<Item>, content: string)
    ensures var i := FirstTitled(items, content);
            forall k :: 0 <= k < (if i.Some? then i.value else |items|) && items[k].content == content
              ==> items[k].title.None?
    ensures var j := FirstLinked(items, content);
            forall k :: 0 <= k < (if j.Some? then j.value else |items|) && items[k].content == content
              ==> items[k].detailUrl.None?
  {
    if items != [] {
      FirstAreFirst(items[..|items| - 1], content);
    }
  }

  /**
    The title is that of the first item with one, unless the first item with a link comes later and has a
    title too: then it is that one's. The link is chosen in the same way.
   */
  predicate Chosen(items: seq<Item>, x: Item) {
    var i, j := FirstTitled(items, x.content), FirstLinked(items, x.content);
    && x.title == (if i.None? then None
                   else if j.Some? && i.value < j.value && items[j.value].title.Some? then items[j.value].title
                   else items[i.value].title)
    && x.detailUrl == (if j.None? then None
                       else if i.Some? && j.value < i.value && items[i.value].detailUrl.Some?
                         then items[i.value].detailUrl
                       else items[j.value].detailUrl)
  }

  predicate DistinctContents(list: seq<Item>) {
    forall i, j :: 0 <= i < j < |list| ==> list[i].content != list[j].content
  }

  lemma {:induction false} UniqueItemsDistinct(items: seq<Item>)
    ensures DistinctContents(UniqueItems(items))
    decreases |items|
  {
    if items != [] {
      var init, last := items[..|items| - 1], items[|items| - 1];
      UniqueItemsDistinct(init);
      PutContents(UniqueItems(init), last);
      hide Put;
      var list, after := UniqueItems(init), Put(UniqueItems(init), last);
      forall i, j | 0 <= i < j < |after| ensures after[i].content != after[j].content {
        assert after[i].content == Contents(after)[i] && after[j].content == Contents(after)[j];
        assert i < |list| && list[i].content == Contents(list)[i];
        assert j < |list| ==> list[j].content == Contents(list)[j];
      }
    }
  }

  /** What stands for a content after one more item: what stood for it, merged with the item, or the item. */
  lemma {:induction false} PutIs(list: seq<Item>, item: Item, x: Item)
    requires DistinctContents(list) && x in Put(list, item)
    ensures x.content != item.content ==> x in list
    ensures x.content == item.content && Listed(list, item.content) ==>
              exists y :: y in list && y.content == item.content && x == Merge(y, item)
    ensures x.content == item.content && !Listed(list, item.content) ==> x == item
  {
    if list != [] {
      assert list[0] in list && list == [list[0]] + list[1..];
      if list[0].content != item.content && x != list[0] {
        assert x in Put(list[1..], item);
        ListedTail(list, item.content);
        PutIs(list[1..], item, x);
      }
    }
  }

  lemma ChosenMerge(init: seq<Item>, last: Item, y: Item)
    requires Clean(init + [last]) && Chosen(init, y) && y.content == last.content
    ensures Chosen(init + [last], Merge(y, last))
  {
    var items := init + [last];
    assert items[..|items| - 1] == init;
    var i, j := FirstTitled(init, y.content), FirstLinked(init, y.content);
    assert i.Some? ==> items[i.value] == init[i.value];
    assert j.Some? ==> items[j.value] == init[j.value];
    assert items[|init|] == last;
    assert y.title != Some("") && y.detailUrl != Some("");
  }

  lemma ChosenOther(init: seq<Item>, last: Item, x: Item)
    requires Chosen(init, x) && x.content != last.content
    ensures Chosen(init + [last], x)
  {
    var items := init + [last];
    assert items[..|items| - 1] == init;
    var i, j := FirstTitled(init, x.content), FirstLinked(init, x.content);
    assert i.Some? ==> items[i.value] == init[i.value];
    assert j.Some? ==> items[j.value] == init[j.value];
  }

  lemma ChosenNew(init: seq<Item>, last: Item)
    requires forall k :: 0 <= k < |init| ==> init[k].content != last.content
    ensures Chosen(init + [last], last)
  {
    var items := init + [last];
    assert items[..|items| - 1] == init;
    assert FirstTitled(init, last.content).None? && FirstLinked(init, last.content).None?;
  }

  lemma {:induction false} UniqueItemsChosen(items: seq<Item>, x: Item)
    requires Clean(items) && x in UniqueItems(items)
    ensures Chosen(items, x)
    decreases |items|
  {
    if items != [] {
      var init, last := items[..|items| - 1], items[|items| - 1];
      assert items == init + [last] && Clean(init);
      assert UniqueItems(items) == Put(UniqueItems(init), last);
      UniqueItemsDistinct(init);
      hide Chosen, Put, Clean, UniqueItems, DistinctContents;
      forall y | y in UniqueItems(init) ensures Chosen(init, y) {
        UniqueItemsChosen(init, y);
      }
      ChosenNext(init, last, x);
    }
  }

  lemma ChosenNext(init: seq<Item>, last: Item, x: Item)
    requires Clean(init + [last]) && DistinctContents(UniqueItems(init)) && x in Put(UniqueItems(init), last)
    requires forall y :: y in UniqueItems(init) ==> Chosen(init, y)
    ensures Chosen(init + [last], x)
  {
    hide Chosen, Put, Merge, Listed, Clean, UniqueItems, DistinctContents;
    PutIs(UniqueItems(init), last, x);
    if x.content != last.content {
      ChosenOther(init, last, x);
    } else if Listed(UniqueItems(init), last.content) {
      var y :| y in UniqueItems(init) && y.content == last.content && x == Merge(y, last);
      ChosenMerge(init, last, y);
    } else {
      NotListedNew(init, last);
    }
  }

  lemma NotListedNew(init: seq<Item>, last: Item)
    requires !Listed(UniqueItems(init), last.content)
    ensures Chosen(init + [last], last)
  {
    UniqueListed(init, last.content);
    hide Chosen, UniqueItems, Listed;
    ChosenNew(init, last);
  }

  lemma UniqueListed(items: seq<Item>, content: string)
    ensures Listed(UniqueItems(items), content) <==> exists k :: 0 <= k < |items| && items[k].content == content
  {
    UniqueItemsContents(items);
    SameContentsListed(UniqueItems(items), FirstOccurrences(items), content);
    SameListed(items, content);
  }

  /**
    What the merge of a page keeps: one item for each content of the page, with a title, or a link, exactly
    when some item of that content has one. It is always one that an item of that content has, and `Chosen`
    says which.
   */
  lemma UniqueItemsKeepTitles(items: seq<Item>, x: Item)
    requires Clean(items) && x in UniqueItems(items)
    ensures Chosen(items, x)
    ensures x.title.Some? <==> exists k :: 0 <= k < |items| && items[k].content == x.content && items[k].title.Some?
    ensures x.title.Some? ==>
              exists k :: 0 <= k < |items| && items[k].content == x.content && items[k].title == x.title
    ensures x.detailUrl.Some? <==>
            exists k :: 0 <= k < |items| && items[k].content == x.content && items[k].detailUrl.Some?
    ensures x.detailUrl.Some? ==>
              exists k :: 0 <= k < |items| && items[k].content == x.content && items[k].detailUrl == x.detailUrl
  {
    UniqueItemsChosen(items, x);
    FirstAreFirst(items, x.content);
    hide UniqueItems;
    var i, j := FirstTitled(items, x.content), FirstLinked(items, x.content);
    if i.Some? {
      assert items[i.value].content == x.content;
    }
    if j.Some? {
      assert items[j.value].content == x.content;
    }
  }

  // --- What the next check reads back ---

  /** The text cut at its line breaks. */
  function SplitLines(text: string): (lines: seq<string>)
    ensures lines != []
  {
    if text == "" then [""]
    else
      var rest := SplitLines(text[..|text| - 1]);
      if text[|text| - 1] == '\n' then rest + [""]
      else rest[..|rest| - 1] + [rest[|rest| - 1] + [text[|text| - 1]]]
  }

  lemma {:induction false} SplitAppend(a: string, b: string)
    requires '\n' !in b
    ensures var la := SplitLines(a); SplitLines(a + b) == la[..|la| - 1] + [la[|la| - 1] + b]
  {
    var la := SplitLines(a);
    if b == "" {
      assert a + b == a && la[|la| - 1] + b == la[|la| - 1];
      assert la == la[..|la| - 1] + [la[|la| - 1]];
    } else {
      var c, m := b[..|b| - 1], b[|b| - 1];
      SplitAppend(a, c);
      assert (a + b)[..|a + b| - 1] == a + c && (a + b)[|a + b| - 1] == m;
      var lc := SplitLines(a + c);
      assert lc[|lc| - 1] + [m] == la[|la| - 1] + b by { assert b == c + [m]; }
      assert lc[..|lc| - 1] == la[..|la| - 1];
    }
  }

  /** The published text has one line for each item, its content. */
  lemma {:induction false} LinesOfJoin(items: seq<Item>)
    requires items != [] && forall i :: 0 <= i < |items| ==> '\n' !in items[i].content
    ensures SplitLines(JoinLines(items)) == Contents(items)
    decreases |items|
  {
    var n := |items| - 1;
    var line := items[n].content;
    if n == 0 {
      SplitAppend("", line);
      assert "" + line == line && SplitLines("") == [""];
    } else {
      LinesOfJoin(items[..n]);
      ContentsNext(items);
      hide SplitLines;
      LineAppend(JoinLines(items[..n]), line);
    }
  }

  lemma ContentsNext(items: seq<Item>)
    requires items != []
    ensures Contents(items) == Contents(items[..|items| - 1]) + [items[|items| - 1].content]
  {
  }

  /** A line break and a line add one line. */
  lemma LineAppend(text: string, line: string)
    requires '\n' !in line
    ensures SplitLines(text + "\n" + line) == SplitLines(text) + [line]
  {
    assert (text + "\n")[..|text|] == text;
    var lines := SplitLines(text + "\n");
    assert lines == SplitLines(text) + [""];
    SplitAppend(text + "\n", line);
    hide SplitLines;
    assert lines[..|lines| - 1] == SplitLines(text) && "" + line == line;
  }

  /** `archiveItems`: the trimmed lines of the stored text, the empty ones left out. */
  function StoredItems(text: string): set<string> {
    set i | 0 <= i < |SplitLines(text)| && Trim(SplitLines(text)[i]) != "" :: Trim(SplitLines(text)[i])
  }

  /** Contents as extraction leaves them: not empty, on one line, without blanks around them. */
  predicate Plain(items: seq<Item>) {
    forall i :: 0 <= i < |items| ==>
      items[i].content != "" && '\n' !in items[i].content && Trim(items[i].content) == items[i].content
  }

  /** What a scan or check publishes is read back by the next check as exactly its contents. */
  lemma PublishedIsReadBack(items: seq<Item>)
    requires Plain(items)
    ensures forall c :: c in StoredItems(JoinLines(items)) <==> exists i :: 0 <= i < |items| && items[i].content == c
  {
    if items == [] {
      assert SplitLines("") == [""] && Trim("") == "";
    } else {
      LinesOfJoin(items);
      hide Trim, JoinLines, SplitLines;
      forall i | 0 <= i < |items| ensures items[i].content in StoredItems(JoinLines(items)) {
        assert SplitLines(JoinLines(items))[i] == items[i].content;
      }
    }
  }

  // --- The items a check adds ---

  function Unknown(items: seq<Item>, previous: set<string>): seq<Item> {
    if items == [] then []
    else Unknown(items[..|items| - 1], previous) + if items[|items| - 1].content in previous then []
           else [items[|items| - 1]]
  }

  lemma {:induction false} UnknownAre(items: seq<Item>, previous: set<string>, item: Item)
    ensures item in Unknown(items, previous) <==> item in items && item.content !in previous
  {
    if items != [] {
      UnknownAre(items[..|items| - 1], previous, item);
      assert items == items[..|items| - 1] + [items[|items| - 1]];
    }
  }

  function Additions(current: seq<Item>, wasEmpty: bool, previous: set<string>): seq<Item> {
    if wasEmpty then current else Unknown(current, previous)
  }

  predicate HasCode(items: seq<Item>, k: string) {
    exists i :: 0 <= i < |items| && ArchiveKey(items[i].content) == Some(k)
  }

  function CandidateCodes(items: seq<Item>): seq<string> {
    if items == [] then []
    else
      var key := ArchiveKey(items[|items| - 1].content);
      CandidateCodes(items[..|items| - 1]) + if key.Some? then [key.value] else []
  }

  lemma {:induction false} CandidateCodesAre(items: seq<Item>, k: string)
    ensures k in CandidateCodes(items) <==> HasCode(items, k)
  {
    hide ArchiveKey;
    if items != [] {
      var init := items[..|items| - 1];
      CandidateCodesAre(init, k);
      if i :| 0 <= i < |items| && ArchiveKey(items[i].content) == Some(k) {
        assert i < |init| ==> ArchiveKey(init[i].content) == Some(k);
      }
      if i :| 0 <= i < |init| && ArchiveKey(init[i].content) == Some(k) {
        assert ArchiveKey(items[i].content) == Some(k);
      }
    }
  }

  /** The state of the insert loop: the table, the codes known to be archived, and the rows it added. */
  datatype Pass = Pass(entries: seq<Entry>, nextId: nat, existing: set<string>, added: seq<Entry>)

  predicate HashTaken(entries: seq<Entry>, sub: nat, text: string) {
    exists i :: 0 <= i < |entries| && entries[i].sub == sub && entries[i].hashed == text
  }

  /** One item: skipped when its code is known, refused when its digest is taken (the id is used up), else added. */
  function InsertOne(p: Pass, sub: nat, item: Item): Pass {
    var key := ArchiveKey(item.content);
    if key.Some? && key.value in p.existing then p
    else
      var existing := if key.Some? then p.existing + {key.value} else p.existing;
      if HashTaken(p.entries, sub, item.content) then p.(nextId := p.nextId + 1, existing := existing)
      else
        var e := Entry(p.nextId, sub, item.content, item.title, key, item.content);
        Pass(p.entries + [e], p.nextId + 1, existing, p.added + [e])
  }

  function InsertAll(p: Pass, sub: nat, items: seq<Item>): Pass {
    if items == [] then p else InsertOne(InsertAll(p, sub, items[..|items| - 1]), sub, items[|items| - 1])
  }

  // --- Titles ---

  /** The item is about the row: same digest, or same code. */
  predicate Concerns(item: Item, e: Entry) {
    e.hashed == item.content || (ArchiveKey(item.content).Some? && e.code == ArchiveKey(item.content))
  }

  /** The last item about the row whose title differs from the stored one wins. */
  function NewTitle(e: Entry, batch: seq<Item>): Option<string> {
    if batch == [] then e.title
    else
      var last := batch[|batch| - 1];
      if Concerns(last, e) && last.title != e.title then last.title else NewTitle(e, batch[..|batch| - 1])
  }

  function Retitled(e: Entry, sub: nat, batch: seq<Item>): (r: Entry)
    ensures r.(title := e.title) == e
  {
    if e.sub == sub then e.(title := NewTitle(e, batch)) else e
  }

  function RetitledRows(entries: seq<Entry>, sub: nat, batch: seq<Item>): (r: seq<Entry>)
    ensures |r| == |entries| && forall i :: 0 <= i < |r| ==> r[i] == Retitled(entries[i], sub, batch)
  {
    seq(|entries|, i requires 0 <= i < |entries| => Retitled(entries[i], sub, batch))
  }

  /** The rows whose title changes, as they are afterwards. */
  function ChangedRows(entries: seq<Entry>, sub: nat, batch: seq<Item>): seq<Entry> {
    if entries == [] then []
    else
      var init, last := entries[..|entries| - 1], entries[|entries| - 1];
      var changed := Retitled(last, sub, batch);
      ChangedRows(init, sub, batch) + if changed.title != last.title then [changed] else []
  }

  function RetitleBatch(a: Archive, sub: nat, batch: seq<Item>): Archive {
    a.(entries := RetitledRows(a.entries, sub, batch), index := Reindexed(a.index, ChangedRows(a.entries, sub, batch)))
  }

  function Titled(items: seq<Item>): seq<Item> {
    if items == [] then []
    else Titled(items[..|items| - 1]) + if Truthy(items[|items| - 1].title) then [items[|items| - 1]] else []
  }

  function RetitleAll(a: Archive, sub: nat, titled: seq<Item>): Archive
    decreases |titled|
  {
    if titled == [] then a
    else
      var n := Min(CHUNK, |titled|);
      RetitleAll(RetitleBatch(a, sub, titled[..n]), sub, titled[n..])
  }

  /** Titles are brought up to date a hundred items at a time, each batch on what the one before it left. */
  lemma RetitleInHundreds(a: Archive, sub: nat, titled: seq<Item>)
    ensures titled != [] && |titled| <= 100 ==> RetitleAll(a, sub, titled) == RetitleBatch(a, sub, titled)
    ensures |titled| > 100 ==>
              RetitleAll(a, sub, titled) == RetitleAll(RetitleBatch(a, sub, titled[..100]), sub, titled[100..])
  {
    hide RetitleBatch;
    assert titled[..|titled|] == titled && titled[|titled|..] == [];
  }

  /** The whole of one call, given the codes the lookups reported as archived. */
  function ArchiveTx(a: Archive, sub: nat, items: seq<Item>, wasEmpty: bool, previous: set<string>,
      existing: set<string>): Archive
  {
    var current := UniqueItems(items);
    var p := InsertAll(Pass(a.entries, a.nextId, existing, []), sub, Additions(current, wasEmpty, previous));
    RetitleAll(a.(entries := p.entries, nextId := p.nextId, index := Reindexed(a.index, p.added)), sub, Titled(current))
  }

  // --- The codes the lookups report ---

  /** What a lookup must find: the index has the code, or the backfill is not done and the patterns reach it. */
  ghost predicate MustFind(a: Archive, sub: nat, code: string) {
    (exists id :: Alias(id, sub, code) in a.index) || (!a.done && Reachable(a, sub, code))
  }

  /** What it may find: a row of the index, or a row of the subscription that carries the code. */
  ghost predicate MayFind(a: Archive, sub: nat, code: string) {
    exists id :: Alias(id, sub, code) in a.index || RowCarries(a, sub, Match(id, code))
  }

  ghost predicate LookupAllows(a: Archive, sub: nat, codes: seq<string>, existing: set<string>) {
    && (forall k :: k in existing ==> k in codes && MayFind(a, sub, k))
    && (forall k :: k in codes && MustFind(a, sub, k) ==> k in existing)
  }
}
