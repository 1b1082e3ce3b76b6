/**
  The titles that a scan commit in slices leaves (server/capture.ts).

  A call inserts its rows and then gives every row about which an item speaks that item's title. When no
  two items of a scan speak about one row, the slices leave the titles that one call would.
 */
module SliceTitles {
  import opened Options
  import opened ProductCodes
  import opened ArchiveLookup
  import opened ArchiveWrites
  import opened ArchiveItems
  import opened ArchiveInvariant
  import opened ArchiveRuns
  import opened ArchiveSlices
  import opened SliceAgreement
  import opened FullScan

  /** How many of the items speak about the row. */
  function Mentions(e: Entry, items: seq<Item>): nat {
    if items == [] then 0 else Mentions(e, items[..|items| - 1]) + if Concerns(items[|items| - 1], e) then 1 else 0
  }

  /** The title the last item about the row gives it. */
  function About(e: Entry, items: seq<Item>): Option<Option<string>> {
    if items == [] then None
    else if Concerns(items[|items| - 1], e) then Some(items[|items| - 1].title)
    else About(e, items[..|items| - 1])
  }

  function Told(e: Entry, items: seq<Item>): Option<string> { if About(e, items).Some? then About(e, items).value
      else e.title }

  lemma {:induction false} MentionsAppend(e: Entry, a: seq<Item>, b: seq<Item>)
    ensures Mentions(e, a + b) == Mentions(e, a) + Mentions(e, b)
    ensures About(e, a + b) == if About(e, b).Some? then About(e, b) else About(e, a)
  {
    hide Concerns;
    if b == [] {
      assert a + b == a;
    } else {
      MentionsAppend(e, a, b[..|b| - 1]);
      assert (a + b)[..|a + b| - 1] == a + b[..|b| - 1];
    }
  }

  /** The title of the row decides nothing. */
  lemma {:induction false} MentionsSame(e: Entry, f: Entry, items: seq<Item>)
    requires e.(title := None) == f.(title := None)
    ensures Mentions(e, items) == Mentions(f, items) && About(e, items) == About(f, items)
  {
    if items != [] {
      MentionsSame(e, f, items[..|items| - 1]);
    }
  }

  lemma {:induction false} NotMentioned(e: Entry, items: seq<Item>)
    requires Mentions(e, items) == 0
    ensures About(e, items) == None && NewTitle(e, items) == e.title
  {
    hide Concerns;
    if items != [] {
      NotMentioned(e, items[..|items| - 1]);
    }
  }

  lemma {:induction false} NewTitleIs(e: Entry, batch: seq<Item>)
    requires Mentions(e, batch) <= 1
    ensures NewTitle(e, batch) == Told(e, batch)
  {
    hide Concerns;
    if batch != [] {
      var init := batch[..|batch| - 1];
      if Concerns(batch[|batch| - 1], e) {
        NotMentioned(e, init);
      } else {
        NewTitleIs(e, init);
      }
    }
  }

  /**
    The title that batches of items, a hundred titled ones each, leave a row with: a batch compares with the
    title it finds.
   */
  function Retold(e: Entry, titled: seq<Item>): Option<string>
    decreases |titled|
  {
    if titled == [] then e.title
    else
      var n := Min(CHUNK, |titled|);
      Retold(e.(title := NewTitle(e, titled[..n])), titled[n..])
  }

  lemma {:induction false} RetitleAllIs(a: Archive, sub: nat, titled: seq<Item>, i: nat)
    requires i < |a.entries|
    ensures var b := RetitleAll(a, sub, titled);
      && |b.entries| == |a.entries|
      && b.entries[i] == if a.entries[i].sub == sub then a.entries[i].(title := Retold(a.entries[i], titled))
           else a.entries[i]
    decreases |titled|
  {
    hide NewTitle;
    if titled != [] {
      var n := Min(CHUNK, |titled|);
      RetitleAllIs(RetitleBatch(a, sub, titled[..n]), sub, titled[n..], i);
    }
  }

  /** Where one item at most speaks about the row, the batches leave the title it says. */
  lemma {:induction false} RetoldIsTold(e: Entry, titled: seq<Item>)
    requires Mentions(e, titled) <= 1
    ensures Retold(e, titled) == Told(e, titled)
    decreases |titled|
  {
    hide Mentions, NewTitle, About;
    if titled == [] {
      NothingSaid(e);
    } else {
      var n := Min(CHUNK, |titled|);
      var f := e.(title := NewTitle(e, titled[..n]));
      assert titled == titled[..n] + titled[n..];
      MentionsAppend(e, titled[..n], titled[n..]);
      MentionsSame(e, f, titled[n..]);
      NewTitleIs(e, titled[..n]);
      RetoldIsTold(f, titled[n..]);
    }
  }

  lemma NothingSaid(e: Entry)
    ensures About(e, []) == None
  {
  }

  lemma {:induction false} TitledMentions(e: Entry, items: seq<Item>)
    ensures Mentions(e, Titled(items)) <= Mentions(e, items)
  {
    hide Concerns;
    if items != [] {
      var init, last := items[..|items| - 1], items[|items| - 1];
      TitledMentions(e, init);
      TitledLast(items);
      hide Titled;
    }
  }

  lemma TitledLast(items: seq<Item>)
    requires items != []
    ensures var init, last, titled := items[..|items| - 1], items[|items| - 1], Titled(items);
            if Truthy(last.title) then titled != [] && titled[..|titled| - 1] == Titled(init)
                && titled[|titled| - 1] == last
            else titled == Titled(init)
  {
  }

  lemma {:induction false} TitledAppend(a: seq<Item>, b: seq<Item>)
    ensures Titled(a + b) == Titled(a) + Titled(b)
  {
    if b == [] {
      assert a + b == a;
    } else {
      TitledAppend(a, b[..|b| - 1]);
      assert (a + b)[..|a + b| - 1] == a + b[..|b| - 1];
    }
  }

  /** The one item about a row: the row is told its title, if it has one. */
  lemma {:induction false} OnlyMention(e: Entry, items: seq<Item>, j: nat)
    requires j < |items| && Concerns(items[j], e)
    ensures Mentions(e, items) >= 1
    ensures Mentions(e, items) == 1 ==> About(e, Titled(items)) == if Truthy(items[j].title) then Some(items[j].title)
        else None
  {
    hide Concerns;
    var init, last := items[..|items| - 1], items[|items| - 1];
    assert items == init + [last];
    TitledLast(items);
    hide Titled;
    if j == |init| {
      if Mentions(e, items) == 1 {
        TitledMentions(e, init);
        NotMentioned(e, Titled(init));
      }
    } else {
      OnlyMention(e, init, j);
    }
  }

  // --- One call ---

  /** A row that the insert loop added is that of one of the items. */
  lemma {:induction false} InsertedRow(p: Pass, sub: nat, items: seq<Item>, i: nat) returns (j: nat)
    requires i < |InsertAll(p, sub, items).entries|
    ensures var after := InsertAll(p, sub, items).entries;
      && p.entries <= after
      && (|p.entries| <= i ==> j < |items| && after[i] == NewEntry(after[i].id, sub, items[j]))
  {
    hide ArchiveKey, HashTaken;
    InsertedPrefix(p, sub, items);
    j := 0;
    if items != [] {
      var n := |items| - 1;
      InsertedPrefix(p, sub, items[..n]);
      if i < |InsertAll(p, sub, items[..n]).entries| {
        j := InsertedRow(p, sub, items[..n], i);
      } else {
        j := n;
      }
    }
  }

  lemma {:induction false} InsertedPrefix(p: Pass, sub: nat, items: seq<Item>)
    ensures p.entries <= InsertAll(p, sub, items).entries
  {
    hide ArchiveKey, HashTaken;
    if items != [] {
      InsertedPrefix(p, sub, items[..|items| - 1]);
    }
  }

  /** A row with a title of its own choosing. */
  function Titling(e: Entry, title: Option<string>): Entry { e.(title := title) }

  /** What a call leaves a row it found as, and a row it inserted for an item as. */
  lemma TxRow(x: Archive, sub: nat, items: seq<Item>, w: bool, previous: set<string>, existing: set<string>, i: nat)
      returns (j: nat)
    requires DistinctContents(items) && i < |ArchiveTx(x, sub, items, w, previous, existing).entries|
    ensures var b := ArchiveTx(x, sub, items, w, previous, existing);
      && |x.entries| <= |b.entries|
      && (i < |x.entries| ==>
            var e := x.entries[i]; b.entries[i] == if e.sub == sub then Titling(e, Retold(e, Titled(items))) else e)
      && (|x.entries| <= i ==>
            j < |Additions(items, w, previous)| &&
            var e := NewEntry(b.entries[i].id, sub, Additions(items, w, previous)[j]);
                b.entries[i] == Titling(e, Retold(e, Titled(items))))
  {
    DistinctAreUnique(items);
    hide UniqueItems, Additions, Titled, InsertAll, Reindexed, RetitleAll, ArchiveKey, DistinctContents, Retold;
    var additions := Additions(items, w, previous);
    var p := InsertAll(Pass(x.entries, x.nextId, existing, []), sub, additions);
    var a := x.(entries := p.entries, nextId := p.nextId, index := Reindexed(x.index, p.added));
    assert ArchiveTx(x, sub, items, w, previous, existing) == RetitleAll(a, sub, Titled(items));
    RetitleAllLength(a, sub, Titled(items));
    RetitleAllIs(a, sub, Titled(items), i);
    InsertedPrefix(Pass(x.entries, x.nextId, existing, []), sub, additions);
    j := InsertedRow(Pass(x.entries, x.nextId, existing, []), sub, additions, i);
  }

  // --- A commit in slices ---

  /** The title of a row after the slices from `m` on, up to `n`: each of them speaks in batches of its own. */
  function TitleBy(e: Entry, c: Cut, m: nat, n: nat): Option<string>
    requires n <= |c.slices|
  {
    if n <= m then e.title else Retold(Titling(e, TitleBy(e, c, m, n - 1)), Titled(c.slices[n - 1]))
  }

  /** The id of a row decides nothing about its title. */
  lemma {:induction false} NewTitleSame(e: Entry, f: Entry, batch: seq<Item>)
    requires e.(id := f.id) == f
    ensures NewTitle(e, batch) == NewTitle(f, batch)
  {
    if batch != [] {
      NewTitleSame(e, f, batch[..|batch| - 1]);
    }
  }

  lemma {:induction false} RetoldSame(e: Entry, f: Entry, titled: seq<Item>)
    requires e.(id := f.id) == f
    ensures Retold(e, titled) == Retold(f, titled)
    decreases |titled|
  {
    hide NewTitle;
    if titled != [] {
      var n := Min(CHUNK, |titled|);
      NewTitleSame(e, f, titled[..n]);
      RetoldSame(e.(title := NewTitle(e, titled[..n])), f.(title := NewTitle(f, titled[..n])), titled[n..]);
    }
  }

  lemma {:induction false} TitleBySame(e: Entry, f: Entry, c: Cut, m: nat, n: nat)
    requires n <= |c.slices| && e.(id := f.id) == f
    ensures TitleBy(e, c, m, n) == TitleBy(f, c, m, n)
    decreases n
  {
    if m < n {
      TitleBySame(e, f, c, m, n - 1);
      RetoldSame(Titling(e, TitleBy(e, c, m, n - 1)), Titling(f, TitleBy(f, c, m, n - 1)), Titled(c.slices[n - 1]));
    }
  }

  /**
    The slices so far leave an old row with the title they tell it, and insert a row for an item of one of
    them, which those after it tell.
   */
  ghost predicate RowBy(a: Archive, c: Cut, n: nat, entries: seq<Entry>, i: nat, m: nat, l: nat)
    requires n <= |c.slices| && i < |entries|
  {
    && (i < |a.entries| ==>
          var e := a.entries[i]; entries[i] == if e.sub == c.sub then Titling(e, TitleBy(e, c, 0, n)) else e)
    && (|a.entries| <= i ==>
          m < n && l < |AdditionsOf(c, m)| &&
          var e := NewEntry(entries[i].id, c.sub, AdditionsOf(c, m)[l]); entries[i] == Titling(e, TitleBy(e, c, m, n)))
  }

  lemma {:induction false} UptoRow(a: Archive, c: Cut, known: seq<set<string>>, n: nat, i: nat) returns (m: nat, l: nat)
    requires |known| == |c.slices| && n <= |c.slices| && forall j ::
        0 <= j < |c.slices| ==> DistinctContents(c.slices[j])
    requires i < |Upto(a, c, known, n).entries|
    ensures RowBy(a, c, n, Upto(a, c, known, n).entries, i, m, l)
  {
    hide *;
    m, l := 0, 0;
    if n == 0 {
      UptoStart(a, c, known);
      NoSliceRow(a, c, i);
    } else {
      var x, items := Upto(a, c, known, n - 1), c.slices[n - 1];
      UptoNext(a, c, known, n - 1);
      l := TxRow(x, c.sub, items, c.wasEmpty, c.previous, known[n - 1], i);
      if i < |x.entries| {
        m, l := UptoRow(a, c, known, n - 1, i);
        RowOn(a, c, n, x.entries, Upto(a, c, known, n).entries, i, m, l);
      } else {
        m := n - 1;
        UptoKeepsRows(a, c, known, n - 1);
        RowAnew(a, c, n, x.entries, Upto(a, c, known, n).entries, i, l);
      }
    }
  }

  lemma NoSliceRow(a: Archive, c: Cut, i: nat)
    requires i < |a.entries|
    ensures RowBy(a, c, 0, a.entries, i, 0, 0)
  {
  }

  lemma RowOn(a: Archive, c: Cut, n: nat, was: seq<Entry>, now: seq<Entry>, i: nat, m: nat, l: nat)
    requires 0 < n <= |c.slices| && i < |was| && i < |now| && RowBy(a, c, n - 1, was, i, m, l)
    requires now[i] == if was[i].sub == c.sub then Titling(was[i], Retold(was[i], Titled(c.slices[n - 1]))) else was[i]
    ensures RowBy(a, c, n, now, i, m, l)
  {
    hide Retold, Titled, AdditionsOf;
  }

  lemma RowAnew(a: Archive, c: Cut, n: nat, was: seq<Entry>, now: seq<Entry>, i: nat, l: nat)
    requires 0 < n <= |c.slices| && |a.entries| <= |was| <= i < |now|
    requires l < |Additions(c.slices[n - 1], c.wasEmpty, c.previous)| && DistinctContents(c.slices[n - 1])
    requires var e := NewEntry(now[i].id, c.sub, Additions(c.slices[n - 1], c.wasEmpty, c.previous)[l]);
             now[i] == Titling(e, Retold(e, Titled(c.slices[n - 1])))
    ensures RowBy(a, c, n, now, i, n - 1, l)
  {
    DistinctAreUnique(c.slices[n - 1]);
    hide Retold, Titled, UniqueItems, Additions;
    var e := NewEntry(now[i].id, c.sub, AdditionsOf(c, n - 1)[l]);
    assert TitleBy(e, c, n - 1, n - 1) == e.title;
  }

  lemma {:induction false} UptoKeepsRows(a: Archive, c: Cut, known: seq<set<string>>, n: nat)
    requires |known| == |c.slices| && n <= |c.slices|
    ensures |a.entries| <= |Upto(a, c, known, n).entries|
  {
    hide *;
    if n == 0 {
      UptoStart(a, c, known);
    } else {
      UptoNext(a, c, known, n - 1);
      UptoKeepsRows(a, c, known, n - 1);
      TxKeepsRows(Upto(a, c, known, n - 1), c.sub, c.slices[n - 1], c.wasEmpty, c.previous, known[n - 1]);
    }
  }

  lemma TxKeepsRows(a: Archive, sub: nat, items: seq<Item>, w: bool, previous: set<string>, existing: set<string>)
    ensures |a.entries| <= |ArchiveTx(a, sub, items, w, previous, existing).entries|
  {
    hide UniqueItems, Additions, Titled, InsertAll, Reindexed, RetitleAll;
    var additions := Additions(UniqueItems(items), w, previous);
    var p := InsertAll(Pass(a.entries, a.nextId, existing, []), sub, additions);
    InsertedPrefix(Pass(a.entries, a.nextId, existing, []), sub, additions);
    RetitleAllLength(a.(entries := p.entries, nextId := p.nextId, index := Reindexed(a.index, p.added)), sub,
        Titled(UniqueItems(items)));
  }

  // --- When the titles agree ---

  lemma StemsConcerns(e: Entry, item: Item)
    requires e.hashed == item.content
    ensures Concerns(item, e)
  {
  }

  lemma FlattenNext(c: Cut, n: nat)
    requires n < |c.slices|
    ensures Flatten(c.slices[..n + 1]) == Flatten(c.slices[..n]) + c.slices[n]
  {
    assert c.slices[..n + 1][..n] == c.slices[..n];
  }

  lemma ToldTwice(e: Entry, a: seq<Item>, b: seq<Item>)
    ensures Told(e.(title := Told(e, Titled(a))), Titled(b)) == Told(e, Titled(a + b))
  {
    TitledAppend(a, b);
    MentionsAppend(e, Titled(a), Titled(b));
    MentionsSame(e, e.(title := Told(e, Titled(a))), Titled(b));
    hide About, Titled;
  }

  lemma UntoldStays(e: Entry, items: seq<Item>)
    requires Mentions(e, items) == 0
    ensures Told(e, Titled(items)) == e.title
  {
    TitledMentions(e, items);
    NotMentioned(e, Titled(items));
  }

  /** What the slices, and what one call, leave of one and the same row. */
  lemma RowBoth(a: Archive, c: Cut, known: seq<set<string>>, existing: set<string>, i: nat) returns (m: nat, l: nat)
    requires |known| == |c.slices| && DistinctContents(Flatten(c.slices))
    requires var whole := ArchiveTx(a, c.sub, Flatten(c.slices), c.wasEmpty, c.previous, existing);
             SameRows(Upto(a, c, known, |c.slices|), whole) && i < |whole.entries|
    ensures |Upto(a, c, known, |c.slices|).entries|
        == |ArchiveTx(a, c.sub, Flatten(c.slices), c.wasEmpty, c.previous, existing).entries|
    ensures var sliced := Upto(a, c, known, |c.slices|).entries;
            var whole := ArchiveTx(a, c.sub, Flatten(c.slices), c.wasEmpty, c.previous, existing).entries;
      && RowBy(a, c, |c.slices|, sliced, i, m, l)
      && (i < |a.entries| ==>
            var e := a.entries[i]; whole[i] == if e.sub == c.sub then Titling(e, Retold(e, Titled(Flatten(c.slices))))
                else e)
      && (|a.entries| <= i ==>
            var e := NewEntry(sliced[i].id, c.sub, AdditionsOf(c, m)[l]);
                whole[i] == Titling(e, Retold(e, Titled(Flatten(c.slices)))))
  {
    var all, end := Flatten(c.slices), |c.slices|;
    var whole := ArchiveTx(a, c.sub, all, c.wasEmpty, c.previous, existing);
    SameRowsAre(Upto(a, c, known, end), whole);
    DistinctWithin(c.slices);
    hide Upto, Flatten, ArchiveTx, Retold, Titled, DistinctContents, TitleBy, Additions, UniqueItems, SameRows;
    m, l := UptoRow(a, c, known, end, i);
    var j := TxRow(a, c.sub, all, c.wasEmpty, c.previous, existing, i);
    if |a.entries| <= i {
      SameItem(c, m, l, j);
    }
  }

  /** An addition of one call and one of a slice with the same content are the same item. */
  lemma SameItem(c: Cut, m: nat, l: nat, j: nat)
    requires DistinctContents(Flatten(c.slices)) && m < |c.slices| && l < |AdditionsOf(c, m)|
    requires j < |Additions(Flatten(c.slices), c.wasEmpty, c.previous)|
    ensures var all := Additions(Flatten(c.slices), c.wasEmpty, c.previous);
            all[j].content == AdditionsOf(c, m)[l].content ==> all[j] == AdditionsOf(c, m)[l]
  {
    DistinctWithin(c.slices);
    var all := Flatten(c.slices);
    var i := AdditionIsListed(c, m, l);
    FlattenAt(c.slices, m, i);
    UnknownAre(all, c.previous, Additions(all, c.wasEmpty, c.previous)[j]);
    var k :| 0 <= k < |all| && all[k] == Additions(all, c.wasEmpty, c.previous)[j];
    hide Flatten, Additions, UniqueItems;
  }

  lemma {:induction false} TitleByIsTold(e: Entry, c: Cut, n: nat)
    requires n <= |c.slices| && Mentions(e, Flatten(c.slices[..n])) <= 1
    ensures TitleBy(e, c, 0, n) == Told(e, Titled(Flatten(c.slices[..n])))
  {
    hide Mentions, Told, Titled, Retold, Flatten;
    if n == 0 {
      NothingTold(e, c);
    } else {
      var before, items := Flatten(c.slices[..n - 1]), c.slices[n - 1];
      FlattenNext(c, n - 1);
      MentionsAppend(e, before, items);
      TitleByIsTold(e, c, n - 1);
      var f := Titling(e, TitleBy(e, c, 0, n - 1));
      MentionsSame(e, f, items);
      TitledMentions(f, items);
      RetoldIsTold(f, Titled(items));
      ToldTwice(e, before, items);
    }
  }

  lemma NothingTold(e: Entry, c: Cut)
    ensures Told(e, Titled(Flatten(c.slices[..0]))) == e.title
  {
    assert Flatten(c.slices[..0]) == [] && Titled([]) == [];
  }

  /** A new row that only its own item speaks about keeps that item's title. */
  lemma {:induction false} NewRowKeepsTitle(e: Entry, c: Cut, m: nat, j: nat, n: nat)
    requires m <= n <= |c.slices| && m < |c.slices| && j < |c.slices[m]|
    requires e.hashed == c.slices[m][j].content && e.title == c.slices[m][j].title
        && Mentions(e, Flatten(c.slices)) <= 1
    ensures TitleBy(e, c, m, n) == e.title
    decreases n
  {
    hide Mentions, Titled, Retold, Flatten, Told, About;
    if m < n {
      NewRowKeepsTitle(e, c, m, j, n - 1);
      var items := c.slices[n - 1];
      StemsConcerns(e, c.slices[m][j]);
      assert Titling(e, e.title) == e;
      if n - 1 == m {
        MentionsPart(e, c.slices, m);
        OnlyMention(e, items, j);
        TitledMentions(e, items);
        RetoldIsTold(e, Titled(items));
        ToldOwn(e, items, j);
      } else {
        MentionsTwice(e, c.slices, m, j, n - 1);
        TitledMentions(e, items);
        UntoldStays(e, items);
        RetoldIsTold(e, Titled(items));
      }
    }
  }

  lemma ToldOwn(e: Entry, items: seq<Item>, j: nat)
    requires j < |items| && e.title == items[j].title
    requires About(e, Titled(items)) == if Truthy(items[j].title) then Some(items[j].title) else None
    ensures Told(e, Titled(items)) == e.title
  {
  }

  lemma {:induction false} MentionsPart(e: Entry, slices: seq<seq<Item>>, m: nat)
    requires m < |slices|
    ensures Mentions(e, slices[m]) <= Mentions(e, Flatten(slices))
  {
    hide Concerns;
    var init, last := slices[..|slices| - 1], slices[|slices| - 1];
    MentionsAppend(e, Flatten(init), last);
    if m < |init| {
      MentionsPart(e, init, m);
    }
  }

  /** A slice after that of the row's own item is silent about the row. */
  lemma {:induction false} MentionsTwice(e: Entry, slices: seq<seq<Item>>, m: nat, j: nat, k: nat)
    requires m < k < |slices| && j < |slices[m]| && Concerns(slices[m][j], e) && Mentions(e, Flatten(slices)) <= 1
    ensures Mentions(e, slices[k]) == 0
  {
    hide Concerns, Mentions;
    var init, last := slices[..|slices| - 1], slices[|slices| - 1];
    MentionsAppend(e, Flatten(init), last);
    if k < |init| {
      MentionsTwice(e, init, m, j, k);
    } else {
      MentionsPart(e, init, m);
      OnlyMention(e, slices[m], j);
    }
  }

  /** No two items speak about one row of the subscription. */
  ghost predicate OneItemEach(entries: seq<Entry>, sub: nat, items: seq<Item>) {
    forall i :: 0 <= i < |entries| && entries[i].sub == sub ==> Mentions(entries[i], items) <= 1
  }

  /**
    When the slices agree with one call, and no two items speak about one row, the tables come out the same
    in every column.
   */
  lemma SlicesLeaveTheSame(a: Archive, target: Option<nat>, c: Cut, known: seq<set<string>>, existing: set<string>)
    requires |known| == |c.slices| && Valid(a, target) && DistinctContents(Flatten(c.slices))
    requires SlicesAllowed(a, c.sub, c.slices, c.wasEmpty, c.previous, known)
    requires LookupAllows(a, c.sub, CandidateCodes(Additions(UniqueItems(Flatten(c.slices)), c.wasEmpty, c.previous)),
        existing)
    requires forall n :: 0 <= n < |c.slices| ==> AgreeAt(a, c, known, existing, n)
    requires OneItemEach(ArchiveTx(a, c.sub, Flatten(c.slices), c.wasEmpty, c.previous, existing).entries, c.sub,
        Flatten(c.slices))
    ensures var sliced := CommitSlices(a, c.sub, c.slices, c.wasEmpty, c.previous, known);
            var whole := ArchiveTx(a, c.sub, Flatten(c.slices), c.wasEmpty, c.previous, existing);
            sliced.entries == whole.entries && sliced.nextId == whole.nextId
  {
    var all, end := Flatten(c.slices), |c.slices|;
    var whole := ArchiveTx(a, c.sub, all, c.wasEmpty, c.previous, existing);
    assert c.slices[..end] == c.slices && known[..end] == known;
    hide *;
    SlicesAgreeExactly(a, target, c, known, existing);
    DistinctWithin(c.slices);
    var sliced := CommitSlices(a, c.sub, c.slices, c.wasEmpty, c.previous, known);
    assert sliced == Upto(a, c, known, end) by { UptoAll(a, c, known); }
    SameRowsAre(sliced, whole);
    forall i | 0 <= i < |whole.entries| ensures sliced.entries[i] == whole.entries[i] {
      SameRow(a, c, known, whole, existing, i);
    }
  }

  lemma UptoAll(a: Archive, c: Cut, known: seq<set<string>>)
    requires |known| == |c.slices|
    ensures Upto(a, c, known, |c.slices|) == CommitSlices(a, c.sub, c.slices, c.wasEmpty, c.previous, known)
  {
    assert c.slices[..|c.slices|] == c.slices && known[..|c.slices|] == known;
  }

  lemma SameRowsAre(x: Archive, y: Archive)
    requires SameRows(x, y)
    ensures |x.entries| == |y.entries| && x.nextId == y.nextId
    ensures forall i :: 0 <= i < |x.entries| ==> x.entries[i].(title := None) == y.entries[i].(title := None)
  {
    forall i | 0 <= i < |x.entries| ensures x.entries[i].(title := None) == y.entries[i].(title := None) {
      assert Untitled(x.entries)[i] == Untitled(y.entries)[i];
    }
  }

  lemma SameRow(a: Archive, c: Cut, known: seq<set<string>>, whole: Archive, existing: set<string>, i: nat)
    requires |known| == |c.slices| && DistinctContents(Flatten(c.slices))
    requires whole == ArchiveTx(a, c.sub, Flatten(c.slices), c.wasEmpty, c.previous, existing)
    requires OneItemEach(whole.entries, c.sub, Flatten(c.slices)) && SameRows(Upto(a, c, known, |c.slices|), whole)
    requires i < |whole.entries| && i < |Upto(a, c, known, |c.slices|).entries|
    ensures Upto(a, c, known, |c.slices|).entries[i] == whole.entries[i]
  {
    hide Upto, Flatten, Mentions, ArchiveTx, Told, Titled, DistinctContents, Retold, TitleBy, SameRows, AdditionsOf,
        Concerns;
    var all, end := Flatten(c.slices), |c.slices|;
    assert c.slices[..end] == c.slices;
    var m, l := RowBoth(a, c, known, existing, i);
    var e := whole.entries[i];
    if i < |a.entries| {
      var f := a.entries[i];
      MentionsSame(f, e, all);
      TitledMentions(f, all);
      if f.sub == c.sub {
        TitleByIsTold(f, c, end);
        RetoldIsTold(f, Titled(all));
      }
    } else {
      var f := NewEntry(e.id, c.sub, AdditionsOf(c, m)[l]);
      MentionsSame(f, e, all);
      TitledMentions(f, all);
      DistinctWithin(c.slices);
      var j := AdditionIsListed(c, m, l);
      NewRowKeepsTitle(f, c, m, j, end);
      FlattenAt(c.slices, m, j);
      StemsConcerns(f, c.slices[m][j]);
      OnlyMention(f, all, |Flatten(c.slices[..m])| + j);
      RetoldIsTold(f, Titled(all));
      ToldOwn(f, all, |Flatten(c.slices[..m])| + j);
    }
  }
}
