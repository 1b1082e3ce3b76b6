/**
  The local snapshot of the Jellyfin libraries (server/jellyfin.ts, server/jellyfin-cache.ts,
  server/jellyfin-match.ts): a pager reads each library, a writer replaces the snapshot page by page,
  and lookups use the snapshot in place of the server.
 */
module JellyfinIndex {
  import opened Options
  import opened ProductCodes

  /** `source` is the name, the original title and the path, joined by blanks. */
  datatype Media = Media(id: nat, library: string, name: string, source: string)

  /** A record of the server: the pager drops what is no video. */
  datatype Record = Record(media: Option<Media>)

  const PAGE_SIZE := 500

  // --- The pager ---

  /** What the server gives for one request: it may cap the page below the limit asked for, never at nothing. */
  function Reply(list: seq<Record>, start: nat, cap: nat): seq<Record>
    requires start <= |list|
  {
    if cap < |list| - start then list[start..start + cap] else list[start..]
  }

  function PageCap(caps: nat -> nat, request: nat): nat {
    if caps(request) == 0 then 1 else if caps(request) < PAGE_SIZE then caps(request) else PAGE_SIZE
  }

  function Videos(page: seq<Record>): seq<Media> {
    if page == [] then []
    else Videos(page[..|page| - 1]) + if page[|page| - 1].media.Some? then [page[|page| - 1].media.value] else []
  }

  lemma {:induction false} VideosAppend(a: seq<Record>, b: seq<Record>)
    ensures Videos(a + b) == Videos(a) + Videos(b)
  {
    if b == [] {
      assert a + b == a;
    } else {
      VideosAppend(a, b[..|b| - 1]);
      assert (a + b)[..|a + b| - 1] == a + b[..|b| - 1];
    }
  }

  /** How many records of the list are videos. */
  function VideoCount(list: seq<Record>): nat {
    if list == [] then 0 else VideoCount(list[1..]) + if list[0].media.Some? then 1 else 0
  }

  /** Every video of the list is kept, in its place among the others, and nothing else. */
  lemma {:induction false} VideosAre(list: seq<Record>, i: nat)
    requires i < |list|
    ensures |Videos(list)| == VideoCount(list)
    ensures list[i].media.Some? ==>
              VideoCount(list[..i]) < |Videos(list)| && Videos(list)[VideoCount(list[..i])] == list[i].media.value
  {
    if |list| == 1 {
      assert list[..0] == [] && list[1..] == [];
      assert Videos(list[..0]) == [];
    } else {
      var head, tail := list[..1], list[1..];
      assert list == head + tail;
      VideosAppend(head, tail);
      VideosAre(tail, if i == 0 then 0 else i - 1);
      assert head[..0] == [] && Videos(head[..0]) == [];
      if i > 0 {
        assert list[..i][1..] == tail[..i - 1];
      }
    }
  }

  function Flat(pages: seq<seq<Media>>): seq<Media> {
    if pages == [] then [] else Flat(pages[..|pages| - 1]) + pages[|pages| - 1]
  }

  lemma FlatNext(pages: seq<seq<Media>>, page: seq<Media>)
    ensures Flat(pages + [page]) == Flat(pages) + page
  {
    assert (pages + [page])[..|pages|] == pages;
  }

  /**
    Reads one library over a list that does not change, and hands on the videos of each page. With a
    total in the replies every record is read once and in order, whatever the caps; without one the
    reading stops after the first page.
   */
  method StreamLibrary(list: seq<Record>, caps: nat -> nat, reportsTotal: bool)
      returns (pages: seq<seq<Media>>, scannedRaw: nat)
    ensures scannedRaw <= |list| && Flat(pages) == Videos(list[..scannedRaw])
    ensures scannedRaw == |list| <==>
            reportsTotal || |list| <= if caps(0) == 0 then 1 else if caps(0) < 500 then caps(0) else 500
    ensures !reportsTotal ==> |pages| == 1
    ensures |pages| <= |list| + 1
  {
    hide Flat, Videos;
    pages := [];
    assert Flat([]) == Videos(list[..0]) by { NothingYet(list); }
    var startIndex: nat := 0;
    var total: Option<nat> := None;
    var reading := true;
    while reading && (total.None? || startIndex < total.value)
      invariant startIndex <= |list| && Flat(pages) == Videos(list[..startIndex])
      invariant total.None? <==> pages == []
      invariant pages == [] ==> startIndex == 0 && reading
      invariant pages != [] && reportsTotal ==> total == Some(|list|)
      invariant pages != [] && !reportsTotal
          ==> |pages| == 1 && total == Some(startIndex) && startIndex == |Reply(list, 0, PageCap(caps, 0))|
      invariant !reading ==> startIndex == |list|
      invariant |pages| <= startIndex + (if reading then 0 else 1)
      decreases reading, if pages == [] then 1 else 0, |list| - startIndex
    {
      var page := Reply(list, startIndex, PageCap(caps, |pages|));
      var received := |page|;
      total := if reportsTotal then Some(|list|) else Some(startIndex + received);
      VideosAppend(list[..startIndex], page);
      assert list[..startIndex] + page == list[..startIndex + received];
      FlatNext(pages, Videos(page));
      pages := pages + [Videos(page)];
      if received == 0 {
        reading := false;
      } else {
        startIndex := startIndex + received;
      }
    }
    scannedRaw := startIndex;
  }

  lemma NothingYet(list: seq<Record>)
    ensures Flat([]) == Videos(list[..0])
  {
  }

  // --- The snapshot tables ---

  datatype Row = Row(library: string, name: string, source: string, syncId: nat, syncedAt: nat)

  datatype CodeRow = CodeRow(itemId: nat, code: string)

  datatype Sync = Sync(id: nat, at: nat)

  function RowOf(m: Media, sync: Sync): Row { Row(m.library, m.name, m.source, sync.id, sync.at) }

  /** The last version of an item in a list. */
  function LastOf(list: seq<Media>, id: nat): Option<Media> {
    if list == [] then None
    else if list[|list| - 1].id == id then Some(list[|list| - 1])
    else LastOf(list[..|list| - 1], id)
  }

  lemma {:induction false} LastOfAppend(a: seq<Media>, b: seq<Media>, id: nat)
    ensures LastOf(a + b, id) == if LastOf(b, id).Some? then LastOf(b, id) else LastOf(a, id)
  {
    if b == [] {
      assert a + b == a;
    } else {
      LastOfAppend(a, b[..|b| - 1], id);
      assert (a + b)[..|a + b| - 1] == a + b[..|b| - 1];
    }
  }

  /** Every code of an item is listed for it, and no other: in any state, between any two transactions. */
  ghost predicate CodesOk(items: map<nat, Row>, codes: set<CodeRow>) {
    forall c :: c in codes <==> c.itemId in items && c.code in MediaKeys(items[c.itemId].source)
  }

  /** The rows are what they were, but for the items streamed since, which stand in their last version. */
  ghost predicate Written(before: map<nat, Row>, items: map<nat, Row>, streamed: seq<Media>, sync: Sync) {
    forall id :: RowIs(before, items, LastOf(streamed, id), sync, id)
  }

  predicate RowIs(before: map<nat, Row>, items: map<nat, Row>, last: Option<Media>, sync: Sync, id: nat) {
    && (id in items <==> id in before || last.Some?)
    && (id in items ==> items[id] == if last.Some? then RowOf(last.value, sync) else before[id])
  }

  function KeysFor(m: Media): set<CodeRow> { set k | k in MediaKeys(m.source) :: CodeRow(m.id, k) }

  function WithoutItem(codes: set<CodeRow>, id: nat): set<CodeRow> { set c | c in codes && c.itemId != id }

  lemma WriteOneCodes(items: map<nat, Row>, codes: set<CodeRow>, m: Media, sync: Sync)
    requires CodesOk(items, codes)
    ensures CodesOk(items[m.id := RowOf(m, sync)], WithoutItem(codes, m.id) + KeysFor(m))
  {
    hide MediaKeys;
    var after, later := items[m.id := RowOf(m, sync)], WithoutItem(codes, m.id) + KeysFor(m);
    forall c ensures c in later <==> c.itemId in after && c.code in MediaKeys(after[c.itemId].source) {
      assert c in KeysFor(m) <==> c == CodeRow(m.id, c.code) && c.code in MediaKeys(m.source);
    }
  }

  lemma WrittenMore(before: map<nat, Row>, items: map<nat, Row>, streamed: seq<Media>, sync: Sync, m: Media)
    requires Written(before, items, streamed, sync)
    ensures Written(before, items[m.id := RowOf(m, sync)], streamed + [m], sync)
  {
    var after := items[m.id := RowOf(m, sync)];
    forall id ensures RowIs(before, after, LastOf(streamed + [m], id), sync, id) {
      assert RowIs(before, items, LastOf(streamed, id), sync, id);
      assert (streamed + [m])[..|streamed|] == streamed;
    }
  }

  /** `new Map(media.map(…)).values()`: each id once, in its last version, at the place of its first. */
  function PutMedia(list: seq<Media>, m: Media): seq<Media> {
    if list == [] then [m]
    else if list[0].id == m.id then [m] + list[1..]
    else [list[0]] + PutMedia(list[1..], m)
  }

  function UniqueMedia(media: seq<Media>): seq<Media> {
    if media == [] then [] else PutMedia(UniqueMedia(media[..|media| - 1]), media[|media| - 1])
  }

  predicate DistinctIds(list: seq<Media>) { forall i, j :: 0 <= i < j < |list| ==> list[i].id != list[j].id }

  lemma {:induction false} PutMediaAt(list: seq<Media>, m: Media) returns (i: nat)
    requires DistinctIds(list)
    ensures var r := PutMedia(list, m); i < |r| && r[i] == m && |list| <= |r| <= |list| + 1
    ensures var r := PutMedia(list, m);
        forall k :: 0 <= k < |r| && k != i ==> k < |list| && r[k] == list[k] && list[k].id != m.id
    ensures var r := PutMedia(list, m); i < |list| ==> list[i].id == m.id && |r| == |list|
    ensures i == |list| ==> |PutMedia(list, m)| == |list| + 1
  {
    i := 0;
    if list != [] && list[0].id != m.id {
      i := PutMediaAt(list[1..], m);
      i := i + 1;
    }
  }

  lemma PutMediaKeeps(list: seq<Media>, m: Media)
    requires DistinctIds(list)
    ensures DistinctIds(PutMedia(list, m))
  {
    var i := PutMediaAt(list, m);
    hide PutMedia;
  }

  lemma {:induction false} LastOfDistinct(list: seq<Media>, i: nat)
    requires DistinctIds(list) && i < |list|
    ensures LastOf(list, list[i].id) == Some(list[i])
  {
    if i < |list| - 1 {
      LastOfDistinct(list[..|list| - 1], i);
    }
  }

  lemma {:induction false} LastOfIsListed(list: seq<Media>, id: nat) returns (i: nat)
    ensures LastOf(list, id).Some? ==> i < |list| && list[i].id == id && LastOf(list, id) == Some(list[i])
    ensures LastOf(list, id).Some? ==> forall k :: i < k < |list| ==> list[k].id != id
    ensures LastOf(list, id).None? ==> forall k :: 0 <= k < |list| ==> list[k].id != id
  {
    i := 0;
    if list != [] {
      if list[|list| - 1].id == id {
        i := |list| - 1;
      } else {
        i := LastOfIsListed(list[..|list| - 1], id);
      }
    }
  }

  lemma PutMediaLast(list: seq<Media>, m: Media, id: nat)
    requires DistinctIds(list)
    ensures LastOf(PutMedia(list, m), id) == if id == m.id then Some(m) else LastOf(list, id)
  {
    PutMediaKeeps(list, m);
    var r := PutMedia(list, m);
    var i := PutMediaAt(list, m);
    hide PutMedia;
    if id == m.id {
      LastOfDistinct(r, i);
    } else {
      var k := LastOfIsListed(list, id);
      if LastOf(list, id).Some? {
        assert k != i && r[k] == list[k];
        LastOfDistinct(r, k);
      } else {
        var l := LastOfIsListed(r, id);
      }
    }
  }

  /** Dropping the earlier versions within a page keeps the last version of every item. */
  lemma {:induction false} UniqueMediaLast(media: seq<Media>, id: nat)
    ensures DistinctIds(UniqueMedia(media)) && LastOf(UniqueMedia(media), id) == LastOf(media, id)
  {
    if media != [] {
      var init, last := media[..|media| - 1], media[|media| - 1];
      UniqueMediaLast(init, id);
      PutMediaKeeps(UniqueMedia(init), last);
      PutMediaLast(UniqueMedia(init), last, id);
    }
  }

  predicate Outdated(libraries: seq<string>, sync: Sync, r: Row) { r.library in libraries && r.syncId != sync.id }

  // --- The writer ---

  class MediaIndexWriter {
    const sync: Sync
    const libraries: seq<string>
    var items: map<nat, Row>
    var codes: set<CodeRow>
    var mediaCount: nat
    var codeCount: nat

    /** The tables may hold anything earlier syncs left, finished or not. */
    constructor (sync: Sync, libraries: seq<string>, items: map<nat, Row>, codes: set<CodeRow>)
      requires libraries != [] && CodesOk(items, codes)
      ensures this.sync == sync && this.libraries == libraries && this.items == items && this.codes == codes
      ensures mediaCount == 0 && codeCount == 0
    {
      this.sync, this.libraries, this.items, this.codes := sync, libraries, items, codes;
      mediaCount, codeCount := 0, 0;
    }

    /** One transaction: rows are upserted, then their old codes deleted, then their new codes inserted. */
    method WritePage(media: seq<Media>, ghost before: map<nat, Row>, ghost streamed: seq<Media>)
      requires CodesOk(items, codes) && Written(before, items, streamed, sync)
      modifies `items, `codes, `mediaCount, `codeCount
      ensures CodesOk(items, codes) && Written(before, items, streamed + media, sync)
      ensures mediaCount == old(mediaCount) + |UniqueMedia(media)|
    {
      var unique := UniqueMedia(media);
      ghost var start := items;
      var added: nat := 0;
      assert unique[..0] == [] && streamed + [] == streamed;
      for i := 0 to |unique|
        invariant CodesOk(items, codes) && Written(before, items, streamed + unique[..i], sync)
        invariant mediaCount == old(mediaCount)
        modifies `items, `codes
      {
        hide CodesOk, Written, MediaKeys;
        var m := unique[i];
        WriteOneCodes(items, codes, m, sync);
        WrittenMore(before, items, streamed + unique[..i], sync, m);
        assert streamed + unique[..i] + [m] == streamed + unique[..i + 1];
        items := items[m.id := RowOf(m, sync)];
        codes := WithoutItem(codes, m.id) + KeysFor(m);
        added := added + |MediaKeys(m.source)|;
      }
      assert unique[..|unique|] == unique;
      SameLast(before, items, streamed, unique, media, sync);
      mediaCount := mediaCount + |unique|;
      codeCount := codeCount + added;
    }

    /** Rows of the selected libraries that this sync did not see go, with their codes. */
    method Finalize()
      requires CodesOk(items, codes)
      modifies `items, `codes
      ensures CodesOk(items, codes)
      ensures forall id :: id in items <==> id in old(items) && !Outdated(libraries, sync, old(items)[id])
      ensures forall id :: id in items ==> items[id] == old(items)[id]
    {
      hide MediaKeys;
      codes := set c | c in codes && !(c.itemId in items && Outdated(libraries, sync, items[c.itemId]));
      items := map id | id in items && !Outdated(libraries, sync, items[id]) :: items[id];
    }
  }

  lemma SameLast(before: map<nat, Row>, items: map<nat, Row>, streamed: seq<Media>, unique: seq<Media>,
      media: seq<Media>, sync: Sync)
    requires unique == UniqueMedia(media) && Written(before, items, streamed + unique, sync)
    ensures Written(before, items, streamed + media, sync)
  {
    forall id ensures RowIs(before, items, LastOf(streamed + media, id), sync, id) {
      assert RowIs(before, items, LastOf(streamed + unique, id), sync, id);
      UniqueMediaLast(media, id);
      LastOfAppend(streamed, unique, id);
      LastOfAppend(streamed, media, id);
      hide LastOf, UniqueMedia;
    }
  }

  // --- A whole synchronisation ---

  datatype Library = Library(id: string, list: seq<Record>)

  /** What a library streams: its videos, each marked with the library. */
  predicate Marked(lib: Library) {
    forall i :: 0 <= i < |lib.list| && lib.list[i].media.Some? ==> lib.list[i].media.value.library == lib.id
  }

  function Streamed(libs: seq<Library>): seq<Media> {
    if libs == [] then [] else Streamed(libs[..|libs| - 1]) + Videos(libs[|libs| - 1].list)
  }

  function Ids(libs: seq<Library>): (r: seq<string>)
    ensures |r| == |libs| && forall i :: 0 <= i < |libs| ==> r[i] == libs[i].id
  {
    seq(|libs|, i requires 0 <= i < |libs| => libs[i].id)
  }

  predicate AllIn(media: seq<Media>, libraries: seq<string>) {
    forall i :: 0 <= i < |media| ==> media[i].library in libraries
  }

  lemma {:induction false} VideosIn(list: seq<Record>, libraries: seq<string>)
    requires forall i :: 0 <= i < |list| && list[i].media.Some? ==> list[i].media.value.library in libraries
    ensures AllIn(Videos(list), libraries)
  {
    if list != [] {
      VideosIn(list[..|list| - 1], libraries);
    }
  }

  lemma {:induction false} StreamedIn(libs: seq<Library>, libraries: seq<string>)
    requires forall i :: 0 <= i < |libs| ==> Marked(libs[i]) && libs[i].id in libraries
    ensures AllIn(Streamed(libs), libraries)
  {
    if libs != [] {
      var last := libs[|libs| - 1];
      assert Marked(last);
      StreamedIn(libs[..|libs| - 1], libraries);
      VideosIn(last.list, libraries);
    }
  }

  /**
    The rows in the selected libraries are exactly the last streamed version of each item; other libraries
    lose only items that moved.
   */
  ghost predicate Snapshot(before: map<nat, Row>, after: map<nat, Row>, streamed: seq<Media>, libraries: seq<string>,
      sync: Sync)
  {
    && (forall id :: id in after && after[id].library in libraries <==> LastOf(streamed, id).Some?)
    && (forall id :: LastOf(streamed, id).Some? && id in after ==>
          var last := LastOf(streamed, id).value;
          after[id] == Row(last.library, last.name, last.source, sync.id, sync.at))
    && (forall id ::
         id in after && after[id].library !in libraries
         <==> id in before && before[id].library !in libraries && LastOf(streamed, id).None?)
    && (forall id :: id in after && LastOf(streamed, id).None? ==> after[id] == before[id])
  }

  /** What a sync streams: the videos of every library, and those alone. */
  lemma {:induction false} StreamedAre(libs: seq<Library>, m: Media)
    ensures m in Streamed(libs) <==>
            exists i, k :: 0 <= i < |libs| && 0 <= k < |libs[i].list| && IsVideo(libs, i, k, m)
  {
    if libs != [] {
      var n := |libs| - 1;
      StreamedAre(libs[..n], m);
      VideoListed(libs[n].list, m);
      hide Streamed, Videos;
      assert Streamed(libs) == Streamed(libs[..n]) + Videos(libs[n].list) by { StreamedNext(libs); }
      if i, k :| 0 <= i < n && 0 <= k < |libs[..n][i].list| && IsVideo(libs[..n], i, k, m) {
        assert IsVideo(libs, i, k, m);
      }
      if i, k :| 0 <= i < |libs| && 0 <= k < |libs[i].list| && IsVideo(libs, i, k, m) {
        assert i < n ==> IsVideo(libs[..n], i, k, m);
      }
      if k :| 0 <= k < |libs[n].list| && libs[n].list[k].media == Some(m) {
        assert IsVideo(libs, n, k, m);
      }
    }
  }

  lemma StreamedNext(libs: seq<Library>)
    requires libs != []
    ensures Streamed(libs) == Streamed(libs[..|libs| - 1]) + Videos(libs[|libs| - 1].list)
  {
  }

  predicate IsVideo(libs: seq<Library>, i: nat, k: nat, m: Media)
    requires i < |libs| && k < |libs[i].list|
  {
    libs[i].list[k].media == Some(m)
  }

  lemma {:induction false} VideoListed(list: seq<Record>, m: Media)
    ensures m in Videos(list) <==> exists k :: 0 <= k < |list| && list[k].media == Some(m)
  {
    if list != [] {
      var n := |list| - 1;
      VideoListed(list[..n], m);
      if k :| 0 <= k < n && list[..n][k].media == Some(m) {
        assert list[k].media == Some(m);
      }
      if k :| 0 <= k < |list| && list[k].media == Some(m) {
        assert k < n ==> list[..n][k].media == Some(m);
      }
    }
  }

  /** A sync id is new: no row that an earlier sync left carries it. */
  predicate NewSync(items: map<nat, Row>, sync: Sync) { forall id :: id in items ==> items[id].syncId != sync.id }

  lemma FinalSnapshot(before: map<nat, Row>, written: map<nat, Row>, after: map<nat, Row>, streamed: seq<Media>,
      libraries: seq<string>, sync: Sync)
    requires NewSync(before, sync) && Written(before, written, streamed, sync) && AllIn(streamed, libraries)
    requires forall id :: id in after <==> id in written && !Outdated(libraries, sync, written[id])
    requires forall id :: id in after ==> after[id] == written[id]
    ensures Snapshot(before, after, streamed, libraries, sync)
  {
    forall id
      ensures id in after && after[id].library in libraries <==> LastOf(streamed, id).Some?
      ensures LastOf(streamed, id).Some? && id in after ==> after[id] == RowOf(LastOf(streamed, id).value, sync)
      ensures id in after && after[id].library !in libraries
          <==> id in before && before[id].library !in libraries && LastOf(streamed, id).None?
      ensures id in after && LastOf(streamed, id).None? ==> after[id] == before[id]
    {
      assert RowIs(before, written, LastOf(streamed, id), sync, id);
      var i := LastOfIsListed(streamed, id);
      hide LastOf, Written;
    }
  }

  /**
    The full sync from any earlier state, with totals reported and a new sync id: the snapshot is exact
    whatever the page caps of each library, and its codes are those of its rows.
   */
  method SyncLibraries(libs: seq<Library>, caps: nat -> nat -> nat, sync: Sync, items: map<nat, Row>,
      codes: set<CodeRow>)
      returns (after: map<nat, Row>, afterCodes: set<CodeRow>)
    requires libs != [] && CodesOk(items, codes) && NewSync(items, sync)
    requires forall i :: 0 <= i < |libs| ==> Marked(libs[i])
    ensures CodesOk(after, afterCodes) && Snapshot(items, after, Streamed(libs), Ids(libs), sync)
  {
    var writer: MediaIndexWriter := new MediaIndexWriter(sync, Ids(libs), items, codes);
    assert libs[..0] == [];
    NothingWritten(items, sync);
    for i := 0 to |libs|
      invariant writer.sync == sync && writer.libraries == Ids(libs)
      invariant CodesOk(writer.items, writer.codes) && Written(items, writer.items, Streamed(libs[..i]), sync)
      modifies writer`items, writer`codes, writer`mediaCount, writer`codeCount
    {
      hide CodesOk, Written;
      var pages, scanned := StreamLibrary(libs[i].list, caps(i), true);
      assert libs[i].list[..scanned] == libs[i].list;
      ghost var before := Streamed(libs[..i]);
      NoPagesYet(before);
      for k := 0 to |pages|
        invariant CodesOk(writer.items, writer.codes) && Written(items, writer.items, before + Flat(pages[..k]), sync)
        modifies writer`items, writer`codes, writer`mediaCount, writer`codeCount
      {
        writer.WritePage(pages[k], items, before + Flat(pages[..k]));
        FlatNext(pages[..k], pages[k]);
        assert pages[..k] + [pages[k]] == pages[..k + 1];
        assert before + Flat(pages[..k]) + pages[k] == before + Flat(pages[..k + 1]);
      }
      assert pages[..|pages|] == pages && libs[..i + 1][..i] == libs[..i];
    }
    assert libs[..|libs|] == libs;
    ghost var written := writer.items;
    writer.Finalize();
    StreamedIn(libs, Ids(libs)) by { assert forall i :: 0 <= i < |libs| ==> libs[i].id == Ids(libs)[i]; }
    FinalSnapshot(items, written, writer.items, Streamed(libs), Ids(libs), sync);
    after, afterCodes := writer.items, writer.codes;
  }

  lemma NoPagesYet(before: seq<Media>)
    ensures before + Flat([]) == before
  {
  }

  lemma NothingWritten(items: map<nat, Row>, sync: Sync)
    ensures Written(items, items, Streamed([]), sync)
  {
  }

  // --- Lookups ---

  /** ORDER BY synced_at DESC, item_id ASC. */
  predicate Sooner(items: map<nat, Row>, a: nat, b: nat)
    requires a in items && b in items
  {
    items[a].syncedAt > items[b].syncedAt || (items[a].syncedAt == items[b].syncedAt && a < b)
  }

  predicate Answers(items: map<nat, Row>, codes: set<CodeRow>, libraries: seq<string>, code: string, id: nat) {
    id in items && items[id].library in libraries && CodeRow(id, code) in codes
  }

  /** The first matching row in the order of the query. */
  ghost predicate IsFirst(items: map<nat, Row>, codes: set<CodeRow>, libraries: seq<string>, code: string, id: nat) {
    && Answers(items, codes, libraries, code, id)
    && forall other :: Answers(items, codes, libraries, code, other) && other != id ==> Sooner(items, id, other)
  }

  /** Of the rows of the selected libraries with the code it is the one synced last, and of those the smallest id. */
  lemma FirstIsNewest(items: map<nat, Row>, codes: set<CodeRow>, libraries: seq<string>, code: string, id: nat,
      other: nat)
    requires IsFirst(items, codes, libraries, code, id)
    requires other in items && items[other].library in libraries && CodeRow(other, code) in codes
    ensures id in items && items[id].library in libraries && CodeRow(id, code) in codes
    ensures items[other].syncedAt <= items[id].syncedAt
    ensures items[other].syncedAt == items[id].syncedAt ==> id <= other
  {
    assert Answers(items, codes, libraries, code, other);
  }

  method FindFirst(items: map<nat, Row>, codes: set<CodeRow>, code: string, libraries: seq<string>)
      returns (found: Option<nat>)
    ensures found.Some? ==> IsFirst(items, codes, libraries, code, found.value)
    ensures found.None? ==> forall id :: !Answers(items, codes, libraries, code, id)
  {
    found := None;
    var rest := items.Keys;
    while rest != {}
      invariant rest <= items.Keys
      invariant found.None? ==> forall id :: id !in rest ==> !Answers(items, codes, libraries, code, id)
      invariant found.Some? ==> Answers(items, codes, libraries, code, found.value) && found.value !in rest
      invariant found.Some? ==> forall id ::
          Answers(items, codes, libraries, code, id) && id !in rest && id != found.value
          ==> Sooner(items, found.value, id)
      decreases |rest|
    {
      var id :| id in rest;
      rest := rest - {id};
      if Answers(items, codes, libraries, code, id) && (found.None? || Sooner(items, id, found.value)) {
        found := Some(id);
      }
    }
  }

  /** What a lookup by code may give: the first matching row, or nothing when no row matches. */
  ghost predicate IsLookup(items: map<nat, Row>, codes: set<CodeRow>, libraries: seq<string>, code: string,
      found: Option<nat>)
  {
    match found
    case Some(id) => IsFirst(items, codes, libraries, code, id)
    case None => forall id :: !Answers(items, codes, libraries, code, id)
  }

  method FindCached(items: map<nat, Row>, codes: set<CodeRow>, content: string, libraries: seq<string>)
      returns (found: Option<nat>)
    ensures ArchiveKey(content).None? ==> found.None?
    ensures ArchiveKey(content).Some? ==> IsLookup(items, codes, libraries, ArchiveKey(content).value, found)
  {
    hide ArchiveKey;
    var key := ArchiveKey(content);
    if key.None? || libraries == [] { return None; }
    found := FindFirst(items, codes, key.value, libraries);
  }

  /** The simple matcher: the first candidate that carries the key of the content. */
  function ExactMatch(content: string, candidates: seq<Media>): Option<Media> {
    match ArchiveKey(content)
    case None => None
    case Some(key) => FirstWith(candidates, key)
  }

  function FirstWith(candidates: seq<Media>, key: string): Option<Media> {
    if candidates == [] then None
    else if key in MediaKeys(candidates[0].source) then Some(candidates[0])
    else FirstWith(candidates[1..], key)
  }

  function MediaOf(id: nat, r: Row): Media { Media(id, r.library, r.name, r.source) }

  /** The rows of the selected libraries as candidates, in the order of the query. */
  ghost predicate Lists(candidates: seq<Media>, items: map<nat, Row>, libraries: seq<string>) {
    && (forall i :: 0 <= i < |candidates| ==> var id := candidates[i].id;
          id in items && items[id].library in libraries && candidates[i] == MediaOf(id, items[id]))
    && (forall id :: id in items && items[id].library in libraries ==> Listed(candidates, id))
    && (forall i, j :: 0 <= i < j < |candidates| && candidates[i].id in items && candidates[j].id in items
          ==> Sooner(items, candidates[i].id, candidates[j].id))
  }

  predicate Listed(candidates: seq<Media>, id: nat) { exists i :: 0 <= i < |candidates| && candidates[i].id == id }

  predicate NoneBefore(candidates: seq<Media>, key: string, n: nat)
    requires n <= |candidates|
  {
    forall k :: 0 <= k < n ==> key !in MediaKeys(candidates[k].source)
  }

  predicate FoundAt(candidates: seq<Media>, key: string, i: nat) {
    if FirstWith(candidates, key).Some?
    then i < |candidates| && FirstWith(candidates, key) == Some(candidates[i]) && key in MediaKeys(candidates[i].source)
           && NoneBefore(candidates, key, i)
    else NoneBefore(candidates, key, |candidates|)
  }

  lemma {:induction false} FirstWithIs(candidates: seq<Media>, key: string) returns (i: nat)
    ensures FoundAt(candidates, key, i)
  {
    hide MediaKeys;
    i := 0;
    if candidates != [] && key !in MediaKeys(candidates[0].source) {
      i := FirstWithIs(candidates[1..], key);
      i := i + 1;
      assert forall k :: 1 <= k < |candidates| ==> candidates[k] == candidates[1..][k - 1];
    }
  }

  /**
    The cached lookup finds what the simple matcher finds on the snapshot: the same item, or nothing when it
    finds nothing.
   */
  lemma CacheAgrees(items: map<nat, Row>, codes: set<CodeRow>, libraries: seq<string>, content: string,
      candidates: seq<Media>, found: Option<nat>)
    requires CodesOk(items, codes) && Lists(candidates, items, libraries)
    requires ArchiveKey(content).None? ==> found.None?
    requires ArchiveKey(content).Some? ==> IsLookup(items, codes, libraries, ArchiveKey(content).value, found)
    ensures ExactMatch(content, candidates) ==
            if found.Some? && found.value in items then Some(MediaOf(found.value, items[found.value])) else None
  {
    hide ArchiveKey, MediaKeys, FirstWith;
    if ArchiveKey(content).Some? {
      var key := ArchiveKey(content).value;
      var i := FirstWithIs(candidates, key);
      if found.Some? {
        CachedIsFirst(items, codes, libraries, key, candidates, found.value, i);
      } else {
        NothingCached(items, codes, libraries, key, candidates);
      }
    }
  }

  lemma NothingCached(items: map<nat, Row>, codes: set<CodeRow>, libraries: seq<string>, key: string,
      candidates: seq<Media>)
    requires CodesOk(items, codes) && Lists(candidates, items, libraries)
    requires forall id :: !Answers(items, codes, libraries, key, id)
    ensures FirstWith(candidates, key).None?
  {
    hide MediaKeys, FirstWith;
    var i := FirstWithIs(candidates, key);
    forall k | 0 <= k < |candidates| ensures key !in MediaKeys(candidates[k].source) {
      assert !Answers(items, codes, libraries, key, candidates[k].id);
      assert CodeRow(candidates[k].id, key) !in codes;
    }
  }

  lemma CachedIsFirst(items: map<nat, Row>, codes: set<CodeRow>, libraries: seq<string>, key: string,
      candidates: seq<Media>, id: nat, i: nat)
    requires CodesOk(items, codes) && Lists(candidates, items, libraries) && IsFirst(items, codes, libraries, key, id)
    requires FoundAt(candidates, key, i)
    ensures FirstWith(candidates, key) == Some(MediaOf(id, items[id]))
  {
    hide MediaKeys, FirstWith;
    assert CodeRow(id, key) in codes;
    assert Listed(candidates, id);
    var k :| 0 <= k < |candidates| && candidates[k].id == id;
    assert key in MediaKeys(candidates[k].source);
    assert CodeRow(candidates[i].id, key) in codes;
    assert Answers(items, codes, libraries, key, candidates[i].id);
    assert i < k ==> Sooner(items, candidates[i].id, id);
  }

  // --- Matching the whole archive ---

  /** An archive entry as the full sync sees it: its code column, and the item it is matched with. */
  datatype ArchiveRow = ArchiveRow(id: nat, code: Option<string>, item: Option<nat>)

  /** The table in the order of its ids, which start at 1. */
  predicate Ascending(entries: seq<ArchiveRow>) {
    && (forall i :: 0 <= i < |entries| ==> 0 < entries[i].id)
    && (forall i, j :: 0 <= i < j < |entries| ==> entries[i].id < entries[j].id)
  }

  predicate HasCode(e: ArchiveRow) { e.code.Some? && e.code.value != "" }

  /** The entry after the sync: matched as a single lookup would match it. */
  ghost predicate MatchedRow(items: map<nat, Row>, codes: set<CodeRow>, libraries: seq<string>, before: ArchiveRow,
      after: ArchiveRow)
  {
    && after == before.(item := after.item)
    && if before.code.Some? && before.code.value != "" then
         IsLookup(items, codes, libraries, before.code.value, after.item)
       else after.item.None?
  }

  /** One query for all the codes of a batch: the first row of each code is kept. */
  method BatchIndex(items: map<nat, Row>, codes: set<CodeRow>, libraries: seq<string>, batch: seq<ArchiveRow>)
      returns (index: map<string, nat>)
    ensures forall i :: 0 <= i < |batch| && HasCode(batch[i]) ==>
              IsLookup(items, codes, libraries, batch[i].code.value, Found(index, batch[i].code.value))
  {
    hide IsLookup;
    index := map[];
    ghost var asked: set<string> := {};
    for i := 0 to |batch|
      invariant forall code :: code in index ==> code in asked
      invariant forall code :: code in asked ==> IsLookup(items, codes, libraries, code, Found(index, code))
      invariant forall k :: 0 <= k < i && HasCode(batch[k]) ==> batch[k].code.value in asked
    {
      if HasCode(batch[i]) {
        var code := batch[i].code.value;
        if code !in index {
          var found := FindFirst(items, codes, code, libraries);
          assert IsLookup(items, codes, libraries, code, found) by { LookupIs(items, codes, libraries, code, found); }
          if found.Some? { index := index[code := found.value]; }
        }
        asked := asked + {code};
      }
    }
  }

  lemma LookupIs(items: map<nat, Row>, codes: set<CodeRow>, libraries: seq<string>, code: string, found: Option<nat>)
    requires found.Some? ==> IsFirst(items, codes, libraries, code, found.value)
    requires found.None? ==> forall id :: !Answers(items, codes, libraries, code, id)
    ensures IsLookup(items, codes, libraries, code, found)
  {
  }

  function Found(index: map<string, nat>, code: string): Option<nat> { if code in index then Some(index[code])
      else None }

  const MATCH_BATCH := 250

  /** WHERE id > cursor ORDER BY id ASC. */
  function Beyond(entries: seq<ArchiveRow>, cursor: nat): seq<ArchiveRow> {
    if entries == [] then []
    else if entries[0].id > cursor then [entries[0]] + Beyond(entries[1..], cursor)
    else Beyond(entries[1..], cursor)
  }

  function NextBatch(entries: seq<ArchiveRow>, cursor: nat): seq<ArchiveRow> {
    var rest := Beyond(entries, cursor);
    if MATCH_BATCH <= |rest| then rest[..MATCH_BATCH] else rest
  }

  function CursorAt(entries: seq<ArchiveRow>, k: nat): nat
    requires k <= |entries|
  {
    if k == 0 then 0 else entries[k - 1].id
  }

  lemma {:induction false} BeyondAll(entries: seq<ArchiveRow>, cursor: nat)
    requires forall i :: 0 <= i < |entries| ==> cursor < entries[i].id
    ensures Beyond(entries, cursor) == entries
  {
    if entries != [] {
      BeyondAll(entries[1..], cursor);
    }
  }

  /** The id cursor stands where the entries done so far end. */
  lemma {:induction false} BeyondIs(entries: seq<ArchiveRow>, cursor: nat, k: nat)
    requires Ascending(entries) && k <= |entries|
    requires forall i :: 0 <= i < |entries| ==> (entries[i].id > cursor <==> i >= k)
    ensures Beyond(entries, cursor) == entries[k..]
  {
    if k == 0 {
      BeyondAll(entries, cursor);
    } else {
      BeyondIs(entries[1..], cursor, k - 1);
      assert entries[1..][k - 1..] == entries[k..];
    }
  }

  lemma BatchIs(entries: seq<ArchiveRow>, k: nat)
    requires Ascending(entries) && k <= |entries|
    ensures var batch := NextBatch(entries, CursorAt(entries, k));
            k + |batch| <= |entries| && batch == entries[k..k + |batch|] && (batch == [] <==> k == |entries|)
  {
    BeyondIs(entries, CursorAt(entries, k), k);
  }

  /** Where the cursor stands in a table: everything up to it has an id that is not beyond it. */
  lemma {:induction false} CursorIn(entries: seq<ArchiveRow>, cursor: nat) returns (k: nat)
    requires Ascending(entries)
    ensures k <= |entries| && Beyond(entries, cursor) == entries[k..]
    ensures forall i :: 0 <= i < |entries| ==> (entries[i].id > cursor <==> i >= k)
  {
    k := 0;
    while k < |entries| && entries[k].id <= cursor
      invariant k <= |entries| && forall i :: 0 <= i < k ==> entries[i].id <= cursor
    {
      k := k + 1;
    }
    BeyondIs(entries, cursor, k);
  }

  predicate Holds(entries: seq<ArchiveRow>, id: nat, code: Option<string>) {
    exists i :: 0 <= i < |entries| && entries[i].id == id && entries[i].code == code
  }

  /** A batch is what lies behind the cursor, in order. */
  lemma BatchBeyond(entries: seq<ArchiveRow>, cursor: nat) returns (k: nat)
    requires Ascending(entries)
    ensures var batch := NextBatch(entries, cursor);
      && |batch| <= 250 && k + |batch| <= |entries| && batch == entries[k..k + |batch|]
      && (|batch| < 250 ==> k + |batch| == |entries|)
      && (forall i :: 0 <= i < |entries| ==> (entries[i].id > cursor <==> i >= k))
      && (batch == [] ==> k == |entries|)
  {
    k := CursorIn(entries, cursor);
  }

  lemma BatchReads(entries: seq<ArchiveRow>, cursor: nat, id: nat, code: Option<string>)
    requires Ascending(entries)
    ensures var batch := NextBatch(entries, cursor);
      && Ascending(batch) && (batch != [] ==> cursor < batch[0].id <= batch[|batch| - 1].id)
      && (forall i :: 0 <= i < |batch| ==> batch[i] in entries)
      && (Holds(entries, id, code) && cursor < id && (batch != [] ==> id <= batch[|batch| - 1].id)
      ==> Holds(batch, id, code))
  {
    hide NextBatch;
    var batch := NextBatch(entries, cursor);
    var k := BatchBeyond(entries, cursor);
    assert forall i :: 0 <= i < |batch| ==> batch[i] == entries[k + i];
    if Holds(entries, id, code) && cursor < id && (batch != [] ==> id <= batch[|batch| - 1].id) {
      var i :| 0 <= i < |entries| && entries[i].id == id && entries[i].code == code;
      assert i < k + |batch|;
      assert batch[i - k] == entries[i];
    }
  }

  /** A row the table has held at every turn so far, up to the cursor, has been read. */
  ghost predicate ReadSoFar(views: nat -> seq<ArchiveRow>, turn: nat, read: seq<ArchiveRow>, cursor: nat) {
    forall id, code ::
        id <= cursor && 0 < id && (forall t :: 0 <= t < turn ==> Holds(views(t), id, code)) ==> Holds(read, id, code)
  }

  lemma ReadsOn(views: nat -> seq<ArchiveRow>, turn: nat, read: seq<ArchiveRow>, cursor: nat)
    requires Ascending(views(turn)) && ReadSoFar(views, turn, read, cursor)
    ensures var batch := NextBatch(views(turn), cursor);
            batch != [] ==> ReadSoFar(views, turn + 1, read + batch, batch[|batch| - 1].id)
  {
    hide NextBatch;
    var batch := NextBatch(views(turn), cursor);
    if batch != [] {
      forall id, code | id <= batch[|batch| - 1].id && 0 < id
          && (forall t :: 0 <= t < turn + 1 ==> Holds(views(t), id, code))
        ensures Holds(read + batch, id, code)
      {
        BatchReads(views(turn), cursor, id, code);
        assert Holds(views(turn), id, code);
        HoldsIn(read, batch, id, code);
      }
    }
  }

  lemma HoldsIn(a: seq<ArchiveRow>, b: seq<ArchiveRow>, id: nat, code: Option<string>)
    requires Holds(a, id, code) || Holds(b, id, code)
    ensures Holds(a + b, id, code)
  {
    if i :| 0 <= i < |a| && a[i].id == id && a[i].code == code {
      assert (a + b)[i] == a[i];
    } else {
      var i :| 0 <= i < |b| && b[i].id == id && b[i].code == code;
      assert (a + b)[|a| + i] == b[i];
    }
  }

  lemma ReadsAll(views: nat -> seq<ArchiveRow>, turn: nat, read: seq<ArchiveRow>, cursor: nat, id: nat,
      code: Option<string>)
    requires Ascending(views(turn)) && ReadSoFar(views, turn, read, cursor) && NextBatch(views(turn), cursor) == []
    requires forall t :: 0 <= t <= turn ==> Holds(views(t), id, code)
    ensures Holds(read, id, code)
  {
    hide NextBatch;
    BatchReads(views(turn), cursor, id, code);
    assert Holds(views(turn), id, code);
    assert !Holds([], id, code);
    assert 0 < id;
  }

  lemma AscendingOn(read: seq<ArchiveRow>, batch: seq<ArchiveRow>, cursor: nat)
    requires Ascending(read) && Ascending(batch) && (batch != [] ==> cursor < batch[0].id)
    requires forall i :: 0 <= i < |read| ==> read[i].id <= cursor
    ensures Ascending(read + batch)
  {
  }

  /** In a table that stands still the next batch follows the rows read so far. */
  lemma StandingStill(entries: seq<ArchiveRow>, read: seq<ArchiveRow>, cursor: nat)
    requires Ascending(entries) && read <= entries && cursor == CursorAt(entries, |read|)
    ensures var batch := NextBatch(entries, cursor);
      && read + batch <= entries && (batch == [] ==> read == entries)
      && (batch != [] ==> batch[|batch| - 1].id == CursorAt(entries, |read + batch|))
  {
    BatchIs(entries, |read|);
    hide NextBatch;
    var batch := NextBatch(entries, cursor);
    assert entries[..|read|] == read;
    assert entries[..|read| + |batch|] == read + batch;
  }

  /** What one batch writes: every row of it as a lookup of its own would match it. */
  method MatchBatch(batch: seq<ArchiveRow>, items: map<nat, Row>, codes: set<CodeRow>, libraries: seq<string>)
      returns (written: seq<ArchiveRow>, matched: nat, notFound: nat)
    ensures |written| == |batch| && forall i ::
        0 <= i < |batch| ==> MatchedRow(items, codes, libraries, batch[i], written[i])
    ensures matched + notFound == |batch|
  {
    hide MatchedRow;
    written, matched, notFound := [], 0, 0;
    var index := BatchIndex(items, codes, libraries, batch);
    for k := 0 to |batch|
      invariant |written| == k && matched + notFound == k
      invariant forall i :: 0 <= i < k ==> MatchedRow(items, codes, libraries, batch[i], written[i])
    {
      var e := batch[k];
      var media := if HasCode(e) then Found(index, e.code.value) else None;
      RowMatched(items, codes, libraries, e, media);
      written := written + [e.(item := media)];
      if media.Some? { matched := matched + 1; } else { notFound := notFound + 1; }
    }
  }

  /**
    The cursor pass, one transaction a batch: `views` is the archive as each batch finds it, for other
    writers add and delete rows meanwhile (ids up to `lastId`). No row is read twice, every row read is
    matched as a lookup of its own would match it, and every row that is there throughout, with one code,
    is read. A table that stands still is read whole.
   */
  method WriteArchiveMatches(views: nat -> seq<ArchiveRow>, ghost lastId: nat, items: map<nat, Row>,
      codes: set<CodeRow>, libraries: seq<string>)
      returns (read: seq<ArchiveRow>, written: seq<ArchiveRow>, matched: nat, notFound: nat, turns: nat)
    requires forall t :: Ascending(views(t)) && forall i :: 0 <= i < |views(t)| ==> views(t)[i].id <= lastId
    ensures |written| == |read| && forall i ::
        0 <= i < |read| ==> MatchedRow(items, codes, libraries, read[i], written[i])
    ensures Ascending(read) && matched + notFound == |read|
    ensures forall id, code :: (forall t :: 0 <= t <= turns ==> Holds(views(t), id, code)) ==> Holds(read, id, code)
    ensures (forall t :: views(t) == views(0)) ==> read == views(0)
  {
    hide MatchedRow, NextBatch, Ascending, ReadSoFar, Holds, CursorAt;
    read, written, matched, notFound, turns := [], [], 0, 0, 0;
    var cursor, reading := 0, true;
    NothingRead(views);
    while reading
      invariant |written| == |read| && forall i ::
          0 <= i < |read| ==> MatchedRow(items, codes, libraries, read[i], written[i])
      invariant Ascending(read) && matched + notFound == |read| && forall i :: 0 <= i < |read| ==> read[i].id <= cursor
      invariant cursor <= lastId && (reading ==> ReadSoFar(views, turns, read, cursor))
      invariant (forall t :: views(t) == views(0)) ==> read <= views(0) && cursor == CursorAt(views(0), |read|)
      invariant !reading ==> forall id, code ::
          (forall t :: 0 <= t <= turns ==> Holds(views(t), id, code)) ==> Holds(read, id, code)
      invariant !reading && (forall t :: views(t) == views(0)) ==> read == views(0)
      decreases reading, lastId - cursor
    {
      var batch := NextBatch(views(turns), cursor);
      BatchReads(views(turns), cursor, 0, None);
      if forall t :: views(t) == views(0) {
        StandingStill(views(0), read, cursor);
      }
      if batch == [] {
        forall id, code | forall t :: 0 <= t <= turns ==> Holds(views(t), id, code) ensures Holds(read, id, code) {
          ReadsAll(views, turns, read, cursor, id, code);
        }
        reading := false;
      } else {
        ReadsOn(views, turns, read, cursor);
        AscendingOn(read, batch, cursor);
        LastIsHighest(batch);
        var wrote, m, n := MatchBatch(batch, items, codes, libraries);
        read, written, matched, notFound := read + batch, written + wrote, matched + m, notFound + n;
        cursor, turns := batch[|batch| - 1].id, turns + 1;
      }
    }
  }

  lemma NothingRead(views: nat -> seq<ArchiveRow>)
    ensures ReadSoFar(views, 0, [], 0) && Ascending([]) && CursorAt(views(0), 0) == 0
  {
  }

  lemma LastIsHighest(batch: seq<ArchiveRow>)
    requires Ascending(batch) && batch != []
    ensures forall i :: 0 <= i < |batch| ==> batch[i].id <= batch[|batch| - 1].id
  {
  }

  lemma RowMatched(items: map<nat, Row>, codes: set<CodeRow>, libraries: seq<string>, e: ArchiveRow, media: Option<nat>)
    requires if HasCode(e) then IsLookup(items, codes, libraries, e.code.value, media) else media.None?
    ensures MatchedRow(items, codes, libraries, e, e.(item := media))
  {
  }
}
