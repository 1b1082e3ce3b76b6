/**
  The writers of the archive (server/archive-code-index.ts, server/capture.ts, server/routes/code-search.ts):
  the index maintenance every writer shares, the backfill of old rows, and the two ways an entry
  gets into the archive.
 */
module ArchiveWrites {
  import opened Options
  import opened ProductCodes
  import opened ArchiveLookup
  import opened FullScan

  // --- What the index means ---

  /** Every alias names a row of its subscription that carries the code. */
  ghost predicate IndexSound(a: Archive) {
    forall alias :: alias in a.index ==> Vouched(a.entries, alias)
  }

  ghost predicate Vouched(entries: seq<Entry>, alias: Alias) {
    exists i :: 0 <= i < |entries| && Owns(entries[i], alias)
  }

  predicate Owns(e: Entry, alias: Alias) {
    e.id == alias.id && e.sub == alias.sub && Carries(e, alias.code)
  }

  ghost predicate Indexed(index: set<Alias>, e: Entry) {
    forall code :: Carries(e, code) ==> Alias(e.id, e.sub, code) in index
  }

  // --- replaceArchiveCodes ---

  predicate HasId(rows: seq<Entry>, id: nat) {
    exists i :: 0 <= i < |rows| && rows[i].id == id
  }

  predicate OwnedBy(rows: seq<Entry>, alias: Alias) {
    exists i :: 0 <= i < |rows| && Owns(rows[i], alias)
  }

  predicate DistinctIds(rows: seq<Entry>) {
    forall i, j :: 0 <= i < j < |rows| ==> rows[i].id != rows[j].id
  }

  /** The aliases of these rows are theirs alone; every other alias stays. */
  ghost predicate Replaces(index: set<Alias>, rows: seq<Entry>, after: set<Alias>) {
    forall alias :: alias in after <==> (alias in index && !HasId(rows, alias.id)) || OwnedBy(rows, alias)
  }

  function AliasList(id: nat, sub: nat, codes: seq<string>): (r: seq<Alias>)
    ensures forall alias :: alias in r <==> alias.id == id && alias.sub == sub && alias.code in codes
  {
    if codes == [] then [] else [Alias(id, sub, codes[0])] + AliasList(id, sub, codes[1..])
  }

  function AliasesOf(row: Entry): (r: seq<Alias>)
    ensures forall alias :: alias in r <==> Owns(row, alias)
  {
    AliasList(row.id, row.sub, CodesOf(row.content, row.title))
  }

  function AllAliases(rows: seq<Entry>): (r: seq<Alias>)
    ensures forall alias :: alias in r <==> OwnedBy(rows, alias)
  {
    if rows == [] then []
    else
      var init, last := rows[..|rows| - 1], rows[|rows| - 1];
      assert forall alias :: OwnedBy(rows, alias) <==> OwnedBy(init, alias) || Owns(last, alias) by {
        forall alias ensures OwnedBy(rows, alias) <==> OwnedBy(init, alias) || Owns(last, alias) {
          OwnedByNext(rows, |rows| - 1, alias);
        }
      }
      AllAliases(init) + AliasesOf(last)
  }

  lemma OwnedByNext(rows: seq<Entry>, k: nat, alias: Alias)
    requires k < |rows|
    ensures OwnedBy(rows[..k + 1], alias) <==> OwnedBy(rows[..k], alias) || Owns(rows[k], alias)
    ensures rows[..|rows|] == rows
  {
    hide Owns;
    assert rows[..k + 1][k] == rows[k];
    if OwnedBy(rows[..k], alias) {
      var i :| 0 <= i < k && Owns(rows[..k][i], alias);
      assert rows[..k + 1][i] == rows[..k][i];
    }
    if OwnedBy(rows[..k + 1], alias) {
      var i :| 0 <= i < k + 1 && Owns(rows[..k + 1][i], alias);
      assert i < k ==> rows[..k][i] == rows[i];
    }
  }

  const CHUNK := 100
  const ALIAS_CHUNK := 200

  function Min(x: nat, y: nat): nat { if x < y then x else y }

  function WithoutIds(index: set<Alias>, rows: seq<Entry>): set<Alias> {
    set alias | alias in index && !HasId(rows, alias.id)
  }

  /** One replacement of all the rows at once. */
  function Reindexed(index: set<Alias>, rows: seq<Entry>): (r: set<Alias>)
    ensures Replaces(index, rows, r)
  {
    WithoutIds(index, rows) + (set alias | alias in AllAliases(rows))
  }

  method InsertAliases(index: set<Alias>, aliases: seq<Alias>) returns (after: set<Alias>)
    ensures after == index + (set alias | alias in aliases)
  {
    after := index;
    var at := 0;
    while at < |aliases|
      invariant 0 <= at <= |aliases|
      invariant after == index + (set alias | alias in aliases[..at])
    {
      var stop := Min(at + ALIAS_CHUNK, |aliases|);
      var values := aliases[at..stop];
      after := after + (set alias | alias in values);
      assert aliases[..stop] == aliases[..at] + values;
      at := stop;
    }
    assert aliases[..|aliases|] == aliases;
  }

  /** The nested chunks leave exactly what one replacement of all the rows would. */
  method ReplaceArchiveCodes(index: set<Alias>, rows: seq<Entry>) returns (after: set<Alias>)
    requires DistinctIds(rows)
    ensures after == Reindexed(index, rows)
  {
    hide OwnedBy, HasId, DistinctIds, Owns, AllAliases, WithoutIds, Reindexed;
    after := index;
    ReplacesNothing(index);
    assert rows[..0] == [];
    hide Replaces;
    var offset := 0;
    while offset < |rows|
      invariant 0 <= offset <= |rows|
      invariant Replaces(index, rows[..offset], after)
    {
      var next := Min(offset + CHUNK, |rows|);
      var batch := rows[offset..next];
      ghost var was := after;
      after := WithoutIds(after, batch);
      after := InsertAliases(after, AllAliases(batch));
      ReplacesBatch(was, batch, after);
      ReplacesMore(index, rows, offset, next, was, after);
      offset := next;
    }
    assert rows[..|rows|] == rows;
    SameReplacement(index, rows, after);
  }

  lemma SameReplacement(index: set<Alias>, rows: seq<Entry>, after: set<Alias>)
    requires Replaces(index, rows, after)
    ensures after == Reindexed(index, rows)
  {
    hide OwnedBy, HasId, Reindexed;
  }

  lemma ReplacesNothing(index: set<Alias>)
    ensures Replaces(index, [], index)
  {
  }

  lemma ReplacesBatch(was: set<Alias>, batch: seq<Entry>, after: set<Alias>)
    requires after == WithoutIds(was, batch) + (set alias | alias in AllAliases(batch))
    ensures Replaces(was, batch, after)
  {
    hide HasId, OwnedBy;
  }

  lemma ReplacesMore(index: set<Alias>, rows: seq<Entry>, i: nat, j: nat, mid: set<Alias>, after: set<Alias>)
    requires i <= j <= |rows| && DistinctIds(rows)
    requires Replaces(index, rows[..i], mid) && Replaces(mid, rows[i..j], after)
    ensures Replaces(index, rows[..j], after)
  {
    hide Replaces;
    forall alias ensures alias in after
        <==> (alias in index && !HasId(rows[..j], alias.id)) || OwnedBy(rows[..j], alias) {
      ReplacedAt(index, rows[..i], mid, alias);
      ReplacedAt(mid, rows[i..j], after, alias);
      OwnedByParts(rows, i, j, alias);
    }
    ReplacesFromAll(index, rows[..j], after);
  }

  lemma ReplacedAt(index: set<Alias>, rows: seq<Entry>, after: set<Alias>, alias: Alias)
    requires Replaces(index, rows, after)
    ensures alias in after <==> (alias in index && !HasId(rows, alias.id)) || OwnedBy(rows, alias)
  {
    hide HasId, OwnedBy;
  }

  lemma ReplacesFromAll(index: set<Alias>, rows: seq<Entry>, after: set<Alias>)
    requires forall alias :: alias in after <==> (alias in index && !HasId(rows, alias.id)) || OwnedBy(rows, alias)
    ensures Replaces(index, rows, after)
  {
    hide HasId, OwnedBy;
  }

  lemma OwnedByParts(rows: seq<Entry>, i: nat, j: nat, alias: Alias)
    requires i <= j <= |rows| && DistinctIds(rows)
    ensures OwnedBy(rows[..j], alias) <==> OwnedBy(rows[..i], alias) || OwnedBy(rows[i..j], alias)
    ensures HasId(rows[..j], alias.id) <==> HasId(rows[..i], alias.id) || HasId(rows[i..j], alias.id)
    ensures OwnedBy(rows[..i], alias) ==> !HasId(rows[i..j], alias.id)
  {
    hide Carries;
    forall k | 0 <= k < i ensures rows[..j][k] == rows[..i][k] == rows[k] {}
    forall k | 0 <= k < j - i ensures rows[..j][i + k] == rows[i..j][k] == rows[i + k] {}
    if k :| 0 <= k < j && rows[..j][k].id == alias.id {
      assert k >= i ==> rows[i..j][k - i].id == alias.id;
    }
    if k :| 0 <= k < j && Owns(rows[..j][k], alias) {
      assert k >= i ==> Owns(rows[i..j][k - i], alias);
    }
  }
}
