/**
 * `load_data` and `save_data`: reading and rewriting the sheet. Both normalise
 * the room number (and loading also the occupant name) and reorder the rows by
 * the catalogue rank of their room number.
 */
module Store {
  import opened Text
  import opened Catalog
  import opened Records

  /** The sheet file on disk: missing, present but unreadable, or a table of rows. */
  datatype Disk = Absent | Unreadable | Sheet(rows: seq<Record>)

  /** What a read yields before normalisation: a failed or missing read yields no rows. */
  function StoredRows(d: Disk): (rows: seq<Record>) {
    if d.Sheet? then d.rows else []
  }

  function RowRank(r: Record): (n: nat) {
    Rank(r.roomNo)
  }

  /** Rows in non-decreasing order of `rank`. */
  predicate SortedBy(rows: seq<Record>, rank: Record -> nat) {
    forall i, j :: 0 <= i < j < |rows| ==> rank(rows[i]) <= rank(rows[j])
  }

  /** Rows in non-decreasing catalogue rank of their room number. */
  predicate SortedByRank(rows: seq<Record>) {
    SortedBy(rows, RowRank)
  }

  /** The per-row normalisation on load: room number stripped and upper-cased, name stripped. */
  function LoadNormal(r: Record): (n: Record) {
    r.(roomNo := Key(r.roomNo), occupant := Trim(r.occupant))
  }

  /** The per-row normalisation on save: room number stripped and upper-cased. */
  function SaveNormal(r: Record): (n: Record) {
    r.(roomNo := Key(r.roomNo))
  }

  function NormaliseOnLoad(rows: seq<Record>): (normal: seq<Record>) {
    seq(|rows|, i requires 0 <= i < |rows| => LoadNormal(rows[i]))
  }

  function NormaliseOnSave(rows: seq<Record>): (normal: seq<Record>) {
    seq(|rows|, i requires 0 <= i < |rows| => SaveNormal(rows[i]))
  }

  /** A row as loading leaves it. */
  predicate IsLoadNormal(r: Record) {
    Key(r.roomNo) == r.roomNo && Trim(r.occupant) == r.occupant
  }

  /** `rows` is what `load_data` may return for `d`: normalised, in rank order, nothing lost or added. */
  predicate LoadedFrom(d: Disk, rows: seq<Record>) {
    && (forall i :: 0 <= i < |rows| ==> IsLoadNormal(rows[i]))
    && SortedByRank(rows)
    && multiset(rows) == multiset(NormaliseOnLoad(StoredRows(d)))
  }

  /** `written` is what `save_data` may write for `rows`: normalised room numbers, in rank order. */
  predicate SavedFrom(rows: seq<Record>, written: seq<Record>) {
    && (forall i :: 0 <= i < |written| ==> Key(written[i].roomNo) == written[i].roomNo)
    && SortedByRank(written)
    && multiset(written) == multiset(NormaliseOnSave(rows))
  }

  /** Normalising a loaded row again changes nothing. */
  lemma LoadNormalIsNormal(r: Record)
    ensures IsLoadNormal(LoadNormal(r))
  {
    KeyIdempotent(r.roomNo);
    TrimIdempotent(r.occupant);
  }

  /** Placing `x` between the rows ranked at most and those ranked above it keeps the order. */
  lemma InsertKeepsSorted(s: seq<Record>, rank: Record -> nat, j: nat, x: Record)
    requires SortedBy(s, rank) && j <= |s|
    requires forall k :: 0 <= k < j ==> rank(s[k]) <= rank(x)
    requires forall k :: j <= k < |s| ==> rank(x) < rank(s[k])
    ensures SortedBy(s[..j] + [x] + s[j..], rank)
  {
    var t := s[..j] + [x] + s[j..];
    assert |t| == |s| + 1;
    assert forall a :: 0 <= a < j ==> t[a] == s[a];
    assert t[j] == x;
    assert forall a :: j < a < |t| ==> t[a] == s[a - 1];
    forall a, b | 0 <= a < b < |t|
      ensures rank(t[a]) <= rank(t[b])
    {
      if b < j {
      } else if a < j {
      } else if a == j {
      } else {
        assert rank(s[a - 1]) <= rank(s[b - 1]);
      }
    }
  }

  lemma InsertAddsOne(s: seq<Record>, j: nat, x: Record)
    requires j <= |s|
    ensures multiset(s[..j] + [x] + s[j..]) == multiset(s) + multiset{x}
  {
    assert s == s[..j] + s[j..];
  }

  /** The position in `sorted` after every row ranked at most `x` and before every row ranked above it. */
  method Slot(sorted: seq<Record>, rank: Record -> nat, x: Record) returns (j: nat)
    requires SortedBy(sorted, rank)
    ensures j <= |sorted|
    ensures forall k :: 0 <= k < j ==> rank(sorted[k]) <= rank(x)
    ensures forall k :: j <= k < |sorted| ==> rank(x) < rank(sorted[k])
  {
    j := 0;
    while j < |sorted| && rank(sorted[j]) <= rank(x)
      invariant j <= |sorted|
      invariant forall k :: 0 <= k < j ==> rank(sorted[k]) <= rank(x)
    {
      j := j + 1;
    }
  }

  /**
   * `sort_values`: a reordering of `rows` by `rank`. The sort is not
   * promised to be stable, so rows of equal rank may come out in any order.
   */
  method SortBy(rows: seq<Record>, rank: Record -> nat) returns (sorted: seq<Record>)
    ensures SortedBy(sorted, rank)
    ensures multiset(sorted) == multiset(rows)
  {
    sorted := [];
    var i := 0;
    while i < |rows|
      invariant 0 <= i <= |rows|
      invariant SortedBy(sorted, rank)
      invariant multiset(sorted) == multiset(rows[..i])
    {
      var x := rows[i];
      var j := Slot(sorted, rank, x);
      InsertKeepsSorted(sorted, rank, j, x);
      InsertAddsOne(sorted, j, x);
      sorted := sorted[..j] + [x] + sorted[j..];
      assert rows[..i + 1] == rows[..i] + [x];
      i := i + 1;
    }
    assert rows[..i] == rows;
  }

  /** `load_data()` reading disk `d`. */
  method Load(d: Disk) returns (rows: seq<Record>)
    ensures LoadedFrom(d, rows)
  {
    var normal := NormaliseOnLoad(StoredRows(d));
    rows := SortBy(normal, RowRank);
    forall i | 0 <= i < |rows|
      ensures IsLoadNormal(rows[i])
    {
      assert rows[i] in multiset(normal);
      var k :| 0 <= k < |normal| && normal[k] == rows[i];
      LoadNormalIsNormal(StoredRows(d)[k]);
    }
  }

  /** The rows `save_data(df)` writes to the sheet. */
  method Save(rows: seq<Record>) returns (written: seq<Record>)
    ensures SavedFrom(rows, written)
  {
    var normal := NormaliseOnSave(rows);
    written := SortBy(normal, RowRank);
    forall i | 0 <= i < |written|
      ensures Key(written[i].roomNo) == written[i].roomNo
    {
      assert written[i] in multiset(normal);
      var k :| 0 <= k < |normal| && normal[k] == written[i];
      KeyIdempotent(rows[k].roomNo);
    }
  }

  lemma NormaliseOnLoadKeeps(rows: seq<Record>)
    requires forall i :: 0 <= i < |rows| ==> IsLoadNormal(rows[i])
    ensures NormaliseOnLoad(rows) == rows
  {
  }

  lemma NormaliseOnSaveKeeps(rows: seq<Record>)
    requires forall i :: 0 <= i < |rows| ==> Key(rows[i].roomNo) == rows[i].roomNo
    ensures NormaliseOnSave(rows) == rows
  {
  }

  /**
   * Saving what was loaded and loading it back gives the same rows again:
   * the order may differ only among rows of equal rank.
   */
  lemma ReloadAfterSave(d: Disk, loaded: seq<Record>, written: seq<Record>, reloaded: seq<Record>)
    requires LoadedFrom(d, loaded)
    requires SavedFrom(loaded, written)
    requires LoadedFrom(Sheet(written), reloaded)
    ensures multiset(reloaded) == multiset(loaded)
  {
    NormaliseOnSaveKeeps(loaded);
    forall i | 0 <= i < |written|
      ensures IsLoadNormal(written[i])
    {
      assert written[i] in multiset(loaded);
    }
    NormaliseOnLoadKeeps(written);
  }

  /** Loading keeps the sheet invariants of what is on disk. */
  lemma LoadKeepsConsistent(d: Disk, rows: seq<Record>)
    requires LoadedFrom(d, rows)
    requires Consistent(StoredRows(d))
    ensures Consistent(rows)
  {
    var normal := NormaliseOnLoad(StoredRows(d));
    NormaliseOnLoadConsistent(StoredRows(d));
    DistinctKeysPermutation(normal, rows);
    forall i | 0 <= i < |rows|
      ensures VacancyBlank(rows[i])
    {
      assert rows[i] in multiset(normal);
    }
  }

  lemma NormaliseOnLoadConsistent(stored: seq<Record>)
    requires Consistent(stored)
    ensures Consistent(NormaliseOnLoad(stored))
  {
    var normal := NormaliseOnLoad(stored);
    forall i, j | 0 <= i < j < |normal|
      ensures Key(normal[i].roomNo) != Key(normal[j].roomNo)
    {
      KeyIdempotent(stored[i].roomNo);
      KeyIdempotent(stored[j].roomNo);
    }
    forall i | 0 <= i < |normal|
      ensures VacancyBlank(normal[i])
    {
      assert VacancyBlank(stored[i]);
      assert Trim("") == "";
    }
  }

  /** Saving never puts two rows under one room number when the rows handed to it had none. */
  lemma SaveKeepsDistinct(rows: seq<Record>, written: seq<Record>)
    requires SavedFrom(rows, written)
    requires DistinctKeys(rows)
    ensures DistinctKeys(written)
  {
    var normal := NormaliseOnSave(rows);
    forall i, j | 0 <= i < j < |normal|
      ensures Key(normal[i].roomNo) != Key(normal[j].roomNo)
    {
      KeyIdempotent(rows[i].roomNo);
      KeyIdempotent(rows[j].roomNo);
    }
    DistinctKeysPermutation(normal, written);
  }

  /** Saving keeps the sheet invariants of the rows handed to it. */
  lemma SaveKeepsConsistent(rows: seq<Record>, written: seq<Record>)
    requires SavedFrom(rows, written)
    requires Consistent(rows)
    ensures Consistent(written)
  {
    var normal := NormaliseOnSave(rows);
    SaveKeepsDistinct(rows, written);
    forall i | 0 <= i < |written|
      ensures VacancyBlank(written[i])
    {
      assert written[i] in multiset(normal);
    }
  }
}
