/**
 * The merge step of `import_data`: the imported sheet must carry the seven
 * columns; its rows are appended to the stored ones and, per room number,
 * only the last row is kept (`drop_duplicates('No Kamar', keep='last')`).
 */
module Merge {
  import opened Wrappers
  import opened Text
  import opened Records
  import opened Seqs
  import opened Store

  /** The keys of all rows. */
  function Keys(rows: seq<Record>, key: Record -> string): (ks: set<string>)
    ensures forall k :: k in ks <==> exists i :: 0 <= i < |rows| && key(rows[i]) == k
  {
    if rows == [] then {}
    else
      var rest := Keys(rows[1..], key);
      assert forall i :: 1 <= i < |rows| ==> rows[i] == rows[1..][i - 1];
      {key(rows[0])} + rest
  }

  /** Row `i` is the last row carrying its key. */
  predicate IsLast(rows: seq<Record>, key: Record -> string, i: int) {
    0 <= i < |rows| && forall j :: i < j < |rows| ==> key(rows[j]) != key(rows[i])
  }

  /**
   * `drop_duplicates(keep='last')`: a row survives exactly when no later row
   * has its key; the survivors stay in their original order (KeepLastAppend).
   */
  function KeepLast(rows: seq<Record>, key: Record -> string): (r: seq<Record>)
    ensures |r| <= |rows|
    ensures forall x :: x in r ==> x in rows
    ensures Keys(r, key) == Keys(rows, key)
    ensures UniqueBy(r, key)
  {
    if rows == [] then []
    else
      var rest := KeepLast(rows[1..], key);
      if key(rows[0]) in Keys(rows[1..], key) then
        assert forall x :: x in rows[1..] ==> x in rows;
        rest
      else
        assert forall j :: 0 <= j < |rest| ==> key(rest[j]) in Keys(rest, key);
        [rows[0]] + rest
  }

  /**
   * Keep-last over a concatenation: the survivors of the first part that no
   * row of the second part supersedes, in their order, then the survivors of
   * the second part. So the survivors keep their original relative order.
   */
  lemma {:induction false} KeepLastAppend(a: seq<Record>, b: seq<Record>, key: Record -> string)
    ensures KeepLast(a + b, key) == Filter(KeepLast(a, key), (x: Record) => key(x) !in Keys(b, key)) + KeepLast(b, key)
  {
    var p := (x: Record) => key(x) !in Keys(b, key);
    if a == [] {
      assert a + b == b;
      var none: seq<Record> := [];
      assert KeepLast(a, key) == none && Filter(none, p) == none;
      assert none + KeepLast(b, key) == KeepLast(b, key);
    } else {
      var y, tail := a[0], a[1..];
      assert a == [y] + tail;
      assert a + b == [y] + (tail + b);
      KeepLastAppend(tail, b, key);
      KeysAppend(tail, b, key);
      KeepLastCons(y, tail + b, key);
      KeepLastCons(y, tail, key);
      var kt := KeepLast(tail, key);
      FilterCons(y, kt, p);
      if key(y) !in Keys(tail, key) && key(y) !in Keys(b, key) {
        ConcatAssoc([y], Filter(kt, p), KeepLast(b, key));
      }
    }
  }

  /** One step of keep-last: the first row survives exactly when no later row has its key. */
  lemma KeepLastCons(y: Record, s: seq<Record>, key: Record -> string)
    ensures KeepLast([y] + s, key) == if key(y) in Keys(s, key) then KeepLast(s, key) else [y] + KeepLast(s, key)
  {
    var t := [y] + s;
    assert t[0] == y && t[1..] == s;
  }

  /** Every surviving row is the last row of its key. */
  lemma {:induction false} KeepLastKeepsOnlyLast(rows: seq<Record>, key: Record -> string, x: Record)
    requires x in KeepLast(rows, key)
    ensures exists i :: IsLast(rows, key, i) && rows[i] == x
  {
    var rest := rows[1..];
    if key(rows[0]) in Keys(rest, key) || x != rows[0] {
      assert x in KeepLast(rest, key);
      KeepLastKeepsOnlyLast(rest, key, x);
      var i :| IsLast(rest, key, i) && rest[i] == x;
      assert IsLast(rows, key, i + 1);
    } else {
      assert IsLast(rows, key, 0);
    }
  }

  /** The last row of every key survives. */
  lemma {:induction false} KeepLastKeepsEveryLast(rows: seq<Record>, key: Record -> string, i: int)
    requires IsLast(rows, key, i)
    ensures rows[i] in KeepLast(rows, key)
  {
    var rest := rows[1..];
    if i == 0 {
      assert key(rows[0]) !in Keys(rest, key);
    } else {
      assert IsLast(rest, key, i - 1);
      KeepLastKeepsEveryLast(rest, key, i - 1);
    }
  }

  /** The loop of `drop_duplicates(keep='last')`: scan from the end and keep the first sighting of each key. */
  method DropDuplicatesKeepLast(rows: seq<Record>, key: Record -> string) returns (kept: seq<Record>)
    ensures kept == KeepLast(rows, key)
  {
    kept := [];
    var seen: set<string> := {};
    var i := |rows|;
    while i > 0
      invariant 0 <= i <= |rows|
      invariant kept == KeepLast(rows[i..], key)
      invariant seen == Keys(rows[i..], key)
    {
      i := i - 1;
      assert rows[i..][1..] == rows[i + 1..];
      if key(rows[i]) !in seen {
        kept := [rows[i]] + kept;
      }
      seen := seen + {key(rows[i])};
    }
  }

  /** `required_columns`: the seven sheet headers. */
  const RequiredColumns: seq<string> := Columns

  /** A sheet chosen for import: its header row and its data rows in the required columns. */
  datatype Incoming = Incoming(columns: seq<string>, rows: seq<Record>)

  /** The required headers the imported sheet lacks, in the order they are required. */
  function MissingColumns(columns: seq<string>): (m: seq<string>)
    ensures forall c :: c in m <==> c in RequiredColumns && c !in columns
  {
    Filter(RequiredColumns, (c: string) => c !in columns)
  }

  /** The raw `No Kamar` value, as `drop_duplicates` compares it. */
  function RawRoomNo(r: Record): (k: string) {
    r.roomNo
  }

  /** `drop_duplicates('No Kamar', keep='last')` on the concatenation, comparing raw room numbers. */
  function MergeAsWritten(existing: seq<Record>, incoming: seq<Record>): (r: seq<Record>)
    ensures UniqueBy(r, RawRoomNo)
    ensures Keys(r, RawRoomNo) == Keys(existing + incoming, RawRoomNo)
  {
    KeepLast(existing + incoming, RawRoomNo)
  }

  /** The same merge comparing room numbers as they are stored, so that one row per room survives. */
  function MergeRows(existing: seq<Record>, incoming: seq<Record>): (r: seq<Record>)
    ensures DistinctKeys(r)
    ensures Keys(r, RoomKey) == Keys(existing, RoomKey) + Keys(incoming, RoomKey)
    ensures forall x :: x in r ==> x in existing || x in incoming
  {
    var all := existing + incoming;
    KeysAppend(existing, incoming, RoomKey);
    var r := KeepLast(all, RoomKey);
    r
  }

  lemma KeysAppend(a: seq<Record>, b: seq<Record>, key: Record -> string)
    ensures Keys(a + b, key) == Keys(a, key) + Keys(b, key)
  {
    var ab := a + b;
    forall k | k in Keys(ab, key)
      ensures k in Keys(a, key) + Keys(b, key)
    {
      var i :| 0 <= i < |ab| && key(ab[i]) == k;
      if i >= |a| {
        assert ab[i] == b[i - |a|];
      }
    }
    forall k | k in Keys(b, key)
      ensures k in Keys(ab, key)
    {
      var i :| 0 <= i < |b| && key(b[i]) == k;
      assert ab[|a| + i] == b[i];
    }
    forall k | k in Keys(a, key)
      ensures k in Keys(ab, key)
    {
      var i :| 0 <= i < |a| && key(a[i]) == k;
      assert ab[i] == a[i];
    }
  }

  /**
   * The rows `import_data` hands to `save_data`, or None when a required
   * column is missing and nothing is merged.
   */
  function Import(existing: seq<Record>, incoming: Incoming): (r: Option<seq<Record>>)
    ensures r.None? <==> exists c :: c in RequiredColumns && c !in incoming.columns
    ensures r.Some? ==> DistinctKeys(r.value)
    ensures r.Some? ==> r.value == MergeRows(existing, incoming.rows)
  {
    if MissingColumns(incoming.columns) != [] then None
    else Some(MergeRows(existing, incoming.rows))
  }

  /** Each merged row is the last row of its room in the stored rows followed by the imported ones. */
  lemma MergeKeepsLast(existing: seq<Record>, incoming: seq<Record>, x: Record)
    requires x in MergeRows(existing, incoming)
    ensures exists i :: IsLast(existing + incoming, RoomKey, i) && (existing + incoming)[i] == x
  {
    KeepLastKeepsOnlyLast(existing + incoming, RoomKey, x);
  }

  /** The last imported row of a room replaces whatever the stored sheet had for it. */
  lemma MergeIncomingWins(existing: seq<Record>, incoming: seq<Record>, i: int)
    requires IsLast(incoming, RoomKey, i)
    ensures incoming[i] in MergeRows(existing, incoming)
    ensures forall x :: x in MergeRows(existing, incoming) && RoomKey(x) == RoomKey(incoming[i]) ==> x == incoming[i]
  {
    var all := existing + incoming;
    var n := |existing|;
    assert all[n + i] == incoming[i];
    assert IsLast(all, RoomKey, n + i);
    KeepLastKeepsEveryLast(all, RoomKey, n + i);
    var r := MergeRows(existing, incoming);
    forall x | x in r && RoomKey(x) == RoomKey(incoming[i])
      ensures x == incoming[i]
    {
      OneRowPerKey(r, x, incoming[i]);
    }
  }

  /** Under distinct keys, two rows with the same key are the same row. */
  lemma OneRowPerKey(rows: seq<Record>, a: Record, b: Record)
    requires DistinctKeys(rows)
    requires a in rows && b in rows && Key(a.roomNo) == Key(b.roomNo)
    ensures a == b
  {
    var p :| 0 <= p < |rows| && rows[p] == a;
    var q :| 0 <= q < |rows| && rows[q] == b;
    assert !(p < q) && !(q < p);
  }

  /** A stored room the import does not mention keeps its stored row. */
  lemma MergeKeepsUntouched(existing: seq<Record>, incoming: seq<Record>, i: int)
    requires IsLast(existing, RoomKey, i)
    requires RoomKey(existing[i]) !in Keys(incoming, RoomKey)
    ensures existing[i] in MergeRows(existing, incoming)
  {
    var all := existing + incoming;
    forall j | i < j < |all|
      ensures RoomKey(all[j]) != RoomKey(all[i])
    {
      if j >= |existing| {
        assert all[j] == incoming[j - |existing|];
      }
    }
    assert IsLast(all, RoomKey, i);
    KeepLastKeepsEveryLast(all, RoomKey, i);
  }

  /** Three rows for one room, one stored and two imported, leave only the last imported one. */
  lemma MergeOneRoom(stored: Record, first: Record, second: Record)
    requires RoomKey(stored) == RoomKey(first) == RoomKey(second)
    ensures MergeRows([stored], [first, second]) == [second]
  {
    var all := [stored] + [first, second];
    assert all == [stored, first, second];
    assert all[1..] == [first, second];
    assert [first, second][1..] == [second];
    assert [second][1..] == [];
    assert KeepLast([second], RoomKey) == [second];
    assert RoomKey(first) in Keys([second], RoomKey);
    assert KeepLast([first, second], RoomKey) == [second];
    assert RoomKey(stored) in Keys([first, second], RoomKey);
  }

  /** Room numbers that differ only in letter case are different raw values with the same stored form. */
  lemma LowerCaseRoom(lower: string, upper: string)
    requires lower == "1a" && upper == "1A"
    ensures lower != upper && Key(lower) == Key(upper) == upper
  {
    assert lower[1] != upper[1];
    assert Trim(lower) == lower && Trim(upper) == upper;
    assert Upper(lower) == upper by {
      assert lower[1..] == "a" && "a"[1..] == [];
      assert Upper("a") == [UpperChar('a')] == "A";
      assert Upper(lower) == [UpperChar('1')] + Upper("a");
    }
    assert Upper(upper) == upper by {
      assert upper[1..] == "A" && "A"[1..] == [];
      assert Upper("A") == "A";
      assert Upper(upper) == [UpperChar('1')] + Upper("A");
    }
  }

  /**
   * As written, a stored row "1A" and an imported row "1a" both survive the
   * raw-key merge, and the save that follows turns them into two rows for room 1A.
   */
  lemma RawMergeDuplicatesRoom(stored: Record, imported: Record, written: seq<Record>)
    requires stored.roomNo == "1A" && imported.roomNo == "1a"
    requires SavedFrom(MergeAsWritten([stored], [imported]), written)
    ensures MergeAsWritten([stored], [imported]) == [stored, imported]
    ensures !DistinctKeys(written)
  {
    LowerCaseRoom(imported.roomNo, stored.roomNo);
    var all := [stored] + [imported];
    assert all == [stored, imported];
    assert all[1..] == [imported] && [imported][1..] == [];
    assert KeepLast([imported], RawRoomNo) == [imported];
    assert Keys([imported], RawRoomNo) == {imported.roomNo};
    assert RawRoomNo(stored) !in Keys([imported], RawRoomNo);
    var merged := MergeAsWritten([stored], [imported]);
    assert merged == [stored, imported];
    var normal := NormaliseOnSave(merged);
    assert Key(normal[0].roomNo) == Key(normal[1].roomNo) by {
      KeyIdempotent(stored.roomNo);
      KeyIdempotent(imported.roomNo);
    }
    if DistinctKeys(written) {
      DistinctKeysPermutation(written, normal);
      assert false;
    }
  }

  /** Comparing stored room numbers, the merge followed by the save leaves one row per room. */
  lemma MergeSavesOneRowPerRoom(existing: seq<Record>, incoming: seq<Record>, written: seq<Record>)
    requires SavedFrom(MergeRows(existing, incoming), written)
    ensures DistinctKeys(written)
  {
    var merged := MergeRows(existing, incoming);
    SaveKeepsDistinct(merged, written);
  }

  /** Every room of either sheet is still on the sheet after the merge and the save. */
  lemma MergeSavesEveryRoom(existing: seq<Record>, incoming: seq<Record>, merged: seq<Record>, written: seq<Record>)
    requires merged == MergeRows(existing, incoming)
    requires SavedFrom(merged, written)
    ensures Keys(written, RoomKey) == Keys(existing, RoomKey) + Keys(incoming, RoomKey)
  {
    SaveKeepsRoomKeys(merged, written);
  }

  /** Saving keeps the set of rooms. */
  lemma SaveKeepsRoomKeys(rows: seq<Record>, written: seq<Record>)
    requires SavedFrom(rows, written)
    ensures Keys(written, RoomKey) == Keys(rows, RoomKey)
  {
    var normal := NormaliseOnSave(rows);
    forall k | k in Keys(written, RoomKey)
      ensures k in Keys(rows, RoomKey)
    {
      var i :| 0 <= i < |written| && RoomKey(written[i]) == k;
      assert written[i] in multiset(normal);
      var j :| 0 <= j < |normal| && normal[j] == written[i];
      KeyIdempotent(rows[j].roomNo);
    }
    forall k | k in Keys(rows, RoomKey)
      ensures k in Keys(written, RoomKey)
    {
      var j :| 0 <= j < |rows| && RoomKey(rows[j]) == k;
      KeyIdempotent(rows[j].roomNo);
      assert normal[j] in multiset(written);
      var i :| 0 <= i < |written| && written[i] == normal[j];
    }
  }
}
