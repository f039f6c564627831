/** One row of the occupancy sheet, and the values its status columns take. */
module Records {
  import opened Text
  import opened Seqs

  /**
   * The seven columns of a row: No Kamar, Nama Penghuni, Nomor WhatsApp,
   * Tanggal Masuk, Status Kamar, Status Pembayaran and Harga Kamar.
   */
  datatype Record = Record(
    roomNo: string,
    occupant: string,
    whatsApp: string,
    moveInDate: string,
    roomStatus: string,
    paymentStatus: string,
    price: string)

  /** The column headers, in sheet order. */
  const Columns: seq<string> := [
    "No Kamar", "Nama Penghuni", "Nomor WhatsApp", "Tanggal Masuk",
    "Status Kamar", "Status Pembayaran", "Harga Kamar"
  ]

  /** The room state of a vacant room, the one status that changes what is stored. */
  const Vacant: string := "Kamar Kosong"

  /** A vacant room carries no occupant, number, date, payment state or price. */
  predicate VacancyBlank(r: Record) {
    r.roomStatus == Vacant ==>
      r.occupant == "" && r.whatsApp == "" && r.moveInDate == "" &&
      r.paymentStatus == "" && r.price == ""
  }

  /** The room number as `save_data` stores it, stripped and upper-cased. */
  function RoomKey(r: Record): (k: string) {
    Key(r.roomNo)
  }

  /** No two rows share a key. */
  predicate UniqueBy(rows: seq<Record>, key: Record -> string) {
    forall i, j :: 0 <= i < j < |rows| ==> key(rows[i]) != key(rows[j])
  }

  /** No two rows share a normalised room number (one row per room). */
  predicate DistinctKeys(rows: seq<Record>) {
    UniqueBy(rows, RoomKey)
  }

  /** The sheet invariants: one row per room, and vacant rooms carry no occupant data. */
  predicate Consistent(rows: seq<Record>) {
    DistinctKeys(rows) && forall i :: 0 <= i < |rows| ==> VacancyBlank(rows[i])
  }

  /** Under distinct keys no row occurs twice. */
  lemma {:induction false} DistinctKeysCountOne(rows: seq<Record>, x: Record)
    requires DistinctKeys(rows)
    ensures multiset(rows)[x] <= 1
  {
    if rows != [] {
      var n := |rows| - 1;
      assert rows == rows[..n] + [rows[n]];
      DistinctKeysCountOne(rows[..n], x);
      if rows[n] == x {
        assert x !in rows[..n];
      }
    }
  }

  lemma CountTwo(rows: seq<Record>, i: nat, j: nat)
    requires i < j < |rows| && rows[i] == rows[j]
    ensures multiset(rows)[rows[i]] >= 2
  {
    assert rows == rows[..j] + rows[j..];
    assert rows[i] in rows[..j];
    assert rows[j] in rows[j..];
  }

  /** Reordering rows cannot create two rows for one room. */
  lemma DistinctKeysPermutation(a: seq<Record>, b: seq<Record>)
    requires multiset(a) == multiset(b)
    requires DistinctKeys(a)
    ensures DistinctKeys(b)
  {
    forall i, j | 0 <= i < j < |b|
      ensures Key(b[i].roomNo) != Key(b[j].roomNo)
    {
      if b[i] == b[j] {
        CountTwo(b, i, j);
        DistinctKeysCountOne(a, b[i]);
      } else {
        assert b[i] in multiset(a) && b[j] in multiset(a);
        var p :| 0 <= p < |a| && a[p] == b[i];
        var q :| 0 <= q < |a| && a[q] == b[j];
        assert p < q || q < p;
      }
    }
  }

  /** Dropping rows cannot create two rows for one room. */
  lemma {:induction false} FilterKeepsDistinct(rows: seq<Record>, p: Record -> bool)
    requires DistinctKeys(rows)
    ensures DistinctKeys(Filter(rows, p))
  {
    if rows != [] {
      var tail := rows[1..];
      assert forall i :: 0 <= i < |tail| ==> tail[i] == rows[i + 1];
      FilterKeepsDistinct(tail, p);
      var rest := Filter(tail, p);
      forall k | 0 <= k < |rest|
        ensures RoomKey(rows[0]) != RoomKey(rest[k])
      {
        assert rest[k] in tail;
      }
    }
  }
}
