/**
 * The record logic of `tambah_data` and `hapus_data`: validating the entry
 * form, building the row it describes, replacing or appending that row by
 * room number, and removing every row of a room.
 */
module Reconcile {
  import opened Wrappers
  import opened Text
  import opened Phone
  import opened Records
  import opened Seqs

  /** The entry form's fields as the add/edit button reads them; the date is already formatted. */
  datatype Form = Form(
    roomNo: string,
    occupant: string,
    whatsApp: string,
    moveInDate: string,
    roomStatus: string,
    paymentStatus: string,
    price: string)

  /** Why the form was refused: no occupant name, or no WhatsApp number, for an occupied room. */
  datatype Rejection = MissingOccupant | MissingWhatsApp

  /**
   * The row the form describes. An occupied room needs a name and a number
   * (after stripping); a vacant room keeps only its number and status.
   */
  function BuildRecord(form: Form): (r: Result<Record, Rejection>)
    ensures r.Failure? <==> form.roomStatus != Vacant && (Trim(form.occupant) == "" || Trim(form.whatsApp) == "")
    ensures r.Failure? ==> r.error == if Trim(form.occupant) == "" then MissingOccupant else MissingWhatsApp
    ensures r.Success? ==> r.value.roomNo == Key(form.roomNo) && Key(r.value.roomNo) == r.value.roomNo
    ensures r.Success? ==> r.value.roomStatus == form.roomStatus && VacancyBlank(r.value)
    ensures r.Success? && form.roomStatus != Vacant ==>
      && r.value.occupant == Trim(form.occupant) != ""
      && Trim(r.value.occupant) == r.value.occupant
      && r.value.whatsApp == FormatWhatsappNumber(Trim(form.whatsApp))
      && AllDigits(r.value.whatsApp) && StartsWith(r.value.whatsApp, CountryCode)
      && r.value.moveInDate == form.moveInDate
      && r.value.paymentStatus == form.paymentStatus
      && r.value.price == form.price
  {
    KeyIdempotent(form.roomNo);
    var roomNo := Key(form.roomNo);
    if form.roomStatus != Vacant then
      var name := Trim(form.occupant);
      var number := Trim(form.whatsApp);
      if name == "" then Failure(MissingOccupant)
      else if number == "" then Failure(MissingWhatsApp)
      else
        TrimIdempotent(form.occupant);
        FormatShape(number);
        Success(Record(roomNo, name, FormatWhatsappNumber(number), form.moveInDate,
                       form.roomStatus, form.paymentStatus, form.price))
    else
      Success(Record(roomNo, "", "", "", form.roomStatus, "", ""))
  }

  /** Whether the row was replaced ("diupdate") or appended ("ditambahkan"). */
  datatype Action = Updated | Added

  function ActionWord(a: Action): (w: string) {
    match a
    case Updated => "diupdate"
    case Added => "ditambahkan"
  }

  /** `i` is the first row whose normalised room number is `key`. */
  predicate FirstHolder(rows: seq<Record>, key: string, i: int) {
    && 0 <= i < |rows|
    && Key(rows[i].roomNo) == key
    && forall j :: 0 <= j < i ==> Key(rows[j].roomNo) != key
  }

  /** The position of the first row whose normalised room number is `key`, or the length when there is none. */
  function FirstMatch(rows: seq<Record>, key: string): (i: nat)
    ensures i <= |rows|
    ensures i < |rows| ==> FirstHolder(rows, key, i)
    ensures i == |rows| ==> forall j :: 0 <= j < |rows| ==> Key(rows[j].roomNo) != key
  {
    if rows == [] then 0
    else if Key(rows[0].roomNo) == key then 0
    else 1 + FirstMatch(rows[1..], key)
  }

  datatype Upserted = Upserted(rows: seq<Record>, action: Action)

  /**
   * Update or append by room number: the first row of the same room is
   * replaced wholesale, or, when the room has no row, the row is appended.
   */
  function Upsert(rows: seq<Record>, rec: Record): (u: Upserted)
    ensures u.action == Updated <==> exists i :: 0 <= i < |rows| && Key(rows[i].roomNo) == rec.roomNo
    ensures u.action == Updated ==> exists i :: FirstHolder(rows, rec.roomNo, i) && u.rows == rows[i := rec]
    ensures u.action == Added ==> u.rows == rows + [rec]
  {
    var i := FirstMatch(rows, rec.roomNo);
    if i < |rows| then Upserted(rows[i := rec], Updated) else Upserted(rows + [rec], Added)
  }

  /** Submitting the same row twice leaves the rows as one submission did, and the second one updates. */
  lemma UpsertIdempotent(rows: seq<Record>, rec: Record)
    requires Key(rec.roomNo) == rec.roomNo
    ensures Upsert(Upsert(rows, rec).rows, rec) == Upserted(Upsert(rows, rec).rows, Updated)
  {
    var once := Upsert(rows, rec).rows;
    var i := FirstMatch(rows, rec.roomNo);
    if i < |rows| {
      assert FirstHolder(once, rec.roomNo, i);
      assert FirstMatch(once, rec.roomNo) == i;
    } else {
      assert FirstHolder(once, rec.roomNo, |rows|);
      assert FirstMatch(once, rec.roomNo) == |rows|;
    }
  }

  /** Upserting a valid row keeps the sheet invariants: still one row per room, vacant rows blank. */
  lemma UpsertKeepsConsistent(rows: seq<Record>, rec: Record)
    requires Consistent(rows)
    requires Key(rec.roomNo) == rec.roomNo && VacancyBlank(rec)
    ensures Consistent(Upsert(rows, rec).rows)
  {
    var u := Upsert(rows, rec).rows;
    var i := FirstMatch(rows, rec.roomNo);
    forall a, b | 0 <= a < b < |u|
      ensures Key(u[a].roomNo) != Key(u[b].roomNo)
    {
      if i < |rows| {
        if a == i {
          assert Key(rows[a].roomNo) == Key(rec.roomNo);
        } else if b == i {
          assert Key(rows[b].roomNo) == Key(rec.roomNo);
        }
      } else if b == |rows| {
        assert Key(rows[a].roomNo) != rec.roomNo;
      }
    }
  }

  /** The rows whose stripped, upper-cased room number differs from the target's, in their original order. */
  function Delete(rows: seq<Record>, roomNo: string): (r: seq<Record>)
    ensures forall x :: x in r <==> x in rows && Key(x.roomNo) != Key(roomNo)
    ensures forall x :: multiset(r)[x] == if Key(x.roomNo) == Key(roomNo) then 0 else multiset(rows)[x]
  {
    Filter(rows, (x: Record) => Key(x.roomNo) != Key(roomNo))
  }

  /** Deleting splits over concatenation, so the surviving rows keep their relative order. */
  lemma DeleteKeepsOrder(a: seq<Record>, b: seq<Record>, roomNo: string)
    ensures Delete(a + b, roomNo) == Delete(a, roomNo) + Delete(b, roomNo)
  {
    FilterAppend(a, b, (x: Record) => Key(x.roomNo) != Key(roomNo));
  }

  /** Deleting a room that has no row leaves the rows exactly as they were. */
  lemma DeleteAbsent(rows: seq<Record>, roomNo: string)
    requires forall i :: 0 <= i < |rows| ==> Key(rows[i].roomNo) != Key(roomNo)
    ensures Delete(rows, roomNo) == rows
  {
    FilterAll(rows, (x: Record) => Key(x.roomNo) != Key(roomNo));
  }

  /** Deleting only removes rows, so the sheet invariants survive it. */
  lemma DeleteKeepsConsistent(rows: seq<Record>, roomNo: string)
    requires Consistent(rows)
    ensures Consistent(Delete(rows, roomNo))
  {
    var p := (x: Record) => Key(x.roomNo) != Key(roomNo);
    var r := Delete(rows, roomNo);
    forall i | 0 <= i < |r|
      ensures VacancyBlank(r[i])
    {
      assert r[i] in rows;
    }
    FilterKeepsDistinct(rows, p);
  }

  /** A row of the deleted room disappears from between its neighbours. */
  lemma DeleteDropsMatch(a: seq<Record>, x: Record, b: seq<Record>, roomNo: string)
    requires Key(x.roomNo) == Key(roomNo)
    ensures Delete(a + [x] + b, roomNo) == Delete(a, roomNo) + Delete(b, roomNo)
  {
    FilterDrops(a, x, b, (x: Record) => Key(x.roomNo) != Key(roomNo));
  }

  /** Replacing a row of the deleted room by another row of that room does not change what survives. */
  lemma DeleteReplaced(rows: seq<Record>, i: int, rec: Record, roomNo: string)
    requires 0 <= i < |rows|
    requires Key(rows[i].roomNo) == Key(roomNo) && Key(rec.roomNo) == Key(roomNo)
    ensures Delete(rows[i := rec], roomNo) == Delete(rows, roomNo)
  {
    var a, b := rows[..i], rows[i + 1..];
    assert rows == a + [rows[i]] + b;
    assert rows[i := rec] == a + [rec] + b;
    DeleteDropsMatch(a, rows[i], b, roomNo);
    DeleteDropsMatch(a, rec, b, roomNo);
  }

  /** Upserting a room and then deleting it is the same as deleting it. */
  lemma DeleteAfterUpsert(rows: seq<Record>, rec: Record)
    requires Key(rec.roomNo) == rec.roomNo
    ensures Delete(Upsert(rows, rec).rows, rec.roomNo) == Delete(rows, rec.roomNo)
  {
    var i := FirstMatch(rows, rec.roomNo);
    if i < |rows| {
      DeleteReplaced(rows, i, rec, rec.roomNo);
    } else {
      assert rows + [rec] == rows + [rec] + [];
      DeleteDropsMatch(rows, rec, [], rec.roomNo);
      assert rows + [] == rows;
    }
  }
}
