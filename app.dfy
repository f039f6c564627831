/**
 * The `KostApp` window as a state machine: the sheet on disk and the rows the
 * table currently shows (`current_data`), with the button handlers that read,
 * change and rewrite the sheet. Widget input arrives as parameters; whether
 * the write to disk succeeds is a parameter too.
 */
module App {
  import opened Wrappers
  import opened Text
  import opened Records
  import opened Store
  import opened Reconcile
  import opened Merge
  import opened Query

  /** How the add/edit button ends: no row selected (edit only), a refused form, a stored row, or a failed write. */
  datatype AddOutcome = NothingSelected | Refused(reason: Rejection) | Stored(action: Action) | StoreFailed

  /** How the delete button ends: no row selected, the confirmation declined, deleted, or a failed write. */
  datatype DeleteOutcome = NoRowSelected | Declined | Deleted | DeleteFailed

  /** How the import button ends: a required column missing, imported, or a failed write. */
  datatype ImportOutcome = ColumnsMissing | Imported | ImportFailed

  class KostApp {
    /** The sheet file `data/kost_data.xlsx`. */
    var disk: Disk
    /** `current_data`: the rows the table was last filled from. */
    var currentData: seq<Record>

    /** `__init__`: the window starts out showing the loaded sheet. */
    constructor (d: Disk)
      ensures disk == d && LoadedFrom(d, currentData)
    {
      var rows := Load(d);
      disk := d;
      currentData := rows;
    }

    /** `tampilkan_data`: reload the sheet and show all of it. */
    method ShowData()
      modifies this
      ensures disk == old(disk) && LoadedFrom(disk, currentData)
    {
      currentData := Load(disk);
    }

    /** `cari_data`: show the matching rows, or keep the table as it was when the search is refused. */
    method SearchData(keyword: string, kind: SearchBy) returns (outcome: Result<seq<Record>, SearchError>, ghost loaded: seq<Record>)
      modifies this
      ensures disk == old(disk)
      ensures LoadedFrom(disk, loaded) && outcome == Search(loaded, keyword, kind)
      ensures outcome.Success? ==> currentData == outcome.value
      ensures outcome.Failure? ==> currentData == old(currentData)
    {
      var rows := Load(disk);
      loaded := rows;
      outcome := Search(rows, keyword, kind);
      if outcome.Success? {
        currentData := outcome.value;
      }
    }

    /**
     * `tambah_data`: build the row from the form, replace or append it in the
     * loaded sheet and write the sheet back; a refused form touches nothing.
     */
    method AddData(form: Form, saveSucceeds: bool) returns (outcome: AddOutcome, ghost loaded: seq<Record>, ghost written: seq<Record>)
      modifies this
      ensures BuildRecord(form).Failure? ==>
        outcome == Refused(BuildRecord(form).error) && disk == old(disk) && currentData == old(currentData)
      ensures BuildRecord(form).Success? ==>
        && LoadedFrom(old(disk), loaded)
        && SavedFrom(Upsert(loaded, BuildRecord(form).value).rows, written)
      ensures BuildRecord(form).Success? && saveSucceeds ==>
        && outcome == Stored(Upsert(loaded, BuildRecord(form).value).action)
        && disk == Sheet(written) && LoadedFrom(disk, currentData)
        && BuildRecord(form).value in written
      ensures BuildRecord(form).Success? && !saveSucceeds ==>
        outcome == StoreFailed && disk == old(disk) && currentData == old(currentData)
      ensures Consistent(StoredRows(old(disk))) ==> Consistent(StoredRows(disk))
    {
      var built := BuildRecord(form);
      if built.Failure? {
        outcome := Refused(built.error);
        loaded, written := [], [];
        return;
      }
      var rec := built.value;
      var rows := Load(disk);
      loaded := rows;
      var u := Upsert(rows, rec);
      var w := Save(u.rows);
      written := w;
      UpsertWritten(disk, rows, rec, w);
      if saveSucceeds {
        disk := Sheet(w);
        currentData := Load(disk);
        outcome := Stored(u.action);
      } else {
        outcome := StoreFailed;
      }
    }

    /** `edit_data`: the add button's work, once a table row is selected. */
    method EditData(hasSelection: bool, form: Form, saveSucceeds: bool) returns (outcome: AddOutcome, ghost loaded: seq<Record>, ghost written: seq<Record>)
      modifies this
      ensures !hasSelection ==> outcome == NothingSelected && disk == old(disk) && currentData == old(currentData)
      ensures hasSelection && BuildRecord(form).Failure? ==>
        outcome == Refused(BuildRecord(form).error) && disk == old(disk) && currentData == old(currentData)
      ensures hasSelection && BuildRecord(form).Success? ==>
        && LoadedFrom(old(disk), loaded)
        && SavedFrom(Upsert(loaded, BuildRecord(form).value).rows, written)
      ensures hasSelection && BuildRecord(form).Success? && saveSucceeds ==>
        && outcome == Stored(Upsert(loaded, BuildRecord(form).value).action)
        && disk == Sheet(written) && LoadedFrom(disk, currentData)
      ensures hasSelection && BuildRecord(form).Success? && !saveSucceeds ==>
        outcome == StoreFailed && disk == old(disk) && currentData == old(currentData)
      ensures Consistent(StoredRows(old(disk))) ==> Consistent(StoredRows(disk))
    {
      if !hasSelection {
        outcome := NothingSelected;
        loaded, written := [], [];
        return;
      }
      outcome, loaded, written := AddData(form, saveSucceeds);
    }

    /**
     * `hapus_data`: after confirmation, drop every row of the selected room
     * from the loaded sheet and write the rest back.
     */
    method DeleteData(selected: Option<string>, confirmed: bool, saveSucceeds: bool) returns (outcome: DeleteOutcome, ghost loaded: seq<Record>, ghost written: seq<Record>)
      modifies this
      ensures selected.None? ==> outcome == NoRowSelected && disk == old(disk) && currentData == old(currentData)
      ensures selected.Some? && !confirmed ==> outcome == Declined && disk == old(disk) && currentData == old(currentData)
      ensures selected.Some? && confirmed ==>
        && LoadedFrom(old(disk), loaded)
        && SavedFrom(Delete(loaded, selected.value), written)
        && multiset(written) == multiset(Delete(loaded, selected.value))
      ensures selected.Some? && confirmed && saveSucceeds ==>
        && outcome == Deleted
        && disk == Sheet(written) && LoadedFrom(disk, currentData)
        && forall x :: x in written ==> Key(x.roomNo) != Key(selected.value)
      ensures selected.Some? && confirmed && !saveSucceeds ==>
        outcome == DeleteFailed && disk == old(disk) && currentData == old(currentData)
      ensures Consistent(StoredRows(old(disk))) ==> Consistent(StoredRows(disk))
    {
      if selected.None? {
        outcome := NoRowSelected;
        loaded, written := [], [];
        return;
      }
      if !confirmed {
        outcome := Declined;
        loaded, written := [], [];
        return;
      }
      var rows := Load(disk);
      loaded := rows;
      var kept := Delete(rows, selected.value);
      var w := Save(kept);
      written := w;
      DeleteWritesSurvivors(rows, selected.value, w);
      if Consistent(StoredRows(disk)) {
        LoadKeepsConsistent(disk, rows);
        DeleteKeepsConsistent(rows, selected.value);
        SaveKeepsConsistent(kept, w);
      }
      if saveSucceeds {
        disk := Sheet(w);
        currentData := Load(disk);
        outcome := Deleted;
      } else {
        outcome := DeleteFailed;
      }
    }

    /**
     * `import_data`: with every required column present, append the imported
     * rows to the loaded sheet, keep the last row of each room, and write it back.
     */
    method ImportData(incoming: Incoming, saveSucceeds: bool) returns (outcome: ImportOutcome, ghost loaded: seq<Record>, ghost written: seq<Record>)
      modifies this
      ensures LoadedFrom(old(disk), loaded)
      ensures Import(loaded, incoming).None? ==> outcome == ColumnsMissing && disk == old(disk) && currentData == old(currentData)
      ensures Import(loaded, incoming).Some? ==> SavedFrom(MergeRows(loaded, incoming.rows), written)
      ensures Import(loaded, incoming).Some? && saveSucceeds ==>
        && outcome == Imported
        && disk == Sheet(written) && LoadedFrom(disk, currentData)
        && DistinctKeys(written)
      ensures Import(loaded, incoming).Some? && !saveSucceeds ==>
        outcome == ImportFailed && disk == old(disk) && currentData == old(currentData)
    {
      var rows := Load(disk);
      loaded := rows;
      if MissingColumns(incoming.columns) != [] {
        outcome := ColumnsMissing;
        written := [];
        return;
      }
      var merged := DropDuplicatesKeepLast(rows + incoming.rows, RoomKey);
      assert merged == MergeRows(rows, incoming.rows);
      var w := Save(merged);
      written := w;
      SaveKeepsDistinct(merged, w);
      if saveSucceeds {
        disk := Sheet(w);
        currentData := Load(disk);
        outcome := Imported;
      } else {
        outcome := ImportFailed;
      }
    }

    /** `save_data_manual`: rewrite the sheet from a fresh load, replacing a missing or unreadable file; the table is left alone. */
    method SaveDataManual(saveSucceeds: bool) returns (saved: bool, ghost loaded: seq<Record>, ghost written: seq<Record>)
      modifies this
      ensures saved == saveSucceeds && currentData == old(currentData)
      ensures LoadedFrom(old(disk), loaded) && SavedFrom(loaded, written)
      ensures multiset(written) == multiset(loaded)
      ensures saved ==> disk == Sheet(written)
      ensures !saved ==> disk == old(disk)
      ensures Consistent(StoredRows(old(disk))) ==> Consistent(StoredRows(disk))
    {
      var rows := Load(disk);
      loaded := rows;
      var w := Save(rows);
      written := w;
      NormaliseOnSaveKeeps(rows);
      if Consistent(StoredRows(disk)) {
        LoadKeepsConsistent(disk, rows);
        SaveKeepsConsistent(rows, w);
      }
      saved := saveSucceeds;
      if saved {
        disk := Sheet(w);
      }
    }
  }

  /** The sheet an upsert writes holds the new row, and keeps the invariants of the sheet it was loaded from. */
  lemma UpsertWritten(d: Disk, loaded: seq<Record>, rec: Record, written: seq<Record>)
    requires LoadedFrom(d, loaded)
    requires Key(rec.roomNo) == rec.roomNo && VacancyBlank(rec)
    requires SavedFrom(Upsert(loaded, rec).rows, written)
    ensures rec in written
    ensures Consistent(StoredRows(d)) ==> Consistent(written)
  {
    var u := Upsert(loaded, rec);
    if u.action == Updated {
      var i :| FirstHolder(loaded, rec.roomNo, i) && u.rows == loaded[i := rec];
      assert u.rows[i] == rec;
    } else {
      assert u.rows[|loaded|] == rec;
    }
    StoredRowIsWritten(u.rows, rec, written);
    if Consistent(StoredRows(d)) {
      LoadKeepsConsistent(d, loaded);
      UpsertKeepsConsistent(loaded, rec);
      SaveKeepsConsistent(u.rows, written);
    }
  }

  /** A key-normal row that is among the rows handed to `save_data` is among the rows written. */
  lemma StoredRowIsWritten(rows: seq<Record>, rec: Record, written: seq<Record>)
    requires SavedFrom(rows, written)
    requires rec in rows && Key(rec.roomNo) == rec.roomNo
    ensures rec in written
  {
    var k :| 0 <= k < |rows| && rows[k] == rec;
    assert NormaliseOnSave(rows)[k] == rec;
    assert rec in multiset(NormaliseOnSave(rows));
  }

  /** Deleting from loaded rows writes exactly the surviving rows, none of them of the deleted room. */
  lemma DeleteWritesSurvivors(rows: seq<Record>, roomNo: string, written: seq<Record>)
    requires forall i :: 0 <= i < |rows| ==> IsLoadNormal(rows[i])
    requires SavedFrom(Delete(rows, roomNo), written)
    ensures multiset(written) == multiset(Delete(rows, roomNo))
    ensures forall x :: x in written ==> Key(x.roomNo) != Key(roomNo)
  {
    var kept := Delete(rows, roomNo);
    forall i | 0 <= i < |kept|
      ensures Key(kept[i].roomNo) == kept[i].roomNo
    {
      assert kept[i] in rows;
    }
    NormaliseOnSaveKeeps(kept);
    forall x | x in written
      ensures Key(x.roomNo) != Key(roomNo)
    {
      assert x in multiset(kept);
    }
  }
}
