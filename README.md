# ManejemenKost record layer in Dafny

ManejemenKost is a desktop application for managing a boarding house (*kost*). The room sheet lives in `data/kost_data.xlsx`, one row per room, with seven columns:

- `No Kamar`
- `Nama Penghuni`
- `Nomor WhatsApp`
- `Tanggal Masuk`
- `Status Kamar`
- `Status Pembayaran`
- `Harga Kamar`

This project models the record-keeping layer of `app.py` and proves properties of it:

- the WhatsApp number normaliser (`format_whatsapp_number`);
- the normalisation and catalogue ordering done by `load_data` and `save_data`;
- the form validation and the update-or-append of `tambah_data`;
- the delete-by-room of `hapus_data`;
- the column check and keep-last merge of `import_data`;
- the two search filters of `cari_data`.

The button handlers of the `KostApp` window are modelled as methods of a class. The class holds the sheet on disk and the rows currently shown (`current_data`).

Modules, one per file:

- `Wrappers`: `Option` and `Result`.
- `Seqs`: an order-preserving filter and its algebra.
- `Text`: `str.strip`, `str.upper`, the normalised key `strip().upper()` and substring search, on ASCII.
- `Catalog`: the 40 room numbers `nomor_kamar`, the 12 price tiers, and the sort rank `nomor_kamar.index(x) if x in nomor_kamar else len(nomor_kamar)`.
- `Phone`: `format_whatsapp_number`. `PhoneExamples` holds the three prefix rules as worked cases.
- `Records`: the row datatype, the vacant-room status, and the sheet invariants. The invariants are one row per normalised room number, and vacant rooms with blank occupant fields.
- `Store`:
  - Load and save as methods over a `Disk` value (absent, unreadable, or a table of rows).
  - `sort_values` is an insertion-sort loop. Its contract is: sorted by rank, and a permutation of its input.
- `Reconcile`: building the row from the form, upsert by room number, and delete by room number.
- `Merge`: the required-column check and `drop_duplicates(keep='last')`. The latter is a function and also a backward loop proved equal to it; the import handler runs the loop. The raw-key merge as written is kept next to the corrected one.
- `Query`: the exact room filter and the case-insensitive name filter, and the search outcome.
- `App`: `class KostApp` with `disk` and `currentData` fields, and one method per handler.

The inputs the window reads from its widgets are parameters:

- the form fields, with the date already formatted as text;
- the keyword and the search kind;
- the selected row;
- the user's answer to the confirmation box;
- the imported sheet.

Whether the write to disk succeeds is a boolean parameter. A failed write leaves the disk unchanged.

## Model

| member | source | states |
|---|---|---|
| Catalog.IndexOf | app.py:37 | the rank lambda: the first position holding the room number, before which no entry holds it; the length exactly when the number is not in the list |
| Catalog.CatalogueDistinct | app.py:15-21 | no room number appears twice in `nomor_kamar` |
| Catalog.Rank | app.py:37 | the rank lambda applied to `nomor_kamar`; its body is the rule, and its properties are stated by Catalog.RankBounds, Catalog.RankOfCatalogue and Catalog.RankOrder |
| Catalog.RankOfCatalogue | app.py:37 | every catalogue entry ranks at its own position, below 40 |
| Catalog.RankBounds | app.py:59 | a known room ranks below 40 at a position holding it; an unknown room ranks exactly 40 |
| Catalog.RankOrder | app.py:37-38 | earlier catalogue entries rank strictly before later ones, and every unknown room ranks after all of them |
| Phone.Digits | app.py:72 | the filtered string consists of digits only, is no longer than the input, and is the input itself when that is all digits |
| Phone.DigitsAppend | app.py:72 | digit filtering distributes over concatenation |
| Phone.FormatWhatsappNumber | app.py:69-77 | the function itself: its body is the rule, and its properties are stated by Phone.FormatShape, Phone.FormatIdempotent, Phone.FormatWithoutDigits and the three rule lemmas |
| Phone.FormatShape | app.py:69-77 | empty input gives ""; any other input gives a digits-only string starting with "62" |
| Phone.FormatWithoutDigits | app.py:72-76 | a non-empty input without any digit yields exactly "62" |
| Phone.FormatIdempotent | app.py:69-77 | formatting an already formatted number returns it unchanged |
| Phone.FormatTrunkRule | app.py:73-74 | digits with a leading "0" have that "0" replaced by "62" |
| Phone.FormatPrefixedRule | app.py:75-77 | digits already starting with "62" are returned as they are |
| Phone.FormatBareRule | app.py:75-76 | any other digits, none at all included, get "62" in front |
| PhoneExamples.FormatLocalExample | app.py:73-74 | "0812" becomes "62812" |
| PhoneExamples.FormatBareExample | app.py:75-76 | "812" becomes "62812" |
| PhoneExamples.FormatFullExample | app.py:75-77 | "62812" stays "62812" |
| PhoneExamples.FormatInternationalExample | app.py:72-77 | "+62812" loses its "+" and stays "62812" |
| Text.TrimIdempotent | app.py:34-35 | stripping twice is stripping once |
| Text.TrimUpper | app.py:475 | stripping and upper-casing commute |
| Text.KeyIdempotent | app.py:57 | normalising an already normalised room number (on save after load) changes nothing |
| Text.KeyShape | app.py:34 | a normalised room number has no surrounding blanks and no lower-case letters |
| Text.ContainsAt | app.py:477-478 | substring containment holds exactly when the keyword occurs at some position of the name |
| Store.SortBy | app.py:38 | `sort_values('Sorting')`: the output is in non-decreasing rank order and is a permutation of the input |
| Store.Slot | app.py:38 | the insertion point lies after every row ranked at most the new row and before every row ranked above it |
| Store.Load | app.py:29-52 | the loaded rows are the disk's rows normalised (room number stripped and upper-cased, name stripped), in rank order, nothing lost or added; a missing or unreadable file loads as no rows |
| Store.Save | app.py:54-64 | the written rows are the given rows with room numbers stripped and upper-cased, in rank order, nothing lost or added |
| Store.LoadNormalIsNormal | app.py:34-35 | a row normalised on load is already in load-normal form |
| Store.ReloadAfterSave | app.py:642-643 | saving what was loaded and loading it back returns the same multiset of rows |
| Store.LoadKeepsConsistent | app.py:33-39 | loading keeps one row per room and blank vacant rows |
| Store.SaveKeepsDistinct | app.py:57-61 | saving rows with one row per room writes one row per room |
| Store.SaveKeepsConsistent | app.py:57-61 | saving keeps one row per room and blank vacant rows |
| Reconcile.BuildRecord | app.py:494-518 | refused exactly when the room is not vacant and the stripped name or number is empty (name checked first); otherwise the row has the normalised room number and the form's status; a vacant row has its five other fields blank; an occupied row has the stripped name, the stripped number as `format_whatsapp_number` formats it (so "62"-prefixed digits), and the form's date, payment status and price |
| Reconcile.FirstMatch | app.py:522 | the first row whose normalised room number is the key, or the length when no row has it |
| Reconcile.Upsert | app.py:522-529 | "diupdate" exactly when some row has the room; then only its first row is replaced by the new row and nothing else changes; otherwise the row is appended ("ditambahkan") |
| Reconcile.UpsertIdempotent | app.py:522-529 | submitting the same row a second time leaves the sheet as the first submission did, and reports an update |
| Reconcile.UpsertKeepsConsistent | app.py:522-529 | upserting a valid row keeps one row per room and blank vacant rows |
| Reconcile.Delete | app.py:566 | a row survives exactly when its normalised room number differs from the target's, with its multiplicity unchanged |
| Reconcile.DeleteKeepsOrder | app.py:566 | deleting distributes over concatenation, so survivors keep their relative order |
| Reconcile.DeleteAbsent | app.py:566 | deleting a room that has no row leaves the rows exactly as they were |
| Reconcile.DeleteKeepsConsistent | app.py:566 | deleting keeps one row per room and blank vacant rows |
| Reconcile.DeleteDropsMatch | app.py:566 | a row of the deleted room disappears from between its neighbours |
| Reconcile.DeleteReplaced | app.py:566 | replacing a row of the deleted room by another row of that room does not change what survives |
| Reconcile.DeleteAfterUpsert | app.py:566 | upserting a room and then deleting it equals deleting it |
| Merge.Keys | app.py:607 | a key is in the key set exactly when some row carries it |
| Merge.KeepLast | app.py:607 | `drop_duplicates(keep='last')`: no longer than the input, draws only input rows, keeps the same key set, and no key twice |
| Merge.KeepLastAppend | app.py:607 | keep-last over a concatenation is the first part's survivors not superseded by the second part, in order, followed by the second part's survivors: the survivors keep their relative order |
| Merge.KeepLastKeepsOnlyLast | app.py:607 | every surviving row is the last row of its key |
| Merge.KeepLastKeepsEveryLast | app.py:607 | the last row of every key survives |
| Merge.DropDuplicatesKeepLast | app.py:607 | the backward scan with a set of seen keys computes exactly the keep-last result |
| Merge.MissingColumns | app.py:595-600 | a header is reported missing exactly when it is required and absent |
| Merge.Import | app.py:595-607 | rejected exactly when a required column is missing; otherwise exactly the rows of the corrected merge `Merge.MergeRows` of the stored and imported rows, one row per room |
| Merge.KeysAppend | app.py:606 | the keys of a concatenation are the union of the keys |
| Merge.MergeAsWritten | app.py:606-607 | the merge as written: each raw `No Kamar` value at most once, and the raw key set of both sheets kept |
| Merge.MergeRows | app.py:606-607 | the corrected merge: one row per room, the rooms of both sheets kept, and every row drawn from one of them |
| Merge.MergeKeepsLast | app.py:606-607 | in the corrected merge, each surviving row is the last row of its room in the stored rows followed by the imported ones |
| Merge.MergeIncomingWins | app.py:606-607 | in the corrected merge, the last imported row of a room survives and is the only row of that room |
| Merge.MergeKeepsUntouched | app.py:606-607 | in the corrected merge, a stored room absent from the import keeps its stored row |
| Merge.MergeOneRoom | app.py:606-607 | in the corrected merge, one stored and two imported rows of a room leave only the second imported row |
| Merge.OneRowPerKey | app.py:607 | under one row per room, two rows of the same room are the same row |
| Merge.LowerCaseRoom | app.py:34 | "1a" and "1A" are different raw values with the same normalised room number |
| Merge.RawMergeDuplicatesRoom | app.py:605-607 | as written, a stored "1A" and an imported "1a" both survive the merge, and the save writes two rows for room 1A |
| Merge.MergeSavesOneRowPerRoom | app.py:606-608 | the corrected merge followed by the save writes one row per room |
| Merge.MergeSavesEveryRoom | app.py:606-608 | after the corrected merge and the save, the sheet holds exactly the rooms of the stored and the imported rows |
| Merge.SaveKeepsRoomKeys | app.py:57-61 | saving keeps the set of normalised room numbers |
| Query.MatchesRoom | app.py:475 | the room filter: its body is the rule, compared on stripped, upper-cased room number and keyword; Query.Hits, Query.Search and Query.RoomSearchFindsHolder state what it selects |
| Query.MatchesOccupant | app.py:477-478 | the name filter: its body is the rule, the stripped, upper-cased keyword occurring in the stripped, upper-cased name; Query.Hits, Query.Search and Query.OccupantSearchExample state what it selects |
| Query.Hits | app.py:474-478 | a row is a hit exactly when it matches, with its multiplicity kept |
| Query.Search | app.py:460-487 | a blank keyword, an empty sheet and a search without hits are each refused, each exactly in its case; otherwise the result is the non-empty list of matching rows for the stripped keyword |
| Query.TrimmedKeywordMatchesAlike | app.py:461-478 | stripping the keyword before matching does not change what matches |
| Query.HitsSameKey | app.py:474-478 | keywords with the same normalised form select the same rows |
| Query.UpperKeyword | app.py:461-478 | upper-casing a keyword keeps its stripped form blank or not and keeps its normalised form |
| Query.SearchIgnoresCase | app.py:460-487 | searching for the upper-cased keyword gives the same outcome as searching for the keyword |
| Query.HitsKeepOrder | app.py:474-478 | the hits of two concatenated sheets are the hits of the first followed by those of the second |
| Query.RoomSearchFindsOne | app.py:475 | on a sheet with one row per room, a room search finds at most one row |
| Query.RoomSearchFindsHolder | app.py:475 | on such a sheet, the row of a room is found by its room number in any letter case and blank padding |
| Query.SearchSingleRow | app.py:474-487 | a one-row sheet whose row matches the keyword is found as it is |
| Query.OccupantSearchExample | app.py:477-478 | "aminah" finds the occupant "Siti Aminah" |
| Query.OccupantSearchUpperExample | app.py:477-478 | "SITI" finds the occupant "Siti Aminah" |
| App.KostApp.constructor | app.py:91 | the window starts showing the rows loaded from the disk |
| App.KostApp.ShowData | app.py:400-403 | the table is reloaded from the unchanged disk |
| App.KostApp.SearchData | app.py:460-487 | the outcome is the search over a fresh load; the table shows the hits on success and is left alone otherwise; the disk is unchanged |
| App.KostApp.AddData | app.py:493-538 | a refused form changes nothing; otherwise the written sheet is the saved upsert of the loaded rows and holds the new row. On a successful write the disk is that sheet, the table is reloaded, and the action is reported. A failed write changes nothing. The sheet invariants are preserved |
| App.KostApp.EditData | app.py:540-547 | without a selected row nothing changes; with one it behaves as the add button |
| App.KostApp.DeleteData | app.py:549-575 | no selection or a declined confirmation changes nothing; otherwise the written sheet holds exactly the loaded rows of the other rooms. On a successful write the disk is that sheet and the table is reloaded. A failed write changes nothing. The sheet invariants are preserved |
| App.KostApp.ImportData | app.py:595-615 | a missing column changes nothing; otherwise the loop `Merge.DropDuplicatesKeepLast` computes the corrected merge, and the written sheet is its save, with one row per room. On a successful write the disk is that sheet and the table is reloaded. A failed write changes nothing |
| App.KostApp.SaveDataManual | app.py:642-648 | the sheet is always rewritten on a successful write, so a missing or unreadable file becomes a sheet: the disk is the save of a fresh load, with the same multiset of rows as that load. A failed write changes nothing. The table is left alone and the invariants are preserved |
| App.UpsertWritten | app.py:522-533 | the sheet written after an upsert holds the new row and keeps the invariants of the sheet it was loaded from |
| App.StoredRowIsWritten | app.py:57-63 | a row whose room number is already normalised is among the rows written |
| App.DeleteWritesSurvivors | app.py:566-568 | deleting from loaded rows writes exactly the survivors, none of them of the deleted room |

## Left out

- The PyQt user interface is not modelled. This covers the window, styles, splash screen, widget construction, table rendering and colours, row selection, message boxes, the status bar, `clear_form` and `tampilkan_data_terpilih`. It holds no record logic.
- Excel and CSV reading and writing, `os.makedirs`, the file dialog, the file-extension check of `import_data` and `export_data` are file I/O through foreign libraries.
  - The sheet is a `Disk` value.
  - The imported file arrives as its header row and its rows.
  - Success of a write is a parameter.
- Exceptions are caught and printed in `load_data` and `save_data`, and caught and shown in an error box in `cari_data` and `import_data`. The model covers them only as follows: an unreadable file loads as no rows, and a failed save leaves the disk as it was. An exception inside the search filter or while reading the imported file is not modelled.
- A failed `to_excel` may in reality leave a partly written file. The model assumes the disk is unchanged.
- `closeEvent` runs `save_data(load_data())`, which is `App.KostApp.SaveDataManual` without its messages.
- pandas NaN handling (`fillna`, `pd.isna`, `na=False`) and dtype coercion are library semantics. Every cell is a string.
- `QDate` formatting of `Tanggal Masuk` is a foreign Qt call. The date reaches the form as an already formatted string.
- `Text.Trim` and `Text.Upper` strip ASCII blanks and upper-case ASCII letters only. Python's `str.strip` and `str.upper` also handle Unicode whitespace and letters, and `str.isdigit` accepts non-ASCII digits; `Phone.Digits` accepts only `0`–`9`.
- Query.MatchesOccupant: `str.contains` treats the keyword as a regular expression. The model treats it as a literal substring, which is what a keyword without regex metacharacters means.
- Extra columns of an imported sheet are not modelled. An imported row carries exactly the seven columns.
- `save_data` overwrites the caller's `No Kamar` column in place. Every caller discards its frame afterwards, so the model returns the written rows instead.
- Store.SortBy: the rows are ordered by `sort_values` with its default quicksort, which is not stable. The contract therefore promises only rank order and a permutation, not the relative order of rows of equal rank.
- Store.ReloadAfterSave: promises the same rows as a multiset, not the same order, for the same reason.
- `Reconcile.ActionWord` maps the two actions to the words "diupdate" and "ditambahkan" shown in the message. It has no contract beyond that mapping.
- `Catalog.PriceTiers` is the list offered by the price box. No record logic depends on it. The same holds for the other combo-box values, "Sendiri" and "Berdua" for the room status and "Lunas" and "Menunggak" for the payment status; only "Kamar Kosong" (`Records.Vacant`) changes what is stored.
- App.KostApp.ImportData uses the corrected merge `Merge.MergeRows`. The merge as written is `Merge.MergeAsWritten`; see Findings.
- Merge.Import: returns the corrected merge, which compares normalised room numbers. `drop_duplicates` at app.py:607 compares raw `No Kamar` values, so as written the imported rows need not end up one per room; that behaviour is `Merge.MergeAsWritten` and `Merge.RawMergeDuplicatesRoom`. The merge lemmas `Merge.MergeKeepsLast`, `Merge.MergeIncomingWins`, `Merge.MergeKeepsUntouched` and `Merge.MergeOneRoom` are about the corrected merge too.

## Findings

| source | as written | input that shows it | evidently intended | confidence | as-written member | corrected member |
|---|---|---|---|---|---|---|
| app.py:606-607 | `drop_duplicates('No Kamar', keep='last')` compares the raw imported `No Kamar` with stored room numbers that `load_data` has already stripped and upper-cased; `save_data` normalises only afterwards | stored row "1A", imported row "1a": both survive the merge and the save writes two rows for room 1A | the imported row replaces the stored row of the same room, leaving one row per room as the add button keeps it | medium, not executed | Merge.RawMergeDuplicatesRoom | Merge.MergeRows |
