/**
 * The filter of `cari_data`: a room search matches the normalised room number
 * exactly, a name search matches the normalised keyword anywhere in the
 * normalised occupant name.
 */
module Query {
  import opened Wrappers
  import opened Text
  import opened Records
  import opened Seqs

  /** The two entries of the search-kind box: "Nomor Kamar" and "Nama Penghuni". */
  datatype SearchBy = ByRoomNo | ByOccupant

  /** Why no result set is shown: a blank keyword, an empty sheet, or no row matching. */
  datatype SearchError = EmptyKeyword | NoData | NotFound

  /** `No Kamar`, stripped and upper-cased, equals the stripped, upper-cased keyword. */
  predicate MatchesRoom(r: Record, keyword: string) {
    Key(r.roomNo) == Key(keyword)
  }

  /** The stripped, upper-cased keyword occurs in the stripped, upper-cased `Nama Penghuni`. */
  predicate MatchesOccupant(r: Record, keyword: string) {
    Contains(Key(r.occupant), Key(keyword))
  }

  predicate Matches(r: Record, keyword: string, kind: SearchBy) {
    match kind
    case ByRoomNo => MatchesRoom(r, keyword)
    case ByOccupant => MatchesOccupant(r, keyword)
  }

  /** The matching rows, in the order of the sheet. */
  function Hits(rows: seq<Record>, keyword: string, kind: SearchBy): (r: seq<Record>)
    ensures forall x :: x in r <==> x in rows && Matches(x, keyword, kind)
    ensures forall x :: multiset(r)[x] == if Matches(x, keyword, kind) then multiset(rows)[x] else 0
  {
    Filter(rows, (x: Record) => Matches(x, keyword, kind))
  }

  /**
   * `cari_data` over the loaded rows: the keyword is stripped first; a blank
   * keyword, an empty sheet and an empty result are each refused.
   */
  function Search(rows: seq<Record>, keyword: string, kind: SearchBy): (r: Result<seq<Record>, SearchError>)
    ensures r == Failure(EmptyKeyword) <==> Trim(keyword) == ""
    ensures r == Failure(NoData) <==> Trim(keyword) != "" && rows == []
    ensures r == Failure(NotFound) <==>
      Trim(keyword) != "" && rows != [] && forall x :: x in rows ==> !Matches(x, Trim(keyword), kind)
    ensures r.Success? ==> r.value != [] && r.value == Hits(rows, Trim(keyword), kind)
  {
    var kw := Trim(keyword);
    if kw == "" then Failure(EmptyKeyword)
    else if rows == [] then Failure(NoData)
    else
      var hits := Hits(rows, kw, kind);
      if hits == [] then
        Failure(NotFound)
      else
        assert hits[0] in hits;
        Success(hits)
  }

  /** Stripping the keyword beforehand does not change what matches it. */
  lemma TrimmedKeywordMatchesAlike(r: Record, keyword: string, kind: SearchBy)
    ensures Matches(r, Trim(keyword), kind) <==> Matches(r, keyword, kind)
  {
    TrimIdempotent(keyword);
  }

  /** Keywords with the same normalised form select the same rows. */
  lemma {:induction false} HitsSameKey(rows: seq<Record>, a: string, b: string, kind: SearchBy)
    requires Key(a) == Key(b)
    ensures Hits(rows, a, kind) == Hits(rows, b, kind)
  {
    if rows != [] {
      HitsSameKey(rows[1..], a, b, kind);
    }
  }

  /** Upper-casing a keyword keeps it blank or not, and keeps its normalised form. */
  lemma UpperKeyword(keyword: string)
    ensures Trim(Upper(keyword)) == Upper(Trim(keyword))
    ensures Key(Trim(Upper(keyword))) == Key(Trim(keyword))
    ensures Trim(Upper(keyword)) == "" <==> Trim(keyword) == ""
  {
    var t := Trim(keyword);
    TrimUpper(keyword);
    UpperAt(t);
    TrimUpper(t);
    TrimIdempotent(keyword);
    UpperIdempotent(t);
  }

  /** The search ignores the letter case of the keyword. */
  lemma SearchIgnoresCase(rows: seq<Record>, keyword: string, kind: SearchBy)
    ensures Search(rows, Upper(keyword), kind) == Search(rows, keyword, kind)
  {
    UpperKeyword(keyword);
    HitsSameKey(rows, Trim(Upper(keyword)), Trim(keyword), kind);
  }

  /** Searching the concatenation of two sheets finds the hits of the first, then those of the second. */
  lemma HitsKeepOrder(a: seq<Record>, b: seq<Record>, keyword: string, kind: SearchBy)
    ensures Hits(a + b, keyword, kind) == Hits(a, keyword, kind) + Hits(b, keyword, kind)
  {
    FilterAppend(a, b, (x: Record) => Matches(x, keyword, kind));
  }

  /** On a sheet with one row per room, a room search finds at most that one row. */
  lemma {:induction false} RoomSearchFindsOne(rows: seq<Record>, keyword: string)
    requires DistinctKeys(rows)
    ensures |Hits(rows, keyword, ByRoomNo)| <= 1
  {
    if rows != [] {
      var rest := rows[1..];
      assert forall i :: 0 <= i < |rest| ==> rest[i] == rows[i + 1];
      RoomSearchFindsOne(rest, keyword);
      if MatchesRoom(rows[0], keyword) {
        FilterNone(rest, (x: Record) => Matches(x, keyword, ByRoomNo));
      }
    }
  }

  /** The row of a room is found by its room number, whatever its letter case. */
  lemma RoomSearchFindsHolder(rows: seq<Record>, i: int, keyword: string)
    requires DistinctKeys(rows)
    requires 0 <= i < |rows| && Key(rows[i].roomNo) == Key(keyword) && Trim(keyword) != ""
    ensures Search(rows, keyword, ByRoomNo) == Success([rows[i]])
  {
    TrimIdempotent(keyword);
    var h := Hits(rows, Trim(keyword), ByRoomNo);
    assert rows[i] in h;
    RoomSearchFindsOne(rows, Trim(keyword));
    assert h == [rows[i]];
  }

  /** A one-row sheet whose row matches the keyword is found as it is. */
  lemma SearchSingleRow(r: Record, keyword: string, kind: SearchBy)
    requires Trim(keyword) != "" && Matches(r, Trim(keyword), kind)
    ensures Search([r], keyword, kind) == Success([r])
  {
    assert [r][1..] == [];
    assert Hits([r], Trim(keyword), kind) == [r];
  }

  /** A name search for part of a name, in any letter case, finds its occupant. */
  lemma OccupantSearchExample(r: Record, keyword: string)
    requires r.occupant == "Siti Aminah" && keyword == "aminah"
    ensures Search([r], keyword, ByOccupant) == Success([r])
  {
    NameContainsKeyword(r.occupant, keyword);
    TrimIdempotent(keyword);
    SearchSingleRow(r, keyword, ByOccupant);
  }

  /** Upper-case input finds the same occupant by the start of the name. */
  lemma OccupantSearchUpperExample(r: Record, keyword: string)
    requires r.occupant == "Siti Aminah" && keyword == "SITI"
    ensures Search([r], keyword, ByOccupant) == Success([r])
  {
    var u := "SITI AMINAH";
    NormalisedAs(r.occupant, u);
    NormalisedAs(keyword, keyword);
    assert OccursAt(u, keyword, 0);
    ContainsAt(u, keyword);
    TrimIdempotent(keyword);
    SearchSingleRow(r, keyword, ByOccupant);
  }

  lemma NameContainsKeyword(name: string, keyword: string)
    requires name == "Siti Aminah" && keyword == "aminah"
    ensures Trim(keyword) == keyword != "" && Contains(Key(name), Key(keyword))
  {
    var u, k := "SITI AMINAH", "AMINAH";
    NormalisedAs(name, u);
    NormalisedAs(keyword, k);
    assert OccursAt(u, k, 5);
    ContainsAt(u, k);
  }

  /** A text without surrounding blanks normalises to its character-wise upper case. */
  lemma NormalisedAs(s: string, u: string)
    requires s != [] && !IsSpace(s[0]) && !IsSpace(s[|s| - 1])
    requires |u| == |s| && forall i :: 0 <= i < |s| ==> u[i] == UpperChar(s[i])
    ensures Trim(s) == s && Key(s) == u
  {
    TrimStartNoop(s);
    TrimEndNoop(s);
    UpperAt(s);
  }
}
