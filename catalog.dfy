/**
 * The fixed reference data: the 40 room numbers in their canonical order and
 * the 12 price tiers, and the sort rank derived from the room list.
 */
module Catalog {

  /** `nomor_kamar`: every valid room number, in display and storage order. */
  const RoomNumbers: seq<string> := [
    "1A", "1B", "1C", "1D", "1E", "1F", "1G", "1H", "1I", "1J",
    "1K", "1L", "1M", "1N", "1O", "1P", "1Q", "1R",
    "2A", "2B", "2C", "2D", "2E", "2F", "2G", "2H", "2I", "2J",
    "2K", "2L", "2M", "2N", "2O", "2P", "2Q", "2R",
    "3A", "3B", "3C", "3D"
  ]

  /** `harga_kamar`: the price tiers offered by the form; no record logic depends on them. */
  const PriceTiers: seq<string> := [
    "Rp. 450.000", "Rp. 500.000", "Rp. 550.000", "Rp. 600.000",
    "Rp. 650.000", "Rp. 700.000", "Rp. 750.000", "Rp. 800.000",
    "Rp. 850.000", "Rp. 900.000", "Rp. 950.000", "Rp. 1.000.000"
  ]

  /**
   * Python's `s.index(x) if x in s else len(s)`: the position of the first
   * occurrence of `x`, or the length of `s` when `x` does not occur.
   */
  function IndexOf(s: seq<string>, x: string): (r: nat)
    ensures r <= |s|
    ensures r < |s| ==> s[r] == x
    ensures forall j :: 0 <= j < r ==> s[j] != x
    ensures r == |s| <==> x !in s
  {
    if s == [] then 0
    else if s[0] == x then 0
    else 1 + IndexOf(s[1..], x)
  }

  /** The sort key of a room number: its catalogue position, or 40 for an unknown room. */
  function Rank(roomNo: string): (r: nat) {
    IndexOf(RoomNumbers, roomNo)
  }

  /** A code that orders the two-character room numbers: floor digit first, then letter. */
  function Code(s: string): (c: int) {
    if |s| == 2 then s[0] as int * 256 + s[1] as int else 0
  }

  /** Consecutive catalogue entries have increasing codes. */
  lemma CatalogueCodesIncrease()
    ensures forall k :: 0 <= k < |RoomNumbers| - 1 ==> Code(RoomNumbers[k]) < Code(RoomNumbers[k + 1])
  {
  }

  /** In a sequence whose consecutive codes increase, every earlier code is below every later one. */
  lemma {:induction false} CodesOrdered(s: seq<string>, i: nat, j: nat)
    requires forall k :: 0 <= k < |s| - 1 ==> Code(s[k]) < Code(s[k + 1])
    requires i < j < |s|
    ensures Code(s[i]) < Code(s[j])
    decreases j - i
  {
    if i + 1 < j {
      CodesOrdered(s, i + 1, j);
    }
  }

  /** No room number is listed twice. */
  lemma CatalogueDistinct(i: nat, j: nat)
    requires i < j < |RoomNumbers|
    ensures RoomNumbers[i] != RoomNumbers[j]
  {
    CatalogueCodesIncrease();
    CodesOrdered(RoomNumbers, i, j);
  }

  /** Every catalogue entry ranks at its own position, below 40. */
  lemma RankOfCatalogue(i: nat)
    requires i < |RoomNumbers|
    ensures Rank(RoomNumbers[i]) == i < 40
  {
    var r := Rank(RoomNumbers[i]);
    if r < i {
      CatalogueDistinct(r, i);
    }
  }

  /** A known room ranks below 40 at a position holding it; an unknown one ranks exactly 40. */
  lemma RankBounds(roomNo: string)
    ensures roomNo in RoomNumbers ==> Rank(roomNo) < 40 && RoomNumbers[Rank(roomNo)] == roomNo
    ensures roomNo !in RoomNumbers ==> Rank(roomNo) == 40
  {
  }

  /** The rank follows the catalogue order strictly and puts every unknown room last. */
  lemma RankOrder(i: nat, j: nat, unknown: string)
    requires i < j < |RoomNumbers|
    requires unknown !in RoomNumbers
    ensures Rank(RoomNumbers[i]) < Rank(RoomNumbers[j]) < Rank(unknown)
  {
    RankOfCatalogue(i);
    RankOfCatalogue(j);
  }
}
