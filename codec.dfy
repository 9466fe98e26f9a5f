/**
 * The coordinate codec of assets/scripts/game.js: a board coordinate such as "B2"
 * (row letter A-C in either case, column digit 1-3) and a cell index 0..8.
 */
module Codec {
  import opened Wrappers

  /** The thrown errors, with the value that was rejected. */
  datatype CodecError = InvalidPosition(play: string) | InvalidBoardIndex(index: int)

  /** `[A-C]` under the regex's `i` flag. */
  predicate IsRowLetter(c: char) {
    'A' <= c <= 'C' || 'a' <= c <= 'c'
  }

  predicate IsColumnDigit(c: char) {
    '1' <= c <= '3'
  }

  /** `/^[A-C][1-3]$/i`: exactly one row letter followed by exactly one column digit. */
  predicate IsBoardPosition(play: string) {
    |play| == 2 && IsRowLetter(play[0]) && IsColumnDigit(play[1])
  }

  /** `toUpperCase` restricted to the letters the grammar admits. */
  function UpperRow(c: char): (u: char)
    requires IsRowLetter(c)
    ensures 'A' <= u <= 'C'
    ensures ('A' <= c <= 'C' ==> u == c) && ('a' <= c <= 'c' ==> u as int == c as int - 32)
  {
    if 'a' <= c <= 'c' then (c as int - 32) as char else c
  }

  /** The coordinate with its row letter upper-cased. */
  function Normalize(play: string): (n: string)
    requires IsBoardPosition(play)
    ensures IsBoardPosition(n) && 'A' <= n[0] <= 'C' && n[1] == play[1]
  {
    [UpperRow(play[0]), play[1]]
  }

  /** `toArrayPosition`: the cell index row*3 + col of a coordinate, or the parse error. */
  function ToArrayPosition(play: string): (r: Result<int, CodecError>)
    ensures r.Ok? <==> IsBoardPosition(play)
    ensures r.Ok? ==> 0 <= r.value < 9
    ensures r.Ok? ==> r.value / 3 == UpperRow(play[0]) as int - 'A' as int
    ensures r.Ok? ==> r.value % 3 == play[1] as int - '1' as int
    ensures r.Err? ==> r.error == InvalidPosition(play)
  {
    if !IsBoardPosition(play) then Err(InvalidPosition(play))
    else
      var row := UpperRow(play[0]) as int - 'A' as int;
      var col := play[1] as int - '1' as int;
      Ok(row * 3 + col)
  }

  /** `toBoardPosition`: the coordinate of a cell index, or the parse error. */
  function ToBoardPosition(index: int): (r: Result<string, CodecError>)
    ensures r.Ok? <==> 0 <= index < 9
    ensures r.Ok? ==> IsBoardPosition(r.value) && 'A' <= r.value[0] <= 'C'
    ensures r.Ok? ==> r.value[0] as int - 'A' as int == index / 3 && r.value[1] as int - '1' as int == index % 3
    ensures r.Err? ==> r.error == InvalidBoardIndex(index)
  {
    if !(0 <= index <= 8) then Err(InvalidBoardIndex(index))
    else
      var row := index / 3 + 'A' as int;
      var col := index % 3 + '1' as int;
      Ok([row as char, col as char])
  }

  /** The coordinate of a cell index that is known to be in range. */
  function Coordinate(index: int): (c: string)
    requires 0 <= index < 9
    ensures IsBoardPosition(c) && ToBoardPosition(index) == Ok(c)
  {
    ToBoardPosition(index).value
  }

  /** The nine coordinates in index order: rows A to C, columns 1 to 3 within each row. */
  lemma CoordinateTable()
    ensures forall i :: 0 <= i < 9 ==> Coordinate(i) == ["A1", "A2", "A3", "B1", "B2", "B3", "C1", "C2", "C3"][i]
  {
    forall i | 0 <= i < 9
      ensures Coordinate(i) == ["A1", "A2", "A3", "B1", "B2", "B3", "C1", "C2", "C3"][i]
    {
      assert i in {0, 1, 2, 3, 4, 5, 6, 7, 8};
    }
  }

  /** Decoding the coordinate of a cell index gives the index back. */
  lemma IndexRoundTrip(index: int)
    requires 0 <= index < 9
    ensures ToBoardPosition(index).Ok?
    ensures ToArrayPosition(ToBoardPosition(index).value) == Ok(index)
  {
    var c := ToBoardPosition(index).value;
    assert UpperRow(c[0]) == c[0];
    assert (index / 3) * 3 + index % 3 == index;
  }

  /** Encoding the index of a coordinate gives the coordinate with its row upper-cased. */
  lemma CoordinateRoundTrip(play: string)
    requires IsBoardPosition(play)
    ensures ToArrayPosition(play).Ok?
    ensures ToBoardPosition(ToArrayPosition(play).value) == Ok(Normalize(play))
  {
    var row := UpperRow(play[0]) as int - 'A' as int;
    var col := play[1] as int - '1' as int;
    assert 0 <= row < 3 && 0 <= col < 3;
    var i := row * 3 + col;
    assert i / 3 == row && i % 3 == col;
  }

  /** Distinct cell indexes have distinct coordinates. */
  lemma CoordinateInjective(i: int, j: int)
    requires 0 <= i < 9 && 0 <= j < 9 && i != j
    ensures Coordinate(i) != Coordinate(j)
  {
    IndexRoundTrip(i);
    IndexRoundTrip(j);
  }
}
