/** The board queries of `BoardQueryer.ts`: the record's positions, those holding each
    colour, the logical grid coordinates of a position, and the number of distinct rows,
    which the object computes once and keeps. Positions are read by their first two
    characters only, a column letter and a row digit. */
module Queryer {
  import opened Strings
  import opened Boards
  import opened Positions

  /** Coordinates (types.ts). */
  datatype Coordinates = Coordinates(x: int, y: int)

  /** A key whose second character is a digit, as `positionToLogicalXy` needs
      (`parseInt` of anything else is NaN). */
  predicate LogicalKey(key: string) {
    |key| >= 2 && IsDigit(key[1])
  }

  predicate AllLogical(keys: seq<string>) {
    forall k :: k in keys ==> LogicalKey(k)
  }

  /** The logical row of a key: its second character's digit minus one. */
  function LogicalRow(key: string): (y: int)
    requires LogicalKey(key)
    ensures -1 <= y <= 8
  {
    DigitValue(key[1]) - 1
  }

  /** `positionToLogicalXy(position)`: the first character's place in the alphabet (-1
      when it is not a lower-case letter) and the key's logical row. */
  function PositionToLogicalXy(key: string): (c: Coordinates)
    requires LogicalKey(key)
    ensures 'a' <= key[0] <= 'z' ==> c.x == key[0] as int - 'a' as int
    ensures !('a' <= key[0] <= 'z') ==> c.x == -1
    ensures c.y == LogicalRow(key)
  {
    LetterIndex(key[0]);
    Coordinates(IndexOf(Alphabet, [key[0]]), LogicalRow(key))
  }

  /** The distinct logical rows of `keys`: `new Set(ys)`. */
  function Rows(keys: seq<string>): set<int>
    requires AllLogical(keys)
  {
    set k | k in keys :: LogicalRow(k)
  }

  class BoardQueryer {
    const state: Board
    /** `_numVerticalPositions`: absent until first asked for. */
    var numVerticalCache: Option<nat>

    /** The record is well formed and a cached row count is the true one. */
    ghost predicate Valid()
      reads this
    {
      state.Valid() &&
      (numVerticalCache.Some? ==> AllLogical(state.keys) && numVerticalCache.value == |Rows(state.keys)|)
    }

    /** `new BoardQueryer({boardState})`; nothing is cached yet. */
    constructor (boardState: Board)
      requires boardState.Valid()
      ensures Valid() && state == boardState && numVerticalCache == None
    {
      state := boardState;
      numVerticalCache := None;
    }

    /** `allPositions`: every key of the record once, in the record's order. */
    function AllPositions(): (r: seq<string>)
      requires state.Valid()
      reads this
      ensures Distinct(r) && forall k :: k in r <==> k in state.cells
    {
      state.keys
    }

    /** `_getPositionByValue(value)`: the positions holding `value`, each once, in the
        order of `allPositions`. */
    function GetPositionByValue(value: Color): (r: seq<string>)
      requires state.Valid()
      reads this
      ensures forall k :: k in r <==> k in state.cells && state.cells[k] == value
      ensures Distinct(r) && Subsequence(r, AllPositions())
    {
      state.PositionsByValue(value)
    }

    function BlackPositions(): (r: seq<string>)
      requires state.Valid()
      reads this
      ensures forall k :: k in r <==> k in state.cells && state.cells[k] == Black
    {
      GetPositionByValue(Black)
    }

    function WhitePositions(): (r: seq<string>)
      requires state.Valid()
      reads this
      ensures forall k :: k in r <==> k in state.cells && state.cells[k] == White
    {
      GetPositionByValue(White)
    }

    function EmptyPositions(): (r: seq<string>)
      requires state.Valid()
      reads this
      ensures forall k :: k in r <==> k in state.cells && state.cells[k] == Empty
    {
      GetPositionByValue(Empty)
    }

    /** `numVerticalPositions`: the number of distinct logical rows among all positions,
        recomputed when nothing (or 0, which JavaScript also treats as missing) is
        cached, and kept for the next call. */
    method NumVerticalPositions() returns (n: nat)
      requires Valid() && AllLogical(state.keys)
      modifies this
      ensures Valid()
      ensures n == |Rows(state.keys)|
      ensures numVerticalCache == Some(n)
      ensures old(numVerticalCache).Some? && old(numVerticalCache).value != 0 ==>
                n == old(numVerticalCache).value
    {
      if numVerticalCache.None? || numVerticalCache.value == 0 {
        var ys := set k | k in AllPositions() :: PositionToLogicalXy(k).y;
        forall y ensures y in ys <==> y in Rows(state.keys) {
          if y in Rows(state.keys) {
            var k :| k in state.keys && LogicalRow(k) == y;
            assert PositionToLogicalXy(k).y == y;
          }
        }
        assert ys == Rows(state.keys);
        numVerticalCache := Some(|ys|);
      }
      n := numVerticalCache.value;
    }
  }

  /** The three colour getters split `allPositions`: every position is in exactly one of
      them and together they are as long as `allPositions`. */
  lemma PositionsSplit(q: BoardQueryer)
    requires q.state.Valid()
    ensures |q.BlackPositions()| + |q.WhitePositions()| + |q.EmptyPositions()| == |q.AllPositions()|
    ensures forall k :: k in q.AllPositions() <==>
              k in q.BlackPositions() || k in q.WhitePositions() || k in q.EmptyPositions()
    ensures forall k :: !(k in q.BlackPositions() && k in q.WhitePositions()) &&
                        !(k in q.BlackPositions() && k in q.EmptyPositions()) &&
                        !(k in q.WhitePositions() && k in q.EmptyPositions())
  {
    PositionsPartition(q.state);
  }

  /** On a key of one letter and one non-zero digit, the grid coordinates are the column
      and row `parsePosition` gives. */
  lemma LogicalXyAgreesWithParse(key: string)
    requires |key| == 2 && 'a' <= key[0] <= 'z' && '1' <= key[1] <= '9'
    ensures LogicalKey(key) && BoardKey(key)
    ensures PositionToLogicalXy(key) == Coordinates(ParsePosition(key).col, ParsePosition(key).row)
  {
    ParseTwoCharKey(key);
  }

  /** Only the first two characters count: "d10" is on logical row 0 although
      `parsePosition` puts it on row 9. */
  lemma LogicalXyReadsTwoCharacters()
    ensures LogicalKey("d10") && PositionToLogicalXy("d10") == Coordinates(3, 0)
    ensures BoardKey("d10") && ParsePosition("d10").row == 9
  {
    LetterIndex('d');
    assert "d10" == "d" + "10";
    assert NoDigits("d");
    ParseSplit("d", "10");
    assert ParseDecimal("10") == 10 by {
      assert "10"[..1] == "1";
      assert "1"[..0] == [];
    }
  }

  /** Keys of a letter and a row digit 1-7 lie on logical rows 0-6. */
  lemma RowDigitsLogical(keys: seq<string>)
    requires forall i :: 0 <= i < |keys| ==> |keys[i]| == 2 && '1' <= keys[i][1] <= '7'
    ensures AllLogical(keys)
    ensures forall k :: k in keys ==> 0 <= LogicalRow(k) <= 6
  {
  }

  /** Keys whose row digits are 1-7, among which the keys at the seven offsets `w` have
      the digits 1 to 7 in turn, lie on exactly the seven logical rows 0-6. */
  lemma RowsOfDigits(keys: seq<string>, w: seq<nat>)
    requires forall i :: 0 <= i < |keys| ==> |keys[i]| == 2 && '1' <= keys[i][1] <= '7'
    requires |w| == 7 && forall i :: 0 <= i < 7 ==> w[i] < |keys| && keys[w[i]][1] as int == '1' as int + i
    ensures AllLogical(keys) && Rows(keys) == {0, 1, 2, 3, 4, 5, 6} && |Rows(keys)| == 7
  {
    RowDigitsLogical(keys);
    forall v | 0 <= v < 7 ensures v in Rows(keys) {
      assert keys[w[v]] in keys && LogicalRow(keys[w[v]]) == v;
    }
    assert |{0, 1, 2, 3, 4, 5, 6}| == 7;
  }

  /** The standard board has seven rows. */
  lemma StandardRows()
    ensures AllLogical(StandardKeys) && |Rows(StandardKeys)| == 7
  {
    var w: seq<nat> := [0, 3, 6, 9, 15, 18, 21];
    assert StandardKeys[0][1] == '1' && StandardKeys[3][1] == '2' && StandardKeys[6][1] == '3';
    assert StandardKeys[9][1] == '4' && StandardKeys[15][1] == '5' && StandardKeys[18][1] == '6';
    assert StandardKeys[21][1] == '7';
    StandardKeysShape();
    RowsOfDigits(StandardKeys, w);
  }
}
