/** Piece colours and the board record shared by `src/game-machine.ts`, the root
    `App.tsx` and `BoardQueryer.ts`: a JavaScript object from position keys to
    colours. Object.entries lists the keys of such an object in insertion order as
    long as none of them is an array index, and assigning to a key it does not have
    appends that key; `Board` keeps both, and holds no array-index key. */
module Boards {
  import opened Strings

  datatype Option<+T> = None | Some(value: T)

  /** PieceColor (src/symbols.ts). */
  datatype Color = Black | White | Empty

  /** The two colours a player or a tray can have. */
  type Side = c: Color | !c.Empty? witness Black

  function Opponent(s: Side): (o: Side)
    ensures o != s
  {
    if s == Black then White else Black
  }

  /** The number of entries of `s` equal to `c`. */
  function CountOf(s: seq<Color>, c: Color): (n: nat)
    ensures n <= |s|
  {
    if s == [] then 0 else CountOf(s[..|s| - 1], c) + (if s[|s| - 1] == c then 1 else 0)
  }

  /** Assigning one entry of an array changes the count of a colour by what left and what came. */
  lemma {:induction false} CountOfUpdate(s: seq<Color>, i: nat, v: Color, c: Color)
    requires i < |s|
    ensures CountOf(s[i := v], c) ==
            CountOf(s, c) - (if s[i] == c then 1 else 0) + (if v == c then 1 else 0)
  {
    var t := s[i := v];
    if i < |s| - 1 {
      assert t[..|t| - 1] == s[..|s| - 1][i := v];
      CountOfUpdate(s[..|s| - 1], i, v, c);
    } else {
      assert t[..|t| - 1] == s[..|s| - 1];
    }
  }

  predicate Distinct(keys: seq<string>) {
    forall i, j :: 0 <= i < j < |keys| ==> keys[i] != keys[j]
  }

  /** `r` is `s` with some entries left out and the rest in their original order. */
  predicate Subsequence(r: seq<string>, s: seq<string>)
    decreases |s|
  {
    if r == [] then true
    else if s == [] then false
    else if r[0] == s[0] then Subsequence(r[1..], s[1..])
    else Subsequence(r, s[1..])
  }

  /** The keys of `keys`, in order, whose cell holds `c`. */
  function KeysWithValue(keys: seq<string>, cells: map<string, Color>, c: Color): (r: seq<string>)
    requires forall k :: k in keys ==> k in cells
    ensures |r| <= |keys|
    ensures forall k :: k in r <==> k in keys && cells[k] == c
  {
    if keys == [] then []
    else
      var rest := KeysWithValue(keys[1..], cells, c);
      if cells[keys[0]] == c then [keys[0]] + rest else rest
  }

  /** `KeysWithValue` keeps the relative order of the keys and lists none twice. */
  lemma {:induction false} KeysWithValueOrdered(keys: seq<string>, cells: map<string, Color>, c: Color)
    requires forall k :: k in keys ==> k in cells
    requires Distinct(keys)
    ensures Distinct(KeysWithValue(keys, cells, c))
    ensures Subsequence(KeysWithValue(keys, cells, c), keys)
  {
    if keys != [] {
      var rest := KeysWithValue(keys[1..], cells, c);
      KeysWithValueOrdered(keys[1..], cells, c);
      if cells[keys[0]] == c {
        assert keys[0] !in rest;
        var r := [keys[0]] + rest;
        assert r[1..] == rest;
      } else if rest != [] {
        assert rest[0] in keys[1..];
        assert rest[0] != keys[0];
      }
    }
  }

  /** Assigning `v` to `k` changes how many keys hold `c` by what left and what came. */
  lemma {:induction false} KeysWithValueUpdate(keys: seq<string>, cells: map<string, Color>, k: string, v: Color, c: Color)
    requires forall x :: x in keys ==> x in cells
    requires Distinct(keys)
    ensures |KeysWithValue(keys, cells[k := v], c)| ==
            |KeysWithValue(keys, cells, c)|
            - (if k in keys && cells[k] == c then 1 else 0)
            + (if k in keys && v == c then 1 else 0)
  {
    if keys != [] {
      KeysWithValueUpdate(keys[1..], cells, k, v, c);
      if keys[0] == k {
        assert k !in keys[1..];
      }
    }
  }

  lemma {:induction false} KeysWithValueAppend(keys: seq<string>, cells: map<string, Color>, k: string, c: Color)
    requires forall x :: x in keys ==> x in cells
    requires k in cells
    ensures KeysWithValue(keys + [k], cells, c) ==
            KeysWithValue(keys, cells, c) + (if cells[k] == c then [k] else [])
  {
    if keys != [] {
      assert (keys + [k])[1..] == keys[1..] + [k];
      KeysWithValueAppend(keys[1..], cells, k, c);
    }
  }

  /** Every key holds exactly one of the three colours. */
  lemma {:induction false} KeysWithValuePartition(keys: seq<string>, cells: map<string, Color>)
    requires forall k :: k in keys ==> k in cells
    ensures |KeysWithValue(keys, cells, Black)| + |KeysWithValue(keys, cells, White)|
            + |KeysWithValue(keys, cells, Empty)| == |keys|
  {
    if keys != [] {
      KeysWithValuePartition(keys[1..], cells);
    }
  }

  /** A JavaScript record from position keys to colours, with its keys in insertion order. */
  datatype Board = Board(keys: seq<string>, cells: map<string, Color>) {

    predicate Valid() {
      Distinct(keys) && cells.Keys == (set k | k in keys) &&
      forall k :: k in cells ==> !ArrayIndex(k)
    }

    /** `board[key] = color`: the cell is overwritten, or the key is appended when new. */
    function Set(k: string, v: Color): (b: Board)
      requires Valid() && !ArrayIndex(k)
      ensures b.Valid()
      ensures b.cells == cells[k := v]
      ensures b.keys == if k in cells then keys else keys + [k]
    {
      if k in cells then Board(keys, cells[k := v]) else Board(keys + [k], cells[k := v])
    }

    /** `Object.entries(board).filter(([, v]) => v === c).map(([k]) => k)`: the keys
        holding `c`, each once, in key order. */
    function PositionsByValue(c: Color): (r: seq<string>)
      requires Valid()
      ensures forall k :: k in r <==> k in cells && cells[k] == c
      ensures Distinct(r) && Subsequence(r, keys)
    {
      KeysWithValueOrdered(keys, cells, c);
      KeysWithValue(keys, cells, c)
    }

    /** The number of cells holding `c`. */
    function Count(c: Color): nat
      requires Valid()
    {
      |PositionsByValue(c)|
    }
  }

  /** Writing `v` to `k` moves one cell's worth of count from the old colour of `k` to `v`. */
  lemma SetCount(b: Board, k: string, v: Color, c: Color)
    requires b.Valid() && !ArrayIndex(k)
    ensures b.Set(k, v).Count(c) ==
            b.Count(c) - (if k in b.cells && b.cells[k] == c then 1 else 0) + (if v == c then 1 else 0)
  {
    var b' := b.Set(k, v);
    KeysWithValueUpdate(b.keys, b.cells, k, v, c);
    if k !in b.cells {
      KeysWithValueAppend(b.keys, b'.cells, k, c);
      assert KeysWithValue(b.keys, b'.cells, c) == KeysWithValue(b.keys, b.cells, c) by {
        KeysWithValueFrame(b.keys, b.cells, b'.cells, c);
      }
    }
  }

  lemma {:induction false} KeysWithValueFrame(keys: seq<string>, m1: map<string, Color>, m2: map<string, Color>, c: Color)
    requires forall k :: k in keys ==> k in m1 && k in m2 && m1[k] == m2[k]
    ensures KeysWithValue(keys, m1, c) == KeysWithValue(keys, m2, c)
  {
    if keys != [] {
      KeysWithValueFrame(keys[1..], m1, m2, c);
    }
  }

  /** The three colour lists of a board split its keys: no key is in two of them and
      together they are as long as the key list. */
  lemma PositionsPartition(b: Board)
    requires b.Valid()
    ensures b.Count(Black) + b.Count(White) + b.Count(Empty) == |b.keys|
    ensures forall k :: k in b.keys <==>
              k in b.PositionsByValue(Black) || k in b.PositionsByValue(White) || k in b.PositionsByValue(Empty)
    ensures forall k :: !(k in b.PositionsByValue(Black) && k in b.PositionsByValue(White))
    ensures forall k :: !(k in b.PositionsByValue(Black) && k in b.PositionsByValue(Empty))
    ensures forall k :: !(k in b.PositionsByValue(White) && k in b.PositionsByValue(Empty))
  {
    KeysWithValuePartition(b.keys, b.cells);
  }

  lemma {:induction false} KeysWithValueUniform(keys: seq<string>, cells: map<string, Color>, c: Color, d: Color)
    requires forall k :: k in keys ==> k in cells && cells[k] == c
    ensures KeysWithValue(keys, cells, d) == if d == c then keys else []
  {
    if keys != [] {
      KeysWithValueUniform(keys[1..], cells, c, d);
    }
  }

  /** On a board whose cells all hold `c`, every key is counted for `c` and none for another colour. */
  lemma UniformBoardCounts(b: Board, c: Color)
    requires b.Valid()
    requires forall k :: k in b.cells ==> b.cells[k] == c
    ensures forall d :: b.Count(d) == if d == c then |b.keys| else 0
  {
    forall d ensures b.Count(d) == if d == c then |b.keys| else 0 {
      KeysWithValueUniform(b.keys, b.cells, c, d);
    }
  }

  /** The 24 points of the board, in the order both default game states list them. */
  const StandardKeys: seq<string> := [
    "a1", "d1", "g1", "b2", "d2", "f2", "c3", "d3", "e3", "a4", "b4", "c4",
    "e4", "f4", "g4", "c5", "d5", "e5", "b6", "d6", "f6", "a7", "d7", "g7"]

  /** Every standard key is a column letter a-g followed by a row digit 1-7. */
  lemma StandardKeysShape()
    ensures forall i :: 0 <= i < |StandardKeys| ==>
              |StandardKeys[i]| == 2 && 'a' <= StandardKeys[i][0] <= 'g' && '1' <= StandardKeys[i][1] <= '7'
  {
  }

  /** The empty standard board. */
  function StandardBoard(): Board {
    Board(StandardKeys, map k | k in StandardKeys :: Empty)
  }

  lemma StandardBoardFacts()
    ensures StandardBoard().Valid()
    ensures |StandardBoard().keys| == 24
    ensures forall k :: k in StandardBoard().cells ==> StandardBoard().cells[k] == Empty
  {
    StandardKeysNotIndices();
    StandardKeysDistinct();
  }

  /** The standard keys are listed row by row and, within a row, column by column. */
  lemma StandardKeysDistinct()
    ensures Distinct(StandardKeys)
  {
    StandardKeysShape();
    IncreasingDistinct(StandardKeys);
  }

  /** A two-character key's place in row-by-row, column-by-column order. */
  function RowMajor(k: string): int
    requires |k| == 2
  {
    (k[1] as int) * 128 + (k[0] as int)
  }

  /** Two-character keys listed in strictly increasing row-major order are distinct. */
  lemma IncreasingDistinct(keys: seq<string>)
    requires forall i :: 0 <= i < |keys| ==> |keys[i]| == 2
    requires forall i :: 0 < i < |keys| ==> RowMajor(keys[i - 1]) < RowMajor(keys[i])
    ensures Distinct(keys)
  {
    forall i, j | 0 <= i < j < |keys| ensures keys[i] != keys[j] {
      IncreasingFrom(keys, i, j);
    }
  }

  lemma {:induction false} IncreasingFrom(keys: seq<string>, i: nat, j: nat)
    requires forall i :: 0 <= i < |keys| ==> |keys[i]| == 2
    requires forall i :: 0 < i < |keys| ==> RowMajor(keys[i - 1]) < RowMajor(keys[i])
    requires i < j < |keys|
    ensures RowMajor(keys[i]) < RowMajor(keys[j])
    decreases j - i
  {
    if i + 1 < j {
      IncreasingFrom(keys, i, j - 1);
    }
  }

  lemma StandardKeysNotIndices()
    ensures forall k :: k in StandardKeys ==> !ArrayIndex(k)
  {
    StandardKeysShape();
    LetterKeysAreNotIndices(StandardKeys);
  }

  /** Keys that start with something other than a digit are never array indices. */
  lemma LetterKeysAreNotIndices(keys: seq<string>)
    requires forall i :: 0 <= i < |keys| ==> |keys[i]| > 0 && !IsDigit(keys[i][0])
    ensures forall k :: k in keys ==> !ArrayIndex(k)
  {
  }

  /** The standard board starts with 24 empty points and no pieces. */
  lemma StandardBoardCounts()
    ensures StandardBoard().Valid()
    ensures StandardBoard().Count(Black) == 0 && StandardBoard().Count(White) == 0
    ensures StandardBoard().Count(Empty) == 24
  {
    StandardBoardFacts();
    UniformBoardCounts(StandardBoard(), Empty);
  }
}
