/** `areThreeInARow` of `src/game-machine.ts`: the board keys holding a colour are
    grouped by their column and by their row, and the answer is whether some group has
    three or more members. This is the rule as written, a grouping by raw column letter
    and row number, and not a table of the board's 16 mill lines: column d and row 4
    each hold six points, so d1, d2 and d5 count as three in a row. */
module Mills {
  import opened Boards
  import opened Positions
  import opened Contexts

  datatype Axis = ByColumn | ByRow

  /** The column or the row a board key parses to. */
  function Coord(key: string, axis: Axis): int
    requires BoardKey(key)
  {
    var p := ParsePosition(key);
    if axis == ByColumn then p.col else p.row
  }

  predicate AllBoardKeys(ps: seq<string>) {
    forall i :: 0 <= i < |ps| ==> BoardKey(ps[i])
  }

  /** The members of `ps`, in order, whose coordinate on `axis` is `v`: the list the
      loop of `areThreeInARow` builds in `byCols[v]` or `byRows[v]`. */
  function Group(ps: seq<string>, axis: Axis, v: int): (g: seq<string>)
    requires AllBoardKeys(ps)
    ensures |g| <= |ps|
    ensures forall k :: k in g ==> k in ps && BoardKey(k) && Coord(k, axis) == v
    decreases |ps|
  {
    if ps == [] then []
    else
      var front, last := ps[..|ps| - 1], ps[|ps| - 1];
      assert forall k :: k in front ==> k in ps;
      Group(front, axis, v) + (if Coord(last, axis) == v then [last] else [])
  }

  /** A context whose board record is well formed and holds board keys only (the
      default one, and every context `placePiece` makes from such a context). */
  predicate ContextOk(ctx: GameContext) {
    ctx.board.Valid() && forall k :: k in ctx.board.cells ==> BoardKey(k)
  }

  /** The answer `areThreeInARow({color, context})` gives. */
  predicate ThreeInARow(ctx: GameContext, color: Color)
    requires ContextOk(ctx)
  {
    PositionsAreBoardKeys(ctx, color);
    var ps := ctx.board.PositionsByValue(color);
    HasThree(ps, ByColumn) || HasThree(ps, ByRow)
  }

  /** Some key of `ps` shares its coordinate on `axis` with two or more others. */
  predicate HasThree(ps: seq<string>, axis: Axis)
    requires AllBoardKeys(ps)
  {
    exists p :: p in ps && |Group(ps, axis, Coord(p, axis))| >= 3
  }

  /** `groups` holds, for every coordinate some key of `ps` has, exactly the group of
      that coordinate, and no other entry. */
  ghost predicate Groups(groups: map<int, seq<string>>, ps: seq<string>, axis: Axis)
    requires AllBoardKeys(ps)
  {
    forall v :: (v in groups <==> Group(ps, axis, v) != []) &&
                (v in groups ==> groups[v] == Group(ps, axis, v))
  }

  lemma GroupSnoc(ps: seq<string>, p: string, axis: Axis, v: int)
    requires AllBoardKeys(ps) && BoardKey(p)
    ensures AllBoardKeys(ps + [p])
    ensures Group(ps + [p], axis, v) == Group(ps, axis, v) + (if Coord(p, axis) == v then [p] else [])
  {
    assert (ps + [p])[..|ps|] == ps;
  }

  /** `groups[v] = [...(groups[v] ?? []), p]`. */
  function Push(groups: map<int, seq<string>>, v: int, p: string): (g: map<int, seq<string>>)
    ensures g.Keys == groups.Keys + {v}
    ensures g[v] == (if v in groups then groups[v] else []) + [p]
    ensures forall u :: u in groups && u != v ==> g[u] == groups[u]
  {
    groups[v := (if v in groups then groups[v] else []) + [p]]
  }

  /** Pushing the next key onto the entry of its coordinate keeps the group map exact. */
  lemma GroupsPush(groups: map<int, seq<string>>, ps: seq<string>, p: string, axis: Axis)
    requires AllBoardKeys(ps) && BoardKey(p) && Groups(groups, ps, axis)
    ensures AllBoardKeys(ps + [p])
    ensures Groups(Push(groups, Coord(p, axis), p), ps + [p], axis)
  {
    forall v ensures var g := Push(groups, Coord(p, axis), p);
                     (v in g <==> Group(ps + [p], axis, v) != []) &&
                     (v in g ==> g[v] == Group(ps + [p], axis, v))
    {
      GroupsPushAt(groups, ps, p, axis, v);
    }
  }

  /** The entry of one coordinate `v` after pushing `p` onto the entry of its own
      coordinate. */
  lemma GroupsPushAt(groups: map<int, seq<string>>, ps: seq<string>, p: string, axis: Axis, v: int)
    requires AllBoardKeys(ps) && BoardKey(p) && Groups(groups, ps, axis)
    ensures AllBoardKeys(ps + [p])
    ensures var g := Push(groups, Coord(p, axis), p);
            (v in g <==> Group(ps + [p], axis, v) != []) &&
            (v in g ==> g[v] == Group(ps + [p], axis, v))
  {
    GroupSnoc(ps, p, axis, v);
  }

  /** Some entry of `groups` has three members exactly when some key's group has. */
  lemma GroupsHaveThree(groups: map<int, seq<string>>, ps: seq<string>, axis: Axis)
    requires AllBoardKeys(ps) && Groups(groups, ps, axis)
    ensures (exists v | v in groups :: |groups[v]| >= 3) <==> HasThree(ps, axis)
  {
    if v :| v in groups && |groups[v]| >= 3 {
      var p := groups[v][0];
      assert p in Group(ps, axis, v);
      assert p in ps && |Group(ps, axis, Coord(p, axis))| >= 3;
    }
    if p :| p in ps && |Group(ps, axis, Coord(p, axis))| >= 3 {
      var v := Coord(p, axis);
      assert v in groups && |groups[v]| >= 3;
    }
  }

  /** The loop of `areThreeInARow`: every key, in order, is pushed onto the entry of
      its column in `byCols` and onto the entry of its row in `byRows`. */
  method GroupPositions(positions: seq<string>) returns (byCols: map<int, seq<string>>, byRows: map<int, seq<string>>)
    requires AllBoardKeys(positions)
    ensures Groups(byCols, positions, ByColumn) && Groups(byRows, positions, ByRow)
  {
    byCols, byRows := map[], map[];
    for i := 0 to |positions|
      invariant AllBoardKeys(positions[..i])
      invariant Groups(byCols, positions[..i], ByColumn)
      invariant Groups(byRows, positions[..i], ByRow)
    {
      var p := positions[i];
      assert positions[..i + 1] == positions[..i] + [p];
      GroupsPush(byCols, positions[..i], p, ByColumn);
      GroupsPush(byRows, positions[..i], p, ByRow);
      byCols := Push(byCols, Coord(p, ByColumn), p);
      byRows := Push(byRows, Coord(p, ByRow), p);
    }
    assert positions[..|positions|] == positions;
  }

  /** `areThreeInARow`: some column group or some row group of the colour's keys has
      three or more members. */
  method AreThreeInARow(ctx: GameContext, color: Color) returns (r: bool)
    requires ContextOk(ctx)
    ensures r == ThreeInARow(ctx, color)
  {
    var positions := ctx.board.PositionsByValue(color);
    PositionsAreBoardKeys(ctx, color);
    var byCols, byRows := GroupPositions(positions);
    r := (exists v | v in byCols :: |byCols[v]| >= 3) || (exists v | v in byRows :: |byRows[v]| >= 3);
    GroupsHaveThree(byCols, positions, ByColumn);
    GroupsHaveThree(byRows, positions, ByRow);
  }

  /** The keys holding a colour in a well-formed context are board keys. */
  lemma PositionsAreBoardKeys(ctx: GameContext, color: Color)
    requires ContextOk(ctx)
    ensures AllBoardKeys(ctx.board.PositionsByValue(color))
  {
    var positions := ctx.board.PositionsByValue(color);
    forall i | 0 <= i < |positions| ensures BoardKey(positions[i]) {
      assert positions[i] in positions;
    }
  }

  /** Every key of a set that lies in `ps` on coordinate `v` is in the group of `v`,
      so the group is at least as large as the set. */
  lemma {:induction false} GroupAtLeast(ps: seq<string>, axis: Axis, v: int, s: set<string>)
    requires AllBoardKeys(ps)
    requires forall k :: k in s ==> k in ps && BoardKey(k) && Coord(k, axis) == v
    ensures |Group(ps, axis, v)| >= |s|
    decreases |ps|
  {
    if ps != [] {
      var front, last := ps[..|ps| - 1], ps[|ps| - 1];
      var s' := s - {last};
      forall k | k in s' ensures k in front {
        assert k in ps && k != last;
        var i :| 0 <= i < |ps| && ps[i] == k;
        assert front[i] == k;
      }
      GroupAtLeast(front, axis, v, s');
    }
  }

  lemma ThreeDistinct(a: string, b: string, c: string)
    requires a != b && b != c && a != c
    ensures |{a, b, c}| == 3
  {
    assert {a, b, c} == {a, b} + {c};
  }

  /** A colour with fewer than three keys on the board has no three in a row. */
  lemma FewerThanThreeIsNoMill(ctx: GameContext, color: Color)
    requires ContextOk(ctx) && ctx.board.Count(color) < 3
    ensures !ThreeInARow(ctx, color)
  {
  }

  /** Three different keys of one colour that share a column, or a row, are three in a row. */
  lemma ThreeOnOneAxisIsMill(ctx: GameContext, color: Color, axis: Axis, a: string, b: string, c: string)
    requires ContextOk(ctx)
    requires a in ctx.board.cells && b in ctx.board.cells && c in ctx.board.cells
    requires ctx.board.cells[a] == color && ctx.board.cells[b] == color && ctx.board.cells[c] == color
    requires a != b && b != c && a != c
    requires Coord(a, axis) == Coord(b, axis) == Coord(c, axis)
    ensures ThreeInARow(ctx, color)
  {
    var ps := ctx.board.PositionsByValue(color);
    PositionsAreBoardKeys(ctx, color);
    assert a in ps && b in ps && c in ps;
    ThreeInGroup(ps, axis, a, b, c);
  }

  /** Three different keys of `ps` on one coordinate make a group of three. */
  lemma ThreeInGroup(ps: seq<string>, axis: Axis, a: string, b: string, c: string)
    requires AllBoardKeys(ps) && a in ps && b in ps && c in ps
    requires a != b && b != c && a != c
    requires BoardKey(a) && BoardKey(b) && BoardKey(c)
    requires Coord(a, axis) == Coord(b, axis) == Coord(c, axis)
    ensures HasThree(ps, axis)
  {
    ThreeDistinct(a, b, c);
    var v, three := Coord(a, axis), {a, b, c};
    forall k | k in three ensures k in ps && BoardKey(k) && Coord(k, axis) == v {
      if k == a {} else if k == b {} else { assert k == c; }
    }
    GroupAtLeast(ps, axis, v, three);
  }

  /** Neither colour has three in a row on the default board. */
  lemma DefaultHasNoMill(color: Side)
    ensures ContextOk(DefaultGameContext())
    ensures !ThreeInARow(DefaultGameContext(), color)
  {
    StandardKeysAreBoardKeys();
    StandardBoardCounts();
    FewerThanThreeIsNoMill(DefaultGameContext(), color);
  }

  /** Writing a board key keeps a context well formed. */
  lemma SetBoardKeepsContextOk(ctx: GameContext, k: string, v: Color)
    requires ContextOk(ctx) && BoardKey(k)
    ensures ContextOk(ctx.(board := ctx.board.Set(k, v)))
  {
  }

  /** Writing one colour to three different board keys of one column (or row) makes
      three in a row for that colour, whatever the rest of the board holds. */
  lemma SetThreeOnOneAxis(ctx: GameContext, color: Color, axis: Axis, a: string, b: string, c: string)
    requires ContextOk(ctx) && BoardKey(a) && BoardKey(b) && BoardKey(c)
    requires a != b && b != c && a != c
    requires Coord(a, axis) == Coord(b, axis) == Coord(c, axis)
    ensures var board := ctx.board.Set(a, color).Set(b, color).Set(c, color);
            ContextOk(ctx.(board := board)) && ThreeInARow(ctx.(board := board), color)
  {
    var c1 := ctx.(board := ctx.board.Set(a, color));
    SetBoardKeepsContextOk(ctx, a, color);
    var c2 := c1.(board := c1.board.Set(b, color));
    SetBoardKeepsContextOk(c1, b, color);
    var c3 := c2.(board := c2.board.Set(c, color));
    SetBoardKeepsContextOk(c2, c, color);
    ThreeOnOneAxisIsMill(c3, color, axis, a, b, c);
  }

  /** d1, d2 and d5 lie on no common mill line of the board, yet as they share column d
      the grouping rule reports three in a row for them, on any board (the default one
      included). */
  lemma SharedColumnCountsAsMill(ctx: GameContext)
    requires ContextOk(ctx)
    ensures var board := ctx.board.Set("d1", Black).Set("d2", Black).Set("d5", Black);
            ContextOk(ctx.(board := board)) && ThreeInARow(ctx.(board := board), Black)
  {
    ParseTwoCharKey("d1");
    ParseTwoCharKey("d2");
    ParseTwoCharKey("d5");
    SetThreeOnOneAxis(ctx, Black, ByColumn, "d1", "d2", "d5");
  }
}
