/** The game context of `src/game-machine.ts` and its pure updates: reading and writing
    one slot through a key (`getColor`, `setPosition`), moving a colour between two
    slots (`placePiece`), and the tray query the machine's guard uses. `setPosition`
    edits an immer draft, which hands back a modified copy; here every update is a
    function from the old context to the new one. */
module Contexts {
  import opened Boards
  import opened Positions

  /** GameContext: the board record and the two trays (the shape `GameState` declares
      in src/types.ts). */
  datatype GameContext = GameContext(board: Board, blackTray: seq<Color>, whiteTray: seq<Color>)

  /** `defaultGameContext`: the 24 standard points in their listed order, all empty,
      and each tray nine pieces of its own colour. */
  function DefaultGameContext(): (ctx: GameContext)
    ensures ctx.board.Valid() && ctx.board.keys == StandardKeys
    ensures forall k :: k in ctx.board.cells ==> ctx.board.cells[k] == Empty
    ensures forall s: Side :: |Tray(ctx, s)| == 9 && forall i :: 0 <= i < 9 ==> Tray(ctx, s)[i] == s
  {
    StandardBoardFacts();
    GameContext(
      StandardBoard(),
      FullTray(Black), FullTray(White))
  }

  /** A tray of nine pieces of colour `c`. */
  function FullTray(c: Side): (t: seq<Color>)
    ensures |t| == 9 && forall i :: 0 <= i < |t| ==> t[i] == c
  {
    seq(9, _ => c)
  }

  function Tray(ctx: GameContext, side: Side): seq<Color> {
    if side == Black then ctx.blackTray else ctx.whiteTray
  }

  /** The slot a key addresses exists: a tray index within the tray, or a key the
      board has. (JavaScript would read `undefined` otherwise.) */
  predicate Readable(ctx: GameContext, key: string)
    requires WellFormedKey(key)
  {
    match SlotOf(key)
    case TraySlot(side, index) => index < |Tray(ctx, side)|
    case BoardSlot(k) => k in ctx.board.cells
  }

  /** The slot a key addresses can be assigned: a tray index within the tray, or any
      board key (a new one is added to the record). */
  predicate Writable(ctx: GameContext, key: string)
    requires WellFormedKey(key)
  {
    match SlotOf(key)
    case TraySlot(side, index) => index < |Tray(ctx, side)|
    case BoardSlot(_) => true
  }

  /** `getColor(context, key)`: the tray entry a tray key names, or the board cell of a
      board key. */
  function GetColor(ctx: GameContext, key: string): (c: Color)
    requires WellFormedKey(key) && Readable(ctx, key)
    ensures SlotOf(key).TraySlot? ==> c == Tray(ctx, SlotOf(key).side)[SlotOf(key).index]
    ensures SlotOf(key).BoardSlot? ==> c == ctx.board.cells[key]
  {
    match ParsePosition(key)
    case TrayPosition(side, index, _) =>
      if side == Black then ctx.blackTray[index] else ctx.whiteTray[index]
    case BoardPosition(_, _, _) => ctx.board.cells[key]
  }

  /** `setPosition({color, context, position})`: a copy of the context in which the
      slot `key` addresses holds `c` (`SetPositionReads`). The trays keep their lengths
      and the board gains a key only when `key` is a board key it lacked. */
  function SetPosition(ctx: GameContext, key: string, c: Color): (r: GameContext)
    requires ctx.board.Valid() && WellFormedKey(key) && Writable(ctx, key)
    ensures r.board.Valid()
    ensures |r.blackTray| == |ctx.blackTray| && |r.whiteTray| == |ctx.whiteTray|
    ensures r.board.keys ==
            if SlotOf(key).BoardSlot? && key !in ctx.board.cells then ctx.board.keys + [key]
            else ctx.board.keys
  {
    match ParsePosition(key)
    case TrayPosition(side, index, _) =>
      if side == Black then ctx.(blackTray := ctx.blackTray[index := c])
      else ctx.(whiteTray := ctx.whiteTray[index := c])
    case BoardPosition(_, _, _) =>
      WellFormedNotIndex(key);
      ctx.(board := ctx.board.Set(key, c))
  }

  /** After `setPosition`, reading `key` back gives `c`, and every slot that `key` does
      not address reads as before. */
  lemma SetPositionReads(ctx: GameContext, key: string, c: Color)
    requires ctx.board.Valid() && WellFormedKey(key) && Writable(ctx, key)
    ensures var r := SetPosition(ctx, key, c);
            Readable(r, key) && GetColor(r, key) == c
    ensures var r := SetPosition(ctx, key, c);
            forall k :: WellFormedKey(k) && Readable(ctx, k) && SlotOf(k) != SlotOf(key) ==>
              Readable(r, k) && GetColor(r, k) == GetColor(ctx, k)
  {
    if SlotOf(key).TraySlot? {
      SetTrayReads(ctx, key, c);
    } else {
      SetBoardReads(ctx, key, c);
    }
  }

  /** The tray case of `SetPositionReads`. */
  lemma SetTrayReads(ctx: GameContext, key: string, c: Color)
    requires ctx.board.Valid() && WellFormedKey(key) && Writable(ctx, key) && SlotOf(key).TraySlot?
    ensures var r := SetPosition(ctx, key, c);
            Readable(r, key) && GetColor(r, key) == c
    ensures var r := SetPosition(ctx, key, c);
            forall k :: WellFormedKey(k) && Readable(ctx, k) && SlotOf(k) != SlotOf(key) ==>
              Readable(r, k) && GetColor(r, k) == GetColor(ctx, k)
  {
    var r, side, index := SetPosition(ctx, key, c), SlotOf(key).side, SlotOf(key).index;
    assert Tray(r, side) == Tray(ctx, side)[index := c];
    assert Tray(r, Opponent(side)) == Tray(ctx, Opponent(side));
    assert r.board == ctx.board;
  }

  /** The board case of `SetPositionReads`. */
  lemma SetBoardReads(ctx: GameContext, key: string, c: Color)
    requires ctx.board.Valid() && WellFormedKey(key) && SlotOf(key).BoardSlot?
    ensures var r := SetPosition(ctx, key, c);
            Readable(r, key) && GetColor(r, key) == c
    ensures var r := SetPosition(ctx, key, c);
            forall k :: WellFormedKey(k) && Readable(ctx, k) && SlotOf(k) != SlotOf(key) ==>
              Readable(r, k) && GetColor(r, k) == GetColor(ctx, k)
  {
    var r := SetPosition(ctx, key, c);
    assert r.board.cells == ctx.board.cells[key := c];
    assert r.blackTray == ctx.blackTray && r.whiteTray == ctx.whiteTray;
  }

  /** What `placePiece` needs of its keys: both well formed, `from` readable and `to`
      assignable. */
  predicate PlaceOk(ctx: GameContext, from: string, to: string) {
    ctx.board.Valid() && WellFormedKey(from) && WellFormedKey(to) &&
    Readable(ctx, from) && Writable(ctx, to)
  }

  /** `placePiece(context, {from, to})`: `to` receives the colour `from` held and `from`
      is emptied (`PlacePieceReads`). The trays keep their lengths and the board gains
      `to` only when it is a board key it lacked. */
  function PlacePiece(ctx: GameContext, from: string, to: string): (r: GameContext)
    requires PlaceOk(ctx, from, to)
    ensures r.board.Valid()
    ensures |r.blackTray| == |ctx.blackTray| && |r.whiteTray| == |ctx.whiteTray|
    ensures r.board.keys ==
            if SlotOf(to).BoardSlot? && to !in ctx.board.cells then ctx.board.keys + [to]
            else ctx.board.keys
  {
    var added := SetPosition(ctx, to, GetColor(ctx, from));
    SetPositionReads(ctx, to, GetColor(ctx, from));
    SetPosition(added, from, Empty)
  }

  /** After `placePiece`, `from` reads empty and `to` holds the colour `from` held, so
      that when both keys address one slot it ends empty; every other slot reads as
      before. */
  lemma PlacePieceReads(ctx: GameContext, from: string, to: string)
    requires PlaceOk(ctx, from, to)
    ensures var r := PlacePiece(ctx, from, to);
            Readable(r, from) && GetColor(r, from) == Empty
    ensures var r := PlacePiece(ctx, from, to);
            Readable(r, to) &&
            GetColor(r, to) == if SlotOf(from) == SlotOf(to) then Empty else GetColor(ctx, from)
    ensures var r := PlacePiece(ctx, from, to);
            forall k :: WellFormedKey(k) && Readable(ctx, k) && SlotOf(k) != SlotOf(from) && SlotOf(k) != SlotOf(to) ==>
              Readable(r, k) && GetColor(r, k) == GetColor(ctx, k)
  {
    var moved := GetColor(ctx, from);
    var added := SetPosition(ctx, to, moved);
    SetPositionReads(ctx, to, moved);
    SetPositionReads(added, from, Empty);
  }

  /** `arePlaceablePiecesInTrays`: some black piece is left in the black tray or some
      white piece in the white tray. */
  function ArePlaceablePiecesInTrays(ctx: GameContext): (r: bool)
    ensures r <==> CountOf(ctx.blackTray, Black) > 0 || CountOf(ctx.whiteTray, White) > 0
  {
    CountOfPositive(ctx.blackTray, Black);
    CountOfPositive(ctx.whiteTray, White);
    Black in ctx.blackTray || White in ctx.whiteTray
  }

  lemma {:induction false} CountOfPositive(s: seq<Color>, c: Color)
    ensures CountOf(s, c) > 0 <==> c in s
  {
    if s != [] {
      CountOfPositive(s[..|s| - 1], c);
      assert s == s[..|s| - 1] + [s[|s| - 1]];
    }
  }

  /** How many pieces of colour `c` the context holds, on the board and in both trays. */
  function Count(ctx: GameContext, c: Color): nat
    requires ctx.board.Valid()
  {
    ctx.board.Count(c) + CountOf(ctx.blackTray, c) + CountOf(ctx.whiteTray, c)
  }

  /** Writing `v` through `key` takes the count of `c` down by one if the slot held `c`
      and up by one if `v` is `c`. */
  lemma SetPositionCount(ctx: GameContext, key: string, v: Color, c: Color)
    requires ctx.board.Valid() && WellFormedKey(key) && Writable(ctx, key)
    ensures Count(SetPosition(ctx, key, v), c) ==
            Count(ctx, c) - (if Readable(ctx, key) && GetColor(ctx, key) == c then 1 else 0)
            + (if v == c then 1 else 0)
  {
    if SlotOf(key).TraySlot? {
      SetTrayCount(ctx, key, v, c);
    } else {
      SetBoardCount(ctx, key, v, c);
    }
  }

  /** The tray case of `SetPositionCount`. */
  lemma SetTrayCount(ctx: GameContext, key: string, v: Color, c: Color)
    requires ctx.board.Valid() && WellFormedKey(key) && Writable(ctx, key) && SlotOf(key).TraySlot?
    ensures Count(SetPosition(ctx, key, v), c) ==
            Count(ctx, c) - (if GetColor(ctx, key) == c then 1 else 0) + (if v == c then 1 else 0)
  {
    var i := SlotOf(key).index;
    if SlotOf(key).side == Black {
      CountOfUpdate(ctx.blackTray, i, v, c);
    } else {
      CountOfUpdate(ctx.whiteTray, i, v, c);
    }
  }

  /** The board case of `SetPositionCount`. */
  lemma SetBoardCount(ctx: GameContext, key: string, v: Color, c: Color)
    requires ctx.board.Valid() && WellFormedKey(key) && SlotOf(key).BoardSlot?
    ensures Count(SetPosition(ctx, key, v), c) ==
            Count(ctx, c) - (if key in ctx.board.cells && ctx.board.cells[key] == c then 1 else 0)
            + (if v == c then 1 else 0)
  {
    WellFormedNotIndex(key);
    SetCount(ctx.board, key, v, c);
  }

  /** `placePiece` never creates a piece: the count of a player colour drops by one
      exactly when `to` held that colour (it was overwritten), and is otherwise kept. */
  lemma PlacePieceCount(ctx: GameContext, from: string, to: string, c: Side)
    requires PlaceOk(ctx, from, to)
    ensures Count(PlacePiece(ctx, from, to), c) ==
            Count(ctx, c) - (if Readable(ctx, to) && GetColor(ctx, to) == c then 1 else 0)
  {
    var moved := GetColor(ctx, from);
    var added := SetPosition(ctx, to, moved);
    SetPositionCount(ctx, to, moved, c);
    SetPositionReads(ctx, to, moved);
    assert Readable(added, from) && GetColor(added, from) == moved;
    SetPositionCount(added, from, Empty, c);
  }

  /** Moving from a slot to a different, empty slot keeps every count. */
  lemma PlacePieceOntoEmptyKeepsCounts(ctx: GameContext, from: string, to: string, c: Side)
    requires PlaceOk(ctx, from, to) && SlotOf(from) != SlotOf(to)
    requires Readable(ctx, to) && GetColor(ctx, to) == Empty
    ensures Count(PlacePiece(ctx, from, to), c) == Count(ctx, c)
  {
    PlacePieceCount(ctx, from, to, c);
  }

  lemma {:induction false} CountOfAll(s: seq<Color>, c: Color)
    requires forall i :: 0 <= i < |s| ==> s[i] == c
    ensures CountOf(s, c) == |s|
    ensures forall d :: d != c ==> CountOf(s, d) == 0
  {
    if s != [] {
      CountOfAll(s[..|s| - 1], c);
    }
  }

  /** A full tray holds nine pieces of its colour and none of another. */
  lemma FullTrayCounts(c: Side)
    ensures CountOf(FullTray(c), c) == 9
    ensures forall d :: d != c ==> CountOf(FullTray(c), d) == 0
  {
    CountOfAll(FullTray(c), c);
  }

  /** A context with an empty board and two full trays holds nine pieces of each
      player colour. */
  lemma FullTraysCount(ctx: GameContext, c: Side)
    requires ctx.board.Valid() && forall k :: k in ctx.board.cells ==> ctx.board.cells[k] == Empty
    requires ctx.blackTray == FullTray(Black) && ctx.whiteTray == FullTray(White)
    ensures Count(ctx, c) == 9
  {
    FullTrayCounts(Black);
    FullTrayCounts(White);
    UniformBoardCounts(ctx.board, Empty);
  }

  /** The default context holds nine pieces of each player colour, all in the trays,
      and 24 empty board points (`StandardBoardFacts` has its keys). */
  lemma DefaultGameContextCounts(c: Side)
    ensures DefaultGameContext().board.Valid()
    ensures Count(DefaultGameContext(), c) == 9
    ensures DefaultGameContext().board.Count(Empty) == 24
  {
    StandardBoardCounts();
    FullTraysCount(DefaultGameContext(), c);
  }

  /** The default context has pieces left to place. */
  lemma DefaultGameContextPlaceable()
    ensures ArePlaceablePiecesInTrays(DefaultGameContext())
  {
    assert DefaultGameContext().blackTray[0] == Black;
  }
}
