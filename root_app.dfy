/** The game state of the root `App.tsx` and the two helpers its drag-and-drop handler
    edits it with. Unlike the machine's `parsePosition`, these helpers address a tray
    by the key's first two characters ("bt", "wt") and take as index every digit of
    the key, read together as one decimal number. The state lives in an immer draft
    that the helpers assign in place, so here it is an object with a board record and
    two tray arrays. */
module RootApp {
  import opened Strings
  import opened Boards
  import opened Positions

  /** Whether `key` addresses a slot the model can represent: a key that starts with
      "bt" or "wt" needs at least one digit (`parseInt` of no digits is NaN), and a
      board key is neither an array index (which an object lists before its other
      keys) nor "__proto__" (a colour written there is silently ignored, so no key
      is added and reading it back gives `Object.prototype`, not a colour). */
  predicate AppKeyOk(key: string) {
    !ArrayIndex(key) && key != "__proto__" &&
    (StartsWith(key, "bt") || StartsWith(key, "wt") ==> StripNonDigits(key) != [])
  }

  /** `parseInt(position.replace(/\D/g, ''), 10)`. */
  function TrayIndex(key: string): nat
    requires StripNonDigits(key) != []
  {
    ParseDecimal(StripNonDigits(key))
  }

  /** What a key addresses for `getPositionColor` and `setPosition`: "bt" is tested
      before "wt", and any other key is a board cell. */
  function AppSlotOf(key: string): (s: Slot)
    requires AppKeyOk(key)
    ensures s.TraySlot? <==> StartsWith(key, "bt") || StartsWith(key, "wt")
    ensures s.TraySlot? ==> (s.side == Black <==> StartsWith(key, "bt"))
    ensures s.BoardSlot? ==> s.key == key
  {
    if StartsWith(key, "bt") then TraySlot(Black, TrayIndex(key))
    else if StartsWith(key, "wt") then TraySlot(White, TrayIndex(key))
    else BoardSlot(key)
  }

  /** GameState: the board record and the two tray arrays. */
  class GameState {
    var board: Board
    const blackTray: array<Color>
    const whiteTray: array<Color>

    predicate Valid()
      reads this
    {
      board.Valid() && blackTray != whiteTray
    }

    /** `defaultGameState`: the empty standard board and two full trays of nine. */
    constructor ()
      ensures Valid()
      ensures board == StandardBoard()
      ensures blackTray.Length == 9 && forall i :: 0 <= i < 9 ==> blackTray[i] == Black
      ensures whiteTray.Length == 9 && forall i :: 0 <= i < 9 ==> whiteTray[i] == White
      ensures fresh(blackTray) && fresh(whiteTray)
    {
      StandardBoardFacts();
      board := StandardBoard();
      blackTray := new Color[9](_ => Black);
      whiteTray := new Color[9](_ => White);
    }

    function TrayOf(side: Side): array<Color> {
      if side == Black then blackTray else whiteTray
    }

    /** The slot `key` addresses exists: a tray index within the array, or a key the
        board has. (JavaScript would read `undefined` otherwise.) */
    predicate Readable(key: string)
      reads this
    {
      AppKeyOk(key) &&
      match AppSlotOf(key)
      case TraySlot(side, i) => i < TrayOf(side).Length
      case BoardSlot(k) => k in board.cells
    }

    /** The slot `key` addresses can be assigned: a tray index within the array, or any
        board key (a new one is added to the record). */
    predicate Writable(key: string)
      reads this
    {
      AppKeyOk(key) &&
      match AppSlotOf(key)
      case TraySlot(side, i) => i < TrayOf(side).Length
      case BoardSlot(_) => true
    }

    /** `getPositionColor(state, position)`: a key starting with "bt" reads the black
        tray at the key's digits, one starting with "wt" the white tray, and any other
        key its own board cell. */
    function GetPositionColor(key: string): (c: Color)
      requires Readable(key)
      reads this, blackTray, whiteTray
      ensures StartsWith(key, "bt") ==> c == blackTray[TrayIndex(key)]
      ensures !StartsWith(key, "bt") && StartsWith(key, "wt") ==> c == whiteTray[TrayIndex(key)]
      ensures !StartsWith(key, "bt") && !StartsWith(key, "wt") ==> key in board.cells && c == board.cells[key]
    {
      match AppSlotOf(key)
      case TraySlot(side, i) => TrayOf(side)[i]
      case BoardSlot(k) => board.cells[k]
    }

    /** How many pieces of colour `c` the board and both trays hold. */
    function Count(c: Color): nat
      requires Valid()
      reads this, blackTray, whiteTray
    {
      board.Count(c) + CountOf(blackTray[..], c) + CountOf(whiteTray[..], c)
    }

    /** `setPosition({color, state, position})`: the slot `key` addresses is assigned
        `color`, in its tray array or in the board record, and nothing else changes.
        Reading `key` back gives `color`, every other slot reads as before and the count
        of each colour moves by what left the slot and what came. */
    method SetPosition(color: Color, key: string)
      requires Valid() && Writable(key)
      modifies this, blackTray, whiteTray
      ensures Valid()
      ensures board == WriteSlot(old(board), AppSlotOf(key), color)
      ensures blackTray[..] == if AppSlotOf(key).TraySlot? && AppSlotOf(key).side == Black
                               then old(blackTray[..])[AppSlotOf(key).index := color]
                               else old(blackTray[..])
      ensures whiteTray[..] == if AppSlotOf(key).TraySlot? && AppSlotOf(key).side == White
                               then old(whiteTray[..])[AppSlotOf(key).index := color]
                               else old(whiteTray[..])
      ensures Readable(key) && GetPositionColor(key) == color
      ensures forall k :: old(Readable(k)) && AppSlotOf(k) != AppSlotOf(key) ==>
                Readable(k) && GetPositionColor(k) == old(GetPositionColor(k))
      ensures forall c :: Count(c) == old(Count(c))
                - (if old(Readable(key)) && old(GetPositionColor(key)) == c then 1 else 0)
                + (if color == c then 1 else 0)
    {
      ghost var b0, bt0, wt0 := board, blackTray[..], whiteTray[..];
      match AppSlotOf(key)
      case TraySlot(side, i) =>
        if side == Black {
          blackTray[i] := color;
          forall c ensures CountOf(blackTray[..], c) == CountOf(bt0, c) - (if bt0[i] == c then 1 else 0) + (if color == c then 1 else 0) {
            assert blackTray[..] == bt0[i := color];
            CountOfUpdate(bt0, i, color, c);
          }
        } else {
          whiteTray[i] := color;
          forall c ensures CountOf(whiteTray[..], c) == CountOf(wt0, c) - (if wt0[i] == c then 1 else 0) + (if color == c then 1 else 0) {
            assert whiteTray[..] == wt0[i := color];
            CountOfUpdate(wt0, i, color, c);
          }
        }
      case BoardSlot(k) =>
        board := board.Set(k, color);
        forall c ensures board.Count(c) == b0.Count(c) - (if k in b0.cells && b0.cells[k] == c then 1 else 0) + (if color == c then 1 else 0) {
          SetCount(b0, k, color, c);
        }
    }

    /** The draft update `handlePieceRelease` hands to `updateGameState`: `to` is given
        the colour `from` has and then `from` is emptied, so when both address one slot
        it ends empty. The board is the result of those two slot writes, every other
        slot reads as before, and a colour's count drops by one exactly when `to` held
        that colour, so a drop onto an empty point keeps every count. */
    method MovePiece(from: string, to: string)
      requires Valid() && Readable(from) && Writable(to)
      modifies this, blackTray, whiteTray
      ensures Valid()
      ensures board == WriteSlot(WriteSlot(old(board), AppSlotOf(to), old(GetPositionColor(from))),
                                 AppSlotOf(from), Empty)
      ensures board.keys == old(board).keys +
                            (if AppSlotOf(to).BoardSlot? && to !in old(board).cells then [to] else [])
      ensures Readable(from) && GetPositionColor(from) == Empty
      ensures Readable(to) &&
              GetPositionColor(to) == (if AppSlotOf(from) == AppSlotOf(to) then Empty else old(GetPositionColor(from)))
      ensures forall k :: old(Readable(k)) && AppSlotOf(k) != AppSlotOf(from) && AppSlotOf(k) != AppSlotOf(to) ==>
                Readable(k) && GetPositionColor(k) == old(GetPositionColor(k))
      ensures forall c: Side :: Count(c) == old(Count(c))
                - (if old(Readable(to)) && old(GetPositionColor(to)) == c then 1 else 0)
    {
      var moved := GetPositionColor(from);
      SetPosition(moved, to);
      assert Readable(from) && GetPositionColor(from) == moved;
      SetPosition(Empty, from);
    }

    /** `handlePieceRelease`: when both the dragged piece's key and the hovered key are
        non-empty, the draft update moves the piece and the drag is cancelled; otherwise
        nothing changes. */
    method HandlePieceRelease(from: string, to: Option<string>) returns (cancel: bool)
      requires Valid()
      requires from != "" && to.Some? && to.value != "" ==> Readable(from) && Writable(to.value)
      modifies this, blackTray, whiteTray
      ensures Valid()
      ensures cancel <==> from != "" && to.Some? && to.value != ""
      ensures !cancel ==> board == old(board) && blackTray[..] == old(blackTray[..]) && whiteTray[..] == old(whiteTray[..])
      ensures cancel ==>
                board == WriteSlot(WriteSlot(old(board), AppSlotOf(to.value), old(GetPositionColor(from))),
                                   AppSlotOf(from), Empty)
      ensures cancel ==>
                board.keys == old(board).keys +
                (if AppSlotOf(to.value).BoardSlot? && to.value !in old(board).cells then [to.value] else [])
      ensures cancel ==> Readable(from) && GetPositionColor(from) == Empty
      ensures cancel ==> Readable(to.value)
      ensures cancel ==>
                GetPositionColor(to.value) ==
                (if AppSlotOf(from) == AppSlotOf(to.value) then Empty else old(GetPositionColor(from)))
      ensures cancel ==> forall k :: old(Readable(k)) && AppSlotOf(k) != AppSlotOf(from) && AppSlotOf(k) != AppSlotOf(to.value) ==>
                Readable(k) && GetPositionColor(k) == old(GetPositionColor(k))
      ensures forall c: Side :: Count(c) == old(Count(c))
                - (if cancel && old(Readable(to.value)) && old(GetPositionColor(to.value)) == c then 1 else 0)
    {
      cancel := from != "" && to.Some? && to.value != "";
      if cancel {
        MovePiece(from, to.value);
      }
    }
  }

  /** Every cell of `b0` whose key neither `s1` nor `s2` names is in `b1`, unchanged. */
  predicate CellsKept(b0: Board, b1: Board, s1: Slot, s2: Slot) {
    forall k :: k in b0.cells && BoardSlot(k) != s1 && BoardSlot(k) != s2 ==>
      k in b1.cells && b1.cells[k] == b0.cells[k]
  }

  /** The board after writing `v` to slot `s`: a tray slot leaves it as it is. */
  function WriteSlot(b: Board, s: Slot, v: Color): (r: Board)
    requires b.Valid() && (s.BoardSlot? ==> !ArrayIndex(s.key))
    ensures r.Valid()
    ensures r.keys == if s.BoardSlot? && s.key !in b.cells then b.keys + [s.key] else b.keys
  {
    if s.BoardSlot? then b.Set(s.key, v) else b
  }

  /** Two slot writes change no board cell but those of the two slots written. */
  lemma TwoWritesKeepCells(b0: Board, b1: Board, b2: Board, s1: Slot, v1: Color, s2: Slot, v2: Color)
    requires b0.Valid() && (s1.BoardSlot? ==> !ArrayIndex(s1.key)) && (s2.BoardSlot? ==> !ArrayIndex(s2.key))
    requires b1 == WriteSlot(b0, s1, v1) && b2 == WriteSlot(b1, s2, v2)
    ensures CellsKept(b0, b2, s2, s1)
  {
    forall k | k in b0.cells && BoardSlot(k) != s2 && BoardSlot(k) != s1
      ensures k in b2.cells && b2.cells[k] == b0.cells[k]
    {
      WriteKeepsCell(b0, s1, v1, k);
      WriteKeepsCell(b1, s2, v2, k);
    }
  }

  /** A slot write leaves the board cell of every other key as it was. */
  lemma WriteKeepsCell(b: Board, s: Slot, v: Color, k: string)
    requires b.Valid() && (s.BoardSlot? ==> !ArrayIndex(s.key))
    requires k in b.cells && BoardSlot(k) != s
    ensures k in WriteSlot(b, s, v).cells && WriteSlot(b, s, v).cells[k] == b.cells[k]
  {
  }

  /** The key `${prefix}${i}` of the i-th tray slot addresses that slot here, as it does
      for the machine's `parsePosition`. */
  lemma TrayKeySlot(side: Side, i: nat)
    ensures var key := (if side == Black then "bt" else "wt") + DecimalString(i);
            AppKeyOk(key) && AppSlotOf(key) == TraySlot(side, i) &&
            WellFormedKey(key) && SlotOf(key) == TraySlot(side, i)
  {
    var prefix := if side == Black then "bt" else "wt";
    var key := prefix + DecimalString(i);
    StripNonDigitsSplit(prefix, DecimalString(i));
    ParseDecimalString(i);
    ParseTrayKey(side, i);
    assert key[..2] == prefix;
  }

  /** A key made of a non-digit prefix and digits addresses the same slot for both
      parsers when its prefix is exactly "bt" or "wt", or when it starts with neither. */
  lemma SlotsAgree(prefix: string, digits: string)
    requires NoDigits(prefix) && |prefix| > 0 && !InheritedMember(prefix)
    requires |digits| > 0 && AllDigits(digits)
    requires prefix == "bt" || prefix == "wt" ||
             !(StartsWith(prefix + digits, "bt") || StartsWith(prefix + digits, "wt"))
    ensures WellFormedKey(prefix + digits) && AppKeyOk(prefix + digits)
    ensures AppSlotOf(prefix + digits) == SlotOf(prefix + digits)
  {
    var key := prefix + digits;
    ParseSplit(prefix, digits);
    StripNonDigitsSplit(prefix, digits);
    if prefix == "bt" || prefix == "wt" {
      assert key[..2] == prefix;
    }
  }

  /** A key whose letters run on past "bt" (such as "btx1") is a black tray slot
      here, indexed by its digits, but a board cell for `parsePosition`, whose prefix
      table knows only "bt" and "wt" themselves. */
  lemma LongTrayPrefixDisagrees(prefix: string, digits: string)
    requires NoDigits(prefix) && |prefix| > 2 && prefix[..2] == "bt" && !InheritedMember(prefix)
    requires |digits| > 0 && AllDigits(digits)
    ensures WellFormedKey(prefix + digits) && AppKeyOk(prefix + digits)
    ensures AppSlotOf(prefix + digits) == TraySlot(Black, ParseDecimal(digits))
    ensures SlotOf(prefix + digits) == BoardSlot(prefix + digits)
  {
    ParseSplit(prefix, digits);
    assert PrefixToTray(prefix).None?;
    LongTrayPrefixApp(prefix, digits);
  }

  /** The `App.tsx` half of `LongTrayPrefixDisagrees`. */
  lemma LongTrayPrefixApp(prefix: string, digits: string)
    requires NoDigits(prefix) && |prefix| > 2 && prefix[..2] == "bt" && WellFormedKey(prefix + digits)
    requires |digits| > 0 && AllDigits(digits)
    ensures AppKeyOk(prefix + digits)
    ensures AppSlotOf(prefix + digits) == TraySlot(Black, ParseDecimal(digits))
  {
    var key := prefix + digits;
    WellFormedNotIndex(key);
    StripNonDigitsSplit(prefix, digits);
    assert key[..2] == prefix[..2];
    assert key[|key| - 1] == digits[|digits| - 1];
  }
}
