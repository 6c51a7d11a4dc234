/** Position addressing of `src/game-machine.ts`: a key such as "d2" or "bt3" is split
    into its leading non-digits and the digits after them. The prefixes "bt" and "wt"
    name a slot of the black or white tray, indexed by the suffix as written; any
    other prefix is a board column looked up in the alphabet, and the row is the
    suffix minus one. */
module Positions {
  import opened Strings
  import opened Boards

  /** BoardPosition | TrayPosition; `position` is the key that was parsed. */
  datatype Position =
    | BoardPosition(col: int, row: int, position: string)
    | TrayPosition(color: Side, index: nat, position: string)

  /** `positionPrefixToTray`: the tray a key prefix names, if any. */
  function PrefixToTray(prefix: string): (r: Option<Side>)
    ensures r.Some? <==> prefix == "bt" || prefix == "wt"
    ensures r.Some? ==> (r.value == Black <==> prefix == "bt")
  {
    if prefix == "bt" then Some(Black)
    else if prefix == "wt" then Some(White)
    else None
  }

  /** The names every object literal inherits from `Object.prototype`. Looking one of
      them up in `positionPrefixToTray` finds the inherited member, which
      `parsePosition` would take for a tray colour. */
  const InheritedNames: set<string> :=
    {"constructor", "hasOwnProperty", "isPrototypeOf", "propertyIsEnumerable",
     "toLocaleString", "toString", "valueOf", "__proto__", "__defineGetter__",
     "__defineSetter__", "__lookupGetter__", "__lookupSetter__"}

  predicate InheritedMember(name: string) {
    |name| >= 7 && name in InheritedNames
  }

  /** Every inherited member name has at least seven characters. */
  lemma ShortNameNotInherited(name: string)
    requires |name| < 7
    ensures !InheritedMember(name)
  {
  }

  /** A key made of a non-empty, digit-free prefix that is no inherited member name,
      followed by a non-empty run of digits and nothing else. */
  predicate WellFormedKey(key: string) {
    var n := LeadingNonDigits(key);
    0 < n < |key| && AllDigits(key[n..]) && !InheritedMember(key[..n])
  }

  /** A well-formed key starts with a non-digit, so it is never an array index. */
  lemma WellFormedNotIndex(key: string)
    requires WellFormedKey(key)
    ensures !ArrayIndex(key)
  {
    assert key[..LeadingNonDigits(key)][0] == key[0];
  }

  /** `parsePosition(key)`. */
  function ParsePosition(key: string): (p: Position)
    requires WellFormedKey(key)
    ensures p.position == key
    ensures p.BoardPosition? ==> -1 <= p.col < |Alphabet| && p.row >= -1
  {
    var n := LeadingNonDigits(key);
    Classify(key[..n], key[n..], key)
  }

  /** What `parsePosition` makes of the prefix `letters` and the digits `numbers` it
      split `key` into. */
  function Classify(letters: string, numbers: string, key: string): (p: Position)
    requires AllDigits(numbers)
    ensures p.position == key
    ensures p.BoardPosition? ==> -1 <= p.col < |Alphabet| && p.row >= -1
  {
    match PrefixToTray(letters)
    case Some(side) => TrayPosition(side, ParseDecimal(numbers), key)
    case None => BoardPosition(IndexOf(Alphabet, letters), ParseDecimal(numbers) - 1, key)
  }

  /** What a key addresses: one slot of a tray, or the board cell of that very key. */
  datatype Slot = TraySlot(side: Side, index: nat) | BoardSlot(key: string)

  function SlotOf(key: string): (s: Slot)
    requires WellFormedKey(key)
    ensures s.BoardSlot? ==> s.key == key
  {
    match ParsePosition(key)
    case TrayPosition(side, index, _) => TraySlot(side, index)
    case BoardPosition(_, _, _) => BoardSlot(key)
  }

  /** A key that addresses the board. */
  predicate BoardKey(key: string) {
    WellFormedKey(key) && ParsePosition(key).BoardPosition?
  }

  /** A digit-free prefix followed by digits parses by that prefix alone: "bt" and "wt"
      give a tray slot whose index is the suffix's value, with no decrement; anything
      else gives the prefix's alphabet index as column and the suffix's value minus one
      as row. */
  lemma ParseSplit(prefix: string, digits: string)
    requires NoDigits(prefix) && |prefix| > 0 && !InheritedMember(prefix)
    requires |digits| > 0 && AllDigits(digits)
    ensures WellFormedKey(prefix + digits)
    ensures PrefixToTray(prefix).Some? ==>
              ParsePosition(prefix + digits) ==
              TrayPosition(PrefixToTray(prefix).value, ParseDecimal(digits), prefix + digits)
    ensures PrefixToTray(prefix).None? ==>
              ParsePosition(prefix + digits) ==
              BoardPosition(IndexOf(Alphabet, prefix), ParseDecimal(digits) - 1, prefix + digits)
  {
    if PrefixToTray(prefix).Some? {
      ParseTraySplit(prefix, digits);
    } else {
      ParseBoardSplit(prefix, digits);
    }
  }

  /** The tray case of `ParseSplit`. */
  lemma ParseTraySplit(prefix: string, digits: string)
    requires NoDigits(prefix) && |prefix| > 0 && !InheritedMember(prefix)
    requires |digits| > 0 && AllDigits(digits)
    requires PrefixToTray(prefix).Some?
    ensures WellFormedKey(prefix + digits)
    ensures ParsePosition(prefix + digits) ==
            TrayPosition(PrefixToTray(prefix).value, ParseDecimal(digits), prefix + digits)
  {
    SplitWellFormed(prefix, digits);
    assert ParsePosition(prefix + digits) == Classify(prefix, digits, prefix + digits);
  }

  /** The board case of `ParseSplit`. */
  lemma ParseBoardSplit(prefix: string, digits: string)
    requires NoDigits(prefix) && |prefix| > 0 && !InheritedMember(prefix)
    requires |digits| > 0 && AllDigits(digits)
    requires PrefixToTray(prefix).None?
    ensures WellFormedKey(prefix + digits)
    ensures ParsePosition(prefix + digits) ==
            BoardPosition(IndexOf(Alphabet, prefix), ParseDecimal(digits) - 1, prefix + digits)
  {
    SplitWellFormed(prefix, digits);
    assert ParsePosition(prefix + digits) == Classify(prefix, digits, prefix + digits);
    ClassifyBoard(prefix, digits, prefix + digits);
  }

  /** A prefix naming no tray classifies as the board position of its alphabet index. */
  lemma ClassifyBoard(letters: string, numbers: string, key: string)
    requires AllDigits(numbers) && PrefixToTray(letters).None?
    ensures Classify(letters, numbers, key) ==
            BoardPosition(IndexOf(Alphabet, letters), ParseDecimal(numbers) - 1, key)
  {
  }

  /** Such a key is well formed, and `parsePosition` splits it into the prefix and the
      digits. */
  lemma SplitWellFormed(prefix: string, digits: string)
    requires NoDigits(prefix) && |prefix| > 0 && !InheritedMember(prefix)
    requires |digits| > 0 && AllDigits(digits)
    ensures WellFormedKey(prefix + digits)
    ensures LeadingNonDigits(prefix + digits) == |prefix|
    ensures (prefix + digits)[..|prefix|] == prefix && (prefix + digits)[|prefix|..] == digits
  {
    SplitAtLeadingNonDigits(prefix, digits);
  }

  /** The split `parsePosition` makes of such a key is the prefix and the digits. */
  lemma SplitAtLeadingNonDigits(prefix: string, digits: string)
    requires NoDigits(prefix) && |digits| > 0 && AllDigits(digits)
    ensures LeadingNonDigits(prefix + digits) == |prefix|
    ensures (prefix + digits)[..|prefix|] == prefix && (prefix + digits)[|prefix|..] == digits
  {
    LeadingNonDigitsSplit(prefix, digits);
  }

  /** The tray key `${prefix}${i}` that the tray view renders parses back to slot `i`
      of that tray. */
  lemma ParseTrayKey(side: Side, i: nat)
    ensures var key := (if side == Black then "bt" else "wt") + DecimalString(i);
            WellFormedKey(key) && ParsePosition(key) == TrayPosition(side, i, key)
  {
    var prefix := if side == Black then "bt" else "wt";
    ShortNameNotInherited(prefix);
    ParseSplit(prefix, DecimalString(i));
    ParseDecimalString(i);
  }

  /** Formatting the index of a parsed tray key with canonical digits gives the key back. */
  lemma TrayKeyRoundTrip(prefix: string, digits: string)
    requires prefix == "bt" || prefix == "wt"
    requires Canonical(digits)
    ensures WellFormedKey(prefix + digits)
    ensures ParsePosition(prefix + digits).TrayPosition?
    ensures prefix + DecimalString(ParsePosition(prefix + digits).index) == prefix + digits
  {
    ShortNameNotInherited(prefix);
    ParseSplit(prefix, digits);
    DecimalStringParse(digits);
  }

  /** A lower-case letter followed by the numeral of `n` is the board position in
      column `letter - 'a'` and row `n - 1`. */
  lemma ParseBoardKey(letter: char, n: nat)
    requires 'a' <= letter <= 'z'
    ensures var key := [letter] + DecimalString(n);
            BoardKey(key) && ParsePosition(key) == BoardPosition(letter as int - 'a' as int, n - 1, key)
  {
    ShortNameNotInherited([letter]);
    ParseSplit([letter], DecimalString(n));
    ParseDecimalString(n);
    LetterIndex(letter);
  }

  /** Every key of two characters, a lower-case letter and a non-zero digit, is a board
      key in column `letter - 'a'` and row `digit - 1` (all 24 standard keys are such). */
  lemma ParseTwoCharKey(key: string)
    requires |key| == 2 && 'a' <= key[0] <= 'z' && '1' <= key[1] <= '9'
    ensures BoardKey(key)
    ensures ParsePosition(key) == BoardPosition(key[0] as int - 'a' as int, DigitValue(key[1]) - 1, key)
  {
    assert key == [key[0]] + [key[1]];
    ShortNameNotInherited([key[0]]);
    ParseSplit([key[0]], [key[1]]);
    assert ParseDecimal([key[1]]) == DigitValue(key[1]) by {
      assert [key[1]][..0] == [];
    }
    LetterIndex(key[0]);
  }

  /** The 24 standard keys all address the board, within columns a-g and rows 1-7. */
  lemma StandardKeysAreBoardKeys()
    ensures forall k :: k in StandardKeys ==>
              BoardKey(k) && 0 <= ParsePosition(k).col <= 6 && 0 <= ParsePosition(k).row <= 6
  {
    forall k | k in StandardKeys
      ensures BoardKey(k) && 0 <= ParsePosition(k).col <= 6 && 0 <= ParsePosition(k).row <= 6
    {
      ParseTwoCharKey(k);
    }
  }
}
