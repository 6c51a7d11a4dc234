# morris9 placing-phase rules in Dafny

This project models the rule engine of the Nine Men's Morris app `morris9` and proves properties of the model. It covers:

- the placing-phase state machine of `src/game-machine.ts`;
- the earlier copy of the tray/board update logic in the root `App.tsx`;
- the integer and query parts of `BoardQueryer.ts`.

Modules, in dependency order:

| module | file | what it holds |
|---|---|---|
| `Strings` | `strings.dfy` | Decimal digits and `parseInt` on digit strings. The leading non-digit prefix (`/^\D*/`). Deleting non-digits (`replace(/\D/g, '')`). `startsWith` and `indexOf` on the alphabet. |
| `Boards` | `boards.dfy` | `PieceColor` and the board record: a JavaScript object with its keys in insertion order. Assigning a new key appends it. Filtering by value keeps key order. |
| `Positions` | `positions.dfy` | `positionPrefixToTray` and `parsePosition`. What slot a key addresses. |
| `Contexts` | `context.dfy` | `GameContext` and `defaultGameContext`. The pure updates `getColor`, `setPosition` and `placePiece`, and their read-after-write, frame and piece-count lemmas. `arePlaceablePiecesInTrays`. |
| `Mills` | `mills.dfy` | `areThreeInARow`. Its loop is a method over the local `byCols`/`byRows` maps, proved against a grouping function. |
| `GameMachine` | `machine.dfy` | The `morris9` machine: phases, events, one step, runs of steps, and the invariant every resting state keeps. |
| `RootApp` | `root_app.dfy` | The root `App.tsx` game state as an object: a board record and two tray arrays. `getPositionColor`, and `setPosition` and the `handlePieceRelease` draft update as in-place methods. |
| `Queryer` | `board_queryer.dfy` | `BoardQueryer` as a class: the position getters, `positionToLogicalXy`, and `numVerticalPositions` with its cache field. |

The model follows the code, including where the code departs from the game's rules.

- **Mill check.** The intended rule is "three pieces on one of the 16 mill lines". `areThreeInARow` instead groups a colour's keys by raw column letter and by raw row number, and asks whether any group has three members. Column d and row 4 each hold six points, so d1, d2 and d5 count as three in a row although no mill line joins them. `Mills.SharedColumnCountsAsMill` proves this.
- **Tray keys.** The two source files address trays differently.
  - For every prefix the model parses (one that is not an `Object.prototype` name), the machine's `parsePosition` tests the whole non-digit prefix against exactly "bt" and "wt".
  - `App.tsx` tests only the first two characters and reads the index from every digit of the key.
  - For every prefix the model parses (not an `Object.prototype` name), the two agree on every key made of "bt" or "wt" and digits, and on every key that starts with neither (`RootApp.SlotsAgree`). They disagree on keys such as "btx1" (`RootApp.LongTrayPrefixDisagrees`).
- **Placement.** `PLACE` is accepted with no legality checks, as in the code. The preconditions are limited to keys the model can represent and slots that exist. "## Left out" lists each key the code accepts that the model does not.

## Model

| member | source | states |
|---|---|---|
| Boards.Board.Set | src/game-machine.ts:152 | Assigning a board key overwrites its cell, or appends the key when it is new. The record stays well formed. |
| Boards.Board.PositionsByValue | src/game-machine.ts:174-180 | A key is in the result exactly when it is on the board with that colour. The result has each key once, in the record's key order. |
| Boards.SetCount | src/game-machine.ts:152 | Writing a colour to a board key lowers the count of the old colour by one and raises the count of the new colour by one. |
| Boards.PositionsPartition | src/game-machine.ts:174-180 | The black, white and empty key lists are pairwise disjoint. Together they cover every key, and their lengths add up to the number of keys. |
| Boards.StandardBoardCounts | src/game-machine.ts:8-34 | The 24-point default board is well formed, holds no black or white piece and has 24 empty points. |
| Positions.PrefixToTray | src/game-machine.ts:66-69 | A prefix names a tray exactly when it is "bt" (black) or "wt" (white). |
| Positions.ParsePosition | src/game-machine.ts:83-104 | The result keeps the parsed key. A board result has a column in -1..25 and a row of at least -1. |
| Positions.ParseSplit | src/game-machine.ts:83-104 | A digit-free prefix followed by digits is split at the first digit. "bt"/"wt" give that tray with the suffix's value as index and no decrement. Any other prefix gives its alphabet index as column and the suffix's value minus one as row. |
| Positions.ParseTrayKey | src/game-machine.ts:86-97 | The key `${prefix}${i}` rendered for tray slot i parses to that tray and index i. |
| Positions.TrayKeyRoundTrip | src/game-machine.ts:86-97 | Printing a parsed tray key's index again gives back the key, for canonical digits. |
| Positions.ParseBoardKey | src/game-machine.ts:99-103 | A lower-case letter followed by the numeral n is a board key in column letter−'a' and row n−1. |
| Positions.ParseTwoCharKey | src/game-machine.ts:99-103 | A letter followed by a digit 1-9 is a board key in column letter−'a' and row digit−1. |
| Positions.StandardKeysAreBoardKeys | src/game-machine.ts:8-34 | Every one of the 24 default keys is a board key in columns 0-6 and rows 0-6. |
| Contexts.DefaultGameContext | src/game-machine.ts:8-37 | The default context lists the 24 standard points in their declared order, all empty, and each tray holds nine pieces of its own colour. |
| Contexts.GetColor | src/game-machine.ts:112-126 | A tray key reads the entry of the tray and index it names. A board key reads its own cell. |
| Contexts.FullTray | src/game-machine.ts:35-36 | A default tray has nine slots, each holding the tray's own colour. |
| Contexts.SetPosition | src/game-machine.ts:128-154 | The copy keeps a well-formed board and both tray lengths. It gains a board key only when the key addresses the board and was missing. |
| Contexts.SetPositionReads | src/game-machine.ts:112-154 | Reading the written key with `getColor` gives the written colour. Every slot the key does not address reads as before. |
| Contexts.PlacePiece | src/game-machine.ts:156-168 | The result keeps a well-formed board and both tray lengths. Board keys are unchanged unless `to` is a new board key, which is appended. |
| Contexts.PlacePieceReads | src/game-machine.ts:156-168 | Afterwards `from` reads Empty, and `to` reads the colour `from` held (Empty when both address one slot). Every other slot reads as before. |
| Contexts.ArePlaceablePiecesInTrays | src/game-machine.ts:170-172 | True exactly when the black tray holds a black piece or the white tray a white one. |
| Contexts.SetPositionCount | src/game-machine.ts:128-154 | Writing through a key moves one unit of count from the slot's old colour to the new colour, over board and trays together. |
| Contexts.PlacePieceCount | src/game-machine.ts:156-168 | A player colour's total count drops by one when `to` held it, and is otherwise kept. |
| Contexts.PlacePieceOntoEmptyKeepsCounts | src/game-machine.ts:156-168 | Moving onto a different slot that was empty keeps both players' totals. |
| Contexts.DefaultGameContextCounts | src/game-machine.ts:8-37 | The default context holds nine pieces of each player colour and 24 empty board points. |
| Contexts.DefaultGameContextPlaceable | src/game-machine.ts:170-172 | The default context has a piece left to place. |
| Mills.Group | src/game-machine.ts:48-58 | A group holds only keys of the list that are on the given column or row, and is no longer than the list. |
| Mills.GroupPositions | src/game-machine.ts:48-58 | After the loop, `byCols` and `byRows` hold, for each column or row some key has, exactly the keys on it in order, and nothing else. |
| Mills.GroupsHaveThree | src/game-machine.ts:60-63 | Some value of the map has three or more keys exactly when some key's group does. |
| Mills.AreThreeInARow | src/game-machine.ts:39-64 | The loop-and-`some` computation answers exactly the grouping predicate `ThreeInARow`. |
| Mills.FewerThanThreeIsNoMill | src/game-machine.ts:39-64 | A colour with fewer than three board keys has no three in a row. |
| Mills.ThreeOnOneAxisIsMill | src/game-machine.ts:39-64 | Three different keys of one colour on one column, or one row, are three in a row. |
| Mills.SetThreeOnOneAxis | src/game-machine.ts:39-64 | Writing one colour to three different keys of one column, or one row, gives that colour three in a row on any well-formed board of board keys. |
| Mills.DefaultHasNoMill | src/game-machine.ts:39-64 | Neither colour has three in a row on the default board. |
| Mills.SharedColumnCountsAsMill | src/game-machine.ts:48-63 | On any well-formed board of board keys, black at d1, d2 and d5 counts as three in a row, although those points share no mill line. |
| GameMachine.EmptyContext | src/game-machine.ts:192-196 | The context the machine is declared with is well formed and has no board keys. |
| GameMachine.InitialState | src/game-machine.ts:191-196 | The initial state satisfies the machine invariant. |
| GameMachine.CurrentPlayer | src/game-machine.ts:206-258 | `currentPlayer` is defined exactly in the turn and placed phases, and is that phase's player. |
| GameMachine.CanMoveTray | src/game-machine.ts:210-241 | The meta flag `canMoveBlackTray` / `canMoveWhiteTray` holds for a side exactly in that side's phase-1 turn state, the only states whose meta sets it. |
| GameMachine.CanMoveTrayTurn | src/game-machine.ts:206-242 | A tray can be moved only by the player whose phase-1 turn it is. That phase is not final and a tray still holds a piece. The two players never both may move. |
| GameMachine.PlaceLocksTray | src/game-machine.ts:206-258 | After a player places a piece, the machine rests in a state where that player may not move a tray piece. |
| GameMachine.Transition | src/game-machine.ts:197-242 | Only NEW_GAME from start and PLACE in a turn are handled. NEW_GAME gives Black's turn with the default context. PLACE applies `placePiece` and enters the mover's placed phase, and nothing else enters one. A final phase ignores every event. |
| GameMachine.Settle | src/game-machine.ts:215-258 | Resolving the `always` guards keeps the context and never rests in a placed phase. |
| GameMachine.Step | src/game-machine.ts:197-287 | One event followed by the `always` transitions stays within the invariant. |
| GameMachine.StepInvariant | src/game-machine.ts:197-287 | Every handled event and every ignored one ends in a state of the invariant. |
| GameMachine.StepNewGame | src/game-machine.ts:198-205 | NEW_GAME from start gives Black's phase-1 turn with the default context. |
| GameMachine.StepPlaceIsSettle | src/game-machine.ts:206-230 | PLACE in a turn is `placePiece` followed by that player's placed-phase guards. |
| GameMachine.SettlePlaced | src/game-machine.ts:215-285 | In a placed phase, the guards are tried in order. The result is capture exactly when the mover has three in a row. It is the opponent's phase 2 exactly when there is no mill and no placeable tray piece. Otherwise it is the opponent's phase-1 turn. |
| GameMachine.StepPlace | src/game-machine.ts:206-285 | A PLACE moves the piece, then resolves by the three guard cases on the new context. |
| GameMachine.StepIgnored | src/game-machine.ts:197-268 | Each unhandled event (NEW_GAME after start, PLACE outside a turn, anything in a final phase) leaves phase and context unchanged. |
| GameMachine.TurnPasses | src/game-machine.ts:206-258 | After a placement the game is in a final phase, or the current player is the opponent. |
| GameMachine.Run | src/game-machine.ts:188-287 | Any run of events keeps the invariant. |
| GameMachine.FinalIsAbsorbing | src/game-machine.ts:231-267 | From a final phase every sequence of events is accepted and changes nothing. |
| GameMachine.RunAppend | src/game-machine.ts:188-287 | Running two event sequences one after the other is running their concatenation. |
| RootApp.AppSlotOf | App.tsx:284-295 | A key addresses a tray exactly when it starts with "bt" or "wt". The tray is black exactly for "bt". Any other key addresses its own board cell. |
| RootApp.GameState.GetPositionColor | App.tsx:284-295 | A key starting with "bt" reads the black tray at the key's digits, and one starting with "wt" the white tray. Any other key reads its own board cell. |
| RootApp.GameState.constructor | App.tsx:32-61 | The default game state is the 24-point empty board and two trays of nine pieces of their own colour. |
| RootApp.GameState.SetPosition | App.tsx:297-315 | Only the addressed tray entry or board cell is assigned: the new board is the old one with that slot written, and is unchanged for a tray key. Reading the key back gives the colour, and every other slot reads as before. Each colour's count moves by what left the slot and what came. |
| RootApp.GameState.MovePiece | App.tsx:120-131 | The draft update writes `from`'s colour to `to` and then Empty to `from`: the new board is exactly those two slot writes applied to the old one. `from` reads Empty, and `to` reads `from`'s former colour (Empty when both address one slot). The board gains `to` as its last key exactly when `to` is a board key it lacked. Other slots are kept, and only a piece overwritten at `to` is lost from the counts. |
| RootApp.GameState.HandlePieceRelease | App.tsx:117-133 | The drag is cancelled exactly when both keys are non-empty; otherwise nothing changes. On cancel the state is what `MovePiece` leaves, with the same board, reads and counts; the update is applied at once, not deferred to the next render. |
| RootApp.TwoWritesKeepCells | App.tsx:120-131 | Two slot writes leave every board cell outside the two written slots in the record, with its old value, whatever its key (a "bt"/"wt" key included). |
| RootApp.TrayKeySlot | App.tsx:284-315 | The tray key `${prefix}${i}` addresses slot i of that tray, here and in the machine's `parsePosition`. |
| RootApp.SlotsAgree | App.tsx:284-315 | For every prefix the model parses (not an `Object.prototype` name): on keys with prefix exactly "bt"/"wt", or starting with neither, both parsers address the same slot. |
| RootApp.LongTrayPrefixDisagrees | App.tsx:288-293 | A key such as "btx1" is a black tray slot here but a board cell for the machine's `parsePosition`. |
| Queryer.LogicalRow | BoardQueryer.ts:101-104 | The logical row of a key is its second character's digit minus one, so it lies in -1..8. |
| Queryer.PositionToLogicalXy | BoardQueryer.ts:101-104 | x is the first character's alphabet index (-1 if it is not a lower-case letter), and y is the key's logical row. |
| Queryer.BoardQueryer.constructor | BoardQueryer.ts:18-30 | The queryer holds the given board record and has no cached row count. |
| Queryer.BoardQueryer.AllPositions | BoardQueryer.ts:32-34 | Every key of the record, each once. |
| Queryer.BoardQueryer.GetPositionByValue | BoardQueryer.ts:90-94 | Exactly the keys holding the value, each once, as a subsequence of `allPositions`. |
| Queryer.BoardQueryer.BlackPositions | BoardQueryer.ts:36-38 | Exactly the keys holding Black. |
| Queryer.BoardQueryer.WhitePositions | BoardQueryer.ts:44-46 | Exactly the keys holding White. |
| Queryer.BoardQueryer.EmptyPositions | BoardQueryer.ts:40-42 | Exactly the keys holding Empty. |
| Queryer.BoardQueryer.NumVerticalPositions | BoardQueryer.ts:58-64 | The answer is the number of distinct logical rows among all keys, and it is cached. A non-zero cached value is returned as it is. |
| Queryer.PositionsSplit | BoardQueryer.ts:32-46 | The three colour getters are pairwise disjoint. Together they cover `allPositions` and their lengths add up to its length. |
| Queryer.LogicalXyAgreesWithParse | BoardQueryer.ts:101-104 | On a letter followed by a digit 1-9, the logical coordinates are the column and row `parsePosition` gives. |
| Queryer.LogicalXyReadsTwoCharacters | BoardQueryer.ts:101-104 | Only two characters are read: "d10" is at logical (3, 0), while `parsePosition` puts it on row 9. |
| Queryer.StandardRows | BoardQueryer.ts:58-64 | The 24-point board has seven distinct logical rows. |

## Left out

- Rendering, layout and gestures are not modelled: the React components, `pieces.tsx`, and `setPlaceholderState` in `handlePieceRelease`. They are UI, not rules.
- The floating-point geometry of `BoardQueryer.ts` is not modelled: `nearestEmpty`, `xyForPosition`, its `_xyCache`, and `pageXyForPosition`. For this reason the constructor's `boardPosition` and `boardSize` are dropped too.
- The xstate runtime is not modelled. `Machine`, `assign`, `always` and `meta` become the `Step` function, and `flatten1Level(state.meta)` becomes `CurrentPlayer`. The `enumerateMoves` stub returns `[]` and is never called.
- Capture, moving, flying and winning are not modelled. The code stubs them as final states, and the model keeps them as such.
- JavaScript's `undefined` and `NaN` are not modelled. The model takes preconditions instead:
  - a read needs a slot that exists;
  - a tray write needs an index within the tray;
  - `positionToLogicalXy` needs a digit as second character.
  In the code, a read or write outside these would produce array holes, `undefined` colours, or `NaN` rows and columns.
- Keys of other shapes are not modelled. A machine key (`Positions.WellFormedKey`) is a non-empty, digit-free prefix, one or more digits, and nothing after them. The code also accepts:
  - a key with no digits, for which `parseInt` gives NaN;
  - a key with no prefix, such as "12", which parses to column 0 because `indexOf("")` is 0;
  - a key with characters after its digits, such as "d2x", which `parseInt` reads as row 1 by ignoring the rest;
  - a key whose prefix is a name every object inherits from `Object.prototype`, such as "constructor1" or "toString1".
- The `default: throw` branches of `getColor` and `setPosition` are not modelled. With an inherited prefix, `positionPrefixToTray[letters]` finds the inherited member, so `parsePosition` returns a tray position whose colour is that member, and the switch reaches `throw`. The model excludes those prefixes, so every tray colour it parses is Black or White.
- Array-index keys are not modelled. Object.entries lists integer-like keys (such as "12") first, in numeric order, not in insertion order, so `Boards.Board` holds no such key. A machine key always has a non-digit prefix, so it is never one (`Positions.WellFormedNotIndex`).
- RootApp.AppKeyOk: it excludes array-index keys, and "__proto__", which the root `App.tsx` would accept as board keys. A colour is a string, so the write to "__proto__" is silently ignored: no key is added, and reading it back gives `Object.prototype`, not a colour.
- `Step`: its precondition `EventOk` asks that a PLACE in a turn reads an existing slot and writes an assignable one. These are the slot preconditions above; the code checks nothing.
- `parseInt` precision is not modelled. Indices and rows are unbounded integers, so digit strings beyond 2^53 are not rounded as in JavaScript.
- Characters outside the Basic Multilingual Plane are not modelled. Model strings are sequences of Unicode scalar values. The destructuring in `positionToLogicalXy` iterates by code point, and so reads the same first two characters. `match`, `substring` and `.length` in `parsePosition` count UTF-16 code units, which agree with code points only inside that plane.
- The `CANCEL` symbol that `handlePieceRelease` returns is not modelled as a symbol. It is the boolean result `cancel`, and `undefined` is `false`.
- RootApp.GameState.HandlePieceRelease: the deferral of `updateGameState` is abstracted to an immediate in-place update. use-immer's updater is queued by React and applied at the next render, to the state current then, and `CANCEL` is returned before the writes happen; the model performs the two writes inside the handler, on the state it is called with.
- Immer's `produce` is not modelled by its internals. In `src/game-machine.ts` it is a function returning the modified copy. In the root `App.tsx` the draft is the mutable `GameState` object itself, so the methods assign it in place.
