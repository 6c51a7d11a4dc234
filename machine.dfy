/** The `morris9` state machine of `src/game-machine.ts` (lines 188-290). A state is a
    phase and a game context; an event either starts a game or places a piece. An
    event a phase has no handler for leaves the state as it is, as xstate does. The
    "placed" phases carry `always` transitions, which xstate takes before the state is
    observed, so `Step` is the event's transition followed by those guards. */
module GameMachine {
  import opened Boards
  import opened Positions
  import opened Contexts
  import opened Mills

  /** The machine's state nodes, grouped by the player they belong to. */
  datatype Phase =
    | Start
    | Phase1Turn(player: Side)
    | Phase1TurnPlaced(player: Side)
    | Phase1CapturePiece(player: Side)
    | Phase2Turn(player: Side)

  /** NEW_GAME, and PLACE with its `from` and `to` keys. */
  datatype Event = NewGame | Place(from: string, to: string)

  datatype State = State(phase: Phase, context: GameContext)

  /** The context the machine is declared with: an empty board and empty trays. */
  function EmptyContext(): (ctx: GameContext)
    ensures ContextOk(ctx) && ctx.board.keys == []
  {
    GameContext(Board([], map[]), [], [])
  }

  function InitialState(): (s: State)
    ensures Invariant(s)
  {
    State(Start, EmptyContext())
  }

  /** `type: 'final'`: the capture phases and both phase-2 turns. */
  predicate IsFinal(phase: Phase) {
    phase.Phase1CapturePiece? || phase.Phase2Turn?
  }

  /** `currentPlayer` of the state's meta (what `flatten1Level(state.meta)` yields):
      declared on the turn and placed phases only. */
  function CurrentPlayer(phase: Phase): (p: Option<Side>)
    ensures p.Some? <==> phase.Phase1Turn? || phase.Phase1TurnPlaced?
    ensures p.Some? ==> p.value == phase.player
  {
    match phase
    case Phase1Turn(player) => Some(player)
    case Phase1TurnPlaced(player) => Some(player)
    case _ => None
  }

  /** `canMoveBlackTray` / `canMoveWhiteTray` of the state's meta. */
  function CanMoveTray(phase: Phase, side: Side): (r: bool)
    ensures r <==> phase == Phase1Turn(side)
  {
    phase.Phase1Turn? && phase.player == side
  }

  /** A tray can be moved only by the player whose phase-1 turn it is, in a phase that
      is not final and with a piece of that player's colour, or the other, still in its
      tray; never by both players at once. */
  lemma CanMoveTrayTurn(s: State, side: Side)
    requires Invariant(s)
    ensures CanMoveTray(s.phase, side) ==>
              CurrentPlayer(s.phase) == Some(side) && !IsFinal(s.phase) && ArePlaceablePiecesInTrays(s.context)
    ensures !(CanMoveTray(s.phase, Black) && CanMoveTray(s.phase, White))
  {
  }

  /** What an event needs to be modelled: a PLACE handled by a turn phase must name a
      readable `from` and an assignable `to`. */
  predicate EventOk(s: State, e: Event) {
    e.Place? && s.phase.Phase1Turn? ==> PlaceOk(s.context, e.from, e.to)
  }

  /** The `on` handlers: NEW_GAME from `start` runs `initializeGame` and gives Black the
      turn; PLACE in a turn runs `placePiece` and enters that player's placed phase. No
      other phase handles an event, so a final phase ignores every one. */
  function Transition(s: State, e: Event): (t: State)
    requires EventOk(s, e)
    ensures (s.phase.Start? && e.NewGame?) || (s.phase.Phase1Turn? && e.Place?) || t == s
    ensures s.phase.Start? && e.NewGame? ==> t.phase == Phase1Turn(Black) && t.context == DefaultGameContext()
    ensures s.phase.Phase1Turn? && e.Place? ==>
              t.phase == Phase1TurnPlaced(s.phase.player) && t.context == PlacePiece(s.context, e.from, e.to)
    ensures !s.phase.Phase1TurnPlaced? ==> (t.phase.Phase1TurnPlaced? <==> s.phase.Phase1Turn? && e.Place?)
    ensures IsFinal(s.phase) ==> t == s
  {
    match (s.phase, e)
    case (Start, NewGame) => State(Phase1Turn(Black), DefaultGameContext())
    case (Phase1Turn(p), Place(from, to)) => State(Phase1TurnPlaced(p), PlacePiece(s.context, from, to))
    case _ => s
  }

  /** The `always` list of a placed phase, tried in order: a capture when the player
      whose turn it was has three in a row, else phase 2 for the opponent when no tray
      has a piece left, else the opponent's turn. Every other phase is left as it is. */
  function Settle(s: State): (t: State)
    requires ContextOk(s.context)
    ensures t.context == s.context
    ensures !t.phase.Phase1TurnPlaced?
  {
    match s.phase
    case Phase1TurnPlaced(p) =>
      if ThreeInARow(s.context, p) then State(Phase1CapturePiece(p), s.context)
      else if !ArePlaceablePiecesInTrays(s.context) then State(Phase2Turn(Opponent(p)), s.context)
      else State(Phase1Turn(Opponent(p)), s.context)
    case _ => s
  }

  /** What holds in every state the machine comes to rest in. The context is well
      formed and rests in no placed phase; before a game it is the declared one, and
      during a game the trays hold nine slots and neither colour has more than nine
      pieces. A capture phase's player has three in a row, a phase-2 turn comes with
      empty trays and a phase-1 turn with a piece left in some tray. */
  ghost predicate Invariant(s: State) {
    ContextOk(s.context) &&
    !s.phase.Phase1TurnPlaced? &&
    (s.phase.Start? ==> s.context == EmptyContext()) &&
    (!s.phase.Start? ==> InPlay(s.context)) &&
    (s.phase.Phase1CapturePiece? ==> ThreeInARow(s.context, s.phase.player)) &&
    (s.phase.Phase2Turn? ==> !ArePlaceablePiecesInTrays(s.context)) &&
    (s.phase.Phase1Turn? ==> ArePlaceablePiecesInTrays(s.context))
  }

  /** `placePiece` keeps a context well formed: it writes the board only through
      board keys. */
  lemma PlacePieceContextOk(ctx: GameContext, from: string, to: string)
    requires ContextOk(ctx) && PlaceOk(ctx, from, to)
    ensures ContextOk(PlacePiece(ctx, from, to))
  {
    var added := SetPosition(ctx, to, GetColor(ctx, from));
    assert ContextOk(added);
  }

  /** What a game context keeps through a turn: well formed, trays of nine, at most
      nine pieces of each colour. */
  ghost predicate InPlay(ctx: GameContext) {
    ContextOk(ctx) &&
    |ctx.blackTray| == 9 && |ctx.whiteTray| == 9 &&
    Count(ctx, Black) <= 9 && Count(ctx, White) <= 9
  }

  lemma PlacePieceInPlay(ctx: GameContext, from: string, to: string)
    requires InPlay(ctx) && PlaceOk(ctx, from, to)
    ensures InPlay(PlacePiece(ctx, from, to))
  {
    PlacePieceContextOk(ctx, from, to);
    PlacePieceCount(ctx, from, to, Black);
    PlacePieceCount(ctx, from, to, White);
  }

  lemma DefaultInPlay()
    ensures InPlay(DefaultGameContext()) && ArePlaceablePiecesInTrays(DefaultGameContext())
  {
    DefaultGameContextCounts(Black);
    DefaultGameContextCounts(White);
    DefaultGameContextPlaceable();
    StandardKeysAreBoardKeys();
  }

  /** Resolving a placed phase over a context in play reaches a state of the invariant. */
  lemma SettleInvariant(ctx: GameContext, p: Side)
    requires InPlay(ctx)
    ensures Invariant(Settle(State(Phase1TurnPlaced(p), ctx)))
  {
  }

  /** One event, then the `always` transitions: the state the machine rests in. */
  function Step(s: State, e: Event): (t: State)
    requires Invariant(s) && EventOk(s, e)
    ensures Invariant(t)
  {
    StepInvariant(s, e);
    Settle(Transition(s, e))
  }

  /** Every handled event, and every ignored one, ends in a state of the invariant. */
  lemma StepInvariant(s: State, e: Event)
    requires Invariant(s) && EventOk(s, e)
    ensures ContextOk(Transition(s, e).context) && Invariant(Settle(Transition(s, e)))
  {
    if s.phase.Phase1Turn? && e.Place? {
      PlaceInvariant(s, e.from, e.to);
    } else if s.phase.Start? && e.NewGame? {
      DefaultInPlay();
    }
  }

  /** The PLACE case of `StepInvariant`. */
  lemma PlaceInvariant(s: State, from: string, to: string)
    requires Invariant(s) && s.phase.Phase1Turn? && PlaceOk(s.context, from, to)
    ensures ContextOk(PlacePiece(s.context, from, to))
    ensures Invariant(Settle(State(Phase1TurnPlaced(s.phase.player), PlacePiece(s.context, from, to))))
  {
    PlacePieceInPlay(s.context, from, to);
    SettleInvariant(PlacePiece(s.context, from, to), s.phase.player);
  }

  /** NEW_GAME from the start loads the default context and gives Black the first turn. */
  lemma StepNewGame()
    ensures Step(InitialState(), NewGame) == State(Phase1Turn(Black), DefaultGameContext())
  {
  }

  /** A PLACE in a turn is `placePiece` followed by the placed phase's guards. */
  lemma StepPlaceIsSettle(s: State, from: string, to: string)
    requires Invariant(s) && s.phase.Phase1Turn? && PlaceOk(s.context, from, to)
    ensures ContextOk(PlacePiece(s.context, from, to))
    ensures Step(s, Place(from, to)) ==
            Settle(State(Phase1TurnPlaced(s.phase.player), PlacePiece(s.context, from, to)))
  {
    PlacePieceContextOk(s.context, from, to);
  }

  /** The guards of a placed phase, in order: a capture exactly when the mover has three
      in a row, phase 2 for the opponent exactly when there is no mill and the trays are
      empty, and otherwise the opponent's phase-1 turn. */
  lemma SettlePlaced(ctx: GameContext, p: Side)
    requires ContextOk(ctx)
    ensures var t := Settle(State(Phase1TurnPlaced(p), ctx));
            (t.phase == Phase1CapturePiece(p) <==> ThreeInARow(ctx, p)) &&
            (t.phase == Phase2Turn(Opponent(p)) <==>
               !ThreeInARow(ctx, p) && !ArePlaceablePiecesInTrays(ctx)) &&
            (t.phase == Phase1Turn(Opponent(p)) <==>
               !ThreeInARow(ctx, p) && ArePlaceablePiecesInTrays(ctx))
  {
  }

  /** A PLACE in a player's turn moves the piece and then resolves the placed phase by
      `SettlePlaced`'s three cases. */
  lemma StepPlace(s: State, from: string, to: string)
    requires Invariant(s) && s.phase.Phase1Turn? && PlaceOk(s.context, from, to)
    ensures var t := Step(s, Place(from, to));
            var p := s.phase.player;
            t.context == PlacePiece(s.context, from, to) &&
            (t.phase == Phase1CapturePiece(p) <==> ThreeInARow(t.context, p)) &&
            (t.phase == Phase2Turn(Opponent(p)) <==>
               !ThreeInARow(t.context, p) && !ArePlaceablePiecesInTrays(t.context)) &&
            (t.phase == Phase1Turn(Opponent(p)) <==>
               !ThreeInARow(t.context, p) && ArePlaceablePiecesInTrays(t.context))
  {
    StepPlaceIsSettle(s, from, to);
    SettlePlaced(PlacePiece(s.context, from, to), s.phase.player);
  }

  /** Every event a phase has no handler for leaves the state unchanged: NEW_GAME once a
      game is under way, PLACE before one, and everything in a final phase. */
  lemma StepIgnored(s: State, e: Event)
    requires Invariant(s) && EventOk(s, e)
    requires !(s.phase.Start? && e.NewGame?) && !(s.phase.Phase1Turn? && e.Place?)
    ensures Step(s, e) == s
  {
  }

  /** Whoever's turn it is after a placement, it is not the mover's: the turn passes to
      the opponent, or the game has reached a final phase. */
  lemma TurnPasses(s: State, from: string, to: string)
    requires Invariant(s) && s.phase.Phase1Turn? && PlaceOk(s.context, from, to)
    ensures var t := Step(s, Place(from, to));
            IsFinal(t.phase) || CurrentPlayer(t.phase) == Some(Opponent(s.phase.player))
  {
    StepPlace(s, from, to);
  }

  /** Once a player has placed a piece their tray is locked: the state the machine
      rests in lets them move no tray piece. */
  lemma PlaceLocksTray(s: State, from: string, to: string)
    requires Invariant(s) && s.phase.Phase1Turn? && PlaceOk(s.context, from, to)
    ensures !CanMoveTray(Step(s, Place(from, to)).phase, s.phase.player)
  {
    StepPlace(s, from, to);
  }

  /** A sequence of events the machine can take one by one from `s`. */
  ghost predicate RunOk(s: State, events: seq<Event>)
    requires Invariant(s)
    decreases |events|
  {
    events == [] || (EventOk(s, events[0]) && RunOk(Step(s, events[0]), events[1..]))
  }

  /** The state reached after every event of `events`, in order. */
  function Run(s: State, events: seq<Event>): (t: State)
    requires Invariant(s) && RunOk(s, events)
    ensures Invariant(t)
    decreases |events|
  {
    if events == [] then s else Run(Step(s, events[0]), events[1..])
  }

  /** A final phase is never left: every further event is ignored. */
  lemma {:induction false} FinalIsAbsorbing(s: State, events: seq<Event>)
    requires Invariant(s) && IsFinal(s.phase)
    ensures RunOk(s, events) && Run(s, events) == s
    decreases |events|
  {
    if events != [] {
      StepIgnored(s, events[0]);
      FinalIsAbsorbing(s, events[1..]);
    }
  }

  /** A run splits at any point into the run of its first part followed by the rest. */
  lemma {:induction false} RunAppend(s: State, xs: seq<Event>, ys: seq<Event>)
    requires Invariant(s) && RunOk(s, xs) && RunOk(Run(s, xs), ys)
    ensures RunOk(s, xs + ys) && Run(s, xs + ys) == Run(Run(s, xs), ys)
    decreases |xs|
  {
    if xs != [] {
      AppendTail(xs, ys);
      RunAppend(Step(s, xs[0]), xs[1..], ys);
    } else {
      assert xs + ys == ys;
    }
  }

  /** The head and the tail of a concatenation whose first part is not empty. */
  lemma AppendTail(xs: seq<Event>, ys: seq<Event>)
    requires xs != []
    ensures (xs + ys)[0] == xs[0] && (xs + ys)[1..] == xs[1..] + ys
  {
  }
}
