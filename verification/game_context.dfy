/**
 * The shared game state and its reducer (src/contexts/GameContext.tsx).
 * Every transition is a pure function of the state and one action; `Run` applies
 * a queue of dispatched actions in order, as React's `useReducer` does.
 */
module GameContext {
  import opened Wrappers

  datatype Color = Red | Blue | Green | Yellow | Purple | Orange

  datatype Player = Player(id: string, name: string, color: Color, position: int)

  datatype Category = Normal | Praise | Heart

  datatype Question = Question(id: string, text: string, category: Category)

  datatype Phase = Setup | Playing | Ended

  /**
   * `currentPlayerIndex` is a JavaScript number. Starting from 0 it only changes through
   * `(i + 1) % players.length`, so the one non-integer it can become is NaN (from `% 0`).
   */
  datatype TurnIndex = Slot(i: int) | NaN

  datatype GameState = GameState(
    players: seq<Player>,
    currentPlayerIndex: TurnIndex,
    gamePhase: Phase,
    winner: Option<Player>,
    lastDiceRoll: Option<int>,
    diceRolls: Option<(int, int)>,
    isDouble: bool,
    currentQuestion: Option<Question>,
    isMoving: bool,
    previousPosition: Option<int>)

  /** The twelve action kinds the reducer handles. */
  datatype Action =
    | SetPlayers(players: seq<Player>)
    | StartGame
    | RollDice(diceRolls: (int, int), isDouble: bool)
    | MovePlayer(playerId: string, newPosition: int)
    | SetQuestion(question: Question)
    | SetPreviousPosition(playerId: string, position: int)
    | MissionSuccess
    | MissionFail(playerId: string)
    | NextTurn
    | EndGame(winner: Player)
    | SetMoving(isMoving: bool)
    | ResetGame

  const InitialState: GameState :=
    GameState([], Slot(0), Setup, None, None, None, false, None, false, None)

  /** JavaScript's `a % n` for a positive divisor: the remainder takes the sign of `a`. */
  function JsRem(a: int, n: int): (r: int)
    requires n > 0
    ensures 0 <= a ==> 0 <= r < n && a == (a / n) * n + r
    ensures a < 0 ==> -n < r <= 0 && a == -((-a) / n) * n + r
  {
    if a >= 0 then a % n else -((-a) % n)
  }

  /** Two rosters that differ at most in positions: same seats, ids, names and colours. */
  ghost predicate SameSeats(a: seq<Player>, b: seq<Player>) {
    && |a| == |b|
    && forall k :: 0 <= k < |a| ==>
         a[k].id == b[k].id && a[k].name == b[k].name && a[k].color == b[k].color
  }

  ghost predicate UniqueIds(players: seq<Player>) {
    forall j, k :: 0 <= j < k < |players| ==> players[j].id != players[k].id
  }

  /** The `players.map` of MOVE_PLAYER: every player whose id is `id` is placed on `pos`. */
  function MoveById(players: seq<Player>, id: string, pos: int): (r: seq<Player>)
    ensures SameSeats(players, r)
    ensures forall k :: 0 <= k < |r| && players[k].id == id ==> r[k].position == pos
    ensures forall k :: 0 <= k < |r| && players[k].id != id ==> r[k] == players[k]
    ensures (forall k :: 0 <= k < |players| ==> players[k].id != id) ==> r == players
  {
    seq(|players|, k requires 0 <= k < |players| =>
      if players[k].id == id then players[k].(position := pos) else players[k])
  }

  /**
   * The index after NEXT_TURN when no double was rolled: `(i + 1) % count`, which is
   * NaN when `count` is 0 and stays NaN once it is.
   */
  function Advance(idx: TurnIndex, count: nat): (r: TurnIndex)
    ensures count == 0 || idx.NaN? <==> r.NaN?
    ensures idx.Slot? && -1 <= idx.i && count > 0 ==> r.Slot? && 0 <= r.i < count
  {
    match idx
    case NaN => NaN
    case Slot(i) => if count == 0 then NaN else Slot(JsRem(i + 1, count))
  }

  /** From a seat, the next index is the following seat, wrapping from the last seat to the first. */
  lemma AdvanceCycles(i: int, count: nat)
    requires 0 <= i < count
    ensures Advance(Slot(i), count) == Slot(if i == count - 1 then 0 else i + 1)
  {
  }

  function Reduce(s: GameState, a: Action): GameState {
    match a
    case SetPlayers(ps) => s.(players := ps)
    case StartGame => s.(gamePhase := Playing)
    case RollDice(pair, dbl) =>
      s.(diceRolls := Some(pair), isDouble := dbl, lastDiceRoll := Some(pair.0 + pair.1))
    case MovePlayer(id, pos) => s.(players := MoveById(s.players, id, pos))
    case SetQuestion(q) => s.(currentQuestion := Some(q))
    case SetPreviousPosition(_, pos) => s.(previousPosition := Some(pos))
    case MissionSuccess => s.(currentQuestion := None, previousPosition := None)
    case MissionFail(id) =>
      s.(players := if s.previousPosition.Some? then MoveById(s.players, id, s.previousPosition.value)
                    else s.players,
         currentQuestion := None,
         previousPosition := None)
    case NextTurn =>
      s.(currentPlayerIndex := if s.isDouble then s.currentPlayerIndex
                               else Advance(s.currentPlayerIndex, |s.players|),
         lastDiceRoll := None,
         diceRolls := None,
         isDouble := false,
         currentQuestion := None,
         previousPosition := None)
    case EndGame(w) => s.(gamePhase := Ended, winner := Some(w))
    case SetMoving(b) => s.(isMoving := b)
    case ResetGame => InitialState
  }

  /** Applies the dispatched actions one after another. */
  function Run(s: GameState, acts: seq<Action>): GameState
    decreases |acts|
  {
    if |acts| == 0 then s else Run(Reduce(s, acts[0]), acts[1..])
  }

  lemma RunCons(s: GameState, a: Action, rest: seq<Action>)
    ensures Run(s, [a] + rest) == Run(Reduce(s, a), rest)
  {
    assert ([a] + rest)[1..] == rest;
  }

  /** The turn index names an existing seat. */
  ghost predicate TurnInRange(s: GameState) {
    s.currentPlayerIndex.Slot? && 0 <= s.currentPlayerIndex.i < |s.players|
  }

  /**
   * `getCurrentPlayer`: none on an empty roster; otherwise the player at the turn index,
   * or none when the index does not name a seat.
   */
  function GetCurrentPlayer(s: GameState): (r: Option<Player>)
    ensures |s.players| == 0 ==> r == None
    ensures r.Some? <==> TurnInRange(s)
    ensures r.Some? ==> r.value == s.players[s.currentPlayerIndex.i]
  {
    if |s.players| == 0 then None
    else match s.currentPlayerIndex
      case NaN => None
      case Slot(i) => if 0 <= i < |s.players| then Some(s.players[i]) else None
  }

  // ----- Properties of single transitions -----

  /** NEXT_TURN keeps the turn on a double and otherwise passes it to the next seat, wrapping around. */
  lemma NextTurnRotation(s: GameState)
    requires TurnInRange(s)
    ensures var r := Reduce(s, NextTurn);
      && TurnInRange(r)
      && (s.isDouble ==> r.currentPlayerIndex == s.currentPlayerIndex)
      && (!s.isDouble ==>
            r.currentPlayerIndex.i
              == if s.currentPlayerIndex.i + 1 == |s.players| then 0 else s.currentPlayerIndex.i + 1)
  {
  }

  /** NEXT_TURN on an empty roster without a double leaves the index NaN, so no one has the turn. */
  lemma NextTurnOnEmptyRoster(s: GameState)
    requires |s.players| == 0 && !s.isDouble
    ensures Reduce(s, NextTurn).currentPlayerIndex == NaN
    ensures GetCurrentPlayer(Reduce(s, NextTurn)) == None
  {
  }

  /** A fresh turn starts with no roll, no question and no rollback target; the roster is untouched. */
  lemma NextTurnClears(s: GameState)
    ensures var r := Reduce(s, NextTurn);
      && r.lastDiceRoll == None && r.diceRolls == None && !r.isDouble
      && r.currentQuestion == None && r.previousPosition == None
      && r.players == s.players && r.gamePhase == s.gamePhase && r.winner == s.winner
      && r.(currentPlayerIndex := s.currentPlayerIndex, lastDiceRoll := s.lastDiceRoll,
            diceRolls := s.diceRolls, isDouble := s.isDouble,
            currentQuestion := s.currentQuestion, previousPosition := s.previousPosition) == s
  {
  }

  /** ROLL_DICE records the pair, its sum and the supplied double flag, and moves no one. */
  lemma RollDiceRecords(s: GameState, d1: int, d2: int, dbl: bool)
    ensures var r := Reduce(s, RollDice((d1, d2), dbl));
      && r.lastDiceRoll == Some(d1 + d2) && r.diceRolls == Some((d1, d2)) && r.isDouble == dbl
      && r.players == s.players && r.currentPlayerIndex == s.currentPlayerIndex
      && r.(lastDiceRoll := s.lastDiceRoll, diceRolls := s.diceRolls, isDouble := s.isDouble) == s
  {
  }

  /** The double flag is taken as given: ROLL_DICE with any equal pair can still record "no double". */
  lemma RollDiceDoesNotComputeDouble(s: GameState)
    ensures forall d :: !Reduce(s, RollDice((d, d), false)).isDouble
  {
  }

  /** MOVE_PLAYER changes only positions, only of matching players; an unknown id changes nothing. */
  lemma MovePlayerFrame(s: GameState, id: string, pos: int)
    ensures var r := Reduce(s, MovePlayer(id, pos));
      && SameSeats(s.players, r.players)
      && (forall k :: 0 <= k < |r.players| ==>
            r.players[k].position == if s.players[k].id == id then pos else s.players[k].position)
      && r.(players := s.players) == s
    ensures (forall k :: 0 <= k < |s.players| ==> s.players[k].id != id) ==>
              Reduce(s, MovePlayer(id, pos)) == s
  {
  }

  /** MISSION_FAIL puts the named player back on the snapshot, or moves no one without one. */
  lemma MissionFailRollsBack(s: GameState, id: string)
    ensures var r := Reduce(s, MissionFail(id));
      && r.currentQuestion == None && r.previousPosition == None
      && SameSeats(s.players, r.players)
      && (s.previousPosition.None? ==> r.players == s.players)
      && (s.previousPosition.Some? ==> forall k :: 0 <= k < |r.players| ==>
            r.players[k].position
              == if s.players[k].id == id then s.previousPosition.value else s.players[k].position)
      && r.(players := s.players, currentQuestion := s.currentQuestion,
            previousPosition := s.previousPosition) == s
  {
  }

  /** MISSION_SUCCESS keeps every player where they are and clears the pending decision. */
  lemma MissionSuccessKeepsPlayers(s: GameState)
    ensures var r := Reduce(s, MissionSuccess);
      && r.players == s.players && r.currentQuestion == None && r.previousPosition == None
      && r.(currentQuestion := s.currentQuestion, previousPosition := s.previousPosition) == s
  {
  }

  /** END_GAME ends the game with the given winner; RESET_GAME returns the initial state from anywhere. */
  lemma EndAndReset(s: GameState, w: Player)
    ensures var r := Reduce(s, EndGame(w));
      && r.gamePhase == Ended && r.winner == Some(w)
      && r.(gamePhase := s.gamePhase, winner := s.winner) == s
    ensures Reduce(s, ResetGame) == InitialState
  {
  }

  /** The reducer lets the phase leave `Ended` through START_GAME as well as RESET_GAME. */
  lemma LeavingEnded(s: GameState, a: Action)
    requires s.gamePhase == Ended
    ensures Reduce(s, a).gamePhase != Ended <==> a.StartGame? || a.ResetGame?
  {
  }

  /** Every action but RESET_GAME and a roster-shrinking SET_PLAYERS keeps the turn on a seat. */
  lemma TurnStaysInRange(s: GameState, a: Action)
    requires TurnInRange(s)
    requires !a.ResetGame?
    requires a.SetPlayers? ==> s.currentPlayerIndex.i < |a.players|
    ensures TurnInRange(Reduce(s, a))
  {
  }
}
