/**
 * The board screen's game logic (src/components/game/GameBoard.tsx): a 15-square ladder
 * board, square classification, the clamped move and the actions one roll dispatches.
 *
 * `rollDice` reads `Math.random` twice; here the die face (1..6) and the uniform sample
 * `u` in [0, 1) used to pick the question are parameters. Its two timer stages run as one
 * sequence of dispatched actions.
 */
module GameBoard {
  import opened Wrappers
  import opened GameContext
  import QuestionPool
  import Dice

  const BoardSize: int := 15
  const Finish: int := BoardSize - 1

  /** The board's rows, bottom to top; the last holds the finish square alone. */
  const LadderSteps: seq<seq<int>> := [[0, 1, 2, 3, 4], [5, 6, 7], [8, 9, 10, 11], [12, 13], [14]]

  const PraiseSquares: seq<int> := [2, 6, 10]
  const HeartSquares: seq<int> := [4, 8, 12]

  datatype SquareKind = PraiseSquare | HeartSquare | FinishSquare | NormalSquare

  function Flatten(steps: seq<seq<int>>): seq<int> {
    if |steps| == 0 then [] else steps[0] + Flatten(steps[1..])
  }

  /** Read bottom to top, the ladder lists every square 0..14 once, in order. */
  lemma LadderCoversBoard()
    ensures Flatten(LadderSteps) == seq(BoardSize, i => i)
  {
  }

  /** The row of the ladder that holds square `p`; no other row holds it. */
  function StepOf(p: int): (k: nat)
    requires 0 <= p < BoardSize
    ensures k < |LadderSteps| && p in LadderSteps[k]
    ensures forall j :: 0 <= j < |LadderSteps| && j != k ==> p !in LadderSteps[j]
  {
    if p < 5 then 0 else if p < 8 then 1 else if p < 12 then 2 else if p < 14 then 3 else 4
  }

  /** `getPositionType`. The praise and heart lists are checked before the finish square. */
  function PositionType(p: int): (k: SquareKind) {
    if p in PraiseSquares then PraiseSquare
    else if p in HeartSquares then HeartSquare
    else if p == Finish then FinishSquare
    else NormalSquare
  }

  /**
   * An arithmetic description of the board: praise squares are the inner squares that are
   * 2 mod 4, heart squares the inner squares that are 0 mod 4, and 14 is the finish.
   */
  lemma PositionTypeByArithmetic(p: int)
    ensures PositionType(p) == PraiseSquare <==> 0 < p < Finish && p % 4 == 2
    ensures PositionType(p) == HeartSquare <==> 0 < p < Finish && p % 4 == 0
    ensures PositionType(p) == FinishSquare <==> p == Finish
  {
  }

  /** The special squares are disjoint from each other and from the finish, and all on the board. */
  lemma SpecialSquaresDisjoint()
    ensures forall p :: p in PraiseSquares ==> p !in HeartSquares && 0 < p < Finish
    ensures forall p :: p in HeartSquares ==> 0 < p < Finish
  {
  }

  /** The category filter of the question draw: praise and heart squares, everything else normal. */
  function CategoryAt(p: int): (c: Category) {
    if p in PraiseSquares then Praise else if p in HeartSquares then Heart else Normal
  }

  /** Below the finish, the question category is the square's classification. */
  lemma CategoryMatchesSquare(p: int)
    requires p < Finish
    ensures PositionType(p) == PraiseSquare <==> CategoryAt(p) == Praise
    ensures PositionType(p) == HeartSquare <==> CategoryAt(p) == Heart
    ensures PositionType(p) == NormalSquare <==> CategoryAt(p) == Normal
  {
  }

  /** `Math.min(position + roll, BOARD_SIZE - 1)`. */
  function NewPosition(pos: int, roll: int): (r: int)
    ensures r <= Finish && r <= pos + roll
    ensures r == Finish || r == pos + roll
    ensures pos + roll >= Finish ==> r == Finish
    ensures 0 <= roll && pos <= Finish ==> pos <= r
    ensures 0 <= pos && 0 <= roll ==> 0 <= r
  {
    if pos + roll < Finish then pos + roll else Finish
  }

  /** `Math.floor(u * n)` for a sample `u` of `Math.random()`: an index into a list of length `n`. */
  function PickIndex(u: real, n: nat): (k: nat)
    requires 0.0 <= u < 1.0 && n > 0
    ensures k < n
  {
    var x := u * n as real;
    assert x < n as real by {
      assert (1.0 - u) * n as real > 0.0;
    }
    x.Floor
  }

  /** `Math.floor(Math.random() * 6) + 1`. */
  function DieFace(u: real): (face: int)
    requires 0.0 <= u < 1.0
    ensures 1 <= face <= 6
  {
    PickIndex(u, 6) + 1
  }

  /** The question drawn for landing square `p`: a member of that square's category. */
  function Draw(p: int, u: real): (q: Question)
    requires 0.0 <= u < 1.0
    ensures q in QuestionPool.Questions
    ensures q.category == CategoryAt(p)
  {
    QuestionPool.CategorySizes();
    var pool := QuestionPool.OfCategory(QuestionPool.Questions, CategoryAt(p));
    pool[PickIndex(u, |pool|)]
  }

  /**
   * The corrected ROLL_DICE action for a single die: the pair the reducer reads, with no
   * second die and no double. As written the board sends `{ value }` instead, which the
   * reducer cannot read (`RollAsWrittenThrows`); this is the payload the rest of the
   * model uses.
   */
  function RollAction(face: int): (a: Action)
    ensures a.RollDice? && a.diceRolls.0 + a.diceRolls.1 == face && !a.isDouble
  {
    RollDice((face, 0), false)
  }

  /** Whether the roll handler refuses to act. */
  predicate RollBlocked(s: GameState) {
    s.isMoving || GetCurrentPlayer(s).None?
  }

  /**
   * The actions `rollDice` dispatches, in order, with the corrected ROLL_DICE payload of
   * `RollAction`. As written, the first unblocked roll throws in the reducer, so this and
   * every whole-game lemma built on it describe the corrected board. The current player is
   * read once, before the roll, so END_GAME carries that pre-move record as the winner.
   */
  function RollDispatches(s: GameState, face: int, u: real): seq<Action>
    requires 0.0 <= u < 1.0
  {
    if RollBlocked(s) then []
    else
      var p := GetCurrentPlayer(s).value;
      var np := NewPosition(p.position, face);
      [RollAction(face), SetPreviousPosition(p.id, p.position), SetMoving(true),
       MovePlayer(p.id, np), SetMoving(false)]
      + (if np >= Finish then [EndGame(p)] else [SetQuestion(Draw(np, u))])
  }

  /** The state after one press of the (corrected) roll button, once both timer stages have run. */
  function RollDiceStep(s: GameState, face: int, u: real): GameState
    requires 0.0 <= u < 1.0
  {
    Run(s, RollDispatches(s, face, u))
  }

  /** A blocked roll dispatches nothing. */
  lemma RollBlockedIsNoOp(s: GameState, face: int, u: real)
    requires 0.0 <= u < 1.0
    requires RollBlocked(s)
    ensures RollDiceStep(s, face, u) == s
  {
  }

  /** What one roll of the corrected board does to the state. */
  lemma {:induction false} RollDiceEffect(s: GameState, face: int, u: real)
    requires 0.0 <= u < 1.0
    requires !RollBlocked(s)
    ensures var p := GetCurrentPlayer(s).value;
      var np := NewPosition(p.position, face);
      var r := RollDiceStep(s, face, u);
      && SameSeats(s.players, r.players)
      && (forall k :: 0 <= k < |r.players| ==>
            r.players[k].position == if s.players[k].id == p.id then np else s.players[k].position)
      && r.currentPlayerIndex == s.currentPlayerIndex
      && r.lastDiceRoll == Some(face) && !r.isDouble
      && r.previousPosition == Some(p.position)
      && !r.isMoving
      && (np >= Finish ==>
            r.gamePhase == Ended && r.winner == Some(p) && r.currentQuestion == s.currentQuestion)
      && (np < Finish ==>
            && r.gamePhase == s.gamePhase && r.winner == s.winner
            && r.currentQuestion.Some?
            && r.currentQuestion.value in QuestionPool.Questions
            && r.currentQuestion.value.category == CategoryAt(np))
  {
    var p := GetCurrentPlayer(s).value;
    var np := NewPosition(p.position, face);
    RollRunsInOrder(s, face, u);
  }

  /** The dispatched actions of an unblocked roll of the corrected board, composed into one state change. */
  lemma RollRunsInOrder(s: GameState, face: int, u: real)
    requires 0.0 <= u < 1.0
    requires !RollBlocked(s)
    ensures var p := GetCurrentPlayer(s).value;
      var np := NewPosition(p.position, face);
      var moved := s.(players := MoveById(s.players, p.id, np), diceRolls := Some((face, 0)),
                      isDouble := false, lastDiceRoll := Some(face),
                      previousPosition := Some(p.position), isMoving := false);
      RollDiceStep(s, face, u)
        == if np >= Finish then moved.(gamePhase := Ended, winner := Some(p))
           else moved.(currentQuestion := Some(Draw(np, u)))
  {
    var p := GetCurrentPlayer(s).value;
    var np := NewPosition(p.position, face);
    var last := if np >= Finish then EndGame(p) else SetQuestion(Draw(np, u));
    var a0, a1, a2, a3, a4 :=
      RollAction(face), SetPreviousPosition(p.id, p.position), SetMoving(true),
      MovePlayer(p.id, np), SetMoving(false);
    assert RollDispatches(s, face, u) == [a0, a1, a2, a3, a4, last];
    RunSix(s, a0, a1, a2, a3, a4, last);
  }

  lemma RunSix(s: GameState, a0: Action, a1: Action, a2: Action, a3: Action, a4: Action, a5: Action)
    ensures Run(s, [a0, a1, a2, a3, a4, a5])
            == Reduce(Reduce(Reduce(Reduce(Reduce(Reduce(s, a0), a1), a2), a3), a4), a5)
  {
    var s1 := Reduce(s, a0);
    var s2 := Reduce(s1, a1);
    var s3 := Reduce(s2, a2);
    var s4 := Reduce(s3, a3);
    var s5 := Reduce(s4, a4);
    assert [a0, a1, a2, a3, a4, a5] == [a0] + [a1, a2, a3, a4, a5];
    RunCons(s, a0, [a1, a2, a3, a4, a5]);
    assert [a1, a2, a3, a4, a5] == [a1] + [a2, a3, a4, a5];
    RunCons(s1, a1, [a2, a3, a4, a5]);
    assert [a2, a3, a4, a5] == [a2] + [a3, a4, a5];
    RunCons(s2, a2, [a3, a4, a5]);
    assert [a3, a4, a5] == [a3] + [a4, a5];
    RunCons(s3, a3, [a4, a5]);
    assert [a4, a5] == [a4] + [a5];
    RunCons(s4, a4, [a5]);
    assert [a5] == [a5] + [];
    RunCons(s5, a5, []);
  }

  /** Completing a question card (`nextTurn`): the board dispatches NEXT_TURN and nothing else. */
  function CompleteQuestion(s: GameState): GameState {
    Reduce(s, NextTurn)
  }

  /**
   * Since the board never dispatches MISSION_FAIL, completing a question never moves anyone
   * back: the snapshot is discarded with every token left where the roll put it.
   */
  lemma CompletingNeverRollsBack(s: GameState)
    ensures CompleteQuestion(s).players == s.players
    ensures CompleteQuestion(s).previousPosition == None && CompleteQuestion(s).currentQuestion == None
  {
  }

  /** MISSION_FAIL right after a question-raising roll of the corrected board undoes that roll's move. */
  lemma {:induction false} FailAfterRollRestores(s: GameState, face: int, u: real)
    requires 0.0 <= u < 1.0
    requires !RollBlocked(s) && UniqueIds(s.players)
    requires NewPosition(GetCurrentPlayer(s).value.position, face) < Finish
    ensures Reduce(RollDiceStep(s, face, u), MissionFail(GetCurrentPlayer(s).value.id)).players
            == s.players
  {
    var p := GetCurrentPlayer(s).value;
    var i := s.currentPlayerIndex.i;
    RollDiceEffect(s, face, u);
    var r := RollDiceStep(s, face, u);
    var f := Reduce(r, MissionFail(p.id));
    forall k | 0 <= k < |s.players|
      ensures f.players[k] == s.players[k]
    {
      if k != i {
        assert s.players[k].id != p.id;
      }
    }
  }

  // ----- Whole games -----
  // Rolls here use the corrected ROLL_DICE payload (`RollAction`); as written, the first
  // unblocked roll makes the reducer throw (`RollAsWrittenThrows`).

  /**
   * The board's user inputs: press the die, or complete the shown question card. The die
   * ignores presses while it is disabled, and the completion button exists only while a
   * card is shown.
   */
  datatype Move = Roll(face: int, u: real) | Complete

  ghost predicate ValidMove(m: Move) {
    m.Roll? ==> 1 <= m.face <= 6 && 0.0 <= m.u < 1.0
  }

  /** The state after one user input; an input the screen does not offer changes nothing. */
  function Step(s: GameState, m: Move): GameState
    requires ValidMove(m)
  {
    match m
    case Roll(face, u) => if DiceDisabled(s) then s else RollDiceStep(s, face, u)
    case Complete => if s.currentQuestion.Some? then CompleteQuestion(s) else s
  }

  function Play(s: GameState, moves: seq<Move>): GameState
    requires forall k :: 0 <= k < |moves| ==> ValidMove(moves[k])
    decreases |moves|
  {
    if |moves| == 0 then s else Play(Step(s, moves[0]), moves[1..])
  }

  /** Every token and the rollback target lie on the board, and a winner is set exactly when the game has ended. */
  ghost predicate Consistent(s: GameState) {
    && (forall k :: 0 <= k < |s.players| ==> 0 <= s.players[k].position <= Finish)
    && (s.previousPosition.Some? ==> 0 <= s.previousPosition.value <= Finish)
    && (s.winner.Some? <==> s.gamePhase == Ended)
    && TurnInRange(s)
  }

  /** One user input keeps the state consistent and an ended game ended. */
  lemma StepKeepsConsistent(s: GameState, m: Move)
    requires ValidMove(m) && Consistent(s)
    ensures Consistent(Step(s, m))
    ensures s.gamePhase == Ended ==> Step(s, m).gamePhase == Ended
  {
    match m
    case Roll(face, u) =>
      if !DiceDisabled(s) {
        RollDiceEffect(s, face, u);
      }
    case Complete =>
      if s.currentQuestion.Some? {
        NextTurnRotation(s);
      }
  }

  /**
   * From a consistent state, any sequence of rolls and completed questions keeps every token
   * on squares 0..14, the turn on an existing seat, and the winner set exactly when the game
   * has ended; once ended, the game stays ended.
   */
  lemma {:induction false} PlayKeepsConsistent(s: GameState, moves: seq<Move>)
    requires forall k :: 0 <= k < |moves| ==> ValidMove(moves[k])
    requires Consistent(s)
    ensures Consistent(Play(s, moves))
    ensures s.gamePhase == Ended ==> Play(s, moves).gamePhase == Ended
    decreases |moves|
  {
    if |moves| > 0 {
      StepKeepsConsistent(s, moves[0]);
      PlayKeepsConsistent(Step(s, moves[0]), moves[1..]);
    }
  }

  // ----- The two dispatch mismatches -----

  /** The payload shapes a ROLL_DICE message arrives with. */
  datatype RollPayload =
    | ValueOnly(value: int)
    | DicePair(diceRolls: (int, int), isDouble: bool)

  /** The message `rollDice` sends as written: `{ type: 'ROLL_DICE', value }`. */
  function RollPayloadAsWritten(face: int): RollPayload {
    ValueOnly(face)
  }

  /**
   * The reducer's ROLL_DICE case on a message of either shape. Reading `diceRolls[0]` of a
   * message without `diceRolls` throws a TypeError, shown as None.
   */
  function ReduceRollPayload(s: GameState, m: RollPayload): (r: Option<GameState>)
    ensures m.DicePair? <==> r.Some?
  {
    match m
    case ValueOnly(_) => None
    case DicePair(pair, dbl) => Some(Reduce(s, RollDice(pair, dbl)))
  }

  /** As written, every roll the board sends makes the reducer throw. */
  lemma RollAsWrittenThrows(s: GameState, face: int)
    ensures ReduceRollPayload(s, RollPayloadAsWritten(face)) == None
  {
  }

  /** With the corrected payload the reducer records the die face as the last roll, and no double. */
  lemma CorrectedRollRecordsFace(s: GameState, face: int)
    ensures var r := Reduce(s, RollAction(face));
      r.lastDiceRoll == Some(face) && !r.isDouble && r.players == s.players
  {
  }

  /** `disabled={state.isMoving || !currentPlayer || !!state.currentQuestion}`. */
  predicate DiceDisabled(s: GameState) {
    s.isMoving || GetCurrentPlayer(s).None? || s.currentQuestion.Some?
  }

  /** The props the board passes as written: `lastRoll`, which the component does not read. */
  function DicePropsAsWritten(s: GameState): Dice.DiceProps {
    Dice.DiceProps(DiceDisabled(s), None, false)
  }

  /** The props the component declares, filled from the state. */
  function DiceProps(s: GameState): Dice.DiceProps {
    Dice.DiceProps(DiceDisabled(s), s.diceRolls, s.isDouble)
  }

  /** As written, the die never shows a rolled face, even right after a roll. */
  lemma DiceAsWrittenNeverShowsRoll(s: GameState, face: int, u: real)
    requires 0.0 <= u < 1.0
    ensures Dice.View(DicePropsAsWritten(RollDiceStep(s, face, u))) == Dice.Placeholder
  {
  }

  /**
   * With the declared props, after an unblocked roll of the corrected board the die shows
   * the rolled face and the total. The second die of the pair `(face, 0)` is 0, which
   * `getDotPattern` draws as the one-dot fallback face.
   */
  lemma DiceShowsRoll(s: GameState, face: int, u: real)
    requires 1 <= face <= 6 && 0.0 <= u < 1.0
    requires !RollBlocked(s)
    ensures var v := Dice.View(DiceProps(RollDiceStep(s, face, u)));
      && v.Faces? && Dice.DotCount(v.left) == face && v.total == face && !v.showsDouble
      && v.right == Dice.DotPattern(1)
  {
    RollDiceEffect(s, face, u);
    var r := RollDiceStep(s, face, u);
    assert r.diceRolls == Some((face, 0)) by {
      var p := GetCurrentPlayer(s).value;
      var acts := RollDispatches(s, face, u);
      assert Reduce(s, acts[0]).diceRolls == Some((face, 0));
      DiceRollsKept(Reduce(s, acts[0]), acts[1..]);
      RunCons(s, acts[0], acts[1..]);
      assert [acts[0]] + acts[1..] == acts;
    }
    Dice.FaceFacts(face);
  }

  /** The actions after the roll in `rollDice` leave the recorded dice alone. */
  lemma {:induction false} DiceRollsKept(s: GameState, acts: seq<Action>)
    requires forall k :: 0 <= k < |acts| ==> !acts[k].RollDice? && !acts[k].NextTurn? && !acts[k].ResetGame?
    ensures Run(s, acts).diceRolls == s.diceRolls
    decreases |acts|
  {
    if |acts| > 0 {
      DiceRollsKept(Reduce(s, acts[0]), acts[1..]);
    }
  }
}
