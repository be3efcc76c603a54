# Mind-diary board game: a Dafny model of its game logic

The game is a turn-based board game for two to six players. Tokens climb a 15-square
ladder board, squares 0 to 14. A player moves by the die value, but never past square 14.
Reaching square 14 wins. Any other landing square draws a question card from a fixed pool:
praise cards on squares 2, 6 and 10, heart cards on 4, 8 and 12, and everyday ("normal")
cards elsewhere. A single reducer owns the game state: the roster, whose turn it is, the
phase, the winner, the last roll, the pending question and the position to roll back to.

The model has seven modules, one per source file plus two helper modules:

- `GameContext` (`game_context.dfy`). The state, the twelve actions and the reducer
  `Reduce`. `Run` applies queued actions in order. `GetCurrentPlayer` is also here. The
  turn index is a JavaScript number, and `(i + 1) % 0` makes it NaN. The model therefore
  carries it as `Slot(i) | NaN`, and the reducer needs no precondition.
- `GameBoard` (`game_board.dfy`). The ladder, square classification, the clamped move and
  the question draw. It also models the actions one press of the roll button dispatches:
  `RollDispatches`, folded by `RollDiceStep`. Completing a question is `CompleteQuestion`.
  Whole games are sequences of these two inputs (`Play`). An input the screen does not
  offer changes nothing: a press while the die is disabled (moving, no current player, or
  a card shown), or a completion with no card shown. As written, the first unblocked
  roll throws in the reducer (first row of "Findings"). The roll model, and every whole-game
  lemma built on it, therefore uses the corrected ROLL_DICE payload of that row.
- `PlayerSetup` (`player_setup.dfy`). Resizing the roster, editing names, swapping colours,
  the start check and the hand-over to the reducer.
- `QuestionPool` (`questions.dfy`). The 31-card table and its category filter.
- `Dice` (`dice.dfy`). The dot patterns of the faces and what the die component shows.
- `Strings` (`strings.dfy`). `toString` of a non-negative integer (player ids) and
  JavaScript's `trim` (the start check).
- `Wrappers` (`wrappers.dfy`). `Option`, standing for the source's `null`.

`Math.random` is replaced by parameters. The die face is an integer 1..6. The card pick is
a sample `u` in [0, 1), turned into an index as `Math.floor(u * n)`. The two timer stages
of a roll run back to back, as one sequence of actions.

Behaviour of the code that the model keeps and a reader might not expect:

- START_GAME sets the phase to playing from any phase, including `ended` (`LeavingEnded`).
  It does not clear the winner.
- ROLL_DICE stores the double flag it is given. It does not compute the flag from the dice.
- SET_PREVIOUS_POSITION ignores its player id.
- The board never dispatches MISSION_SUCCESS or MISSION_FAIL. Completing a question card
  only dispatches NEXT_TURN, which discards the rollback snapshot. So in play no token is
  ever moved back (`CompletingNeverRollsBack`). The reducer's rollback is modelled and
  proved on its own (`MissionFailRollsBack`, `FailAfterRollRestores`).
- The roll handler reads the current player once, before the roll. END_GAME therefore
  records the player as they stood before the winning move.

## Model

| member | source | states |
|---|---|---|
| GameContext.JsRem | src/contexts/GameContext.tsx:112 | JavaScript `%` with a positive divisor: the result is the remainder of truncating division, so a = q * n + r with q the quotient truncated toward zero; it lies in [0, n) for a non-negative dividend and in (-n, 0] for a negative one |
| GameContext.MoveById | src/contexts/GameContext.tsx:72-80 | the roster keeps its seats, ids, names and colours; every player with the id is on the new square; every other player is unchanged; an unknown id leaves the roster identical |
| GameContext.Advance | src/contexts/GameContext.tsx:107-112 | the next index is NaN exactly when the roster is empty or the index already was NaN; from an index of -1 or more it lands on a seat |
| GameContext.AdvanceCycles | src/contexts/GameContext.tsx:112 | from seat i the turn passes to seat i + 1, and from the last seat back to seat 0 |
| GameContext.GetCurrentPlayer | src/contexts/GameContext.tsx:145-148 | none on an empty roster; a player exactly when the index names a seat, and then it is the player in that seat |
| GameContext.NextTurnRotation | src/contexts/GameContext.tsx:107-112 | after a double the turn stays; otherwise it advances by one seat with wrap-around; either way it stays on a seat |
| GameContext.NextTurnOnEmptyRoster | src/contexts/GameContext.tsx:112 | on an empty roster without a double the index becomes NaN, and no one has the turn |
| GameContext.NextTurnClears | src/contexts/GameContext.tsx:107-117 | a new turn has no roll, no pair, no double, no question and no snapshot; apart from these and the turn index, nothing changes |
| GameContext.RollDiceRecords | src/contexts/GameContext.tsx:64-70 | ROLL_DICE stores the pair, its sum and the given double flag; no other field changes |
| GameContext.RollDiceDoesNotComputeDouble | src/contexts/GameContext.tsx:68 | for every equal pair, ROLL_DICE with the flag false records no double: the reducer never derives the flag from the dice |
| GameContext.MovePlayerFrame | src/contexts/GameContext.tsx:72-80 | only positions of matching players change; every other field of the state is unchanged; an unknown id changes nothing |
| GameContext.MissionFailRollsBack | src/contexts/GameContext.tsx:95-105 | with a snapshot, matching players go back to it; without one, no position changes; question and snapshot are cleared; no other field changes |
| GameContext.MissionSuccessKeepsPlayers | src/contexts/GameContext.tsx:88-93 | question and snapshot are cleared; no other field, the roster included, changes |
| GameContext.EndAndReset | src/contexts/GameContext.tsx:120-127 | END_GAME sets phase ended and the given winner and changes nothing else; RESET_GAME yields exactly the initial state from any state |
| GameContext.LeavingEnded | src/contexts/GameContext.tsx:61-62 | from an ended game the phase changes exactly on START_GAME or RESET_GAME |
| GameContext.TurnStaysInRange | src/contexts/GameContext.tsx:56-131 | every action except RESET_GAME, and a SET_PLAYERS that drops the current seat, keeps the turn on a seat |
| GameBoard.LadderCoversBoard | src/components/game/GameBoard.tsx:14-21 | the ladder rows, read in order, list exactly the squares 0, 1, ..., 14 |
| GameBoard.StepOf | src/components/game/GameBoard.tsx:15-21 | every square 0..14 lies in exactly one ladder row |
| GameBoard.PositionTypeByArithmetic | src/components/game/GameBoard.tsx:73-86 | praise squares are the squares between 0 and 14 that are 2 mod 4; heart squares those that are 0 mod 4; the finish is exactly 14 |
| GameBoard.SpecialSquaresDisjoint | src/components/game/GameBoard.tsx:73-78 | the praise and heart squares are disjoint and all lie strictly between 0 and 14 |
| GameBoard.CategoryMatchesSquare | src/components/game/GameBoard.tsx:56-61 | below the finish, the card category filter agrees with the square's classification |
| GameBoard.NewPosition | src/components/game/GameBoard.tsx:40 | the new square is at most 14 and at most position plus roll, and it is one of the two, so it is their minimum; from the board it never moves back, and never below 0 |
| GameBoard.PickIndex | src/components/game/GameBoard.tsx:63 | `Math.floor(u * n)` with u in [0, 1) indexes a non-empty list |
| GameBoard.DieFace | src/components/game/GameBoard.tsx:31 | `Math.floor(u * 6) + 1` is a face 1..6 |
| GameBoard.Draw | src/components/game/GameBoard.tsx:56-64 | the drawn card is in the pool and has the landing square's category |
| GameBoard.RollAction | src/components/game/GameBoard.tsx:32 | the corrected roll action carries a pair summing to the face, with no double |
| GameBoard.RollBlockedIsNoOp | src/components/game/GameBoard.tsx:29 | while moving, or with no current player, a roll changes nothing |
| GameBoard.RollDiceEffect | src/components/game/GameBoard.tsx:28-67 | with the corrected roll payload, one roll moves the current player's id to the clamped square and no one else; records the face and the pre-roll snapshot; ends the game with that player iff the square is 14; otherwise shows a pool card of the square's category |
| GameBoard.RollRunsInOrder | src/components/game/GameBoard.tsx:32-64 | with the corrected roll payload, the roll's dispatched actions compose to one state change, ending the game or setting the drawn card |
| GameBoard.FailAfterRollRestores | src/components/game/GameBoard.tsx:35 | with the corrected roll payload and distinct ids, MISSION_FAIL right after a card-raising roll restores every position to its value before the roll |
| GameBoard.CompletingNeverRollsBack | src/components/game/GameBoard.tsx:69-71 | completing a card leaves every token where it is and discards question and snapshot |
| GameBoard.StepKeepsConsistent | src/components/game/GameBoard.tsx:28-257 | with the corrected roll payload and the screen's gates (no roll while the die is disabled, no completion without a card), one input keeps tokens and snapshot on 0..14, the turn on a seat and the winner set iff ended; it keeps an ended game ended |
| GameBoard.PlayKeepsConsistent | src/components/game/GameBoard.tsx:28-71 | with the corrected roll payload and the screen's gates, the same holds after any sequence of die presses and card completions |
| GameBoard.ReduceRollPayload | src/contexts/GameContext.tsx:64-70 | the ROLL_DICE case succeeds exactly on a payload that carries `diceRolls` |
| GameBoard.RollAsWrittenThrows | src/components/game/GameBoard.tsx:32 | the payload the board sends makes the reducer throw, for every face and state |
| GameBoard.CorrectedRollRecordsFace | src/components/game/GameBoard.tsx:32 | with the corrected payload the last roll is the face, there is no double, and no one moves |
| GameBoard.DiceAsWrittenNeverShowsRoll | src/components/game/GameBoard.tsx:243-247 | with the props the board passes, the die shows no face even right after a roll |
| GameBoard.DiceShowsRoll | src/components/game/GameBoard.tsx:243-247 | with the declared props and the corrected roll payload, after a roll the first die shows as many dots as the die value, the second die shows the one-dot fallback face of 0, the total is the die value, and there is no double |
| GameBoard.DiceRollsKept | src/components/game/GameBoard.tsx:35-64 | the actions dispatched after ROLL_DICE leave the recorded pair alone |
| QuestionPool.OfCategory | src/components/game/GameBoard.tsx:56-61 | the filtered list holds exactly the pool cards of the category |
| QuestionPool.OfCategoryCounts | src/components/game/GameBoard.tsx:56-61 | the filter keeps each card of the category as many times as the list holds it, and no card of another category |
| QuestionPool.CategoryLists | src/components/game/GameBoard.tsx:56-63 | filtering the pool by a category gives exactly that category's cards in table order, so pick index k is the category's k-th card |
| QuestionPool.CategorySizes | src/data/questions.ts:3-164 | the pool has 15 normal, 8 praise and 8 heart cards, so no category the board asks for is empty |
| QuestionPool.PoolLayout | src/data/questions.ts:3-164 | the pool has 31 cards: all normal, then all praise, then all heart |
| QuestionPool.CardAt | src/data/questions.ts:5-163 | each card's id is its category name, `_` and its number within the category |
| QuestionPool.IdNamesCategory | src/data/questions.ts:5-163 | every id starts with its card's category name and `_` |
| QuestionPool.IdsDistinct | src/data/questions.ts:5-163 | no two cards share an id |
| QuestionPool.LiteralIds | src/data/questions.ts:6-161 | the first, fifteenth and last ids are the table's literal ones |
| Dice.DotPattern | src/components/game/Dice.tsx:28-38 | every pattern is 3 rows of 3 cells; any number outside 1..6 gets the pattern of 1 |
| Dice.FaceFacts | src/components/game/Dice.tsx:30-35 | face n has exactly n dots, the centre dot iff n is odd, and looks the same after a half turn |
| Dice.FallbackIsOne | src/components/game/Dice.tsx:37 | a number outside 1..6 shows the single centre dot |
| Dice.FacesDistinguishable | src/components/game/Dice.tsx:30-35 | the six faces have six different patterns |
| PlayerSetup.PaletteDistinct | src/components/game/PlayerSetup.tsx:15-22 | the palette has six different colours |
| PlayerSetup.UpdatePlayerCount | src/components/game/PlayerSetup.tsx:32-40 | n seats; seat k's id is the decimal numeral of k + 1; it keeps the name typed there or gets ''; it gets palette colour k mod 6 |
| PlayerSetup.UpdatePlayerCountDistinct | src/components/game/PlayerSetup.tsx:35-37 | ids are pairwise distinct; for up to six seats so are colours |
| PlayerSetup.SeventhPlayerRepeatsColor | src/components/game/PlayerSetup.tsx:37 | a seventh seat would share the first seat's colour |
| PlayerSetup.InitialRosterIsTwoPlayers | src/components/game/PlayerSetup.tsx:26-30 | the opening roster is what resizing an empty roster to two gives |
| PlayerSetup.UpdatePlayerName | src/components/game/PlayerSetup.tsx:42-46 | only the chosen seat's name changes, to the given name |
| PlayerSetup.FindFrom | src/components/game/PlayerSetup.tsx:51 | the result is -1 or the first later seat other than the chosen one that holds the colour |
| PlayerSetup.HolderOf | src/components/game/PlayerSetup.tsx:51 | -1 exactly when no other seat holds the colour; otherwise the first seat other than the chosen one that holds it |
| PlayerSetup.UpdatePlayerColor | src/components/game/PlayerSetup.tsx:48-65 | the chosen seat gets the colour; a holder gets the chosen seat's old colour; all else is unchanged; ids and names never change; distinct colours stay distinct |
| PlayerSetup.SwapPermutesColors | src/components/game/PlayerSetup.tsx:53-58 | a swap permutes the roster's colours |
| PlayerSetup.UpdatePlayerColorIdempotent | src/components/game/PlayerSetup.tsx:48-65 | with distinct colours, choosing the same colour again changes nothing |
| PlayerSetup.CanStartIff | src/components/game/PlayerSetup.tsx:67 | the game can start iff every name has a character other than whitespace |
| PlayerSetup.GrowingBlocksStart | src/components/game/PlayerSetup.tsx:36 | after adding seats the game cannot start until the new seats are named |
| PlayerSetup.WithPositions | src/components/game/PlayerSetup.tsx:70-73 | each entry becomes a player with the same id, name and colour, on square 0 |
| PlayerSetup.StartGameSeats | src/components/game/PlayerSetup.tsx:69-76 | the roster is seated in order on square 0, the phase is playing, and no other field changes |
| PlayerSetup.StartFromInitialIsConsistent | src/components/game/PlayerSetup.tsx:69-76 | a game started from the initial state with at least one player satisfies the invariant that play keeps |
| Strings.NatToString | src/components/game/PlayerSetup.tsx:35 | `toString` of a non-negative integer is a decimal numeral without a leading zero |
| Strings.DecimalRoundTrip | src/components/game/PlayerSetup.tsx:35 | reading a printed numeral back gives the number |
| Strings.NatToStringInjective | src/components/game/PlayerSetup.tsx:35 | two numbers print the same iff they are equal |
| Strings.TrimStart | src/components/game/PlayerSetup.tsx:67 | the result is a suffix of the input; everything removed is whitespace; it does not start with whitespace |
| Strings.TrimEnd | src/components/game/PlayerSetup.tsx:67 | the result is a prefix of the input; everything removed is whitespace; it does not end with whitespace |
| Strings.Trim | src/components/game/PlayerSetup.tsx:67 | `trim` gives '' exactly when every character is whitespace; otherwise the result starts and ends with a visible character |

## Left out

- Rendering: JSX, CSS classes, icons, the confetti flag, `QuestionCard` (a presentation of the
  card) and the menu screen in `src/pages/Index.tsx`. None of them holds game logic.
- Timers: the two `setTimeout` stages of a roll and the die's `isRolling` animation flag. The
  stages run back to back here. An interleaving where a second press lands before the first
  timer sets `isMoving` is not modelled.
- `Math.random`: the die face and the card sample are parameters. Floating-point rounding of
  `u * n` is not modelled; `u` is an exact real.
- React plumbing: the context, `useReducer` and the error thrown by `useGame` outside a
  provider.
- Numbers are unbounded integers. `getDotPattern` on a non-integer, which also falls back to
  face 1, is not modelled.
- The reducer's `default` branch: the action datatype has exactly the twelve declared kinds,
  so the branch cannot be reached.
- The roll handler does not look at the phase. The model lets a roll happen after the game
  has ended. The screen shows the winner instead of the board at that point.
- PlayerSetup.UpdatePlayerColor: requires the seat index to be in range. The source throws on
  an out-of-range index when another seat holds the colour, and is a no-op otherwise. The
  screen only passes indexes of seats it shows.
- `updatePlayerColor`'s swap branch copies the array but changes the colour on the previous
  roster's own entry objects (src/components/game/PlayerSetup.tsx:55-57). The old roster
  value is therefore changed too. The value model returns a new roster and cannot express
  this sharing.
- Strings.Trim: the contract does not say which slice of the input remains. It states only
  when the result is empty and that its ends are not whitespace, which is what the start
  check uses.

## Findings

| source | as written | input that shows it | evidently intended | confidence | as-written member | corrected member |
|---|---|---|---|---|---|---|
| src/components/game/GameBoard.tsx:32 | the board dispatches ROLL_DICE with `value` only, but the reducer reads `action.diceRolls[0]` (src/contexts/GameContext.tsx:69), which throws a TypeError on `undefined` | any roll by a current player, e.g. die face 4 | the action carries the pair the reducer reads; for the board's single die the pair is (face, 0) with no double, so the last roll equals the distance moved | high that the reducer throws; the exact corrected payload is a judgement; not executed | GameBoard.RollAsWrittenThrows | GameBoard.CorrectedRollRecordsFace |
| src/components/game/GameBoard.tsx:243-247 | the board passes `lastRoll` to the die, but the die reads `diceRolls` and `isDouble` (src/components/game/Dice.tsx:6-13), so it always draws the two placeholder icons | any state after a roll, e.g. last roll 4 | the board passes the state's `diceRolls` and `isDouble`, so the die shows the rolled face. Together with the single-die payload (face, 0) of the first row, the second die shows 0, which `getDotPattern` draws as one pip, next to the total face + 0 | high; not executed | GameBoard.DiceAsWrittenNeverShowsRoll | GameBoard.DiceShowsRoll |
