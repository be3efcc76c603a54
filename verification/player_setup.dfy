/**
 * The setup screen's roster logic (src/components/game/PlayerSetup.tsx): resizing the
 * roster, editing names, choosing colours by swapping, the start check and the hand-over
 * of the roster to the game state.
 */
module PlayerSetup {
  import opened GameContext
  import Strings
  import GameBoard

  /** The palette in offer order. */
  const PlayerColors: seq<Color> := [Red, Blue, Green, Yellow, Purple, Orange]

  /** The player counts the screen offers. */
  const PlayerCounts: seq<nat> := [2, 3, 4, 5, 6]

  /** A roster entry before the game starts: a player without a position. */
  datatype Entry = Entry(id: string, name: string, color: Color)

  const InitialEntries: seq<Entry> := [Entry("1", "", Red), Entry("2", "", Blue)]

  ghost predicate DistinctColors(es: seq<Entry>) {
    forall a, b :: 0 <= a < b < |es| ==> es[a].color != es[b].color
  }

  ghost predicate DistinctIds(es: seq<Entry>) {
    forall a, b :: 0 <= a < b < |es| ==> es[a].id != es[b].id
  }

  /** The palette holds six different colours. */
  lemma PaletteDistinct()
    ensures |PlayerColors| == 6
    ensures forall a, b :: 0 <= a < b < 6 ==> PlayerColors[a] != PlayerColors[b]
  {
  }

  /**
   * `updatePlayerCount`: seat `k` gets id `k + 1`, keeps the name already typed there
   * (an empty name for a new seat), and takes the palette colour `k mod 6`.
   */
  function UpdatePlayerCount(es: seq<Entry>, count: nat): (r: seq<Entry>)
    ensures |r| == count
    ensures forall k :: 0 <= k < count ==>
      Strings.IsCanonicalDecimal(r[k].id) && Strings.DecimalValue(r[k].id) == k + 1
    ensures forall k :: 0 <= k < count ==> r[k].name == if k < |es| then es[k].name else ""
    ensures forall k :: 0 <= k < count ==> r[k].color == PlayerColors[k % 6]
  {
    Strings.DecimalRoundTripBelow(count + 1);
    seq(count, k requires 0 <= k < count =>
      Entry(Strings.NatToString(k + 1), if k < |es| then es[k].name else "", PlayerColors[k % 6]))
  }

  /** Resizing gives distinct ids, and distinct colours for up to six players. */
  lemma UpdatePlayerCountDistinct(es: seq<Entry>, count: nat)
    ensures DistinctIds(UpdatePlayerCount(es, count))
    ensures count <= 6 ==> DistinctColors(UpdatePlayerCount(es, count))
  {
    var r := UpdatePlayerCount(es, count);
    forall a, b | 0 <= a < b < count
      ensures r[a].id != r[b].id
    {
      assert Strings.DecimalValue(r[a].id) == a + 1 != b + 1 == Strings.DecimalValue(r[b].id);
    }
    if count <= 6 {
      forall a, b | 0 <= a < b < count
        ensures r[a].color != r[b].color
      {
        assert a % 6 == a && b % 6 == b;
      }
    }
  }

  /** A seventh player would share the first player's colour. */
  lemma SeventhPlayerRepeatsColor(es: seq<Entry>)
    ensures UpdatePlayerCount(es, 7)[6].color == UpdatePlayerCount(es, 7)[0].color
  {
  }

  /** The roster the screen opens with is the one two players resize to, with no names typed. */
  lemma InitialRosterIsTwoPlayers()
    ensures UpdatePlayerCount([], 2) == InitialEntries
  {
    assert Strings.NatToString(1) == "1";
    assert Strings.NatToString(2) == "2";
  }

  /** `updatePlayerName`: only seat `index` changes, and only its name. */
  function UpdatePlayerName(es: seq<Entry>, index: int, name: string): (r: seq<Entry>)
    ensures |r| == |es|
    ensures forall k :: 0 <= k < |r| ==> r[k].id == es[k].id && r[k].color == es[k].color
    ensures forall k :: 0 <= k < |r| && k != index ==> r[k] == es[k]
    ensures 0 <= index < |r| ==> r[index].name == name
  {
    seq(|es|, k requires 0 <= k < |es| => if k == index then es[k].(name := name) else es[k])
  }

  /** `findIndex((p, i) => i !== index && p.color === color)` from seat `from` on. */
  function FindFrom(es: seq<Entry>, index: int, c: Color, from: nat): (j: int)
    requires from <= |es|
    ensures j == -1 || (from <= j < |es| && j != index && es[j].color == c)
    ensures j == -1 ==> forall k :: from <= k < |es| && k != index ==> es[k].color != c
    ensures j != -1 ==> forall k :: from <= k < j && k != index ==> es[k].color != c
    decreases |es| - from
  {
    if from == |es| then -1
    else if from != index && es[from].color == c then from
    else FindFrom(es, index, c, from + 1)
  }

  /** The first seat other than `index` whose colour is `c`, or -1. */
  function HolderOf(es: seq<Entry>, index: int, c: Color): (j: int)
    ensures j == -1 <==> forall k :: 0 <= k < |es| && k != index ==> es[k].color != c
    ensures j != -1 ==> 0 <= j < |es| && j != index && es[j].color == c
    ensures j != -1 ==> forall k :: 0 <= k < j && k != index ==> es[k].color != c
  {
    FindFrom(es, index, c, 0)
  }

  /**
   * `updatePlayerColor`: seat `index` takes colour `c`; a seat that held `c` takes
   * `index`'s old colour in exchange. The screen only passes the index of a shown seat.
   */
  function UpdatePlayerColor(es: seq<Entry>, index: nat, c: Color): (r: seq<Entry>)
    requires index < |es|
    ensures |r| == |es|
    ensures forall k :: 0 <= k < |r| ==> r[k].id == es[k].id && r[k].name == es[k].name
    ensures r[index].color == c
    ensures HolderOf(es, index, c) != -1 ==> r[HolderOf(es, index, c)].color == es[index].color
    ensures forall k :: 0 <= k < |r| && k != index && k != HolderOf(es, index, c) ==> r[k] == es[k]
    ensures DistinctColors(es) ==> DistinctColors(r)
  {
    var j := HolderOf(es, index, c);
    if j != -1 then
      es[j := es[j].(color := es[index].color)][index := es[index].(color := c)]
    else
      seq(|es|, k requires 0 <= k < |es| => if k == index then es[k].(color := c) else es[k])
  }

  function Colors(es: seq<Entry>): (cs: seq<Color>)
    ensures |cs| == |es| && forall k :: 0 <= k < |es| ==> cs[k] == es[k].color
  {
    seq(|es|, k requires 0 <= k < |es| => es[k].color)
  }

  /** When a swap happens, the roster's colours are permuted, none gained or lost. */
  lemma SwapPermutesColors(es: seq<Entry>, index: nat, c: Color)
    requires index < |es|
    requires HolderOf(es, index, c) != -1
    ensures multiset(Colors(UpdatePlayerColor(es, index, c))) == multiset(Colors(es))
  {
    var j := HolderOf(es, index, c);
    var r := UpdatePlayerColor(es, index, c);
    var cs := Colors(es);
    assert Colors(r) == cs[j := cs[index]][index := cs[j]];
    assert multiset(cs[j := cs[index]]) == multiset(cs) - multiset{cs[j]} + multiset{cs[index]};
  }

  /** With distinct colours, choosing the same colour again changes nothing more. */
  lemma UpdatePlayerColorIdempotent(es: seq<Entry>, index: nat, c: Color)
    requires index < |es| && DistinctColors(es)
    ensures var r := UpdatePlayerColor(es, index, c);
      UpdatePlayerColor(r, index, c) == r
  {
  }

  /** `canStart`: every name has something left after trimming. */
  predicate CanStart(es: seq<Entry>) {
    forall k :: 0 <= k < |es| ==> Strings.Trim(es[k].name) != ""
  }

  /** The roster can start exactly when every name contains a character other than whitespace. */
  lemma CanStartIff(es: seq<Entry>)
    ensures CanStart(es) <==> forall k :: 0 <= k < |es| ==> HasVisibleChar(es[k].name)
  {
  }

  /** The name holds a character other than whitespace. */
  predicate HasVisibleChar(name: string) {
    exists i :: 0 <= i < |name| && !Strings.IsJsWhitespace(name[i])
  }

  /** Adding seats leaves new, nameless players, so the game cannot start until they are named. */
  lemma GrowingBlocksStart(es: seq<Entry>, count: nat)
    requires |es| < count
    ensures !CanStart(UpdatePlayerCount(es, count))
  {
    var r := UpdatePlayerCount(es, count);
    assert r[|es|].name == "";
  }

  /** The roster handed to SET_PLAYERS: each entry on square 0. */
  function WithPositions(es: seq<Entry>): (ps: seq<Player>)
    ensures |ps| == |es|
    ensures forall k :: 0 <= k < |es| ==>
      ps[k].position == 0 && ps[k].id == es[k].id && ps[k].name == es[k].name && ps[k].color == es[k].color
  {
    seq(|es|, k requires 0 <= k < |es| => Player(es[k].id, es[k].name, es[k].color, 0))
  }

  /** `startGame`: SET_PLAYERS with the positioned roster, then START_GAME. */
  function StartGame(s: GameState, es: seq<Entry>): GameState {
    Run(s, [SetPlayers(WithPositions(es)), GameContext.StartGame])
  }

  /** Starting seats the roster on square 0 in setup order and enters play; nothing else changes. */
  lemma StartGameSeats(s: GameState, es: seq<Entry>)
    ensures var r := StartGame(s, es);
      && |r.players| == |es|
      && (forall k :: 0 <= k < |es| ==>
            r.players[k] == Player(es[k].id, es[k].name, es[k].color, 0))
      && r.gamePhase == Playing
      && r == s.(players := r.players, gamePhase := Playing)
  {
    RunCons(s, SetPlayers(WithPositions(es)), [GameContext.StartGame]);
    RunCons(Reduce(s, SetPlayers(WithPositions(es))), GameContext.StartGame, []);
  }

  /**
   * A game started from the initial state with at least one player is consistent, so every
   * later sequence of rolls and completed questions keeps it consistent.
   */
  lemma StartFromInitialIsConsistent(es: seq<Entry>)
    requires |es| > 0
    ensures GameBoard.Consistent(StartGame(InitialState, es))
  {
    StartGameSeats(InitialState, es);
  }
}
