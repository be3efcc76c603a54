/**
 * The die component (src/components/game/Dice.tsx): the 3x3 dot pattern of a face and
 * the faces the component shows for the props it receives.
 */
module Dice {
  import opened Wrappers

  type Grid = seq<seq<bool>>

  const Patterns: seq<Grid> := [
    [[false, false, false], [false, true, false], [false, false, false]],
    [[true, false, false], [false, false, false], [false, false, true]],
    [[true, false, false], [false, true, false], [false, false, true]],
    [[true, false, true], [false, false, false], [true, false, true]],
    [[true, false, true], [false, true, false], [true, false, true]],
    [[true, false, true], [true, false, true], [true, false, true]]
  ]

  /** The number of dots in one row of a face. */
  function CountRow(row: seq<bool>): nat {
    if |row| == 0 then 0 else (if row[0] then 1 else 0) + CountRow(row[1..])
  }

  /** The number of dots drawn on a face. */
  function DotCount(g: Grid): nat {
    if |g| == 0 then 0 else CountRow(g[0]) + DotCount(g[1..])
  }

  predicate IsThreeByThree(g: Grid) {
    |g| == 3 && forall r :: 0 <= r < 3 ==> |g[r]| == 3
  }

  /** The face looks the same turned upside down. */
  predicate HalfTurnSymmetric(g: Grid)
    requires IsThreeByThree(g)
  {
    && g[0][0] == g[2][2] && g[0][1] == g[2][1] && g[0][2] == g[2][0]
    && g[1][0] == g[1][2]
  }

  /** `getDotPattern`: the face for 1..6; any other number falls back to the face of 1. */
  function DotPattern(n: int): (g: Grid)
    ensures IsThreeByThree(g)
    ensures !(1 <= n <= 6) ==> g == Patterns[0]
  {
    if 1 <= n <= 6 then Patterns[n - 1] else Patterns[0]
  }

  /** Face `n` shows exactly `n` dots, has the centre dot iff `n` is odd, and is symmetric under a half turn. */
  lemma FaceFacts(n: int)
    requires 1 <= n <= 6
    ensures DotCount(DotPattern(n)) == n
    ensures DotPattern(n)[1][1] <==> n % 2 == 1
    ensures HalfTurnSymmetric(DotPattern(n))
  {
    var g := DotPattern(n);
    if n == 1 {
      assert g == Patterns[0];
    } else if n == 2 {
      assert g == Patterns[1];
    } else if n == 3 {
      assert g == Patterns[2];
    } else if n == 4 {
      assert g == Patterns[3];
    } else if n == 5 {
      assert g == Patterns[4];
    } else {
      assert g == Patterns[5];
    }
  }

  /** Any number outside 1..6 draws the single centre dot of face 1. */
  lemma FallbackIsOne(n: int)
    requires !(1 <= n <= 6)
    ensures DotPattern(n) == DotPattern(1)
    ensures DotCount(DotPattern(n)) == 1 && DotPattern(n)[1][1]
  {
  }

  /** Distinct faces have distinct patterns, so a face can be read back from its dots. */
  lemma FacesDistinguishable(a: int, b: int)
    requires 1 <= a <= 6 && 1 <= b <= 6
    ensures DotPattern(a) == DotPattern(b) <==> a == b
  {
  }

  /** The props the component declares. */
  datatype DiceProps = DiceProps(disabled: bool, diceRolls: Option<(int, int)>, isDouble: bool)

  /** What the component draws: two face patterns with their sum, or the two placeholder icons. */
  datatype DiceView =
    | Placeholder
    | Faces(left: Grid, right: Grid, total: int, showsDouble: bool)

  /** The faces shown once the rolling animation is over. */
  function View(props: DiceProps): (v: DiceView)
    ensures v.Faces? <==> props.diceRolls.Some?
  {
    match props.diceRolls
    case None => Placeholder
    case Some((a, b)) => Faces(DotPattern(a), DotPattern(b), a + b, props.isDouble)
  }
}
