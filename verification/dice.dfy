/** Rolls of five six-sided dice and the Yahtzee win test. */
module Dice {
  import opened Wrappers

  /** Number of dice in one roll. */
  const DiceCount: nat := 5

  /** Number of faces of one die. */
  const Faces: nat := 6

  /** A roll is the array of face values `rollDice` produces. The win test
      accepts any array, so a roll is not constrained by its type. */
  type Roll = seq<int>

  /** A value one die can show. */
  predicate IsFace(v: int) {
    1 <= v <= Faces
  }

  /** Every die draw in a stream shows a legal face. */
  predicate ValidDraws(draws: seq<int>) {
    forall i :: 0 <= i < |draws| ==> IsFace(draws[i])
  }

  /** The shape every roll `rollDice` returns has: five dice, each 1..6. */
  predicate WellFormedRoll(r: Roll) {
    |r| == DiceCount && ValidDraws(r)
  }

  /** A source of rolls in which every roll is well formed. */
  predicate WellFormedSource(rolls: seq<Roll>) {
    forall k :: 0 <= k < |rolls| ==> WellFormedRoll(rolls[k])
  }

  /** One roll: the next five die draws of the draw stream, and what is
      left of the stream. `None` when fewer than five draws remain. */
  function RollDice(draws: seq<int>): (r: Option<(Roll, seq<int>)>)
    ensures r.Some? <==> |draws| >= DiceCount
    ensures r.Some? ==> |r.value.0| == DiceCount && r.value.0 + r.value.1 == draws
    ensures r.Some? && ValidDraws(draws) ==> WellFormedRoll(r.value.0) && ValidDraws(r.value.1)
  {
    if |draws| < DiceCount then None
    else
      assert draws[..DiceCount] + draws[DiceCount..] == draws;
      Some((draws[..DiceCount], draws[DiceCount..]))
  }

  /** The rolls a stream of die draws yields when `RollDice` is called
      until the stream has fewer than five draws left. */
  function RollStream(draws: seq<int>): (rolls: seq<Roll>)
    ensures |rolls| == |draws| / DiceCount
    ensures ValidDraws(draws) ==> WellFormedSource(rolls)
    decreases |draws|
  {
    match RollDice(draws)
    case None => []
    case Some((roll, rest)) => [roll] + RollStream(rest)
  }

  /** Roll `k` of the stream is made of draws `5k` up to `5k + 5`. */
  lemma {:induction false} RollStreamChunks(draws: seq<int>, k: nat)
    requires k < |RollStream(draws)|
    ensures DiceCount * k + DiceCount <= |draws|
    ensures RollStream(draws)[k] == draws[DiceCount * k .. DiceCount * k + DiceCount]
    decreases k
  {
    var rest := draws[DiceCount..];
    assert RollStream(draws) == [draws[..DiceCount]] + RollStream(rest);
    if k > 0 {
      RollStreamChunks(rest, k - 1);
      var lo := DiceCount * (k - 1);
      assert DiceCount * k == lo + DiceCount;
      assert rest[lo .. lo + DiceCount] == draws[lo + DiceCount .. lo + DiceCount + DiceCount];
    }
  }

  /** The draws a sequence of rolls was made of, in order. */
  function Flatten(rolls: seq<Roll>): (draws: seq<int>)
    ensures (forall k :: 0 <= k < |rolls| ==> |rolls[k]| == DiceCount) ==> |draws| == DiceCount * |rolls|
  {
    if |rolls| == 0 then [] else rolls[0] + Flatten(rolls[1..])
  }

  /** Cutting the draws of a sequence of five-dice rolls back into rolls
      gives the same rolls. */
  lemma {:induction false} RollStreamFlatten(rolls: seq<Roll>)
    requires forall k :: 0 <= k < |rolls| ==> |rolls[k]| == DiceCount
    ensures RollStream(Flatten(rolls)) == rolls
  {
    if |rolls| != 0 {
      var draws := Flatten(rolls);
      assert draws == rolls[0] + Flatten(rolls[1..]);
      assert draws[..DiceCount] == rolls[0];
      assert draws[DiceCount..] == Flatten(rolls[1..]);
      RollStreamFlatten(rolls[1..]);
      assert rolls == [rolls[0]] + rolls[1..];
    }
  }

  /** The distinct face values of a roll, as `new Set(dice)` collects them. */
  function DistinctValues(dice: Roll): set<int> {
    set v | v in dice
  }

  /** The win test of `isYahtzee`: the roll shows exactly one distinct value,
      that is, it is non-empty and its distinct values are just its first die. */
  function IsYahtzee(dice: Roll): (win: bool)
    ensures win <==> |dice| > 0 && DistinctValues(dice) == {dice[0]}
  {
    OneValueIsFirst(dice);
    |DistinctValues(dice)| == 1
  }

  /** A roll has exactly one distinct value when, and only when, it is
      non-empty and that value is its first die. */
  lemma OneValueIsFirst(dice: Roll)
    ensures |DistinctValues(dice)| == 1 <==> |dice| > 0 && DistinctValues(dice) == {dice[0]}
  {
    var s := DistinctValues(dice);
    if |s| == 1 {
      assert dice[0] in s;
      var others := s - {dice[0]};
      assert s == others + {dice[0]};
      assert |others| == 0;
    }
  }

  /** A roll is a Yahtzee exactly when it is non-empty and every die shows
      the same value as the first. */
  lemma YahtzeeIffAllEqual(dice: Roll)
    ensures IsYahtzee(dice) <==> |dice| > 0 && forall i :: 0 <= i < |dice| ==> dice[i] == dice[0]
  {
    var s := DistinctValues(dice);
    if |dice| > 0 && forall i :: 0 <= i < |dice| ==> dice[i] == dice[0] {
      assert s == {dice[0]};
    }
    if IsYahtzee(dice) {
      forall i | 0 <= i < |dice|
        ensures dice[i] == dice[0]
      {
        assert dice[i] in s;
      }
    }
  }

  /** Two dice with different faces rule out a Yahtzee. */
  lemma TwoFacesNotYahtzee(dice: Roll, i: int, j: int)
    requires 0 <= i < |dice| && 0 <= j < |dice| && dice[i] != dice[j]
    ensures !IsYahtzee(dice)
  {
    YahtzeeIffAllEqual(dice);
  }

  /** The empty array has no distinct value, so it is not a Yahtzee. */
  lemma EmptyNotYahtzee()
    ensures !IsYahtzee([])
  {
  }

  /** Worked cases of the win test. */
  lemma YahtzeeExamples()
    ensures IsYahtzee([3, 3, 3, 3, 3]) && IsYahtzee([6, 6, 6, 6, 6])
    ensures !IsYahtzee([1, 1, 1, 1, 2]) && !IsYahtzee([1, 2, 3, 4, 5])
  {
    YahtzeeIffAllEqual([3, 3, 3, 3, 3]);
    YahtzeeIffAllEqual([6, 6, 6, 6, 6]);
    TwoFacesNotYahtzee([1, 1, 1, 1, 2], 0, 4);
    TwoFacesNotYahtzee([1, 2, 3, 4, 5], 0, 1);
  }

  /** Five dice all showing face `v`. */
  function AllShow(v: int): (r: Roll)
    ensures |r| == DiceCount
  {
    [v, v, v, v, v]
  }

  /** Among well-formed rolls the Yahtzees are exactly the six rolls with
      one face on all five dice. */
  lemma WellFormedYahtzee(r: Roll)
    requires WellFormedRoll(r)
    ensures IsYahtzee(r) <==> r == AllShow(r[0])
  {
    YahtzeeIffAllEqual(r);
    YahtzeeIffAllEqual(AllShow(r[0]));
  }

  /** Five dice showing the same legal face make a well-formed Yahtzee. */
  lemma AllShowIsYahtzee(v: int)
    requires IsFace(v)
    ensures WellFormedRoll(AllShow(v)) && IsYahtzee(AllShow(v))
  {
  }
}
