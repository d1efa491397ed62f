/** What `handleSimulate` does with a trial count: ignore a count that is
    not positive, otherwise run the batch and summarise it by its smallest
    and largest result. */
module Summary {
  import opened Wrappers
  import opened Dice
  import opened Trials

  /** The smallest element of a non-empty sequence, as `Math.min(...data)`. */
  function MinOf(s: seq<int>): (m: int)
    requires |s| > 0
    ensures m in s
    ensures forall x :: x in s ==> m <= x
  {
    if |s| == 1 then s[0]
    else
      var rest := MinOf(s[1..]);
      assert s == [s[0]] + s[1..];
      if s[0] <= rest then s[0] else rest
  }

  /** The largest element of a non-empty sequence, as `Math.max(...data)`. */
  function MaxOf(s: seq<int>): (m: int)
    requires |s| > 0
    ensures m in s
    ensures forall x :: x in s ==> x <= m
  {
    if |s| == 1 then s[0]
    else
      var rest := MaxOf(s[1..]);
      assert s == [s[0]] + s[1..];
      if s[0] >= rest then s[0] else rest
  }

  /** The integer statistics shown beside the chart. */
  datatype Stats = Stats(min: int, max: int)

  /** The effect of pressing "Simulate": nothing for a count that is not
      positive, no answer when the scripted stream runs out (where the
      source would keep rolling), else the results and their summary. */
  datatype Outcome = Ignored | Exhausted | Shown(results: seq<nat>, stats: Stats)

  /** `handleSimulate` after `parseInt`: the guard, the batch, the min/max. */
  function HandleSimulate(num: int, rolls: seq<Roll>): (o: Outcome)
    ensures o.Ignored? <==> num <= 0
    ensures o.Shown? <==> 0 < num <= CountWins(rolls)
    ensures o.Shown? ==> |o.results| == num
    ensures o.Shown? ==> o.stats.min in o.results && o.stats.max in o.results
    ensures o.Shown? ==> forall i :: 0 <= i < |o.results| ==>
              1 <= o.stats.min <= o.results[i] <= o.stats.max
  {
    if num <= 0 then Ignored
    else
      SimulateSucceedsIff(num, rolls);
      match Simulate(num, rolls)
      case None => Exhausted
      case Some(batch) =>
        var data := batch.results;
        var lo := MinOf(data);
        assert exists k :: 0 <= k < |data| && data[k] == lo;
        assert forall i :: 0 <= i < |data| ==> data[i] in data;
        Shown(data, Stats(lo, MaxOf(data)))
  }

  /** The results shown are those of the batch the source runs: each is
      the position of its trial's first Yahtzee, trials back to back. */
  lemma {:induction false} ShownResultsAreTrials(num: int, rolls: seq<Roll>)
    requires HandleSimulate(num, rolls).Shown?
    ensures exists rest :: Segmented(rolls, HandleSimulate(num, rolls).results, rest)
  {
    SimulateIsSegmented(num, rolls);
    var rest := Simulate(num, rolls).value.rest;
    assert Segmented(rolls, HandleSimulate(num, rolls).results, rest);
  }

  /** Minimum and maximum coincide exactly when every trial took the same
      number of rolls. */
  lemma {:induction false} MinEqualsMaxIffConstant(s: seq<int>)
    requires |s| > 0
    ensures MinOf(s) == MaxOf(s) <==> forall i :: 0 <= i < |s| ==> s[i] == s[0]
  {
    assert s[0] in s;
    if MinOf(s) == MaxOf(s) {
      forall i | 0 <= i < |s|
        ensures s[i] == s[0]
      {
        assert s[i] in s;
      }
    } else {
      var lo := MinOf(s);
      var hi := MaxOf(s);
      var k :| 0 <= k < |s| && s[k] == lo;
      var l :| 0 <= l < |s| && s[l] == hi;
      assert s[k] != s[l];
    }
  }
}
