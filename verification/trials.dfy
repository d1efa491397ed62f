/** The trial engine of `simulateYahtzeeTrials`, run over an explicit,
    finite stream of rolls in place of `Math.random`. Where the source would
    keep rolling forever, the model answers `None`: the stream ran out. */
module Trials {
  import opened Wrappers
  import opened Dice

  /** Some roll of the stream is a Yahtzee. */
  ghost predicate HasWin(rolls: seq<Roll>) {
    exists i :: 0 <= i < |rolls| && IsYahtzee(rolls[i])
  }

  /** `t` is the 1-based position of the first Yahtzee in `rolls`: roll `t`
      wins and no earlier roll does. This is what one trial records. */
  ghost predicate FirstWinAt(rolls: seq<Roll>, t: int) {
    && 1 <= t <= |rolls|
    && IsYahtzee(rolls[t - 1])
    && forall j :: 0 <= j < t - 1 ==> !IsYahtzee(rolls[j])
  }

  /** The number of Yahtzees in a stream of rolls. */
  function CountWins(rolls: seq<Roll>): nat {
    if |rolls| == 0 then 0
    else (if IsYahtzee(rolls[0]) then 1 else 0) + CountWins(rolls[1..])
  }

  /** The sum of a batch's results: the number of rolls the batch read. */
  function Sum(s: seq<nat>): nat {
    if |s| == 0 then 0 else s[0] + Sum(s[1..])
  }

  /** The outcome of a completed batch: one result per trial, in trial
      order, and the part of the stream no trial read. */
  datatype Batch = Batch(results: seq<nat>, rest: seq<Roll>)

  /** `results` splits `rolls` into consecutive trials, each ending at its
      first Yahtzee, and `rest` is what the trials left unread. */
  ghost predicate Segmented(rolls: seq<Roll>, results: seq<nat>, rest: seq<Roll>)
    decreases |results|
  {
    if |results| == 0 then rest == rolls
    else FirstWinAt(rolls, results[0]) && Segmented(rolls[results[0]..], results[1..], rest)
  }

  /** One trial: roll until a Yahtzee and count the rolls, including the
      winning one. `None` when the stream has no Yahtzee left. */
  function RunTrial(rolls: seq<Roll>): (r: Option<nat>)
    ensures r.Some? ==> 1 <= r.value <= |rolls|
    decreases |rolls|
  {
    if |rolls| == 0 then None
    else if IsYahtzee(rolls[0]) then Some(1)
    else
      match RunTrial(rolls[1..])
      case None => None
      case Some(t) => Some(t + 1)
  }

  /** `numTrials` trials run one after another on the stream, each reading
      the rolls after the previous one's winning roll. A count of zero or
      less runs no trial. `None` when the stream runs out first. */
  function Simulate(numTrials: int, rolls: seq<Roll>): (r: Option<Batch>)
    ensures r.Some? ==> |r.value.results| == (if numTrials <= 0 then 0 else numTrials)
    ensures r.Some? ==> forall i :: 0 <= i < |r.value.results| ==> r.value.results[i] >= 1
    decreases numTrials
  {
    if numTrials <= 0 then Some(Batch([], rolls))
    else
      match RunTrial(rolls)
      case None => None
      case Some(t) =>
        match Simulate(numTrials - 1, rolls[t..])
        case None => None
        case Some(b) =>
          assert ([t] + b.results)[1..] == b.results;
          Some(Batch([t] + b.results, b.rest))
  }

  /** A trial succeeds exactly when some roll is a Yahtzee, and it then
      records the position of the first one. */
  lemma {:induction false} RunTrialFindsFirstWin(rolls: seq<Roll>)
    ensures RunTrial(rolls).Some? <==> HasWin(rolls)
    ensures RunTrial(rolls).Some? ==> FirstWinAt(rolls, RunTrial(rolls).value)
    decreases |rolls|
  {
    if |rolls| > 0 && !IsYahtzee(rolls[0]) {
      var tail := rolls[1..];
      RunTrialFindsFirstWin(tail);
      assert forall j :: 0 <= j < |tail| ==> tail[j] == rolls[j + 1];
      if HasWin(rolls) {
        var i :| 0 <= i < |rolls| && IsYahtzee(rolls[i]);
        assert IsYahtzee(tail[i - 1]);
      }
    }
  }

  /** Two first-win positions of the same stream coincide. */
  lemma FirstWinUnique(rolls: seq<Roll>, t: int, u: int)
    requires FirstWinAt(rolls, t) && FirstWinAt(rolls, u)
    ensures t == u
  {
  }

  /** A trial's result is determined by where the first Yahtzee lies. */
  lemma RunTrialAt(rolls: seq<Roll>, t: int)
    requires FirstWinAt(rolls, t)
    ensures RunTrial(rolls) == Some(t)
  {
    RunTrialFindsFirstWin(rolls);
    assert HasWin(rolls);
    FirstWinUnique(rolls, t, RunTrial(rolls).value);
  }

  /** A trial succeeds exactly when the stream holds a Yahtzee, and then it
      consumes exactly one of them. */
  lemma {:induction false} RunTrialConsumesOneWin(rolls: seq<Roll>)
    ensures RunTrial(rolls).Some? <==> CountWins(rolls) > 0
    ensures RunTrial(rolls).Some? ==> CountWins(rolls[RunTrial(rolls).value..]) + 1 == CountWins(rolls)
    decreases |rolls|
  {
    if |rolls| != 0 && !IsYahtzee(rolls[0]) {
      RunTrialConsumesOneWin(rolls[1..]);
      if RunTrial(rolls).Some? {
        assert rolls[1..][RunTrial(rolls[1..]).value..] == rolls[RunTrial(rolls).value..];
      }
    }
  }

  /** A batch that starts with a winning trial is that trial's result
      followed by the remaining trials run on the rest of the stream. */
  lemma SimulateCons(n: int, rolls: seq<Roll>, t: nat)
    requires n > 0 && RunTrial(rolls) == Some(t)
    ensures Simulate(n, rolls) ==
              match Simulate(n - 1, rolls[t..])
              case None => None
              case Some(b) => Some(Batch([t] + b.results, b.rest))
  {
  }

  /** A batch of `n` trials completes exactly when the stream holds at
      least `n` Yahtzees, and then it leaves exactly the others unread. */
  lemma {:induction false} SimulateSucceedsIff(n: nat, rolls: seq<Roll>)
    ensures Simulate(n, rolls).Some? <==> n <= CountWins(rolls)
    ensures Simulate(n, rolls).Some? ==> CountWins(Simulate(n, rolls).value.rest) + n == CountWins(rolls)
    decreases n
  {
    if n > 0 {
      RunTrialConsumesOneWin(rolls);
      if RunTrial(rolls).Some? {
        var t := RunTrial(rolls).value;
        SimulateSucceedsIff(n - 1, rolls[t..]);
        SimulateCons(n, rolls, t);
      }
    }
  }

  /** Each result of a completed batch is the position, within its own
      trial's rolls, of that trial's first Yahtzee; trial `i + 1` starts
      right after the winning roll of trial `i`. */
  lemma {:induction false} SimulateIsSegmented(n: int, rolls: seq<Roll>)
    ensures Simulate(n, rolls).Some? ==>
              Segmented(rolls, Simulate(n, rolls).value.results, Simulate(n, rolls).value.rest)
    decreases n
  {
    if n > 0 && RunTrial(rolls).Some? {
      var t := RunTrial(rolls).value;
      RunTrialFindsFirstWin(rolls);
      SimulateIsSegmented(n - 1, rolls[t..]);
      SimulateCons(n, rolls, t);
      if Simulate(n - 1, rolls[t..]).Some? {
        var b := Simulate(n - 1, rolls[t..]).value;
        assert ([t] + b.results)[1..] == b.results;
      }
    }
  }

  /** The segmentation of a stream into trials is unique: any split of the
      stream into first-win trials is the one `Simulate` computes. */
  lemma {:induction false} SegmentedIsSimulate(rolls: seq<Roll>, results: seq<nat>, rest: seq<Roll>)
    requires Segmented(rolls, results, rest)
    ensures Simulate(|results|, rolls) == Some(Batch(results, rest))
    decreases |results|
  {
    if |results| > 0 {
      var t := results[0];
      RunTrialAt(rolls, t);
      SegmentedIsSimulate(rolls[t..], results[1..], rest);
      SimulateCons(|results|, rolls, t);
      assert [t] + results[1..] == results;
    }
  }

  /** The trials of a segmentation read `Sum(results)` rolls in all, and
      what is left is the stream after them. */
  lemma {:induction false} SegmentedConsumesSum(rolls: seq<Roll>, results: seq<nat>, rest: seq<Roll>)
    requires Segmented(rolls, results, rest)
    ensures Sum(results) <= |rolls| && rest == rolls[Sum(results)..]
    decreases |results|
  {
    if |results| > 0 {
      var t := results[0];
      SegmentedConsumesSum(rolls[t..], results[1..], rest);
      assert rolls[t..][Sum(results[1..])..] == rolls[t + Sum(results[1..])..];
    }
  }

  /** Appends a further `more` trials to an outcome of `Simulate`, reading
      the stream where the earlier trials stopped. */
  function Continue(first: Option<Batch>, more: int): Option<Batch> {
    match first
    case None => None
    case Some(x) =>
      match Simulate(more, x.rest)
      case None => None
      case Some(y) => Some(Batch(x.results + y.results, y.rest))
  }

  /** Prepending a trial's count commutes with concatenating two batches. */
  lemma ConsAssoc(t: nat, xs: seq<nat>, ys: seq<nat>)
    ensures [t] + (xs + ys) == ([t] + xs) + ys
  {
  }

  /** Running `a + b` trials is running `a` trials and then `b` more on the
      rest of the stream; the results are concatenated in trial order. */
  lemma {:induction false} SimulateSplit(a: nat, b: nat, rolls: seq<Roll>)
    ensures Simulate(a + b, rolls) == Continue(Simulate(a, rolls), b)
    decreases a
  {
    if a == 0 {
      if Simulate(b, rolls).Some? {
        assert [] + Simulate(b, rolls).value.results == Simulate(b, rolls).value.results;
      }
    } else if RunTrial(rolls).Some? {
      var t := RunTrial(rolls).value;
      SimulateSplit(a - 1, b, rolls[t..]);
      SplitStep(a, b, rolls, t);
    }
  }

  /** The inductive step of `SimulateSplit`: a first winning trial of `t`
      rolls is prepended on both sides. */
  lemma SplitStep(a: nat, b: nat, rolls: seq<Roll>, t: nat)
    requires a > 0 && RunTrial(rolls) == Some(t)
    requires Simulate(a - 1 + b, rolls[t..]) == Continue(Simulate(a - 1, rolls[t..]), b)
    ensures Simulate(a + b, rolls) == Continue(Simulate(a, rolls), b)
  {
    SimulateCons(a, rolls, t);
    SimulateCons(a + b, rolls, t);
    match Simulate(a - 1, rolls[t..])
    case None =>
    case Some(x) =>
      match Simulate(b, x.rest)
      case None =>
      case Some(y) => ConsAssoc(t, x.results, y.results);
  }

  /** A single trial on a stream whose first Yahtzee is roll `k` records `k`. */
  lemma SingleTrial(rolls: seq<Roll>, k: int)
    requires FirstWinAt(rolls, k)
    ensures Simulate(1, rolls) == Some(Batch([k], rolls[k..]))
  {
    RunTrialAt(rolls, k);
    SimulateCons(1, rolls, k);
    assert [k] + [] == [k];
  }

  /** No roll from `start` on is a Yahtzee. */
  lemma NoWinFrom(rolls: seq<Roll>, start: nat)
    requires start <= |rolls|
    requires forall j :: start <= j < |rolls| ==> !IsYahtzee(rolls[j])
    ensures !HasWin(rolls[start..])
  {
  }

  /** Roll `p` is the first Yahtzee from `start` on. */
  lemma FirstWinFrom(rolls: seq<Roll>, start: nat, p: nat)
    requires start <= p < |rolls| && IsYahtzee(rolls[p])
    requires forall j :: start <= j < p ==> !IsYahtzee(rolls[j])
    ensures FirstWinAt(rolls[start..], p - start + 1)
  {
  }

  /** One more trial that wins on roll `tries` after the unread point
      extends the batch by that result. */
  lemma BatchGrows(i: nat, rolls: seq<Roll>, results: seq<nat>, start: nat, tries: nat)
    requires start + tries <= |rolls|
    requires Simulate(i, rolls) == Some(Batch(results, rolls[start..]))
    requires FirstWinAt(rolls[start..], tries)
    ensures Simulate(i + 1, rolls) == Some(Batch(results + [tries], rolls[start + tries..]))
  {
    SingleTrial(rolls[start..], tries);
    assert rolls[start..][tries..] == rolls[start + tries..];
    SimulateSplit(i, 1, rolls);
  }

  /** If no Yahtzee is left after `i` completed trials, a batch of more
      than `i` trials cannot complete. */
  lemma BatchStops(n: int, i: nat, rolls: seq<Roll>, results: seq<nat>, start: nat)
    requires i < n && start <= |rolls|
    requires Simulate(i, rolls) == Some(Batch(results, rolls[start..]))
    requires !HasWin(rolls[start..])
    ensures Simulate(n, rolls).None?
  {
    RunTrialFindsFirstWin(rolls[start..]);
    SimulateSplit(i, 1, rolls);
    SimulateSplit(i + 1, n - i - 1, rolls);
  }

  /** The loop of `simulateYahtzeeTrials`: an outer `for` over the trials
      and an inner roll-until-win loop with a `tries` counter. `completed`
      is false when the stream runs out before all trials have won. */
  method SimulateYahtzeeTrials(numTrials: int, rolls: seq<Roll>) returns (results: seq<nat>, completed: bool)
    ensures completed <==> Simulate(numTrials, rolls).Some?
    ensures completed ==> results == Simulate(numTrials, rolls).value.results
  {
    results := [];
    var pos := 0;
    var i := 0;
    while i < numTrials
      invariant 0 <= i && (i <= numTrials || i == 0)
      invariant 0 <= pos <= |rolls|
      invariant Simulate(i, rolls) == Some(Batch(results, rolls[pos..]))
      decreases numTrials - i
    {
      var start := pos;
      var tries := 0;
      while true
        invariant start <= pos <= |rolls|
        invariant tries == pos - start
        invariant forall j :: start <= j < pos ==> !IsYahtzee(rolls[j])
        decreases |rolls| - pos
      {
        if pos == |rolls| {
          NoWinFrom(rolls, start);
          BatchStops(numTrials, i, rolls, results, start);
          completed := false;
          return;
        }
        tries := tries + 1;
        var roll := rolls[pos];
        pos := pos + 1;
        if IsYahtzee(roll) {
          FirstWinFrom(rolls, start, pos - 1);
          BatchGrows(i, rolls, results, start, tries);
          results := results + [tries];
          break;
        }
      }
      i := i + 1;
    }
    completed := true;
  }
}
