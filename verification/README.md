# Yahtzee simulator: the trial engine in Dafny

This project models the dice-simulation engine of the Yahtzee simulator
(`src/App.js`). The engine has four parts:

- `rollDice` rolls five six-sided dice.
- `isYahtzee` is the win test: the roll shows exactly one distinct value.
- `simulateYahtzeeTrials(n)` runs `n` trials. Each trial rolls until a
  Yahtzee and records how many rolls it took.
- `handleSimulate` ignores a trial count that is not positive. Otherwise
  it runs the batch and summarises it by its smallest and largest result.

`Math.random` is replaced by an explicit, finite, scripted input.
`RollDice` reads five die draws from a stream of draws; each draw stands for
one `Math.floor(Math.random() * 6) + 1`. The trial engine reads a stream of
rolls (`seq<Roll>`). `RollStream` cuts a draw stream into such rolls.

The source loops forever when no Yahtzee ever comes. The model returns
`None` instead, when the stream runs out before the batch completes.
`SimulateSucceedsIff` states exactly when that happens: the stream holds
fewer Yahtzees than the requested number of trials.

Modules:

- `Wrappers` (`wrappers.dfy`): the `Option` type.
- `Dice` (`dice.dfy`): rolls, their well-formedness, `RollDice`, and `IsYahtzee`.
- `Trials` (`trials.dfy`): one trial (`RunTrial`) and a batch (`Simulate`).
  It holds the reference meaning of a batch (`Segmented`: back-to-back trials,
  each ending at its first Yahtzee) and `SimulateYahtzeeTrials`, the
  for/while loop of the source, proved equal to `Simulate`.
- `Summary` (`summary.dfy`): `HandleSimulate` with its guard, and the min/max.

`simulateYahtzeeTrials` returns an empty list for a count of zero or less,
because the loop body never runs, and `Simulate` does the same. The
positive-count guard lives in `handleSimulate`, as in the code.

## Model

| member | source | states |
|---|---|---|
| Dice.RollDice | src/App.js:16-18 | A roll takes exactly five draws, in order, and leaves the rest of the stream. It fails only when fewer than five draws remain. Legal draws give a well-formed roll (five dice, each 1..6). |
| Dice.RollStream | src/App.js:16-18 | Repeated rolls over a draw stream give one roll per five whole draws. Legal draws give a source in which every roll is well-formed. |
| Dice.RollStreamChunks | src/App.js:16-18 | Roll `k` of the stream is made of draws `5k` up to `5k + 5`, in order. |
| Dice.RollStreamFlatten | src/App.js:16-18 | Cutting the draws of five-dice rolls back into rolls gives the same rolls (a round trip). |
| Dice.IsYahtzee | src/App.js:20-22 | The win test: the set of distinct face values has exactly one element, which holds exactly when the roll is non-empty and that set is just its first die. `YahtzeeIffAllEqual` restates it die by die. |
| Dice.YahtzeeIffAllEqual | src/App.js:20-22 | The one-distinct-value test holds exactly when the roll is non-empty and every die equals the first. |
| Dice.TwoFacesNotYahtzee | src/App.js:20-22 | Any roll with two different faces is not a Yahtzee. |
| Dice.EmptyNotYahtzee | src/App.js:21 | The empty array has zero distinct values, so it is not a Yahtzee. |
| Dice.YahtzeeExamples | src/App.js:20-22 | [3,3,3,3,3] and [6,6,6,6,6] win. [1,1,1,1,2] and [1,2,3,4,5] do not. |
| Dice.WellFormedYahtzee | src/App.js:17-21 | A well-formed roll is a Yahtzee exactly when it is five copies of its first face. |
| Dice.AllShowIsYahtzee | src/App.js:17-21 | Five copies of any legal face form a well-formed roll that wins. |
| Trials.RunTrial | src/App.js:27-33 | A trial's count is at least 1, because `tries` is incremented before the win test. It never exceeds the number of rolls available. |
| Trials.RunTrialFindsFirstWin | src/App.js:27-33 | A trial completes exactly when some roll is a Yahtzee. Its count is then the 1-based position of the first winning roll, and no earlier roll wins. |
| Trials.RunTrialAt | src/App.js:27-33 | If the first Yahtzee is roll `t`, the trial records exactly `t`. |
| Trials.RunTrialConsumesOneWin | src/App.js:27-33 | A trial completes exactly when the stream holds a Yahtzee. Then exactly one Yahtzee is consumed. |
| Trials.Simulate | src/App.js:24-37 | A completed batch has exactly `n` results for `n >= 0`, and none for `n <= 0`. Every result is at least 1. |
| Trials.SimulateSucceedsIff | src/App.js:24-37 | `n` trials complete exactly when the stream holds at least `n` Yahtzees. The unread rest then holds exactly the others. |
| Trials.SimulateIsSegmented | src/App.js:26-35 | The results split the stream into back-to-back trials, pushed in trial order. Each result is the position of its trial's first Yahtzee. |
| Trials.SegmentedIsSimulate | src/App.js:26-35 | Any such split of the stream into first-win trials is the one the batch computes, so the batch's results are unique. |
| Trials.SegmentedConsumesSum | src/App.js:26-35 | The trials read `Sum(results)` rolls in all. What is left is the stream after them. |
| Trials.SimulateSplit | src/App.js:26-35 | Running `a + b` trials equals running `a` trials, then `b` more on the remaining stream, with the results concatenated. |
| Trials.SingleTrial | src/App.js:26-36 | One trial on a stream whose first Yahtzee is roll `k` returns `[k]`. |
| Trials.SimulateYahtzeeTrials | src/App.js:24-37 | The nested for/while loop with its `tries` counter completes exactly when the batch function does, and returns the same results. |
| Summary.MinOf | src/App.js:52 | The minimum is an element of the results and is at most every element. |
| Summary.MaxOf | src/App.js:53 | The maximum is an element of the results and is at least every element. |
| Summary.HandleSimulate | src/App.js:46-53 | A count of zero or less does nothing. A positive count shows results exactly when the stream holds enough Yahtzees. Shown results number the count. Min and max both occur among them, and `1 <= min <= every result <= max`. |
| Summary.ShownResultsAreTrials | src/App.js:50 | The shown results are a split of the stream into first-win trials. |
| Summary.MinEqualsMaxIffConstant | src/App.js:52-53 | Min equals max exactly when every trial took the same number of rolls. |

## Left out

- `Math.random` and the float-to-int mapping `Math.floor(Math.random() * 6) + 1` are not modelled. Each die draw is an input, and `ValidDraws` states that it lies in 1..6.
- Trials.Simulate: the source loops forever when no Yahtzee comes. The model returns `None` when its finite stream runs out. Every property is stated for the completed case, and `SimulateSucceedsIff` says when that case applies.
- The average (`src/App.js:51`) and its `toFixed` display are left out, because they use floating-point division and formatting. `Trials.Sum` is not that sum's model: it serves only in `SegmentedConsumesSum`, as the number of rolls the trials of a batch read.
- `parseInt` on the text input is left out, because its parsing is a JavaScript built-in. Only the resulting `num <= 0` guard is modelled.
- React state, JSX rendering, the `setTimeout` loading delay, and the loading flag are left out as UI plumbing.
- The Chart.js imports and registration, and the chart data and options, are left out as presentation in a foreign library.
- Statistical properties, such as the expected 1296 rolls per trial, are left out: a deterministic model cannot state them.
- `Math.min(...data)` and `Math.max(...data)` are modelled on non-empty arrays only. The guard ensures the array is never empty. The engine-specific limit on spread-argument counts is not modelled.
- Trials.RunTrial, Trials.Simulate, Summary.HandleSimulate: counts are unbounded `nat`, while JavaScript numbers are IEEE doubles. Past 2^53 the `tries++` counter stops growing (2^53 + 1 rounds back to 2^53), and `results.push` throws a RangeError once a batch would hold more than 2^32 - 1 results. The model does not reproduce either limit; both lie far beyond any realistic run.
