/** One domain's consecutive-failure counter (index.js:63-79), as a pure fold
    over the statuses that domain receives. */
module Streak {

  /** The outcome of processing one status: the new count and whether an alert fired. */
  datatype StepResult = StepResult(count: nat, alerted: bool)

  /** A run: the count at its end and how many alerts fired along the way. */
  datatype RunResult = RunResult(count: nat, alerts: nat)

  /** One result for the domain: success resets; failure increments, and on
      reaching `maxTries` fires an alert and resets. */
  function Step(count: nat, status: bool, maxTries: nat): (step: StepResult)
    ensures step.alerted ==> !status && step.count == 0
    ensures count < maxTries ==> step.count < maxTries
  {
    if status then StepResult(0, false)
    else if count + 1 >= maxTries then StepResult(0, true)
    else StepResult(count + 1, false)
  }

  /** Processes `statuses` in order, starting from `count`. */
  function Run(count: nat, statuses: seq<bool>, maxTries: nat): (run: RunResult)
    ensures run.alerts > 0 ==> exists i :: 0 <= i < |statuses| && !statuses[i]
    ensures |statuses| > 0 && statuses[|statuses| - 1] ==> run.count == 0
    decreases |statuses|
  {
    if statuses == [] then RunResult(count, 0)
    else
      var before := Run(count, statuses[..|statuses| - 1], maxTries);
      var step := Step(before.count, statuses[|statuses| - 1], maxTries);
      RunResult(step.count, before.alerts + if step.alerted then 1 else 0)
  }

  /** `n` failures in a row. */
  function Failures(n: nat): (s: seq<bool>)
    ensures |s| == n && forall i :: 0 <= i < n ==> !s[i]
  {
    seq(n, i => false)
  }

  /** A count below the threshold stays below it, and each status fires at
      most one alert. */
  lemma {:induction false} RunBounded(count: nat, statuses: seq<bool>, maxTries: nat)
    requires count < maxTries
    ensures Run(count, statuses, maxTries).count < maxTries
    ensures Run(count, statuses, maxTries).alerts <= |statuses|
    decreases |statuses|
  {
    if statuses != [] {
      RunBounded(count, statuses[..|statuses| - 1], maxTries);
    }
  }

  /** Running `s + t` is running `s`, then running `t` from where `s` ended. */
  lemma {:induction false} RunAppend(count: nat, s: seq<bool>, t: seq<bool>, maxTries: nat)
    ensures Run(count, s + t, maxTries).count == Run(Run(count, s, maxTries).count, t, maxTries).count
    ensures Run(count, s + t, maxTries).alerts
         == Run(count, s, maxTries).alerts + Run(Run(count, s, maxTries).count, t, maxTries).alerts
    decreases |t|
  {
    if t == [] {
      assert s + t == s;
    } else {
      var t' := t[..|t| - 1];
      assert (s + t)[..|s + t| - 1] == s + t';
      assert (s + t)[|s + t| - 1] == t[|t| - 1];
      RunAppend(count, s, t', maxTries);
    }
  }

  /** A success at any point wipes out the streak: what follows counts from zero. */
  lemma Recovery(count: nat, s: seq<bool>, t: seq<bool>, maxTries: nat)
    ensures Run(count, s + [true] + t, maxTries).count == Run(0, t, maxTries).count
    ensures Run(count, s + [true] + t, maxTries).alerts
         == Run(count, s, maxTries).alerts + Run(0, t, maxTries).alerts
  {
    RunAppend(count, s + [true], t, maxTries);
    RunAppend(count, s, [true], maxTries);
    assert [true][..0] == [];
  }

  /** Below the threshold, `n` failures from zero leave the count at exactly `n`
      and fire nothing. */
  lemma FailuresBelowThreshold(n: nat, maxTries: nat)
    requires n < maxTries
    ensures Run(0, Failures(n), maxTries) == RunResult(n, 0)
  {
    FailuresInRounds(0, n, maxTries);
  }

  /** `k * maxTries + r` failures from zero (with `r < maxTries`) fire exactly `k`
      alerts and leave the count at `r`. */
  lemma {:induction false} FailuresInRounds(k: nat, r: nat, maxTries: nat)
    requires r < maxTries
    ensures Run(0, Failures(k * maxTries + r), maxTries) == RunResult(r, k)
    decreases k, r
  {
    var n := k * maxTries + r;
    if r > 0 {
      assert Failures(n)[..n - 1] == Failures(n - 1);
      FailuresInRounds(k, r - 1, maxTries);
    } else if k > 0 {
      assert n == (k - 1) * maxTries + (maxTries - 1) + 1;
      assert Failures(n)[..n - 1] == Failures(n - 1);
      FailuresInRounds(k - 1, maxTries - 1, maxTries);
    }
  }

  /** A sustained outage of `n` failures from zero fires exactly `n / maxTries`
      alerts and leaves the count at `n % maxTries`. */
  lemma SustainedOutage(n: nat, maxTries: nat)
    requires maxTries >= 1
    ensures Run(0, Failures(n), maxTries) == RunResult(n % maxTries, n / maxTries)
  {
    var k, r := n / maxTries, n % maxTries;
    assert n == k * maxTries + r;
    FailuresInRounds(k, r, maxTries);
  }

  /** During a sustained outage from zero, failure number `i` (counting from 1)
      fires an alert exactly when `i` is a multiple of `maxTries`: alerts are
      `maxTries` failures apart. */
  lemma OutageAlertsPeriodic(i: nat, maxTries: nat)
    requires maxTries >= 1 && i >= 1
    ensures Step(Run(0, Failures(i - 1), maxTries).count, false, maxTries).alerted <==> i % maxTries == 0
  {
    SustainedOutage(i - 1, maxTries);
    SustainedOutage(i, maxTries);
    assert Failures(i)[..i - 1] == Failures(i - 1);
  }
}
