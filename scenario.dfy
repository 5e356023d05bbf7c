/** A client of `Tracker`: three domains, threshold 4, eight ticks. */
module Scenario {
  import opened Ping
  import opened TickSpec
  import opened Monitor

  /** The results of one tick over `a`, `b`, `c` in which only `a` may be down. */
  function OnlyFirstDown(a: string, b: string, c: string, down: bool): (results: seq<ProbeResult>)
  {
    [ProbeResult(a, !down), ProbeResult(b, true), ProbeResult(c, true)]
  }

  /** What such a tick does with threshold 4: `b` and `c` stay at 0, `a`
      follows its own streak, and the tick's only possible alert is the one
      for `a` when its fourth failure arrives. */
  lemma OnlyFirstDownTick(before: Counts, a: string, b: string, c: string, down: bool)
    requires a != b && b != c && a != c
    requires before.Keys == {a, b, c}
    ensures var after := RunTick(before, OnlyFirstDown(a, b, c, down), 4);
            && after.counts.Keys == {a, b, c}
            && after.counts[b] == 0 && after.counts[c] == 0
            && after.counts[a] == (if down && before[a] + 1 < 4 then before[a] + 1 else 0)
            && after.alerts == (if down && before[a] + 1 >= 4 then [AlertMessage(a)] else [])
  {
    var results := OnlyFirstDown(a, b, c, down);
    assert Tracked(before, results);
    RunTickPrefix(before, results, 0, 4);
    RunTickPrefix(before, results, 1, 4);
    RunTickPrefix(before, results, 2, 4);
    assert results[..0] == [];
    assert results[..3] == results;
  }

  /** One tick of the scenario on a live tracker: the contract of `OnlyFirstDownTick`
      for the tracker's new counts and the alerts the tick emitted. */
  method ScenarioTick(t: Tracker, a: string, b: string, c: string, down: bool) returns (emitted: seq<string>)
    requires a != b && b != c && a != c
    requires t.counts.Keys == {a, b, c} && t.maxTries == 4
    modifies t
    ensures t.counts.Keys == {a, b, c}
    ensures t.counts[b] == 0 && t.counts[c] == 0
    ensures t.counts[a] == if down && old(t.counts[a]) + 1 < 4 then old(t.counts[a]) + 1 else 0
    ensures emitted == if down && old(t.counts[a]) + 1 >= 4 then [AlertMessage(a)] else []
  {
    OnlyFirstDownTick(t.counts, a, b, c, down);
    emitted := t.Tick(OnlyFirstDown(a, b, c, down));
  }

  /** Ticks 1-3 all up; ticks 4-7 `a` down; tick 8 all up. `alerts[j]` is
      what tick `j + 1` emitted: only tick 7 alerts, once, for `a`; every
      count ends at 0. */
  method EndToEnd(a: string, b: string, c: string) returns (alerts: seq<seq<string>>, final: Counts)
    requires a != b && b != c && a != c
    ensures alerts == [[], [], [], [], [], [], [AlertMessage(a)], []]
    ensures final == map[a := 0, b := 0, c := 0]
  {
    var t := new Tracker([a, b, c], 4);
    ghost var expected: seq<seq<string>> := [[], [], [], [], [], [], [AlertMessage(a)], []];
    alerts := [];
    var tick := 0;
    while tick < 8
      invariant 0 <= tick <= 8
      invariant t.counts.Keys == {a, b, c}
      invariant t.counts[b] == 0 && t.counts[c] == 0
      invariant t.counts[a] == if 3 <= tick < 7 then tick - 3 else 0
      invariant |alerts| == tick
      invariant forall j :: 0 <= j < tick ==> alerts[j] == expected[j]
    {
      var emitted := ScenarioTick(t, a, b, c, 3 <= tick < 7);
      alerts := alerts + [emitted];
      tick := tick + 1;
    }
    final := t.counts;
  }
}
