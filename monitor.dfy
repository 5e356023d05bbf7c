/** The state `main` owns (index.js:53-84): the `tracker` object, filled by a
    `reduce` and then updated in place by each interval tick. */
module Monitor {
  import Config
  import opened Ping
  import opened Streak
  import opened TickSpec

  class Tracker {
    /** The configured domains, fixed for the life of the process. */
    const domains: seq<string>
    /** The failure threshold. */
    const maxTries: nat
    /** The `tracker` object: domain to consecutive-failure count. */
    var counts: Counts

    /** Exactly one entry per configured domain, each below the threshold. */
    ghost predicate Valid()
      reads this
    {
      && maxTries >= 1
      && counts.Keys == (set d | d in domains)
      && Bounded(counts, maxTries)
    }

    /** index.js:54-57: every configured domain starts at 0, no other key exists. */
    constructor (domains: seq<string>, maxTries: nat)
      requires maxTries >= 1
      ensures Valid()
      ensures this.domains == domains && this.maxTries == maxTries
      ensures counts == InitialCounts(domains)
    {
      var acc: Counts := map[];
      for i := 0 to |domains|
        invariant acc == InitialCounts(domains[..i])
      {
        assert domains[..i + 1][..i] == domains[..i];
        acc := acc[domains[i] := 0];
      }
      assert domains[..|domains|] == domains;
      this.domains := domains;
      this.maxTries := maxTries;
      counts := acc;
    }

    /** The `forEach` callback of index.js:63-79, for one result. A success
        resets its domain; a failure increments it and, on reaching the
        threshold, emits the alert and resets. */
    method ProcessResult(result: ProbeResult) returns (alerts: seq<string>)
      requires result.domain in counts
      modifies this`counts
      ensures TickState(counts, alerts) == Apply(old(counts), result, maxTries)
    {
      var domain, status := result.domain, result.status;
      alerts := [];
      if status {
        counts := counts[domain := 0];
      } else {
        counts := counts[domain := counts[domain] + 1];
        if counts[domain] >= maxTries {
          alerts := [AlertMessage(domain)];
          counts := counts[domain := 0];
        }
      }
    }

    /** index.js:63-79: the results of one tick, processed in order. */
    method Tick(results: seq<ProbeResult>) returns (alerts: seq<string>)
      requires Tracked(counts, results)
      modifies this`counts
      ensures old(Valid()) ==> Valid()
      ensures TickState(counts, alerts) == RunTick(old(counts), results, maxTries)
    {
      ghost var initial := counts;
      alerts := [];
      var i := 0;
      while i < |results|
        invariant 0 <= i <= |results|
        invariant TickState(counts, alerts) == RunTick(initial, results[..i], maxTries)
      {
        RunTickPrefix(initial, results, i, maxTries);
        var emitted := ProcessResult(results[i]);
        alerts := alerts + emitted;
        i := i + 1;
      }
      assert results[..|results|] == results;
      if old(Valid()) {
        TickPreservesBounds(initial, results, maxTries);
      }
    }

    /** The body of the interval callback (index.js:61-79): probe every domain
        (the outcomes are given, one per domain in order) under the `TIMEOUT`
        liveness rule, then process the results. */
    method ProbeAndTick(outcomes: seq<ProbeOutcome>) returns (alerts: seq<string>)
      requires Valid() && |outcomes| == |domains|
      modifies this`counts
      ensures Valid()
      ensures TickState(counts, alerts) == RunTick(old(counts), PingAll(domains, outcomes, Config.Timeout), maxTries)
    {
      var results := PingAll(domains, outcomes, Config.Timeout);
      assert forall i :: 0 <= i < |results| ==> results[i].domain in domains;
      alerts := Tick(results);
    }
  }

  /** The tracker `main` creates, over the configured domains and threshold. */
  method MainTracker() returns (t: Tracker)
    ensures fresh(t) && t.Valid()
    ensures t.domains == Config.Domains && t.maxTries == Config.MaxTries
    ensures forall d :: d in t.counts <==> d in Config.Domains
    ensures forall d :: d in t.counts ==> t.counts[d] == 0
  {
    t := new Tracker(Config.Domains, Config.MaxTries);
  }
}
