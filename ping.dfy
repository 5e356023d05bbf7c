/** The liveness rule of `customPing` (index.js:15-24): how one probe outcome becomes a status. */
module Ping {

  /** The round-trip time the probe reports: a number of milliseconds, or the
      string 'unknown' that the ping library gives when there was no reply. */
  datatype RoundTrip = Millis(ms: real) | Unknown

  /** What awaiting the probe produced: a reply record, or a thrown error. */
  datatype ProbeOutcome = Replied(alive: bool, time: RoundTrip) | Threw

  /** The record `customPing` resolves to. */
  datatype ProbeResult = ProbeResult(domain: string, status: bool)

  /** `alive && time < TIMEOUT`, with a thrown error collapsing to false.
      Comparing 'unknown' with a number is false in JavaScript. */
  function Status(outcome: ProbeOutcome, timeout: int): (up: bool)
    ensures up <==> outcome.Replied? && outcome.alive && outcome.time.Millis? && outcome.time.ms < timeout as real
    ensures outcome.Threw? ==> !up
  {
    match outcome
    case Threw => false
    case Replied(alive, Unknown) => false
    case Replied(alive, Millis(ms)) => alive && ms < timeout as real
  }

  /** One call of `customPing(domain)` given the probe's outcome. */
  function CustomPing(domain: string, outcome: ProbeOutcome, timeout: int): (r: ProbeResult)
    ensures r.domain == domain
    ensures r.status == Status(outcome, timeout)
    ensures r.status ==> outcome.Replied? && outcome.alive
  {
    ProbeResult(domain, Status(outcome, timeout))
  }

  /** `Promise.all(DOMAINS.map(customPing))`: one result per domain, in domain order. */
  function PingAll(domains: seq<string>, outcomes: seq<ProbeOutcome>, timeout: int): (rs: seq<ProbeResult>)
    requires |outcomes| == |domains|
    ensures |rs| == |domains|
    ensures forall i :: 0 <= i < |rs| ==> rs[i].domain == domains[i]
    ensures forall i :: 0 <= i < |rs| ==> (rs[i].status <==> Status(outcomes[i], timeout))
  {
    seq(|domains|, i requires 0 <= i < |domains| => CustomPing(domains[i], outcomes[i], timeout))
  }

  /** A longer timeout can only turn a "down" into an "up", never the reverse. */
  lemma StatusMonotoneInTimeout(outcome: ProbeOutcome, t1: int, t2: int)
    requires t1 <= t2
    ensures Status(outcome, t1) ==> Status(outcome, t2)
  {
  }
}
