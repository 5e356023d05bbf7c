# node-ping failure-streak tracker, in Dafny

`node-ping` is a small uptime monitor. It keeps a fixed list of domains. Every
interval it pings each one and keeps a count of consecutive failures per domain.
When a domain's count reaches `MAX_TRIES`, it posts `Domain <d> is down` to a
Discord webhook and resets that count. This project models that tracker and the
liveness rule the pings go through, and proves what they guarantee:

- the tracker starts with one zero entry per configured domain;
- within a tick, results are processed in order: a success resets its domain,
  a failure increments it, and the failure that reaches the threshold emits
  exactly one alert and resets it;
- counts stay in `[0, MAX_TRIES - 1]` and the key set never changes;
- domains are independent, within one tick and across many ticks;
- a sustained outage of `n` failing ticks emits `n / MAX_TRIES` alerts. They
  come `MAX_TRIES` ticks apart, and the count is left at `n % MAX_TRIES`.

Modules:

- `Config` (config.dfy): the constants `DOMAINS`, `TIMEOUT` and `MAX_TRIES`.
- `Ping` (ping.dfy): `customPing`'s liveness rule, and the one-result-per-domain,
  in-order shape of `Promise.all(DOMAINS.map(customPing))`.
- `Streak` (streak.dfy): one domain's counter, as a fold over the statuses that
  domain receives. It holds the throttling lemmas.
- `TickSpec` (tick_spec.dfy): the map from domain to count as a value. `Apply` is
  one `forEach` iteration, `RunTick` a tick, and `RunTicks` a sequence of ticks.
  It holds the projection lemmas that reduce the map to `Streak`.
- `Monitor` (monitor.dfy): the class `Tracker`, with the mutable `counts` map.
  Its constructor is the `reduce` loop. `ProcessResult` is the `forEach`
  callback, and `Tick` is the `forEach` loop. `Tick` is proved equal to `RunTick`.
- `Scenario` (scenario.dfy): a client of `Tracker` that replays an eight-tick
  run (threshold 4, three domains; ticks 4-7 fail for the first domain).

## Model

| member | source | states |
|---|---|---|
| `Ping.Status` | index.js:17-22 | The status is true exactly when the probe replied alive with a measured time strictly below the timeout. A thrown error, or a time of `'unknown'`, gives false. |
| `Ping.CustomPing` | index.js:15-24 | The result carries the pinged domain. Its status is exactly the liveness rule of `Ping.Status` applied to the probe's outcome, so it is "up" only if the probe replied alive. |
| `Ping.PingAll` | index.js:61 | There is one result per configured domain, in the configured order, and result `i`'s status is the liveness of outcome `i`. |
| `Ping.StatusMonotoneInTimeout` | index.js:19 | A side fact about the rule, since `TIMEOUT` is a constant in the source: a larger timeout never turns an "up" into a "down". |
| `Streak.Step` | index.js:64-77 | One result for the domain: an alert fires only on a failure, and the count is 0 after it. A count below `maxTries` stays below it. |
| `Streak.Run` | index.js:63-79 | One domain's fold over its statuses in order: an alert fires only if some status was a failure, and the count is 0 after a final success. |
| `Streak.RunBounded` | index.js:68-77 | A count that starts below `maxTries` stays below it, whatever statuses follow, and each status emits at most one alert. |
| `Streak.RunAppend` | index.js:63-79 | Processing `s + t` is processing `s`, then `t` from the count `s` left. The alerts add up. |
| `Streak.Recovery` | index.js:64-68 | After one success, what follows behaves exactly as if it started from 0: the prior streak is forgotten. |
| `Streak.FailuresBelowThreshold` | index.js:69-71 | From 0, `n < maxTries` failures leave the count at exactly `n` and emit no alert. |
| `Streak.FailuresInRounds` | index.js:69-77 | From 0, `k * maxTries + r` failures (`r < maxTries`) emit exactly `k` alerts and leave the count at `r`. |
| `Streak.SustainedOutage` | index.js:69-77 | From 0, `n` failures emit exactly `n / maxTries` alerts and leave the count at `n % maxTries`. |
| `Streak.OutageAlertsPeriodic` | index.js:71-76 | In an outage from 0, failure number `i` alerts if and only if `i` is a multiple of `maxTries`. |
| `TickSpec.AlertMessage` | index.js:75 | The template `Domain <d> is down`, 15 characters longer than the domain. |
| `TickSpec.AlertMessageInjective` | index.js:75 | Two domains with the same alert message are the same domain. |
| `TickSpec.InitialCounts` | index.js:54-57 | The keys are exactly the configured domains, and every value is 0. |
| `TickSpec.Apply` | index.js:63-79 | Processing one result keeps the key set. |
| `TickSpec.RunTick` | index.js:63-79 | A tick keeps the key set: no domain is added or removed. |
| `TickSpec.ApplyProjection` | index.js:63-79 | One result changes only its own domain's count, following the success/failure/threshold rule. It emits an alert only for its own domain. |
| `TickSpec.TickProjection` | index.js:63-79 | Domains are independent. After a tick, a domain's count and its number of alerts are its own streak, run over its own statuses from its old count. |
| `TickSpec.SingleResult` | index.js:61-63 | A domain with exactly one result in the tick receives exactly that status. |
| `TickSpec.TickOnDomain` | index.js:64-76 | For a domain with one result: success sets the count to 0 with no alert. A failure below the threshold sets it to old + 1 with no alert. A failure reaching the threshold emits exactly one `Domain <d> is down` and sets it to 0. |
| `TickSpec.TickLeavesOthersAlone` | index.js:63-79 | A domain with no result in the tick keeps its count and gets no alert. |
| `TickSpec.TickPreservesBounds` | index.js:68-76 | If every count is in `[0, maxTries - 1]` before a tick, every count is in that range after it. |
| `TickSpec.AlertsNameFailedDomains` | index.js:70-75 | Every alert of a tick is the message of a domain whose result in that tick was a failure. |
| `TickSpec.RunTicks` | index.js:59-79 | Successive ticks keep the key set. |
| `TickSpec.TicksProjection` | index.js:59-79 | Across many ticks, a domain's count and alerts are its own streak over the statuses it received, in order. |
| `TickSpec.SustainedOutageAcrossTicks` | index.js:59-79 | From count 0, `n` ticks in which the domain fails emit exactly `n / maxTries` alerts for it and leave its count at `n % maxTries`. |
| `TickSpec.OutageAlertsPeriodicAcrossTicks` | index.js:59-79 | In the same outage, tick number `i` emits one alert for the domain when `i` is a multiple of `maxTries`, and none otherwise. |
| `Monitor.Tracker.constructor` | index.js:54-57 | The `reduce` loop builds a map whose keys are the configured domains, each at 0. The tracker invariant holds. |
| `Monitor.Tracker.ProcessResult` | index.js:63-78 | The in-place update for one result equals `Apply` on the old counts: reset, increment, or alert and reset. |
| `Monitor.Tracker.Tick` | index.js:63-79 | The loop over the results leaves `counts` and the alerts equal to `RunTick` of the old counts. It preserves the tracker invariant. |
| `Monitor.Tracker.ProbeAndTick` | index.js:61-79 | The interval body applies `RunTick` to one result per configured domain, built from the probe outcomes in domain order under the `TIMEOUT` liveness rule. It keeps the invariant. |
| `Monitor.MainTracker` | index.js:54-57 | The tracker `main` builds over `DOMAINS` and `MAX_TRIES` has exactly those domains, all at 0. |
| `Scenario.OnlyFirstDownTick` | index.js:63-79 | In a tick over three distinct domains where only the first may fail, the other two stay at 0 and the first follows its streak. The tick's alerts are exactly `[Domain <first> is down]` on the first domain's fourth failure, and empty otherwise. |
| `Scenario.ScenarioTick` | index.js:63-79 | The same counts and the same alert sequence, on a live tracker, through `Tracker.Tick`. |
| `Scenario.EndToEnd` | index.js:54-79 | Three up ticks, then four ticks with the first domain down, then one up tick. Every tick's alert sequence is given in full: tick 7 emits exactly the first domain's message, every other tick emits nothing, and every count ends at 0. |

## Left out

- The ICMP probe (`ping.promise.probe`) and `awaitWithTimout`'s race against a timer (index.js:17, 49-51) are network I/O and timers. The probe's outcome is an input (`Ping.ProbeOutcome`). The probe is awaited before the race starts, so the timeout never bounds it, and the model claims no timeout guarantee.
- `logErrorToDiscord` (index.js:30-43) is an HTTP POST. An alert is modelled only as the emitted message string. The code still attempts the post when the webhook URL is empty, because it has no early return (index.js:31-36). The model makes no claim about delivery.
- The post is fire-and-forget, started inside the `forEach` (index.js:75). The model returns a tick's alerts, in result order, when the tick ends.
- `setInterval` scheduling, overlapping ticks, the concurrency of `Promise.all`, and the outer `try/catch` (index.js:59-61, 80-83) are timers and async concurrency. `customPing` catches every error, so `Promise.all` does not reject. `RunTicks` models ticks as strictly sequential.
- `INTERVAL`, `DISCORD_WEBHOOK_URL` and `DEBUG` (index.js:6, 8, 9) only feed the left-out parts. The `DEBUG` and `console.error` logging is output only.
- The top-level `await main()` (index.js:86) is not modelled.
- Monitor.Tracker.Tick: requires every result's domain to be tracked. The source's callers always meet this, because results come from `DOMAINS.map`. The model does not cover an untracked domain. In JavaScript, a success for one adds a new key at 0 (index.js:68). A failure computes `undefined + 1`, which stores `NaN` (index.js:70). `NaN >= MAX_TRIES` is false, so no alert fires and the value stays `NaN`.
- Monitor.Tracker.constructor: requires `maxTries >= 1` (the source uses 4). With 0, no count could lie in `[0, maxTries - 1]`.
- Ping.Status: models round-trip times as exact reals and the timeout as an integer number of milliseconds. JavaScript compares doubles.
- Counts are unbounded `nat`s. In JavaScript they are doubles, but they never exceed `MAX_TRIES`, so no rounding applies.
