/** The monitor's fixed configuration (index.js:4-7). */
module Config {
  /** The monitored domains, probed in this order on every tick. */
  const Domains: seq<string> := ["google.com", "facebook.com", "twitter.com"]

  /** A reply is only "up" when its round trip is below this many milliseconds. */
  const Timeout: int := 300

  /** Consecutive failures that trigger one alert. */
  const MaxTries: nat := 4
}
