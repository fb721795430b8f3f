/** The lease a worker takes, and the interval at which its heartbeat renews it; durations are nanoseconds. */
module Lease {

  const SECOND := 1_000_000_000
  const MINUTE := 60 * SECOND
  const HTTP_TIMEOUT := 15 * SECOND
  const EXEC_TIMEOUT := 60 * SECOND
  const SAFETY_MARGIN := 2 * MINUTE
  const SHORTEST_LEASE := 5 * MINUTE
  const SHORTEST_INTERVAL := 15 * SECOND

  /** An action of the configuration; an exec action may set its own timeout. */
  datatype ActionSpec = Http | Exec(timeout: int)

  function ActionTimeout(a: ActionSpec): int {
    match a
    case Http => HTTP_TIMEOUT
    case Exec(timeout) => if timeout > 0 then timeout else EXEC_TIMEOUT
  }

  /** actionTimeout. */
  method TimeoutOf(a: ActionSpec) returns (t: int)
    ensures t == ActionTimeout(a)
  {
    if a.Exec? {
      if a.timeout > 0 {
        return a.timeout;
      }
      return 60 * 1_000_000_000;
    }
    t := 15 * 1_000_000_000;
  }

  /** The time one pass over a source's actions may spend in handlers. */
  function PassTime(actions: seq<ActionSpec>): int {
    if actions == [] then 0 else PassTime(actions[..|actions| - 1]) + ActionTimeout(actions[|actions| - 1])
  }

  /**
    The lease outlasts a pass over any configured source by the safety margin, is the least such lease unless a
    floor applies, and leaves room for at least two renewals.
   */
  method ComputeLease(sources: seq<seq<ActionSpec>>) returns (lease: int)
    ensures forall k :: 0 <= k < |sources| ==> PassTime(sources[k]) + SAFETY_MARGIN <= lease
    ensures lease >= SHORTEST_LEASE
    ensures lease == SHORTEST_LEASE || exists k :: 0 <= k < |sources| && lease == PassTime(sources[k]) + SAFETY_MARGIN
    ensures 2 * RenewalInterval(lease) < lease
  {
    var longest := HTTP_TIMEOUT;
    for k := 0 to |sources|
      invariant longest >= HTTP_TIMEOUT
      invariant forall j :: 0 <= j < k ==> PassTime(sources[j]) <= longest
      invariant longest == HTTP_TIMEOUT || exists j :: 0 <= j < k && longest == PassTime(sources[j])
    {
      var pass := 0;
      for i := 0 to |sources[k]|
        invariant pass == PassTime(sources[k][..i])
      {
        assert sources[k][..i + 1][..i] == sources[k][..i];
        var t := TimeoutOf(sources[k][i]);
        pass := pass + t;
      }
      assert sources[k][..|sources[k]|] == sources[k];
      if pass > longest {
        longest := pass;
      }
    }
    lease := longest + SAFETY_MARGIN;
    if lease < SHORTEST_LEASE {
      lease := SHORTEST_LEASE;
    }
  }

  /** The ticker of leaseHeartbeat. */
  function RenewalInterval(lease: int): int {
    if lease / 3 < SHORTEST_INTERVAL then SHORTEST_INTERVAL else lease / 3
  }

  /** The first lines of leaseHeartbeat. */
  method HeartbeatInterval(lease: int) returns (interval: int)
    requires lease >= 0
    ensures interval == RenewalInterval(lease)
  {
    interval := lease / 3;
    if interval < 15 * 1_000_000_000 {
      interval := 15 * 1_000_000_000;
    }
  }
}
