/**
 * The record the disk sensors are built from (gopsutil's `disk.UsageStat`)
 * and the rounding both disk sensors apply to its used percentage, on real
 * numbers.
 */
module DiskStat {

  /** The fields of `disk.UsageStat` the sensors read or pass on. */
  datatype UsageStat = UsageStat(path: string, fstype: string, total: nat, free: nat, used: nat, usedPercent: real)

  /** `math.Round`: to the nearest integer, halves away from zero. */
  function Round(x: real): (n: int)
    ensures x - 0.5 <= n as real <= x + 0.5
    ensures x >= 0.0 ==> n >= 0
  {
    if x >= 0.0 then (x + 0.5).Floor else -((-x + 0.5).Floor)
  }

  /** `math.Round(p/0.05) * 0.05`: the percentage to the nearest multiple of 0.05. */
  function RoundedPercent(p: real): real
  {
    Round(p / 0.05) as real * 0.05
  }

  /** The rounded percentage is a multiple of 0.05 at most 0.025 away from the percentage. */
  lemma RoundedPercentClose(p: real)
    ensures (RoundedPercent(p) / 0.05).Floor as real == RoundedPercent(p) / 0.05
    ensures p - 0.025 <= RoundedPercent(p) <= p + 0.025
  {
    var k := Round(p / 0.05);
    assert RoundedPercent(p) == k as real * 0.05;
    assert p / 0.05 - 0.5 <= k as real <= p / 0.05 + 0.5;
  }
}
