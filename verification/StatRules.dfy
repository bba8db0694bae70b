/** What one more measurement makes of a server's row: the step between the rows
    before and after it, whatever was recorded before (recordPingStat and
    recordSpeedStat in vair/core/nodestats.go). */
module StatRules {
  import opened Decimal
  import opened NodeStats
  import opened WindowText

  /** A running mean and its variance: seeded by the first value, then a fifth of the
      way to each new one. */
  predicate FoldsTo(avg: real, vari: real, x: real, avg': real, vari': real) {
    if avg == 0.0 then avg' == x && vari' == 0.0
    else
      var d := x - avg;
      avg' == avg + 0.2 * d && vari' == 0.8 * (vari + 0.2 * d * d)
  }

  /** Time t in whole minutes, what is over left away, as a 32-bit number. */
  ghost predicate InMinutes(m: int, t: int) {
    && -0x8000_0000 <= m < 0x8000_0000
    && exists q: int :: TruncatedMinutes(q, t) && (m - q) % 0x1_0000_0000 == 0
  }

  predicate TruncatedMinutes(q: int, t: int) {
    if t >= 0 then 60 * q <= t < 60 * q + 60 else 60 * q - 60 < t <= 60 * q
  }

  /** A window of the newest n values, after one more. */
  predicate Pushed<T(==)>(was: seq<T>, x: T, n: nat, now: seq<T>) {
    var all := was + [x];
    now == if |all| > n then all[|all| - n..] else all
  }

  /** A ping: an answer moves the delay figures by what it took, half a minute at
      most, and a failure does not; either moves the success rate and the windows of
      twenty. */
  ghost predicate PingStep(s: NodeStat, delayMs: int, answered: bool, now: int, t: NodeStat) {
    var good := answered && delayMs > 0;
    var x := if delayMs < 30000 then delayMs else 30000;
    && t.samples == s.samples + 1
    && (if good then FoldsTo(s.pingAvg, s.pingVar, x as real, t.pingAvg, t.pingVar)
        else t.pingAvg == s.pingAvg && t.pingVar == s.pingVar)
    && t.ok == (if s.samples == 0 then (if good then 1.0 else 0.0) else s.ok + 0.2 * ((if good then 1.0 else 0.0) - s.ok))
    && Pushed<Int16>(s.recent, if good then x else -1, 20, t.recent)
    && (exists m: Int32 :: InMinutes(m, now) && Pushed(s.recentAt, m, 20, t.recentAt))
    && t.speedAvg == s.speedAvg && t.speedVar == s.speedVar && t.speedSeen == s.speedSeen
    && t.speedRecent == s.speedRecent && t.speedRecentAt == s.speedRecentAt
  }

  /** A speed of a measurement in hundredths, as a 16-bit number. */
  predicate InHundredths(m: int, mbps: real) {
    if mbps >= 327.67 then m == 32767 else 0 <= m && m as real <= mbps * 100.0 < m as real + 1.0
  }

  /** A speed measurement: it moves the speed figures and the windows of eight. */
  ghost predicate SpeedStep(s: NodeStat, mbps: real, now: int, t: NodeStat) {
    && t.speedSeen == s.speedSeen + 1 && FoldsTo(s.speedAvg, s.speedVar, mbps, t.speedAvg, t.speedVar)
    && (exists m: Int16 :: InHundredths(m, mbps) && Pushed(s.speedRecent, m, 8, t.speedRecent))
    && (exists m: Int32 :: InMinutes(m, now) && Pushed(s.speedRecentAt, m, 8, t.speedRecentAt))
    && t.pingAvg == s.pingAvg && t.pingVar == s.pingVar && t.ok == s.ok && t.samples == s.samples
    && t.recent == s.recent && t.recentAt == s.recentAt
  }

  lemma MinuteIsMinutes(t: int)
    ensures InMinutes(Minute(t), t)
  {
    var q := if t >= 0 then t / 60 else -(-t / 60);
    assert TruncatedMinutes(q, t);
  }

  lemma HundredthsAre(mbps: real)
    requires mbps > 0.0
    ensures InHundredths(Hundredths(mbps), mbps)
  {}

  lemma FoldedSteps(xs: seq<real>, x: real)
    requires MeanOf(xs) == 0.0 <==> xs == []
    ensures FoldsTo(MeanOf(xs), VarianceOf(xs), x, MeanOf(xs + [x]), VarianceOf(xs + [x]))
  {
    hide MeanOf, VarianceOf;
    Folded(xs, x);
  }

  lemma RatesStep(os: seq<real>, x: real)
    ensures MeanOf(os + [x]) == if |os| == 0 then x else MeanOf(os) + 0.2 * (x - MeanOf(os))
  {
    hide MeanOf, VarianceOf;
    Folded(os, x);
  }

  lemma NewestPushed<T>(n: nat, s: seq<T>, x: T)
    requires n > 0
    ensures Pushed(Newest(n, s), x, n, Newest(n, s + [x]))
  {}

  /** The rows before and after a ping are one such step apart. */
  lemma PingMakesStep(s: NodeStat, t: NodeStat, h: seq<Check>, delayMs: int, answered: bool, now: int)
    requires Describes(s, h) && Describes(t, h + [Ping(delayMs, answered, now)])
    ensures PingStep(s, delayMs, answered, now, t)
  {
    hide Delays, Outcomes, Speeds, PingSamples, PingMinutes, SpeedSamples, SpeedMinutes, MeanOf, VarianceOf, Minute, InMinutes,
      Newest, Pushed, Recorded, FoldsTo;
    Columns(h, Ping(delayMs, answered, now));
    ZeroMeansUnseeded(h);
    var good := answered && delayMs > 0;
    var x := if delayMs < 30000 then delayMs else 30000;
    FoldedSteps(Delays(h), x as real);
    RatesStep(Outcomes(h), if good then 1.0 else 0.0);
    MinuteIsMinutes(now);
    NewestPushed<Int16>(20, PingSamples(h), if good then x else -1);
    NewestPushed(20, PingMinutes(h), Minute(now));
  }

  /** The rows before and after a speed measurement are one such step apart. */
  lemma SpeedMakesStep(s: NodeStat, t: NodeStat, h: seq<Check>, mbps: real, now: int)
    requires Describes(s, h) && Describes(t, h + [Speed(mbps, now)]) && mbps > 0.0
    ensures SpeedStep(s, mbps, now, t)
  {
    hide Delays, Outcomes, Speeds, PingSamples, PingMinutes, SpeedSamples, SpeedMinutes, MeanOf, VarianceOf, Minute, InMinutes,
      Newest, Pushed, Recorded, FoldsTo, Hundredths, InHundredths;
    Columns(h, Speed(mbps, now));
    ZeroMeansUnseeded(h);
    FoldedSteps(Speeds(h), mbps);
    MinuteIsMinutes(now);
    HundredthsAre(mbps);
    NewestPushed(8, SpeedSamples(h), Hundredths(mbps));
    NewestPushed(8, SpeedMinutes(h), Minute(now));
  }
}
