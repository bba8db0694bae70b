/** The measurement history of a server (vair/core/nodestats.go): figures
    updated in place with every check, tied to a definition over the whole
    history. Times are seconds; the windows keep minutes. */
module NodeStats {
  import opened Decimal
  import opened WeightedMean
  import opened WindowText

  const STATS_RECENT_MAX := 20
  const SPEED_RECENT_MAX := 8
  const LONGEST_DELAY := 30000
  const LARGEST_SAMPLE := 32767

  datatype NodeStat = NodeStat(
    pingAvg: real, pingVar: real, ok: real, samples: nat, recent: seq<Int16>, recentAt: seq<Int32>,
    speedAvg: real, speedVar: real, speedSeen: nat, speedRecent: seq<Int16>, speedRecentAt: seq<Int32>,
    speedAt: Option<int>, updated: Option<int>)

  const UNKNOWN := NodeStat(0.0, 0.0, 0.0, 0, [], [], 0.0, 0.0, 0, [], [], None, None)

  /** Everything a server has ever been checked for, oldest first. */
  datatype Check = Ping(delayMs: int, answered: bool, pingAt: int) | Speed(mbps: real, speedAt: int)

  predicate Success(c: Check) { c.Ping? && c.answered && c.delayMs > 0 }

  function Delay(c: Check): int
    requires Success(c)
  {
    if c.delayMs > LONGEST_DELAY then LONGEST_DELAY else c.delayMs
  }

  function Minute(t: int): Int32 { Wrap32(if t >= 0 then t / 60 else -(-t / 60)) }

  // What the figures are figures of, over the whole history.

  function Delays(h: seq<Check>): seq<real> {
    if h == [] then []
    else
      var c := h[|h| - 1];
      Delays(h[..|h| - 1]) + if Success(c) then [Delay(c) as real] else []
  }

  function Outcomes(h: seq<Check>): seq<real> {
    if h == [] then []
    else
      var c := h[|h| - 1];
      Outcomes(h[..|h| - 1]) + if c.Speed? then [] else if Success(c) then [1.0] else [0.0]
  }

  function Speeds(h: seq<Check>): seq<real> {
    if h == [] then []
    else
      var c := h[|h| - 1];
      Speeds(h[..|h| - 1]) + if c.Speed? then [c.mbps] else []
  }

  function PingSamples(h: seq<Check>): seq<Int16> {
    if h == [] then []
    else
      var c := h[|h| - 1];
      PingSamples(h[..|h| - 1]) + if c.Speed? then [] else if Success(c) then [Delay(c)] else [-1]
  }

  function PingMinutes(h: seq<Check>): seq<Int32> {
    if h == [] then []
    else
      var c := h[|h| - 1];
      PingMinutes(h[..|h| - 1]) + if c.Ping? then [Minute(c.pingAt)] else []
  }

  function Hundredths(mbps: real): Int16
    requires mbps > 0.0
  {
    if mbps * 100.0 > LARGEST_SAMPLE as real then LARGEST_SAMPLE else (mbps * 100.0).Floor
  }

  function SpeedSamples(h: seq<Check>): seq<Int16>
    requires Recorded(h)
  {
    if h == [] then []
    else
      var c := h[|h| - 1];
      SpeedSamples(h[..|h| - 1]) + if c.Speed? then [Hundredths(c.mbps)] else []
  }

  function SpeedMinutes(h: seq<Check>): seq<Int32> {
    if h == [] then []
    else
      var c := h[|h| - 1];
      SpeedMinutes(h[..|h| - 1]) + if c.Speed? then [Minute(c.speedAt)] else []
  }

  function Newest<T>(n: nat, s: seq<T>): seq<T> {
    if |s| > n then s[|s| - n..] else s
  }

  function MeanOf(xs: seq<real>): real { if xs == [] then 0.0 else Mean(xs) }
  function VarianceOf(xs: seq<real>): real { if xs == [] then 0.0 else Variance(xs) }

  /** Only successful speed tests are recorded. */
  predicate Recorded(h: seq<Check>) {
    forall i :: 0 <= i < |h| ==> h[i].Speed? ==> h[i].mbps > 0.0
  }

  /** The row says exactly what the history defines. */
  ghost predicate Describes(s: NodeStat, h: seq<Check>) {
    && Recorded(h)
    && DescribesPings(s, h)
    && DescribesSpeeds(s, h)
  }

  ghost predicate DescribesPings(s: NodeStat, h: seq<Check>) {
    && s.pingAvg == MeanOf(Delays(h)) && s.pingVar == VarianceOf(Delays(h))
    && s.ok == MeanOf(Outcomes(h)) && s.samples == |Outcomes(h)|
    && s.recent == Newest(STATS_RECENT_MAX, PingSamples(h))
    && s.recentAt == Newest(STATS_RECENT_MAX, PingMinutes(h))
  }

  ghost predicate DescribesSpeeds(s: NodeStat, h: seq<Check>)
    requires Recorded(h)
  {
    && s.speedAvg == MeanOf(Speeds(h)) && s.speedVar == VarianceOf(Speeds(h))
    && s.speedSeen == |Speeds(h)|
    && s.speedRecent == Newest(SPEED_RECENT_MAX, SpeedSamples(h))
    && s.speedRecentAt == Newest(SPEED_RECENT_MAX, SpeedMinutes(h))
  }

  // ------------------------------------------------------------ steps

  lemma NewestAppend<T>(n: nat, s: seq<T>, x: T)
    requires n > 0
    ensures Newest(n, Newest(n, s) + [x]) == Newest(n, s + [x])
  {}

  /** All recorded delays lie between one and the longest kept. */
  lemma {:induction false} DelaysInRange(h: seq<Check>)
    ensures Between(1.0, Delays(h), LONGEST_DELAY as real)
    decreases |h|
  {
    if h == [] {
    } else {
      DelaysInRange(h[..|h| - 1]);
    }
  }

  lemma {:induction false} OutcomesInRange(h: seq<Check>)
    ensures Between(0.0, Outcomes(h), 1.0)
    decreases |h|
  {
    if h == [] {
    } else {
      OutcomesInRange(h[..|h| - 1]);
    }
  }

  lemma {:induction false} SpeedsPositive(h: seq<Check>)
    requires Recorded(h)
    ensures forall i :: 0 <= i < |Speeds(h)| ==> Speeds(h)[i] > 0.0
    decreases |h|
  {
    if h == [] {
    } else {
      SpeedsPositive(h[..|h| - 1]);
    }
  }

  lemma {:induction false} MeanPositive(xs: seq<real>)
    requires xs != [] && forall i :: 0 <= i < |xs| ==> xs[i] > 0.0
    ensures Mean(xs) > 0.0
    decreases |xs|
  {
    var k := |xs| - 1;
    assert xs == xs[..k] + [xs[k]];
    if k == 0 {
      MeanOne(xs[0]);
    } else {
      MeanPositive(xs[..k]);
      MeanAppend(xs[..k], xs[k]);
    }
  }

  /** The mean and variance in place after one more value: seeded by the first,
      moved a fifth of the way by every other. */
  lemma Folded(xs: seq<real>, x: real)
    ensures xs == [] ==> MeanOf(xs + [x]) == x && VarianceOf(xs + [x]) == 0.0
    ensures xs != [] ==>
      && MeanOf(xs + [x]) == MeanOf(xs) + ALPHA * (x - MeanOf(xs))
      && VarianceOf(xs + [x]) == Widened(VarianceOf(xs), x - MeanOf(xs))
  {
    if xs == [] {
      assert xs + [x] == [x];
      MeanOne(x);
    } else {
      MeanAppend(xs, x);
      VarianceAppend(xs, x);
    }
  }

  /** One more check at the end of every column of the history. */
  lemma Columns(h: seq<Check>, c: Check)
    requires Recorded(h) && (c.Speed? ==> c.mbps > 0.0)
    ensures Recorded(h + [c])
    ensures c.Ping? ==>
      && Delays(h + [c]) == (if Success(c) then Delays(h) + [Delay(c) as real] else Delays(h))
      && Outcomes(h + [c]) == Outcomes(h) + [if Success(c) then 1.0 else 0.0]
      && PingSamples(h + [c]) == PingSamples(h) + [if Success(c) then Delay(c) else -1]
      && PingMinutes(h + [c]) == PingMinutes(h) + [Minute(c.pingAt)]
      && Speeds(h + [c]) == Speeds(h) && SpeedSamples(h + [c]) == SpeedSamples(h)
      && SpeedMinutes(h + [c]) == SpeedMinutes(h)
    ensures c.Speed? ==>
      && Speeds(h + [c]) == Speeds(h) + [c.mbps]
      && SpeedSamples(h + [c]) == SpeedSamples(h) + [Hundredths(c.mbps)]
      && SpeedMinutes(h + [c]) == SpeedMinutes(h) + [Minute(c.speedAt)]
      && Delays(h + [c]) == Delays(h) && Outcomes(h + [c]) == Outcomes(h)
      && PingSamples(h + [c]) == PingSamples(h) && PingMinutes(h + [c]) == PingMinutes(h)
  {
    assert (h + [c])[..|h + [c]| - 1] == h;
    hide Minute, Hundredths;
  }

  /** A mean of zero means nothing has been averaged yet. */
  lemma ZeroMeansUnseeded(h: seq<Check>)
    requires Recorded(h)
    ensures MeanOf(Delays(h)) == 0.0 <==> Delays(h) == []
    ensures MeanOf(Speeds(h)) == 0.0 <==> Speeds(h) == []
  {
    hide Mean;
    DelaysInRange(h);
    SpeedsPositive(h);
    if Delays(h) != [] { MeanPositive(Delays(h)); }
    if Speeds(h) != [] { MeanPositive(Speeds(h)); }
  }

  lemma {:induction false} WindowsMatch(h: seq<Check>)
    requires Recorded(h)
    ensures |SpeedSamples(h)| == |SpeedMinutes(h)|
    decreases |h|
  {
    if h == [] {
    } else {
      hide Minute, Hundredths;
      WindowsMatch(h[..|h| - 1]);
    }
  }

  /** The delay pair and the success rate after one more ping. */
  method FoldPing(samples: nat, avg0: real, var0: real, ok0: real, good: bool, x: int, ghost ds: seq<real>, ghost os: seq<real>)
    returns (avg: real, vari: real, ok: real)
    requires avg0 == MeanOf(ds) && var0 == VarianceOf(ds) && ok0 == MeanOf(os)
    requires samples == |os| + 1 && |ds| <= |os|
    requires MeanOf(ds) == 0.0 <==> ds == []
    ensures avg == MeanOf(if good then ds + [x as real] else ds)
    ensures vari == VarianceOf(if good then ds + [x as real] else ds)
    ensures ok == MeanOf(os + [if good then 1.0 else 0.0])
  {
    Folded(ds, x as real);
    Folded(os, if good then 1.0 else 0.0);
    hide Mean, Variance, Widened;
    avg, vari, ok := avg0, var0, ok0;
    if samples == 1 {
      if good {
        avg, vari, ok := x as real, 0.0, 1.0;
      } else {
        avg, vari, ok := 0.0, 0.0, 0.0;
      }
      return;
    }
    if good {
      if avg == 0.0 {
        avg, vari := x as real, 0.0;
      } else {
        var d := x as real - avg;
        avg, vari := avg + ALPHA * d, Widened(vari, d);
      }
      ok := ok + ALPHA * (1.0 - ok);
    } else {
      ok := ok + ALPHA * (0.0 - ok);
    }
  }

  lemma {:induction false} NoMoreDelays(h: seq<Check>)
    ensures |Delays(h)| <= |Outcomes(h)|
    decreases |h|
  {
    if h == [] {
    } else {
      NoMoreDelays(h[..|h| - 1]);
    }
  }

  /** The speed pair after one more measurement. */
  method FoldSpeed(seen: nat, avg0: real, var0: real, mbps: real, ghost xs: seq<real>) returns (avg: real, vari: real)
    requires avg0 == MeanOf(xs) && var0 == VarianceOf(xs)
    requires seen == |xs| + 1
    requires MeanOf(xs) == 0.0 <==> xs == []
    ensures avg == MeanOf(xs + [mbps]) && vari == VarianceOf(xs + [mbps])
  {
    Folded(xs, mbps);
    hide Mean, Variance, Widened;
    if seen == 1 || avg0 == 0.0 {
      avg, vari := mbps, 0.0;
    } else {
      var d := mbps - avg0;
      avg, vari := avg0 + ALPHA * d, Widened(var0, d);
    }
  }

  method PushPing(recent0: seq<Int16>, recentAt0: seq<Int32>, sample: Int16, minute: Int32,
                  ghost samples: seq<Int16>, ghost minutes: seq<Int32>)
    returns (recent: seq<Int16>, recentAt: seq<Int32>)
    requires recent0 == Newest(STATS_RECENT_MAX, samples) && recentAt0 == Newest(STATS_RECENT_MAX, minutes)
    ensures recent == Newest(STATS_RECENT_MAX, samples + [sample])
    ensures recentAt == Newest(STATS_RECENT_MAX, minutes + [minute])
  {
    NewestAppend(STATS_RECENT_MAX, samples, sample);
    NewestAppend(STATS_RECENT_MAX, minutes, minute);
    recent, recentAt := recent0 + [sample], recentAt0 + [minute];
    if |recent| > STATS_RECENT_MAX {
      recent := recent[|recent| - STATS_RECENT_MAX..];
    }
    if |recentAt| > STATS_RECENT_MAX {
      recentAt := recentAt[|recentAt| - STATS_RECENT_MAX..];
    }
  }

  /** A row after one more ping describes the longer history. */
  method AfterPing(s: NodeStat, delayMs: int, answered: bool, now: int, ghost h: seq<Check>) returns (t: NodeStat)
    requires Describes(s, h)
    ensures Describes(t, h + [Ping(delayMs, answered, now)])
    ensures t.updated == Some(now) && t.speedAt == s.speedAt
  {
    ghost var c := Ping(delayMs, answered, now);
    Columns(h, c);
    ZeroMeansUnseeded(h);
    NoMoreDelays(h);
    var good := answered && delayMs > 0;
    var x := if delayMs > LONGEST_DELAY then LONGEST_DELAY else delayMs;
    var sample: Int16 := if good then x else -1;
    var minute := Minute(now);
    assert good ==> Delay(c) == x;
    hide Delays, Outcomes, Speeds, PingSamples, PingMinutes, SpeedSamples, SpeedMinutes, MeanOf, VarianceOf, Recorded, Minute;
    var recent, recentAt := PushPing(s.recent, s.recentAt, sample, minute, PingSamples(h), PingMinutes(h));
    var avg, vari, ok := FoldPing(s.samples + 1, s.pingAvg, s.pingVar, s.ok, good, x, Delays(h), Outcomes(h));
    t := s.(samples := s.samples + 1, updated := Some(now), recent := recent, recentAt := recentAt,
            pingAvg := avg, pingVar := vari, ok := ok);
  }

  method PushSpeed(recent0: seq<Int16>, recentAt0: seq<Int32>, sample: Int16, minute: Int32,
                   ghost samples: seq<Int16>, ghost minutes: seq<Int32>)
    returns (recent: seq<Int16>, recentAt: seq<Int32>)
    requires recent0 == Newest(SPEED_RECENT_MAX, samples) && recentAt0 == Newest(SPEED_RECENT_MAX, minutes)
    requires |samples| == |minutes|
    ensures recent == Newest(SPEED_RECENT_MAX, samples + [sample])
    ensures recentAt == Newest(SPEED_RECENT_MAX, minutes + [minute])
  {
    NewestAppend(SPEED_RECENT_MAX, samples, sample);
    NewestAppend(SPEED_RECENT_MAX, minutes, minute);
    recent, recentAt := recent0 + [sample], recentAt0 + [minute];
    if |recent| > SPEED_RECENT_MAX {
      recent, recentAt := recent[|recent| - SPEED_RECENT_MAX..], recentAt[|recentAt| - SPEED_RECENT_MAX..];
    }
  }

  /** A row after one more speed measurement describes the longer history. */
  method AfterSpeed(s: NodeStat, mbps: real, now: int, ghost h: seq<Check>) returns (t: NodeStat)
    requires Describes(s, h) && mbps > 0.0
    ensures Describes(t, h + [Speed(mbps, now)])
    ensures t.speedAt == Some(now) && t.updated == if s.updated.None? then Some(now) else s.updated
  {
    ghost var c := Speed(mbps, now);
    Columns(h, c);
    ZeroMeansUnseeded(h);
    WindowsMatch(h);
    var v := mbps * 100.0;
    if v > LARGEST_SAMPLE as real { v := LARGEST_SAMPLE as real; }
    var sample: Int16 := v.Floor;
    assert sample == Hundredths(mbps);
    var minute := Minute(now);
    hide Delays, Outcomes, Speeds, PingSamples, PingMinutes, SpeedSamples, SpeedMinutes, MeanOf, VarianceOf, Minute, Hundredths;
    var recent, recentAt := PushSpeed(s.speedRecent, s.speedRecentAt, sample, minute, SpeedSamples(h), SpeedMinutes(h));
    var avg, vari := FoldSpeed(s.speedSeen + 1, s.speedAvg, s.speedVar, mbps, Speeds(h));
    t := s.(speedSeen := s.speedSeen + 1, speedAt := Some(now), speedRecent := recent, speedRecentAt := recentAt,
            speedAvg := avg, speedVar := vari);
    if t.updated.None? { t := t.(updated := Some(now)); }
  }

  // ------------------------------------------------------------ the table

  /** Every row describes the checks made of its server. */
  ghost predicate AllDescribed(m: map<int, NodeStat>, history: map<int, seq<Check>>) {
    && m.Keys == history.Keys
    && forall k :: k in m ==> Describes(m[k], history[k])
  }

  lemma RowDescribed(m: map<int, NodeStat>, history: map<int, seq<Check>>, hash: int, s: NodeStat, h: seq<Check>)
    requires AllDescribed(m, history) && Describes(s, h)
    ensures AllDescribed(m[hash := s], history[hash := h])
  {
    hide Describes;
  }

  lemma KnownOrNot(m: map<int, NodeStat>, history: map<int, seq<Check>>, hash: int)
    requires AllDescribed(m, history)
    ensures hash in m <==> hash in history
    ensures Describes(if hash in m then m[hash] else UNKNOWN, if hash in history then history[hash] else [])
  {
    UnknownDescribesNothing();
    hide Describes;
    assert hash in m.Keys <==> hash in history.Keys;
  }

  class Table {
    var m: map<int, NodeStat>
    var dirty: set<int>
    ghost var history: map<int, seq<Check>>

    ghost predicate Valid()
      reads this
    {
      AllDescribed(m, history)
    }

    function RowOf(hash: int): NodeStat reads this {
      if hash in m then m[hash] else UNKNOWN
    }

    ghost function HistoryOf(hash: int): seq<Check> reads this {
      if hash in history then history[hash] else []
    }

    constructor ()
      ensures Valid() && m == map[] && history == map[] && dirty == {}
    {
      m, dirty, history := map[], {}, map[];
    }

    /** recordPingStat: the row of hash goes on describing its whole history,
        the new check included. */
    method RecordPing(hash: int, delayMs: int, answered: bool, now: int)
      requires Valid()
      modifies this
      ensures Valid()
      ensures hash == 0 ==> unchanged(this)
      ensures hash != 0 ==>
        && history == old(history)[hash := old(HistoryOf(hash)) + [Ping(delayMs, answered, now)]]
        && m == old(m)[hash := m[hash]]
        && dirty == old(dirty) + {hash}
    {
      if hash == 0 { return; }
      hide Describes, AllDescribed;
      KnownOrNot(m, history, hash);
      var s := AfterPing(RowOf(hash), delayMs, answered, now, HistoryOf(hash));
      RowDescribed(m, history, hash, s, HistoryOf(hash) + [Ping(delayMs, answered, now)]);
      history := history[hash := HistoryOf(hash) + [Ping(delayMs, answered, now)]];
      m := m[hash := s];
      dirty := dirty + {hash};
    }

    /** recordSpeedStat: only a successful measurement is recorded. */
    method RecordSpeed(hash: int, mbps: real, now: int)
      requires Valid()
      modifies this
      ensures Valid()
      ensures hash == 0 || mbps <= 0.0 ==> unchanged(this)
      ensures hash != 0 && mbps > 0.0 ==>
        && history == old(history)[hash := old(HistoryOf(hash)) + [Speed(mbps, now)]]
        && m == old(m)[hash := m[hash]]
        && dirty == old(dirty) + {hash}
    {
      if hash == 0 || mbps <= 0.0 { return; }
      hide Describes, AllDescribed;
      KnownOrNot(m, history, hash);
      var s := AfterSpeed(RowOf(hash), mbps, now, HistoryOf(hash));
      RowDescribed(m, history, hash, s, HistoryOf(hash) + [Speed(mbps, now)]);
      history := history[hash := HistoryOf(hash) + [Speed(mbps, now)]];
      m := m[hash := s];
      dirty := dirty + {hash};
    }
  }

  lemma UnknownDescribesNothing()
    ensures Describes(UNKNOWN, [])
  {}

  // ------------------------------------------------------------ what follows

  /** What the figures of any row may be, whatever was recorded: the mean delay
      among the delays, the variance within the spread of them, the success rate
      a share. */
  lemma FiguresAreBounded(s: NodeStat, h: seq<Check>, lo: real, hi: real)
    requires Describes(s, h)
    requires Delays(h) != [] && Between(lo, Delays(h), hi)
    ensures lo <= s.pingAvg <= hi
    ensures 0.0 <= s.pingVar <= (hi - s.pingAvg) * (s.pingAvg - lo)
  {
    hide Mean, Variance, Delays;
    MeanBounds(lo, Delays(h), hi);
    VarianceBound(lo, Delays(h), hi);
  }

  lemma SpeedFiguresAreBounded(s: NodeStat, h: seq<Check>, lo: real, hi: real)
    requires Describes(s, h)
    requires Speeds(h) != [] && Between(lo, Speeds(h), hi)
    ensures lo <= s.speedAvg <= hi
    ensures 0.0 <= s.speedVar <= (hi - s.speedAvg) * (s.speedAvg - lo)
  {
    hide Mean, Variance, Speeds;
    MeanBounds(lo, Speeds(h), hi);
    VarianceBound(lo, Speeds(h), hi);
  }

  lemma SuccessRateIsAShare(s: NodeStat, h: seq<Check>)
    requires Describes(s, h)
    ensures 0.0 <= s.ok <= 1.0
  {
    hide Mean, Outcomes;
    OutcomesInRange(h);
    if Outcomes(h) != [] { MeanBounds(0.0, Outcomes(h), 1.0); }
  }

  /** A failure says nothing about how fast the server is: two histories that
      differ by it have the same delay and speed figures. */
  lemma FailureMovesOnlyTheRate(s: NodeStat, t: NodeStat, h: seq<Check>, c: Check)
    requires Describes(s, h) && c.Ping? && !Success(c) && Describes(t, h + [c])
    ensures t.pingAvg == s.pingAvg && t.pingVar == s.pingVar
    ensures t.speedAvg == s.speedAvg && t.speedVar == s.speedVar && t.speedSeen == s.speedSeen
    ensures t.speedRecent == s.speedRecent && t.speedRecentAt == s.speedRecentAt
    ensures s.samples > 0 ==> t.ok == (1.0 - ALPHA) * s.ok
    ensures t.samples == s.samples + 1 && t.recent == Newest(STATS_RECENT_MAX, s.recent + [-1])
  {
    Columns(h, c);
    Folded(Outcomes(h), 0.0);
    NewestAppend(STATS_RECENT_MAX, PingSamples(h), -1);
    hide Delays, Outcomes, Speeds, PingSamples, PingMinutes, SpeedSamples, SpeedMinutes, MeanOf, VarianceOf;
  }
}
