/** Which servers AUTO may connect to and in what order (autoCandidates in
    vair/core/autoconnect.go, and the figures it ranks on in
    vair/core/nodestats.go). root is the square root. */
module Ranking {
  import opened Decimal
  import opened NodeStats
  import opened Sorting

  const STATS_MIN_SAMPLES := 3
  const SPEED_MAX_AGE := 6 * 3600
  const SPEED_SPREAD_WEIGHT := 1.0
  const JITTER_WEIGHT := 1.0
  const UNRELIABLE_PENALTY_MS := 500.0
  const UNKNOWN_SPREAD_FRAC := 0.35
  const UNMEASURED_SCORE := 1000000.0

  datatype RankMode = PingLast | PingHistory | SpeedLast | SpeedHistory

  datatype PingState = Answered | Untested | Unanswered

  /** A config of the pool: hidden and usable say what its tab's exclude rules
      and the share-link parser made of it. */
  datatype Entry = Entry(
    raw: string, hidden: bool, usable: bool, ping: PingState, delay: int, speedOk: bool, mbps: real, stats: Option<NodeStat>)

  datatype Cand = Cand(entry: Entry, delay: int, speed: real, rank: int, score: real, stable: bool)

  // ------------------------------------------------------------ the figures

  function Max(a: real, b: real): real { if a >= b then a else b }

  function StatsOf(e: Entry): NodeStat { if e.stats.Some? then e.stats.value else UNKNOWN }

  predicate Trusted(s: NodeStat) { s.samples >= STATS_MIN_SAMPLES }

  predicate SpeedFresh(s: NodeStat, now: int) { s.speedAt.Some? && now - s.speedAt.value < SPEED_MAX_AGE }

  predicate SpeedTrusted(s: NodeStat, now: int) { s.speedSeen >= STATS_MIN_SAMPLES && SpeedFresh(s, now) }

  function SpeedScore(s: NodeStat, root: real -> real): real {
    Max(0.0, s.speedAvg - SPEED_SPREAD_WEIGHT * root(Max(0.0, s.speedVar)))
  }

  function ThinCharge(seen: int): (c: real)
    ensures 0.0 <= c <= UNKNOWN_SPREAD_FRAC
    ensures c == 0.0 <==> seen >= STATS_MIN_SAMPLES
  {
    if seen >= STATS_MIN_SAMPLES then 0.0
    else
      var known := if seen < 0 then 0 else seen;
      UNKNOWN_SPREAD_FRAC * ((STATS_MIN_SAMPLES - known) as real) / 3.0
  }

  function StableScore(s: NodeStat, rawDelay: int, root: real -> real): real {
    if !Trusted(s) then rawDelay as real * (1.0 + ThinCharge(s.samples))
    else s.pingAvg + JITTER_WEIGHT * root(Max(0.0, s.pingVar)) + (1.0 - s.ok) * UNRELIABLE_PENALTY_MS
  }

  /** The last measured speed, while it still describes anything. */
  function LastSpeed(e: Entry, now: int): real {
    if e.speedOk && e.stats.Some? && SpeedFresh(e.stats.value, now) then e.mbps else 0.0
  }

  /** A speed figure to rank on: a record, or one or two fresh measurements. */
  predicate Figured(e: Entry, now: int) {
    (e.stats.Some? && SpeedTrusted(e.stats.value, now)) || LastSpeed(e, now) > 0.0
  }

  function Score(mode: RankMode, e: Entry, now: int, root: real -> real): (real, bool) {
    var s, spd := StatsOf(e), LastSpeed(e, now);
    match mode
    case PingLast => (e.delay as real, false)
    case SpeedLast => (e.delay as real, false)
    case PingHistory => (StableScore(s, e.delay, root), e.stats.Some? && Trusted(s))
    case SpeedHistory =>
      if e.stats.Some? && SpeedTrusted(s, now) then (-SpeedScore(s, root), true)
      else if spd > 0.0 then (-spd * (1.0 - ThinCharge(s.speedSeen)), false)
      else
        var score := StableScore(s, e.delay, root);
        (if score <= 0.0 then UNMEASURED_SCORE else score, false)
  }

  function CandOf(mode: RankMode, e: Entry, now: int, root: real -> real): Cand {
    var rank := match e.ping case Answered => 0 case Untested => 1 case Unanswered => 2;
    var (score, stable) := Score(mode, e, now, root);
    Cand(e, e.delay, LastSpeed(e, now), rank, score, stable)
  }

  /** The comparison autoCandidates sorts by. */
  predicate Sooner(mode: RankMode, a: Cand, b: Cand) {
    if a.rank != b.rank then a.rank < b.rank
    else if a.rank == 0 then
      if mode == SpeedLast && (a.speed > 0.0) != (b.speed > 0.0) then a.speed > 0.0
      else if mode == SpeedLast && a.speed > 0.0 && b.speed > 0.0 && a.speed != b.speed then a.speed > b.speed
      else a.score < b.score
    else if ByHistory(mode) && a.stable && b.stable then a.score < b.score
    else if ByHistory(mode) && a.stable != b.stable then a.stable
    else false
  }

  predicate ByHistory(mode: RankMode) { mode == PingHistory || mode == SpeedHistory }

  function Comparison(mode: RankMode): (Cand, Cand) -> bool { (a: Cand, b: Cand) => Sooner(mode, a, b) }

  /** The comparison is one sort.SliceStable may be given, in all four modes. */
  lemma SoonerIsStrictWeak(mode: RankMode)
    ensures StrictWeak(Comparison(mode))
  {
    forall a, b ensures Sooner(mode, a, b) ==> !Sooner(mode, b, a) {}
    forall a, b, c ensures Sooner(mode, a, c) ==> Sooner(mode, a, b) || Sooner(mode, b, c) {}
  }

  // ------------------------------------------------------------ the list

  /** What a gathering asks for: the config to leave out, the pauses with the
      time each ends, and the time. */
  datatype Ask = Ask(mode: RankMode, excludeRaw: string, cooldown: map<string, int>, now: int, root: real -> real)

  predicate Paused(a: Ask, raw: string) { raw in a.cooldown && a.now < a.cooldown[raw] }

  predicate Eligible(a: Ask, e: Entry) {
    e.raw != "" && e.raw != a.excludeRaw && !e.hidden && !Paused(a, e.raw) && e.usable
  }

  /** An eligible entry whose config no earlier eligible one carries. */
  ghost predicate FirstOfItsKind(a: Ask, listed: seq<Entry>, i: int)
    requires 0 <= i < |listed|
  {
    Eligible(a, listed[i]) && !Taken(a, listed, i, listed[i].raw)
  }

  ghost predicate Taken(a: Ask, listed: seq<Entry>, n: int, raw: string)
    requires 0 <= n <= |listed|
  {
    exists j :: 0 <= j < n && Eligible(a, listed[j]) && listed[j].raw == raw
  }

  ghost function Gathered(a: Ask, listed: seq<Entry>, n: nat): seq<Cand>
    requires n <= |listed|
  {
    if n == 0 then []
    else if FirstOfItsKind(a, listed, n - 1) then
      Gathered(a, listed, n - 1) + [CandOf(a.mode, listed[n - 1], a.now, a.root)]
    else Gathered(a, listed, n - 1)
  }

  ghost function Candidates(a: Ask, listed: seq<Entry>): seq<Cand> {
    Sort(Gathered(a, listed, |listed|), Comparison(a.mode))
  }

  /** autoCandidates; listed is the pool's tabs end to end. */
  method AutoCandidates(a: Ask, listed: seq<Entry>) returns (out: seq<Cand>)
    ensures out == Candidates(a, listed)
  {
    hide CandOf;
    out := [];
    var seen: set<string> := {};
    for i := 0 to |listed|
      invariant out == Gathered(a, listed, i)
      invariant forall raw :: raw in seen <==> Taken(a, listed, i, raw)
    {
      var e := listed[i];
      if e.raw != "" && e.raw != a.excludeRaw && e.raw !in seen && !e.hidden {
        if !Paused(a, e.raw) && e.usable {
          seen := seen + {e.raw};
          out := out + [CandOf(a.mode, e, a.now, a.root)];
        }
      }
    }
    out := Sort(out, Comparison(a.mode));
  }

  // ------------------------------------------------------------ what the list promises

  lemma {:induction false} GatheredFrom(a: Ask, listed: seq<Entry>, n: nat, c: Cand)
    requires n <= |listed|
    ensures c in Gathered(a, listed, n) <==>
      exists i :: 0 <= i < n && FirstOfItsKind(a, listed, i) && c == CandOf(a.mode, listed[i], a.now, a.root)
  {
    hide CandOf;
    if n == 0 {
    } else {
      GatheredFrom(a, listed, n - 1, c);
      hide FirstOfItsKind;
    }
  }

  /** The candidates are the configs one may connect to, each taken from the
      first entry that carries it. */
  lemma CandidatesExactly(a: Ask, listed: seq<Entry>, c: Cand)
    ensures c in Candidates(a, listed) <==>
      exists i :: 0 <= i < |listed| && FirstOfItsKind(a, listed, i) && c == CandOf(a.mode, listed[i], a.now, a.root)
  {
    GatheredFrom(a, listed, |listed|, c);
    var g, out := Gathered(a, listed, |listed|), Candidates(a, listed);
    hide CandOf, Gathered, Sort, FirstOfItsKind;
    assert c in out <==> c in multiset(out);
    assert c in g <==> c in multiset(g);
  }

  ghost predicate OncePerRaw(g: seq<Cand>) { forall i, j :: 0 <= i < j < |g| ==> g[i].entry.raw != g[j].entry.raw }

  lemma {:induction false} GatheredOnce(a: Ask, listed: seq<Entry>, n: nat)
    requires n <= |listed|
    ensures OncePerRaw(Gathered(a, listed, n))
  {
    if n == 0 {
    } else {
      GatheredOnce(a, listed, n - 1);
      var g := Gathered(a, listed, n - 1);
      if FirstOfItsKind(a, listed, n - 1) {
        forall i | 0 <= i < |g| ensures g[i].entry.raw != listed[n - 1].raw {
          GatheredFrom(a, listed, n - 1, g[i]);
        }
      }
    }
  }

  /** No config is offered twice. */
  lemma OfferedOnce(a: Ask, listed: seq<Entry>)
    ensures OncePerRaw(Candidates(a, listed))
  {
    GatheredOnce(a, listed, |listed|);
    var g, out := Gathered(a, listed, |listed|), Candidates(a, listed);
    hide Gathered, Sort;
    var raw := (c: Cand) => c.entry.raw;
    assert forall i, j :: 0 <= i < j < |g| ==> raw(g[i]) != raw(g[j]);
    KeysStayDistinct(g, out, raw);
    forall i, j | 0 <= i < j < |out| ensures out[i].entry.raw != out[j].entry.raw {
      assert raw(out[i]) != raw(out[j]);
    }
  }

  lemma {:induction false} GatheredAt(a: Ask, listed: seq<Entry>, n: nat, i: nat)
    requires i < n <= |listed| && FirstOfItsKind(a, listed, i)
    ensures |Gathered(a, listed, i)| < |Gathered(a, listed, n)|
    ensures Gathered(a, listed, n)[|Gathered(a, listed, i)|] == CandOf(a.mode, listed[i], a.now, a.root)
  {
    hide CandOf, FirstOfItsKind;
    if i == n - 1 {
    } else {
      GatheredAt(a, listed, n - 1, i);
    }
  }

  /** Candidates that neither comes before the other, of equal delay in a mode
      that goes by it, say, or unanswered without a record, stand in the order of
      the list. */
  lemma TiesKeepListOrder(a: Ask, listed: seq<Entry>, i: nat, j: nat) returns (p: nat, q: nat)
    requires i < j < |listed| && FirstOfItsKind(a, listed, i) && FirstOfItsKind(a, listed, j)
    requires var x, y := CandOf(a.mode, listed[i], a.now, a.root), CandOf(a.mode, listed[j], a.now, a.root);
      !Sooner(a.mode, x, y) && !Sooner(a.mode, y, x)
    ensures var cands := Candidates(a, listed);
      && p < q < |cands|
      && cands[p] == CandOf(a.mode, listed[i], a.now, a.root) && cands[q] == CandOf(a.mode, listed[j], a.now, a.root)
  {
    hide CandOf, FirstOfItsKind, Gathered, Sooner, Sort;
    SoonerIsStrictWeak(a.mode);
    GatheredAt(a, listed, |listed|, i);
    GatheredAt(a, listed, |listed|, j);
    GatheredAt(a, listed, j, i);
    p, q := TiedStayInOrder(Gathered(a, listed, |listed|), Comparison(a.mode),
                            |Gathered(a, listed, i)|, |Gathered(a, listed, j)|);
  }

  lemma ScoreSigns(e: Entry, now: int, root: real -> real)
    ensures Figured(e, now) <==> Score(SpeedHistory, e, now, root).0 <= 0.0
  {
    var spd := LastSpeed(e, now);
    if spd > 0.0 {
      var keep := 1.0 - ThinCharge(StatsOf(e).speedSeen);
      Product(spd, keep);
    }
  }

  lemma Product(x: real, y: real)
    requires x > 0.0 && y > 0.0
    ensures -x * y < 0.0
  {}

  lemma Ranked(a: Ask, listed: seq<Entry>, i: nat)
    requires i < |Candidates(a, listed)|
    ensures var c := Candidates(a, listed)[i]; c == CandOf(a.mode, c.entry, a.now, a.root)
  {
    CandidatesExactly(a, listed, Candidates(a, listed)[i]);
  }

  lemma InOrder(a: Ask, listed: seq<Entry>, i: nat, j: nat)
    requires i < j < |Candidates(a, listed)|
    ensures !Sooner(a.mode, Candidates(a, listed)[j], Candidates(a, listed)[i])
  {
    SoonerIsStrictWeak(a.mode);
    SortSorted(Gathered(a, listed, |listed|), Comparison(a.mode));
    hide Gathered, Sooner, Sort;
    assert !Comparison(a.mode)(Candidates(a, listed)[j], Candidates(a, listed)[i]);
  }

  function Standing(p: PingState): int { match p case Answered => 0 case Untested => 1 case Unanswered => 2 }

  /** In every mode: the answered before the untested before the failed. */
  lemma AnsweredFirst(a: Ask, listed: seq<Entry>, i: nat, j: nat)
    requires i < j < |Candidates(a, listed)|
    ensures var out := Candidates(a, listed); Standing(out[i].entry.ping) <= Standing(out[j].entry.ping)
  {
    InOrder(a, listed, i, j);
    Ranked(a, listed, i);
    Ranked(a, listed, j);
    hide Candidates, Score;
  }

  /** Ranking by reliable speed, no answered candidate without a speed figure
      stands before one that has one. */
  lemma FiguresFirst(a: Ask, listed: seq<Entry>, i: nat, j: nat)
    requires a.mode == SpeedHistory && i < j < |Candidates(a, listed)|
    requires var out := Candidates(a, listed); out[i].entry.ping == Answered && Figured(out[j].entry, a.now)
    requires Candidates(a, listed)[j].entry.ping == Answered
    ensures Figured(Candidates(a, listed)[i].entry, a.now)
  {
    InOrder(a, listed, i, j);
    Ranked(a, listed, i);
    Ranked(a, listed, j);
    ScoreSigns(Candidates(a, listed)[i].entry, a.now, a.root);
    ScoreSigns(Candidates(a, listed)[j].entry, a.now, a.root);
    hide Candidates, Score, Figured;
  }

  /** Ranking by the last measurement, among the answered: the shortest delay
      first, or the greatest speed first with the unmeasured behind it. */
  lemma LastMeasurementOrders(a: Ask, listed: seq<Entry>, i: nat, j: nat)
    requires i < j < |Candidates(a, listed)|
    requires Candidates(a, listed)[i].entry.ping == Answered && Candidates(a, listed)[j].entry.ping == Answered
    ensures var c, d := Candidates(a, listed)[i].entry, Candidates(a, listed)[j].entry;
      && (a.mode == PingLast ==> c.delay <= d.delay)
      && (a.mode == SpeedLast ==> LastSpeed(d, a.now) <= 0.0 || LastSpeed(c, a.now) >= LastSpeed(d, a.now))
  {
    InOrder(a, listed, i, j);
    Ranked(a, listed, i);
    Ranked(a, listed, j);
    hide Candidates, LastSpeed;
  }

  /** Ranking by history, among the answered: the smallest stability score first,
      or, of those with a trusted speed record, the greatest speed to rely on. */
  lemma HistoryOrders(a: Ask, listed: seq<Entry>, i: nat, j: nat)
    requires i < j < |Candidates(a, listed)|
    requires Candidates(a, listed)[i].entry.ping == Answered && Candidates(a, listed)[j].entry.ping == Answered
    ensures var c, d := Candidates(a, listed)[i].entry, Candidates(a, listed)[j].entry;
      && (a.mode == PingHistory ==> StableScore(StatsOf(c), c.delay, a.root) <= StableScore(StatsOf(d), d.delay, a.root))
      && (a.mode == SpeedHistory && c.stats.Some? && d.stats.Some? &&
          SpeedTrusted(c.stats.value, a.now) && SpeedTrusted(d.stats.value, a.now)
          ==> SpeedScore(c.stats.value, a.root) >= SpeedScore(d.stats.value, a.root))
  {
    InOrder(a, listed, i, j);
    Ranked(a, listed, i);
    Ranked(a, listed, j);
    hide Candidates, StableScore, SpeedScore, SpeedTrusted, LastSpeed;
  }

  /** The charge for what is not known fades in equal steps, to nothing at three
      measurements. */
  lemma ThinChargeFades(seen: nat)
    requires seen < STATS_MIN_SAMPLES
    ensures ThinCharge(seen) - ThinCharge(seen + 1) == UNKNOWN_SPREAD_FRAC / 3.0
  {}

  /** Of two servers of the same average speed the steadier is not ranked behind,
      and no server is relied on for more than its average. */
  lemma SteadyBeatsErratic(s: NodeStat, t: NodeStat, root: real -> real)
    requires s.speedAvg == t.speedAvg >= 0.0
    requires 0.0 <= root(Max(0.0, s.speedVar)) <= root(Max(0.0, t.speedVar))
    ensures SpeedScore(t, root) <= SpeedScore(s, root) <= s.speedAvg
  {}

  /** Where nothing has been answered, a config with a record stands before one
      without in both history modes. */
  lemma RecordsFirst(a: Ask, listed: seq<Entry>, i: nat, j: nat)
    requires ByHistory(a.mode) && i < j < |Candidates(a, listed)|
    requires var out := Candidates(a, listed); out[i].entry.ping == out[j].entry.ping != Answered
    ensures var out := Candidates(a, listed);
      out[j].stable ==> out[i].stable && out[i].score <= out[j].score
  {
    InOrder(a, listed, i, j);
    Ranked(a, listed, i);
    Ranked(a, listed, j);
    hide Candidates, Score;
  }

  /** A row the history describes is never ranked as faster than the fastest
      answer it ever gave, and its trouble costs it at most the jitter and half a
      second. */
  lemma HistoryChargesTheDelay(s: NodeStat, h: seq<Check>, rawDelay: int, root: real -> real, lo: real, hi: real)
    requires Describes(s, h) && Trusted(s) && Delays(h) != []
    requires forall i :: 0 <= i < |Delays(h)| ==> lo <= Delays(h)[i] <= hi
    requires root(Max(0.0, s.pingVar)) >= 0.0
    ensures lo <= StableScore(s, rawDelay, root) <= hi + root(Max(0.0, s.pingVar)) + UNRELIABLE_PENALTY_MS
  {
    FiguresAreBounded(s, h, lo, hi);
    SuccessRateIsAShare(s, h);
    hide Describes;
  }
}
