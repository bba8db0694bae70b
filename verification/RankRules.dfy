/** The order AUTO tries servers in, said from what is known of each: whether it
    answered, what it measured last and what its history says (autoCandidates in
    vair/core/autoconnect.go, stableScore and speedScore in vair/core/nodestats.go). */
module RankRules {
  import opened Decimal
  import opened NodeStats
  import opened Ranking

  // ------------------------------------------------------------ what is known of a server

  /** Three measurements make a record; with fewer a part of 35 percent of the figure
      is in doubt, a third of it for each that is missing. */
  function Doubt(seen: int): real {
    if seen >= 3 then 0.0 else if seen == 2 then 0.35 / 3.0 else if seen == 1 then 0.70 / 3.0 else 0.35
  }

  function Positive(x: real): real { if x >= 0.0 then x else 0.0 }

  /** The delay to reckon with: with a record the mean, more for jitter and half a
      second for a server that never answers; else the last delay, and the doubt. */
  function DelayFigure(e: Entry, root: real -> real): real {
    match e.stats
    case None => e.delay as real * 1.35
    case Some(s) =>
      if s.samples >= 3 then s.pingAvg + root(Positive(s.pingVar)) + 500.0 * (1.0 - s.ok)
      else e.delay as real * (1.0 + Doubt(s.samples))
  }

  /** A speed is known for six hours. */
  predicate Recent(e: Entry, now: int) {
    e.stats.Some? && e.stats.value.speedAt.Some? && now - e.stats.value.speedAt.value < 21600
  }

  predicate HasSpeedRecord(e: Entry, now: int) { Recent(e, now) && e.stats.value.speedSeen >= 3 }

  function Measured(e: Entry, now: int): real { if Recent(e, now) && e.speedOk then e.mbps else 0.0 }

  /** The speed to rely on: with a record the mean less its spread; else the last
      measurement less the doubt. */
  function SpeedFigure(e: Entry, now: int, root: real -> real): Option<real> {
    if HasSpeedRecord(e, now) then Some(Positive(e.stats.value.speedAvg - root(Positive(e.stats.value.speedVar))))
    else if Measured(e, now) > 0.0 then Some(e.mbps * (1.0 - Doubt(e.stats.value.speedSeen)))
    else None
  }

  // ------------------------------------------------------------ which comes first

  /** Among the answered: by delay; by measured speed, those without one behind and
      by delay; by the delay to reckon with; by the speed to rely on, those without
      one behind and by the delay to reckon with. */
  predicate AnsweredBefore(mode: RankMode, e: Entry, f: Entry, now: int, root: real -> real) {
    match mode
    case PingLast => e.delay < f.delay
    case SpeedLast =>
      var x, y := Positive(Measured(e, now)), Positive(Measured(f, now));
      x > y || (x == y && e.delay < f.delay)
    case PingHistory => DelayFigure(e, root) < DelayFigure(f, root)
    case SpeedHistory =>
      match (SpeedFigure(e, now, root), SpeedFigure(f, now, root))
      case (Some(x), Some(y)) => x > y
      case (Some(_), None) => true
      case (None, Some(_)) => false
      case (None, None) => Reckoned(DelayFigure(e, root)) < Reckoned(DelayFigure(f, root))
  }

  /** A delay that is none is the longest there is. */
  function Reckoned(d: real): real { if d > 0.0 then d else 1000000.0 }

  /** The figure of a record, less being better; a mode that goes by the last
      measurement has none. */
  function RecordFigure(mode: RankMode, e: Entry, now: int, root: real -> real): Option<real> {
    match mode
    case PingHistory => if e.stats.Some? && e.stats.value.samples >= 3 then Some(DelayFigure(e, root)) else None
    case SpeedHistory => if HasSpeedRecord(e, now) then Some(-SpeedFigure(e, now, root).value) else None
    case _ => None
  }

  /** The answered, then the untested, then those that failed; where nothing was
      answered, those with a record first and by it. */
  predicate Precedes(mode: RankMode, e: Entry, f: Entry, now: int, root: real -> real) {
    match (e.ping, f.ping)
    case (Answered, Answered) => AnsweredBefore(mode, e, f, now, root)
    case (Answered, _) => true
    case (_, Answered) => false
    case (Untested, Unanswered) => true
    case (Unanswered, Untested) => false
    case _ =>
      match (RecordFigure(mode, e, now, root), RecordFigure(mode, f, now, root))
      case (Some(x), Some(y)) => x < y
      case (Some(_), None) => true
      case _ => false
  }

  // ------------------------------------------------------------ the figures agree

  lemma FiguresAgree(e: Entry, now: int, root: real -> real)
    ensures StableScore(StatsOf(e), e.delay, root) == DelayFigure(e, root)
    ensures LastSpeed(e, now) == Measured(e, now)
  {}

  lemma Charged(x: real, seen: int)
    ensures ThinCharge(seen) == Doubt(seen) < 1.0
    ensures x > 0.0 ==> -x * (1.0 - ThinCharge(seen)) == -(x * (1.0 - Doubt(seen))) < 0.0
  {
    var keep := 1.0 - ThinCharge(seen);
    if x > 0.0 { Product(x, keep); }
  }

  lemma SpeedFiguresAgree(e: Entry, now: int, root: real -> real)
    ensures var (score, stable) := Score(SpeedHistory, e, now, root);
      && (stable <==> HasSpeedRecord(e, now))
      && score == match SpeedFigure(e, now, root) case Some(x) => -x case None => Reckoned(DelayFigure(e, root))
    ensures SpeedFigure(e, now, root).Some? ==> SpeedFigure(e, now, root).value >= 0.0
  {
    FiguresAgree(e, now, root);
    Charged(Measured(e, now), StatsOf(e).speedSeen);
    hide StableScore, DelayFigure, ThinCharge, Doubt;
  }

  /** The comparison the list is sorted by is that rule. */
  lemma SoonerIsPrecedes(mode: RankMode, e: Entry, f: Entry, now: int, root: real -> real)
    ensures Sooner(mode, CandOf(mode, e, now, root), CandOf(mode, f, now, root)) <==> Precedes(mode, e, f, now, root)
  {
    FiguresAgree(e, now, root);
    FiguresAgree(f, now, root);
    SpeedFiguresAgree(e, now, root);
    SpeedFiguresAgree(f, now, root);
    hide StableScore, DelayFigure, SpeedFigure, LastSpeed, Measured;
  }

  // ------------------------------------------------------------ the list

  /** Not left out, hidden, unusable or paused. */
  predicate Offerable(a: Ask, e: Entry) {
    && e.raw != "" && e.raw != a.excludeRaw && !e.hidden && e.usable
    && (e.raw in a.cooldown ==> a.cooldown[e.raw] <= a.now)
  }

  /** The first entry that may be offered with its config. */
  ghost predicate FirstOffer(a: Ask, listed: seq<Entry>, i: int) {
    && 0 <= i < |listed| && Offerable(a, listed[i])
    && forall j :: 0 <= j < i && Offerable(a, listed[j]) ==> listed[j].raw != listed[i].raw
  }

  lemma FirstOfferIs(a: Ask, listed: seq<Entry>, i: nat)
    requires i < |listed|
    ensures FirstOffer(a, listed, i) <==> FirstOfItsKind(a, listed, i)
  {
    assert forall e :: Offerable(a, e) <==> Eligible(a, e);
  }

  lemma CandidateIs(a: Ask, listed: seq<Entry>, c: Cand)
    ensures c in Candidates(a, listed) <==>
      exists i :: 0 <= i < |listed| && FirstOffer(a, listed, i) && c == CandOf(a.mode, listed[i], a.now, a.root)
  {
    CandidatesExactly(a, listed, c);
    forall i | 0 <= i < |listed| ensures FirstOffer(a, listed, i) <==> FirstOfItsKind(a, listed, i) {
      FirstOfferIs(a, listed, i);
    }
    hide FirstOffer, FirstOfItsKind, Candidates, CandOf;
  }

  /** The list offers those entries and no others, and says of each whether it has
      answered. */
  lemma OffersExactly(a: Ask, listed: seq<Entry>, e: Entry)
    ensures (exists c :: c in Candidates(a, listed) && c.entry == e) <==>
      exists i :: 0 <= i < |listed| && FirstOffer(a, listed, i) && listed[i] == e
    ensures forall c :: c in Candidates(a, listed) ==> (c.rank == 0 <==> c.entry.ping == Answered)
  {
    forall c ensures c in Candidates(a, listed) <==>
      exists i :: 0 <= i < |listed| && FirstOffer(a, listed, i) && c == CandOf(a.mode, listed[i], a.now, a.root)
    {
      CandidateIs(a, listed, c);
    }
    if exists i :: 0 <= i < |listed| && FirstOffer(a, listed, i) && listed[i] == e {
      assert CandOf(a.mode, e, a.now, a.root) in Candidates(a, listed);
    }
    hide FirstOffer, Candidates, Score;
  }

  lemma CandidateAt(a: Ask, listed: seq<Entry>, i: nat) returns (p: nat)
    requires i < |listed| && FirstOffer(a, listed, i)
    ensures p < |Candidates(a, listed)| && Candidates(a, listed)[p] == CandOf(a.mode, listed[i], a.now, a.root)
  {
    hide Candidates, CandOf, FirstOffer, FirstOfItsKind;
    FirstOfferIs(a, listed, i);
    CandidatesExactly(a, listed, CandOf(a.mode, listed[i], a.now, a.root));
    p :| 0 <= p < |Candidates(a, listed)| && Candidates(a, listed)[p] == CandOf(a.mode, listed[i], a.now, a.root);
  }

  lemma DistinctOffers(a: Ask, listed: seq<Entry>, i: nat, j: nat)
    requires i < |listed| && j < |listed| && i != j && FirstOffer(a, listed, i) && FirstOffer(a, listed, j)
    ensures listed[i].raw != listed[j].raw
  {}

  /** One entry stands before another when it precedes it, or when neither precedes
      the other and it is listed first. */
  lemma OfferedInOrder(a: Ask, listed: seq<Entry>, i: nat, j: nat) returns (p: nat, q: nat)
    requires i < |listed| && j < |listed| && i != j && FirstOffer(a, listed, i) && FirstOffer(a, listed, j)
    requires Precedes(a.mode, listed[i], listed[j], a.now, a.root) ||
      (i < j && !Precedes(a.mode, listed[j], listed[i], a.now, a.root))
    ensures p < q < |Candidates(a, listed)|
    ensures Candidates(a, listed)[p].entry == listed[i] && Candidates(a, listed)[q].entry == listed[j]
  {
    hide Candidates, FirstOffer, FirstOfItsKind, Precedes, Sooner, Score;
    SoonerIsPrecedes(a.mode, listed[i], listed[j], a.now, a.root);
    SoonerIsPrecedes(a.mode, listed[j], listed[i], a.now, a.root);
    if Precedes(a.mode, listed[i], listed[j], a.now, a.root) {
      p := CandidateAt(a, listed, i);
      q := CandidateAt(a, listed, j);
      DistinctOffers(a, listed, i, j);
      if q < p { InOrder(a, listed, q, p); }
    } else {
      FirstOfferIs(a, listed, i);
      FirstOfferIs(a, listed, j);
      p, q := TiesKeepListOrder(a, listed, i, j);
    }
  }
}
