/** What a sweep of AUTO tries, when it stops and what it leaves of the pauses, said
    from the ranked list and from what the attempts meet (autoConnectFromPool and
    autoBumpCooldown in vair/core/autoconnect.go). */
module SweepRules {
  import opened Ranking
  import opened Sweep

  /** The last connection's config, where it is first listed, if it has answered its
      ping. */
  predicate Favourite(cands: seq<Cand>, raw: string, i: int) {
    && raw != "" && 0 <= i < |cands| && cands[i].entry.raw == raw && cands[i].rank == 0
    && forall j :: 0 <= j < i ==> cands[j].entry.raw != raw
  }

  /** The list as it is ranked, but the favourite first where there is one. */
  ghost predicate OrderRules(cands: seq<Cand>, raw: string, order: seq<Cand>) {
    if exists i :: Favourite(cands, raw, i)
    then exists i :: Favourite(cands, raw, i) && order == [cands[i]] + cands[..i] + cands[i + 1..]
    else order == cands
  }

  /** The attempts go down the list, eight at most, while AUTO is on, to the first
      that connects. */
  ghost predicate AttemptRules(order: seq<string>, world: World, o: Outcome) {
    var n := |o.tried|;
    && n <= 8 && o.tried <= order
    && (forall i :: 0 <= i < n ==> world(i).stillOn)
    && (forall i :: 0 <= i < n - 1 ==> !world(i).connects)
    && (o.connected <==> n > 0 && world(n - 1).connects)
    && (!o.connected ==> n == |order| || n == 8 || !world(n).stillOn)
  }

  /** The pause after a failure: half a minute, then twice the last one, half an hour
      at most. */
  function Longer(p: Pauses, raw: string): int {
    var last := if raw in p.backoff then p.backoff[raw] else 0;
    if last == 0 then 30 else if last <= 900 then 2 * last else 1800
  }

  predicate PausedFrom(q: Pauses, raw: string, end: int, pause: int) {
    raw in q.cooldown && q.cooldown[raw] == end + pause && raw in q.backoff && q.backoff[raw] == pause
  }

  predicate SameBackoff(q: Pauses, p: Pauses, raw: string) {
    (raw in q.backoff <==> raw in p.backoff) && (raw in q.backoff ==> q.backoff[raw] == p.backoff[raw])
  }

  /** What failed is paused from the end of its attempt, what connected is paused no
      more, the rest stays; when the whole list failed every pause is lifted. */
  ghost predicate PauseRules(order: seq<string>, world: World, p: Pauses, o: Outcome)
    requires |o.tried| <= |order|
  {
    var n := |o.tried|;
    if order != [] && n == |order| && !o.connected then o.pauses == Pauses(map[], map[])
    else
      && (forall i :: 0 <= i < (if o.connected then n - 1 else n) ==>
            PausedFrom(o.pauses, order[i], world(i).over, Longer(p, order[i])))
      && (o.connected ==> n > 0 && order[n - 1] !in o.pauses.cooldown && SameBackoff(o.pauses, p, order[n - 1]))
      && forall raw :: raw !in o.tried ==> SamePause(o.pauses, p, raw)
  }

  // ------------------------------------------------------------ the order

  lemma OrderIsRight(cands: seq<Cand>, raw: string)
    ensures OrderRules(cands, raw, Preferred(cands, raw))
  {
    hide Position;
    var i := Position(cands, raw);
    if raw != "" && i < |cands| && cands[i].rank == 0 {
      assert Favourite(cands, raw, i);
    } else {
      forall j ensures !Favourite(cands, raw, j) {}
    }
  }

  // ------------------------------------------------------------ the attempts

  lemma AttemptsGoByRules(order: seq<string>, world: World, p: Pauses)
    ensures AttemptRules(order, world, Swept(order, world, p))
  {
    hide PauseAll;
    FailuresFail(world, |order|, 0);
  }

  // ------------------------------------------------------------ the pauses

  lemma LongerIsNext(p: Pauses, raw: string)
    ensures NextPause(p.backoff, raw) == Longer(p, raw)
  {}

  lemma {:induction false} EachIsPaused(p: Pauses, raws: seq<string>, world: World, i: nat)
    requires NoRepeats(raws) && i < |raws|
    ensures PausedFrom(PauseAll(p, raws, world), raws[i], world(i).over, Longer(p, raws[i]))
  {
    hide Longer, NextPause, NoRepeats;
    var front, k := raws[..|raws| - 1], |raws| - 1;
    FrontNoRepeats(raws);
    if i == k {
      PauseAllSparesOthers(p, front, world, raws[k]);
      SameLonger(PauseAll(p, front, world), p, raws[k]);
      LongerIsNext(PauseAll(p, front, world), raws[k]);
    } else {
      EachIsPaused(p, front, world, i);
      assert front[i] == raws[i];
    }
  }

  lemma FrontNoRepeats(raws: seq<string>)
    requires NoRepeats(raws) && raws != []
    ensures var front, last := raws[..|raws| - 1], raws[|raws| - 1];
      NoRepeats(front) && last !in front && forall i :: 0 <= i < |front| ==> front[i] != last
  {}

  lemma SameLonger(p: Pauses, q: Pauses, raw: string)
    requires SamePause(p, q, raw)
    ensures Longer(p, raw) == Longer(q, raw)
  {}

  lemma NoRepeatsTo(order: seq<string>, k: nat)
    requires NoRepeats(order) && k <= |order|
    ensures NoRepeats(order[..k])
    ensures k < |order| ==> order[k] !in order[..k]
  {}

  /** The pauses of a sweep that does not lift them all, k attempts having failed. */
  lemma FailuresPause(order: seq<string>, world: World, p: Pauses, k: nat)
    requires NoRepeats(order) && k <= |order|
    ensures var q := PauseAll(p, order[..k], world);
      && (forall i :: 0 <= i < k ==> PausedFrom(q, order[i], world(i).over, Longer(p, order[i])))
      && (forall raw :: raw !in order[..k] ==> SamePause(q, p, raw))
      && (k < |order| ==> order[k] !in order[..k])
  {
    hide NoRepeats, Longer, SamePause, PausedFrom;
    NoRepeatsTo(order, k);
    forall i | 0 <= i < k ensures PausedFrom(PauseAll(p, order[..k], world), order[i], world(i).over, Longer(p, order[i])) {
      EachIsPaused(p, order[..k], world, i);
    }
    forall raw | raw !in order[..k] ensures SamePause(PauseAll(p, order[..k], world), p, raw) {
      PauseAllSparesOthers(p, order[..k], world, raw);
    }
  }

  lemma PausesGoByRules(order: seq<string>, world: World, p: Pauses)
    requires NoRepeats(order)
    ensures var o := Swept(order, world, p); |o.tried| <= |order| && PauseRules(order, world, p, o)
  {
    hide NoRepeats, PauseAll, NextPause;
    FailuresFail(world, |order|, 0);
    var k := Failures(world, |order|, 0);
    FailuresPause(order, world, p, k);
    if k < |order| { assert order[..k + 1] == order[..k] + [order[k]]; }
  }

  // ------------------------------------------------------------ a connection out of the pool

  /** Connecting from the pool: the attempts go down the ranked list of those that
      are not paused, or of all of them when everybody is, the favourite first; what
      they leave is what the list and the attempts say. */
  lemma ConnectGoesByRules(s: Round, p: Pauses) returns (cands: seq<Cand>, order: seq<Cand>)
    ensures cands == if Candidates(s.ask, s.listed) != [] then Candidates(s.ask, s.listed)
                     else Candidates(s.ask.(cooldown := map[]), s.listed)
    ensures OrderRules(cands, s.preferRaw, order)
    ensures AttemptRules(Raws(order), s.world, PassOver(s, p)) && PauseRules(Raws(order), s.world, p, PassOver(s, p))
  {
    cands := Offered(s.ask, s.listed);
    order := Preferred(cands, s.preferRaw);
    OfferedRanked(s);
    OrderIsRight(cands, s.preferRaw);
    PreferredPermutes(cands, s.preferRaw);
    hide Offered, Preferred, Swept, NoRepeats, Raws, PauseRules, AttemptRules, OrderRules;
    AttemptsGoByRules(Raws(order), s.world, p);
    PausesGoByRules(Raws(order), s.world, p);
  }

  lemma OfferedRanked(s: Round)
    ensures var cands := Offered(s.ask, s.listed);
      && NoRepeats(Raws(cands))
      && cands == if Candidates(s.ask, s.listed) != [] then Candidates(s.ask, s.listed)
                  else Candidates(s.ask.(cooldown := map[]), s.listed)
  {
    hide Candidates, NoRepeats;
    CandidatesArePool(s.ask, s.listed);
    CandidatesArePool(s.ask.(cooldown := map[]), s.listed);
    if |s.ask.cooldown| == 0 { assert s.ask.cooldown == map[] && s.ask == s.ask.(cooldown := map[]); }
  }
}
