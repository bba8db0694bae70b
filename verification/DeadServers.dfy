/** How long the AUTO supervisor stays on a server that has died, from a
    connection nothing was known against (vair/core/autoconnect.go). */
module DeadServers {
  import opened Decimal
  import opened Liveness
  import opened Supervisor

  /** Nothing has come back since the counters were last looked at, or they are
      another session's. */
  predicate NothingBack(w: Watch, link: Link) { w.Unseen? || w.raw != link.raw || link.down <= w.down }

  /** The longest a probe is put off: while nothing has failed by the interval or
      a suspicion, whichever is longer, then by the short recheck. */
  function Wait(every: int, fails: nat): int {
    if fails == 0 then if every < 10 then 10 else every
    else if every < 5 then every else 5
  }

  /** The most time the probes still missing take, with passes at most gap
      seconds apart. */
  function Patience(every: int, gap: int, fails: nat, threshold: int): int
    decreases threshold - fails
  {
    if fails >= threshold then 0 else Wait(every, fails) + gap + Patience(every, gap, fails + 1, threshold)
  }

  /** One server throughout, dead, its counters standing still, the passes at
      most gap seconds apart. */
  predicate DeadThroughout(passes: seq<Input>, threshold: int, every: int, gap: int) {
    && every > 0 && gap >= 0
    && (forall k :: 0 <= k < |passes| ==> Dead(passes[k], threshold) && passes[k].cfg.probeEvery == every)
    && (forall k :: 0 < k < |passes| ==> Follows(passes[k - 1], passes[k], gap))
  }

  predicate Follows(i: Input, j: Input, gap: int) {
    j.link.raw == i.link.raw && j.link.down == i.link.down && j.now <= i.now + gap
  }

  /** What a pass over a dead server comes to. */
  predicate DeadStep(m: Mind, i: Input, threshold: int, r: (Mind, Event))
    requires m.failCount >= 0
  {
    var (n, e) := r;
    if e.act != Act.Quiet then e.act.Switching? && e.act.why == ProbeFailed
    else
      && !n.force && n.live.Watching? && n.live.raw == i.link.raw && n.live.down == i.link.down
      && if n.failCount == m.failCount
         then n.lastProbe == m.lastProbe && !Passed(m.lastProbe, i.now, Wait(i.cfg.probeEvery, m.failCount))
         else n.failCount == m.failCount + 1 < threshold && n.lastProbe == Some(i.now)
  }

  lemma HintOfNothing(m: Mind, i: Input)
    requires m.failCount >= 0 && NothingBack(m.live, i.link)
    ensures Hinted(m, i) != Alive && (m.failCount > 0 ==> Hinted(m, i) == Unknown)
    ensures var w := Looked(m.live, i.link.raw, i.link.up, i.link.down, i.now).0;
      w.Watching? && w.raw == i.link.raw && w.down == i.link.down
  {}

  lemma WaitIsLongest(m: Mind, i: Input)
    requires m.failCount >= 0 && i.cfg.probeEvery > 0 && Hinted(m, i) != Alive && (m.failCount > 0 ==> Hinted(m, i) == Unknown)
    ensures Passed(m.lastProbe, i.now, Wait(i.cfg.probeEvery, m.failCount)) ==> ProbeDue(m, i)
  {
    hide Hinted;
  }

  lemma DeadHealthStep(m: Mind, i: Input, threshold: int)
    requires 0 <= m.failCount < threshold && !m.force && NothingBack(m.live, i.link)
    requires Dead(i, threshold) && i.cfg.probeEvery > 0
    ensures DeadStep(m, i, threshold, HealthPass(m, i))
  {
    HintOfNothing(m, i);
    WaitIsLongest(m, i);
    hide Hinted, ProbeDue, Looked, Failed, Threshold, Passed, Wait;
    var n := m.(probeNow := false, live := Looked(m.live, i.link.raw, i.link.up, i.link.down, i.now).0,
                failCount := m.failCount + 1, lastProbe := Some(i.now));
    FailedLeaves(n, i);
  }

  lemma DeadPassStep(m: Mind, i: Input, threshold: int)
    requires 0 <= m.failCount < threshold && !m.force && NothingBack(m.live, i.link)
    requires Dead(i, threshold) && i.cfg.probeEvery > 0
    ensures DeadStep(m, i, threshold, Pass(m, i))
  {
    hide HealthPass, Threshold, Passed, Wait, NothingBack;
    WrittenAlike(m, i.asked);
    DeadHealthStep(Written(m, i.asked), i, threshold);
  }

  lemma WrittenAlike(m: Mind, a: Asked)
    ensures var n := Written(m, a);
      n.failCount == m.failCount && n.live == m.live && n.lastProbe == m.lastProbe && (!a.switchNow ==> n.force == m.force)
  {}

  ghost predicate NobodyLeaves(es: seq<Event>) { forall k :: 0 <= k < |es| ==> es[k].act == Act.Quiet }

  /** After the passes of a run in which the server was not left. */
  predicate StillThere(m: Mind, n: Mind, passes: seq<Input>, threshold: int, every: int, gap: int)
    requires passes != [] && m.failCount >= 0
  {
    var last := passes[|passes| - 1];
    && 0 <= n.failCount < threshold && !n.force && n.lastProbe.Some?
    && n.live.Watching? && n.live.raw == last.link.raw && n.live.down == last.link.down
    && last.now - n.lastProbe.value < Wait(every, n.failCount)
    && n.lastProbe.value + Patience(every, gap, n.failCount, threshold)
         <= passes[0].now + Patience(every, gap, m.failCount, threshold)
  }

  lemma ThroughoutPrefix(passes: seq<Input>, n: nat, threshold: int, every: int, gap: int)
    requires DeadThroughout(passes, threshold, every, gap) && n < |passes|
    ensures DeadThroughout(passes[..n], threshold, every, gap)
    ensures Dead(passes[n], threshold) && passes[n].cfg.probeEvery == every > 0 && gap >= 0
    ensures n > 0 ==> Follows(passes[n - 1], passes[n], gap)
  {
    hide Dead, Follows;
    forall k | 0 < k < n ensures Follows(passes[..n][k - 1], passes[..n][k], gap) {
      assert Follows(passes[k - 1], passes[k], gap);
    }
  }

  lemma {:induction false} StillThereAfter(m: Mind, passes: seq<Input>, threshold: int, every: int, gap: int)
    requires 0 <= m.failCount < threshold && !m.force && passes != [] && NothingBack(m.live, passes[0].link)
    requires m.lastProbe.Some? ==> m.lastProbe.value <= passes[0].now
    requires DeadThroughout(passes, threshold, every, gap) && NobodyLeaves(Run(m, passes).1)
    ensures StillThere(m, Run(m, passes).0, passes, threshold, every, gap)
  {
    hide Pass, Dead, DeadThroughout;
    var front, i := passes[..|passes| - 1], passes[|passes| - 1];
    var n, es := Run(m, front).0, Run(m, passes).1;
    ThroughoutPrefix(passes, |passes| - 1, threshold, every, gap);
    assert es[|es| - 1] == Pass(n, i).1 && Pass(n, i).1.act == Act.Quiet;
    if front == [] {
      DeadPassStep(m, i, threshold);
      FirstStep(m, i, Pass(m, i), threshold, every, gap);
    } else {
      assert forall k :: 0 <= k < |front| ==> Run(m, front).1[k] == es[k];
      StillThereAfter(m, front, threshold, every, gap);
      DeadPassStep(n, i, threshold);
      LaterStep(n, i, Pass(n, i), front[|front| - 1].now, threshold, every, gap);
    }
  }

  lemma FirstStep(m: Mind, i: Input, r: (Mind, Event), threshold: int, every: int, gap: int)
    requires 0 <= m.failCount < threshold && i.cfg.probeEvery == every > 0 && gap >= 0
    requires r.1.act == Act.Quiet && DeadStep(m, i, threshold, r)
    requires m.lastProbe.Some? ==> m.lastProbe.value <= i.now
    ensures StillThere(m, r.0, [i], threshold, every, gap)
  {}

  lemma LaterStep(n: Mind, i: Input, r: (Mind, Event), before: int, threshold: int, every: int, gap: int)
    requires 0 <= n.failCount < threshold && i.cfg.probeEvery == every > 0 && gap >= 0 && n.lastProbe.Some?
    requires r.1.act == Act.Quiet && DeadStep(n, i, threshold, r)
    requires before - n.lastProbe.value < Wait(every, n.failCount) && i.now <= before + gap
    ensures 0 <= r.0.failCount < threshold && r.0.lastProbe.Some?
    ensures i.now - r.0.lastProbe.value < Wait(every, r.0.failCount)
    ensures r.0.lastProbe.value + Patience(every, gap, r.0.failCount, threshold)
      <= n.lastProbe.value + Patience(every, gap, n.failCount, threshold)
  {}

  lemma WaitIsPatience(every: int, gap: int, fails: nat, threshold: int)
    requires fails < threshold && every > 0 && gap >= 0
    ensures Wait(every, fails) <= Patience(every, gap, fails, threshold)
  {
    PatienceIsNat(every, gap, fails + 1, threshold);
  }

  lemma {:induction false} PatienceIsNat(every: int, gap: int, fails: nat, threshold: int)
    requires every > 0 && gap >= 0
    ensures Patience(every, gap, fails, threshold) >= 0
    decreases threshold - fails
  {
    if fails >= threshold {
    } else {
      PatienceIsNat(every, gap, fails + 1, threshold);
    }
  }

  lemma {:induction false} FirstLeaving(es: seq<Event>) returns (k: nat)
    requires !NobodyLeaves(es)
    ensures k < |es| && es[k].act != Act.Quiet && NobodyLeaves(es[..k])
  {
    var front := es[..|es| - 1];
    if NobodyLeaves(front) {
      k := |es| - 1;
      assert es[k].act != Act.Quiet;
    } else {
      k := FirstLeaving(front);
      assert front[..k] == es[..k];
    }
  }

  /** The first thing done about it is to leave it, on the evidence of a probe. */
  lemma LeftByProbe(m: Mind, passes: seq<Input>, k: nat, threshold: int, every: int, gap: int)
    requires 0 <= m.failCount < threshold && !m.force && k < |passes| && NothingBack(m.live, passes[0].link)
    requires m.lastProbe.Some? ==> m.lastProbe.value <= passes[0].now
    requires DeadThroughout(passes, threshold, every, gap) && NobodyLeaves(Run(m, passes).1[..k])
    requires Run(m, passes).1[k].act != Act.Quiet
    ensures Run(m, passes).1[k].act.Switching? && Run(m, passes).1[k].act.why == ProbeFailed
  {
    RunAt(m, passes, k);
    ThroughoutPrefix(passes, k, threshold, every, gap);
    assert Run(m, []).0 == m;
    hide Pass, Dead, DeadThroughout, Run;
    if k == 0 {
      assert passes[..0] == [];
      DeadPassStep(m, passes[0], threshold);
    } else {
      StillThereAfter(m, passes[..k], threshold, every, gap);
      DeadPassStep(Run(m, passes[..k]).0, passes[k], threshold);
    }
  }

  /** A server that dies, whatever was known of it before, is left before the
      probes still missing have had their time, counted from the first pass over
      it: the longer of the probe interval and ten seconds for the first, the
      short recheck for each further one, and the time between passes. */
  lemma DeadIsLeftInTime(m: Mind, passes: seq<Input>, threshold: int, every: int, gap: int)
    requires 0 <= m.failCount < threshold && !m.force && passes != [] && NothingBack(m.live, passes[0].link)
    requires m.lastProbe.Some? ==> m.lastProbe.value <= passes[0].now
    requires DeadThroughout(passes, threshold, every, gap)
    requires passes[|passes| - 1].now >= passes[0].now + Patience(every, gap, m.failCount, threshold)
    ensures exists k :: 0 <= k < |passes| && Run(m, passes).1[k].act.Switching? && Run(m, passes).1[k].act.why == ProbeFailed
  {
    ThroughoutPrefix(passes, |passes| - 1, threshold, every, gap);
    hide Run, DeadThroughout, Patience, NobodyLeaves;
    var es := Run(m, passes).1;
    if NobodyLeaves(es) {
      StillThereAfter(m, passes, threshold, every, gap);
      WaitIsPatience(every, gap, Run(m, passes).0.failCount, threshold);
    } else {
      var k := FirstLeaving(es);
      LeftByProbe(m, passes, k, threshold, every, gap);
    }
  }
}
