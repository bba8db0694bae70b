/** When a server that was left is tried again: the lists that the passes of the
    AUTO supervisor work through, made from its pauses (startAutoSupervisor and
    autoConnectFromPool in vair/core/autoconnect.go). */
module Returns {
  import opened Decimal
  import opened Liveness
  import opened Ranking
  import opened Supervisor
  import opened Sweep

  predicate Sweeps(a: Act) { a.Switching? || a.Joining? }

  /** The server is left by hand or by a probe, which pauses it. */
  predicate Dismisses(a: Act) { a.Switching? && a.why != PoolChanged }

  /** The pauses the list of a pass is made with. */
  function Standing(m: Mind, i: Input, a: Act): Pauses {
    if Dismisses(a) then Bump(m.pauses, i.link.raw, i.now) else m.pauses
  }

  /** How a list was asked for, and from what tabs. */
  datatype Choice = Choice(ask: Ask, listed: seq<Entry>, prefer: string)

  /** The list is the pool's, ranked, with the pauses as they stand; when a server
      is replaced without it and without a preference. */
  ghost predicate FromPool(m: Mind, i: Input, a: Act, c: Choice) {
    Sweeps(a) ==>
      && c.ask.cooldown == Standing(m, i, a).cooldown
      && (a.Switching? ==> c.ask.excludeRaw == i.link.raw && c.prefer == "")
      && (a.Joining? ==> c.ask.excludeRaw == "")
      && i.order == Raws(Preferred(Offered(c.ask, c.listed), c.prefer))
  }

  // ------------------------------------------------------------ what a pass does to pauses

  /** The pauses after a pass, and its sweep, are those of a sweep over its list;
      a pass without one leaves every pause. */
  predicate SweepsAs(m: Mind, i: Input, r: (Mind, Event)) {
    if Sweeps(r.1.act) then
      var o := Swept(i.order, i.world, Standing(m, i, r.1.act));
      r.0.pauses == o.pauses && r.1.act.ok == o.connected
    else r.0.pauses.cooldown == m.pauses.cooldown
  }

  lemma SwitchSweeps(m: Mind, i: Input, note: Note, why: Why, n: Mind)
    requires n.pauses == if why == PoolChanged then m.pauses else Bump(m.pauses, i.link.raw, i.now)
    ensures SweepsAs(m, i, Switch(n, i, note, why))
  {
    hide Swept, Bump;
  }

  lemma FailedSweeps(m: Mind, i: Input)
    ensures SweepsAs(m, i, Failed(m, i))
  {
    hide Switch, Swept, Bump, Threshold, Passed, OverBudget;
    SwitchSweeps(m, i, Bad, if i.link.alive then TooSlow else ProbeFailed, m.(pauses := Bump(m.pauses, i.link.raw, i.now)));
  }

  lemma HealthSweeps(m: Mind, i: Input)
    ensures SweepsAs(m, i, HealthPass(m, i))
  {
    hide Looked, Failed, ProbeDue, OverBudget, Hinted, Swept, Bump;
    var count := if Hinted(m, i) == Alive then 0 else m.failCount;
    FailedSweeps(m.(probeNow := false, live := Looked(m.live, i.link.raw, i.link.up, i.link.down, i.now).0,
                    failCount := count + 1, lastProbe := Some(i.now)), i);
  }

  lemma ConnectedSweeps(m: Mind, i: Input)
    ensures SweepsAs(m, i, ConnectedPass(m, i))
  {
    hide HealthPass, Switch, Swept, Bump, Passed, TunTooSoon, LeftPool;
    HealthSweeps(m.(force := false), i);
    SwitchSweeps(m, i, Silent, ByHand, m.(force := false, pauses := Bump(m.pauses, i.link.raw, i.now)));
    SwitchSweeps(m, i, Silent, PoolChanged, m.(force := false));
  }

  lemma IdleSweeps(m: Mind, i: Input)
    ensures SweepsAs(m, i, IdlePass(m, i))
  {
    hide Swept;
  }

  lemma PassSweeps(m: Mind, i: Input)
    ensures SweepsAs(m, i, Pass(m, i))
  {
    hide ConnectedPass, IdlePass, ClockJumped, Swept, Bump;
    ConnectedSweeps(Written(m, i.asked), i);
    IdleSweeps(Written(m, i.asked), i);
  }

  // ------------------------------------------------------------ who is on the list

  lemma OnTheList(cands: seq<Cand>, prefer: string, raw: string)
    requires NoRepeats(Raws(cands)) && raw !in Raws(cands)
    ensures raw !in Raws(Preferred(cands, prefer))
  {
    hide Preferred, NoRepeats, Raws;
    PreferredPermutes(cands, prefer);
    IsMember(Raws(cands), raw);
    IsMember(Raws(Preferred(cands, prefer)), raw);
  }

  lemma IsMember(s: seq<string>, x: string)
    ensures x in s <==> x in Members(s)
  {}

  /** A config that is left out, or paused while others are not, is not offered. */
  lemma NotOffered(c: Choice, raw: string)
    requires raw == c.ask.excludeRaw || (Paused(c.ask, raw) && Candidates(c.ask, c.listed) != [])
    ensures raw !in Raws(Preferred(Offered(c.ask, c.listed), c.prefer))
  {
    hide Preferred, Candidates;
    NotACandidate(c.ask, c.listed, raw);
    if raw == c.ask.excludeRaw { NotACandidate(c.ask.(cooldown := map[]), c.listed, raw); }
    CandidatesArePool(c.ask, c.listed);
    CandidatesArePool(c.ask.(cooldown := map[]), c.listed);
    OnTheList(Offered(c.ask, c.listed), c.prefer, raw);
  }

  lemma NotACandidate(a: Ask, listed: seq<Entry>, raw: string)
    requires raw == a.excludeRaw || Paused(a, raw)
    ensures raw !in Raws(Candidates(a, listed))
  {
    CandidateOf(a, listed, raw);
  }

  // ------------------------------------------------------------ pass by pass

  predicate PausedUntil(p: Pauses, raw: string, end: int) { raw in p.cooldown && p.cooldown[raw] == end }

  /** What the sweep of a pass tries. */
  function TriedIn(m: Mind, i: Input, a: Act): seq<string> {
    if Sweeps(a) then Swept(i.order, i.world, Standing(m, i, a)).tried else []
  }

  lemma TriedIsListed(order: seq<string>, world: World, p: Pauses, raw: string)
    requires raw !in order
    ensures raw !in Swept(order, world, p).tried
  {
    SweepBounds(order, world, p);
    hide Swept;
    PrefixHolds(Swept(order, world, p).tried, order, raw);
  }

  lemma PrefixHolds(a: seq<string>, b: seq<string>, x: string)
    requires a <= b
    ensures x in a ==> x in b
  {}

  /** A config that is not on the list of a pass is not tried, and its pause stays
      unless the sweep lifts all of them. */
  lemma Spared(m: Mind, i: Input, raw: string, end: int)
    requires var a := Pass(m, i).1.act; Sweeps(a) ==> raw !in i.order && PausedUntil(Standing(m, i, a), raw, end)
    requires !Sweeps(Pass(m, i).1.act) ==> PausedUntil(m.pauses, raw, end)
    ensures raw !in TriedIn(m, i, Pass(m, i).1.act)
    ensures Pass(m, i).0.pauses == UNPAUSED || PausedUntil(Pass(m, i).0.pauses, raw, end)
  {
    PassSweeps(m, i);
    hide Pass, Swept, Standing;
    var a := Pass(m, i).1.act;
    if Sweeps(a) {
      TriedIsListed(i.order, i.world, Standing(m, i, a), raw);
      SweepSparesOthers(i.order, i.world, Standing(m, i, a), raw);
    }
  }

  /** The pass that leaves a server does not try it, and pauses it. */
  lemma LeavingSpares(m: Mind, i: Input, c: Choice)
    requires Dismisses(Pass(m, i).1.act) && FromPool(m, i, Pass(m, i).1.act, c)
    ensures Pass(m, i).0.pauses == UNPAUSED || PausedUntil(Pass(m, i).0.pauses, i.link.raw, PauseEnd(m, i))
  {
    hide Pass, Swept, Offered, Preferred;
    NotOffered(c, i.link.raw);
    Spared(m, i, i.link.raw, PauseEnd(m, i));
  }

  /** When the pause of a server left now ends. */
  function PauseEnd(m: Mind, i: Input): int { i.now + NextPause(m.pauses.backoff, i.link.raw) }

  /** The pass makes its list, if any, before a pause is over, and the pauses leave
      it somebody to try. */
  ghost predicate InTime(a: Act, c: Choice, end: int) { Sweeps(a) ==> c.ask.now < end && Candidates(c.ask, c.listed) != [] }

  lemma PausedIsUnlisted(m: Mind, i: Input, a: Act, c: Choice, raw: string, end: int)
    requires FromPool(m, i, a, c) && InTime(a, c, end) && PausedUntil(m.pauses, raw, end) && Sweeps(a)
    ensures raw !in i.order
    ensures !(Dismisses(a) && i.link.raw == raw) ==> PausedUntil(Standing(m, i, a), raw, end)
  {
    hide Offered, Preferred, Candidates;
    NotOffered(c, raw);
  }

  /** A paused config is not tried, and keeps its pause unless it is the one left. */
  lemma LaterSpares(m: Mind, i: Input, c: Choice, raw: string, end: int)
    requires FromPool(m, i, Pass(m, i).1.act, c) && InTime(Pass(m, i).1.act, c, end) && PausedUntil(m.pauses, raw, end)
    ensures raw !in TriedIn(m, i, Pass(m, i).1.act)
    ensures !(Dismisses(Pass(m, i).1.act) && i.link.raw == raw) ==>
      Pass(m, i).0.pauses == UNPAUSED || PausedUntil(Pass(m, i).0.pauses, raw, end)
  {
    hide Pass, Swept, FromPool, InTime, PausedUntil, Standing;
    var a := Pass(m, i).1.act;
    if Sweeps(a) {
      PausedIsUnlisted(m, i, a, c, raw, end);
      TriedIsListed(i.order, i.world, Standing(m, i, a), raw);
    }
    if !(Dismisses(a) && i.link.raw == raw) { Spared(m, i, raw, end); }
  }

  // ------------------------------------------------------------ over runs

  function MindAt(passes: seq<Input>, k: nat): Mind
    requires k <= |passes|
  {
    Run(BORN, passes[..k]).0
  }

  function ActAt(passes: seq<Input>, k: nat): Act
    requires k < |passes|
  {
    Pass(MindAt(passes, k), passes[k]).1.act
  }

  /** A run in which every list is made from the pool with the pauses of its time. */
  ghost predicate PoolRun(passes: seq<Input>, choices: seq<Choice>) {
    |choices| == |passes| &&
    forall k :: 0 <= k < |passes| ==> FromPool(MindAt(passes, k), passes[k], ActAt(passes, k), choices[k])
  }

  predicate LeftAt(passes: seq<Input>, k: nat, raw: string)
    requires k < |passes|
  {
    Dismisses(ActAt(passes, k)) && passes[k].link.raw == raw
  }

  /** Nothing between pass j, in which a server is left, and pass k interferes with
      its pause: no sweep fails with everybody and lifts the pauses, it is not
      left a second time, and every sweep, that of pass k too, is made before the
      pause ends and has somebody else to try. */
  ghost predicate Undisturbed(passes: seq<Input>, choices: seq<Choice>, j: nat, k: nat, raw: string, end: int)
    requires j <= k < |passes| == |choices|
  {
    && (forall n :: j < n <= k ==> InTime(ActAt(passes, n), choices[n], end))
    && (forall n :: j < n <= k ==> MindAt(passes, n).pauses != UNPAUSED)
    && (forall n :: j < n < k ==> !LeftAt(passes, n, raw))
  }

  lemma NextMind(passes: seq<Input>, k: nat)
    requires k < |passes|
    ensures MindAt(passes, k + 1) == Pass(MindAt(passes, k), passes[k]).0
  {
    RunAt(BORN, passes, k);
  }

  lemma UndisturbedFront(passes: seq<Input>, choices: seq<Choice>, j: nat, k: nat, raw: string, end: int)
    requires j < k < |passes| == |choices| && Undisturbed(passes, choices, j, k, raw, end)
    ensures MindAt(passes, k).pauses != UNPAUSED && InTime(ActAt(passes, k), choices[k], end)
    ensures Undisturbed(passes, choices, j, k - 1, raw, end) && (j < k - 1 ==> !LeftAt(passes, k - 1, raw))
  {
    hide MindAt, ActAt, InTime, LeftAt;
  }

  lemma {:induction false} PauseLasts(passes: seq<Input>, choices: seq<Choice>, j: nat, k: nat, raw: string)
    requires PoolRun(passes, choices) && j < k < |passes| && LeftAt(passes, j, raw)
    requires Undisturbed(passes, choices, j, k, raw, PauseEnd(MindAt(passes, j), passes[j]))
    ensures PausedUntil(MindAt(passes, k).pauses, raw, PauseEnd(MindAt(passes, j), passes[j]))
    decreases k
  {
    hide Pass, MindAt, PauseEnd, InTime, FromPool, PausedUntil, Undisturbed;
    var end := PauseEnd(MindAt(passes, j), passes[j]);
    UndisturbedFront(passes, choices, j, k, raw, end);
    NextMind(passes, k - 1);
    var m, i := MindAt(passes, k - 1), passes[k - 1];
    assert FromPool(m, i, ActAt(passes, k - 1), choices[k - 1]);
    if j == k - 1 {
      LeavingSpares(m, i, choices[k - 1]);
    } else {
      UndisturbedFront(passes, choices, j, k - 1, raw, end);
      PauseLasts(passes, choices, j, k - 1, raw);
      LaterSpares(m, i, choices[k - 1], raw, end);
    }
  }

  /** A server left by hand or by a probe is not tried again, over any run, before
      its pause is over, unless something interfered: every config failed and all
      pauses were lifted, or the pauses left nobody else to try. */
  lemma LeftIsNotTried(passes: seq<Input>, choices: seq<Choice>, j: nat, k: nat, raw: string)
    requires PoolRun(passes, choices) && j < k < |passes| && LeftAt(passes, j, raw)
    requires Undisturbed(passes, choices, j, k, raw, PauseEnd(MindAt(passes, j), passes[j]))
    ensures raw !in TriedIn(MindAt(passes, k), passes[k], ActAt(passes, k))
  {
    hide Pass, MindAt, PauseEnd, InTime, FromPool, PausedUntil, TriedIn, Undisturbed;
    PauseLasts(passes, choices, j, k, raw);
    UndisturbedFront(passes, choices, j, k, raw, PauseEnd(MindAt(passes, j), passes[j]));
    assert FromPool(MindAt(passes, k), passes[k], ActAt(passes, k), choices[k]);
    LaterSpares(MindAt(passes, k), passes[k], choices[k], raw, PauseEnd(MindAt(passes, j), passes[j]));
  }
}
