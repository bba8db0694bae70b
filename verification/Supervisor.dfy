/** The AUTO supervisor: one pass of the loop of startAutoSupervisor
    (vair/core/autoconnect.go) as a step, with everything it reads as an input.
    Times are seconds, delays and clock gaps milliseconds. */
module Supervisor {
  import opened Decimal
  import opened Liveness
  import opened Sweep

  const QUIET_PROBE := 120
  const SUSPECT_RECHECK := 10
  const RECHECK_SOON := 5
  const TUN_SWITCH_FLOOR := 4
  const DEFAULT_THRESHOLD := 2

  datatype Settings = Settings(
    on: bool, needsAdmin: bool, threshold: int, maxLat: int, minDwell: int, probeEvery: int, tun: bool)

  /** What others have written to the shared flags since the last pass. */
  datatype Asked = Asked(switchNow: bool, want: Option<bool>, probeNow: bool, managed: Option<bool>)

  /** What the pool looks like: whether it holds configs, whether the connected
      one counts as a candidate and is listed at all, whether a faster one is
      there, and the state of its tests. */
  datatype PoolView = PoolView(
    has: bool, inPool: bool, rawPresent: bool, faster: bool, testing: bool, hasPing: bool, pingedNow: bool)

  datatype Phase = Busy | Up | Down

  /** The connection: servers is the number of hops. probe is what a health
      probe finds if one is made; lockFree whether actionMu can be had;
      stillWanted and stillDown what holds after a test of the pool. */
  datatype Link = Link(
    phase: Phase, raw: string, servers: nat, up: int, down: int, alive: bool, rtt: int,
    lockFree: bool, stillWanted: bool, stillDown: bool)

  /** order and world are the list a connection attempt would work through and
      what it would meet, over the time it is finished. */
  datatype Input = Input(
    now: int, wallGap: int, monoGap: int, cfg: Settings, asked: Asked, pool: PoolView, link: Link,
    order: seq<string>, world: World, over: int)

  datatype Mind = Mind(
    failCount: int, lastSwitch: Option<int>, lastProbe: Option<int>, nextRetry: Option<int>, lastTun: Option<int>,
    force: bool, want: bool, probeNow: bool, managed: bool, live: Watch, pauses: Pauses)

  datatype Why = ByHand | PoolChanged | ProbeFailed | TooSlow
  datatype Act = Quiet | Switching(why: Why, ok: bool) | Closing | Joining(ok: bool)

  /** What a pass learnt of the connection's health: nothing, a good or a bad
      health probe, or that nothing known before still counts. */
  datatype Note = Silent | Good | Bad | Break
  datatype Event = Event(note: Note, act: Act)

  const QUIET := Event(Silent, Act.Quiet)

  // ------------------------------------------------------------ one pass

  /** time.Since(t) is at least d; the zero time is long ago. */
  predicate Passed(t: Option<int>, now: int, d: int) { t.None? || now - t.value >= d }

  function Threshold(i: Input): int { if i.cfg.threshold < 1 then DEFAULT_THRESHOLD else i.cfg.threshold }

  function ProbeSpacing(fails: int, every: int): int { if fails > 0 && RECHECK_SOON < every then RECHECK_SOON else every }

  predicate OverBudget(i: Input) {
    i.link.alive && i.cfg.maxLat > 0 && i.link.rtt > i.cfg.maxLat && i.link.servers <= 1
  }

  function Written(m: Mind, a: Asked): Mind {
    m.(force := m.force || a.switchNow,
       want := if a.want.Some? then a.want.value else m.want,
       probeNow := m.probeNow || a.probeNow,
       managed := if a.managed.Some? then a.managed.value else m.managed)
  }

  /** A switch to the best the pool has, whatever comes of it. */
  function Switched(m: Mind, i: Input): (Mind, bool) {
    var o := Swept(i.order, i.world, m.pauses);
    var n := m.(failCount := 0, lastProbe := Some(i.over), pauses := o.pauses);
    if o.connected then
      (n.(managed := true, lastSwitch := Some(i.over), lastTun := if i.cfg.tun then Some(i.over) else m.lastTun), true)
    else (n.(nextRetry := Some(i.over + i.cfg.probeEvery)), false)
  }

  function Switch(m: Mind, i: Input, note: Note, why: Why): (Mind, Event) {
    var (n, ok) := Switched(m, i);
    (n, Event(note, Switching(why, ok)))
  }

  predicate TunTooSoon(m: Mind, i: Input) { i.cfg.tun && !Passed(m.lastTun, i.now, TUN_SWITCH_FLOOR) }

  function ForcedPass(m: Mind, i: Input): (Mind, Event) {
    if TunTooSoon(m, i) || !i.link.lockFree then (m, QUIET)
    else Switch(m.(force := false, pauses := Bump(m.pauses, i.link.raw, i.now)), i, Silent, ByHand)
  }

  predicate LeftPool(m: Mind, i: Input) { m.managed && !i.pool.inPool && i.pool.has }

  function LeftPoolPass(m: Mind, i: Input): (Mind, Event) {
    if !Passed(m.lastSwitch, i.now, i.cfg.minDwell) || !i.link.lockFree then (m, QUIET)
    else Switch(m, i, Silent, PoolChanged)
  }

  /** What the counters are taken to say: nothing, once a probe has failed. */
  function Hinted(m: Mind, i: Input): Hint {
    if m.failCount > 0 then Unknown else Looked(m.live, i.link.raw, i.link.up, i.link.down, i.now).1
  }

  predicate ProbeDue(m: Mind, i: Input) {
    m.probeNow || Passed(m.lastProbe, i.now,
      match Hinted(m, i)
      case Alive => QUIET_PROBE
      case Suspect => SUSPECT_RECHECK
      case Unknown => ProbeSpacing(m.failCount, i.cfg.probeEvery))
  }

  function HealthPass(m: Mind, i: Input): (Mind, Event) {
    var n := m.(probeNow := false, live := Looked(m.live, i.link.raw, i.link.up, i.link.down, i.now).0,
                failCount := if Hinted(m, i) == Alive then 0 else m.failCount);
    if !ProbeDue(m, i) then (n, QUIET) else Probed(n.(lastProbe := Some(i.now)), i)
  }

  function Probed(m: Mind, i: Input): (Mind, Event) {
    if i.link.alive && !OverBudget(i) then
      var forgiven := m.lastSwitch.None? || i.now - m.lastSwitch.value > i.cfg.minDwell;
      (m.(failCount := 0, live := Answered(m.live),
          pauses := if forgiven then m.pauses.(backoff := m.pauses.backoff - {i.link.raw}) else m.pauses),
       Event(Good, Act.Quiet))
    else Failed(m.(failCount := m.failCount + 1), i)
  }

  /** After a probe that was dead or over the budget. */
  function Failed(m: Mind, i: Input): (Mind, Event) {
    if m.failCount < Threshold(i) then (m, Event(Bad, Act.Quiet))
    else if OverBudget(i) && !Passed(m.lastSwitch, i.now, i.cfg.minDwell) then (m, Event(Bad, Act.Quiet))
    else if OverBudget(i) && i.pool.rawPresent && !i.pool.faster then (m.(failCount := 0), Event(Bad, Act.Quiet))
    else if i.link.servers > 1 then (m.(failCount := 0, want := false), Event(Bad, Closing))
    else if !i.link.lockFree then (m, Event(Bad, Act.Quiet))
    else Switch(m.(pauses := Bump(m.pauses, i.link.raw, i.now)), i, Bad, if i.link.alive then TooSlow else ProbeFailed)
  }

  function ConnectedPass(m: Mind, i: Input): (Mind, Event) {
    if m.force && i.pool.has then ForcedPass(m, i)
    else
      var n := m.(force := false);
      if LeftPool(n, i) then LeftPoolPass(n, i) else HealthPass(n, i)
  }

  function IdlePass(m: Mind, i: Input): (Mind, Event) {
    var n := if m.force then m.(force := false, want := true, nextRetry := None) else m;
    if !n.want || (n.nextRetry.Some? && i.now < n.nextRetry.value) || !i.pool.has || i.pool.testing then (n, QUIET)
    else if !i.pool.hasPing && !i.link.stillWanted then (n.(want := false), QUIET)
    else if !i.pool.hasPing && !i.pool.pingedNow then (n.(nextRetry := Some(i.now + i.cfg.probeEvery)), QUIET)
    else if !i.link.lockFree then (n, QUIET)
    else if !i.link.stillWanted then (n.(want := false), QUIET)
    else if !i.link.stillDown then (n, QUIET)
    else
      var o := Swept(i.order, i.world, n.pauses);
      var p := n.(pauses := o.pauses);
      if o.connected then (p.(managed := true, lastSwitch := Some(i.over), lastProbe := Some(i.over)), Event(Silent, Joining(true)))
      else (p.(nextRetry := Some(i.over + i.cfg.probeEvery)), Event(Silent, Joining(false)))
  }

  function Pass(m: Mind, i: Input): (Mind, Event) {
    var n := Written(m, i.asked);
    if ClockJumped(i.wallGap, i.monoGap) then (n.(failCount := 0, lastProbe := None, live := Unseen), Event(Break, Act.Quiet))
    else if !i.cfg.on || i.cfg.needsAdmin then (n.(failCount := 0, force := false), Event(Break, Act.Quiet))
    else match i.link.phase
      case Busy => (n, QUIET)
      case Up => ConnectedPass(n, i)
      case Down => IdlePass(n, i)
  }

  const BORN := Mind(0, None, None, None, None, false, false, false, false, Unseen, UNPAUSED)

  // ------------------------------------------------------------ runs

  function Run(m: Mind, passes: seq<Input>): (r: (Mind, seq<Event>))
    ensures |r.1| == |passes|
  {
    if passes == [] then (m, [])
    else
      var (n, es) := Run(m, passes[..|passes| - 1]);
      var (p, e) := Pass(n, passes[|passes| - 1]);
      (p, es + [e])
  }

  /** What a pass of a run does, it does with what the passes before left. */
  lemma {:induction false} RunAt(m: Mind, passes: seq<Input>, k: nat)
    requires k < |passes|
    ensures Run(m, passes).1[k] == Pass(Run(m, passes[..k]).0, passes[k]).1
    ensures Run(m, passes[..k]).1 == Run(m, passes).1[..k]
    ensures Run(m, passes[..k + 1]).0 == Pass(Run(m, passes[..k]).0, passes[k]).0
  {
    hide Pass;
    assert passes[..k + 1][..k] == passes[..k];
    if k == |passes| - 1 {
      assert passes[..k + 1] == passes;
    } else {
      var front := passes[..|passes| - 1];
      RunAt(m, front, k);
      assert front[..k] == passes[..k] && front[..k + 1] == passes[..k + 1];
    }
  }

  /** The bad health probes since the last good one, or since anything was known. */
  function Trailing(es: seq<Event>): (k: nat) {
    if es == [] then 0
    else
      var front, note := es[..|es| - 1], es[|es| - 1].note;
      match note
      case Bad => 1 + Trailing(front)
      case Silent => Trailing(front)
      case _ => 0
  }

  function Noted(es: seq<Event>): seq<Note> {
    if es == [] then []
    else if es[|es| - 1].note == Silent then Noted(es[..|es| - 1])
    else Noted(es[..|es| - 1]) + [es[|es| - 1].note]
  }

  /** Trailing bad probes are the last things noted. */
  lemma {:induction false} TrailingAreLast(es: seq<Event>)
    ensures var ns, k := Noted(es), Trailing(es);
      && k <= |ns| && (forall j :: |ns| - k <= j < |ns| ==> ns[j] == Bad)
      && (k < |ns| ==> ns[|ns| - k - 1] != Bad)
  {
    if es == [] {
    } else {
      TrailingAreLast(es[..|es| - 1]);
    }
  }

  predicate Leaving(a: Act) { a.Closing? || (a.Switching? && a.why in {ProbeFailed, TooSlow}) }

  /** What one pass may do to the count of failures. */
  predicate CountFine(m: Mind, i: Input, r: (Mind, Event)) {
    && 0 <= r.0.failCount <= (match r.1.note case Bad => m.failCount + 1 case Silent => m.failCount case _ => 0)
    && (Leaving(r.1.act) ==> r.1.note == Bad && m.failCount + 1 >= Threshold(i))
  }

  lemma FailedCounts(m: Mind, i: Input)
    requires m.failCount >= 1
    ensures CountFine(m.(failCount := m.failCount - 1), i, Failed(m, i))
  {
    hide Swept, Bump, Threshold, OverBudget, Passed;
  }

  lemma HealthCounts(m: Mind, i: Input)
    requires m.failCount >= 0
    ensures CountFine(m, i, HealthPass(m, i))
  {
    hide Looked, Failed, ProbeDue, Threshold, OverBudget;
    var count := if Hinted(m, i) == Alive then 0 else m.failCount;
    var n := m.(probeNow := false, live := Looked(m.live, i.link.raw, i.link.up, i.link.down, i.now).0,
                failCount := count, lastProbe := Some(i.now));
    FailedCounts(n.(failCount := n.failCount + 1), i);
    assert Failed(n.(failCount := n.failCount + 1), i).0.failCount >= 0;
    hide Hinted;
  }

  lemma ConnectedCounts(m: Mind, i: Input)
    requires m.failCount >= 0
    ensures CountFine(m, i, ConnectedPass(m, i))
  {
    HealthCounts(m.(force := false), i);
    hide HealthPass, Swept, Bump, Passed, TunTooSoon, Threshold, LeftPool;
  }

  lemma IdleCounts(m: Mind, i: Input)
    requires m.failCount >= 0
    ensures CountFine(m, i, IdlePass(m, i))
  {
    hide Swept, Threshold;
  }

  lemma CountMoves(m: Mind, i: Input)
    requires m.failCount >= 0
    ensures CountFine(m, i, Pass(m, i))
  {
    hide ConnectedPass, IdlePass, Threshold, ClockJumped;
    ConnectedCounts(Written(m, i.asked), i);
    IdleCounts(Written(m, i.asked), i);
  }

  lemma {:induction false} CountIsGrounded(passes: seq<Input>)
    ensures 0 <= Run(BORN, passes).0.failCount <= Trailing(Run(BORN, passes).1)
  {
    if passes == [] {
    } else {
      var front := passes[..|passes| - 1];
      CountIsGrounded(front);
      CountMoves(Run(BORN, front).0, passes[|passes| - 1]);
      var es := Run(BORN, passes).1;
      assert es[..|es| - 1] == Run(BORN, front).1;
      hide Pass;
    }
  }

  /** The machine was not away: the wall clock and the monotonic one went on
      together, and not by more than six seconds. */
  predicate Awake(i: Input) { i.wallGap - i.monoGap <= 4000 && i.monoGap <= 6000 }

  predicate Working(i: Input) { Awake(i) && i.cfg.on && !i.cfg.needsAdmin }

  /** The answer took longer than a single server may take; a limit of 0 is none. */
  predicate Sluggish(i: Input) { 0 < i.cfg.maxLat < i.link.rtt && i.link.servers <= 1 }

  /** A connection that does not answer, or answers too slowly. */
  predicate BadLink(i: Input) { Working(i) && i.link.phase == Up && (!i.link.alive || Sluggish(i)) }

  predicate GoodLink(i: Input) { Working(i) && i.link.phase == Up && i.link.alive && !Sluggish(i) }

  /** A note is what a probe of the connection found, or that there was a gap. */
  predicate NoteTrue(i: Input, note: Note) {
    match note
    case Bad => BadLink(i)
    case Good => GoodLink(i)
    case Break => !Working(i)
    case Silent => true
  }

  lemma HealthNotes(m: Mind, i: Input)
    requires Working(i) && i.link.phase == Up
    ensures NoteTrue(i, HealthPass(m, i).1.note)
  {
    hide Looked, Failed, ProbeDue, Hinted, Working;
    forall n: Mind ensures Failed(n, i).1.note == Bad { FailedNotes(n, i); }
  }

  lemma FailedNotes(m: Mind, i: Input)
    ensures Failed(m, i).1.note == Bad
  {
    hide Swept, Bump, Threshold, Passed, OverBudget;
  }

  lemma PassNotes(m: Mind, i: Input)
    ensures NoteTrue(i, Pass(m, i).1.note)
  {
    hide HealthPass, Swept, Bump, Passed, OverBudget, Sluggish, TunTooSoon, LeftPool, Written;
    if Working(i) && i.link.phase == Up { HealthNotes(Written(m, i.asked).(force := false), i); }
  }

  /** The passes at which anything was learnt. */
  function Evidence(passes: seq<Input>, es: seq<Event>): seq<Input>
    requires |passes| == |es|
  {
    if es == [] then []
    else
      var n := |es| - 1;
      if es[n].note == Silent then Evidence(passes[..n], es[..n]) else Evidence(passes[..n], es[..n]) + [passes[n]]
  }

  lemma {:induction false} EvidenceIsNoted(passes: seq<Input>)
    ensures var es := Run(BORN, passes).1;
      var ins, ns := Evidence(passes, es), Noted(es);
      |ins| == |ns| && forall j :: 0 <= j < |ns| ==> NoteTrue(ins[j], ns[j])
  {
    hide Pass, NoteTrue;
    if passes == [] {
    } else {
      var front, i := passes[..|passes| - 1], passes[|passes| - 1];
      EvidenceIsNoted(front);
      PassNotes(Run(BORN, front).0, i);
      assert Run(BORN, passes).1[..|front|] == Run(BORN, front).1;
    }
  }

  /** Over every run: a connection is left on the evidence of health probes only
      when the last times anything was learnt, as many as the setting says or two
      where it says less than one, it was a probe that found the connection dead
      or too slow: no good probe and no gap stands between them. */
  lemma LeavingNeedsEvidence(passes: seq<Input>)
    requires passes != [] && Leaving(Run(BORN, passes).1[|passes| - 1].act)
    ensures var ins, t := Evidence(passes, Run(BORN, passes).1), passes[|passes| - 1].cfg.threshold;
      var k := if t < 1 then 2 else t;
      |ins| >= k && forall j :: |ins| - k <= j < |ins| ==> BadLink(ins[j])
  {
    hide Pass, BadLink, GoodLink, Working, Evidence, Noted, Trailing;
    var front, es := passes[..|passes| - 1], Run(BORN, passes).1;
    TrailsEnough(passes);
    TrailingAreLast(es);
    EvidenceIsNoted(passes);
    BadNotes(Evidence(passes, es), Noted(es), Threshold(passes[|passes| - 1]));
  }

  lemma BadNotes(ins: seq<Input>, ns: seq<Note>, k: int)
    requires |ins| == |ns| && k <= |ns| && forall j :: 0 <= j < |ns| ==> NoteTrue(ins[j], ns[j])
    requires forall j :: |ns| - k <= j < |ns| ==> ns[j] == Bad
    requires k >= 0
    ensures forall j :: |ins| - k <= j < |ins| ==> BadLink(ins[j])
  {
    hide BadLink, GoodLink, Working;
  }

  lemma TrailsEnough(passes: seq<Input>)
    requires passes != [] && Leaving(Run(BORN, passes).1[|passes| - 1].act)
    ensures Trailing(Run(BORN, passes).1) >= Threshold(passes[|passes| - 1]) >= 0
  {
    hide Pass, Threshold, Run, Trailing, Leaving;
    var front, i := passes[..|passes| - 1], passes[|passes| - 1];
    var before := Run(BORN, front);
    RunGrows(BORN, passes);
    CountIsGrounded(front);
    CountMoves(before.0, i);
    TrailingGrows(before.1, Pass(before.0, i).1);
    ThresholdIsNat(i);
  }

  lemma RunGrows(m: Mind, passes: seq<Input>)
    requires passes != []
    ensures var r := Run(m, passes[..|passes| - 1]);
      Run(m, passes).1 == r.1 + [Pass(r.0, passes[|passes| - 1]).1]
  {
    hide Pass;
  }

  lemma TrailingGrows(es: seq<Event>, e: Event)
    ensures Trailing(es + [e]) == match e.note case Bad => 1 + Trailing(es) case Silent => Trailing(es) case _ => 0
  {
    assert (es + [e])[..|es|] == es;
  }

  lemma ThresholdIsNat(i: Input)
    ensures Threshold(i) >= 0
  {}

  // ------------------------------------------------------------ hints

  /** The same pass with other byte counters. */
  function Recounted(i: Input, up: int, down: int): Input { i.(link := i.link.(up := up, down := down)) }

  predicate SameButCounters(r: (Mind, Event), q: (Mind, Event)) { r.1 == q.1 && r.0 == q.0.(live := r.0.live) }

  lemma SwitchIgnores(m: Mind, i: Input, live: Watch, up: int, down: int, why: Why)
    ensures SameButCounters(Switch(m, i, Bad, why), Switch(m.(live := live), Recounted(i, up, down), Bad, why))
  {
    hide Swept;
  }

  lemma FailedIgnores(m: Mind, i: Input, live: Watch, up: int, down: int)
    ensures SameButCounters(Failed(m, i), Failed(m.(live := live), Recounted(i, up, down)))
  {
    SwitchIgnores(m.(pauses := Bump(m.pauses, i.link.raw, i.now)), i, live, up, down, if i.link.alive then TooSlow else ProbeFailed);
    hide Switch, Bump, Passed;
  }

  lemma HealthIgnores(m: Mind, i: Input, up: int, down: int)
    requires m.failCount > 0
    ensures SameButCounters(HealthPass(m, i), HealthPass(m, Recounted(i, up, down)))
  {
    hide Looked, Failed, Passed, ProbeSpacing;
    var n := m.(probeNow := false, failCount := m.failCount + 1, lastProbe := Some(i.now),
                live := Looked(m.live, i.link.raw, i.link.up, i.link.down, i.now).0);
    FailedIgnores(n, i, Looked(m.live, i.link.raw, up, down, i.now).0, up, down);
  }

  lemma ConnectedIgnores(m: Mind, i: Input, up: int, down: int)
    requires m.failCount > 0
    ensures SameButCounters(ConnectedPass(m, i), ConnectedPass(m, Recounted(i, up, down)))
  {
    hide HealthPass, Swept, Bump, Passed;
    HealthIgnores(m.(force := false), i, up, down);
  }

  /** From the first failed probe until one succeeds, only probes count: whatever
      the byte counters read, the pass does the same. */
  lemma CountersIgnored(m: Mind, i: Input, up: int, down: int)
    requires m.failCount > 0
    ensures SameButCounters(Pass(m, i), Pass(m, Recounted(i, up, down)))
  {
    hide ConnectedPass, IdlePass, ClockJumped, Written;
    WrittenCounts(m, i.asked);
    ConnectedIgnores(Written(m, i.asked), i, up, down);
    IdleIgnores(Written(m, i.asked), i, up, down);
  }

  lemma WrittenCounts(m: Mind, a: Asked)
    ensures Written(m, a).failCount == m.failCount
  {}

  lemma IdleIgnores(m: Mind, i: Input, up: int, down: int)
    ensures IdlePass(m, i) == IdlePass(m, Recounted(i, up, down))
  {
    hide Swept;
  }

  // ------------------------------------------------------------ reasons

  /** Slow, but the best there is: the one bad probe that clears the count. */
  predicate SlowButBest(m: Mind, i: Input) {
    && OverBudget(i) && m.failCount + 1 >= Threshold(i)
    && Passed(m.lastSwitch, i.now, i.cfg.minDwell) && i.pool.rawPresent && !i.pool.faster
  }

  predicate ReasonGood(m: Mind, i: Input, r: (Mind, Event)) {
    match r.1.act
    case Switching(TooSlow, _) =>
      OverBudget(i) && Passed(m.lastSwitch, i.now, i.cfg.minDwell) && (i.pool.faster || !i.pool.rawPresent)
    case Switching(ProbeFailed, _) => !i.link.alive && i.link.servers <= 1
    case Closing => !i.link.alive && i.link.servers > 1 && !r.0.want && !r.0.force
    case _ => true
  }

  predicate CountClearedRightly(m: Mind, i: Input, r: (Mind, Event)) {
    m.failCount > 0 ==>
      (r.0.failCount < m.failCount <==>
        r.1.note in {Good, Break} || r.1.act.Switching? || r.1.act.Closing? || (r.1.note == Bad && SlowButBest(m, i)))
  }

  lemma FailedReasons(m: Mind, i: Input)
    requires !m.force && m.failCount >= 1 && (i.link.alive ==> OverBudget(i))
    ensures ReasonGood(m, i, Failed(m, i))
    ensures CountClearedRightly(m.(failCount := m.failCount - 1), i, Failed(m, i))
  {
    hide Swept, Bump, Threshold, Passed;
  }

  lemma HealthReasons(m: Mind, i: Input)
    requires !m.force && m.failCount >= 0
    ensures ReasonGood(m, i, HealthPass(m, i)) && CountClearedRightly(m, i, HealthPass(m, i))
  {
    hide Looked, Failed, ProbeDue, Threshold, Passed;
    var count := if Hinted(m, i) == Alive then 0 else m.failCount;
    var n := m.(probeNow := false, live := Looked(m.live, i.link.raw, i.link.up, i.link.down, i.now).0,
                failCount := count + 1, lastProbe := Some(i.now));
    if !i.link.alive || OverBudget(i) { FailedReasons(n, i); }
    hide OverBudget;
  }

  lemma ConnectedReasons(m: Mind, i: Input)
    requires m.failCount >= 0
    ensures ReasonGood(m, i, ConnectedPass(m, i)) && CountClearedRightly(m, i, ConnectedPass(m, i))
  {
    HealthReasons(m.(force := false), i);
    hide HealthPass, Swept, Bump, Passed, TunTooSoon, Threshold, LeftPool, OverBudget;
  }

  lemma IdleReasons(m: Mind, i: Input)
    ensures ReasonGood(m, i, IdlePass(m, i)) && CountClearedRightly(m, i, IdlePass(m, i))
  {
    hide Swept, Threshold, Passed, OverBudget;
  }

  /** Why a pass may leave a connection, and what may clear the count: a slow
      server is left only past the minimum stay and for a faster one, or because
      it is gone from the pool; a dead one at once; a chain is closed only when
      it is dead, with the intent disarmed. */
  lemma PassReasons(m: Mind, i: Input)
    requires m.failCount >= 0
    ensures ReasonGood(m, i, Pass(m, i)) && CountClearedRightly(m, i, Pass(m, i))
  {
    hide ConnectedPass, IdlePass, Threshold, ClockJumped, OverBudget, Passed;
    var n := Written(m, i.asked);
    ConnectedReasons(n, i);
    IdleReasons(n, i);
  }

  /** Connecting from rest does not forget failed probes of the connection
      before: the first probe of the new one may be the one that is too many. */
  lemma JoiningKeepsTheCount(m: Mind, i: Input)
    requires Pass(m, i).1.act.Joining?
    ensures Pass(m, i).0.failCount == m.failCount
  {
    hide Swept, ConnectedPass;
    ConnectedNeverJoins(Written(m, i.asked), i);
  }

  lemma ConnectedNeverJoins(m: Mind, i: Input)
    ensures !ConnectedPass(m, i).1.act.Joining?
  {
    hide Swept, Looked, Bump;
  }

  /** The config that was left is paused for its next, doubled, pause, unless
      everybody else failed too. */
  predicate LeftPaused(m: Mind, i: Input, r: (Mind, Event)) {
    r.1.act.Switching? && r.1.act.why != PoolChanged ==>
      r.0.pauses == UNPAUSED ||
      (i.link.raw in r.0.pauses.cooldown &&
       r.0.pauses.cooldown[i.link.raw] == i.now + NextPause(m.pauses.backoff, i.link.raw))
  }

  lemma SwitchPauses(m: Mind, i: Input, note: Note, why: Why, n: Mind)
    requires i.link.raw !in i.order && n.pauses == Bump(m.pauses, i.link.raw, i.now)
    ensures LeftPaused(m, i, Switch(n, i, note, why))
  {
    hide Swept, NextPause;
    SweepSparesOthers(i.order, i.world, n.pauses, i.link.raw);
  }

  lemma FailedPauses(m: Mind, i: Input)
    requires i.link.raw !in i.order
    ensures LeftPaused(m, i, Failed(m, i))
  {
    hide Switch, Bump, NextPause, Threshold, Passed, OverBudget;
    SwitchPauses(m, i, Bad, if i.link.alive then TooSlow else ProbeFailed, m.(pauses := Bump(m.pauses, i.link.raw, i.now)));
  }

  lemma HealthPauses(m: Mind, i: Input)
    requires i.link.raw !in i.order
    ensures LeftPaused(m, i, HealthPass(m, i))
  {
    hide Looked, Failed, ProbeDue, NextPause, OverBudget;
    var count := if Hinted(m, i) == Alive then 0 else m.failCount;
    FailedPauses(m.(probeNow := false, live := Looked(m.live, i.link.raw, i.link.up, i.link.down, i.now).0,
                    failCount := count + 1, lastProbe := Some(i.now)), i);
    hide Hinted;
  }

  lemma ConnectedPauses(m: Mind, i: Input)
    requires i.link.raw !in i.order
    ensures LeftPaused(m, i, ConnectedPass(m, i))
  {
    hide HealthPass, Switch, Bump, NextPause, Passed, TunTooSoon, LeftPool;
    HealthPauses(m.(force := false), i);
    SwitchPauses(m, i, Silent, ByHand, m.(force := false, pauses := Bump(m.pauses, i.link.raw, i.now)));
    SwitchedWhy(m.(force := false), i);
  }

  lemma SwitchedWhy(m: Mind, i: Input)
    ensures Switch(m, i, Silent, PoolChanged).1.act == Switching(PoolChanged, Switched(m, i).1)
  {}

  /** A server AUTO leaves on its own evidence, or at the user's word, is out of
      the way for its next pause. */
  lemma LeavingPauses(m: Mind, i: Input)
    requires i.link.raw !in i.order
    ensures LeftPaused(m, i, Pass(m, i))
  {
    hide ConnectedPass, IdlePass, NextPause, ClockJumped;
    ConnectedPauses(Written(m, i.asked), i);
    IdleNeverSwitches(Written(m, i.asked), i);
  }

  lemma IdleNeverSwitches(m: Mind, i: Input)
    ensures !IdlePass(m, i).1.act.Switching?
  {
    hide Swept;
  }

  /** When the tunnel was last moved to another server. */
  function LastTunSwitch(passes: seq<Input>, es: seq<Event>): Option<int>
    requires |passes| == |es|
  {
    if es == [] then None
    else
      var i, act := passes[|es| - 1], es[|es| - 1].act;
      if act.Switching? && act.ok && i.cfg.tun then Some(i.over)
      else LastTunSwitch(passes[..|es| - 1], es[..|es| - 1])
  }

  predicate TunKept(m: Mind, i: Input, r: (Mind, Event)) {
    && r.0.lastTun == (if r.1.act.Switching? && r.1.act.ok && i.cfg.tun then Some(i.over) else m.lastTun)
    && (r.1.act.Switching? && r.1.act.why == ByHand && i.cfg.tun ==> Passed(m.lastTun, i.now, TUN_SWITCH_FLOOR))
  }

  lemma FailedKeepsTun(m: Mind, i: Input)
    ensures TunKept(m, i, Failed(m, i))
  {
    hide Swept, Bump, Threshold, Passed, OverBudget;
  }

  lemma HealthKeepsTun(m: Mind, i: Input)
    ensures TunKept(m, i, HealthPass(m, i))
  {
    hide Looked, Failed, ProbeDue, OverBudget, Passed;
    var count := if Hinted(m, i) == Alive then 0 else m.failCount;
    FailedKeepsTun(m.(probeNow := false, live := Looked(m.live, i.link.raw, i.link.up, i.link.down, i.now).0,
                      failCount := count + 1, lastProbe := Some(i.now)), i);
    hide Hinted;
  }

  lemma PassKeepsTun(m: Mind, i: Input)
    ensures TunKept(m, i, Pass(m, i))
  {
    hide ConnectedPass, IdlePass, ClockJumped, Passed;
    ConnectedKeepsTun(Written(m, i.asked), i);
    IdleKeepsTun(Written(m, i.asked), i);
  }

  lemma ConnectedKeepsTun(m: Mind, i: Input)
    ensures TunKept(m, i, ConnectedPass(m, i))
  {
    hide HealthPass, Swept, Bump, LeftPool, Passed;
    HealthKeepsTun(m.(force := false), i);
  }

  lemma IdleKeepsTun(m: Mind, i: Input)
    ensures TunKept(m, i, IdlePass(m, i))
  {
    hide Swept, Passed;
  }

  lemma {:induction false} LastTunIsKept(passes: seq<Input>)
    ensures Run(BORN, passes).0.lastTun == LastTunSwitch(passes, Run(BORN, passes).1)
  {
    hide Pass;
    if passes == [] {
    } else {
      var front := passes[..|passes| - 1];
      LastTunIsKept(front);
      PassKeepsTun(Run(BORN, front).0, passes[|passes| - 1]);
      assert Run(BORN, passes).1[..|front|] == Run(BORN, front).1;
    }
  }

  /** Over every run: "Switch now" never moves a tunnel within four seconds of
      its last move. */
  lemma TunFloor(passes: seq<Input>)
    requires passes != []
    ensures var es, i := Run(BORN, passes).1, passes[|passes| - 1];
      es[|es| - 1].act.Switching? && es[|es| - 1].act.why == ByHand && i.cfg.tun ==>
        match LastTunSwitch(passes[..|passes| - 1], es[..|passes| - 1])
        case Some(moved) => i.now - moved >= 4
        case None => true
  {
    hide Pass;
    var front := passes[..|passes| - 1];
    LastTunIsKept(front);
    PassKeepsTun(Run(BORN, front).0, passes[|passes| - 1]);
    assert Run(BORN, passes).1[..|front|] == Run(BORN, front).1;
  }

  /** A probe moves the connection: one is made, finds it bad, is the one too
      many, and nothing keeps the server. */
  predicate MovesByProbe(m: Mind, i: Input) {
    && ProbeDue(m, i) && (!i.link.alive || OverBudget(i)) && m.failCount + 1 >= Threshold(i)
    && i.link.servers <= 1 && i.link.lockFree
    && (OverBudget(i) ==> Passed(m.lastSwitch, i.now, i.cfg.minDwell) && (i.pool.faster || !i.pool.rawPresent))
  }

  lemma FailedSwitchesIff(m: Mind, i: Input)
    ensures Failed(m, i).1.act.Switching? <==>
      m.failCount >= Threshold(i) && i.link.servers <= 1 && i.link.lockFree &&
      (OverBudget(i) ==> Passed(m.lastSwitch, i.now, i.cfg.minDwell) && (i.pool.faster || !i.pool.rawPresent))
  {
    hide Swept, Bump, Threshold, Passed;
  }

  lemma HealthSwitchesIff(m: Mind, i: Input)
    requires m.failCount >= 0
    ensures HealthPass(m, i).1.act.Switching? <==> MovesByProbe(m, i)
  {
    hide Looked, Failed, ProbeDue, Threshold, OverBudget, Passed;
    var n := m.(probeNow := false, live := Looked(m.live, i.link.raw, i.link.up, i.link.down, i.now).0,
                failCount := m.failCount + 1, lastProbe := Some(i.now));
    FailedSwitchesIff(n, i);
    assert (if Hinted(m, i) == Alive then 0 else m.failCount) == m.failCount;
    hide Hinted;
  }

  /** When a tunnel is moved within four seconds of its last move: exactly when
      nobody asked for a switch and either AUTO's server left the pool, the
      minimum stay being over, or a probe moves it. Only the forced switch looks
      at the floor. */
  lemma FloorBrokenIff(m: Mind, i: Input)
    requires m.failCount >= 0 && i.cfg.tun && i.link.phase == Up && !Passed(m.lastTun, i.now, TUN_SWITCH_FLOOR)
    ensures var n := Written(m, i.asked);
      Pass(m, i).1.act.Switching? <==>
        Working(i) && !(n.force && i.pool.has) &&
        if n.managed && !i.pool.inPool && i.pool.has
        then i.link.lockFree && Passed(n.lastSwitch, i.now, i.cfg.minDwell)
        else MovesByProbe(n.(force := false), i)
  {
    hide HealthPass, MovesByProbe, Swept, Bump, Passed;
    HealthSwitchesIff(Written(m, i.asked).(force := false), i);
  }

  /** A pass at a tunnel to a single server that answers, nobody asking for
      anything, and a list of one that connects. */
  function TunnelPass(now: int, raw: string, next: string): Input {
    Input(now, 0, 0, Settings(true, false, 1, 100, 0, 30, true), Asked(false, None, false, None),
          PoolView(true, true, true, true, false, true, true), Link(Up, raw, 1, 0, 0, true, 50, true, true, true),
          [next], n => Attempt(true, true, now + 1), now + 1)
  }

  /** The same pass with a reason to leave the server. */
  function LeavingPass(i: Input, why: Why): Input {
    match why
    case ByHand => i.(asked := i.asked.(switchNow := true))
    case PoolChanged => i.(pool := i.pool.(inPool := false))
    case ProbeFailed => i.(asked := i.asked.(probeNow := true), link := i.link.(alive := false), cfg := i.cfg.(minDwell := 60))
    case TooSlow => i.(asked := i.asked.(probeNow := true), link := i.link.(rtt := 200))
  }

  /** A tunnel moved by hand, and two seconds later for another reason. */
  function TwoMoves(why: Why): (passes: seq<Input>)
    ensures |passes| == 2 && InOrder(passes)
  {
    [LeavingPass(TunnelPass(0, "a", "b"), ByHand), LeavingPass(TunnelPass(3, "b", "c"), why)]
  }

  /** The floor is broken in runs from the start: for each reason but Switch now
      there is one that moves the tunnel two seconds after its last move. */
  lemma FloorIsBroken(why: Why)
    requires why != ByHand
    ensures var passes := TwoMoves(why);
      var es := Run(BORN, passes).1;
      && passes[0].cfg.tun && passes[1].cfg.tun
      && es[0].act == Switching(ByHand, true) && es[1].act == Switching(why, true)
      && passes[1].now - passes[0].over == 2 < TUN_SWITCH_FLOOR
  {
    var passes := TwoMoves(why);
    assert passes[..2] == passes && passes[..2][..1] == passes[..1] && passes[..1][..0] == [];
    hide Pass, Swept;
    MovedByHand(passes[0]);
    RunOfOne(passes[0]);
    assert passes[..1] == [passes[0]];
    MovedAgain(Pass(BORN, passes[0]).0, why);
  }

  lemma RunOfOne(i: Input)
    ensures Run(BORN, [i]) == (Pass(BORN, i).0, [Pass(BORN, i).1])
  {
    hide Pass;
    assert [i][..0] == [] && [] + [Pass(BORN, i).1] == [Pass(BORN, i).1];
  }

  lemma MovedByHand(i: Input)
    requires i == LeavingPass(TunnelPass(0, "a", "b"), ByHand)
    ensures var (m, e) := Pass(BORN, i);
      && e.act == Switching(ByHand, true)
      && m.managed && !m.force && m.failCount == 0 && m.lastSwitch == Some(1) && m.live == Unseen
  {
    OneConnects(i.order, i.world, Bump(BORN.pauses, "a", 0));
    hide Bump, Swept;
  }

  lemma MovedAgain(m: Mind, why: Why)
    requires why != ByHand && m.managed && !m.force && m.failCount == 0 && m.lastSwitch == Some(1) && m.live == Unseen
    ensures Pass(m, LeavingPass(TunnelPass(3, "b", "c"), why)).1.act == Switching(why, true)
  {
    var i := LeavingPass(TunnelPass(3, "b", "c"), why);
    OneConnects(i.order, i.world, m.pauses);
    OneConnects(i.order, i.world, Bump(m.pauses, "b", 3));
    hide Bump, Swept;
  }

  lemma OneConnects(order: seq<string>, world: World, p: Pauses)
    requires |order| == 1 && world(0).stillOn && world(0).connects
    ensures Swept(order, world, p).connected
  {}

  /** Times go on from pass to pass. */
  predicate InOrder(passes: seq<Input>) { forall j, k :: 0 <= j < k < |passes| ==> passes[j].over <= passes[k].over }

  /** The last move of a tunnel is no later than the last change of server. */
  predicate TunBehind(m: Mind) { m.lastTun.Some? ==> m.lastSwitch.Some? && m.lastTun.value <= m.lastSwitch.value }

  predicate NotAfter(m: Mind, over: int) { m.lastSwitch.Some? ==> m.lastSwitch.value <= over }

  predicate SwitchTimed(m: Mind, i: Input, r: (Mind, Event)) {
    && (r.0.lastSwitch == m.lastSwitch || r.0.lastSwitch == Some(i.over))
    && (r.0.lastTun == m.lastTun || r.0.lastTun == r.0.lastSwitch == Some(i.over))
    && (r.1.act.Switching? && r.1.act.why in {PoolChanged, TooSlow} ==> Passed(m.lastSwitch, i.now, i.cfg.minDwell))
  }

  lemma FailedTimed(m: Mind, i: Input)
    requires i.link.alive ==> OverBudget(i)
    ensures SwitchTimed(m, i, Failed(m, i))
  {
    hide Swept, Bump, Threshold, Passed;
  }

  lemma HealthTimed(m: Mind, i: Input)
    ensures SwitchTimed(m, i, HealthPass(m, i))
  {
    hide Looked, Failed, ProbeDue, OverBudget, Passed;
    var count := if Hinted(m, i) == Alive then 0 else m.failCount;
    var n := m.(probeNow := false, live := Looked(m.live, i.link.raw, i.link.up, i.link.down, i.now).0,
                failCount := count + 1, lastProbe := Some(i.now));
    if !i.link.alive || OverBudget(i) { FailedTimed(n, i); }
    hide Hinted;
  }

  lemma PassTimed(m: Mind, i: Input)
    ensures SwitchTimed(m, i, Pass(m, i))
  {
    hide ConnectedPass, IdlePass, ClockJumped, Passed;
    ConnectedTimed(Written(m, i.asked), i);
    IdleTimed(Written(m, i.asked), i);
  }

  lemma ConnectedTimed(m: Mind, i: Input)
    ensures SwitchTimed(m, i, ConnectedPass(m, i))
  {
    hide HealthPass, Swept, Bump, Passed, TunTooSoon;
    HealthTimed(m.(force := false), i);
  }

  lemma IdleTimed(m: Mind, i: Input)
    ensures SwitchTimed(m, i, IdlePass(m, i))
  {
    hide Swept, Passed;
  }

  lemma {:induction false} TunStaysBehind(passes: seq<Input>)
    requires InOrder(passes)
    ensures TunBehind(Run(BORN, passes).0)
    ensures passes != [] ==> NotAfter(Run(BORN, passes).0, passes[|passes| - 1].over)
  {
    hide Pass, Passed;
    if passes == [] {
    } else {
      var front, i := passes[..|passes| - 1], passes[|passes| - 1];
      TunStaysBehind(front);
      PassTimed(Run(BORN, front).0, i);
      if front != [] { assert passes[|front| - 1].over <= passes[|front|].over; }
    }
  }

  /** Over every run: where the minimum stay is four seconds or more it does the
      work of the floor, for a pool change and for a switch to a faster server. */
  lemma DwellKeepsTheFloor(passes: seq<Input>, i: Input)
    requires InOrder(passes) && i.cfg.minDwell >= TUN_SWITCH_FLOOR
    requires var e := Pass(Run(BORN, passes).0, i).1; e.act.Switching? && e.act.why in {PoolChanged, TooSlow}
    ensures Passed(Run(BORN, passes).0.lastTun, i.now, TUN_SWITCH_FLOOR)
  {
    hide Pass;
    TunStaysBehind(passes);
    PassTimed(Run(BORN, passes).0, i);
  }

  // ------------------------------------------------------------ chains

  lemma FailedKeepsChains(m: Mind, i: Input)
    requires i.link.servers > 1
    ensures !Failed(m, i).1.act.Switching?
  {
    hide Swept, Bump, Threshold, Passed;
  }

  lemma HealthKeepsChains(m: Mind, i: Input)
    requires i.link.servers > 1
    ensures !HealthPass(m, i).1.act.Switching?
  {
    hide Looked, Failed, ProbeDue, OverBudget;
    var count := if Hinted(m, i) == Alive then 0 else m.failCount;
    var n := m.(probeNow := false, live := Looked(m.live, i.link.raw, i.link.up, i.link.down, i.now).0,
                failCount := count + 1, lastProbe := Some(i.now));
    FailedKeepsChains(n, i);
  }

  /** The connection is AUTO's and not one made by hand. */
  predicate Owns(m: Mind, i: Input) { match i.asked.managed case Some(owned) => owned case None => m.managed }

  /** When a chain is replaced by what the pool has: exactly when the user asked
      for a switch, or AUTO owns it and it has left the pool. No probe does it. */
  lemma ChainReplacedIff(m: Mind, i: Input)
    requires i.link.phase == Up && i.link.servers > 1
    ensures Pass(m, i).1.act.Switching? <==>
      && Working(i) && i.link.lockFree && i.pool.has
      && if m.force || i.asked.switchNow then i.cfg.tun ==> Passed(m.lastTun, i.now, 4)
         else Owns(m, i) && !i.pool.inPool && Passed(m.lastSwitch, i.now, i.cfg.minDwell)
  {
    HealthKeepsChains(Written(m, i.asked).(force := false), i);
    hide HealthPass, Swept, Bump, Passed;
  }

  /** Nobody asks for a connection and none is made by hand. */
  predicate Untouched(i: Input) { !i.asked.switchNow && i.asked.want != Some(true) && i.link.phase != Up }

  lemma RestStays(m: Mind, i: Input)
    requires !m.want && !m.force && Untouched(i)
    ensures var (n, e) := Pass(m, i); !n.want && !n.force && e.act == Act.Quiet
  {
    hide Swept, ClockJumped;
  }

  lemma {:induction false} RestLasts(m: Mind, passes: seq<Input>)
    requires !m.want && !m.force && forall k :: 0 <= k < |passes| ==> Untouched(passes[k])
    ensures var (n, es) := Run(m, passes); !n.want && !n.force && forall k :: 0 <= k < |es| ==> es[k].act == Act.Quiet
  {
    if passes == [] {
    } else {
      var front := passes[..|passes| - 1];
      RestLasts(m, front);
      RestStays(Run(m, front).0, passes[|passes| - 1]);
      hide Pass, Untouched;
    }
  }

  /** A chain that was ended stays ended: nothing is connected until somebody
      asks. */
  lemma EndedStaysEnded(m: Mind, i: Input, passes: seq<Input>)
    requires m.failCount >= 0 && Pass(m, i).1.act.Closing?
    requires forall k :: 0 <= k < |passes| ==> Untouched(passes[k])
    ensures forall k :: 0 <= k < |passes| ==> Run(Pass(m, i).0, passes).1[k].act == Act.Quiet
  {
    PassReasons(m, i);
    hide Pass, Untouched;
    RestLasts(Pass(m, i).0, passes);
  }

  // ------------------------------------------------------------ a dead server is left

  /** A pass over a single server that does not answer, nothing in the way. */
  predicate Dead(i: Input, threshold: int) {
    && Working(i) && i.link.phase == Up && !i.link.alive && i.link.servers <= 1 && i.link.lockFree
    && !i.asked.switchNow && i.pool.inPool && threshold == if i.cfg.threshold < 1 then 2 else i.cfg.threshold
  }

  lemma FailedLeaves(m: Mind, i: Input)
    requires !i.link.alive && i.link.servers <= 1 && i.link.lockFree
    ensures var (n, e) := Failed(m, i);
      if m.failCount < Threshold(i) then n == m && e == Event(Bad, Act.Quiet) else e.act.Switching? && e.act.why == ProbeFailed
  {
    hide Swept, Bump, Threshold, Passed;
  }

  lemma DeadHealth(m: Mind, i: Input)
    requires m.failCount >= 1 && !i.link.alive && i.link.servers <= 1 && i.link.lockFree
    requires Passed(m.lastProbe, i.now, i.cfg.probeEvery)
    ensures var (n, e) := HealthPass(m, i);
      if m.failCount + 1 < Threshold(i)
      then n.failCount == m.failCount + 1 && n.lastProbe == Some(i.now) && n.force == m.force
      else e.act.Switching? && e.act.why == ProbeFailed
  {
    hide Looked, Failed, Threshold;
    var n := m.(probeNow := false, live := Looked(m.live, i.link.raw, i.link.up, i.link.down, i.now).0,
                failCount := m.failCount + 1, lastProbe := Some(i.now));
    FailedLeaves(n, i);
  }

  lemma DeadPass(m: Mind, i: Input, threshold: int)
    requires m.failCount >= 1 && !m.force && Dead(i, threshold) && Passed(m.lastProbe, i.now, i.cfg.probeEvery)
    ensures var (n, e) := Pass(m, i);
      if m.failCount + 1 < threshold
      then n.failCount == m.failCount + 1 && n.lastProbe == Some(i.now) && !n.force
      else e.act.Switching? && e.act.why == ProbeFailed
  {
    hide HealthPass, Passed;
    DeadHealth(Written(m, i.asked), i);
  }

  function ProbedBefore(last: Option<int>, passes: seq<Input>, k: nat): Option<int>
    requires k <= |passes|
  {
    if k == 0 then last else Some(passes[k - 1].now)
  }

  predicate DueAt(last: Option<int>, passes: seq<Input>, k: nat)
    requires k < |passes|
  {
    Passed(ProbedBefore(last, passes, k), passes[k].now, passes[k].cfg.probeEvery)
  }

  /** The passes are a probe interval apart, the first one from the last probe. */
  predicate Spaced(last: Option<int>, passes: seq<Input>) {
    forall k :: 0 <= k < |passes| ==> DueAt(last, passes, k)
  }

  lemma SpacedFront(last: Option<int>, passes: seq<Input>)
    requires Spaced(last, passes) && passes != []
    ensures Spaced(last, passes[..|passes| - 1]) && DueAt(last, passes, |passes| - 1)
  {
    var front := passes[..|passes| - 1];
    forall k | 0 <= k < |front| ensures DueAt(last, front, k) {
      assert DueAt(last, passes, k);
    }
  }

  /** Once one probe has failed, a server that stays dead is left at the
      threshold-th probe, however short its stay and whatever its counters say. */
  lemma {:induction false} DeadIsLeft(m: Mind, passes: seq<Input>, threshold: int)
    requires m.failCount >= 1 && !m.force && m.failCount + |passes| <= threshold
    requires Spaced(m.lastProbe, passes) && forall k :: 0 <= k < |passes| ==> Dead(passes[k], threshold)
    ensures var (n, es) := Run(m, passes);
      if passes != [] && m.failCount + |passes| == threshold
      then es[|es| - 1].act.Switching? && es[|es| - 1].act.why == ProbeFailed
      else n.failCount == m.failCount + |passes| && !n.force &&
           n.lastProbe == ProbedBefore(m.lastProbe, passes, |passes|)
  {
    if passes == [] {
    } else {
      var front, i := passes[..|passes| - 1], passes[|passes| - 1];
      SpacedFront(m.lastProbe, passes);
      hide Pass, Dead, Passed, Spaced;
      DeadIsLeft(m, front, threshold);
      DeadPass(Run(m, front).0, i, threshold);
    }
  }
}
