/** A pass of the AUTO supervisor as a table: what it does and what it leaves, each
    said from what it reads (startAutoSupervisor in vair/core/autoconnect.go,
    clockJumped in vair/core/watchdog.go). */
module PassRules {
  import opened Decimal
  import opened Liveness
  import opened Supervisor
  import opened Sweep

  predicate Forced(m: Mind, i: Input) { m.force || i.asked.switchNow }

  predicate Wanted(m: Mind, i: Input) { match i.asked.want case Some(w) => w case None => m.want }

  /** The moment never was, or lies d seconds back. */
  predicate Past(t: Option<int>, now: int, d: int) { match t case Some(x) => now >= x + d case None => true }

  // ------------------------------------------------------------ what a pass is about

  predicate MovesByHand(m: Mind, i: Input) { Working(i) && i.link.phase == Up && Forced(m, i) && i.pool.has }

  predicate PoolGone(m: Mind, i: Input) {
    Working(i) && i.link.phase == Up && !(Forced(m, i) && i.pool.has) && Owns(m, i) && !i.pool.inPool && i.pool.has
  }

  predicate Checked(m: Mind, i: Input) { Working(i) && i.link.phase == Up && !MovesByHand(m, i) && !PoolGone(m, i) }

  predicate Slow(i: Input) { i.link.alive && Sluggish(i) }

  /** What the traffic says; nothing once a probe has failed. */
  function Told(m: Mind, i: Input): Hint {
    if m.failCount > 0 then Unknown else Looked(m.live, i.link.raw, i.link.up, i.link.down, i.now).1
  }

  /** How long after the last probe the next is made: two minutes while bytes come
      back, ten seconds when some are unanswered, five at most after a failure. */
  function Spacing(m: Mind, i: Input): int {
    match Told(m, i)
    case Alive => 120
    case Suspect => 10
    case Unknown => if m.failCount > 0 && i.cfg.probeEvery > 5 then 5 else i.cfg.probeEvery
  }

  predicate ProbeMade(m: Mind, i: Input) {
    Checked(m, i) && (m.probeNow || i.asked.probeNow || Past(m.lastProbe, i.now, Spacing(m, i)))
  }

  predicate ProbeBad(m: Mind, i: Input) { ProbeMade(m, i) && (!i.link.alive || Slow(i)) }

  /** The failures that make a server be left: the setting, two when it is unset. */
  predicate Enough(m: Mind, i: Input) {
    ProbeBad(m, i) && m.failCount + 1 >= if i.cfg.threshold < 1 then 2 else i.cfg.threshold
  }

  predicate StaysAsBest(m: Mind, i: Input) {
    Enough(m, i) && Slow(i) && Past(m.lastSwitch, i.now, i.cfg.minDwell) && i.pool.rawPresent && !i.pool.faster
  }

  /** At rest, with the intent to connect and the back-off over, or forced, a pool
      to connect from and no test of it going on. */
  predicate Ready(m: Mind, i: Input) {
    && Working(i) && i.link.phase == Down
    && (Forced(m, i) || (Wanted(m, i) && (match m.nextRetry case Some(t) => i.now >= t case None => true)))
    && i.pool.has && !i.pool.testing
  }

  // ------------------------------------------------------------ what it does

  /** Exactly when a pass does what. */
  ghost predicate ActRules(m: Mind, i: Input, a: Act) {
    && (a.Switching? && a.why == ByHand <==>
          MovesByHand(m, i) && i.link.lockFree && (i.cfg.tun ==> Past(m.lastTun, i.now, 4)))
    && (a.Switching? && a.why == PoolChanged <==>
          PoolGone(m, i) && i.link.lockFree && Past(m.lastSwitch, i.now, i.cfg.minDwell))
    && (a.Switching? && a.why == ProbeFailed <==> Enough(m, i) && !i.link.alive && i.link.servers <= 1 && i.link.lockFree)
    && (a.Switching? && a.why == TooSlow <==>
          Enough(m, i) && Slow(i) && Past(m.lastSwitch, i.now, i.cfg.minDwell) && !StaysAsBest(m, i) && i.link.lockFree)
    && (a.Closing? <==> Enough(m, i) && !i.link.alive && i.link.servers > 1)
    && (a.Joining? <==>
          Ready(m, i) && (i.pool.hasPing || i.pool.pingedNow) && i.link.lockFree && i.link.stillWanted && i.link.stillDown)
  }

  /** Exactly what a pass notes. */
  ghost predicate NoteRules(m: Mind, i: Input, n: Note) {
    && (n == Break <==> !Working(i))
    && (n == Bad <==> ProbeBad(m, i))
    && (n == Good <==> ProbeMade(m, i) && !ProbeBad(m, i))
  }

  // ------------------------------------------------------------ what it leaves

  /** The count of failures, and the times. */
  ghost predicate CountRules(m: Mind, i: Input, r: (Mind, Event)) {
    var (n, e) := r;
    && n.failCount == (
         if !Working(i) || e.note == Good || e.act.Switching? || e.act.Closing? || StaysAsBest(m, i) then 0
         else if ProbeBad(m, i) then m.failCount + 1
         else m.failCount)
    && n.lastProbe == (
         if !Awake(i) then None
         else if e.act.Switching? || (e.act.Joining? && e.act.ok) then Some(i.over)
         else if ProbeMade(m, i) then Some(i.now)
         else m.lastProbe)
    && n.lastSwitch == (if (e.act.Switching? || e.act.Joining?) && e.act.ok then Some(i.over) else m.lastSwitch)
    && n.lastTun == (if e.act.Switching? && e.act.ok && i.cfg.tun then Some(i.over) else m.lastTun)
    && n.nextRetry == (
         if (e.act.Switching? || e.act.Joining?) && !e.act.ok then Some(i.over + i.cfg.probeEvery)
         else if Ready(m, i) && !i.pool.hasPing && i.link.stillWanted && !i.pool.pingedNow then Some(i.now + i.cfg.probeEvery)
         else if Working(i) && i.link.phase == Down && Forced(m, i) then None
         else m.nextRetry)
  }

  /** The flags: "Switch now" is spent where it is acted on, or where there is
      nothing to act on; the intent is armed by it at rest, and disarmed by a chain
      that was ended or a user who went off meanwhile. */
  ghost predicate FlagRules(m: Mind, i: Input, r: (Mind, Event)) {
    var (n, e) := r;
    && (n.force <==> (
          && Forced(m, i)
          && (!Awake(i) || (Working(i) && (i.link.phase == Busy || (MovesByHand(m, i) && !e.act.Switching?))))))
    && (n.want <==> (
          && (Wanted(m, i) || (Working(i) && i.link.phase == Down && Forced(m, i))) && !e.act.Closing?
          && !(Ready(m, i) && !i.link.stillWanted && (!i.pool.hasPing || i.link.lockFree))))
    && (n.managed <==> (Owns(m, i) || ((e.act.Switching? || e.act.Joining?) && e.act.ok)))
    && (n.probeNow <==> (m.probeNow || i.asked.probeNow) && !Checked(m, i))
  }

  /** The counters looked at, the back-off a server that has held is forgiven, and
      the sweep of a move, the server left being paused before it unless it was
      the pool that changed. */
  ghost predicate WatchRules(m: Mind, i: Input, r: (Mind, Event)) {
    var (n, e) := r;
    var seen := Looked(m.live, i.link.raw, i.link.up, i.link.down, i.now).0;
    && n.live == (
         if !Awake(i) then Unseen
         else if !Checked(m, i) then m.live
         else if e.note == Good then Answered(seen) else seen)
    && if e.act.Switching? || e.act.Joining? then
         var paused := e.act.Switching? && e.act.why != PoolChanged;
         var o := Swept(i.order, i.world, if paused then Bump(m.pauses, i.link.raw, i.now) else m.pauses);
         e.act.ok == o.connected && n.pauses == o.pauses
       else
         var held := e.note == Good && match m.lastSwitch case Some(t) => i.now - t > i.cfg.minDwell case None => true;
         && n.pauses.cooldown == m.pauses.cooldown
         && n.pauses.backoff == m.pauses.backoff - if held then {i.link.raw} else {}
  }

  // ------------------------------------------------------------ every pass goes by them

  ghost predicate Rules(m: Mind, i: Input, r: (Mind, Event)) {
    ActRules(m, i, r.1.act) && NoteRules(m, i, r.1.note) && CountRules(m, i, r) && FlagRules(m, i, r) && WatchRules(m, i, r)
  }

  lemma PastIsPassed()
    ensures forall t: Option<int>, now: int, d: int :: Past(t, now, d) == Passed(t, now, d)
  {}

  /** A switch, its two outcomes in one. */
  function Moved(m: Mind, i: Input, note: Note, why: Why): (Mind, Event) {
    var o := Swept(i.order, i.world, m.pauses);
    (m.(failCount := 0, lastProbe := Some(i.over), pauses := o.pauses, managed := m.managed || o.connected,
        lastSwitch := if o.connected then Some(i.over) else m.lastSwitch,
        lastTun := if o.connected && i.cfg.tun then Some(i.over) else m.lastTun,
        nextRetry := if o.connected then m.nextRetry else Some(i.over + i.cfg.probeEvery)),
     Event(note, Switching(why, o.connected)))
  }

  lemma SwitchIsMoved(i: Input)
    ensures forall m: Mind, note: Note, why: Why :: Switch(m, i, note, why) == Moved(m, i, note, why)
  {
    hide Swept;
  }

  lemma RestByRules(m: Mind, i: Input)
    requires m.failCount >= 0 && (!Working(i) || i.link.phase == Busy)
    ensures Rules(m, i, Pass(m, i))
  {
    hide Swept, Looked, Bump, Answered, ConnectedPass, IdlePass;
  }

  lemma StillByRules(m: Mind, i: Input)
    requires m.failCount >= 0 && Working(i) && i.link.phase == Down
    requires !Ready(m, i) || !(i.pool.hasPing || i.pool.pingedNow)
    ensures Rules(m, i, Pass(m, i))
  {
    hide Swept, Looked, Bump, Answered, ConnectedPass;
  }

  lemma WaitByRules(m: Mind, i: Input)
    requires m.failCount >= 0 && Ready(m, i) && (i.pool.hasPing || i.pool.pingedNow)
    requires !i.link.lockFree || !i.link.stillWanted || !i.link.stillDown
    ensures Rules(m, i, Pass(m, i))
  {
    hide Swept, Looked, Bump, Answered, ConnectedPass;
  }

  lemma JoinByRules(m: Mind, i: Input)
    requires m.failCount >= 0 && Ready(m, i) && (i.pool.hasPing || i.pool.pingedNow)
    requires i.link.lockFree && i.link.stillWanted && i.link.stillDown
    ensures Rules(m, i, Pass(m, i))
  {
    hide Swept, Looked, Bump, Answered, ConnectedPass;
  }

  lemma ForcedByRules(m: Mind, i: Input)
    requires m.failCount >= 0 && MovesByHand(m, i)
    ensures Rules(m, i, Pass(m, i))
  {
    hide Switch, Swept, Looked, Bump, Answered, HealthPass, LeftPoolPass, IdlePass, Past, Passed;
    PastIsPassed();
    SwitchIsMoved(i);
  }

  lemma LeftByRules(m: Mind, i: Input)
    requires m.failCount >= 0 && PoolGone(m, i)
    ensures Rules(m, i, Pass(m, i))
  {
    hide Switch, Swept, Looked, Bump, Answered, HealthPass, ForcedPass, IdlePass, Past, Passed;
    PastIsPassed();
    SwitchIsMoved(i);
  }

  lemma UnprobedByRules(m: Mind, i: Input)
    requires m.failCount >= 0 && Checked(m, i) && !ProbeMade(m, i)
    ensures Rules(m, i, Pass(m, i))
  {
    hide Swept, Looked, Bump, Answered, Probed, ForcedPass, IdlePass, LeftPoolPass;
  }

  /** The mind at a probe. */
  function AtProbe(m: Mind, i: Input): Mind {
    m.(lastProbe := Some(i.now), force := false, want := Wanted(m, i), probeNow := false, managed := Owns(m, i),
       live := Looked(m.live, i.link.raw, i.link.up, i.link.down, i.now).0)
  }

  lemma ProbeIsMade(m: Mind, i: Input)
    requires m.failCount >= 0 && ProbeMade(m, i)
    ensures Pass(m, i) == Probed(AtProbe(m, i), i)
    ensures OverBudget(i) == Slow(i)
  {
    hide Probed, Looked, ForcedPass, IdlePass, LeftPoolPass, Past, Passed;
    PastIsPassed();
  }

  lemma GoodByRules(m: Mind, i: Input)
    requires m.failCount >= 0 && ProbeMade(m, i) && !ProbeBad(m, i)
    ensures Rules(m, i, Pass(m, i))
  {
    hide Pass, Failed, Looked, Answered, Past, Told, OverBudget;
    ProbeIsMade(m, i);
  }

  function AtBad(m: Mind, i: Input): Mind { AtProbe(m, i).(failCount := m.failCount + 1) }

  lemma BadIsFailed(m: Mind, i: Input)
    requires m.failCount >= 0 && ProbeBad(m, i)
    ensures Pass(m, i) == Failed(AtBad(m, i), i)
    ensures OverBudget(i) == Slow(i)
  {
    hide Pass, Failed, Looked, Past, Told, OverBudget;
    ProbeIsMade(m, i);
  }

  lemma CountedByRules(m: Mind, i: Input)
    requires m.failCount >= 0 && ProbeBad(m, i) && !Enough(m, i)
    ensures Rules(m, i, Pass(m, i))
  {
    hide Pass, Switch, Looked, Past, Passed, Told, OverBudget;
    BadIsFailed(m, i);
  }

  lemma ClosedByRules(m: Mind, i: Input)
    requires m.failCount >= 0 && Enough(m, i) && !i.link.alive && i.link.servers > 1
    ensures Rules(m, i, Pass(m, i))
  {
    hide Pass, Switch, Looked, Past, Passed, Told, OverBudget;
    BadIsFailed(m, i);
  }

  lemma HeldByRules(m: Mind, i: Input)
    requires m.failCount >= 0 && Enough(m, i) && i.link.servers <= 1
    requires !i.link.lockFree || (i.link.alive && (!Past(m.lastSwitch, i.now, i.cfg.minDwell) || StaysAsBest(m, i)))
    ensures Rules(m, i, Pass(m, i))
  {
    hide Pass, Switch, Looked, Past, Passed, Told, OverBudget;
    BadIsFailed(m, i);
    PastIsPassed();
  }

  /** The bad probe that moves the connection. */
  lemma BadIsMoved(m: Mind, i: Input)
    requires m.failCount >= 0 && Enough(m, i) && i.link.servers <= 1 && i.link.lockFree
    requires !i.link.alive || (Past(m.lastSwitch, i.now, i.cfg.minDwell) && !StaysAsBest(m, i))
    ensures Pass(m, i) ==
      Moved(AtBad(m, i).(pauses := Bump(m.pauses, i.link.raw, i.now)), i, Bad, if i.link.alive then TooSlow else ProbeFailed)
  {
    hide Pass, Switch, Moved, Bump, Looked, Past, Passed, Told, OverBudget;
    BadIsFailed(m, i);
    PastIsPassed();
    SwitchIsMoved(i);
  }

  lemma MovedByRules(m: Mind, i: Input)
    requires m.failCount >= 0 && Enough(m, i) && i.link.servers <= 1 && i.link.lockFree
    requires !i.link.alive || (Past(m.lastSwitch, i.now, i.cfg.minDwell) && !StaysAsBest(m, i))
    ensures Rules(m, i, Pass(m, i))
  {
    hide Pass, Swept, Bump, Looked, Past, Told;
    BadIsMoved(m, i);
  }

  /** Every pass does and leaves what the table says. */
  lemma PassGoesByRules(m: Mind, i: Input)
    requires m.failCount >= 0
    ensures Rules(m, i, Pass(m, i))
  {
    hide Pass, Rules, Told, Spacing, Past, Forced, Wanted, Owns, Awake;
    if !Working(i) || i.link.phase == Busy {
      RestByRules(m, i);
    } else if i.link.phase == Down {
      if !Ready(m, i) || !(i.pool.hasPing || i.pool.pingedNow) {
        StillByRules(m, i);
      } else if i.link.lockFree && i.link.stillWanted && i.link.stillDown {
        JoinByRules(m, i);
      } else {
        WaitByRules(m, i);
      }
    } else if MovesByHand(m, i) {
      ForcedByRules(m, i);
    } else if PoolGone(m, i) {
      LeftByRules(m, i);
    } else if !ProbeMade(m, i) {
      UnprobedByRules(m, i);
    } else if !ProbeBad(m, i) {
      GoodByRules(m, i);
    } else if !Enough(m, i) {
      CountedByRules(m, i);
    } else if i.link.servers > 1 {
      ClosedByRules(m, i);
    } else if i.link.lockFree && (!i.link.alive || (Past(m.lastSwitch, i.now, i.cfg.minDwell) && !StaysAsBest(m, i))) {
      MovedByRules(m, i);
    } else {
      HeldByRules(m, i);
    }
  }
}
