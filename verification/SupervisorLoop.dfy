/** The supervisor as the object the program runs: its counters and timers
    updated in place, pass by pass, proved to do what the step of Supervisor
    says (startAutoSupervisor in vair/core/autoconnect.go). */
module SupervisorLoop {
  import opened Decimal
  import opened Liveness
  import opened Supervisor
  import opened Sweep

  class AutoSupervisor {
    var failCount: int
    var lastSwitch: Option<int>
    var lastProbe: Option<int>
    var nextRetry: Option<int>
    var lastTun: Option<int>
    var force: bool
    var want: bool
    var probeNow: bool
    var managed: bool
    const sweep: Supervised
    const live: LivenessWatch

    ghost function View(): Mind
      reads this, live, sweep
    {
      Mind(failCount, lastSwitch, lastProbe, nextRetry, lastTun, force, want, probeNow, managed, live.w, sweep.pauses)
    }

    constructor ()
      ensures View() == BORN && fresh(live) && fresh(sweep)
    {
      failCount, lastSwitch, lastProbe, nextRetry, lastTun := 0, None, None, None, None;
      force, want, probeNow, managed := false, false, false, false;
      sweep := new Supervised();
      live := new LivenessWatch();
    }

    /** One pass of the loop. */
    method Tick(i: Input) returns (e: Event)
      modifies this, live, sweep
      ensures (View(), e) == Pass(old(View()), i)
    {
      hide ConnectedPass, IdlePass;
      Read(i.asked);
      if ClockJumped(i.wallGap, i.monoGap) {
        failCount, lastProbe := 0, None;
        live.Reset();
        return Event(Break, Act.Quiet);
      }
      if !i.cfg.on || i.cfg.needsAdmin {
        failCount, force := 0, false;
        return Event(Break, Act.Quiet);
      }
      match i.link.phase
      case Busy => return QUIET;
      case Up => e := Connected(i);
      case Down => e := Idle(i);
    }

    /** The flags as the others left them. */
    method Read(a: Asked)
      modifies this`force, this`want, this`probeNow, this`managed
      ensures View() == Written(old(View()), a)
    {
      force := force || a.switchNow;
      if a.want.Some? { want := a.want.value; }
      probeNow := probeNow || a.probeNow;
      if a.managed.Some? { managed := a.managed.value; }
    }

    /** The sweep over the list the pool offers. */
    method Attempt(i: Input) returns (ok: bool)
      modifies sweep
      ensures ok == Swept(i.order, i.world, old(sweep.pauses)).connected
      ensures sweep.pauses == Swept(i.order, i.world, old(sweep.pauses)).pauses
    {
      if i.order == [] { return false; }
      ghost var tried;
      ok, tried := sweep.TryInOrder(i.order, i.world);
    }

    method SwitchOver(i: Input, ghost note: Note, ghost why: Why) returns (ok: bool)
      modifies this, sweep
      ensures (View(), Event(note, Switching(why, ok))) == Switch(old(View()), i, note, why)
    {
      hide Swept;
      ok := Attempt(i);
      failCount, lastProbe := 0, Some(i.over);
      if ok {
        managed, lastSwitch := true, Some(i.over);
        if i.cfg.tun { lastTun := Some(i.over); }
      } else {
        nextRetry := Some(i.over + i.cfg.probeEvery);
      }
    }

    method Connected(i: Input) returns (e: Event)
      modifies this, live, sweep
      ensures (View(), e) == ConnectedPass(old(View()), i)
    {
      hide HealthPass, ForcedPass, LeftPoolPass;
      if force && !i.pool.has { force := false; }
      if force {
        e := Forced(i);
      } else if managed && !i.pool.inPool && i.pool.has {
        e := OutOfPool(i);
      } else {
        e := Health(i);
      }
    }

    method Forced(i: Input) returns (e: Event)
      modifies this, sweep
      ensures (View(), e) == ForcedPass(old(View()), i)
    {
      hide Bump, Switch;
      if i.cfg.tun && !Passed(lastTun, i.now, TUN_SWITCH_FLOOR) { return QUIET; }
      if !i.link.lockFree { return QUIET; }
      force, sweep.pauses := false, Bump(sweep.pauses, i.link.raw, i.now);
      var ok := SwitchOver(i, Silent, ByHand);
      e := Event(Silent, Switching(ByHand, ok));
    }

    method OutOfPool(i: Input) returns (e: Event)
      modifies this, sweep
      ensures (View(), e) == LeftPoolPass(old(View()), i)
    {
      hide Switch;
      if !Passed(lastSwitch, i.now, i.cfg.minDwell) { return QUIET; }
      if !i.link.lockFree { return QUIET; }
      var ok := SwitchOver(i, Silent, PoolChanged);
      e := Event(Silent, Switching(PoolChanged, ok));
    }

    method Health(i: Input) returns (e: Event)
      modifies this, live, sweep
      ensures (View(), e) == HealthPass(old(View()), i)
    {
      hide Probed;
      var asked := probeNow;
      probeNow := false;
      var hint := live.Look(i.link.raw, i.link.up, i.link.down, i.now);
      if failCount > 0 { hint := Unknown; }
      var spacing := ProbeSpacing(failCount, i.cfg.probeEvery);
      if hint == Alive {
        failCount, spacing := 0, QUIET_PROBE;
      } else if hint == Suspect {
        spacing := SUSPECT_RECHECK;
      }
      if !asked && !Passed(lastProbe, i.now, spacing) { return QUIET; }
      lastProbe := Some(i.now);
      e := Probe(i);
    }

    method Probe(i: Input) returns (e: Event)
      modifies this, live, sweep
      ensures (View(), e) == Probed(old(View()), i)
    {
      hide Supervisor.Failed;
      if i.link.alive && !OverBudget(i) {
        failCount := 0;
        live.Reply();
        if lastSwitch.None? || i.now - lastSwitch.value > i.cfg.minDwell {
          sweep.pauses := sweep.pauses.(backoff := sweep.pauses.backoff - {i.link.raw});
        }
        return Event(Good, Act.Quiet);
      }
      failCount := failCount + 1;
      e := AfterFailure(i);
    }

    method AfterFailure(i: Input) returns (e: Event)
      modifies this, sweep
      ensures (View(), e) == Supervisor.Failed(old(View()), i)
    {
      hide Bump, Switch;
      e := Event(Bad, Act.Quiet);
      if failCount < Threshold(i) { return; }
      if OverBudget(i) {
        if !Passed(lastSwitch, i.now, i.cfg.minDwell) { return; }
        if i.pool.rawPresent && !i.pool.faster {
          failCount := 0;
          return;
        }
      }
      if i.link.servers > 1 {
        failCount, want := 0, false;
        return Event(Bad, Closing);
      }
      if !i.link.lockFree { return; }
      sweep.pauses := Bump(sweep.pauses, i.link.raw, i.now);
      var why := if i.link.alive then TooSlow else ProbeFailed;
      var ok := SwitchOver(i, Bad, why);
      e := Event(Bad, Switching(why, ok));
    }

    method Idle(i: Input) returns (e: Event)
      modifies this, sweep
      ensures (View(), e) == IdlePass(old(View()), i)
    {
      hide Swept;
      if force { force, want, nextRetry := false, true, None; }
      if !want || (nextRetry.Some? && i.now < nextRetry.value) || !i.pool.has || i.pool.testing { return QUIET; }
      if !i.pool.hasPing {
        if !i.link.stillWanted {
          want := false;
          return QUIET;
        }
        if !i.pool.pingedNow {
          nextRetry := Some(i.now + i.cfg.probeEvery);
          return QUIET;
        }
      }
      if !i.link.lockFree { return QUIET; }
      if !i.link.stillWanted { want := false; }
      if !want || !i.link.stillDown { return QUIET; }
      var ok := Attempt(i);
      if ok {
        managed, lastSwitch, lastProbe := true, Some(i.over), Some(i.over);
      } else {
        nextRetry := Some(i.over + i.cfg.probeEvery);
      }
      e := Event(Silent, Joining(ok));
    }
  }
}
