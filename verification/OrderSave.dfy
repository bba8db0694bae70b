/** Saving a tab's order off the caller's path (saveTabOrder in
    vair/core/entry_move.go): one writer per tab, requests made while it writes
    folded into one more write. Every interleaving of the goroutines is a run of
    the steps below; each step is one critical section of the source. */
module OrderSave {
  import opened Decimal

  type Order = seq<nat>

  /** The orders a tab has had: there is always one. */
  type Orders = s: seq<Order> | |s| > 0 witness [[]]

  /** Where a writer goroutine stands in its loop. */
  datatype Phase = Reading | Holding(order: Order, version: nat) | Written

  /** One tab. orders is every order the tab has had in memory, the current one
      last; writers are the goroutines alive; disk is what was last written, by
      the version it was read at; asked is the version at the last request. */
  datatype State = State(
    orders: Orders, running: bool, again: bool, writers: map<nat, Phase>, spawned: nat,
    disk: Option<Order>, diskVersion: nat, lastOk: bool, asked: Option<nat>)

  datatype Action =
    | Change(order: Order)           // anything that puts another order in memory
    | Request                        // saveTabOrder
    | Read(writer: nat)              // copy the entries under the read lock
    | Write(writer: nat, ok: bool)   // rewriteTabAtomic, which may fail
    | Finish(writer: nat)            // look at "again"

  function Start(first: Order): State {
    State([first], false, false, map[], 0, None, 0, true, None)
  }

  // ------------------------------------------------------------ the flags

  /** A tab's two flags. */
  datatype Pair = Pair(running: bool, again: bool)

  /** A request: whether a writer is to be started, and the flags after. */
  function AskFlags(p: Pair): (bool, Pair) { (!p.running, Pair(true, p.again || p.running)) }

  /** A writer that is through: whether it goes round once more, and the flags
      after. */
  function NextFlags(p: Pair): (bool, Pair) { (p.again, Pair(p.again && p.running, false)) }

  /** The two maps of the source, as the tabs they hold true for. */
  class Flags {
    var running: set<string>
    var again: set<string>

    constructor ()
      ensures forall tab :: Of(tab) == Pair(false, false)
    {
      running, again := {}, {};
    }

    function Of(tab: string): Pair
      reads this
    {
      Pair(tab in running, tab in again)
    }

    /** saveTabOrder's critical section: whether a writer is to be started. */
    method Ask(tab: string) returns (start: bool)
      modifies this
      ensures (start, Of(tab)) == AskFlags(old(Of(tab)))
      ensures start <==> tab !in old(running)
      ensures running == old(running) + {tab} && again == if start then old(again) else old(again) + {tab}
    {
      if tab in running {
        again := again + {tab};
        return false;
      }
      running := running + {tab};
      return true;
    }

    /** The writer's: whether it is to go round once more. */
    method Next(tab: string) returns (more: bool)
      modifies this
      ensures (more, Of(tab)) == NextFlags(old(Of(tab)))
      ensures more <==> tab in old(again)
      ensures again == old(again) - {tab} && running == if more then old(running) else old(running) - {tab}
    {
      if tab in again {
        again := again - {tab};
        return true;
      }
      running := running - {tab};
      return false;
    }
  }

  // ------------------------------------------------------------ the steps

  ghost predicate Enabled(s: State, a: Action) {
    match a
    case Change(_) => true
    case Request => true
    case Read(w) => w in s.writers && s.writers[w].Reading?
    case Write(w, _) => w in s.writers && s.writers[w].Holding?
    case Finish(w) => w in s.writers && s.writers[w].Written?
  }

  function Memory(s: State): Order { s.orders[|s.orders| - 1] }

  ghost function Step(s: State, a: Action): State
    requires Enabled(s, a)
  {
    match a
    case Change(o) => s.(orders := s.orders + [o])
    case Request =>
      var (start, p) := AskFlags(Pair(s.running, s.again));
      var t := s.(asked := Some(|s.orders| - 1), running := p.running, again := p.again);
      if start then t.(writers := s.writers[s.spawned := Reading], spawned := s.spawned + 1) else t
    case Read(w) => s.(writers := s.writers[w := Holding(Memory(s), |s.orders| - 1)])
    case Write(w, ok) =>
      var h := s.writers[w];
      var t := s.(writers := s.writers[w := Written], lastOk := ok);
      if ok then t.(disk := Some(h.order), diskVersion := h.version) else t
    case Finish(w) =>
      var (more, p) := NextFlags(Pair(s.running, s.again));
      var t := s.(running := p.running, again := p.again);
      t.(writers := if more then s.writers[w := Reading] else s.writers - {w})
  }

  /** The states some run of steps leads to. */
  ghost predicate Run(first: Order, actions: seq<Action>, s: State)
    decreases |actions|
  {
    if actions == [] then s == Start(first)
    else
      var last := actions[|actions| - 1];
      exists r :: Run(first, actions[..|actions| - 1], r) && Enabled(r, last) && s == Step(r, last)
  }

  // ------------------------------------------------------------ what holds

  ghost predicate OneWriter(s: State) {
    if s.running then exists w :: Only(s, w) else s.writers == map[] && !s.again
  }

  ghost predicate Only(s: State, w: nat) { s.writers.Keys == {w} && w < s.spawned }

  /** A version on its way to the disk, or on it, is what memory held then. */
  ghost predicate Faithful(s: State) {
    && (forall w :: w in s.writers && s.writers[w].Holding? ==>
          s.writers[w].version < |s.orders| && s.writers[w].order == s.orders[s.writers[w].version])
    && (s.disk.Some? ==> s.diskVersion < |s.orders| && s.disk.value == s.orders[s.diskVersion])
  }

  /** The last request is covered: by a write still to come, or by one made. */
  ghost predicate Covered(s: State) {
    s.asked.Some? && !s.again ==>
      && (forall w :: w in s.writers && s.writers[w].Holding? ==> s.asked.value <= s.writers[w].version)
      && ((!s.running || exists w :: w in s.writers && s.writers[w].Written?) && s.lastOk ==>
            s.disk.Some? && s.asked.value <= s.diskVersion)
  }

  ghost predicate Inv(s: State) {
    OneWriter(s) && Faithful(s) && Covered(s) && (s.asked.Some? ==> s.asked.value < |s.orders|)
  }

  lemma StepKeepsWriter(s: State, a: Action)
    requires Inv(s) && Enabled(s, a)
    ensures OneWriter(Step(s, a))
  {
    var t := Step(s, a);
    if s.running {
      var w :| Only(s, w);
      assert a.Read? || a.Write? || a.Finish? ==> a.writer == w;
      if a.Finish? && !s.again {
        assert t.writers.Keys == {};
      } else {
        assert Only(t, w);
      }
    } else if a.Request? {
      assert Only(t, s.spawned);
    }
  }

  lemma StepKeepsFaith(s: State, a: Action)
    requires Inv(s) && Enabled(s, a)
    ensures Faithful(Step(s, a))
  {
    hide OneWriter, Covered;
  }

  lemma StepKeepsCover(s: State, a: Action)
    requires Inv(s) && Enabled(s, a)
    ensures Covered(Step(s, a))
  {
    var t := Step(s, a);
    if s.running {
      var w :| Only(s, w);
      assert w in s.writers;
      assert forall v :: v in s.writers ==> v == w;
      assert forall v :: v in t.writers ==> v == w;
    }
  }

  lemma StepKeepsInv(s: State, a: Action)
    requires Inv(s) && Enabled(s, a)
    ensures Inv(Step(s, a))
  {
    StepKeepsWriter(s, a);
    StepKeepsFaith(s, a);
    StepKeepsCover(s, a);
    hide OneWriter, Covered, Faithful;
  }

  lemma {:induction false} RunsKeepInv(first: Order, actions: seq<Action>, s: State)
    requires Run(first, actions, s)
    ensures Inv(s)
    decreases |actions|
  {
    if actions == [] {
    } else {
      var front, last := actions[..|actions| - 1], actions[|actions| - 1];
      var r :| Run(first, front, r) && Enabled(r, last) && s == Step(r, last);
      RunsKeepInv(first, front, r);
      StepKeepsInv(r, last);
    }
  }

  /** In every interleaving at most one writer is alive, and exactly while the
      flag says so. */
  lemma AtMostOneWriter(first: Order, actions: seq<Action>, s: State)
    requires Run(first, actions, s)
    ensures |s.writers| == if s.running then 1 else 0
  {
    RunsKeepInv(first, actions, s);
    if s.running {
      var w :| Only(s, w);
      assert |s.writers| == |s.writers.Keys| == |{w}|;
    }
  }

  /** No order is lost: once no writer runs and the last write succeeded, the
      disk holds an order memory had at or after the last request, and memory's
      own when nothing has changed since. */
  lemma NoOrderIsLost(first: Order, actions: seq<Action>, s: State)
    requires Run(first, actions, s)
    requires !s.running && s.asked.Some? && s.lastOk
    ensures s.disk.Some? && s.asked.value <= s.diskVersion < |s.orders|
    ensures s.disk.value == s.orders[s.diskVersion]
    ensures s.asked.value == |s.orders| - 1 ==> s.disk == Some(Memory(s))
  {
    RunsKeepInv(first, actions, s);
    hide Run;
    LastIsWritten(s);
  }

  lemma LastIsWritten(s: State)
    requires Inv(s) && !s.running && s.asked.Some? && s.lastOk
    ensures s.disk.Some? && s.asked.value <= s.diskVersion < |s.orders| && s.disk.value == s.orders[s.diskVersion]
  {}

  // ------------------------------------------------------------ writers stop

  /** The steps the writer still has to make: what is left of its round, and another
      round when it was asked again. */
  ghost function Left(s: State): nat {
    var round: nat :=
      if exists w :: w in s.writers && s.writers[w].Reading? then 3
      else if exists w :: w in s.writers && s.writers[w].Holding? then 2
      else if s.writers != map[] then 1
      else 0;
    round + if s.again then 3 else 0
  }

  /** Without a request every step of a writer is one less to make, and while there
      is one to make a writer can make it. */
  lemma StepsCountDown(s: State, a: Action)
    requires Inv(s) && Enabled(s, a) && !a.Request?
    ensures Left(Step(s, a)) == Left(s) - (if a.Change? then 0 else 1)
  {
    hide Faithful, Covered;
    var t := Step(s, a);
    if s.running {
      var w :| Only(s, w);
      assert forall v :: v in s.writers <==> v == w;
      if a.Finish? && !s.again {
        assert t.writers.Keys == {};
        assert t.writers == map[];
      } else {
        assert w in t.writers && forall v :: v in t.writers <==> v == w;
      }
    }
  }

  lemma WriterCanGoOn(s: State)
    requires Inv(s)
    ensures Left(s) > 0 <==> s.running
    ensures s.running ==> exists w :: Enabled(s, Read(w)) || Enabled(s, Write(w, true)) || Enabled(s, Finish(w))
  {
    hide Faithful, Covered;
    if s.running {
      var w :| Only(s, w);
      assert w in s.writers;
      assert Enabled(s, Read(w)) || Enabled(s, Write(w, true)) || Enabled(s, Finish(w));
    }
  }

  /** A run from any state. */
  ghost predicate Onward(s: State, actions: seq<Action>, t: State)
    decreases |actions|
  {
    if actions == [] then s == t
    else Enabled(s, actions[0]) && Onward(Step(s, actions[0]), actions[1..], t)
  }

  /** The steps that are a writer's. */
  function Writing(actions: seq<Action>): nat {
    if actions == [] then 0 else (if actions[0].Change? || actions[0].Request? then 0 else 1) + Writing(actions[1..])
  }

  lemma {:induction false} OnwardCounts(s: State, actions: seq<Action>, t: State)
    requires Inv(s) && Onward(s, actions, t) && forall a :: a in actions ==> !a.Request?
    ensures Inv(t) && Left(t) == Left(s) - Writing(actions)
    decreases |actions|
  {
    hide Inv, Enabled, Step, Left;
    if actions == [] {
    } else {
      assert actions[0] in actions && forall a :: a in actions[1..] ==> a in actions;
      StepKeepsInv(s, actions[0]);
      StepsCountDown(s, actions[0]);
      OnwardCounts(Step(s, actions[0]), actions[1..], t);
    }
  }

  /** Whatever has happened, when nobody asks any more the writer makes at most six
      more steps and is gone: two rounds at most, however often the order changes. */
  lemma WritersSettle(first: Order, before: seq<Action>, s: State, actions: seq<Action>, t: State)
    requires Run(first, before, s) && Onward(s, actions, t) && forall a :: a in actions ==> !a.Request?
    ensures Writing(actions) <= 6
    ensures t.running ==> exists w :: Enabled(t, Read(w)) || Enabled(t, Write(w, true)) || Enabled(t, Finish(w))
    ensures Writing(actions) == 6 ==> !t.running && t.writers == map[]
  {
    RunsKeepInv(first, before, s);
    OnwardCounts(s, actions, t);
    WriterCanGoOn(t);
    hide Run, Onward, Enabled, Faithful, Covered;
  }

  /** A request starts a writer exactly when none runs, and a running one is told to
      go round again. */
  lemma RequestsAreTaken(first: Order, before: seq<Action>, s: State)
    requires Run(first, before, s)
    ensures var t := Step(s, Request);
      && t.running && t.asked == Some(|s.orders| - 1)
      && if s.running then t.again && t.writers == s.writers else !t.again && t.writers == map[s.spawned := Reading]
  {
    RunsKeepInv(first, before, s);
    hide Run;
  }
}
