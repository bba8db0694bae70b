/** The one-slot cache of a filtered and sorted order, filled outside the lock
    and guarded by a generation counter (memCacheStore, memInvalidate and the
    cache half of memOrder in vair/core/memstore.go). Q is a query with the
    version of the test results it was signed with, S a signature, C what a tab
    holds, results included, O an order. */
module TableCache {
  import opened Decimal

  type Tab = string

  datatype Slot<S, O> = Slot(tab: Tab, sig: S, ord: O)

  // ------------------------------------------------------------ the slot

  class MemCache<S(==), O> {
    var slot: Option<Slot<S, O>>
    var gen: nat

    constructor ()
      ensures slot == None && gen == 0
    {
      slot, gen := None, 0;
    }

    /** The first critical section of memOrder: the cached order, or the
        generation to compute at. */
    method Lookup(tab: Tab, sig: S) returns (hit: Option<O>, at: nat)
      ensures hit == Cached(slot, tab, sig) && at == gen
      ensures forall ord :: hit == Some(ord) <==> slot == Some(Slot(tab, sig, ord))
    {
      if slot.Some? && slot.value.tab == tab && slot.value.sig == sig { return Some(slot.value.ord), gen; }
      return None, gen;
    }

    /** memInvalidate; no tab stands for all of them. */
    method Invalidate(tab: Option<Tab>)
      modifies this
      ensures gen == old(gen) + 1
      ensures slot == Dropped(old(slot), tab)
      ensures slot == old(slot) || slot == None
      ensures slot == None <==> old(slot).None? || tab.None? || old(slot).value.tab == tab.value
    {
      gen := gen + 1;
      if tab.None? || (slot.Some? && slot.value.tab == tab.value) { slot := None; }
    }

    /** memCacheStore: an order computed at a generation that has passed is not
        kept. */
    method Store(at: nat, tab: Tab, sig: S, ord: O)
      modifies this`slot
      ensures slot == Stored(old(slot), gen, at, Slot(tab, sig, ord))
      ensures slot == if gen == at then Some(Slot(tab, sig, ord)) else old(slot)
    {
      if gen == at { slot := Some(Slot(tab, sig, ord)); }
    }
  }

  function Cached<S(==), O>(slot: Option<Slot<S, O>>, tab: Tab, sig: S): Option<O> {
    if slot.Some? && slot.value.tab == tab && slot.value.sig == sig then Some(slot.value.ord) else None
  }

  function Dropped<S, O>(slot: Option<Slot<S, O>>, tab: Option<Tab>): Option<Slot<S, O>> {
    if slot.None? || tab.None? || slot.value.tab == tab.value then None else slot
  }

  function Stored<S, O>(slot: Option<Slot<S, O>>, gen: nat, at: nat, s: Slot<S, O>): Option<Slot<S, O>> {
    if gen == at then Some(s) else slot
  }

  // ------------------------------------------------------------ interleavings

  /** How the table is read: how a query is signed, the order it makes of a tab,
      whether that order depends on the results of tests, and the version of the
      results it was signed with. */
  datatype View<!Q, S, !C, O> = View(sig: Q -> S, order: (Q, C) -> O, live: Q -> bool, ver: Q -> int)

  /** An order with the query it answers. */
  datatype Answer<Q, O> = Answer(tab: Tab, query: Q, ord: O)

  function Signed<Q, S, C, O>(v: View<Q, S, C, O>, f: Answer<Q, O>): Slot<S, O> { Slot(f.tab, v.sig(f.query), f.ord) }

  /** The slot holds an answer under its query's signature. */
  function SlotOf<Q, S, C, O>(v: View<Q, S, C, O>, kept: Option<Answer<Q, O>>): Option<Slot<S, O>> {
    if kept.None? then None else Some(Signed(v, kept.value))
  }

  /** A read of the table: it missed the cache at a generation, then it computed
      an order from the tab as it was at some later moment. */
  datatype Reader<Q, O> = Missed(at: nat, tab: Tab, query: Q) | Computed(at: nat, found: Answer<Q, O>)

  function QueryOf<Q, O>(r: Reader<Q, O>): Q { match r case Missed(_, _, q) => q case Computed(_, f) => f.query }

  /** contents is what every tab holds; owing counts, for every tab, the writers
      that have changed it and not invalidated yet; unsaid counts the results
      written and not announced yet, and ver the announcements. */
  datatype State<Q, C, O> = State(
    contents: Tab -> C, owing: Tab -> nat, unsaid: nat, ver: nat,
    kept: Option<Answer<Q, O>>, gen: nat, readers: map<nat, Reader<Q, O>>)

  datatype Action<Q, C> =
    | Miss(reader: nat, tab: Tab, query: Q)
    | Compute(reader: nat)
    | Keep(reader: nat)
    | Change(tab: Tab, content: C)      // under state.mu: replace, paste, delete, move, undo
    | Settle(tab: Tab)                  // the same writer's memInvalidate
    | Clear(which: Option<Tab>)         // any other invalidation
    | Measure(tab: Tab, content: C)     // a test writes its result
    | Announce                          // the same test's bumpResultVer
    | Refresh                           // any other bump

  ghost predicate Enabled<Q(!new), S, C, O>(v: View<Q, S, C, O>, s: State<Q, C, O>, a: Action<Q, C>) {
    match a
    // also at an order the cache holds: a stored nil order is not taken
    case Miss(r, _, q) => r !in s.readers && v.ver(q) <= s.ver
    case Compute(r) => r in s.readers && s.readers[r].Missed?
    case Keep(r) => r in s.readers && s.readers[r].Computed?
    case Change(_, _) => true
    case Settle(t) => s.owing(t) > 0
    case Clear(_) => true
    case Measure(t, c) => ResultsOnly(v, s.contents(t), c)
    case Announce => s.unsaid > 0
    case Refresh => true
  }

  /** The change is seen by the orders that depend on results, and by no other. */
  ghost predicate ResultsOnly<Q(!new), S, C, O>(v: View<Q, S, C, O>, was: C, now: C) {
    forall q :: !v.live(q) ==> v.order(q, now) == v.order(q, was)
  }

  function Released<Q, O>(kept: Option<Answer<Q, O>>, tab: Option<Tab>): Option<Answer<Q, O>> {
    if kept.None? || tab.None? || kept.value.tab == tab.value then None else kept
  }

  function Holding<C>(contents: Tab -> C, tab: Tab, content: C): Tab -> C { (x: Tab) => if x == tab then content else contents(x) }

  ghost function Step<Q(!new), S, C, O>(v: View<Q, S, C, O>, s: State<Q, C, O>, a: Action<Q, C>): State<Q, C, O>
    requires Enabled(v, s, a)
  {
    match a
    case Miss(r, t, q) => s.(readers := s.readers[r := Missed(s.gen, t, q)])
    case Compute(r) =>
      var m := s.readers[r];
      s.(readers := s.readers[r := Computed(m.at, Answer(m.tab, m.query, v.order(m.query, s.contents(m.tab))))])
    case Keep(r) =>
      var c := s.readers[r];
      s.(kept := if s.gen == c.at then Some(c.found) else s.kept, readers := s.readers - {r})
    case Change(t, c) =>
      var owed := s.owing;
      s.(contents := Holding(s.contents, t, c), owing := (x: Tab) => if x == t then owed(x) + 1 else owed(x))
    case Settle(t) =>
      var owed := s.owing;
      s.(owing := (x: Tab) => if x == t && owed(x) > 0 then owed(x) - 1 else owed(x),
         kept := Released(s.kept, Some(t)), gen := s.gen + 1)
    case Clear(which) => s.(kept := Released(s.kept, which), gen := s.gen + 1)
    case Measure(t, c) => s.(contents := Holding(s.contents, t, c), unsaid := s.unsaid + 1)
    case Announce => s.(unsaid := s.unsaid - 1, ver := s.ver + 1)
    case Refresh => s.(ver := s.ver + 1)
  }

  /** Every step moves the slot and the generation as the cache's own operations
      do: storing, invalidating, and nothing else. */
  lemma StepMovesSlot<Q(!new), S, C, O>(v: View<Q, S, C, O>, s: State<Q, C, O>, a: Action<Q, C>)
    requires Enabled(v, s, a)
    ensures var slot, t := SlotOf(v, s.kept), Step(v, s, a);
      && SlotOf(v, t.kept) == (match a
           case Keep(r) => Stored(slot, s.gen, s.readers[r].at, Signed(v, s.readers[r].found))
           case Settle(tab) => Dropped(slot, Some(tab))
           case Clear(which) => Dropped(slot, which)
           case _ => slot)
      && t.gen == s.gen + (if a.Settle? || a.Clear? then 1 else 0)
      && (a.Miss? ==> t.readers[a.reader].at == s.gen)
  {
    SlotMoves(v, s.kept, if a.Settle? then Some(a.tab) else if a.Clear? then a.which else None);
  }

  lemma SlotMoves<Q, S, C, O>(v: View<Q, S, C, O>, kept: Option<Answer<Q, O>>, which: Option<Tab>)
    ensures SlotOf(v, Released(kept, which)) == Dropped(SlotOf(v, kept), which)
  {}

  /** An order that is still the tab's, unless a writer of the tab owes its
      invalidation, or results the order depends on were announced since or are
      still to be. */
  ghost predicate Current<Q, S, C, O>(v: View<Q, S, C, O>, s: State<Q, C, O>, f: Answer<Q, O>) {
    s.owing(f.tab) == 0 && Fresh(v, s, f.query) ==> f.ord == v.order(f.query, s.contents(f.tab))
  }

  predicate Fresh<Q, S, C, O>(v: View<Q, S, C, O>, s: State<Q, C, O>, q: Q) {
    v.live(q) ==> v.ver(q) == s.ver && s.unsaid == 0
  }

  ghost predicate Inv<Q, S, C, O>(v: View<Q, S, C, O>, s: State<Q, C, O>) {
    && (s.kept.Some? ==> v.ver(s.kept.value.query) <= s.ver && Current(v, s, s.kept.value))
    && forall r :: r in s.readers ==> ReaderFine(v, s, s.readers[r])
  }

  /** What a reader holds is from the past; if nothing has been invalidated since
      it looked, it is still current. */
  ghost predicate ReaderFine<Q, S, C, O>(v: View<Q, S, C, O>, s: State<Q, C, O>, r: Reader<Q, O>) {
    && r.at <= s.gen && v.ver(QueryOf(r)) <= s.ver
    && (r.Computed? && r.at == s.gen ==> Current(v, s, r.found))
  }

  /** What is current stays so, as long as the tab is not invalidated. */
  lemma StaysCurrent<Q(!new), S, C, O>(v: View<Q, S, C, O>, s: State<Q, C, O>, a: Action<Q, C>, f: Answer<Q, O>)
    requires Enabled(v, s, a) && Current(v, s, f) && v.ver(f.query) <= s.ver
    requires a.Settle? ==> a.tab != f.tab
    ensures Current(v, Step(v, s, a), f)
  {}

  lemma ReadersStayFine<Q(!new), S, C, O>(v: View<Q, S, C, O>, s: State<Q, C, O>, a: Action<Q, C>, r: Reader<Q, O>)
    requires Enabled(v, s, a) && ReaderFine(v, s, r)
    ensures ReaderFine(v, Step(v, s, a), r)
  {
    if r.Computed? && r.at == s.gen && !a.Settle? { StaysCurrent(v, s, a, r.found); }
  }

  lemma KeptStaysCurrent<Q(!new), S, C, O>(v: View<Q, S, C, O>, s: State<Q, C, O>, a: Action<Q, C>)
    requires Inv(v, s) && Enabled(v, s, a)
    ensures var t := Step(v, s, a); t.kept.Some? ==> v.ver(t.kept.value.query) <= t.ver && Current(v, t, t.kept.value)
  {
    if a.Keep? { assert ReaderFine(v, s, s.readers[a.reader]); }
    if s.kept.Some? && !(a.Settle? && a.tab == s.kept.value.tab) { StaysCurrent(v, s, a, s.kept.value); }
  }

  lemma StepKeepsInv<Q(!new), S, C, O>(v: View<Q, S, C, O>, s: State<Q, C, O>, a: Action<Q, C>)
    requires Inv(v, s) && Enabled(v, s, a)
    ensures Inv(v, Step(v, s, a))
  {
    var t := Step(v, s, a);
    KeptStaysCurrent(v, s, a);
    forall r | r in t.readers ensures ReaderFine(v, t, t.readers[r]) {
      if r in s.readers {
        assert ReaderFine(v, s, s.readers[r]);
        ReadersStayFine(v, s, a, s.readers[r]);
      }
    }
  }

  // ------------------------------------------------------------ who asks

  /** Every query the cache and its readers hold is one of those allowed. */
  ghost predicate AllAllowed<Q, C, O>(allowed: Q -> bool, s: State<Q, C, O>) {
    && (s.kept.Some? ==> allowed(s.kept.value.query))
    && forall r :: r in s.readers ==> allowed(QueryOf(s.readers[r]))
  }

  predicate Asks<Q, C>(allowed: Q -> bool, a: Action<Q, C>) { a.Miss? ==> allowed(a.query) }

  lemma StepKeepsAllowed<Q(!new), S, C, O>(v: View<Q, S, C, O>, allowed: Q -> bool, s: State<Q, C, O>, a: Action<Q, C>)
    requires AllAllowed(allowed, s) && Enabled(v, s, a) && Asks(allowed, a)
    ensures AllAllowed(allowed, Step(v, s, a))
  {
    var t := Step(v, s, a);
    forall r | r in t.readers ensures allowed(QueryOf(t.readers[r])) {
      if r in s.readers { assert allowed(QueryOf(s.readers[r])); }
    }
    if a.Keep? { assert allowed(QueryOf(s.readers[a.reader])); }
  }

  // ------------------------------------------------------------ runs

  /** A run in which only queries allowed are asked. */
  ghost predicate Run<Q(!new), S, C(!new), O(!new)>(
      v: View<Q, S, C, O>, allowed: Q -> bool, contents: Tab -> C, actions: seq<Action<Q, C>>, s: State<Q, C, O>)
    decreases |actions|
  {
    if actions == [] then s == State(contents, x => 0, 0, 0, None, 0, map[])
    else
      var last := actions[|actions| - 1];
      exists r: State<Q, C, O> ::
        Run(v, allowed, contents, actions[..|actions| - 1], r) && Enabled(v, r, last) && Asks(allowed, last) && s == Step(v, r, last)
  }

  lemma {:induction false} RunsKeepInv<Q(!new), S, C(!new), O(!new)>(
      v: View<Q, S, C, O>, allowed: Q -> bool, contents: Tab -> C, actions: seq<Action<Q, C>>, s: State<Q, C, O>)
    requires Run(v, allowed, contents, actions, s)
    ensures Inv(v, s) && AllAllowed(allowed, s)
    decreases |actions|
  {
    if actions == [] {
    } else {
      var front, last := actions[..|actions| - 1], actions[|actions| - 1];
      var r: State<Q, C, O> :|
        Run(v, allowed, contents, front, r) && Enabled(v, r, last) && Asks(allowed, last) && s == Step(v, r, last);
      RunsKeepInv(v, allowed, contents, front, r);
      StepKeepsInv(v, r, last);
      StepKeepsAllowed(v, allowed, r, last);
    }
  }

  /** Queries allowed that share a signature have the same order on every tab,
      and, where it depends on results, the same version of them. */
  ghost predicate Tells<Q(!new), S, C(!new), O>(v: View<Q, S, C, O>, allowed: Q -> bool) {
    && (forall q, r, c :: allowed(q) && allowed(r) && v.sig(q) == v.sig(r) ==> v.order(q, c) == v.order(r, c))
    && (forall q, r :: allowed(q) && allowed(r) && v.sig(q) == v.sig(r) ==>
          v.live(q) == v.live(r) && (v.live(q) ==> v.ver(q) == v.ver(r)))
  }

  /** In every interleaving of readers, writers and tests: while no writer of a
      tab is between its change and its invalidation, and, for an order that
      depends on results, no test between its result and its announcement, the
      order served for a query signed now is the order it has on what the tab
      holds now, provided the signature tells the queries asked apart. */
  lemma CacheAgrees<Q(!new), S, C(!new), O(!new)>(
      v: View<Q, S, C, O>, allowed: Q -> bool, contents: Tab -> C,
      actions: seq<Action<Q, C>>, s: State<Q, C, O>, tab: Tab, q: Q)
    requires Run(v, allowed, contents, actions, s) && Tells(v, allowed) && allowed(q)
    requires s.owing(tab) == 0 && Fresh(v, s, q) && Cached(SlotOf(v, s.kept), tab, v.sig(q)).Some?
    ensures Cached(SlotOf(v, s.kept), tab, v.sig(q)).value == v.order(q, s.contents(tab))
  {
    RunsKeepInv(v, allowed, contents, actions, s);
    assert v.order(s.kept.value.query, s.contents(tab)) == v.order(q, s.contents(tab));
  }
}
