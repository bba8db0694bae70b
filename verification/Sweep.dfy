/** One pass of AUTO over its candidates and the pauses it leaves behind
    (autoBumpCooldown, autoCandidatesForConnect and autoConnectFromPool in
    vair/core/autoconnect.go). Times are seconds. */
module Sweep {
  import opened Ranking
  import opened Sorting

  const FIRST_PAUSE := 30
  const LONGEST_PAUSE := 1800
  const MAX_ATTEMPTS := 8

  /** cooldown is when each config's pause ends, backoff how long its last pause
      was. */
  datatype Pauses = Pauses(cooldown: map<string, int>, backoff: map<string, nat>)

  // ------------------------------------------------------------ a pause

  function NextPause(backoff: map<string, nat>, raw: string): nat {
    if raw !in backoff || backoff[raw] == 0 then FIRST_PAUSE
    else if 2 * backoff[raw] > LONGEST_PAUSE then LONGEST_PAUSE
    else 2 * backoff[raw]
  }

  /** autoBumpCooldown. */
  function Bump(p: Pauses, raw: string, now: int): Pauses {
    var d := NextPause(p.backoff, raw);
    Pauses(p.cooldown[raw := now + d], p.backoff[raw := d])
  }

  function Bumps(p: Pauses, raw: string, times: seq<int>): Pauses {
    if times == [] then p else Bump(Bumps(p, raw, times[..|times| - 1]), raw, times[|times| - 1])
  }

  function Power(n: nat): (r: nat)
    ensures r >= 1
  {
    if n == 0 then 1 else 2 * Power(n - 1)
  }

  /** The k-th pause in a row is 30 s doubled k-1 times, half an hour at most. */
  lemma {:induction false} PausesDouble(p: Pauses, raw: string, times: seq<int>)
    requires raw !in p.backoff && times != []
    ensures var d := 30 * Power(|times| - 1);
      Bumps(p, raw, times).backoff == p.backoff[raw := if d > 1800 then 1800 else d]
    ensures Bumps(p, raw, times).cooldown == p.cooldown[raw := times[|times| - 1] + Bumps(p, raw, times).backoff[raw]]
  {
    if |times| > 1 {
      PausesDouble(p, raw, times[..|times| - 1]);
    } else {
      assert Bumps(p, raw, times[..0]) == p;
    }
  }

  // ------------------------------------------------------------ whom to try

  /** autoCandidatesForConnect. */
  method CandidatesForConnect(a: Ask, listed: seq<Entry>) returns (cands: seq<Cand>)
    ensures cands == Offered(a, listed)
  {
    cands := AutoCandidates(a, listed);
    if |cands| > 0 || |a.cooldown| == 0 { return; }
    cands := AutoCandidates(a.(cooldown := map[]), listed);
  }

  ghost function Offered(a: Ask, listed: seq<Entry>): seq<Cand> {
    var cands := Candidates(a, listed);
    if |cands| > 0 || |a.cooldown| == 0 then cands else Candidates(a.(cooldown := map[]), listed)
  }

  /** The configs one might connect to, leaving pauses aside. */
  ghost function Pool(a: Ask, listed: seq<Entry>): set<string> {
    set i | 0 <= i < |listed| && Eligible(a.(cooldown := map[]), listed[i]) :: listed[i].raw
  }

  function Raws(cands: seq<Cand>): (r: seq<string>)
    ensures |r| == |cands| && forall i :: 0 <= i < |r| ==> r[i] == cands[i].entry.raw
  {
    seq(|cands|, i requires 0 <= i < |cands| => cands[i].entry.raw)
  }

  ghost function Members(s: seq<string>): set<string> { set i | 0 <= i < |s| :: s[i] }

  ghost predicate NoRepeats(s: seq<string>) { forall i, j :: 0 <= i < j < |s| ==> s[i] != s[j] }

  lemma {:induction false} EarliestEligible(a: Ask, listed: seq<Entry>, i: nat) returns (k: nat)
    requires i < |listed| && Eligible(a, listed[i])
    ensures k <= i && FirstOfItsKind(a, listed, k) && listed[k].raw == listed[i].raw
    decreases i
  {
    if Taken(a, listed, i, listed[i].raw) {
      var j :| 0 <= j < i && Eligible(a, listed[j]) && listed[j].raw == listed[i].raw;
      k := EarliestEligible(a, listed, j);
    } else {
      k := i;
    }
  }

  lemma CandidateOf(a: Ask, listed: seq<Entry>, raw: string)
    ensures raw in Raws(Candidates(a, listed)) <==> raw in Pool(a, listed) && !Paused(a, raw)
  {
    var cands := Candidates(a, listed);
    hide Candidates;
    if raw in Raws(cands) {
      var n :| 0 <= n < |cands| && Raws(cands)[n] == raw;
      CandidatesExactly(a, listed, cands[n]);
    }
    if raw in Pool(a, listed) && !Paused(a, raw) {
      var i :| 0 <= i < |listed| && Eligible(a.(cooldown := map[]), listed[i]) && listed[i].raw == raw;
      var k := EarliestEligible(a, listed, i);
      var c := CandOf(a.mode, listed[k], a.now, a.root);
      CandidatesExactly(a, listed, c);
      var n :| 0 <= n < |cands| && cands[n] == c;
      assert Raws(cands)[n] == raw;
    }
  }

  /** The ranked list of a pool holds every config of it that is not paused,
      once. */
  lemma CandidatesArePool(a: Ask, listed: seq<Entry>)
    ensures Members(Raws(Candidates(a, listed))) == (set raw | raw in Pool(a, listed) && !Paused(a, raw))
    ensures NoRepeats(Raws(Candidates(a, listed)))
  {
    OfferedOnce(a, listed);
    forall raw ensures raw in Raws(Candidates(a, listed)) <==> raw in Pool(a, listed) && !Paused(a, raw) {
      CandidateOf(a, listed, raw);
    }
  }

  lemma PoolIgnoresPauses(a: Ask, listed: seq<Entry>)
    ensures Pool(a.(cooldown := map[]), listed) == Pool(a, listed)
  {}

  lemma NothingAtAll(a: Ask, listed: seq<Entry>)
    ensures Candidates(a.(cooldown := map[]), listed) == [] <==> Pool(a, listed) == {}
    ensures Candidates(a, listed) != [] ==> Pool(a, listed) != {}
  {
    hide Candidates, Pool, Raws, Members;
    var free := a.(cooldown := map[]);
    CandidatesArePool(a, listed);
    CandidatesArePool(free, listed);
    SomethingListed(Candidates(a, listed));
    SomethingListed(Candidates(free, listed));
    PoolIgnoresPauses(a, listed);
    assert (set raw | raw in Pool(a, listed) && !Paused(free, raw)) == Pool(a, listed);
  }

  /** Pauses are advice: there is something to try whenever the pool holds a
      config one may connect to at all. */
  lemma PausesNeverLock(a: Ask, listed: seq<Entry>)
    ensures Offered(a, listed) == [] <==> Pool(a, listed) == {}
  {
    NothingAtAll(a, listed);
    hide Candidates, Pool;
    if |a.cooldown| == 0 { assert a.cooldown == map[] && a == a.(cooldown := map[]); }
  }

  lemma SomethingListed(cands: seq<Cand>)
    ensures cands == [] <==> Members(Raws(cands)) == {}
  {
    if cands != [] { assert Raws(cands)[0] in Members(Raws(cands)); }
  }

  // ------------------------------------------------------------ a sweep

  function ToFront<T>(r: seq<T>, i: nat): seq<T>
    requires i < |r|
  {
    [r[i]] + r[..i] + r[i + 1..]
  }

  /** The last connection's config first, if it answered its ping. */
  function Preferred(cands: seq<Cand>, raw: string): seq<Cand> {
    var i := Position(cands, raw);
    if raw != "" && i < |cands| && cands[i].rank == 0 then ToFront(cands, i) else cands
  }

  function Position(cands: seq<Cand>, raw: string): (i: nat)
    ensures i <= |cands| && (i < |cands| ==> cands[i].entry.raw == raw)
    ensures forall j :: 0 <= j < i ==> cands[j].entry.raw != raw
  {
    if cands == [] || cands[0].entry.raw == raw then 0 else 1 + Position(cands[1..], raw)
  }

  method Prefer(cands: seq<Cand>, raw: string) returns (order: seq<Cand>)
    ensures order == Preferred(cands, raw)
  {
    if raw != "" {
      for i := 0 to |cands|
        invariant forall j :: 0 <= j < i ==> cands[j].entry.raw != raw
      {
        if cands[i].entry.raw == raw {
          return if cands[i].rank == 0 then [cands[i]] + cands[..i] + cands[i + 1..] else cands;
        }
      }
    }
    return cands;
  }

  lemma PreferredPermutes(cands: seq<Cand>, raw: string)
    requires NoRepeats(Raws(cands))
    ensures var p := Preferred(cands, raw);
      Members(Raws(p)) == Members(Raws(cands)) && NoRepeats(Raws(p)) && |p| == |cands|
  {
    hide Position, NoRepeats, Members, ToFront, Raws;
    var i := Position(cands, raw);
    if Preferred(cands, raw) != cands {
      FrontPermutes(Raws(cands), i);
      RawsToFront(cands, i);
      SameMembers(Raws(cands), ToFront(Raws(cands), i));
    }
  }

  lemma RawsToFront(cands: seq<Cand>, i: nat)
    requires i < |cands|
    ensures Raws(ToFront(cands, i)) == ToFront(Raws(cands), i) && |ToFront(cands, i)| == |cands|
  {}

  lemma FrontPermutes(r: seq<string>, i: nat)
    requires i < |r|
    ensures multiset(ToFront(r, i)) == multiset(r)
  {
    assert r == r[..i] + [r[i]] + r[i + 1..];
  }

  lemma SameMembers(r: seq<string>, q: seq<string>)
    requires multiset(r) == multiset(q) && NoRepeats(r)
    ensures Members(q) == Members(r) && NoRepeats(q)
  {
    KeysStayDistinct(r, q, x => x);
    forall x ensures x in Members(q) <==> x in Members(r) {
      assert x in q <==> x in multiset(q);
      assert x in r <==> x in multiset(r);
    }
  }

  /** What an attempt finds: whether AUTO is still on, whether the config
      connects, and when the attempt is over. */
  datatype Attempt = Attempt(stillOn: bool, connects: bool, over: int)

  type World = nat -> Attempt

  /** The number of attempts that fail before the sweep ends. */
  function Failures(world: World, n: nat, i: nat): (k: nat)
    requires i <= n
    ensures i <= k <= n
    decreases n - i
  {
    if i == n || i >= MAX_ATTEMPTS || !world(i).stillOn || world(i).connects then i else Failures(world, n, i + 1)
  }

  function PauseAll(p: Pauses, raws: seq<string>, world: World): Pauses {
    if raws == [] then p
    else
      var k := |raws| - 1;
      Bump(PauseAll(p, raws[..k], world), raws[k], world(k).over)
  }

  datatype Outcome = Outcome(connected: bool, tried: seq<string>, pauses: Pauses)

  /** A sweep over a list, in the order given. */
  function Swept(order: seq<string>, world: World, p: Pauses): Outcome {
    var k := Failures(world, |order|, 0);
    var after := PauseAll(p, order[..k], world);
    if order == [] then Outcome(false, [], p)
    else if k == |order| then Outcome(false, order, Pauses(map[], map[]))
    else if k >= MAX_ATTEMPTS || !world(k).stillOn then Outcome(false, order[..k], after)
    else Outcome(true, order[..k + 1], after.(cooldown := after.cooldown - {order[k]}))
  }

  lemma NonePaused(p: Pauses, world: World)
    ensures PauseAll(p, [], world) == p
  {}

  lemma OneMorePaused(p: Pauses, order: seq<string>, i: nat, world: World)
    requires i < |order|
    ensures PauseAll(p, order[..i + 1], world) == Bump(PauseAll(p, order[..i], world), order[i], world(i).over)
  {
    hide Bump;
    assert order[..i + 1][..i] == order[..i];
  }

  class Supervised {
    var pauses: Pauses

    constructor ()
      ensures pauses == UNPAUSED
    {
      pauses := Pauses(map[], map[]);
    }

    /** The loop of autoConnectFromPool over the ranked list. */
    method TryInOrder(order: seq<string>, world: World) returns (ok: bool, ghost tried: seq<string>)
      requires order != []
      modifies this
      ensures Outcome(ok, tried, pauses) == Swept(order, world, old(pauses))
    {
      hide PauseAll, Bump;
      tried := [];
      var i := 0;
      NonePaused(pauses, world);
      assert order[..0] == [];
      while i < |order|
        invariant 0 <= i <= |order| && i <= MAX_ATTEMPTS
        invariant pauses == PauseAll(old(pauses), order[..i], world) && tried == order[..i]
        invariant Failures(world, |order|, 0) == Failures(world, |order|, i)
      {
        if i >= MAX_ATTEMPTS || !world(i).stillOn { return false, tried; }
        tried := tried + [order[i]];
        if world(i).connects {
          pauses := pauses.(cooldown := pauses.cooldown - {order[i]});
          return true, tried;
        }
        OneMorePaused(old(pauses), order, i, world);
        pauses := Bump(pauses, order[i], world(i).over);
        i := i + 1;
      }
      pauses := UNPAUSED;
      assert order[..|order|] == order;
      return false, tried;
    }

    /** autoConnectFromPool. */
    method ConnectFromPool(a: Ask, listed: seq<Entry>, preferRaw: string, world: World) returns (ok: bool, ghost tried: seq<string>)
      requires a.cooldown == pauses.cooldown
      modifies this
      ensures Outcome(ok, tried, pauses) == PassOver(Round(a, listed, preferRaw, world), old(pauses))
    {
      var cands := CandidatesForConnect(a, listed);
      hide Offered;
      if |cands| == 0 { return false, []; }
      var order := Prefer(cands, preferRaw);
      ok, tried := TryInOrder(Raws(order), world);
    }
  }

  /** At most eight attempts, in the order of the list, stopping at the first
      that connects; what failed before it is paused, what connected is not. */
  lemma SweepBounds(order: seq<string>, world: World, p: Pauses)
    ensures var o := Swept(order, world, p);
      && |o.tried| <= 8 && o.tried <= order
      && (o.connected ==> o.tried != [] && o.tried[|o.tried| - 1] !in o.pauses.cooldown)
      && (o.connected <==> o.tried != [] && world(|o.tried| - 1).stillOn && world(|o.tried| - 1).connects)
  {
    FailuresFail(world, |order|, 0);
    var k := Failures(world, |order|, 0);
    if k > 0 { assert world(k - 1).stillOn && !world(k - 1).connects; }
  }

  lemma {:induction false} FailuresFail(world: World, n: nat, i: nat)
    requires i <= n
    ensures var k := Failures(world, n, i);
      && (i <= MAX_ATTEMPTS ==> k <= MAX_ATTEMPTS)
      && (k < n && k < MAX_ATTEMPTS ==> !world(k).stillOn || world(k).connects)
      && forall j :: i <= j < k ==> world(j).stillOn && !world(j).connects
    decreases n - i
  {
    if i < n && i < MAX_ATTEMPTS && world(i).stillOn && !world(i).connects { FailuresFail(world, n, i + 1); }
  }

  lemma {:induction false} PauseAllSparesOthers(p: Pauses, raws: seq<string>, world: World, raw: string)
    requires raw !in raws
    ensures SamePause(PauseAll(p, raws, world), p, raw)
  {
    if raws == [] {
    } else {
      PauseAllSparesOthers(p, raws[..|raws| - 1], world, raw);
    }
  }

  /** One config's pause and backoff are the same in both. */
  predicate SamePause(p: Pauses, q: Pauses, raw: string) {
    && (raw in p.cooldown <==> raw in q.cooldown) && (raw in p.cooldown ==> p.cooldown[raw] == q.cooldown[raw])
    && (raw in p.backoff <==> raw in q.backoff) && (raw in p.backoff ==> p.backoff[raw] == q.backoff[raw])
  }

  /** A sweep leaves the pause of a config it does not try alone, unless it lifts
      all of them because everybody failed. */
  lemma SweepSparesOthers(order: seq<string>, world: World, p: Pauses, raw: string)
    requires raw !in order
    ensures var q := Swept(order, world, p).pauses; q == UNPAUSED || SamePause(q, p, raw)
  {
    var k := Failures(world, |order|, 0);
    PauseAllSparesOthers(p, order[..k], world, raw);
    hide PauseAll, Failures;
  }

  // ------------------------------------------------------------ sweep after sweep

  const UNPAUSED := Pauses(map[], map[])

  datatype Round = Round(ask: Ask, listed: seq<Entry>, preferRaw: string, world: World)

  ghost function PassOver(s: Round, p: Pauses): Outcome {
    Swept(Raws(Preferred(Offered(s.ask, s.listed), s.preferRaw)), s.world, p)
  }

  ghost function After(passes: seq<Round>): Pauses {
    if passes == [] then UNPAUSED else PassOver(passes[|passes| - 1], After(passes[..|passes| - 1])).pauses
  }

  ghost function Tried(passes: seq<Round>): set<string> {
    if passes == [] then {}
    else
      var front := passes[..|passes| - 1];
      Tried(front) + Members(PassOver(passes[|passes| - 1], After(front)).tried)
  }

  ghost predicate AllFail(world: World) { forall i: nat :: world(i).stillOn && !world(i).connects }

  predicate NoneExpired(a: Ask) { forall raw :: raw in a.cooldown ==> a.now < a.cooldown[raw] }

  /** A pass over the pool in which nothing works and no pause is over; the
      ranking, the statuses and the preference may be any. */
  ghost predicate Hopeless(s: Round, pool: set<string>, p: Pauses) {
    s.ask.cooldown == p.cooldown && Pool(s.ask, s.listed) == pool && NoneExpired(s.ask) && AllFail(s.world)
  }

  ghost predicate Outage(passes: seq<Round>, pool: set<string>) {
    passes == [] ||
    (Outage(passes[..|passes| - 1], pool) && Hopeless(passes[|passes| - 1], pool, After(passes[..|passes| - 1])))
  }

  lemma {:induction false} AllOfThemFail(world: World, n: nat, i: nat)
    requires AllFail(world) && i <= n && i <= MAX_ATTEMPTS
    ensures Failures(world, n, i) == if n <= MAX_ATTEMPTS then n else MAX_ATTEMPTS
    decreases n - i
  {
    if i < n && i < MAX_ATTEMPTS { AllOfThemFail(world, n, i + 1); }
  }

  lemma {:induction false} PausedKeys(p: Pauses, raws: seq<string>, world: World)
    ensures PauseAll(p, raws, world).cooldown.Keys == p.cooldown.Keys + Members(raws)
  {
    if raws == [] {
    } else {
      var k := |raws| - 1;
      PausedKeys(p, raws[..k], world);
      assert raws == raws[..k] + [raws[k]];
      MembersPlus(raws[..k], raws[k]);
    }
  }

  lemma MembersPlus(s: seq<string>, x: string)
    ensures Members(s + [x]) == Members(s) + {x}
  {
    var t := s + [x];
    assert t[|s|] == x;
    forall y ensures y in Members(t) <==> y in Members(s) + {x} {
      if y in Members(s) {
        var i :| 0 <= i < |s| && s[i] == y;
        assert t[i] == y;
      }
    }
  }

  lemma {:induction false} MembersCount(s: seq<string>)
    requires NoRepeats(s)
    ensures |Members(s)| == |s|
  {
    if s == [] {
    } else {
      var front, x := s[..|s| - 1], s[|s| - 1];
      MembersCount(front);
      assert s == front + [x];
      MembersPlus(front, x);
      assert x !in Members(front);
    }
  }

  /** The order of a pass that still has somebody to try: the pool less the
      paused, each once. */
  lemma OrderOfPass(s: Round, pool: set<string>, p: Pauses) returns (order: seq<string>)
    requires Hopeless(s, pool, p) && p.cooldown.Keys < pool
    ensures order == Raws(Preferred(Offered(s.ask, s.listed), s.preferRaw))
    ensures Members(order) == pool - p.cooldown.Keys && NoRepeats(order)
    ensures order != [] && |order| == |pool| - |p.cooldown.Keys|
  {
    var cands := Candidates(s.ask, s.listed);
    CandidatesArePool(s.ask, s.listed);
    order := Raws(Preferred(Offered(s.ask, s.listed), s.preferRaw));
    hide Candidates, Pool, Preferred;
    assert Members(Raws(cands)) == pool - p.cooldown.Keys;
    assert pool == p.cooldown.Keys + (pool - p.cooldown.Keys);
    assert pool - p.cooldown.Keys != {};
    SomethingListed(cands);
    PreferredPermutes(cands, s.preferRaw);
    MembersCount(order);
  }

  /** One pass of an outage: eight more are paused, or the rest is tried and
      every pause is lifted. */
  lemma OnePass(s: Round, pool: set<string>, p: Pauses)
    requires Hopeless(s, pool, p) && p.cooldown.Keys < pool
    ensures var o, tried := PassOver(s, p), Members(PassOver(s, p).tried);
      if |pool| - |p.cooldown.Keys| <= MAX_ATTEMPTS then tried == pool - p.cooldown.Keys && o.pauses == UNPAUSED
      else tried <= pool && tried !! p.cooldown.Keys && |tried| == MAX_ATTEMPTS && o.pauses.cooldown.Keys == p.cooldown.Keys + tried
  {
    hide Offered, Preferred, PauseAll;
    var order := OrderOfPass(s, pool, p);
    AllOfThemFail(s.world, |order|, 0);
    if |order| > MAX_ATTEMPTS {
      PausedKeys(p, order[..MAX_ATTEMPTS], s.world);
      FirstOfOrder(order, MAX_ATTEMPTS);
    }
  }

  lemma FirstOfOrder(order: seq<string>, n: nat)
    requires NoRepeats(order) && n <= |order|
    ensures Members(order[..n]) <= Members(order) && |Members(order[..n])| == n
  {
    MembersCount(order[..n]);
    forall x | x in Members(order[..n]) ensures x in Members(order) {
      var i :| 0 <= i < n && order[..n][i] == x;
      assert order[i] == x;
    }
  }

  /** Until the pool is exhausted the paused are those tried, eight a pass. */
  lemma {:induction false} PassesAdvance(passes: seq<Round>, pool: set<string>)
    requires Outage(passes, pool) && 8 * |passes| < |pool|
    ensures After(passes).cooldown.Keys == Tried(passes) < pool
    ensures |Tried(passes)| == 8 * |passes|
  {
    if passes == [] {
    } else {
      var front, s := passes[..|passes| - 1], passes[|passes| - 1];
      PassesAdvance(front, pool);
      OnePass(s, pool, After(front));
      hide PassOver, Hopeless;
      Grown(Tried(front), Members(PassOver(s, After(front)).tried), pool);
    }
  }

  lemma Grown(a: set<string>, b: set<string>, pool: set<string>)
    requires a <= pool && b <= pool && a !! b && |a| + |b| < |pool|
    ensures a + b < pool && |a + b| == |a| + |b|
  {
    assert |a + b| == |a| + |b|;
    assert a + b != pool;
  }

  lemma LastPass(front: seq<Round>, s: Round, pool: set<string>)
    requires Outage(front, pool) && Hopeless(s, pool, After(front))
    requires MAX_ATTEMPTS * |front| < |pool| <= MAX_ATTEMPTS * |front| + MAX_ATTEMPTS
    ensures Tried(front) + Members(PassOver(s, After(front)).tried) == pool
    ensures PassOver(s, After(front)).pauses == UNPAUSED
  {
    PassesAdvance(front, pool);
    OnePass(s, pool, After(front));
    hide Outage, Tried, PassOver, Hopeless, After, Members;
    assert pool == Tried(front) + (pool - Tried(front));
  }

  /** A pool of N configs none of which works: after ceil(N/8) passes every one
      has been tried, and then every pause and every backoff is lifted. */
  lemma OutageTriesEveryone(passes: seq<Round>, pool: set<string>)
    requires Outage(passes, pool)
    requires 8 * (|passes| - 1) < |pool| <= 8 * |passes|
    ensures Tried(passes) == pool && After(passes) == UNPAUSED
  {
    hide PassOver, Hopeless;
    if passes != [] { LastPass(passes[..|passes| - 1], passes[|passes| - 1], pool); }
  }
}
