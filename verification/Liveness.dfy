/** What the byte counters say about a connection nobody has probed, and when
    the machine has been away (vair/core/watchdog.go). Times are seconds, the
    gaps of the clock milliseconds. */
module Liveness {
  import opened Decimal

  const SUSPECT_AFTER := 5
  const TICK := 2000
  const SLACK := 4000

  datatype Hint = Unknown | Alive | Suspect

  /** The counters of one session and when bytes first left unanswered. */
  datatype Watch = Unseen | Watching(raw: string, up: int, down: int, sentAt: Option<int>)

  function Looked(w: Watch, raw: string, up: int, down: int, now: int): (Watch, Hint) {
    if w.Unseen? || w.raw != raw then (Watching(raw, up, down, None), Unknown)
    else if down > w.down then (Watching(raw, up, down, None), Alive)
    else
      var sent := if up > w.up && w.sentAt.None? then Some(now) else w.sentAt;
      (Watching(raw, up, down, sent), if sent.Some? && now - sent.value >= SUSPECT_AFTER then Suspect else Unknown)
  }

  function Answered(w: Watch): Watch { if w.Unseen? then w else w.(sentAt := None) }

  class LivenessWatch {
    var w: Watch

    constructor ()
      ensures w == Unseen
    {
      w := Unseen;
    }

    method Look(raw: string, up: int, down: int, now: int) returns (hint: Hint)
      modifies this
      ensures (w, hint) == Looked(old(w), raw, up, down, now)
      ensures old(w).Unseen? || old(w).raw != raw ==> hint == Unknown && w == Watching(raw, up, down, None)
    {
      if w.Unseen? || w.raw != raw {
        w := Watching(raw, up, down, None);
        return Unknown;
      }
      var prevUp, prevDown := w.up, w.down;
      w := w.(up := up, down := down);
      if down > prevDown {
        w := w.(sentAt := None);
        return Alive;
      }
      if up > prevUp {
        if w.sentAt.None? { w := w.(sentAt := Some(now)); }
        return if now - w.sentAt.value >= SUSPECT_AFTER then Suspect else Unknown;
      }
      return if w.sentAt.Some? && now - w.sentAt.value >= SUSPECT_AFTER then Suspect else Unknown;
    }

    method Reply()
      modifies this
      ensures w == Answered(old(w))
    {
      if w.Watching? { w := w.(sentAt := None); }
    }

    method Reset()
      modifies this
      ensures w == Unseen
    {
      w := Unseen;
    }
  }

  /** clockJumped. */
  predicate ClockJumped(wallGap: int, monoGap: int) { wallGap - monoGap > SLACK || monoGap > TICK + SLACK }

  // ------------------------------------------------------------ what a hint means

  /** The life of one session: looks at its counters and answered probes. */
  datatype Moment = Look(up: int, down: int, now: int) | Reply

  ghost function After(raw: string, h: seq<Moment>): (Watch, Hint) {
    if h == [] then (Unseen, Unknown)
    else
      var w := After(raw, h[..|h| - 1]).0;
      match h[|h| - 1]
      case Look(up, down, now) => Looked(w, raw, up, down, now)
      case Reply => (Answered(w), Unknown)
  }

  datatype Counters = Counters(up: int, down: int)

  /** The counters at the last look before a moment. */
  ghost function Before(h: seq<Moment>, i: nat): Option<Counters>
    requires i <= |h|
  {
    if i == 0 then None
    else match h[i - 1] case Look(up, down, _) => Some(Counters(up, down)) case Reply => Before(h, i - 1)
  }

  ghost predicate HeardAfter(b: Option<Counters>, m: Moment) { m.Reply? || (b.Some? && m.down > b.value.down) }
  ghost predicate SentAfter(b: Option<Counters>, m: Moment) { m.Look? && b.Some? && m.up > b.value.up }

  ghost predicate Heard(h: seq<Moment>, i: int) { 0 <= i < |h| && HeardAfter(Before(h, i), h[i]) }
  ghost predicate Sent(h: seq<Moment>, i: int) { 0 <= i < |h| && SentAfter(Before(h, i), h[i]) }

  /** Bytes that left at moment i and that nothing has come back after. */
  ghost predicate Unanswered(h: seq<Moment>, i: int) {
    Sent(h, i) && forall j :: i <= j < |h| ==> !Heard(h, j)
  }

  ghost predicate InTime(h: seq<Moment>) {
    forall i, j :: 0 <= i < j < |h| && h[i].Look? && h[j].Look? ==> h[i].now <= h[j].now
  }

  lemma {:induction false} BeforePrefix(h: seq<Moment>, n: nat, i: nat)
    requires i <= n <= |h|
    ensures Before(h[..n], i) == Before(h, i)
  {
    if i == 0 {
    } else {
      BeforePrefix(h, n, i - 1);
    }
  }

  lemma UnansweredStep(h: seq<Moment>, i: int)
    requires h != []
    ensures var n := |h| - 1;
      Unanswered(h, i) <==> !Heard(h, n) && (Unanswered(h[..n], i) || (i == n && Sent(h, n)))
  {
    var n := |h| - 1;
    forall j | 0 <= j < n ensures (Heard(h[..n], j) <==> Heard(h, j)) && (Sent(h[..n], j) <==> Sent(h, j)) {
      BeforePrefix(h, n, j);
    }
    hide HeardAfter, SentAfter;
    if Unanswered(h[..n], i) { assert Sent(h, i); }
    if Unanswered(h, i) && i < n { assert Sent(h[..n], i); }
  }

  /** sentAt is when the first bytes still unanswered left. */
  ghost predicate FirstUnanswered(h: seq<Moment>, sentAt: Option<int>) {
    && (forall i :: Unanswered(h, i) ==> sentAt.Some? && sentAt.value <= h[i].now)
    && (sentAt.Some? ==> exists i :: Unanswered(h, i) && h[i].now == sentAt.value)
  }

  /** The watch keeps the last counters and the first bytes unanswered. */
  ghost predicate Keeps(raw: string, h: seq<Moment>, w: Watch) {
    && (match w
        case Unseen => Before(h, |h|).None?
        case Watching(r, up, down, _) => r == raw && Before(h, |h|) == Some(Counters(up, down)))
    && FirstUnanswered(h, if w.Unseen? then None else w.sentAt)
  }

  lemma {:induction false} WatchKeeps(raw: string, h: seq<Moment>)
    requires InTime(h)
    ensures Keeps(raw, h, After(raw, h).0)
  {
    if h == [] {
    } else {
      var n := |h| - 1;
      WatchKeeps(raw, h[..n]);
      BeforePrefix(h, n, n);
      assert h[..n] + [h[n]] == h;
      hide FirstUnanswered, InTime;
      var w, v := After(raw, h[..n]).0, After(raw, h).0;
      FirstMoves(h, if w.Unseen? then None else w.sentAt, if v.Unseen? then None else v.sentAt);
    }
  }

  lemma FirstMoves(h: seq<Moment>, was: Option<int>, now: Option<int>)
    requires h != [] && InTime(h) && FirstUnanswered(h[..|h| - 1], was)
    requires var n := |h| - 1;
      now == if Heard(h, n) then None else if was.Some? then was else if Sent(h, n) then Some(h[n].now) else None
    ensures FirstUnanswered(h, now)
  {
    var n := |h| - 1;
    var front := h[..n];
    forall i ensures Unanswered(h, i) <==> !Heard(h, n) && (Unanswered(front, i) || (i == n && Sent(h, n))) { UnansweredStep(h, i); }
    forall i | Unanswered(front, i) ensures 0 <= i < n && front[i].Look? && front[i] == h[i] { assert Sent(front, i); }
    hide Unanswered, Heard, Sent;
    if now.Some? {
      if was.Some? {
        var i :| Unanswered(front, i) && front[i].now == was.value;
        assert Unanswered(h, i);
      } else {
        assert Unanswered(h, n);
      }
    }
  }

  /** What the hints are: alive, bytes came back since the look before; suspect,
      none did and some that left five seconds ago or more are unanswered. */
  lemma HintsMean(raw: string, h: seq<Moment>)
    requires InTime(h) && h != [] && h[|h| - 1].Look?
    ensures var n, hint := |h| - 1, After(raw, h).1;
      && (hint == Alive <==> Heard(h, n))
      && (hint == Suspect <==> exists i :: Unanswered(h, i) && h[n].now - h[i].now >= 5)
  {
    var n := |h| - 1;
    WatchKeeps(raw, h[..n]);
    WatchKeeps(raw, h);
    BeforePrefix(h, n, n);
    forall i ensures Unanswered(h, i) ==> !Heard(h, n) { UnansweredStep(h, i); }
    hide Unanswered;
  }
}
