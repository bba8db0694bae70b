/** What the figures of the connection list are: a plain ledger with one line for
    every connection, kept by what happens to it, beside the two tables, the
    baselines and the flags of vair/core/connlist.go and stats.go. */
module ConnLedger {
  import opened ConnBook
  import opened ConnRuns
  import opened Decimal

  /** Open lines are in the list; away ones were pushed out of it and have not
      ended; ended ones are in the totals; lost ones are in neither. */
  datatype Status = Open | Away | Settled | Lost

  /** A connection: the program and destination it goes under, whether it is
      history since the last clear, and what it has carried since. */
  datatype Line = Line(key: Key, counted: bool, up: int, down: int, status: Status)

  type Ledger = map<int, Line>

  predicate Running(x: Line) { x.status == Open || x.status == Away }

  // ------------------------------------------------------------ keeping it

  function Marked(l: Ledger, id: int, s: Status): Ledger {
    if id in l then l[id := l[id].(status := s)] else l
  }

  /** A connection ends; a line with something to count goes to the totals. */
  function Closed(l: Ledger, id: int, watched: bool): Ledger {
    if id in l && Running(l[id]) then Marked(l, id, if watched || !Counted(l[id]) then Settled else Lost) else l
  }

  predicate Counted(x: Line) { x.counted && x.key.1 != "" }

  /** The totals of one program and destination are forgotten. */
  function Forgotten(l: Ledger, k: Key): Ledger {
    map id | id in l :: if l[id].status == Settled && l[id].key == k then l[id].(status := Lost) else l[id]
  }

  function Grown(l: Ledger, id: int, up: int, down: int): Ledger {
    if id in l && Running(l[id]) then
      var x := l[id];
      l[id := x.(counted := x.counted || up > 0 || down > 0, up := x.up + up, down := x.down + down)]
    else l
  }

  function Renamed(l: Ledger, id: int, key: Key): Ledger {
    if id in l && Running(l[id]) then l[id := l[id].(key := key)] else l
  }

  /** Two lines were one connection: e's goes, r's takes the program known. */
  function Joined(l: Ledger, e: int, r: int, program: string): Ledger {
    if e in l && r in l then
      var named := Renamed(l, r, (program, l[r].key.1));
      if Running(l[e]) then Marked(named, e, Lost) else named
    else l
  }

  /** Settled lines are gone; open ones start again, or leave the list when
      recording is off. */
  function Wiped(l: Ledger, watched: bool): Ledger {
    map id | id in l ::
      var x := l[id];
      match x.status
      case Open => if watched then x.(counted := false, up := 0, down := 0) else x.(status := Away)
      case Settled => x.(status := Lost)
      case _ => x
  }

  /** What one operation does to the ledger; which row makes room and which row
      is joined is read from the book. */
  function Posted(l: Ledger, b: Book, watched: bool, op: Op): Ledger {
    match op
    case Begin(dest, process, _, _, _, _) =>
      if !watched then l
      else
        var out := Evicted(b);
        var roomy := if out.Some? then Marked(l, out.value, Away) else l;
        roomy[b.nextID + 1 := Line((process, dest), true, 0, 0, Open)]
    case End(id, quiet, _) =>
      if id in l && Running(l[id]) && Counted(l[id]) && watched && |b.totals| >= TOTALS_MAX
      then Closed(Forgotten(l, quiet), id, watched)
      else Closed(l, id, watched)
    case Adopt(_) => l
    case Merge(id) =>
      if id in b.rows && Merged(b, id).1.Some? then Joined(l, id, Merged(b, id).1.value, b.rows[id].process) else l
    case Point(id, up, down) => Grown(l, id, up, down)
    case Carry(id, up, down) => Grown(l, id, up, down)
    case Name(id, process, dest) => Renamed(l, id, (process, dest))
    case Clear => Wiped(l, watched)
  }

  function Evicted(b: Book): Option<int> {
    if HasRoom(b.live) then None else Chosen(b.rows, b.live, b.nextID, false)
  }

  // ------------------------------------------------------------ its figures

  function FigureOf(x: Line, f: Figure): int { match f case Count => 1 case Up => x.up case Down => x.down }

  /** What a line adds to what is shown for a program and destination. */
  function Worth(x: Line, k: Key, f: Figure): int {
    if x.key == k && Counted(x) && (x.status == Open || x.status == Settled) then FigureOf(x, f) else 0
  }

  function SettledWorth(x: Line, k: Key, f: Figure): int { if x.status == Settled then Worth(x, k, f) else 0 }

  function WorthAt(l: Ledger, id: int, k: Key, f: Figure): int { if id in l then Worth(l[id], k, f) else 0 }
  function SettledAt(l: Ledger, id: int, k: Key, f: Figure): int { if id in l then SettledWorth(l[id], k, f) else 0 }

  function Sum(l: Ledger, n: nat, k: Key, f: Figure): int {
    if n == 0 then 0 else Sum(l, n - 1, k, f) + WorthAt(l, n, k, f)
  }

  function SettledSum(l: Ledger, n: nat, k: Key, f: Figure): int {
    if n == 0 then 0 else SettledSum(l, n - 1, k, f) + SettledAt(l, n, k, f)
  }

  // ------------------------------------------------------------ book and ledger

  predicate Matches(r: Row, x: Line, live: bool) {
    && (x.status == Open <==> live)
    && (Running(x) <==> !r.closed)
    && (Running(x) ==> x.key == KeyOf(r) && x.counted == Counts(r) && x.up == r.up - r.baseUp && x.down == r.down - r.baseDown)
  }

  ghost predicate LinesMatch(b: Book, l: Ledger) {
    l.Keys == b.rows.Keys && forall id :: id in b.rows && id in l ==> Matches(b.rows[id], l[id], id in b.live)
  }

  ghost predicate TotalsMatch(totals: map<Key, Total>, l: Ledger, n: nat) {
    forall k: Key, f :: InTotals(totals, k, f) == SettledSum(l, n, k, f)
  }

  ghost predicate Books(b: Book, l: Ledger) { LinesMatch(b, l) && TotalsMatch(b.totals, l, b.nextID) }

  lemma LineShown(b: Book, l: Ledger, id: int, k: Key, f: Figure)
    requires LinesMatch(b, l)
    ensures ShareAt(b, id, k, f) + SettledAt(l, id, k, f) == WorthAt(l, id, k, f)
  {
    hide Counts;
    if id in b.rows { assert id in l; }
  }

  lemma {:induction false} SumsShown(b: Book, l: Ledger, n: nat, k: Key, f: Figure)
    requires LinesMatch(b, l)
    ensures LiveSum(b, n, k, f) + SettledSum(l, n, k, f) == Sum(l, n, k, f)
  {
    hide LinesMatch, ShareAt, SettledAt, WorthAt;
    if n == 0 {
    } else {
      SumsShown(b, l, n - 1, k, f);
      LineShown(b, l, n, k, f);
    }
  }

  /** What is shown for a program and destination is what the lines under that
      name add up to. */
  lemma ShownIsSum(b: Book, l: Ledger, k: Key, f: Figure)
    requires Books(b, l)
    ensures Shown(b, k, f) == Sum(l, b.nextID, k, f)
  {
    hide LinesMatch, InTotals, LiveSum, SettledSum, Sum;
    SumsShown(b, l, b.nextID, k, f);
  }

  // ------------------------------------------------------------ sums of ended lines

  lemma {:induction false} SameEnded(l: Ledger, m: Ledger, n: nat, k: Key, f: Figure)
    requires forall id :: 1 <= id <= n ==> SettledAt(m, id, k, f) == SettledAt(l, id, k, f)
    ensures SettledSum(m, n, k, f) == SettledSum(l, n, k, f)
  {
    hide SettledAt;
    if n == 0 {
    } else {
      SameEnded(l, m, n - 1, k, f);
    }
  }

  lemma {:induction false} OneMoreEnded(l: Ledger, m: Ledger, n: nat, id: int, k: Key, f: Figure)
    requires 1 <= id <= n && SettledAt(l, id, k, f) == 0
    requires forall i :: i != id ==> SettledAt(m, i, k, f) == SettledAt(l, i, k, f)
    ensures SettledSum(m, n, k, f) == SettledSum(l, n, k, f) + SettledAt(m, id, k, f)
  {
    hide SettledAt;
    if n == id {
      SameEnded(l, m, n - 1, k, f);
    } else {
      OneMoreEnded(l, m, n - 1, id, k, f);
    }
  }

  lemma {:induction false} NoneEnded(l: Ledger, n: nat, k: Key, f: Figure)
    requires forall id :: 1 <= id <= n ==> SettledAt(l, id, k, f) == 0
    ensures SettledSum(l, n, k, f) == 0
  {
    hide SettledAt;
    if n == 0 {
    } else {
      NoneEnded(l, n - 1, k, f);
    }
  }

  lemma ForgottenSum(l: Ledger, q: Key, n: nat, k: Key, f: Figure)
    ensures SettledSum(Forgotten(l, q), n, k, f) == if k == q then 0 else SettledSum(l, n, k, f)
  {
    forall id ensures SettledAt(Forgotten(l, q), id, k, f) == if k == q then 0 else SettledAt(l, id, k, f) { hide Counted; }
    hide SettledAt, Forgotten, SettledSum;
    if k == q {
      NoneEnded(Forgotten(l, q), n, k, f);
    } else {
      SameEnded(l, Forgotten(l, q), n, k, f);
    }
  }

  // ------------------------------------------------------------ the end of a row

  lemma TotalsAtEnd(totals: map<Key, Total>, r: Row, quiet: Key, now: int, k: Key, f: Figure)
    ensures InTotals(TotalsWith(totals, r, true, quiet, now), k, f) ==
      Part(r, k, f) +
      if r.dest != "" && Counts(r) && |totals| >= TOTALS_MAX && k == quiet then 0 else InTotals(totals, k, f)
  {
    hide Counts;
  }

  lemma LineEnds(l: Ledger, id: int, watched: bool, k: Key, f: Figure)
    requires id in l && Running(l[id])
    ensures SettledAt(l, id, k, f) == 0
    ensures SettledAt(Closed(l, id, watched), id, k, f) ==
      if l[id].key == k && Counted(l[id]) && watched then FigureOf(l[id], f) else 0
    ensures forall i :: i != id ==> SettledAt(Closed(l, id, watched), i, k, f) == SettledAt(l, i, k, f)
  {}

  lemma PartIsFigure(r: Row, x: Line, live: bool, k: Key, f: Figure)
    requires Matches(r, x, live) && Running(x)
    ensures Part(r, k, f) == if x.key == k && Counted(x) then FigureOf(x, f) else 0
    ensures Counted(x) <==> r.dest != "" && Counts(r)
  {
    hide Counts;
  }

  lemma ForgottenKeeps(l: Ledger, q: Key, id: int)
    requires id in l && Running(l[id])
    ensures id in Forgotten(l, q) && Forgotten(l, q)[id] == l[id]
  {}

  lemma EndTotals(b: Book, l: Ledger, id: int, watched: bool, quiet: Key, now: int, k: Key, f: Figure)
    requires Books(b, l) && id in b.rows && id in l && !b.rows[id].closed && 1 <= id <= b.nextID
    ensures InTotals(Ended(b, id, watched, quiet, now).totals, k, f) ==
      SettledSum(Posted(l, b, watched, End(id, quiet, now)), b.nextID, k, f)
  {
    var r, x := b.rows[id], l[id];
    assert Matches(r, x, id in b.live) && InTotals(b.totals, k, f) == SettledSum(l, b.nextID, k, f);
    PartIsFigure(r, x, id in b.live, k, f);
    TotalsAtEnd(b.totals, r, quiet, now, k, f);
    var full := Counted(x) && watched && |b.totals| >= TOTALS_MAX;
    var m := if full then Forgotten(l, quiet) else l;
    ForgottenSum(l, quiet, b.nextID, k, f);
    ForgottenKeeps(l, quiet, id);
    LineEnds(m, id, watched, k, f);
    NotCounted(b.totals, r, watched, quiet, now);
    hide Books, Part, InTotals, TotalsWith, SettledAt, SettledSum, Forgotten, Closed, Counts, Counted, FigureOf;
    OneMoreEnded(m, Closed(m, id, watched), b.nextID, id, k, f);
  }

  lemma NotCounted(totals: map<Key, Total>, r: Row, watched: bool, quiet: Key, now: int)
    ensures !(r.dest != "" && Counts(r) && watched) ==> TotalsWith(totals, r, watched, quiet, now) == totals
  {
    hide Counts;
  }

  // ------------------------------------------------------------ every operation keeps the books

  /** Line id is settled in both, and the same, or in neither. */
  predicate SameSettled(l: Ledger, m: Ledger, id: int) {
    && (id in l && l[id].status == Settled ==> id in m && m[id] == l[id])
    && (id in m && m[id].status == Settled ==> id in l && l[id] == m[id])
  }

  lemma SettledAlike(l: Ledger, m: Ledger, id: int, k: Key, f: Figure)
    requires SameSettled(l, m, id)
    ensures SettledAt(m, id, k, f) == SettledAt(l, id, k, f)
  {}

  lemma TotalsStay(totals: map<Key, Total>, l: Ledger, m: Ledger, n: nat)
    requires TotalsMatch(totals, l, n) && forall id :: SameSettled(l, m, id)
    ensures TotalsMatch(totals, m, n)
  {
    hide SettledAt, SettledSum, InTotals, SameSettled;
    forall k: Key, f ensures InTotals(totals, k, f) == SettledSum(m, n, k, f) {
      forall id ensures SettledAt(m, id, k, f) == SettledAt(l, id, k, f) { SettledAlike(l, m, id, k, f); }
      SameEnded(l, m, n, k, f);
    }
  }

  /** An operation on one running row and its line. */
  lemma OneLineKeeps(b: Book, c: Book, l: Ledger, m: Ledger, id: int)
    requires Books(b, l) && id in b.rows && c.rows.Keys == b.rows.Keys && m.Keys == l.Keys
    requires c.totals == b.totals && c.nextID == b.nextID && c.live == b.live
    requires forall i :: i in b.rows && i != id ==> c.rows[i] == b.rows[i]
    requires forall i :: i in l && i != id ==> m[i] == l[i]
    requires id in c.rows && id in m && Matches(c.rows[id], m[id], id in b.live) && SameSettled(l, m, id)
    ensures Books(c, m)
  {
    hide Matches, TotalsMatch;
    forall i | i in c.rows && i in m ensures Matches(c.rows[i], m[i], i in c.live) {
      assert i in b.rows && i in l;
    }
    TotalsStay(b.totals, l, m, b.nextID);
  }

  lemma LineOf(b: Book, l: Ledger, id: int)
    requires Books(b, l) && id in b.rows
    ensures id in l && Matches(b.rows[id], l[id], id in b.live)
  {
    assert id in b.rows.Keys;
  }

  lemma AdoptPosts(b: Book, l: Ledger, dest: string)
    requires Valid(b) && Books(b, l)
    ensures Books(Adopted(b, dest).0, l)
  {
    var (c, id) := Adopted(b, dest);
    if id.Some? {
      LineOf(b, l, id.value);
      hide Books, Valid, Chosen, Adoptable;
      OneLineKeeps(b, c, l, l, id.value);
    }
  }

  lemma GrowthMatches(r: Row, x: Line, live: bool, up: int, down: int)
    requires Matches(r, x, live) && RowFine(r) && up >= 0 && down >= 0 && Running(x)
    ensures Matches(r.(up := r.up + up, down := r.down + down),
      x.(counted := x.counted || up > 0 || down > 0, up := x.up + up, down := x.down + down), live)
  {}

  lemma CarryPosts(b: Book, l: Ledger, id: int, up: int, down: int)
    requires Valid(b) && Books(b, l) && id in b.rows && up >= 0 && down >= 0
    ensures Books(Carried(b, id, up, down), Grown(l, id, up, down))
  {
    assert RowFine(b.rows[id]);
    LineOf(b, l, id);
    hide Books, Valid, RowFine;
    if Running(l[id]) { GrowthMatches(b.rows[id], l[id], id in b.live, up, down); }
    OneLineKeeps(b, Carried(b, id, up, down), l, Grown(l, id, up, down), id);
  }

  lemma PointIsCarry(b: Book, id: int, up: int, down: int)
    requires id in b.rows && b.rows[id].up == b.rows[id].down == 0
    ensures Pointed(b, id, up, down) == Carried(b, id, up, down)
  {}

  lemma NamePosts(b: Book, l: Ledger, id: int, process: string, dest: string)
    requires Books(b, l) && id in b.rows
    ensures Books(Named(b, id, process, dest), Renamed(l, id, (process, dest)))
  {
    LineOf(b, l, id);
    hide Books, Counts;
    OneLineKeeps(b, Named(b, id, process, dest), l, Renamed(l, id, (process, dest)), id);
  }

  lemma MergePosts(b: Book, l: Ledger, id: int)
    requires Valid(b) && Books(b, l) && id in b.rows && Merged(b, id).1.Some?
    ensures Books(Merged(b, id).0, Joined(l, id, Merged(b, id).1.value, b.rows[id].process))
  {
    var (c, best) := Merged(b, id);
    var r := best.value;
    var m := Joined(l, id, r, b.rows[id].process);
    assert r in Mergeable(b, id) && r in b.rows && r in b.live && r != id && !b.rows[r].closed;
    LineOf(b, l, id);
    LineOf(b, l, r);
    hide Valid, Chosen, Mergeable, Books, Counts;
    var half := b.(rows := b.rows[r := c.rows[r]]);
    var named := Renamed(l, r, (b.rows[id].process, l[r].key.1));
    OneLineKeeps(b, half, l, named, r);
    RowEnds(half, named, c, m, id);
  }

  /** A row that ends uncounted: its line is lost, unless it had ended before. */
  lemma RowEnds(b: Book, l: Ledger, c: Book, m: Ledger, id: int)
    requires Books(b, l) && id in b.rows && id in l
    requires c == b.(rows := b.rows[id := b.rows[id].(closed := true)], live := b.live - {id})
    requires m == if Running(l[id]) then Marked(l, id, Lost) else l
    ensures Books(c, m)
  {
    LineOf(b, l, id);
    hide TotalsMatch, Counts;
    forall i | i in c.rows && i in m ensures Matches(c.rows[i], m[i], i in c.live) {
      LineOf(b, l, i);
    }
    forall i ensures SameSettled(l, m, i) {}
    hide Matches, SameSettled;
    TotalsStay(b.totals, l, m, b.nextID);
  }

  lemma ClearPosts(b: Book, l: Ledger, watched: bool)
    requires Books(b, l)
    ensures Books(Cleared(b, watched), Wiped(l, watched))
  {
    var c, m := Cleared(b, watched), Wiped(l, watched);
    forall i | i in c.rows && i in m ensures Matches(c.rows[i], m[i], i in c.live) { LineOf(b, l, i); }
    forall i, k: Key, f ensures SettledAt(m, i, k, f) == 0 { hide Counted; }
    hide Matches, SettledAt;
    forall k: Key, f ensures InTotals(c.totals, k, f) == SettledSum(m, c.nextID, k, f) { NoneEnded(m, c.nextID, k, f); }
    hide SettledSum;
  }

  lemma EndLines(b: Book, l: Ledger, id: int, watched: bool, quiet: Key, now: int)
    requires Books(b, l) && id in b.rows && !b.rows[id].closed
    ensures LinesMatch(Ended(b, id, watched, quiet, now), Posted(l, b, watched, End(id, quiet, now)))
  {
    hide TotalsMatch, TotalsWith, Counted, Counts;
    LineOf(b, l, id);
    var c, m := Ended(b, id, watched, quiet, now), Posted(l, b, watched, End(id, quiet, now));
    assert m.Keys == l.Keys;
    forall i | i in c.rows && i in m ensures Matches(c.rows[i], m[i], i in c.live) { LineOf(b, l, i); }
  }

  lemma EndPosts(b: Book, l: Ledger, id: int, watched: bool, quiet: Key, now: int)
    requires Valid(b) && Books(b, l)
    ensures Books(Ended(b, id, watched, quiet, now), Posted(l, b, watched, End(id, quiet, now)))
  {
    if id in b.rows && !b.rows[id].closed {
      assert 1 <= id <= b.nextID;
      LineOf(b, l, id);
      var c, m := Ended(b, id, watched, quiet, now), Posted(l, b, watched, End(id, quiet, now));
      assert c.nextID == b.nextID;
      hide Valid, LinesMatch, Ended, Posted, SettledSum, InTotals;
      EndLines(b, l, id, watched, quiet, now);
      forall k: Key, f ensures InTotals(c.totals, k, f) == SettledSum(m, c.nextID, k, f) {
        EndTotals(b, l, id, watched, quiet, now, k, f);
      }
    } else {
      NothingEnds(b, l, id, watched, quiet, now);
    }
  }

  lemma NothingEnds(b: Book, l: Ledger, id: int, watched: bool, quiet: Key, now: int)
    requires Books(b, l) && (id !in b.rows || b.rows[id].closed)
    ensures Ended(b, id, watched, quiet, now) == b && Posted(l, b, watched, End(id, quiet, now)) == l
  {
    hide TotalsMatch;
    if id in b.rows { LineOf(b, l, id); }
  }

  lemma RoomByEviction(b: Book)
    ensures var c, out := MadeRoom(b), Evicted(b);
      && c.rows == b.rows && c.totals == b.totals && c.nextID == b.nextID
      && c.live == (if out.Some? then b.live - {out.value} else b.live) && (out.Some? ==> out.value in b.live)
  {
    hide Chosen, HasRoom;
  }

  /** A row pushed out of the list: its line is away. */
  lemma PushedOutPosts(b: Book, l: Ledger, id: int)
    requires Valid(b) && Books(b, l) && id in b.live
    ensures Books(b.(live := b.live - {id}), Marked(l, id, Away))
  {
    assert id in b.rows && !b.rows[id].closed;
    LineOf(b, l, id);
    hide Valid, TotalsMatch, Counts;
    var c, m := b.(live := b.live - {id}), Marked(l, id, Away);
    forall i | i in c.rows && i in m ensures Matches(c.rows[i], m[i], i in c.live) { LineOf(b, l, i); }
    forall i ensures SameSettled(l, m, i) {}
    hide Matches, SameSettled;
    TotalsStay(b.totals, l, m, b.nextID);
  }

  lemma NewLineKeeps(b: Book, l: Ledger, r: Row, x: Line)
    requires Books(b, l) && b.nextID + 1 !in b.rows && b.nextID + 1 !in b.live && Matches(r, x, true)
    ensures var n := b.nextID + 1; Books(Book(b.rows[n := r], b.live + {n}, n, b.totals), l[n := x])
  {
    var n := b.nextID + 1;
    var c, m := Book(b.rows[n := r], b.live + {n}, n, b.totals), l[n := x];
    assert n !in l by { assert n !in b.rows.Keys; }
    forall i | i in c.rows && i in m ensures Matches(c.rows[i], m[i], i in c.live) {
      if i != n { LineOf(b, l, i); }
    }
    forall k: Key, f ensures SettledAt(m, n, k, f) == 0 {}
    forall i ensures SameSettled(l, m, i) {}
    hide Matches, SameSettled, SettledAt;
    TotalsStay(b.totals, l, m, b.nextID);
    hide InTotals;
    assert TotalsMatch(b.totals, m, n);
  }

  lemma BeginPosts(b: Book, l: Ledger, dest: string, process: string, via: string, rule: string, exact: bool, now: int)
    requires Valid(b) && Books(b, l)
    ensures Books(Begun(b, dest, process, via, rule, exact, now), Posted(l, b, true, Begin(dest, process, via, rule, exact, now)))
  {
    hide Books, Valid, HasRoom, Chosen, MadeRoom, Evicted;
    RoomByEviction(b);
    NextIsNew(b);
    var c, out := MadeRoom(b), Evicted(b);
    if out.Some? { PushedOutPosts(b, l, out.value); }
    var roomy := if out.Some? then Marked(l, out.value, Away) else l;
    assert c == (if out.Some? then b.(live := b.live - {out.value}) else b);
    NewLineKeeps(c, roomy, NewRow(dest, process, via, rule, exact, now), Line((process, dest), true, 0, 0, Open));
  }

  lemma PostsKeepBooks(b: Book, l: Ledger, watched: bool, op: Op)
    requires Valid(b) && Books(b, l) && Enabled(b, op)
    ensures Books(Done(b, watched, op), Posted(l, b, watched, op))
  {
    hide Valid, Books, Merged, Adopted, Begun, Ended, Evicted, Cleared, Wiped, HasRoom;
    match op
    case Begin(dest, process, via, rule, exact, now) =>
      if watched { BeginPosts(b, l, dest, process, via, rule, exact, now); }
    case End(id, quiet, now) => EndPosts(b, l, id, watched, quiet, now);
    case Adopt(dest) =>
      if watched { AdoptPosts(b, l, dest); }
    case Merge(id) =>
      if Merged(b, id).1.Some? { MergePosts(b, l, id); } else { UnmergedStays(b, id); }
    case Point(id, up, down) =>
      PointIsCarry(b, id, up, down);
      CarryPosts(b, l, id, up, down);
    case Carry(id, up, down) => CarryPosts(b, l, id, up, down);
    case Name(id, process, dest) => NamePosts(b, l, id, process, dest);
    case Clear => ClearPosts(b, l, watched);
  }

  lemma UnmergedStays(b: Book, id: int)
    requires id in b.rows && Merged(b, id).1.None?
    ensures Merged(b, id).0 == b
  {
    hide Chosen;
  }

  // ------------------------------------------------------------ over every run

  function LedgerAfter(b: Book, l: Ledger, ms: seq<Moment>): Ledger {
    if ms == [] then l
    else
      var front, last := ms[..|ms| - 1], ms[|ms| - 1];
      Posted(LedgerAfter(b, l, front), After(b, front), last.watched, last.op)
  }

  lemma {:induction false} RunsKeepBooks(b: Book, l: Ledger, ms: seq<Moment>)
    requires Valid(b) && Books(b, l) && Possible(b, ms)
    ensures Valid(After(b, ms)) && Books(After(b, ms), LedgerAfter(b, l, ms))
  {
    hide Valid, Books, Enabled, Done, Posted;
    if ms == [] {
    } else {
      var front, last := ms[..|ms| - 1], ms[|ms| - 1];
      RunsKeepBooks(b, l, front);
      DoneKeeps(After(b, front), last.watched, last.op);
      PostsKeepBooks(After(b, front), LedgerAfter(b, l, front), last.watched, last.op);
    }
  }

  lemma EmptyBooks()
    ensures Valid(EMPTY) && Books(EMPTY, map[])
  {}

  /** Over every run whatever, with recording switched on and off, both tables
      overflowing, rows taken over, joined, renamed and cleared: the figures of
      ConnectionTotals are those of the ledger. */
  lemma ShownIsLedger(ms: seq<Moment>, k: Key, f: Figure)
    requires Possible(EMPTY, ms)
    ensures Shown(After(EMPTY, ms), k, f) == Sum(LedgerAfter(EMPTY, map[], ms), After(EMPTY, ms).nextID, k, f)
  {
    hide Valid, Books, Shown, Sum, Possible;
    EmptyBooks();
    RunsKeepBooks(EMPTY, map[], ms);
    ShownIsSum(After(EMPTY, ms), LedgerAfter(EMPTY, map[], ms), k, f);
  }

  // ------------------------------------------------------------ one connection, one line

  /** What all lines hold that are not lost, under whatever name. */
  function HeldBy(x: Line, f: Figure): int { if x.status != Lost && x.counted then FigureOf(x, f) else 0 }

  function HeldAt(l: Ledger, id: int, f: Figure): int { if id in l then HeldBy(l[id], f) else 0 }

  function Held(l: Ledger, n: nat, f: Figure): int {
    if n == 0 then 0 else Held(l, n - 1, f) + HeldAt(l, n, f)
  }

  /** Recording is on, nothing is cleared and no total has to be forgotten. */
  predicate Calm(b: Book, m: Moment) {
    m.watched && !m.op.Clear? && (m.op.End? ==> |b.totals| < TOTALS_MAX)
  }

  /** Bytes reach a connection that has not ended. */
  function Received(b: Book, op: Op, id: int, f: Figure): int {
    match op
    case Point(i, up, down) => if i == id && i in b.rows && !b.rows[i].closed then Bytes(up, down, f) else 0
    case Carry(i, up, down) => if i == id && i in b.rows && !b.rows[i].closed then Bytes(up, down, f) else 0
    case _ => 0
  }

  /** A row of the engine's is joined to the relay's before it has ended. */
  predicate Joins(b: Book, op: Op) {
    op.Merge? && op.id in b.rows && !b.rows[op.id].closed && Merged(b, op.id).1.Some?
  }

  /** What an operation brings all lines together: a connection begun, less one
      joined to another, and the bytes carried. */
  function Gain(b: Book, op: Op, f: Figure): int {
    match op
    case Begin(_, _, _, _, _, _) => if f == Count then 1 else 0
    case Merge(_) => if f == Count && Joins(b, op) then -1 else 0
    case Point(id, _, _) => Received(b, op, id, f)
    case Carry(id, _, _) => Received(b, op, id, f)
    case _ => 0
  }

  ghost predicate AllCounted(l: Ledger) { forall id :: id in l ==> l[id].counted }

  lemma {:induction false} SameHeld(l: Ledger, m: Ledger, n: nat, f: Figure)
    requires forall id :: 1 <= id <= n ==> HeldAt(m, id, f) == HeldAt(l, id, f)
    ensures Held(m, n, f) == Held(l, n, f)
  {
    hide HeldAt;
    if n == 0 {
    } else {
      SameHeld(l, m, n - 1, f);
    }
  }

  lemma {:induction false} OneHeld(l: Ledger, m: Ledger, n: nat, id: int, f: Figure)
    requires 1 <= id <= n && forall i :: i != id ==> HeldAt(m, i, f) == HeldAt(l, i, f)
    ensures Held(m, n, f) == Held(l, n, f) + HeldAt(m, id, f) - HeldAt(l, id, f)
  {
    hide HeldAt;
    if n == id {
      SameHeld(l, m, n - 1, f);
    } else {
      OneHeld(l, m, n - 1, id, f);
    }
  }

  lemma BeginHeld(b: Book, l: Ledger, op: Op, f: Figure)
    requires Valid(b) && Books(b, l) && op.Begin?
    ensures Held(Posted(l, b, true, op), b.nextID + 1, f) == Held(l, b.nextID, f) + if f == Count then 1 else 0
  {
    NextIsNew(b);
    var n, m := b.nextID + 1, Posted(l, b, true, op);
    assert n !in l by { assert n !in b.rows.Keys; }
    RoomByEviction(b);
    if Evicted(b).Some? { LiveLine(b, l, Evicted(b).value); }
    hide Valid, Books, Evicted;
    forall i ensures i != n ==> HeldAt(m, i, f) == HeldAt(l, i, f) {}
    hide HeldAt;
    SameHeld(l, m, b.nextID, f);
  }

  lemma LiveLine(b: Book, l: Ledger, id: int)
    requires Valid(b) && Books(b, l) && id in b.live
    ensures id in l && l[id].status == Open
  {
    assert id in b.rows;
    LineOf(b, l, id);
  }

  lemma EndHeld(b: Book, l: Ledger, op: Op, f: Figure)
    requires op.End? && |b.totals| < TOTALS_MAX
    ensures Held(Posted(l, b, true, op), b.nextID, f) == Held(l, b.nextID, f)
  {
    var m := Posted(l, b, true, op);
    forall i ensures HeldAt(m, i, f) == HeldAt(l, i, f) {}
    hide HeldAt, Posted;
    SameHeld(l, m, b.nextID, f);
  }

  lemma NameHeld(l: Ledger, n: nat, id: int, key: Key, f: Figure)
    ensures Held(Renamed(l, id, key), n, f) == Held(l, n, f)
  {
    var m := Renamed(l, id, key);
    forall i ensures HeldAt(m, i, f) == HeldAt(l, i, f) {}
    hide HeldAt, Renamed;
    SameHeld(l, m, n, f);
  }

  lemma CarryHeld(b: Book, l: Ledger, id: int, up: int, down: int, f: Figure)
    requires Valid(b) && Books(b, l) && AllCounted(l) && id in b.rows
    ensures Held(Grown(l, id, up, down), b.nextID, f) ==
      Held(l, b.nextID, f) + if b.rows[id].closed then 0 else Bytes(up, down, f)
  {
    assert 1 <= id <= b.nextID;
    LineOf(b, l, id);
    hide Valid, Books, Counts;
    OneHeld(l, Grown(l, id, up, down), b.nextID, id, f);
  }

  lemma MergeHeld(b: Book, l: Ledger, id: int, f: Figure)
    requires Valid(b) && Books(b, l) && AllCounted(l) && id in b.rows && !b.rows[id].exact && Merged(b, id).1.Some?
    ensures Held(Joined(l, id, Merged(b, id).1.value, b.rows[id].process), b.nextID, f) ==
      Held(l, b.nextID, f) - if !b.rows[id].closed && f == Count then 1 else 0
  {
    var r := Merged(b, id).1.value;
    assert r in Mergeable(b, id) && r in b.rows && r != id && 1 <= id <= b.nextID;
    LineOf(b, l, id);
    LineOf(b, l, r);
    EngineLine(b, l, id);
    hide Valid, Books, Merged, Counts;
    var named := Renamed(l, r, (b.rows[id].process, l[r].key.1));
    NameHeld(l, b.nextID, r, (b.rows[id].process, l[r].key.1), f);
    assert named[id] == l[id];
    hide Renamed;
    if Running(l[id]) { OneHeld(named, Marked(named, id, Lost), b.nextID, id, f); }
  }

  /** A row only the engine sees has no bytes, and neither has its line. */
  lemma EngineLine(b: Book, l: Ledger, id: int)
    requires Valid(b) && Books(b, l) && id in b.rows && !b.rows[id].exact && id in l
    ensures Running(l[id]) ==> l[id].up == l[id].down == 0
  {
    LineOf(b, l, id);
    assert RowFine(b.rows[id]);
  }

  lemma HeldMovesByTraffic(b: Book, l: Ledger, op: Op, f: Figure)
    requires Valid(b) && Books(b, l) && Enabled(b, op) && AllCounted(l) && (op.Point? || op.Carry? || op.Merge?)
    ensures Held(Posted(l, b, true, op), b.nextID, f) == Held(l, b.nextID, f) + Gain(b, op, f)
  {
    hide Valid, Books, AllCounted, Merged, Grown, Joined, Held, Bytes, HasRoom;
    match op
    case Merge(id) =>
      if Merged(b, id).1.Some? { MergeHeld(b, l, id, f); }
    case Point(id, up, down) => CarryHeld(b, l, id, up, down, f);
    case Carry(id, up, down) => CarryHeld(b, l, id, up, down, f);
    case _ =>
  }

  lemma HeldMoves(b: Book, l: Ledger, m: Moment, f: Figure)
    requires Valid(b) && Books(b, l) && Enabled(b, m.op) && Calm(b, m) && AllCounted(l)
    ensures Held(Posted(l, b, true, m.op), Done(b, true, m.op).nextID, f) == Held(l, b.nextID, f) + Gain(b, m.op, f)
  {
    hide Valid, Books, AllCounted, Enabled, Done, Posted, Held, Joins, Received;
    match m.op
    case Begin(_, _, _, _, _, _) =>
      BeginHeld(b, l, m.op, f);
      NewCount(b, m.op);
    case End(_, _, _) =>
      EndHeld(b, l, m.op, f);
      SameCount(b, m.op);
    case Adopt(dest) =>
      SameCount(b, m.op);
      NothingPosted(b, l, m.op);
    case Name(id, process, dest) =>
      SameCount(b, m.op);
      NameHeld(l, b.nextID, id, (process, dest), f);
      NamePosted(b, l, m.op);
    case _ =>
      SameCount(b, m.op);
      HeldMovesByTraffic(b, l, m.op, f);
  }

  lemma NothingPosted(b: Book, l: Ledger, op: Op)
    requires op.Adopt?
    ensures Posted(l, b, true, op) == l
  {}

  lemma NamePosted(b: Book, l: Ledger, op: Op)
    requires op.Name?
    ensures Posted(l, b, true, op) == Renamed(l, op.id, (op.process, op.dest))
  {}

  lemma NewCount(b: Book, op: Op)
    requires op.Begin?
    ensures Done(b, true, op).nextID == b.nextID + 1
  {
    hide Chosen, MadeRoom;
  }

  lemma SameCount(b: Book, op: Op)
    requires !op.Begin?
    ensures Done(b, true, op).nextID == b.nextID
  {
    hide Chosen;
  }

  lemma StillCounted(b: Book, l: Ledger, op: Op)
    requires AllCounted(l) && !op.Clear?
    ensures AllCounted(Posted(l, b, true, op))
  {
    hide Merged, Evicted;
  }

  lemma CalmIsWatched(b: Book, m: Moment)
    requires Calm(b, m)
    ensures m.watched && !m.op.Clear?
  {}

  ghost predicate CalmRun(b: Book, ms: seq<Moment>) {
    ms == [] || (CalmRun(b, ms[..|ms| - 1]) && Calm(After(b, ms[..|ms| - 1]), ms[|ms| - 1]))
  }

  /** What a run brings, summed over its operations. */
  function Gains(b: Book, ms: seq<Moment>, f: Figure): int {
    if ms == [] then 0
    else
      var front := ms[..|ms| - 1];
      Gains(b, front, f) + Gain(After(b, front), ms[|ms| - 1].op, f)
  }

  lemma {:induction false} HeldIsGained(b: Book, l: Ledger, ms: seq<Moment>, f: Figure)
    requires Valid(b) && Books(b, l) && AllCounted(l) && Possible(b, ms) && CalmRun(b, ms)
    ensures Held(LedgerAfter(b, l, ms), After(b, ms).nextID, f) == Held(l, b.nextID, f) + Gains(b, ms, f)
    ensures AllCounted(LedgerAfter(b, l, ms))
  {
    hide Valid, Books, Enabled, Done, Posted, AllCounted, Held, Gain;
    if ms == [] {
    } else {
      var front, last := ms[..|ms| - 1], ms[|ms| - 1];
      HeldIsGained(b, l, front, f);
      RunsKeepBooks(b, l, front);
      HeldMoves(After(b, front), LedgerAfter(b, l, front), last, f);
      CalmIsWatched(After(b, front), last);
      StillCounted(After(b, front), LedgerAfter(b, l, front), last.op);
    }
  }

  /** Every connection is one line, however many watchers saw it and whatever
      happened in between: over a run from the start the lines are the
      connections begun less those joined to another, and their bytes are all the
      bytes that reached a connection. Being taken over by the relay, and a second
      end, bring nothing. */
  lemma CountedOnce(ms: seq<Moment>, f: Figure)
    requires Possible(EMPTY, ms) && CalmRun(EMPTY, ms)
    ensures Held(LedgerAfter(EMPTY, map[], ms), After(EMPTY, ms).nextID, f) == Gains(EMPTY, ms, f)
  {
    hide Valid, Books, Possible, CalmRun, Gains, LedgerAfter, After;
    EmptyBooks();
    HeldIsGained(EMPTY, map[], ms, f);
  }

  // ------------------------------------------------------------ everything shown

  /** What is shown for the programs and destinations of a list together. */
  function ShownOver(b: Book, ks: seq<Key>, f: Figure): int {
    if ks == [] then 0 else ShownOver(b, ks[..|ks| - 1], f) + Shown(b, ks[|ks| - 1], f)
  }

  function SumOver(l: Ledger, n: nat, ks: seq<Key>, f: Figure): int {
    if ks == [] then 0 else SumOver(l, n, ks[..|ks| - 1], f) + Sum(l, n, ks[|ks| - 1], f)
  }

  function WorthOver(l: Ledger, id: int, ks: seq<Key>, f: Figure): int {
    if ks == [] then 0 else WorthOver(l, id, ks[..|ks| - 1], f) + WorthAt(l, id, ks[|ks| - 1], f)
  }

  /** What a line holds that no program and destination shows: it was pushed out
      of the list, or has no destination yet. */
  function UnshownAt(l: Ledger, id: int, f: Figure): int {
    if id in l && (l[id].status == Away || l[id].key.1 == "") then HeldAt(l, id, f) else 0
  }

  function Unshown(l: Ledger, n: nat, f: Figure): int {
    if n == 0 then 0 else Unshown(l, n - 1, f) + UnshownAt(l, n, f)
  }

  /** The list names every program and destination that has a line, and none
      twice. */
  predicate Lists(ks: seq<Key>, l: Ledger) {
    && (forall i, j :: 0 <= i < j < |ks| ==> ks[i] != ks[j])
    && forall id :: id in l ==> l[id].key in ks
  }

  lemma {:induction false} ShownOverIsSum(b: Book, l: Ledger, ks: seq<Key>, f: Figure)
    requires Books(b, l)
    ensures ShownOver(b, ks, f) == SumOver(l, b.nextID, ks, f)
  {
    hide Books, Shown, Sum;
    if ks == [] {
    } else {
      ShownOverIsSum(b, l, ks[..|ks| - 1], f);
      ShownIsSum(b, l, ks[|ks| - 1], f);
    }
  }

  lemma {:induction false} OneLineMore(l: Ledger, n: nat, ks: seq<Key>, f: Figure)
    requires n > 0
    ensures SumOver(l, n, ks, f) == SumOver(l, n - 1, ks, f) + WorthOver(l, n, ks, f)
  {
    hide WorthAt;
    if ks == [] {
    } else {
      OneLineMore(l, n, ks[..|ks| - 1], f);
    }
  }

  lemma {:induction false} NoLines(l: Ledger, ks: seq<Key>, f: Figure)
    ensures SumOver(l, 0, ks, f) == 0
  {
    if ks == [] {
    } else {
      NoLines(l, ks[..|ks| - 1], f);
    }
  }

  lemma {:induction false} LineUnderItsKey(l: Ledger, id: int, ks: seq<Key>, f: Figure)
    requires forall i, j :: 0 <= i < j < |ks| ==> ks[i] != ks[j]
    ensures WorthOver(l, id, ks, f) == if id in l && l[id].key in ks then Worth(l[id], l[id].key, f) else 0
  {
    if ks == [] {
    } else {
      var front, k := ks[..|ks| - 1], ks[|ks| - 1];
      LineUnderItsKey(l, id, front, f);
      assert ks == front + [k];
      hide FigureOf, Counted;
    }
  }

  lemma {:induction false} ShownAndUnshown(l: Ledger, n: nat, ks: seq<Key>, f: Figure)
    requires Lists(ks, l)
    ensures SumOver(l, n, ks, f) + Unshown(l, n, f) == Held(l, n, f)
  {
    hide SumOver, UnshownAt, HeldAt;
    if n == 0 {
      NoLines(l, ks, f);
    } else {
      ShownAndUnshown(l, n - 1, ks, f);
      OneLineMore(l, n, ks, f);
      LineUnderItsKey(l, n, ks, f);
      LineShownOrNot(l, n, f);
    }
  }

  lemma LineShownOrNot(l: Ledger, id: int, f: Figure)
    ensures (if id in l then Worth(l[id], l[id].key, f) else 0) + UnshownAt(l, id, f) == HeldAt(l, id, f)
  {}

  /** The same of what is displayed: over such a run the figures shown for all
      programs and destinations together, with those of connections pushed out of
      the list or without a destination, are the connections begun less those
      joined, and the bytes that reached one. */
  lemma AllShownIsGained(ms: seq<Moment>, ks: seq<Key>, f: Figure)
    requires Possible(EMPTY, ms) && CalmRun(EMPTY, ms) && Lists(ks, LedgerAfter(EMPTY, map[], ms))
    ensures var b, l := After(EMPTY, ms), LedgerAfter(EMPTY, map[], ms);
      ShownOver(b, ks, f) + Unshown(l, b.nextID, f) == Gains(EMPTY, ms, f)
  {
    hide Valid, Books, Possible, CalmRun, Gains, LedgerAfter, After, Lists, ShownOver, SumOver, Unshown, Held;
    EmptyBooks();
    RunsKeepBooks(EMPTY, map[], ms);
    CountedOnce(ms, f);
    var b, l := After(EMPTY, ms), LedgerAfter(EMPTY, map[], ms);
    ShownOverIsSum(b, l, ks, f);
    ShownAndUnshown(l, b.nextID, ks, f);
  }

  /** A joined row stays lost: its own end brings nothing. */
  lemma MergedEndIsNothing(b: Book, id: int, watched: bool, quiet: Key, now: int)
    requires Valid(b) && id in b.rows && Merged(b, id).1.Some?
    ensures var c := Merged(b, id).0; Ended(c, id, watched, quiet, now) == c
  {
    var r := Merged(b, id).1.value;
    assert r in Mergeable(b, id) && r != id;
    hide Valid, Mergeable, Chosen;
  }

  // ------------------------------------------------------------ bytes, row by row

  function CarriedBy(b: Book, ms: seq<Moment>, id: int, f: Figure): int {
    if ms == [] then 0
    else
      var front := ms[..|ms| - 1];
      CarriedBy(b, front, id, f) + Received(After(b, front), ms[|ms| - 1].op, id, f)
  }

  function AmountAt(l: Ledger, id: int, f: Figure): int { if id in l then Bytes(l[id].up, l[id].down, f) else 0 }

  lemma AmountMoves(b: Book, l: Ledger, watched: bool, op: Op, id: int, f: Figure)
    requires Valid(b) && Books(b, l) && !op.Clear?
    ensures AmountAt(Posted(l, b, watched, op), id, f) == AmountAt(l, id, f) + Received(b, op, id, f)
  {
    hide Valid, Books, Posted, Received, AmountAt, Running;
    if id in b.rows { LineOf(b, l, id); }
    KnownRow(b, l, id);
    match op
    case Begin(_, _, _, _, _, _) => AmountBegins(b, l, watched, op, id, f);
    case End(_, _, _) => AmountEnds(b, l, watched, op, id, f);
    case Point(_, _, _) => AmountGrows(b, l, watched, op, id, f);
    case Carry(_, _, _) => AmountGrows(b, l, watched, op, id, f);
    case _ => AmountStays(b, l, watched, op, id, f);
  }

  lemma AmountBegins(b: Book, l: Ledger, watched: bool, op: Op, id: int, f: Figure)
    requires op.Begin? && b.nextID + 1 !in l
    ensures AmountAt(Posted(l, b, watched, op), id, f) == AmountAt(l, id, f) + Received(b, op, id, f)
  {
    hide Evicted;
  }

  lemma AmountEnds(b: Book, l: Ledger, watched: bool, op: Op, id: int, f: Figure)
    requires op.End?
    ensures AmountAt(Posted(l, b, watched, op), id, f) == AmountAt(l, id, f) + Received(b, op, id, f)
  {
    hide Counted;
  }

  lemma AmountGrows(b: Book, l: Ledger, watched: bool, op: Op, id: int, f: Figure)
    requires op.Point? || op.Carry?
    requires id in l <==> id in b.rows
    requires id in b.rows ==> Running(l[id]) == !b.rows[id].closed
    ensures AmountAt(Posted(l, b, watched, op), id, f) == AmountAt(l, id, f) + Received(b, op, id, f)
  {}

  lemma AmountStays(b: Book, l: Ledger, watched: bool, op: Op, id: int, f: Figure)
    requires op.Adopt? || op.Merge? || op.Name?
    ensures AmountAt(Posted(l, b, watched, op), id, f) == AmountAt(l, id, f) + Received(b, op, id, f)
  {
    hide Merged;
  }

  lemma KnownRow(b: Book, l: Ledger, id: int)
    requires Valid(b) && Books(b, l)
    ensures id in l <==> id in b.rows
    ensures b.nextID + 1 !in l
  {
    assert id in l.Keys <==> id in b.rows.Keys;
    assert b.nextID + 1 !in b.rows.Keys;
  }

  ghost predicate NoClear(ms: seq<Moment>) { forall i :: 0 <= i < |ms| ==> !ms[i].op.Clear? }

  lemma {:induction false} AmountIsCarried(b: Book, l: Ledger, ms: seq<Moment>, id: int, f: Figure)
    requires Valid(b) && Books(b, l) && Possible(b, ms) && NoClear(ms)
    ensures AmountAt(LedgerAfter(b, l, ms), id, f) == AmountAt(l, id, f) + CarriedBy(b, ms, id, f)
  {
    hide Valid, Books, Enabled, Done, Posted, AmountAt, Received;
    if ms == [] {
    } else {
      var front, last := ms[..|ms| - 1], ms[|ms| - 1];
      AmountIsCarried(b, l, front, id, f);
      RunsKeepBooks(b, l, front);
      AmountMoves(After(b, front), LedgerAfter(b, l, front), last.watched, last.op, id, f);
    }
  }

  /** A line that is no history has carried nothing. */
  ghost predicate Tidy(l: Ledger) {
    forall id :: id in l ==> l[id].up >= 0 && l[id].down >= 0 && (!l[id].counted ==> l[id].up == l[id].down == 0)
  }

  lemma StillTidy(b: Book, l: Ledger, watched: bool, op: Op)
    requires Tidy(l) && Enabled(b, op)
    ensures Tidy(Posted(l, b, watched, op))
  {
    hide Merged, Evicted, Counted, HasRoom;
  }

  lemma {:induction false} RunsStayTidy(b: Book, l: Ledger, ms: seq<Moment>)
    requires Tidy(l) && Possible(b, ms)
    ensures Tidy(LedgerAfter(b, l, ms))
  {
    hide Tidy, Enabled, Posted;
    if ms == [] {
    } else {
      var front, last := ms[..|ms| - 1], ms[|ms| - 1];
      RunsStayTidy(b, l, front);
      StillTidy(After(b, front), LedgerAfter(b, l, front), last.watched, last.op);
    }
  }

  /** The name a connection goes under: the one it has, or had at its end. */
  predicate GoesUnder(l: Ledger, id: int, k: Key) {
    id in l && l[id].key == k && k.1 != "" && (l[id].status == Open || l[id].status == Settled)
  }

  /** What the connections under a name had from the start and have carried
      since. */
  function CarriedUnder(l: Ledger, b0: Book, l0: Ledger, ms: seq<Moment>, n: nat, k: Key, f: Figure): int {
    if n == 0 then 0
    else
      CarriedUnder(l, b0, l0, ms, n - 1, k, f) +
      if GoesUnder(l, n, k) then AmountAt(l0, n, f) + CarriedBy(b0, ms, n, f) else 0
  }

  lemma WorthIsAmount(l: Ledger, id: int, k: Key, f: Figure)
    requires Tidy(l) && f != Count
    ensures WorthAt(l, id, k, f) == if GoesUnder(l, id, k) then AmountAt(l, id, f) else 0
  {}

  lemma {:induction false} SumIsCarried(b0: Book, l0: Ledger, ms: seq<Moment>, n: nat, k: Key, f: Figure)
    requires Valid(b0) && Books(b0, l0) && Tidy(l0) && Possible(b0, ms) && NoClear(ms) && f != Count
    ensures var l := LedgerAfter(b0, l0, ms); Sum(l, n, k, f) == CarriedUnder(l, b0, l0, ms, n, k, f)
  {
    hide Valid, Books, Tidy, Possible, NoClear, LedgerAfter, WorthAt, GoesUnder, AmountAt, CarriedBy;
    if n == 0 {
    } else {
      SumIsCarried(b0, l0, ms, n - 1, k, f);
      RunsStayTidy(b0, l0, ms);
      WorthIsAmount(LedgerAfter(b0, l0, ms), n, k, f);
      AmountIsCarried(b0, l0, ms, n, f);
    }
  }

  /** What a clear leaves of a line: nothing of an open one, all of one that was
      pushed out of the list before. */
  lemma LeftByClear(l: Ledger, id: int, f: Figure)
    requires id in l
    ensures (l[id].status == Open ==> AmountAt(Wiped(l, true), id, f) == 0)
      && (l[id].status == Away ==> Wiped(l, true)[id] == l[id])
      && (!Running(l[id]) ==> Wiped(l, true)[id].status == Lost)
  {}

  /** After a clear with recording on, at the end of any run, the bytes shown for
      a program and destination are, row by row, what the connections under that
      name have carried since: under the name each has now, or had at its end. A
      row that had been pushed out of the list before the clear brings what it
      had. */
  lemma BytesSinceClear(before: seq<Moment>, ms: seq<Moment>, k: Key, f: Figure)
    requires Possible(EMPTY, before) && f != Count && NoClear(ms)
    requires Possible(Cleared(After(EMPTY, before), true), ms)
    ensures var b := Cleared(After(EMPTY, before), true);
      var l := Wiped(LedgerAfter(EMPTY, map[], before), true);
      Shown(After(b, ms), k, f) == CarriedUnder(LedgerAfter(b, l, ms), b, l, ms, After(b, ms).nextID, k, f)
  {
    hide Valid, Books, Tidy, Possible, NoClear, LedgerAfter, After, Cleared, Wiped, Shown, Sum, CarriedUnder;
    EmptyBooks();
    RunsKeepBooks(EMPTY, map[], before);
    EmptyIsTidy();
    RunsStayTidy(EMPTY, map[], before);
    var b0, l0 := After(EMPTY, before), LedgerAfter(EMPTY, map[], before);
    ClearKeeps(b0, true);
    ClearPosts(b0, l0, true);
    ClearTidies(l0);
    var b, l := Cleared(b0, true), Wiped(l0, true);
    RunsKeepBooks(b, l, ms);
    ShownIsSum(After(b, ms), LedgerAfter(b, l, ms), k, f);
    SumIsCarried(b, l, ms, After(b, ms).nextID, k, f);
  }

  lemma EmptyIsTidy()
    ensures Tidy(map[])
  {}

  lemma ClearTidies(l: Ledger)
    requires Tidy(l)
    ensures Tidy(Wiped(l, true))
  {}
}
