/** The accounting of connections: the live rows, which two watchers may own,
    and the totals they are folded into (vair/core/connlist.go, and the relay's
    side of it in vair/core/stats.go). Rows are known by their ID; the rows
    themselves outlive the list, because their owners hold on to them. */
module ConnBook {
  import opened Decimal

  const CONN_MAX := 512
  const TOTALS_MAX := 2000

  datatype Row = Row(
    process: string, dest: string, rule: string, via: string, up: int, down: int, started: int,
    exact: bool, taken: bool, closed: bool, cleared: bool, baseUp: int, baseDown: int)

  /** totalsKey: the program and the destination. */
  type Key = (string, string)

  datatype Tally = Tally(count: int, up: int, down: int)
  datatype Total = Total(tally: Tally, via: string, last: int)

  const ZERO := Tally(0, 0, 0)

  function Plus(a: Tally, b: Tally): Tally { Tally(a.count + b.count, a.up + b.up, a.down + b.down) }

  /** One of the three figures of a tally. */
  datatype Figure = Count | Up | Down

  function Of(t: Tally, f: Figure): int { match f case Count => t.count case Up => t.up case Down => t.down }

  /** rows is every row ever opened, live the IDs in the list. */
  datatype Book = Book(rows: map<int, Row>, live: set<int>, nextID: nat, totals: map<Key, Total>)

  function KeyOf(r: Row): Key { (r.process, r.dest) }

  /** sinceClear. */
  predicate Counts(r: Row) { !r.cleared || r.up > r.baseUp || r.down > r.baseDown }

  function Since(r: Row): Tally { Tally(1, r.up - r.baseUp, r.down - r.baseDown) }

  /** What a row adds to the figures shown. */
  function Share(r: Row, f: Figure): int { if r.dest != "" && Counts(r) then Of(Since(r), f) else 0 }

  /** A row's share, as one key sees it. */
  function Part(r: Row, k: Key, f: Figure): int { if KeyOf(r) == k then Share(r, f) else 0 }

  predicate RowFine(r: Row) {
    && r.up >= r.baseUp >= 0 && r.down >= r.baseDown >= 0
    && (!r.exact ==> r.up == r.down == 0)
  }

  predicate Within(live: set<int>) { |live| <= CONN_MAX }
  predicate HasRoom(live: set<int>) { |live| < CONN_MAX }

  ghost predicate Valid(b: Book) {
    && (forall id :: id in b.rows <==> 1 <= id <= b.nextID)
    && (forall id :: id in b.live ==> id in b.rows && !b.rows[id].closed)
    && (forall id :: id in b.rows ==> RowFine(b.rows[id]))
    && Within(b.live) && |b.totals| <= TOTALS_MAX
    && forall k :: k in b.totals ==> b.totals[k].tally.count >= 1
  }

  const EMPTY := Book(map[], {}, 0, map[])

  // ------------------------------------------------------------ what the panel shows

  function InTotals(totals: map<Key, Total>, k: Key, f: Figure): int { if k in totals then Of(totals[k].tally, f) else 0 }

  function ShareAt(b: Book, id: int, k: Key, f: Figure): int {
    if id in b.live && id in b.rows then Part(b.rows[id], k, f) else 0
  }

  function LiveSum(b: Book, n: nat, k: Key, f: Figure): int {
    if n == 0 then 0 else LiveSum(b, n - 1, k, f) + ShareAt(b, n, k, f)
  }

  /** ConnectionTotals for one program and destination. */
  function Shown(b: Book, k: Key, f: Figure): int { InTotals(b.totals, k, f) + LiveSum(b, b.nextID, k, f) }

  // ------------------------------------------------------------ the operations

  /** The first row by start time, or the last, of those wanted. */
  function Chosen(rows: map<int, Row>, wanted: set<int>, n: nat, latest: bool): (c: Option<int>)
    ensures c.Some? ==> c.value in wanted && c.value in rows
  {
    if n == 0 then None
    else
      var c := Chosen(rows, wanted, n - 1, latest);
      if n !in wanted || n !in rows then c
      else if c.None? || (if latest then rows[n].started > rows[c.value].started else rows[n].started < rows[c.value].started)
      then Some(n)
      else c
  }

  /** At the limit the oldest row makes room. */
  function MadeRoom(b: Book): Book
  {
    if HasRoom(b.live) then b
    else match Chosen(b.rows, b.live, b.nextID, false)
      case None => b
      case Some(id) => b.(live := b.live - {id})
  }

  function Begun(b: Book, dest: string, process: string, via: string, rule: string, exact: bool, now: int): Book
  {
    var c := MadeRoom(b);
    var id := b.nextID + 1;
    Book(c.rows[id := NewRow(dest, process, via, rule, exact, now)], c.live + {id}, id, c.totals)
  }

  function NewRow(dest: string, process: string, via: string, rule: string, exact: bool, now: int): Row {
    Row(process, dest, rule, via, 0, 0, now, exact, false, false, false, 0, 0)
  }

  /** One of the totals that have been quiet longest. */
  ghost predicate Quietest(totals: map<Key, Total>, k: Key) {
    k in totals && forall j :: j in totals ==> totals[k].last <= totals[j].last
  }

  /** addConnTotal; quiet is the total forgotten when the table is full. */
  function Added(totals: map<Key, Total>, r: Row, t: Tally, watched: bool, quiet: Key, now: int): map<Key, Total> {
    if r.dest == "" || !watched then totals
    else
      var room := if |totals| >= TOTALS_MAX then totals - {quiet} else totals;
      var k := KeyOf(r);
      var was := if k in room then room[k] else Total(ZERO, "", now);
      room[k := Total(Plus(was.tally, t), if r.via != "" then r.via else was.via, now)]
  }

  /** connEnd. */
  function Ended(b: Book, id: int, watched: bool, quiet: Key, now: int): Book {
    if id !in b.rows || b.rows[id].closed then b
    else
      var r := b.rows[id];
      b.(rows := b.rows[id := r.(closed := true)], live := b.live - {id},
         totals := TotalsWith(b.totals, r, watched, quiet, now))
  }

  function TotalsWith(totals: map<Key, Total>, r: Row, watched: bool, quiet: Key, now: int): map<Key, Total> {
    if Counts(r) then Added(totals, r, Since(r), watched, quiet, now) else totals
  }

  function Adoptable(b: Book, dest: string): set<int> {
    set id | id in b.live && id in b.rows && b.rows[id].dest == dest && !b.rows[id].exact && !b.rows[id].taken
  }

  /** adoptEngineRow. */
  function Adopted(b: Book, dest: string): (Book, Option<int>) {
    match Chosen(b.rows, Adoptable(b, dest), b.nextID, true)
    case None => (b, None)
    case Some(id) => (b.(rows := b.rows[id := b.rows[id].(taken := true, exact := true)]), Some(id))
  }

  predicate SameMoment(r: Row, e: Row) { -2 <= r.started - e.started <= 5 }

  function Mergeable(b: Book, id: int): set<int> {
    if id !in b.rows then {}
    else
      var e := b.rows[id];
      set r | r in b.live && r in b.rows && r != id && b.rows[r].dest == e.dest && b.rows[r].exact &&
              b.rows[r].process == "" && !b.rows[r].taken && SameMoment(b.rows[r], e)
  }

  /** mergeIntoRelayRow. */
  function Merged(b: Book, id: int): (Book, Option<int>)
    requires id in b.rows
  {
    var e := b.rows[id];
    var best := Chosen(b.rows, Mergeable(b, id), b.nextID, false);
    if best.None? || e.taken then (b, None)
    else
      var r := b.rows[best.value];
      var joined := r.(taken := true, process := e.process,
                       rule := if e.rule != "" then e.rule else r.rule, via := if e.via != "" then e.via else r.via);
      (b.(rows := b.rows[best.value := joined][id := e.(closed := true)], live := b.live - {id}), best)
  }

  /** openRelayRow points a row at the relay's own counters. */
  function Pointed(b: Book, id: int, up: int, down: int): Book {
    if id in b.rows then b.(rows := b.rows[id := b.rows[id].(up := up, down := down)]) else b
  }

  function Carried(b: Book, id: int, up: int, down: int): Book {
    if id in b.rows then Pointed(b, id, b.rows[id].up + up, b.rows[id].down + down) else b
  }

  function BasedRow(r: Row): Row { r.(baseUp := r.up, baseDown := r.down, cleared := true) }

  /** ClearConnectionTotals. */
  function Cleared(b: Book, watched: bool): Book {
    if watched then
      b.(totals := map[], rows := map id | id in b.rows :: if id in b.live then BasedRow(b.rows[id]) else b.rows[id])
    else b.(totals := map[], live := {})
  }

  // ------------------------------------------------------------ the object

  class Conns {
    var rows: map<int, Row>
    var live: set<int>
    var nextID: nat
    var totals: map<Key, Total>

    ghost function View(): Book
      reads this
    {
      Book(rows, live, nextID, totals)
    }

    constructor ()
      ensures View() == EMPTY
    {
      rows, live, nextID, totals := map[], {}, 0, map[];
    }

    method OldestOpen() returns (oldest: Option<int>)
      ensures oldest == Chosen(rows, live, nextID, false)
    {
      oldest := None;
      for i := 1 to nextID + 1
        invariant oldest == Chosen(rows, live, i - 1, false)
      {
        if i in live && i in rows {
          if oldest.None? || rows[i].started < rows[oldest.value].started { oldest := Some(i); }
        }
      }
    }

    /** connBegin. */
    method Begin(watched: bool, dest: string, process: string, via: string, rule: string, exact: bool, now: int)
        returns (id: Option<int>)
      modifies this
      ensures View() == if watched then Begun(old(View()), dest, process, via, rule, exact, now) else old(View())
      ensures id == if watched then Some(nextID) else None
    {
      if !watched { return None; }
      if !HasRoom(live) {
        var oldest := OldestOpen();
        if oldest.Some? { live := live - {oldest.value}; }
      }
      nextID := nextID + 1;
      rows := rows[nextID := NewRow(dest, process, via, rule, exact, now)];
      live := live + {nextID};
      return Some(nextID);
    }

    /** connEnd; the row may have left the list. */
    method End(id: int, watched: bool, quiet: Key, now: int)
      requires |totals| >= TOTALS_MAX ==> Quietest(totals, quiet)
      modifies this
      ensures View() == Ended(old(View()), id, watched, quiet, now)
    {
      if id !in rows || rows[id].closed { return; }
      var r := rows[id];
      rows := rows[id := r.(closed := true)];
      live := live - {id};
      if Counts(r) { AddTotal(r, Since(r), watched, quiet, now); }
    }

    method AddTotal(r: Row, t: Tally, watched: bool, quiet: Key, now: int)
      requires |totals| >= TOTALS_MAX ==> Quietest(totals, quiet)
      modifies this`totals
      ensures totals == Added(old(totals), r, t, watched, quiet, now)
    {
      if r.dest == "" { return; }
      if !watched { return; }
      if |totals| >= TOTALS_MAX { totals := totals - {quiet}; }
      var k := KeyOf(r);
      var total := if k in totals then totals[k] else Total(ZERO, "", now);
      total := total.(tally := Plus(total.tally, t), last := now);
      if r.via != "" { total := total.(via := r.via); }
      totals := totals[k := total];
    }

    /** adoptEngineRow. */
    method Adopt(watched: bool, dest: string) returns (id: Option<int>)
      modifies this`rows
      ensures (View(), id) == if watched then Adopted(old(View()), dest) else (old(View()), None)
    {
      if !watched { return None; }
      var best: Option<int> := None;
      ghost var wanted := Adoptable(View(), dest);
      for i := 1 to nextID + 1
        invariant best == Chosen(rows, wanted, i - 1, true)
      {
        if i in live && i in rows && rows[i].dest == dest && !rows[i].exact && !rows[i].taken {
          if best.None? || rows[i].started > rows[best.value].started { best := Some(i); }
        }
      }
      if best.Some? { rows := rows[best.value := rows[best.value].(taken := true, exact := true)]; }
      return best;
    }

    /** mergeIntoRelayRow. */
    method Merge(id: int) returns (joined: Option<int>)
      requires id in rows
      modifies this`rows, this`live
      ensures (View(), joined) == Merged(old(View()), id)
    {
      var e := rows[id];
      var best: Option<int> := None;
      ghost var wanted := Mergeable(View(), id);
      for i := 1 to nextID + 1
        invariant best == Chosen(rows, wanted, i - 1, false)
      {
        if i in live && i in rows && i != id && rows[i].dest == e.dest && rows[i].exact && rows[i].process == "" && !rows[i].taken {
          if SameMoment(rows[i], e) {
            if best.None? || rows[i].started < rows[best.value].started { best := Some(i); }
          }
        }
      }
      if best.None? || e.taken { return None; }
      var r := rows[best.value];
      r := r.(taken := true, process := e.process);
      if e.rule != "" { r := r.(rule := e.rule); }
      if e.via != "" { r := r.(via := e.via); }
      rows := rows[best.value := r][id := e.(closed := true)];
      live := live - {id};
      return best;
    }

    /** ClearConnectionTotals. */
    method Clear(watched: bool)
      modifies this`rows, this`live, this`totals
      ensures View() == Cleared(old(View()), watched)
    {
      totals := map[];
      if !watched {
        live := {};
        return;
      }
      rows := map id | id in rows :: if id in live then BasedRow(rows[id]) else rows[id];
    }

    /** The sums of ConnectionTotals: the stored ones and every open row. */
    method ConnectionTotals() returns (merged: map<Key, Tally>)
      ensures forall k: Key, f :: In(merged, k, f) == Shown(View(), k, f)
    {
      merged := map k | k in totals :: totals[k].tally;
      for i := 1 to nextID + 1
        invariant SumsTo(merged, View(), i - 1)
      {
        if i in live && i in rows {
          SumsStep(merged, View(), i);
          merged := WithRow(merged, rows[i]);
        }
        hide WithRow;
      }
    }
  }

  function In(merged: map<Key, Tally>, k: Key, f: Figure): int { if k in merged then Of(merged[k], f) else 0 }

  function WithRow(merged: map<Key, Tally>, r: Row): map<Key, Tally> {
    if r.dest == "" || !Counts(r) then merged
    else merged[KeyOf(r) := Plus(if KeyOf(r) in merged then merged[KeyOf(r)] else ZERO, Since(r))]
  }

  ghost predicate SumsTo(merged: map<Key, Tally>, b: Book, n: nat) {
    forall k: Key, f :: In(merged, k, f) == InTotals(b.totals, k, f) + LiveSum(b, n, k, f)
  }

  lemma RowJoins(merged: map<Key, Tally>, r: Row, k: Key, f: Figure)
    ensures In(WithRow(merged, r), k, f) == In(merged, k, f) + Part(r, k, f)
  {
    hide Counts;
  }

  lemma SumsStep(merged: map<Key, Tally>, b: Book, i: nat)
    requires i > 0 && SumsTo(merged, b, i - 1) && i in b.live && i in b.rows
    ensures SumsTo(WithRow(merged, b.rows[i]), b, i)
  {
    forall k: Key, f ensures In(WithRow(merged, b.rows[i]), k, f) == In(merged, k, f) + Part(b.rows[i], k, f) {
      RowJoins(merged, b.rows[i], k, f);
    }
    hide In, InTotals, WithRow, Part;
  }

  // ------------------------------------------------------------ sums over the list

  /** Changing one row moves a sum by what that row's share moves. */
  lemma {:induction false} OneRowMoves(b: Book, c: Book, n: nat, id: int, k: Key, f: Figure)
    requires forall i :: i != id ==> ShareAt(c, i, k, f) == ShareAt(b, i, k, f)
    ensures LiveSum(c, n, k, f) ==
      LiveSum(b, n, k, f) + if 1 <= id <= n then ShareAt(c, id, k, f) - ShareAt(b, id, k, f) else 0
  {
    hide ShareAt;
    if n == 0 {
    } else {
      OneRowMoves(b, c, n - 1, id, k, f);
    }
  }

  // ------------------------------------------------------------ the end of a connection

  predicate OpenRow(b: Book, id: int) { id in b.rows && id in b.live && !b.rows[id].closed }

  lemma TotalsMove(totals: map<Key, Total>, r: Row, quiet: Key, now: int, k: Key, f: Figure)
    requires |totals| < TOTALS_MAX
    ensures InTotals(TotalsWith(totals, r, true, quiet, now), k, f) == InTotals(totals, k, f) + Part(r, k, f)
  {
    hide Counts;
  }

  lemma EndedRow(b: Book, id: int, watched: bool, quiet: Key, now: int, k: Key, f: Figure)
    requires id in b.rows && !b.rows[id].closed && 1 <= id <= b.nextID
    ensures var c := Ended(b, id, watched, quiet, now);
      && c.totals == TotalsWith(b.totals, b.rows[id], watched, quiet, now)
      && LiveSum(c, c.nextID, k, f) == LiveSum(b, b.nextID, k, f) - ShareAt(b, id, k, f)
  {
    hide TotalsWith, Part;
    OneRowMoves(b, Ended(b, id, watched, quiet, now), b.nextID, id, k, f);
  }

  /** Ending an open row moves its share from the list to the totals: what is
      shown stays, for every program and destination. A row that newer ones
      pushed out of the list brings its share back. */
  lemma EndKeepsTotals(b: Book, id: int, quiet: Key, now: int, k: Key, f: Figure)
    requires Valid(b) && id in b.rows && !b.rows[id].closed && |b.totals| < TOTALS_MAX
    ensures Shown(Ended(b, id, true, quiet, now), k, f) ==
      Shown(b, k, f) + if id in b.live then 0 else Part(b.rows[id], k, f)
  {
    assert 1 <= id <= b.nextID;
    hide Valid;
    EndedRow(b, id, true, quiet, now, k, f);
    hide Ended, Part;
    TotalsMove(b.totals, b.rows[id], quiet, now, k, f);
  }

  /** The second owner's end of the same row does nothing. */
  lemma SecondEndIsNothing(b: Book, id: int, watched: bool, quiet: Key, now: int, watched': bool, quiet': Key, now': int)
    ensures var c := Ended(b, id, watched, quiet, now); Ended(c, id, watched', quiet', now') == c
  {}

  lemma FullTableLoses(totals: map<Key, Total>, r: Row, watched: bool, quiet: Key, now: int)
    requires r.dest != "" && Counts(r) && (watched ==> |totals| >= TOTALS_MAX && quiet in totals && totals[quiet].tally.count >= 1)
    ensures var k := if watched then quiet else KeyOf(r);
      InTotals(TotalsWith(totals, r, watched, quiet, now), k, Count) < InTotals(totals, k, Count) + if KeyOf(r) == k then 1 else 0
  {
    hide Counts;
  }

  lemma EndLoses(b: Book, id: int, watched: bool, quiet: Key, now: int)
    requires Valid(b) && OpenRow(b, id) && b.rows[id].dest != "" && Counts(b.rows[id])
    requires !watched || (|b.totals| >= TOTALS_MAX && Quietest(b.totals, quiet))
    ensures var k := if watched then quiet else KeyOf(b.rows[id]);
      Shown(Ended(b, id, watched, quiet, now), k, Count) < Shown(b, k, Count)
  {
    var k := if watched then quiet else KeyOf(b.rows[id]);
    assert 1 <= id <= b.nextID && (watched ==> b.totals[k].tally.count >= 1);
    hide Valid;
    EndedRow(b, id, watched, quiet, now, k, Count);
    FullTableLoses(b.totals, b.rows[id], watched, quiet, now);
    hide Ended, TotalsWith, LiveSum, Quietest;
  }

  lemma NothingToCount(b: Book, id: int, watched: bool, quiet: Key, now: int, k: Key, f: Figure)
    requires Valid(b) && OpenRow(b, id) && (b.rows[id].dest == "" || !Counts(b.rows[id]))
    ensures Shown(Ended(b, id, watched, quiet, now), k, f) == Shown(b, k, f)
  {
    assert 1 <= id <= b.nextID;
    hide Valid;
    EndedRow(b, id, watched, quiet, now, k, f);
    hide Ended, LiveSum;
  }

  /** Exactly when the end of an open row leaves every figure as it was: it had
      nothing to count, or recording is on and the table is not full. */
  lemma EndKeepsIff(b: Book, id: int, watched: bool, quiet: Key, now: int)
    requires Valid(b) && OpenRow(b, id) && (|b.totals| >= TOTALS_MAX ==> Quietest(b.totals, quiet))
    ensures (forall k: Key, f :: Shown(Ended(b, id, watched, quiet, now), k, f) == Shown(b, k, f)) <==>
      b.rows[id].dest == "" || !Counts(b.rows[id]) || (watched && |b.totals| < TOTALS_MAX)
  {
    var r, c := b.rows[id], Ended(b, id, watched, quiet, now);
    hide Valid, Shown, Ended, Counts;
    if r.dest == "" || !Counts(r) {
      forall k: Key, f ensures Shown(c, k, f) == Shown(b, k, f) { NothingToCount(b, id, watched, quiet, now, k, f); }
    } else if watched && |b.totals| < TOTALS_MAX {
      forall k: Key, f ensures Shown(c, k, f) == Shown(b, k, f) { EndKeepsTotals(b, id, quiet, now, k, f); }
    } else {
      EndLoses(b, id, watched, quiet, now);
    }
  }
}
