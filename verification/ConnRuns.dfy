/** Whole lives of the connection list: what every operation keeps, what each
    moves in the figures shown, and what the figures are after a clear
    (vair/core/connlist.go and stats.go). */
module ConnRuns {
  import opened ConnBook

  datatype Op =
    | Begin(dest: string, process: string, via: string, rule: string, exact: bool, now: int)
    | End(id: int, quiet: Key, now: int)
    | Adopt(dest: string)
    | Merge(id: int)
    | Point(id: int, up: int, down: int)    // the relay's counters, for a row that has none yet
    | Carry(id: int, up: int, down: int)    // traffic of a row the relay counts
    | Name(id: int, process: string, dest: string)   // a program or a host becomes known
    | Clear

  function Named(b: Book, id: int, process: string, dest: string): Book
    requires id in b.rows
  {
    b.(rows := b.rows[id := b.rows[id].(process := process, dest := dest)])
  }

  ghost predicate Enabled(b: Book, op: Op) {
    match op
    case Begin(_, _, _, _, _, _) => true
    case End(_, quiet, _) => |b.totals| >= TOTALS_MAX ==> Quietest(b.totals, quiet)
    case Adopt(_) => true
    case Merge(id) => id in b.rows && !b.rows[id].exact
    case Point(id, up, down) => id in b.rows && b.rows[id].exact && b.rows[id].up == b.rows[id].down == 0 && up >= 0 && down >= 0
    case Carry(id, up, down) => id in b.rows && b.rows[id].exact && up >= 0 && down >= 0
    case Name(id, _, _) => id in b.rows
    case Clear => true
  }

  function Done(b: Book, watched: bool, op: Op): Book
  {
    match op
    case Begin(dest, process, via, rule, exact, now) => if watched then Begun(b, dest, process, via, rule, exact, now) else b
    case End(id, quiet, now) => Ended(b, id, watched, quiet, now)
    case Adopt(dest) => if watched then Adopted(b, dest).0 else b
    case Merge(id) => if id in b.rows then Merged(b, id).0 else b
    case Point(id, up, down) => Pointed(b, id, up, down)
    case Carry(id, up, down) => Carried(b, id, up, down)
    case Name(id, process, dest) => if id in b.rows then Named(b, id, process, dest) else b
    case Clear => Cleared(b, watched)
  }

  // ------------------------------------------------------------ what every operation keeps

  /** The list with room for one more. */
  ghost predicate Trimmed(b: Book, live: set<int>) { live <= b.live && HasRoom(live) }

  lemma RoomMade(b: Book)
    requires Valid(b)
    ensures var c := MadeRoom(b); c.rows == b.rows && c.totals == b.totals && Trimmed(b, c.live)
  {
    NoneIffEmpty(b.rows, b.live, b.nextID, false);
    hide Chosen;
  }

  lemma NoneIffEmpty(rows: map<int, Row>, wanted: set<int>, n: nat, latest: bool)
    requires (forall i :: i in wanted ==> i in rows) && forall i :: i in rows ==> 1 <= i <= n
    ensures Chosen(rows, wanted, n, latest).None? <==> wanted == {}
  {
    ChosenAmong(rows, wanted, n, latest);
    hide Chosen;
    if forall i :: 1 <= i <= n ==> i !in wanted || i !in rows {
      forall i ensures i !in wanted { if i in rows { assert 1 <= i <= n; } }
    }
  }

  lemma OneMoreWithin(b: Book, live: set<int>, id: int)
    requires Trimmed(b, live)
    ensures Within(live + {id}) && forall i :: i in live + {id} ==> i in b.live || i == id
  {}

  lemma RowAdded(b: Book, r: Row, live: set<int>)
    requires Valid(b) && RowFine(r) && !r.closed && Trimmed(b, live)
    ensures Valid(Book(b.rows[b.nextID + 1 := r], live + {b.nextID + 1}, b.nextID + 1, b.totals))
  {
    OneMoreWithin(b, live, b.nextID + 1);
    hide RowFine, Trimmed, Within;
  }

  lemma BeginKeeps(b: Book, dest: string, process: string, via: string, rule: string, exact: bool, now: int)
    requires Valid(b)
    ensures Valid(Begun(b, dest, process, via, rule, exact, now))
  {
    hide Valid, MadeRoom, Trimmed;
    RoomMade(b);
    RowAdded(b, NewRow(dest, process, via, rule, exact, now), MadeRoom(b).live);
  }

  /** Some row is chosen when one is wanted. */
  lemma {:induction false} ChosenAmong(rows: map<int, Row>, wanted: set<int>, n: nat, latest: bool)
    ensures Chosen(rows, wanted, n, latest).None? <==> forall i :: 1 <= i <= n ==> i !in wanted || i !in rows
  {
    if n == 0 {
    } else {
      ChosenAmong(rows, wanted, n - 1, latest);
    }
  }

  /** The chosen row is the first, or the last, of those wanted. */
  lemma {:induction false} ChosenIsExtreme(rows: map<int, Row>, wanted: set<int>, n: nat, latest: bool, i: int)
    requires i in wanted && i in rows && 1 <= i <= n
    ensures var c := Chosen(rows, wanted, n, latest);
      c.Some? && if latest then rows[i].started <= rows[c.value].started else rows[c.value].started <= rows[i].started
  {
    if i < n { ChosenIsExtreme(rows, wanted, n - 1, latest, i); }
    ChosenAmong(rows, wanted, n - 1, latest);
  }

  lemma EndKeeps(b: Book, id: int, watched: bool, quiet: Key, now: int)
    requires Valid(b) && (|b.totals| >= TOTALS_MAX ==> Quietest(b.totals, quiet))
    ensures Valid(Ended(b, id, watched, quiet, now))
  {
    if id in b.rows && !b.rows[id].closed {
      TotalsKeep(b.totals, b.rows[id], watched, quiet, now);
      hide TotalsWith, Quietest;
    }
  }

  lemma TotalsKeep(totals: map<Key, Total>, r: Row, watched: bool, quiet: Key, now: int)
    requires |totals| <= TOTALS_MAX && (|totals| >= TOTALS_MAX ==> Quietest(totals, quiet))
    requires forall k :: k in totals ==> totals[k].tally.count >= 1
    ensures var t := TotalsWith(totals, r, watched, quiet, now);
      |t| <= TOTALS_MAX && forall k :: k in t ==> t[k].tally.count >= 1
  {
    hide Counts;
    var room := if |totals| >= TOTALS_MAX then totals - {quiet} else totals;
    assert |room| < TOTALS_MAX by {
      if |totals| >= TOTALS_MAX { assert room.Keys == totals.Keys - {quiet} && |room| == |room.Keys| && |totals| == |totals.Keys|; }
    }
    assert |room[KeyOf(r) := Total(ZERO, "", 0)]| <= |room| + 1;
  }

  lemma RowKeeps(b: Book, c: Book, id: int)
    requires Valid(b) && id in b.rows && c.rows.Keys == b.rows.Keys && (forall i :: i in b.rows && i != id ==> c.rows[i] == b.rows[i])
    requires RowFine(c.rows[id]) && c.rows[id].closed == b.rows[id].closed
    requires c.live == b.live && c.nextID == b.nextID && c.totals == b.totals
    ensures Valid(c)
  {
    hide RowFine;
  }

  lemma AdoptKeeps(b: Book, dest: string)
    requires Valid(b)
    ensures Valid(Adopted(b, dest).0)
  {
    var (c, id) := Adopted(b, dest);
    if id.Some? { RowKeeps(b, c, id.value); }
  }

  lemma MergeKeeps(b: Book, id: int)
    requires Valid(b) && id in b.rows
    ensures Valid(Merged(b, id).0)
  {
    var (c, best) := Merged(b, id);
    if best.Some? {
      var r := best.value;
      assert r in Mergeable(b, id) && r in b.rows && r != id && !b.rows[r].closed;
      assert RowFine(c.rows[r]) && RowFine(c.rows[id]) && !c.rows[r].closed;
      assert c.live == b.live - {id} && c.rows.Keys == b.rows.Keys;
      assert forall i :: i in b.rows && i != r && i != id ==> c.rows[i] == b.rows[i];
      hide Merged, Mergeable, RowFine;
    }
  }

  lemma ClearKeeps(b: Book, watched: bool)
    requires Valid(b)
    ensures Valid(Cleared(b, watched))
  {}

  /** Every operation keeps the bounds: at most 512 rows in the list and 2000
      totals, closed rows out of the list, no bytes on rows only the engine
      sees. */
  lemma DoneKeeps(b: Book, watched: bool, op: Op)
    requires Valid(b) && Enabled(b, op)
    ensures Valid(Done(b, watched, op))
  {
    match op
    case Begin(dest, process, via, rule, exact, now) => BeginKeeps(b, dest, process, via, rule, exact, now);
    case End(id, quiet, now) => EndKeeps(b, id, watched, quiet, now);
    case Adopt(dest) => AdoptKeeps(b, dest);
    case Merge(id) => MergeKeeps(b, id);
    case Point(id, up, down) => RowKeeps(b, Pointed(b, id, up, down), id);
    case Carry(id, up, down) => RowKeeps(b, Carried(b, id, up, down), id);
    case Name(id, process, dest) => RowKeeps(b, Named(b, id, process, dest), id);
    case Clear => ClearKeeps(b, watched);
  }

  /** What happens, and whether recording is on when it does. */
  datatype Moment = Moment(op: Op, watched: bool)

  /** A run of the list from a book. */
  function After(b: Book, ms: seq<Moment>): Book {
    if ms == [] then b
    else
      var last := ms[|ms| - 1];
      Done(After(b, ms[..|ms| - 1]), last.watched, last.op)
  }

  /** Every operation of the run is one that can happen when it does. */
  ghost predicate Possible(b: Book, ms: seq<Moment>) {
    ms == [] ||
    (Possible(b, ms[..|ms| - 1]) && Enabled(After(b, ms[..|ms| - 1]), ms[|ms| - 1].op))
  }

  lemma {:induction false} RunsKeepBounds(b: Book, ms: seq<Moment>)
    requires Valid(b) && Possible(b, ms)
    ensures Valid(After(b, ms))
  {
    hide Valid, Done, Enabled;
    if ms == [] {
    } else {
      var front, last := ms[..|ms| - 1], ms[|ms| - 1];
      RunsKeepBounds(b, front);
      DoneKeeps(After(b, front), last.watched, last.op);
    }
  }

  // ------------------------------------------------------------ what each moves

  lemma RowMoves(b: Book, c: Book, id: int, k: Key, f: Figure)
    requires forall i :: i != id ==> ShareAt(c, i, k, f) == ShareAt(b, i, k, f)
    requires c.totals == b.totals && c.nextID == b.nextID && 1 <= id <= b.nextID
    ensures Shown(c, k, f) == Shown(b, k, f) + ShareAt(c, id, k, f) - ShareAt(b, id, k, f)
  {
    hide ShareAt, InTotals;
    OneRowMoves(b, c, b.nextID, id, k, f);
  }

  lemma NewPart(dest: string, process: string, via: string, rule: string, exact: bool, now: int, k: Key, f: Figure)
    ensures Part(NewRow(dest, process, via, rule, exact, now), k, f) == if k == (process, dest) && dest != "" && f == Count then 1 else 0
  {}

  lemma RowJoinsList(b: Book, r: Row, k: Key, f: Figure)
    requires b.nextID + 1 !in b.live
    ensures var n := b.nextID + 1;
      Shown(Book(b.rows[n := r], b.live + {n}, n, b.totals), k, f) == Shown(b, k, f) + Part(r, k, f)
  {
    hide Part, InTotals;
    var n := b.nextID + 1;
    OneRowMoves(b, Book(b.rows[n := r], b.live + {n}, n, b.totals), b.nextID, n, k, f);
  }

  lemma NextIsNew(b: Book)
    requires Valid(b)
    ensures b.nextID + 1 !in b.rows && b.nextID + 1 !in b.live
  {}

  /** A new connection is one more of its program and destination, and no bytes. */
  lemma BeginMoves(b: Book, dest: string, process: string, via: string, rule: string, exact: bool, now: int, k: Key, f: Figure)
    requires Valid(b) && HasRoom(b.live)
    ensures Shown(Begun(b, dest, process, via, rule, exact, now), k, f) ==
      Shown(b, k, f) + if k == (process, dest) && dest != "" && f == Count then 1 else 0
  {
    hide Part, NewRow, Shown, HasRoom, Valid;
    NextIsNew(b);
    NewPart(dest, process, via, rule, exact, now, k, f);
    RowJoinsList(b, NewRow(dest, process, via, rule, exact, now), k, f);
  }

  /** A row's bytes are its counters less what they were at the clear, whether it
      is counted or not. */
  lemma ShareBytes(r: Row)
    requires RowFine(r)
    ensures Share(r, Up) == if r.dest != "" then r.up - r.baseUp else 0
    ensures Share(r, Down) == if r.dest != "" then r.down - r.baseDown else 0
  {}

  function Bytes(up: int, down: int, f: Figure): int { match f case Up => up case Down => down case Count => 0 }

  lemma TrafficMoves(b: Book, id: int, up: int, down: int, k: Key, f: Figure)
    requires Valid(b) && id in b.rows && up >= 0 && down >= 0 && b.rows[id].exact && f != Count
    ensures Shown(Carried(b, id, up, down), k, f) ==
      Shown(b, k, f) + if id in b.live && KeyOf(b.rows[id]) == k && b.rows[id].dest != "" then Bytes(up, down, f) else 0
  {
    var c := Carried(b, id, up, down);
    assert RowFine(b.rows[id]) && 1 <= id <= b.nextID;
    hide Valid;
    ShareBytes(b.rows[id]);
    ShareBytes(c.rows[id]);
    hide Share, Counts, Since, Of;
    RowMoves(b, c, id, k, f);
  }

  /** Taking over the engine's row changes no figure: the connection stays
      counted once. */
  lemma AdoptMovesNothing(b: Book, dest: string, k: Key, f: Figure)
    requires Valid(b)
    ensures Shown(Adopted(b, dest).0, k, f) == Shown(b, k, f)
  {
    var (c, id) := Adopted(b, dest);
    if id.Some? {
      assert 1 <= id.value <= b.nextID;
      hide Valid, Chosen, Adoptable;
      RowMoves(b, c, id.value, k, f);
    }
  }

  /** Joining the two rows of one connection: the engine's goes, uncounted, and
      the relay's moves to the program the engine named. */
  lemma MergeMoves(b: Book, id: int, k: Key, f: Figure)
    requires Valid(b) && id in b.rows && Merged(b, id).1.Some?
    ensures var (c, best) := Merged(b, id);
      best.value in b.rows && best.value in b.live && best.value in c.rows &&
      Shown(c, k, f) == Shown(b, k, f) + Part(c.rows[best.value], k, f) - Part(b.rows[best.value], k, f) - ShareAt(b, id, k, f)
  {
    var (c, best) := Merged(b, id);
    var r := best.value;
    assert r in Mergeable(b, id) && r in b.rows && r in b.live && r != id;
    assert 1 <= id <= b.nextID && 1 <= r <= b.nextID;
    hide Valid, Mergeable, Chosen;
    var half := b.(rows := b.rows[r := c.rows[r]]);
    hide Part;
    RowMoves(b, half, r, k, f);
    RowMoves(half, c, id, k, f);
  }

  lemma {:induction false} NothingSince(b: Book, n: nat, k: Key, f: Figure)
    ensures LiveSum(Cleared(b, true), n, k, f) == 0 && LiveSum(Cleared(b, false), n, k, f) == 0
  {
    if n == 0 {
    } else {
      NothingSince(b, n - 1, k, f);
    }
  }

  /** A clear empties every figure, the open connections' too. */
  lemma ClearEmpties(b: Book, watched: bool, k: Key, f: Figure)
    ensures Shown(Cleared(b, watched), k, f) == 0
  {
    NothingSince(b, b.nextID, k, f);
  }

  /** What a connection carried before the clear comes back at its end exactly
      when it was not in the list that was cleared: pushed out by newer ones, or
      dropped because recording was off. */
  lemma ClearForgetsIff(b: Book, watched: bool, id: int, quiet: Key, now: int)
    requires Valid(b) && id in b.rows && !b.rows[id].closed
    ensures var c := Cleared(b, watched);
      (forall k: Key, f :: Shown(Ended(c, id, true, quiet, now), k, f) == Shown(c, k, f)) <==>
        (watched && id in b.live) || b.rows[id].dest == "" || !Counts(b.rows[id])
  {
    var c := Cleared(b, watched);
    ClearKeeps(b, watched);
    var r := c.rows[id];
    assert !r.closed && |c.totals| < TOTALS_MAX;
    assert KeyOf(r) == KeyOf(b.rows[id]) && Share(r, Count) == if (watched && id in b.live) || r.dest == "" || !Counts(b.rows[id]) then 0 else 1;
    hide Valid, Cleared, Counts;
    forall k: Key, f ensures Shown(Ended(c, id, true, quiet, now), k, f) == Shown(c, k, f) + if id in c.live then 0 else Part(r, k, f) {
      EndKeepsTotals(c, id, quiet, now, k, f);
    }
    hide Shown, Ended;
    assert Part(r, KeyOf(r), Count) == Share(r, Count);
  }

  /** The life of one connection that the list drops at a clear: it begins and
      carries bytes, recording is off at the clear, and on again at its end. */
  function DroppedLife(process: string, dest: string, up: nat): (ms: seq<Moment>)
    ensures |ms| == 4 && ms[2].op == Clear && ms[3].op.End?
  {
    [Moment(Begin(dest, process, "", "", true, 0), true), Moment(Point(1, up, 0), true),
     Moment(Clear, false), Moment(End(1, (process, dest), 1), true)]
  }

  /** From the start such a life is possible, and what it carried before the
      clear, gone from the figures after it, is back at the end. */
  lemma ClearedComesBack(process: string, dest: string, up: nat)
    requires dest != ""
    ensures var ms, k := DroppedLife(process, dest, up), (process, dest);
      && Possible(EMPTY, ms)
      && Shown(After(EMPTY, ms[..3]), k, Up) == 0 && Shown(After(EMPTY, ms), k, Up) == up
  {
    hide After, Possible, DroppedLife, Shown;
    var c := Book(map[1 := NewRow(dest, process, "", "", true, 0).(up := up)], {}, 1, map[]);
    DroppedRun(process, dest, up, c);
    DroppedEnds(c, process, dest, up);
  }

  lemma OneMoreMoment(b: Book, ms: seq<Moment>, m: Moment)
    ensures After(b, ms + [m]) == Done(After(b, ms), m.watched, m.op)
    ensures Possible(b, ms + [m]) <==> Possible(b, ms) && Enabled(After(b, ms), m.op)
  {
    hide Done, Enabled;
    assert (ms + [m])[..|ms|] == ms;
  }

  lemma RunOfFour(b: Book, ms: seq<Moment>)
    requires |ms| == 4
    ensures var one := Done(b, ms[0].watched, ms[0].op);
      var two := Done(one, ms[1].watched, ms[1].op);
      var three := Done(two, ms[2].watched, ms[2].op);
      && After(b, ms[..3]) == three && After(b, ms) == Done(three, ms[3].watched, ms[3].op)
      && (Possible(b, ms) <==> Enabled(b, ms[0].op) && Enabled(one, ms[1].op) && Enabled(two, ms[2].op) && Enabled(three, ms[3].op))
  {
    assert ms[..1] == [] + [ms[0]] && ms[..2] == ms[..1] + [ms[1]] && ms[..3] == ms[..2] + [ms[2]] && ms == ms[..3] + [ms[3]];
    assert After(b, []) == b && Possible(b, []);
    hide After, Possible, Done, Enabled;
    OneMoreMoment(b, [], ms[0]);
    OneMoreMoment(b, ms[..1], ms[1]);
    OneMoreMoment(b, ms[..2], ms[2]);
    OneMoreMoment(b, ms[..3], ms[3]);
  }

  lemma FirstBegun(process: string, dest: string)
    ensures Begun(EMPTY, dest, process, "", "", true, 0) == Book(map[1 := NewRow(dest, process, "", "", true, 0)], {1}, 1, map[])
  {}

  lemma DroppedRun(process: string, dest: string, up: nat, c: Book)
    requires c == Book(map[1 := NewRow(dest, process, "", "", true, 0).(up := up)], {}, 1, map[])
    ensures var ms := DroppedLife(process, dest, up);
      Possible(EMPTY, ms) && After(EMPTY, ms[..3]) == c && After(EMPTY, ms) == Ended(c, 1, true, (process, dest), 1)
  {
    hide After, Possible, Begun, Ended;
    RunOfFour(EMPTY, DroppedLife(process, dest, up));
    FirstBegun(process, dest);
    var row := NewRow(dest, process, "", "", true, 0);
    assert Pointed(Book(map[1 := row], {1}, 1, map[]), 1, up, 0) == c.(live := {1});
    assert Cleared(c.(live := {1}), false) == c;
  }

  lemma DroppedEnds(c: Book, process: string, dest: string, up: nat)
    requires dest != "" && c == Book(map[1 := NewRow(dest, process, "", "", true, 0).(up := up)], {}, 1, map[])
    ensures var k, e := (process, dest), Ended(c, 1, true, (process, dest), 1);
      Shown(c, k, Up) == 0 && Shown(e, k, Up) == up
  {
    var k, e := (process, dest), Ended(c, 1, true, (process, dest), 1);
    assert LiveSum(c, 1, k, Up) == LiveSum(c, 0, k, Up) + ShareAt(c, 1, k, Up);
    assert LiveSum(e, 1, k, Up) == LiveSum(e, 0, k, Up) + ShareAt(e, 1, k, Up);
  }
}
