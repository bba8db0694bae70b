/** The operations of the connection list, each said from the fields of its rows:
    which row is taken over or joined, which makes room, and what an end leaves in
    the totals (vair/core/connlist.go and stats.go). */
module ConnRules {
  import opened ConnBook
  import opened ConnRuns
  import opened Decimal

  /** A row of the engine's in the list, for the destination, that the relay has not
      taken yet. */
  predicate FreeFor(b: Book, id: int, dest: string) {
    id in b.live && id in b.rows && b.rows[id].dest == dest && !b.rows[id].exact && !b.rows[id].taken
  }

  /** The relay takes the youngest of the engine's rows for the destination, and none
      only when there is none. */
  ghost predicate AdoptRules(b: Book, dest: string, r: (Book, Option<int>)) {
    match r.1
    case Some(id) =>
      && FreeFor(b, id, dest) && (forall j :: FreeFor(b, j, dest) ==> b.rows[j].started <= b.rows[id].started)
      && r.0 == b.(rows := b.rows[id := b.rows[id].(exact := true, taken := true)])
    case None => r.0 == b && forall j :: !FreeFor(b, j, dest)
  }

  /** A row the relay opened for the same destination before the engine's became
      known, at the same moment: from two seconds before it to five after. */
  predicate Twin(b: Book, j: int, id: int)
    requires id in b.rows
  {
    && j != id && j in b.live && j in b.rows
    && b.rows[j].dest == b.rows[id].dest && b.rows[j].exact && b.rows[j].process == "" && !b.rows[j].taken
    && b.rows[id].started - 2 <= b.rows[j].started <= b.rows[id].started + 5
  }

  /** The engine's row goes into the oldest of its twins, which keeps its bytes and
      takes the program, the rule and the way; a row that was taken goes nowhere. */
  ghost predicate MergeRules(b: Book, id: int, r: (Book, Option<int>))
    requires id in b.rows
  {
    var e := b.rows[id];
    match r.1
    case Some(j) =>
      && !e.taken && Twin(b, j, id) && (forall i :: Twin(b, i, id) ==> b.rows[j].started <= b.rows[i].started)
      && r.0.nextID == b.nextID && r.0.totals == b.totals && r.0.live == b.live - {id}
      && r.0.rows.Keys == b.rows.Keys && (forall i :: i in b.rows && i != id && i != j ==> r.0.rows[i] == b.rows[i])
      && r.0.rows[id] == e.(closed := true)
      && r.0.rows[j] == b.rows[j].(
           taken := true, process := e.process, rule := if e.rule == "" then b.rows[j].rule else e.rule,
           via := if e.via == "" then b.rows[j].via else e.via)
    case None => r.0 == b && (e.taken || forall j :: !Twin(b, j, id))
  }

  /** No row of the list started earlier. */
  ghost predicate Oldest(b: Book, id: int) {
    id in b.live && id in b.rows && forall j :: j in b.live && j in b.rows ==> b.rows[id].started <= b.rows[j].started
  }

  /** A new row, with nothing carried; of 512 the oldest leaves the list for it. */
  ghost predicate BeginRules(b: Book, r: Row, c: Book) {
    var id := b.nextID + 1;
    && c.nextID == id && c.totals == b.totals && c.rows == b.rows[id := r]
    && if |b.live| < 512 then c.live == b.live + {id} else exists first :: Oldest(b, first) && c.live == b.live - {first} + {id}
  }

  /** Since the last clear a row that was open at it has carried something; any
      other row counts from its start. */
  predicate Carrying(r: Row) { r.cleared ==> r.up > r.baseUp || r.down > r.baseDown }

  /** The totals with one connection more for the program and destination of the row:
      of 2000 the one that has been quiet longest is forgotten first. */
  ghost predicate TotalRules(totals: map<Key, Total>, r: Row, quiet: Key, now: int, after: map<Key, Total>) {
    var k := (r.process, r.dest);
    var room := if |totals| < 2000 then totals else totals - {quiet};
    var count, up, down, via :=
      if k in room then room[k].tally.count else 0, if k in room then room[k].tally.up else 0,
      if k in room then room[k].tally.down else 0, if k in room then room[k].via else "";
    && after.Keys == room.Keys + {k} && (forall j :: j in room && j != k ==> after[j] == room[j])
    && after[k] == Total(
         Tally(count + 1, up + r.up - r.baseUp, down + r.down - r.baseDown), if r.via == "" then via else r.via, now)
  }

  /** The end of a connection: once, its row leaves the list, and what it has
      carried goes to the totals, if it has a destination and recording is on. */
  ghost predicate EndRules(b: Book, id: int, watched: bool, quiet: Key, now: int, c: Book) {
    if id !in b.rows || b.rows[id].closed then c == b
    else
      var r := b.rows[id];
      && c.nextID == b.nextID && c.live == b.live - {id} && c.rows == b.rows[id := r.(closed := true)]
      && if watched && r.dest != "" && Carrying(r) then TotalRules(b.totals, r, quiet, now, c.totals) else c.totals == b.totals
  }

  /** The history is emptied; while recording is on the open rows start again from
      what they have carried, else the list is emptied too. */
  ghost predicate ClearRules(b: Book, watched: bool, c: Book) {
    && c.totals == map[] && c.nextID == b.nextID && c.live == (if watched then b.live else {})
    && c.rows.Keys == b.rows.Keys
    && forall i :: i in b.rows ==>
         var r := b.rows[i];
         c.rows[i] == if watched && i in b.live then r.(cleared := true, baseUp := r.up, baseDown := r.down) else r
  }

  /** What is chosen of the rows wanted, if any is, is one that no other is before, or
      after. */
  ghost predicate Extreme(rows: map<int, Row>, wanted: set<int>, latest: bool, c: Option<int>) {
    match c
    case None => wanted == {}
    case Some(id) =>
      && id in wanted && id in rows
      && forall i :: i in wanted && i in rows ==>
           if latest then rows[i].started <= rows[id].started else rows[id].started <= rows[i].started
  }

  lemma ChosenExtreme(rows: map<int, Row>, wanted: set<int>, n: nat, latest: bool)
    requires (forall i :: i in wanted ==> i in rows) && forall i :: i in rows ==> 1 <= i <= n
    ensures Extreme(rows, wanted, latest, Chosen(rows, wanted, n, latest))
  {
    NoneIffEmpty(rows, wanted, n, latest);
    forall i | i in wanted && i in rows
      ensures var c := Chosen(rows, wanted, n, latest);
        c.Some? && if latest then rows[i].started <= rows[c.value].started else rows[c.value].started <= rows[i].started
    {
      ChosenIsExtreme(rows, wanted, n, latest, i);
    }
    hide Chosen;
  }

  lemma AdoptGoesByRules(b: Book, dest: string)
    requires Valid(b)
    ensures AdoptRules(b, dest, Adopted(b, dest))
  {
    hide Chosen;
    var wanted := Adoptable(b, dest);
    ChosenExtreme(b.rows, wanted, b.nextID, true);
    forall j ensures j in wanted <==> FreeFor(b, j, dest) {}
  }

  lemma MergeGoesByRules(b: Book, id: int)
    requires Valid(b) && id in b.rows
    ensures MergeRules(b, id, Merged(b, id))
  {
    hide Chosen;
    var wanted := Mergeable(b, id);
    ChosenExtreme(b.rows, wanted, b.nextID, false);
    forall j ensures j in wanted <==> Twin(b, j, id) {}
  }

  /** Making room takes the oldest row from a full list. */
  lemma RoomGoesByRules(b: Book)
    requires Valid(b)
    ensures var c := MadeRoom(b);
      && c.rows == b.rows && c.totals == b.totals && c.nextID == b.nextID
      && if |b.live| < 512 then c == b else exists first :: Oldest(b, first) && c.live == b.live - {first}
  {
    hide Chosen;
    ChosenExtreme(b.rows, b.live, b.nextID, false);
    if |b.live| >= 512 { assert b.live != {}; }
  }

  lemma BeginGoesByRules(b: Book, dest: string, process: string, via: string, rule: string, exact: bool, now: int)
    requires Valid(b)
    ensures BeginRules(b, Row(process, dest, rule, via, 0, 0, now, exact, false, false, false, 0, 0),
                       Begun(b, dest, process, via, rule, exact, now))
  {
    hide Valid, MadeRoom, Oldest;
    RoomGoesByRules(b);
  }

  lemma {:induction false} SomeTotalIsQuietest(totals: map<Key, Total>, keys: set<Key>, k: Key) returns (q: Key)
    requires keys <= totals.Keys && k in totals && forall j :: j in totals && j !in keys ==> totals[k].last <= totals[j].last
    ensures Quietest(totals, q)
    decreases keys
  {
    if exists j :: j in keys && totals[j].last < totals[k].last {
      var j :| j in keys && totals[j].last < totals[k].last;
      q := SomeTotalIsQuietest(totals, (set i | i in keys && totals[i].last < totals[k].last && i != j), j);
    } else {
      q := k;
    }
  }

  /** A table that holds anything has a total that has been quiet longest. */
  lemma QuietestExists(totals: map<Key, Total>, k: Key)
    requires k in totals
    ensures exists q :: Quietest(totals, q)
  {
    var q := SomeTotalIsQuietest(totals, totals.Keys, k);
  }

  lemma AddedGoesByRules(totals: map<Key, Total>, r: Row, quiet: Key, now: int)
    requires r.dest != ""
    ensures TotalRules(totals, r, quiet, now, Added(totals, r, Since(r), true, quiet, now))
  {
    var room := if |totals| < 2000 then totals else totals - {quiet};
    var after := Added(totals, r, Since(r), true, quiet, now);
    assert after.Keys == room.Keys + {(r.process, r.dest)};
  }

  lemma TotalsGoByRules(totals: map<Key, Total>, r: Row, watched: bool, quiet: Key, now: int)
    ensures var after := TotalsWith(totals, r, watched, quiet, now);
      if watched && r.dest != "" && Carrying(r) then TotalRules(totals, r, quiet, now, after) else after == totals
  {
    hide TotalRules, Since;
    if r.dest != "" { AddedGoesByRules(totals, r, quiet, now); }
  }

  lemma EndGoesByRules(b: Book, id: int, watched: bool, quiet: Key, now: int)
    ensures EndRules(b, id, watched, quiet, now, Ended(b, id, watched, quiet, now))
  {
    hide TotalsWith, TotalRules, Carrying;
    if id in b.rows && !b.rows[id].closed { TotalsGoByRules(b.totals, b.rows[id], watched, quiet, now); }
  }

  lemma ClearGoesByRules(b: Book, watched: bool)
    ensures ClearRules(b, watched, Cleared(b, watched))
  {}
}
