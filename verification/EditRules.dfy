/** The edits of a tab, said from its rows: when a move is refused, and else where
    the block goes and what it is answered, and what a paste, a delete and the
    removal of duplicates leave (MoveEntries in vair/core/entry_move.go, DeleteEntries
    and applyDeleteDedupInPlace in entry_api.go, PasteChunk in api.go). */
module EditRules {
  import opened Decimal
  import opened TabRows

  /** The elements a test keeps, in their order. */
  function Filter<T>(s: seq<T>, keep: T -> bool): seq<T> {
    if s == [] then [] else (if keep(s[0]) then [s[0]] else []) + Filter(s[1..], keep)
  }

  /** The rows that move, and those that stay. */
  function Moving<E>(rows: seq<Row<E>>, chosen: set<int>): seq<Row<E>> { Filter(rows, (r: Row<E>) => r.index in chosen) }
  function Staying<E>(rows: seq<Row<E>>, chosen: set<int>): seq<Row<E>> { Filter(rows, (r: Row<E>) => r.index !in chosen) }

  predicate FirstWith<E>(rows: seq<Row<E>>, index: int, i: int) {
    0 <= i < |rows| && rows[i].index == index && forall j :: 0 <= j < i ==> rows[j].index != index
  }

  /** Where among the rows that stay the block goes in: at the start for -2, at the
      end for any other negative target, else before the row named or after it. */
  ghost predicate GoesTo<E>(rest: seq<Row<E>>, target: int, after: bool, p: int) {
    && 0 <= p <= |rest|
    && if target == -2 then p == 0
       else if target < 0 then p == |rest|
       else exists i :: FirstWith(rest, target, i) && p == if after then i + 1 else i
  }

  function Entered<E>(rest: seq<Row<E>>, block: seq<Row<E>>, p: nat): seq<E>
    requires p <= |rest|
  {
    Entries(rest[..p] + block + rest[p..])
  }

  /** Nothing to move, nowhere to move it, or there already. */
  ghost predicate Refused<E>(rows: seq<Row<E>>, chosen: set<int>, target: int, after: bool) {
    var block, rest := Moving(rows, chosen), Staying(rows, chosen);
    || block == []
    || (target >= 0 && (target in chosen || forall r :: r in rest ==> r.index != target))
    || exists p :: GoesTo(rest, target, after, p) && Entered(rest, block, p) == Entries(rows)
  }

  /** What a move makes of the rows and answers. */
  ghost predicate MoveMade<E>(rows: seq<Row<E>>, chosen: set<int>, target: int, after: bool, out: seq<Row<E>>, to: seq<int>) {
    var block, rest := Moving(rows, chosen), Staying(rows, chosen);
    && (forall i :: 0 <= i < |out| ==> out[i].index == i)
    && exists p ::
         && GoesTo(rest, target, after, p) && Entries(out) == Entered(rest, block, p)
         && |to| == |block| && forall k :: 0 <= k < |to| ==> to[k] == p + k
  }

  lemma FilterFirst<T>(x: T, s: seq<T>, keep: T -> bool)
    ensures Filter([x] + s, keep) == (if keep(x) then [x] else []) + Filter(s, keep)
  {
    assert ([x] + s)[1..] == s;
  }

  lemma {:induction false} FilterPlus<T>(a: seq<T>, b: seq<T>, keep: T -> bool)
    ensures Filter(a + b, keep) == Filter(a, keep) + Filter(b, keep)
    decreases |a|
  {
    if a == [] {
      assert a + b == b;
    } else {
      hide Filter;
      var x, rest := a[0], a[1..];
      assert a == [x] + rest && a + b == [x] + (rest + b);
      FilterFirst(x, rest, keep);
      FilterFirst(x, rest + b, keep);
      FilterPlus(rest, b, keep);
    }
  }

  lemma {:induction false} PickedIsFilter<E>(rows: seq<Row<E>>, chosen: set<int>, yes: bool, keep: Row<E> -> bool)
    requires forall r :: keep(r) <==> (r.index in chosen) == yes
    ensures Picked(rows, chosen, yes) == Filter(rows, keep)
  {
    if rows == [] {
    } else {
      var front, last := rows[..|rows| - 1], rows[|rows| - 1];
      PickedIsFilter(front, chosen, yes, keep);
      FilterPlus(front, [last], keep);
      assert rows == front + [last] && [last][1..] == [];
    }
  }

  lemma PartsAgree<E>(rows: seq<Row<E>>, chosen: set<int>)
    ensures Selected(rows, chosen) == Moving(rows, chosen) && Others(rows, chosen) == Staying(rows, chosen)
  {
    PickedIsFilter(rows, chosen, true, (r: Row<E>) => r.index in chosen);
    PickedIsFilter(rows, chosen, false, (r: Row<E>) => r.index !in chosen);
  }

  lemma PlaceIsFirst<E>(rest: seq<Row<E>>, target: int)
    ensures match PlaceOf(rest, target)
      case Some(i) => FirstWith(rest, target, i) && forall j :: FirstWith(rest, target, j) ==> j == i
      case None => forall r :: r in rest ==> r.index != target
  {
  }

  /** A place is found just when there is one, and it is the only one. */
  lemma GoesInIsPlace<E>(rest: seq<Row<E>>, target: int, after: bool)
    ensures match GoesIn(rest, target, after)
      case Some(pos) => GoesTo(rest, target, after, pos) && forall p :: GoesTo(rest, target, after, p) ==> p == pos
      case None => target >= 0 && (forall r :: r in rest ==> r.index != target) && forall p :: !GoesTo(rest, target, after, p)
    ensures (target >= 0 && forall r :: r in rest ==> r.index != target) ==> GoesIn(rest, target, after).None?
  {
    hide PlaceOf, FirstWith;
    PlaceIsFirst(rest, target);
    if forall r :: r in rest ==> r.index != target {
      forall i ensures !FirstWith(rest, target, i) { NotFirst(rest, target, i); }
    }
  }

  lemma NotFirst<E>(rest: seq<Row<E>>, target: int, i: int)
    requires forall r :: r in rest ==> r.index != target
    ensures !FirstWith(rest, target, i)
  {}

  /** A move is refused exactly when there is nothing to move, nowhere to move it or
      it is there already; else the block goes to its place, everything is numbered
      from the top, and the answer is where the block stands. */
  lemma MoveGoesByRules<E>(rows: seq<Row<E>>, chosen: set<int>, target: int, after: bool)
    ensures var out, to := Moved(rows, chosen, target, after), MovedTo(rows, chosen, target, after);
      if Refused(rows, chosen, target, after) then out == rows && to == [] else MoveMade(rows, chosen, target, after, out, to)
  {
    hide Picked, GoesIn, GoesTo, Filter, Moving, Staying, Entries, Numbered;
    PartsAgree(rows, chosen);
    var rest := Others(rows, chosen);
    GoesInIsPlace(rest, target, after);
    match GoesIn(rest, target, after)
    case None =>
    case Some(pos) => EntriesRenumbered(Spliced(rest, Selected(rows, chosen), pos));
  }

  // ------------------------------------------------------------ the connection's row

  /** A row with the index that is not at it: it is numbered anew. */
  predicate Renumbers<E>(order: seq<Row<E>>, index: int, i: int) { 0 <= i < |order| && order[i].index == index != i }

  /** The connection's index after the numbering: the place of the last row that had
      it and is numbered anew, and itself when there is none. */
  ghost predicate NowAt<E>(order: seq<Row<E>>, conn: int, now: int) {
    if exists i :: Renumbers(order, conn, i)
    then Renumbers(order, conn, now) && forall i :: Renumbers(order, conn, i) ==> i <= now
    else now == conn
  }

  lemma {:induction false} RemappedIsLast<E>(order: seq<Row<E>>, conn: int)
    ensures NowAt(order, conn, Remapped(order, conn))
    decreases |order|
  {
    if order == [] {
    } else {
      var front, k := order[..|order| - 1], |order| - 1;
      RemappedIsLast(front, conn);
      forall i ensures Renumbers(order, conn, i) <==> Renumbers(front, conn, i) || (i == k && order[k].index == conn != k) {}
      if order[k].index == conn != k { assert Renumbers(order, conn, k); }
    }
  }

  /** A move that is refused leaves the connection's index; another takes it to where
      the row it names went. */
  lemma FollowGoesByRules<E>(rows: seq<Row<E>>, chosen: set<int>, target: int, after: bool, conn: int)
    ensures var now := Followed(rows, chosen, target, after, conn);
      var block, rest := Moving(rows, chosen), Staying(rows, chosen);
      if Refused(rows, chosen, target, after) then now == conn
      else exists p :: GoesTo(rest, target, after, p) && NowAt(rest[..p] + block + rest[p..], conn, now)
  {
    hide Picked, GoesIn, GoesTo, Filter, Moving, Staying, Entries, Numbered, NowAt, Remapped;
    PartsAgree(rows, chosen);
    var rest := Others(rows, chosen);
    GoesInIsPlace(rest, target, after);
    match GoesIn(rest, target, after)
    case None =>
    case Some(pos) => RemappedIsLast(Spliced(rest, Selected(rows, chosen), pos), conn);
  }

  // ------------------------------------------------------------ the other edits

  /** One past the highest index in use, nought when none is. */
  ghost predicate NextFree<E>(rows: seq<Row<E>>, n: int) {
    && n >= 0 && (forall r :: r in rows ==> r.index < n)
    && (n == 0 || exists r :: r in rows && r.index == n - 1)
  }

  /** What an edit leaves of the rows; the survivors of a delete keep their indices,
      those of the removal of duplicates are numbered from the top when any went. */
  ghost predicate EditMade<E>(rows: seq<Row<E>>, op: Op<E>, out: seq<Row<E>>) {
    match op
    case Reload(es) => |out| == |es| && forall i :: 0 <= i < |out| ==> out[i] == Row(es[i], i)
    case Paste(es) =>
      && |out| == |rows| + |es| && out[..|rows|] == rows
      && exists n :: NextFree(rows, n) && forall k :: 0 <= k < |es| ==> out[|rows| + k] == Row(es[k], n + k)
    case Delete(doomed) => out == Staying(rows, doomed)
    case DropDuplicates(keep) =>
      var kept := Moving(rows, keep);
      if |kept| == |rows| then out == rows
      else |out| == |kept| && forall i :: 0 <= i < |out| ==> out[i] == Row(kept[i].entry, i)
    case _ => true
  }

  lemma NextIsFree<E>(rows: seq<Row<E>>)
    ensures NextFree(rows, NextIndex(rows))
  {
    hide NextIndex;
    if NextIndex(rows) > 0 {
      var i :| 0 <= i < |rows| && rows[i].index == NextIndex(rows) - 1;
      assert rows[i] in rows;
    }
  }

  /** What every edit leaves. */
  lemma EditGoesByRules<E>(t: Tab<E>, op: Op<E>)
    ensures EditMade(t.rows, op, Applied(t, op).rows)
  {
    hide Picked, NextIndex, NextFree, Filter, Moving, Staying, Moved;
    match op
    case Paste(_) => NextIsFree(t.rows);
    case Delete(doomed) => PartsAgree(t.rows, doomed);
    case DropDuplicates(keep) => PartsAgree(t.rows, keep);
    case _ =>
  }
}
