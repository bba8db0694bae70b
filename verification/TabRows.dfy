/** A tab's rows as values: every operation that edits a tab's list
    (vair/core/entry_move.go, entry_undo.go, entry_api.go and the paste in
    api.go) as a function of the rows before, and what all of them keep. E is
    the identity of an entry. */
module TabRows {
  import opened Decimal
  import opened Sorting

  datatype Row<E> = Row(entry: E, index: int)

  const MOVE_TO_START := -2

  /** Indices grow strictly with the position: an index names one row. */
  predicate Increasing<E>(rows: seq<Row<E>>) {
    && (forall i :: 0 <= i < |rows| ==> rows[i].index >= 0)
    && (forall i, j :: 0 <= i < j < |rows| ==> rows[i].index < rows[j].index)
  }

  function Entries<E>(rows: seq<Row<E>>): (r: seq<E>)
    ensures |r| == |rows| && forall i :: 0 <= i < |rows| ==> r[i] == rows[i].entry
  {
    seq(|rows|, i requires 0 <= i < |rows| => rows[i].entry)
  }

  function Numbered<E>(es: seq<E>, base: int): (r: seq<Row<E>>)
    ensures |r| == |es| && forall i :: 0 <= i < |es| ==> r[i] == Row(es[i], base + i)
  {
    seq(|es|, i requires 0 <= i < |es| => Row(es[i], base + i))
  }

  /** The rows whose index is chosen, or those whose index is not, in order. */
  function Picked<E>(rows: seq<Row<E>>, chosen: set<int>, yes: bool): seq<Row<E>> {
    if rows == [] then []
    else
      var last := rows[|rows| - 1];
      Picked(rows[..|rows| - 1], chosen, yes) + if (last.index in chosen) == yes then [last] else []
  }

  function Selected<E>(rows: seq<Row<E>>, chosen: set<int>): seq<Row<E>> { Picked(rows, chosen, true) }
  function Others<E>(rows: seq<Row<E>>, chosen: set<int>): seq<Row<E>> { Picked(rows, chosen, false) }

  /** nextEntryIndexLocked: one past the highest index in use. */
  function NextIndex<E>(rows: seq<Row<E>>): (n: int)
    ensures n >= 0 && forall i :: 0 <= i < |rows| ==> rows[i].index < n
    ensures n == 0 || exists i :: 0 <= i < |rows| && rows[i].index == n - 1
  {
    if rows == [] then 0
    else
      var last := rows[|rows| - 1];
      var before := NextIndex(rows[..|rows| - 1]);
      if last.index >= before then last.index + 1 else before
  }

  function Pasted<E>(rows: seq<Row<E>>, es: seq<E>): seq<Row<E>> {
    rows + Numbered(es, NextIndex(rows))
  }

  // ------------------------------------------------------------ moving

  /** The place of a row, if it is there. */
  function PlaceOf<E>(rows: seq<Row<E>>, index: int): (r: Option<nat>)
    ensures r.Some? ==> r.value < |rows| && rows[r.value].index == index
    ensures r.None? ==> forall i :: 0 <= i < |rows| ==> rows[i].index != index
    ensures r.Some? ==> forall i :: 0 <= i < r.value ==> rows[i].index != index
  {
    if rows == [] then None
    else
      match PlaceOf(rows[..|rows| - 1], index)
      case Some(i) => Some(i)
      case None => if rows[|rows| - 1].index == index then Some(|rows| - 1) else None
  }

  /** Where among the rows that stay the moved ones go in. */
  function GoesIn<E>(rest: seq<Row<E>>, target: int, after: bool): (r: Option<nat>)
    ensures r.Some? ==> r.value <= |rest|
  {
    if target == MOVE_TO_START then Some(0)
    else if target >= 0 then
      match PlaceOf(rest, target)
      case Some(i) => Some(if after then i + 1 else i)
      case None => None
    else Some(|rest|)
  }

  function Spliced<E>(rest: seq<Row<E>>, moved: seq<Row<E>>, pos: nat): seq<Row<E>>
    requires pos <= |rest|
  {
    rest[..pos] + moved + rest[pos..]
  }

  function ReorderedAt<E(==)>(rows: seq<Row<E>>, moved: seq<Row<E>>, rest: seq<Row<E>>, pos: nat): Option<seq<Row<E>>>
    requires pos <= |rest|
  {
    var out := Spliced(rest, moved, pos);
    if Entries(out) == Entries(rows) then None else Some(out)
  }

  /** The order a move would make; none when there is nothing to move, nowhere
      to move it, or it is there already. */
  function Reordered<E(==)>(rows: seq<Row<E>>, chosen: set<int>, target: int, after: bool): Option<seq<Row<E>>> {
    if target >= 0 && target in chosen then None
    else if Selected(rows, chosen) == [] then None
    else
      match GoesIn(Others(rows, chosen), target, after)
      case None => None
      case Some(pos) => ReorderedAt(rows, Selected(rows, chosen), Others(rows, chosen), pos)
  }

  function Block(pos: int, n: nat): (r: seq<int>)
    ensures |r| == n && forall i :: 0 <= i < n ==> r[i] == pos + i
  {
    seq(n, i => pos + i)
  }

  function Moved<E(==)>(rows: seq<Row<E>>, chosen: set<int>, target: int, after: bool): seq<Row<E>> {
    match Reordered(rows, chosen, target, after)
    case None => rows
    case Some(out) => Numbered(Entries(out), 0)
  }

  /** The indices the moved rows have now, none when nothing moved. */
  function MovedTo<E(==)>(rows: seq<Row<E>>, chosen: set<int>, target: int, after: bool): seq<int> {
    if Reordered(rows, chosen, target, after).None? then []
    else
      Block(GoesIn(Others(rows, chosen), target, after).value, |Selected(rows, chosen)|)
  }

  /** The last row of an order whose index changes from index to its place. */
  function Renumbered<E>(rows: seq<Row<E>>, index: int): (r: Option<nat>)
    ensures r.Some? ==> r.value < |rows| && rows[r.value].index == index != r.value
    ensures r.None? ==> forall i :: 0 <= i < |rows| && rows[i].index == index ==> i == index
  {
    if rows == [] then None
    else if rows[|rows| - 1].index == index != |rows| - 1 then Some(|rows| - 1)
    else Renumbered(rows[..|rows| - 1], index)
  }

  /** What an index of the old numbering becomes. */
  function Remapped<E>(rows: seq<Row<E>>, index: int): int {
    match Renumbered(rows, index)
    case Some(i) => i
    case None => index
  }

  /** Where the connection's row went. */
  function Followed<E(==)>(rows: seq<Row<E>>, chosen: set<int>, target: int, after: bool, conn: int): int {
    match Reordered(rows, chosen, target, after)
    case None => conn
    case Some(out) => Remapped(out, conn)
  }

  /** All a move does: the rows, the answer, the connection's row. */
  function MoveResult<E(==)>(rows: seq<Row<E>>, chosen: set<int>, target: int, after: bool, conn: int)
    : (seq<Row<E>>, seq<int>, int)
  {
    (Moved(rows, chosen, target, after), MovedTo(rows, chosen, target, after), Followed(rows, chosen, target, after, conn))
  }

  // ------------------------------------------------------------ what a tab is

  /** The last delete: the rows before it and after it. */
  datatype Deletion<E> = Deletion(before: seq<Row<E>>, after: seq<Row<E>>)

  datatype Tab<E> = Tab(rows: seq<Row<E>>, last: Option<Deletion<E>>)

  datatype Op<E> =
    | Reload(fetched: seq<E>)                                    // memReplace with a list numbered from the top
    | Paste(pasted: seq<E>)                                      // PasteChunk
    | Delete(doomed: set<int>)                                   // DeleteEntries, after resolveRows
    | Move(chosen: set<int>, target: int, after: bool)           // MoveEntries
    | DropDuplicates(keep: set<int>)                             // applyDeleteDedupInPlace
    | Undo                                                       // UndoDelete
    | Forget                                                     // its minute is up, or another tab's delete

  function Deleted<E>(t: Tab<E>, doomed: set<int>): Tab<E> {
    Tab(Others(t.rows, doomed), Some(Deletion(t.rows, Others(t.rows, doomed))))
  }

  function Dropped<E>(t: Tab<E>, keep: set<int>): Tab<E> {
    var kept := Selected(t.rows, keep);
    if |kept| == |t.rows| then t
    else
      var after := Numbered(Entries(kept), 0);
      Tab(after, Some(Deletion(t.rows, after)))
  }

  function Undone<E(==)>(t: Tab<E>): Tab<E> {
    match t.last
    case None => t
    case Some(d) => if t.rows == d.after then Tab(d.before, None) else Tab(t.rows, None)
  }

  function Applied<E(==)>(t: Tab<E>, op: Op<E>): Tab<E> {
    match op
    case Reload(es) => t.(rows := Numbered(es, 0))
    case Paste(es) => t.(rows := Pasted(t.rows, es))
    case Delete(doomed) => Deleted(t, doomed)
    case Move(chosen, target, after) => t.(rows := Moved(t.rows, chosen, target, after))
    case DropDuplicates(keep) => Dropped(t, keep)
    case Undo => Undone(t)
    case Forget => t.(last := None)
  }

  function After<E(==)>(t: Tab<E>, ops: seq<Op<E>>): Tab<E> {
    if ops == [] then t else Applied(After(t, ops[..|ops| - 1]), ops[|ops| - 1])
  }

  // ------------------------------------------------------------ the invariant

  predicate Sound<E>(t: Tab<E>) {
    Increasing(t.rows) && (t.last.Some? ==> Increasing(t.last.value.before))
  }

  lemma {:induction false} PickedMembers<E>(rows: seq<Row<E>>, chosen: set<int>, yes: bool)
    ensures forall r :: r in Picked(rows, chosen, yes) <==> r in rows && (r.index in chosen) == yes
  {
    if rows == [] {
    } else {
      PickedMembers(rows[..|rows| - 1], chosen, yes);
      assert rows == rows[..|rows| - 1] + [rows[|rows| - 1]];
    }
  }

  lemma {:induction false} PickedFrom<E>(rows: seq<Row<E>>, chosen: set<int>, yes: bool, i: nat) returns (j: nat)
    requires i < |Picked(rows, chosen, yes)|
    ensures j < |rows| && rows[j] == Picked(rows, chosen, yes)[i]
  {
    var front := rows[..|rows| - 1];
    if i < |Picked(front, chosen, yes)| {
      j := PickedFrom(front, chosen, yes, i);
    } else {
      j := |rows| - 1;
    }
  }

  lemma {:induction false} PickedIncreasing<E>(rows: seq<Row<E>>, chosen: set<int>, yes: bool)
    requires Increasing(rows)
    ensures Increasing(Picked(rows, chosen, yes))
  {
    if rows == [] {
    } else {
      var front, last := rows[..|rows| - 1], rows[|rows| - 1];
      PickedIncreasing(front, chosen, yes);
      var p := Picked(front, chosen, yes);
      forall i | 0 <= i < |p| ensures p[i].index < last.index {
        var j := PickedFrom(front, chosen, yes, i);
      }
    }
  }

  lemma OpKeepsSound<E>(t: Tab<E>, op: Op<E>)
    requires Sound(t)
    ensures Sound(Applied(t, op))
  {
    match op
    case Delete(doomed) => PickedIncreasing(t.rows, doomed, false);
    case _ =>
  }

  /** Every run of edits keeps the indices strictly increasing by position. */
  lemma {:induction false} RunsKeepSound<E>(es: seq<E>, ops: seq<Op<E>>)
    ensures Sound(After(Tab(Numbered(es, 0), None), ops))
    decreases |ops|
  {
    if ops == [] {
    } else {
      RunsKeepSound(es, ops[..|ops| - 1]);
      OpKeepsSound(After(Tab(Numbered(es, 0), None), ops[..|ops| - 1]), ops[|ops| - 1]);
    }
  }

  // ------------------------------------------------------------ looking up

  /** memEntry: by position first, else the first row with the index. */
  function MemEntry<E>(rows: seq<Row<E>>, index: int): Option<E> {
    if 0 <= index < |rows| && rows[index].index == index then Some(rows[index].entry)
    else
      match PlaceOf(rows, index)
      case Some(i) => Some(rows[i].entry)
      case None => None
  }

  /** In a sound tab it finds the entry with the index: that one, and none other
      has it. */
  lemma MemEntryFindsTheOne<E>(rows: seq<Row<E>>, index: int)
    requires Increasing(rows)
    ensures forall e :: MemEntry(rows, index) == Some(e) <==> Row(e, index) in rows
    ensures MemEntry(rows, index) == None <==> forall r :: r in rows ==> r.index != index
  {
    forall e ensures MemEntry(rows, index) == Some(e) <==> Row(e, index) in rows {
      if Row(e, index) in rows {
        var k :| 0 <= k < |rows| && rows[k] == Row(e, index);
        assert PlaceOf(rows, index) == Some(k);
      }
    }
  }

  // ------------------------------------------------------------ undo

  /** Delete, then undo, and the rows are back: entries, places and indices. */
  lemma DeleteThenUndo<E>(t: Tab<E>, doomed: set<int>)
    ensures Applied(Applied(t, Delete(doomed)), Undo) == Tab(t.rows, None)
  {}

  lemma DropDuplicatesThenUndo<E>(t: Tab<E>, keep: set<int>)
    ensures Applied(t, DropDuplicates(keep)) != t ==>
      Applied(Applied(t, DropDuplicates(keep)), Undo) == Tab(t.rows, None)
  {}

  predicate Remembers<E>(t: Tab<E>, op: Op<E>) {
    op.Delete? || (op.DropDuplicates? && |Selected(t.rows, op.keep)| != |t.rows|)
  }

  /** Where in a run the delete that can still be undone was made, counted from
      one: the last that took anything to remember, unless it was undone or
      forgotten since. */
  function LastDelete<E(==)>(t: Tab<E>, ops: seq<Op<E>>): (n: nat)
    ensures n <= |ops|
  {
    if ops == [] then 0
    else
      var front, op := ops[..|ops| - 1], ops[|ops| - 1];
      if Remembers(After(t, front), op) then |ops|
      else if op.Undo? || op.Forget? then 0
      else LastDelete(t, front)
  }

  lemma {:induction false} LastRemembered<E>(t: Tab<E>, ops: seq<Op<E>>)
    requires t.last == None
    ensures var n := LastDelete(t, ops);
      After(t, ops).last ==
        if n == 0 then None else Some(Deletion(After(t, ops[..n - 1]).rows, After(t, ops[..n]).rows))
    decreases |ops|
  {
    if ops == [] {
    } else {
      var front, op := ops[..|ops| - 1], ops[|ops| - 1];
      LastRemembered(t, front);
      assert ops[..|ops|] == ops;
      var n := LastDelete(t, front);
      if n > 0 { assert front[..n] == ops[..n] && front[..n - 1] == ops[..n - 1]; }
      hide Others, Selected, Numbered, Moved, Pasted, Entries;
      OneStep(After(t, front), op);
    }
  }

  lemma OneStep<E>(t: Tab<E>, op: Op<E>)
    ensures Applied(t, op).last ==
      if Remembers(t, op) then Some(Deletion(t.rows, Applied(t, op).rows))
      else if op.Undo? || op.Forget? then None
      else t.last
  {
    hide Picked, Numbered, Moved, Pasted;
  }

  /** An undo after any run whatever: it puts back the rows there were before the
      last delete when the list and its numbering are once more what that delete
      left, and otherwise, or when there is nothing to undo, changes no row. */
  lemma UndoAfterRun<E>(t: Tab<E>, ops: seq<Op<E>>)
    requires t.last == None
    ensures var n, now := LastDelete(t, ops), After(t, ops).rows;
      After(t, ops + [Undo]) ==
        Tab(if n > 0 && now == After(t, ops[..n]).rows then After(t, ops[..n - 1]).rows else now, None)
  {
    hide After, LastDelete;
    LastRemembered(t, ops);
    OneMoreOp(t, ops, Undo);
  }

  lemma OneMoreOp<E>(t: Tab<E>, ops: seq<Op<E>>, op: Op<E>)
    ensures After(t, ops + [op]) == Applied(After(t, ops), op)
  {
    hide Applied;
    assert (ops + [op])[..|ops|] == ops;
  }

  // ------------------------------------------------------------ moves

  lemma {:induction false} PickedBoth<E>(rows: seq<Row<E>>, chosen: set<int>)
    ensures multiset(Selected(rows, chosen)) + multiset(Others(rows, chosen)) == multiset(rows)
  {
    if rows == [] {
    } else {
      PickedBoth(rows[..|rows| - 1], chosen);
      assert rows == rows[..|rows| - 1] + [rows[|rows| - 1]];
    }
  }

  /** A reordering has exactly the old rows. */
  lemma ReorderPermutes<E>(rows: seq<Row<E>>, chosen: set<int>, target: int, after: bool)
    requires Reordered(rows, chosen, target, after).Some?
    ensures multiset(Reordered(rows, chosen, target, after).value) == multiset(rows)
  {
    PickedBoth(rows, chosen);
    var rest, pos := Others(rows, chosen), GoesIn(Others(rows, chosen), target, after).value;
    assert rest == rest[..pos] + rest[pos..];
  }

  lemma SplicedParts<E>(rest: seq<Row<E>>, m: seq<Row<E>>, pos: nat)
    requires pos <= |rest|
    ensures var es := Entries(Spliced(rest, m, pos));
            && |es| == |rest| + |m|
            && es[pos..pos + |m|] == Entries(m) && es[..pos] + es[pos + |m|..] == Entries(rest)
  {
    var es := Entries(Spliced(rest, m, pos));
    assert es[..pos] == Entries(rest)[..pos];
    assert es[pos + |m|..] == Entries(rest)[pos..];
    assert Entries(rest) == Entries(rest)[..pos] + Entries(rest)[pos..];
  }

  lemma MoveSplices<E>(rows: seq<Row<E>>, chosen: set<int>, target: int, after: bool)
    requires Reordered(rows, chosen, target, after).Some?
    ensures var pos := GoesIn(Others(rows, chosen), target, after);
      && pos.Some?
      && Reordered(rows, chosen, target, after).value == Spliced(Others(rows, chosen), Selected(rows, chosen), pos.value)
    ensures Moved(rows, chosen, target, after) == Numbered(Entries(Reordered(rows, chosen, target, after).value), 0)
  {
    hide Selected, Others, GoesIn, Spliced, Entries, Numbered;
  }

  /** A move keeps the entries, the moved ones together and in their order, the
      others in theirs. */
  lemma MoveKeepsBothOrders<E>(rows: seq<Row<E>>, chosen: set<int>, target: int, after: bool)
    requires Reordered(rows, chosen, target, after).Some?
    ensures var es, m, rest := Entries(Moved(rows, chosen, target, after)), Selected(rows, chosen), Others(rows, chosen);
            var pos := GoesIn(rest, target, after).value;
            && |es| == |rows| && pos + |m| <= |es|
            && es[pos..pos + |m|] == Entries(m) && es[..pos] + es[pos + |m|..] == Entries(rest)
  {
    hide Selected, Others, GoesIn, Reordered, Moved, Spliced, Entries, Numbered;
    MoveSplices(rows, chosen, target, after);
    var m, rest := Selected(rows, chosen), Others(rows, chosen);
    var pos := GoesIn(rest, target, after).value;
    var out := Spliced(rest, m, pos);
    ReorderPermutes(rows, chosen, target, after);
    SameSize(rows, out);
    SplicedParts(rest, m, pos);
    EntriesRenumbered(out);
  }

  lemma EntriesRenumbered<E>(rows: seq<Row<E>>)
    ensures Entries(Numbered(Entries(rows), 0)) == Entries(rows)
  {}

  lemma SameSize<T>(a: seq<T>, b: seq<T>)
    requires multiset(a) == multiset(b)
    ensures |a| == |b|
  {
    assert |multiset(a)| == |a| && |multiset(b)| == |b|;
  }

  /** Dropped at the start the block is first, dropped at the end it is last. */
  lemma MoveLandsAtTheEnds<E>(rows: seq<Row<E>>, chosen: set<int>, target: int, after: bool)
    requires target < 0 && Reordered(rows, chosen, target, after).Some?
    ensures var es, m := Entries(Moved(rows, chosen, target, after)), Entries(Selected(rows, chosen));
      |m| <= |es| && if target == MOVE_TO_START then es[..|m|] == m else es[|es| - |m|..] == m
  {
    hide Selected, Others, Reordered, Moved;
    MoveKeepsBothOrders(rows, chosen, target, after);
    var es, m, rest := Entries(Moved(rows, chosen, target, after)), Selected(rows, chosen), Others(rows, chosen);
    var pos := GoesIn(rest, target, after).value;
    assert |es[..pos] + es[pos + |m|..]| == |rest|;
  }

  /** The block stands where it was dropped: directly before the target row, or
      directly after it. */
  lemma MoveLandsAtTarget<E>(rows: seq<Row<E>>, chosen: set<int>, target: int, after: bool, k: nat)
    requires Increasing(rows) && k < |rows| && rows[k].index == target
    requires Reordered(rows, chosen, target, after).Some?
    ensures var es, m := Entries(Moved(rows, chosen, target, after)), |Selected(rows, chosen)|;
            var pos := GoesIn(Others(rows, chosen), target, after).value;
            if after then 0 < pos <= |es| && es[pos - 1] == rows[k].entry
            else pos + m < |es| && es[pos + m] == rows[k].entry
  {
    hide Picked, GoesIn, Reordered, Moved, Spliced, Entries, Numbered;
    MoveSplices(rows, chosen, target, after);
    TargetStays(rows, chosen, target, after, k);
    var m, rest := Selected(rows, chosen), Others(rows, chosen);
    EntriesRenumbered(Spliced(rest, m, GoesIn(rest, target, after).value));
    AroundTheBlock(rest, m, GoesIn(rest, target, after).value);
  }

  /** The target is among the rows that stay, and the block goes in beside it. */
  lemma TargetStays<E>(rows: seq<Row<E>>, chosen: set<int>, target: int, after: bool, k: nat)
    requires Increasing(rows) && k < |rows| && rows[k].index == target
    requires Reordered(rows, chosen, target, after).Some?
    ensures var rest := Others(rows, chosen);
            var pos := GoesIn(rest, target, after).value;
            if after then 0 < pos <= |rest| && rest[pos - 1] == rows[k] else pos < |rest| && rest[pos] == rows[k]
  {
    hide Picked, ReorderedAt, Increasing, GoesIn;
    PickedIncreasing(rows, chosen, false);
    PickedMembers(rows, chosen, false);
    IndexIsNat(rows, k);
    var rest := Others(rows, chosen);
    assert rows[k] in rest;
    SamePlace(rest, rows, k);
    GoesBeside(rest, target, after);
  }

  lemma IndexIsNat<E>(rows: seq<Row<E>>, k: nat)
    requires Increasing(rows) && k < |rows|
    ensures rows[k].index >= 0
  {}

  lemma GoesBeside<E>(rest: seq<Row<E>>, target: int, after: bool)
    requires target >= 0 && PlaceOf(rest, target).Some?
    ensures GoesIn(rest, target, after) == Some(PlaceOf(rest, target).value + if after then 1 else 0)
  {}

  lemma AroundTheBlock<E>(rest: seq<Row<E>>, m: seq<Row<E>>, pos: nat)
    requires pos <= |rest|
    ensures var es := Entries(Spliced(rest, m, pos));
      && |es| == |rest| + |m|
      && (pos > 0 ==> es[pos - 1] == rest[pos - 1].entry)
      && (pos < |rest| ==> es[pos + |m|] == rest[pos].entry)
  {}

  lemma SamePlace<E>(rest: seq<Row<E>>, rows: seq<Row<E>>, k: nat)
    requires Increasing(rest) && k < |rows| && rows[k] in rest
    ensures PlaceOf(rest, rows[k].index).Some? && rest[PlaceOf(rest, rows[k].index).value] == rows[k]
  {
    var i :| 0 <= i < |rest| && rest[i] == rows[k];
  }

  predicate Distinct<E(==)>(es: seq<E>) {
    forall i, j :: 0 <= i < j < |es| ==> es[i] != es[j]
  }

  /** The indices returned are those the moved entries have now, and nothing
      else's. */
  lemma MoveReturnsTheBlock<E>(rows: seq<Row<E>>, chosen: set<int>, target: int, after: bool, i: nat)
    requires Distinct(Entries(rows)) && Reordered(rows, chosen, target, after).Some?
    requires i < |Moved(rows, chosen, target, after)|
    ensures i in MovedTo(rows, chosen, target, after)
      <==> Moved(rows, chosen, target, after)[i].entry in Entries(Selected(rows, chosen))
  {
    hide Picked, GoesIn, Spliced, Distinct, Reordered, Moved, MovedTo, Entries, Numbered;
    MoveSplices(rows, chosen, target, after);
    var m, rest := Selected(rows, chosen), Others(rows, chosen);
    var pos := GoesIn(rest, target, after).value;
    var out := Spliced(rest, m, pos);
    EntriesRenumbered(out);
    MovedToIsBlock(rows, chosen, target, after, i);
    ReorderPermutes(rows, chosen, target, after);
    DistinctPermuted(rows, out);
    SplicedParts(rest, m, pos);
    InBlock(Entries(out), Entries(m), pos, i);
  }

  lemma MovedToIsBlock<E>(rows: seq<Row<E>>, chosen: set<int>, target: int, after: bool, i: int)
    requires Reordered(rows, chosen, target, after).Some?
    ensures var pos := GoesIn(Others(rows, chosen), target, after).value;
            i in MovedTo(rows, chosen, target, after) <==> pos <= i < pos + |Selected(rows, chosen)|
  {
    var pos := GoesIn(Others(rows, chosen), target, after).value;
    var to := MovedTo(rows, chosen, target, after);
    hide Selected, Others, GoesIn, Reordered;
    if pos <= i < pos + |to| { assert to[i - pos] == i; }
  }

  lemma InBlock<E>(es: seq<E>, m: seq<E>, pos: nat, i: nat)
    requires Distinct(es) && pos + |m| <= |es| && es[pos..pos + |m|] == m && i < |es|
    ensures es[i] in m <==> pos <= i < pos + |m|
  {
    if es[i] in m {
      var k :| 0 <= k < |m| && m[k] == es[i];
      assert es[pos + k] == es[pos..pos + |m|][k];
    }
    if pos <= i < pos + |m| { assert m[i - pos] == es[i]; }
  }

  lemma DistinctPermuted<E>(rows: seq<Row<E>>, out: seq<Row<E>>)
    requires multiset(out) == multiset(rows) && Distinct(Entries(rows))
    ensures Distinct(Entries(out))
  {
    var entry := (r: Row<E>) => r.entry;
    forall i, j | 0 <= i < j < |rows| ensures entry(rows[i]) != entry(rows[j]) {
      assert Entries(rows)[i] != Entries(rows)[j];
    }
    KeysStayDistinct(rows, out, entry);
    forall i, j | 0 <= i < j < |out| ensures Entries(out)[i] != Entries(out)[j] {
      assert entry(out[i]) != entry(out[j]);
    }
  }

  lemma {:induction false} PickedDistinct<E>(rows: seq<Row<E>>, chosen: set<int>, yes: bool)
    requires Distinct(Entries(rows))
    ensures Distinct(Entries(Picked(rows, chosen, yes)))
  {
    if rows == [] {
    } else {
      var front, last := rows[..|rows| - 1], rows[|rows| - 1];
      assert Entries(front) == Entries(rows)[..|rows| - 1];
      PickedDistinct(front, chosen, yes);
      var p := Picked(front, chosen, yes);
      forall i | 0 <= i < |p| ensures p[i].entry != last.entry {
        var j := PickedFrom(front, chosen, yes, i);
        assert Entries(rows)[j] != Entries(rows)[|rows| - 1];
      }
    }
  }

  /** The connection's row is the same entry after the move. */
  lemma ConnectionFollows<E>(rows: seq<Row<E>>, chosen: set<int>, target: int, after: bool, k: nat)
    requires Increasing(rows) && k < |rows|
    ensures var i := Followed(rows, chosen, target, after, rows[k].index);
            Row(rows[k].entry, i) in Moved(rows, chosen, target, after)
  {
    hide Reordered, Increasing, Remapped;
    if Reordered(rows, chosen, target, after).Some? {
      ReorderPermutes(rows, chosen, target, after);
      RemapFollows(rows, Reordered(rows, chosen, target, after).value, k);
    }
  }

  lemma RemapFollows<E>(rows: seq<Row<E>>, out: seq<Row<E>>, k: nat)
    requires Increasing(rows) && k < |rows| && multiset(out) == multiset(rows)
    ensures Row(rows[k].entry, Remapped(out, rows[k].index)) in Numbered(Entries(out), 0)
  {
    hide Renumbered, Increasing, Entries, Numbered;
    assert rows[k] in multiset(rows) && rows[k] in multiset(out);
    var p :| 0 <= p < |out| && out[p] == rows[k];
    var i := Remapped(out, rows[k].index);
    OneRowOfIndex(rows, out, i, k);
    assert Numbered(Entries(out), 0)[i] == Row(rows[k].entry, i);
  }

  lemma OneRowOfIndex<E>(rows: seq<Row<E>>, out: seq<Row<E>>, i: nat, k: nat)
    requires Increasing(rows) && k < |rows| && multiset(out) == multiset(rows)
    requires i < |out| && out[i].index == rows[k].index
    ensures out[i] == rows[k]
  {
    assert out[i] in multiset(out) && out[i] in multiset(rows);
    var q :| 0 <= q < |rows| && rows[q] == out[i];
  }
}
