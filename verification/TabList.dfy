/** The same edits on the entries themselves: a tab is a list of shared, mutable
    entries, each carrying its own index, and an edit rewrites the list and the
    indices in place. Every method does to the rows what TabRows says. */
module TabList {
  import opened Decimal
  import opened TabRows

  class ConfigEntry {
    const raw: string
    var index: int

    constructor (raw: string)
      ensures this.raw == raw
    {
      this.raw, index := raw, 0;
    }
  }

  type Entry = ConfigEntry

  function RowsOf(es: seq<Entry>): (r: seq<Row<Entry>>)
    reads es
    ensures |r| == |es| && forall i :: 0 <= i < |es| ==> r[i] == Row(es[i], es[i].index)
  {
    seq(|es|, i requires 0 <= i < |es| reads es => Row(es[i], es[i].index))
  }

  function Zipped(es: seq<Entry>, idx: seq<int>): (r: seq<Row<Entry>>)
    requires |es| == |idx|
    ensures |r| == |es| && forall i :: 0 <= i < |es| ==> r[i] == Row(es[i], idx[i])
  {
    seq(|es|, i requires 0 <= i < |es| => Row(es[i], idx[i]))
  }

  lemma EntriesOfRows(es: seq<Entry>)
    ensures Entries(RowsOf(es)) == es
  {}

  /** entryIndices. */
  method EntryIndices(es: seq<Entry>) returns (idx: seq<int>)
    ensures |idx| == |es| && Zipped(es, idx) == RowsOf(es)
  {
    idx := [];
    for i := 0 to |es|
      invariant |idx| == i && forall j :: 0 <= j < i ==> idx[j] == es[j].index
    {
      idx := idx + [es[i].index];
    }
  }

  method Renumber(es: seq<Entry>, base: int)
    requires Distinct(es)
    modifies es
    ensures RowsOf(es) == Numbered(es, base)
  {
    for i := 0 to |es|
      invariant forall j :: 0 <= j < i ==> es[j].index == base + j
    {
      es[i].index := base + i;
    }
  }

  /** New entries numbered on, behind those that are there. */
  method NumberOn(es: seq<Entry>, more: seq<Entry>, base: int)
    requires Distinct(more) && Apart(es, more)
    modifies more
    ensures RowsOf(es + more) == old(RowsOf(es)) + Numbered(more, base)
  {
    Renumber(more, base);
  }

  method SetIndices(es: seq<Entry>, idx: seq<int>)
    requires Distinct(es) && |es| == |idx|
    modifies es
    ensures RowsOf(es) == Zipped(es, idx)
  {
    for i := 0 to |es|
      invariant forall j :: 0 <= j < i ==> es[j].index == idx[j]
    {
      es[i].index := idx[i];
    }
  }

  /** The entries whose index is chosen, or those whose index is not. */
  method Pick(es: seq<Entry>, chosen: set<int>, yes: bool) returns (picked: seq<Entry>)
    ensures RowsOf(picked) == Picked(RowsOf(es), chosen, yes)
  {
    picked := [];
    hide Picked;
    PickedNone(chosen, yes);
    for i := 0 to |es|
      invariant RowsOf(picked) == Picked(RowsOf(es[..i]), chosen, yes)
    {
      var e := es[i];
      RowsAppend(es[..i], e);
      RowsAppend(picked, e);
      PickedAppend(RowsOf(es[..i]), Row(e, e.index), chosen, yes);
      assert es[..i] + [e] == es[..i + 1];
      if (e.index in chosen) == yes { picked := picked + [e]; }
    }
    assert es[..|es|] == es;
  }

  lemma RowsAppend(es: seq<Entry>, e: Entry)
    ensures RowsOf(es + [e]) == RowsOf(es) + [Row(e, e.index)]
  {}

  lemma PickedNone(chosen: set<int>, yes: bool)
    ensures Picked<Entry>([], chosen, yes) == []
  {}

  lemma PickedAppend(rows: seq<Row<Entry>>, r: Row<Entry>, chosen: set<int>, yes: bool)
    ensures if (r.index in chosen) == yes then Picked(rows + [r], chosen, yes) == Picked(rows, chosen, yes) + [r]
            else Picked(rows + [r], chosen, yes) == Picked(rows, chosen, yes)
  {
    assert (rows + [r])[..|rows|] == rows;
  }

  method FindPlace(es: seq<Entry>, index: int) returns (r: Option<nat>)
    ensures r == PlaceOf(RowsOf(es), index)
  {
    for i := 0 to |es|
      invariant forall j :: 0 <= j < i ==> es[j].index != index
    {
      if es[i].index == index {
        r := Some(i);
        assert RowsOf(es)[i].index == index;
        return;
      }
    }
    return None;
  }

  /** nextEntryIndexLocked. */
  method NextEntryIndex(es: seq<Entry>) returns (next: int)
    ensures next == NextIndex(RowsOf(es))
  {
    next := 0;
    assert NextIndex(RowsOf(es[..0])) == 0;
    hide NextIndex;
    for i := 0 to |es|
      invariant next == NextIndex(RowsOf(es[..i]))
    {
      RowsAppend(es[..i], es[i]);
      assert es[..i] + [es[i]] == es[..i + 1];
      NextAppend(RowsOf(es[..i]), Row(es[i], es[i].index));
      if es[i].index >= next { next := es[i].index + 1; }
    }
    assert es[..|es|] == es;
  }

  lemma NextAppend(rows: seq<Row<Entry>>, r: Row<Entry>)
    ensures NextIndex(rows + [r]) == if r.index >= NextIndex(rows) then r.index + 1 else NextIndex(rows)
  {
    assert (rows + [r])[..|rows|] == rows;
  }

  /** The indices of a new order: index is position. remap tells the indices
      that changed what they became. */
  method RenumberMoved(es: seq<Entry>) returns (remap: map<int, int>)
    requires Distinct(es)
    modifies es
    ensures RowsOf(es) == Numbered(es, 0)
    ensures forall c :: (if c in remap then remap[c] else c) == Remapped(old(RowsOf(es)), c)
  {
    remap := map[];
    ghost var was := RowsOf(es);
    hide Renumbered;
    NoneRenumbered(was[..0]);
    for i := 0 to |es|
      invariant forall j :: 0 <= j < i ==> es[j].index == j
      invariant forall j :: i <= j < |es| ==> es[j].index == was[j].index
      invariant forall c :: (if c in remap then remap[c] else c) == Remapped(was[..i], c)
    {
      OneRenumbered(was[..i], was[i]);
      assert was[..i] + [was[i]] == was[..i + 1];
      if es[i].index != i {
        remap := remap[es[i].index := i];
        es[i].index := i;
      }
    }
    assert was[..|es|] == was;
  }

  lemma NoneRenumbered(rows: seq<Row<Entry>>)
    ensures rows == [] ==> forall c :: Remapped(rows, c) == c
  {}

  lemma OneRenumbered(rows: seq<Row<Entry>>, r: Row<Entry>)
    ensures forall c :: Remapped(rows + [r], c) == if r.index == c && c != |rows| then |rows| else Remapped(rows, c)
  {
    assert (rows + [r])[..|rows|] == rows;
  }

  lemma MoveIs(rows: seq<Row<Entry>>, chosen: set<int>, target: int, after: bool, conn: int, out: Option<seq<Row<Entry>>>)
    requires out == Reordered(rows, chosen, target, after)
    ensures MoveResult(rows, chosen, target, after, conn)
         == (if out.None? then rows else Numbered(Entries(out.value), 0),
             MovedTo(rows, chosen, target, after),
             if out.None? then conn else Remapped(out.value, conn))
  {
    hide Reordered, MovedTo;
  }

  /** The new numbering, and what it made of the connection's index. */
  method Arrange(es: seq<Entry>, conn: int) returns (now: int)
    requires Distinct(es)
    modifies es
    ensures RowsOf(es) == Numbered(es, 0)
    ensures now == Remapped(old(RowsOf(es)), conn)
  {
    var remap := RenumberMoved(es);
    now := if conn in remap then remap[conn] else conn;
  }

  /** Whether the tab is exactly what a delete left: same entries, same
      numbering. */
  method StillAs(es: seq<Entry>, d: Snapshot) returns (same: bool)
    ensures same == (RowsOf(es) == DeletionOf(d).after)
  {
    same := |es| == |d.after|;
    var i := 0;
    while same && i < |es|
      invariant 0 <= i <= |es|
      invariant same ==> |es| == |d.after| && forall j :: 0 <= j < i ==> es[j] == d.after[j] && es[j].index == d.afterI[j]
      invariant !same ==> RowsOf(es) != Zipped(d.after, d.afterI)
    {
      same := es[i] == d.after[i] && es[i].index == d.afterI[i];
      if !same { assert RowsOf(es)[i] != Zipped(d.after, d.afterI)[i]; }
      i := i + 1;
    }
  }

  /** The old list's entries get their old indices back. */
  method PutBack(d: Snapshot)
    modifies d.before
    ensures RowsOf(d.before) == DeletionOf(d).before
  {
    SetIndices(d.before, d.idx);
  }

  /** Where among the entries that stay the moved ones go in. */
  method InsertAt(rest: seq<Entry>, target: int, after: bool) returns (r: Option<nat>)
    ensures r == GoesIn(RowsOf(rest), target, after)
  {
    if target == MOVE_TO_START { return Some(0); }
    if target >= 0 {
      var at := FindPlace(rest, target);
      if at.None? { return None; }
      return Some(if after then at.value + 1 else at.value);
    }
    return Some(|rest|);
  }

  /** The new order, unless it is the old one. */
  method Splice(es: seq<Entry>, block: seq<Entry>, rest: seq<Entry>, pos: nat) returns (r: Option<seq<Entry>>)
    requires pos <= |rest|
    ensures RowsIf(r) == ReorderedAt(RowsOf(es), RowsOf(block), RowsOf(rest), pos)
  {
    var out := rest[..pos] + block + rest[pos..];
    SplicedRows(rest, block, pos);
    EntriesOfRows(out);
    EntriesOfRows(es);
    return if out == es then None else Some(out);
  }

  ghost function RowsIf(r: Option<seq<Entry>>): Option<seq<Row<Entry>>>
    reads if r.None? then [] else r.value
  {
    if r.None? then None else Some(RowsOf(r.value))
  }

  /** The new order a move asks for, and where in it the moved block is. */
  method PlanMove(es: seq<Entry>, chosen: set<int>, target: int, after: bool)
    returns (out: Option<seq<Entry>>, moved: seq<int>)
    ensures RowsIf(out) == Reordered(RowsOf(es), chosen, target, after)
    ensures moved == MovedTo(RowsOf(es), chosen, target, after)
  {
    hide Picked, GoesIn, ReorderedAt;
    out, moved := None, [];
    if target >= 0 && target in chosen { return; }
    var block := Pick(es, chosen, true);
    var rest := Pick(es, chosen, false);
    if block == [] { return; }
    var at := InsertAt(rest, target, after);
    if at.None? { return; }
    out := Splice(es, block, rest, at.value);
    if out.Some? { moved := Block(at.value, |block|); }
  }

  datatype Remembered = Remembered(before: seq<Entry>, idx: seq<int>, after: seq<Entry>, afterI: seq<int>)

  /** What rememberDelete keeps: lists with the indices their entries had. */
  type Snapshot = r: Remembered | |r.before| == |r.idx| && |r.after| == |r.afterI| && Distinct(r.before)
    witness Remembered([], [], [], [])

  function DeletionOf(r: Snapshot): Deletion<Entry> {
    Deletion(Zipped(r.before, r.idx), Zipped(r.after, r.afterI))
  }

  /** rememberDelete. */
  method Remember(before: seq<Entry>, idx: seq<int>, after: seq<Entry>) returns (r: Option<Snapshot>)
    requires |before| == |idx| && Distinct(before)
    ensures Undoable(r) == Some(Deletion(Zipped(before, idx), RowsOf(after)))
    ensures r.Some? && r.value.before == before
  {
    var afterI := EntryIndices(after);
    r := Some(Remembered(before, idx, after, afterI));
  }

  function Undoable(last: Option<Snapshot>): Option<Deletion<Entry>> {
    if last.None? then None else Some(DeletionOf(last.value))
  }

  /** What a delete leaves, and what undoes it. */
  method Survivors(es: seq<Entry>, doomed: set<int>) returns (kept: seq<Entry>, last: Option<Snapshot>)
    requires Distinct(es)
    ensures Distinct(kept) && RowsOf(kept) == Others(RowsOf(es), doomed)
    ensures Undoable(last) == Some(Deletion(RowsOf(es), RowsOf(kept)))
  {
    kept := Pick(es, doomed, false);
    KeptDistinct(es, kept, doomed, false);
    hide Distinct, Picked, Undoable;
    var beforeIdx := EntryIndices(es);
    last := Remember(es, beforeIdx, kept);
  }

  /** One copy of each, and the indices all had. */
  method Copies(es: seq<Entry>, keep: set<int>) returns (kept: seq<Entry>, idx: seq<int>)
    requires Distinct(es)
    ensures Distinct(kept) && RowsOf(kept) == Selected(RowsOf(es), keep)
    ensures forall i :: 0 <= i < |kept| ==> kept[i] in es
    ensures |idx| == |es| && Zipped(es, idx) == RowsOf(es)
  {
    kept := Pick(es, keep, true);
    KeptDistinct(es, kept, keep, true);
    hide Distinct, Picked;
    idx := EntryIndices(es);
  }

  class Tab {
    var entries: seq<Entry>
    var last: Option<Snapshot>
    var connIndex: int

    /** An entry stands in the list once. */
    ghost predicate Valid() reads this { Distinct(entries) }

    ghost function State(): TabRows.Tab<Entry>
      reads this, entries
    {
      TabRows.Tab(RowsOf(entries), Undoable(last))
    }

    constructor ()
      ensures Valid() && State() == TabRows.Tab([], None)
    {
      entries, last, connIndex := [], None, -1;
    }

    /** PasteChunk, after the parse. */
    method PasteChunk(more: seq<Entry>)
      requires Valid() && Distinct(more) && Apart(entries, more)
      modifies `entries, more
      ensures Valid()
      ensures RowsOf(entries) == Pasted(old(RowsOf(entries)), more)
    {
      hide Distinct, NextIndex;
      Joined(entries, more);
      var base := NextEntryIndex(entries);
      NumberOn(entries, more, base);
      entries := entries + more;
    }

    /** memReplace with a list that is numbered from the top. */
    method Replace(fetched: seq<Entry>)
      requires Distinct(fetched)
      modifies `entries, fetched
      ensures Valid()
      ensures RowsOf(entries) == Numbered(fetched, 0)
    {
      Renumber(fetched, 0);
      entries := fetched;
    }

    /** DeleteEntries: the survivors keep their indices. */
    method DeleteEntries(doomed: set<int>)
      requires Valid()
      modifies `entries, `last
      ensures Valid()
      ensures RowsOf(entries) == Others(old(RowsOf(entries)), doomed)
      ensures Undoable(last) == Some(Deletion(old(RowsOf(entries)), RowsOf(entries)))
    {
      hide Distinct, Picked, Undoable;
      entries, last := Survivors(entries, doomed);
    }

    /** applyDeleteDedupInPlace, given what it keeps. */
    method DropDuplicates(keep: set<int>)
      requires Valid()
      modifies `entries, `last, entries
      ensures Valid()
      ensures TabRows.Tab(RowsOf(entries), Undoable(last)) == Dropped(old(TabRows.Tab(RowsOf(entries), Undoable(last))), keep)
    {
      hide Distinct, Picked, Undoable;
      var kept, beforeIdx := Copies(entries, keep);
      if |kept| == |entries| { return; }
      EntriesOfRows(kept);
      Renumber(kept, 0);
      last := Remember(entries, beforeIdx, kept);
      entries := kept;
    }

    method ForgetDelete()
      modifies `last
      ensures Undoable(last) == None
    {
      last := None;
    }

    /** UndoDelete. */
    method UndoDelete()
      requires Valid()
      modifies `entries, `last, if last.Some? then last.value.before else []
      ensures Valid()
      ensures State() == Undone(old(State()))
    {
      if last.None? { return; }
      var d := last.value;
      hide Zipped, DeletionOf;
      var same := StillAs(entries, d);
      last := None;
      if !same { return; }
      PutBack(d);
      entries := d.before;
    }

    /** MoveEntries: the moved entries' new indices, none when nothing moved. */
    method MoveEntries(chosen: set<int>, target: int, after: bool) returns (moved: seq<int>)
      requires Valid()
      modifies `entries, `connIndex, entries
      ensures Valid()
      ensures (RowsOf(entries), moved, connIndex) == MoveResult(old(RowsOf(entries)), chosen, target, after, old(connIndex))
    {
      hide MoveResult, MovedTo, Reordered, Distinct, Remapped;
      var out: Option<seq<Entry>>;
      out, moved := PlanMove(entries, chosen, target, after);
      MoveIs(RowsOf(entries), chosen, target, after, connIndex, RowsIf(out));
      if out.None? { return; }
      ReorderedDistinct(entries, chosen, target, after, out.value);
      EntriesOfRows(out.value);
      connIndex := Arrange(out.value, connIndex);
      entries := out.value;
    }

    /** memEntry. */
    method MemEntry(index: int) returns (r: Option<Entry>)
      ensures r == TabRows.MemEntry(RowsOf(entries), index)
    {
      if 0 <= index < |entries| && entries[index].index == index { return Some(entries[index]); }
      var at := FindPlace(entries, index);
      return if at.Some? then Some(entries[at.value]) else None;
    }
  }

  lemma KeptDistinct(es: seq<Entry>, kept: seq<Entry>, chosen: set<int>, yes: bool)
    requires Distinct(es) && RowsOf(kept) == Picked(RowsOf(es), chosen, yes)
    ensures Distinct(kept)
    ensures forall i :: 0 <= i < |kept| ==> kept[i] in es
  {
    EntriesOfRows(es);
    EntriesOfRows(kept);
    PickedDistinct(RowsOf(es), chosen, yes);
    forall i | 0 <= i < |kept| ensures kept[i] in es {
      var j := PickedFrom(RowsOf(es), chosen, yes, i);
    }
  }

  ghost predicate Apart(a: seq<Entry>, b: seq<Entry>) {
    forall i, j :: 0 <= i < |a| && 0 <= j < |b| ==> a[i] != b[j]
  }

  lemma Joined(a: seq<Entry>, b: seq<Entry>)
    requires Distinct(a) && Distinct(b) && Apart(a, b)
    ensures Distinct(a + b)
  {}

  lemma SplicedRows(rest: seq<Entry>, block: seq<Entry>, pos: nat)
    requires pos <= |rest|
    ensures RowsOf(rest[..pos] + block + rest[pos..]) == Spliced(RowsOf(rest), RowsOf(block), pos)
  {}

  /** A new order has the old entries, each once. */
  lemma ReorderedDistinct(es: seq<Entry>, chosen: set<int>, target: int, after: bool, out: seq<Entry>)
    requires Distinct(es)
    requires Reordered(RowsOf(es), chosen, target, after) == Some(RowsOf(out))
    ensures Distinct(out)
    ensures forall i :: 0 <= i < |out| ==> out[i] in es
  {
    var rows, o := RowsOf(es), RowsOf(out);
    EntriesOfRows(es);
    EntriesOfRows(out);
    ReorderPermutes(rows, chosen, target, after);
    hide Reordered, Distinct;
    DistinctPermuted(rows, o);
    MembersPermuted(es, out);
  }

  lemma MembersPermuted(es: seq<Entry>, out: seq<Entry>)
    requires multiset(RowsOf(out)) == multiset(RowsOf(es))
    ensures forall i :: 0 <= i < |out| ==> out[i] in es
  {
    forall i | 0 <= i < |out| ensures out[i] in es {
      assert RowsOf(out)[i] in multiset(RowsOf(es));
      var p :| 0 <= p < |es| && RowsOf(es)[p] == RowsOf(out)[i];
    }
  }
}
