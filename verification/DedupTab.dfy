/** Deleting a tab's duplicates is dedupByBody on its entries
    (applyDeleteDedupInPlace in vair/core/fetch.go). */
module DedupTab {
  import opened Decimal
  import opened Dedup
  import opened TabRows

  type ConfigRow = Row<Config?>

  /** The indices of the rows dedupByBody keeps. */
  ghost function KeptIndices(a: Asked, rows: seq<ConfigRow>): set<int> {
    set i | 0 <= i < |rows| && (|rows| <= 1 || IsKept(a, Entries(rows), i)) :: rows[i].index
  }

  lemma KeptIndex(a: Asked, rows: seq<ConfigRow>, i: nat)
    requires Increasing(rows) && i < |rows| && |rows| > 1
    ensures rows[i].index in KeptIndices(a, rows) <==> IsKept(a, Entries(rows), i)
  {
    hide IsKept;
    if rows[i].index in KeptIndices(a, rows) {
      var j :| 0 <= j < |rows| && IsKept(a, Entries(rows), j) && rows[j].index == rows[i].index;
      assert j == i;
    }
  }

  lemma {:induction false} PickedKept(a: Asked, rows: seq<ConfigRow>, n: nat)
    requires Increasing(rows) && n <= |rows| && |rows| > 1
    ensures Entries(Picked(rows[..n], KeptIndices(a, rows), true)) == Kept(a, Entries(rows), n)
  {
    hide IsKept, KeptIndices, Increasing, Picked, Kept, Entries;
    if n == 0 {
      NothingPicked(KeptIndices(a, rows));
      NothingKept(a, Entries(rows));
    } else {
      PickedKept(a, rows, n - 1);
      KeptIndex(a, rows, n - 1);
      KeptStep(a, Entries(rows), n - 1);
      PickedMore(rows[..n - 1], rows[n - 1], KeptIndices(a, rows));
      assert rows[..n] == rows[..n - 1] + [rows[n - 1]];
    }
  }

  lemma NothingKept(a: Asked, es: seq<Config?>)
    ensures Kept(a, es, 0) == []
  {}

  lemma PickedMore(rows: seq<ConfigRow>, r: ConfigRow, chosen: set<int>)
    ensures Entries(Picked(rows + [r], chosen, true)) ==
      if r.index in chosen then Entries(Picked(rows, chosen, true)) + [r.entry] else Entries(Picked(rows, chosen, true))
  {
    assert (rows + [r])[..|rows|] == rows;
  }

  lemma AllKept(a: Asked, rows: seq<ConfigRow>)
    requires |rows| <= 1
    ensures Picked(rows, KeptIndices(a, rows), true) == rows
  {
    hide IsKept, Picked;
    var keep := KeptIndices(a, rows);
    if rows == [] {
      NothingPicked(keep);
    } else {
      assert rows[0].index in keep;
      assert rows == [rows[0]];
      OnePicked(rows[0], keep);
    }
  }

  lemma NothingPicked(keep: set<int>)
    ensures Picked<Config?>([], keep, true) == []
  {}

  lemma OnePicked(r: ConfigRow, keep: set<int>)
    requires r.index in keep
    ensures Picked([r], keep, true) == [r]
  {
    assert [r][..0] == [];
  }

  /** The entries left are those dedupByBody keeps, in order, numbered from zero;
      and when it keeps all of them nothing changes, nor is there anything to
      undo. */
  lemma DropIsDedup(a: Asked, t: TabRows.Tab<Config?>)
    requires Increasing(t.rows)
    ensures var left := Deduped(a, Entries(t.rows));
      var u := Applied(t, DropDuplicates(KeptIndices(a, t.rows)));
      if |left| == |t.rows| then u == t
      else u.rows == Numbered(left, 0) && u.last == Some(Deletion(t.rows, u.rows))
  {
    hide KeptIndices, Picked, Increasing, Kept;
    if |t.rows| <= 1 {
      AllKept(a, t.rows);
    } else {
      PickedKept(a, t.rows, |t.rows|);
      assert t.rows[..|t.rows|] == t.rows;
    }
  }
}
