/** Rows the user acted on, found again wherever a refresh put them
    (resolveRows and IndicesOf in vair/core/entry_undo.go). */
module RowResolve {
  import opened Decimal

  /** A row as the lookup sees it. */
  datatype Listed = Listed(index: int, raw: string)

  predicate OneRowPerIndex(rows: seq<Listed>) {
    forall i, j :: 0 <= i < j < |rows| ==> rows[i].index != rows[j].index
  }

  /** The configuration at an index: that of the last row with the index. */
  function RawAt(rows: seq<Listed>, index: int): Option<string> {
    if rows == [] then None
    else if rows[|rows| - 1].index == index then Some(rows[|rows| - 1].raw)
    else RawAt(rows[..|rows| - 1], index)
  }

  lemma {:induction false} IndexIsTaken(rows: seq<Listed>, n: nat)
    requires n < |rows|
    ensures RawAt(rows, rows[n].index).Some?
  {
    if n == |rows| - 1 {
    } else {
      IndexIsTaken(rows[..|rows| - 1], n);
    }
  }

  /** The rows with the configurations found at their indices: the rows
      themselves when every index names one. */
  function AsIndexed(rows: seq<Listed>): (r: seq<Listed>)
    ensures |r| == |rows|
    ensures forall n :: 0 <= n < |r| ==> r[n].index == rows[n].index && RawAt(rows, r[n].index) == Some(r[n].raw)
  {
    forall n | 0 <= n < |rows| ensures RawAt(rows, rows[n].index).Some? { IndexIsTaken(rows, n); }
    seq(|rows|, n requires 0 <= n < |rows| && RawAt(rows, rows[n].index).Some? =>
      Listed(rows[n].index, RawAt(rows, rows[n].index).value))
  }

  function FirstUnused(rows: seq<Listed>, raw: string, used: set<int>): Option<int> {
    if rows == [] then None
    else if rows[0].raw == raw && rows[0].index !in used then Some(rows[0].index)
    else FirstUnused(rows[1..], raw, used)
  }

  /** The configuration asked for with request k; none when only an index came. */
  function Asked(raws: seq<string>, k: nat): string { if k < |raws| then raws[k] else "" }

  /** The row one request finds. */
  function Found(rows: seq<Listed>, index: int, raw: string, used: set<int>): Option<int> {
    var cur := RawAt(rows, index);
    if cur.Some? && index !in used && (raw == "" || cur.value == raw) then Some(index)
    else if raw == "" then None
    else FirstUnused(AsIndexed(rows), raw, used)
  }

  function Elements(s: seq<int>): set<int> { set i | i in s }

  function Resolved(rows: seq<Listed>, indices: seq<int>, raws: seq<string>, k: nat): seq<int>
    requires k <= |indices|
  {
    if k == 0 then []
    else
      var before := Resolved(rows, indices, raws, k - 1);
      match Found(rows, indices[k - 1], Asked(raws, k - 1), Elements(before))
      case None => before
      case Some(i) => before + [i]
  }

  method ResolveRows(rows: seq<Listed>, indices: seq<int>, raws: seq<string>) returns (out: seq<int>)
    ensures out == Resolved(rows, indices, raws, |indices|)
  {
    var byIdx := ByIndex(rows);
    var byRaw: map<string, seq<int>> := map[];
    var built := false;
    out := [];
    var used: set<int> := {};
    for k := 0 to |indices|
      invariant out == Resolved(rows, indices, raws, k) && used == Elements(out)
      invariant built ==> Grouped(AsIndexed(rows), byRaw)
    {
      hide RawAt, FirstUnused, Grouped, AsIndexed, Resolved, Elements;
      OneMore(rows, indices, raws, k);
      var idx := indices[k];
      var raw := if k < |raws| then raws[k] else "";
      assert idx in byIdx <==> RawAt(rows, idx).Some?;
      if idx in byIdx && idx !in used && (raw == "" || byIdx[idx] == raw) {
        OneElementMore(out, idx);
        used := used + {idx};
        out := out + [idx];
      } else if raw != "" {
        if !built {
          byRaw := GroupByRaw(AsIndexed(rows));
          built := true;
        }
        var cand := TakeUnused(AsIndexed(rows), byRaw, raw, used);
        if cand.Some? {
          OneElementMore(out, cand.value);
          used := used + {cand.value};
          out := out + [cand.value];
        }
      }
    }
  }

  lemma OneMore(rows: seq<Listed>, indices: seq<int>, raws: seq<string>, k: nat)
    requires k < |indices|
    ensures var before := Resolved(rows, indices, raws, k);
            var r := Found(rows, indices[k], Asked(raws, k), Elements(before));
            Resolved(rows, indices, raws, k + 1) == if r.None? then before else before + [r.value]
  {
    hide Found;
  }

  lemma OneElementMore(s: seq<int>, i: int)
    ensures Elements(s + [i]) == Elements(s) + {i}
  {}

  method ByIndex(rows: seq<Listed>) returns (byIdx: map<int, string>)
    ensures forall i :: i in byIdx <==> RawAt(rows, i).Some?
    ensures forall i :: i in byIdx ==> RawAt(rows, i) == Some(byIdx[i])
  {
    byIdx := map[];
    for n := 0 to |rows|
      invariant forall i :: i in byIdx <==> RawAt(rows[..n], i).Some?
      invariant forall i :: i in byIdx ==> RawAt(rows[..n], i) == Some(byIdx[i])
    {
      assert rows[..n + 1][..n] == rows[..n];
      byIdx := byIdx[rows[n].index := rows[n].raw];
    }
    assert rows[..|rows|] == rows;
  }

  /** The indices that carry a link, in order. */
  function IndicesWith(rows: seq<Listed>, raw: string): seq<int> {
    if rows == [] then []
    else if rows[0].raw == raw then [rows[0].index] + IndicesWith(rows[1..], raw)
    else IndicesWith(rows[1..], raw)
  }

  lemma {:induction false} IndicesAppend(rows: seq<Listed>, r: Listed, raw: string)
    ensures IndicesWith(rows + [r], raw) == if r.raw == raw then IndicesWith(rows, raw) + [r.index] else IndicesWith(rows, raw)
  {
    if rows == [] {
      assert [r][1..] == [];
      assert rows + [r] == [r];
    } else {
      assert (rows + [r])[1..] == rows[1..] + [r];
      IndicesAppend(rows[1..], r, raw);
    }
  }

  ghost predicate Grouped(rows: seq<Listed>, byRaw: map<string, seq<int>>) {
    forall raw :: GroupedFor(rows, byRaw, raw)
  }

  ghost predicate GroupedFor(rows: seq<Listed>, byRaw: map<string, seq<int>>, raw: string) {
    IndicesWith(rows, raw) == if raw in byRaw then byRaw[raw] else []
  }

  method GroupByRaw(rows: seq<Listed>) returns (byRaw: map<string, seq<int>>)
    ensures Grouped(rows, byRaw)
  {
    byRaw := map[];
    for n := 0 to |rows|
      invariant Grouped(rows[..n], byRaw)
    {
      var key := rows[n].raw;
      ghost var was, front := byRaw, rows[..n];
      byRaw := byRaw[key := (if key in byRaw then byRaw[key] else []) + [rows[n].index]];
      ghost var more := rows[..n + 1];
      assert more == front + [rows[n]];
      forall raw ensures GroupedFor(more, byRaw, raw) {
        assert GroupedFor(front, was, raw);
        IndicesAppend(front, rows[n], raw);
      }
    }
    assert rows[..|rows|] == rows;
  }

  /** The loop over one link's indices. */
  method TakeUnused(rows: seq<Listed>, byRaw: map<string, seq<int>>, raw: string, used: set<int>) returns (r: Option<int>)
    requires Grouped(rows, byRaw)
    ensures r == FirstUnused(rows, raw, used)
  {
    assert GroupedFor(rows, byRaw, raw);
    FirstOfGroup(rows, raw, used);
    if raw !in byRaw { return None; }
    var cands := byRaw[raw];
    for i := 0 to |cands|
      invariant FirstFree(cands, used) == FirstFree(cands[i..], used)
    {
      if cands[i] !in used { return Some(cands[i]); }
      assert cands[i..][1..] == cands[i + 1..];
    }
    return None;
  }

  lemma {:induction false} FirstOfGroup(rows: seq<Listed>, raw: string, used: set<int>)
    ensures FirstUnused(rows, raw, used) == FirstFree(IndicesWith(rows, raw), used)
  {
    if rows == [] {
    } else {
      FirstOfGroup(rows[1..], raw, used);
    }
  }

  function FirstFree(cands: seq<int>, used: set<int>): Option<int> {
    if cands == [] then None
    else if cands[0] !in used then Some(cands[0])
    else FirstFree(cands[1..], used)
  }

  // ------------------------------------------------------------ what is found

  lemma IndexedAt(rows: seq<Listed>, r: Listed)
    ensures RawAt(rows, r.index) == Some(r.raw) <==> r in AsIndexed(rows)
  {
    hide AsIndexed;
    if RawAt(rows, r.index).Some? {
      var n := RowAt(rows, r.index);
      assert AsIndexed(rows)[n].index == r.index;
      assert RawAt(rows, r.index) == Some(r.raw) ==> AsIndexed(rows)[n] == r;
    }
  }

  lemma {:induction false} RowAt(rows: seq<Listed>, index: int) returns (n: nat)
    requires RawAt(rows, index).Some?
    ensures n < |rows| && rows[n].index == index && RawAt(rows, index) == Some(rows[n].raw)
  {
    if rows[|rows| - 1].index == index {
      n := |rows| - 1;
    } else {
      n := RowAt(rows[..|rows| - 1], index);
    }
  }

  lemma {:induction false} UnusedIsListed(rows: seq<Listed>, raw: string, used: set<int>)
    ensures var r := FirstUnused(rows, raw, used);
            && (r.Some? ==> r.value !in used && Listed(r.value, raw) in rows)
            && (r.None? ==> forall i :: Listed(i, raw) in rows ==> i in used)
  {
    if rows == [] {
    } else {
      UnusedIsListed(rows[1..], raw, used);
      assert rows == [rows[0]] + rows[1..];
    }
  }

  /** What a request finds is a row not used yet, and it holds the configuration
      asked for; it finds nothing only when no unused row holds it. */
  lemma FoundHolds(rows: seq<Listed>, index: int, raw: string, used: set<int>)
    ensures var r := Found(rows, index, raw, used);
            && (r.Some? ==> r.value !in used && RawAt(rows, r.value).Some?)
            && (r.Some? && raw != "" ==> RawAt(rows, r.value) == Some(raw))
            && (r.Some? && raw == "" ==> r.value == index)
            && (r.None? && raw != "" ==> forall i :: RawAt(rows, i) == Some(raw) ==> i in used)
            && (r.None? && raw == "" ==> RawAt(rows, index).None? || index in used)
  {
    hide RawAt, FirstUnused, AsIndexed;
    UnusedIsListed(AsIndexed(rows), raw, used);
    var r := FirstUnused(AsIndexed(rows), raw, used);
    if r.Some? { IndexedAt(rows, Listed(r.value, raw)); }
    forall i | RawAt(rows, i) == Some(raw) ensures Listed(i, raw) in AsIndexed(rows) { IndexedAt(rows, Listed(i, raw)); }
  }

  /** The rows resolved are pairwise distinct and in the tab. */
  lemma {:induction false} ResolvedDistinct(rows: seq<Listed>, indices: seq<int>, raws: seq<string>, k: nat)
    requires k <= |indices|
    ensures DistinctRows(rows, Resolved(rows, indices, raws, k))
  {
    hide RawAt, Found, Asked;
    if k == 0 {
    } else {
      ResolvedDistinct(rows, indices, raws, k - 1);
      FoundHolds(rows, indices[k - 1], Asked(raws, k - 1), Elements(Resolved(rows, indices, raws, k - 1)));
    }
  }

  ghost predicate DistinctRows(rows: seq<Listed>, out: seq<int>) {
    && (forall i, j :: 0 <= i < j < |out| ==> out[i] != out[j])
    && (forall i :: 0 <= i < |out| ==> RawAt(rows, out[i]).Some?)
  }

  /** Every request that finds a row finds the configuration it named, or, when
      it named none, the index it gave. */
  lemma ResolvedHolds(rows: seq<Listed>, indices: seq<int>, raws: seq<string>, k: nat)
    requires k < |indices|
    ensures var before, now := Resolved(rows, indices, raws, k), Resolved(rows, indices, raws, k + 1);
            now == before ||
            exists i :: now == before + [i] && RawAt(rows, i).Some?
              && (if Asked(raws, k) == "" then i == indices[k] else RawAt(rows, i) == Some(Asked(raws, k)))
  {
    hide RawAt, Found;
    FoundHolds(rows, indices[k], Asked(raws, k), Elements(Resolved(rows, indices, raws, k)));
  }

  // ------------------------------------------------------------ how many

  function Requests(raws: seq<string>, k: nat, raw: string): nat
    requires k <= |raws|
  {
    if k == 0 then 0 else Requests(raws, k - 1, raw) + if raws[k - 1] == raw then 1 else 0
  }

  ghost function HoldersAmong(rows: seq<Listed>, out: seq<int>, raw: string): set<int> {
    set i | i in out && RawAt(rows, i) == Some(raw)
  }

  lemma {:induction false} CopiesAreDistinct(rows: seq<Listed>, raw: string)
    requires OneRowPerIndex(rows)
    ensures forall i :: i in IndicesWith(rows, raw) <==> Listed(i, raw) in rows
    ensures |Elements(IndicesWith(rows, raw))| == |IndicesWith(rows, raw)|
  {
    if rows == [] {
    } else {
      var rest := IndicesWith(rows[1..], raw);
      CopiesAreDistinct(rows[1..], raw);
      assert rows == [rows[0]] + rows[1..];
      if rows[0].raw == raw {
        forall r | r in rows[1..] ensures r.index != rows[0].index {
          var k :| 0 <= k < |rows[1..]| && rows[1..][k] == r;
          assert rows[k + 1] == r;
        }
        assert rows[0].index !in rest;
        assert Elements([rows[0].index] + rest) == {rows[0].index} + Elements(rest);
      }
    }
  }

  /** The indices a configuration is found at. */
  ghost function Copies(rows: seq<Listed>, raw: string): (c: set<int>)
    ensures forall i :: i in c <==> RawAt(rows, i) == Some(raw)
  {
    forall i | RawAt(rows, i) == Some(raw) ensures exists n :: 0 <= n < |rows| && rows[n].index == i { var n := RowAt(rows, i); }
    set n | 0 <= n < |rows| && RawAt(rows, rows[n].index) == Some(raw) :: rows[n].index
  }

  /** Where every index names one row there are as many as rows that carry the
      configuration. */
  lemma CopiesAreRows(rows: seq<Listed>, raw: string)
    requires OneRowPerIndex(rows)
    ensures |Copies(rows, raw)| == |IndicesWith(rows, raw)|
  {
    hide RawAt, IndicesWith, Copies;
    CopiesAreDistinct(rows, raw);
    var copies, listed := Copies(rows, raw), Elements(IndicesWith(rows, raw));
    forall i ensures i in copies <==> i in listed { OnlyRowAt(rows, Listed(i, raw)); }
    assert copies == listed;
  }

  lemma OnlyRowAt(rows: seq<Listed>, r: Listed)
    requires OneRowPerIndex(rows)
    ensures RawAt(rows, r.index) == Some(r.raw) <==> r in rows
  {
    hide RawAt;
    if RawAt(rows, r.index).Some? { var n := RowAt(rows, r.index); }
    if r in rows {
      var k :| 0 <= k < |rows| && rows[k] == r;
      IndexIsTaken(rows, k);
    }
  }

  /** One request, counted for one configuration. */
  lemma OneRequest(rows: seq<Listed>, out: seq<int>, index: int, asked: string, raw: string, requests: nat)
    requires asked != ""
    requires |HoldersAmong(rows, out, raw)| == Least(requests, |Copies(rows, raw)|)
    ensures var r := Found(rows, index, asked, Elements(out));
            var now := if r.None? then out else out + [r.value];
            |HoldersAmong(rows, now, raw)| == Least(requests + (if asked == raw then 1 else 0), |Copies(rows, raw)|)
  {
    hide RawAt, Found, Copies;
    var r := Found(rows, index, asked, Elements(out));
    FoundHolds(rows, index, asked, Elements(out));
    var copies := Copies(rows, raw);
    if r.None? {
      if asked == raw {
        assert forall i :: i in copies ==> i in out;
        assert HoldersAmong(rows, out, raw) == copies;
      }
    } else {
      Counted(rows, out, r.value, raw, copies);
    }
  }

  lemma Counted(rows: seq<Listed>, out: seq<int>, i: int, raw: string, copies: set<int>)
    requires i !in out && forall j :: j in copies <==> RawAt(rows, j) == Some(raw)
    ensures |HoldersAmong(rows, out + [i], raw)|
         == |HoldersAmong(rows, out, raw)| + if RawAt(rows, i) == Some(raw) then 1 else 0
    ensures RawAt(rows, i) == Some(raw) ==> |HoldersAmong(rows, out, raw)| < |copies|
  {
    hide RawAt;
    var h := HoldersAmong(rows, out, raw);
    if RawAt(rows, i) == Some(raw) {
      assert HoldersAmong(rows, out + [i], raw) == h + {i};
      assert h + {i} <= copies;
      Fits(h + {i}, copies);
    } else {
      assert HoldersAmong(rows, out + [i], raw) == h;
    }
  }

  lemma Fits(a: set<int>, b: set<int>)
    requires a <= b
    ensures |a| <= |b|
  {
    assert b == a + (b - a);
  }

  function Least(a: nat, b: nat): nat { if a < b then a else b }

  lemma {:induction false} ResolvedCount(rows: seq<Listed>, indices: seq<int>, raws: seq<string>, k: nat, raw: string)
    requires k <= |indices| <= |raws|
    requires forall j :: 0 <= j < |raws| ==> raws[j] != ""
    ensures |HoldersAmong(rows, Resolved(rows, indices, raws, k), raw)|
         == Least(Requests(raws, k, raw), |Copies(rows, raw)|)
  {
    hide Found, Least, Copies, RawAt;
    if k == 0 {
      assert HoldersAmong(rows, [], raw) == {};
      LeastOfNone(|Copies(rows, raw)|);
    } else {
      ResolvedCount(rows, indices, raws, k - 1, raw);
      hide HoldersAmong;
      OneRequest(rows, Resolved(rows, indices, raws, k - 1), indices[k - 1], raws[k - 1], raw, Requests(raws, k - 1, raw));
    }
  }

  lemma LeastOfNone(n: nat)
    ensures Least(0, n) == 0
  {}

  /** When every request names its configuration, each configuration is resolved
      as often as it was asked for, as far as the tab has copies of it, whatever
      the indices were. */
  lemma EachAsOftenAsAsked(rows: seq<Listed>, indices: seq<int>, raws: seq<string>, raw: string)
    requires |indices| <= |raws|
    requires forall j :: 0 <= j < |raws| ==> raws[j] != ""
    ensures |HoldersAmong(rows, Resolved(rows, indices, raws, |indices|), raw)|
         == Least(Requests(raws, |indices|, raw), |Copies(rows, raw)|)
    ensures OneRowPerIndex(rows) ==> |Copies(rows, raw)| == |IndicesWith(rows, raw)|
  {
    hide HoldersAmong, Resolved, Requests, Copies, OneRowPerIndex;
    ResolvedCount(rows, indices, raws, |indices|, raw);
    if OneRowPerIndex(rows) { CopiesAreRows(rows, raw); }
  }

  // ------------------------------------------------------------ a selection

  /** IndicesOf: the n-th request for a configuration gets its n-th copy, -1
      when there are no more. */
  method IndicesOf(rows: seq<Listed>, raws: seq<string>) returns (out: seq<int>)
    ensures |out| == |raws|
    ensures forall k :: 0 <= k < |raws| ==> out[k] == CopyFor(rows, raws, k)
  {
    var byRaw := GroupByRaw(rows);
    forall raw ensures LeftFor(rows, raws, 0, byRaw, raw) { assert GroupedFor(rows, byRaw, raw); }
    out := [];
    for k := 0 to |raws|
      invariant |out| == k && forall j :: 0 <= j < k ==> out[j] == CopyFor(rows, raws, j)
      invariant forall raw :: LeftFor(rows, raws, k, byRaw, raw)
    {
      var key := raws[k];
      ghost var was, n := byRaw, k + 1;
      assert LeftFor(rows, raws, k, byRaw, key);
      NextCopy(rows, raws, k, byRaw);
      hide LeftFor, CopyFor;
      if key in byRaw && |byRaw[key]| > 0 {
        out := out + [byRaw[key][0]];
        byRaw := byRaw[key := byRaw[key][1..]];
      } else {
        out := out + [-1];
      }
      forall raw ensures LeftFor(rows, raws, n, byRaw, raw) {
        assert LeftFor(rows, raws, k, was, raw);
        LessForOne(rows, raws, k, was, raw);
      }
    }
  }

  lemma NextCopy(rows: seq<Listed>, raws: seq<string>, k: nat, byRaw: map<string, seq<int>>)
    requires k < |raws| && LeftFor(rows, raws, k, byRaw, raws[k])
    ensures CopyFor(rows, raws, k) == if raws[k] in byRaw && |byRaw[raws[k]]| > 0 then byRaw[raws[k]][0] else -1
  {
    hide IndicesWith, Requests;
  }

  lemma LessForOne(rows: seq<Listed>, raws: seq<string>, k: nat, byRaw: map<string, seq<int>>, raw: string)
    requires k < |raws| && LeftFor(rows, raws, k, byRaw, raw)
    ensures var key := raws[k];
      LeftFor(rows, raws, k + 1, if key in byRaw && |byRaw[key]| > 0 then byRaw[key := byRaw[key][1..]] else byRaw, raw)
  {
    hide IndicesWith;
  }

  function CopyFor(rows: seq<Listed>, raws: seq<string>, k: nat): int
    requires k < |raws|
  {
    var copies, n := IndicesWith(rows, raws[k]), Requests(raws, k, raws[k]);
    if n < |copies| then copies[n] else -1
  }

  ghost predicate LeftFor(rows: seq<Listed>, raws: seq<string>, k: nat, byRaw: map<string, seq<int>>, raw: string)
    requires k <= |raws|
  {
    var copies, n := IndicesWith(rows, raw), Requests(raws, k, raw);
    (if raw in byRaw then byRaw[raw] else []) == if n < |copies| then copies[n..] else []
  }
}
