/** Which row each request of a list comes to, said from the rows: the index given
    where it still holds what was asked for, else the first row that does and was not
    taken yet (resolveRows in vair/core/entry_undo.go). */
module RowRules {
  import opened Decimal
  import opened RowResolve

  /** The last row with the index: it says what the index holds. */
  predicate LastAt(rows: seq<Listed>, index: int, n: int) {
    0 <= n < |rows| && rows[n].index == index && forall m :: n < m < |rows| ==> rows[m].index != index
  }

  /** The index is in use, not taken, and holds the configuration; any will do when
      none was named. */
  ghost predicate Answers(rows: seq<Listed>, taken: seq<int>, raw: string, index: int) {
    index !in taken && exists n :: LastAt(rows, index, n) && (raw == "" || rows[n].raw == raw)
  }

  /** The first row whose index answers. */
  ghost predicate FirstAnswer(rows: seq<Listed>, taken: seq<int>, raw: string, n: int) {
    && 0 <= n < |rows| && Answers(rows, taken, raw, rows[n].index)
    && forall m :: 0 <= m < n ==> !Answers(rows, taken, raw, rows[m].index)
  }

  /** What one request adds to those before it. */
  ghost predicate RequestRules(rows: seq<Listed>, index: int, raw: string, before: seq<int>, after: seq<int>) {
    if Answers(rows, before, raw, index) then after == before + [index]
    else if raw != "" && exists n :: FirstAnswer(rows, before, raw, n)
    then exists n :: FirstAnswer(rows, before, raw, n) && after == before + [rows[n].index]
    else after == before
  }

  lemma {:induction false} RawAtIsLast(rows: seq<Listed>, index: int)
    ensures match RawAt(rows, index)
      case Some(raw) => exists n :: LastAt(rows, index, n) && rows[n].raw == raw
      case None => forall n :: !LastAt(rows, index, n)
  {
    if rows == [] {
    } else {
      var front, k := rows[..|rows| - 1], |rows| - 1;
      RawAtIsLast(front, index);
      if rows[k].index == index {
        assert LastAt(rows, index, k);
      } else {
        forall n ensures LastAt(rows, index, n) <==> LastAt(front, index, n) {}
      }
    }
  }

  lemma OneLast(rows: seq<Listed>, index: int, m: int, n: int)
    requires LastAt(rows, index, m) && LastAt(rows, index, n)
    ensures m == n
  {}

  lemma AnswersIff(rows: seq<Listed>, taken: seq<int>, raw: string, index: int)
    ensures Answers(rows, taken, raw, index) <==>
      index !in taken && RawAt(rows, index).Some? && (raw == "" || RawAt(rows, index).value == raw)
  {
    RawAtIsLast(rows, index);
    if RawAt(rows, index).Some? {
      var n :| LastAt(rows, index, n) && rows[n].raw == RawAt(rows, index).value;
      forall m ensures LastAt(rows, index, m) ==> m == n { if LastAt(rows, index, m) { OneLast(rows, index, m, n); } }
    }
  }

  lemma {:induction false} FirstUnusedIsFirst(rows: seq<Listed>, raw: string, used: set<int>)
    ensures match FirstUnused(rows, raw, used)
      case Some(i) => exists n :: 0 <= n < |rows| && rows[n].index == i && UnusedAt(rows, raw, used, n) &&
                                  forall m :: 0 <= m < n ==> !UnusedAt(rows, raw, used, m)
      case None => forall m :: 0 <= m < |rows| ==> !UnusedAt(rows, raw, used, m)
  {
    if rows == [] {
    } else if UnusedAt(rows, raw, used, 0) {
    } else {
      FirstUnusedIsFirst(rows[1..], raw, used);
      forall m | 0 <= m < |rows| - 1 ensures UnusedAt(rows[1..], raw, used, m) == UnusedAt(rows, raw, used, m + 1) {}
      if FirstUnused(rows[1..], raw, used).Some? {
        var n :| 0 <= n < |rows| - 1 && rows[1..][n].index == FirstUnused(rows[1..], raw, used).value &&
                 UnusedAt(rows[1..], raw, used, n) && forall m :: 0 <= m < n ==> !UnusedAt(rows[1..], raw, used, m);
        FirstBehind(rows, raw, used, n);
      } else {
        NoneBehind(rows, raw, used);
      }
    }
  }

  predicate UnusedAt(rows: seq<Listed>, raw: string, used: set<int>, n: int)
    requires 0 <= n < |rows|
  {
    rows[n].raw == raw && rows[n].index !in used
  }

  lemma FirstBehind(rows: seq<Listed>, raw: string, used: set<int>, n: int)
    requires 0 <= n < |rows| - 1 && !UnusedAt(rows, raw, used, 0) && UnusedAt(rows[1..], raw, used, n)
    requires forall m :: 0 <= m < n ==> !UnusedAt(rows[1..], raw, used, m)
    ensures UnusedAt(rows, raw, used, n + 1) && rows[n + 1] == rows[1..][n]
    ensures forall m :: 0 <= m < n + 1 ==> !UnusedAt(rows, raw, used, m)
  {
    forall m | 0 < m < n + 1 ensures !UnusedAt(rows, raw, used, m) { assert !UnusedAt(rows[1..], raw, used, m - 1); }
  }

  lemma NoneBehind(rows: seq<Listed>, raw: string, used: set<int>)
    requires rows != [] && !UnusedAt(rows, raw, used, 0)
    requires forall m :: 0 <= m < |rows| - 1 ==> !UnusedAt(rows[1..], raw, used, m)
    ensures forall m :: 0 <= m < |rows| ==> !UnusedAt(rows, raw, used, m)
  {
    forall m | 0 < m < |rows| ensures !UnusedAt(rows, raw, used, m) { assert !UnusedAt(rows[1..], raw, used, m - 1); }
  }

  /** The k-th request of a list, given what those before it came to. */
  lemma RequestGoesByRules(rows: seq<Listed>, indices: seq<int>, raws: seq<string>, k: nat)
    requires k < |indices|
    ensures RequestRules(rows, indices[k], if k < |raws| then raws[k] else "",
                         Resolved(rows, indices, raws, k), Resolved(rows, indices, raws, k + 1))
  {
    hide RawAt, FirstUnused, AsIndexed, Answers, Resolved;
    var before, raw := Resolved(rows, indices, raws, k), if k < |raws| then raws[k] else "";
    OneMore(rows, indices, raws, k);
    AnswersIff(rows, before, raw, indices[k]);
    if raw != "" {
      var indexed := AsIndexed(rows);
      FirstUnusedIsFirst(indexed, raw, Elements(before));
      forall n | 0 <= n < |rows|
        ensures UnusedAt(indexed, raw, Elements(before), n) <==> Answers(rows, before, raw, rows[n].index)
      {
        AnswersIff(rows, before, raw, rows[n].index);
      }
      if FirstUnused(indexed, raw, Elements(before)).Some? {
        var n :| 0 <= n < |indexed| && indexed[n].index == FirstUnused(indexed, raw, Elements(before)).value &&
                 UnusedAt(indexed, raw, Elements(before), n) &&
                 forall m :: 0 <= m < n ==> !UnusedAt(indexed, raw, Elements(before), m);
        assert FirstAnswer(rows, before, raw, n);
        forall m ensures FirstAnswer(rows, before, raw, m) ==> m == n {}
      }
    }
  }

  // ------------------------------------------------------------ a selection

  /** How often a text stands in a list. */
  function Times(s: seq<string>, x: string): nat {
    if s == [] then 0 else (if s[0] == x then 1 else 0) + Times(s[1..], x)
  }

  function RawsOf(rows: seq<Listed>): (r: seq<string>)
    ensures |r| == |rows| && forall i :: 0 <= i < |r| ==> r[i] == rows[i].raw
  {
    seq(|rows|, i requires 0 <= i < |rows| => rows[i].raw)
  }

  lemma {:induction false} TimesPlus(s: seq<string>, t: seq<string>, x: string)
    ensures Times(s + t, x) == Times(s, x) + Times(t, x)
    decreases |s|
  {
    if s == [] {
      assert s + t == t;
    } else {
      assert (s + t)[1..] == s[1..] + t;
      TimesPlus(s[1..], t, x);
    }
  }

  lemma OneMoreTime(s: seq<string>, y: string, x: string)
    ensures Times(s + [y], x) == Times(s, x) + if y == x then 1 else 0
  {
    TimesPlus(s, [y], x);
    assert [y][1..] == [];
  }

  /** The copies of a link are as many as there are rows with it, and a row has as many
      copies before it as it has rows with its link before it. */
  lemma {:induction false} CopiesStand(rows: seq<Listed>, raw: string)
    ensures |IndicesWith(rows, raw)| == Times(RawsOf(rows), raw)
    ensures forall n :: 0 <= n < |rows| && rows[n].raw == raw ==>
      var before := Times(RawsOf(rows)[..n], raw);
      before < |IndicesWith(rows, raw)| && IndicesWith(rows, raw)[before] == rows[n].index
    decreases |rows|
  {
    hide IndicesWith, Times;
    if rows == [] {
      NoCopies(raw);
    } else {
      var front, last := rows[..|rows| - 1], rows[|rows| - 1];
      CopiesStand(front, raw);
      assert rows == front + [last] && RawsOf(rows) == RawsOf(front) + [last.raw];
      IndicesAppend(front, last, raw);
      OneMoreTime(RawsOf(front), last.raw, raw);
      assert forall n :: 0 <= n <= |front| ==> RawsOf(rows)[..n] == RawsOf(front)[..n];
      assert RawsOf(front)[..|front|] == RawsOf(front);
    }
  }

  lemma NoCopies(raw: string)
    ensures IndicesWith([], raw) == [] && Times(RawsOf([]), raw) == 0
  {}

  lemma {:induction false} RequestsAreTimes(raws: seq<string>, k: nat, raw: string)
    requires k <= |raws|
    ensures Requests(raws, k, raw) == Times(raws[..k], raw)
  {
    if k == 0 {
    } else {
      RequestsAreTimes(raws, k - 1, raw);
      assert raws[..k] == raws[..k - 1] + [raws[k - 1]];
      OneMoreTime(raws[..k - 1], raws[k - 1], raw);
    }
  }

  /** A selection that follows its configurations: a request finds the row that has as
      many rows with its link before it as there are requests for it before this one,
      and -1 exactly when there are no more. */
  lemma SelectionFollows(rows: seq<Listed>, raws: seq<string>, k: nat)
    requires k < |raws|
    ensures var before := Times(raws[..k], raws[k]);
      && (before >= Times(RawsOf(rows), raws[k]) ==> CopyFor(rows, raws, k) == -1)
      && forall n :: 0 <= n < |rows| && rows[n].raw == raws[k] && Times(RawsOf(rows)[..n], raws[k]) == before ==>
           CopyFor(rows, raws, k) == rows[n].index
  {
    hide IndicesWith, Times, Requests;
    CopiesStand(rows, raws[k]);
    RequestsAreTimes(raws, k, raws[k]);
  }
}
