/** Stable sorting by a comparison, as Go's sort.SliceStable does it, and when a
    sorted list is the only one of its elements. */
module Sorting {

  /** A strict weak order: what sort.SliceStable asks of its comparison. */
  ghost predicate StrictWeak<T(!new)>(less: (T, T) -> bool) {
    && (forall a, b :: less(a, b) ==> !less(b, a))
    && (forall a, b, c :: less(a, c) ==> less(a, b) || less(b, c))
  }

  ghost predicate Sorted<T>(s: seq<T>, less: (T, T) -> bool) {
    forall i, j :: 0 <= i < j < |s| ==> !less(s[j], s[i])
  }

  ghost predicate Ascending<T>(s: seq<T>, less: (T, T) -> bool) {
    forall i, j :: 0 <= i < j < |s| ==> less(s[i], s[j])
  }

  /** x behind everything it is not less than. */
  function Insert<T>(s: seq<T>, x: T, less: (T, T) -> bool): (r: seq<T>)
    ensures multiset(r) == multiset(s) + multiset{x}
  {
    if s == [] then [x]
    else
      var front, last := s[..|s| - 1], s[|s| - 1];
      assert s == front + [last];
      if less(x, last) then Insert(front, x, less) + [last] else s + [x]
  }

  function Sort<T>(s: seq<T>, less: (T, T) -> bool): (r: seq<T>)
    ensures multiset(r) == multiset(s)
  {
    if s == [] then []
    else
      assert s == s[..|s| - 1] + [s[|s| - 1]];
      Insert(Sort(s[..|s| - 1], less), s[|s| - 1], less)
  }

  lemma {:induction false} InsertSorted<T(!new)>(s: seq<T>, x: T, less: (T, T) -> bool)
    requires StrictWeak(less) && Sorted(s, less)
    ensures Sorted(Insert(s, x, less), less)
  {
    if s == [] {
    } else {
      var front, last := s[..|s| - 1], s[|s| - 1];
      if less(x, last) {
        InsertSorted(front, x, less);
        var r := Insert(front, x, less);
        forall i | 0 <= i < |r| ensures !less(last, r[i]) {
          assert r[i] in multiset(r);
          assert r[i] in front || r[i] == x;
        }
      } else {
        forall i | 0 <= i < |s| ensures !less(x, s[i]) {
          if i < |s| - 1 { assert !less(last, s[i]); }
        }
      }
    }
  }

  lemma {:induction false} SortSorted<T(!new)>(s: seq<T>, less: (T, T) -> bool)
    requires StrictWeak(less)
    ensures Sorted(Sort(s, less), less)
  {
    if s == [] {
    } else {
      SortSorted(s[..|s| - 1], less);
      InsertSorted(Sort(s[..|s| - 1], less), s[|s| - 1], less);
    }
  }

  /** Sorting what is already in order changes nothing. */
  lemma {:induction false} SortOfSorted<T(!new)>(s: seq<T>, less: (T, T) -> bool)
    requires Sorted(s, less)
    ensures Sort(s, less) == s
  {
    if s == [] {
    } else {
      SortOfSorted(s[..|s| - 1], less);
      assert s == s[..|s| - 1] + [s[|s| - 1]];
      if |s| > 1 { assert !less(s[|s| - 1], s[|s| - 2]); }
    }
  }

  // ------------------------------------------------------------ stability

  predicate Tied<T>(x: T, y: T, less: (T, T) -> bool) { !less(x, y) && !less(y, x) }

  /** The elements of a list that tie with x, in their order. */
  function Ties<T>(s: seq<T>, x: T, less: (T, T) -> bool): (t: seq<T>)
    ensures |t| <= |s|
  {
    if s == [] then []
    else
      var last := s[|s| - 1];
      Ties(s[..|s| - 1], x, less) + if Tied(last, x, less) then [last] else []
  }

  lemma TiesAppend<T>(s: seq<T>, y: T, x: T, less: (T, T) -> bool)
    ensures Ties(s + [y], x, less) == Ties(s, x, less) + if Tied(y, x, less) then [y] else []
  {
    assert (s + [y])[..|s|] == s;
  }

  lemma {:induction false} InsertKeepsTies<T(!new)>(s: seq<T>, y: T, x: T, less: (T, T) -> bool)
    requires StrictWeak(less)
    ensures Ties(Insert(s, y, less), x, less) == Ties(s, x, less) + if Tied(y, x, less) then [y] else []
  {
    hide Ties;
    if s == [] {
      assert [] + [y] == [y];
      TiesAppend([], y, x, less);
    } else {
      var front, last := s[..|s| - 1], s[|s| - 1];
      assert s == front + [last];
      TiesAppend(front, last, x, less);
      if less(y, last) {
        InsertKeepsTies(front, y, x, less);
        TiesAppend(Insert(front, y, less), last, x, less);
        NotBothTied(y, last, x, less);
      } else {
        TiesAppend(s, y, x, less);
      }
    }
  }

  lemma NotBothTied<T(!new)>(y: T, last: T, x: T, less: (T, T) -> bool)
    requires StrictWeak(less) && less(y, last)
    ensures !Tied(y, x, less) || !Tied(last, x, less)
  {}

  lemma {:induction false} SortKeepsTies<T(!new)>(s: seq<T>, x: T, less: (T, T) -> bool)
    requires StrictWeak(less)
    ensures Ties(Sort(s, less), x, less) == Ties(s, x, less)
  {
    if s == [] {
    } else {
      var front, last := s[..|s| - 1], s[|s| - 1];
      hide StrictWeak, Insert;
      SortKeepsTies(front, x, less);
      InsertKeepsTies(Sort(front, less), last, x, less);
    }
  }

  ghost predicate SameTies<T(!new)>(s: seq<T>, t: seq<T>, less: (T, T) -> bool) {
    forall x :: Ties(s, x, less) == Ties(t, x, less)
  }

  lemma {:induction false} LastTie<T>(s: seq<T>, k: nat, x: T, less: (T, T) -> bool)
    requires k < |s| && Tied(s[k], x, less)
    ensures s[k] in Ties(s, x, less)
  {
    if k == |s| - 1 {
    } else {
      LastTie(s[..|s| - 1], k, x, less);
    }
  }

  lemma {:induction false} TiesAreHeld<T>(s: seq<T>, x: T, y: T, less: (T, T) -> bool)
    requires y in Ties(s, x, less)
    ensures y in s && Tied(y, x, less)
  {
    var front, last := s[..|s| - 1], s[|s| - 1];
    assert s == front + [last];
    if y in Ties(front, x, less) { TiesAreHeld(front, x, y, less); }
  }

  /** Sorted lists with the same ties end alike. */
  lemma SameLast<T(!new)>(s: seq<T>, t: seq<T>, less: (T, T) -> bool)
    requires StrictWeak(less) && Sorted(s, less) && Sorted(t, less) && SameTies(s, t, less)
    requires s != []
    ensures t != [] && s[|s| - 1] == t[|t| - 1]
  {
    var u := s[|s| - 1];
    assert Tied(u, u, less);
    LastTie(s, |s| - 1, u, less);
    assert Ties(s, u, less) == Ties(t, u, less);
    TiesAreHeld(t, u, u, less);
    var v := t[|t| - 1];
    assert Tied(v, v, less);
    LastTie(t, |t| - 1, v, less);
    assert Ties(s, v, less) == Ties(t, v, less);
    TiesAreHeld(s, v, v, less);
    LastIsLast(s, v, less);
    LastIsLast(t, u, less);
    EndOfTies(s, u, less);
    EndOfTies(t, u, less);
  }

  lemma LastIsLast<T>(s: seq<T>, v: T, less: (T, T) -> bool)
    requires Sorted(s, less) && v in s && !less(v, v)
    ensures !less(s[|s| - 1], v)
  {
    var i :| 0 <= i < |s| && s[i] == v;
  }

  lemma EndOfTies<T>(s: seq<T>, x: T, less: (T, T) -> bool)
    requires s != [] && Tied(s[|s| - 1], x, less)
    ensures Ties(s, x, less) != [] && Ties(s, x, less)[|Ties(s, x, less)| - 1] == s[|s| - 1]
  {}

  lemma SameFront<T>(a: seq<T>, b: seq<T>, c: seq<T>)
    requires a + c == b + c
    ensures a == b
  {
    assert |a| + |c| == |a + c| == |b + c|;
    assert a == (a + c)[..|a|] && b == (b + c)[..|a|];
  }

  lemma {:induction false} TiesDetermine<T(!new)>(s: seq<T>, t: seq<T>, less: (T, T) -> bool)
    requires StrictWeak(less) && Sorted(s, less) && Sorted(t, less) && SameTies(s, t, less)
    ensures s == t
  {
    if s == [] {
      if t != [] { SameLast(t, s, less); }
    } else {
      SameLast(s, t, less);
      var u, a, b := s[|s| - 1], s[..|s| - 1], t[..|t| - 1];
      assert s == a + [u] && t == b + [u];
      forall x ensures Ties(a, x, less) == Ties(b, x, less) {
        TiesAppend(a, u, x, less);
        TiesAppend(b, u, x, less);
        assert Ties(s, x, less) == Ties(t, x, less);
        SameFront(Ties(a, x, less), Ties(b, x, less), if Tied(u, x, less) then [u] else []);
      }
      TiesDetermine(a, b, less);
    }
  }

  /** What a stable sort gives is the one list that is in order and in which the
      elements that tie stand as they did. */
  lemma StableSortIff<T(!new)>(s: seq<T>, t: seq<T>, less: (T, T) -> bool)
    requires StrictWeak(less)
    ensures t == Sort(s, less) <==> Sorted(t, less) && SameTies(t, s, less)
  {
    hide StrictWeak, Sorted, Sort, Ties;
    SortSorted(s, less);
    forall x ensures Ties(Sort(s, less), x, less) == Ties(s, x, less) { SortKeepsTies(s, x, less); }
    if Sorted(t, less) && SameTies(t, s, less) {
      forall x ensures Ties(t, x, less) == Ties(Sort(s, less), x, less) { assert Ties(t, x, less) == Ties(s, x, less); }
      TiesDetermine(t, Sort(s, less), less);
    }
  }

  // ------------------------------------------------------------ the order of two that tie

  /** An element's place among those it ties with. */
  lemma {:induction false} PlaceInTies<T>(s: seq<T>, k: nat, x: T, less: (T, T) -> bool)
    requires k < |s| && Tied(s[k], x, less)
    ensures |Ties(s[..k], x, less)| < |Ties(s, x, less)|
    ensures Ties(s, x, less)[|Ties(s[..k], x, less)|] == s[k]
  {
    if k == |s| - 1 {
    } else {
      var front := s[..|s| - 1];
      assert front[..k] == s[..k];
      PlaceInTies(front, k, x, less);
    }
  }

  lemma {:induction false} TieStands<T>(s: seq<T>, p: nat, x: T, less: (T, T) -> bool) returns (k: nat)
    requires p < |Ties(s, x, less)|
    ensures k < |s| && Tied(s[k], x, less) && s[k] == Ties(s, x, less)[p] && |Ties(s[..k], x, less)| == p
  {
    var front := s[..|s| - 1];
    if p < |Ties(front, x, less)| {
      k := TieStands(front, p, x, less);
      assert front[..k] == s[..k];
    } else {
      k := |s| - 1;
    }
  }

  lemma {:induction false} MoreTies<T>(s: seq<T>, i: nat, j: nat, x: T, less: (T, T) -> bool)
    requires i <= j <= |s|
    ensures |Ties(s[..i], x, less)| <= |Ties(s[..j], x, less)|
    ensures i < j && Tied(s[i], x, less) ==> |Ties(s[..i], x, less)| < |Ties(s[..j], x, less)|
    decreases j
  {
    if i == j {
    } else {
      assert s[..j][..j - 1] == s[..j - 1];
      if i < j - 1 { MoreTies(s, i, j - 1, x, less); }
    }
  }

  /** Of two elements that tie the one in front stays in front. */
  lemma TiedStayInOrder<T(!new)>(s: seq<T>, less: (T, T) -> bool, i: nat, j: nat) returns (p: nat, q: nat)
    requires StrictWeak(less) && i < j < |s| && Tied(s[i], s[j], less)
    ensures p < q < |s| == |Sort(s, less)| && Sort(s, less)[p] == s[i] && Sort(s, less)[q] == s[j]
  {
    var x, r := s[i], Sort(s, less);
    SortKeepsTies(s, x, less);
    assert Tied(x, x, less);
    hide StrictWeak, Sort, Ties;
    PlaceInTies(s, i, x, less);
    PlaceInTies(s, j, x, less);
    MoreTies(s, i, j, x, less);
    p := TieStands(r, |Ties(s[..i], x, less)|, x, less);
    q := TieStands(r, |Ties(s[..j], x, less)|, x, less);
    if q <= p { MoreTies(r, q, p, x, less); }
    assert |multiset(r)| == |multiset(s)|;
  }

  // ------------------------------------------------------------ lists without ties

  /** Two ascending lists of the same elements are the same list. */
  lemma {:induction false} AscendingIsDetermined<T(!new)>(s: seq<T>, t: seq<T>, less: (T, T) -> bool)
    requires forall a, b :: less(a, b) ==> !less(b, a)
    requires Ascending(s, less) && Ascending(t, less)
    requires forall x :: x in s <==> x in t
    ensures s == t
  {
    HeadHeld(s);
    HeadHeld(t);
    if s == [] {
    } else {
      assert s[0] in t;
      var j :| 0 <= j < |t| && t[j] == s[0];
      assert t[0] in s;
      var i :| 0 <= i < |s| && s[i] == t[0];
      assert s[0] == t[0];
      forall x ensures x in s[1..] <==> x in t[1..] {
        TailHolds(s, x, less);
        TailHolds(t, x, less);
      }
      AscendingIsDetermined(s[1..], t[1..], less);
      assert s == [s[0]] + s[1..] && t == [t[0]] + t[1..];
    }
  }

  lemma HeadHeld<T>(s: seq<T>)
    ensures s != [] ==> s[0] in s
  {}

  lemma TailHolds<T(!new)>(s: seq<T>, x: T, less: (T, T) -> bool)
    requires forall a, b :: less(a, b) ==> !less(b, a)
    requires Ascending(s, less) && s != []
    ensures x in s[1..] <==> x in s && x != s[0]
  {
    assert s == [s[0]] + s[1..];
    if x in s[1..] {
      var i :| 0 <= i < |s[1..]| && s[1..][i] == x;
      assert less(s[0], s[i + 1]);
    }
  }

  // ------------------------------------------------------------ rearranging

  lemma Twice<T>(s: seq<T>, i: nat, j: nat)
    requires i < j < |s| && s[i] == s[j]
    ensures multiset(s)[s[i]] >= 2
  {
    assert s == s[..i] + [s[i]] + s[i + 1..j] + [s[j]] + s[j + 1..];
  }

  lemma OnceOnly<T>(s: seq<T>, p: nat)
    requires p < |s| && forall i :: 0 <= i < |s| && i != p ==> s[i] != s[p]
    ensures multiset(s)[s[p]] == 1
  {
    var a, b := s[..p], s[p + 1..];
    assert s == a + [s[p]] + b;
    assert s[p] !in a && s[p] !in b;
  }

  /** Rearranging a list in which no key occurs twice leaves no key twice. */
  lemma KeysStayDistinct<T, K>(s: seq<T>, t: seq<T>, key: T -> K)
    requires multiset(s) == multiset(t) && forall i, j :: 0 <= i < j < |s| ==> key(s[i]) != key(s[j])
    ensures forall i, j :: 0 <= i < j < |t| ==> key(t[i]) != key(t[j])
  {
    forall i, j | 0 <= i < j < |t| ensures key(t[i]) != key(t[j]) {
      if key(t[i]) == key(t[j]) {
        assert t[i] in multiset(s) && t[j] in multiset(s);
        var p :| 0 <= p < |s| && s[p] == t[i];
        var q :| 0 <= q < |s| && s[q] == t[j];
        assert p == q;
        Twice(t, i, j);
        OnceOnly(s, p);
      }
    }
  }
}
