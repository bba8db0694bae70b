/** What a table window shows: the entries a query lets through, in its order,
    and the slice asked for (memOrder and memWindow in vair/core/memstore.go). */
module TableWindow {
  import opened ExcludeFilter
  import opened Sorting
  import opened TableView

  /** parse is parseFilterTerms on the filter text; starred says whether there
      are favourites. */
  datatype Query = Query(
    sort: string, filter: string, terms: seq<Term>, proto: set<string>, dedupHide: bool,
    exclude: seq<string>, starred: bool)

  /** An empty filter text has no terms. */
  ghost predicate Parsed(q: Query) { q.filter == "" ==> q.terms == [] }

  type Hits = Key -> (string, string) -> bool

  ghost predicate Fits(q: Query, hits: Hits, k: Key) {
    && (q.terms == [] || Matches(q.terms, hits(k)))
    && (q.proto == {} || k.chip in q.proto)
    && (q.exclude == [] || !Hidden(FieldsOf(k), q.exclude))
  }

  function FieldsOf(k: Key): Fields { Fields(k.name, k.protocol, k.host, k.network, k.security) }

  /** Whether the entry at a position is shown: it passes every filter and, when
      duplicates are hidden, no earlier entry that passes is the same server. */
  ghost predicate Shown(q: Query, hits: Hits, src: seq<Key>, i: int)
    requires 0 <= i < |src|
  {
    Fits(q, hits, src[i]) && (q.dedupHide ==> !SeenBefore(q, hits, src, i, src[i].body))
  }

  ghost predicate SeenBefore(q: Query, hits: Hits, src: seq<Key>, i: int, body: string)
    requires 0 <= i <= |src|
  {
    exists j :: 0 <= j < i && Fits(q, hits, src[j]) && src[j].body == body
  }

  ghost function Selected(q: Query, hits: Hits, src: seq<Key>, n: nat): seq<Key>
    requires n <= |src|
  {
    if n == 0 then []
    else if Shown(q, hits, src, n - 1) then Selected(q, hits, src, n - 1) + [src[n - 1]]
    else Selected(q, hits, src, n - 1)
  }

  ghost function Ordered(q: Query, hits: Hits, src: seq<Key>): seq<Key> {
    Sort(Selected(q, hits, src, |src|), Comparison(SplitSort(q.sort)))
  }

  predicate Default(q: Query) {
    (q.sort == "" || q.sort == "idx") && q.filter == "" && q.proto == {} && !q.dedupHide && q.exclude == [] && !q.starred
  }

  /** No index is carried twice. */
  predicate Apart(src: seq<Key>) { forall i, j :: 0 <= i < j < |src| ==> src[i].idx != src[j].idx }

  /** Without favourites no entry is starred. */
  predicate Unstarred(q: Query, src: seq<Key>) { q.starred || forall i :: 0 <= i < |src| ==> !src[i].fav }

  /** memOrder past the cache: the default view is the list as it is. */
  method MemOrder(q: Query, hits: Hits, src: seq<Key>) returns (out: seq<Key>)
    ensures out == TableRows(q, hits, src)
  {
    if Default(q) { return src; }
    var keys := Select(q, hits, src);
    out := Sort(keys, Comparison(SplitSort(q.sort)));
  }

  ghost function TableRows(q: Query, hits: Hits, src: seq<Key>): seq<Key> {
    if Default(q) then src else Ordered(q, hits, src)
  }

  /** The walk of memOrder over the tab. */
  method Select(q: Query, hits: Hits, src: seq<Key>) returns (keys: seq<Key>)
    ensures keys == Selected(q, hits, src, |src|)
  {
    hide Hidden, Matches;
    keys := [];
    var seen: set<string> := {};
    for i := 0 to |src|
      invariant keys == Selected(q, hits, src, i)
      invariant q.dedupHide ==> forall b :: b in seen <==> SeenBefore(q, hits, src, i, b)
    {
      var k := src[i];
      var fits := Passes(q, hits, k);
      if fits && !(q.dedupHide && k.body in seen) {
        keys := keys + [k];
        if q.dedupHide { seen := seen + {k.body}; }
      }
    }
  }

  method Passes(q: Query, hits: Hits, k: Key) returns (fits: bool)
    ensures fits == Fits(q, hits, k)
  {
    hide Hidden, Matches;
    if q.terms != [] {
      var ok := FilterTermsMatch(q.terms, hits(k));
      if !ok { return false; }
    }
    if q.proto != {} && k.chip !in q.proto { return false; }
    if q.exclude != [] {
      var skip := ShouldSkip(FieldsOf(k), q.exclude);
      if skip { return false; }
    }
    return true;
  }

  // ------------------------------------------------------------ what it returns

  lemma {:induction false} SelectedAll(q: Query, hits: Hits, src: seq<Key>, n: nat)
    requires n <= |src| && Parsed(q) && Default(q)
    ensures Selected(q, hits, src, n) == src[..n]
  {
    if n == 0 {
    } else {
      SelectedAll(q, hits, src, n - 1);
    }
  }

  predicate InListOrder(src: seq<Key>) { forall i, j :: 0 <= i < j < |src| ==> src[i].idx <= src[j].idx }

  lemma SortKeepsIff(src: seq<Key>, m: Mode)
    requires m.column == Index && forall i :: 0 <= i < |src| ==> !src[i].fav
    ensures Sort(src, Comparison(m)) == src <==> InListOrder(src)
  {
    hide InListOrder, Sorted, StrictWeak, Comparison, Sort;
    LessKeyOrders(m);
    SortSorted(src, Comparison(m));
    SortedIsListOrder(src, m);
    if InListOrder(src) { SortOfSorted(src, Comparison(m)); }
  }

  lemma SortedIsListOrder(src: seq<Key>, m: Mode)
    requires m.column == Index && forall i :: 0 <= i < |src| ==> !src[i].fav
    ensures Sorted(src, Comparison(m)) <==> InListOrder(src)
  {
    forall a: Key, b: Key ensures !a.fav && !b.fav ==> Comparison(m)(a, b) == (a.idx < b.idx) { IndexCompares(a, b, m); }
    hide Comparison;
  }

  lemma IndexCompares(a: Key, b: Key, m: Mode)
    requires m.column == Index
    ensures !a.fav && !b.fav ==> Comparison(m)(a, b) == (a.idx < b.idx)
  {}

  /** The shortcut shows what the walk and the sort would, exactly when the list
      is in the order of its indices. */
  lemma DefaultAgreesIff(q: Query, hits: Hits, src: seq<Key>)
    requires Parsed(q) && Default(q) && Unstarred(q, src)
    ensures src == Ordered(q, hits, src) <==> InListOrder(src)
  {
    SelectedAll(q, hits, src, |src|);
    assert src[..|src|] == src;
    assert SplitSort(q.sort).column == Index by { ColonAt(q.sort, |q.sort|); }
    hide InListOrder, SplitSort;
    SortKeepsIff(src, SplitSort(q.sort));
  }

  /** An entry is selected exactly when some position shows it. */
  lemma {:induction false} SelectedExactly(q: Query, hits: Hits, src: seq<Key>, n: nat, k: Key)
    requires n <= |src|
    ensures k in Selected(q, hits, src, n) <==> exists i :: 0 <= i < n && src[i] == k && Shown(q, hits, src, i)
  {
    if n == 0 {
    } else {
      SelectedExactly(q, hits, src, n - 1, k);
      hide Shown;
    }
  }

  lemma {:induction false} SelectedApart(q: Query, hits: Hits, src: seq<Key>, n: nat)
    requires n <= |src| && Apart(src)
    ensures Apart(Selected(q, hits, src, n))
  {
    hide Shown;
    if n == 0 {
    } else {
      SelectedApart(q, hits, src, n - 1);
      var s, last := Selected(q, hits, src, n - 1), src[n - 1];
      forall i | 0 <= i < |s| ensures s[i].idx != last.idx {
        SelectedExactly(q, hits, src, n - 1, s[i]);
      }
    }
  }

  lemma OrderedAscends(q: Query, hits: Hits, src: seq<Key>)
    requires Apart(src)
    ensures Ascending(Ordered(q, hits, src), Comparison(SplitSort(q.sort)))
  {
    var m := SplitSort(q.sort);
    var chosen, out := Selected(q, hits, src, |src|), Ordered(q, hits, src);
    LessKeyOrders(m);
    SortSorted(chosen, Comparison(m));
    SelectedApart(q, hits, src, |src|);
    hide LessKey, Selected, Sort;
    var idx := (k: Key) => k.idx;
    assert forall i, j :: 0 <= i < j < |chosen| ==> idx(chosen[i]) != idx(chosen[j]);
    KeysStayDistinct(chosen, out, idx);
    forall i, j | 0 <= i < j < |out| ensures Comparison(m)(out[i], out[j]) {
      assert idx(out[i]) != idx(out[j]);
    }
  }

  lemma OrderedExactly(q: Query, hits: Hits, src: seq<Key>, k: Key)
    ensures k in Ordered(q, hits, src) <==> exists i :: 0 <= i < |src| && src[i] == k && Shown(q, hits, src, i)
  {
    SelectedExactly(q, hits, src, |src|, k);
    var chosen, out := Selected(q, hits, src, |src|), Ordered(q, hits, src);
    hide Shown, Selected, Sort;
    assert k in out <==> k in multiset(out);
    assert k in chosen <==> k in multiset(chosen);
  }

  /** What is shown, said without saying how it is made: a list is the one the
      table shows if and only if it goes up in the order of the mode and entries
      that tie in it stand as in the tab, among those that some position shows.
      Where no index is carried twice nothing ties: it is the one list that goes
      strictly up and has exactly the entries some position shows. The default
      view's shortcut is as good where the tab is in the order of its indices. */
  lemma TableShows(q: Query, hits: Hits, src: seq<Key>, out: seq<Key>)
    requires Parsed(q) && Unstarred(q, src) && (Default(q) ==> InListOrder(src))
    ensures out == TableRows(q, hits, src) <==>
      Sorted(out, Comparison(SplitSort(q.sort))) && SameTies(out, Selected(q, hits, src, |src|), Comparison(SplitSort(q.sort)))
    ensures Apart(src) ==>
      (out == TableRows(q, hits, src) <==>
        Ascending(out, Comparison(SplitSort(q.sort))) &&
        forall k :: k in out <==> exists i :: 0 <= i < |src| && src[i] == k && Shown(q, hits, src, i))
  {
    if Default(q) { DefaultAgreesIff(q, hits, src); }
    LessKeyOrders(SplitSort(q.sort));
    hide Shown, Comparison, SplitSort, StrictWeak, SameTies, Sorted;
    StableSortIff(Selected(q, hits, src, |src|), out, Comparison(SplitSort(q.sort)));
    if Apart(src) { ApartShows(q, hits, src, out); }
  }

  lemma ApartShows(q: Query, hits: Hits, src: seq<Key>, out: seq<Key>)
    requires Apart(src)
    ensures out == Ordered(q, hits, src) <==>
      Ascending(out, Comparison(SplitSort(q.sort))) &&
      forall k :: k in out <==> exists i :: 0 <= i < |src| && src[i] == k && Shown(q, hits, src, i)
  {
    var m := SplitSort(q.sort);
    LessKeyOrders(m);
    OrderedAscends(q, hits, src);
    forall k ensures k in Ordered(q, hits, src) <==> exists i :: 0 <= i < |src| && src[i] == k && Shown(q, hits, src, i) {
      OrderedExactly(q, hits, src, k);
    }
    hide Shown, Ordered, Comparison, SplitSort;
    if Ascending(out, Comparison(m)) && forall k :: k in out <==> k in Ordered(q, hits, src) {
      AscendingIsDetermined(out, Ordered(q, hits, src), Comparison(m));
    }
  }

  // ------------------------------------------------------------ windows

  /** memWindow's cut. */
  function Window<T>(ord: seq<T>, offset: int, limit: int): seq<T> {
    var off := if offset < 0 then 0 else if offset > |ord| then |ord| else offset;
    ord[off..if limit <= 0 || off + limit > |ord| then |ord| else off + limit]
  }

  /** The first pages of a scroll, laid end to end. */
  function Pages<T>(ord: seq<T>, limit: nat, n: nat): seq<T> {
    if n == 0 then [] else Pages(ord, limit, n - 1) + Window(ord, (n - 1) * limit, limit)
  }

  function Upto<T>(ord: seq<T>, n: nat): seq<T> { if n <= |ord| then ord[..n] else ord }

  lemma OnePage<T>(ord: seq<T>, at: nat, limit: nat)
    requires limit > 0
    ensures Upto(ord, at) + Window(ord, at, limit) == Upto(ord, at + limit)
    ensures Upto(ord, at) + Window(ord, at, 0) == ord
  {}

  lemma {:induction false} PagesArePrefix<T>(ord: seq<T>, limit: nat, n: nat)
    requires limit > 0
    ensures n * limit >= 0 && Pages(ord, limit, n) == Upto(ord, n * limit)
  {
    if n == 0 {
    } else {
      hide Upto, Window;
      PagesArePrefix(ord, limit, n - 1);
      var at := (n - 1) * limit;
      assert n * limit == at + limit;
      OnePage(ord, at, limit);
    }
  }

  /** Scrolling to the end shows every row of the order once, whatever the size
      of a page; a window without a limit is the rest. */
  lemma ScrollShowsAll<T>(ord: seq<T>, limit: nat, n: nat)
    requires limit > 0
    ensures n * limit >= |ord| ==> Pages(ord, limit, n) == ord
    ensures Pages(ord, limit, n) + Window(ord, n * limit, 0) == ord
  {
    PagesArePrefix(ord, limit, n);
    OnePage(ord, n * limit, limit);
  }

  datatype Stats = Stats(total: nat, ok: nat, fail: nat, minPing: int, maxSpeed: real)

  function Count(ord: seq<Key>, s: Status): nat {
    if ord == [] then 0 else Count(ord[..|ord| - 1], s) + if ord[|ord| - 1].pStatus == s then 1 else 0
  }

  /** The smallest delay there is, 0 when no entry has one. */
  ghost predicate SmallestDelay(ord: seq<Key>, d: int) {
    if exists i :: 0 <= i < |ord| && ord[i].delay > 0
    then
      d > 0 && (exists i :: 0 <= i < |ord| && ord[i].delay == d) &&
      forall i :: 0 <= i < |ord| && ord[i].delay > 0 ==> d <= ord[i].delay
    else d == 0
  }

  ghost predicate LargestSpeed(ord: seq<Key>, v: real) {
    && v >= 0.0 && (forall i :: 0 <= i < |ord| ==> ord[i].speed <= v)
    && (v == 0.0 || exists i :: 0 <= i < |ord| && ord[i].speed == v)
  }

  /** The header counters of memWindow, over the whole order. */
  method HeaderStats(ord: seq<Key>) returns (st: Stats)
    ensures st.total == |ord| && st.ok == Count(ord, Ok) && st.fail == Count(ord, Failed)
    ensures SmallestDelay(ord, st.minPing) && LargestSpeed(ord, st.maxSpeed)
  {
    hide SmallestDelay, LargestSpeed, Count;
    var ok, fail, minPing, maxSpeed := 0, 0, 0, 0.0;
    NoStats();
    assert ord[..0] == [];
    for i := 0 to |ord|
      invariant ok == Count(ord[..i], Ok) && fail == Count(ord[..i], Failed)
      invariant SmallestDelay(ord[..i], minPing) && LargestSpeed(ord[..i], maxSpeed)
    {
      var k := ord[i];
      ghost var before, now := ord[..i], ord[..i + 1];
      CountGrows(before, k);
      if k.pStatus == Ok { ok := ok + 1; } else if k.pStatus == Failed { fail := fail + 1; }
      var d := if k.delay > 0 && (minPing == 0 || k.delay < minPing) then k.delay else minPing;
      var v := if k.speed > 0.0 && k.speed > maxSpeed then k.speed else maxSpeed;
      StatsGrow(before, k, minPing, d, maxSpeed, v);
      minPing, maxSpeed := d, v;
      assert now == before + [k];
    }
    assert ord[..|ord|] == ord;
    st := Stats(|ord|, ok, fail, minPing, maxSpeed);
  }

  lemma NoStats()
    ensures Count([], Ok) == 0 && Count([], Failed) == 0 && SmallestDelay([], 0) && LargestSpeed([], 0.0)
  {}

  lemma CountGrows(before: seq<Key>, k: Key)
    ensures forall s :: Count(before + [k], s) == Count(before, s) + if k.pStatus == s then 1 else 0
  {
    assert (before + [k])[..|before|] == before;
  }

  lemma StatsGrow(before: seq<Key>, k: Key, minPing: int, d: int, maxSpeed: real, v: real)
    requires SmallestDelay(before, minPing) && LargestSpeed(before, maxSpeed)
    requires d == if k.delay > 0 && (minPing == 0 || k.delay < minPing) then k.delay else minPing
    requires v == if k.speed > 0.0 && k.speed > maxSpeed then k.speed else maxSpeed
    ensures SmallestDelay(before + [k], d) && LargestSpeed(before + [k], v)
  {
    var now := before + [k];
    assert now[|before|] == k && forall i :: 0 <= i < |before| ==> now[i] == before[i];
    if minPing > 0 {
      var i :| 0 <= i < |before| && before[i].delay == minPing;
      assert now[i].delay == minPing;
    }
    if maxSpeed > 0.0 {
      var i :| 0 <= i < |before| && before[i].speed == maxSpeed;
      assert now[i].speed == maxSpeed;
    }
  }
}
