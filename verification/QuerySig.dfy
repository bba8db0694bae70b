/** The signature the table's cache is keyed by (memSig in
    vair/core/memstore.go): when two queries share one. */
module QuerySig {
  import opened Decimal
  import TableCache
  import TableView
  import TableWindow

  type Version = n: int | -MAX_INT64 <= n < MAX_INT64

  /** ver is the version of the test results, folded in only by the orders that
      depend on them. */
  datatype Asked = Asked(
    sort: string, filter: string, proto: seq<string>, dedupHide: bool, favorites: seq<string>, exclude: seq<string>, ver: Version)

  const NUL: char := '\0'
  const SOH: char := '\U{0001}'

  predicate Live(sort: string) { TableView.SplitSort(sort).column in {TableView.Ping, TableView.Speed, TableView.Stab} }

  function Parts(a: Asked): (r: seq<string>)
    ensures |r| > 0
  {
    var fixed := [a.sort, a.filter, Join(a.proto, ','), if a.dedupHide then "1" else "0", Join(a.favorites, SOH), Join(a.exclude, SOH)];
    if Live(a.sort) then fixed + [Itoa(a.ver)] else fixed
  }

  /** memSig. */
  function MemSig(a: Asked): string { Join(Parts(a), NUL) }

  predicate Apart(c: char, list: seq<string>) { forall i :: 0 <= i < |list| ==> Without(c, list[i]) && Without(NUL, list[i]) }

  /** No text of the query holds a separator. */
  predicate Plain(a: Asked) {
    Without(NUL, a.sort) && Without(NUL, a.filter) && Apart(',', a.proto) && Apart(SOH, a.favorites) && Apart(SOH, a.exclude)
  }

  /** Lists that join alike: a list of one empty text reads as no list. */
  predicate Alike(x: seq<string>, y: seq<string>) { (if x == [] then [""] else x) == (if y == [] then [""] else y) }

  predicate SameQuestion(a: Asked, b: Asked) {
    && a.sort == b.sort && a.filter == b.filter && a.dedupHide == b.dedupHide
    && Alike(a.proto, b.proto) && Alike(a.favorites, b.favorites) && Alike(a.exclude, b.exclude)
    && (TableView.SplitSort(a.sort).column in {TableView.Ping, TableView.Speed, TableView.Stab} ==> a.ver == b.ver)
  }

  lemma {:induction false} JoinWithout(list: seq<string>, sep: char, c: char)
    requires sep != c && forall i :: 0 <= i < |list| ==> Without(c, list[i])
    ensures Without(c, Join(list, sep))
  {
    if |list| <= 1 {
    } else {
      JoinWithout(list[1..], sep, c);
    }
  }

  lemma JoinsAlike(x: seq<string>, y: seq<string>, c: char)
    requires Apart(c, x) && Apart(c, y)
    ensures Join(x, c) == Join(y, c) <==> Alike(x, y)
  {
    var p := if x == [] then [""] else x;
    var q := if y == [] then [""] else y;
    assert Join(p, c) == Join(x, c) && Join(q, c) == Join(y, c);
    SplitJoin(p, c);
    SplitJoin(q, c);
  }

  lemma {:induction false} DigitsWithout(n: nat)
    ensures Without(NUL, Digits(n))
  {
    if n >= 10 { DigitsWithout(n / 10); }
  }

  lemma PartsPlain(a: Asked)
    requires Plain(a)
    ensures forall i :: 0 <= i < |Parts(a)| ==> Without(NUL, Parts(a)[i])
  {
    JoinWithout(a.proto, ',', NUL);
    JoinWithout(a.favorites, SOH, NUL);
    JoinWithout(a.exclude, SOH, NUL);
    var n: int := a.ver;
    DigitsWithout(if n < 0 then -n else n);
    hide Join, Digits, Live;
  }

  lemma PartsSame(a: Asked, b: Asked)
    requires Plain(a) && Plain(b)
    ensures Parts(a) == Parts(b) <==> SameQuestion(a, b)
  {
    JoinsAlike(a.proto, b.proto, ',');
    JoinsAlike(a.favorites, b.favorites, SOH);
    JoinsAlike(a.exclude, b.exclude, SOH);
    AtoiItoa(a.ver);
    AtoiItoa(b.ver);
    hide Join, Itoa, Atoi, Alike, Plain;
    var p, q := Parts(a), Parts(b);
    if p == q { SamePlaces(a, b); }
  }

  lemma SamePlaces(a: Asked, b: Asked)
    requires Parts(a) == Parts(b)
    ensures a.sort == b.sort && a.filter == b.filter && a.dedupHide == b.dedupHide
    ensures Join(a.proto, ',') == Join(b.proto, ',') && Join(a.favorites, SOH) == Join(b.favorites, SOH)
    ensures Join(a.exclude, SOH) == Join(b.exclude, SOH) && (Live(a.sort) ==> Itoa(a.ver) == Itoa(b.ver))
  {
    hide Join, Itoa, Live;
    var p, q := Parts(a), Parts(b);
    assert p[0] == q[0] && p[1] == q[1] && p[2] == q[2] && p[3] == q[3] && p[4] == q[4] && p[5] == q[5];
    if Live(a.sort) { assert p[6] == q[6]; }
    assert "1"[0] != "0"[0];
  }

  /** Queries without separators share a signature if and only if they ask the
      same: the cache never answers one with the order of another. */
  lemma SignatureIff(a: Asked, b: Asked)
    requires Plain(a) && Plain(b)
    ensures MemSig(a) == MemSig(b) <==> SameQuestion(a, b)
  {
    PartsPlain(a);
    PartsPlain(b);
    SplitJoin(Parts(a), NUL);
    SplitJoin(Parts(b), NUL);
    PartsSame(a, b);
  }

  /** Nothing is escaped: one filtered type spelt with a comma reads as two. */
  lemma CommaJoins(a: Asked)
    ensures MemSig(a.(proto := ["ss,vless"])) == MemSig(a.(proto := ["ss", "vless"]))
  {
    assert Join(["ss,vless"], ',') == "ss,vless";
    assert Join(["ss", "vless"][1..], ',') == "vless";
    assert Join(["ss", "vless"], ',') == "ss,vless";
  }

  /** No type filter, and a filter on the empty type, share a signature, though
      the second lets no entry through: an entry's type is never empty. */
  lemma NoTypeJoins(a: Asked, q: TableWindow.Query, hits: TableWindow.Hits, k: TableView.Key)
    requires k.chip != "" && TableWindow.Fits(q.(proto := {}), hits, k)
    ensures MemSig(a.(proto := [])) == MemSig(a.(proto := [""]))
    ensures !TableWindow.Fits(q.(proto := {""}), hits, k)
  {
    assert Join([""], ',') == Join([], ',');
  }

  // ------------------------------------------------------------ the cache

  /** A query without separators, whose lists are not one empty text. */
  predicate Clean(a: Asked) { Plain(a) && a.proto != [""] && a.favorites != [""] && a.exclude != [""] }

  lemma CleanTold(a: Asked, b: Asked)
    requires Clean(a) && Clean(b) && MemSig(a) == MemSig(b)
    ensures a.(ver := b.ver) == b && (Live(a.sort) ==> a == b)
  {
    hide MemSig, Plain;
    SignatureIff(a, b);
    AlikeIsSame(a.proto, b.proto);
    AlikeIsSame(a.favorites, b.favorites);
    AlikeIsSame(a.exclude, b.exclude);
  }

  lemma AlikeIsSame(x: seq<string>, y: seq<string>)
    requires Alike(x, y) && x != [""] && y != [""]
    ensures x == y
  {}

  /** The order is made of what the tab holds, not of a version number. */
  ghost predicate VersionIsNoPart<C(!new), O>(order: (Asked, C) -> O) {
    forall a: Asked, v: Version, c: C :: order(a, c) == order(a.(ver := v), c)
  }

  /** The table as memOrder reads it. */
  ghost function ViewOf<C, O>(order: (Asked, C) -> O): TableCache.View<Asked, string, C, O> {
    TableCache.View(MemSig, order, (a: Asked) => Live(a.sort), (a: Asked) => a.ver)
  }

  lemma SignaturesTell<C(!new), O>(order: (Asked, C) -> O)
    requires VersionIsNoPart(order)
    ensures TableCache.Tells(ViewOf(order), Clean)
  {
    hide MemSig, Clean, Live;
    forall a: Asked, b: Asked | Clean(a) && Clean(b) && MemSig(a) == MemSig(b)
      ensures Live(a.sort) == Live(b.sort) && (Live(a.sort) ==> a.ver == b.ver)
    {
      CleanTold(a, b);
    }
    forall a: Asked, b: Asked, c: C | Clean(a) && Clean(b) && MemSig(a) == MemSig(b) ensures order(a, c) == order(b, c) {
      CleanTold(a, b);
      assert order(a, c) == order(a.(ver := b.ver), c);
    }
  }

  /** The table's cache as it is keyed: as long as only clean queries are asked,
      what it serves for a query signed now, while no writer of the tab owes its
      invalidation and, for an order by results, no test its announcement, is
      that query's order of what the tab holds now, results included. */
  lemma TableCacheAgrees<C(!new), O(!new)>(
      order: (Asked, C) -> O, contents: TableCache.Tab -> C, actions: seq<TableCache.Action<Asked, C>>,
      s: TableCache.State<Asked, C, O>, tab: TableCache.Tab, q: Asked)
    requires VersionIsNoPart(order) && TableCache.Run(ViewOf(order), Clean, contents, actions, s) && Clean(q)
    requires s.owing(tab) == 0 && (Live(q.sort) ==> q.ver == s.ver && s.unsaid == 0)
    requires TableCache.Cached(TableCache.SlotOf(ViewOf(order), s.kept), tab, MemSig(q)).Some?
    ensures TableCache.Cached(TableCache.SlotOf(ViewOf(order), s.kept), tab, MemSig(q)).value == order(q, s.contents(tab))
  {
    hide MemSig, Clean, Live;
    SignaturesTell(order);
    TableCache.CacheAgrees(ViewOf(order), Clean, contents, actions, s, tab, q);
  }
}
