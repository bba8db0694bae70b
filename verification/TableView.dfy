/** The rows a table shows and their order: the comparison of every sort mode,
    the column filter, the walk that selects rows, and the windows cut from the
    result (vair/core/memstore.go). */
module TableView {
  import opened ExcludeFilter
  import opened Sorting

  datatype Status = Pending | TestingPing | TestingSpeed | Ok | Failed

  /** What sortKey copies of one entry; names, hosts, networks, securities and
      protocols are lower case. delay is -1 and stab -1 when there is none. */
  datatype Key = Key(
    idx: int, delay: int, speed: real, stab: real, pStatus: Status, sStatus: Status, fav: bool,
    name: string, host: string, network: string, security: string, protocol: string,
    chip: string, body: string)

  // ------------------------------------------------------------ sort modes

  datatype Column = Ping | Stab | Speed | Type | Name | Host | Transport | Security | Index

  function ColumnOf(field: string): Column {
    if field == "ping" then Ping
    else if field == "stab" then Stab
    else if field == "speed" then Speed
    else if field == "type" then Type
    else if field == "name" then Name
    else if field == "host" then Host
    else if field == "transport" then Transport
    else if field == "security" then Security
    else Index
  }

  datatype Mode = Mode(column: Column, rev: bool)

  /** splitSort: the field is what stands before the first colon. */
  function SplitSort(mode: string): Mode {
    var i := Colon(mode);
    if i < |mode| then Mode(ColumnOf(mode[..i]), mode[i + 1..] == "desc") else Mode(ColumnOf(mode), false)
  }

  /** Go's < on strings. */
  predicate TextLess(x: string, y: string) {
    if y == [] then false
    else if x == [] then true
    else if x[0] != y[0] then x[0] < y[0]
    else TextLess(x[1..], y[1..])
  }

  predicate Flip(less: bool, rev: bool) { if rev then !less else less }

  function SpeedRank(k: Key): int {
    if k.speed > 0.0 then 0
    else if k.pStatus == Ok && k.delay > 0 then 1
    else if k.sStatus == TestingSpeed || k.pStatus == TestingPing then 2
    else if k.pStatus == Failed then 3
    else 4
  }

  predicate ByText(a: Key, b: Key, x: string, y: string, rev: bool) {
    if x == y then a.idx < b.idx else Flip(TextLess(x, y), rev)
  }

  predicate ByPing(a: Key, b: Key, rev: bool) {
    if (a.delay > 0) != (b.delay > 0) then a.delay > 0
    else if a.delay > 0 && a.delay != b.delay then Flip(a.delay < b.delay, rev)
    else a.idx < b.idx
  }

  predicate ByStab(a: Key, b: Key, rev: bool) {
    if (a.stab >= 0.0) != (b.stab >= 0.0) then a.stab >= 0.0
    else if a.stab >= 0.0 && a.stab != b.stab then Flip(a.stab > b.stab, rev)
    else a.idx < b.idx
  }

  predicate BySpeed(a: Key, b: Key, rev: bool) {
    var ra, rb := SpeedRank(a), SpeedRank(b);
    if ra != rb then ra < rb
    else if ra == 0 && a.speed != b.speed then Flip(a.speed > b.speed, rev)
    else if ra == 1 && a.delay != b.delay then Flip(a.delay < b.delay, rev)
    else a.idx < b.idx
  }

  /** lessKey. */
  predicate LessKey(a: Key, b: Key, m: Mode) {
    if a.fav != b.fav then a.fav
    else match m.column
      case Ping => ByPing(a, b, m.rev)
      case Stab => ByStab(a, b, m.rev)
      case Speed => BySpeed(a, b, m.rev)
      case Type => ByText(a, b, a.chip, b.chip, m.rev)
      case Name => ByText(a, b, a.name, b.name, m.rev)
      case Host => ByText(a, b, a.host, b.host, m.rev)
      case Transport => ByText(a, b, a.network, b.network, m.rev)
      case Security => ByText(a, b, a.security, b.security, m.rev)
      case Index => a.idx < b.idx
  }

  function Comparison(m: Mode): (Key, Key) -> bool { (a: Key, b: Key) => LessKey(a, b, m) }

  // ------------------------------------------------------------ what a mode means

  /** A place in a column: a band, and in it a number that is better when larger
      or a text. */
  datatype Place = Place(band: int, num: real, text: string)

  function NumPlace(band: int, num: real): Place { Place(band, num, "") }
  function TextPlace(text: string): Place { Place(0, 0.0, text) }

  function PlaceOf(k: Key, c: Column): Place {
    match c
    case Ping => if k.delay > 0 then NumPlace(0, -(k.delay as real)) else NumPlace(1, 0.0)
    case Stab => if k.stab >= 0.0 then NumPlace(0, k.stab) else NumPlace(1, 0.0)
    case Speed =>
      if k.speed > 0.0 then NumPlace(0, k.speed)
      else if k.pStatus == Ok && k.delay > 0 then NumPlace(1, -(k.delay as real))
      else NumPlace(if k.sStatus == TestingSpeed || k.pStatus == TestingPing then 2 else if k.pStatus == Failed then 3 else 4, 0.0)
    case Type => TextPlace(k.chip)
    case Name => TextPlace(k.name)
    case Host => TextPlace(k.host)
    case Transport => TextPlace(k.network)
    case Security => TextPlace(k.security)
    case Index => NumPlace(0, 0.0)
  }

  predicate Better(p: Place, q: Place) {
    p.num > q.num || (p.num == q.num && TextLess(p.text, q.text))
  }

  /** Favourites, then bands, then the better place (the worse one when the
      direction is reversed), then the list order. */
  predicate Before(a: Key, b: Key, m: Mode) {
    var p, q := PlaceOf(a, m.column), PlaceOf(b, m.column);
    if a.fav != b.fav then a.fav
    else if p.band != q.band then p.band < q.band
    else if p != q then (if m.rev then Better(q, p) else Better(p, q))
    else a.idx < b.idx
  }

  lemma {:induction false} TextOrder(x: string, y: string)
    ensures x == y ==> !TextLess(x, y)
    ensures x != y ==> TextLess(x, y) != TextLess(y, x)
    decreases |x|
  {
    if x != [] && y != [] {
      assert x == [x[0]] + x[1..] && y == [y[0]] + y[1..];
      TextOrder(x[1..], y[1..]);
    }
  }

  /** The texts agree up to place k, where x ends or has the smaller character. */
  predicate SmallerAt(x: string, y: string, k: int) {
    0 <= k <= |x| && k < |y| && x[..k] == y[..k] && (k == |x| || x[k] < y[k])
  }

  /** A text is less than another when it is the beginning of it, or smaller at the
      first character in which they differ. */
  lemma {:induction false} TextLessIff(x: string, y: string)
    ensures TextLess(x, y) <==> exists k :: SmallerAt(x, y, k)
    decreases |x|
  {
    if x == [] || y == [] || x[0] != y[0] {
      DecidedAtOnce(x, y);
    } else {
      TextLessIff(x[1..], y[1..]);
      forall k ensures SmallerAt(x[1..], y[1..], k) ==> SmallerAt(x, y, k + 1) { LaterPlace(x, y, k); }
      forall k ensures SmallerAt(x, y, k) ==> SmallerAt(x[1..], y[1..], k - 1) { LaterPlace(x, y, k - 1); }
      hide SmallerAt;
    }
  }

  lemma DecidedAtOnce(x: string, y: string)
    requires x == [] || y == [] || x[0] != y[0]
    ensures TextLess(x, y) <==> exists k :: SmallerAt(x, y, k)
  {
    if TextLess(x, y) { assert SmallerAt(x, y, 0); }
    forall k ensures SmallerAt(x, y, k) ==> k == 0 { if 0 < k <= |x| && k < |y| { assert x[..k][0] == x[0] && y[..k][0] == y[0]; } }
  }

  lemma LaterPlace(x: string, y: string, k: int)
    requires x != [] && y != [] && x[0] == y[0]
    ensures SmallerAt(x, y, k + 1) <==> SmallerAt(x[1..], y[1..], k)
    ensures !SmallerAt(x, y, 0)
  {
    if 0 <= k < |x| && k < |y| {
      assert x[..k + 1] == [x[0]] + x[1..][..k] && y[..k + 1] == [y[0]] + y[1..][..k];
    }
  }

  lemma {:induction false} TextBetween(x: string, y: string, z: string)
    ensures TextLess(x, z) ==> TextLess(x, y) || TextLess(y, z)
    decreases |x|
  {
    if x != [] && y != [] && z != [] && x[0] == y[0] == z[0] { TextBetween(x[1..], y[1..], z[1..]); }
  }

  /** Every branch of lessKey is that one rule. */
  lemma LessKeyIsBefore(a: Key, b: Key, m: Mode)
    ensures LessKey(a, b, m) == Before(a, b, m)
  {
    hide TextLess;
    var p, q := PlaceOf(a, m.column), PlaceOf(b, m.column);
    TextOrder(p.text, q.text);
    TextOrder("", "");
  }

  lemma BetterOrder(p: Place, q: Place)
    requires p.band == q.band
    ensures p == q ==> !Better(p, q)
    ensures p != q ==> Better(p, q) != Better(q, p)
  {
    hide TextLess;
    TextOrder(p.text, q.text);
    TextOrder(q.text, p.text);
  }

  lemma BetterBetween(p: Place, q: Place, r: Place)
    ensures Better(p, r) ==> Better(p, q) || Better(q, r)
  {
    hide TextLess;
    TextBetween(p.text, q.text, r.text);
  }

  lemma LessAsymmetric(a: Key, b: Key, m: Mode)
    ensures LessKey(a, b, m) ==> !LessKey(b, a, m)
    ensures a.idx != b.idx ==> LessKey(a, b, m) || LessKey(b, a, m)
  {
    LessKeyIsBefore(a, b, m);
    LessKeyIsBefore(b, a, m);
    var p, q := PlaceOf(a, m.column), PlaceOf(b, m.column);
    hide LessKey, PlaceOf, Better;
    if p.band == q.band { BetterOrder(p, q); }
  }

  lemma LessBetween(a: Key, b: Key, c: Key, m: Mode)
    ensures LessKey(a, c, m) ==> LessKey(a, b, m) || LessKey(b, c, m)
  {
    LessKeyIsBefore(a, c, m);
    LessKeyIsBefore(a, b, m);
    LessKeyIsBefore(b, c, m);
    var p, q, r := PlaceOf(a, m.column), PlaceOf(b, m.column), PlaceOf(c, m.column);
    hide LessKey, PlaceOf, Better;
    if p.band == q.band == r.band { PlacesBetween(p, q, r); }
  }

  lemma PlacesBetween(p: Place, q: Place, r: Place)
    requires p.band == q.band == r.band
    ensures p != r && Better(p, r) ==> (p != q && Better(p, q)) || (q != r && Better(q, r))
    ensures p != r && Better(r, p) ==> (p != q && Better(q, p)) || (q != r && Better(r, q))
    ensures p != q ==> Better(p, q) != Better(q, p)
  {
    BetterOrder(p, q);
    BetterOrder(q, r);
    BetterOrder(p, r);
    BetterBetween(p, q, r);
    BetterBetween(r, q, p);
  }

  /** lessKey is a strict weak order in every mode, and a strict total order of
      entries with different indices. */
  lemma LessKeyOrders(m: Mode)
    ensures StrictWeak(Comparison(m))
    ensures forall a: Key, b: Key :: a.idx != b.idx ==> LessKey(a, b, m) || LessKey(b, a, m)
  {
    forall a, b ensures LessKey(a, b, m) ==> !LessKey(b, a, m)
      ensures a.idx != b.idx ==> LessKey(a, b, m) || LessKey(b, a, m)
    { LessAsymmetric(a, b, m); }
    forall a, b, c ensures LessKey(a, c, m) ==> LessKey(a, b, m) || LessKey(b, c, m) { LessBetween(a, b, c, m); }
  }

  /** ":desc" turns round exactly the pairs that differ in the column's value:
      never a favourite against another, never two bands, never a tie. */
  lemma DescTurns(a: Key, b: Key, c: Column)
    requires a.idx != b.idx
    ensures var p, q := PlaceOf(a, c), PlaceOf(b, c);
      LessKey(a, b, Mode(c, true)) != LessKey(a, b, Mode(c, false)) <==> a.fav == b.fav && p.band == q.band && p != q
  {
    LessKeyIsBefore(a, b, Mode(c, true));
    LessKeyIsBefore(a, b, Mode(c, false));
    var p, q := PlaceOf(a, c), PlaceOf(b, c);
    hide LessKey, PlaceOf, Better;
    if p.band == q.band { BetterOrder(p, q); }
  }

  /** The columns by the names the interface has for them. */
  const COLUMNS := map["ping" := Ping, "stab" := Stab, "speed" := Speed, "type" := Type, "name" := Name, "host" := Host,
                       "transport" := Transport, "security" := Security]

  function Named(field: string): Column { if field in COLUMNS then COLUMNS[field] else Index }

  lemma ColumnIsNamed(field: string)
    ensures ColumnOf(field) == Named(field)
  {}

  /** How the interface asks for a column, and for a reversed one: by its name, the
      list order for any other, and reversed by the suffix ":desc" alone. */
  lemma DescSuffix(field: string, suffix: string)
    requires forall i :: 0 <= i < |field| ==> field[i] != ':'
    ensures SplitSort(field) == Mode(Named(field), false)
    ensures SplitSort(field + ":" + suffix) == Mode(Named(field), suffix == "desc")
  {
    hide ColumnOf, Named;
    ColumnIsNamed(field);
    var m := field + ":" + suffix;
    assert m[|field|] == ':';
    ColonAt(field, |field|);
    ColonAt(m, |field|);
    assert m[..|field|] == field && m[|field| + 1..] == suffix;
  }

  lemma {:induction false} ColonAt(s: string, n: nat)
    requires n <= |s| && (n < |s| ==> s[n] == ':')
    requires forall i :: 0 <= i < n ==> s[i] != ':'
    ensures Colon(s) == n
  {
    if n == 0 {
    } else {
      ColonAt(s[1..], n - 1);
    }
  }

  // ------------------------------------------------------------ the filter

  datatype Term = Term(key: string, val: string)

  /** Of every column named, one of its terms is met. */
  ghost predicate Matches(terms: seq<Term>, hit: (string, string) -> bool) {
    forall i :: 0 <= i < |terms| ==> ColumnMet(terms, hit, terms[i].key)
  }

  ghost predicate ColumnMet(terms: seq<Term>, hit: (string, string) -> bool, key: string) {
    exists j :: 0 <= j < |terms| && Meets(terms[j], hit, key)
  }

  predicate Meets(t: Term, hit: (string, string) -> bool, key: string) { t.key == key && hit(t.key, t.val) }

  /** filterTermsMatch; hit is termHitKey on the entry at hand. */
  method FilterTermsMatch(terms: seq<Term>, hit: (string, string) -> bool) returns (ok: bool)
    ensures ok == Matches(terms, hit)
  {
    var satisfied: map<string, bool> := map[];
    for n := 0 to |terms|
      invariant forall k :: k in satisfied <==> exists i :: 0 <= i < n && terms[i].key == k
      invariant forall k :: k in satisfied ==> (satisfied[k] <==> ColumnMet(terms[..n], hit, k))
    {
      var t := terms[n];
      ghost var was := satisfied;
      if t.key !in satisfied || !satisfied[t.key] { satisfied := satisfied[t.key := hit(t.key, t.val)]; }
      ColumnGrows(terms, n, hit, satisfied, was);
    }
    assert terms[..|terms|] == terms;
    return forall k | k in satisfied.Keys :: satisfied[k];
  }

  lemma ColumnGrows(terms: seq<Term>, n: nat, hit: (string, string) -> bool, now: map<string, bool>, was: map<string, bool>)
    requires n < |terms|
    requires forall k :: k in was <==> exists i :: 0 <= i < n && terms[i].key == k
    requires forall k :: k in was ==> (was[k] <==> ColumnMet(terms[..n], hit, k))
    requires var t := terms[n];
      now == if t.key !in was || !was[t.key] then was[t.key := hit(t.key, t.val)] else was
    ensures forall k :: k in now ==> (now[k] <==> ColumnMet(terms[..n + 1], hit, k))
  {
    forall k | k in now ensures now[k] <==> ColumnMet(terms[..n + 1], hit, k) {
      OneMoreTerm(terms, n, hit, k);
      if k !in was { assert !ColumnMet(terms[..n], hit, k); }
    }
  }

  lemma OneMoreTerm(terms: seq<Term>, n: nat, hit: (string, string) -> bool, k: string)
    requires n < |terms|
    ensures ColumnMet(terms[..n + 1], hit, k) <==> ColumnMet(terms[..n], hit, k) || Meets(terms[n], hit, k)
  {
    var longer := terms[..n + 1];
    assert longer[n] == terms[n];
    if ColumnMet(terms[..n], hit, k) {
      var j :| 0 <= j < n && Meets(terms[..n][j], hit, k);
      assert longer[j] == terms[..n][j];
    }
    if ColumnMet(longer, hit, k) {
      var j :| 0 <= j < |longer| && Meets(longer[j], hit, k);
      if j < n { assert terms[..n][j] == longer[j]; }
    }
  }
}
