/** When some exclude rule hides one Shadowsocks 2022 entry in the table and lets
    another through, said in their fields (vair/core/excludefilter.go). */
module RuleTells {
  import opened Dedup
  import opened DedupRules
  import opened ExcludeFilter

  /** A part of x, without spaces at its ends, that y does not hold: the whole of
      x will do if any does. */
  predicate TextTells(x: string, y: string) { Trim(x) != "" && !Contains(y, Trim(x)) }

  predicate ValueTells(x: string, y: string) { x != "" && Trim(x) == x && x != y }

  predicate Tellable(p: Fields, e: Fields) {
    || TextTells(Lower(p.name), Lower(e.name))
    || TextTells(Lower(p.host), Lower(e.host))
    || ValueTells(ShownNetwork(p.network), ShownNetwork(e.network))
    || ValueTells(Lower(p.security), Lower(e.security))
  }

  // ------------------------------------------------------------ trimmed texts

  predicate NoEdgeSpace(s: string) { s != "" ==> !Space(s[0]) && !Space(s[|s| - 1]) }

  lemma {:induction false} TrimLeftIs(s: string) returns (i: nat)
    ensures i <= |s| && TrimLeft(s) == s[i..] && forall j :: 0 <= j < i ==> Space(s[j])
    ensures i < |s| ==> !Space(s[i])
    decreases |s|
  {
    if s != [] && Space(s[0]) {
      var k := TrimLeftIs(s[1..]);
      i := k + 1;
      assert forall j :: 0 < j < i ==> s[j] == s[1..][j - 1];
    } else {
      i := 0;
    }
  }

  lemma {:induction false} TrimRightIs(s: string) returns (i: nat)
    ensures i <= |s| && TrimRight(s) == s[..i] && forall j :: i <= j < |s| ==> Space(s[j])
    ensures i > 0 ==> !Space(s[i - 1])
    decreases |s|
  {
    if s != [] && Space(s[|s| - 1]) {
      i := TrimRightIs(s[..|s| - 1]);
      assert s[..|s| - 1][..i] == s[..i];
    } else {
      i := |s|;
    }
  }

  /** Trimming cuts spaces and nothing else. */
  lemma TrimIs(s: string) returns (i: nat, j: nat)
    ensures i <= j <= |s| && Trim(s) == s[i..j] && NoEdgeSpace(Trim(s))
    ensures forall k :: 0 <= k < |s| && (k < i || j <= k) ==> Space(s[k])
  {
    i := TrimLeftIs(s);
    var t := s[i..];
    var n := TrimRightIs(t);
    j := i + n;
    assert t[..n] == s[i..j];
    assert forall k :: 0 <= k < |t| ==> t[k] == s[i + k];
    assert forall k :: j <= k < |s| ==> s[k] == t[k - i];
    if n > 0 { assert t[0] == s[i] && t[n - 1] == s[j - 1]; }
  }

  lemma TrimmedStays(s: string)
    requires NoEdgeSpace(s)
    ensures Trim(s) == s
  {
    var i, j := TrimIs(s);
    if s != "" { assert s[i..j] == s; }
  }

  lemma LowerKeepsSpace(s: string)
    ensures NoEdgeSpace(s) ==> NoEdgeSpace(Lower(s))
  {
    if s != "" && NoEdgeSpace(s) {
      assert Lower(s)[0] == LowerChar(s[0]) && Lower(s)[|s| - 1] == LowerChar(s[|s| - 1]);
    }
  }

  lemma Slices(s: string, i: nat, j: nat, a: nat, b: nat)
    requires a <= b && i + b <= j <= |s|
    ensures s[i..j][a..b] == s[i + a..i + b]
  {
    var t := s[i..j];
    assert forall k :: a <= k < b ==> t[k] == s[i + k];
    assert forall k :: 0 <= k < b - a ==> t[a..b][k] == t[a + k] == s[i + a + k];
  }

  /** A text without spaces at its ends stands in x only where trimming leaves
      it. */
  lemma TrimmedInside(x: string, v: string)
    requires v != "" && NoEdgeSpace(v) && Contains(x, v)
    ensures Contains(Trim(x), v) && Trim(x) != ""
  {
    var i, j := TrimIs(x);
    var k :| 0 <= k <= |x| && PartAt(x, v, k);
    assert x[k] == x[k..k + |v|][0] == v[0] && x[k + |v| - 1] == x[k..k + |v|][|v| - 1] == v[|v| - 1];
    assert i <= k && k + |v| <= j;
    var t := Trim(x);
    Slices(x, i, j, k - i, k - i + |v|);
    assert PartAt(t, v, k - i);
  }

  lemma ContainsThrough(y: string, t: string, v: string)
    requires Contains(y, t) && Contains(t, v)
    ensures Contains(y, v)
  {
    var a :| 0 <= a <= |y| && PartAt(y, t, a);
    var b :| 0 <= b <= |t| && PartAt(t, v, b);
    Slices(y, a, a + |t|, b, b + |v|);
    assert PartAt(y, v, a + b);
  }

  // ------------------------------------------------------------ rules

  /** The value of a rule, as it is compared. */
  lemma ValueTrimmed(v: string)
    ensures NoEdgeSpace(Lower(Trim(v)))
  {
    var i, j := TrimIs(v);
    LowerKeepsSpace(Trim(v));
  }

  /** A rule on a text column tells two texts apart only if the whole of the one
      that it hides does. */
  lemma PartTells(x: string, y: string, v: string)
    requires v != "" && NoEdgeSpace(v) && Contains(x, v) && !Contains(y, v)
    ensures TextTells(x, y)
  {
    hide Contains, Trim;
    TrimmedInside(x, v);
    if Contains(y, Trim(x)) { ContainsThrough(y, Trim(x), v); }
  }

  lemma RuleTellsFields(p: Fields, e: Fields, rule: string)
    requires Ss2022(p) && Ss2022(e) && Tells(p, e, rule)
    ensures Tellable(p, e)
  {
    var (col, w) := ParseRule(rule);
    var v := Lower(Trim(w));
    ValueTrimmed(w);
    TrimmedStays(v);
    LoweredShows2022(p);
    LoweredShows2022(e);
    NetworkTwice(p.network);
    NetworkTwice(e.network);
    LowerTwice(p.name);
    LowerTwice(e.name);
    LowerTwice(p.host);
    LowerTwice(e.host);
    LowerTwice(p.security);
    LowerTwice(e.security);
    hide Contains, Trim, Lower, ParseRule, DisplayProtocol, ShownNetwork, NoEdgeSpace, Ss2022, TextTells;
    if col == "host" {
      PartTells(Lower(p.host), Lower(e.host), v);
    } else if col != "type" && col != "transport" && col != "security" {
      PartTells(Lower(p.name), Lower(e.name), v);
    }
  }

  lemma NetworkTwice(s: string)
    ensures ShownNetwork(ShownNetwork(s)) == ShownNetwork(s)
  {
    LowerTwice(s);
    assert Lower("tcp") == "tcp" && "tcp"[0] != "raw"[0];
  }

  lemma NetworkLowered(s: string)
    ensures Lower(ShownNetwork(s)) == ShownNetwork(s)
  {
    LowerTwice(s);
    assert Lower("tcp") == "tcp";
  }

  // ------------------------------------------------------------ writing the rule

  lemma {:induction false} ColonBehind(col: string, v: string)
    requires forall i :: 0 <= i < |col| ==> col[i] != ':'
    ensures Colon(col + ":" + v) == |col|
    decreases |col|
  {
    var s := col + ":" + v;
    if col == "" {
    } else {
      assert s[1..] == col[1..] + ":" + v;
      ColonBehind(col[1..], v);
    }
  }

  predicate ColumnWord(col: string) {
    col in COLUMNS && Lower(col) == col && forall i :: 0 <= i < |col| ==> col[i] != ':'
  }

  lemma ColumnWords()
    ensures ColumnWord("name") && ColumnWord("host") && ColumnWord("transport") && ColumnWord("security")
  {
    assert Lower("name") == "name" && Lower("host") == "host" && Lower("transport") == "transport" && Lower("security") == "security";
  }

  /** A rule for a column and a lowered, trimmed value reads as that. */
  lemma RuleWritten(col: string, v: string)
    requires ColumnWord(col) && col != "" && NoEdgeSpace(v) && Lower(v) == v
    ensures ParseRule(col + ":" + v) == (col, v) && Lower(Trim(v)) == v
  {
    var s := col + ":" + v;
    ColonBehind(col, v);
    TrimmedStays(v);
    assert s[..|col|] == col && s[|col| + 1..] == v;
  }

  lemma LoweredPart(s: string, i: nat, j: nat)
    requires i <= j <= |s|
    ensures Lower(Lower(s)[i..j]) == Lower(s)[i..j]
  {}

  lemma TextRule(x: string)
    ensures NoEdgeSpace(Trim(Lower(x))) && Lower(Trim(Lower(x))) == Trim(Lower(x)) && Contains(Lower(x), Trim(Lower(x)))
  {
    var i, j := TrimIs(Lower(x));
    LoweredPart(x, i, j);
    assert PartAt(Lower(x), Trim(Lower(x)), i);
  }

  lemma NameRuleTells(p: Fields, e: Fields)
    requires TextTells(Lower(p.name), Lower(e.name))
    ensures Tells(p, e, "name" + ":" + Trim(Lower(p.name)))
  {
    hide Contains, Trim, Lower, ParseRule, DisplayProtocol, ShownNetwork, NoEdgeSpace, ColumnWord;
    ColumnWords();
    TextRule(p.name);
    LowerTwice(p.name);
    LowerTwice(e.name);
    RuleWritten("name", Trim(Lower(p.name)));
  }

  lemma HostRuleTells(p: Fields, e: Fields)
    requires TextTells(Lower(p.host), Lower(e.host))
    ensures Tells(p, e, "host" + ":" + Trim(Lower(p.host)))
  {
    hide Contains, Trim, Lower, ParseRule, DisplayProtocol, ShownNetwork, NoEdgeSpace, ColumnWord;
    ColumnWords();
    TextRule(p.host);
    LowerTwice(p.host);
    LowerTwice(e.host);
    RuleWritten("host", Trim(Lower(p.host)));
  }

  lemma TrimmedHasNoEdge(s: string)
    requires Trim(s) == s
    ensures NoEdgeSpace(s)
  {
    var i, j := TrimIs(s);
  }

  lemma NetworkRuleTells(p: Fields, e: Fields)
    requires ValueTells(ShownNetwork(p.network), ShownNetwork(e.network))
    ensures Tells(p, e, "transport" + ":" + ShownNetwork(p.network))
  {
    hide Contains, Trim, Lower, ParseRule, DisplayProtocol, ShownNetwork, NoEdgeSpace, ColumnWord;
    var v := ShownNetwork(p.network);
    ColumnWords();
    NetworkTwice(p.network);
    NetworkTwice(e.network);
    NetworkLowered(p.network);
    TrimmedHasNoEdge(v);
    RuleWritten("transport", v);
  }

  lemma SecurityRuleTells(p: Fields, e: Fields)
    requires ValueTells(Lower(p.security), Lower(e.security))
    ensures Tells(p, e, "security" + ":" + Lower(p.security))
  {
    hide Contains, Trim, Lower, ParseRule, DisplayProtocol, ShownNetwork, NoEdgeSpace, ColumnWord;
    var v := Lower(p.security);
    ColumnWords();
    LowerTwice(p.security);
    LowerTwice(e.security);
    TrimmedHasNoEdge(v);
    RuleWritten("security", v);
  }

  /** Some rule hides p and not e exactly when their fields differ where a rule
      can look: p's name or host is no part of e's, or the transports or ciphers
      are two. */
  lemma ToldIff(p: Config, e: Config)
    requires Ss2022(p.fields) && Ss2022(e.fields)
    ensures Told(p, e) <==> Tellable(p.fields, e.fields)
  {
    hide Tells, TextTells, ValueTells, Ss2022;
    if Tellable(p.fields, e.fields) {
      if TextTells(Lower(p.fields.name), Lower(e.fields.name)) {
        NameRuleTells(p.fields, e.fields);
      } else if TextTells(Lower(p.fields.host), Lower(e.fields.host)) {
        HostRuleTells(p.fields, e.fields);
      } else if ValueTells(ShownNetwork(p.fields.network), ShownNetwork(e.fields.network)) {
        NetworkRuleTells(p.fields, e.fields);
      } else {
        SecurityRuleTells(p.fields, e.fields);
      }
    }
    if rule: string :| Tells(p.fields, e.fields, rule) { RuleTellsFields(p.fields, e.fields, rule); }
  }
}
