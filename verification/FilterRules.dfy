/** What an exclude rule hides, said without lowering any text: letters are compared
    whatever their case, as in ASCII (vair/core/excludefilter.go). */
module FilterRules {
  import opened ExcludeFilter

  /** The same character, or the same letter in the other case. */
  predicate Alike(c: char, d: char) {
    c == d || ('A' <= c <= 'Z' && d as int == c as int + 32) || ('A' <= d <= 'Z' && c as int == d as int + 32)
  }

  predicate SameText(a: string, b: string) { |a| == |b| && forall i :: 0 <= i < |a| ==> Alike(a[i], b[i]) }

  predicate PartLike(s: string, part: string, i: int) { 0 <= i <= i + |part| <= |s| && SameText(s[i..i + |part|], part) }

  predicate HasText(s: string, part: string) { exists i | 0 <= i <= |s| :: PartLike(s, part, i) }

  /** The first colon of the rule stands behind the name of a column. */
  predicate NamesColumn(rule: string, k: int, col: string) {
    && 0 < k < |rule| && rule[k] == ':' && (forall j :: 0 <= j < k ==> rule[j] != ':')
    && col in ["name", "type", "host", "transport", "security"] && SameText(rule[..k], col)
  }

  /** A rule is a value for the column it names, else a value for the name. */
  ghost predicate ReadsAs(rule: string, col: string, value: string) {
    if exists k, c :: NamesColumn(rule, k, c) then exists k :: NamesColumn(rule, k, col) && value == rule[k + 1..]
    else col == "name" && value == rule
  }

  predicate Blank(s: string) { forall i :: 0 <= i < |s| ==> s[i] in " \t\n\r" }

  /** What is left of a text without the blanks around it. */
  ghost predicate TrimsTo(s: string, t: string) {
    && (exists a, b :: Blank(a) && Blank(b) && s == a + t + b)
    && (t != "" ==> t[0] !in " \t\n\r" && t[|t| - 1] !in " \t\n\r")
  }

  /** The value is met in the column. */
  predicate MetIn(f: Fields, col: string, t: string) {
    match col
    case "type" => SameText(if f.kind == "ss" && "2022-blake3-" <= f.security then "ss2022" else f.kind, t)
    case "transport" => SameText(if SameText(f.network, "raw") then "tcp" else f.network, t)
    case "security" => SameText(f.security, t)
    case "host" => HasText(f.host, t)
    case _ => HasText(f.name, t)
  }

  // ------------------------------------------------------------ letters

  lemma LowerAlike(c: char, d: char)
    ensures LowerChar(c) == LowerChar(d) <==> Alike(c, d)
  {}

  lemma LowerSame(a: string, b: string)
    ensures Lower(a) == Lower(b) <==> SameText(a, b)
  {
    forall c, d ensures LowerChar(c) == LowerChar(d) <==> Alike(c, d) { LowerAlike(c, d); }
    hide LowerChar, Alike;
  }

  /** Lowering changes the case of letters alone, and leaves no capital. */
  lemma LowerIsLow(s: string)
    ensures SameText(Lower(s), s) && forall i :: 0 <= i < |s| ==> !('A' <= Lower(s)[i] <= 'Z')
  {}

  lemma LowerPart(s: string, part: string, i: int)
    ensures PartAt(Lower(s), Lower(part), i) <==> PartLike(s, part, i)
  {
    if 0 <= i && i + |part| <= |s| {
      assert Lower(s)[i..i + |part|] == Lower(s[i..i + |part|]);
      LowerSame(s[i..i + |part|], part);
    }
  }

  lemma LowerHas(s: string, part: string)
    ensures Contains(Lower(s), Lower(part)) <==> HasText(s, part)
  {
    hide PartAt, PartLike;
    forall i ensures PartAt(Lower(s), Lower(part), i) <==> PartLike(s, part, i) { LowerPart(s, part, i); }
  }

  // ------------------------------------------------------------ the column

  lemma {:induction false} ColonIsFirst(s: string)
    ensures var i := Colon(s); (i < |s| ==> s[i] == ':') && forall j :: 0 <= j < i ==> s[j] != ':'
  {
    if s == [] || s[0] == ':' {
    } else {
      ColonIsFirst(s[1..]);
    }
  }

  /** A text is the name of a column in any case just when it is one in lower case. */
  lemma NamedLow(s: string, col: string)
    requires col in ["name", "type", "host", "transport", "security"]
    ensures SameText(s, col) <==> Lower(s) == col
  {
    LowerSame(s, col);
    assert Lower("name") == "name" && Lower("type") == "type" && Lower("host") == "host";
    assert Lower("transport") == "transport" && Lower("security") == "security";
  }

  lemma ReadsAsParsed(rule: string, col: string, value: string)
    ensures ReadsAs(rule, col, value) <==> ParseRule(rule) == (col, value)
  {
    var i := Colon(rule);
    ColonIsFirst(rule);
    forall k, c ensures NamesColumn(rule, k, c) <==> 0 < i < |rule| && k == i && c in COLUMNS && Lower(rule[..i]) == c {
      if 0 < k < |rule| && rule[k] == ':' && forall j :: 0 <= j < k ==> rule[j] != ':' { assert k == i; }
      if k == i && c in COLUMNS && i <= |rule| { NamedLow(rule[..i], c); }
    }
    if 0 < i < |rule| { assert NamesColumn(rule, i, Lower(rule[..i])) <==> Lower(rule[..i]) in COLUMNS; }
    hide NamesColumn, Lower, Colon;
  }

  // ------------------------------------------------------------ the value

  lemma {:induction false} TrimLeftCuts(s: string) returns (a: string)
    ensures Blank(a) && s == a + TrimLeft(s)
    ensures TrimLeft(s) != "" ==> TrimLeft(s)[0] !in " \t\n\r"
  {
    if s != [] && Space(s[0]) {
      var b := TrimLeftCuts(s[1..]);
      a := [s[0]] + b;
    } else {
      a := "";
    }
  }

  lemma {:induction false} TrimRightCuts(s: string) returns (b: string)
    ensures Blank(b) && s == TrimRight(s) + b
    ensures TrimRight(s) != "" ==> TrimRight(s)[|TrimRight(s)| - 1] !in " \t\n\r"
  {
    if s != [] && Space(s[|s| - 1]) {
      var a := TrimRightCuts(s[..|s| - 1]);
      b := a + [s[|s| - 1]];
    } else {
      b := "";
    }
  }

  lemma TrimIsTrimmed(s: string)
    ensures TrimsTo(s, Trim(s))
  {
    var a := TrimLeftCuts(s);
    var b := TrimRightCuts(TrimLeft(s));
    hide TrimLeft, TrimRight;
    var t := Trim(s);
    assert s == a + t + b;
    if t != "" { assert TrimLeft(s)[0] == t[0]; }
  }

  lemma TrimmedOnce(a: string, t: string, b: string, a': string, t': string, b': string)
    requires a + t + b == a' + t' + b' && Blank(a) && Blank(b) && Blank(a') && Blank(b')
    requires t != "" ==> t[0] !in " \t\n\r" && t[|t| - 1] !in " \t\n\r"
    requires t' != "" ==> t'[0] !in " \t\n\r" && t'[|t'| - 1] !in " \t\n\r"
    ensures t == t'
  {
    var s := a + t + b;
    assert forall i :: 0 <= i < |a| ==> s[i] == a[i];
    assert forall i :: 0 <= i < |a'| ==> s[i] == a'[i];
    assert forall i :: 0 <= i < |t| ==> s[|a| + i] == t[i];
    assert forall i :: 0 <= i < |t'| ==> s[|a'| + i] == t'[i];
    assert forall i :: 0 <= i < |b| ==> s[|a| + |t| + i] == b[i];
    assert forall i :: 0 <= i < |b'| ==> s[|a'| + |t'| + i] == b'[i];
    if t != "" && t' != "" {
      assert |a| == |a'| && |a| + |t| == |a'| + |t'|;
      assert t == s[|a|..|a| + |t|] && t' == s[|a'|..|a'| + |t'|];
    }
  }

  lemma TrimsToIff(s: string, t: string)
    ensures TrimsTo(s, t) <==> t == Trim(s)
  {
    hide Trim, Blank;
    TrimIsTrimmed(s);
    if TrimsTo(s, t) {
      var a, b :| Blank(a) && Blank(b) && s == a + t + b;
      var a', b' :| Blank(a') && Blank(b') && s == a' + Trim(s) + b';
      TrimmedOnce(a, t, b, a', Trim(s), b');
    }
  }

  // ------------------------------------------------------------ what a rule hides

  lemma MetInColumn(f: Fields, col: string, t: string)
    ensures MetIn(f, col, t) <==>
      if col == "type" then Lower(DisplayProtocol(f.kind, f.security)) == Lower(t)
      else if col == "transport" then ShownNetwork(f.network) == Lower(t)
      else if col == "security" then Lower(f.security) == Lower(t)
      else if col == "host" then Contains(Lower(f.host), Lower(t))
      else Contains(Lower(f.name), Lower(t))
  {
    LowerSame(DisplayProtocol(f.kind, f.security), t);
    LowerSame(f.network, "raw");
    assert Lower("raw") == "raw" && Lower("tcp") == "tcp";
    LowerSame("tcp", t);
    LowerSame(f.network, t);
    LowerSame(f.security, t);
    LowerHas(f.host, t);
    LowerHas(f.name, t);
    hide Lower, SameText, HasText, Contains;
  }

  /** A rule hides an entry exactly when it is read as a column and a value, blanks
      aside not empty, that the entry meets in that column. */
  lemma RuleHidesIff(f: Fields, rule: string)
    ensures RuleHides(f, rule) <==>
      exists col, value, t :: ReadsAs(rule, col, value) && TrimsTo(value, t) && t != "" && MetIn(f, col, t)
  {
    var (col, value) := ParseRule(rule);
    ReadsAsParsed(rule, col, value);
    TrimsToIff(value, Trim(value));
    MetInColumn(f, col, Trim(value));
    assert |Lower(Trim(value))| == |Trim(value)|;
    forall c, v, t | ReadsAs(rule, c, v) && TrimsTo(v, t) ensures c == col && v == value && t == Trim(value) {
      ReadsAsParsed(rule, c, v);
      TrimsToIff(v, t);
    }
    hide ReadsAs, TrimsTo, MetIn, ParseRule, Trim, Lower, DisplayProtocol, ShownNetwork, Contains;
  }
}
