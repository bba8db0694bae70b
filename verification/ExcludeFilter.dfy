/** A tab's exclude rules (vair/core/excludefilter.go) and the two places that
    ask them: with an entry's fields as they are written, and with the fields
    the table lowered first. Letters are lowered as in ASCII. */
module ExcludeFilter {

  datatype Fields = Fields(name: string, kind: string, host: string, network: string, security: string)

  function LowerChar(c: char): char { if 'A' <= c <= 'Z' then (c as int + 32) as char else c }

  function Lower(s: string): (r: string)
    ensures |r| == |s| && forall i :: 0 <= i < |s| ==> r[i] == LowerChar(s[i])
  {
    seq(|s|, i requires 0 <= i < |s| => LowerChar(s[i]))
  }

  lemma LowerTwice(s: string)
    ensures Lower(Lower(s)) == Lower(s)
  {}

  predicate Space(c: char) { c == ' ' || c == '\t' || c == '\n' || c == '\r' }

  function TrimLeft(s: string): string { if s != [] && Space(s[0]) then TrimLeft(s[1..]) else s }
  function TrimRight(s: string): string { if s != [] && Space(s[|s| - 1]) then TrimRight(s[..|s| - 1]) else s }
  function Trim(s: string): string { TrimRight(TrimLeft(s)) }

  predicate Contains(s: string, part: string) {
    exists i | 0 <= i <= |s| :: PartAt(s, part, i)
  }

  predicate PartAt(s: string, part: string, i: int) {
    0 <= i <= i + |part| <= |s| && s[i..i + |part|] == part
  }

  const COLUMNS: set<string> := {"name", "type", "host", "transport", "security"}
  const SS2022_PREFIX := "2022-blake3-"

  function Colon(s: string): (i: nat)
    ensures i <= |s|
  {
    if s == [] || s[0] == ':' then 0 else 1 + Colon(s[1..])
  }

  /** parseExcludeRule: the column and the value of a stored rule. */
  function ParseRule(s: string): (string, string) {
    var i := Colon(s);
    if 0 < i < |s| && Lower(s[..i]) in COLUMNS then (Lower(s[..i]), s[i + 1..]) else ("name", s)
  }

  function ShownNetwork(s: string): string { if Lower(s) == "raw" then "tcp" else Lower(s) }

  /** The protocol as the table shows it: the 2022 ciphers of Shadowsocks are a
      type of their own. */
  function DisplayProtocol(kind: string, security: string): string {
    if kind == "ss" && SS2022_PREFIX <= security then "ss2022" else kind
  }

  predicate RuleHides(f: Fields, rule: string) {
    var (col, v) := ParseRule(rule);
    var val := Lower(Trim(v));
    val != "" &&
    if col == "type" then Lower(DisplayProtocol(f.kind, f.security)) == val
    else if col == "transport" then ShownNetwork(f.network) == val
    else if col == "security" then Lower(f.security) == val
    else if col == "host" then Contains(Lower(f.host), val)
    else Contains(Lower(f.name), val)
  }

  predicate Hidden(f: Fields, rules: seq<string>) {
    exists i :: 0 <= i < |rules| && RuleHides(f, rules[i])
  }

  /** shouldSkip. */
  method ShouldSkip(f: Fields, rules: seq<string>) returns (skip: bool)
    ensures skip == Hidden(f, rules)
  {
    for i := 0 to |rules|
      invariant forall j :: 0 <= j < i ==> !RuleHides(f, rules[j])
    {
      if RuleHides(f, rules[i]) { return true; }
    }
    return false;
  }

  /** The fields as the table's sort key holds them. */
  function Lowered(f: Fields): Fields {
    Fields(Lower(f.name), Lower(f.kind), Lower(f.host), ShownNetwork(f.network), Lower(f.security))
  }

  /** The entry is, or is not, an SS2022 one in both spellings. */
  predicate PlainlySpelled(f: Fields) {
    (f.kind == "ss" && SS2022_PREFIX <= f.security)
    <==> (Lower(f.kind) == "ss" && SS2022_PREFIX <= Lower(f.security))
  }

  lemma SameAnswer(f: Fields, rule: string)
    requires PlainlySpelled(f)
    ensures RuleHides(f, rule) == RuleHides(Lowered(f), rule)
  {
    LowerTwice(f.name);
    LowerTwice(f.kind);
    LowerTwice(f.host);
    LowerTwice(f.network);
    LowerTwice(f.security);
    assert Lower("ss2022") == "ss2022";
    assert Lower("tcp") == "tcp";
    hide Contains, ParseRule, Trim;
  }

  lemma TypeRule()
    ensures ParseRule("type:ss") == ("type", "ss") && Lower(Trim("ss")) == "ss"
  {
    var s := "type:ss";
    assert s[1..] == "ype:ss" && "ype:ss"[1..] == "pe:ss" && "pe:ss"[1..] == "e:ss" && "e:ss"[1..] == ":ss";
    assert Colon(":ss") == 0 && Colon("e:ss") == 1 && Colon("pe:ss") == 2 && Colon("ype:ss") == 3 && Colon(s) == 4;
    assert s[..4] == "type" && Lower("type") == "type" && s[5..] == "ss";
    assert TrimLeft("ss") == "ss" && TrimRight("ss") == "ss" && Lower("ss") == "ss";
  }

  /** Both places hide the same entries under all rules exactly for entries that
      are plainly spelled: a Shadowsocks link whose 2022 cipher is written in
      capitals is hidden by "type:ss" in one and not in the other. */
  lemma PlacesAgreeIff(f: Fields)
    ensures PlainlySpelled(f) <==> forall rules :: Hidden(f, rules) == Hidden(Lowered(f), rules)
  {
    if PlainlySpelled(f) {
      forall rules ensures Hidden(f, rules) == Hidden(Lowered(f), rules) {
        forall i | 0 <= i < |rules| ensures RuleHides(f, rules[i]) == RuleHides(Lowered(f), rules[i]) {
          SameAnswer(f, rules[i]);
        }
      }
    } else {
      OneRuleDiffers(f);
      assert ["type:ss"][0] == "type:ss";
      assert Hidden(f, ["type:ss"]) != Hidden(Lowered(f), ["type:ss"]);
    }
  }

  lemma OneRuleDiffers(f: Fields)
    requires !PlainlySpelled(f)
    ensures RuleHides(f, "type:ss") != RuleHides(Lowered(f), "type:ss")
  {
    TypeRule();
    LowerTwice(f.kind);
    LowerTwice(f.security);
    assert Lower("ss") == "ss" && Lower("ss2022") == "ss2022" && |"ss2022"| != |"ss"|;
    if f.kind == "ss" && SS2022_PREFIX <= f.security { LowerKeepsPrefix(f.security); }
  }

  lemma LowerKeepsPrefix(s: string)
    requires SS2022_PREFIX <= s
    ensures SS2022_PREFIX <= Lower(s)
  {
    assert Lower(SS2022_PREFIX) == SS2022_PREFIX;
    assert forall i :: 0 <= i < |SS2022_PREFIX| ==> Lower(s)[i] == LowerChar(SS2022_PREFIX[i]);
  }

  /** What "type:ss" hides of a Shadowsocks entry: the old ciphers, in whichever
      spelling is looked at. */
  lemma TypeRuleOnShadowsocks(f: Fields)
    requires f.kind == "ss"
    ensures RuleHides(f, "type:ss") <==> !(SS2022_PREFIX <= f.security)
    ensures RuleHides(Lowered(f), "type:ss") <==> !(SS2022_PREFIX <= Lower(f.security))
  {
    TypeRule();
    LowerTwice(f.security);
    assert Lower("ss") == "ss" && Lower("ss2022") == "ss2022" && |"ss2022"| != |"ss"|;
  }

  // ------------------------------------------------------------ the 2022 ciphers

  /** A Shadowsocks entry with a 2022 cipher, however it is spelled. */
  predicate Ss2022(f: Fields) { Lower(f.kind) == "ss" && SS2022_PREFIX <= Lower(f.security) }

  /** A rule on the type column. */
  predicate TypeIs(rule: string, v: string) { ParseRule(rule).0 == "type" && Lower(Trim(ParseRule(rule).1)) == v }

  lemma UnplainIs2022(f: Fields)
    requires !PlainlySpelled(f)
    ensures Ss2022(f) && Lower(DisplayProtocol(f.kind, f.security)) == "ss"
  {
    assert Lower("ss") == "ss";
    if f.kind == "ss" && SS2022_PREFIX <= f.security { LowerKeepsPrefix(f.security); }
  }

  lemma LoweredShows2022(f: Fields)
    requires Ss2022(f)
    ensures Lower(DisplayProtocol(Lowered(f).kind, Lowered(f).security)) == "ss2022"
  {
    assert Lower("ss2022") == "ss2022";
  }

  /** What one rule makes of an entry whose cipher is in capitals, as it is
      written and lowered: they part on the two types and on nothing else. */
  lemma RuleOnUnplain(f: Fields, rule: string)
    requires !PlainlySpelled(f)
    ensures TypeIs(rule, "ss") ==> RuleHides(f, rule) && !RuleHides(Lowered(f), rule)
    ensures TypeIs(rule, "ss2022") ==> RuleHides(Lowered(f), rule)
    ensures !TypeIs(rule, "ss") && !TypeIs(rule, "ss2022") ==> RuleHides(f, rule) == RuleHides(Lowered(f), rule)
  {
    LowerTwice(f.name);
    LowerTwice(f.host);
    LowerTwice(f.network);
    LowerTwice(f.security);
    UnplainIs2022(f);
    LoweredShows2022(f);
    assert Lower("tcp") == "tcp" && |"ss"| != |"ss2022"|;
    hide Contains, ParseRule, Trim, DisplayProtocol, Lower, PlainlySpelled;
  }

  lemma RuleOn2022(f: Fields, rule: string)
    requires Ss2022(f) && TypeIs(rule, "ss2022")
    ensures RuleHides(Lowered(f), rule)
  {
    LoweredShows2022(f);
    hide DisplayProtocol, ParseRule, Trim, Lower;
  }
}
