/** For which lists deleting duplicates (dedupByBody in vair/core/fetch.go) and
    hiding them (memOrder in vair/core/memstore.go) look the same, whatever a
    tab's exclude rules are. */
module DedupRules {
  import opened Dedup
  import opened ExcludeFilter

  type KeyOf = string -> Identity

  predicate Copy(key: KeyOf, es: seq<Config?>, i: int, k: Identity) {
    0 <= i < |es| && Usable(es[i]) && key(es[i].raw) == k
  }

  predicate Plain(e: Config?) { e != null && PlainlySpelled(e.fields) }

  /** The identity of a link fixes its cipher, capitals aside: a Shadowsocks
      identity holds the cipher lowered. */
  ghost predicate CipherInKey(key: KeyOf, es: seq<Config?>) {
    forall i, j, k :: Copy(key, es, i, k) && Copy(key, es, j, k) ==> Ss2022(es[i].fields) == Ss2022(es[j].fields)
  }

  /** Some rule hides p in the table and not e. */
  ghost predicate Told(p: Config?, e: Config?) { p != null && e != null && exists rule: string :: Tells(p.fields, e.fields, rule) }

  predicate Tells(p: Fields, e: Fields, rule: string) {
    RuleHides(Lowered(p), rule) && !RuleHides(Lowered(e), rule)
  }

  ghost predicate FirstCopy(key: KeyOf, es: seq<Config?>, c: int, k: Identity) {
    Copy(key, es, c, k) && forall j :: 0 <= j < c ==> !Copy(key, es, j, k)
  }

  /** What rules can divide, given the first copy of an identity and another: a
      first copy in capitals and one that is not, or that can be told from it;
      behind a plain first copy, one in capitals that every plain copy before it
      can be told from. */
  ghost predicate Parted(key: KeyOf, es: seq<Config?>, k: Identity, c: int, e: int)
    requires 0 <= c < |es| && 0 <= e < |es|
  {
    if Plain(es[c]) then !Plain(es[e]) && PlainBeforeTold(key, es, k, e, e)
    else Plain(es[e]) || Told(es[c], es[e])
  }

  ghost predicate PlainBeforeTold(key: KeyOf, es: seq<Config?>, k: Identity, e: int, n: int)
    requires 0 <= e < |es|
  {
    forall j :: 0 <= j < n && Copy(key, es, j, k) && Plain(es[j]) ==> Told(es[j], es[e])
  }

  ghost predicate Divisible(key: KeyOf, es: seq<Config?>, k: Identity) {
    exists c, e :: FirstCopy(key, es, c, k) && Copy(key, es, e, k) && Parted(key, es, k, c, e)
  }

  // ------------------------------------------------------------ rules on one copy

  predicate HasType(rules: seq<string>, v: string) { exists i :: 0 <= i < |rules| && TypeIs(rules[i], v) }

  /** A copy in capitals under a list of rules. */
  lemma UnplainUnder(a: Asked, e: Config)
    requires !PlainlySpelled(e.fields) && !HasType(a.rules, "ss2022")
    ensures HasType(a.rules, "ss") ==> !Shown(a, e)
    ensures !HasType(a.rules, "ss") ==> Shown(a, e) == ViewShows(a, e)
  {
    hide TypeIs, RuleHides, Lowered, PlainlySpelled;
    forall i | 0 <= i < |a.rules|
      ensures TypeIs(a.rules[i], "ss") ==> RuleHides(e.fields, a.rules[i])
      ensures !TypeIs(a.rules[i], "ss") && !TypeIs(a.rules[i], "ss2022") ==>
        RuleHides(e.fields, a.rules[i]) == RuleHides(Lowered(e.fields), a.rules[i])
    {
      RuleOnUnplain(e.fields, a.rules[i]);
    }
  }

  lemma Type2022Hides(a: Asked, e: Config)
    requires Ss2022(e.fields) && HasType(a.rules, "ss2022")
    ensures !ViewShows(a, e)
  {
    var i :| 0 <= i < |a.rules| && TypeIs(a.rules[i], "ss2022");
    RuleOn2022(e.fields, a.rules[i]);
  }

  /** A rule that hides one entry of the view and lets another through. */
  lemma RulesTell(a: Asked, p: Config, e: Config)
    requires !ViewShows(a, p) && ViewShows(a, e)
    ensures Told(p, e)
  {
    hide RuleHides, Lowered;
    var i :| 0 <= i < |a.rules| && RuleHides(Lowered(p.fields), a.rules[i]);
    assert Tells(p.fields, e.fields, a.rules[i]);
  }

  // ------------------------------------------------------------ agreement

  lemma {:induction false} FirstCopyOf(key: KeyOf, es: seq<Config?>, i: nat, k: Identity) returns (c: nat)
    requires Copy(key, es, i, k)
    ensures c <= i && FirstCopy(key, es, c, k)
    decreases i
  {
    if j: nat :| j < i && Copy(key, es, j, k) {
      c := FirstCopyOf(key, es, j, k);
    } else {
      c := i;
    }
  }

  lemma {:induction false} FirstInViewOf(a: Asked, es: seq<Config?>, i: nat) returns (g: nat)
    requires i < |es| && Usable(es[i]) && ViewShows(a, es[i])
    ensures g <= i && FirstInView(a, es, g) && a.key(es[g].raw) == a.key(es[i].raw)
    decreases i
  {
    hide ViewShows;
    if j: nat :| j < i && HasKey(a, es[j], a.key(es[i].raw)) && ViewShows(a, es[j]) {
      HasKeyIsUsable(a, es[j], a.key(es[i].raw));
      g := FirstInViewOf(a, es, j);
    } else {
      g := i;
    }
  }

  lemma HasKeyIsUsable(a: Asked, e: Config?, k: Identity)
    requires HasKey(a, e, k)
    ensures Usable(e) && e != null
  {}

  /** Whether both tests answer alike for every copy of an identity. */
  ghost predicate TestsAlike(a: Asked, es: seq<Config?>, k: Identity) {
    forall j :: Copy(a.key, es, j, k) ==> Shown(a, es[j]) == ViewShows(a, es[j])
  }

  /** Where the tests answer alike, what the view shows first is what is kept. */
  lemma AlikeKeepsFirst(a: Asked, es: seq<Config?>, g: nat)
    requires FirstInView(a, es, g) && TestsAlike(a, es, a.key(es[g].raw))
    ensures ToKeep(a, es, |es|, a.key(es[g].raw), g)
  {
    var k := a.key(es[g].raw);
    hide ViewShows, Shown;
    assert Copy(a.key, es, g, k);
    forall j | 0 <= j < g && HasKey(a, es[j], k) ensures !Shown(a, es[j]) { assert Copy(a.key, es, j, k); }
    assert HasKey(a, es[g], k);
  }

  /** One type rule on "ss": copies in capitals are hidden from the delete, and
      the plain ones are as the view has them. */
  ghost predicate CapitalsHidden(a: Asked, es: seq<Config?>, k: Identity) {
    forall j :: Copy(a.key, es, j, k) ==> Shown(a, es[j]) == (Plain(es[j]) && ViewShows(a, es[j]))
  }

  lemma HiddenKeepsFirst(a: Asked, es: seq<Config?>, g: nat)
    requires FirstInView(a, es, g) && CapitalsHidden(a, es, a.key(es[g].raw))
    ensures ToKeep(a, es, |es|, a.key(es[g].raw), g) || Divisible(a.key, es, a.key(es[g].raw))
  {
    hide ToKeep, Divisible, CapitalsHidden, ViewShows, Plain;
    var k := a.key(es[g].raw);
    assert Copy(a.key, es, g, k);
    var c := FirstCopyOf(a.key, es, g, k);
    if Plain(es[g]) {
      PlainFirstKept(a, es, g);
    } else if Plain(es[c]) {
      BehindPlain(a, es, g, c);
    } else if c == g {
      NoPlainCopy(a, es, g);
    } else {
      BehindCapitals(a, es, g, c);
    }
  }

  lemma BehindCapitals(a: Asked, es: seq<Config?>, g: nat, c: nat)
    requires FirstInView(a, es, g) && FirstCopy(a.key, es, c, a.key(es[g].raw)) && !Plain(es[c]) && c < g
    ensures Divisible(a.key, es, a.key(es[g].raw))
  {
    var k := a.key(es[g].raw);
    assert Copy(a.key, es, g, k) && HasKey(a, es[c], k);
    RulesTell(a, es[c], es[g]);
    hide Told, Plain, Copy, ViewShows;
    assert Parted(a.key, es, k, c, g);
  }

  lemma PlainFirstKept(a: Asked, es: seq<Config?>, g: nat)
    requires FirstInView(a, es, g) && CapitalsHidden(a, es, a.key(es[g].raw)) && Plain(es[g])
    ensures ToKeep(a, es, |es|, a.key(es[g].raw), g)
  {
    var k := a.key(es[g].raw);
    hide ViewShows, Shown, Plain;
    assert Copy(a.key, es, g, k) && HasKey(a, es[g], k);
    forall j | 0 <= j < g && HasKey(a, es[j], k) ensures !Shown(a, es[j]) { assert Copy(a.key, es, j, k); }
  }

  lemma BehindPlain(a: Asked, es: seq<Config?>, g: nat, c: nat)
    requires FirstInView(a, es, g) && FirstCopy(a.key, es, c, a.key(es[g].raw)) && Plain(es[c]) && !Plain(es[g])
    ensures Divisible(a.key, es, a.key(es[g].raw))
  {
    var k := a.key(es[g].raw);
    assert Copy(a.key, es, g, k);
    forall j | 0 <= j < g && Copy(a.key, es, j, k) && Plain(es[j]) ensures Told(es[j], es[g]) {
      assert HasKey(a, es[j], k);
      RulesTell(a, es[j], es[g]);
    }
    hide Told, Plain, Copy;
    assert Parted(a.key, es, k, c, g);
  }

  lemma NoPlainCopy(a: Asked, es: seq<Config?>, g: nat)
    requires FirstInView(a, es, g) && CapitalsHidden(a, es, a.key(es[g].raw))
    requires FirstCopy(a.key, es, g, a.key(es[g].raw)) && !Plain(es[g])
    ensures ToKeep(a, es, |es|, a.key(es[g].raw), g) || Divisible(a.key, es, a.key(es[g].raw))
  {
    var k := a.key(es[g].raw);
    hide ViewShows, Shown, Plain, Told;
    assert Copy(a.key, es, g, k) && HasKey(a, es[g], k);
    if j :| Copy(a.key, es, j, k) && Plain(es[j]) {
      assert Parted(a.key, es, k, g, j);
    } else {
      forall j | 0 <= j < |es| && HasKey(a, es[j], k) ensures !Shown(a, es[j]) { assert Copy(a.key, es, j, k); }
      forall j | 0 <= j < g ensures !HasKey(a, es[j], k) { assert !Copy(a.key, es, j, k); }
    }
  }

  /** The kinds of rule list there are, for one identity. */
  lemma ThreeKinds(a: Asked, es: seq<Config?>, k: Identity)
    requires CipherInKey(a.key, es)
    ensures TestsAlike(a, es, k) || CapitalsHidden(a, es, k) || forall j :: Copy(a.key, es, j, k) ==> !ViewShows(a, es[j])
  {
    if u :| Copy(a.key, es, u, k) && !Plain(es[u]) {
      UnplainIs2022(es[u].fields);
      forall j | Copy(a.key, es, j, k) ensures Ss2022(es[j].fields) {}
      if HasType(a.rules, "ss2022") {
        forall j | Copy(a.key, es, j, k) ensures !ViewShows(a, es[j]) { Type2022Hides(a, es[j]); }
      } else {
        forall j | Copy(a.key, es, j, k) ensures Alike(a, es[j]) { OneCopy(a, es[j]); }
      }
    } else {
      forall j | Copy(a.key, es, j, k) ensures Shown(a, es[j]) == ViewShows(a, es[j]) { TestsAgree(a, es[j]); }
    }
  }

  predicate Alike(a: Asked, e: Config?)
    requires e != null
  {
    if HasType(a.rules, "ss") then Shown(a, e) == (Plain(e) && ViewShows(a, e)) else Shown(a, e) == ViewShows(a, e)
  }

  lemma OneCopy(a: Asked, e: Config)
    requires !HasType(a.rules, "ss2022")
    ensures Alike(a, e)
  {
    hide Shown, ViewShows, HasType, PlainlySpelled;
    if Plain(e) {
      TestsAgree(a, e);
    } else {
      UnplainUnder(a, e);
    }
  }

  lemma FirstInViewIsKept(a: Asked, es: seq<Config?>, g: nat)
    requires CipherInKey(a.key, es) && FirstInView(a, es, g) && !Divisible(a.key, es, a.key(es[g].raw))
    ensures ToKeep(a, es, |es|, a.key(es[g].raw), g)
  {
    hide ViewShows, Shown, Divisible, CipherInKey, ToKeep, TestsAlike, CapitalsHidden;
    var k := a.key(es[g].raw);
    ThreeKinds(a, es, k);
    assert Copy(a.key, es, g, k);
    if TestsAlike(a, es, k) {
      AlikeKeepsFirst(a, es, g);
    } else if CapitalsHidden(a, es, k) {
      HiddenKeepsFirst(a, es, g);
    }
  }

  /** What the view shows first of an identity is kept. */
  ghost predicate FirstIsKept(a: Asked, es: seq<Config?>, k: Identity) {
    forall g: nat :: FirstInView(a, es, g) && a.key(es[g].raw) == k ==> ToKeep(a, es, |es|, k, g)
  }

  /** Then the two agree on all its copies. */
  lemma KeptFirstAgrees(a: Asked, es: seq<Config?>, i: nat)
    requires NoRepeats(es) && i < |es| && Usable(es[i]) && FirstIsKept(a, es, a.key(es[i].raw))
    ensures AgreesAt(a, es, i)
  {
    hide ViewShows, Shown, ToKeep, IsKept, NoRepeats, FirstInView;
    OneOfEachStays(a, es, i);
    FirstInViewShows(a, es, i);
    if IsKept(a, es, i) && ViewShows(a, es[i]) {
      var g := FirstInViewOf(a, es, i);
      FirstInViewShows(a, es, g);
      OnlyOne(a, es, a.key(es[i].raw), i, g);
    }
  }

  lemma FirstInViewShows(a: Asked, es: seq<Config?>, i: nat)
    ensures FirstInView(a, es, i) ==> i < |es| && Usable(es[i]) && ViewShows(a, es[i])
  {}

  lemma UndividedIsKept(a: Asked, es: seq<Config?>, k: Identity)
    requires CipherInKey(a.key, es) && !Divisible(a.key, es, k)
    ensures FirstIsKept(a, es, k)
  {
    hide CipherInKey, Divisible, ToKeep, ViewShows;
    forall g: nat | FirstInView(a, es, g) && a.key(es[g].raw) == k ensures ToKeep(a, es, |es|, k, g) {
      FirstInViewIsKept(a, es, g);
    }
  }

  lemma UndividedAgree(a: Asked, es: seq<Config?>)
    requires NoRepeats(es) && CipherInKey(a.key, es) && forall k :: !Divisible(a.key, es, k)
    ensures Agree(a, es)
  {
    hide AgreesAt, Agree, NoRepeats, CipherInKey, Divisible, FirstIsKept, Usable;
    AgreeEverywhere(a, es);
    forall i | 0 <= i < |es| ensures AgreesAt(a, es, i) {
      if Usable(es[i]) {
        UsableIsThere(es[i]);
        UndividedIsKept(a, es, a.key(es[i].raw));
        KeptFirstAgrees(a, es, i);
      } else {
        BlankAgrees(a, es, i);
      }
    }
  }

  lemma BlankAgrees(a: Asked, es: seq<Config?>, i: nat)
    requires i < |es| && !Usable(es[i])
    ensures AgreesAt(a, es, i)
  {}

  // ------------------------------------------------------------ plain duplicates

  /** Only identities that occur more than once need plain spelling. */
  ghost predicate PlainDuplicates(key: KeyOf, es: seq<Config?>) {
    forall i, j, k :: Copy(key, es, i, k) && Copy(key, es, j, k) && i != j ==> Plain(es[i])
  }

  lemma PlainIsKept(a: Asked, es: seq<Config?>, g: nat)
    requires PlainDuplicates(a.key, es) && FirstInView(a, es, g)
    ensures ToKeep(a, es, |es|, a.key(es[g].raw), g)
  {
    var k := a.key(es[g].raw);
    hide Shown, ViewShows, Plain;
    assert Copy(a.key, es, g, k) && HasKey(a, es[g], k);
    if j :| Copy(a.key, es, j, k) && j != g {
      forall i | Copy(a.key, es, i, k) ensures Shown(a, es[i]) == ViewShows(a, es[i]) {
        assert Plain(es[i]);
        PlainAlike(a, es[i]);
      }
      AlikeKeepsFirst(a, es, g);
    } else {
      forall j | 0 <= j < |es| && HasKey(a, es[j], k) ensures j == g { assert Copy(a.key, es, j, k); }
    }
  }

  lemma PlainAlike(a: Asked, e: Config?)
    requires Plain(e)
    ensures Shown(a, e) == ViewShows(a, e)
  {
    TestsAgree(a, e);
  }

  /** Whatever the rules and the identities are: where every entry that has
      duplicates is plainly spelled, the table shows exactly the same after
      deleting duplicates as when it hides them, in the same order. */
  lemma PlainDuplicatesAgree(a: Asked, es: seq<Config?>)
    requires NoRepeats(es) && PlainDuplicates(a.key, es)
    ensures Agree(a, es)
  {
    hide AgreesAt, Agree, NoRepeats, PlainDuplicates, FirstIsKept, Usable;
    AgreeEverywhere(a, es);
    forall i | 0 <= i < |es| ensures AgreesAt(a, es, i) {
      if Usable(es[i]) {
        UsableIsThere(es[i]);
        PlainFirstIsKept(a, es, a.key(es[i].raw));
        KeptFirstAgrees(a, es, i);
      } else {
        BlankAgrees(a, es, i);
      }
    }
  }

  lemma PlainFirstIsKept(a: Asked, es: seq<Config?>, k: Identity)
    requires PlainDuplicates(a.key, es)
    ensures FirstIsKept(a, es, k)
  {
    hide PlainDuplicates, ToKeep, ViewShows;
    forall g: nat | FirstInView(a, es, g) && a.key(es[g].raw) == k ensures ToKeep(a, es, |es|, k, g) {
      PlainIsKept(a, es, g);
    }
  }

  // ------------------------------------------------------------ rules that divide

  /** All rules let e through in the table. */
  predicate Spare(e: Config?, rules: seq<string>) {
    e != null && forall i :: 0 <= i < |rules| ==> !RuleHides(Lowered(e.fields), rules[i])
  }

  /** Rules against every plain copy before position n that let e through. */
  lemma {:induction false} RulesAgainst(key: KeyOf, es: seq<Config?>, k: Identity, e: nat, n: nat) returns (rules: seq<string>)
    requires e < |es| && n <= |es| && es[e] != null && PlainBeforeTold(key, es, k, e, n)
    ensures Spare(es[e], rules)
    ensures forall j :: 0 <= j < n && Copy(key, es, j, k) && Plain(es[j]) ==> Hidden(Lowered(es[j].fields), rules)
  {
    hide RuleHides, Lowered, PlainlySpelled, Hidden;
    if n == 0 {
      rules := [];
    } else {
      rules := RulesAgainst(key, es, k, e, n - 1);
      if Copy(key, es, n - 1, k) && Plain(es[n - 1]) {
        assert Told(es[n - 1], es[e]);
        var rule: string :| Tells(es[n - 1].fields, es[e].fields, rule);
        var more := rules + [rule];
        assert more[|rules|] == rule && forall i :: 0 <= i < |rules| ==> more[i] == rules[i];
        MoreHides(es[n - 1].fields, rules, rule);
        forall j | 0 <= j < n - 1 && Copy(key, es, j, k) && Plain(es[j]) ensures Hidden(Lowered(es[j].fields), more) {
          StillHides(Lowered(es[j].fields), rules, rule);
        }
        rules := more;
      }
    }
  }

  lemma MoreHides(f: Fields, rules: seq<string>, rule: string)
    requires RuleHides(Lowered(f), rule)
    ensures Hidden(Lowered(f), rules + [rule])
  {
    assert (rules + [rule])[|rules|] == rule;
  }

  lemma StillHides(f: Fields, rules: seq<string>, rule: string)
    requires Hidden(f, rules)
    ensures Hidden(f, rules + [rule])
  {
    var i :| 0 <= i < |rules| && RuleHides(f, rules[i]);
    assert (rules + [rule])[i] == rules[i];
  }

  lemma TypeSsIsType()
    ensures TypeIs("type:ss", "ss")
  {
    TypeRule();
  }

  /** "type:ss" and rules that spare a copy in capitals: that copy is shown, no
      copy in capitals is shown to the delete, and no rule is on "ss2022". */
  lemma Divider(a: Asked, e: Config, rules: seq<string>)
    requires !PlainlySpelled(e.fields) && Spare(e, rules) && a.rules == rules + ["type:ss"]
    ensures ViewShows(a, e) && HasType(a.rules, "ss") && !HasType(a.rules, "ss2022")
  {
    hide RuleHides, Lowered, PlainlySpelled, TypeIs;
    TypeSsIsType();
    assert a.rules[|rules|] == "type:ss";
    forall i | 0 <= i < |a.rules| ensures !RuleHides(Lowered(e.fields), a.rules[i]) && !TypeIs(a.rules[i], "ss2022") {
      RuleOnUnplain(e.fields, a.rules[i]);
      if i < |rules| { assert a.rules[i] == rules[i]; }
    }
  }

  /** Under such rules the entry the view shows first is not the one kept. */
  lemma DividedAt(a: Asked, es: seq<Config?>, g: nat)
    requires FirstInView(a, es, g) && CapitalsHidden(a, es, a.key(es[g].raw)) && !Plain(es[g])
    requires exists j :: Copy(a.key, es, j, a.key(es[g].raw)) && j != g && (j < g || Shown(a, es[j]))
    ensures !ToKeep(a, es, |es|, a.key(es[g].raw), g)
  {
    var k := a.key(es[g].raw);
    hide ViewShows, Shown, Plain;
    assert Copy(a.key, es, g, k);
    var j :| Copy(a.key, es, j, k) && j != g && (j < g || Shown(a, es[j]));
    assert HasKey(a, es[j], k);
  }

  lemma KeptOrNot(a: Asked, es: seq<Config?>, g: nat)
    requires NoRepeats(es) && |es| > 1 && FirstInView(a, es, g) && !ToKeep(a, es, |es|, a.key(es[g].raw), g)
    ensures !Agree(a, es)
  {
    hide ToKeep, NoRepeats, Agree, ViewShows, IsKept, Usable;
    AgreeEverywhere(a, es);
    FirstInViewShows(a, es, g);
    OneOfEachStays(a, es, g);
    assert !AgreesAt(a, es, g);
  }

  lemma TypeSsSpares(f: Fields)
    requires Ss2022(f)
    ensures !RuleHides(Lowered(f), "type:ss")
  {
    TypeRule();
    LoweredShows2022(f);
    assert |"ss"| != |"ss2022"|;
  }

  lemma CapitalsAreHidden(a: Asked, es: seq<Config?>, k: Identity)
    requires HasType(a.rules, "ss") && !HasType(a.rules, "ss2022")
    ensures CapitalsHidden(a, es, k)
  {
    hide HasType, Shown, ViewShows, Plain;
    forall j | Copy(a.key, es, j, k) ensures Shown(a, es[j]) == (Plain(es[j]) && ViewShows(a, es[j])) { OneCopy(a, es[j]); }
  }

  /** A first copy in capitals, and a plain one: "type:ss" divides them. */
  lemma CapitalsThenPlain(a: Asked, es: seq<Config?>, k: Identity, c: nat, p: nat)
    requires NoRepeats(es) && CipherInKey(a.key, es) && FirstCopy(a.key, es, c, k) && Copy(a.key, es, p, k)
    requires !Plain(es[c]) && Plain(es[p]) && a.rules == [] + ["type:ss"]
    ensures !Agree(a, es)
  {
    hide NoRepeats, Agree, ToKeep;
    assert a.rules == ["type:ss"];
    UnplainIs2022(es[c].fields);
    assert Ss2022(es[p].fields);
    TypeSsSpares(es[p].fields);
    Divider(a, es[c], []);
    CapitalsAreHidden(a, es, k);
    hide Hidden, RuleHides, HasType, Plain, CipherInKey;
    FirstCopyInView(a, es, c, k);
    ShownAsView(a, es, p, k);
    DividedAt(a, es, c);
    KeptOrNot(a, es, c);
  }

  lemma FirstCopyInView(a: Asked, es: seq<Config?>, c: nat, k: Identity)
    requires FirstCopy(a.key, es, c, k) && ViewShows(a, es[c])
    ensures FirstInView(a, es, c)
  {
    hide ViewShows;
    forall j | 0 <= j < c ensures !HasKey(a, es[j], k) { assert !Copy(a.key, es, j, k); }
  }

  lemma ShownAsView(a: Asked, es: seq<Config?>, p: nat, k: Identity)
    requires CapitalsHidden(a, es, k) && Copy(a.key, es, p, k) && Plain(es[p])
    ensures Shown(a, es[p]) == ViewShows(a, es[p])
  {
    hide Shown, ViewShows, Plain;
  }

  /** Where rules hide an earlier copy but show one in capitals, and no plain copy
      is shown before it, they divide. */
  lemma HiddenThenCapitals(a: Asked, es: seq<Config?>, k: Identity, c: nat, e: nat)
    requires NoRepeats(es) && FirstCopy(a.key, es, c, k) && Copy(a.key, es, e, k)
    requires HasType(a.rules, "ss") && !HasType(a.rules, "ss2022") && ViewShows(a, es[e]) && !ViewShows(a, es[c])
    requires forall j :: 0 <= j <= e && Copy(a.key, es, j, k) && Plain(es[j]) ==> !ViewShows(a, es[j])
    ensures !Agree(a, es)
  {
    hide NoRepeats, Agree, ToKeep, ViewShows, HasType, Plain, Copy, FirstCopy, FirstInView, CapitalsHidden;
    CopyIsUsable(a, es, e, k);
    CapitalsAreHidden(a, es, k);
    var g := FirstInViewOf(a, es, e);
    FirstInViewShows(a, es, g);
    LaterCopy(a, es, k, c, g);
    DividedAt(a, es, g);
    KeptOrNot(a, es, g);
  }

  lemma CopyIsUsable(a: Asked, es: seq<Config?>, e: int, k: Identity)
    requires Copy(a.key, es, e, k)
    ensures 0 <= e < |es| && Usable(es[e]) && es[e] != null && a.key(es[e].raw) == k
  {}

  /** A copy the view shows comes behind the first copy, which it does not. */
  lemma LaterCopy(a: Asked, es: seq<Config?>, k: Identity, c: int, g: int)
    requires FirstCopy(a.key, es, c, k) && !ViewShows(a, es[c])
    requires 0 <= g < |es| && Usable(es[g]) && a.key(es[g].raw) == k && ViewShows(a, es[g])
    ensures Copy(a.key, es, g, k) && Copy(a.key, es, c, k) && c < g
    ensures |es| > 1
  {
    hide ViewShows;
    assert Copy(a.key, es, g, k);
    assert g != c;
  }

  lemma OneTells(a: Asked, es: seq<Config?>, k: Identity, c: nat, e: nat, rule: string)
    requires NoRepeats(es) && FirstCopy(a.key, es, c, k) && Copy(a.key, es, e, k)
    requires Tells(es[c].fields, es[e].fields, rule) && a.rules == [rule] + ["type:ss"]
    requires forall j :: Copy(a.key, es, j, k) ==> !Plain(es[j])
    ensures !Agree(a, es)
  {
    hide NoRepeats, Agree, RuleHides, Lowered, FirstCopy;
    FirstIsCopy(a.key, es, c, k);
    Divider(a, es[e], [rule]);
    assert a.rules[0] == rule;
    hide HasType;
    HiddenThenCapitals(a, es, k, c, e);
  }

  lemma FirstIsCopy(key: KeyOf, es: seq<Config?>, c: nat, k: Identity)
    requires FirstCopy(key, es, c, k)
    ensures Copy(key, es, c, k)
  {}

  lemma PlainThenCapitals(a: Asked, es: seq<Config?>, k: Identity, c: nat, e: nat, rules: seq<string>)
    requires NoRepeats(es) && FirstCopy(a.key, es, c, k) && Copy(a.key, es, e, k)
    requires Plain(es[c]) && !Plain(es[e]) && Spare(es[e], rules) && a.rules == rules + ["type:ss"]
    requires forall j :: 0 <= j < e && Copy(a.key, es, j, k) && Plain(es[j]) ==> Hidden(Lowered(es[j].fields), rules)
    ensures !Agree(a, es)
  {
    hide NoRepeats, Agree, RuleHides, Lowered, Spare, Hidden;
    Divider(a, es[e], rules);
    forall j | 0 <= j < e && Copy(a.key, es, j, k) && Plain(es[j]) ensures !ViewShows(a, es[j]) {
      StillHides(Lowered(es[j].fields), rules, "type:ss");
    }
    assert Copy(a.key, es, c, k) && c < e;
    hide HasType, ViewShows, PlainlySpelled;
    HiddenThenCapitals(a, es, k, c, e);
  }

  /** An identity that can be divided is divided by some rules. */
  lemma Divide(key: KeyOf, es: seq<Config?>, k: Identity) returns (rules: seq<string>)
    requires NoRepeats(es) && CipherInKey(key, es) && Divisible(key, es, k)
    ensures !Agree(Asked(key, rules), es)
  {
    hide NoRepeats, CipherInKey, Agree, Plain, Tells, Spare, Hidden;
    var c: nat, e: nat :| FirstCopy(key, es, c, k) && Copy(key, es, e, k) && Parted(key, es, k, c, e);
    if Plain(es[c]) {
      var rs := RulesAgainst(key, es, k, e, e);
      rules := rs + ["type:ss"];
      PlainThenCapitals(Asked(key, rules), es, k, c, e, rs);
    } else if p: nat :| Copy(key, es, p, k) && Plain(es[p]) {
      rules := [] + ["type:ss"];
      CapitalsThenPlain(Asked(key, rules), es, k, c, p);
    } else {
      var rule: string :| Tells(es[c].fields, es[e].fields, rule);
      rules := [rule] + ["type:ss"];
      OneTells(Asked(key, rules), es, k, c, e, rule);
    }
  }

  /** For which lists the two always look the same: under all rules the table
      shows after deleting duplicates what it shows when it hides them, if and
      only if no identity can be divided. */
  lemma DeleteShowsWhatHideShows(key: KeyOf, es: seq<Config?>)
    requires NoRepeats(es) && CipherInKey(key, es)
    ensures (forall rules :: Agree(Asked(key, rules), es)) <==> forall k :: !Divisible(key, es, k)
  {
    hide NoRepeats, CipherInKey, Agree, Divisible;
    if k :| Divisible(key, es, k) {
      var rules := Divide(key, es, k);
      assert !Agree(Asked(key, rules), es);
    } else {
      forall rules ensures Agree(Asked(key, rules), es) { UndividedAgree(Asked(key, rules), es); }
    }
  }
}
