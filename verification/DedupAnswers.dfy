/** Which entries stay when duplicates are deleted, and which are shown when they are
    hidden, said from the entries (dedupByBody in vair/core/fetch.go, memOrder in
    vair/core/memstore.go). */
module DedupAnswers {
  import opened Dedup
  import opened ExcludeFilter
  import opened FilterRules

  /** An entry with a link. */
  predicate Linked(e: Config?) { e != null && !Blank(e.raw) }

  /** Two links of one server. */
  predicate Copies(a: Asked, e: Config?, f: Config?) { Linked(e) && Linked(f) && a.key(e.raw) == a.key(f.raw) }

  /** No rule of the tab hides the entry. */
  predicate LetThrough(a: Asked, f: Fields) { forall rule :: rule in a.rules ==> !RuleHides(f, rule) }

  /** The first copy that is let through stays, or the first of all when none is. */
  predicate Stays(a: Asked, es: seq<Config?>, i: int)
    requires 0 <= i < |es|
  {
    Linked(es[i]) &&
    if LetThrough(a, es[i].fields) then forall j :: 0 <= j < i && Copies(a, es[j], es[i]) ==> !LetThrough(a, es[j].fields)
    else forall j :: 0 <= j < |es| && j != i && Copies(a, es[j], es[i]) ==> i < j && !LetThrough(a, es[j].fields)
  }

  /** Those that stay, from a position on. */
  function StayFrom(a: Asked, es: seq<Config?>, i: nat): seq<Config?>
    requires i <= |es|
    decreases |es| - i
  {
    if i == |es| then [] else (if Stays(a, es, i) then [es[i]] else []) + StayFrom(a, es, i + 1)
  }

  lemma LinkedIsUsable(e: Config?)
    ensures Usable(e) <==> Linked(e)
  {
    if e != null {
      TrimsToIff(e.raw, "");
      hide Trim;
      if Blank(e.raw) { assert Blank("") && e.raw == e.raw + "" + ""; }
      if TrimsTo(e.raw, "") {
        var x, y :| Blank(x) && Blank(y) && e.raw == x + "" + y;
        assert forall i :: 0 <= i < |e.raw| ==> e.raw[i] == if i < |x| then x[i] else y[i - |x|];
      }
    }
  }

  lemma ShownIsLet(a: Asked, e: Config?)
    ensures Shown(a, e) <==> e != null && LetThrough(a, e.fields)
  {
    hide RuleHides;
    if e != null && Hidden(e.fields, a.rules) {
      var i :| 0 <= i < |a.rules| && RuleHides(e.fields, a.rules[i]);
      assert a.rules[i] in a.rules;
    }
  }

  lemma StaysAgree(a: Asked, es: seq<Config?>, i: nat)
    requires NoRepeats(es) && i < |es|
    ensures IsKept(a, es, i) <==> Stays(a, es, i)
  {
    hide IsKept, LetThrough, Linked, Trim, Hidden;
    OneOfEachStays(a, es, i);
    forall j | 0 <= j < |es|
      ensures (Usable(es[j]) <==> Linked(es[j])) && (Shown(a, es[j]) <==> es[j] != null && LetThrough(a, es[j].fields))
    {
      LinkedIsUsable(es[j]);
      ShownIsLet(a, es[j]);
    }
    LinkedThere(es, i);
    hide Shown;
  }

  lemma LinkedThere(es: seq<Config?>, i: nat)
    requires i < |es|
    ensures Linked(es[i]) ==> es[i] != null
  {}

  lemma {:induction false} KeptThenStay(a: Asked, es: seq<Config?>, n: nat)
    requires NoRepeats(es) && n <= |es|
    ensures Kept(a, es, n) + StayFrom(a, es, n) == Kept(a, es, |es|)
    decreases |es| - n
  {
    hide IsKept, Stays, NoRepeats;
    if n < |es| {
      StaysAgree(a, es, n);
      KeptThenStay(a, es, n + 1);
      var now: seq<Config?> := if Stays(a, es, n) then [es[n]] else [];
      assert Kept(a, es, n) + (now + StayFrom(a, es, n + 1)) == (Kept(a, es, n) + now) + StayFrom(a, es, n + 1);
    }
  }

  /** Deleting duplicates leaves those that stay, in their order; a list of one is
      left as it is. */
  lemma DedupGoesByRules(a: Asked, es: seq<Config?>)
    requires NoRepeats(es)
    ensures Deduped(a, es) == if |es| <= 1 then es else StayFrom(a, es, 0)
  {
    hide IsKept, Stays, NoRepeats;
    KeptThenStay(a, es, 0);
    NothingFirst(a, es);
  }

  lemma NothingFirst(a: Asked, es: seq<Config?>)
    ensures Kept(a, es, 0) + StayFrom(a, es, 0) == StayFrom(a, es, 0)
  {
    hide Stays;
    assert Kept(a, es, 0) == [];
  }

  // ------------------------------------------------------------ hidden

  /** The view asks the rules of the fields in lower case, "raw" being shown as the
      transport it is. */
  predicate ViewLets(a: Asked, e: Config) {
    var f := e.fields;
    var network := if Lower(f.network) == "raw" then "tcp" else Lower(f.network);
    LetThrough(a, Fields(Lower(f.name), Lower(f.kind), Lower(f.host), network, Lower(f.security)))
  }

  /** Shown when it is let through and no earlier copy is. */
  predicate InView(a: Asked, es: seq<Config>, i: int)
    requires 0 <= i < |es|
  {
    ViewLets(a, es[i]) && forall j :: 0 <= j < i && a.key(es[j].raw) == a.key(es[i].raw) ==> !ViewLets(a, es[j])
  }

  function ViewFrom(a: Asked, es: seq<Config>, i: nat): seq<Config>
    requires i <= |es|
    decreases |es| - i
  {
    if i == |es| then [] else (if InView(a, es, i) then [es[i]] else []) + ViewFrom(a, es, i + 1)
  }

  lemma ViewLetsIs(a: Asked, e: Config)
    ensures ViewShows(a, e) <==> ViewLets(a, e)
  {
    hide RuleHides, Lower;
    if Hidden(Lowered(e.fields), a.rules) {
      var i :| 0 <= i < |a.rules| && RuleHides(Lowered(e.fields), a.rules[i]);
      assert a.rules[i] in a.rules;
    }
  }

  lemma InViewIs(a: Asked, es: seq<Config>, i: nat)
    requires i < |es|
    ensures FirstShown(a, es[..i], es[i]) <==> InView(a, es, i)
  {
    hide ViewShows, ViewLets;
    forall e ensures ViewShows(a, e) <==> ViewLets(a, e) { ViewLetsIs(a, e); }
    forall j | 0 <= j < i ensures es[j] in es[..i] { assert es[..i][j] == es[j]; }
  }

  lemma {:induction false} ViewThenRest(a: Asked, es: seq<Config>, n: nat)
    requires n <= |es|
    ensures HideView(a, es[..n]) + ViewFrom(a, es, n) == HideView(a, es)
    decreases |es| - n
  {
    hide FirstShown, InView;
    if n == |es| {
      assert es[..n] == es;
    } else {
      InViewIs(a, es, n);
      ViewThenRest(a, es, n + 1);
      assert es[..n + 1][..n] == es[..n];
      var now := if InView(a, es, n) then [es[n]] else [];
      assert HideView(a, es[..n]) + (now + ViewFrom(a, es, n + 1)) == (HideView(a, es[..n]) + now) + ViewFrom(a, es, n + 1);
    }
  }

  /** Hiding duplicates shows those and no others, in their order. */
  lemma ViewGoesByRules(a: Asked, es: seq<Config>)
    ensures HideView(a, es) == ViewFrom(a, es, 0)
  {
    hide FirstShown, InView;
    ViewThenRest(a, es, 0);
    assert es[..0] == [] && HideView(a, []) == [];
  }
}
