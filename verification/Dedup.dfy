/** Two ways to drop duplicates: dedupByBody (vair/core/fetch.go), which
    deletes them, and the table's view (vair/core/memstore.go), which hides
    them. An entry's fields do not change while either runs. */
module Dedup {
  import opened Decimal
  import opened ExcludeFilter

  /** A canonical identity is never the empty string. */
  type Identity = s: string | |s| > 0 witness "?"

  class Config {
    const raw: string
    const fields: Fields

    constructor (raw: string, fields: Fields)
      ensures this.raw == raw && this.fields == fields
    {
      this.raw, this.fields := raw, fields;
    }
  }

  /** What both read: the identity of a link, and the rules of the tab. */
  datatype Asked = Asked(key: string -> Identity, rules: seq<string>)

  predicate Usable(e: Config?) { e != null && Trim(e.raw) != "" }

  predicate HasKey(a: Asked, e: Config?, k: Identity) { Usable(e) && a.key(e.raw) == k }

  predicate Shown(a: Asked, e: Config?) { e != null && !Hidden(e.fields, a.rules) }

  /** Which of the first n entries is kept for an identity. */
  function Keeper(a: Asked, es: seq<Config?>, n: nat, k: Identity): (r: Option<nat>)
    requires n <= |es|
    ensures r.Some? ==> r.value < n && HasKey(a, es[r.value], k)
  {
    if n == 0 then None
    else
      var before := Keeper(a, es, n - 1, k);
      if !HasKey(a, es[n - 1], k) then before
      else if before.None? || (!Shown(a, es[before.value]) && Shown(a, es[n - 1])) then Some(n - 1)
      else before
  }

  /** The kept ones among the first n of a list. */
  function Kept(a: Asked, es: seq<Config?>, n: nat): seq<Config?>
    requires n <= |es|
  {
    if n == 0 then []
    else Kept(a, es, n - 1) + if IsKept(a, es, n - 1) then [es[n - 1]] else []
  }

  predicate IsKept(a: Asked, es: seq<Config?>, i: nat)
    requires i < |es|
  {
    var e := es[i];
    Usable(e) &&
    var r := Keeper(a, es, |es|, a.key(e.raw));
    r.Some? && es[r.value] == e
  }

  function Deduped(a: Asked, es: seq<Config?>): seq<Config?> {
    if |es| <= 1 then es else Kept(a, es, |es|)
  }

  method DedupByBody(a: Asked, es: seq<Config?>) returns (out: seq<Config?>)
    ensures out == Deduped(a, es)
  {
    hide Recalls, Kept, IsKept, KeyText;
    if |es| <= 1 { return es; }
    var keys: seq<string> := [];
    var keep: map<string, Config> := map[];
    var keptHidden: map<string, bool> := map[];
    NothingSeen(a, es);
    for i := 0 to |es|
      invariant |keys| == i
      invariant forall j :: 0 <= j < i ==> keys[j] == KeyText(a, es[j])
      invariant Recalls(a, es, i, keep, keptHidden)
    {
      keep, keptHidden := Remember(a, es, i, keep, keptHidden);
      keys := keys + [KeyText(a, es[i])];
    }
    out := [];
    for i := 0 to |es|
      invariant out == Kept(a, es, i)
    {
      KeptStep(a, es, i);
      KeyKept(a, es, i, keep, keptHidden);
      if keys[i] != "" {
        if keys[i] in keep && keep[keys[i]] == es[i] { out := out + [es[i]]; }
      }
    }
  }

  /** The key noted for an entry: none for a hole or a blank line. */
  function KeyText(a: Asked, e: Config?): string { if Usable(e) then a.key(e.raw) else "" }

  ghost predicate Recalls(a: Asked, es: seq<Config?>, n: nat, keep: map<string, Config>, keptHidden: map<string, bool>)
    requires n <= |es|
  {
    forall k: Identity :: RecallsKey(a, es, n, keep, keptHidden, k)
  }

  ghost predicate RecallsKey(a: Asked, es: seq<Config?>, n: nat, keep: map<string, Config>, keptHidden: map<string, bool>, k: Identity)
    requires n <= |es|
  {
    var r := Keeper(a, es, n, k);
    if r.None? then k !in keep
    else k in keep && k in keptHidden && keep[k] == es[r.value] && keptHidden[k] == !Shown(a, es[r.value])
  }

  /** One entry of the first walk. */
  method Remember(a: Asked, es: seq<Config?>, i: nat, keep0: map<string, Config>, hidden0: map<string, bool>)
    returns (keep: map<string, Config>, keptHidden: map<string, bool>)
    requires i < |es| && Recalls(a, es, i, keep0, hidden0)
    ensures Recalls(a, es, i + 1, keep, keptHidden)
  {
    keep, keptHidden := keep0, hidden0;
    var e := es[i];
    if Usable(e) {
      var key := a.key(e.raw);
      assert RecallsKey(a, es, i, keep0, hidden0, key);
      if key !in keep {
        var h := ShouldSkip(e.fields, a.rules);
        keep, keptHidden := keep[key := e], keptHidden[key := h];
      } else if keptHidden[key] {
        var h := ShouldSkip(e.fields, a.rules);
        if !h {
          keep, keptHidden := keep[key := e], keptHidden[key := false];
        }
      }
    }
    ghost var n := i + 1;
    forall k: Identity ensures RecallsKey(a, es, n, keep, keptHidden, k) {
      assert RecallsKey(a, es, i, keep0, hidden0, k);
    }
  }

  lemma NothingSeen(a: Asked, es: seq<Config?>)
    ensures Recalls(a, es, 0, map[], map[]) && Kept(a, es, 0) == []
  {
    forall k: Identity ensures RecallsKey(a, es, 0, map[], map[], k) {}
  }

  lemma KeptStep(a: Asked, es: seq<Config?>, i: nat)
    requires i < |es|
    ensures Kept(a, es, i + 1) == if IsKept(a, es, i) then Kept(a, es, i) + [es[i]] else Kept(a, es, i)
  {}

  lemma KeyKept(a: Asked, es: seq<Config?>, i: nat, keep: map<string, Config>, keptHidden: map<string, bool>)
    requires i < |es| && Recalls(a, es, |es|, keep, keptHidden)
    ensures IsKept(a, es, i) <==>
      var k := KeyText(a, es[i]);
      k != "" && k in keep && keep[k] == es[i]
  {
    if Usable(es[i]) { assert RecallsKey(a, es, |es|, keep, keptHidden, a.key(es[i].raw)); }
  }

  // ------------------------------------------------------------ what is kept

  /** Entry r is the one to keep of the first n: the first the filter shows, or
      the first of all when it shows none. */
  ghost predicate ToKeep(a: Asked, es: seq<Config?>, n: nat, k: Identity, r: nat)
    requires n <= |es|
  {
    r < n && HasKey(a, es[r], k) &&
    if Shown(a, es[r]) then forall j :: 0 <= j < r && HasKey(a, es[j], k) ==> !Shown(a, es[j])
    else
      && (forall j :: 0 <= j < n && HasKey(a, es[j], k) ==> !Shown(a, es[j]))
      && (forall j :: 0 <= j < r ==> !HasKey(a, es[j], k))
  }

  /** An identity is kept when any usable entry has it, and in the right copy. */
  lemma {:induction false} KeeperIsFirstShown(a: Asked, es: seq<Config?>, n: nat, k: Identity)
    requires n <= |es|
    ensures RightKeeper(a, es, n, k, Keeper(a, es, n, k))
  {
    if n == 0 {
    } else {
      KeeperIsFirstShown(a, es, n - 1, k);
      hide HasKey, Shown, ToKeep, NoneHas;
      var before := Keeper(a, es, n - 1, k);
      if before.None? {
        NewcomerKept(a, es, n, k);
      } else {
        NewcomerWeighed(a, es, n, k, before.value);
      }
    }
  }

  ghost predicate RightKeeper(a: Asked, es: seq<Config?>, n: nat, k: Identity, r: Option<nat>)
    requires n <= |es|
  {
    if r.Some? then ToKeep(a, es, n, k, r.value) else NoneHas(a, es, n, k)
  }

  ghost predicate NoneHas(a: Asked, es: seq<Config?>, n: nat, k: Identity)
    requires n <= |es|
  {
    forall j :: 0 <= j < n ==> !HasKey(a, es[j], k)
  }

  lemma NewcomerKept(a: Asked, es: seq<Config?>, n: nat, k: Identity)
    requires 0 < n <= |es| && NoneHas(a, es, n - 1, k)
    ensures if HasKey(a, es[n - 1], k) then ToKeep(a, es, n, k, n - 1) else NoneHas(a, es, n, k)
  {
    hide HasKey, Shown;
  }

  lemma NewcomerWeighed(a: Asked, es: seq<Config?>, n: nat, k: Identity, r: nat)
    requires 0 < n <= |es| && ToKeep(a, es, n - 1, k, r)
    ensures var better := HasKey(a, es[n - 1], k) && !Shown(a, es[r]) && Shown(a, es[n - 1]);
            ToKeep(a, es, n, k, if better then n - 1 else r)
  {
    hide HasKey, Shown;
  }

  predicate NoRepeats(es: seq<Config?>) {
    forall i, j :: 0 <= i < j < |es| && es[i] != null ==> es[i] != es[j]
  }

  /** Of every identity exactly one entry stays, the right one. */
  lemma OneOfEachStays(a: Asked, es: seq<Config?>, i: nat)
    requires NoRepeats(es) && i < |es|
    ensures IsKept(a, es, i) <==> Usable(es[i]) && ToKeep(a, es, |es|, a.key(es[i].raw), i)
  {
    if Usable(es[i]) {
      var k := a.key(es[i].raw);
      KeeperIsFirstShown(a, es, |es|, k);
      if ToKeep(a, es, |es|, k, i) { OnlyOne(a, es, k, i, Keeper(a, es, |es|, k).value); }
    }
  }

  lemma OnlyOne(a: Asked, es: seq<Config?>, k: Identity, i: nat, j: nat)
    requires ToKeep(a, es, |es|, k, i) && ToKeep(a, es, |es|, k, j)
    ensures i == j
  {}

  // ------------------------------------------------------------ the view

  /** The table tests the fields it has lowered. */
  predicate ViewShows(a: Asked, e: Config) { !Hidden(Lowered(e.fields), a.rules) }

  predicate FirstShown(a: Asked, before: seq<Config>, e: Config) {
    ViewShows(a, e) && forall p :: p in before && a.key(p.raw) == a.key(e.raw) ==> !ViewShows(a, p)
  }

  /** "Hide duplicates": of each identity the first entry the filter shows. */
  function HideView(a: Asked, es: seq<Config>): seq<Config> {
    if es == [] then []
    else
      var front, last := es[..|es| - 1], es[|es| - 1];
      HideView(a, front) + if FirstShown(a, front, last) then [last] else []
  }

  /** The identities of the entries shown. */
  function Seen(a: Asked, es: seq<Config>): set<Identity> {
    if es == [] then {}
    else
      var last := es[|es| - 1];
      Seen(a, es[..|es| - 1]) + if ViewShows(a, last) then {a.key(last.raw)} else {}
  }

  lemma {:induction false} SeenMembers(a: Asked, es: seq<Config>, k: Identity)
    ensures k !in Seen(a, es) <==> forall p :: p in es && a.key(p.raw) == k ==> !ViewShows(a, p)
  {
    if es == [] {
    } else {
      hide ViewShows;
      SeenMembers(a, es[..|es| - 1], k);
      assert es == es[..|es| - 1] + [es[|es| - 1]];
    }
  }

  /** The loop of memOrder that applies the exclude rules and then drops what it
      has seen. */
  method HideDuplicates(a: Asked, es: seq<Config>) returns (out: seq<Config>)
    ensures out == HideView(a, es)
  {
    hide Hidden, Lowered;
    out := [];
    var seen: set<Identity> := {};
    for i := 0 to |es|
      invariant out == HideView(a, es[..i])
      invariant seen == Seen(a, es[..i])
    {
      var e := es[i];
      assert es[..i + 1][..i] == es[..i];
      SeenMembers(a, es[..i], a.key(e.raw));
      var skip := ShouldSkip(Lowered(e.fields), a.rules);
      if !skip {
        if a.key(e.raw) !in seen {
          seen := seen + {a.key(e.raw)};
          out := out + [e];
        }
      }
    }
    assert es[..|es|] == es;
  }

  // ------------------------------------------------------------ agreement

  function NonBlank(es: seq<Config?>): seq<Config> {
    if es == [] then []
    else
      var last := es[|es| - 1];
      NonBlank(es[..|es| - 1]) + if Usable(last) then [last] else []
  }

  lemma {:induction false} NonBlankMembers(es: seq<Config?>)
    ensures forall e :: e in NonBlank(es) ==> e in es && Usable(e)
    ensures forall e :: e in es && Usable(e) ==> e in NonBlank(es)
  {
    if es == [] {
    } else {
      NonBlankMembers(es[..|es| - 1]);
    }
  }

  /** What the table shows of a list. */
  function Visible(a: Asked, es: seq<Config>): seq<Config> {
    if es == [] then []
    else
      var last := es[|es| - 1];
      Visible(a, es[..|es| - 1]) + if ViewShows(a, last) then [last] else []
  }

  lemma TestsAgree(a: Asked, e: Config)
    requires PlainlySpelled(e.fields)
    ensures Shown(a, e) == ViewShows(a, e)
  {
    PlacesAgreeIff(e.fields);
  }

  /** Entry i is the first of its identity the view shows. */
  ghost predicate FirstInView(a: Asked, es: seq<Config?>, i: nat) {
    i < |es| && Usable(es[i]) && ViewShows(a, es[i]) &&
    forall j :: 0 <= j < i && HasKey(a, es[j], a.key(es[i].raw)) ==> !ViewShows(a, es[j])
  }

  /** Deleting keeps entry i for the view exactly when hiding shows it. */
  ghost predicate AgreesAt(a: Asked, es: seq<Config?>, i: nat)
    requires i < |es|
  {
    Usable(es[i]) ==> (IsKept(a, es, i) && ViewShows(a, es[i]) <==> FirstInView(a, es, i))
  }

  lemma FirstShownIsFirstInView(a: Asked, es: seq<Config?>, i: nat)
    requires i < |es| && Usable(es[i])
    ensures FirstShown(a, NonBlank(es[..i]), es[i]) <==> FirstInView(a, es, i)
  {
    hide ViewShows, NonBlank;
    NonBlankMembers(es[..i]);
    var front, k := es[..i], a.key(es[i].raw);
    assert forall j :: 0 <= j < i ==> front[j] == es[j];
    if FirstShown(a, NonBlank(front), es[i]) {
      forall j | 0 <= j < i && HasKey(a, es[j], k) ensures !ViewShows(a, es[j]) { assert front[j] in front; }
    }
    if FirstInView(a, es, i) {
      forall p | p in NonBlank(front) && a.key(p.raw) == k ensures !ViewShows(a, p) {
        var j :| 0 <= j < i && front[j] == p;
        assert HasKey(a, es[j], k);
      }
    }
  }

  lemma NonBlankAppend(es: seq<Config?>, e: Config?)
    ensures if Usable(e) then NonBlank(es + [e]) == NonBlank(es) + [e] else NonBlank(es + [e]) == NonBlank(es)
  {
    assert (es + [e])[..|es|] == es;
  }

  lemma UsableIsThere(e: Config?)
    requires Usable(e)
    ensures e != null
  {}

  lemma ViewAppend(a: Asked, es: seq<Config>, e: Config?)
    requires e != null
    ensures if FirstShown(a, es, e) then HideView(a, es + [e]) == HideView(a, es) + [e]
            else HideView(a, es + [e]) == HideView(a, es)
  {
    assert (es + [e])[..|es|] == es;
  }

  lemma VisibleAppend(a: Asked, es: seq<Config>, e: Config?)
    requires e != null
    ensures if ViewShows(a, e) then Visible(a, es + [e]) == Visible(a, es) + [e]
            else Visible(a, es + [e]) == Visible(a, es)
  {
    assert (es + [e])[..|es|] == es;
  }

  lemma KeptIsUsable(a: Asked, es: seq<Config?>, i: nat)
    requires i < |es|
    ensures IsKept(a, es, i) ==> Usable(es[i])
  {}

  lemma OneMore(a: Asked, es: seq<Config?>, i: nat, kept: seq<Config?>)
    requires i < |es| && AgreesAt(a, es, i)
    requires Visible(a, NonBlank(kept)) == HideView(a, NonBlank(es[..i]))
    ensures Visible(a, NonBlank(if IsKept(a, es, i) then kept + [es[i]] else kept)) == HideView(a, NonBlank(es[..i] + [es[i]]))
  {
    hide IsKept, ViewShows, FirstShown, FirstInView, Usable, NonBlank, Visible, HideView, Kept;
    var e := es[i];
    KeptIsUsable(a, es, i);
    NonBlankAppend(kept, e);
    NonBlankAppend(es[..i], e);
    if Usable(e) {
      UsableIsThere(e);
      FirstShownIsFirstInView(a, es, i);
      ViewAppend(a, NonBlank(es[..i]), e);
      VisibleAppend(a, NonBlank(kept), e);
    }
  }

  lemma {:induction false} VisibleKept(a: Asked, es: seq<Config?>, n: nat)
    requires n <= |es| && forall i :: 0 <= i < n ==> AgreesAt(a, es, i)
    ensures Visible(a, NonBlank(Kept(a, es, n))) == HideView(a, NonBlank(es[..n]))
  {
    hide AgreesAt, IsKept, NonBlank, Visible, HideView, Kept;
    if n == 0 {
      NothingYet(a, es);
    } else {
      VisibleKept(a, es, n - 1);
      KeptStep(a, es, n - 1);
      OneMore(a, es, n - 1, Kept(a, es, n - 1));
      assert es[..n] == es[..n - 1] + [es[n - 1]];
    }
  }

  lemma NothingYet(a: Asked, es: seq<Config?>)
    ensures Visible(a, NonBlank(Kept(a, es, 0))) == HideView(a, NonBlank(es[..0])) == []
  {
    assert es[..0] == [];
  }

  lemma {:induction false} VisibleMembers(a: Asked, es: seq<Config>, e: Config)
    ensures e in Visible(a, es) <==> e in es && ViewShows(a, e)
  {
    if es == [] {
    } else {
      hide ViewShows;
      VisibleMembers(a, es[..|es| - 1], e);
      assert es == es[..|es| - 1] + [es[|es| - 1]];
    }
  }

  lemma {:induction false} KeptMembers(a: Asked, es: seq<Config?>, n: nat, e: Config)
    requires n <= |es|
    ensures e in Kept(a, es, n) <==> exists i :: 0 <= i < n && es[i] == e && IsKept(a, es, i)
  {
    if n == 0 {
    } else {
      hide IsKept;
      KeptMembers(a, es, n - 1, e);
    }
  }

  lemma {:induction false} ViewMembers(a: Asked, es: seq<Config?>, n: nat, e: Config)
    requires n <= |es|
    ensures e in HideView(a, NonBlank(es[..n])) <==> exists i :: 0 <= i < n && es[i] == e && FirstInView(a, es, i)
  {
    hide FirstInView, FirstShown, NonBlank, HideView, Usable;
    if n == 0 {
      NothingYet(a, es);
    } else {
      ViewMembers(a, es, n - 1, e);
      var last := es[n - 1];
      assert es[..n] == es[..n - 1] + [last];
      NonBlankAppend(es[..n - 1], last);
      FirstInViewIsUsable(a, es, n - 1);
      if Usable(last) {
        UsableIsThere(last);
        FirstShownIsFirstInView(a, es, n - 1);
        ViewAppend(a, NonBlank(es[..n - 1]), last);
      }
    }
  }

  lemma FirstInViewIsUsable(a: Asked, es: seq<Config?>, i: nat)
    requires FirstInView(a, es, i)  || i < |es|
    ensures FirstInView(a, es, i) ==> Usable(es[i])
  {}

  /** What the two lists hold, at one entry: the same only if they agree there. */
  lemma SameListsAgree(a: Asked, es: seq<Config?>, i: nat)
    requires NoRepeats(es) && i < |es|
    requires Visible(a, NonBlank(Kept(a, es, |es|))) == HideView(a, NonBlank(es))
    ensures AgreesAt(a, es, i)
  {
    hide IsKept, FirstInView, ViewShows, Visible, NonBlank, HideView, Kept, Usable;
    var e := es[i];
    if Usable(e) {
      UsableIsThere(e);
      assert es[..|es|] == es;
      NonBlankMembers(Kept(a, es, |es|));
      VisibleMembers(a, NonBlank(Kept(a, es, |es|)), e);
      KeptMembers(a, es, |es|, e);
      ViewMembers(a, es, |es|, e);
    }
  }

  /** Under the rules at hand the table shows the same after deleting duplicates
      as it does when it hides them. */
  ghost predicate Agree(a: Asked, es: seq<Config?>) {
    Visible(a, NonBlank(Deduped(a, es))) == HideView(a, NonBlank(es))
  }

  /** The two lists are the same exactly when they agree at every entry. */
  lemma AgreeEverywhere(a: Asked, es: seq<Config?>)
    requires NoRepeats(es)
    ensures |es| <= 1 ==> Agree(a, es)
    ensures |es| > 1 ==> (Agree(a, es) <==> forall i :: 0 <= i < |es| ==> AgreesAt(a, es, i))
  {
    hide AgreesAt, Visible, NonBlank, HideView, Kept, NoRepeats;
    if |es| <= 1 {
      ShortLists(a, es);
    } else {
      assert es[..|es|] == es;
      if forall i :: 0 <= i < |es| ==> AgreesAt(a, es, i) { VisibleKept(a, es, |es|); }
      if Agree(a, es) {
        forall i | 0 <= i < |es| ensures AgreesAt(a, es, i) { SameListsAgree(a, es, i); }
      }
    }
  }

  lemma ShortLists(a: Asked, es: seq<Config?>)
    requires |es| <= 1
    ensures Visible(a, NonBlank(es)) == HideView(a, NonBlank(es))
  {
    if es != [] {
      assert es[..0] == [] && NonBlank(es[..0]) == [];
      var r := NonBlank(es);
      if r != [] { assert r[..0] == []; }
    }
  }

  /** Without plain spelling the two part: of a twin pair whose first cipher is
      written in capitals, hiding shows the first and deleting keeps the
      second, under the rule "type:ss". */
  lemma CapitalsDivideThem(a: Asked, e: Config, f: Config)
    requires a.rules == ["type:ss"] && e != f && a.key(e.raw) == a.key(f.raw)
    requires Trim(e.raw) != "" && Trim(f.raw) != ""
    requires e.fields.kind == "ss" && f.fields.kind == "ss"
    requires !(SS2022_PREFIX <= e.fields.security) && SS2022_PREFIX <= Lower(e.fields.security)
    requires SS2022_PREFIX <= f.fields.security
    ensures HideView(a, [e, f]) == [e]
    ensures Deduped(a, [e, f]) == [f]
  {
    hide Shown, ViewShows, HideView, Deduped;
    CapitalsTests(a, e, f);
    FirstOfTwoShown(a, e, f);
    SecondOfTwoKept(a, e, f);
  }

  lemma FirstOfTwoShown(a: Asked, e: Config, f: Config)
    requires a.key(e.raw) == a.key(f.raw) && Trim(e.raw) != "" && ViewShows(a, e)
    ensures HideView(a, [e, f]) == [e]
  {
    hide ViewShows;
    var v: seq<Config> := [e, f];
    assert v[..1] == [e] && [e][..0] == [];
    assert HideView(a, [e]) == [e];
    assert e in v[..1];
  }

  lemma SecondOfTwoKept(a: Asked, e: Config, f: Config)
    requires e != f && a.key(e.raw) == a.key(f.raw) && Trim(e.raw) != "" && Trim(f.raw) != ""
    requires !Shown(a, e) && Shown(a, f)
    ensures Deduped(a, [e, f]) == [f]
  {
    hide Shown;
    var es: seq<Config?> := [e, f];
    var k := a.key(e.raw);
    assert Keeper(a, es, 0, k) == None;
    assert Keeper(a, es, 1, k) == Some(0);
    assert Keeper(a, es, 2, k) == Some(1);
    assert Kept(a, es, 0) == [] && Kept(a, es, 1) == [] && Kept(a, es, 2) == [f];
  }

  lemma CapitalsTests(a: Asked, e: Config, f: Config)
    requires a.rules == ["type:ss"]
    requires e.fields.kind == "ss" && f.fields.kind == "ss"
    requires !(SS2022_PREFIX <= e.fields.security) && SS2022_PREFIX <= Lower(e.fields.security)
    requires SS2022_PREFIX <= f.fields.security
    ensures !Shown(a, e) && Shown(a, f) && ViewShows(a, e)
  {
    TypeRuleOnShadowsocks(e.fields);
    TypeRuleOnShadowsocks(f.fields);
    LowerKeepsPrefix(f.fields.security);
    hide RuleHides, Lowered, Lower;
    assert a.rules[0] == "type:ss";
  }
}
