/** Making the names of a list distinct (disambiguateNames in
    vair/core/fetch.go). */
module Names {
  import opened Decimal

  /** "base - n". */
  function Candidate(base: string, n: nat): (c: string)
    ensures |c| > |base|
  {
    base + " - " + Digits(n)
  }

  lemma CandidatesDiffer(base: string, m: nat, n: nat)
    requires Candidate(base, m) == Candidate(base, n)
    ensures m == n
  {
    var b := base + " - ";
    assert Candidate(base, m)[|b|..] == Digits(m);
    assert Candidate(base, n)[|b|..] == Digits(n);
    DigitsInjective(m, n);
  }

  /** The candidates from n on that are taken are among rest. */
  ghost predicate Holds(rest: set<string>, taken: set<string>, base: string, n: nat) {
    forall j :: n <= j && Candidate(base, j) in taken ==> Candidate(base, j) in rest
  }

  lemma OneLess(rest: set<string>, taken: set<string>, base: string, n: nat)
    requires Holds(rest, taken, base, n)
    ensures Holds(rest - {Candidate(base, n)}, taken, base, n + 1)
  {
    forall j | n + 1 <= j && Candidate(base, j) in taken
      ensures Candidate(base, j) in rest - {Candidate(base, n)}
    {
      if Candidate(base, j) == Candidate(base, n) { CandidatesDiffer(base, j, n); }
    }
  }

  /** The first number from n on whose candidate is free. It exists because the
      candidates are all different and only finitely many names are taken. */
  ghost function FirstFree(base: string, n: nat, taken: set<string>, rest: set<string>): (k: nat)
    requires Holds(rest, taken, base, n)
    ensures n <= k && Candidate(base, k) !in taken
    ensures forall j :: n <= j < k ==> Candidate(base, j) in taken
    decreases rest
  {
    if Candidate(base, n) !in taken then n
    else
      OneLess(rest, taken, base, n);
      FirstFree(base, n + 1, taken, rest - {Candidate(base, n)})
  }

  /** The loop that looks for it. */
  method FindFree(base: string, from: nat, taken: map<string, nat>) returns (k: nat)
    ensures k == FirstFree(base, from, taken.Keys, taken.Keys)
  {
    k := from;
    ghost var rest := taken.Keys;
    while Candidate(base, k) in taken
      invariant from <= k
      invariant Holds(rest, taken.Keys, base, k)
      invariant forall j :: from <= j < k ==> Candidate(base, j) in taken
      decreases rest
    {
      OneLess(rest, taken.Keys, base, k);
      rest := rest - {Candidate(base, k)};
      k := k + 1;
    }
  }

  /** The names used so far, each with a number below which all its candidates
      are used too. */
  ghost predicate Good(taken: map<string, nat>) {
    forall b :: b in taken ==> GoodFor(taken, b)
  }

  ghost predicate GoodFor(taken: map<string, nat>, b: string)
    requires b in taken
  {
    taken[b] >= 1 && forall j :: 1 <= j < taken[b] ==> Candidate(b, j) in taken
  }

  ghost function NewName(taken: map<string, nat>, name: string): string {
    if name !in taken then name
    else Candidate(name, FirstFree(name, taken[name], taken.Keys, taken.Keys))
  }

  ghost function Taking(taken: map<string, nat>, name: string): map<string, nat> {
    if name !in taken then taken[name := 1]
    else
      var k := FirstFree(name, taken[name], taken.Keys, taken.Keys);
      taken[Candidate(name, k) := 1][name := k + 1]
  }

  /** The names a run gives to the rest of a list. */
  ghost function Renamed(taken: map<string, nat>, names: seq<string>): (r: seq<string>)
    ensures |r| == |names|
    decreases |names|
  {
    if names == [] then []
    else [NewName(taken, names[0])] + Renamed(Taking(taken, names[0]), names[1..])
  }

  /** One name is added to those taken, and it was free. */
  lemma TakingAddsOne(taken: map<string, nat>, name: string)
    requires Good(taken)
    ensures Good(Taking(taken, name))
    ensures Taking(taken, name).Keys == taken.Keys + {NewName(taken, name)}
    ensures NewName(taken, name) !in taken
    ensures NewName(taken, name) != name <==> name in taken
  {
    var after := Taking(taken, name);
    forall b | b in after ensures GoodFor(after, b) {
      if b in taken { assert GoodFor(taken, b); }
    }
  }

  predicate Distinct(names: seq<string>) {
    forall i, j :: 0 <= i < j < |names| ==> names[i] != names[j]
  }

  /** All the names given are new and pairwise distinct. */
  lemma {:induction false} RenamedDistinct(taken: map<string, nat>, names: seq<string>)
    requires Good(taken)
    ensures Distinct(Renamed(taken, names))
    ensures forall i :: 0 <= i < |names| ==> Renamed(taken, names)[i] !in taken
    decreases |names|
  {
    if names == [] {
    } else {
      TakingAddsOne(taken, names[0]);
      RenamedDistinct(Taking(taken, names[0]), names[1..]);
    }
  }

  /** A name is changed exactly when it was taken before the run, or an entry
      before it carries it by now. */
  lemma {:induction false} RenamedOnlyIfTaken(taken: map<string, nat>, names: seq<string>, i: nat)
    requires Good(taken) && i < |names|
    ensures var r := Renamed(taken, names);
            r[i] != names[i] <==> names[i] in taken || names[i] in r[..i]
    decreases |names|
  {
    var r := Renamed(taken, names);
    TakingAddsOne(taken, names[0]);
    if i == 0 {
    } else {
      var after, s := Taking(taken, names[0]), Renamed(Taking(taken, names[0]), names[1..]);
      RenamedOnlyIfTaken(after, names[1..], i - 1);
      assert r[..i] == [NewName(taken, names[0])] + s[..i - 1];
      assert names[1..][i - 1] == names[i];
    }
  }

  lemma {:induction false} RenamedCandidate(taken: map<string, nat>, names: seq<string>, i: nat) returns (k: nat)
    requires Good(taken) && i < |names| && Renamed(taken, names)[i] != names[i]
    ensures k >= 1 && Renamed(taken, names)[i] == Candidate(names[i], k)
    ensures forall j :: 1 <= j < k ==>
      Candidate(names[i], j) in taken || Candidate(names[i], j) in Renamed(taken, names)[..i]
    decreases |names|
  {
    TakingAddsOne(taken, names[0]);
    if i == 0 {
      k := FirstFree(names[0], taken[names[0]], taken.Keys, taken.Keys);
      assert GoodFor(taken, names[0]);
    } else {
      var r, s := Renamed(taken, names), Renamed(Taking(taken, names[0]), names[1..]);
      k := RenamedCandidate(Taking(taken, names[0]), names[1..], i - 1);
      assert r[..i] == [NewName(taken, names[0])] + s[..i - 1];
      assert names[1..][i - 1] == names[i];
    }
  }

  /** And the new name is the old one, a hyphen between blanks and the least number,
      from 1, that gives a name no earlier entry carries. */
  lemma RenamedToLeastFree(taken: map<string, nat>, names: seq<string>, i: nat) returns (k: nat)
    requires Good(taken) && i < |names| && Renamed(taken, names)[i] != names[i]
    ensures k >= 1 && Renamed(taken, names)[i] == names[i] + " - " + Digits(k)
    ensures forall j :: 1 <= j < k ==>
      names[i] + " - " + Digits(j) in taken || names[i] + " - " + Digits(j) in Renamed(taken, names)[..i]
  {
    hide Renamed;
    k := RenamedCandidate(taken, names, i);
    forall j | 1 <= j < k
      ensures names[i] + " - " + Digits(j) in taken || names[i] + " - " + Digits(j) in Renamed(taken, names)[..i]
    {
      assert Candidate(names[i], j) == names[i] + " - " + Digits(j);
    }
  }

  /** A list of distinct names is left alone. */
  lemma {:induction false} DistinctUnchanged(taken: map<string, nat>, names: seq<string>)
    requires Good(taken) && Distinct(names)
    requires forall i :: 0 <= i < |names| ==> names[i] !in taken
    ensures Renamed(taken, names) == names
    decreases |names|
  {
    if names == [] {
    } else {
      TakingAddsOne(taken, names[0]);
      DistinctUnchanged(Taking(taken, names[0]), names[1..]);
    }
  }

  /** A second run changes nothing. */
  lemma SecondRunChangesNothing(names: seq<string>)
    ensures Distinct(Renamed(map[], names))
    ensures Renamed(map[], Renamed(map[], names)) == Renamed(map[], names)
  {
    RenamedDistinct(map[], names);
    DistinctUnchanged(map[], Renamed(map[], names));
  }

  // ------------------------------------------------------------ the list

  class Entry {
    var name: string
    var raw: string
  }

  /** The entries of a list that has holes, in order. */
  ghost function Live(entries: seq<Entry?>): seq<Entry> {
    if entries == [] then []
    else
      var e := entries[|entries| - 1];
      Live(entries[..|entries| - 1]) + if e == null then [] else [e]
  }

  lemma {:induction false} LivePrefix(entries: seq<Entry?>, i: nat)
    requires i <= |entries|
    ensures Live(entries[..i]) <= Live(entries)
    decreases |entries|
  {
    if i == |entries| {
      assert entries[..i] == entries;
    } else {
      LivePrefix(entries[..|entries| - 1], i);
      assert entries[..|entries| - 1][..i] == entries[..i];
    }
  }

  lemma NoneLive()
    ensures Live([]) == []
  {}

  /** Entry i of the list is the next live one, unless it is a hole. */
  lemma LiveStep(entries: seq<Entry?>, i: nat)
    requires i < |entries|
    ensures |Live(entries[..i])| + (if entries[i] == null then 0 else 1) == |Live(entries[..i + 1])| <= |Live(entries)|
    ensures entries[i] != null ==> Live(entries)[|Live(entries[..i])|] == entries[i]
  {
    LivePrefix(entries, i + 1);
    assert entries[..i + 1][..i] == entries[..i];
  }

  predicate AllDifferent(entries: seq<Entry?>) {
    forall i, j :: 0 <= i < j < |entries| && entries[i] != null ==> entries[i] != entries[j]
  }

  lemma {:induction false} LiveDifferent(entries: seq<Entry?>)
    requires AllDifferent(entries)
    ensures forall e :: e in Live(entries) ==> e in entries
    ensures AllDifferent(Live(entries))
    decreases |entries|
  {
    if entries == [] {
    } else {
      var front, last := entries[..|entries| - 1], entries[|entries| - 1];
      LiveDifferent(front);
      assert last != null ==> last !in front;
    }
  }

  /** The entries carry these names and links. */
  ghost predicate Carry(es: seq<Entry>, names: seq<string>, links: seq<string>)
    reads es
  {
    |names| == |links| == |es| && forall i :: 0 <= i < |es| ==> es[i].name == names[i] && es[i].raw == links[i]
  }

  /** Links rewritten with their entry's new name, or left as they were. */
  ghost function Relinked(names: seq<string>, renamed: seq<string>, links: seq<string>, setNodeName: (string, string) -> string)
    : (r: seq<string>)
    requires |names| == |renamed| == |links|
    ensures |r| == |links|
    ensures forall i :: 0 <= i < |r| ==> r[i] == if renamed[i] == names[i] then links[i] else setNodeName(links[i], renamed[i])
  {
    seq(|links|, i requires 0 <= i < |links| => if renamed[i] == names[i] then links[i] else setNodeName(links[i], renamed[i]))
  }

  /** The first entries walked, the rest as they were. */
  ghost function Partly(done: seq<string>, all: seq<string>): (r: seq<string>)
    requires |done| <= |all|
    ensures |r| == |all|
    ensures forall i :: 0 <= i < |r| ==> r[i] == if i < |done| then done[i] else all[i]
  {
    done + all[|done|..]
  }

  /** One entry of the walk. */
  method RenameOne(e: Entry, taken: map<string, nat>, setNodeName: (string, string) -> string) returns (after: map<string, nat>)
    requires Good(taken)
    modifies e
    ensures e.name == NewName(taken, old(e.name)) && after == Taking(taken, old(e.name))
    ensures e.raw == if e.name == old(e.name) then old(e.raw) else setNodeName(old(e.raw), e.name)
  {
    TakingAddsOne(taken, e.name);
    var base := e.name;
    if base !in taken {
      after := taken[base := 1];
      return;
    }
    var n := FindFree(base, taken[base], taken);
    e.name := Candidate(base, n);
    e.raw := setNodeName(e.raw, e.name);
    after := taken[e.name := 1][base := n + 1];
  }

  /** disambiguateNames: the walk over a list that may have holes. */
  method DisambiguateNames(entries: seq<Entry?>, setNodeName: (string, string) -> string,
                           ghost names: seq<string>, ghost links: seq<string>)
    requires AllDifferent(entries)
    requires Carry(Live(entries), names, links)
    modifies Live(entries)
    ensures Carry(Live(entries), Renamed(map[], names), Relinked(names, Renamed(map[], names), links, setNodeName))
  {
    ghost var live := Live(entries);
    LiveDifferent(entries);
    hide Renamed, AllDifferent, Live, Partly, Relinked, Carry, Good;
    assert Live(entries[..0]) == [] by { assert entries[..0] == []; NoneLive(); }
    var taken: map<string, nat> := map[];
    ghost var done: seq<string> := [];
    NothingDone(live, names, links, setNodeName);
    for i := 0 to |entries|
      invariant Good(taken)
      invariant |done| == |Live(entries[..i])| <= |names|
      invariant Renamed(map[], names) == done + Renamed(taken, names[|done|..])
      invariant Carry(live, Partly(done, names), Relinked(names, Partly(done, names), links, setNodeName))
    {
      LiveStep(entries, i);
      var e := entries[i];
      if e != null {
        taken, done := WalkOne(live, e, taken, setNodeName, names, links, done);
      }
    }
    assert entries[..|entries|] == entries;
    AllDone(taken, names, done);
  }

  lemma NothingDone(live: seq<Entry>, names: seq<string>, links: seq<string>, setNodeName: (string, string) -> string)
    requires Carry(live, names, links)
    ensures |live| == |names| == |links| && Good(map[]) && [] + Renamed(map[], names[0..]) == Renamed(map[], names)
    ensures Carry(live, Partly([], names), Relinked(names, Partly([], names), links, setNodeName))
  {
    hide Renamed;
    assert names[0..] == names && Partly([], names) == names;
    assert Relinked(names, names, links, setNodeName) == links;
  }

  lemma AllDone(taken: map<string, nat>, names: seq<string>, done: seq<string>)
    requires |done| == |names| && Renamed(map[], names) == done + Renamed(taken, names[|done|..])
    ensures Renamed(map[], names) == done && Partly(done, names) == done
  {
    RenamedNone(taken, names[|done|..]);
    hide Renamed;
    assert names[|done|..] == [];
  }

  lemma RenamedNone(taken: map<string, nat>, names: seq<string>)
    ensures names == [] ==> Renamed(taken, names) == []
  {}

  method WalkOne(ghost live: seq<Entry>, e: Entry, taken: map<string, nat>, setNodeName: (string, string) -> string,
                 ghost names: seq<string>, ghost links: seq<string>, ghost done: seq<string>)
    returns (after: map<string, nat>, ghost doneNow: seq<string>)
    requires AllDifferent(live) && Good(taken) && |names| == |links|
    requires |done| < |live| == |names| && live[|done|] == e
    requires Carry(live, Partly(done, names), Relinked(names, Partly(done, names), links, setNodeName))
    modifies e
    ensures |doneNow| == |done| + 1 && Good(after)
    ensures doneNow + Renamed(after, names[|doneNow|..]) == done + Renamed(taken, names[|done|..])
    ensures Carry(live, Partly(doneNow, names), Relinked(names, Partly(doneNow, names), links, setNodeName))
  {
    hide NewName, Taking, Good, Renamed, Partly, Relinked;
    RenamedStep(taken, names, done);
    TakingAddsOne(taken, names[|done|]);
    after := RenameOne(e, taken, setNodeName);
    doneNow := done + [e.name];
  }

  lemma RenamedStep(taken: map<string, nat>, names: seq<string>, done: seq<string>)
    requires |done| < |names|
    ensures done + Renamed(taken, names[|done|..])
         == (done + [NewName(taken, names[|done|])]) + Renamed(Taking(taken, names[|done|]), names[|done| + 1..])
  {
    hide NewName, Taking;
    var rest := names[|done|..];
    assert rest[0] == names[|done|] && rest[1..] == names[|done| + 1..];
  }
}
