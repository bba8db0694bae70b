/** What a table shows, said from the query and the entries: which positions it lets
    through, in what order, and what a window cuts from it (memOrder and memWindow in
    vair/core/memstore.go). */
module WindowRules {
  import opened ExcludeFilter
  import opened Sorting
  import opened TableView
  import opened TableWindow

  /** Nothing is asked for but the list. */
  predicate PlainQuery(q: Query) {
    q.sort in ["", "idx"] && q.filter == "" && q.proto == {} && !q.dedupHide && q.exclude == [] && !q.starred
  }

  /** Some term for the column is met. */
  ghost predicate TermMet(q: Query, hits: Hits, k: Key, column: string) {
    exists t :: t in q.terms && t.key == column && hits(k)(column, t.val)
  }

  /** Every column that has a term has one that is met, the protocol is among those
      chosen, if any are, and no exclude rule hides the entry. */
  ghost predicate LetThrough(q: Query, hits: Hits, k: Key) {
    && (forall t :: t in q.terms ==> TermMet(q, hits, k, t.key))
    && (q.proto != {} ==> k.chip in q.proto)
    && forall rule :: rule in q.exclude ==> !RuleHides(Fields(k.name, k.protocol, k.host, k.network, k.security), rule)
  }

  /** The entry at a position is let through and, when duplicates are hidden, no
      earlier one that is let through is the same server. */
  ghost predicate ShownAt(q: Query, hits: Hits, src: seq<Key>, i: int)
    requires 0 <= i < |src|
  {
    && LetThrough(q, hits, src[i])
    && (q.dedupHide ==> forall j :: 0 <= j < i && LetThrough(q, hits, src[j]) ==> src[j].body != src[i].body)
  }

  /** The entries shown, from a position on, in the order of the list. */
  ghost function ShownFrom(q: Query, hits: Hits, src: seq<Key>, i: nat): seq<Key>
    requires i <= |src|
    decreases |src| - i
  {
    if i == |src| then []
    else if ShownAt(q, hits, src, i) then [src[i]] + ShownFrom(q, hits, src, i + 1)
    else ShownFrom(q, hits, src, i + 1)
  }

  lemma TermsAgree(q: Query, hits: Hits, k: Key)
    ensures Matches(q.terms, hits(k)) <==> forall t :: t in q.terms ==> TermMet(q, hits, k, t.key)
  {
    forall column ensures ColumnMet(q.terms, hits(k), column) <==> TermMet(q, hits, k, column) {
      if ColumnMet(q.terms, hits(k), column) {
        var j :| 0 <= j < |q.terms| && Meets(q.terms[j], hits(k), column);
        assert q.terms[j] in q.terms;
      }
    }
    hide ColumnMet, TermMet;
    forall i | 0 <= i < |q.terms| ensures q.terms[i] in q.terms {}
  }

  lemma FitsAgree(q: Query, hits: Hits, k: Key)
    ensures Fits(q, hits, k) <==> LetThrough(q, hits, k)
  {
    hide RuleHides, Matches, TermMet;
    TermsAgree(q, hits, k);
    if Hidden(FieldsOf(k), q.exclude) {
      var i :| 0 <= i < |q.exclude| && RuleHides(FieldsOf(k), q.exclude[i]);
      assert q.exclude[i] in q.exclude;
    }
  }

  lemma ShownAgree(q: Query, hits: Hits, src: seq<Key>, i: nat)
    requires i < |src|
    ensures Shown(q, hits, src, i) <==> ShownAt(q, hits, src, i)
  {
    hide Fits, LetThrough;
    forall k ensures Fits(q, hits, k) <==> LetThrough(q, hits, k) { FitsAgree(q, hits, k); }
  }

  lemma {:induction false} SelectedThenShown(q: Query, hits: Hits, src: seq<Key>, n: nat)
    requires n <= |src|
    ensures Selected(q, hits, src, n) + ShownFrom(q, hits, src, n) == Selected(q, hits, src, |src|)
    decreases |src| - n
  {
    hide Shown, ShownAt;
    if n == |src| {
    } else {
      ShownAgree(q, hits, src, n);
      SelectedThenShown(q, hits, src, n + 1);
      var s, rest := Selected(q, hits, src, n), ShownFrom(q, hits, src, n + 1);
      assert s + ([src[n]] + rest) == (s + [src[n]]) + rest;
    }
  }

  /** A plain query shows the list. Any other shows what is let through, sorted by the
      column named, reversed or not, where entries that tie stand as in the list:
      that list and no other. */
  lemma TableGoesByRules(q: Query, hits: Hits, src: seq<Key>, field: string, desc: bool, out: seq<Key>)
    requires (forall i :: 0 <= i < |field| ==> field[i] != ':') && q.sort == if desc then field + ":desc" else field
    ensures PlainQuery(q) ==> TableRows(q, hits, src) == src
    ensures !PlainQuery(q) ==>
      (out == TableRows(q, hits, src) <==>
        Sorted(out, Comparison(Mode(Named(field), desc))) &&
        SameTies(out, ShownFrom(q, hits, src, 0), Comparison(Mode(Named(field), desc))))
  {
    hide Selected, ShownFrom, Comparison, Named, SplitSort, StrictWeak, Sorted, SameTies, Sort;
    DescSuffix(field, "desc");
    assert field + ":" + "desc" == field + ":desc";
    SelectedThenShown(q, hits, src, 0);
    NoneSelected(q, hits, src);
    LessKeyOrders(Mode(Named(field), desc));
    StableSortIff(Selected(q, hits, src, |src|), out, Comparison(Mode(Named(field), desc)));
  }

  lemma NoneSelected(q: Query, hits: Hits, src: seq<Key>)
    ensures Selected(q, hits, src, 0) + ShownFrom(q, hits, src, 0) == ShownFrom(q, hits, src, 0)
  {
    assert Selected(q, hits, src, 0) == [];
  }

  /** A window is the rows from the offset on, as many as the limit allows: all of
      them when it is not positive, and none past the end. */
  lemma WindowShows<T>(ord: seq<T>, offset: int, limit: int)
    ensures var w, first := Window(ord, offset, limit), if offset > 0 then offset else 0;
      && (first >= |ord| ==> w == [])
      && (first < |ord| ==> |w| == if 0 < limit < |ord| - first then limit else |ord| - first)
      && forall i :: 0 <= i < |w| ==> first + i < |ord| && w[i] == ord[first + i]
  {}
}
