/** The text form of the kept samples and of the minutes they were taken
    (vair/core/nodestats.go). Go's fixed-width wrap-around is written out. */
module WindowText {
  import opened Decimal

  type Int32 = x: int | -0x8000_0000 <= x < 0x8000_0000
  type Int16 = x: int | -0x8000 <= x < 0x8000

  function Wrap32(x: int): Int32 { (x + 0x8000_0000) % 0x1_0000_0000 - 0x8000_0000 }
  function Wrap16(x: int): Int16 { (x + 0x8000) % 0x1_0000 - 0x8000 }

  /** The first minute, then the gaps; a gap too wide for 32 bits wraps. */
  function Gap(v: seq<Int32>, i: nat): Int32
    requires i < |v|
  {
    if i == 0 then v[0] else Wrap32(v[i] as int - v[i - 1])
  }

  function GapTexts(v: seq<Int32>, n: nat): (t: seq<string>)
    requires n <= |v|
    ensures |t| == n
    ensures forall i :: 0 <= i < n ==> t[i] == Itoa(Gap(v, i))
  {
    seq(n, i requires 0 <= i < n => Itoa(Gap(v, i)))
  }

  method TimesToText(v: seq<Int32>) returns (s: string)
    ensures s == Join(GapTexts(v, |v|), ',')
  {
    if |v| == 0 { return ""; }
    s := Itoa(v[0]);
    assert GapTexts(v, 1) == [Itoa(v[0])];
    for i := 1 to |v|
      invariant s == Join(GapTexts(v, i), ',')
    {
      JoinAppend(GapTexts(v, i), Itoa(Gap(v, i)), ',');
      assert GapTexts(v, i + 1) == GapTexts(v, i) + [Itoa(Gap(v, i))];
      s := s + "," + Itoa(Wrap32(v[i] as int - v[i - 1]));
    }
  }

  /** The minutes up to the first part that is no number. */
  function Accumulated(parts: seq<string>, i: nat, acc: Int32): seq<Int32>
    requires i <= |parts|
    decreases |parts| - i
  {
    if i == |parts| || Atoi(parts[i]).None? then []
    else
      var n := Wrap32(Atoi(parts[i]).value);
      var now := if i == 0 then n else Wrap32(acc as int + n);
      [now] + Accumulated(parts, i + 1, now)
  }

  method TimesFromText(s: string) returns (v: seq<Int32>)
    ensures v == if s == "" then [] else Accumulated(Split(s, ','), 0, 0)
  {
    hide Split, Atoi, Wrap32;
    if s == "" { return []; }
    var parts := Split(s, ',');
    v := [];
    var acc: Int32 := 0;
    for i := 0 to |parts|
      invariant Accumulated(parts, 0, 0) == v + Accumulated(parts, i, acc)
    {
      var n := Atoi(parts[i]);
      if n.None? { return; }
      if i == 0 {
        acc := Wrap32(n.value);
      } else {
        acc := Wrap32(acc as int + Wrap32(n.value));
      }
      v := v + [acc];
    }
  }

  /** A gap that wrapped brings the next minute back all the same. */
  lemma WrapBack(a: Int32, b: Int32)
    ensures Wrap32(b) == b
    ensures Wrap32(a as int + Wrap32(b as int - a)) == b
  {}

  lemma AccumulatedStep(parts: seq<string>, i: nat, acc: Int32, n: int)
    requires i < |parts| && Atoi(parts[i]) == Some(n)
    ensures var now := if i == 0 then Wrap32(n) else Wrap32(acc as int + Wrap32(n));
            Accumulated(parts, i, acc) == [now] + Accumulated(parts, i + 1, now)
  {
    hide Atoi, Wrap32;
  }

  predicate ReadsGaps(parts: seq<string>, v: seq<Int32>) {
    |parts| == |v| && forall i :: 0 <= i < |v| ==> Atoi(parts[i]) == Some(Gap(v, i) as int)
  }

  lemma {:induction false} GapsAddUp(parts: seq<string>, v: seq<Int32>, i: nat, acc: Int32)
    requires ReadsGaps(parts, v)
    requires i <= |v| && acc == if i == 0 then 0 else v[i - 1]
    ensures Accumulated(parts, i, acc) == v[i..]
    decreases |v| - i
  {
    hide Accumulated, Gap;
    if i == |v| {
      NothingLeft(parts, acc);
    } else {
      GapIsAdded(parts, v, i, acc);
      GapsAddUp(parts, v, i + 1, v[i]);
      assert v[i..] == [v[i]] + v[i + 1..];
    }
  }

  lemma NothingLeft(parts: seq<string>, acc: Int32)
    ensures Accumulated(parts, |parts|, acc) == []
  {}

  lemma GapIsAdded(parts: seq<string>, v: seq<Int32>, i: nat, acc: Int32)
    requires ReadsGaps(parts, v)
    requires i < |v| && acc == if i == 0 then 0 else v[i - 1]
    ensures Accumulated(parts, i, acc) == [v[i]] + Accumulated(parts, i + 1, v[i])
  {
    hide Atoi, Accumulated, Wrap32;
    AccumulatedStep(parts, i, acc, Gap(v, i));
    WrapBack(acc, v[i]);
    WrapBack(0, Gap(v, i));
  }

  /** Writing the minutes and reading them back gives them again, whatever the
      gaps between them. */
  lemma TimesRoundTrip(v: seq<Int32>)
    requires v != []
    ensures Join(GapTexts(v, |v|), ',') != ""
    ensures Accumulated(Split(Join(GapTexts(v, |v|), ','), ','), 0, 0) == v
  {
    var t := GapTexts(v, |v|);
    assert t[0] == Itoa(v[0]);
    assert ReadsGaps(t, v) by {
      forall i | 0 <= i < |v| ensures Atoi(t[i]) == Some(Gap(v, i) as int) { AtoiItoa(Gap(v, i)); }
    }
    forall i | 0 <= i < |v| ensures Without(',', t[i]) { ItoaWithout(Gap(v, i)); }
    SplitJoin(t, ',');
    hide Atoi, Split, Gap, GapTexts;
    GapsAddUp(t, v, 0, 0);
    assert v[0..] == v;
  }

  // ------------------------------------------------------------ values

  function ValueTexts(v: seq<Int16>, n: nat): (t: seq<string>)
    requires n <= |v|
    ensures |t| == n
    ensures forall i :: 0 <= i < n ==> t[i] == Itoa(v[i])
  {
    seq(n, i requires 0 <= i < n => Itoa(v[i]))
  }

  method RecentToText(v: seq<Int16>) returns (s: string)
    ensures s == Join(ValueTexts(v, |v|), ',')
  {
    if |v| == 0 { return ""; }
    s := "";
    for i := 0 to |v|
      invariant s == Join(ValueTexts(v, i), ',')
    {
      if i > 0 {
        JoinAppend(ValueTexts(v, i), Itoa(v[i]), ',');
        s := s + ",";
      }
      assert ValueTexts(v, i + 1) == ValueTexts(v, i) + [Itoa(v[i])];
      s := s + Itoa(v[i]);
    }
  }

  /** The values of the parts that are numbers. */
  function Values(parts: seq<string>): seq<Int16> {
    if parts == [] then []
    else
      (match Atoi(parts[0])
       case Some(n) => [Wrap16(n)]
       case None => []) + Values(parts[1..])
  }

  lemma ValuesStep(parts: seq<string>, i: nat)
    requires i < |parts|
    ensures Values(parts[i..]) == (match Atoi(parts[i]) case Some(n) => [Wrap16(n)] case None => []) + Values(parts[i + 1..])
  {
    hide Atoi, Wrap16;
    assert parts[i..][1..] == parts[i + 1..];
  }

  lemma NoValues()
    ensures Values([]) == []
  {}

  method RecentFromText(s: string) returns (v: seq<Int16>)
    ensures v == if s == "" then [] else Values(Split(s, ','))
  {
    hide Split, Atoi, Wrap16, Values;
    if s == "" { return []; }
    var parts := Split(s, ',');
    v := [];
    NoValues();
    assert parts[0..] == parts;
    for i := 0 to |parts|
      invariant Values(parts) == v + Values(parts[i..])
    {
      ValuesStep(parts, i);
      var n := Atoi(parts[i]);
      if n.Some? { v := v + [Wrap16(n.value)]; }
    }
    assert parts[|parts|..] == [];
  }

  lemma {:induction false} ValuesBack(v: seq<Int16>, i: nat)
    requires i <= |v|
    ensures Values(ValueTexts(v, |v|)[i..]) == v[i..]
    decreases |v| - i
  {
    hide Atoi, Itoa;
    if i < |v| {
      assert ValueTexts(v, |v|)[i..][1..] == ValueTexts(v, |v|)[i + 1..];
      AtoiItoa(v[i]);
      ValuesBack(v, i + 1);
    }
  }

  lemma RecentRoundTrip(v: seq<Int16>)
    ensures v != [] ==> Join(ValueTexts(v, |v|), ',') != ""
    ensures v != [] ==> Values(Split(Join(ValueTexts(v, |v|), ','), ',')) == v
  {
    if v != [] {
      forall i | 0 <= i < |v| ensures Without(',', ValueTexts(v, |v|)[i]) { ItoaWithout(v[i]); }
      SplitJoin(ValueTexts(v, |v|), ',');
      ValuesBack(v, 0);
      assert ValueTexts(v, |v|)[0..] == ValueTexts(v, |v|);
      assert Itoa(v[0]) != "";
    }
  }

  /** Times made as long as their values: the last ones stay with the last
      values, and what has no time reads as zero. */
  method AlignTimes(times: seq<Int32>, n: nat) returns (out: seq<Int32>)
    ensures |out| == n
    ensures forall j :: 0 <= j < n ==> out[j] == if n - j <= |times| then times[|times| - (n - j)] else 0
  {
    if |times| == n { return times; }
    out := [];
    for i := 0 to n
      invariant |out| == i
      invariant forall j :: 0 <= j < i ==> out[j] == if n - j <= |times| then times[|times| - (n - j)] else 0
    {
      var j := |times| - n + i;
      out := out + [if 0 <= j < |times| then times[j] else 0];
    }
  }
}
