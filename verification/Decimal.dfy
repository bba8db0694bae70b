/** Decimal text and separated lists, as strconv and strings write them. */
module Decimal {

  datatype Option<+T> = None | Some(value: T)

  const MAX_INT64 := 0x8000_0000_0000_0000

  function Digit(d: nat): (c: char)
    requires d < 10
    ensures '0' <= c <= '9'
  {
    '0' + d as char
  }

  function Digits(n: nat): (s: string)
    ensures |s| > 0
    ensures forall i :: 0 <= i < |s| ==> '0' <= s[i] <= '9'
  {
    if n < 10 then [Digit(n)] else Digits(n / 10) + [Digit(n % 10)]
  }

  /** strconv.Itoa. */
  function Itoa(n: int): string {
    if n < 0 then "-" + Digits(-n) else Digits(n)
  }

  predicate AllDigits(s: string) {
    |s| > 0 && forall i :: 0 <= i < |s| ==> '0' <= s[i] <= '9'
  }

  function Number(s: string): nat
    requires forall i :: 0 <= i < |s| ==> '0' <= s[i] <= '9'
  {
    if s == [] then 0 else Number(s[..|s| - 1]) * 10 + (s[|s| - 1] as int - '0' as int)
  }

  /** strconv.Atoi, on a 64-bit int. */
  function Atoi(s: string): Option<int> {
    if s == [] then None
    else
      var signed := s[0] == '-' || s[0] == '+';
      var body := if signed then s[1..] else s;
      if !AllDigits(body) then None
      else
        var n: int := if s[0] == '-' then -(Number(body) as int) else Number(body);
        if -MAX_INT64 <= n < MAX_INT64 then Some(n) else None
  }

  lemma {:induction false} NumberOfDigits(n: nat)
    ensures Number(Digits(n)) == n
  {
    var s := Digits(n);
    if n >= 10 {
      assert s[..|s| - 1] == Digits(n / 10);
      NumberOfDigits(n / 10);
    } else {
      assert s[..0] == [];
    }
  }

  lemma AtoiItoa(n: int)
    requires -MAX_INT64 <= n < MAX_INT64
    ensures Atoi(Itoa(n)) == Some(n)
  {
    hide Digits, Number, Atoi;
    var m := if n < 0 then -n else n;
    NumberOfDigits(m);
    if n < 0 { AtoiSigned(Digits(m)); } else { AtoiPlain(Digits(m)); }
  }

  lemma AtoiSigned(d: string)
    requires AllDigits(d) && Number(d) <= MAX_INT64
    ensures Atoi("-" + d) == Some(-(Number(d) as int))
  {
    hide Number;
    assert ("-" + d)[1..] == d;
  }

  lemma AtoiPlain(d: string)
    requires AllDigits(d) && Number(d) < MAX_INT64
    ensures Atoi(d) == Some(Number(d))
  {
    hide Number;
  }

  lemma DigitsInjective(m: nat, n: nat)
    requires Digits(m) == Digits(n)
    ensures m == n
  {
    NumberOfDigits(m);
    NumberOfDigits(n);
  }

  predicate Without(c: char, s: string) { forall i :: 0 <= i < |s| ==> s[i] != c }

  lemma ItoaWithout(n: int)
    ensures Without(',', Itoa(n))
  {}

  // ------------------------------------------------------------ lists

  /** strings.Join(parts, c). */
  function Join(parts: seq<string>, c: char): string {
    if parts == [] then []
    else if |parts| == 1 then parts[0]
    else parts[0] + [c] + Join(parts[1..], c)
  }

  /** strings.Split(s, c). */
  function Split(s: string, c: char): (r: seq<string>)
    ensures |r| > 0
  {
    if s == [] then [[]]
    else
      var r := Split(s[1..], c);
      if s[0] == c then [[]] + r else [[s[0]] + r[0]] + r[1..]
  }

  lemma {:induction false} SplitPart(p: string, c: char, rest: string)
    requires Without(c, p)
    ensures Split(p + [c] + rest, c) == [p] + Split(rest, c)
    ensures Split(p, c) == [p]
    decreases |p|
  {
    if p == [] {
      assert p + [c] + rest == [c] + rest;
      assert ([c] + rest)[1..] == rest;
    } else {
      SplitPart(p[1..], c, rest);
      assert (p + [c] + rest)[1..] == p[1..] + [c] + rest;
      assert [p[0]] + p[1..] == p;
    }
  }

  lemma {:induction false} SplitJoin(parts: seq<string>, c: char)
    requires |parts| > 0 && forall i :: 0 <= i < |parts| ==> Without(c, parts[i])
    ensures Split(Join(parts, c), c) == parts
    decreases |parts|
  {
    if |parts| == 1 {
      SplitPart(parts[0], c, []);
    } else {
      SplitPart(parts[0], c, Join(parts[1..], c));
      SplitJoin(parts[1..], c);
    }
  }

  lemma {:induction false} JoinAppend(parts: seq<string>, last: string, c: char)
    requires |parts| > 0
    ensures Join(parts + [last], c) == Join(parts, c) + [c] + last
    decreases |parts|
  {
    if |parts| == 1 {
      assert (parts + [last])[1..] == [last];
    } else {
      assert (parts + [last])[1..] == parts[1..] + [last];
      JoinAppend(parts[1..], last, c);
    }
  }
}
