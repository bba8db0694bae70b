/** The DNS wire code of the bootstrap lookup (vair/core/bootstrapdoh.go): the
    question it writes and the answers it reads (RFC 1035 section 4.1). */
module Dns {
  import opened Bytes

  datatype Answer = Addresses(ips: seq<seq<Byte>>) | Truncated | NotFound | ServerError(code: nat)
  datatype Skip = Ran(next: nat) | Cut

  // ------------------------------------------------------------ reading

  /** Where a name that starts at off ends: behind its zero byte or behind the
      two bytes of a compression pointer. */
  function SkipName(m: seq<Byte>, off: nat): (r: Skip)
    ensures r.Ran? ==> off < r.next
    decreases |m| - off
  {
    if off >= |m| then Cut
    else if m[off] == 0 then Ran(off + 1)
    else if m[off] >= 0xc0 then Ran(off + 2)
    else SkipName(m, off + 1 + U8(m, off))
  }

  function SkipQuestions(m: seq<Byte>, off: nat, n: nat): Skip
    decreases n
  {
    if n == 0 then Ran(off)
    else
      match SkipName(m, off)
      case Cut => Cut
      case Ran(next) => SkipQuestions(m, next + 4, n - 1)
  }

  function Prepend(ips: seq<seq<Byte>>, a: Answer): Answer {
    match a
    case Addresses(more) => Addresses(ips + more)
    case other => other
  }

  function Collect(m: seq<Byte>, off: nat, n: nat): Answer
    decreases n
  {
    if n == 0 then Addresses([])
    else
      match SkipName(m, off)
      case Cut => Truncated
      case Ran(p) =>
        if p + 10 > |m| || p + 10 + U16(m, p + 8) > |m| then Truncated
        else
          var end := p + 10 + U16(m, p + 8);
          Prepend(if U16(m, p) == 1 && U16(m, p + 8) == 4 then [m[p + 10..end]] else [], Collect(m, end, n - 1))
  }

  function Answers(m: seq<Byte>): Answer {
    if |m| < 12 then Truncated
    else if m[3] % 16 == 3 then NotFound
    else if m[3] % 16 != 0 then ServerError(U8(m, 3) % 16)
    else
      match SkipQuestions(m, 12, U16(m, 4))
      case Cut => Truncated
      case Ran(off) =>
        var got := Collect(m, off, U16(m, 6));
        if got == Addresses([]) then NotFound else got
  }

  method SkipNameAt(m: seq<Byte>, start: nat) returns (r: Skip)
    ensures r == SkipName(m, start)
  {
    var off: nat := start;
    while true
      invariant SkipName(m, start) == SkipName(m, off)
      decreases |m| - off
    {
      if off >= |m| { return Cut; }
      var l := U8(m, off);
      if l == 0 { return Ran(off + 1); }
      if l >= 0xc0 { return Ran(off + 2); }
      off := off + 1 + l;
    }
  }

  method SkipAll(m: seq<Byte>, start: nat, qd: nat) returns (r: Skip)
    ensures r == SkipQuestions(m, start, qd)
  {
    var off: nat := start;
    for i := 0 to qd
      invariant SkipQuestions(m, start, qd) == SkipQuestions(m, off, qd - i)
    {
      var s := SkipNameAt(m, off);
      if s.Cut? { return Cut; }
      off := s.next + 4;
    }
    return Ran(off);
  }

  lemma PrependTwice(a: seq<seq<Byte>>, b: seq<seq<Byte>>, x: Answer)
    ensures Prepend(a, Prepend(b, x)) == Prepend(a + b, x)
  {
    if x.Addresses? { assert a + (b + x.ips) == (a + b) + x.ips; }
  }

  lemma PrependEnds(a: seq<seq<Byte>>, x: Answer)
    ensures a == [] ==> Prepend(a, x) == x
    ensures !x.Addresses? ==> Prepend(a, x) == x
    ensures x == Addresses([]) ==> Prepend(a, x) == Addresses(a)
  {
    if x.Addresses? { assert [] + x.ips == x.ips && a + [] == a; }
  }

  method CollectAll(m: seq<Byte>, start: nat, an: nat) returns (r: Answer)
    ensures r == Collect(m, start, an)
  {
    hide U16, SkipName, Prepend;
    var off: nat := start;
    var ips: seq<seq<Byte>> := [];
    PrependEnds([], Collect(m, start, an));
    for i := 0 to an
      invariant Collect(m, start, an) == Prepend(ips, Collect(m, off, an - i))
    {
      PrependEnds(ips, Truncated);
      var s := SkipNameAt(m, off);
      if s.Cut? { return Truncated; }
      var p := s.next;
      if p + 10 > |m| { return Truncated; }
      var typ, rdlen := U16(m, p), U16(m, p + 8);
      if p + 10 + rdlen > |m| { return Truncated; }
      var found: seq<seq<Byte>> := [];
      if typ == 1 && rdlen == 4 {
        found := [m[p + 10..p + 14]];
      }
      PrependTwice(ips, found, Collect(m, p + 10 + rdlen, an - i - 1));
      ips := ips + found;
      off := p + 10 + rdlen;
    }
    PrependEnds(ips, Addresses([]));
    return Addresses(ips);
  }

  method DnsAnswersA(m: seq<Byte>) returns (r: Answer)
    ensures r == Answers(m)
  {
    if |m| < 12 { return Truncated; }
    var rcode := U8(m, 3) % 16;
    if rcode == 3 { return NotFound; }
    if rcode != 0 { return ServerError(rcode); }
    var skipped := SkipAll(m, 12, U16(m, 4));
    if skipped.Cut? { return Truncated; }
    r := CollectAll(m, skipped.next, U16(m, 6));
    if r == Addresses([]) { r := NotFound; }
  }

  // ------------------------------------------------------------ messages

  datatype NameEnd = Root | Pointer(hi: Byte, lo: Byte)
  datatype DnsName = DnsName(labels: seq<seq<Byte>>, end: NameEnd)
  datatype Question = Question(qname: DnsName, typeAndClass: seq<Byte>)
  datatype Record = Record(name: DnsName, typ: nat, classAndTtl: seq<Byte>, rdata: seq<Byte>)
  datatype Response = Response(
    id: seq<Byte>, flags: seq<Byte>, otherCounts: seq<Byte>,
    questions: seq<Question>, answers: seq<Record>, rest: seq<Byte>)

  predicate GoodLabels(labels: seq<seq<Byte>>) {
    forall l :: l in labels ==> 1 <= |l| <= 63
  }

  predicate GoodName(n: DnsName) {
    GoodLabels(n.labels) && (n.end.Pointer? ==> n.end.hi >= 0xc0)
  }

  predicate GoodResponse(r: Response) {
    && |r.id| == 2 && |r.flags| == 2 && |r.otherCounts| == 4
    && |r.questions| < 65536 && |r.answers| < 65536
    && (forall q :: q in r.questions ==> GoodName(q.qname) && |q.typeAndClass| == 4)
    && GoodRecords(r.answers)
  }

  predicate GoodRecords(rs: seq<Record>) {
    forall i :: 0 <= i < |rs| ==> GoodRecord(rs[i])
  }

  predicate GoodRecord(a: Record) {
    GoodName(a.name) && a.typ < 65536 && |a.classAndTtl| == 6 && |a.rdata| < 65536
  }

  function LabelBytes(labels: seq<seq<Byte>>): seq<Byte>
    requires GoodLabels(labels)
  {
    if labels == [] then [] else [|labels[0]|] + (labels[0] + LabelBytes(labels[1..]))
  }

  function EndBytes(e: NameEnd): seq<Byte> {
    match e
    case Root => [0]
    case Pointer(hi, lo) => [hi, lo]
  }

  function NameBytes(n: DnsName): seq<Byte>
    requires GoodName(n)
  {
    LabelBytes(n.labels) + EndBytes(n.end)
  }

  function QuestionBytes(qs: seq<Question>): seq<Byte>
    requires forall q :: q in qs ==> GoodName(q.qname) && |q.typeAndClass| == 4
  {
    if qs == [] then [] else NameBytes(qs[0].qname) + (qs[0].typeAndClass + QuestionBytes(qs[1..]))
  }

  function FixedBytes(r: Record): (b: seq<Byte>)
    requires GoodRecord(r)
    ensures |b| == 10
  {
    Be16(r.typ) + (r.classAndTtl + Be16(|r.rdata|))
  }

  function RecordBytes(rs: seq<Record>): seq<Byte>
    requires GoodRecords(rs)
  {
    if rs == [] then []
    else NameBytes(rs[0].name) + (FixedBytes(rs[0]) + (rs[0].rdata + RecordBytes(rs[1..])))
  }

  function HeaderBytes(r: Response): (b: seq<Byte>)
    requires GoodResponse(r)
    ensures |b| == 12
  {
    (r.id + r.flags) + (Be16(|r.questions|) + (Be16(|r.answers|) + r.otherCounts))
  }

  function MessageBytes(r: Response): seq<Byte>
    requires GoodResponse(r)
  {
    HeaderBytes(r) + (QuestionBytes(r.questions) + (RecordBytes(r.answers) + r.rest))
  }

  /** The four-byte A records, in order. */
  function ARecords(rs: seq<Record>): seq<seq<Byte>> {
    if rs == [] then []
    else (if rs[0].typ == 1 && |rs[0].rdata| == 4 then [rs[0].rdata] else []) + ARecords(rs[1..])
  }

  lemma {:induction false} NameSkipped(m: seq<Byte>, p: nat, labels: seq<seq<Byte>>, e: NameEnd)
    requires GoodLabels(labels) && (e.Pointer? ==> e.hi >= 0xc0)
    requires At(m, p, LabelBytes(labels) + EndBytes(e))
    ensures SkipName(m, p) == Ran(p + |LabelBytes(labels)| + |EndBytes(e)|)
    decreases |labels|
  {
    hide At;
    if labels == [] {
      assert LabelBytes(labels) + EndBytes(e) == EndBytes(e);
      EndRead(m, p, e);
    } else {
      var l, tail := labels[0], LabelBytes(labels[1..]) + EndBytes(e);
      assert LabelBytes(labels) + EndBytes(e) == [|l|] + (l + tail);
      LabelRead(m, p, l, tail);
      NameSkipped(m, p + 1 + |l|, labels[1..], e);
    }
  }

  lemma LabelRead(m: seq<Byte>, p: nat, l: seq<Byte>, tail: seq<Byte>)
    requires 1 <= |l| <= 63 && At(m, p, [|l|] + (l + tail))
    ensures p < |m| && U8(m, p) == |l| && At(m, p + 1 + |l|, tail)
  {
    InBounds(m, p, [|l|] + (l + tail));
    hide At;
    AtSplit(m, p, [|l|], l + tail);
    AtSplit(m, p + 1, l, tail);
    AtU8(m, p, |l|);
  }

  lemma InBounds(m: seq<Byte>, p: nat, part: seq<Byte>)
    requires At(m, p, part)
    ensures p + |part| <= |m|
  {}

  lemma EndRead(m: seq<Byte>, p: nat, e: NameEnd)
    requires At(m, p, EndBytes(e)) && (e.Pointer? ==> e.hi >= 0xc0)
    ensures SkipName(m, p) == Ran(p + |EndBytes(e)|)
  {
    assert m[p] == m[p..p + |EndBytes(e)|][0];
  }

  lemma {:induction false} QuestionsSkipped(m: seq<Byte>, p: nat, qs: seq<Question>)
    requires forall q :: q in qs ==> GoodName(q.qname) && |q.typeAndClass| == 4
    requires At(m, p, QuestionBytes(qs))
    ensures SkipQuestions(m, p, |qs|) == Ran(p + |QuestionBytes(qs)|)
    decreases |qs|
  {
    hide At, SkipName, NameBytes;
    if qs == [] {
    } else {
      var n, t, tail := NameBytes(qs[0].qname), qs[0].typeAndClass, QuestionBytes(qs[1..]);
      AtSplit(m, p, n, t + tail);
      AtSplit(m, p + |n|, t, tail);
      NameWhole(m, p, qs[0].qname);
      QuestionsSkipped(m, p + |n| + 4, qs[1..]);
    }
  }

  lemma NameWhole(m: seq<Byte>, p: nat, n: DnsName)
    requires GoodName(n) && At(m, p, NameBytes(n))
    ensures SkipName(m, p) == Ran(p + |NameBytes(n)|)
  {
    NameSkipped(m, p, n.labels, n.end);
  }

  lemma FixedRead(m: seq<Byte>, p: nat, r: Record)
    requires GoodRecord(r)
    requires At(m, p, FixedBytes(r))
    ensures p + 10 <= |m| && U16(m, p) == r.typ && U16(m, p + 8) == |r.rdata|
  {
    InBounds(m, p, FixedBytes(r));
    hide At, U16, Be16;
    AtSplit(m, p, Be16(r.typ), r.classAndTtl + Be16(|r.rdata|));
    AtSplit(m, p + 2, r.classAndTtl, Be16(|r.rdata|));
    AtU16(m, p, r.typ);
    AtU16(m, p + 8, |r.rdata|);
  }

  lemma RecordRead(m: seq<Byte>, p: nat, r: Record, tail: seq<Byte>)
    requires GoodRecord(r)
    requires At(m, p, FixedBytes(r) + (r.rdata + tail))
    ensures p + 10 + |r.rdata| <= |m|
    ensures U16(m, p) == r.typ && U16(m, p + 8) == |r.rdata|
    ensures m[p + 10..p + 10 + |r.rdata|] == r.rdata && At(m, p + 10 + |r.rdata|, tail)
  {
    hide U16, Be16, FixedBytes;
    AtSplit(m, p, FixedBytes(r), r.rdata + tail);
    AtSplit(m, p + 10, r.rdata, tail);
    FixedRead(m, p, r);
  }

  lemma CollectStep(m: seq<Byte>, p: nat, q: nat, r: Record, n: nat)
    requires SkipName(m, p) == Ran(q) && q + 10 + |r.rdata| <= |m|
    requires U16(m, q) == r.typ && U16(m, q + 8) == |r.rdata|
    requires m[q + 10..q + 10 + |r.rdata|] == r.rdata
    ensures Collect(m, p, n + 1) == Prepend(ARecords([r]), Collect(m, q + 10 + |r.rdata|, n))
  {
    hide SkipName, U16;
    assert [r][1..] == [];
  }

  lemma FirstRecordRead(m: seq<Byte>, p: nat, r: Record, tail: seq<Byte>) returns (q: nat)
    requires GoodRecord(r) && At(m, p, NameBytes(r.name) + (FixedBytes(r) + (r.rdata + tail)))
    ensures SkipName(m, p) == Ran(q) && q + 10 + |r.rdata| <= |m|
    ensures U16(m, q) == r.typ && U16(m, q + 8) == |r.rdata|
    ensures m[q + 10..q + 10 + |r.rdata|] == r.rdata && At(m, q + 10 + |r.rdata|, tail)
  {
    hide At, SkipName, NameBytes, FixedBytes, U16, Be16;
    q := p + |NameBytes(r.name)|;
    AtSplit(m, p, NameBytes(r.name), FixedBytes(r) + (r.rdata + tail));
    NameWhole(m, p, r.name);
    RecordRead(m, q, r, tail);
  }

  lemma {:induction false} RecordsCollected(m: seq<Byte>, p: nat, rs: seq<Record>)
    requires GoodRecords(rs) && At(m, p, RecordBytes(rs))
    ensures Collect(m, p, |rs|) == Addresses(ARecords(rs))
    decreases |rs|
  {
    if rs != [] {
      hide At, SkipName, NameBytes, FixedBytes, U16, ARecords, Collect;
      var r := rs[0];
      var q := FirstRecordRead(m, p, r, RecordBytes(rs[1..]));
      RecordsCollected(m, q + 10 + |r.rdata|, rs[1..]);
      CollectStep(m, p, q, r, |rs| - 1);
      FirstRecord(rs);
    } else {
      assert Collect(m, p, 0) == Addresses([]) && ARecords(rs) == [];
    }
  }

  lemma FirstRecord(rs: seq<Record>)
    requires rs != []
    ensures ARecords(rs) == ARecords([rs[0]]) + ARecords(rs[1..])
  {
    assert [rs[0]][1..] == [];
  }

  lemma HeaderRead(m: seq<Byte>, r: Response)
    requires GoodResponse(r) && At(m, 0, HeaderBytes(r))
    ensures |m| >= 12 && m[3] == r.flags[1]
    ensures U16(m, 4) == |r.questions| && U16(m, 6) == |r.answers|
  {
    InBounds(m, 0, HeaderBytes(r));
    hide At, U16, Be16;
    var q, a := Be16(|r.questions|), Be16(|r.answers|);
    AtSplit(m, 0, r.id + r.flags, q + (a + r.otherCounts));
    AtSplit(m, 4, q, a + r.otherCounts);
    AtSplit(m, 6, a, r.otherCounts);
    AtU16(m, 4, |r.questions|);
    AtU16(m, 6, |r.answers|);
    assert r.id + r.flags == (r.id + [r.flags[0]]) + [r.flags[1]];
    AtSplit(m, 0, r.id + [r.flags[0]], [r.flags[1]]);
    AtU8(m, 3, r.flags[1]);
  }

  /** dnsAnswersA on any well-formed response: the response code decides first,
      then exactly the four-byte A records are returned, in order, every other
      record and everything behind the answers passed over. */
  lemma ReadsWellFormed(r: Response)
    requires GoodResponse(r)
    ensures Answers(MessageBytes(r)) ==
      var rcode := r.flags[1] % 16;
      if rcode == 3 then NotFound
      else if rcode != 0 then ServerError(rcode)
      else if ARecords(r.answers) == [] then NotFound
      else Addresses(ARecords(r.answers))
  {
    var m := MessageBytes(r);
    AtStart(m, []);
    assert m + [] == m;
    hide At, SkipQuestions, Collect, U16, HeaderBytes, QuestionBytes, RecordBytes;
    var questions, answers := QuestionBytes(r.questions), RecordBytes(r.answers);
    AtSplit(m, 0, HeaderBytes(r), questions + (answers + r.rest));
    AtSplit(m, 12, questions, answers + r.rest);
    AtSplit(m, 12 + |questions|, answers, r.rest);
    HeaderRead(m, r);
    QuestionsSkipped(m, 12, r.questions);
    RecordsCollected(m, 12 + |questions|, r.answers);
  }

  // ------------------------------------------------------------ asking

  datatype Query = Asked(bytes: seq<Byte>) | NotAName

  const DOT: Byte := 46

  function TrimDot(host: seq<Byte>): seq<Byte> {
    if host != [] && host[|host| - 1] == DOT then host[..|host| - 1] else host
  }

  /** strings.Split(host, "."). */
  function Labels(host: seq<Byte>): (r: seq<seq<Byte>>)
    ensures |r| > 0
    decreases |host|
  {
    var i := Find(host, [DOT]);
    if i < 0 then [host] else [host[..i]] + Labels(host[i + 1..])
  }

  function Joined(labels: seq<seq<Byte>>): seq<Byte> {
    if labels == [] then []
    else if |labels| == 1 then labels[0]
    else labels[0] + [46] + Joined(labels[1..])
  }

  const QUERY_HEADER: seq<Byte> := [0, 0, 1, 0, 0, 1, 0, 0, 0, 0, 0, 0]
  const A_IN: seq<Byte> := [0, 1, 0, 1]

  predicate IsName(host: seq<Byte>) { GoodLabels(Labels(TrimDot(host))) }

  function QuestionFor(host: seq<Byte>): Question {
    Question(DnsName(Labels(TrimDot(host)), Root), A_IN)
  }

  ghost function QueryBytes(host: seq<Byte>): seq<Byte>
    requires IsName(host)
  {
    QUERY_HEADER + QuestionBytes([QuestionFor(host)])
  }

  /** The labels, each behind its length, or a refusal at the first that cannot
      be one. */
  method WriteLabels(labels: seq<seq<Byte>>) returns (ok: bool, out: seq<Byte>)
    ensures ok <==> GoodLabels(labels)
    ensures ok ==> out == LabelBytes(labels)
  {
    out := [];
    for i := 0 to |labels|
      invariant GoodLabels(labels[..i])
      invariant out == LabelBytes(labels[..i])
    {
      hide LabelBytes;
      var part := labels[i];
      if part == [] || |part| > 63 {
        assert part in labels;
        return false, [];
      }
      out := out + [|part|] + part;
      LabelAppended(labels[..i], part);
      assert labels[..i] + [part] == labels[..i + 1];
    }
    assert labels[..|labels|] == labels;
    return true, out;
  }

  /** dnsQueryA: a question for the A records of host, or a refusal. */
  method DnsQueryA(host: seq<Byte>) returns (q: Query)
    ensures q.Asked? <==> IsName(host)
    ensures q.Asked? ==> q.bytes == QueryBytes(host)
  {
    var ok, out := WriteLabels(Labels(TrimDot(host)));
    if !ok { return NotAName; }
    OneQuestion(Labels(TrimDot(host)));
    return Asked(QUERY_HEADER + out + [0] + A_IN);
  }

  lemma OneQuestion(labels: seq<seq<Byte>>)
    requires GoodLabels(labels)
    ensures QuestionBytes([Question(DnsName(labels, Root), A_IN)]) == LabelBytes(labels) + [0] + A_IN
  {
    hide LabelBytes;
    var q := Question(DnsName(labels, Root), A_IN);
    assert [q][1..] == [];
    assert QuestionBytes([q]) == NameBytes(q.qname) + (A_IN + []);
  }

  lemma {:induction false} LabelAppended(labels: seq<seq<Byte>>, l: seq<Byte>)
    requires GoodLabels(labels) && 1 <= |l| <= 63
    ensures GoodLabels(labels + [l])
    ensures LabelBytes(labels + [l]) == LabelBytes(labels) + [|l|] + l
    decreases |labels|
  {
    hide GoodLabels, LabelBytes;
    GoodAppended(labels, l);
    if labels == [] {
      OneLabel(l);
      assert labels + [l] == [l];
    } else {
      LabelFirst(labels);
      LabelFirst(labels + [l]);
      assert (labels + [l])[1..] == labels[1..] + [l];
      LabelAppended(labels[1..], l);
      Regrouped([|labels[0]|], labels[0], LabelBytes(labels[1..]), [|l|], l);
    }
  }

  lemma LabelFirst(labels: seq<seq<Byte>>)
    requires GoodLabels(labels) && labels != []
    ensures GoodLabels(labels[1..]) && 1 <= |labels[0]| <= 63
    ensures LabelBytes(labels) == [|labels[0]|] + (labels[0] + LabelBytes(labels[1..]))
  {}

  lemma Regrouped(a: seq<Byte>, b: seq<Byte>, c: seq<Byte>, d: seq<Byte>, e: seq<Byte>)
    ensures a + (b + (c + d + e)) == (a + (b + c)) + d + e
  {}

  lemma GoodAppended(labels: seq<seq<Byte>>, l: seq<Byte>)
    requires GoodLabels(labels) && 1 <= |l| <= 63
    ensures GoodLabels(labels + [l]) && GoodLabels([])
  {}

  lemma OneLabel(l: seq<Byte>)
    requires 1 <= |l| <= 63
    ensures LabelBytes([l]) == [|l|] + l && LabelBytes([]) == []
  {
    assert [l][1..] == [];
  }

  /** The labels written are the host's own: joined by dots they are the host
      asked for, and no label holds a dot. */
  lemma {:induction false} LabelsAreTheHost(host: seq<Byte>)
    ensures Joined(Labels(host)) == host
    ensures forall l :: l in Labels(host) ==> 46 !in l
    decreases |host|
  {
    hide Find, MatchAt;
    FirstDot(host);
    var i := Find(host, [DOT]);
    if i < 0 {
    } else {
      LabelsAreTheHost(host[i + 1..]);
      JoinedOn(host[..i], Labels(host[i + 1..]));
      assert host == host[..i] + [DOT] + host[i + 1..];
    }
  }

  lemma JoinedOn(l: seq<Byte>, more: seq<seq<Byte>>)
    requires |more| > 0
    ensures Joined([l] + more) == l + [DOT] + Joined(more)
  {
    assert ([l] + more)[1..] == more;
  }

  lemma FirstDot(host: seq<Byte>)
    ensures var i := Find(host, [DOT]);
      if i < 0 then DOT !in host else i < |host| && host[i] == DOT && DOT !in host[..i]
  {
    var i := Find(host, [DOT]);
    var n := if i < 0 then |host| else i;
    forall k | 0 <= k < n ensures host[k] != DOT { assert !MatchAt(host, [DOT], k); }
    if i >= 0 { assert host[i] == host[i..i + 1][0]; }
  }

  /** A response built around the question that was written: its header, the
      question's bytes out of the query, any answers and anything behind. */
  lemma AnswersToTheQuestion(host: seq<Byte>, r: Response)
    requires IsName(host)
    requires GoodResponse(r) && r.questions == [QuestionFor(host)]
    requires r.flags[1] % 16 == 0
    ensures Answers(HeaderBytes(r) + (QueryBytes(host)[12..] + (RecordBytes(r.answers) + r.rest)))
         == if ARecords(r.answers) == [] then NotFound else Addresses(ARecords(r.answers))
  {
    hide QuestionBytes, RecordBytes, Answers, HeaderBytes;
    assert QueryBytes(host)[12..] == QuestionBytes(r.questions);
    ReadsWellFormed(r);
  }
}
