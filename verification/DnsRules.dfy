/** The bootstrap lookup against the messages of RFC 1035: what the question says
    when it is read back, and what becomes of an answer that was cut short
    (vair/core/bootstrapdoh.go). */
module DnsRules {
  import opened Bytes
  import opened Decimal
  import opened Dns

  // ------------------------------------------------------------ the question

  /** The labels of a host name, which may end in a dot: up to 63 bytes each, none
      empty. */
  ghost predicate Spells(labels: seq<seq<Byte>>, host: seq<Byte>) {
    && labels != [] && (forall l :: l in labels ==> 1 <= |l| <= 63 && 46 !in l)
    && (host == Joined(labels) || host == Joined(labels) + [46])
  }

  /** The labels of a name that is not compressed, each behind its length, up to the
      zero byte (section 3.1). */
  function LabelsAt(m: seq<Byte>, p: nat): Option<seq<seq<Byte>>>
    decreases |m| - p
  {
    if p >= |m| then None
    else if m[p] == 0 then Some([])
    else if m[p] > 63 || p + 1 + m[p] > |m| then None
    else
      match LabelsAt(m, p + 1 + m[p])
      case Some(more) => Some([m[p + 1..p + 1 + m[p]]] + more)
      case None => None
  }

  /** The header of a query: recursion desired and nothing else set, one question and
      no record (section 4.1.1). */
  predicate QueryHeader(m: seq<Byte>) {
    && |m| >= 12
    && U16(m, 0) == 0                       // ID
    && U8(m, 2) == 1 && U8(m, 3) == 0       // RD alone
    && U16(m, 4) == 1                       // QDCOUNT
    && U16(m, 6) == 0 && U16(m, 8) == 0 && U16(m, 10) == 0
  }

  /** A query for the addresses of the name in the Internet class (section 4.1.2). */
  predicate AsksAddressOf(m: seq<Byte>, labels: seq<seq<Byte>>) {
    && QueryHeader(m) && |m| >= 16
    && LabelsAt(m, 12) == Some(labels) && SkipName(m, 12) == Ran(|m| - 4)
    && U16(m, |m| - 4) == 1                 // QTYPE A
    && U16(m, |m| - 2) == 1                 // QCLASS IN
  }

  lemma LabelStep(m: seq<Byte>, p: nat, l: seq<Byte>, more: seq<seq<Byte>>)
    requires 1 <= |l| <= 63 && p + 1 + |l| <= |m| && m[p] == |l| && m[p + 1..p + 1 + |l|] == l
    requires LabelsAt(m, p + 1 + |l|) == Some(more)
    ensures LabelsAt(m, p) == Some([l] + more)
  {}

  lemma {:induction false} LabelsReadBack(m: seq<Byte>, p: nat, labels: seq<seq<Byte>>)
    requires GoodLabels(labels) && At(m, p, LabelBytes(labels) + [0])
    ensures LabelsAt(m, p) == Some(labels)
    decreases |labels|
  {
    hide At, LabelsAt;
    if labels == [] {
      assert LabelBytes(labels) + [0] == [0];
      NoLabel(m, p);
    } else {
      var l, tail := labels[0], LabelBytes(labels[1..]) + [0];
      assert LabelBytes(labels) + [0] == [|l|] + (l + tail);
      LabelRead(m, p, l, tail);
      AtSplit(m, p, [|l|], l + tail);
      LabelStands(m, p + 1, l, tail);
      LabelsReadBack(m, p + 1 + |l|, labels[1..]);
      LabelStep(m, p, l, labels[1..]);
      assert labels == [l] + labels[1..];
    }
  }

  lemma NoLabel(m: seq<Byte>, p: nat)
    requires At(m, p, [0])
    ensures LabelsAt(m, p) == Some([])
  {
    AtU8(m, p, 0);
  }

  lemma LabelStands(m: seq<Byte>, p: nat, l: seq<Byte>, tail: seq<Byte>)
    requires At(m, p, l + tail)
    ensures p + |l| <= |m| && m[p..p + |l|] == l
  {
    AtSplit(m, p, l, tail);
  }

  lemma DotEnds(l: seq<Byte>, rest: seq<Byte>)
    requires 46 !in l
    ensures Find(l + [46] + rest, [46]) == |l|
  {
    var b := l + [46] + rest;
    FirstDot(b);
    var i := Find(b, [46]);
    assert b[|l|] == 46 && 46 in b;
    assert forall k :: 0 <= k < |l| ==> b[k] == l[k];
    assert forall k :: |l| < k <= |b| ==> b[..k][|l|] == 46;
  }

  lemma FirstLabel(l: seq<Byte>, rest: seq<Byte>)
    requires 46 !in l
    ensures Labels(l) == [l] && Labels(l + [46] + rest) == [l] + Labels(rest)
  {
    hide Find;
    FirstDot(l);
    DotEnds(l, rest);
    var b := l + [46] + rest;
    assert b[..|l|] == l && b[|l| + 1..] == rest;
  }

  lemma {:induction false} LabelsOfJoined(labels: seq<seq<Byte>>)
    requires labels != [] && forall l :: l in labels ==> 46 !in l
    ensures Labels(Joined(labels)) == labels
    decreases |labels|
  {
    hide Labels;
    assert labels[0] in labels && labels == [labels[0]] + labels[1..];
    if |labels| == 1 {
      FirstLabel(labels[0], []);
    } else {
      LabelsOfJoined(labels[1..]);
      FirstLabel(labels[0], Joined(labels[1..]));
    }
  }

  lemma {:induction false} NoDotAtTheEnd(labels: seq<seq<Byte>>)
    requires labels != [] && forall l :: l in labels ==> l != [] && 46 !in l
    ensures Joined(labels) != [] && Joined(labels)[|Joined(labels)| - 1] != 46
    decreases |labels|
  {
    assert labels[0] in labels;
    if |labels| == 1 {
      assert labels[0][|labels[0]| - 1] in labels[0];
    } else {
      assert forall l :: l in labels[1..] ==> l in labels;
      NoDotAtTheEnd(labels[1..]);
    }
  }

  lemma SpelledLabels(labels: seq<seq<Byte>>, host: seq<Byte>)
    requires Spells(labels, host)
    ensures Labels(TrimDot(host)) == labels && GoodLabels(labels)
  {
    NoDotAtTheEnd(labels);
    LabelsOfJoined(labels);
    assert (Joined(labels) + [46])[..|Joined(labels)|] == Joined(labels);
    hide Joined, Labels;
  }

  /** A question is written exactly for what spells a name, and read back it asks for
      the address of that name. */
  lemma QuestionAsks(host: seq<Byte>)
    ensures IsName(host) <==> exists labels :: Spells(labels, host)
    ensures forall labels :: Spells(labels, host) ==> AsksAddressOf(QueryBytes(host), labels)
  {
    hide Spells, GoodLabels, AsksAddressOf, QueryBytes, Labels, TrimDot;
    forall labels | Spells(labels, host) ensures IsName(host) && AsksAddressOf(QueryBytes(host), labels) {
      SpelledLabels(labels, host);
      QueryReadsBack(host, labels);
    }
    if IsName(host) { NameIsSpelled(host); }
  }

  lemma NameIsSpelled(host: seq<Byte>)
    requires IsName(host)
    ensures Spells(Labels(TrimDot(host)), host)
  {
    hide Labels, Joined;
    LabelsAreTheHost(TrimDot(host));
  }

  lemma HeaderReadsBack(m: seq<Byte>)
    requires At(m, 0, QUERY_HEADER)
    ensures QueryHeader(m)
  {
    assert forall k :: 0 <= k < 12 ==> m[k] == m[0..12][k] == QUERY_HEADER[k];
  }

  lemma ClassReadsBack(m: seq<Byte>, p: nat)
    requires At(m, p, A_IN)
    ensures p + 4 <= |m| && U16(m, p) == 1 && U16(m, p + 2) == 1
  {
    assert forall k :: 0 <= k < 4 ==> m[p + k] == m[p..p + 4][k] == A_IN[k];
  }

  lemma QueryReadsBack(host: seq<Byte>, labels: seq<seq<Byte>>)
    requires Labels(TrimDot(host)) == labels && GoodLabels(labels)
    ensures AsksAddressOf(QueryBytes(host), labels)
  {
    hide Labels, TrimDot, LabelBytes, SkipName, LabelsAt, At, GoodLabels, U16;
    OneQuestion(labels);
    var m, name := QueryBytes(host), LabelBytes(labels) + [0];
    assert m == QUERY_HEADER + (name + A_IN);
    AtStart(m, []);
    assert m + [] == m;
    AtSplit(m, 0, QUERY_HEADER, name + A_IN);
    AtSplit(m, 12, name, A_IN);
    LabelsReadBack(m, 12, labels);
    NameSkipped(m, 12, labels, Root);
    HeaderReadsBack(m);
    ClassReadsBack(m, |m| - 4);
    hide QueryBytes, QueryHeader;
  }

  // ------------------------------------------------------------ an answer cut short

  /** A name of a message is passed over in any part of it, or found to be cut. */
  lemma {:induction false} NameCut(m: seq<Byte>, n: nat, p: nat, labels: seq<seq<Byte>>, e: NameEnd)
    requires n <= |m| && GoodLabels(labels) && (e.Pointer? ==> e.hi >= 0xc0)
    requires At(m, p, LabelBytes(labels) + EndBytes(e))
    ensures SkipName(m[..n], p) in {Cut, Ran(p + |LabelBytes(labels)| + |EndBytes(e)|)}
    decreases |labels|
  {
    hide At;
    if labels == [] {
      assert LabelBytes(labels) + EndBytes(e) == EndBytes(e);
      EndStands(m, p, e);
    } else {
      var l, tail := labels[0], LabelBytes(labels[1..]) + EndBytes(e);
      assert LabelBytes(labels) + EndBytes(e) == [|l|] + (l + tail);
      LabelRead(m, p, l, tail);
      NameCut(m, n, p + 1 + |l|, labels[1..], e);
    }
  }

  lemma EndStands(m: seq<Byte>, p: nat, e: NameEnd)
    requires At(m, p, EndBytes(e))
    ensures p < |m| && m[p] == EndBytes(e)[0]
  {
    assert m[p] == m[p..p + |EndBytes(e)|][0];
  }

  lemma {:induction false} QuestionsCut(m: seq<Byte>, n: nat, p: nat, qs: seq<Question>)
    requires n <= |m| && forall q :: q in qs ==> GoodName(q.qname) && |q.typeAndClass| == 4
    requires At(m, p, QuestionBytes(qs))
    ensures SkipQuestions(m[..n], p, |qs|) in {Cut, Ran(p + |QuestionBytes(qs)|)}
    decreases |qs|
  {
    hide At, SkipName, NameBytes;
    if qs == [] {
    } else {
      var name, t, tail := NameBytes(qs[0].qname), qs[0].typeAndClass, QuestionBytes(qs[1..]);
      AtSplit(m, p, name, t + tail);
      AtSplit(m, p + |name|, t, tail);
      WholeNameCut(m, n, p, qs[0].qname);
      QuestionsCut(m, n, p + |name| + 4, qs[1..]);
    }
  }

  lemma WholeNameCut(m: seq<Byte>, n: nat, p: nat, name: DnsName)
    requires n <= |m| && GoodName(name) && At(m, p, NameBytes(name))
    ensures SkipName(m[..n], p) in {Cut, Ran(p + |NameBytes(name)|)}
  {
    NameCut(m, n, p, name.labels, name.end);
  }

  lemma CollectCut(c: seq<Byte>, p: nat, q: nat, k: nat)
    requires k > 0 && SkipName(c, p) in {Cut, Ran(q)}
    requires q + 10 <= |c| && q + 10 + U16(c, q + 8) <= |c| ==> Collect(c, q + 10 + U16(c, q + 8), k - 1) == Truncated
    ensures Collect(c, p, k) == Truncated
  {
    hide SkipName, U16;
  }

  lemma {:induction false} RecordsCut(m: seq<Byte>, n: nat, p: nat, rs: seq<Record>)
    requires GoodRecords(rs) && At(m, p, RecordBytes(rs)) && n < p + |RecordBytes(rs)| && rs != []
    ensures n <= |m| && Collect(m[..n], p, |rs|) == Truncated
    decreases |rs|
  {
    hide At, SkipName, NameBytes, FixedBytes, U16, Collect;
    var r, tail := rs[0], RecordBytes(rs[1..]);
    var q := p + |NameBytes(r.name)|;
    AtFits(m, p, RecordBytes(rs));
    AtSplit(m, p, NameBytes(r.name), FixedBytes(r) + (r.rdata + tail));
    WholeNameCut(m, n, p, r.name);
    RecordRead(m, q, r, tail);
    if q + 10 <= n {
      SameU16(m, n, q + 8);
      if q + 10 + |r.rdata| <= n {
        RecordsCut(m, n, q + 10 + |r.rdata|, rs[1..]);
      }
    }
    CollectCut(m[..n], p, q, |rs|);
  }

  lemma SameU16(m: seq<Byte>, n: nat, p: nat)
    requires p + 2 <= n <= |m|
    ensures U16(m[..n], p) == U16(m, p)
  {}

  lemma NoAnswer(c: seq<Byte>, p: nat)
    requires |c| >= 12 ==>
      c[3] % 16 == 0 && SkipQuestions(c, 12, U16(c, 4)) in {Cut, Ran(p)} && Collect(c, p, U16(c, 6)) == Truncated
    ensures Answers(c) == Truncated
  {
    hide SkipQuestions, Collect, U16;
  }

  lemma PartsStand(r: Response)
    requires GoodResponse(r)
    ensures var m, questions := MessageBytes(r), QuestionBytes(r.questions);
      At(m, 0, HeaderBytes(r)) && At(m, 12, questions) && At(m, 12 + |questions|, RecordBytes(r.answers))
  {
    hide At, HeaderBytes, QuestionBytes, RecordBytes;
    var m, questions, answers := MessageBytes(r), QuestionBytes(r.questions), RecordBytes(r.answers);
    AtStart(m, []);
    assert m + [] == m;
    AtSplit(m, 0, HeaderBytes(r), questions + (answers + r.rest));
    AtSplit(m, 12, questions, answers + r.rest);
    AtSplit(m, 12 + |questions|, answers, r.rest);
  }

  lemma CutOfMessage(m: seq<Byte>, n: nat, r: Response)
    requires GoodResponse(r) && r.answers != [] && r.flags[1] % 16 == 0
    requires At(m, 0, HeaderBytes(r)) && At(m, 12, QuestionBytes(r.questions))
    requires At(m, 12 + |QuestionBytes(r.questions)|, RecordBytes(r.answers))
    requires n < 12 + |QuestionBytes(r.questions)| + |RecordBytes(r.answers)|
    ensures n <= |m| && Answers(m[..n]) == Truncated
  {
    hide At, SkipQuestions, Collect, U16, HeaderBytes, QuestionBytes, RecordBytes, Answers;
    var p := 12 + |QuestionBytes(r.questions)|;
    HeaderRead(m, r);
    RecordsCut(m, n, p, r.answers);
    if n >= 12 {
      SameU16(m, n, 4);
      SameU16(m, n, 6);
      QuestionsCut(m, n, 12, r.questions);
    }
    NoAnswer(m[..n], p);
  }

  /** A response with answers that ends anywhere before the end of the last of them
      is an error: it is taken neither for fewer addresses nor for none. */
  lemma CutIsTruncated(r: Response, n: nat)
    requires GoodResponse(r) && r.answers != [] && r.flags[1] % 16 == 0
    requires n < |HeaderBytes(r) + QuestionBytes(r.questions) + RecordBytes(r.answers)|
    ensures n <= |MessageBytes(r)| && Answers(MessageBytes(r)[..n]) == Truncated
  {
    hide At, MessageBytes, HeaderBytes, QuestionBytes, RecordBytes, Answers;
    PartsStand(r);
    CutOfMessage(MessageBytes(r), n, r);
  }
}
