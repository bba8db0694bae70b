/** The streams in which a request by absolute URL carries a payload: the
    request takes whatever is buffered, so its payload starts where the cut
    falls. With them, the condition under which cuts do not matter covers every
    stream (vair/core/relayspy.go). */
module UrlCuts {
  import opened Bytes
  import opened DestSpies
  import opened RelaySpy

  /** Read as a first payload, these bytes say a name. */
  predicate HoldsName(net: GoNet, p: seq<Byte>) {
    p != [] && if p[0] == 0x16 then TlsName(net, p).Found? else HostReadable(net, p)
  }

  /** The first line ends before byte 2048, and no end part of what is kept
      behind it would be read as a payload with a name. */
  predicate UrlSteady(net: GoNet, w: seq<Byte>) {
    && Find(w, CRLF) < 2048
    && forall n :: Find(w, CRLF) + 2 <= n <= |w| ==> !HoldsName(net, w[n..])
  }

  /** What a stream must meet for its cuts not to matter. */
  predicate CutsAgree(net: GoNet, wantName: bool, s: seq<Byte>) {
    if UrlCarriesPayload(net, wantName, s) then UrlSteady(net, Kept(s)) else Steady(net, wantName, s)
  }

  function UrlDest(net: GoNet, w: seq<Byte>): Dest
    requires ByUrl(net, w)
  {
    Text(ReadLine(net, w[..Find(w, CRLF)]).hostPort)
  }

  predicate ToAddress(net: GoNet, w: seq<Byte>) {
    ByUrl(net, w) && |w| <= SPY_MAX && IsAddress(net, UrlDest(net, w))
  }

  lemma HoldsNameIff(net: GoNet, p: seq<Byte>)
    ensures HoldsName(net, p) <==> PayloadName(net, p).Found?
  {
    hide HostReadable, TlsName;
    if p != [] && p[0] != 0x16 { ReadableHosts(net, p); }
  }

  /** The request is found from the end of its line on, and takes all there is. */
  lemma UrlRequest(net: GoNet, w: seq<Byte>, b: seq<Byte>)
    requires ByUrl(net, w) && b <= w
    ensures Find(w, CRLF) + 2 <= |w|
    ensures ProxyRequest(net, b) ==
      if Find(w, CRLF) + 2 <= |b| then Found(Request(UrlDest(net, w), |b|))
      else if |b| > LINE_CUTOFF then Never else NeedMore
  {
    FindInPrefix(b, w, CRLF);
    if Find(b, CRLF) >= 0 { assert b[..Find(b, CRLF)] == w[..Find(w, CRLF)]; }
  }

  // ------------------------------------------------------------ a run

  /** The spy having read b of w: still in the line, behind it, or done, with
      nothing but the destination said. */
  predicate Reads(net: GoNet, w: seq<Byte>, b: seq<Byte>, t: Spy)
    requires ByUrl(net, w)
  {
    b <= w &&
    match t.stage
    case 0 => t == Spy(b, 0, 0, []) && |b| < SPY_MAX && |b| < Find(w, CRLF) + 2
    case 1 => t.buf == b && |b| < SPY_MAX && Find(w, CRLF) + 2 <= t.from <= |b| && t.calls == [OnDest(UrlDest(net, w))]
    case _ => t.stage == 2 && t.calls == [OnDest(UrlDest(net, w))]
  }

  lemma ReadsOn(net: GoNet, w: seq<Byte>, b: seq<Byte>, t: Spy, p: seq<Byte>)
    requires ToAddress(net, w) && UrlSteady(net, w) && Reads(net, w, b, t) && Sound(t)
    requires Kept(b + p) <= w
    ensures Reads(net, w, Kept(b + p), Fed(net, true, t, p))
  {
    hide ByUrl, Find, ProxyRequest, PayloadName, UrlDest, UrlSteady;
    if t.stage != 2 {
      var c := Kept(b + p);
      assert b + (if |p| > SPY_MAX - |b| then p[..SPY_MAX - |b|] else p) == c;
      if t.stage == 0 { RequestReads(net, w, c); } else { PayloadReads(net, w, c, t.from, t.calls); }
    }
  }

  lemma RequestReads(net: GoNet, w: seq<Byte>, c: seq<Byte>)
    requires ToAddress(net, w) && UrlSteady(net, w) && c <= w
    ensures Reads(net, w, c, AfterRequest(net, true, Spy(c, 0, 0, [])))
  {
    SteadyLine(net, w);
    UrlRequest(net, w, c);
    EmptyNamesNothing(net);
    hide ByUrl, Find, ProxyRequest, PayloadName, UrlDest, UrlSteady;
    if Find(w, CRLF) + 2 <= |c| { assert c[|c|..] == []; }
  }

  lemma SteadyLine(net: GoNet, w: seq<Byte>)
    requires UrlSteady(net, w)
    ensures Find(w, CRLF) < LINE_CUTOFF
  {}

  lemma PayloadReads(net: GoNet, w: seq<Byte>, c: seq<Byte>, n: nat, calls: seq<Call>)
    requires ByUrl(net, w) && |w| <= SPY_MAX && UrlSteady(net, w) && c <= w
    requires Find(w, CRLF) + 2 <= n <= |c| && calls == [OnDest(UrlDest(net, w))]
    ensures Reads(net, w, c, AfterPayload(net, Spy(c, 1, n, calls)))
  {
    NothingHeld(net, w, n);
    HoldsNameIff(net, w[n..]);
    hide ByUrl, Find, PayloadName, UrlDest, UrlSteady, HoldsName;
    if PayloadName(net, c[n..]).Found? { FoundNameStable(net, c[n..], w[n..]); }
  }

  lemma NothingHeld(net: GoNet, w: seq<Byte>, n: nat)
    requires UrlSteady(net, w) && Find(w, CRLF) + 2 <= n <= |w|
    ensures !HoldsName(net, w[n..])
  {}

  lemma {:induction false} RunReads(net: GoNet, w: seq<Byte>, b: seq<Byte>, t: Spy, chunks: seq<seq<Byte>>)
    requires ToAddress(net, w) && UrlSteady(net, w) && Reads(net, w, b, t) && Sound(t)
    requires |b| <= SPY_MAX && Kept(b + Flatten(chunks)) == w
    ensures Reads(net, w, w, Run(net, true, t, chunks))
    decreases |chunks|
  {
    hide ToAddress, ByUrl, UrlSteady, Reads, Fed, Sound;
    if chunks == [] {
      assert b + Flatten(chunks) == b;
    } else {
      var p, rest := chunks[0], Flatten(chunks[1..]);
      KeptOn(b, p, rest);
      ReadsOn(net, w, b, t, p);
      FedIsSound(net, true, t, p);
      RunReads(net, w, Kept(b + p), Fed(net, true, t, p), chunks[1..]);
    }
  }

  lemma KeptOn(b: seq<Byte>, p: seq<Byte>, rest: seq<Byte>)
    ensures Kept(b + p) <= Kept(b + (p + rest)) && Kept(Kept(b + p) + rest) == Kept(b + (p + rest))
  {
    assert b + (p + rest) == (b + p) + rest;
  }

  // ------------------------------------------------------------ what is said

  lemma WholeSaysDest(net: GoNet, s: seq<Byte>)
    requires UrlCarriesPayload(net, true, s)
    ensures ToAddress(net, Kept(s))
    ensures Whole(net, true, s).calls == [OnDest(UrlDest(net, Kept(s)))]
  {
    var w := Kept(s);
    UrlRequest(net, w, w);
    WholeReads(net, true, s);
    EmptyNamesNothing(net);
    assert w[|w|..] == [];
    hide ByUrl, Find, ProxyRequest, PayloadName, Whole, UrlDest;
  }

  lemma SteadyRunSaysDest(net: GoNet, s: seq<Byte>, chunks: seq<seq<Byte>>)
    requires UrlCarriesPayload(net, true, s) && UrlSteady(net, Kept(s)) && Flatten(chunks) == s
    ensures Run(net, true, FRESH, chunks).calls == [OnDest(UrlDest(net, Kept(s)))]
  {
    WholeSaysDest(net, s);
    var w := Kept(s);
    UrlRequest(net, w, w);
    hide UrlCarriesPayload, UrlSteady, ToAddress, ByUrl, Find, Run, UrlDest, ProxyRequest, Whole;
    assert [] + Flatten(chunks) == s;
    RunReads(net, w, [], FRESH, chunks);
  }

  /** Cut right before an end part that holds a name, and the name is said. */
  lemma NameSaid(net: GoNet, s: seq<Byte>, n: nat) returns (chunks: seq<seq<Byte>>)
    requires UrlCarriesPayload(net, true, s)
    requires Find(Kept(s), CRLF) + 2 <= n <= |Kept(s)| && HoldsName(net, Kept(s)[n..])
    ensures Flatten(chunks) == s && |Run(net, true, FRESH, chunks).calls| == 2
  {
    hide UrlCarriesPayload, ByUrl, Find, ReadLine, HoldsName, PayloadName, ProxyRequest, IsAddress, UrlDest, Whole, Run, Fed;
    var w, a, r := Kept(s), s[..n], s[n..];
    HoldsNameIff(net, w[n..]);
    EmptyNamesNothing(net);
    WholeSaysDest(net, s);
    assert w[n..] != [];
    assert a <= w;
    LineBack(net, a, w);
    UrlFeed(net, a, UrlDest(net, w));
    chunks := [a, r];
    TwoFlat(a, r);
    TwoRun(net, a, r);
    NameBehind(net, w, a, r, UrlDest(net, w));
  }

  lemma LineBack(net: GoNet, a: seq<Byte>, w: seq<Byte>)
    requires ByUrl(net, w) && a <= w && Find(w, CRLF) + 2 <= |a|
    ensures a != [] && a[0] != 5 && Find(a, CRLF) >= 0
    ensures ReadLine(net, a[..Find(a, CRLF)]).AbsoluteUrl? && UrlDest(net, w) == Text(ReadLine(net, a[..Find(a, CRLF)]).hostPort)
  {
    FindInPrefix(a, w, CRLF);
    assert a[..Find(a, CRLF)] == w[..Find(w, CRLF)];
  }

  lemma TwoFlat(a: seq<Byte>, r: seq<Byte>)
    ensures Flatten([a, r]) == a + r
  {
    assert [a, r][1..] == [r] && [r][1..] == [];
    assert Flatten([r]) == r + Flatten([]) == r;
  }

  lemma NameBehind(net: GoNet, w: seq<Byte>, a: seq<Byte>, r: seq<Byte>, d: Dest)
    requires w == Kept(a + r) && |a| < |w| && PayloadName(net, w[|a|..]).Found?
    ensures |Fed(net, true, Spy(a, 1, |a|, [OnDest(d)]), r).calls| == 2
  {
    hide PayloadName;
    assert a + (if |r| > SPY_MAX - |a| then r[..SPY_MAX - |a|] else r) == w;
  }

  lemma UnsteadyUrlCut(net: GoNet, s: seq<Byte>) returns (chunks: seq<seq<Byte>>)
    requires UrlCarriesPayload(net, true, s) && !UrlSteady(net, Kept(s))
    ensures Flatten(chunks) == s && |Run(net, true, FRESH, chunks).calls| != 1
  {
    hide HoldsName, Run, PayloadName, ReadLine;
    var w := Kept(s);
    if Find(w, CRLF) >= LINE_CUTOFF {
      chunks := LateLineLost(net, true, s);
    } else {
      var n :| Find(w, CRLF) + 2 <= n <= |w| && HoldsName(net, w[n..]);
      chunks := NameSaid(net, s, n);
    }
  }

  /** The calls do not depend on how a stream is cut, empty chunks included,
      exactly when it meets the condition for its kind: for every stream. */
  lemma CutsDoNotMatterIff(net: GoNet, wantName: bool, s: seq<Byte>)
    ensures CutsAgree(net, wantName, s) <==>
      forall chunks :: Flatten(chunks) == s ==> Run(net, wantName, FRESH, chunks).calls == Whole(net, wantName, s).calls
  {
    if !UrlCarriesPayload(net, wantName, s) {
      ChunksDoNotMatterIff(net, wantName, s);
    } else {
      UrlWantsName(net, wantName, s);
      hide Run, Whole, UrlCarriesPayload, UrlSteady, UrlDest;
      WholeSaysDest(net, s);
      if UrlSteady(net, Kept(s)) {
        forall chunks | Flatten(chunks) == s
          ensures Run(net, wantName, FRESH, chunks).calls == Whole(net, wantName, s).calls
        {
          SteadyRunSaysDest(net, s, chunks);
        }
      } else {
        var chunks := UnsteadyUrlCut(net, s);
        assert Flatten(chunks) == s;
      }
    }
  }

  lemma UrlWantsName(net: GoNet, wantName: bool, s: seq<Byte>)
    requires UrlCarriesPayload(net, wantName, s)
    ensures wantName
  {}
}
