/** The reader fed chunk by chunk, and what its verdict owes to the cutting of
    the stream (destSpy.feed in vair/core/relayspy.go). */
module DestSpies {
  import opened Bytes
  import opened RelaySpy

  datatype Call = OnDest(dest: Dest) | OnName(name: seq<Byte>)

  /** stage 0 reads the request, 1 the first payload, 2 is done. calls is what
      the callbacks have been told, in order. */
  datatype Spy = Spy(buf: seq<Byte>, stage: nat, from: nat, calls: seq<Call>)

  const FRESH := Spy([], 0, 0, [])

  predicate IsAddress(net: GoNet, d: Dest) {
    match d
    case Address(_, _) => true
    case Name(h, _) => net.literalHost(h)
    case Text(t) => net.literalHostPort(t)
  }

  function Done(s: Spy): Spy { Spy([], 2, s.from, s.calls) }

  function AfterPayload(net: GoNet, s: Spy): Spy
    requires s.from <= |s.buf|
  {
    match PayloadName(net, s.buf[s.from..])
    case NeedMore => if |s.buf| >= SPY_MAX then Done(s) else s
    case Found(n) => Done(s.(calls := s.calls + [OnName(n)]))
    case Never => Done(s)
  }

  function AfterRequest(net: GoNet, wantName: bool, s: Spy): Spy {
    match ProxyRequest(net, s.buf)
    case NeedMore => if |s.buf| >= SPY_MAX then Done(s) else s
    case Never => Done(s)
    case Found(r) =>
      RequestFits(net, s.buf);
      var t := s.(calls := s.calls + [OnDest(r.dest)]);
      if !IsAddress(net, r.dest) || !wantName then Done(t)
      else AfterPayload(net, t.(stage := 1, from := r.used))
  }

  predicate Sound(s: Spy) {
    s.stage != 2 ==> |s.buf| < SPY_MAX && s.from <= |s.buf|
  }

  /** One feed. */
  function Fed(net: GoNet, wantName: bool, s: Spy, p: seq<Byte>): Spy
    requires Sound(s)
  {
    if s.stage == 2 then s
    else
      var room := SPY_MAX - |s.buf|;
      var t := s.(buf := s.buf + if |p| > room then p[..room] else p);
      if s.stage == 0 then AfterRequest(net, wantName, t) else AfterPayload(net, t)
  }

  lemma RequestFits(net: GoNet, b: seq<Byte>)
    ensures ProxyRequest(net, b).Found? ==> ProxyRequest(net, b).value.used <= |b|
  {
    if b != [] && b[0] == 5 && Socks5(b).Found? { FoundFits(b); }
  }

  /** Between feeds the buffer has room and the payload starts inside it. */
  lemma FedIsSound(net: GoNet, wantName: bool, s: Spy, p: seq<Byte>)
    requires Sound(s)
    ensures Sound(Fed(net, wantName, s, p))
  {
    if s.stage == 0 {
      var room := SPY_MAX - |s.buf|;
      RequestFits(net, s.buf + if |p| > room then p[..room] else p);
    }
  }

  class DestSpy {
    const net: GoNet
    const wantName: bool
    var buf: seq<Byte>
    var stage: nat
    var from: nat
    var calls: seq<Call>

    ghost function State(): Spy reads this { Spy(buf, stage, from, calls) }

    constructor (net: GoNet, wantName: bool)
      ensures this.net == net && this.wantName == wantName && State() == FRESH
    {
      this.net, this.wantName := net, wantName;
      buf, stage, from, calls := [], 0, 0, [];
    }

    method Feed(p: seq<Byte>)
      requires Sound(State())
      modifies this
      ensures State() == Fed(net, wantName, old(State()), p) && Sound(State())
    {
      hide AfterRequest, AfterPayload;
      FedIsSound(net, wantName, State(), p);
      if stage == 2 { return; }
      var q := p;
      var room := SPY_MAX - |buf|;
      if |q| > room { q := q[..room]; }
      buf := buf + q;
      if stage == 0 { ReadRequest(); } else { ReadPayload(); }
    }

    method ReadRequest()
      modifies this
      ensures State() == AfterRequest(net, wantName, old(State()))
    {
      hide ProxyRequest, AfterPayload;
      var v := ReadProxyRequest(net, buf);
      if v.NeedMore? && |buf| < SPY_MAX { return; }
      if !v.Found? {
        Finish();
        return;
      }
      RequestFits(net, buf);
      calls := calls + [OnDest(v.value.dest)];
      if !IsAddress(net, v.value.dest) || !wantName {
        Finish();
        return;
      }
      stage, from := 1, v.value.used;
      ReadPayload();
    }

    method ReadPayload()
      requires from <= |buf|
      modifies this
      ensures State() == AfterPayload(net, old(State()))
    {
      hide PayloadName;
      var n := ReadPayloadName(net, buf[from..]);
      if n.NeedMore? && |buf| < SPY_MAX { return; }
      if n.Found? { calls := calls + [OnName(n.value)]; }
      Finish();
    }

    method Finish()
      modifies this
      ensures State() == Done(old(State()))
    {
      stage, buf := 2, [];
    }
  }

  // ------------------------------------------------------------ chunks

  function Flatten(chunks: seq<seq<Byte>>): seq<Byte> {
    if chunks == [] then [] else chunks[0] + Flatten(chunks[1..])
  }

  function Run(net: GoNet, wantName: bool, s: Spy, chunks: seq<seq<Byte>>): Spy
    requires Sound(s)
    decreases |chunks|
  {
    if chunks == [] then s
    else
      FedIsSound(net, wantName, s, chunks[0]);
      Run(net, wantName, Fed(net, wantName, s, chunks[0]), chunks[1..])
  }

  /** The part of a stream that is kept for reading. */
  function Kept(s: seq<Byte>): (k: seq<Byte>)
    ensures k <= s && |k| <= SPY_MAX
  {
    if |s| > SPY_MAX then s[..SPY_MAX] else s
  }

  /** A plain-HTTP request by absolute URL: it takes the whole buffer, so where
      its payload starts is up to the cutting. */
  predicate ByUrl(net: GoNet, b: seq<Byte>) {
    b != [] && b[0] != 5 && Find(b, CRLF) >= 0 && ReadLine(net, b[..Find(b, CRLF)]).AbsoluteUrl?
  }

  predicate UrlCarriesPayload(net: GoNet, wantName: bool, s: seq<Byte>) {
    ByUrl(net, Kept(s)) && IsAddress(net, ProxyRequest(net, Kept(s)).value.dest) && wantName
  }

  /** The spy after one feed of a whole stream. */
  function Whole(net: GoNet, wantName: bool, s: seq<Byte>): Spy {
    Fed(net, wantName, FRESH, s)
  }

  /** The first line of an HTTP request can be read: it ends, says where to go,
      and a CONNECT's head ends too. */
  predicate LineReadable(net: GoNet, b: seq<Byte>) {
    var end := Find(b, CRLF);
    end >= 0 &&
    match ReadLine(net, b[..end])
    case Unreadable => false
    case ConnectTo(_) => Find(b, CRLFCRLF) >= 0
    case AbsoluteUrl(_) => true
  }

  /** An HTTP head can be read: it ends, and its first Host line names a host. */
  predicate HostReadable(net: GoNet, p: seq<Byte>) {
    var end := Find(p, CRLFCRLF);
    end >= 0 && FirstHost(net, Lines(p[..end])[1..]).Found?
  }

  /** What is behind a request to an address, when its name is wanted. */
  function ReadForName(net: GoNet, wantName: bool, b: seq<Byte>): seq<Byte> {
    if wantName && ProxyRequest(net, b).Found? && IsAddress(net, ProxyRequest(net, b).value.dest) then b[Used(net, b)..] else []
  }

  /** A stream that meets neither length cut-off where it could still be read: an
      HTTP request whose first line can be read ends that line before byte 2048,
      and an HTTP head that is read for its Host, and can be, ends before byte
      4094 of the payload. */
  predicate Steady(net: GoNet, wantName: bool, s: seq<Byte>) {
    var w := Kept(s);
    var p := ReadForName(net, wantName, w);
    && (w != [] && w[0] != 5 && LineReadable(net, w) ==> Find(w, CRLF) < 2048)
    && (p != [] && p[0] != 0x16 && HostReadable(net, p) ==> Find(p, CRLFCRLF) < 4094)
  }

  function Used(net: GoNet, b: seq<Byte>): (u: nat)
    requires ProxyRequest(net, b).Found?
    ensures u <= |b|
  {
    RequestFits(net, b);
    ProxyRequest(net, b).value.used
  }

  lemma WholeReads(net: GoNet, wantName: bool, a: seq<Byte>)
    ensures Whole(net, wantName, a) == AfterRequest(net, wantName, Spy(Kept(a), 0, 0, []))
    ensures Sound(Whole(net, wantName, a))
  {
    hide AfterRequest;
    FedIsSound(net, wantName, FRESH, a);
    assert [] + a == a && [] + a[..if |a| > SPY_MAX then SPY_MAX else 0] == a[..if |a| > SPY_MAX then SPY_MAX else 0];
  }

  /** What one feed of a whole stream says: the destination when a request is
      found, then the name when what is behind it holds one. */
  lemma CallsAreVerdicts(net: GoNet, wantName: bool, a: seq<Byte>)
    ensures var w, calls := Kept(a), Whole(net, wantName, a).calls;
      && |calls| <= 2
      && (calls != [] <==> ProxyRequest(net, w).Found?)
      && (|calls| == 2 <==> PayloadName(net, ReadForName(net, wantName, w)).Found?)
  {
    hide ProxyRequest, IsAddress, Whole;
    WholeReads(net, wantName, a);
    var w := Kept(a);
    RequestFits(net, w);
    EmptyNamesNothing(net);
    hide PayloadName;
  }

  lemma EmptyNamesNothing(net: GoNet)
    ensures PayloadName(net, []) == NeedMore
  {}

  lemma ReadableLines(net: GoNet, w: seq<Byte>)
    requires w != [] && w[0] != 5
    ensures LineReadable(net, w) <==> ProxyRequest(net, w).Found?
  {
    hide Find, ReadLine;
  }

  lemma ReadableHosts(net: GoNet, p: seq<Byte>)
    requires p != [] && p[0] != 0x16
    ensures HostReadable(net, p) <==> PayloadName(net, p).Found?
  {
    hide Find, Lines, FirstHost;
  }

  /** The condition said with the calls of one feed: whatever it says survives
      the cut-offs. */
  predicate SurvivesCutOffs(net: GoNet, wantName: bool, s: seq<Byte>) {
    var w, calls := Kept(s), Whole(net, wantName, s).calls;
    && (calls != [] && w != [] && w[0] != 5 ==> Find(w, CRLF) < 2048)
    && (|calls| == 2 && ProxyRequest(net, w).Found? ==>
          var p := w[Used(net, w)..];
          p != [] && p[0] != 0x16 ==> Find(p, CRLFCRLF) < 4094)
  }

  lemma SteadyMeans(net: GoNet, wantName: bool, s: seq<Byte>)
    ensures Steady(net, wantName, s) <==> SurvivesCutOffs(net, wantName, s)
  {
    hide Whole, LineReadable, HostReadable, ProxyRequest, PayloadName, Find;
    var w := Kept(s);
    var p := ReadForName(net, wantName, w);
    CallsAreVerdicts(net, wantName, s);
    EmptyNamesNothing(net);
    if w != [] && w[0] != 5 { ReadableLines(net, w); }
    if p != [] && p[0] != 0x16 { ReadableHosts(net, p); }
  }

  // ------------------------------------------------------------ stability

  lemma LineStable(net: GoNet, a: seq<Byte>, w: seq<Byte>)
    requires a <= w && Find(a, CRLF) >= 0
    ensures Find(w, CRLF) == Find(a, CRLF)
    ensures a[..Find(a, CRLF)] == w[..Find(w, CRLF)]
  {
    FindInPrefix(a, w, CRLF);
  }

  /** A request found in a prefix is the one found in the whole. */
  lemma FoundRequestStable(net: GoNet, a: seq<Byte>, w: seq<Byte>)
    requires a <= w && ProxyRequest(net, a).Found?
    ensures ProxyRequest(net, w).Found? && ProxyRequest(net, w).value.dest == ProxyRequest(net, a).value.dest
    ensures ByUrl(net, a) ==> ByUrl(net, w)
    ensures !ByUrl(net, a) ==> ProxyRequest(net, w) == ProxyRequest(net, a)
  {
    if a[0] == 5 {
      SocksStable(a, w);
    } else {
      LineStable(net, a, w);
      FindInPrefix(a, w, CRLFCRLF);
    }
  }

  /** One that is not there by a verdict stays away, unless it was the line
      cut-off that gave it. */
  lemma NeverRequestStable(net: GoNet, a: seq<Byte>, w: seq<Byte>)
    requires a <= w && ProxyRequest(net, a).Never?
    ensures a != []
    ensures ProxyRequest(net, w).Never? || (a[0] != 5 && Find(w, CRLF) >= LINE_CUTOFF)
  {
    if a[0] == 5 {
      SocksStable(a, w);
    } else if Find(a, CRLF) >= 0 {
      LineStable(net, a, w);
    } else {
      FindInPrefix(a, w, CRLF);
    }
  }

  lemma FoundNameStable(net: GoNet, a: seq<Byte>, w: seq<Byte>)
    requires a <= w && PayloadName(net, a).Found?
    ensures PayloadName(net, w) == PayloadName(net, a)
  {
    if a[0] == 0x16 {
      TlsStable(net, a, w);
    } else {
      FindInPrefix(a, w, CRLFCRLF);
      assert a[..Find(a, CRLFCRLF)] == w[..Find(w, CRLFCRLF)];
    }
  }

  lemma NeverNameStable(net: GoNet, a: seq<Byte>, w: seq<Byte>)
    requires a <= w && PayloadName(net, a).Never?
    ensures a != []
    ensures PayloadName(net, w).Never? || (a[0] != 0x16 && Find(w, CRLFCRLF) >= HEAD_CUTOFF - 2)
  {
    if a[0] == 0x16 {
      TlsStable(net, a, w);
    } else {
      FindInPrefix(a, w, CRLFCRLF);
      if Find(a, CRLFCRLF) >= 0 {
        assert a[..Find(a, CRLFCRLF)] == w[..Find(w, CRLFCRLF)];
      }
    }
  }

  // ------------------------------------------------------------ one cut

  /** What the spy says having read a is the beginning of what it says having
      read more: a cut may lose a call, it never makes one up. */
  lemma CallsGrow(net: GoNet, wantName: bool, a: seq<Byte>, w: seq<Byte>)
    requires a <= w && |w| <= SPY_MAX
    requires !UrlCarriesPayload(net, wantName, w)
    ensures Whole(net, wantName, a).calls <= Whole(net, wantName, w).calls
  {
    hide ProxyRequest, PayloadName, ByUrl, Whole;
    WholeReads(net, wantName, a);
    WholeReads(net, wantName, w);
    if ProxyRequest(net, a).Found? {
      FoundRequestStable(net, a, w);
      var r := ProxyRequest(net, a).value;
      if IsAddress(net, r.dest) && wantName {
        RequestFits(net, a);
        assert !ByUrl(net, a);
        assert a[r.used..] <= w[r.used..];
        if PayloadName(net, a[r.used..]).Found? {
          FoundNameStable(net, a[r.used..], w[r.used..]);
        }
      }
    }
  }

  /** A spy that is done having read a says no more having read all of a steady
      stream. */
  lemma DoneIsFinal(net: GoNet, wantName: bool, a: seq<Byte>, w: seq<Byte>)
    requires a <= w && |w| <= SPY_MAX
    requires !UrlCarriesPayload(net, wantName, w)
    requires Steady(net, wantName, w)
    requires Whole(net, wantName, a).stage == 2
    ensures Whole(net, wantName, a).calls == Whole(net, wantName, w).calls
  {
    hide ProxyRequest, PayloadName, ByUrl, Whole, Steady;
    SteadyMeans(net, wantName, w);
    WholeReads(net, wantName, a);
    WholeReads(net, wantName, w);
    if |a| == SPY_MAX {
      assert a == w;
    } else if ProxyRequest(net, a).Never? {
      NeverRequestStable(net, a, w);
    } else {
      assert ProxyRequest(net, a).Found?;
      FoundRequestStable(net, a, w);
      var r := ProxyRequest(net, a).value;
      if IsAddress(net, r.dest) && wantName {
        RequestFits(net, a);
        assert a[r.used..] <= w[r.used..];
        if PayloadName(net, a[r.used..]).Found? {
          FoundNameStable(net, a[r.used..], w[r.used..]);
        } else {
          NeverNameStable(net, a[r.used..], w[r.used..]);
        }
      }
    }
  }

  /** A spy still reading is where one feed of the same bytes would have it. */
  lemma StillReading(net: GoNet, wantName: bool, a: seq<Byte>, p: seq<Byte>)
    requires |a| <= SPY_MAX && Whole(net, wantName, a).stage != 2
    requires !UrlCarriesPayload(net, wantName, a + p)
    requires Sound(Whole(net, wantName, a))
    ensures Fed(net, wantName, Whole(net, wantName, a), p) == Whole(net, wantName, Kept(a + p))
  {
    hide ProxyRequest, PayloadName, ByUrl, Whole;
    WholeReads(net, wantName, a);
    WholeReads(net, wantName, Kept(a + p));
    var s := Whole(net, wantName, a);
    var w := Kept(a + p);
    assert s.buf == a;
    assert a + (if |p| > SPY_MAX - |a| then p[..SPY_MAX - |a|] else p) == w;
    if s.stage == 1 {
      FoundRequestStable(net, a, w);
      assert !ByUrl(net, a);
    }
  }

  // ------------------------------------------------------------ any cutting

  /** Whatever the cuts, the spy ends as after one feed of some prefix of the
      stream, and of all of it unless it was done by then. */
  lemma {:induction false} RunIsOneFeed(net: GoNet, wantName: bool, a0: seq<Byte>, a: seq<Byte>, chunks: seq<seq<Byte>>)
    returns (b0: seq<Byte>)
    requires a0 <= a && |a| <= SPY_MAX
    requires Sound(Whole(net, wantName, a0))
    requires a0 == a || Whole(net, wantName, a0).stage == 2
    requires !UrlCarriesPayload(net, wantName, a + Flatten(chunks))
    ensures b0 <= Kept(a + Flatten(chunks))
    ensures Run(net, wantName, Whole(net, wantName, a0), chunks) == Whole(net, wantName, b0)
    ensures b0 == Kept(a + Flatten(chunks)) || Whole(net, wantName, b0).stage == 2
    decreases |chunks|
  {
    hide Whole, AfterRequest, AfterPayload, UrlCarriesPayload;
    if chunks == [] {
      assert a + Flatten(chunks) == a;
      b0 := a0;
    } else {
      var p, rest := chunks[0], Flatten(chunks[1..]);
      var w := Kept(a + p);
      assert Kept(w + rest) == Kept(a + Flatten(chunks)) by {
        assert a + Flatten(chunks) == (a + p) + rest;
      }
      var c0 := a0;
      if Whole(net, wantName, a0).stage != 2 {
        UrlKept(net, wantName, a + Flatten(chunks), Kept(a + Flatten(chunks)));
        UrlPrefix(net, wantName, w, Kept(a + Flatten(chunks)));
        UrlKept(net, wantName, a + p, w);
        StillReading(net, wantName, a, p);
        c0 := w;
      }
      FedIsSound(net, wantName, Whole(net, wantName, a0), p);
      UrlKept(net, wantName, a + Flatten(chunks), w + rest);
      b0 := RunIsOneFeed(net, wantName, c0, w, chunks[1..]);
    }
  }

  lemma UrlKept(net: GoNet, wantName: bool, s: seq<Byte>, t: seq<Byte>)
    requires Kept(s) == Kept(t)
    ensures UrlCarriesPayload(net, wantName, s) == UrlCarriesPayload(net, wantName, t)
  {}

  lemma UrlPrefix(net: GoNet, wantName: bool, a: seq<Byte>, w: seq<Byte>)
    requires a <= w && |w| <= SPY_MAX
    ensures UrlCarriesPayload(net, wantName, a) ==> UrlCarriesPayload(net, wantName, w)
  {
    if ByUrl(net, a) { FoundRequestStable(net, a, w); }
  }

  lemma NothingRead(net: GoNet, wantName: bool)
    ensures Whole(net, wantName, []) == FRESH
  {}

  lemma RunFromFresh(net: GoNet, wantName: bool, chunks: seq<seq<Byte>>) returns (b0: seq<Byte>)
    requires !UrlCarriesPayload(net, wantName, Flatten(chunks))
    ensures b0 <= Kept(Flatten(chunks))
    ensures Run(net, wantName, FRESH, chunks) == Whole(net, wantName, b0)
    ensures b0 == Kept(Flatten(chunks)) || Whole(net, wantName, b0).stage == 2
  {
    hide Whole, Run, UrlCarriesPayload;
    NothingRead(net, wantName);
    assert [] + Flatten(chunks) == Flatten(chunks);
    b0 := RunIsOneFeed(net, wantName, [], [], chunks);
  }

  /** No cutting of a stream makes the spy say anything that one feed of the
      whole does not say first. */
  lemma CutsNeverInvent(net: GoNet, wantName: bool, chunks: seq<seq<Byte>>)
    requires !UrlCarriesPayload(net, wantName, Flatten(chunks))
    ensures Run(net, wantName, FRESH, chunks).calls <= Whole(net, wantName, Flatten(chunks)).calls
  {
    var s := Flatten(chunks);
    var b0 := RunFromFresh(net, wantName, chunks);
    hide Fed;
    WholeReads(net, wantName, s);
    WholeReads(net, wantName, Kept(s));
    UrlKept(net, wantName, s, Kept(s));
    CallsGrow(net, wantName, b0, Kept(s));
  }

  lemma SteadyRuns(net: GoNet, wantName: bool, chunks: seq<seq<Byte>>)
    requires !UrlCarriesPayload(net, wantName, Flatten(chunks))
    requires Steady(net, wantName, Flatten(chunks))
    ensures Run(net, wantName, FRESH, chunks).calls == Whole(net, wantName, Flatten(chunks)).calls
  {
    var s := Flatten(chunks);
    var b0 := RunFromFresh(net, wantName, chunks);
    hide Fed;
    WholeReads(net, wantName, s);
    WholeReads(net, wantName, Kept(s));
    UrlKept(net, wantName, s, Kept(s));
    if b0 != Kept(s) { DoneIsFinal(net, wantName, b0, Kept(s)); }
  }

  // ------------------------------------------------------------ when cuts matter

  lemma TwoChunks(net: GoNet, wantName: bool, s: seq<Byte>, n: nat) returns (chunks: seq<seq<Byte>>)
    requires n <= |s|
    requires Sound(Whole(net, wantName, s[..n])) && Whole(net, wantName, s[..n]).stage == 2
    ensures Flatten(chunks) == s
    ensures Run(net, wantName, FRESH, chunks).calls == Whole(net, wantName, s[..n]).calls
  {
    hide AfterRequest, AfterPayload;
    chunks := [s[..n], s[n..]];
    assert chunks[1..] == [s[n..]] && chunks[1..][1..] == [];
    assert Flatten([s[n..]]) == s[n..] + Flatten([]) == s[n..];
    var one := Fed(net, wantName, FRESH, chunks[0]);
    assert Run(net, wantName, one, chunks[1..]) == Run(net, wantName, one, []);
  }

  lemma RequestBack(net: GoNet, a: seq<Byte>, w: seq<Byte>)
    requires a <= w && ProxyRequest(net, w).Found? && !ByUrl(net, w)
    requires ProxyRequest(net, w).value.used <= |a| && a != []
    ensures ProxyRequest(net, a) == ProxyRequest(net, w)
  {
    if w[0] == 5 {
      SocksBack(a, w);
    } else {
      var h := Find(w, CRLFCRLF);
      assert MatchAt(w, CRLF, h) by { assert w[h] == w[h..h + 4][0] && w[h + 1] == w[h..h + 4][1]; }
      FindInPrefix(a, w, CRLF);
      FindInPrefix(a, w, CRLFCRLF);
      assert a[..Find(a, CRLF)] == w[..Find(w, CRLF)];
    }
  }

  /** A first line that ends too late: one cut just past the cut-off and
      nothing is read. */
  lemma LateLineLost(net: GoNet, wantName: bool, s: seq<Byte>) returns (chunks: seq<seq<Byte>>)
    requires var w := Kept(s); w != [] && w[0] != 5 && Find(w, CRLF) >= 2048
    ensures Flatten(chunks) == s && Run(net, wantName, FRESH, chunks).calls == []
  {
    var w := Kept(s);
    var a := s[..LINE_CUTOFF + 1];
    assert a <= w;
    FindInPrefix(a, w, CRLF);
    assert ProxyRequest(net, a) == Never;
    WholeReads(net, wantName, a);
    chunks := TwoChunks(net, wantName, s, LINE_CUTOFF + 1);
  }

  /** A payload head that ends too late: one cut and only the destination is
      read. */
  lemma LateHeadLost(net: GoNet, wantName: bool, s: seq<Byte>) returns (chunks: seq<seq<Byte>>)
    requires ProxyRequest(net, Kept(s)).Found? && !ByUrl(net, Kept(s))
    requires var p := Kept(s)[Used(net, Kept(s))..];
             p != [] && p[0] != 0x16 && Find(p, CRLFCRLF) >= 4094
    ensures Flatten(chunks) == s && |Run(net, wantName, FRESH, chunks).calls| <= 1
  {
    var w, u := Kept(s), Used(net, Kept(s));
    var p, n := w[u..], u + HEAD_CUTOFF + 1;
    var a := s[..n];
    assert a <= w && a[u..] <= p;
    assert a != [];
    RequestBack(net, a, w);
    FindInPrefix(a[u..], p, CRLFCRLF);
    assert PayloadName(net, a[u..]) == Never;
    HeadLost(net, wantName, a);
    chunks := TwoChunks(net, wantName, s, n);
  }

  lemma HeadLost(net: GoNet, wantName: bool, a: seq<Byte>)
    requires ProxyRequest(net, a).Found? && |a| <= SPY_MAX
    requires PayloadName(net, a[Used(net, a)..]) == Never
    ensures Whole(net, wantName, a).stage == 2 && |Whole(net, wantName, a).calls| <= 1
    ensures Sound(Whole(net, wantName, a))
  {
    hide ProxyRequest, PayloadName, Whole;
    WholeReads(net, wantName, a);
  }

  /** The calls do not depend on how the stream is cut, empty chunks included,
      exactly when the stream is steady. */
  lemma ChunksDoNotMatterIff(net: GoNet, wantName: bool, s: seq<Byte>)
    requires !UrlCarriesPayload(net, wantName, s)
    ensures Steady(net, wantName, s) <==>
      forall chunks :: Flatten(chunks) == s ==> Run(net, wantName, FRESH, chunks).calls == Whole(net, wantName, s).calls
  {
    hide Run, Whole, ProxyRequest, PayloadName, UrlCarriesPayload;
    if Steady(net, wantName, s) {
      forall chunks | Flatten(chunks) == s
        ensures Run(net, wantName, FRESH, chunks).calls == Whole(net, wantName, s).calls
      {
        SteadyRuns(net, wantName, chunks);
      }
    } else {
      var chunks := UnsteadyCut(net, wantName, s);
      assert Flatten(chunks) == s;
    }
  }

  lemma UnsteadyCut(net: GoNet, wantName: bool, s: seq<Byte>) returns (chunks: seq<seq<Byte>>)
    requires !UrlCarriesPayload(net, wantName, s)
    requires !Steady(net, wantName, s)
    ensures Flatten(chunks) == s && Run(net, wantName, FRESH, chunks).calls != Whole(net, wantName, s).calls
  {
    var w, calls := Kept(s), Whole(net, wantName, s).calls;
    SteadyMeans(net, wantName, s);
    hide Steady;
    if calls != [] && w != [] && w[0] != 5 && Find(w, CRLF) >= LINE_CUTOFF {
      chunks := LateLineLost(net, wantName, s);
    } else {
      NamedNotByUrl(net, wantName, s);
      chunks := LateHeadLost(net, wantName, s);
    }
  }

  lemma NamedNotByUrl(net: GoNet, wantName: bool, s: seq<Byte>)
    requires !UrlCarriesPayload(net, wantName, s)
    requires |Whole(net, wantName, s).calls| == 2
    ensures ProxyRequest(net, Kept(s)).Found? && !ByUrl(net, Kept(s))
  {
    hide ProxyRequest, PayloadName, Whole, ByUrl;
    WholeReads(net, wantName, s);
  }

  /** In one piece the two say the destination, cut between them the name as well. */
  ghost predicate NamedByCut(net: GoNet, a: seq<Byte>, r: seq<Byte>, d: Dest, n: seq<Byte>) {
    && Run(net, true, FRESH, [a + r]).calls == [OnDest(d)]
    && Run(net, true, FRESH, [a, r]).calls == [OnDest(d), OnName(n)]
  }

  /** The excluded family really is excluded: behind a request by absolute URL
      to an address, a ClientHello is named or not by where the cut falls. */
  lemma UrlPayloadDependsOnCut(net: GoNet, line: seq<Byte>, x: Hello, n: seq<Byte>)
    requires line != [] && line[0] != 5 && Find(line + CRLF, CRLF) == |line|
    requires ReadLine(net, line).AbsoluteUrl? && net.literalHostPort(ReadLine(net, line).hostPort)
    requires FitsHello(x) && AsksFor(x, n) && ValidHostName(net, n)
    requires |line| + 2 + |RecordBytes(x)| < SPY_MAX
    ensures NamedByCut(net, line + CRLF, RecordBytes(x), Text(ReadLine(net, line).hostPort), n)
  {
    hide Find, ReadLine, FitsHello, RecordBytes, AsksFor, ValidHostName, TlsName, Run;
    var r := RecordBytes(x);
    TlsRoundTrip(net, x, n, []);
    RecordStarts(x);
    assert r + [] == r;
    TwoCuts(net, line, r, n);
  }

  lemma RecordStarts(x: Hello)
    requires FitsHello(x)
    ensures RecordBytes(x) != [] && RecordBytes(x)[0] == 0x16
  {
    hide FitsHello, HelloBytes;
  }

  lemma TwoCuts(net: GoNet, line: seq<Byte>, r: seq<Byte>, n: seq<Byte>)
    requires line != [] && line[0] != 5 && Find(line + CRLF, CRLF) == |line|
    requires ReadLine(net, line).AbsoluteUrl? && net.literalHostPort(ReadLine(net, line).hostPort)
    requires r != [] && r[0] == 0x16 && TlsName(net, r) == Found(n) && |line| + 2 + |r| < SPY_MAX
    ensures NamedByCut(net, line + CRLF, r, Text(ReadLine(net, line).hostPort), n)
  {
    hide Find, ReadLine, TlsName, Run, Fed, Whole;
    var a, d := line + CRLF, Text(ReadLine(net, line).hostPort);
    assert a[..|line|] == line;
    UrlFeed(net, a, d);
    LineStable(net, a, a + r);
    UrlFeed(net, a + r, d);
    NameFeed(net, a, r, d, n);
    OneRun(net, a + r);
    TwoRun(net, a, r);
  }

  lemma OneRun(net: GoNet, a: seq<Byte>)
    ensures Run(net, true, FRESH, [a]) == Whole(net, true, a)
  {
    hide AfterRequest, AfterPayload;
    WholeReads(net, true, a);
    assert [a][1..] == [];
    assert Run(net, true, Whole(net, true, a), []) == Whole(net, true, a);
  }

  lemma TwoRun(net: GoNet, a: seq<Byte>, r: seq<Byte>)
    requires Sound(Whole(net, true, a))
    ensures Run(net, true, FRESH, [a, r]) == Fed(net, true, Whole(net, true, a), r)
  {
    hide AfterRequest, AfterPayload;
    var chunks := [a, r];
    assert chunks[1..] == [r] && [r][1..] == [];
    FedIsSound(net, true, Whole(net, true, a), r);
    assert Run(net, true, Whole(net, true, a), [r]) == Run(net, true, Fed(net, true, Whole(net, true, a), r), []);
  }

  lemma UrlFeed(net: GoNet, b: seq<Byte>, d: Dest)
    requires b != [] && b[0] != 5 && |b| < SPY_MAX && Find(b, CRLF) >= 0
    requires ReadLine(net, b[..Find(b, CRLF)]).AbsoluteUrl?
    requires d == Text(ReadLine(net, b[..Find(b, CRLF)]).hostPort) && IsAddress(net, d)
    ensures Whole(net, true, b) == Spy(b, 1, |b|, [OnDest(d)])
  {
    WholeReads(net, true, b);
    assert b[|b|..] == [];
  }

  lemma NameFeed(net: GoNet, a: seq<Byte>, r: seq<Byte>, d: Dest, n: seq<Byte>)
    requires |a| + |r| < SPY_MAX && r != [] && r[0] == 0x16 && TlsName(net, r) == Found(n)
    ensures Fed(net, true, Spy(a, 1, |a|, [OnDest(d)]), r).calls == [OnDest(d), OnName(n)]
  {
    assert (a + r)[|a|..] == r;
  }
}
