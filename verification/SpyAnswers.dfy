/** What the reader reports of a connection, end to end: its destination alone, or
    with the name behind it, for every cutting of the stream (destSpy.feed in
    vair/core/relayspy.go). */
module SpyAnswers {
  import opened Bytes
  import opened DestSpies
  import opened RelaySpy

  /** However the stream is cut, these are the calls. */
  ghost predicate Reports(net: GoNet, wantName: bool, s: seq<Byte>, calls: seq<Call>) {
    forall chunks :: Flatten(chunks) == s ==> Run(net, wantName, FRESH, chunks).calls == calls
  }

  /** What can be shown as a host name: 1 to 253 letters, digits, dots, hyphens and
      underscores that are no address. */
  predicate IsHostName(net: GoNet, s: seq<Byte>) {
    && 1 <= |s| <= 253 && !net.parsesIP(s)
    && forall b :: b in s ==>
         var c := b as char;
         'a' <= c <= 'z' || 'A' <= c <= 'Z' || '0' <= c <= '9' || c in ".-_"
  }

  lemma HostNamesAgree(net: GoNet, s: seq<Byte>)
    ensures IsHostName(net, s) <==> ValidHostName(net, s)
  {
    assert forall c: char :: c in ".-_" <==> c == '.' || c == '-' || c == '_';
    if IsHostName(net, s) { assert forall i :: 0 <= i < |s| ==> s[i] in s; }
  }

  /** The calls for a request that is found, by what is behind it. */
  function CallsFor(net: GoNet, wantName: bool, w: seq<Byte>, r: Request): seq<Call>
    requires r.used <= |w|
  {
    if !wantName || !IsAddress(net, r.dest) then [OnDest(r.dest)]
    else
      match PayloadName(net, w[r.used..])
      case Found(n) => [OnDest(r.dest), OnName(n)]
      case _ => [OnDest(r.dest)]
  }

  lemma FoundIsReported(net: GoNet, wantName: bool, s: seq<Byte>, r: Request)
    requires ProxyRequest(net, Kept(s)) == Found(r) && r.used <= |Kept(s)|
    requires Steady(net, wantName, s) && !UrlCarriesPayload(net, wantName, s)
    ensures Reports(net, wantName, s, CallsFor(net, wantName, Kept(s), r))
  {
    hide ProxyRequest, PayloadName, Steady, UrlCarriesPayload, IsAddress, Whole, Run;
    WholeReads(net, wantName, s);
    forall chunks | Flatten(chunks) == s
      ensures Run(net, wantName, FRESH, chunks).calls == CallsFor(net, wantName, Kept(s), r)
    {
      SteadyRuns(net, wantName, chunks);
    }
  }

  // ------------------------------------------------------------ SOCKS5

  lemma HandshakeFits(m: Handshake)
    requires WellFormed(m)
    ensures 0 < |Encoded(m)| <= 1032 && Encoded(m)[0] == 5
  {
    assert |Greeting(m)| <= 257 && |LoginBytes(m)| <= 513 && |ConnectBytes(m)| <= 262;
  }

  /** What is kept of a handshake and what is behind it. */
  lemma HandshakeKept(net: GoNet, m: Handshake, payload: seq<Byte>) returns (q: seq<Byte>)
    requires WellFormed(m)
    ensures q == Kept(Encoded(m) + payload)[|Encoded(m)|..] && Kept(Encoded(m) + payload) == Encoded(m) + q && q <= payload
    ensures ProxyRequest(net, Encoded(m) + q) == Found(Request(DestOf(m), |Encoded(m)|))
    ensures (Encoded(m) + q)[0] == 5
  {
    hide Encoded, Socks5, WellFormed;
    HandshakeFits(m);
    var e := Encoded(m);
    q := Kept(e + payload)[|e|..];
    assert e + q == Kept(e + payload);
    SocksRoundTrip(m, q);
  }

  /** A SOCKS5 stream whose payload is a TLS record is always steady. */
  lemma SocksTlsIsSteady(net: GoNet, wantName: bool, m: Handshake, payload: seq<Byte>)
    requires WellFormed(m) && (payload == [] || payload[0] == 0x16)
    ensures Steady(net, wantName, Encoded(m) + payload)
    ensures !UrlCarriesPayload(net, wantName, Encoded(m) + payload)
  {
    hide Encoded, WellFormed, ProxyRequest, LineReadable, HostReadable, IsAddress;
    var q := HandshakeKept(net, m, payload);
    assert (Encoded(m) + q)[|Encoded(m)|..] == q;
  }

  lemma SocksUnreadIsSteady(net: GoNet, wantName: bool, m: Handshake, payload: seq<Byte>)
    requires WellFormed(m) && !(wantName && IsAddress(net, DestOf(m)))
    ensures Steady(net, wantName, Encoded(m) + payload)
    ensures !UrlCarriesPayload(net, wantName, Encoded(m) + payload)
  {
    hide Encoded, WellFormed, ProxyRequest, LineReadable, HostReadable, IsAddress;
    var q := HandshakeKept(net, m, payload);
  }

  /** A SOCKS5 connection to a name, or one whose name nobody wants: however it and
      whatever is behind it are cut, its destination and nothing else. */
  lemma SocksNameAlone(net: GoNet, wantName: bool, m: Handshake, payload: seq<Byte>)
    requires WellFormed(m) && (wantName ==> m.target.Domain? && !net.literalHost(m.target.domain))
    ensures Reports(net, wantName, Encoded(m) + payload, [OnDest(DestOf(m))])
  {
    hide Encoded, WellFormed, ProxyRequest, Steady, UrlCarriesPayload, Run;
    var q := HandshakeKept(net, m, payload);
    SocksUnreadIsSteady(net, wantName, m, payload);
    FoundIsReported(net, wantName, Encoded(m) + payload, Request(DestOf(m), |Encoded(m)|));
  }

  /** A SOCKS5 connection to an address, or to a name that is one spelled out, and
      the ClientHello behind it: however they are cut, the destination and then
      the name asked for, if it can be a host name. */
  lemma SocksTlsNamed(net: GoNet, m: Handshake, x: Hello, n: seq<Byte>, rest: seq<Byte>)
    requires WellFormed(m) && (m.target.Domain? ==> net.literalHost(m.target.domain))
    requires FitsHello(x) && AsksFor(x, n) && |Encoded(m)| + |RecordBytes(x)| <= 8192
    ensures Reports(net, true, Encoded(m) + (RecordBytes(x) + rest),
                    [OnDest(DestOf(m))] + if IsHostName(net, n) then [OnName(n)] else [])
  {
    hide Encoded, RecordBytes, WellFormed, FitsHello, AsksFor, ValidHostName, IsHostName, TlsName, ProxyRequest, Steady,
      UrlCarriesPayload, Run;
    var e, r := Encoded(m), RecordBytes(x);
    RecordStarts(x);
    var q := HandshakeKept(net, m, r + rest);
    SocksTlsIsSteady(net, true, m, r + rest);
    FoundIsReported(net, true, e + (r + rest), Request(DestOf(m), |e|));
    KeptRecord(net, x, n, rest, q);
    assert (e + q)[|e|..] == q;
    HostNamesAgree(net, n);
  }

  /** The name in what is kept of a ClientHello. */
  lemma KeptRecord(net: GoNet, x: Hello, n: seq<Byte>, rest: seq<Byte>, q: seq<Byte>)
    requires FitsHello(x) && AsksFor(x, n) && |RecordBytes(x)| <= |q| && q <= RecordBytes(x) + rest
    ensures PayloadName(net, q) == if ValidHostName(net, n) then Found(n) else Never
  {
    hide RecordBytes, FitsHello, AsksFor, ValidHostName, TlsName;
    RecordStarts(x);
    TlsRoundTrip(net, x, n, q[|RecordBytes(x)|..]);
    assert RecordBytes(x) + q[|RecordBytes(x)|..] == q;
  }

  // ------------------------------------------------------------ HTTP

  /** A CONNECT request in whole lines to an authority, its head within the 8192
      bytes that are kept and its first line ending before byte 2048. */
  predicate ConnectsTo(net: GoNet, lines: seq<seq<Byte>>, authority: seq<Byte>) {
    && GoodHead(lines) && lines[0][0] != 5 && |lines[0]| < 2048 && |HeadBytes(lines)| <= 8192
    && var f := net.fields(lines[0]);
       |f| >= 2 && net.isConnect(f[0]) && net.splits(f[1]) && f[1] == authority
  }

  lemma HeadKept(net: GoNet, lines: seq<seq<Byte>>, authority: seq<Byte>, payload: seq<Byte>) returns (q: seq<Byte>)
    requires ConnectsTo(net, lines, authority)
    ensures q == Kept(HeadBytes(lines) + payload)[|HeadBytes(lines)|..]
    ensures Kept(HeadBytes(lines) + payload) == HeadBytes(lines) + q && q <= payload
    ensures var w := HeadBytes(lines) + q;
      && w != [] && w[0] != 5 && Find(w, CRLF) < 2048 && !ByUrl(net, w)
      && ProxyRequest(net, w) == Found(Request(Text(authority), |HeadBytes(lines)|))
  {
    hide HeadBytes, Find;
    var e := HeadBytes(lines);
    q := Kept(e + payload)[|e|..];
    assert e + q == Kept(e + payload);
    FirstLineOfHead(lines, q);
    ConnectRoundTrip(net, lines, q);
    hide ProxyRequest;
  }

  lemma ConnectIsSteady(net: GoNet, wantName: bool, lines: seq<seq<Byte>>, authority: seq<Byte>, payload: seq<Byte>)
    requires ConnectsTo(net, lines, authority)
    requires !wantName || !net.literalHostPort(authority) || payload == [] || payload[0] == 0x16
    ensures Steady(net, wantName, HeadBytes(lines) + payload)
    ensures !UrlCarriesPayload(net, wantName, HeadBytes(lines) + payload)
  {
    hide HeadBytes, ProxyRequest, LineReadable, HostReadable, ByUrl, Find;
    var q := HeadKept(net, lines, authority, payload);
    assert (HeadBytes(lines) + q)[|HeadBytes(lines)|..] == q;
  }

  /** A CONNECT to a name, or one whose name nobody wants: its authority and nothing
      else, for every cutting. */
  lemma ConnectNameAlone(net: GoNet, wantName: bool, lines: seq<seq<Byte>>, authority: seq<Byte>, payload: seq<Byte>)
    requires ConnectsTo(net, lines, authority) && (wantName ==> !net.literalHostPort(authority))
    ensures Reports(net, wantName, HeadBytes(lines) + payload, [OnDest(Text(authority))])
  {
    hide HeadBytes, ProxyRequest, Steady, UrlCarriesPayload, Run;
    var q := HeadKept(net, lines, authority, payload);
    ConnectIsSteady(net, wantName, lines, authority, payload);
    FoundIsReported(net, wantName, HeadBytes(lines) + payload, Request(Text(authority), |HeadBytes(lines)|));
  }

  /** A CONNECT to an address and the ClientHello behind it: the authority and then
      the name asked for, if it can be a host name. */
  lemma ConnectTlsNamed(net: GoNet, lines: seq<seq<Byte>>, authority: seq<Byte>, x: Hello, n: seq<Byte>, rest: seq<Byte>)
    requires ConnectsTo(net, lines, authority) && net.literalHostPort(authority)
    requires FitsHello(x) && AsksFor(x, n) && |HeadBytes(lines)| + |RecordBytes(x)| <= 8192
    ensures Reports(net, true, HeadBytes(lines) + (RecordBytes(x) + rest),
                    [OnDest(Text(authority))] + if IsHostName(net, n) then [OnName(n)] else [])
  {
    hide HeadBytes, RecordBytes, FitsHello, AsksFor, ValidHostName, IsHostName, TlsName, ProxyRequest, Steady,
      UrlCarriesPayload, Run;
    var e, r := HeadBytes(lines), RecordBytes(x);
    RecordStarts(x);
    var q := HeadKept(net, lines, authority, r + rest);
    ConnectIsSteady(net, true, lines, authority, r + rest);
    FoundIsReported(net, true, e + (r + rest), Request(Text(authority), |e|));
    KeptRecord(net, x, n, rest, q);
    assert (e + q)[|e|..] == q;
    HostNamesAgree(net, n);
  }

  /** A request by absolute URL to a name, its line ending before byte 2048: its
      authority, with port 80 when it names none, and nothing else. */
  lemma UrlNameAlone(net: GoNet, wantName: bool, line: seq<Byte>, scheme: seq<Byte>, authority: seq<Byte>, tail: seq<Byte>,
                     rest: seq<Byte>)
    requires line != [] && OneLine(line) && line[0] != 5 && |line| < 2048 && GoodUrl(scheme, authority, tail)
    requires var f := net.fields(line); |f| >= 2 && !net.isConnect(f[0]) && f[1] == UrlBytes(scheme, authority, tail)
    requires wantName ==> !net.literalHostPort(if net.splits(authority) then authority else authority + [58, 56, 48])
    ensures Reports(net, wantName, line + (CRLF + rest),
                    [OnDest(Text(if net.splits(authority) then authority else authority + [58, 56, 48]))])
  {
    hide OneLine, UrlBytes, GoodUrl, Steady, UrlCarriesPayload, Find, ReadLine, Run;
    var s, d := line + (CRLF + rest), Text(if net.splits(authority) then authority else authority + [58, 56, 48]);
    var q := Kept(s)[|line| + 2..];
    assert Kept(s) == line + (CRLF + q);
    UrlRoundTrip(net, line, scheme, authority, tail, q);
    LineEndsAt(line, q);
    UrlIsSteady(net, wantName, s);
    FoundIsReported(net, wantName, s, Request(d, |Kept(s)|));
  }

  lemma UrlIsSteady(net: GoNet, wantName: bool, s: seq<Byte>)
    requires var w := Kept(s); w != [] && w[0] != 5 && Find(w, CRLF) < 2048 && ProxyRequest(net, w).Found?
    requires !wantName || !IsAddress(net, ProxyRequest(net, Kept(s)).value.dest)
    ensures Steady(net, wantName, s) && !UrlCarriesPayload(net, wantName, s)
  {
    hide ProxyRequest, LineReadable, HostReadable, IsAddress, Find;
  }

  /** A SOCKS5 connection to an address and an HTTP request behind it, its head
      ending before byte 4094: the destination and then the value of its first Host
      line, without the spaces around it and without a port, if that can be a host
      name. */
  lemma SocksHostNamed(net: GoNet, m: Handshake, lines: seq<seq<Byte>>, k: nat, key: seq<Byte>, value: seq<Byte>,
                       rest: seq<Byte>)
    requires WellFormed(m) && (m.target.Domain? ==> net.literalHost(m.target.domain))
    requires GoodHead(lines) && lines[0][0] != 0x16 && HostAt(net, lines, k, key, value) && |HeadBytes(lines)| < 4098
    ensures var v := net.trimmed(value);
      var host := if net.splits(v) then net.hostPart(v) else v;
      Reports(net, true, Encoded(m) + (HeadBytes(lines) + rest),
              [OnDest(DestOf(m))] + if IsHostName(net, host) then [OnName(host)] else [])
  {
    hide Encoded, HeadBytes, WellFormed, HostAt, ValidHostName, IsHostName, PayloadName, ProxyRequest, Steady,
      UrlCarriesPayload, Run, Find;
    var e, h := Encoded(m), HeadBytes(lines);
    var q := HandshakeKept(net, m, h + rest);
    HandshakeFits(m);
    HeadLength(lines);
    HeadFound(lines, q[|h|..]);
    FirstLineOfHead(lines, q[|h|..]);
    assert h + q[|h|..] == q && (e + q)[|e|..] == q;
    SocksHttpIsSteady(net, m, h + rest);
    FoundIsReported(net, true, e + (h + rest), Request(DestOf(m), |e|));
    HostRoundTrip(net, lines, k, key, value, q[|h|..]);
    HostNamesAgree(net, HostOf(net, value));
  }

  lemma SocksHttpIsSteady(net: GoNet, m: Handshake, payload: seq<Byte>)
    requires WellFormed(m)
    requires var q := Kept(Encoded(m) + payload)[|Encoded(m)|..]; Find(q, CRLFCRLF) < 4094
    ensures Steady(net, true, Encoded(m) + payload)
    ensures !UrlCarriesPayload(net, true, Encoded(m) + payload)
  {
    hide Encoded, WellFormed, ProxyRequest, LineReadable, HostReadable, IsAddress, Find;
    var q := HandshakeKept(net, m, payload);
    assert (Encoded(m) + q)[|Encoded(m)|..] == q;
  }

  /** What is behind the first "://" of a URL is no authority, or there is none. */
  predicate NoAuthority(u: seq<Byte>) {
    var i := Find(u, [58, 47, 47]);
    i < 0 || i + 3 == |u| || u[i + 3] == 47 || u[i + 3] == 63
  }

  /** A first line that says no destination: less than two words, a CONNECT to what is
      no host and port, or another method with a URL that names nothing. */
  predicate RefusedLine(net: GoNet, line: seq<Byte>) {
    var f := net.fields(line);
    |f| < 2 || if net.isConnect(f[0]) then !net.splits(f[1]) else NoAuthority(f[1])
  }

  lemma RefusedIsUnreadable(net: GoNet, line: seq<Byte>)
    requires RefusedLine(net, line)
    ensures ReadLine(net, line).Unreadable?
  {
    hide Find;
    var f := net.fields(line);
    if |f| >= 2 && !net.isConnect(f[0]) { FoundEnds(f[1]); }
  }

  lemma FoundEnds(u: seq<Byte>)
    ensures Find(u, [58, 47, 47]) < 0 || Find(u, [58, 47, 47]) + 3 <= |u|
  {}

  lemma RefusedNotFound(net: GoNet, line: seq<Byte>, rest: seq<Byte>, w: seq<Byte>)
    requires OneLine(line) && (line == [] || line[0] != 5) && RefusedLine(net, line) && w <= line + (CRLF + rest)
    ensures !ProxyRequest(net, w).Found? && !ByUrl(net, w)
  {
    hide Find, ReadLine, RefusedLine;
    var s := line + (CRLF + rest);
    LineEndsAt(line, rest);
    FindInPrefix(w, s, CRLF);
    RefusedIsUnreadable(net, line);
    if Find(w, CRLF) >= 0 { assert w[..|line|] == s[..|line|] == line; }
  }

  /** Of such a request nothing is reported, however it and whatever follows it are
      cut. */
  lemma RefusedSaysNothing(net: GoNet, wantName: bool, line: seq<Byte>, rest: seq<Byte>)
    requires OneLine(line) && (line == [] || line[0] != 5) && RefusedLine(net, line)
    ensures Reports(net, wantName, line + (CRLF + rest), [])
  {
    hide OneLine, RefusedLine, ProxyRequest, ByUrl, Whole, Run;
    var s := line + (CRLF + rest);
    RefusedNotFound(net, line, rest, Kept(s));
    CallsAreVerdicts(net, wantName, s);
    forall chunks | Flatten(chunks) == s ensures Run(net, wantName, FRESH, chunks).calls == [] {
      CutsNeverInvent(net, wantName, chunks);
    }
  }

  // ------------------------------------------------------------ the limit

  /** A spy that is still reading holds all it was fed. */
  lemma {:induction false} ReadingHoldsAll(net: GoNet, wantName: bool, s: Spy, chunks: seq<seq<Byte>>)
    requires Sound(s) && (s.stage == 2 ==> s.buf == [])
    ensures var t := Run(net, wantName, s, chunks);
      if t.stage == 2 then t.buf == [] else s.stage != 2 && t.buf == s.buf + Flatten(chunks) && |t.buf| < 8192
    decreases |chunks|
  {
    hide AfterRequest, AfterPayload;
    if chunks == [] {
    } else {
      FedIsSound(net, wantName, s, chunks[0]);
      FedHoldsAll(net, wantName, s, chunks[0]);
      var t := Fed(net, wantName, s, chunks[0]);
      hide Fed;
      ReadingHoldsAll(net, wantName, t, chunks[1..]);
      if s.stage != 2 { assert (s.buf + chunks[0]) + Flatten(chunks[1..]) == s.buf + Flatten(chunks); }
    }
  }

  lemma FedHoldsAll(net: GoNet, wantName: bool, s: Spy, p: seq<Byte>)
    requires Sound(s) && (s.stage == 2 ==> s.buf == [])
    ensures var t := Fed(net, wantName, s, p);
      if t.stage == 2 then t.buf == [] else s.stage != 2 && t.buf == s.buf + p
  {
    hide ProxyRequest, PayloadName, IsAddress;
    RequestFits(net, s.buf + if |p| > SPY_MAX - |s.buf| then p[..SPY_MAX - |s.buf|] else p);
  }

  /** No more than 8192 bytes are read of any stream: by then the spy is done. */
  lemma GivesUpInTime(net: GoNet, wantName: bool, chunks: seq<seq<Byte>>)
    ensures var t := Run(net, wantName, FRESH, chunks);
      |t.buf| < 8192 && (|Flatten(chunks)| >= 8192 ==> t.stage == 2)
  {
    hide Run;
    ReadingHoldsAll(net, wantName, FRESH, chunks);
    assert FRESH.buf + Flatten(chunks) == Flatten(chunks);
  }
}
