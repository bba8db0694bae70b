/** The destination reader of the counting relay (vair/core/relayspy.go): the
    client's bytes arrive in arbitrary chunks and are read for the destination
    of the request and, when that is a bare address, for the name behind it. */
module RelaySpy {
  import opened Bytes

  datatype Verdict<+T> = NeedMore | Never | Found(value: T)

  /** A destination: an address or a name out of a SOCKS5 request, or the text
      of an HTTP one. */
  datatype Dest =
    | Address(ip: seq<Byte>, addressPort: nat)
    | Name(host: seq<Byte>, namePort: nat)
    | Text(text: seq<Byte>)

  /** A request that has been read: where it goes and how many bytes it took. */
  datatype Request = Request(dest: Dest, used: nat)

  /** What the reader takes from Go's net and strings packages. */
  datatype GoNet = GoNet(
    parsesIP: seq<Byte> -> bool,               // net.ParseIP(s) != nil
    literalHost: seq<Byte> -> bool,            // the same, of a SOCKS5 name joined with its port and split again
    literalHostPort: seq<Byte> -> bool,        // the same, of the host part of a "host:port" text
    splits: seq<Byte> -> bool,                 // net.SplitHostPort succeeds
    hostPart: seq<Byte> -> seq<Byte>,          // the host it returns
    fields: seq<Byte> -> seq<seq<Byte>>,       // strings.Fields
    isConnect: seq<Byte> -> bool,              // strings.EqualFold(s, "CONNECT")
    isHostKey: seq<Byte> -> bool,              // strings.EqualFold(strings.TrimSpace(s), "host")
    trimmed: seq<Byte> -> seq<Byte>)           // strings.TrimSpace

  const SPY_MAX := 8192
  const LINE_CUTOFF := 2048
  const HEAD_CUTOFF := 4096
  const CRLF: seq<Byte> := [13, 10]
  const CRLFCRLF: seq<Byte> := [13, 10, 13, 10]
  const SCHEME_END: seq<Byte> := [58, 47, 47]
  const COLON_80: seq<Byte> := [58, 56, 48]

  // ------------------------------------------------------------ SOCKS5

  /** Where the request starts, given where the login or the request does. */
  function LoginEnd(b: seq<Byte>, off: nat): Verdict<nat>
    requires off < |b|
  {
    if b[off] != 1 then Found(off)
    else if |b| < off + 2 then NeedMore
    else if |b| < off + 3 + U8(b, off + 1) then NeedMore
    else
      var end := off + 3 + U8(b, off + 1) + U8(b, off + 2 + U8(b, off + 1));
      if |b| < end + 1 then NeedMore else Found(end)
  }

  function ConnectAt(b: seq<Byte>, off: nat): Verdict<Request> {
    if |b| < off + 4 then NeedMore
    else if b[off] != 5 || b[off + 1] != 1 then Never
    else if b[off + 3] == 1 then
      if |b| < off + 10 then NeedMore
      else Found(Request(Address(b[off + 4..off + 8], U16(b, off + 8)), off + 10))
    else if b[off + 3] == 3 then
      if |b| < off + 5 || |b| < off + 7 + U8(b, off + 4) then NeedMore
      else
        var end := off + 5 + U8(b, off + 4);
        Found(Request(Name(b[off + 5..end], U16(b, end)), end + 2))
    else if b[off + 3] == 4 then
      if |b| < off + 22 then NeedMore
      else Found(Request(Address(b[off + 4..off + 20], U16(b, off + 20)), off + 22))
    else Never
  }

  function Socks5(b: seq<Byte>): Verdict<Request> {
    if |b| < 2 || |b| < 3 + U8(b, 1) then NeedMore
    else
      match LoginEnd(b, 2 + U8(b, 1))
      case Found(off) => ConnectAt(b, off)
      case _ => NeedMore
  }

  /** The client's side of a handshake, as RFC 1928 (sections 3 to 5) and
      RFC 1929 (section 2) lay it out. */
  datatype Login = NoLogin | Login(user: seq<Byte>, password: seq<Byte>)
  datatype Target = IPv4(v4: seq<Byte>) | IPv6(v6: seq<Byte>) | Domain(domain: seq<Byte>)
  datatype Handshake = Handshake(methods: seq<Byte>, login: Login, reserved: Byte, target: Target, port: nat)

  predicate WellFormed(m: Handshake) {
    && |m.methods| < 256
    && m.port < 65536
    && (m.login.Login? ==> |m.login.user| < 256 && |m.login.password| < 256)
    && (m.target.IPv4? ==> |m.target.v4| == 4)
    && (m.target.IPv6? ==> |m.target.v6| == 16)
    && (m.target.Domain? ==> |m.target.domain| < 256)
  }

  function Greeting(m: Handshake): seq<Byte> requires WellFormed(m) {
    [5, |m.methods|] + m.methods
  }

  function LoginBytes(m: Handshake): seq<Byte> requires WellFormed(m) {
    match m.login
    case NoLogin => []
    case Login(u, p) => [1, |u|] + u + [|p|] + p
  }

  function TargetBytes(t: Target): seq<Byte>
    requires t.Domain? ==> |t.domain| < 256
  {
    match t
    case IPv4(a) => [1] + a
    case IPv6(a) => [4] + a
    case Domain(d) => [3, |d|] + d
  }

  function ConnectBytes(m: Handshake): seq<Byte> requires WellFormed(m) {
    [5, 1, m.reserved] + TargetBytes(m.target) + Be16(m.port)
  }

  function Encoded(m: Handshake): seq<Byte> requires WellFormed(m) {
    Greeting(m) + LoginBytes(m) + ConnectBytes(m)
  }

  function DestOf(m: Handshake): Dest {
    match m.target
    case IPv4(a) => Address(a, m.port)
    case IPv6(a) => Address(a, m.port)
    case Domain(d) => Name(d, m.port)
  }

  lemma ConnectRead(b: seq<Byte>, p: nat, m: Handshake)
    requires WellFormed(m) && At(b, p, ConnectBytes(m))
    ensures ConnectAt(b, p) == Found(Request(DestOf(m), p + |ConnectBytes(m)|))
    ensures p < |b| && b[p] == 5
  {
    hide At, U8, U16, Be16, ConnectBytes, TargetBytes;
    ConnectParts(b, p, m);
    TargetFits(b, p + 3, m.target);
    TargetRead(b, p + 3, m.target);
    if m.target.IPv4? { AtIs(b, p + 4, m.target.v4); }
    if m.target.IPv6? { AtIs(b, p + 4, m.target.v6); }
    if m.target.Domain? { AtIs(b, p + 5, m.target.domain); }
  }

  lemma ConnectNested(m: Handshake)
    requires WellFormed(m)
    ensures var t := TargetBytes(m.target);
      && |ConnectBytes(m)| == 5 + |t|
      && ConnectBytes(m) == [5] + ([1] + ([m.reserved] + (t + Be16(m.port))))
  {
    hide TargetBytes, Be16;
  }

  lemma TargetFits(b: seq<Byte>, p: nat, t: Target)
    requires t.Domain? ==> |t.domain| < 256
    requires At(b, p, TargetBytes(t))
    ensures p + |TargetBytes(t)| <= |b|
    ensures |TargetBytes(t)| == match t case IPv4(a) => 1 + |a| case IPv6(a) => 1 + |a| case Domain(d) => 2 + |d|
  {}

  lemma ConnectParts(b: seq<Byte>, p: nat, m: Handshake)
    requires WellFormed(m) && At(b, p, ConnectBytes(m))
    ensures var t := TargetBytes(m.target);
      && |ConnectBytes(m)| == 5 + |t| && p + 5 + |t| <= |b|
      && b[p] == 5 && b[p + 1] == 1 && At(b, p + 3, t) && U16(b, p + 3 + |t|) == m.port
  {
    hide At, U16, Be16, TargetBytes, ConnectBytes;
    ConnectNested(m);
    var t := TargetBytes(m.target);
    AtSplit(b, p, [5], [1] + ([m.reserved] + (t + Be16(m.port))));
    AtSplit(b, p + 1, [1], [m.reserved] + (t + Be16(m.port)));
    AtSplit(b, p + 2, [m.reserved], t + Be16(m.port));
    AtSplit(b, p + 3, t, Be16(m.port));
    AtU8(b, p, 5);
    AtU8(b, p + 1, 1);
    AtFits(b, p + 3 + |t|, Be16(m.port));
    AtPort(b, p + 3 + |t|, m);
  }

  lemma AtPort(b: seq<Byte>, p: nat, m: Handshake)
    requires WellFormed(m) && At(b, p, Be16(m.port))
    ensures U16(b, p) == m.port
  {
    AtU16(b, p, m.port);
  }

  lemma TargetRead(b: seq<Byte>, p: nat, t: Target)
    requires t.Domain? ==> |t.domain| < 256
    requires At(b, p, TargetBytes(t))
    ensures b[p] == if t.IPv4? then 1 else if t.IPv6? then 4 else 3
    ensures t.IPv4? ==> At(b, p + 1, t.v4)
    ensures t.IPv6? ==> At(b, p + 1, t.v6)
    ensures t.Domain? ==> At(b, p + 1, [|t.domain|]) && U8(b, p + 1) == |t.domain| && At(b, p + 2, t.domain)
  {
    hide At, U8;
    match t
    case IPv4(a) => AtSplit(b, p, [1], a); AtU8(b, p, 1);
    case IPv6(a) => AtSplit(b, p, [4], a); AtU8(b, p, 4);
    case Domain(d) =>
      assert [3, |d|] + d == [3] + ([|d|] + d);
      AtSplit(b, p, [3], [|d|] + d);
      AtSplit(b, p + 1, [|d|], d);
      AtU8(b, p, 3);
      AtU8(b, p + 1, |d|);
  }

  lemma LoginRead(b: seq<Byte>, p: nat, m: Handshake)
    requires WellFormed(m) && At(b, p, LoginBytes(m))
    requires p + |LoginBytes(m)| < |b| && b[p + |LoginBytes(m)|] == 5
    ensures LoginEnd(b, p) == Found(p + |LoginBytes(m)|)
  {
    hide At, U8, WellFormed, LoginBytes;
    if m.login.Login? { LoginParts(b, p, m); } else { NoLoginBytes(m); }
  }

  lemma NoLoginBytes(m: Handshake)
    requires WellFormed(m) && m.login.NoLogin?
    ensures LoginBytes(m) == []
  {}

  lemma LoginNested(m: Handshake)
    requires WellFormed(m) && m.login.Login?
    ensures |m.login.user| < 256 && |m.login.password| < 256
    ensures var u, q := m.login.user, m.login.password;
      && |LoginBytes(m)| == 3 + |u| + |q|
      && LoginBytes(m) == [1] + ([|u|] + (u + ([|q|] + q)))
  {}

  lemma LoginParts(b: seq<Byte>, p: nat, m: Handshake)
    requires WellFormed(m) && m.login.Login? && At(b, p, LoginBytes(m))
    ensures var u, q := |m.login.user|, |m.login.password|;
      && |LoginBytes(m)| == 3 + u + q && p + 3 + u + q <= |b|
      && b[p] == 1 && U8(b, p + 1) == u && U8(b, p + 2 + u) == q
  {
    hide At, LoginBytes, WellFormed;
    LoginNested(m);
    var u, q := m.login.user, m.login.password;
    AtFits(b, p, LoginBytes(m));
    AtSplit(b, p, [1], [|u|] + (u + ([|q|] + q)));
    AtSplit(b, p + 1, [|u|], u + ([|q|] + q));
    AtSplit(b, p + 2, u, [|q|] + q);
    AtSplit(b, p + 2 + |u|, [|q|], q);
    AtU8(b, p, 1);
    AtU8(b, p + 1, |u|);
    AtU8(b, p + 2 + |u|, |q|);
  }

  /** socks5Request undoes the encoder, whatever follows the handshake. */
  lemma SocksRoundTrip(m: Handshake, rest: seq<Byte>)
    requires WellFormed(m)
    ensures Socks5(Encoded(m) + rest) == Found(Request(DestOf(m), |Encoded(m)|))
  {
    hide At, U8, U16, WellFormed, Greeting, LoginBytes, ConnectBytes, ConnectAt, LoginEnd;
    var g, l, c := Greeting(m), LoginBytes(m), ConnectBytes(m);
    var b := Encoded(m) + rest;
    AtStart(Encoded(m), rest);
    AtSplit(b, 0, g + l, c);
    AtSplit(b, 0, g, l);
    GreetingRead(b, m);
    ConnectRead(b, |g + l|, m);
    LoginRead(b, |g|, m);
  }

  lemma GreetingRead(b: seq<Byte>, m: Handshake)
    requires WellFormed(m) && At(b, 0, Greeting(m))
    ensures |b| >= 2 && U8(b, 1) == |m.methods| && |Greeting(m)| == 2 + |m.methods|
  {
    hide At;
    assert Greeting(m) == [5] + ([|m.methods|] + m.methods);
    AtSplit(b, 0, [5], [|m.methods|] + m.methods);
    AtSplit(b, 1, [|m.methods|], m.methods);
    AtU8(b, 1, |m.methods|);
  }

  /** The handshake a found request was read from. */
  function Decoded(b: seq<Byte>): Handshake
    requires Socks5(b).Found?
  {
    var g := 2 + U8(b, 1);
    var off := LoginEnd(b, g).value;
    var login :=
      if b[g] != 1 then NoLogin
      else Login(b[g + 2..g + 2 + U8(b, g + 1)], b[g + 3 + U8(b, g + 1)..off]);
    Handshake(b[2..g], login, b[off + 2], TargetAt(b, off), U16(b, Socks5(b).value.used - 2))
  }

  function TargetAt(b: seq<Byte>, off: nat): (t: Target)
    requires ConnectAt(b, off).Found?
    ensures t.Domain? ==> |t.domain| < 256
  {
    if b[off + 3] == 1 then IPv4(b[off + 4..off + 8])
    else if b[off + 3] == 3 then Domain(b[off + 5..off + 5 + U8(b, off + 4)])
    else IPv6(b[off + 4..off + 20])
  }

  lemma LoginDecoded(b: seq<Byte>, g: nat)
    requires g < |b| && b[g] == 1 && LoginEnd(b, g).Found?
    ensures var off := LoginEnd(b, g).value;
            [1, b[g + 1]] + b[g + 2..g + 2 + U8(b, g + 1)] + [b[g + 2 + U8(b, g + 1)]]
            + b[g + 3 + U8(b, g + 1)..off] == b[g..off]
  {
    var off, u := LoginEnd(b, g).value, g + 2 + U8(b, g + 1);
    assert [1, b[g + 1]] == b[g..g + 2];
    assert [b[u]] == b[u..u + 1];
    SplitAt(b, g, g + 2, u);
    SplitAt(b, g, u, u + 1);
    SplitAt(b, g, u + 1, off);
  }

  lemma TargetDecoded(b: seq<Byte>, off: nat)
    requires ConnectAt(b, off).Found?
    ensures TargetBytes(TargetAt(b, off)) == b[off + 3..ConnectAt(b, off).value.used - 2]
  {
    assert [b[off + 3]] == b[off + 3..off + 4];
    match TargetAt(b, off)
    case IPv4(_) => SplitAt(b, off + 3, off + 4, off + 8);
    case IPv6(_) => SplitAt(b, off + 3, off + 4, off + 20);
    case Domain(d) =>
      assert [b[off + 3], b[off + 4]] == b[off + 3..off + 5];
      SplitAt(b, off + 3, off + 5, off + 5 + |d|);
  }

  lemma U16Decoded(b: seq<Byte>, i: nat)
    requires i + 2 <= |b|
    ensures Be16(U16(b, i)) == b[i..i + 2]
  {
    HighAndLow(b[i], b[i + 1]);
    assert b[i..i + 2] == [b[i], b[i + 1]];
  }

  lemma HighAndLow(high: Byte, low: Byte)
    ensures (high * 256 + low) / 256 == high && (high * 256 + low) % 256 == low
  {}

  lemma GreetingDecoded(b: seq<Byte>)
    requires |b| >= 2 && b[0] == 5 && |b| >= 2 + U8(b, 1)
    ensures [5, b[1]] + b[2..2 + U8(b, 1)] == b[..2 + U8(b, 1)]
  {}

  lemma ConnectDecoded(b: seq<Byte>, off: nat, target: seq<Byte>)
    requires ConnectAt(b, off).Found?
    requires ConnectAt(b, off).value.used <= |b|
    requires target == b[off + 3..ConnectAt(b, off).value.used - 2]
    ensures var used := ConnectAt(b, off).value.used;
            [5, 1, b[off + 2]] + target + Be16(U16(b, used - 2)) == b[off..used]
  {
    var used := ConnectAt(b, off).value.used;
    assert [5, 1, b[off + 2]] == b[off..off + 3];
    U16Decoded(b, used - 2);
    SplitAt(b, off, off + 3, used - 2);
    SplitAt(b, off, used - 2, used);
  }

  lemma FoundFits(b: seq<Byte>)
    requires Socks5(b).Found?
    ensures var off := LoginEnd(b, 2 + U8(b, 1)).value;
            2 + U8(b, 1) <= off && off + 7 <= Socks5(b).value.used <= |b|
            && ConnectAt(b, off) == Socks5(b)
  {}

  /** Nothing but a well-formed handshake is ever found: the bytes used are
      exactly the encoding of one with the destination reported. */
  lemma SocksFindsOnlyHandshakes(b: seq<Byte>)
    requires Socks5(b).Found? && b[0] == 5
    ensures WellFormed(Decoded(b))
    ensures Socks5(b).value.used <= |b|
    ensures Encoded(Decoded(b)) == b[..Socks5(b).value.used]
    ensures DestOf(Decoded(b)) == Socks5(b).value.dest
  {
    FoundFits(b);
    DecodedFits(b);
    DecodedParts(b);
    hide *;
    SplitAt(b, 0, 2 + U8(b, 1), LoginEnd(b, 2 + U8(b, 1)).value);
    SplitAt(b, 0, LoginEnd(b, 2 + U8(b, 1)).value, Socks5(b).value.used);
    assert Encoded(Decoded(b)) == Greeting(Decoded(b)) + LoginBytes(Decoded(b)) + ConnectBytes(Decoded(b)) by {
      EncodedParts(Decoded(b));
    }
  }

  lemma EncodedParts(m: Handshake)
    requires WellFormed(m)
    ensures Encoded(m) == Greeting(m) + LoginBytes(m) + ConnectBytes(m)
  {}

  lemma DecodedParts(b: seq<Byte>)
    requires Socks5(b).Found? && b[0] == 5 && WellFormed(Decoded(b))
    requires Socks5(b).value.used <= |b|
    ensures var m, g := Decoded(b), 2 + U8(b, 1);
            var off, used := LoginEnd(b, g).value, Socks5(b).value.used;
            && g <= off <= used
            && Greeting(m) == b[..g] && LoginBytes(m) == b[g..off] && ConnectBytes(m) == b[off..used]
  {
    FoundFits(b);
    hide LoginEnd, ConnectAt, Socks5, LoginBytes, ConnectBytes;
    GreetingDecoded(b);
    LoginPart(b);
    ConnectPart(b);
  }

  lemma LoginPart(b: seq<Byte>)
    requires Socks5(b).Found? && WellFormed(Decoded(b))
    ensures LoginBytes(Decoded(b)) == b[2 + U8(b, 1)..LoginEnd(b, 2 + U8(b, 1)).value]
  {
    hide ConnectAt, TargetBytes;
    if b[2 + U8(b, 1)] == 1 { LoginDecoded(b, 2 + U8(b, 1)); }
  }

  lemma ConnectPart(b: seq<Byte>)
    requires Socks5(b).Found? && WellFormed(Decoded(b)) && Socks5(b).value.used <= |b|
    ensures var off := LoginEnd(b, 2 + U8(b, 1)).value;
            off <= Socks5(b).value.used && ConnectBytes(Decoded(b)) == b[off..Socks5(b).value.used]
  {
    hide LoginEnd, LoginBytes, ConnectAt, TargetAt, TargetBytes;
    FoundFits(b);
    var off := LoginEnd(b, 2 + U8(b, 1)).value;
    TargetDecoded(b, off);
    ConnectDecoded(b, off, TargetBytes(TargetAt(b, off)));
  }

  lemma DecodedFits(b: seq<Byte>)
    requires Socks5(b).Found?
    ensures WellFormed(Decoded(b)) && DestOf(Decoded(b)) == Socks5(b).value.dest
  {}

  lemma LoginStable(a: seq<Byte>, w: seq<Byte>, off: nat)
    requires a <= w && off < |a|
    ensures LoginEnd(a, off) != NeedMore ==> LoginEnd(w, off) == LoginEnd(a, off)
  {}

  lemma ConnectStable(a: seq<Byte>, w: seq<Byte>, off: nat)
    requires a <= w
    ensures ConnectAt(a, off) != NeedMore ==> ConnectAt(w, off) == ConnectAt(a, off)
  {
    if ConnectAt(a, off).Found? {
      var used := ConnectAt(a, off).value.used;
      forall i: nat, j: nat | i <= j <= used ensures a[i..j] == w[i..j] { SameSlice(a, w, i, j); }
    }
  }

  lemma SameSlice(a: seq<Byte>, w: seq<Byte>, i: nat, j: nat)
    requires a <= w && i <= j <= |a|
    ensures a[i..j] == w[i..j]
  {}

  /** More bytes never change a verdict that has been reached. */
  lemma SocksStable(a: seq<Byte>, w: seq<Byte>)
    requires a <= w
    ensures Socks5(a) != NeedMore ==> Socks5(w) == Socks5(a)
  {
    if Socks5(a) != NeedMore {
      var g := 2 + U8(a, 1);
      LoginStable(a, w, g);
      ConnectStable(a, w, LoginEnd(a, g).value);
    }
  }

  lemma LoginBack(a: seq<Byte>, w: seq<Byte>, off: nat)
    requires off < |a| && a <= w
    requires LoginEnd(w, off).Found? && LoginEnd(w, off).value < |a|
    ensures LoginEnd(a, off) == LoginEnd(w, off)
  {}

  lemma ConnectBack(a: seq<Byte>, w: seq<Byte>, off: nat)
    requires a <= w && ConnectAt(w, off).Found? && ConnectAt(w, off).value.used <= |a|
    ensures ConnectAt(a, off) == ConnectAt(w, off)
  {
    ConnectStable(a, w, off);
  }

  /** The bytes of a request are enough to find it. */
  lemma SocksBack(a: seq<Byte>, w: seq<Byte>)
    requires a <= w && Socks5(w).Found? && Socks5(w).value.used <= |a|
    ensures Socks5(a) == Socks5(w)
  {
    FoundFits(w);
    LoginBack(a, w, 2 + U8(w, 1));
    ConnectBack(a, w, LoginEnd(w, 2 + U8(w, 1)).value);
  }

  lemma LoginBound(b: seq<Byte>, off: nat)
    requires off < |b|
    ensures |b| >= off + 514 ==> LoginEnd(b, off).Found?
    ensures LoginEnd(b, off).Found? ==> LoginEnd(b, off).value <= off + 513
  {}

  /** Every handshake is decided within 1032 bytes. */
  lemma SocksDecides(b: seq<Byte>)
    requires |b| >= 1032
    ensures Socks5(b) != NeedMore
  {
    LoginBound(b, 2 + U8(b, 1));
  }

  /** Every part of a handshake short of the whole still needs more. */
  lemma SocksNeedsAll(m: Handshake, n: nat)
    requires WellFormed(m) && n < |Encoded(m)|
    ensures Socks5(Encoded(m)[..n]) == NeedMore
  {
    var b := Encoded(m)[..n];
    SocksRoundTrip(m, []);
    assert Encoded(m) + [] == Encoded(m);
    if Socks5(b) != NeedMore {
      SocksStable(b, Encoded(m));
      FoundFits(b);
    }
  }

  /** That bound is met: the longest handshake has 1032 bytes. */
  lemma SocksBoundIsTight(longest: seq<Byte>) returns (m: Handshake)
    requires |longest| == 255
    ensures WellFormed(m) && |Encoded(m)| == 1032
  {
    m := Handshake(longest, Login(longest, longest), 0, Domain(longest), 0);
    assert |Greeting(m)| == 257;
    assert |LoginBytes(m)| == 513;
    assert |ConnectBytes(m)| == 262;
  }

  /** The reader as it is written: one cursor walked over the handshake. */
  method Socks5Request(b: seq<Byte>) returns (v: Verdict<Request>)
    ensures v == Socks5(b)
  {
    hide LoginEnd, ConnectAt;
    if |b| < 2 { return NeedMore; }
    var off := 2 + U8(b, 1);
    if |b| < off + 1 { return NeedMore; }
    var login := PastLogin(b, off);
    match login {
      case Found(start) => v := ReadConnect(b, start);
      case _ => v := NeedMore;
    }
  }

  /** The user name and password, when the client sent them. */
  method PastLogin(b: seq<Byte>, start: nat) returns (r: Verdict<nat>)
    requires start < |b|
    ensures r == LoginEnd(b, start)
  {
    var off := start;
    if b[off] == 1 {
      if |b| < off + 2 { return NeedMore; }
      var ulen := U8(b, off + 1);
      if |b| < off + 3 + ulen { return NeedMore; }
      var plen := U8(b, off + 2 + ulen);
      off := off + 3 + ulen + plen;
      if |b| < off + 1 { return NeedMore; }
    }
    return Found(off);
  }

  /** The request itself. */
  method ReadConnect(b: seq<Byte>, off: nat) returns (v: Verdict<Request>)
    ensures v == ConnectAt(b, off)
  {
    if |b| < off + 4 { return NeedMore; }
    if b[off] != 5 || b[off + 1] != 1 { return Never; }
    var p := off + 4;
    var dest: Dest;
    if b[off + 3] == 1 {
      if |b| < p + 6 { return NeedMore; }
      dest := Address(b[p..p + 4], U16(b, p + 4));
      p := p + 4;
    } else if b[off + 3] == 3 {
      if |b| < p + 1 { return NeedMore; }
      var l := U8(b, p);
      if |b| < p + 1 + l + 2 { return NeedMore; }
      dest := Name(b[p + 1..p + 1 + l], U16(b, p + 1 + l));
      p := p + 1 + l;
    } else if b[off + 3] == 4 {
      if |b| < p + 18 { return NeedMore; }
      dest := Address(b[p..p + 16], U16(b, p + 16));
      p := p + 16;
    } else {
      return Never;
    }
    return Found(Request(dest, p + 2));
  }

  // ------------------------------------------------------------ TLS

  predicate HostChar(c: Byte) {
    c == 46 || c == 45 || c == 95 || 48 <= c <= 57 || 97 <= c <= 122 || 65 <= c <= 90
  }

  predicate ValidHostName(net: GoNet, s: seq<Byte>) {
    s != [] && |s| <= 253 && !net.parsesIP(s) && forall i :: 0 <= i < |s| ==> HostChar(s[i])
  }

  method CheckHostName(net: GoNet, s: seq<Byte>) returns (ok: bool)
    ensures ok == ValidHostName(net, s)
    ensures ok <==> 1 <= |s| <= 253 && !net.parsesIP(s) && forall i :: 0 <= i < |s| ==>
      var c := s[i] as char; 'a' <= c <= 'z' || 'A' <= c <= 'Z' || '0' <= c <= '9' || c == '.' || c == '-' || c == '_'
  {
    if s == [] || |s| > 253 || net.parsesIP(s) { return false; }
    for i := 0 to |s|
      invariant forall j :: 0 <= j < i ==> HostChar(s[j])
    {
      if !HostChar(s[i]) { return false; }
    }
    return true;
  }

  /** The name in one server_name extension: list length, type 0, name length,
      name (RFC 6066 section 3). */
  function NameInExtension(net: GoNet, d: seq<Byte>): Verdict<seq<Byte>>
    requires |d| >= 5
  {
    var nl := U16(d, 3);
    if d[2] == 0 && 5 + nl <= |d| && ValidHostName(net, d[5..5 + nl]) then Found(d[5..5 + nl]) else Never
  }

  function ScanExtensions(net: GoNet, h: seq<Byte>, p: nat, extEnd: nat): Verdict<seq<Byte>>
    requires extEnd <= |h|
    decreases extEnd - p
  {
    if p + 4 > extEnd then Never
    else
      var l := U16(h, p + 2);
      if p + 4 + l > extEnd then Never
      else if U16(h, p) == 0 && l >= 5 then NameInExtension(net, h[p + 4..p + 4 + l])
      else ScanExtensions(net, h, p + 4 + l, extEnd)
  }

  /** The four length-prefixed fields before the extensions, one after the
      other; Never when one does not fit. */
  function ExtensionsAt(h: seq<Byte>): Verdict<nat> {
    if |h| < 4 || h[0] != 1 || |h| < 39 then Never
    else
      var p := 39 + U8(h, 38);
      if |h| < p + 2 then Never
      else
        var q := p + 2 + U16(h, p);
        if |h| < q + 1 then Never
        else
          var r := q + 1 + U8(h, q);
          if |h| < r + 2 then Never else Found(r)
  }

  function HelloName(net: GoNet, h: seq<Byte>): Verdict<seq<Byte>> {
    match ExtensionsAt(h)
    case Found(r) =>
      var end := r + 2 + U16(h, r);
      ScanExtensions(net, h, r + 2, if end > |h| then |h| else end)
    case _ => Never
  }

  function TlsName(net: GoNet, b: seq<Byte>): Verdict<seq<Byte>> {
    if |b| < 5 || |b| < 5 + U16(b, 3) then NeedMore
    else HelloName(net, b[5..5 + U16(b, 3)])
  }

  /** The four length-prefixed fields, passed by one cursor. */
  method SkipFields(h: seq<Byte>) returns (v: Verdict<nat>)
    ensures v == ExtensionsAt(h)
  {
    if |h| < 4 || h[0] != 1 { return Never; }
    var p := 4 + 2 + 32;
    if |h| < p + 1 { return Never; }
    p := p + 1 + U8(h, p);
    if |h| < p + 2 { return Never; }
    p := p + 2 + U16(h, p);
    if |h| < p + 1 { return Never; }
    p := p + 1 + U8(h, p);
    if |h| < p + 2 { return Never; }
    return Found(p);
  }

  method ReadExtension(net: GoNet, h: seq<Byte>, p: nat, l: nat) returns (v: Verdict<seq<Byte>>)
    requires 5 <= l && p + l <= |h|
    ensures v == NameInExtension(net, h[p..p + l])
  {
    ghost var d := h[p..p + l];
    var nl := U16(h, p + 3);
    assert nl == U16(d, 3) && h[p + 2] == d[2];
    if h[p + 2] == 0 && 5 + nl <= l {
      var name := h[p + 5..p + 5 + nl];
      assert |name| == nl == |d[5..5 + nl]|;
      assert forall i :: 0 <= i < nl ==> name[i] == h[p + 5 + i] == d[5 + i] == d[5..5 + nl][i];
      assert name == d[5..5 + nl];
      var ok := CheckHostName(net, name);
      if ok { return Found(name); }
    }
    return Never;
  }

  method WalkExtensions(net: GoNet, h: seq<Byte>, start: nat, extEnd: nat) returns (v: Verdict<seq<Byte>>)
    requires extEnd <= |h|
    ensures v == ScanExtensions(net, h, start, extEnd)
  {
    var p := start;
    while p + 4 <= extEnd
      invariant ScanExtensions(net, h, start, extEnd) == ScanExtensions(net, h, p, extEnd)
      decreases extEnd - p
    {
      var typ := U16(h, p);
      var l := U16(h, p + 2);
      p := p + 4;
      if p + l > extEnd { return Never; }
      if typ == 0 && l >= 5 {
        v := ReadExtension(net, h, p, l);
        return;
      }
      p := p + l;
    }
    return Never;
  }

  method TlsServerName(net: GoNet, b: seq<Byte>) returns (v: Verdict<seq<Byte>>)
    ensures v == TlsName(net, b)
  {
    if |b| < 5 { return NeedMore; }
    var recLen := U16(b, 3);
    if |b| < 5 + recLen { return NeedMore; }
    var h := b[5..5 + recLen];
    var at := SkipFields(h);
    if !at.Found? { return Never; }
    var p := at.value;
    var extEnd := p + 2 + U16(h, p);
    p := p + 2;
    if extEnd > |h| { extEnd := |h|; }
    v := WalkExtensions(net, h, p, extEnd);
  }

  /** A ClientHello in one record (RFC 8446 sections 4.1.2 and 5.1). after is
      whatever else the record holds behind the message. */
  datatype Extension = Extension(typ: nat, data: seq<Byte>)
  datatype Hello = Hello(
    recordVersion: seq<Byte>, lengthAndVersion: seq<Byte>, random: seq<Byte>, session: seq<Byte>,
    suites: seq<Byte>, compression: seq<Byte>, extensions: seq<Extension>, after: seq<Byte>)

  predicate FitsExtensions(es: seq<Extension>) {
    forall e :: e in es ==> e.typ < 65536 && |e.data| < 65536
  }

  function ExtensionHead(e: Extension): seq<Byte>
    requires e.typ < 65536 && |e.data| < 65536
  {
    Be16(e.typ) + (Be16(|e.data|) + e.data)
  }

  function ExtensionBytes(es: seq<Extension>): seq<Byte>
    requires FitsExtensions(es)
  {
    if es == [] then []
    else ExtensionHead(es[0]) + ExtensionBytes(es[1..])
  }

  function Fields(x: Hello): seq<Byte>
    requires |x.session| < 256 && |x.suites| < 65536 && |x.compression| < 256
  {
    [1] + x.lengthAndVersion + x.random + [|x.session|] + x.session
      + Be16(|x.suites|) + x.suites + [|x.compression|] + x.compression
  }

  predicate FitsHello(x: Hello) {
    && |x.recordVersion| == 2 && |x.lengthAndVersion| == 5 && |x.random| == 32
    && |x.session| < 256 && |x.suites| < 65536 && |x.compression| < 256
    && FitsExtensions(x.extensions)
    && |ExtensionBytes(x.extensions)| < 65536
    && |Fields(x)| + 2 + |ExtensionBytes(x.extensions)| + |x.after| < 65536
  }

  function HelloBytes(x: Hello): (h: seq<Byte>)
    requires FitsHello(x)
    ensures |h| < 65536
  {
    Fields(x) + Be16(|ExtensionBytes(x.extensions)|) + ExtensionBytes(x.extensions) + x.after
  }

  function RecordBytes(x: Hello): seq<Byte> requires FitsHello(x) {
    [0x16] + x.recordVersion + Be16(|HelloBytes(x)|) + HelloBytes(x)
  }

  /** The name a ClientHello asks for: that of the first server_name extension
      long enough to hold one, wherever it stands. */
  function AskedName(net: GoNet, es: seq<Extension>): Verdict<seq<Byte>> {
    if es == [] then Never
    else if es[0].typ == 0 && |es[0].data| >= 5 then NameInExtension(net, es[0].data)
    else AskedName(net, es[1..])
  }

  lemma {:induction false} ScanReads(net: GoNet, h: seq<Byte>, p: nat, es: seq<Extension>)
    requires FitsExtensions(es) && At(h, p, ExtensionBytes(es))
    ensures ScanExtensions(net, h, p, p + |ExtensionBytes(es)|) == AskedName(net, es)
    decreases |es|
  {
    hide At, U16, Be16, ExtensionHead, NameInExtension;
    if es == [] {
    } else {
      var e, head, tail := es[0], ExtensionHead(es[0]), ExtensionBytes(es[1..]);
      AtSplit(h, p, head, tail);
      ExtensionRead(h, p, e);
      ScanReads(net, h, p + |head|, es[1..]);
    }
  }

  lemma ExtensionRead(h: seq<Byte>, p: nat, e: Extension)
    requires FitsExtensions([e]) && At(h, p, ExtensionHead(e))
    ensures |ExtensionHead(e)| == 4 + |e.data| && p + 4 + |e.data| <= |h|
    ensures U16(h, p) == e.typ && U16(h, p + 2) == |e.data| && h[p + 4..p + 4 + |e.data|] == e.data
  {
    hide At, U16, Be16;
    AtSplit(h, p, Be16(e.typ), Be16(|e.data|) + e.data);
    AtSplit(h, p + 2, Be16(|e.data|), e.data);
    AtU16(h, p, e.typ);
    AtU16(h, p + 2, |e.data|);
    AtIs(h, p + 4, e.data);
  }

  function LaterFields(x: Hello): seq<Byte>
    requires |x.suites| < 65536 && |x.compression| < 256
  {
    Be16(|x.suites|) + (x.suites + ([|x.compression|] + x.compression))
  }

  lemma LaterFieldsRead(h: seq<Byte>, p: nat, x: Hello)
    requires |x.suites| < 65536 && |x.compression| < 256 && At(h, p, LaterFields(x))
    ensures p + |LaterFields(x)| <= |h|
    ensures U16(h, p) == |x.suites| && U8(h, p + 2 + |x.suites|) == |x.compression|
  {
    hide At, U16, Be16;
    AtFits(h, p, LaterFields(x));
    var z, c := Be16(|x.suites|), [|x.compression|];
    AtSplit(h, p, z, x.suites + (c + x.compression));
    AtSplit(h, p + 2, x.suites, c + x.compression);
    AtSplit(h, p + 2 + |x.suites|, c, x.compression);
    AtU16(h, p, |x.suites|);
    AtU8(h, p + 2 + |x.suites|, |x.compression|);
  }

  lemma EarlyFieldsRead(h: seq<Byte>, x: Hello)
    requires FitsHello(x) && At(h, 0, Fields(x))
    ensures |h| >= 39 && h[0] == 1 && U8(h, 38) == |x.session|
    ensures At(h, 39 + |x.session|, LaterFields(x))
    ensures |Fields(x)| == 39 + |x.session| + |LaterFields(x)|
  {
    hide At, U16, Be16;
    var a, s, z := [1] + (x.lengthAndVersion + x.random), [|x.session|], LaterFields(x);
    assert Fields(x) == a + (s + (x.session + z));
    hide LaterFields, Fields;
    AtSplit(h, 0, a, s + (x.session + z));
    AtSplit(h, 0, [1], x.lengthAndVersion + x.random);
    AtSplit(h, 38, s, x.session + z);
    AtSplit(h, 39, x.session, z);
    AtU8(h, 0, 1);
    AtU8(h, 38, |x.session|);
  }

  lemma FieldsRead(h: seq<Byte>, x: Hello)
    requires FitsHello(x) && At(h, 0, Fields(x)) && |h| >= |Fields(x)| + 2
    ensures ExtensionsAt(h) == Found(|Fields(x)|)
  {
    hide At, U16, Be16, Fields, FitsExtensions;
    EarlyFieldsRead(h, x);
    LaterFieldsRead(h, 39 + |x.session|, x);
  }

  lemma RecordRead(x: Hello, rest: seq<Byte>)
    requires FitsHello(x)
    ensures U16(RecordBytes(x) + rest, 3) == |HelloBytes(x)|
    ensures At(RecordBytes(x) + rest, 5, HelloBytes(x))
  {
    hide At, U16, Be16;
    var h, b := HelloBytes(x), RecordBytes(x) + rest;
    AtStart(RecordBytes(x), rest);
    assert RecordBytes(x) == [0x16] + x.recordVersion + (Be16(|h|) + h);
    AtSplit(b, 0, [0x16] + x.recordVersion, Be16(|h|) + h);
    AtSplit(b, 3, Be16(|h|), h);
    AtU16(b, 3, |h|);
  }

  /** A record is read extension by extension, whatever follows it. */
  lemma RecordScanned(net: GoNet, x: Hello, rest: seq<Byte>)
    requires FitsHello(x)
    ensures TlsName(net, RecordBytes(x) + rest) == AskedName(net, x.extensions)
  {
    hide At, U16, Be16, Fields, ExtensionBytes, ScanExtensions, ExtensionsAt, FitsExtensions, AskedName;
    RecordRead(x, rest);
    var h, exts, f := HelloBytes(x), ExtensionBytes(x.extensions), Fields(x);
    assert h == f + (Be16(|exts|) + (exts + x.after));
    AtStart(h, []);
    assert h + [] == h;
    AtSplit(h, 0, f, Be16(|exts|) + (exts + x.after));
    AtSplit(h, |f|, Be16(|exts|), exts + x.after);
    AtSplit(h, |f| + 2, exts, x.after);
    FieldsRead(h, x);
    AtU16(h, |f|, |exts|);
    ScanReads(net, h, |f| + 2, x.extensions);
  }

  /** A server name list whose first entry is the host name n (RFC 6066 section
      3): the length of the list, name type 0, the length of the name, the name,
      and whatever entries more holds. */
  function ServerNameList(n: seq<Byte>, more: seq<Byte>): (d: seq<Byte>)
    requires |n| + |more| + 3 < 65536
  {
    Be16(|n| + |more| + 3) + ([0] + (Be16(|n|) + (n + more)))
  }

  ghost predicate NamesFirst(d: seq<Byte>, n: seq<Byte>) {
    exists more: seq<Byte> :: |n| + |more| + 3 < 65536 && d == ServerNameList(n, more)
  }

  /** Extension k is the hello's server_name extension, and names n. */
  ghost predicate ServerNameAt(es: seq<Extension>, k: nat, n: seq<Byte>) {
    k < |es| && es[k].typ == 0 && NamesFirst(es[k].data, n) && forall j :: 0 <= j < k ==> es[j].typ != 0
  }

  ghost predicate AsksFor(x: Hello, n: seq<Byte>) { exists k :: ServerNameAt(x.extensions, k, n) }

  lemma NameRead(net: GoNet, d: seq<Byte>, n: seq<Byte>)
    requires NamesFirst(d, n)
    ensures |d| >= 5 && NameInExtension(net, d) == if ValidHostName(net, n) then Found(n) else Never
  {
    var more: seq<Byte> :| |n| + |more| + 3 < 65536 && d == ServerNameList(n, more);
    hide At, U16, Be16, ValidHostName;
    var l := Be16(|n|);
    AtStart(d, []);
    assert d + [] == d;
    AtSplit(d, 0, Be16(|n| + |more| + 3), [0] + (l + (n + more)));
    AtSplit(d, 2, [0], l + (n + more));
    AtSplit(d, 3, l, n + more);
    AtSplit(d, 5, n, more);
    AtU8(d, 2, 0);
    AtU16(d, 3, |n|);
    NameStands(d, n);
  }

  lemma NameStands(d: seq<Byte>, n: seq<Byte>)
    requires At(d, 5, n)
    ensures 5 + |n| <= |d| && d[5..5 + |n|] == n
  {}

  lemma {:induction false} AskedIsNamed(net: GoNet, es: seq<Extension>, k: nat, n: seq<Byte>)
    requires ServerNameAt(es, k, n)
    ensures AskedName(net, es) == if ValidHostName(net, n) then Found(n) else Never
  {
    hide NamesFirst, NameInExtension, ValidHostName;
    if k == 0 {
      NameRead(net, es[0].data, n);
    } else {
      assert es[1..][k - 1] == es[k] && forall j :: 0 <= j < k - 1 ==> es[1..][j] == es[j + 1];
      AskedIsNamed(net, es[1..], k - 1, n);
    }
  }

  lemma {:induction false} NothingAsked(net: GoNet, es: seq<Extension>)
    requires forall e :: e in es ==> e.typ != 0
    ensures AskedName(net, es) == Never
  {
    if es == [] {
    } else {
      NothingAsked(net, es[1..]);
    }
  }

  /** tlsServerName on any single-record ClientHello, wherever the server_name
      extension stands, whatever stands around it and whatever follows the
      record: the name it was written with, if that can be a host name, and no
      name when it was written without. */
  lemma TlsRoundTrip(net: GoNet, x: Hello, n: seq<Byte>, rest: seq<Byte>)
    requires FitsHello(x)
    ensures AsksFor(x, n) ==> TlsName(net, RecordBytes(x) + rest) == if ValidHostName(net, n) then Found(n) else Never
    ensures (forall e :: e in x.extensions ==> e.typ != 0) ==> TlsName(net, RecordBytes(x) + rest) == Never
  {
    hide FitsHello, RecordBytes, TlsName, AskedName, ServerNameAt, ValidHostName;
    RecordScanned(net, x, rest);
    if AsksFor(x, n) {
      var k: nat :| ServerNameAt(x.extensions, k, n);
      AskedIsNamed(net, x.extensions, k, n);
    }
    if forall e :: e in x.extensions ==> e.typ != 0 { NothingAsked(net, x.extensions); }
  }

  /** A server_name extension (type 0) at p whose list starts with the host name n. */
  ghost predicate NamedAt(b: seq<Byte>, p: nat, n: seq<Byte>) {
    |n| < 65536 && At(b, p, [0, 0]) && At(b, p + 6, [0] + (Be16(|n|) + n))
  }

  lemma ZeroType(h: seq<Byte>, p: nat)
    requires p + 2 <= |h| && U16(h, p) == 0
    ensures At(h, p, [0, 0])
  {
    assert h[p] == 0 && h[p + 1] == 0;
  }

  lemma FirstEntry(d: seq<Byte>, n: seq<Byte>)
    requires |n| < 65536 && 5 + |n| <= |d| && d[2] == 0 && d[3..5] == Be16(|n|) && d[5..5 + |n|] == n
    ensures d[2..5 + |n|] == [0] + (Be16(|n|) + n)
  {
    hide Be16;
    SplitAt(d, 2, 3, 5 + |n|);
    SplitAt(d, 3, 5, 5 + |n|);
    assert d[2..3] == [0];
  }

  lemma ExtensionNames(net: GoNet, h: seq<Byte>, p: nat, l: nat, n: seq<Byte>)
    requires 5 <= l && p + 4 + l <= |h| && U16(h, p) == 0
    requires NameInExtension(net, h[p + 4..p + 4 + l]) == Found(n)
    ensures NamedAt(h, p, n) && ValidHostName(net, n)
  {
    hide ValidHostName, U16, Be16;
    var d := h[p + 4..p + 4 + l];
    U16Decoded(d, 3);
    ZeroType(h, p);
    FirstEntry(d, n);
    PartOfPart(h, p + 4, p + 4 + l, 2, 5 + |n|);
  }

  lemma {:induction false} ScanFinds(net: GoNet, h: seq<Byte>, p: nat, extEnd: nat, n: seq<Byte>) returns (q: nat)
    requires extEnd <= |h| && ScanExtensions(net, h, p, extEnd) == Found(n)
    ensures p <= q && NamedAt(h, q, n) && ValidHostName(net, n)
    decreases extEnd - p
  {
    hide ValidHostName, NameInExtension, NamedAt;
    var l := U16(h, p + 2);
    if U16(h, p) == 0 && l >= 5 {
      ExtensionNames(net, h, p, l, n);
      q := p;
    } else {
      q := ScanFinds(net, h, p + 4 + l, extEnd, n);
    }
  }

  lemma HelloNames(net: GoNet, h: seq<Byte>, n: seq<Byte>) returns (p: nat)
    requires HelloName(net, h) == Found(n)
    ensures h != [] && h[0] == 1 && p >= 43 && NamedAt(h, p, n) && ValidHostName(net, n)
  {
    hide ScanExtensions, ValidHostName, ExtensionsAt, NamedAt, U16;
    ExtensionsInside(h);
    var r := ExtensionsAt(h).value;
    var end := r + 2 + U16(h, r);
    p := ScanFinds(net, h, r + 2, if end > |h| then |h| else end, n);
  }

  /** The converse on any bytes: a name is found only in a whole record that holds a
      ClientHello (handshake type 1), behind its fixed fields, where a server_name
      extension names it first; and only one that can be a host name. */
  lemma TlsFindsOnlyNames(net: GoNet, b: seq<Byte>, n: seq<Byte>) returns (q: nat)
    requires TlsName(net, b) == Found(n)
    ensures |b| >= 5 + U16(b, 3) >= 6 && b[5] == 1
    ensures q >= 48 && NamedAt(b[..5 + U16(b, 3)], q, n) && ValidHostName(net, n)
  {
    hide HelloName, ValidHostName, NamedAt, U16;
    var record := b[..5 + U16(b, 3)];
    assert record[5..] == b[5..5 + U16(b, 3)];
    var p := HelloNames(net, record[5..], n);
    q := p + 5;
    NamedBehind(record, record[5..], p, n);
  }

  lemma ExtensionsInside(h: seq<Byte>)
    requires ExtensionsAt(h).Found?
    ensures h != [] && h[0] == 1 && 41 <= ExtensionsAt(h).value <= |h| - 2
  {}

  lemma NamedBehind(b: seq<Byte>, h: seq<Byte>, p: nat, n: seq<Byte>)
    requires |b| >= 5 && h == b[5..] && NamedAt(h, p, n)
    ensures NamedAt(b, p + 5, n)
  {
    var part := [0] + (Be16(|n|) + n);
    assert h == b[5..|b|];
    PartOfPart(b, 5, |b|, p, p + 2);
    PartOfPart(b, 5, |b|, p + 6, p + 6 + |part|);
  }

  lemma TlsStable(net: GoNet, a: seq<Byte>, w: seq<Byte>)
    requires a <= w
    ensures TlsName(net, a) != NeedMore ==> TlsName(net, w) == TlsName(net, a)
  {
    if TlsName(net, a) != NeedMore {
      assert a[5..5 + U16(a, 3)] == w[5..5 + U16(w, 3)];
    }
  }

  // ------------------------------------------------------------ HTTP

  /** strings.Split(s, "\r\n"). */
  function Lines(s: seq<Byte>): (r: seq<seq<Byte>>)
    ensures |r| > 0
    decreases |s|
  {
    var i := Find(s, CRLF);
    if i < 0 then [s] else [s[..i]] + Lines(s[i + 2..])
  }

  /** The host a header's value names, without its port. */
  function HostOf(net: GoNet, value: seq<Byte>): seq<Byte> {
    var h := net.trimmed(value);
    if net.splits(h) then net.hostPart(h) else h
  }

  function HostInLine(net: GoNet, line: seq<Byte>): seq<Byte>
    requires Find(line, [58]) >= 0
  {
    HostOf(net, line[Find(line, [58]) + 1..])
  }

  predicate IsHostLine(net: GoNet, line: seq<Byte>) {
    var c := Find(line, [58]);
    c >= 0 && net.isHostKey(line[..c])
  }

  function FirstHost(net: GoNet, lines: seq<seq<Byte>>): Verdict<seq<Byte>> {
    if lines == [] then Never
    else if IsHostLine(net, lines[0]) then
      if ValidHostName(net, HostInLine(net, lines[0])) then Found(HostInLine(net, lines[0])) else Never
    else FirstHost(net, lines[1..])
  }

  function PayloadName(net: GoNet, b: seq<Byte>): Verdict<seq<Byte>> {
    if b == [] then NeedMore
    else if b[0] == 0x16 then TlsName(net, b)
    else
      var end := Find(b, CRLFCRLF);
      if end < 0 then if |b| > HEAD_CUTOFF then Never else NeedMore
      else FirstHost(net, Lines(b[..end])[1..])
  }

  method ReadPayloadName(net: GoNet, b: seq<Byte>) returns (v: Verdict<seq<Byte>>)
    ensures v == PayloadName(net, b)
  {
    if b == [] { return NeedMore; }
    if b[0] == 0x16 {
      v := TlsServerName(net, b);
      return;
    }
    var end := Find(b, CRLFCRLF);
    if end < 0 {
      return if |b| > HEAD_CUTOFF then Never else NeedMore;
    }
    var lines := Lines(b[..end])[1..];
    for i := 0 to |lines|
      invariant FirstHost(net, lines) == FirstHost(net, lines[i..])
    {
      var line := lines[i];
      var c := Find(line, [58]);
      if c >= 0 && net.isHostKey(line[..c]) {
        var h := net.trimmed(line[c + 1..]);
        if net.splits(h) { h := net.hostPart(h); }
        var ok := CheckHostName(net, h);
        return if ok then Found(h) else Never;
      }
      assert lines[i..][1..] == lines[i + 1..];
    }
    return Never;
  }

  function FindAny(u: seq<Byte>): (j: nat)
    ensures j <= |u|
  {
    if u == [] || u[0] == 47 || u[0] == 63 then 0 else 1 + FindAny(u[1..])
  }

  /** The host of an absolute URL, port 80 when it names none. */
  function UrlHost(net: GoNet, u: seq<Byte>): Verdict<seq<Byte>> {
    var i := Find(u, SCHEME_END);
    if i < 0 then Never
    else
      var rest := u[i + 3..];
      var host := rest[..FindAny(rest)];
      if host == [] then Never
      else Found(if net.splits(host) then host else host + COLON_80)
  }

  /** What the first line of an HTTP proxy request says, as far as it goes. */
  datatype LineKind = Unreadable | ConnectTo(authority: seq<Byte>) | AbsoluteUrl(hostPort: seq<Byte>)

  function ReadLine(net: GoNet, line: seq<Byte>): LineKind {
    var f := net.fields(line);
    if |f| < 2 then Unreadable
    else if net.isConnect(f[0]) then if net.splits(f[1]) then ConnectTo(f[1]) else Unreadable
    else
      match UrlHost(net, f[1])
      case Found(u) => AbsoluteUrl(u)
      case _ => Unreadable
  }

  function ProxyRequest(net: GoNet, b: seq<Byte>): Verdict<Request> {
    if b == [] then NeedMore
    else if b[0] == 5 then Socks5(b)
    else
      var end := Find(b, CRLF);
      if end < 0 then if |b| > LINE_CUTOFF then Never else NeedMore
      else
        match ReadLine(net, b[..end])
        case Unreadable => Never
        case ConnectTo(d) =>
          var hdrEnd := Find(b, CRLFCRLF);
          if hdrEnd < 0 then NeedMore else Found(Request(Text(d), hdrEnd + 4))
        case AbsoluteUrl(d) => Found(Request(Text(d), |b|))
  }

  method ReadProxyRequest(net: GoNet, b: seq<Byte>) returns (v: Verdict<Request>)
    ensures v == ProxyRequest(net, b)
  {
    if b == [] { return NeedMore; }
    if b[0] == 5 {
      v := Socks5Request(b);
      return;
    }
    var end := Find(b, CRLF);
    if end < 0 {
      return if |b| > LINE_CUTOFF then Never else NeedMore;
    }
    var f := net.fields(b[..end]);
    if |f| < 2 { return Never; }
    if net.isConnect(f[0]) {
      if !net.splits(f[1]) { return Never; }
      var hdrEnd := Find(b, CRLFCRLF);
      if hdrEnd < 0 { return NeedMore; }
      return Found(Request(Text(f[1]), hdrEnd + 4));
    }
    var u := f[1];
    var i := Find(u, SCHEME_END);
    if i < 0 { return Never; }
    u := u[i + 3..];
    u := u[..FindAny(u)];
    if u == [] { return Never; }
    if !net.splits(u) { u := u + COLON_80; }
    return Found(Request(Text(u), |b|));
  }

  // ------------------------------------------------------------ HTTP, written and read

  /** No line break inside. */
  predicate OneLine(s: seq<Byte>) { Find(s, CRLF) < 0 }

  /** The lines of a head, a line break between them. */
  function Joined(lines: seq<seq<Byte>>): seq<Byte>
    requires lines != []
  {
    if |lines| == 1 then lines[0] else lines[0] + (CRLF + Joined(lines[1..]))
  }

  predicate GoodHead(lines: seq<seq<Byte>>) {
    lines != [] && forall i :: 0 <= i < |lines| ==> lines[i] != [] && OneLine(lines[i])
  }

  function HeadBytes(lines: seq<seq<Byte>>): seq<Byte>
    requires lines != []
  {
    Joined(lines) + CRLFCRLF
  }

  lemma BreakBytes(b: seq<Byte>, i: int)
    ensures MatchAt(b, CRLF, i) <==> 0 <= i < i + 2 <= |b| && b[i] == 13 && b[i + 1] == 10
  {
    if 0 <= i && i + 2 <= |b| { assert b[i..i + 2] == [b[i], b[i + 1]]; }
  }

  /** The line breaks of a line and what follows it. */
  lemma BreaksOf(line: seq<Byte>, rest: seq<Byte>, i: int)
    ensures MatchAt(line + (CRLF + rest), CRLF, i) <==>
      MatchAt(line, CRLF, i) || i == |line| || MatchAt(rest, CRLF, i - |line| - 2)
  {
    BreakBytes(line + (CRLF + rest), i);
    BreakBytes(line, i);
    BreakBytes(rest, i - |line| - 2);
    hide MatchAt;
  }

  lemma BlankIsTwoBreaks(b: seq<Byte>, i: int)
    ensures MatchAt(b, CRLFCRLF, i) <==> MatchAt(b, CRLF, i) && MatchAt(b, CRLF, i + 2)
  {
    BreakBytes(b, i);
    BreakBytes(b, i + 2);
    if 0 <= i && i + 4 <= |b| { assert b[i..i + 4] == [b[i], b[i + 1], b[i + 2], b[i + 3]]; }
  }

  lemma LineEndsAt(line: seq<Byte>, rest: seq<Byte>)
    requires OneLine(line)
    ensures Find(line + (CRLF + rest), CRLF) == |line|
  {
    hide MatchAt;
    BreaksOf(line, rest, |line|);
    BreaksOf(line, rest, Find(line + (CRLF + rest), CRLF));
    FoundInside(rest, Find(line + (CRLF + rest), CRLF) - |line| - 2);
  }

  lemma FoundInside(b: seq<Byte>, i: int)
    ensures MatchAt(b, CRLF, i) ==> i >= 0
  {}

  /** The blank line of a head is the first there is. */
  lemma {:induction false} HeadEndsAt(lines: seq<seq<Byte>>, rest: seq<Byte>, i: int)
    requires GoodHead(lines) && MatchAt(HeadBytes(lines) + rest, CRLFCRLF, i)
    ensures i >= |Joined(lines)|
    decreases |lines|
  {
    hide MatchAt;
    var b := HeadBytes(lines) + rest;
    BlankIsTwoBreaks(b, i);
    BreakSpace(lines[0], i);
    if |lines| == 1 {
      assert b == lines[0] + (CRLF + (CRLF + rest));
      BreaksOf(lines[0], CRLF + rest, i);
      FoundInside(CRLF + rest, i - |lines[0]| - 2);
    } else {
      var tail := HeadBytes(lines[1..]) + rest;
      var j := i - |lines[0]| - 2;
      assert b == lines[0] + (CRLF + tail);
      BreaksOf(lines[0], tail, i);
      BreaksOf(lines[0], tail, i + 2);
      FoundInside(tail, j);
      FoundInside(tail, j + 2);
      FirstLineNotBlank(lines[1..], rest);
      BlankIsTwoBreaks(tail, j);
      if MatchAt(tail, CRLFCRLF, j) { HeadEndsAt(lines[1..], rest, j); }
    }
  }

  lemma BreakSpace(line: seq<Byte>, i: int)
    requires OneLine(line)
    ensures !MatchAt(line, CRLF, i) && !MatchAt(line, CRLF, i + 2)
  {
    hide MatchAt;
    FoundInside(line, i);
    FoundInside(line, i + 2);
  }

  lemma FirstLineNotBlank(lines: seq<seq<Byte>>, rest: seq<Byte>)
    requires GoodHead(lines)
    ensures !MatchAt(HeadBytes(lines) + rest, CRLF, 0)
  {
    var tail, l := HeadBytes(lines) + rest, lines[0];
    assert OneLine(l);
    BreakBytes(tail, 0);
    BreakBytes(l, 0);
    hide MatchAt;
    assert tail[0] == l[0] && tail[1] == if |l| == 1 then 13 else l[1];
  }

  lemma HeadFound(lines: seq<seq<Byte>>, rest: seq<Byte>)
    requires GoodHead(lines)
    ensures Find(HeadBytes(lines) + rest, CRLFCRLF) == |Joined(lines)|
  {
    var b, n := HeadBytes(lines) + rest, |Joined(lines)|;
    assert b[n..n + 4] == CRLFCRLF;
    assert MatchAt(b, CRLFCRLF, n);
    HeadEndsAt(lines, rest, Find(b, CRLFCRLF));
  }

  lemma {:induction false} LinesOfJoined(lines: seq<seq<Byte>>)
    requires GoodHead(lines)
    ensures Lines(Joined(lines)) == lines
    decreases |lines|
  {
    hide Find;
    if |lines| == 1 {
      NoBreak(lines[0]);
    } else {
      LinesOfJoined(lines[1..]);
      FirstLine(lines[0], Joined(lines[1..]));
    }
  }

  lemma NoBreak(line: seq<Byte>)
    requires OneLine(line)
    ensures Lines(line) == [line]
  {}

  lemma FirstLine(line: seq<Byte>, more: seq<Byte>)
    requires OneLine(line)
    ensures Lines(line + (CRLF + more)) == [line] + Lines(more)
  {
    hide Find;
    LineEndsAt(line, more);
    assert (line + (CRLF + more))[|line| + 2..] == more;
  }

  lemma FirstLineOfHead(lines: seq<seq<Byte>>, rest: seq<Byte>)
    requires GoodHead(lines)
    ensures var b := HeadBytes(lines) + rest;
      Find(b, CRLF) == |lines[0]| && b[..|lines[0]|] == lines[0] && b[0] == lines[0][0]
  {
    var b := HeadBytes(lines) + rest;
    if |lines| == 1 {
      assert b == lines[0] + (CRLF + (CRLF + rest));
      LineEndsAt(lines[0], CRLF + rest);
    } else {
      assert b == lines[0] + (CRLF + (HeadBytes(lines[1..]) + rest));
      LineEndsAt(lines[0], HeadBytes(lines[1..]) + rest);
    }
  }

  /** A CONNECT request, any headers under it and anything behind it: its
      authority, and the length of its head. */
  lemma ConnectRoundTrip(net: GoNet, lines: seq<seq<Byte>>, rest: seq<Byte>)
    requires GoodHead(lines) && lines[0][0] != 5
    requires var f := net.fields(lines[0]); |f| >= 2 && net.isConnect(f[0]) && net.splits(f[1])
    ensures ProxyRequest(net, HeadBytes(lines) + rest) ==
      Found(Request(Text(net.fields(lines[0])[1]), |HeadBytes(lines)|))
  {
    hide Find, Joined, HeadBytes;
    FirstLineOfHead(lines, rest);
    HeadFound(lines, rest);
    HeadLength(lines);
  }

  lemma HeadLength(lines: seq<seq<Byte>>)
    requires lines != []
    ensures |HeadBytes(lines)| == |Joined(lines)| + 4
  {}

  /** A URL by its parts (RFC 3986 section 3): a scheme, an authority, and what
      follows it. */
  function UrlBytes(scheme: seq<Byte>, authority: seq<Byte>, tail: seq<Byte>): seq<Byte> {
    scheme + (SCHEME_END + (authority + tail))
  }

  predicate EndsAuthority(c: Byte) { c == 47 || c == 63 }

  predicate GoodUrl(scheme: seq<Byte>, authority: seq<Byte>, tail: seq<Byte>) {
    && 58 !in scheme && authority != []
    && (forall i :: 0 <= i < |authority| ==> !EndsAuthority(authority[i]))
    && (tail != [] ==> EndsAuthority(tail[0]))
  }

  lemma SchemeFound(scheme: seq<Byte>, rest: seq<Byte>)
    requires 58 !in scheme
    ensures Find(scheme + (SCHEME_END + rest), SCHEME_END) == |scheme|
  {
    var u, n := scheme + (SCHEME_END + rest), |scheme|;
    assert u[n..n + 3] == SCHEME_END;
    assert MatchAt(u, SCHEME_END, n);
    var i := Find(u, SCHEME_END);
    assert u[i] == u[i..i + 3][0] == 58;
  }

  lemma {:induction false} AuthorityEnds(authority: seq<Byte>, tail: seq<Byte>)
    requires forall i :: 0 <= i < |authority| ==> !EndsAuthority(authority[i])
    requires tail != [] ==> EndsAuthority(tail[0])
    ensures FindAny(authority + tail) == |authority|
    decreases |authority|
  {
    if authority == [] {
      assert authority + tail == tail;
    } else {
      assert (authority + tail)[1..] == authority[1..] + tail;
      AuthorityEnds(authority[1..], tail);
    }
  }

  lemma UrlHostRead(net: GoNet, scheme: seq<Byte>, authority: seq<Byte>, tail: seq<Byte>)
    requires GoodUrl(scheme, authority, tail)
    ensures UrlHost(net, UrlBytes(scheme, authority, tail)) ==
      Found(if net.splits(authority) then authority else authority + COLON_80)
  {
    hide Find, FindAny;
    SchemeFound(scheme, authority + tail);
    AuthorityEnds(authority, tail);
    var u := UrlBytes(scheme, authority, tail);
    assert u[|scheme| + 3..] == authority + tail;
    assert (authority + tail)[..|authority|] == authority;
  }

  /** A request by absolute URL, any bytes behind its line: its authority, with
      port 80 when it names none, and all the bytes there are. */
  lemma UrlRoundTrip(net: GoNet, line: seq<Byte>, scheme: seq<Byte>, authority: seq<Byte>, tail: seq<Byte>, rest: seq<Byte>)
    requires line != [] && OneLine(line) && line[0] != 5 && GoodUrl(scheme, authority, tail)
    requires var f := net.fields(line); |f| >= 2 && !net.isConnect(f[0]) && f[1] == UrlBytes(scheme, authority, tail)
    ensures var b := line + (CRLF + rest);
      ProxyRequest(net, b) == Found(Request(Text(if net.splits(authority) then authority else authority + COLON_80), |b|))
  {
    hide Find, OneLine, UrlHost, UrlBytes, GoodUrl;
    LineEndsAt(line, rest);
    UrlHostRead(net, scheme, authority, tail);
    assert (line + (CRLF + rest))[..|line|] == line;
  }

  /** The host header among the lines of a head, the first of its kind. */
  ghost predicate HostAt(net: GoNet, lines: seq<seq<Byte>>, k: nat, key: seq<Byte>, value: seq<Byte>) {
    && 0 < k < |lines| && lines[k] == key + ([58] + value) && net.isHostKey(key) && Find(key, [58]) < 0
    && forall j :: 0 < j < k ==>
         var c := Find(lines[j], [58]);
         c < 0 || !net.isHostKey(lines[j][..c])
  }

  lemma ColonFound(key: seq<Byte>, value: seq<Byte>)
    requires Find(key, [58]) < 0
    ensures Find(key + ([58] + value), [58]) == |key|
  {
    var b := key + ([58] + value);
    assert b[|key|..|key| + 1] == [58];
    assert MatchAt(b, [58], |key|);
    var i := Find(b, [58]);
    if i < |key| {
      assert key[i..i + 1] == b[i..i + 1];
      assert MatchAt(key, [58], i);
    }
  }

  lemma HostLineRead(net: GoNet, key: seq<Byte>, value: seq<Byte>)
    requires net.isHostKey(key) && Find(key, [58]) < 0
    ensures var l := key + ([58] + value); IsHostLine(net, l) && HostInLine(net, l) == HostOf(net, value)
  {
    var l := key + ([58] + value);
    ColonFound(key, value);
    assert l[..|key|] == key && l[|key| + 1..] == value;
  }

  lemma {:induction false} FirstHostRead(net: GoNet, lines: seq<seq<Byte>>, k: nat, value: seq<Byte>)
    requires k < |lines| && IsHostLine(net, lines[k]) && HostInLine(net, lines[k]) == HostOf(net, value)
    requires forall j :: 0 <= j < k ==> !IsHostLine(net, lines[j])
    ensures FirstHost(net, lines) == if ValidHostName(net, HostOf(net, value)) then Found(HostOf(net, value)) else Never
  {
    hide IsHostLine, HostInLine, HostOf, ValidHostName;
    if k == 0 {
    } else {
      assert lines[1..][k - 1] == lines[k] && forall j :: 0 <= j < k - 1 ==> lines[1..][j] == lines[j + 1];
      FirstHostRead(net, lines[1..], k - 1, value);
    }
  }

  /** An HTTP head with a Host header, anything behind it: that host, if it can
      be a host name. */
  lemma HostRoundTrip(net: GoNet, lines: seq<seq<Byte>>, k: nat, key: seq<Byte>, value: seq<Byte>, rest: seq<Byte>)
    requires GoodHead(lines) && lines[0][0] != 0x16 && HostAt(net, lines, k, key, value)
    ensures var v := net.trimmed(value);
      var host := if net.splits(v) then net.hostPart(v) else v;
      PayloadName(net, HeadBytes(lines) + rest) == if ValidHostName(net, host) then Found(host) else Never
  {
    hide Find, HostInLine, ValidHostName, Lines;
    var b := HeadBytes(lines) + rest;
    FirstLineOfHead(lines, rest);
    HeadFound(lines, rest);
    assert b[..|Joined(lines)|] == Joined(lines);
    LinesOfJoined(lines);
    HostLineRead(net, key, value);
    assert lines[1..][k - 1] == lines[k] && forall j :: 0 <= j < k - 1 ==> lines[1..][j] == lines[j + 1];
    FirstHostRead(net, lines[1..], k - 1, value);
  }

  lemma {:induction false} NoHostRead(net: GoNet, lines: seq<seq<Byte>>)
    requires forall j :: 0 <= j < |lines| ==> !IsHostLine(net, lines[j])
    ensures FirstHost(net, lines) == Never
  {
    hide IsHostLine, HostInLine, ValidHostName;
    if lines == [] {
    } else {
      assert forall j :: 0 <= j < |lines| - 1 ==> lines[1..][j] == lines[j + 1];
      NoHostRead(net, lines[1..]);
    }
  }

  /** A head without a Host line names nothing, and is not waited for. */
  lemma HostlessHead(net: GoNet, lines: seq<seq<Byte>>, rest: seq<Byte>)
    requires GoodHead(lines) && lines[0][0] != 0x16
    requires forall j :: 0 < j < |lines| ==>
      var c := Find(lines[j], [58]);
      c < 0 || !net.isHostKey(lines[j][..c])
    ensures PayloadName(net, HeadBytes(lines) + rest) == Never
  {
    hide Find, HostInLine, ValidHostName, Lines;
    var b := HeadBytes(lines) + rest;
    FirstLineOfHead(lines, rest);
    HeadFound(lines, rest);
    assert b[..|Joined(lines)|] == Joined(lines);
    LinesOfJoined(lines);
    assert forall j :: 0 <= j < |lines| - 1 ==> lines[1..][j] == lines[j + 1];
    NoHostRead(net, lines[1..]);
  }
}
