/** A RADIUS login: the Access-Request with its attributes, and the reply that decides. */
module RadiusExchange {
  import opened Octets
  import opened Radius
  import opened Wrappers

  const ACCESS_REQUEST: byte := 1
  const ACCESS_ACCEPT: byte := 2
  const USER_NAME: byte := 1
  const USER_PASSWORD: byte := 2
  const NAS_ID: byte := 32
  const BUFFER := 4096

  datatype Credentials = Credentials(user: seq<byte>, password: seq<byte>, nas: seq<byte>)

  // ---- the request -----------------------------------------------------------------------------

  function RequestAttrs(c: Credentials, secret: seq<byte>, auth: seq<byte>, h: Hash): seq<Attr> {
    [Attr(USER_NAME, c.user), Attr(USER_PASSWORD, Hide(Pad16(c.password), secret, auth, h))]
    + if c.nas == [] then [] else [Attr(NAS_ID, c.nas)]
  }

  /** The packet sent; any byte serves as its identifier. */
  function Request(c: Credentials, secret: seq<byte>, auth: seq<byte>, h: Hash): seq<byte>
    requires |auth| == 16
  {
    Packet(ACCESS_REQUEST, auth[0], auth, EncodeAttrs(RequestAttrs(c, secret, auth, h)))
  }

  function FirstOf(attrs: seq<Attr>, typ: byte): Option<seq<byte>> {
    if attrs == [] then None else if attrs[0].typ == typ then Some(attrs[0].value) else FirstOf(attrs[1..], typ)
  }

  function OrEmpty(v: Option<seq<byte>>): seq<byte> { if v.Some? then v.value else [] }

  /** What a server that follows the RFC makes of a request: none if it is malformed. */
  function DecodeRequest(b: seq<byte>, secret: seq<byte>, h: Hash): Option<Credentials> {
    match DecodePacket(b)
    case None => None
    case Some(f) =>
      (match DecodeAttrs(f.attrs)
       case None => None
       case Some(attrs) => DecodeFields(f.code, f.auth, attrs, secret, h))
  }

  /** User-Name is attribute 1, User-Password 2 and NAS-Identifier 32 (sections 5.1, 5.2 and 5.32). */
  function DecodeFields(code: byte, auth: seq<byte>, attrs: seq<Attr>, secret: seq<byte>, h: Hash)
    : Option<Credentials>
  {
    var user, hidden := FirstOf(attrs, 1), FirstOf(attrs, 2);
    if code != 1 || user.None? || hidden.None? || |hidden.value| % 16 != 0 then None
    else Some(Credentials(user.value, Unpad(Reveal(hidden.value, secret, auth, h)), OrEmpty(FirstOf(attrs, 32))))
  }

  /** What fits the one-byte lengths, and does not look like padding. */
  predicate Sendable(c: Credentials) {
    && |c.user| <= 253 && |c.nas| <= 253 && |c.password| <= 240
    && (c.password == [] || c.password[|c.password| - 1] != 0)
  }

  lemma {:induction false} EncodedSize(attrs: seq<Attr>)
    requires Fits(attrs)
    ensures |EncodeAttrs(attrs)| <= 255 * |attrs|
  {
    if attrs != [] {
      assert |attrs[0].value| <= 253;
      assert forall i :: 0 <= i < |attrs| - 1 ==> attrs[1..][i] == attrs[i + 1];
      EncodedSize(attrs[1..]);
    }
  }

  /** Whatever bytes it reads, a server never finds a value of more than 253 bytes. */
  lemma {:induction false} DecodedFits(b: seq<byte>, typ: byte)
    ensures var d := DecodeAttrs(b);
            d.Some? && FirstOf(d.value, typ).Some? ==> |FirstOf(d.value, typ).value| <= 253
    decreases |b|
  {
    if |b| >= 2 && 2 <= b[1] <= |b| {
      DecodedFits(b[b[1]..], typ);
      var d := DecodeAttrs(b);
      if d.Some? { assert d.value[1..] == DecodeAttrs(b[b[1]..]).value; }
    }
  }

  lemma FirstsOfRequest(c: Credentials, secret: seq<byte>, auth: seq<byte>, h: Hash)
    ensures var attrs := RequestAttrs(c, secret, auth, h);
            && FirstOf(attrs, USER_NAME) == Some(c.user)
            && FirstOf(attrs, USER_PASSWORD) == Some(Hide(Pad16(c.password), secret, auth, h))
            && OrEmpty(FirstOf(attrs, NAS_ID)) == c.nas
  {
    var attrs := RequestAttrs(c, secret, auth, h);
    var last := if c.nas == [] then [] else [Attr(NAS_ID, c.nas)];
    assert attrs[1..] == [attrs[1]] + last && attrs[1..][1..] == last;
    assert OrEmpty(FirstOf(last, NAS_ID)) == c.nas;
    assert FirstOf(attrs, NAS_ID) == FirstOf(attrs[1..], NAS_ID) == FirstOf(last, NAS_ID);
  }

  lemma SmallRequestArrives(c: Credentials, secret: seq<byte>, auth: seq<byte>, h: Hash)
    requires |auth| == 16 && |c.user| <= 253 && |c.nas| <= 253 && |c.password| <= 240
    ensures var attrs := RequestAttrs(c, secret, auth, h);
            DecodeRequest(Request(c, secret, auth, h), secret, h)
            == DecodeFields(1, auth, attrs, secret, h)
  {
    var attrs := RequestAttrs(c, secret, auth, h);
    assert Fits(attrs);
    EncodedSize(attrs);
    AttrsRoundTripIff(attrs);
    PacketRoundTripIff(ACCESS_REQUEST, auth[0], auth, EncodeAttrs(attrs));
  }

  /** What any server reads is small. */
  lemma ReadIsSmall(b: seq<byte>, secret: seq<byte>, h: Hash)
    ensures var d := DecodeRequest(b, secret, h);
            d.Some? ==> |d.value.user| <= 253 && |d.value.nas| <= 253 && |d.value.password| <= 240
  {
    var f := DecodePacket(b);
    if f.Some? && DecodeAttrs(f.value.attrs).Some? {
      DecodedFits(f.value.attrs, 1);
      DecodedFits(f.value.attrs, 2);
      DecodedFits(f.value.attrs, 32);
      var hidden := FirstOf(DecodeAttrs(f.value.attrs).value, 2);
      if hidden.Some? && |hidden.value| % 16 == 0 { UnpadShorter(Reveal(hidden.value, secret, f.value.auth, h)); }
    }
  }

  /** For every user name, password and NAS identifier: the server reads exactly these from the
      packet just when both names have at most 253 bytes, the password at most 240, and the
      password does not end in a zero byte. */
  lemma RequestDecodesIff(c: Credentials, secret: seq<byte>, auth: seq<byte>, h: Hash)
    requires |auth| == 16
    ensures DecodeRequest(Request(c, secret, auth, h), secret, h) == Some(c) <==> Sendable(c)
  {
    ReadIsSmall(Request(c, secret, auth, h), secret, h);
    if |c.user| <= 253 && |c.nas| <= 253 && |c.password| <= 240 {
      SmallRequestArrives(c, secret, auth, h);
      FirstsOfRequest(c, secret, auth, h);
      HidingRoundTrip(c.password, secret, auth, h);
    }
  }

  // ---- the reply ---------------------------------------------------------------------------------

  /** The response authenticator of section 3 ties a reply to its request and to the secret. */
  function Reply(code: byte, id: byte, reqAuth: seq<byte>, attrs: seq<byte>, secret: seq<byte>, h: Hash): seq<byte> {
    var head := [code, id] + BigEndian(20 + |attrs|, 2);
    head + h(head + reqAuth + attrs + secret) + attrs
  }

  datatype Verdict = Unavailable | Denied | Accepted

  /** What the client makes of the bytes it received; none is no reply. */
  function Judge(resp: seq<byte>, reqAuth: seq<byte>, secret: seq<byte>, h: Hash): Verdict {
    if |resp| < 20 then Unavailable
    else if h(resp[..4] + reqAuth + resp[20..] + secret) != resp[4..20] then Unavailable
    else if resp[0] == ACCESS_ACCEPT then Accepted
    else Denied
  }

  type Peer = seq<byte> -> seq<byte>

  /** The check: one request, one reply of which the buffer holds the first 4096 bytes. */
  function AccessCheck(peer: Peer, c: Credentials, secret: seq<byte>, auth: seq<byte>, h: Hash): Verdict
    requires |auth| == 16
  {
    var resp := peer(Request(c, secret, auth, h));
    Judge(if |resp| <= BUFFER then resp else resp[..BUFFER], auth, secret, h)
  }

  /** The response authenticator on bytes received: the hash over the reply with the request's
      authenticator in its place, and the secret. */
  ghost predicate Authentic(resp: seq<byte>, reqAuth: seq<byte>, secret: seq<byte>, h: Hash) {
    |resp| >= 20 && resp[4..20] == h(resp[..4] + reqAuth + resp[20..] + secret)
  }

  /** Whatever bytes the other end sends: the user is accepted exactly on an authentic Access-Accept
      (code 2) and denied exactly on any other authentic reply; the rest is an error.  Of more than
      4096 bytes the first 4096 count. */
  lemma VerdictIs(peer: Peer, c: Credentials, secret: seq<byte>, auth: seq<byte>, h: Hash)
    requires |auth| == 16
    ensures var sent := peer(Request(c, secret, auth, h));
            var resp := if |sent| > 4096 then sent[..4096] else sent;
            var v := AccessCheck(peer, c, secret, auth, h);
            && (v == Accepted <==> Authentic(resp, auth, secret, h) && resp[0] == 2)
            && (v == Denied <==> Authentic(resp, auth, secret, h) && resp[0] != 2)
  {
  }

  /** A server that follows the RFC, with the codes of section 4: silent on what it cannot read,
      otherwise it answers for the credentials it read, with attributes of its own. */
  function Server(secret: seq<byte>, h: Hash, accepts: Credentials -> bool, attrs: seq<byte>): Peer {
    (b: seq<byte>) =>
      match DecodeRequest(b, secret, h)
      case None => []
      case Some(c) => Reply(if accepts(c) then 2 else 3, b[1], b[4..20], attrs, secret, h)
  }

  lemma ReplyJudged(code: byte, id: byte, auth: seq<byte>, attrs: seq<byte>, secret: seq<byte>, h: Hash)
    ensures Judge(Reply(code, id, auth, attrs, secret, h), auth, secret, h)
         == if code == 2 then Accepted else Denied
  {
    ReplyParts(code, id, auth, attrs, secret, h);
  }

  lemma ReplyParts(code: byte, id: byte, auth: seq<byte>, attrs: seq<byte>, secret: seq<byte>, h: Hash)
    ensures var r, head := Reply(code, id, auth, attrs, secret, h), [code, id] + BigEndian(20 + |attrs|, 2);
            && |r| == 20 + |attrs| && r[0] == code
            && r[..4] == head && r[4..20] == h(head + auth + attrs + secret) && r[20..] == attrs
  {
  }

  /** A reply computed with another secret is an error exactly if the two secrets give different
      authenticators for it, whatever it says. */
  lemma ForeignReplyJudged(code: byte, id: byte, auth: seq<byte>, attrs: seq<byte>, theirs: seq<byte>,
                           ours: seq<byte>, h: Hash)
    ensures var head := [code, id] + BigEndian(20 + |attrs|, 2);
            Judge(Reply(code, id, auth, attrs, theirs, h), auth, ours, h) == Unavailable
            <==> h(head + auth + attrs + theirs) != h(head + auth + attrs + ours)
  {
    ReplyParts(code, id, auth, attrs, theirs, h);
  }

  /** So with a server of another secret every login is an error, unless the hash confuses the two. */
  lemma ForeignServerIsUnavailable(c: Credentials, ours: seq<byte>, theirs: seq<byte>, auth: seq<byte>, h: Hash,
                                   accepts: Credentials -> bool, attrs: seq<byte>)
    requires |auth| == 16 && 20 + |attrs| <= BUFFER
    ensures || AccessCheck(Server(theirs, h, accepts, attrs), c, ours, auth, h) == Unavailable
            || exists x: seq<byte> :: h(x + theirs) == h(x + ours)
  {
    var b := Request(c, ours, auth, h);
    assert b[4..20] == auth;
    var d := DecodeRequest(b, theirs, h);
    if d.Some? {
      var code: byte := if accepts(d.value) then 2 else 3;
      ReplyParts(code, b[1], auth, attrs, theirs, h);
      ForeignReplyJudged(code, b[1], auth, attrs, theirs, ours, h);
      var x := [code, b[1]] + BigEndian(20 + |attrs|, 2) + auth + attrs;
      if h(x + theirs) != h(x + ours) {
        assert AccessCheck(Server(theirs, h, accepts, attrs), c, ours, auth, h) == Unavailable;
      }
    }
  }

  /** Against a server with the same secret the check reports that server's decision on what it
      read, and unavailable when it could read nothing.  By `RequestDecodesIff` this is its
      decision on the credentials themselves exactly for the sendable ones. */
  lemma ExchangeReportsDecision(c: Credentials, secret: seq<byte>, auth: seq<byte>, h: Hash,
                                accepts: Credentials -> bool, attrs: seq<byte>)
    requires |auth| == 16 && 20 + |attrs| <= BUFFER
    ensures AccessCheck(Server(secret, h, accepts, attrs), c, secret, auth, h)
         == match DecodeRequest(Request(c, secret, auth, h), secret, h)
            case None => Unavailable
            case Some(d) => if accepts(d) then Accepted else Denied
    ensures Sendable(c) ==>
              AccessCheck(Server(secret, h, accepts, attrs), c, secret, auth, h)
              == if accepts(c) then Accepted else Denied
  {
    var b := Request(c, secret, auth, h);
    RequestDecodesIff(c, secret, auth, h);
    assert b[4..20] == auth;
    var d := DecodeRequest(b, secret, h);
    if d.Some? {
      ReplyJudged(if accepts(d.value) then 2 else 3, b[1], auth, attrs, secret, h);
    }
  }
}
