/** RADIUS (RFC 2865): User-Password hiding, attributes, and the Access-Request packet. */
module Radius {
  import opened Octets
  import opened Wrappers

  function Zeros(n: nat): seq<byte> { seq(n, _ => 0) }

  /** The password zero-padded to a multiple of 16 bytes; the empty one is left empty. */
  function Pad16(p: seq<byte>): (r: seq<byte>)
    ensures |r| % 16 == 0 && p <= r && |r| < |p| + 16
  {
    if |p| % 16 == 0 then p else p + Zeros(16 - |p| % 16)
  }

  /** Hiding, block by block: each block is combined with the hash of the secret and the
      previous hidden block, the first with the request authenticator. */
  function Hide(p: seq<byte>, secret: seq<byte>, prev: seq<byte>, h: Hash): (c: seq<byte>)
    requires |p| % 16 == 0
    ensures |c| == |p|
  {
    if p == [] then []
    else
      var c := Xor(p[..16], h(secret + prev));
      c + Hide(p[16..], secret, c, h)
  }

  /** Recovering, as section 5.2 of RFC 2865 describes it for the server. */
  function Reveal(c: seq<byte>, secret: seq<byte>, prev: seq<byte>, h: Hash): (p: seq<byte>)
    requires |c| % 16 == 0
    ensures |p| == |c|
  {
    if c == [] then [] else Xor(c[..16], h(secret + prev)) + Reveal(c[16..], secret, c[..16], h)
  }

  /** Section 5.2 in its own terms: the first hidden block is the first block combined with the hash of
      the secret and the request authenticator, each further one with that of the secret and the hidden
      block before it. */
  lemma {:induction false} HiddenBlock(p: seq<byte>, secret: seq<byte>, auth: seq<byte>, h: Hash, i: nat)
    requires |p| % 16 == 0 && 16 * i < |p|
    ensures 16 * i + 16 <= |p|
    ensures var c := Hide(p, secret, auth, h);
            c[16 * i..16 * i + 16]
            == Xor(p[16 * i..16 * i + 16], h(secret + if i == 0 then auth else c[16 * i - 16..16 * i]))
  {
    var first := Xor(p[..16], h(secret + auth));
    var rest, c := Hide(p[16..], secret, first, h), Hide(p, secret, auth, h);
    assert c == first + rest && c[..16] == first;
    if i > 0 {
      HiddenBlock(p[16..], secret, first, h, i - 1);
      assert p[16..][16 * i - 16..16 * i] == p[16 * i..16 * i + 16];
      assert rest[16 * i - 16..16 * i] == c[16 * i..16 * i + 16];
      if i > 1 { assert rest[16 * i - 32..16 * i - 16] == c[16 * i - 16..16 * i]; }
    }
  }

  method HideBlock(out: array<byte>, pw: seq<byte>, i: nat, d: Digest)
    requires i + 16 <= out.Length == |pw|
    modifies out
    ensures out[..i] == old(out[..i]) && out[i..i + 16] == Xor(pw[i..i + 16], d)
  {
    for j := 0 to 16
      invariant forall k :: 0 <= k < i ==> out[k] == old(out[k])
      invariant forall k :: 0 <= k < j ==> out[i + k] == XorByte(pw[i + k], d[k])
    {
      out[i + j] := XorByte(pw[i + j], d[j]);
    }
  }

  /** The hidden password as the code computes it, in place and block by block. */
  method EncryptPassword(password: seq<byte>, secret: seq<byte>, reqAuth: seq<byte>, h: Hash) returns (out: array<byte>)
    ensures fresh(out) && out[..] == Hide(Pad16(password), secret, reqAuth, h)
  {
    var pw := Pad16(password);
    out := new byte[|pw|](_ => 0);
    var prev, i := reqAuth, 0;
    ghost var goal := Hide(pw, secret, reqAuth, h);
    ghost var front: seq<byte> := [];
    assert pw[0..] == pw && [] + goal == goal;
    while i < |pw|
      modifies out
      invariant 0 <= i <= |pw| && i % 16 == 0 && (|pw| - i) % 16 == 0
      invariant out[..i] == front
      invariant front + Hide(pw[i..], secret, prev, h) == goal
      decreases |pw| - i
    {
      var d := h(secret + prev);
      Blocks(|pw|, i);
      HideStep(pw, i, secret, prev, h);
      HideBlock(out, pw, i, d);
      prev := out[i..i + 16];
      JoinAssoc(front, prev, Hide(pw[i + 16..], secret, prev, h));
      assert out[..i + 16] == front + prev;
      front := front + prev;
      i := i + 16;
    }
    assert out[..i] == out[..] && pw[i..] == [] && front + [] == front;
  }

  lemma Blocks(n: nat, i: nat)
    requires n % 16 == 0 && i % 16 == 0 && i < n
    ensures i + 16 <= n && (i + 16) % 16 == 0 && (n - i) % 16 == 0 && (n - (i + 16)) % 16 == 0
  {
  }

  lemma JoinAssoc(a: seq<byte>, b: seq<byte>, c: seq<byte>)
    ensures a + b + c == a + (b + c)
  {
  }

  lemma HideStep(pw: seq<byte>, i: nat, secret: seq<byte>, prev: seq<byte>, h: Hash)
    requires |pw| % 16 == 0 && i % 16 == 0 && i < |pw|
    ensures var block := Xor(pw[i..i + 16], h(secret + prev));
            Hide(pw[i..], secret, prev, h) == block + Hide(pw[i + 16..], secret, block, h)
  {
    assert pw[i..][..16] == pw[i..i + 16] && pw[i..][16..] == pw[i + 16..];
  }

  lemma {:induction false} RevealOfHide(p: seq<byte>, secret: seq<byte>, prev: seq<byte>, h: Hash)
    requires |p| % 16 == 0
    ensures Reveal(Hide(p, secret, prev, h), secret, prev, h) == p
  {
    if p != [] {
      var d := h(secret + prev);
      var c := Xor(p[..16], d);
      var rest := Hide(p[16..], secret, c, h);
      assert (c + rest)[..16] == c && (c + rest)[16..] == rest;
      XorTwice(p[..16], d);
      RevealOfHide(p[16..], secret, c, h);
      assert p[..16] + p[16..] == p;
    }
  }

  /** The password without the zero bytes at its end, as a server drops the padding. */
  function Unpad(p: seq<byte>): seq<byte> {
    if p != [] && p[|p| - 1] == 0 then Unpad(p[..|p| - 1]) else p
  }

  lemma {:induction false} UnpadZeros(p: seq<byte>, n: nat)
    ensures Unpad(p + Zeros(n)) == Unpad(p)
  {
    if n == 0 {
      assert p + Zeros(0) == p;
    } else {
      var q := p + Zeros(n);
      assert q[..|q| - 1] == p + Zeros(n - 1);
      UnpadZeros(p, n - 1);
    }
  }

  lemma {:induction false} UnpadShorter(p: seq<byte>)
    ensures |Unpad(p)| <= |p|
  {
    if p != [] && p[|p| - 1] == 0 { UnpadShorter(p[..|p| - 1]); }
  }

  /** Hiding is invertible: for every password, secret and authenticator, the server's decoding
      yields the padded password; and dropping the padding yields the password itself exactly
      when it does not end in a zero byte. */
  lemma HidingRoundTrip(password: seq<byte>, secret: seq<byte>, reqAuth: seq<byte>, h: Hash)
    ensures var p := Reveal(Hide(Pad16(password), secret, reqAuth, h), secret, reqAuth, h);
            p == Pad16(password)
            && (Unpad(p) == password <==> password == [] || password[|password| - 1] != 0)
  {
    RevealOfHide(Pad16(password), secret, reqAuth, h);
    if |password| % 16 != 0 { UnpadZeros(password, 16 - |password| % 16); }
    if password != [] { UnpadShorter(password[..|password| - 1]); }
  }

  // ---- attributes and packets ------------------------------------------------------------------

  datatype Attr = Attr(typ: byte, value: seq<byte>)

  function EncodeAttr(a: Attr): seq<byte> { [a.typ, ByteOf(2 + |a.value|)] + a.value }

  function EncodeAttrs(attrs: seq<Attr>): seq<byte> {
    if attrs == [] then [] else EncodeAttr(attrs[0]) + EncodeAttrs(attrs[1..])
  }

  /** An attribute list as section 5 of RFC 2865 lays it out: type, length of the whole
      attribute, value. */
  function DecodeAttrs(b: seq<byte>): Option<seq<Attr>>
    decreases |b|
  {
    if b == [] then Some([])
    else if |b| < 2 || b[1] < 2 || b[1] > |b| then None
    else
      var n := b[1];
      match DecodeAttrs(b[n..])
      case None => None
      case Some(rest) => Some([Attr(b[0], b[2..n])] + rest)
  }

  ghost predicate Fits(attrs: seq<Attr>) { forall i :: 0 <= i < |attrs| ==> |attrs[i].value| <= 253 }

  /** An attribute list parses back exactly when every value has at most 253 bytes. */
  lemma {:induction false} AttrsRoundTripIff(attrs: seq<Attr>)
    ensures DecodeAttrs(EncodeAttrs(attrs)) == Some(attrs) <==> Fits(attrs)
    decreases |attrs|
  {
    if attrs != [] {
      var a, rest := attrs[0], EncodeAttrs(attrs[1..]);
      AttrsRoundTripIff(attrs[1..]);
      assert attrs == [a] + attrs[1..];
      assert Fits(attrs) <==> |a.value| <= 253 && Fits(attrs[1..]) by {
        assert forall i :: 0 <= i < |attrs| - 1 ==> attrs[1..][i] == attrs[i + 1];
      }
      if |a.value| <= 253 {
        DecodeFirst(a, rest);
      } else {
        OversizedFirst(a, rest);
      }
    }
  }

  lemma AttrParts(a: Attr, rest: seq<byte>)
    ensures var b, n := EncodeAttr(a) + rest, 2 + |a.value|;
            |b| == n + |rest| && b[0] == a.typ && b[1] == n % 256 && b[2..n] == a.value && b[n..] == rest
  {
  }

  lemma DecodeFirst(a: Attr, rest: seq<byte>)
    requires |a.value| <= 253
    ensures var d := DecodeAttrs(EncodeAttr(a) + rest);
            d == if DecodeAttrs(rest).Some? then Some([a] + DecodeAttrs(rest).value) else None
  {
    AttrParts(a, rest);
    DecodeParts(EncodeAttr(a) + rest, 2 + |a.value|);
  }

  lemma DecodeParts(b: seq<byte>, n: nat)
    requires |b| >= n >= 2 && b[1] == n
    ensures var rest := DecodeAttrs(b[n..]);
            DecodeAttrs(b) == if rest.Some? then Some([Attr(b[0], b[2..n])] + rest.value) else None
  {
  }

  /** A value too long for its length byte cannot come back: what is read is shorter. */
  lemma OversizedFirst(a: Attr, rest: seq<byte>)
    requires |a.value| > 253
    ensures var d := DecodeAttrs(EncodeAttr(a) + rest);
            d.Some? ==> d.value != [] && |d.value[0].value| < |a.value|
  {
    var b := EncodeAttr(a) + rest;
  }

  /** code, identifier, length, authenticator, attributes. */
  function Packet(code: byte, id: byte, auth: seq<byte>, attrs: seq<byte>): seq<byte> {
    [code, id] + BigEndian(20 + |attrs|, 2) + auth + attrs
  }

  datatype Fields = Fields(code: byte, id: byte, auth: seq<byte>, attrs: seq<byte>)

  /** Section 3: bytes beyond the length field are ignored, fewer make the packet invalid. */
  function DecodePacket(b: seq<byte>): Option<Fields> {
    if |b| < 20 then None
    else
      var n := Value(b[2..4]);
      if n < 20 || n > |b| then None else Some(Fields(b[0], b[1], b[4..20], b[20..n]))
  }

  /** A packet decodes to what was sent exactly when its length fits its field. */
  lemma PacketRoundTripIff(code: byte, id: byte, auth: seq<byte>, attrs: seq<byte>)
    requires |auth| == 16
    ensures DecodePacket(Packet(code, id, auth, attrs)) == Some(Fields(code, id, auth, attrs)) <==> |attrs| <= 65515
  {
    PacketParts(code, id, auth, attrs);
    var b, n := Packet(code, id, auth, attrs), 20 + |attrs|;
    assert b[20..n] == attrs;
  }

  lemma PacketParts(code: byte, id: byte, auth: seq<byte>, attrs: seq<byte>)
    requires |auth| == 16
    ensures var b := Packet(code, id, auth, attrs);
            && |b| == 20 + |attrs| && b[0] == code && b[1] == id
            && Value(b[2..4]) == (20 + |attrs|) % 0x1_0000 && b[4..20] == auth && b[20..] == attrs
  {
    var b := Packet(code, id, auth, attrs);
    ValueOfBigEndian(20 + |attrs|, 2);
    Pow256Values();
    assert b[2..4] == BigEndian(20 + |attrs|, 2);
  }

  /** The comparison of response authenticators, without an early exit. */
  method EqualBytes(a: seq<byte>, b: seq<byte>) returns (eq: bool)
    ensures eq <==> a == b
  {
    if |a| != |b| {
      return false;
    }
    var d: byte := 0;
    for i := 0 to |a|
      invariant d == 0 <==> forall j :: 0 <= j < i ==> a[j] == b[j]
    {
      OrOfXor(d, a[i], b[i]);
      d := OrByte(d, XorByte(a[i], b[i]));
    }
    return d == 0;
  }
}
