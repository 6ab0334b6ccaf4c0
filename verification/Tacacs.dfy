/** TACACS+ (RFC 8907) ASCII login: the packet codec, its obfuscation, and the exchange.

    The hash is any function with 16-byte results; the network peer is any function from the
    bytes sent so far to the bytes it has answered so far. */
module Tacacs {
  import opened Octets
  import opened Wrappers

  type uint32 = n: nat | n < 0x1_0000_0000

  const VERSION: byte := 0xc0
  const TYPE_AUTHEN: byte := 1
  const STATUS_PASS: byte := 1
  const STATUS_GETPASS: byte := 5
  const MAX_BODY := 0x1_0000

  // ---- the pseudo-pad, section 4.5 ----------------------------------------------------------

  /** The n-th link of the hash chain keyed by `base`. */
  function Link(base: seq<byte>, n: nat, h: Hash): Digest {
    if n == 0 then h(base) else h(base + Link(base, n - 1, h))
  }

  /** The first `n` links in a row. */
  function Chain(base: seq<byte>, n: nat, h: Hash): (p: seq<byte>)
    ensures |p| == 16 * n
  {
    if n == 0 then [] else Chain(base, n - 1, h) + Link(base, n - 1, h)
  }

  function Base(sid: uint32, key: seq<byte>, version: byte, seqNo: byte): seq<byte> {
    BigEndian(sid, 4) + key + [version] + [seqNo]
  }

  /** The body combined with as much of the chain as it needs. */
  function Padded(body: seq<byte>, sid: uint32, key: seq<byte>, seqNo: byte, version: byte, h: Hash): (r: seq<byte>)
    ensures |r| == |body|
  {
    Xor(body, Chain(Base(sid, key, version, seqNo), (|body| + 15) / 16, h))
  }

  /** The pad as the code builds it: link after link until it is long enough. */
  method TacacsPad(body: seq<byte>, sid: uint32, key: seq<byte>, seqNo: byte, version: byte, h: Hash)
    returns (out: seq<byte>)
    ensures out == Padded(body, sid, key, seqNo, version, h)
  {
    var base := BigEndian(sid, 4) + key + [version] + [seqNo];
    var pad, prev := [], [];
    ghost var n := 0;
    while |pad| < |body|
      invariant pad == Chain(base, n, h)
      invariant prev == if n == 0 then [] else Link(base, n - 1, h)
      invariant n == 0 || 16 * (n - 1) < |body|
      decreases |body| - |pad|
    {
      assert base + [] == base;
      prev := h(base + prev);
      pad := pad + prev;
      n := n + 1;
    }
    assert n == (|body| + 15) / 16;
    var a := new byte[|body|];
    for i := 0 to |body|
      invariant forall j :: 0 <= j < i ==> a[j] == XorByte(body[j], pad[j])
    {
      a[i] := XorByte(body[i], pad[i]);
    }
    out := a[..];
  }

  /** Section 4.5 in its own terms: the first digest is that of the session id, the key, the version and
      the sequence number, and each further one that of the same followed by the digest before it. */
  ghost predicate IsPad(pad: seq<Digest>, base: seq<byte>, h: Hash) {
    forall n :: 0 <= n < |pad| ==> pad[n] == h(if n == 0 then base else base + pad[n - 1])
  }

  lemma {:induction false} ChainAt(base: seq<byte>, n: nat, h: Hash, i: nat, j: nat)
    requires i < n && j < 16
    ensures Chain(base, n, h)[16 * i + j] == Link(base, i, h)[j]
  {
    if i < n - 1 { ChainAt(base, n - 1, h, i, j); }
  }

  lemma PaddedIs(body: seq<byte>, sid: uint32, key: seq<byte>, seqNo: byte, version: byte, h: Hash)
    returns (pad: seq<Digest>)
    ensures |pad| == (|body| + 15) / 16 && IsPad(pad, BigEndian(sid, 4) + key + [version, seqNo], h)
    ensures forall i :: 0 <= i < |body| ==>
              Padded(body, sid, key, seqNo, version, h)[i] == XorByte(body[i], pad[i / 16][i % 16])
  {
    var base, n := Base(sid, key, version, seqNo), (|body| + 15) / 16;
    assert base == BigEndian(sid, 4) + key + [version, seqNo];
    pad := seq(n, k requires 0 <= k < n => Link(base, k, h));
    forall i | 0 <= i < |body|
      ensures Padded(body, sid, key, seqNo, version, h)[i] == XorByte(body[i], pad[i / 16][i % 16])
    {
      ChainAt(base, n, h, i / 16, i % 16);
      assert 16 * (i / 16) + i % 16 == i;
    }
  }

  // ---- packets -----------------------------------------------------------------------------------

  function Header(seqNo: byte, sid: uint32, bodyLen: nat): (hdr: seq<byte>)
    ensures |hdr| == 12
  {
    [VERSION, TYPE_AUTHEN, seqNo, 0] + BigEndian(sid, 4) + BigEndian(bodyLen, 4)
  }

  method PutUint32(h: array<byte>, at: nat, n: nat)
    requires at + 4 <= h.Length
    modifies h
    ensures h[..] == old(h[..at]) + BigEndian(n, 4) + old(h[at + 4..])
  {
    var be := BigEndian(n, 4);
    for i := 0 to 4
      invariant h[..] == old(h[..at]) + be[..i] + old(h[at + i..])
    {
      h[at + i] := be[i];
    }
  }

  /** The header as the code writes it, field by field into a buffer. */
  method TacacsHeader(seqNo: byte, sid: uint32, bodyLen: nat) returns (h: array<byte>)
    ensures fresh(h) && h[..] == Header(seqNo, sid, bodyLen)
  {
    h := new byte[12](_ => 0);
    h[0], h[1], h[2], h[3] := VERSION, TYPE_AUTHEN, seqNo, 0;
    PutUint32(h, 4, sid);
    PutUint32(h, 8, bodyLen);
    assert h[..] == [VERSION, TYPE_AUTHEN, seqNo, 0] + BigEndian(sid, 4) + BigEndian(bodyLen, 4);
  }

  function Packet(seqNo: byte, sid: uint32, key: seq<byte>, body: seq<byte>, h: Hash): seq<byte> {
    Header(seqNo, sid, |body|) + Padded(body, sid, key, seqNo, VERSION, h)
  }

  datatype Read = Short | TooLarge | Got(seqNo: byte, body: seq<byte>, rest: seq<byte>)

  /** What reading one packet off `stream` yields.  The lowest flag bit marks a plain body. */
  function ReadPacket(stream: seq<byte>, key: seq<byte>, h: Hash): Read {
    if |stream| < 12 then Short
    else
      var blen := Value(stream[8..12]);
      if blen > MAX_BODY then TooLarge
      else if |stream| < 12 + blen then Short
      else
        var enc := stream[12..12 + blen];
        Got(stream[2],
            if stream[3] % 2 == 0 then Padded(enc, SessionOf(stream), key, stream[2], stream[0], h) else enc,
            stream[12 + blen..])
  }

  function SessionOf(stream: seq<byte>): uint32
    requires |stream| >= 12
  {
    ValueBelow(stream[4..8]);
    Value(stream[4..8])
  }

  lemma {:induction false} ValueBelow(s: seq<byte>)
    requires |s| == 4
    ensures Value(s) < 0x1_0000_0000
  {
    assert s[..3][..2][..1][..0] == [];
    assert Value(s[..3][..2][..1]) < 0x100;
    assert Value(s[..3][..2]) < 0x1_0000;
    assert Value(s[..3]) < 0x100_0000;
  }

  lemma HeaderParts(seqNo: byte, sid: uint32, n: nat, tail: seq<byte>)
    ensures var s := Header(seqNo, sid, n) + tail;
            && s[0] == 0xc0 && s[1] == 1 && s[2] == seqNo && s[3] == 0
            && SessionOf(s) == sid && Value(s[8..12]) == n % 0x1_0000_0000 && s[12..] == tail
  {
    var s := Header(seqNo, sid, n) + tail;
    assert s[4..8] == BigEndian(sid, 4);
    assert s[8..12] == BigEndian(n, 4);
    ValueOfBigEndian(sid, 4);
    ValueOfBigEndian(n, 4);
    Pow256Values();
  }

  lemma PaddedTwice(body: seq<byte>, sid: uint32, key: seq<byte>, seqNo: byte, version: byte, h: Hash)
    ensures Padded(Padded(body, sid, key, seqNo, version, h), sid, key, seqNo, version, h) == body
  {
    XorTwice(body, Chain(Base(sid, key, version, seqNo), (|body| + 15) / 16, h));
  }

  lemma Slices(hdr: seq<byte>, enc: seq<byte>, rest: seq<byte>)
    requires |hdr| == 12
    ensures var s := hdr + (enc + rest);
            s[12..12 + |enc|] == enc && s[12 + |enc|..] == rest
    ensures hdr + enc + rest == hdr + (enc + rest)
  {
  }

  lemma ReadParts(s: seq<byte>, key: seq<byte>, enc: seq<byte>, rest: seq<byte>, h: Hash)
    requires |s| == 12 + |enc| + |rest| && Value(s[8..12]) == |enc| <= MAX_BODY && s[3] == 0
    requires s[12..12 + |enc|] == enc && s[12 + |enc|..] == rest
    ensures ReadPacket(s, key, h) == Got(s[2], Padded(enc, SessionOf(s), key, s[2], s[0], h), rest)
  {
  }

  lemma {:induction false} ChainPrefix(base: seq<byte>, m: nat, n: nat, h: Hash)
    requires m <= n
    ensures Chain(base, n, h)[..16 * m] == Chain(base, m, h)
  {
    if m < n {
      ChainPrefix(base, m, n - 1, h);
      assert Chain(base, n, h)[..16 * m] == Chain(base, n - 1, h)[..16 * m];
    }
  }

  /** The obfuscation works byte by byte: cutting its result short is obfuscating a shorter body. */
  lemma PaddedPrefix(body: seq<byte>, m: nat, sid: uint32, key: seq<byte>, seqNo: byte, version: byte, h: Hash)
    requires m <= |body|
    ensures Padded(body, sid, key, seqNo, version, h)[..m] == Padded(body[..m], sid, key, seqNo, version, h)
  {
    var base := Base(sid, key, version, seqNo);
    ChainPrefix(base, (m + 15) / 16, (|body| + 15) / 16, h);
    var long, short := Chain(base, (|body| + 15) / 16, h), Chain(base, (m + 15) / 16, h);
    forall i | 0 <= i < m ensures long[i] == short[i] { assert long[..|short|][i] == long[i]; }
  }

  /** The body length a header can hold. */
  function Wrapped(n: nat): nat { n % 0x1_0000_0000 }

  lemma ReadBody(seqNo: byte, sid: uint32, key: seq<byte>, body: seq<byte>, rest: seq<byte>, h: Hash)
    requires Wrapped(|body|) <= MAX_BODY
    ensures var m := Wrapped(|body|);
            ReadPacket(Packet(seqNo, sid, key, body, h) + rest, key, h)
            == Got(seqNo, body[..m], (Padded(body, sid, key, seqNo, VERSION, h) + rest)[m..])
  {
    var hdr, pad, m := Header(seqNo, sid, |body|), Padded(body, sid, key, seqNo, VERSION, h), Wrapped(|body|);
    var enc, more := pad[..m], (pad + rest)[m..];
    assert pad + rest == enc + more;
    Slices(hdr, enc, more);
    Slices(hdr, pad, rest);
    HeaderParts(seqNo, sid, |body|, enc + more);
    ReadParts(hdr + (enc + more), key, enc, more, h);
    PaddedPrefix(body, m, sid, key, seqNo, VERSION, h);
    PaddedTwice(body[..m], sid, key, seqNo, VERSION, h);
  }

  lemma ReadTooLarge(s: seq<byte>, key: seq<byte>, h: Hash)
    requires |s| >= 12 && Value(s[8..12]) > MAX_BODY
    ensures ReadPacket(s, key, h) == TooLarge
  {
  }

  /** What reading a sent packet yields, for bodies of every length: the length field holds the
      length modulo 2^32, so a longer body arrives cut to that many bytes. */
  lemma {:induction false} ReadSent(seqNo: byte, sid: uint32, key: seq<byte>, body: seq<byte>, rest: seq<byte>,
                                    h: Hash)
    ensures var m := Wrapped(|body|);
            ReadPacket(Packet(seqNo, sid, key, body, h) + rest, key, h)
            == if m > MAX_BODY then TooLarge
               else Got(seqNo, body[..m], (Padded(body, sid, key, seqNo, VERSION, h) + rest)[m..])
  {
    if Wrapped(|body|) <= MAX_BODY {
      ReadBody(seqNo, sid, key, body, rest, h);
    } else {
      var hdr, pad := Header(seqNo, sid, |body|), Padded(body, sid, key, seqNo, VERSION, h);
      Slices(hdr, pad, rest);
      HeaderParts(seqNo, sid, |body|, pad + rest);
      ReadTooLarge(hdr + (pad + rest), key, h);
    }
  }

  lemma ReadShort(seqNo: byte, sid: uint32, key: seq<byte>, body: seq<byte>, rest: seq<byte>, h: Hash)
    requires |body| <= MAX_BODY
    ensures ReadPacket(Packet(seqNo, sid, key, body, h) + rest, key, h) == Got(seqNo, body, rest)
  {
    ReadSent(seqNo, sid, key, body, rest, h);
    var pad := Padded(body, sid, key, seqNo, VERSION, h);
    assert body[..|body|] == body && (pad + rest)[|pad|..] == rest;
  }

  lemma ReadAlone(seqNo: byte, sid: uint32, key: seq<byte>, body: seq<byte>, h: Hash)
    ensures var m, r := Wrapped(|body|), ReadPacket(Packet(seqNo, sid, key, body, h), key, h);
            if m > MAX_BODY then r == TooLarge else r.Got? && r.seqNo == seqNo && r.body == body[..m]
    ensures |body| <= MAX_BODY ==> ReadPacket(Packet(seqNo, sid, key, body, h), key, h) == Got(seqNo, body, [])
  {
    var p := Packet(seqNo, sid, key, body, h);
    assert p + [] == p;
    ReadSent(seqNo, sid, key, body, [], h);
    if |body| <= MAX_BODY { ReadShort(seqNo, sid, key, body, [], h); }
  }

  /** Reading a sent packet returns its sequence number and body, and leaves the rest of the
      stream, exactly for bodies up to 65536 bytes; longer ones, below 2^32, are refused. */
  lemma {:induction false} RoundTripIff(seqNo: byte, sid: uint32, key: seq<byte>, body: seq<byte>, rest: seq<byte>,
                                        h: Hash)
    ensures ReadPacket(Packet(seqNo, sid, key, body, h) + rest, key, h) == Got(seqNo, body, rest)
         <==> |body| <= 65536
    ensures 65536 < |body| < 0x1_0000_0000 ==>
         ReadPacket(Packet(seqNo, sid, key, body, h) + rest, key, h) == TooLarge
  {
    if |body| <= MAX_BODY {
      ReadShort(seqNo, sid, key, body, rest, h);
    } else {
      ReadSent(seqNo, sid, key, body, rest, h);
    }
  }

  lemma StreamTooShort(s: seq<byte>, key: seq<byte>, h: Hash)
    requires |s| >= 12 && Value(s[8..12]) <= 65536 && |s| < 12 + Value(s[8..12])
    ensures ReadPacket(s, key, h) == Short
  {
  }

  lemma ReadPlain(s: seq<byte>, key: seq<byte>, n: nat, h: Hash)
    requires |s| >= 12 + n && Value(s[8..12]) == n <= 65536 && s[3] % 2 == 1
    ensures ReadPacket(s, key, h) == Got(s[2], s[12..12 + n], s[12 + n..])
  {
  }

  /** A stream that ends before the packet does is an error, wherever it ends. */
  lemma CutIsShort(seqNo: byte, sid: uint32, key: seq<byte>, body: seq<byte>, h: Hash, k: nat)
    requires |body| <= 65536 && k < |Packet(seqNo, sid, key, body, h)|
    ensures ReadPacket(Packet(seqNo, sid, key, body, h)[..k], key, h) == Short
  {
    if k >= 12 {
      var hdr, pad := Header(seqNo, sid, |body|), Padded(body, sid, key, seqNo, VERSION, h);
      HeaderParts(seqNo, sid, |body|, pad[..k - 12]);
      assert (hdr + pad)[..k] == hdr + pad[..k - 12];
      StreamTooShort(hdr + pad[..k - 12], key, h);
    }
  }

  /** With the lowest flag bit set the body is taken as it stands. */
  lemma PlainBody(version: byte, seqNo: byte, flags: byte, sid: uint32, key: seq<byte>, body: seq<byte>,
                  rest: seq<byte>, h: Hash)
    requires |body| <= 65536 && flags % 2 == 1
    ensures ReadPacket([version, 1, seqNo, flags] + BigEndian(sid, 4) + BigEndian(|body|, 4) + (body + rest), key, h)
         == Got(seqNo, body, rest)
  {
    var hdr := [version, 1, seqNo, flags] + BigEndian(sid, 4) + BigEndian(|body|, 4);
    var s := hdr + (body + rest);
    assert s[8..12] == BigEndian(|body|, 4);
    ValueOfBigEndian(|body|, 4);
    Pow256Values();
    Slices(hdr, body, rest);
    ReadPlain(s, key, |body|, h);
  }

  // ---- bodies, sections 5.1 to 5.3 -------------------------------------------------------------------

  /** The START body: login, privilege 1, ASCII, login service, and the user name. */
  function StartBody(user: seq<byte>): seq<byte> {
    [1, 1, 1, 1, ByteOf(|user|), 0, 0, 0] + user
  }

  function ContinueBody(password: seq<byte>): seq<byte> {
    BigEndian(|password|, 2) + [0, 0, 0] + password
  }

  /** The status of a REPLY body, which has at least six bytes. */
  function ReplyStatus(body: seq<byte>): Option<byte> {
    if |body| < 6 then None else Some(body[0])
  }

  datatype StartFields = StartFields(action: byte, privLvl: byte, authenType: byte, service: byte,
                                     user: seq<byte>, port: seq<byte>, remAddr: seq<byte>, data: seq<byte>)

  /** A START body as section 5.1 of RFC 8907 lays it out: four bytes, four lengths, four fields. */
  function DecodeStart(b: seq<byte>): Option<StartFields> {
    if |b| < 8 then None
    else
      var u: nat, p: nat, r: nat, d: nat := b[4], b[5], b[6], b[7];
      if |b| != 8 + u + p + r + d then None
      else Some(StartFields(b[0], b[1], b[2], b[3], b[8..8 + u], b[8 + u..8 + u + p],
                            b[8 + u + p..8 + u + p + r], b[8 + u + p + r..]))
  }

  datatype ContinueFields = ContinueFields(userMsg: seq<byte>, data: seq<byte>, flags: byte)

  /** A CONTINUE body as section 5.3 lays it out: two lengths, the flags, two fields. */
  function DecodeContinue(b: seq<byte>): Option<ContinueFields> {
    if |b| < 5 then None
    else
      var m, d := Value(b[0..2]), Value(b[2..4]);
      if |b| != 5 + m + d then None
      else Some(ContinueFields(b[5..5 + m], b[5 + m..], b[4]))
  }

  /** The START body says what it should exactly for user names up to 255 bytes. */
  lemma StartDecodesIff(user: seq<byte>)
    ensures DecodeStart(StartBody(user)) == Some(StartFields(1, 1, 1, 1, user, [], [], [])) <==> |user| <= 255
    ensures |user| > 255 ==> DecodeStart(StartBody(user)) == None
  {
    var b := StartBody(user);
    assert b[8..] == user;
    var n := 8 + |user|;
    assert b[8..n] == user && b[n..n] == [] && b[n..] == [];
  }

  lemma ContinueParts(password: seq<byte>)
    ensures var b := ContinueBody(password);
            && |b| == 5 + |password| && b[4] == 0 && b[5..] == password
            && Value(b[0..2]) == |password| % 0x1_0000 && Value(b[2..4]) == 0
  {
    var b := ContinueBody(password);
    ValueOfBigEndian(|password|, 2);
    Pow256Values();
    assert b[0..2] == BigEndian(|password|, 2);
    assert b[2..4] == [0, 0];
    assert [0 as byte, 0][..1] == [0] && [0 as byte][..0] == [];
  }

  /** The CONTINUE body carries the password exactly when it has up to 65535 bytes. */
  lemma ContinueDecodesIff(password: seq<byte>)
    ensures DecodeContinue(ContinueBody(password)) == Some(ContinueFields(password, [], 0)) <==> |password| <= 65535
    ensures |password| > 65535 ==> DecodeContinue(ContinueBody(password)) == None
  {
    var b := ContinueBody(password);
    ContinueParts(password);
    var n := 5 + |password|;
    assert b[5..n] == password && b[n..] == [];
  }

  /** How much of a user name or password arrives. */
  function Cut(s: seq<byte>): seq<byte> { s[..Wrapped(|s|)] }

  /** Of a text shorter than 2^32 bytes everything arrives. */
  lemma NothingCut(s: seq<byte>)
    ensures Cut(s) == s <==> |s| < 0x1_0000_0000
  {
  }

  lemma LowByteOfCut(n: nat)
    ensures n % 256 == Wrapped(n) % 256 && n % 0x1_0000 == Wrapped(n) % 0x1_0000
  {
    var q, r := n / 0x1_0000_0000, Wrapped(n);
    assert n == 0x1_0000_0000 * q + r;
    ModIs(n, 256, 0x100_0000 * q + r / 256, r % 256);
    ModIs(n, 0x1_0000, 0x1_0000 * q + r / 0x1_0000, r % 0x1_0000);
  }

  /** Adding a few fixed bytes to a length either keeps it within the field or wraps it to almost nothing. */
  lemma WrappedPlus(k: nat, n: nat)
    requires k < 0x1_0000_0000
    ensures Wrapped(k + n) == if Wrapped(n) < 0x1_0000_0000 - k then k + Wrapped(n) else k + Wrapped(n) - 0x1_0000_0000
  {
    var q, r := n / 0x1_0000_0000, Wrapped(n);
    assert n == 0x1_0000_0000 * q + r;
    if r < 0x1_0000_0000 - k {
      ModIs(k + n, 0x1_0000_0000, q, k + r);
    } else {
      ModIs(k + n, 0x1_0000_0000, q + 1, k + r - 0x1_0000_0000);
    }
  }

  /** The START body cut to what its header can announce: it decodes exactly when what is left of
      the user name has up to 255 bytes. */
  lemma StartArrives(user: seq<byte>)
    ensures var m := Wrapped(8 + |user|);
            if |Cut(user)| <= 255
            then m <= MAX_BODY
                 && DecodeStart(StartBody(user)[..m]) == Some(StartFields(1, 1, 1, 1, Cut(user), [], [], []))
            else m > MAX_BODY || DecodeStart(StartBody(user)[..m]) == None
  {
    var w, m := |Cut(user)|, Wrapped(8 + |user|);
    LowByteOfCut(|user|);
    WrappedPlus(8, |user|);
    if w < 0x1_0000_0000 - 8 {
      var b := StartBody(user)[..m];
      assert b[4] == w % 256 && b[5] == 0 && b[6] == 0 && b[7] == 0;
      assert b[8..8 + w] == Cut(user) && b[8 + w..8 + w] == [] && b[8 + w..] == [];
    }
  }

  /** The CONTINUE body likewise, for what is left of the password. */
  lemma ContinueArrives(password: seq<byte>)
    ensures var m := Wrapped(5 + |password|);
            if |Cut(password)| <= 65531
            then m <= MAX_BODY
                 && DecodeContinue(ContinueBody(password)[..m]) == Some(ContinueFields(Cut(password), [], 0))
            else m > MAX_BODY || DecodeContinue(ContinueBody(password)[..m]) == None
  {
    var w, m := |Cut(password)|, Wrapped(5 + |password|);
    ContinueParts(password);
    LowByteOfCut(|password|);
    WrappedPlus(5, |password|);
    if w < 0x1_0000_0000 - 5 {
      CutContinue(ContinueBody(password), password, w);
    }
  }

  lemma CutContinue(full: seq<byte>, password: seq<byte>, w: nat)
    requires |full| == 5 + |password| && full[4] == 0 && full[5..] == password && w <= |password|
    requires Value(full[0..2]) == w % 0x1_0000 && Value(full[2..4]) == 0
    ensures DecodeContinue(full[..5 + w])
         == if w < 0x1_0000 then Some(ContinueFields(password[..w], [], 0)) else None
  {
    var b := full[..5 + w];
    assert b[0..2] == full[0..2] && b[2..4] == full[2..4];
    if w < 0x1_0000 { assert b[5..5 + w] == password[..w] && b[5 + w..] == []; }
  }

  // ---- the exchange ----------------------------------------------------------------------------------

  /** The other end: what it has answered, given everything sent to it so far. */
  type Peer = seq<byte> -> seq<byte>

  datatype Verdict = Unavailable | Denied | Accepted

  function Drop(s: seq<byte>, n: nat): seq<byte> { if n <= |s| then s[n..] else [] }

  /** The login exchange: START, a reply, and if it asks for the password CONTINUE and a reply. */
  function AuthCheck(peer: Peer, sid: uint32, key: seq<byte>, user: seq<byte>, password: seq<byte>, h: Hash): Verdict {
    var sent := Packet(1, sid, key, StartBody(user), h);
    match ReadPacket(peer(sent), key, h)
    case Got(_, body, rest) =>
      (match ReplyStatus(body)
       case None => Unavailable
       case Some(st) =>
         if st == STATUS_PASS then Accepted
         else if st != STATUS_GETPASS then Denied
         else
           var sent2 := sent + Packet(3, sid, key, ContinueBody(password), h);
           LastReply(Drop(peer(sent2), |peer(sent)| - |rest|), key, h))
    case _ => Unavailable
  }

  /** What the client makes of the reply to CONTINUE. */
  function LastReply(reply: seq<byte>, key: seq<byte>, h: Hash): Verdict {
    match ReadPacket(reply, key, h)
    case Got(_, body, _) =>
      (match ReplyStatus(body)
       case None => Unavailable
       case Some(st) => if st == STATUS_PASS then Accepted else Denied)
    case _ => Unavailable
  }

  ghost predicate Readable(r: Read) { r.Got? && |r.body| >= 6 }

  ghost predicate Says(r: Read, status: byte) { Readable(r) && r.body[0] == status }

  /** Whatever the other end sends: the login is accepted exactly on status PASS (0x01), at once or after
      it asked for the password with GETPASS (0x05) and was sent that as the third packet; it is
      unavailable exactly when a reply it needs cannot be read; and everything else is a denial. */
  lemma VerdictIs(peer: Peer, sid: uint32, key: seq<byte>, user: seq<byte>, password: seq<byte>, h: Hash)
    ensures var start := Packet(1, sid, key, StartBody(user), h);
            var first := ReadPacket(peer(start), key, h);
            var used := if first.Got? then |peer(start)| - |first.rest| else 0;
            var all := peer(start + Packet(3, sid, key, ContinueBody(password), h));
            var last := ReadPacket(if 0 <= used <= |all| then all[used..] else [], key, h);
            var v := AuthCheck(peer, sid, key, user, password, h);
            && (v == Accepted <==> Says(first, 1) || (Says(first, 5) && Says(last, 1)))
            && (v == Unavailable <==> !Readable(first) || (Says(first, 5) && !Readable(last)))
  {
  }

  function ReplyBody(status: byte): seq<byte> { [status, 0, 0, 0, 0, 0] }

  /** A packet of an ASCII login, version 0xc0 and type 1, with this sequence number (section 4.1). */
  predicate Framed(s: seq<byte>, seqNo: byte) { |s| >= 12 && s[0] == 0xc0 && s[1] == 1 && s[2] == seqNo }

  /** A server that follows the RFC: it decodes START, asks for the password, decodes CONTINUE
      and answers with PASS or FAIL as `accepts` says; it is silent on anything malformed. */
  function Server(key: seq<byte>, h: Hash, accepts: (seq<byte>, seq<byte>) -> bool): Peer {
    (sent: seq<byte>) => ServerReply(sent, key, h, accepts)
  }

  function ServerReply(sent: seq<byte>, key: seq<byte>, h: Hash, accepts: (seq<byte>, seq<byte>) -> bool): seq<byte> {
    if !Framed(sent, 1) then []
    else
      match ReadPacket(sent, key, h)
      case Got(_, body, rest) =>
        (match DecodeStart(body)
         case None => []
         case Some(st) =>
           Packet(2, SessionOf(sent), key, ReplyBody(5), h)
           + Decision(rest, SessionOf(sent), st.user, key, h, accepts))
      case _ => []
  }

  /** The server's decision on what follows START, for the user named there; none if that is not the
      CONTINUE of the same session. */
  function Ruling(sent: seq<byte>, sid: uint32, user: seq<byte>, key: seq<byte>, h: Hash,
                  accepts: (seq<byte>, seq<byte>) -> bool): Option<bool> {
    if !Framed(sent, 3) || SessionOf(sent) != sid then None
    else
      match ReadPacket(sent, key, h)
      case Got(_, body, _) =>
        (match DecodeContinue(body)
         case None => None
         case Some(c) => Some(accepts(user, c.userMsg)))
      case _ => None
  }

  function Decision(sent: seq<byte>, sid: uint32, user: seq<byte>, key: seq<byte>, h: Hash,
                    accepts: (seq<byte>, seq<byte>) -> bool): seq<byte> {
    match Ruling(sent, sid, user, key, h, accepts)
    case None => []
    case Some(ok) => Packet(4, sid, key, ReplyBody(if ok then 1 else 2), h)
  }

  lemma SessionOfPacket(seqNo: byte, sid: uint32, key: seq<byte>, body: seq<byte>, rest: seq<byte>, h: Hash)
    ensures |Packet(seqNo, sid, key, body, h)| == 12 + |body|
    ensures Framed(Packet(seqNo, sid, key, body, h) + rest, seqNo)
    ensures SessionOf(Packet(seqNo, sid, key, body, h) + rest) == sid
  {
    var enc := Padded(body, sid, key, seqNo, VERSION, h);
    assert Packet(seqNo, sid, key, body, h) + rest == Header(seqNo, sid, |body|) + (enc + rest);
    HeaderParts(seqNo, sid, |body|, enc + rest);
  }

  /** The part of START beyond the length its header can hold, which the server takes for the
      beginning of the next packet. */
  function Leftover(sid: uint32, key: seq<byte>, user: seq<byte>, h: Hash): seq<byte> {
    Padded(StartBody(user), sid, key, 1, VERSION, h)[Wrapped(8 + |user|)..]
  }

  lemma StartGot(sid: uint32, key: seq<byte>, user: seq<byte>, q: seq<byte>, h: Hash)
    requires Wrapped(8 + |user|) <= MAX_BODY
    ensures ReadPacket(Packet(1, sid, key, StartBody(user), h) + q, key, h)
         == Got(1, StartBody(user)[..Wrapped(8 + |user|)], Leftover(sid, key, user, h) + q)
  {
    var pad, m := Padded(StartBody(user), sid, key, 1, VERSION, h), Wrapped(8 + |user|);
    assert |StartBody(user)| == 8 + |user|;
    ReadSent(1, sid, key, StartBody(user), q, h);
    assert (pad + q)[m..] == pad[m..] + q;
  }

  /** After a START it can decode, the server asks for the password and goes on with what follows. */
  lemma ServerAsks(sid: uint32, key: seq<byte>, user: seq<byte>, q: seq<byte>, h: Hash,
                   accepts: (seq<byte>, seq<byte>) -> bool)
    requires |Cut(user)| <= 255
    ensures ServerReply(Packet(1, sid, key, StartBody(user), h) + q, key, h, accepts)
         == Packet(2, sid, key, ReplyBody(5), h)
            + Decision(Leftover(sid, key, user, h) + q, sid, Cut(user), key, h, accepts)
  {
    StartArrives(user);
    StartGot(sid, key, user, q, h);
    SessionOfPacket(1, sid, key, StartBody(user), q, h);
  }

  /** The server does not answer a START it cannot decode. */
  lemma ServerIgnores(sid: uint32, key: seq<byte>, user: seq<byte>, h: Hash, accepts: (seq<byte>, seq<byte>) -> bool)
    requires |Cut(user)| > 255
    ensures ServerReply(Packet(1, sid, key, StartBody(user), h), key, h, accepts) == []
  {
    ReadAlone(1, sid, key, StartBody(user), h);
    StartArrives(user);
    assert |StartBody(user)| == 8 + |user|;
  }

  /** The client reads the request for the password, and then the reply to CONTINUE. */
  lemma ClientFollows(peer: Peer, sid: uint32, key: seq<byte>, user: seq<byte>, password: seq<byte>, h: Hash,
                      early: seq<byte>, late: seq<byte>)
    requires var sent, r := Packet(1, sid, key, StartBody(user), h), Packet(2, sid, key, ReplyBody(5), h);
             peer(sent) == r + early && peer(sent + Packet(3, sid, key, ContinueBody(password), h)) == r + late
    ensures AuthCheck(peer, sid, key, user, password, h) == LastReply(late, key, h)
  {
    var r := Packet(2, sid, key, ReplyBody(5), h);
    ReadShort(2, sid, key, ReplyBody(5), early, h);
    assert Drop(r + late, |r|) == late;
  }

  function VerdictOf(ruling: Option<bool>): Verdict {
    match ruling case None => Unavailable case Some(ok) => if ok then Accepted else Denied
  }

  lemma DecisionReported(sent: seq<byte>, sid: uint32, user: seq<byte>, key: seq<byte>, h: Hash,
                         accepts: (seq<byte>, seq<byte>) -> bool)
    ensures LastReply(Decision(sent, sid, user, key, h, accepts), key, h)
         == VerdictOf(Ruling(sent, sid, user, key, h, accepts))
  {
    var ruling := Ruling(sent, sid, user, key, h, accepts);
    if ruling.Some? {
      ReadAlone(4, sid, key, ReplyBody(if ruling.value then 1 else 2), h);
    }
  }

  /** Against a server with the same key, for user names and passwords of every length: when more
      than 255 bytes of the name arrive the server is unavailable; otherwise the exchange reports
      the server's own ruling on the name that arrived and the bytes that follow it. */
  lemma {:induction false} ExchangeReportsRuling(sid: uint32, key: seq<byte>, user: seq<byte>, password: seq<byte>,
                                                 h: Hash, accepts: (seq<byte>, seq<byte>) -> bool)
    ensures AuthCheck(Server(key, h, accepts), sid, key, user, password, h)
         == if |Cut(user)| > 255 then Unavailable
            else VerdictOf(Ruling(Leftover(sid, key, user, h) + Packet(3, sid, key, ContinueBody(password), h),
                                  sid, Cut(user), key, h, accepts))
  {
    if |Cut(user)| > 255 {
      ServerIgnores(sid, key, user, h, accepts);
    } else {
      var p, q := Packet(1, sid, key, StartBody(user), h), Packet(3, sid, key, ContinueBody(password), h);
      var left := Leftover(sid, key, user, h);
      assert p + [] == p;
      ServerAsks(sid, key, user, [], h, accepts);
      ServerAsks(sid, key, user, q, h, accepts);
      ClientFollows(Server(key, h, accepts), sid, key, user, password, h,
                    Decision(left + [], sid, Cut(user), key, h, accepts),
                    Decision(left + q, sid, Cut(user), key, h, accepts));
      DecisionReported(left + q, sid, Cut(user), key, h, accepts);
    }
  }

  /** The server rules on what arrived of the password, if that has up to 65531 bytes. */
  lemma RulingOnPassword(sid: uint32, key: seq<byte>, user: seq<byte>, password: seq<byte>, h: Hash,
                         accepts: (seq<byte>, seq<byte>) -> bool)
    ensures Ruling(Packet(3, sid, key, ContinueBody(password), h), sid, user, key, h, accepts)
         == if |Cut(password)| <= 65531 then Some(accepts(user, Cut(password))) else None
  {
    var p := Packet(3, sid, key, ContinueBody(password), h);
    assert p + [] == p;
    SessionOfPacket(3, sid, key, ContinueBody(password), [], h);
    ReadAlone(3, sid, key, ContinueBody(password), h);
    ContinueArrives(password);
    ContinueParts(password);
  }

  lemma NothingLeft(sid: uint32, key: seq<byte>, user: seq<byte>, h: Hash)
    requires |user| <= 255
    ensures Leftover(sid, key, user, h) == [] && Cut(user) == user
  {
  }

  lemma ShortUserDecided(sid: uint32, key: seq<byte>, user: seq<byte>, password: seq<byte>, h: Hash,
                         accepts: (seq<byte>, seq<byte>) -> bool)
    requires |user| <= 255
    ensures Ruling(Leftover(sid, key, user, h) + Packet(3, sid, key, ContinueBody(password), h),
                   sid, Cut(user), key, h, accepts)
         == if |Cut(password)| <= 65531 then Some(accepts(user, Cut(password))) else None
  {
    var q := Packet(3, sid, key, ContinueBody(password), h);
    NothingLeft(sid, key, user, h);
    assert [] + q == q;
    RulingOnPassword(sid, key, user, password, h, accepts);
  }

  /** For user names that fit, that is the server's decision on the name and on what arrives of the
      password, exactly when that has up to 65531 bytes (four less than its length field allows,
      since the packet limit counts the fixed fields too).  See `NothingCut`. */
  lemma {:induction false} ExchangeReportsDecision(sid: uint32, key: seq<byte>, user: seq<byte>, password: seq<byte>,
                                                   h: Hash, accepts: (seq<byte>, seq<byte>) -> bool)
    requires |user| <= 255
    ensures AuthCheck(Server(key, h, accepts), sid, key, user, password, h)
         == if |Cut(password)| > 65531 then Unavailable
            else if accepts(user, Cut(password)) then Accepted
            else Denied
  {
    NothingLeft(sid, key, user, h);
    ExchangeReportsRuling(sid, key, user, password, h, accepts);
    ShortUserDecided(sid, key, user, password, h, accepts);
  }
}
