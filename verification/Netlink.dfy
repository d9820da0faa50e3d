/** The hand-framed netlink requests: the growing buffer, and the attribute parser that reads them back. */
module Netlink {
  import opened Common
  import opened Bytes
  import Cidr

  function Decode16(s: seq<Byte>): Uint16
    requires |s| == 2
  {
    var low: int, high: int := s[0], s[1];
    low + 0x100 * high
  }

  function Decode32(s: seq<Byte>): Uint32
    requires |s| == 4
  {
    var low: int, high: int := Decode16(s[..2]), Decode16(s[2..]);
    low + 0x1_0000 * high
  }

  lemma LittleEndianRoundTrip(v: Uint16, w: Uint32)
    ensures Decode16(LE16(v)) == v
    ensures Decode32(LE32(w)) == w
  {
    assert LE32(w)[..2] == LE16(w % 0x1_0000) && LE32(w)[2..] == LE16(w / 0x1_0000);
  }

  function Padded(s: seq<Byte>): (p: seq<Byte>)
    ensures |p| == Align(|s|) && s <= p
  {
    s + Zeros(Align(|s|) - |s|)
  }

  datatype Attr = Attr(typ: Uint16, value: seq<Byte>)

  /** An attribute before padding: length with the 4-byte header counted, type, value. The length field
      has 16 bits. */
  function RawAttr(a: Attr): (s: seq<Byte>)
    ensures |s| == 4 + |a.value|
  {
    LE16((4 + |a.value|) % 0x1_0000) + LE16(a.typ) + a.value
  }

  function EncodeAttr(a: Attr): (s: seq<Byte>)
    ensures |s| == Align(4 + |a.value|) && |s| % 4 == 0
  {
    Padded(RawAttr(a))
  }

  lemma AlignedSum(m: nat, n: nat)
    requires m % 4 == 0 && n % 4 == 0
    ensures (m + n) % 4 == 0
  {}

  function EncodeAttrs(attrs: seq<Attr>): (s: seq<Byte>)
    ensures |s| % 4 == 0
  {
    if attrs == [] then []
    else
      AlignedSum(|EncodeAttr(attrs[0])|, |EncodeAttrs(attrs[1..])|);
      EncodeAttr(attrs[0]) + EncodeAttrs(attrs[1..])
  }

  /** Section 2.3.2 of RFC 3549: attributes follow one another, each starting at a multiple of four. */
  function ParseAttrs(s: seq<Byte>): Option<seq<Attr>>
    decreases |s|
  {
    if s == [] then Some([])
    else if |s| < 4 then None
    else
      var len := Decode16(s[..2]);
      if len < 4 || len > |s| then None
      else
        var rest := ParseAttrs(if Align(len) <= |s| then s[Align(len)..] else []);
        if rest.None? then None else Some([Attr(Decode16(s[2..4]), s[4..len])] + rest.value)
  }

  /** Values whose attribute fits the 16-bit length. */
  predicate Fits(attrs: seq<Attr>) {
    forall i | 0 <= i < |attrs| :: |attrs[i].value| < 65532
  }

  lemma RawPieces(a: Attr)
    requires |a.value| < 65532
    ensures var raw := RawAttr(a);
            raw[..2] == LE16(4 + |a.value|) && raw[2..4] == LE16(a.typ) && raw[4..] == a.value
  {
    assert (4 + |a.value|) % 0x1_0000 == 4 + |a.value|;
    Pieces(LE16(4 + |a.value|), LE16(a.typ), a.value);
  }

  lemma Pieces(a: seq<Byte>, b: seq<Byte>, rest: seq<Byte>)
    requires |a| == 2 && |b| == 2
    ensures var s := a + b + rest; s[..2] == a && s[2..4] == b && s[4..] == rest
  {}

  lemma AttrPieces(a: Attr, tail: seq<Byte>)
    requires |a.value| < 65532
    ensures var s, len := EncodeAttr(a) + tail, 4 + |a.value|;
            && |s| == Align(len) + |tail| && Decode16(s[..2]) == len && Decode16(s[2..4]) == a.typ
            && s[4..len] == a.value && s[Align(len)..] == tail
  {
    var s, len := EncodeAttr(a) + tail, 4 + |a.value|;
    LittleEndianRoundTrip(len, 0);
    LittleEndianRoundTrip(a.typ, 0);
    RawPieces(a);
    assert EncodeAttr(a) == s[..Align(len)] && s[..len] == RawAttr(a);
    assert s[..2] == s[..len][..2] && s[2..4] == s[..len][2..4] && s[4..len] == s[..len][4..];
  }

  lemma {:induction false} FittingAttrsRoundTrip(attrs: seq<Attr>)
    requires Fits(attrs)
    ensures ParseAttrs(EncodeAttrs(attrs)) == Some(attrs)
  {
    if attrs != [] {
      AttrPieces(attrs[0], EncodeAttrs(attrs[1..]));
      FittingAttrsRoundTrip(attrs[1..]);
      assert attrs == [attrs[0]] + attrs[1..];
    }
  }

  lemma {:induction false} ParsedAttrsFit(s: seq<Byte>)
    ensures ParseAttrs(s).Some? ==> Fits(ParseAttrs(s).value)
    decreases |s|
  {
    if |s| >= 4 {
      var len := Decode16(s[..2]);
      if 4 <= len <= |s| {
        ParsedAttrsFit(if Align(len) <= |s| then s[Align(len)..] else []);
      }
    }
  }

  /** The parser returns the attributes that were written, in order, exactly when every value fits. */
  lemma AttrsRoundTripIffFit(attrs: seq<Attr>)
    ensures ParseAttrs(EncodeAttrs(attrs)) == Some(attrs) <==> Fits(attrs)
  {
    ParsedAttrsFit(EncodeAttrs(attrs));
    if Fits(attrs) {
      FittingAttrsRoundTrip(attrs);
    }
  }

  const HEADER_LENGTH := 16

  /** The 16-byte message header: length, type, flags, sequence number, port. */
  function Header(length: Uint32, msgType: Uint16, flags: Uint16): (s: seq<Byte>)
    ensures |s| == HEADER_LENGTH
  {
    LE32(length) + HeaderTail(msgType, flags)
  }

  function HeaderTail(msgType: Uint16, flags: Uint16): (s: seq<Byte>)
    ensures |s| == HEADER_LENGTH - 4
  {
    LE16(msgType) + LE16(flags) + LE32(1) + LE32(0)
  }

  /** The buffer before its length is filled in. */
  function Unsealed(msgType: Uint16, flags: Uint16, body: seq<Byte>, attrs: seq<Attr>): (s: seq<Byte>)
    ensures |s| % 4 == 0 && |s| >= HEADER_LENGTH
  {
    AlignedSum(HEADER_LENGTH, Align(|body|));
    AlignedSum(HEADER_LENGTH + Align(|body|), |EncodeAttrs(attrs)|);
    Header(0, msgType, flags) + Padded(body) + EncodeAttrs(attrs)
  }

  /** The finished message. */
  function Frame(msgType: Uint16, flags: Uint16, body: seq<Byte>, attrs: seq<Attr>): (s: seq<Byte>)
    ensures |s| == |Unsealed(msgType, flags, body, attrs)|
  {
    var u := Unsealed(msgType, flags, body, attrs);
    LE32(|u| % 0x1_0000_0000) + u[4..]
  }

  lemma AttrsOneMore(attrs: seq<Attr>, a: Attr)
    ensures EncodeAttrs(attrs + [a]) == EncodeAttrs(attrs) + EncodeAttr(a)
  {
    if attrs == [] {
      assert [a][1..] == [];
      assert attrs + [a] == [a];
    } else {
      assert (attrs + [a])[1..] == attrs[1..] + [a];
      AttrsOneMore(attrs[1..], a);
    }
  }

  /** One round of a padding loop. */
  function OneMoreZero(ghost raw: seq<Byte>, s: seq<Byte>): (t: seq<Byte>)
    requires |raw| <= |s| && s == raw + Zeros(|s| - |raw|)
    ensures |t| == |s| + 1 && t == raw + Zeros(|t| - |raw|)
  {
    assert Zeros(|s| + 1 - |raw|) == Zeros(|s| - |raw|) + [0];
    s + [0]
  }

  /** The loop that pads an attribute before it joins the buffer. */
  method PadAttr(raw: seq<Byte>) returns (attr: seq<Byte>)
    ensures attr == Padded(raw)
  {
    attr := raw;
    while |attr| % 4 != 0
      invariant |raw| <= |attr| <= Align(|raw|)
      invariant attr == raw + Zeros(|attr| - |raw|)
      decreases Align(|raw|) - |attr|
    {
      attr := OneMoreZero(raw, attr);
    }
  }

  class NlMsg {
    var buf: seq<Byte>

    constructor (msgType: Uint16, flags: Uint16)
      ensures buf == Header(0, msgType, flags) && |buf| % 4 == 0
    {
      buf := Header(0, msgType, flags);
    }

    method Append(b: seq<Byte>)
      modifies this
      ensures buf == Padded(old(buf) + b) && |buf| % 4 == 0
    {
      buf := buf + b;
      Pad();
    }

    method Pad()
      modifies this
      ensures buf == Padded(old(buf))
    {
      while |buf| % 4 != 0
        invariant buf == old(buf) + Zeros(|buf| - |old(buf)|)
        invariant |old(buf)| <= |buf| <= Align(|old(buf)|)
        decreases Align(|old(buf)|) - |buf|
      {
        buf := OneMoreZero(old(buf), buf);
      }
    }

    method AppendAttr(typ: Uint16, value: seq<Byte>)
      requires |buf| % 4 == 0
      modifies this
      ensures buf == old(buf) + EncodeAttr(Attr(typ, value)) && |buf| % 4 == 0
    {
      var attr := PadAttr(RawAttr(Attr(typ, value)));
      ghost var before := buf;
      buf := buf + attr;
      assert |buf| == |before| + |attr|;
    }

    /** Fills in the length and hands the buffer out. */
    method Bytes() returns (b: seq<Byte>)
      requires |buf| >= HEADER_LENGTH
      modifies this
      ensures b == buf == LE32(|old(buf)| % 0x1_0000_0000) + old(buf)[4..]
    {
      buf := LE32(|buf| % 0x1_0000_0000) + buf[4..];
      b := buf;
    }
  }

  datatype Message = Message(msgType: Uint16, flags: Uint16, seqNo: Uint32, port: Uint32, body: seq<Byte>,
                             attrs: seq<Attr>)

  /** Reads one message whose fixed body has a known length; the header must give the real length. */
  function ParseMessage(s: seq<Byte>, bodyLength: nat): Option<Message> {
    if |s| < HEADER_LENGTH + Align(bodyLength) || Decode32(s[..4]) != |s| then None
    else
      var attrs := ParseAttrs(s[HEADER_LENGTH + Align(bodyLength)..]);
      if attrs.None? then None
      else Some(Message(Decode16(s[4..6]), Decode16(s[6..8]), Decode32(s[8..12]), Decode32(s[12..16]),
                        s[HEADER_LENGTH..HEADER_LENGTH + bodyLength], attrs.value))
  }

  /** The header fields, at their offsets, whatever follows them. */
  lemma HeaderPieces(length: Uint32, msgType: Uint16, flags: Uint16, rest: seq<Byte>)
    ensures var s := Header(length, msgType, flags) + rest;
            && s[..4] == LE32(length) && s[4..6] == LE16(msgType) && s[6..8] == LE16(flags)
            && s[8..12] == LE32(1) && s[12..16] == LE32(0) && s[HEADER_LENGTH..] == rest
  {
    var s := Header(length, msgType, flags) + rest;
    assert s == LE32(length) + LE16(msgType) + LE16(flags) + LE32(1) + LE32(0) + rest;
  }

  lemma FrameIsHeaded(msgType: Uint16, flags: Uint16, body: seq<Byte>, attrs: seq<Attr>)
    ensures var s := Frame(msgType, flags, body, attrs);
            s == Header(|s| % 0x1_0000_0000, msgType, flags) + (Padded(body) + EncodeAttrs(attrs))
  {
    var u, rest := Unsealed(msgType, flags, body, attrs), Padded(body) + EncodeAttrs(attrs);
    assert u == LE32(0) + (HeaderTail(msgType, flags) + rest);
    assert u[4..] == HeaderTail(msgType, flags) + rest;
  }

  lemma FramePieces(msgType: Uint16, flags: Uint16, body: seq<Byte>, attrs: seq<Attr>)
    ensures var s := Frame(msgType, flags, body, attrs);
            && |s| == HEADER_LENGTH + Align(|body|) + |EncodeAttrs(attrs)|
            && s[..4] == LE32(|s| % 0x1_0000_0000) && s[4..6] == LE16(msgType) && s[6..8] == LE16(flags)
            && s[8..12] == LE32(1) && s[12..16] == LE32(0)
            && s[HEADER_LENGTH..HEADER_LENGTH + |body|] == body
            && s[HEADER_LENGTH + Align(|body|)..] == EncodeAttrs(attrs)
  {
    var s, rest := Frame(msgType, flags, body, attrs), Padded(body) + EncodeAttrs(attrs);
    FrameIsHeaded(msgType, flags, body, attrs);
    HeaderPieces(|s| % 0x1_0000_0000, msgType, flags, rest);
    assert s[HEADER_LENGTH..HEADER_LENGTH + |body|] == s[HEADER_LENGTH..][..|body|];
    assert s[HEADER_LENGTH + Align(|body|)..] == s[HEADER_LENGTH..][Align(|body|)..];
  }

  /** A built message is aligned, and reads back as what went into it exactly when its values fit
      their 16-bit lengths and it fits its own 32-bit one. */
  lemma FrameRoundTrip(msgType: Uint16, flags: Uint16, body: seq<Byte>, attrs: seq<Attr>)
    ensures var s := Frame(msgType, flags, body, attrs);
            && |s| % 4 == 0
            && (ParseMessage(s, |body|) == Some(Message(msgType, flags, 1, 0, body, attrs)) <==>
                Fits(attrs) && |s| < 0x1_0000_0000)
  {
    FramePieces(msgType, flags, body, attrs);
    HeaderRoundTrip(msgType, flags, |Frame(msgType, flags, body, attrs)|);
    AttrsRoundTripIffFit(attrs);
  }

  lemma HeaderRoundTrip(msgType: Uint16, flags: Uint16, length: nat)
    ensures Decode16(LE16(msgType)) == msgType && Decode16(LE16(flags)) == flags
    ensures Decode32(LE32(1)) == 1 && Decode32(LE32(0)) == 0
    ensures Decode32(LE32(length % 0x1_0000_0000)) == length <==> length < 0x1_0000_0000
  {
    LittleEndianRoundTrip(msgType, length % 0x1_0000_0000);
    LittleEndianRoundTrip(flags, 1);
    LittleEndianRoundTrip(0, 0);
  }

  const RTM_NEWLINK: Uint16 := 16
  const RTM_NEWADDR: Uint16 := 20
  const RTM_NEWROUTE: Uint16 := 24
  const REQUEST_ACK: Uint16 := 0x5
  const REQUEST_ACK_CREATE_EXCL: Uint16 := 0x605
  const AF_INET: Byte := 2
  const AF_INET6: Byte := 10
  const IFA_ADDRESS: Uint16 := 1
  const IFA_LOCAL: Uint16 := 2
  const RTA_OIF: Uint16 := 4
  const RTA_GATEWAY: Uint16 := 5
  const IFF_UP: Uint32 := 1
  const RT_TABLE_MAIN: Byte := 254
  const RTPROT_BOOT: Byte := 3
  const RTN_UNICAST: Byte := 1

  type Int32 = n: int | -0x8000_0000 <= n < 0x8000_0000

  /** A signed index in the kernel's unsigned field. */
  function IndexBytes(idx: Int32): (s: seq<Byte>)
    ensures |s| == 4
  {
    LE32(idx % 0x1_0000_0000)
  }

  function FamilyOf(ip: seq<Byte>): Byte {
    if Cidr.To4(ip).Some? then AF_INET else AF_INET6
  }

  /** An address in its shortest form. */
  function Shortest(ip: seq<Byte>): seq<Byte> {
    if Cidr.To4(ip).Some? then Cidr.To4(ip).value else ip
  }

  // The bytes on the wire

  lemma SmallField(v: Uint16)
    requires v < 0x100
    ensures LE16(v) == [v, 0]
  {}

  lemma NoPadding(s: seq<Byte>)
    requires |s| % 4 == 0
    ensures Padded(s) == s
  {
    assert Padded(s) == s + [];
  }

  lemma SmallFields(v: Uint32)
    requires v < 0x100
    ensures LE32(v) == [v, 0, 0, 0]
  {
    assert v % 0x1_0000 == v && v / 0x1_0000 == 0;
  }

  /** The kernel's number for an index, negative ones counted from the top. */
  lemma IndexInNumbers(idx: Int32)
    ensures var b := IndexBytes(idx);
            b[0] as int + 0x100 * (b[1] as int) + 0x1_0000 * (b[2] as int) + 0x100_0000 * (b[3] as int) ==
            if idx >= 0 then idx else idx + 0x1_0000_0000
  {
    LittleEndianInNumbers(0, idx % 0x1_0000_0000);
  }

  lemma HeaderBytes(length: Uint32, msgType: Uint16, flags: Uint16)
    requires length < 0x100 && msgType < 0x100
    ensures Header(length, msgType, flags) ==
            [length, 0, 0, 0, msgType, 0, flags % 0x100, flags / 0x100, 1, 0, 0, 0, 0, 0, 0, 0]
  {
    SmallFields(length);
    SmallFields(1);
    SmallFields(0);
    assert LE16(msgType) == [msgType, 0];
    assert LE16(flags) == [flags % 0x100, flags / 0x100];
  }

  /** An attribute whose value needs no padding. */
  lemma AlignedAttr(typ: Uint16, value: seq<Byte>)
    requires |value| % 4 == 0 && |value| < 0xFC && typ < 0x100
    ensures EncodeAttr(Attr(typ, value)) == [4 + |value|, 0, typ, 0] + value
  {
    var length: Uint16 := 4 + |value|;
    SmallField(length);
    SmallField(typ);
    assert RawAttr(Attr(typ, value)) == [length, 0, typ, 0] + value;
    NoPadding(RawAttr(Attr(typ, value)));
  }

  lemma Regroup(h: seq<Byte>, b: seq<Byte>, x: seq<Byte>, y: seq<Byte>)
    ensures h + (b + (x + y)) == h + b + x + y
  {}

  /** A frame of two parts behind the header, neither of which needs padding. */
  lemma PlainFrame(msgType: Uint16, flags: Uint16, body: seq<Byte>, attrs: seq<Attr>, length: Uint32)
    requires |body| % 4 == 0 && length == HEADER_LENGTH + |body| + |EncodeAttrs(attrs)|
    ensures Frame(msgType, flags, body, attrs) == Header(length, msgType, flags) + (body + EncodeAttrs(attrs))
  {
    NoPadding(body);
    FrameIsHeaded(msgType, flags, body, attrs);
    assert |Frame(msgType, flags, body, attrs)| == length == length % 0x1_0000_0000;
  }

  /** A short message with two attributes, nothing of which needs padding. */
  lemma WireBytes(msgType: Uint16, flags: Uint16, body: seq<Byte>, a: Attr, b: Attr)
    requires |body| % 4 == 0 && |a.value| % 4 == 0 && |b.value| % 4 == 0
    requires 24 + |body| + |a.value| + |b.value| < 0x100 && msgType < 0x100 && a.typ < 0x100 && b.typ < 0x100
    ensures Frame(msgType, flags, body, [a, b]) ==
            [24 + |body| + |a.value| + |b.value|, 0, 0, 0, msgType, 0, flags % 0x100, flags / 0x100,
             1, 0, 0, 0, 0, 0, 0, 0]
            + body + ([4 + |a.value|, 0, a.typ, 0] + a.value) + ([4 + |b.value|, 0, b.typ, 0] + b.value)
  {
    AlignedAttr(a.typ, a.value);
    AlignedAttr(b.typ, b.value);
    assert a == Attr(a.typ, a.value) && b == Attr(b.typ, b.value);
    ShortFrame(msgType, flags, body, a, b, 24 + |body| + |a.value| + |b.value|);
  }

  lemma ShortFrame(msgType: Uint16, flags: Uint16, body: seq<Byte>, a: Attr, b: Attr, length: Uint32)
    requires |body| % 4 == 0 && length < 0x100 && msgType < 0x100
    requires length == HEADER_LENGTH + |body| + |EncodeAttr(a)| + |EncodeAttr(b)|
    ensures Frame(msgType, flags, body, [a, b]) ==
            [length, 0, 0, 0, msgType, 0, flags % 0x100, flags / 0x100, 1, 0, 0, 0, 0, 0, 0, 0]
            + body + EncodeAttr(a) + EncodeAttr(b)
  {
    AttrPair(a, b);
    PlainFrame(msgType, flags, body, [a, b], length);
    HeaderBytes(length, msgType, flags);
    Regroup(Header(length, msgType, flags), body, EncodeAttr(a), EncodeAttr(b));
  }

  lemma AttrPair(a: Attr, b: Attr)
    ensures EncodeAttrs([a, b]) == EncodeAttr(a) + EncodeAttr(b)
  {
    assert [a, b][1..] == [b] && [b][1..] == [];
    assert EncodeAttrs([b]) == EncodeAttr(b) + [];
  }

  /** IPv4 addresses, four bytes or mapped, go out as four bytes of family 2, and the others as sixteen of 10. */
  lemma AddressInNumbers(ip: seq<Byte>)
    requires |ip| == 4 || |ip| == 16
    ensures |ip| == 4 ==> FamilyOf(ip) == 2 && Shortest(ip) == ip
    ensures |ip| == 16 && ip[..12] == [0, 0, 0, 0, 0, 0, 0, 0, 0, 0, 0xFF, 0xFF] ==>
              FamilyOf(ip) == 2 && Shortest(ip) == ip[12..16]
    ensures |ip| == 16 && ip[..12] != [0, 0, 0, 0, 0, 0, 0, 0, 0, 0, 0xFF, 0xFF] ==>
              FamilyOf(ip) == 10 && Shortest(ip) == ip
  {
    Cidr.IPv4Forms(ip);
  }

  /** A request with no attributes that raises the interface. */
  method LinkUp(idx: Int32) returns (req: seq<Byte>)
    ensures ParseMessage(req, 16) ==
            Some(Message(RTM_NEWLINK, REQUEST_ACK, 1, 0,
                         [0, 0, 0, 0] + IndexBytes(idx) + LE32(IFF_UP) + LE32(IFF_UP), []))
    ensures req == [32, 0, 0, 0, 16, 0, 5, 0, 1, 0, 0, 0, 0, 0, 0, 0]
                   + ([0, 0, 0, 0] + IndexBytes(idx) + [1, 0, 0, 0] + [1, 0, 0, 0])
  {
    var body := [0, 0, 0, 0] + IndexBytes(idx) + LE32(IFF_UP) + LE32(IFF_UP);
    var msg := new NlMsg(RTM_NEWLINK, REQUEST_ACK);
    msg.Append(body);
    PaddedAfterHeader(Header(0, RTM_NEWLINK, REQUEST_ACK), body);
    assert msg.buf == Unsealed(RTM_NEWLINK, REQUEST_ACK, body, []);
    req := msg.Bytes();
    FrameRoundTrip(RTM_NEWLINK, REQUEST_ACK, body, []);
    BareFrame(body);
    SmallFields(IFF_UP);
  }

  lemma BareFrame(body: seq<Byte>)
    requires |body| == 16
    ensures Frame(RTM_NEWLINK, REQUEST_ACK, body, []) == [32, 0, 0, 0, 16, 0, 5, 0, 1, 0, 0, 0, 0, 0, 0, 0] + body
  {
    PlainFrame(RTM_NEWLINK, REQUEST_ACK, body, [], 32);
    HeaderBytes(32, RTM_NEWLINK, REQUEST_ACK);
    assert body + [] == body;
  }

  /** A request that puts an address on an interface: the kernel reads it as local address and as peer. */
  method AddrAdd(idx: Int32, ip: seq<Byte>, prefixLength: nat) returns (req: seq<Byte>)
    requires |ip| == 4 || |ip| == 16
    requires prefixLength <= 128
    ensures ParseMessage(req, 8) ==
            Some(Message(RTM_NEWADDR, REQUEST_ACK_CREATE_EXCL, 1, 0,
                         [FamilyOf(ip), prefixLength, 0, 0] + IndexBytes(idx),
                         [Attr(IFA_LOCAL, Shortest(ip)), Attr(IFA_ADDRESS, Shortest(ip))]))
    ensures var mapped := |ip| == 16 && ip[..12] == [0, 0, 0, 0, 0, 0, 0, 0, 0, 0, 0xFF, 0xFF];
            if |ip| == 4 || mapped then
              var v4 := if mapped then ip[12..16] else ip;
              req == [40, 0, 0, 0, 20, 0, 5, 6, 1, 0, 0, 0, 0, 0, 0, 0]
                     + ([2, prefixLength, 0, 0] + IndexBytes(idx)) + ([8, 0, 2, 0] + v4) + ([8, 0, 1, 0] + v4)
            else
              req == [64, 0, 0, 0, 20, 0, 5, 6, 1, 0, 0, 0, 0, 0, 0, 0]
                     + ([10, prefixLength, 0, 0] + IndexBytes(idx)) + ([20, 0, 2, 0] + ip) + ([20, 0, 1, 0] + ip)
  {
    var body: seq<Byte> := [FamilyOf(ip), prefixLength, 0, 0] + IndexBytes(idx);
    var local, address := Attr(IFA_LOCAL, Shortest(ip)), Attr(IFA_ADDRESS, Shortest(ip));
    AddressInNumbers(ip);
    req := TwoAttrRequest(RTM_NEWADDR, body, local, address);
    WireBytes(RTM_NEWADDR, REQUEST_ACK_CREATE_EXCL, body, local, address);
  }

  /** A request that routes everything through a gateway on an interface. */
  method DefaultRoute(idx: Int32, gw: seq<Byte>) returns (req: seq<Byte>)
    requires |gw| == 4 || |gw| == 16
    ensures ParseMessage(req, 12) ==
            Some(Message(RTM_NEWROUTE, REQUEST_ACK_CREATE_EXCL, 1, 0,
                         [FamilyOf(gw), 0, 0, 0, RT_TABLE_MAIN, RTPROT_BOOT, 0, RTN_UNICAST, 0, 0, 0, 0],
                         [Attr(RTA_GATEWAY, Shortest(gw)), Attr(RTA_OIF, IndexBytes(idx))]))
    ensures var mapped := |gw| == 16 && gw[..12] == [0, 0, 0, 0, 0, 0, 0, 0, 0, 0, 0xFF, 0xFF];
            if |gw| == 4 || mapped then
              var v4 := if mapped then gw[12..16] else gw;
              req == [44, 0, 0, 0, 24, 0, 5, 6, 1, 0, 0, 0, 0, 0, 0, 0]
                     + [2, 0, 0, 0, 254, 3, 0, 1, 0, 0, 0, 0] + ([8, 0, 5, 0] + v4) + ([8, 0, 4, 0] + IndexBytes(idx))
            else
              req == [56, 0, 0, 0, 24, 0, 5, 6, 1, 0, 0, 0, 0, 0, 0, 0]
                     + [10, 0, 0, 0, 254, 3, 0, 1, 0, 0, 0, 0] + ([20, 0, 5, 0] + gw) + ([8, 0, 4, 0] + IndexBytes(idx))
  {
    var body: seq<Byte> := [FamilyOf(gw), 0, 0, 0, RT_TABLE_MAIN, RTPROT_BOOT, 0, RTN_UNICAST, 0, 0, 0, 0];
    var gateway, oif := Attr(RTA_GATEWAY, Shortest(gw)), Attr(RTA_OIF, IndexBytes(idx));
    AddressInNumbers(gw);
    req := TwoAttrRequest(RTM_NEWROUTE, body, gateway, oif);
    WireBytes(RTM_NEWROUTE, REQUEST_ACK_CREATE_EXCL, body, gateway, oif);
  }

  /** The steps that the two share: a new message, its body, two attributes, the finished bytes. */
  method TwoAttrRequest(msgType: Uint16, body: seq<Byte>, a: Attr, b: Attr) returns (req: seq<Byte>)
    requires |body| <= 12 && |a.value| <= 16 && |b.value| <= 16
    ensures req == Frame(msgType, REQUEST_ACK_CREATE_EXCL, body, [a, b])
    ensures ParseMessage(req, |body|) == Some(Message(msgType, REQUEST_ACK_CREATE_EXCL, 1, 0, body, [a, b]))
  {
    var msg := new NlMsg(msgType, REQUEST_ACK_CREATE_EXCL);
    msg.Append(body);
    PaddedAfterHeader(Header(0, msgType, REQUEST_ACK_CREATE_EXCL), body);
    msg.AppendAttr(a.typ, a.value);
    msg.AppendAttr(b.typ, b.value);
    TwoAttrs(msgType, REQUEST_ACK_CREATE_EXCL, body, a, b);
    req := msg.Bytes();
    FramePieces(msgType, REQUEST_ACK_CREATE_EXCL, body, [a, b]);
    AttrPair(a, b);
    FrameRoundTrip(msgType, REQUEST_ACK_CREATE_EXCL, body, [a, b]);
  }

  lemma PaddedAfterHeader(header: seq<Byte>, body: seq<Byte>)
    requires |header| == HEADER_LENGTH
    ensures Padded(header + body) == header + Padded(body)
  {
    assert Align(|header + body|) == HEADER_LENGTH + Align(|body|);
  }

  lemma TwoAttrs(msgType: Uint16, flags: Uint16, body: seq<Byte>, a: Attr, b: Attr)
    ensures Header(0, msgType, flags) + Padded(body) + EncodeAttr(a) + EncodeAttr(b) ==
            Unsealed(msgType, flags, body, [a, b])
  {
    AttrPair(a, b);
  }
}
