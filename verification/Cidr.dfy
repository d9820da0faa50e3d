/** Address prefixes: the byte masks that the source builds, and the bits they stand for. */
module Cidr {
  import opened Common
  import Nft

  datatype RawPrefix = RawPrefix(addr: seq<Byte>, bits: nat)

  /** A parsed CIDR: the address as written, host bits included, and the prefix length. */
  type Prefix = p: RawPrefix | (|p.addr| == 4 || |p.addr| == 16) && p.bits <= 8 * |p.addr|
    witness RawPrefix([0, 0, 0, 0], 0)

  /** An IPv4 address written in 16 bytes: section 2.5.5.2 of RFC 4291. */
  predicate V4Mapped(ip: seq<Byte>) {
    && |ip| == 16
    && (forall i | 0 <= i < 10 :: ip[i] == 0)
    && ip[10] == 0xFF && ip[11] == 0xFF
  }

  /** The four bytes of an IPv4 address, in whichever form it comes. */
  function To4(ip: seq<Byte>): Option<seq<Byte>> {
    if |ip| == 4 then Some(ip) else if V4Mapped(ip) then Some(ip[12..]) else None
  }

  function ShiftRight(x: nat, n: nat): (y: nat)
    ensures y <= x
  {
    if n == 0 then x else ShiftRight(x / 2, n - 1)
  }

  /** Bit k of a byte, counted from the most significant one. */
  function ByteBit(b: Byte, k: nat): nat
    requires k < 8
  {
    ShiftRight(b, 7 - k) % 2
  }

  /** Bit i of an address in network byte order. */
  function AddressBit(a: seq<Byte>, i: nat): nat
    requires i < 8 * |a|
  {
    ByteBit(a[i / 8], i % 8)
  }

  /** Section 3.1 of RFC 4632: an address is in a prefix when their leading bits agree. */
  predicate InPrefix(addr: seq<Byte>, prefix: Prefix) {
    && |addr| == |prefix.addr|
    && forall i | 0 <= i < prefix.bits :: AddressBit(addr, i) == AddressBit(prefix.addr, i)
  }

  /** The number of the given binary width whose k leading digits are one and the others zero. */
  function LeadingOnes(width: nat, k: nat): (m: nat)
    requires k <= width
    ensures m < Nft.Pow2(width)
  {
    if width == 0 then 0
    else if k == width then 2 * LeadingOnes(width - 1, k - 1) + 1
    else 2 * LeadingOnes(width - 1, k)
  }

  function Clamp(k: int): (c: nat)
    ensures c <= 8
  {
    if k <= 0 then 0 else if k >= 8 then 8 else k
  }

  function MaskByte(k: int): Byte {
    assert Nft.Pow2(8) == 0x100;
    LeadingOnes(8, Clamp(k))
  }

  /** The mask of a prefix length: byte i holds the mask bits from 8 * i on. */
  function Mask(bits: nat, len: nat): (m: seq<Byte>)
    ensures |m| == len
  {
    seq(len, i requires 0 <= i < len => MaskByte(bits - 8 * i))
  }

  function Apply(addr: seq<Byte>, mask: seq<Byte>): (s: seq<Byte>)
    requires |addr| == |mask|
    ensures |s| == |addr| && forall i | 0 <= i < |s| :: s[i] == Nft.And(addr[i], mask[i])
  {
    seq(|addr|, i requires 0 <= i < |addr| => Nft.And(addr[i], mask[i]) as Byte)
  }

  /** The network address: the CIDR's address with its host bits cleared. */
  function Network(p: Prefix): (s: seq<Byte>)
    ensures |s| == |p.addr|
  {
    Apply(p.addr, Mask(p.bits, |p.addr|))
  }

  lemma {:induction false} AndAllOnes(x: nat, width: nat)
    requires ShiftRight(x, width) == 0
    ensures Nft.And(x, LeadingOnes(width, width)) == x
  {
    if width > 0 {
      AndAllOnes(x / 2, width - 1);
      AndDigits(x, LeadingOnes(width, width));
    }
  }

  lemma {:induction false} AndLeadingOnes(x: nat, y: nat, width: nat, k: nat)
    requires k <= width && ShiftRight(x, width) == ShiftRight(y, width) == 0
    ensures var m := LeadingOnes(width, k);
            Nft.And(x, m) == Nft.And(y, m) <==> ShiftRight(x, width - k) == ShiftRight(y, width - k)
  {
    if k == width {
      AndAllOnes(x, width);
      AndAllOnes(y, width);
    } else {
      var m := LeadingOnes(width - 1, k);
      assert LeadingOnes(width, k) == 2 * m;
      AndLeadingOnes(x / 2, y / 2, width - 1, k);
      AndEven(x, m);
      AndEven(y, m);
    }
  }

  lemma AndEven(x: nat, m: nat)
    ensures Nft.And(x, 2 * m) == 2 * Nft.And(x / 2, m)
  {
    assert 2 * m / 2 == m && 2 * m % 2 == 0;
    if x != 0 && m != 0 {
      assert Nft.And(x, 2 * m) == 2 * Nft.And(x / 2, 2 * m / 2);
    }
  }

  lemma AndDigits(x: nat, y: nat)
    ensures Nft.And(x, y) == 2 * Nft.And(x / 2, y / 2) + (if x % 2 == 1 && y % 2 == 1 then 1 else 0)
  {}

  lemma {:induction false} ShiftOnce(x: nat, n: nat)
    ensures ShiftRight(x, n + 1) == ShiftRight(x, n) / 2
  {
    if n > 0 {
      ShiftOnce(x / 2, n - 1);
    }
  }

  lemma {:induction false} ShiftsOut(x: nat, n: nat)
    requires x < Nft.Pow2(n)
    ensures ShiftRight(x, n) == 0
  {
    if n > 0 {
      ShiftsOut(x / 2, n - 1);
    }
  }

  lemma ByteShiftsOut(x: Byte)
    ensures ShiftRight(x, 8) == 0
  {
    assert Nft.Pow2(8) == 0x100;
    ShiftsOut(x, 8);
  }

  /** The k leading bits agree iff the bytes are equal once the others are shifted out. */
  lemma {:induction false} LeadingBits(x: Byte, y: Byte, k: nat)
    requires k <= 8
    ensures ShiftRight(x, 8 - k) == ShiftRight(y, 8 - k) <==> forall j | 0 <= j < k :: ByteBit(x, j) == ByteBit(y, j)
  {
    if k == 0 {
      ByteShiftsOut(x);
      ByteShiftsOut(y);
    } else {
      LeadingBits(x, y, k - 1);
      ShiftOnce(x, 8 - k);
      ShiftOnce(y, 8 - k);
      assert ByteBit(x, k - 1) == ShiftRight(x, 8 - k) % 2;
      assert ByteBit(y, k - 1) == ShiftRight(y, 8 - k) % 2;
    }
  }

  lemma MaskedByte(x: Byte, y: Byte, k: int)
    ensures Nft.And(x, MaskByte(k)) == Nft.And(y, MaskByte(k)) <==>
            forall j | 0 <= j < Clamp(k) :: ByteBit(x, j) == ByteBit(y, j)
  {
    ByteShiftsOut(x);
    ByteShiftsOut(y);
    AndLeadingOnes(x, y, 8, Clamp(k));
    LeadingBits(x, y, Clamp(k));
  }

  lemma BitsGiveBytes(a: seq<Byte>, b: seq<Byte>, bits: nat, q: nat)
    requires |a| == |b| && bits <= 8 * |a| && q < |a|
    requires forall i | 0 <= i < bits :: AddressBit(a, i) == AddressBit(b, i)
    ensures Nft.And(a[q], MaskByte(bits - 8 * q)) == Nft.And(b[q], MaskByte(bits - 8 * q))
  {
    forall j | 0 <= j < Clamp(bits - 8 * q) ensures ByteBit(a[q], j) == ByteBit(b[q], j) {
      assert AddressBit(a, 8 * q + j) == AddressBit(b, 8 * q + j);
    }
    MaskedByte(a[q], b[q], bits - 8 * q);
  }

  lemma BytesGiveBits(a: seq<Byte>, b: seq<Byte>, bits: nat, i: nat)
    requires |a| == |b| && i < bits <= 8 * |a|
    requires var k := bits - 8 * (i / 8);
             Nft.And(a[i / 8], MaskByte(k)) == Nft.And(b[i / 8], MaskByte(k))
    ensures AddressBit(a, i) == AddressBit(b, i)
  {
    MaskedByte(a[i / 8], b[i / 8], bits - 8 * (i / 8));
  }

  /** Comparing addresses byte by byte under the mask compares exactly the prefix bits. */
  lemma MaskedComparison(a: seq<Byte>, b: seq<Byte>, bits: nat)
    requires |a| == |b| && bits <= 8 * |a|
    ensures Apply(a, Mask(bits, |a|)) == Apply(b, Mask(bits, |b|)) <==>
            forall i | 0 <= i < bits :: AddressBit(a, i) == AddressBit(b, i)
  {
    var x, y := Apply(a, Mask(bits, |a|)), Apply(b, Mask(bits, |b|));
    if forall i | 0 <= i < bits :: AddressBit(a, i) == AddressBit(b, i) {
      forall q | 0 <= q < |a| ensures x[q] == y[q] {
        BitsGiveBytes(a, b, bits, q);
      }
    }
    if x == y {
      forall i | 0 <= i < bits ensures AddressBit(a, i) == AddressBit(b, i) {
        assert x[i / 8] == y[i / 8];
        BytesGiveBits(a, b, bits, i);
      }
    }
  }

  lemma {:induction false} AndAgain(x: nat, m: nat)
    ensures Nft.And(Nft.And(x, m), m) == Nft.And(x, m)
  {
    if x != 0 && m != 0 {
      AndAgain(x / 2, m / 2);
      AndDigits(Nft.And(x, m), m);
    }
  }

  lemma MaskIsIdempotent(p: Prefix)
    ensures Apply(Network(p), Mask(p.bits, |p.addr|)) == Network(p)
  {
    var m := Mask(p.bits, |p.addr|);
    forall q | 0 <= q < |p.addr| ensures Nft.And(Nft.And(p.addr[q], m[q]), m[q]) == Nft.And(p.addr[q], m[q]) {
      AndAgain(p.addr[q], m[q]);
    }
  }

  /** The comparison the compiled code performs is membership in the prefix. */
  lemma MaskingIsMembership(addr: seq<Byte>, p: Prefix)
    requires |addr| == |p.addr|
    ensures Apply(addr, Mask(p.bits, |addr|)) == Network(p) <==> InPrefix(addr, p)
  {
    MaskedComparison(addr, p.addr, p.bits);
  }

  /** Two prefixes of one length have the same network address iff each contains the other's address. */
  lemma SameNetwork(p: Prefix, q: Prefix)
    requires |p.addr| == |q.addr| && p.bits == q.bits
    ensures Network(p) == Network(q) <==> InPrefix(p.addr, q)
  {
    MaskedComparison(p.addr, q.addr, p.bits);
  }

  // Addresses as numbers

  /** The number an address stands for, most significant byte first. */
  function Number(a: seq<Byte>): nat {
    if a == [] then 0 else 0x100 * Number(a[..|a| - 1]) + a[|a| - 1] as int
  }

  lemma MultiplyKeepsOrder(d: nat, m: nat, n: nat)
    ensures m <= n ==> d * m <= d * n
  {}

  lemma Quotient(x: nat, d: nat, q: nat, r: nat)
    requires x == d * q + r && r < d
    ensures x / d == q
  {
    var e := x / d;
    assert x == d * e + x % d;
    MultiplyKeepsOrder(d, e + 1, q);
    MultiplyKeepsOrder(d, q + 1, e);
  }

  lemma Division(h: nat, p: nat)
    requires p >= 1
    ensures h == p * (h / p) + h % p && 0 <= h % p < p
  {}

  lemma DoubleDivisor(x: nat, p: nat, q: nat, r: nat)
    requires x / 2 == p * q + r && r < p
    ensures x / (2 * p) == q
  {
    DoubleProduct(p, q);
    Quotient(x, 2 * p, q, 2 * r + x % 2);
  }

  lemma DoubleProduct(p: nat, q: nat)
    ensures 2 * p * q == 2 * (p * q)
  {}

  lemma {:induction false} ShiftIsDivision(x: nat, n: nat)
    ensures ShiftRight(x, n) == x / Nft.Pow2(n)
  {
    if n > 0 {
      ShiftIsDivision(x / 2, n - 1);
      var p, h := Nft.Pow2(n - 1), x / 2;
      Division(h, p);
      DoubleDivisor(x, p, h / p, h % p);
    }
  }

  /** Shifting digit by digit adds up. */
  lemma {:induction false} ShiftsAdd(x: nat, m: nat, n: nat)
    ensures ShiftRight(x, m + n) == ShiftRight(ShiftRight(x, m), n)
  {
    if m > 0 {
      ShiftsAdd(x / 2, m - 1, n);
    }
  }

  lemma HalfOfSum(p: nat, h: nat, low: nat)
    ensures (2 * p * h + low) / 2 == p * h + low / 2
  {
    DoubleProduct(p, h);
  }

  /** The low byte of a number is the last to be shifted out. */
  lemma {:induction false} ShiftOfByte(h: nat, b: Byte, m: nat)
    requires m <= 8
    ensures ShiftRight(0x100 * h + b as int, m) == Nft.Pow2(8 - m) * h + ShiftRight(b, m)
  {
    if m == 0 {
      assert Nft.Pow2(8) == 0x100;
    } else {
      ShiftOfByte(h, b, m - 1);
      ShiftOnce(0x100 * h + b as int, m - 1);
      ShiftOnce(b, m - 1);
      HalfOfSum(Nft.Pow2(8 - m), h, ShiftRight(b, m - 1));
    }
  }

  /** Digits in front of the low byte. */
  lemma HighDigit(h: nat, b: Byte, n: nat)
    ensures ShiftRight(0x100 * h + b as int, 8 + n) == ShiftRight(h, n)
  {
    ShiftOfByte(h, b, 8);
    ByteShiftsOut(b);
    ShiftsAdd(0x100 * h + b as int, 8, n);
  }

  /** Digits of the low byte. */
  lemma LowDigit(h: nat, b: Byte, m: nat)
    requires m < 8
    ensures ShiftRight(0x100 * h + b as int, m) % 2 == ShiftRight(b, m) % 2
  {
    ShiftOfByte(h, b, m);
    EvenPart(Nft.Pow2(7 - m), h, ShiftRight(b, m));
  }

  lemma EvenPart(p: nat, h: nat, low: nat)
    ensures (2 * p * h + low) % 2 == low % 2
  {
    assert 2 * p * h + low == 2 * (p * h) + low;
  }

  /** Bit i of an address is that digit of its number. */
  lemma {:induction false} BitOfNumber(a: seq<Byte>, i: nat)
    requires i < 8 * |a|
    ensures AddressBit(a, i) == ShiftRight(Number(a), 8 * |a| - 1 - i) % 2
  {
    var front, last := a[..|a| - 1], a[|a| - 1];
    var k := 8 * |front|;
    if i < k {
      BitOfNumber(front, i);
      assert front[i / 8] == a[i / 8];
      HighDigit(Number(front), last, k - 1 - i);
      assert 8 + (k - 1 - i) == 8 * |a| - 1 - i;
    } else {
      assert i / 8 == |a| - 1 && 7 - i % 8 == 8 * |a| - 1 - i;
      LowDigit(Number(front), last, 7 - i % 8);
    }
  }

  lemma {:induction false} NumberShiftsOut(a: seq<Byte>)
    ensures ShiftRight(Number(a), 8 * |a|) == 0
  {
    if a != [] {
      var front, last := a[..|a| - 1], a[|a| - 1];
      NumberShiftsOut(front);
      HighDigit(Number(front), last, 8 * |front|);
    }
  }

  lemma {:induction false} LeadingDigits(a: seq<Byte>, b: seq<Byte>, k: nat)
    requires |a| == |b| && k <= 8 * |a|
    ensures ShiftRight(Number(a), 8 * |a| - k) == ShiftRight(Number(b), 8 * |b| - k) <==>
            forall i | 0 <= i < k :: AddressBit(a, i) == AddressBit(b, i)
  {
    if k == 0 {
      NumberShiftsOut(a);
      NumberShiftsOut(b);
    } else {
      LeadingDigits(a, b, k - 1);
      ShiftOnce(Number(a), 8 * |a| - k);
      ShiftOnce(Number(b), 8 * |b| - k);
      BitOfNumber(a, k - 1);
      BitOfNumber(b, k - 1);
    }
  }

  /** An address lies in a prefix iff both, read as numbers, have the same quotient by the size of the
      prefix's block of addresses. */
  lemma MembershipIsDivision(addr: seq<Byte>, p: Prefix)
    requires |addr| == |p.addr|
    ensures var size := Nft.Pow2(8 * |addr| - p.bits);
            InPrefix(addr, p) <==> Number(addr) / size == Number(p.addr) / size
  {
    LeadingDigits(addr, p.addr, p.bits);
    ShiftIsDivision(Number(addr), 8 * |addr| - p.bits);
    ShiftIsDivision(Number(p.addr), 8 * |addr| - p.bits);
  }

  /** An IPv4 address is itself, or the last four of sixteen bytes that start with ten zeros and FF FF. */
  lemma IPv4Forms(ip: seq<Byte>)
    ensures V4Mapped(ip) <==> |ip| == 16 && ip[..12] == [0, 0, 0, 0, 0, 0, 0, 0, 0, 0, 0xFF, 0xFF]
    ensures |ip| == 4 ==> To4(ip) == Some(ip)
    ensures |ip| == 16 ==> To4(ip) == if V4Mapped(ip) then Some(ip[12..16]) else None
  {
    if |ip| == 16 {
      assert forall i | 0 <= i < 12 :: ip[..12][i] == ip[i];
      assert ip[12..] == ip[12..16];
      if V4Mapped(ip) {
        assert ip[..12] == [0, 0, 0, 0, 0, 0, 0, 0, 0, 0, 0xFF, 0xFF];
      }
    }
  }
}
