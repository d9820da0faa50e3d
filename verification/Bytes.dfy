/** Byte strings shared by the packet filter and netlink: zeros, word alignment, little-endian numbers. */
module Bytes {
  import opened Common

  function Zeros(n: nat): (z: seq<Byte>)
    ensures |z| == n && forall i | 0 <= i < n :: z[i] == 0
  {
    seq(n, i => 0)
  }

  /** The next multiple of four. */
  function Align(n: nat): (a: nat)
    ensures a % 4 == 0 && n <= a < n + 4
  {
    (n + 3) / 4 * 4
  }

  /** Least significant byte first. */
  function LE16(v: Uint16): (s: seq<Byte>)
    ensures |s| == 2
  {
    [v % 0x100, v / 0x100]
  }

  function LE32(v: Uint32): (s: seq<Byte>)
    ensures |s| == 4
  {
    LE16(v % 0x1_0000) + LE16(v / 0x1_0000)
  }

  /** Each byte counts 256 times as much as the one before it. */
  lemma LittleEndianInNumbers(v: Uint16, w: Uint32)
    ensures var s, t := LE16(v), LE32(w);
            && s[0] as int + 0x100 * (s[1] as int) == v
            && t[0] as int + 0x100 * (t[1] as int) + 0x1_0000 * (t[2] as int) + 0x100_0000 * (t[3] as int) == w
  {
    var low, high := w % 0x1_0000, w / 0x1_0000;
    assert LE32(w)[0] == LE16(low)[0] && LE32(w)[1] == LE16(low)[1];
    assert LE32(w)[2] == LE16(high)[0] && LE32(w)[3] == LE16(high)[1];
  }
}
