/** Byte strings and the big-endian integers of the PostgreSQL wire formats. */
module Bytes {
  newtype Byte = b: int | 0 <= b < 256
  type ByteString = seq<Byte>

  const TWO_15 := 0x8000
  const TWO_16 := 0x1_0000
  const TWO_31 := 0x8000_0000
  const TWO_32 := 0x1_0000_0000
  const TWO_63 := 0x8000_0000_0000_0000
  const TWO_64 := 0x1_0000_0000_0000_0000

  type Word16 = n: int | 0 <= n < TWO_16
  type Word32 = n: int | 0 <= n < TWO_32
  type Word64 = n: int | 0 <= n < TWO_64

  // The number spelled by the first bytes of `buf`, most significant byte first.

  function Unsigned16(buf: ByteString): Word16
    requires |buf| >= 2
  {
    256 * (buf[0] as int) + buf[1] as int
  }

  function Unsigned32(buf: ByteString): Word32
    requires |buf| >= 4
  {
    TWO_16 * (256 * (buf[0] as int) + buf[1] as int) + (256 * (buf[2] as int) + buf[3] as int)
  }

  function Unsigned64(buf: ByteString): Word64
    requires |buf| >= 8
  {
    TWO_32 * Unsigned32(buf) + Unsigned32(buf[4..])
  }

  // The same numbers written out.

  function Encode16(n: Word16): (bs: ByteString)
    ensures |bs| == 2
  {
    [(n / 256) as Byte, (n % 256) as Byte]
  }

  function Encode32(n: Word32): (bs: ByteString)
    ensures |bs| == 4
  {
    Encode16(n / TWO_16) + Encode16(n % TWO_16)
  }

  function Encode64(n: Word64): (bs: ByteString)
    ensures |bs| == 8
  {
    Encode32(n / TWO_32) + Encode32(n % TWO_32)
  }

  lemma ReadBack16(n: Word16, after: ByteString)
    ensures var buf := Encode16(n) + after; Unsigned16(buf) == n && buf[2..] == after
  {
  }

  lemma ReadBack32(n: Word32, after: ByteString)
    ensures var buf := Encode32(n) + after; Unsigned32(buf) == n && buf[4..] == after
  {
  }

  lemma ReadBack64(n: Word64, after: ByteString)
    ensures var buf := Encode64(n) + after; Unsigned64(buf) == n && buf[8..] == after
  {
    var buf := Encode64(n) + after;
    var low := Encode32(n % TWO_32) + after;
    assert buf == Encode32(n / TWO_32) + low;
    ReadBack32(n / TWO_32, low);
    ReadBack32(n % TWO_32, after);
    assert buf[8..] == after;
  }

  /** Two's complement reading of a 16-bit and a 32-bit pattern. */
  function Signed16(n: Word16): int { if n < TWO_15 then n else n - TWO_16 }

  function Signed32(n: Word32): int { if n < TWO_31 then n else n - TWO_32 }

  /** `i32 as usize` on a 64-bit target: sign extension turns a negative length into a huge one. */
  function AsUsize(n: int): int { if n < 0 then n + TWO_64 else n }

  /** Byte `k` of `n` counts 256 to the power of what comes after it. */
  lemma MostSignificantFirst(buf: ByteString)
    requires |buf| >= 8
    ensures Unsigned16(buf) == 0x100 * (buf[0] as int) + buf[1] as int
    ensures Unsigned32(buf) == 0x100_0000 * (buf[0] as int) + 0x1_0000 * (buf[1] as int) + 0x100 * (buf[2] as int)
                               + buf[3] as int
    ensures Unsigned64(buf) == 0x100_0000_0000_0000 * (buf[0] as int) + 0x1_0000_0000_0000 * (buf[1] as int)
                               + 0x100_0000_0000 * (buf[2] as int) + 0x1_0000_0000 * (buf[3] as int)
                               + 0x100_0000 * (buf[4] as int) + 0x1_0000 * (buf[5] as int)
                               + 0x100 * (buf[6] as int) + buf[7] as int
  {
  }

  /** The signed reading is the one value in range that differs by a multiple of the word. */
  lemma SignedReadings(n: Word32, m: Word16, len: int)
    ensures -0x8000_0000 <= Signed32(n) < 0x8000_0000 && (n - Signed32(n)) % 0x1_0000_0000 == 0
    ensures -0x8000 <= Signed16(m) < 0x8000 && (m - Signed16(m)) % 0x1_0000 == 0
    ensures len >= 0 ==> AsUsize(len) == len
    ensures -0x8000_0000 <= len < 0 ==> AsUsize(len) == 0x1_0000_0000_0000_0000 + len
  {
  }
}
