/** The text form of a log position: written by `start_replication` (crates/calce-cdc/src/wire.rs),
    read by `parse_lsn` (crates/calce-cdc/src/listener.rs). */
module LsnText {
  import opened Prelude
  import opened Bytes

  const DIGITS := "0123456789ABCDEF"

  /** `{:X}`: upper-case hexadecimal without leading zeros. */
  function ToHex(n: nat): (s: string)
    ensures |s| > 0
  {
    if n < 16 then [DIGITS[n]] else ToHex(n / 16) + [DIGITS[n % 16]]
  }

  /** `{:X}/{:X}` of the upper and the lower half. */
  function FormatLsn(lsn: Word64): string {
    ToHex(lsn / TWO_32) + "/" + ToHex(lsn % TWO_32)
  }

  /** `char::to_digit(16)`. */
  function Digit(c: char): Option<nat> {
    if '0' <= c <= '9' then Some(c as int - '0' as int)
    else if 'A' <= c <= 'F' then Some(c as int - 'A' as int + 10)
    else if 'a' <= c <= 'f' then Some(c as int - 'a' as int + 10)
    else None
  }

  function DigitsValue(s: string): Option<nat> {
    if s == "" then Some(0) else
    match (DigitsValue(s[..|s| - 1]), Digit(s[|s| - 1]))
    case (Some(high), Some(d)) => Some(16 * high + d)
    case _ => None
  }

  /** `u64::from_str_radix(s, 16).unwrap_or(0)`: an optional plus sign, at least one digit, no overflow. */
  function HexOrZero(s: string): Word64 {
    var digits := if |s| > 1 && s[0] == '+' then s[1..] else s;
    match if digits == "" then None else DigitsValue(digits)
    case Some(n) => if n < TWO_64 then n else 0
    case None => 0
  }

  /** The position of the first slash, or `|s|`. */
  function Slash(s: string): (pos: nat)
    ensures pos <= |s|
    ensures pos < |s| ==> s[pos] == '/'
    ensures forall i :: 0 <= i < pos ==> s[i] != '/'
  {
    if s == "" || s[0] == '/' then 0 else 1 + Slash(s[1..])
  }

  /** Bitwise or of two unsigned numbers. */
  function BitOr(a: nat, b: nat): nat
    decreases a + b
  {
    if a == 0 && b == 0 then 0
    else 2 * BitOr(a / 2, b / 2) + (if a % 2 == 1 || b % 2 == 1 then 1 else 0)
  }

  /** `parse_lsn`. The shift drops the bits that leave the 64-bit word. */
  function ParseLsn(s: string): nat {
    var pos := Slash(s);
    var hi := if pos == |s| then HexOrZero("0") else HexOrZero(s[..pos]);
    var lo := if pos == |s| then HexOrZero(s) else HexOrZero(s[pos + 1..]);
    BitOr(hi * TWO_32 % TWO_64, lo)
  }

  lemma DigitReadBack(d: nat)
    requires d < 16
    ensures Digit(DIGITS[d]) == Some(d)
  {
  }

  lemma OneMoreDigit(s: string, n: nat, d: nat)
    requires d < 16 && DigitsValue(s) == Some(n)
    ensures DigitsValue(s + [DIGITS[d]]) == Some(16 * n + d)
  {
    DigitReadBack(d);
    assert (s + [DIGITS[d]])[..|s|] == s;
  }

  lemma {:induction false} HexDigits(n: nat)
    ensures DigitsValue(ToHex(n)) == Some(n)
  {
    if n < 16 {
      OneMoreDigit("", 0, n);
      assert "" + [DIGITS[n]] == [DIGITS[n]];
    } else {
      HexDigits(n / 16);
      OneMoreDigit(ToHex(n / 16), n / 16, n % 16);
    }
  }

  lemma {:induction false} NoPunctuation(n: nat, c: char)
    requires c !in DIGITS
    ensures c !in ToHex(n)
  {
    if n >= 16 {
      NoPunctuation(n / 16, c);
    }
  }

  lemma HexReadBack(n: Word64)
    ensures HexOrZero(ToHex(n)) == n
    ensures '/' !in ToHex(n)
  {
    HexDigits(n);
    NoPunctuation(n, '/');
    NoPunctuation(n, '+');
    assert ToHex(n)[0] in ToHex(n);
  }

  function Power2(k: nat): (p: nat)
    ensures p > 0
  {
    if k == 0 then 1 else 2 * Power2(k - 1)
  }

  /** Or-ing onto cleared low bits is addition. */
  lemma {:induction false} OrIsSum(high: nat, k: nat, low: nat)
    requires low < Power2(k)
    ensures BitOr(high * Power2(k), low) == high * Power2(k) + low
  {
    if k == 0 {
      OrZero(high);
    } else {
      OrIsSum(high, k - 1, low / 2);
      Doubled(high, Power2(k - 1));
      OrStep(high * Power2(k - 1), low);
    }
  }

  lemma Doubled(a: nat, b: nat)
    ensures a * (2 * b) == 2 * (a * b)
  {
  }

  lemma OrStep(shifted: nat, low: nat)
    ensures BitOr(2 * shifted, low) == 2 * BitOr(shifted, low / 2) + low % 2
  {
  }

  lemma {:induction false} OrZero(a: nat)
    ensures BitOr(a, 0) == a
  {
    if a > 0 {
      OrZero(a / 2);
    }
  }

  lemma {:induction false} Power2Sum(j: nat, k: nat)
    ensures Power2(j + k) == Power2(j) * Power2(k)
  {
    if j > 0 {
      Power2Sum(j - 1, k);
    }
  }

  lemma Power2Of32()
    ensures Power2(32) == TWO_32
  {
    assert Power2(8) == 256;
    Power2Sum(8, 8);
    Power2Sum(16, 16);
  }

  lemma SplitAtSlash(hi: string, lo: string)
    requires '/' !in hi
    ensures Slash(hi + "/" + lo) == |hi|
    ensures (hi + "/" + lo)[..|hi|] == hi && (hi + "/" + lo)[|hi| + 1..] == lo
  {
    var s := hi + "/" + lo;
    assert s[|hi|] == '/';
    assert forall i :: 0 <= i < |hi| ==> s[i] == hi[i];
  }

  lemma Halves(lsn: Word64)
    ensures BitOr(lsn / TWO_32 * TWO_32 % TWO_64, lsn % TWO_32) == lsn
  {
    Power2Of32();
    OrIsSum(lsn / TWO_32, 32, lsn % TWO_32);
  }

  /** Reading back the text that was sent gives the same position, for every 64-bit position. */
  lemma LsnRoundTrip(lsn: Word64)
    ensures ParseLsn(FormatLsn(lsn)) == lsn
  {
    var hi, lo := ToHex(lsn / TWO_32), ToHex(lsn % TWO_32);
    HexReadBack(lsn / TWO_32);
    HexReadBack(lsn % TWO_32);
    SplitAtSlash(hi, lo);
    Halves(lsn);
  }

  /** The characters: the digits count themselves, the letters of either case ten and up. */
  lemma DigitIs(c: char)
    ensures Digit(c) == if '0' <= c <= '9' then Some(c as int - 0x30)
                        else if 'A' <= c <= 'F' then Some(c as int - 0x41 + 10)
                        else if 'a' <= c <= 'f' then Some(c as int - 0x61 + 10) else None
    ensures DIGITS == "0123456789ABCDEF"
  {
  }

  /** Each character counts sixteen times the one after it. */
  lemma {:induction false} PlaceValue(high: string, low: string, a: nat, b: nat)
    requires DigitsValue(high) == Some(a) && DigitsValue(low) == Some(b)
    ensures DigitsValue(high + low) == Some(Power2(4 * |low|) * a + b)
    decreases |low|
  {
    if low == "" {
      assert high + low == high;
    } else {
      var front := low[..|low| - 1];
      assert (high + low)[..|high + low| - 1] == high + front;
      PlaceValue(high, front, a, DigitsValue(front).value);
      NextPlace(|front|, a, DigitsValue(front).value);
    }
  }

  lemma NextPlace(n: nat, a: nat, b: nat)
    ensures 16 * (Power2(4 * n) * a + b) == Power2(4 * (n + 1)) * a + 16 * b
  {
    var p := Power2(4 * n);
    Power2Sum(4, 4 * n);
    assert Power2(4) == 16;
    assert 16 * (p * a) == (16 * p) * a;
  }

  /** What is not a hexadecimal number of at most 64 bits counts as zero; one plus sign may come first. */
  lemma HexOrZeroIs(s: string)
    requires s != "" && s[0] != '+'
    ensures HexOrZero(s) == match DigitsValue(s)
                            case Some(n) => if n < 0x1_0000_0000_0000_0000 then n else 0
                            case None => 0
    ensures HexOrZero("+" + s) == HexOrZero(s) && HexOrZero("") == 0 && HexOrZero("+") == 0
  {
    assert ("+" + s)[1..] == s;
    assert Digit('+') == None && "+"[..0] == "";
  }

  /** The value of a half that is a hexadecimal number below two to the 32nd. */
  predicate IsHalf(s: string, n: nat) { s != "" && '/' !in s && s[0] != '+' && n < TWO_32 && DigitsValue(s) == Some(n) }

  /** What stands before the slash is the upper half, what stands after it the lower one; text without a
      slash is the lower half. */
  lemma HalvesOfText(hi: string, lo: string, a: nat, b: nat)
    requires IsHalf(hi, a) && IsHalf(lo, b)
    ensures ParseLsn(lo) == b
    ensures ParseLsn(hi + "/" + lo) == 0x1_0000_0000 * a + b
  {
    ZeroHalf();
    NoSlash(lo);
    OrHalves(0, b);
    SplitAtSlash(hi, lo);
    OrHalves(a, b);
  }

  lemma ZeroHalf()
    ensures HexOrZero("0") == 0
  {
    assert "0"[..0] == "" && "0"[0] == '0';
  }

  lemma OrHalves(a: nat, b: nat)
    requires a < TWO_32 && b < TWO_32
    ensures BitOr(a * TWO_32 % TWO_64, b) == 0x1_0000_0000 * a + b
  {
    Power2Of32();
    OrIsSum(a, 32, b);
  }

  lemma {:induction false} NoSlash(s: string)
    requires '/' !in s
    ensures Slash(s) == |s|
  {
    if s != "" {
      assert s[0] in s && forall c :: c in s[1..] ==> c in s;
      NoSlash(s[1..]);
    }
  }
}
