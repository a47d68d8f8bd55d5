/** Hex, and the swapped-digit BCD that SIM cards use for ICCIDs (`euicc/src/hex.rs`). Texts are their bytes. */
module Hex {
  import opened Prelude

  const PAD: byte := 102

  // ---------------------------------------------------------------------------
  // Hex
  // ---------------------------------------------------------------------------

  function Digit(n: nat): (c: byte)
    requires n < 16
    ensures DigitValue(c) == Some(n)
  {
    if n < 10 then 48 + n else 87 + n
  }

  /** Either letter case is read. */
  function DigitValue(c: byte): (n: Option<nat>)
    ensures n.Some? ==> n.value < 16
  {
    if 48 <= c <= 57 then Some(c - 48)
    else if 97 <= c <= 102 then Some(c - 87)
    else if 65 <= c <= 70 then Some(c - 55)
    else None
  }

  predicate IsHex(text: seq<byte>) {
    forall i :: 0 <= i < |text| ==> DigitValue(text[i]).Some?
  }

  predicate IsLower(c: byte) {
    48 <= c <= 57 || 97 <= c <= 102
  }

  /** Decimal digits and lower-case letters: what the encoder writes. */
  predicate IsLowerHex(text: seq<byte>) {
    forall i :: 0 <= i < |text| ==> IsLower(text[i])
  }

  /** Two digits for each byte, the high half first. */
  function Encoded(bin: seq<byte>): (text: seq<byte>)
    ensures |text| == 2 * |bin| && IsLowerHex(text)
  {
    seq(2 * |bin|, k requires 0 <= k < 2 * |bin| => Digit(if k % 2 == 0 then bin[k / 2] / 16 else bin[k / 2] % 16))
  }

  method Encode(bin: seq<byte>) returns (out: seq<byte>)
    ensures out == Encoded(bin)
  {
    out := [];
    for i := 0 to |bin|
      invariant out == Encoded(bin)[..2 * i]
    {
      out := out + [Digit(bin[i] / 16)];
      out := out + [Digit(bin[i] % 16)];
    }
  }

  function Pair(text: seq<byte>, i: nat): byte
    requires IsHex(text) && 2 * i + 1 < |text|
  {
    16 * DigitValue(text[2 * i]).value + DigitValue(text[2 * i + 1]).value
  }

  function Decode(text: seq<byte>): Option<seq<byte>> {
    if |text| % 2 != 0 || !IsHex(text) then None
    else Some(seq(|text| / 2, i requires 0 <= i < |text| / 2 => Pair(text, i)))
  }

  lemma DecodeInvertsEncode(bin: seq<byte>)
    ensures Decode(Encoded(bin)) == Some(bin)
  {
    var text := Encoded(bin);
    forall i | 0 <= i < |bin| ensures Pair(text, i) == bin[i] {
      assert text[2 * i] == Digit(bin[i] / 16) && text[2 * i + 1] == Digit(bin[i] % 16);
    }
    assert Decode(text).value == bin;
  }

  lemma PairSplits(high: byte, low: byte)
    requires IsLower(high) && IsLower(low)
    ensures var b := 16 * DigitValue(high).value + DigitValue(low).value; Digit(b / 16) == high && Digit(b % 16) == low
  {
  }

  lemma EncodedAt(bin: seq<byte>, i: nat)
    requires i < |bin|
    ensures Encoded(bin)[2 * i] == Digit(bin[i] / 16) && Encoded(bin)[2 * i + 1] == Digit(bin[i] % 16)
  {
  }

  lemma EncodeInvertsDecode(text: seq<byte>)
    requires |text| % 2 == 0 && IsLowerHex(text)
    ensures Decode(text).Some? && Encoded(Decode(text).value) == text
  {
    var bin := Decode(text).value;
    forall i | 0 <= i < |bin|
      ensures Encoded(bin)[2 * i] == text[2 * i] && Encoded(bin)[2 * i + 1] == text[2 * i + 1]
    {
      PairSplits(text[2 * i], text[2 * i + 1]);
      EncodedAt(bin, i);
      assert bin[i] == Pair(text, i);
    }
    SameByPairs(Encoded(bin), text);
  }

  lemma SameByPairs(a: seq<byte>, b: seq<byte>)
    requires |a| == |b| && |a| % 2 == 0
    requires forall i :: 0 <= i < |a| / 2 ==> a[2 * i] == b[2 * i] && a[2 * i + 1] == b[2 * i + 1]
    ensures a == b
  {
    forall k | 0 <= k < |a| ensures a[k] == b[k] {
      var i := k / 2;
      assert a[2 * i] == b[2 * i] && a[2 * i + 1] == b[2 * i + 1];
    }
  }

  // ---------------------------------------------------------------------------
  // Swapped digit pairs
  // ---------------------------------------------------------------------------

  function Swapped(text: seq<byte>): (swapped: seq<byte>)
    requires |text| % 2 == 0
    ensures |swapped| == |text|
  {
    seq(|text|, k requires 0 <= k < |text| => text[if k % 2 == 0 then k + 1 else k - 1])
  }

  lemma SwapTwice(text: seq<byte>)
    requires |text| % 2 == 0
    ensures Swapped(Swapped(text)) == text
  {
  }

  method SwapPairs(chars: array<byte>)
    requires chars.Length % 2 == 0
    modifies chars
    ensures chars[..] == Swapped(old(chars[..]))
  {
    var i := 0;
    while i < chars.Length
      invariant 0 <= i <= chars.Length && i % 2 == 0
      invariant chars[..i] == Swapped(old(chars[..]))[..i]
      invariant chars[i..] == old(chars[..])[i..]
    {
      assert chars[i] == chars[i..][0] && chars[i + 1] == chars[i..][1];
      chars[i], chars[i + 1] := chars[i + 1], chars[i];
      i := i + 2;
    }
  }

  method Copy(text: seq<byte>) returns (chars: array<byte>)
    ensures fresh(chars) && chars[..] == text
  {
    chars := new byte[|text|](i requires 0 <= i < |text| => text[i]);
  }

  // ---------------------------------------------------------------------------
  // ICCIDs
  // ---------------------------------------------------------------------------

  function Pads(count: nat): (pads: seq<byte>)
    ensures |pads| == count && IsLowerHex(pads)
  {
    seq(count, _ => PAD)
  }

  function Bytes(count: nat, b: byte): seq<byte> {
    seq(count, _ => b)
  }

  function Even(digits: seq<byte>): (text: seq<byte>)
    ensures |text| % 2 == 0
  {
    if |digits| % 2 != 0 then digits + [PAD] else digits
  }

  /** Digits to card bytes; a text of other characters, or one too long, is refused. */
  function ToBcd(digits: seq<byte>, paddingTo: nat): Option<seq<byte>> {
    match Decode(Swapped(Even(digits)))
    case None => None
    case Some(bytes) =>
      if |bytes| > paddingTo then None else Some(bytes + Bytes(paddingTo - |bytes|, 255))
  }

  method IccidToBcd(digits: seq<byte>, paddingTo: nat) returns (bcd: Option<seq<byte>>)
    ensures bcd == ToBcd(digits, paddingTo)
  {
    var text := digits;
    if |text| % 2 != 0 {
      text := text + [PAD];
    }
    var chars := Copy(text);
    SwapPairs(chars);
    // Swapped bytes that are not UTF-8 hold a character that is not a digit: both are refused.
    var decoded := Decode(chars[..]);
    if decoded.None? || |decoded.value| > paddingTo {
      return None;
    }
    var out := decoded.value;
    if |out| < paddingTo {
      out := out + Bytes(paddingTo - |out|, 255);
    } else {
      assert out + Bytes(0, 255) == out;
    }
    return Some(out);
  }

  /** Without trailing padding; the first character always stays. */
  function Trimmed(text: seq<byte>): seq<byte> {
    if |text| > 1 && text[|text| - 1] == PAD then Trimmed(text[..|text| - 1]) else text
  }

  function ToIccid(bcd: seq<byte>): seq<byte> {
    Trimmed(Swapped(Encoded(bcd)))
  }

  method BcdToIccid(bcd: seq<byte>) returns (digits: seq<byte>)
    ensures digits == ToIccid(bcd)
  {
    var text := Encode(bcd);
    var chars := Copy(text);
    SwapPairs(chars);
    digits := chars[..];
    while |digits| > 1 && digits[|digits| - 1] == PAD
      invariant Trimmed(digits) == Trimmed(Swapped(text))
    {
      digits := digits[..|digits| - 1];
    }
  }

  // ---------------------------------------------------------------------------
  // Both ways round
  // ---------------------------------------------------------------------------

  function Padded(digits: seq<byte>, n: nat): (text: seq<byte>)
    requires |digits| <= 2 * n
    ensures |text| == 2 * n
  {
    digits + Pads(2 * n - |digits|)
  }

  /** Padding the bytes with 0xFF is padding the digits with `f`. */
  lemma PadsAsDigits(digits: seq<byte>, n: nat)
    requires IsHex(digits) && |digits| <= 2 * n
    ensures ToBcd(digits, n) == Decode(Swapped(Padded(digits, n))) && ToBcd(digits, n).Some?
  {
    var part, whole := Swapped(Even(digits)), Swapped(Padded(digits, n));
    assert IsHex(Even(digits)) && IsHex(Padded(digits, n));
    assert part == whole[..|part|];
    forall i | |part| <= i < 2 * n ensures whole[i] == PAD {
    }
    var short, long := Decode(part).value, Decode(whole).value;
    forall i | 0 <= i < n ensures long[i] == (short + Bytes(n - |short|, 255))[i] {
      assert long[i] == Pair(whole, i);
    }
    assert long == short + Bytes(n - |short|, 255);
  }

  /** The conversion is refused exactly for a character that is not a hex digit and for too many digits. */
  lemma RefusedExactly(digits: seq<byte>, n: nat)
    ensures ToBcd(digits, n).Some? <==> IsHex(digits) && |digits| <= 2 * n
  {
    if IsHex(digits) {
      if |digits| <= 2 * n {
        PadsAsDigits(digits, n);
      }
    } else {
      var i :| 0 <= i < |digits| && DigitValue(digits[i]).None?;
      var j := if i % 2 == 0 then i + 1 else i - 1;
      assert Swapped(Even(digits))[j] == digits[i];
    }
  }

  lemma {:induction false} TrimmedFacts(text: seq<byte>)
    ensures |Trimmed(text)| <= |text| && text == Trimmed(text) + Pads(|text| - |Trimmed(text)|)
    ensures Trimmed(text) == text <==> |text| <= 1 || text[|text| - 1] != PAD
    ensures text != [] ==> Trimmed(text) != []
  {
    if |text| > 1 && text[|text| - 1] == PAD {
      var front := text[..|text| - 1];
      TrimmedFacts(front);
      assert text == front + [PAD];
    }
  }

  lemma {:induction false} TrimsPads(digits: seq<byte>, k: nat)
    requires digits != []
    ensures Trimmed(digits + Pads(k)) == Trimmed(digits)
  {
    if k == 0 {
      assert digits + Pads(0) == digits;
    } else {
      assert (digits + Pads(k))[..|digits| + k - 1] == digits + Pads(k - 1);
      TrimsPads(digits, k - 1);
    }
  }

  /** Reading the bytes written for lower-case digits gives them back without their trailing padding. */
  lemma ReadsWritten(digits: seq<byte>, n: nat)
    requires IsLowerHex(digits) && |digits| <= 2 * n
    ensures ToBcd(digits, n).Some? && ToIccid(ToBcd(digits, n).value) == Trimmed(Padded(digits, n))
  {
    PadsAsDigits(digits, n);
    var text := Padded(digits, n);
    EncodeInvertsDecode(Swapped(text));
    SwapTwice(text);
  }

  lemma LowerDigitsSurviveExactly(digits: seq<byte>, n: nat)
    requires IsLowerHex(digits) && |digits| <= 2 * n
    ensures Trimmed(Padded(digits, n)) == digits
            <==> (digits == [] ==> n == 0) && (|digits| > 1 ==> digits[|digits| - 1] != PAD)
  {
    if digits == [] {
      TrimmedFacts(Padded(digits, n));
    } else {
      TrimmedFacts(digits);
      TrimsPads(digits, 2 * n - |digits|);
    }
  }

  /** Digits survive exactly when they are lower-case, fit, and carry no trailing padding of their own. */
  lemma DigitsRoundTripExactly(digits: seq<byte>, n: nat)
    ensures ToBcd(digits, n).Some? && ToIccid(ToBcd(digits, n).value) == digits
            <==> && IsLowerHex(digits) && |digits| <= 2 * n && (digits == [] ==> n == 0)
                 && (|digits| > 1 ==> digits[|digits| - 1] != PAD)
  {
    RefusedExactly(digits, n);
    if ToBcd(digits, n).Some? {
      if IsLowerHex(digits) {
        ReadsWritten(digits, n);
        LowerDigitsSurviveExactly(digits, n);
      } else {
        WrittenLower(ToBcd(digits, n).value);
      }
    }
  }

  lemma WrittenLower(bcd: seq<byte>)
    ensures IsLowerHex(ToIccid(bcd))
  {
    var text := Swapped(Encoded(bcd));
    assert IsLowerHex(text);
    TrimmedFacts(text);
    assert Trimmed(text) == text[..|Trimmed(text)|];
  }

  predicate IsDecimal(text: seq<byte>) {
    forall i :: 0 <= i < |text| ==> 48 <= text[i] <= 57
  }

  /** ETSI TS 102 221 section 13.2: every ICCID of 1 to `2 * n` decimal digits survives. */
  lemma DecimalRoundTrip(digits: seq<byte>, n: nat)
    requires IsDecimal(digits) && 1 <= |digits| <= 2 * n
    ensures ToBcd(digits, n).Some? && ToIccid(ToBcd(digits, n).value) == digits
  {
    DigitsRoundTripExactly(digits, n);
  }

  /** Every byte string survives, padding and letters included. */
  lemma BytesRoundTrip(bcd: seq<byte>)
    ensures ToBcd(ToIccid(bcd), |bcd|) == Some(bcd)
  {
    var text := Swapped(Encoded(bcd));
    var digits := ToIccid(bcd);
    TrimmedFacts(text);
    WrittenLower(bcd);
    assert text == Padded(digits, |bcd|);
    PadsAsDigits(digits, |bcd|);
    assert Swapped(text) == Encoded(bcd) by {
      SwapTwice(Encoded(bcd));
    }
    DecodeInvertsEncode(bcd);
  }
}
