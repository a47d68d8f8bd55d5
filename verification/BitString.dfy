/** Names of the bits of a BIT STRING (`euicc/src/der.rs`). */
module BitString {
  import opened Prelude
  import Bits

  /** X.690 section 8.6.2: bit `k` counts from the top of the first byte; the last byte's unused bits are not set. */
  predicate BitIsSet(unused: byte, bits: seq<byte>, k: nat)
    requires k / 8 < |bits|
  {
    && Bits.BitAt(bits[k / 8], 7 - k % 8) == 1
    && (k / 8 == |bits| - 1 ==> 7 - k % 8 >= unused)
  }

  /** Names of the set bits among the first `count`. */
  function SetNames(unused: byte, bits: seq<byte>, names: seq<string>, count: nat): seq<string>
    requires count <= |names| && count <= 8 * |bits|
  {
    if count == 0 then []
    else
      SetNames(unused, bits, names, count - 1)
      + (if BitIsSet(unused, bits, count - 1) then [names[count - 1]] else [])
  }

  /** What is left of byte `j` once its unused bits are masked out. */
  function UsedBits(unused: byte, bits: seq<byte>, j: nat): nat
    requires j < |bits|
  {
    Bits.Pow2Monotonic(Min(unused, 8), 32);
    if j == |bits| - 1 then Bits.And(bits[j], Bits.Pow2(32) - Bits.Pow2(Min(unused, 8))) else bits[j]
  }

  lemma ByteFits(b: byte)
    ensures b < Bits.Pow2(32)
  {
    assert Bits.Pow2(8) == 256;
    Bits.Pow2Monotonic(8, 32);
  }

  lemma MaskedBit(x: nat, width: nat, unused: nat, bit: nat)
    requires x < Bits.Pow2(width) && unused <= width
    ensures Bits.Pow2(unused) <= Bits.Pow2(width)
    ensures Bits.BitAt(Bits.And(x, Bits.Pow2(width) - Bits.Pow2(unused)), bit)
         == if bit < unused then 0 else Bits.BitAt(x, bit)
  {
    Bits.AndHighMask(x, width, unused);
    Bits.ClearedBits(x, unused, bit);
  }

  lemma IndexParts(j: nat, i: nat)
    requires i < 8
    ensures (8 * j + i) / 8 == j && (8 * j + i) % 8 == i
  {
  }

  /** Bit `i` from the top of what is left of byte `j` is bit `8 * j + i` of the string. */
  lemma UsedBitsAreSet(unused: byte, bits: seq<byte>, j: nat, i: nat)
    requires j < |bits| && i < 8
    ensures (8 * j + i) / 8 == j
    ensures Bits.BitAt(UsedBits(unused, bits, j), 7 - i) == 1 <==> BitIsSet(unused, bits, 8 * j + i)
  {
    IndexParts(j, i);
    if j == |bits| - 1 {
      ByteFits(bits[j]);
      MaskedBit(bits[j], 32, Min(unused, 8), 7 - i);
    }
  }

  function Shifted(n: nat, count: nat): nat {
    if count == 0 then n else 2 * Shifted(n, count - 1)
  }

  lemma {:induction false} ShiftedBit(n: nat, count: nat, b: nat)
    ensures Bits.BitAt(Shifted(n, count), count + b) == Bits.BitAt(n, b)
  {
    if count > 0 {
      ShiftedBit(n, count - 1, b);
    }
  }

  lemma TopBitSays(unused: byte, bits: seq<byte>, j: nat, i: nat)
    requires j < |bits| && i < 8
    ensures (8 * j + i) / 8 == j
    ensures Bits.BitAt(Shifted(UsedBits(unused, bits, j), i), 7) == 1 <==> BitIsSet(unused, bits, 8 * j + i)
  {
    UsedBitsAreSet(unused, bits, j, i);
    ShiftedBit(UsedBits(unused, bits, j), i, 7 - i);
  }

  /** Names of the bits set in a BIT STRING whose first byte says how many bits of the last are unused. */
  method BitNames(value: seq<byte>, names: seq<string>) returns (out: seq<string>)
    ensures value == [] ==> out == []
    ensures value != [] ==> out == SetNames(value[0], value[1..], names, Min(|names|, 8 * (|value| - 1)))
  {
    if value == [] {
      return [];
    }
    var unused, bits := value[0], value[1..];
    out := [];
    for j := 0 to |bits|
      invariant out == SetNames(unused, bits, names, Min(|names|, 8 * j))
    {
      out := NamesOfByte(unused, bits, names, j, out);
    }
  }

  /** One byte of the loop: shifts the bits out, the top one first. */
  method NamesOfByte(unused: byte, bits: seq<byte>, names: seq<string>, j: nat, before: seq<string>)
    returns (out: seq<string>)
    requires j < |bits| && before == SetNames(unused, bits, names, Min(|names|, 8 * j))
    ensures out == SetNames(unused, bits, names, Min(|names|, 8 * (j + 1)))
  {
    out := before;
    var used := UsedBits(unused, bits, j);
    var byte := used;
    for i := 0 to 8
      invariant byte == Shifted(used, i)
      invariant out == SetNames(unused, bits, names, Min(|names|, 8 * j + i))
    {
      var index := 8 * j + i;
      if index >= |names| {
        break;
      }
      TopBitSays(unused, bits, j, i);
      if Bits.BitAt(byte, 7) == 1 {
        out := out + [names[index]];
      }
      byte := 2 * byte;
    }
  }
}
