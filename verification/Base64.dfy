/** Base64 as the card library reads it: tolerant of whatever follows the alphabet (`euicc/src/b64.rs`). */
module Base64 {
  import opened Prelude

  /** Bytes are 8-bit words here: decoding shifts them, and what overflows is lost. */
  type Six = n: bv8 | n < 64

  // ---------------------------------------------------------------------------
  // RFC 4648 section 4
  // ---------------------------------------------------------------------------

  const PADDING: bv8 := 61

  function Letter(n: Six): (c: bv8)
    ensures Sextet(c) == Some(n)
  {
    if n < 26 then 65 + n
    else if n < 52 then 71 + n
    else if n < 62 then n - 4
    else if n == 62 then 43
    else 47
  }

  // The sextets of three bytes.
  function First(x: bv8): Six { x >> 2 }
  function Second(x: bv8, y: bv8): Six { ((x & 3) << 4) | (y >> 4) }
  function Third(y: bv8, z: bv8): Six { ((y & 15) << 2) | (z >> 6) }
  function Fourth(z: bv8): Six { z & 63 }

  /** The sextets of a byte string: four for three bytes, the unused low bits of the last one zero. */
  function Sextets(bin: seq<bv8>): seq<Six> {
    if bin == [] then []
    else if |bin| == 1 then [First(bin[0]), Second(bin[0], 0)]
    else if |bin| == 2 then [First(bin[0]), Second(bin[0], bin[1]), Third(bin[1], 0)]
    else [First(bin[0]), Second(bin[0], bin[1]), Third(bin[1], bin[2]), Fourth(bin[2])] + Sextets(bin[3..])
  }

  function Letters(sextets: seq<Six>): (text: seq<bv8>)
    ensures |text| == |sextets|
  {
    seq(|sextets|, i requires 0 <= i < |sextets| => Letter(sextets[i]))
  }

  function Padding(bin: seq<bv8>): seq<bv8> {
    if |bin| % 3 == 1 then [PADDING, PADDING] else if |bin| % 3 == 2 then [PADDING] else []
  }

  function Encode(bin: seq<bv8>): seq<bv8> {
    Letters(Sextets(bin)) + Padding(bin)
  }

  // ---------------------------------------------------------------------------
  // Decoding
  // ---------------------------------------------------------------------------

  function Sextet(c: bv8): Option<Six> {
    if 65 <= c <= 90 then Some(c - 65)
    else if 97 <= c <= 122 then Some(c - 97 + 26)
    else if 48 <= c <= 57 then Some(c - 48 + 52)
    else if c == 43 then Some(62)
    else if c == 47 then Some(63)
    else None
  }

  /** The values of the leading run of alphabet characters. */
  function Leading(text: seq<bv8>): seq<Six> {
    if text == [] || Sextet(text[0]).None? then []
    else [Sextet(text[0]).value] + Leading(text[1..])
  }

  // The bytes of four sextets.
  function Byte0(a: Six, b: Six): bv8 { (a << 2) | (b >> 4) }
  function Byte1(b: Six, c: Six): bv8 { (b << 4) | (c >> 2) }
  function Byte2(c: Six, d: Six): bv8 { (c << 6) | d }

  /** What one group of up to four sextets stands for; a lone one stands for nothing. */
  function GroupBytes(group: seq<Six>): seq<bv8> {
    (if |group| >= 2 then [Byte0(group[0], group[1])] else [])
    + (if |group| >= 3 then [Byte1(group[1], group[2])] else [])
    + (if |group| == 4 then [Byte2(group[2], group[3])] else [])
  }

  function Bytes(sextets: seq<Six>): seq<bv8> {
    if |sextets| < 4 then GroupBytes(sextets) else GroupBytes(sextets[..4]) + Bytes(sextets[4..])
  }

  lemma TakesGroup(rest: seq<Six>)
    ensures var n := Min(4, |rest|); Bytes(rest) == GroupBytes(rest[..n]) + Bytes(rest[n..])
  {
    if |rest| < 4 {
      assert rest[..|rest|] == rest && GroupBytes([]) == [];
    }
  }

  lemma NoSextets()
    ensures Bytes([]) == []
  {
  }

  method Decode(text: seq<bv8>) returns (out: seq<bv8>)
    ensures out == Bytes(Leading(text))
  {
    hide Bytes, GroupBytes, Leading;
    NoSextets();
    var sextets := Leading(text);
    out := [];
    var rest := sextets;
    while rest != []
      invariant Bytes(sextets) == out + Bytes(rest)
      decreases |rest|
    {
      var group := rest[..Min(4, |rest|)];
      TakesGroup(rest);
      rest := rest[|group|..];
      assert Bytes(sextets) == (out + GroupBytes(group)) + Bytes(rest);
      out := Extend(out, group);
    }
  }

  /** The three pushes of one round. */
  method Extend(before: seq<bv8>, group: seq<Six>) returns (out: seq<bv8>)
    requires |group| <= 4
    ensures out == before + GroupBytes(group)
  {
    out := before;
    if |group| >= 2 {
      out := out + [Byte0(group[0], group[1])];
    }
    if |group| >= 3 {
      out := out + [Byte1(group[1], group[2])];
    }
    if |group| == 4 {
      out := out + [Byte2(group[2], group[3])];
    }
  }

  // ---------------------------------------------------------------------------
  // Decoding inverts encoding
  // ---------------------------------------------------------------------------

  /** The bytes behind the sextets, whatever the low bits of a last, partial group. */
  lemma GroupRoundTrip(x: bv8, y: bv8, z: bv8)
    ensures Byte0(First(x), Second(x, y)) == x
    ensures Byte1(Second(x, y), Third(y, z)) == y
    ensures Byte2(Third(y, z), Fourth(z)) == z
  {
  }

  lemma {:induction false} BytesOfSextets(bin: seq<bv8>)
    ensures Bytes(Sextets(bin)) == bin
  {
    if |bin| < 3 {
      if bin != [] {
        GroupRoundTrip(bin[0], if |bin| == 2 then bin[1] else 0, 0);
      }
    } else {
      GroupRoundTrip(bin[0], bin[1], bin[2]);
      BytesOfSextets(bin[3..]);
      var group := [First(bin[0]), Second(bin[0], bin[1]), Third(bin[1], bin[2]), Fourth(bin[2])];
      assert Sextets(bin)[..4] == group && Sextets(bin)[4..] == Sextets(bin[3..]);
    }
  }

  lemma {:induction false} LeadingOfLetters(sextets: seq<Six>, rest: seq<bv8>)
    ensures Leading(Letters(sextets) + rest) == sextets + Leading(rest)
  {
    if sextets == [] {
      assert Letters([]) + rest == rest;
    } else {
      assert (Letters(sextets) + rest)[1..] == Letters(sextets[1..]) + rest;
      LeadingOfLetters(sextets[1..], rest);
    }
  }

  lemma {:induction false} BytesLength(sextets: seq<Six>)
    ensures |Bytes(sextets)| == |sextets| / 4 * 3 + Max(0, |sextets| % 4 - 1)
  {
    if |sextets| >= 4 {
      BytesLength(sextets[4..]);
    }
  }

  lemma {:induction false} SextetsLength(bin: seq<bv8>)
    ensures |Sextets(bin)| == |bin| / 3 * 4 + (if |bin| % 3 == 0 then 0 else |bin| % 3 + 1)
  {
    if |bin| >= 3 {
      SextetsLength(bin[3..]);
    }
  }

  lemma {:induction false} LoneSextetIsNothing(bin: seq<bv8>, extra: Six)
    requires |bin| % 3 == 0
    ensures Bytes(Sextets(bin) + [extra]) == Bytes(Sextets(bin))
  {
    if bin != [] {
      assert (Sextets(bin) + [extra])[4..] == Sextets(bin[3..]) + [extra];
      assert (Sextets(bin) + [extra])[..4] == Sextets(bin)[..4];
      assert Sextets(bin)[4..] == Sextets(bin[3..]);
      LoneSextetIsNothing(bin[3..], extra);
    }
  }

  lemma NoMoreSextets(bin: seq<bv8>, more: seq<Six>)
    requires more == []
    ensures Bytes(Sextets(bin) + more) == bin
  {
    BytesOfSextets(bin);
    assert Sextets(bin) + [] == Sextets(bin);
  }

  lemma OneMoreSextet(bin: seq<bv8>, more: seq<Six>)
    requires |bin| % 3 == 0 && |more| == 1
    ensures Bytes(Sextets(bin) + more) == bin
  {
    BytesOfSextets(bin);
    LoneSextetIsNothing(bin, more[0]);
    assert more == [more[0]];
  }

  lemma MoreSextets(bin: seq<bv8>, more: seq<Six>)
    requires more != [] && !(|bin| % 3 == 0 && |more| == 1)
    ensures Bytes(Sextets(bin) + more) != bin
  {
    BytesLength(Sextets(bin) + more);
    SextetsLength(bin);
    MoreBytes(|bin|, |Sextets(bin)|, |more|);
  }

  lemma WithMoreSextets(bin: seq<bv8>, more: seq<Six>)
    ensures Bytes(Sextets(bin) + more) == bin <==> more == [] || (|bin| % 3 == 0 && |more| == 1)
  {
    if more == [] {
      NoMoreSextets(bin, more);
    } else if |bin| % 3 == 0 && |more| == 1 {
      OneMoreSextet(bin, more);
    } else {
      MoreSextets(bin, more);
    }
  }

  /**
   Decoding an encoding gives the bytes back exactly when what follows adds no alphabet character,
   or a single one after a whole number of groups.
   */
  lemma RoundTripsExactly(bin: seq<bv8>, rest: seq<bv8>)
    ensures Bytes(Leading(Letters(Sextets(bin)) + rest)) == bin
            <==> Leading(rest) == [] || (|bin| % 3 == 0 && |Leading(rest)| == 1)
  {
    LeadingOfLetters(Sextets(bin), rest);
    WithMoreSextets(bin, Leading(rest));
  }

  lemma MoreBytes(bytes: nat, sextets: nat, more: nat)
    requires sextets == bytes / 3 * 4 + (if bytes % 3 == 0 then 0 else bytes % 3 + 1)
    requires more >= 2 || (more == 1 && bytes % 3 != 0)
    ensures (sextets + more) / 4 * 3 + Max(0, (sextets + more) % 4 - 1) > bytes
  {
    var groups, left := bytes / 3, bytes % 3;
    assert bytes == 3 * groups + left;
  }

  lemma NothingLeads(rest: seq<bv8>)
    requires rest != [] ==> Sextet(rest[0]).None?
    ensures Leading(rest) == []
  {
  }

  /** With padding, without it, and with anything after it that starts outside the alphabet. */
  lemma DecodesEncoded(bin: seq<bv8>, rest: seq<bv8>)
    requires rest != [] ==> Sextet(rest[0]).None?
    ensures Bytes(Leading(Letters(Sextets(bin)) + rest)) == bin
    ensures Bytes(Leading(Encode(bin) + rest)) == bin
  {
    NothingLeads(rest);
    RoundTripsExactly(bin, rest);
    PaddingChangesNothing(bin, rest);
  }

  lemma PaddingChangesNothing(bin: seq<bv8>, rest: seq<bv8>)
    requires rest != [] ==> Sextet(rest[0]).None?
    ensures Bytes(Leading(Encode(bin) + rest)) == bin
  {
    var letters, tail := Letters(Sextets(bin)), Padding(bin) + rest;
    PaddingLeadsNowhere(Padding(bin), rest);
    RoundTripsExactly(bin, tail);
    assert (letters + Padding(bin)) + rest == letters + tail;
  }

  lemma PaddingLeadsNowhere(padding: seq<bv8>, rest: seq<bv8>)
    requires padding != [] ==> padding[0] == PADDING
    requires rest != [] ==> Sextet(rest[0]).None?
    ensures Leading(padding + rest) == []
  {
    if padding == [] {
      assert [] + rest == rest;
      NothingLeads(rest);
    }
  }
}
