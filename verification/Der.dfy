/**
 BER-TLV as SGP.22 uses it: one- or two-byte tags, definite lengths (`euicc/src/der.rs`).
 */
module Der {
  import opened Prelude

  /** One parsed element: its contents, and the whole of it. */
  datatype Tlv = Tlv(tag: u16, value: seq<byte>, raw: seq<byte>)

  datatype Node = Prim(tag: u16, contents: seq<byte>) | Cons(tag: u16, children: seq<Node>)

  /** The number a byte string denotes, most significant byte first. */
  function BigEndian(bytes: seq<byte>): nat {
    if bytes == [] then 0 else 256 * BigEndian(bytes[..|bytes| - 1]) + bytes[|bytes| - 1]
  }

  // ---------------------------------------------------------------------------
  // Parsing
  // ---------------------------------------------------------------------------

  /** Tag bytes: a second byte follows when the low five bits of the first are all set. */
  function TagLength(buf: seq<byte>): nat {
    if buf != [] && buf[0] % 32 == 31 then 2 else 1
  }

  function ParseTag(buf: seq<byte>): (tag: u16)
    requires TagLength(buf) <= |buf|
  {
    var first: int := buf[0];
    if TagLength(buf) == 2 then 256 * first + buf[1] else first
  }

  /** Where the contents start and how many bytes they have, the length field starting at `i`. */
  function ParseLength(buf: seq<byte>, i: nat): Option<(nat, nat)> {
    if i >= |buf| then None
    else if buf[i] < 128 then Some((i + 1, buf[i]))
    else
      var count := buf[i] - 128;
      if count > 4 || i + 1 + count > |buf| then None
      else Some((i + 1 + count, BigEndian(buf[i + 1..i + 1 + count])))
  }

  /** The element at the start of `buf`. */
  function Parse(buf: seq<byte>): (t: Option<Tlv>)
    ensures t.Some? ==> 2 <= |t.value.raw| <= |buf| && t.value.raw == buf[..|t.value.raw|]
    ensures t.Some? ==> |t.value.value| <= |t.value.raw| - 2
  {
    if TagLength(buf) > |buf| then None
    else match ParseLength(buf, TagLength(buf))
      case None => None
      case Some((start, length)) =>
        if start + length > |buf| then None
        else Some(Tlv(ParseTag(buf), buf[start..start + length], buf[..start + length]))
  }

  lemma BigEndianExtends(buf: seq<byte>, start: nat, i: nat)
    requires start <= i < |buf|
    ensures BigEndian(buf[start..i + 1]) == 256 * BigEndian(buf[start..i]) + buf[i]
  {
    assert buf[start..i + 1][..i - start] == buf[start..i];
  }

  /** The parser, advancing an index over the buffer. */
  method ParseElement(buf: seq<byte>) returns (t: Option<Tlv>)
    ensures t == Parse(buf)
  {
    var i := 0;
    if i >= |buf| {
      return None;
    }
    var tag: u16 := buf[i];
    i := i + 1;
    if tag % 32 == 31 {
      if i >= |buf| {
        return None;
      }
      tag := 256 * tag + buf[i];
      i := i + 1;
    }
    if i >= |buf| {
      return None;
    }
    var first := buf[i];
    i := i + 1;
    var length: nat := first;
    if first >= 128 {
      var count := first - 128;
      if count > 4 {
        return None;
      }
      length := 0;
      ghost var start := i;
      for k := 0 to count
        invariant i == start + k && i <= |buf| && length == BigEndian(buf[start..i])
      {
        if i >= |buf| {
          return None;
        }
        BigEndianExtends(buf, start, i);
        length := 256 * length + buf[i];
        i := i + 1;
      }
    }
    assert ParseLength(buf, TagLength(buf)) == Some((i, length));
    var end := i + length;
    if end > |buf| {
      return None;
    }
    return Some(Tlv(tag, buf[i..end], buf[..end]));
  }

  /** The elements of `buf` one after another, up to the first malformed one. */
  function Items(buf: seq<byte>): seq<Tlv>
    decreases |buf|
  {
    match Parse(buf)
    case None => []
    case Some(t) => [t] + Items(buf[|t.raw|..])
  }

  class Iter {
    var rest: seq<byte>

    constructor (buf: seq<byte>)
      ensures rest == buf
    {
      rest := buf;
    }

    /** Yields the next element; what remains yields the others. */
    method Next() returns (t: Option<Tlv>)
      modifies this
      ensures t.None? ==> Items(old(rest)) == [] && rest == old(rest)
      ensures t.Some? ==> Items(old(rest)) == [t.value] + Items(rest)
    {
      t := ParseElement(rest);
      if t.Some? {
        rest := rest[|t.value.raw|..];
      }
    }
  }

  /** The first element with `tag`. */
  function FirstWith(items: seq<Tlv>, tag: u16): Option<Tlv> {
    if items == [] then None
    else if items[0].tag == tag then Some(items[0])
    else FirstWith(items[1..], tag)
  }

  method Find(buf: seq<byte>, tag: u16) returns (t: Option<Tlv>)
    ensures t == FirstWith(Items(buf), tag)
  {
    var iter := new Iter(buf);
    var more := true;
    while more
      invariant FirstWith(Items(buf), tag) == if more then FirstWith(Items(iter.rest), tag) else None
      decreases more, |Items(iter.rest)|
    {
      var item := iter.Next();
      if item.None? {
        more := false;
      } else if item.value.tag == tag {
        return item;
      }
    }
    return None;
  }

  // ---------------------------------------------------------------------------
  // Encoding
  // ---------------------------------------------------------------------------

  function TagBytes(tag: u16): seq<byte> {
    if tag / 256 != 0 then [tag / 256, tag % 256] else [tag % 256]
  }

  /** The low `k` bytes of `n`, most significant first. */
  function LowBytes(n: nat, k: nat): (bytes: seq<byte>)
    ensures |bytes| == k
  {
    if k == 0 then [] else LowBytes(n / 256, k - 1) + [n % 256]
  }

  function SkipZeros(bytes: seq<byte>): seq<byte> {
    if bytes != [] && bytes[0] == 0 then SkipZeros(bytes[1..]) else bytes
  }

  lemma {:induction false} SkipZerosFacts(bytes: seq<byte>)
    ensures |SkipZeros(bytes)| <= |bytes|
    ensures BigEndian(SkipZeros(bytes)) == BigEndian(bytes)
    ensures SkipZeros(bytes) != [] ==> SkipZeros(bytes)[0] != 0
  {
    if bytes != [] && bytes[0] == 0 {
      SkipZerosFacts(bytes[1..]);
      BigEndianLeadingZero(bytes);
    }
  }

  lemma {:induction false} BigEndianLeadingZero(bytes: seq<byte>)
    requires bytes != [] && bytes[0] == 0
    ensures BigEndian(bytes) == BigEndian(bytes[1..])
  {
    if |bytes| > 1 {
      var front := bytes[..|bytes| - 1];
      BigEndianLeadingZero(front);
      assert bytes[1..][..|bytes| - 2] == front[1..];
    }
  }

  /** Shortest length field; the encoder casts the length to 32 bits, keeping its low four bytes. */
  function LengthBytes(len: nat): seq<byte> {
    if len < 128 then [len] else LongField(LowBytes(len, 4))
  }

  function LongField(bytes: seq<byte>): seq<byte>
    requires |bytes| == 4
  {
    SkipZerosFacts(bytes);
    [128 + |SkipZeros(bytes)|] + SkipZeros(bytes)
  }

  function Element(tag: u16, value: seq<byte>): seq<byte> {
    TagBytes(tag) + LengthBytes(|value|) + value
  }

  function Encode(n: Node): seq<byte>
    decreases n, 2
  {
    Element(n.tag, Contents(n))
  }

  function Contents(n: Node): seq<byte>
    decreases n, 1
  {
    match n
    case Prim(_, contents) => contents
    case Cons(_, children) => EncodeAll(children)
  }

  function EncodeAll(nodes: seq<Node>): seq<byte>
    decreases nodes, 0
  {
    if nodes == [] then [] else Encode(nodes[0]) + EncodeAll(nodes[1..])
  }

  class Buffer {
    var bytes: seq<byte>

    constructor ()
      ensures bytes == []
    {
      bytes := [];
    }
  }

  lemma {:induction false} EncodeAllAppend(nodes: seq<Node>, last: Node)
    ensures EncodeAll(nodes + [last]) == EncodeAll(nodes) + Encode(last)
  {
    if nodes == [] {
      assert [] + [last] == [last];
      assert EncodeAll([last]) == Encode(last) + EncodeAll([]);
    } else {
      assert (nodes + [last])[1..] == nodes[1..] + [last];
      EncodeAllAppend(nodes[1..], last);
    }
  }

  /** Appends an element to `out`, its children's encodings collected in a buffer of their own. */
  method EncodeInto(n: Node, out: Buffer)
    modifies out
    ensures out.bytes == old(out.bytes) + Encode(n)
    decreases n, 1
  {
    var value;
    match n {
      case Prim(_, contents) =>
        value := contents;
      case Cons(_, children) =>
        var inner := new Buffer();
        EncodeChildren(children, inner);
        value := inner.bytes;
    }
    assert value == Contents(n);
    var header := TagBytes(n.tag) + LengthBytes(|value|);
    out.bytes := out.bytes + (header + value);
  }

  method EncodeChildren(children: seq<Node>, out: Buffer)
    modifies out
    ensures out.bytes == old(out.bytes) + EncodeAll(children)
    decreases children, 0
  {
    for k := 0 to |children|
      invariant out.bytes == old(out.bytes) + EncodeAll(children[..k])
    {
      EncodeInto(children[k], out);
      EncodeAllAppend(children[..k], children[k]);
      assert children[..k + 1] == children[..k] + [children[k]];
    }
    assert children[..|children|] == children;
  }

  // ---------------------------------------------------------------------------
  // Parsing inverts encoding
  // ---------------------------------------------------------------------------

  /** X.690 section 8.1.2: the low five bits of the first byte are all set exactly when a second follows. */
  predicate WellTagged(tag: u16) {
    if tag / 256 != 0 then tag / 256 % 32 == 31 else tag % 32 != 31
  }

  lemma TagRoundTrip(tag: u16, tail: seq<byte>)
    requires WellTagged(tag)
    ensures var buf := TagBytes(tag) + tail;
            TagLength(buf) == |TagBytes(tag)| && ParseTag(buf) == tag
  {
  }

  lemma ParsedTagIsWell(buf: seq<byte>)
    requires TagLength(buf) <= |buf|
    ensures WellTagged(ParseTag(buf)) && |TagBytes(ParseTag(buf))| == TagLength(buf)
  {
    if TagLength(buf) == 2 {
      assert ParseTag(buf) / 256 == buf[0];
    }
  }

  function Pow256(k: nat): nat {
    if k == 0 then 1 else 256 * Pow256(k - 1)
  }

  lemma {:induction false} BigEndianBound(bytes: seq<byte>)
    ensures BigEndian(bytes) < Pow256(|bytes|)
  {
    if bytes != [] {
      BigEndianBound(bytes[..|bytes| - 1]);
    }
  }

  /** A leading byte that is not zero makes the number at least its place value. */
  lemma {:induction false} BigEndianAtLeast(bytes: seq<byte>)
    requires bytes != [] && bytes[0] >= 1
    ensures Pow256(|bytes| - 1) <= BigEndian(bytes)
  {
    if |bytes| > 1 {
      BigEndianAtLeast(bytes[..|bytes| - 1]);
    }
  }

  /** The top bit of the leading byte is the number's top bit. */
  lemma {:induction false} BigEndianTopBit(bytes: seq<byte>)
    requires bytes != []
    ensures bytes[0] >= 128 <==> BigEndian(bytes) >= 128 * Pow256(|bytes| - 1)
  {
    if |bytes| == 1 {
      assert BigEndian(bytes) == 256 * BigEndian(bytes[..0]) + bytes[0];
    } else {
      BigEndianTopBit(bytes[..|bytes| - 1]);
    }
  }

  /** What is left after the leading zeros has no more bytes than the number needs. */
  lemma {:induction false} SkipZerosBound(bytes: seq<byte>, k: nat)
    requires BigEndian(bytes) < Pow256(k)
    ensures |SkipZeros(bytes)| <= k
  {
    if bytes != [] && bytes[0] == 0 {
      BigEndianLeadingZero(bytes);
      SkipZerosBound(bytes[1..], k);
    } else if |bytes| > k {
      BigEndianAtLeast(bytes);
      Pow256Monotonic(k, |bytes| - 1);
      assert false;
    }
  }

  lemma {:induction false} Pow256Monotonic(j: nat, k: nat)
    requires j <= k
    ensures Pow256(j) <= Pow256(k)
  {
    if j < k {
      Pow256Monotonic(j, k - 1);
    }
  }

  lemma {:induction false} LowBytesValue(n: nat, k: nat)
    requires n < Pow256(k)
    ensures BigEndian(LowBytes(n, k)) == n
  {
    if k > 0 {
      LowBytesValue(n / 256, k - 1);
      assert LowBytes(n, k)[..k - 1] == LowBytes(n / 256, k - 1);
    }
  }

  lemma Pow256Values()
    ensures Pow256(4) == U32_SIZE && Pow256(8) == U64_SIZE
  {
    assert Pow256(2) == 0x1_0000;
    assert Pow256(4) == U32_SIZE;
    assert Pow256(6) == 0x1_0000_0000_0000;
  }

  lemma LongFieldDenotes(bytes: seq<byte>)
    requires |bytes| == 4 && BigEndian(bytes) > 0
    ensures var field := LongField(bytes);
            1 < |field| <= 5 && field[0] == 128 + (|field| - 1) && BigEndian(field[1..]) == BigEndian(bytes)
  {
    SkipZerosFacts(bytes);
    assert LongField(bytes)[1..] == SkipZeros(bytes);
  }

  lemma LongLength(len: nat)
    requires 128 <= len < U32_SIZE
    ensures var field := LengthBytes(len);
            1 < |field| <= 5 && field[0] == 128 + (|field| - 1) && BigEndian(field[1..]) == len
  {
    Pow256Values();
    LowBytesValue(len, 4);
    LongFieldDenotes(LowBytes(len, 4));
  }

  lemma LengthRoundTrip(len: nat, buf: seq<byte>, i: nat)
    requires len < U32_SIZE
    requires i + |LengthBytes(len)| <= |buf| && buf[i..i + |LengthBytes(len)|] == LengthBytes(len)
    ensures ParseLength(buf, i) == Some((i + |LengthBytes(len)|, len))
  {
    var field := LengthBytes(len);
    assert buf[i] == buf[i..i + |field|][0] == field[0];
    if len >= 128 {
      LongLength(len);
      assert buf[i + 1..i + |field|] == buf[i..i + |field|][1..];
    }
  }

  lemma ElementParses(tag: u16, value: seq<byte>, rest: seq<byte>)
    requires WellTagged(tag) && |value| < U32_SIZE
    ensures Parse(Element(tag, value) + rest) == Some(Tlv(tag, value, Element(tag, value)))
  {
    hide TagBytes, LengthBytes;
    var buf := Element(tag, value) + rest;
    var i := |TagBytes(tag)|;
    var field := LengthBytes(|value|);
    assert buf == TagBytes(tag) + (field + value + rest);
    TagRoundTrip(tag, field + value + rest);
    assert buf[i..i + |field|] == field;
    LengthRoundTrip(|value|, buf, i);
    assert buf[i + |field|..i + |field| + |value|] == value;
    assert buf[..i + |field| + |value|] == Element(tag, value);
  }

  lemma ParsedIsEncodable(buf: seq<byte>)
    requires Parse(buf).Some?
    ensures WellTagged(Parse(buf).value.tag) && |Parse(buf).value.value| < U32_SIZE
  {
    ParsedTagIsWell(buf);
    var i := TagLength(buf);
    if buf[i] >= 128 {
      BigEndianBound(buf[i + 1..i + 1 + (buf[i] - 128)]);
      Pow256Monotonic(buf[i] - 128, 4);
      Pow256Values();
    }
  }

  /** Parsing gives an encoded element back exactly when its tag is well formed and its length fits 32 bits. */
  lemma ElementRoundTripsExactly(tag: u16, value: seq<byte>, rest: seq<byte>)
    ensures Parse(Element(tag, value) + rest) == Some(Tlv(tag, value, Element(tag, value)))
            <==> WellTagged(tag) && |value| < U32_SIZE
  {
    if WellTagged(tag) && |value| < U32_SIZE {
      ElementParses(tag, value, rest);
    } else if Parse(Element(tag, value) + rest).Some? {
      ParsedIsEncodable(Element(tag, value) + rest);
    }
  }

  /** The encoder's length field is no longer than any field that denotes the same length. */
  lemma ShortestLength(bytes: seq<byte>)
    requires |bytes| <= 4
    ensures |LengthBytes(BigEndian(bytes))| <= 1 + |bytes|
  {
    var n := BigEndian(bytes);
    BigEndianBound(bytes);
    Pow256Monotonic(|bytes|, 4);
    LowBytesValue(n, 4);
    SkipZerosBound(LowBytes(n, 4), |bytes|);
  }

  lemma LengthFieldIsShortest(buf: seq<byte>)
    requires Parse(buf).Some?
    ensures var t := Parse(buf).value; TagLength(buf) + |LengthBytes(|t.value|)| + |t.value| <= |t.raw|
  {
    var i := TagLength(buf);
    if buf[i] >= 128 {
      ShortestLength(buf[i + 1..i + 1 + (buf[i] - 128)]);
    }
  }

  /** X.690 section 10.1: of all byte strings parsed to a tag and contents, the encoder's is shortest. */
  lemma EncodingIsShortest(buf: seq<byte>)
    requires Parse(buf).Some?
    ensures var t := Parse(buf).value; |Element(t.tag, t.value)| <= |t.raw|
    ensures var t := Parse(buf).value; Parse(Element(t.tag, t.value)) == Some(t.(raw := Element(t.tag, t.value)))
  {
    var t := Parse(buf).value;
    ParsedIsEncodable(buf);
    ElementParses(t.tag, t.value, []);
    assert Element(t.tag, t.value) + [] == Element(t.tag, t.value);
    LengthFieldIsShortest(buf);
    ParsedTagIsWell(buf);
    assert t.tag == ParseTag(buf);
    assert |Element(t.tag, t.value)| == |TagBytes(t.tag)| + |LengthBytes(|t.value|)| + |t.value|;
  }

  // ---------------------------------------------------------------------------
  // Trees
  // ---------------------------------------------------------------------------

  function TlvOf(n: Node): Tlv {
    Tlv(n.tag, Contents(n), Encode(n))
  }

  predicate Encodable(n: Node) {
    WellTagged(n.tag) && |Contents(n)| < U32_SIZE
  }

  function TlvsOf(nodes: seq<Node>): seq<Tlv> {
    if nodes == [] then [] else [TlvOf(nodes[0])] + TlvsOf(nodes[1..])
  }

  /** Iterating over a constructed element's contents yields exactly its children. */
  lemma {:induction false} ItemsAreChildren(nodes: seq<Node>)
    requires forall i :: 0 <= i < |nodes| ==> Encodable(nodes[i])
    ensures Items(EncodeAll(nodes)) == TlvsOf(nodes)
    decreases |nodes|
  {
    if nodes != [] {
      var first, rest := nodes[0], EncodeAll(nodes[1..]);
      ElementParses(first.tag, Contents(first), rest);
      assert (Encode(first) + rest)[|Encode(first)|..] == rest;
      ItemsAreChildren(nodes[1..]);
    }
  }

  /** Looking a tag up in encoded children finds the first child that has it. */
  lemma FindsFirstChild(nodes: seq<Node>, k: nat)
    requires forall i :: 0 <= i < |nodes| ==> Encodable(nodes[i])
    requires k < |nodes| && forall i :: 0 <= i < k ==> nodes[i].tag != nodes[k].tag
    ensures FirstWith(Items(EncodeAll(nodes)), nodes[k].tag) == Some(TlvOf(nodes[k]))
  {
    ItemsAreChildren(nodes);
    FirstOfTlvs(nodes, k);
  }

  lemma {:induction false} FirstOfTlvs(nodes: seq<Node>, k: nat)
    requires k < |nodes| && forall i :: 0 <= i < k ==> nodes[i].tag != nodes[k].tag
    ensures FirstWith(TlvsOf(nodes), nodes[k].tag) == Some(TlvOf(nodes[k]))
    decreases |nodes|
  {
    assert TlvsOf(nodes)[1..] == TlvsOf(nodes[1..]);
    if k > 0 {
      FirstOfTlvs(nodes[1..], k - 1);
    }
  }

  /** X.690 section 8.1.2.5: bit 6 of the first tag byte says whether the contents are elements. */
  predicate ConstructedTag(tag: u16) {
    (if tag / 256 != 0 then tag / 256 else tag) / 32 % 2 == 1
  }

  predicate Shaped(n: Node) {
    && Encodable(n) && (n.Cons? <==> ConstructedTag(n.tag))
    && (n.Cons? ==> forall i :: 0 <= i < |n.children| ==> Shaped(n.children[i]))
  }

  /** The tree an element stands for. */
  function TreeOf(t: Tlv): Option<Node>
    decreases |t.value|, 1
  {
    if !ConstructedTag(t.tag) then Some(Prim(t.tag, t.value))
    else match ForestOf(t.value)
      case None => None
      case Some(children) => Some(Cons(t.tag, children))
  }

  function ForestOf(buf: seq<byte>): Option<seq<Node>>
    decreases |buf|, 0
  {
    if buf == [] then Some([])
    else match Parse(buf)
      case None => None
      case Some(t) =>
        match (TreeOf(t), ForestOf(buf[|t.raw|..]))
        case (Some(first), Some(rest)) => Some([first] + rest)
        case _ => None
  }

  lemma {:induction false} TreeRoundTrip(n: Node)
    requires Shaped(n)
    ensures TreeOf(TlvOf(n)) == Some(n)
    decreases n, 1
  {
    if n.Cons? {
      ForestRoundTrip(n.children);
    }
  }

  lemma {:induction false} ForestRoundTrip(nodes: seq<Node>)
    requires forall i :: 0 <= i < |nodes| ==> Shaped(nodes[i])
    ensures ForestOf(EncodeAll(nodes)) == Some(nodes)
    decreases nodes, 0
  {
    if nodes != [] {
      var first, rest := nodes[0], EncodeAll(nodes[1..]);
      ElementParses(first.tag, Contents(first), rest);
      assert (Encode(first) + rest)[|Encode(first)|..] == rest;
      TreeRoundTrip(first);
      ForestRoundTrip(nodes[1..]);
      assert nodes == [first] + nodes[1..];
    }
  }

  /** Encodings are uniquely decodable: equal byte strings that start with them start with equal trees. */
  lemma EncodingIsInjective(a: Node, b: Node, restA: seq<byte>, restB: seq<byte>)
    requires Shaped(a) && Shaped(b) && Encode(a) + restA == Encode(b) + restB
    ensures a == b && restA == restB
  {
    ElementParses(a.tag, Contents(a), restA);
    ElementParses(b.tag, Contents(b), restB);
    TreeRoundTrip(a);
    TreeRoundTrip(b);
    assert restA == (Encode(a) + restA)[|Encode(a)|..];
    assert restB == (Encode(b) + restB)[|Encode(b)|..];
  }

  // ---------------------------------------------------------------------------
  // Integers
  // ---------------------------------------------------------------------------

  /** Folding bytes into 64 bits: what does not fit is shifted out. */
  function ToU64(value: seq<byte>): nat {
    if value == [] then 0 else (256 * ToU64(value[..|value| - 1]) + value[|value| - 1]) % U64_SIZE
  }

  lemma RemainderStep(n: nat, b: nat)
    ensures (256 * (n % U64_SIZE) + b) % U64_SIZE == (256 * n + b) % U64_SIZE
  {
  }

  lemma {:induction false} ToU64IsRemainder(value: seq<byte>)
    ensures ToU64(value) == BigEndian(value) % U64_SIZE
  {
    if value != [] {
      ToU64IsRemainder(value[..|value| - 1]);
      RemainderStep(BigEndian(value[..|value| - 1]), value[|value| - 1]);
    }
  }

  /** Contents of a non-negative INTEGER: all but the needless leading zeros, the sign bit clear. */
  function FromU64(v: nat): seq<byte> {
    var significant := SkipZeros(LowBytes(v, 8));
    var bytes := if significant == [] then [0] else significant;
    if bytes[0] >= 128 then [0] + bytes else bytes
  }

  lemma ZeroByte()
    ensures BigEndian([0]) == 0
  {
    assert BigEndian([0]) == 256 * BigEndian([0][..0]) + 0;
  }

  lemma WrittenValue(v: nat)
    requires v < U64_SIZE
    ensures BigEndian(FromU64(v)) == v && FromU64(v)[0] < 128
    ensures |FromU64(v)| > 1 && FromU64(v)[0] == 0 ==> FromU64(v)[1] >= 128
  {
    Pow256Values();
    LowBytesValue(v, 8);
    SkipZerosFacts(LowBytes(v, 8));
    ZeroByte();
    var significant := SkipZeros(LowBytes(v, 8));
    if significant != [] && significant[0] >= 128 {
      BigEndianLeadingZero([0] + significant);
      assert ([0] + significant)[1..] == significant;
    }
  }

  lemma ReadsValue(bytes: seq<byte>)
    requires BigEndian(bytes) < U64_SIZE
    ensures ToU64(bytes) == BigEndian(bytes)
  {
    ToU64IsRemainder(bytes);
  }

  /** Reading gives the written integer back, and its sign bit is clear. */
  lemma IntegerRoundTrip(v: nat)
    requires v < U64_SIZE
    ensures ToU64(FromU64(v)) == v && FromU64(v)[0] < 128
  {
    WrittenValue(v);
    var bytes := FromU64(v);
    assert BigEndian(bytes) == v && bytes[0] < 128;
    ReadsValue(bytes);
  }

  lemma AtLeastHalfPlace(bytes: seq<byte>)
    requires |bytes| > 1 && (bytes[0] == 0 ==> bytes[1] >= 128)
    ensures 128 * Pow256(|bytes| - 2) <= BigEndian(bytes)
  {
    if bytes[0] == 0 {
      BigEndianLeadingZero(bytes);
      BigEndianTopBit(bytes[1..]);
    } else {
      BigEndianAtLeast(bytes);
    }
  }

  /** X.690 section 8.3.2: no shorter contents denote the same non-negative integer. */
  lemma IntegerIsMinimal(v: nat, other: seq<byte>)
    requires v < U64_SIZE && other != [] && other[0] < 128 && BigEndian(other) == v
    ensures |FromU64(v)| <= |other|
  {
    WrittenValue(v);
    var ours := FromU64(v);
    if |other| < |ours| {
      AtLeastHalfPlace(ours);
      BigEndianTopBit(other);
      Pow256Monotonic(|other| - 1, |ours| - 2);
      assert false;
    }
  }
}
