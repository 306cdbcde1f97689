/** The header of one OMA-TLV record: type byte, identifier, length.

    Section 6.3.3 of the OMA LightweightM2M Technical Specification packs four
    fields into the type byte: bits 7-6 hold the kind of record, bit 5 says
    whether the identifier takes two bytes, bits 4-3 say how many length bytes
    follow, and bits 2-0 hold the length itself when none follow.  The masks of
    the implementation are written here as division and remainder;
    MasksAreArithmetic shows the two agree.
 */
module TlvHeader {

  import opened Arithmetic
  import opened CommonTypes

  datatype Kind = ObjectInstance | ResourceInstance | MultipleResource | Resource

  // One more than the longest value a record can carry.
  const LENGTH_LIMIT := 0x100_0000

  function KindBits(k: Kind): byte {
    match k
    case ObjectInstance => 0x00
    case ResourceInstance => 0x40
    case MultipleResource => 0x80
    case Resource => 0xC0
  }

  /** Bits 7-6 of a type byte. */
  function KindOf(b: byte): Kind {
    if b < 0x40 then ObjectInstance
    else if b < 0x80 then ResourceInstance
    else if b < 0xC0 then MultipleResource
    else Resource
  }

  function IdSize(b: byte): nat { if b / 0x20 % 2 == 1 then 2 else 1 }

  function LengthSize(b: byte): nat { b / 8 % 4 }

  /** The bit masks of the implementation, stated on bit-vectors, pick out the
      same fields as the arithmetic used in this model. */
  lemma MasksAreArithmetic(v: bv8)
    ensures KindBits(KindOf(v as int)) == (v & 0xC0) as int
    ensures IdSize(v as int) == 2 <==> v & 0x20 == 0x20
    ensures 8 * LengthSize(v as int) == (v & 0x18) as int
    ensures v as int % 8 == (v & 0x07) as int
  {
    KindMask(v);
    IdMask(v);
    LengthMasks(v);
  }

  lemma KindMask(v: bv8)
    ensures KindBits(KindOf(v as int)) == (v & 0xC0) as int
  {
    assert (v & 0xC0) == if v < 0x40 then 0 else if v < 0x80 then 0x40 else if v < 0xC0 then 0x80 else 0xC0;
  }

  lemma IdMask(v: bv8)
    ensures IdSize(v as int) == 2 <==> v & 0x20 == 0x20
  {
    assert (v as int / 0x20) % 2 == ((v >> 5) & 1) as int;
  }

  lemma LengthMasks(v: bv8)
    ensures 8 * LengthSize(v as int) == (v & 0x18) as int
    ensures v as int % 8 == (v & 0x07) as int
  {
    assert (v as int / 8) % 4 == ((v >> 3) & 3) as int;
  }

  // ------------------------------------------------------------------- headers

  /** What a header says; size counts the header's own bytes. */
  datatype Header = Header(kind: Kind, id: uint16, length: nat, size: nat)

  function HeaderSize(b: byte): nat { 1 + IdSize(b) + LengthSize(b) }

  /** The header at the front of s lies inside s. */
  predicate HasHeader(s: seq<byte>) { s != [] && HeaderSize(s[0]) <= |s| }

  function ParseHeader(s: seq<byte>): (h: Header)
    requires HasHeader(s)
    ensures 2 <= h.size == HeaderSize(s[0]) <= |s|
    ensures h.length < LENGTH_LIMIT
  {
    var i := IdSize(s[0]);
    var n := LengthSize(s[0]);
    var id := s[1..1 + i];
    var length := s[1 + i..1 + i + n];
    BigEndianBound(id);
    BigEndianBound(length);
    assert Power256(2) == 0x1_0000 && Power256(3) == LENGTH_LIMIT by {
      assert Power256(1) == 256;
    }
    Header(KindOf(s[0]), BigEndian(id), if n == 0 then s[0] % 8 else BigEndian(length), 1 + i + n)
  }

  lemma {:induction false} BigEndianBound(s: seq<byte>)
    ensures BigEndian(s) < Power256(|s|)
    ensures |s| <= 2 ==> BigEndian(s) < 0x1_0000
    ensures |s| <= 3 ==> BigEndian(s) < LENGTH_LIMIT
  {
    if s == [] {
    } else {
      BigEndianBound(s[..|s| - 1]);
      assert Power256(1) == 256 && Power256(2) == 0x1_0000;
    }
  }

  /** How many identifier and length bytes the writer spends. */
  function IdBytes(id: uint16): nat { if id < 256 then 1 else 2 }

  function LengthBytes(length: nat): nat {
    if length < 8 then 0 else if length < 0x100 then 1 else if length < 0x1_0000 then 2 else 3
  }

  function TypeByte(k: Kind, id: uint16, length: nat): byte {
    KindBits(k) + (if id < 256 then 0 else 0x20) +
    if length < 8 then length else 8 * LengthBytes(length)
  }

  /** One record: the specification of serialize_TILV's appended bytes. */
  function Record(k: Kind, id: uint16, value: seq<byte>): (s: seq<byte>) {
    [TypeByte(k, id, |value|)] + ToBigEndian(id, IdBytes(id)) + ToBigEndian(|value|, LengthBytes(|value|)) + value
  }

  function RecordHeaderSize(id: uint16, length: nat): nat { 1 + IdBytes(id) + LengthBytes(length) }

  lemma TypeByteFields(k: Kind, id: uint16, length: nat)
    ensures var b := TypeByte(k, id, length);
            && KindOf(b) == k
            && IdSize(b) == IdBytes(id)
            && LengthSize(b) == LengthBytes(length)
            && (length < 8 ==> b % 8 == length)
  {
    match k
    case ObjectInstance =>
    case ResourceInstance =>
    case MultipleResource =>
    case Resource =>
  }

  /** TILV header round trip.  Whatever follows the record, the parser recovers
      kind and identifier, stops on the first value byte, and reads the length
      modulo 2^24: so the length is recovered exactly when it is below 2^24. */
  lemma HeaderRoundTrip(k: Kind, id: uint16, value: seq<byte>, rest: seq<byte>)
    ensures var s := Record(k, id, value) + rest;
            && HasHeader(s)
            && ParseHeader(s) == Header(k, id, |value| % LENGTH_LIMIT, RecordHeaderSize(id, |value|))
            && (ParseHeader(s).length == |value| <==> |value| < LENGTH_LIMIT)
            && s[ParseHeader(s).size..] == value + rest
            && |Record(k, id, value)| == RecordHeaderSize(id, |value|) + |value|
  {
    var n := |value|;
    var s := Record(k, id, value) + rest;
    var i, l := IdBytes(id), LengthBytes(n);
    TypeByteFields(k, id, n);
    RecordSlices(TypeByte(k, id, n), ToBigEndian(id, i), ToBigEndian(n, l), value, rest, s);
    IdBytesSuffice(id);
    LengthBytesSuffice(n);
    ModBelow(n, LENGTH_LIMIT);
  }

  lemma RecordSlices(b: byte, id: seq<byte>, length: seq<byte>, value: seq<byte>, rest: seq<byte>, s: seq<byte>)
    requires s == [b] + id + length + value + rest
    ensures s[0] == b
    ensures s[1..1 + |id|] == id
    ensures s[1 + |id|..1 + |id| + |length|] == length
    ensures s[1 + |id| + |length|..] == value + rest
  {
  }

  lemma IdBytesSuffice(id: uint16)
    ensures BigEndian(ToBigEndian(id, IdBytes(id))) == id
  {
    PowerValues();
    BigEndianRoundTrip(id, IdBytes(id));
  }

  lemma LengthBytesSuffice(n: nat)
    ensures LengthBytes(n) > 0 ==> BigEndian(ToBigEndian(n, LengthBytes(n))) == n % LENGTH_LIMIT
    ensures LengthBytes(n) == 0 ==> n < 8
  {
    PowerValues();
    BigEndianRoundTrip(n, LengthBytes(n));
    ModBelow(n, LENGTH_LIMIT);
  }
}
