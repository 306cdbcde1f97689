/** The bytes themselves: what section 6.3.3 of the OMA LightweightM2M Technical
    Specification lays down for a record, in numbers. */
module TlvFormat {
  import opened Arithmetic
  import opened CommonTypes
  import opened TlvHeader

  /** The two top bits of the type byte, kind by kind. */
  lemma KindCodes(v: bv8)
    ensures KindOf(v as int) == ObjectInstance <==> v & 0xC0 == 0x00
    ensures KindOf(v as int) == ResourceInstance <==> v & 0xC0 == 0x40
    ensures KindOf(v as int) == MultipleResource <==> v & 0xC0 == 0x80
    ensures KindOf(v as int) == Resource <==> v & 0xC0 == 0xC0
  {
    assert (v & 0xC0) == if v < 0x40 then 0 else if v < 0x80 then 0x40 else if v < 0xC0 then 0x80 else 0xC0;
  }

  lemma OneByte(n: nat)
    ensures ToBigEndian(n, 0) == []
    ensures ToBigEndian(n, 1) == [n % 0x100]
  {
  }

  lemma TwoBytes(n: nat)
    ensures ToBigEndian(n, 2) == [n / 0x100 % 0x100, n % 0x100]
  {
    OneByte(n / 0x100);
  }

  lemma ThreeBytes(n: nat)
    ensures ToBigEndian(n, 3) == [n / 0x1_0000 % 0x100, n / 0x100 % 0x100, n % 0x100]
  {
    TwoBytes(n / 0x100);
    ModStep(n, 0x100);
  }

  /** A written record, byte by byte. */
  lemma RecordFormat(k: Kind, id: uint16, value: seq<byte>)
    requires |value| < 0x100_0000
    ensures var n := |value|;
      var kind := match k case ObjectInstance => 0x00 case ResourceInstance => 0x40 case MultipleResource => 0x80 case Resource => 0xC0;
      var wide := if id < 0x100 then 0 else 0x20;
      var size := if n < 8 then n else if n < 0x100 then 0x08 else if n < 0x1_0000 then 0x10 else 0x18;
      var idBytes: seq<byte> := if id < 0x100 then [id] else [id / 0x100, id % 0x100];
      var lengthBytes: seq<byte> :=
        if n < 8 then [] else if n < 0x100 then [n] else if n < 0x1_0000 then [n / 0x100, n % 0x100]
        else [n / 0x1_0000, n / 0x100 % 0x100, n % 0x100];
      Record(k, id, value) == [kind + wide + size] + idBytes + lengthBytes + value
  {
    IdFormat(id);
    LengthFormat(|value|);
    hide ToBigEndian, IdBytes, LengthBytes;
  }

  lemma IdFormat(id: uint16)
    ensures id < 0x100 ==> ToBigEndian(id, IdBytes(id)) == [id]
    ensures id >= 0x100 ==> ToBigEndian(id, IdBytes(id)) == [id / 0x100, id % 0x100]
  {
    OneByte(id);
    TwoBytes(id);
    hide ToBigEndian;
  }

  lemma LengthFormat(n: nat)
    requires n < 0x100_0000
    ensures LengthBytes(n) == if n < 8 then 0 else if n < 0x100 then 1 else if n < 0x1_0000 then 2 else 3
    ensures ToBigEndian(n, LengthBytes(n)) ==
            if n < 8 then [] else if n < 0x100 then [n] else if n < 0x1_0000 then [n / 0x100, n % 0x100]
            else [n / 0x1_0000, n / 0x100 % 0x100, n % 0x100]
  {
    OneByte(n);
    TwoBytes(n);
    ThreeBytes(n);
  }

  lemma Denoted(s: seq<byte>)
    ensures |s| == 1 ==> BigEndian(s) == s[0]
    ensures |s| == 2 ==> BigEndian(s) == 0x100 * (s[0] as int) + s[1]
    ensures |s| == 3 ==> BigEndian(s) == 0x1_0000 * (s[0] as int) + 0x100 * (s[1] as int) + s[2]
  {
    if |s| >= 1 {
      var t := s[..|s| - 1];
      if |t| >= 1 {
        var u := t[..|t| - 1];
        if |u| >= 1 {
          assert |s| == 3 ==> u[..0] == [] && BigEndian(u) == u[0];
        }
      }
    }
  }

  /** What the reader takes from any bytes, canonical or not. */
  lemma HeaderFormat(s: seq<byte>)
    requires HasHeader(s)
    ensures var h := ParseHeader(s);
      var at := if s[0] / 0x20 % 2 == 1 then 3 else 2;
      var n := s[0] / 8 % 4;
      && at + n <= |s| && h.size == at + n
      && h.id == (if at == 3 then 0x100 * (s[1] as int) + s[2] else s[1])
      && h.length ==
         if n == 0 then s[0] % 8
         else if n == 1 then s[at]
         else if n == 2 then 0x100 * (s[at] as int) + s[at + 1]
         else 0x1_0000 * (s[at] as int) + 0x100 * (s[at + 1] as int) + s[at + 2]
  {
    var i, n := IdSize(s[0]), LengthSize(s[0]);
    Denoted(s[1..1 + i]);
    Denoted(s[1 + i..1 + i + n]);
    hide BigEndian;
  }
}
