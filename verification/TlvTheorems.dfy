/** The public calls of the codec, end to end. */
module TlvTheorems {
  import opened Arithmetic
  import opened CommonTypes
  import opened TlvHeader
  import opened ObjectModel
  import opened TlvSemantics
  import opened TlvEncoding
  import opened TlvRoundTrip
  import CText

  /** Object tree.  Whatever is left out by the writer keeps its old value; every
      value that is written arrives; nothing else changes.  The reader stays
      inside the payload exactly when the last written instance ends readably. */
  lemma ObjectTreeRoundTrip(src: ObjectInstanceList, dst: ObjectInstanceList)
    requires FitsObjects(src) && ReadyObjects(src, dst)
    ensures var s := EncodeObjectInstances(src);
            var call := PutObjectInstances(s, dst, Put);
            && (s == [] ==> call == Pass(NotValid, dst, true))
            && (s != [] ==> (call.safe <==> ReadableObjects(src)))
            && (s != [] && call.safe ==> call == Pass(None, MergeObjects(src, dst, 0), true))
  {
    assert src[0..] == src;
    ObjectEncodingIsTail(src, 0);
    ObjectsRoundTrip(src, 0, dst, false);
    ObjectsRoundTrip(src, 0, dst, true);
  }

  /** Resource list: single and multiple resources in any order. */
  lemma ResourceListRoundTrip(src: ResourceList, dst: ResourceList)
    requires FitsResources(src) && ReadyResources(src, dst)
    ensures var call := PutResources(EncodeResources(src), dst, Put);
            && (src == [] ==> call == Pass(NotValid, dst, true))
            && (src != [] ==> (call.safe <==> Readable(src, [])))
            && (src != [] && call.safe ==> call == Pass(None, MergeResources(src, dst, 0), true))
  {
    assert src[0..] == src;
    ResourcesRoundTrip(src, 0, dst, [], false);
    ResourcesRoundTrip(src, 0, dst, [], true);
    assert EncodeResources(src) + [] == EncodeResources(src);
    if src != [] {
      var rest := EncodeResources(src[1..]);
      assert Fits(src[0]);
      ResourceAtFront(src[0], rest);
    }
  }

  /** The instances of one multiple resource. */
  lemma ResourceInstancesRoundTrip(src: ResourceView, dst: InstanceList)
    requires src.multiple && Fits(src) && ReadyInstances(src.instances, dst)
    ensures var call := PutResourceInstances(EncodeResource(src), dst, Put);
            && (call.safe <==> src.instances != [])
            && (call.safe ==> call == Pass(None, MergeInstances(src.instances, dst, 0), true))
  {
    var list := src.instances;
    assert list[0..] == list;
    ResourceAtFront(src, []);
    var s := EncodeResource(src);
    assert s + [] == s;
    assert Payload(s) == EncodeInstances(list) + [] == EncodeInstances(list);
    assert EncodeResources([]) + [] == [];
    InstancesRoundTrip(list, 0, dst, [], [], [], SingleResource, false);
    InstancesRoundTrip(list, 0, dst, [], [], [], SingleResource, true);
    EmptyInstances(list);
  }

  // ------------------------------------------------------------------- identity

  function BlankInstances(list: InstanceList): InstanceList {
    seq(|list|, k requires 0 <= k < |list| => list[k].(value := []))
  }

  /** A resource without the values that travel. */
  function Blank(r: ResourceView): ResourceView {
    if r.multiple then r.(instances := BlankInstances(r.instances)) else r.(value := [])
  }

  predicate SameButValues(src: ResourceList, dst: ResourceList) {
    |src| == |dst| && forall k :: 0 <= k < |src| ==> Blank(src[k]) == Blank(dst[k])
  }

  predicate ObjectsSameButValues(src: ObjectInstanceList, dst: ObjectInstanceList) {
    && |src| == |dst|
    && forall k :: 0 <= k < |src| ==> src[k].id == dst[k].id && SameButValues(src[k].resources, dst[k].resources)
  }

  /** A value that is sent as it is stored: one of a type that is not sent in binary, or
      one whose bytes are already those of the number zero. */
  predicate SentAsStored(d: DataType, value: seq<byte>) {
    || !IsBinary(d)
    || (d == BOOLEAN && value == [0])
    || (d != BOOLEAN && value == [0, 0, 0, 0, 0, 0, 0, 0])
  }

  lemma ZeroInEightBytes()
    ensures ToBigEndian(0, 8) == [0, 0, 0, 0, 0, 0, 0, 0]
  {
    assert ToBigEndian(0, 2) == [0, 0];
    assert ToBigEndian(0, 4) == [0, 0, 0, 0];
    assert ToBigEndian(0, 6) == [0, 0, 0, 0, 0, 0];
  }

  /** Exactly when a value arrives as it was stored, for every type and every bytes. */
  lemma SentAsStoredExactlyWhen(d: DataType, value: seq<byte>)
    ensures WireValue(d, value) == value <==> SentAsStored(d, value)
  {
    if d == BOOLEAN {
      if |value| == 1 {
        OneCharacter(value[0]);
        assert value == [value[0]];
      }
    } else if IsBinary(d) {
      EightBytes(d, value);
    }
  }

  /** No single character other than NUL is the number it denotes. */
  lemma OneCharacter(b: byte)
    ensures CText.ParseInteger(CText.UpToNul([b])) % 0x100 == b <==> b == 0
  {
    if b != 0 {
      var s := [b];
      assert CText.UpToNul(s) == s by { assert s[1..] == []; }
      assert s[1..] == [];
      if CText.IsSpace(b) {
        assert CText.SkipSpaces(s) == [];
      } else if CText.IsDigit(b) {
        assert CText.LeadingDigits(s) == s;
        assert s[..0] == [];
        assert CText.DigitsValue(s) == b - CText.ZERO;
      }
    }
  }

  lemma EightBytes(d: DataType, value: seq<byte>)
    requires d == INTEGER || d == TIME
    ensures WireValue(d, value) == value <==> value == [0, 0, 0, 0, 0, 0, 0, 0]
  {
    hide CText.ParseInteger, ToBigEndian, Power256;
    ZeroInEightBytes();
    if |value| == 8 {
      var text := CText.UpToNul(value);
      var n := CText.ParseInteger(text);
      if value[0] == 0 {
        NothingIsZero();
      } else {
        CText.TextBound(text, 8);
        TenToTheEighth();
        Powers();
        ByteAt(n % TWO_TO_THE_64, 8, 0);
        assert n >= 0 ==> n % TWO_TO_THE_64 / TWO_TO_THE_56 == 0;
        assert n < 0 ==> n % TWO_TO_THE_64 / TWO_TO_THE_56 == 0xFF;
      }
    }
  }

  lemma NothingIsZero()
    ensures CText.ParseInteger([]) == 0
  {
  }

  lemma TenToTheEighth()
    ensures CText.Power10(8) == 100_000_000
  {
    assert CText.Power10(4) == 10_000;
  }

  predicate InstancesTravel(list: InstanceList) {
    forall k :: 0 <= k < |list| ==> SentAsStored(list[k].dataType, list[k].value)
  }

  /** Every value of this resource is sent as it is stored. */
  predicate Travels(r: ResourceView) {
    if r.multiple then InstancesTravel(r.instances) else SentAsStored(r.dataType, r.value)
  }

  predicate ObjectTravels(i: ObjectInstanceView) {
    forall k :: 0 <= k < |i.resources| ==> Travels(i.resources[k])
  }

  lemma MergeIsIdentity(s: ResourceView, d: ResourceView)
    requires Blank(s) == Blank(d)
    ensures s.multiple ==> |s.instances| == |d.instances|
    ensures Merge(s, d) == s <==> Travels(s)
  {
    hide WireValue, SentAsStored;
    assert s.multiple == d.multiple;
    if s.multiple {
      assert |BlankInstances(s.instances)| == |BlankInstances(d.instances)|;
      var m := MergeInstances(s.instances, d.instances, 0);
      forall k | 0 <= k < |m|
        ensures m[k] == s.instances[k] <==> SentAsStored(s.instances[k].dataType, s.instances[k].value)
      {
        assert BlankInstances(s.instances)[k] == BlankInstances(d.instances)[k];
        SentAsStoredExactlyWhen(s.instances[k].dataType, s.instances[k].value);
      }
      assert m == s.instances <==> forall k :: 0 <= k < |m| ==> m[k] == s.instances[k];
      assert d.(instances := []) == s.(instances := []);
    } else {
      SentAsStoredExactlyWhen(s.dataType, s.value);
    }
  }

  /** Between two copies of a tree that differ in values only, the call makes the
      receiver's tree equal to the sender's exactly when every value is of a type that
      is not sent in binary, or already the binary zero. */
  lemma PutMakesTreesEqual(src: ObjectInstanceList, dst: ObjectInstanceList)
    requires FitsObjects(src) && ReadyObjects(src, dst) && ReadableObjects(src)
    requires ObjectsSameButValues(src, dst)
    requires forall k :: 0 <= k < |src| ==> AllNumbered(src[k].resources)
    ensures EncodeObjectInstances(src) != []
    ensures PutObjectInstances(EncodeObjectInstances(src), dst, Put) == Pass(None, src, true)
       <==> forall k :: 0 <= k < |src| ==> ObjectTravels(src[k])
  {
    hide PutObjectInstances, FitsObjects, ReadyResources, SameButValues, ObjectTravels, MergeObject;
    ObjectTreeRoundTrip(src, dst);
    var m := MergeObjects(src, dst, 0);
    forall k | 0 <= k < |src|
      ensures m[k] == src[k] <==> ObjectTravels(src[k])
    {
      assert AllNumbered(src[k].resources);
      ObjectMergeIsIdentity(src[k], dst[k]);
    }
    assert m == src <==> forall k :: 0 <= k < |src| ==> m[k] == src[k];
  }

  lemma ObjectMergeIsIdentity(s: ObjectInstanceView, d: ObjectInstanceView)
    requires s.id == d.id && AllNumbered(s.resources)
    requires ReadyResources(s.resources, d.resources) && SameButValues(s.resources, d.resources)
    ensures MergeObject(s, d) == s <==> ObjectTravels(s)
  {
    var m := MergeResources(s.resources, d.resources, 0);
    forall k | 0 <= k < |m| ensures m[k] == s.resources[k] <==> Travels(s.resources[k]) {
      assert Blank(s.resources[k]) == Blank(d.resources[k]);
      MergeIsIdentity(s.resources[k], d.resources[k]);
    }
    assert m == s.resources <==> forall k :: 0 <= k < |m| ==> m[k] == s.resources[k];
  }

  // -------------------------------------------------------------------- numbers

  const TWO_TO_THE_56 := 0x100_0000_0000_0000

  /** What is sent for an integer or a time stored as its text: the eight big-endian bytes
      of the number, in two's complement, its top byte first. */
  lemma IntegerOnTheWire(d: DataType, n: int)
    requires d == INTEGER || d == TIME
    ensures var w := WireValue(d, CText.DecimalText(n));
            |w| == 8 && BigEndian(w) == n % TWO_TO_THE_64 && w[0] == n % TWO_TO_THE_64 / TWO_TO_THE_56
  {
    hide CText.DecimalText, CText.Digits, CText.ParseInteger, CText.UpToNul, BigEndian, ToBigEndian, Power256;
    var text := CText.DecimalText(n);
    TextHasNoNul(n);
    CText.DecimalRoundTrip(n, []);
    assert text + [] == text;
    var m := n % TWO_TO_THE_64;
    ByteAt(m, 8, 0);
    Powers();
    BigEndianRoundTrip(m, 8);
    assert m / TWO_TO_THE_56 < 256;
  }

  /** What is sent for a boolean stored as the text of a number: the number's low byte. */
  lemma BooleanOnTheWire(n: int)
    ensures WireValue(BOOLEAN, CText.DecimalText(n)) == [n % 0x100]
  {
    hide CText.DecimalText, CText.Digits, CText.ParseInteger, CText.UpToNul;
    var text := CText.DecimalText(n);
    TextHasNoNul(n);
    CText.DecimalRoundTrip(n, []);
    assert text + [] == text;
  }

  lemma EightDigits(n: int)
    requires |CText.DecimalText(n)| == 8
    ensures -TWO_TO_THE_56 < n < TWO_TO_THE_56
  {
    CText.DigitsLength(if n < 0 then -n else n, 8);
    TenToTheEighth();
  }

  /** A number stored as decimal text, of a type that is sent in binary, never
      arrives as the text it was.  The receiver stores the eight bytes raw, and
      reads any integer from 0 up to 2^56 back as 0. */
  lemma NumbersDoNotTravel(d: DataType, n: int)
    requires IsBinary(d) && CText.INT64_MIN <= n <= CText.INT64_MAX
    ensures WireValue(d, CText.DecimalText(n)) != CText.DecimalText(n)
    ensures d != BOOLEAN && 0 <= n < TWO_TO_THE_56 ==>
              CText.ParseInteger(CText.UpToNul(WireValue(d, CText.DecimalText(n)))) == 0
  {
    var text := CText.DecimalText(n);
    if d == BOOLEAN {
      BooleanDoesNotTravel(n);
    } else {
      IntegerOnTheWire(d, n);
      if |text| == 8 {
        EightDigits(n);
      }
      if 0 <= n < TWO_TO_THE_56 {
        assert CText.UpToNul(WireValue(d, text)) == [];
      }
    }
  }

  lemma BooleanDoesNotTravel(n: int)
    ensures WireValue(BOOLEAN, CText.DecimalText(n)) != CText.DecimalText(n)
  {
    var text := CText.DecimalText(n);
    TextHasNoNul(n);
    CText.DecimalRoundTrip(n, []);
    assert text + [] == text;
    CText.DigitsLength(if n < 0 then -n else n, 1);
    assert CText.Power10(1) == 10;
  }

  lemma TextHasNoNul(n: int)
    ensures CText.UpToNul(CText.DecimalText(n)) == CText.DecimalText(n)
  {
    var s := CText.DecimalText(n);
    assert forall k :: 0 <= k < |s| ==> s[k] != 0;
    NoNulIsWhole(s);
  }

  lemma {:induction false} NoNulIsWhole(s: seq<byte>)
    requires forall k :: 0 <= k < |s| ==> s[k] != 0
    ensures CText.UpToNul(s) == s
  {
    if s != [] { NoNulIsWhole(s[1..]); }
  }
}
