/** M2MTLVSerializer: growing an output buffer record by record.  The buffer is a
    fresh array each time a record is appended, as malloc and memcpy make it. */
module TlvSerializer {
  import opened Arithmetic
  import opened CommonTypes
  import opened TlvHeader
  import opened ObjectModel
  import opened ObjectTree
  import opened TlvEncoding
  import CText

  /** The bytes written so far; no buffer yet means none. */
  function Bytes(data: array?<byte>, size: nat): seq<byte>
    requires data != null ==> size <= data.Length
    reads data
  {
    if data == null then [] else data[..size]
  }

  predicate Buffer(data: array?<byte>, size: nat) {
    if data == null then size == 0 else data.Length == size
  }

  method Memcpy(dst: array<byte>, at: nat, src: seq<byte>)
    requires at + |src| <= dst.Length
    modifies dst
    ensures dst[..at + |src|] == old(dst[..at]) + src
  {
    forall k | 0 <= k < |src| {
      dst[at + k] := src[k];
    }
  }

  method SerializeId(id: uint16, idPtr: array<byte>) returns (size: nat)
    requires idPtr.Length == 2
    modifies idPtr
    ensures size == IdBytes(id) && idPtr[..size] == ToBigEndian(id, size)
  {
    if id > 255 {
      TwoBytes(id);
      size := 2;
      idPtr[0] := id / 0x100 % 0x100;
      idPtr[1] := id % 0x100;
    } else {
      OneByte(id);
      size := 1;
      idPtr[0] := id % 0x100;
    }
  }

  /** A length of 2^24 or more loses its upper bits here. */
  method SerializeLength(length: nat, lengthPtr: array<byte>) returns (size: nat)
    requires lengthPtr.Length == 3
    modifies lengthPtr
    ensures size == LengthBytes(length) && lengthPtr[..size] == ToBigEndian(length, size)
  {
    if length > 65535 {
      ThreeBytes(length);
      size := 3;
      lengthPtr[0] := length / 0x1_0000 % 0x100;
      lengthPtr[1] := length / 0x100 % 0x100;
      lengthPtr[2] := length % 0x100;
    } else if length > 255 {
      TwoBytes(length);
      size := 2;
      lengthPtr[0] := length / 0x100 % 0x100;
      lengthPtr[1] := length % 0x100;
    } else if length > 7 {
      OneByte(length);
      size := 1;
      lengthPtr[0] := length % 0x100;
    } else {
      size := 0;
    }
  }

  lemma OneByte(n: nat)
    ensures ToBigEndian(n, 1) == [n % 0x100]
  {
    BigEndianSnoc(n, 0);
  }

  lemma TwoBytes(n: nat)
    ensures ToBigEndian(n, 2) == [n / 0x100 % 0x100, n % 0x100]
  {
    BigEndianSnoc(n, 1);
    OneByte(n / 256);
  }

  lemma ThreeBytes(n: nat)
    ensures ToBigEndian(n, 3) == [n / 0x1_0000 % 0x100, n / 0x100 % 0x100, n % 0x100]
  {
    BigEndianSnoc(n, 2);
    TwoBytes(n / 256);
    DivideBy65536(n);
  }

  lemma BigEndianSnoc(n: nat, size: nat)
    ensures ToBigEndian(n, size + 1) == ToBigEndian(n / 256, size) + [n % 256]
  {
  }

  lemma DivideBy65536(n: nat)
    ensures n / 256 / 256 == n / 0x1_0000
  {
  }

  /** Append-only: everything already in the buffer stays in front, and exactly one
      record follows it. */
  method SerializeTILV(kind: Kind, id: uint16, value: seq<byte>, data: array?<byte>, size: nat)
    returns (data': array<byte>, size': nat)
    requires Buffer(data, size)
    ensures fresh(data') && Buffer(data', size')
    ensures Bytes(data', size') == Bytes(data, size) + Record(kind, id, value)
    ensures size' == size + RecordHeaderSize(id, |value|) + |value|
  {
    var tlvType: byte := KindBits(kind);
    tlvType := tlvType + if id < 256 then 0 else 0x20;
    tlvType := tlvType + if |value| < 8 then |value| else if |value| < 256 then 0x08 else if |value| < 65536 then 0x10 else 0x18;
    var idArray := new byte[2];
    var idSize := SerializeId(id, idArray);
    var lengthArray := new byte[3];
    var lengthSize := SerializeLength(|value|, lengthArray);
    assert tlvType == TypeByte(kind, id, |value|);
    data', size' := Append(tlvType, idArray[..idSize], lengthArray[..lengthSize], value, data, size);
  }

  /** The new block: the old bytes, then the parts of the record in order. */
  method Append(tlvType: byte, id: seq<byte>, length: seq<byte>, value: seq<byte>, data: array?<byte>, size: nat)
    returns (data': array<byte>, size': nat)
    requires Buffer(data, size)
    ensures fresh(data') && Buffer(data', size') && size' == size + 1 + |id| + |length| + |value|
    ensures Bytes(data', size') == Bytes(data, size) + ([tlvType] + id + length + value)
  {
    ghost var before := Bytes(data, size);
    var idAt := size + 1;
    var lengthAt := idAt + |id|;
    var valueAt := lengthAt + |length|;
    size' := valueAt + |value|;
    data' := new byte[size'];
    if data != null {
      Memcpy(data', 0, data[..size]);
    }
    assert data'[..size] == before;
    Memcpy(data', size, [tlvType]);
    assert data'[..idAt] == before + [tlvType];
    Memcpy(data', idAt, id);
    assert data'[..lengthAt] == before + [tlvType] + id;
    Memcpy(data', lengthAt, length);
    assert data'[..valueAt] == before + [tlvType] + id + length;
    Memcpy(data', valueAt, value);
    assert data'[..size'] == before + [tlvType] + id + length + value;
    RecordAppended(before, [tlvType], id, length, value);
  }

  lemma RecordAppended(before: seq<byte>, t: seq<byte>, id: seq<byte>, length: seq<byte>, value: seq<byte>)
    ensures before + t + id + length + value == before + (t + id + length + value)
  {
  }

  /** A value of numeric type goes out in binary, any other as it is stored. */
  method SerializeValue(kind: Kind, id: uint16, dataType: DataType, value: seq<byte>, data: array?<byte>, size: nat)
    returns (data': array<byte>, size': nat)
    requires Buffer(data, size)
    ensures fresh(data') && Buffer(data', size')
    ensures Bytes(data', size') == Bytes(data, size) + Record(kind, id, WireValue(dataType, value))
  {
    if dataType == INTEGER || dataType == BOOLEAN || dataType == TIME {
      var number := CText.ParseInteger(CText.UpToNul(value));
      var buffer: seq<byte>;
      if dataType == BOOLEAN {
        buffer := [number % 0x100];
      } else {
        buffer := ToBigEndian(number % TWO_TO_THE_64, 8);
      }
      data', size' := SerializeTILV(kind, id, buffer, data, size);
    } else {
      data', size' := SerializeTILV(kind, id, value, data, size);
    }
  }

  lemma Associative(a: seq<byte>, b: seq<byte>, c: seq<byte>)
    ensures (a + b) + c == a + (b + c)
  {
  }

  lemma NothingToEncode()
    ensures EncodeInstances([]) == [] && EncodeResources([]) == [] && EncodeObjectInstances([]) == []
  {
  }

  lemma OneInstanceMore(written: seq<byte>, list: InstanceList, k: nat)
    requires k < |list|
    ensures written + EncodeInstances(list[k..]) == (written + EncodeInstance(list[k])) + EncodeInstances(list[k + 1..])
  {
    assert list[k..][0] == list[k] && list[k..][1..] == list[k + 1..];
    Associative(written, EncodeInstance(list[k]), EncodeInstances(list[k + 1..]));
  }

  lemma OneResourceMore(written: seq<byte>, list: ResourceList, k: nat)
    requires k < |list|
    ensures written + EncodeResources(list[k..]) == (written + EncodeResource(list[k])) + EncodeResources(list[k + 1..])
  {
    assert list[k..][0] == list[k] && list[k..][1..] == list[k + 1..];
    Associative(written, EncodeResource(list[k]), EncodeResources(list[k + 1..]));
  }

  lemma OneObjectMore(written: seq<byte>, list: ObjectInstanceList, k: nat)
    requires k < |list|
    ensures written + EncodeObjectInstances(list[k..]) ==
            (written + EncodeObjectInstance(list[k])) + EncodeObjectInstances(list[k + 1..])
  {
    assert list[k..][0] == list[k] && list[k..][1..] == list[k + 1..];
    Associative(written, EncodeObjectInstance(list[k]), EncodeObjectInstances(list[k + 1..]));
  }

  method SerializeMultipleResource(resource: M2MResource, data: array?<byte>, size: nat)
    returns (data': array<byte>, size': nat)
    requires resource.Valid() && resource.multiple && IsNumbered(resource.View()) && Buffer(data, size)
    ensures fresh(data') && Buffer(data', size')
    ensures Bytes(data', size') == Bytes(data, size) + EncodeResource(resource.View())
  {
    hide EncodeInstances, WireValue, Record;
    ghost var views := resource.InstanceViews();
    assert views[0..] == views;
    var nested: array?<byte> := null;
    var nestedSize := 0;
    ghost var written := [];
    var it := 0;
    while it < |resource.instances|
      invariant 0 <= it <= |resource.instances|
      invariant Buffer(nested, nestedSize) && (nested != null ==> fresh(nested))
      invariant Bytes(nested, nestedSize) == written && written + EncodeInstances(views[it..]) == EncodeInstances(views)
    {
      var i := resource.instances[it];
      assert views[it] == i.View();
      OneInstanceMore(written, views, it);
      nested, nestedSize := SerializeValue(ResourceInstance, i.id, i.dataType, i.value, nested, nestedSize);
      written := written + EncodeInstance(views[it]);
      it := it + 1;
    }
    assert views[it..] == [] && written + [] == written;
    NothingToEncode();
    data', size' := SerializeTILV(MultipleResource, resource.nameId % 0x1_0000, Bytes(nested, nestedSize), data, size);
  }

  /** serialize of one resource; it fails only on a name that is not a number. */
  method SerializeResource(resource: M2MResource, data: array?<byte>, size: nat)
    returns (success: bool, data': array?<byte>, size': nat)
    requires resource.Valid() && Buffer(data, size)
    ensures success <==> IsNumbered(resource.View())
    ensures Buffer(data', size')
    ensures success ==> data' != null && fresh(data') && Bytes(data', size') == Bytes(data, size) + EncodeResource(resource.View())
    ensures !success ==> data' == data && size' == size
  {
    success, data', size' := false, data, size;
    if resource.nameId != -1 {
      if resource.multiple {
        data', size' := SerializeMultipleResource(resource, data, size);
      } else {
        data', size' := SerializeValue(Resource, resource.nameId % 0x1_0000, resource.dataType, resource.value, data, size);
      }
      success := true;
    }
  }

  method AllNamesAreNumbers(instance: M2MObjectInstance) returns (valid: bool)
    requires instance.Valid()
    ensures valid <==> AllNumbered(instance.ResourceViews())
  {
    ghost var views := instance.ResourceViews();
    valid := true;
    var it := 0;
    while it < |instance.resources|
      invariant 0 <= it <= |instance.resources|
      invariant valid && forall k :: 0 <= k < it ==> IsNumbered(views[k])
    {
      assert views[it] == instance.resources[it].View();
      if instance.resources[it].nameId == -1 {
        valid := false;
        break;
      }
      it := it + 1;
    }
  }

  method SerializeEachResource(instance: M2MObjectInstance) returns (data: array?<byte>, size: nat)
    requires instance.Valid() && AllNumbered(instance.ResourceViews())
    ensures Buffer(data, size) && (data != null ==> fresh(data)) && (instance.resources == [] ==> data == null)
    ensures Bytes(data, size) == EncodeResources(instance.ResourceViews())
  {
    hide EncodeResources, EncodeResource;
    ghost var views := instance.ResourceViews();
    data, size := null, 0;
    assert views[0..] == views;
    ghost var written := [];
    var it := 0;
    while it < |instance.resources|
      invariant 0 <= it <= |instance.resources|
      invariant Buffer(data, size) && (data != null ==> fresh(data)) && (it == 0 ==> data == null)
      invariant Bytes(data, size) == written && written + EncodeResources(views[it..]) == EncodeResources(views)
    {
      ghost var v := views[it];
      assert v == instance.resources[it].View() && IsNumbered(v);
      OneResourceMore(written, views, it);
      var success;
      success, data, size := SerializeResource(instance.resources[it], data, size);
      written := written + EncodeResource(v);
      it := it + 1;
    }
    assert views[it..] == [] && written + [] == written;
    NothingToEncode();
  }

  /** serialize_resources: all of the list or, when one name is not a number, none. */
  method SerializeResources(instance: M2MObjectInstance) returns (data: array?<byte>, size: nat, valid: bool)
    requires instance.Valid()
    ensures valid <==> AllNumbered(instance.ResourceViews())
    ensures Buffer(data, size) && (data != null ==> fresh(data))
    ensures valid ==> Bytes(data, size) == EncodeResources(instance.ResourceViews())
    ensures !valid || instance.resources == [] ==> data == null
  {
    data, size := null, 0;
    valid := AllNamesAreNumbers(instance);
    if valid {
      data, size := SerializeEachResource(instance);
    }
  }

  /** One object instance; its failure leaves the buffer as it is. */
  method SerializeObjectInstance(instance: M2MObjectInstance, data: array?<byte>, size: nat)
    returns (success: bool, data': array?<byte>, size': nat)
    requires instance.Valid() && Buffer(data, size)
    ensures Buffer(data', size') && (data' == data || fresh(data'))
    ensures success <==> AllNumbered(instance.ResourceViews())
    ensures Bytes(data', size') == Bytes(data, size) + EncodeObjectInstance(instance.View())
  {
    data', size' := data, size;
    var resourceData, resourceSize, valid := SerializeResources(instance);
    if valid {
      data', size' := SerializeTILV(ObjectInstance, instance.id, Bytes(resourceData, resourceSize), data, size);
    }
    success := valid;
  }

  /** serialize_object_instances: a failing instance is passed over. */
  method SerializeObjectInstances(obj: M2MObject) returns (data: array?<byte>, size: nat)
    requires obj.Valid()
    ensures Buffer(data, size)
    ensures Bytes(data, size) == EncodeObjectInstances(obj.View())
  {
    hide EncodeObjectInstances, EncodeObjectInstance;
    ghost var views := obj.View();
    assert views[0..] == views;
    ghost var written := [];
    data, size := null, 0;
    var it := 0;
    while it < |obj.instances|
      invariant 0 <= it <= |obj.instances|
      invariant Buffer(data, size) && (data != null ==> fresh(data))
      invariant Bytes(data, size) == written && written + EncodeObjectInstances(views[it..]) == EncodeObjectInstances(views)
    {
      assert views[it] == obj.instances[it].View();
      OneObjectMore(written, views, it);
      var _, d, n := SerializeObjectInstance(obj.instances[it], data, size);
      data, size := d, n;
      written := written + EncodeObjectInstance(views[it]);
      it := it + 1;
    }
    assert views[it..] == [] && written + [] == written;
    NothingToEncode();
  }
}
