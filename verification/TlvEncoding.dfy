/** The bytes a tree is written as: the specification of M2MTLVSerializer. */
module TlvEncoding {
  import opened Arithmetic
  import opened CommonTypes
  import opened TlvHeader
  import opened ObjectModel
  import CText

  predicate IsBinary(d: DataType) { d == INTEGER || d == BOOLEAN || d == TIME }

  /** A number is written in binary although it is stored as decimal text: one
      byte for a boolean, eight big-endian bytes for an integer or a time. */
  function BinaryValue(d: DataType, value: seq<byte>): seq<byte> {
    var n := CText.ParseInteger(CText.UpToNul(value));
    if d == BOOLEAN then [n % 0x100] else ToBigEndian(n % TWO_TO_THE_64, 8)
  }

  function WireValue(d: DataType, value: seq<byte>): seq<byte> {
    if IsBinary(d) then BinaryValue(d, value) else value
  }

  function EncodeInstance(i: ResourceInstanceView): seq<byte> {
    Record(ResourceInstance, i.id, WireValue(i.dataType, i.value))
  }

  function EncodeInstances(list: InstanceList): seq<byte> {
    if list == [] then [] else EncodeInstance(list[0]) + EncodeInstances(list[1..])
  }

  function EncodeResource(r: ResourceView): seq<byte> {
    if r.multiple then Record(MultipleResource, WireId(r), EncodeInstances(r.instances))
    else Record(Resource, WireId(r), WireValue(r.dataType, r.value))
  }

  predicate AllNumbered(list: ResourceList) { forall k :: 0 <= k < |list| ==> IsNumbered(list[k]) }

  function EncodeResources(list: ResourceList): seq<byte> {
    if list == [] then [] else EncodeResource(list[0]) + EncodeResources(list[1..])
  }

  /** An object instance with a resource whose name is not a number is left out,
      silently: the writer ignores that failure. */
  function EncodeObjectInstance(i: ObjectInstanceView): seq<byte> {
    if AllNumbered(i.resources) then Record(ObjectInstance, i.id, EncodeResources(i.resources)) else []
  }

  function EncodeObjectInstances(list: ObjectInstanceList): seq<byte> {
    if list == [] then [] else EncodeObjectInstance(list[0]) + EncodeObjectInstances(list[1..])
  }
}
