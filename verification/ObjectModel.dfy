/** Values of the object tree an LwM2M client registers: an object holds object
    instances, these hold resources, and a multiple resource holds resource
    instances.  The classes of ObjectTree have these as their abstract values. */
module ObjectModel {
  import opened CommonTypes
  import opened TlvHeader

  datatype ResourceInstanceView = ResourceInstanceView(
    id: uint16, dataType: DataType, putAllowed: bool, value: seq<byte>)

  /** nameId is what M2MBase::name_id returns: the number a resource is named by, which
      a sign may make negative, or -1 when the name is no number or one above 65535. */
  datatype ResourceView = ResourceView(
    nameId: int, multiple: bool, dataType: DataType, putAllowed: bool, value: seq<byte>,
    instances: seq<ResourceInstanceView>)

  datatype ObjectInstanceView = ObjectInstanceView(id: uint16, resources: seq<ResourceView>)

  type InstanceList = seq<ResourceInstanceView>
  type ResourceList = seq<ResourceView>
  type ObjectInstanceList = seq<ObjectInstanceView>

  /** The name is a number. */
  predicate IsNumbered(r: ResourceView) { r.nameId != -1 }

  /** The identifier it is written under, in 16 bits. */
  function WireId(r: ResourceView): uint16 { r.nameId % 0x1_0000 }

  /** The name is a number the identifier can hold. */
  predicate IsNumeric(r: ResourceView) { 0 <= r.nameId < 0x1_0000 }
}
