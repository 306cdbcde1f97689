/** M2MTLVDeserializer: the passes over a payload, by offsets into the buffer,
    writing into the object tree in place.  Each is proved against the function of
    TlvSemantics on the bytes from its offset on. */
module TlvDeserializer {
  import opened Arithmetic
  import opened CommonTypes
  import opened TlvHeader
  import opened ObjectModel
  import opened ObjectTree
  import opened TlvSemantics

  /** The reader of one header; offset moves over it. */
  class TypeIdLength {
    const tlv: seq<byte>
    const kind: Kind
    var offset: nat
    var id: uint16
    var length: nat

    constructor (tlv: seq<byte>, offset: nat)
      requires offset < |tlv|
      ensures this.tlv == tlv && this.offset == offset && kind == KindOf(tlv[offset])
      ensures id == 0 && length == 0
    {
      this.tlv, this.offset := tlv, offset;
      kind, id, length := KindOf(tlv[offset]), 0, 0;
    }

    method Deserialize()
      requires offset < |tlv| && kind == KindOf(tlv[offset])
      requires HasHeader(tlv[offset..]) && length == 0
      modifies this
      ensures offset >= old(offset)
      ensures Header(kind, id, length, offset - old(offset)) == ParseHeader(tlv[old(offset)..])
    {
      ghost var s := tlv[offset..];
      assert s[0] == tlv[offset];
      var idSize := IdSize(tlv[offset]);
      var lengthSize := LengthSize(tlv[offset]);
      if lengthSize == 0 {
        length := tlv[offset] % 8;
      }
      offset := offset + 1;
      DeserializeId(idSize);
      DeserializeLength(lengthSize);
      assert tlv[old(offset) + 1..old(offset) + 1 + idSize] == s[1..1 + idSize];
      assert tlv[old(offset) + 1 + idSize..old(offset) + 1 + idSize + lengthSize] == s[1 + idSize..1 + idSize + lengthSize];
    }

    method DeserializeId(idSize: nat)
      requires 1 <= idSize <= 2 && offset + idSize <= |tlv|
      modifies `offset, `id
      ensures offset == old(offset) + idSize
      ensures id == BigEndian(tlv[old(offset)..offset])
    {
      ghost var start := offset;
      var n: nat := tlv[offset];
      offset := offset + 1;
      BigEndianNext(tlv, start, start);
      if idSize == 2 {
        BigEndianNext(tlv, start, offset);
        n := n * 256 + tlv[offset];
        offset := offset + 1;
      }
      BigEndianBound(tlv[start..offset]);
      id := n;
    }

    method DeserializeLength(lengthSize: nat)
      requires lengthSize <= 3 && offset + lengthSize <= |tlv|
      modifies `offset, `length
      ensures offset == old(offset) + lengthSize
      ensures length == if lengthSize == 0 then old(length) else BigEndian(tlv[old(offset)..offset])
    {
      ghost var start := offset;
      if lengthSize > 0 {
        BigEndianNext(tlv, start, start);
        length := tlv[offset];
        offset := offset + 1;
      }
      if lengthSize > 1 {
        BigEndianNext(tlv, start, offset);
        length := length * 256 + tlv[offset];
        offset := offset + 1;
      }
      if lengthSize > 2 {
        BigEndianNext(tlv, start, offset);
        length := length * 256 + tlv[offset];
        offset := offset + 1;
      }
    }
  }

  lemma BigEndianNext(tlv: seq<byte>, start: nat, end: nat)
    requires start <= end < |tlv|
    ensures BigEndian(tlv[start..end + 1]) == 256 * BigEndian(tlv[start..end]) + tlv[end]
    ensures start == end ==> BigEndian(tlv[start..end]) == 0
  {
    var s := tlv[start..end + 1];
    assert s[..|s| - 1] == tlv[start..end];
  }

  lemma Suffixes(tlv: seq<byte>, offset: nat)
    requires offset <= |tlv| && HasHeader(tlv[offset..])
    ensures var s := tlv[offset..];
            var h := ParseHeader(s);
            var next := offset + h.size;
            && next <= |tlv| && Payload(s) == tlv[next..]
            && (HasValue(s) <==> next + h.length <= |tlv|)
            && (HasValue(s) ==> Value(s) == tlv[next..next + h.length])
            && (IsLast(s) <==> |tlv| <= next + h.length)
            && (!IsLast(s) ==> Rest(s) == tlv[next + h.length..])
  {
    var s := tlv[offset..];
    var h := ParseHeader(s);
    var next := offset + h.size;
    assert s[h.size..] == tlv[next..];
    if HasValue(s) {
      assert s[h.size..h.size + h.length] == tlv[next..next + h.length];
      assert s[h.size + h.length..] == tlv[next + h.length..];
    }
  }

  /** Construct the reader at offset and run it over the header there. */
  method NextHeader(tlv: seq<byte>, offset: nat, ghost s: seq<byte>) returns (til: TypeIdLength, end: nat)
    requires offset <= |tlv| && s == tlv[offset..] && HasHeader(s)
    ensures fresh(til) && til.offset <= |tlv| && tlv[til.offset..] == Payload(s)
    ensures til.kind == ParseHeader(s).kind && til.id == ParseHeader(s).id && til.length == ParseHeader(s).length
    ensures end == til.offset + til.length > offset
    ensures end < |tlv| <==> !IsLast(s)
    ensures end < |tlv| ==> tlv[end..] == Rest(s)
    ensures HasValue(s) <==> end <= |tlv|
    ensures HasValue(s) ==> Value(s) == tlv[til.offset..end]
  {
    Suffixes(tlv, offset);
    til := new TypeIdLength(tlv, offset);
    til.Deserialize();
    end := til.offset + til.length;
  }

  // -------------------------------------------------------- resource instances

  /** The scan over one resource's instances for one record. */
  method ApplyToInstances(bytes: seq<byte>, ghost s: seq<byte>, id: uint16, kind: Kind, resource: M2MResource,
                          context: Context, operation: Operation, updateValue: bool) returns (error: Error)
    requires resource.Valid()
    requires HasHeader(s) && id == ParseHeader(s).id && kind == ParseHeader(s).kind
    requires updateValue && HasValue(s) ==> bytes == Value(s)
    requires InstanceRecord(s, resource.InstanceViews(), context, operation, updateValue).safe
    modifies resource.Repr
    ensures resource.Valid() && fresh(resource.Repr - old(resource.Repr))
    ensures var p := InstanceRecord(s, old(resource.InstanceViews()), context, operation, updateValue);
            error == p.error && resource.View() == old(resource.View()).(instances := p.tree)
  {
    ghost var before := resource.InstanceViews();
    var found := false;
    error := None;
    var it := 0;
    while it < |resource.instances|
      invariant 0 <= it <= |resource.instances|
      invariant found <==> kind == ResourceInstance && exists k :: 0 <= k < it && before[k].id == id
      invariant kind == ResourceInstance ==>
                  forall k :: 0 <= k < it && before[k].id == id ==> !updateValue && before[k].putAllowed
    {
      assert before[it] == resource.instances[it].View();
      if resource.instances[it].id == id && kind == ResourceInstance {
        found := true;
        if updateValue {
          resource.UpdateInstance(it, bytes);
          SetFirstInstance(before, it, bytes);
          return;
        } else if !resource.instances[it].putAllowed {
          return NotAllowed;
        }
      }
      it := it + 1;
    }
    if !found {
      if operation == Put {
        error := NotFound;
      } else if context == SingleResource {
        error := NotAllowed;
      } else {
        resource.CreateInstance(id);
      }
    }
  }

  /** Both deserialize_resource_instances: inside a resource list, and for the
      entry point that is given one resource. */
  method DeserializeResourceInstances(tlv: seq<byte>, offset: nat, resource: M2MResource,
                                      context: Context, operation: Operation, updateValue: bool) returns (error: Error)
    requires resource.Valid() && offset <= |tlv|
    requires ReadInstances(tlv[offset..], resource.InstanceViews(), context, operation, updateValue).safe
    modifies resource.Repr
    ensures resource.Valid() && fresh(resource.Repr - old(resource.Repr))
    ensures var p := ReadInstances(tlv[offset..], old(resource.InstanceViews()), context, operation, updateValue);
            error == p.error && resource.View() == old(resource.View()).(instances := p.tree)
    decreases |tlv| - offset
  {
    ghost var s := tlv[offset..];
    var til, end := NextHeader(tlv, offset, s);
    if AcceptsInstanceRecord(til.kind, context) {
      var bytes := if updateValue && end <= |tlv| then tlv[til.offset..end] else [];
      error := ApplyToInstances(bytes, s, til.id, til.kind, resource, context, operation, updateValue);
    } else {
      return NotValid;
    }
    if end < |tlv| {
      error := DeserializeResourceInstances(tlv, end, resource, context, operation, updateValue);
    }
  }

  // ----------------------------------------------------------------- resources

  /** The scan over the resources for a Resource (or stray ResourceInstance) record. */
  method ApplyToResources(bytes: seq<byte>, ghost s: seq<byte>, id: uint16, instance: M2MObjectInstance,
                          operation: Operation, updateValue: bool) returns (error: Error)
    requires instance.Valid()
    requires HasHeader(s) && id == ParseHeader(s).id
    requires updateValue && HasValue(s) ==> bytes == Value(s)
    requires ResourceRecord(s, instance.ResourceViews(), operation, updateValue).safe
    modifies instance.Repr
    ensures instance.Valid() && fresh(instance.Repr - old(instance.Repr))
    ensures var p := ResourceRecord(s, old(instance.ResourceViews()), operation, updateValue);
            error == p.error && instance.ResourceViews() == p.tree
  {
    ghost var before := instance.ResourceViews();
    var found := false;
    error := None;
    var it := 0;
    while it < |instance.resources|
      invariant 0 <= it <= |instance.resources|
      invariant found <==> exists k :: 0 <= k < it && before[k].nameId == id
      invariant forall k :: 0 <= k < it && before[k].nameId == id ==> !updateValue && before[k].putAllowed
    {
      assert before[it] == instance.resources[it].View();
      if instance.resources[it].nameId == id {
        found := true;
        if updateValue {
          instance.UpdateResource(it, bytes);
          SetFirstResource(before, it, bytes);
          return;
        } else if !instance.resources[it].putAllowed {
          return NotAllowed;
        }
      }
      it := it + 1;
    }
    if !found {
      if operation == Post {
        instance.CreateResource(id);
      } else {
        error := NotFound;
      }
    }
  }

  lemma {:induction false} MultipleSafeSoFar(s: seq<byte>, list: ResourceList, n: nat, m: nat, op: Operation, update: bool)
    requires HasHeader(s) && n <= m <= |list|
    requires MultipleRecord(s, list, m, op, update).safe
    ensures MultipleRecord(s, list, n, op, update).safe
    decreases m
  {
    if n < m { MultipleSafeSoFar(s, list, n, m - 1, op, update); }
  }

  /** One nested pass, and what it leaves of the whole object instance. */
  method ReadNested(tlv: seq<byte>, offset: nat, instance: M2MObjectInstance, k: nat,
                    operation: Operation, updateValue: bool) returns (error: Error)
    requires instance.Valid() && k < |instance.resources| && offset <= |tlv|
    requires ReadInstances(tlv[offset..], instance.resources[k].InstanceViews(), InsideList, operation, updateValue).safe
    modifies instance.Repr
    ensures instance.Valid() && fresh(instance.Repr - old(instance.Repr)) && instance.resources == old(instance.resources)
    ensures var before := old(instance.ResourceViews());
            var p := ReadInstances(tlv[offset..], before[k].instances, InsideList, operation, updateValue);
            error == p.error && instance.ResourceViews() == before[k := before[k].(instances := p.tree)]
  {
    hide ReadInstances;
    ghost var before := instance.ResourceViews();
    var r := instance.resources[k];
    assert before[k] == r.View();
    error := DeserializeResourceInstances(tlv, offset, r, InsideList, operation, updateValue);
    forall j | 0 <= j < |instance.resources| && j != k
      ensures instance.resources[j].Valid() && instance.resources[j].Repr == old(instance.resources[j].Repr)
      ensures instance.resources[j].Repr !! r.Repr && instance.resources[j].View() == before[j]
    {
      assert old(instance.resources[j].Repr !! r.Repr);
    }
    instance.Repr := instance.Repr + r.Repr;
    assert instance.ResourceViews() == before[k := before[k].(instances := r.InstanceViews())];
  }

  /** What the scan for a MultipleResource record does with one resource. */
  method VisitResource(tlv: seq<byte>, offset: nat, ghost s: seq<byte>, id: uint16, instance: M2MObjectInstance, it: nat,
                       operation: Operation, updateValue: bool, soFar: Error, ghost before: ResourceList) returns (error: Error)
    requires instance.Valid() && offset <= |tlv| && it < |instance.resources| == |before|
    requires HasHeader(s) && id == ParseHeader(s).id && tlv[offset..] == Payload(s)
    requires MultipleRecord(s, before, |before|, operation, updateValue).safe
    requires var p := MultipleRecord(s, before, it, operation, updateValue);
             soFar == p.error && instance.ResourceViews() == p.tree
    modifies instance.Repr
    ensures instance.Valid() && fresh(instance.Repr - old(instance.Repr)) && instance.resources == old(instance.resources)
    ensures var p := MultipleRecord(s, before, it + 1, operation, updateValue);
            error == p.error && instance.ResourceViews() == p.tree
  {
    ghost var now := instance.ResourceViews();
    MultipleSafeSoFar(s, before, it + 1, |before|, operation, updateValue);
    MultipleKeepsRest(s, before, it, it, operation, updateValue);
    assert now[it] == instance.resources[it].View();
    error := soFar;
    if instance.resources[it].multiple && instance.resources[it].nameId == id {
      error := ReadNested(tlv, offset, instance, it, operation, updateValue);
    }
  }

  /** The scan over the resources for a MultipleResource record: the nested pass
      gets the whole payload from the first nested byte on. */
  method ApplyToMultiple(tlv: seq<byte>, offset: nat, ghost s: seq<byte>, id: uint16, instance: M2MObjectInstance,
                         operation: Operation, updateValue: bool) returns (error: Error)
    requires instance.Valid() && offset <= |tlv|
    requires HasHeader(s) && id == ParseHeader(s).id && tlv[offset..] == Payload(s)
    requires MultipleRecord(s, instance.ResourceViews(), |instance.resources|, operation, updateValue).safe
    modifies instance.Repr
    ensures instance.Valid() && fresh(instance.Repr - old(instance.Repr))
    ensures var before := old(instance.ResourceViews());
            var p := MultipleRecord(s, before, |before|, operation, updateValue);
            error == p.error && instance.ResourceViews() == p.tree
  {
    hide MultipleRecord;
    ghost var before := instance.ResourceViews();
    MultipleOfNone(s, before, operation, updateValue);
    ghost var p := MultipleRecord(s, before, 0, operation, updateValue);
    error := None;
    var it := 0;
    while it < |instance.resources|
      invariant 0 <= it <= |instance.resources| == |before|
      invariant instance.Valid() && fresh(instance.Repr - old(instance.Repr))
      invariant p == MultipleRecord(s, before, it, operation, updateValue)
      invariant error == p.error && instance.ResourceViews() == p.tree
    {
      error := VisitResource(tlv, offset, s, id, instance, it, operation, updateValue, error, before);
      it := it + 1;
      p := MultipleRecord(s, before, it, operation, updateValue);
    }
  }

  /** One record of a resource list, of any kind but an object instance. */
  method ApplyRecord(tlv: seq<byte>, til: TypeIdLength, ghost s: seq<byte>, instance: M2MObjectInstance,
                     operation: Operation, updateValue: bool) returns (error: Error)
    requires instance.Valid() && til !in instance.Repr && til.offset <= |tlv|
    requires HasHeader(s) && til.id == ParseHeader(s).id && til.kind == ParseHeader(s).kind != ObjectInstance
    requires tlv[til.offset..] == Payload(s) && til.length == ParseHeader(s).length
    requires AnyResourceRecord(s, instance.ResourceViews(), operation, updateValue).safe
    modifies instance.Repr
    ensures instance.Valid() && fresh(instance.Repr - old(instance.Repr))
    ensures var p := AnyResourceRecord(s, old(instance.ResourceViews()), operation, updateValue);
            error == p.error && instance.ResourceViews() == p.tree
  {
    if til.kind == MultipleResource {
      error := ApplyToMultiple(tlv, til.offset, s, til.id, instance, operation, updateValue);
    } else {
      var end := til.offset + til.length;
      var bytes := if updateValue && end <= |tlv| then tlv[til.offset..end] else [];
      assert HasValue(s) && end <= |tlv| ==> Value(s) == Payload(s)[..til.length] == tlv[til.offset..end];
      error := ApplyToResources(bytes, s, til.id, instance, operation, updateValue);
    }
  }

  method DeserializeResources(tlv: seq<byte>, offset: nat, instance: M2MObjectInstance,
                              operation: Operation, updateValue: bool) returns (error: Error)
    requires instance.Valid() && offset <= |tlv|
    requires ReadResources(tlv[offset..], instance.ResourceViews(), operation, updateValue).safe
    modifies instance.Repr
    ensures instance.Valid() && fresh(instance.Repr - old(instance.Repr))
    ensures var p := ReadResources(tlv[offset..], old(instance.ResourceViews()), operation, updateValue);
            error == p.error && instance.ResourceViews() == p.tree
    decreases |tlv| - offset
  {
    hide AnyResourceRecord;
    ghost var s := tlv[offset..];
    var til, end := NextHeader(tlv, offset, s);
    if til.kind == ObjectInstance {
      return NotValid;
    }
    error := ApplyRecord(tlv, til, s, instance, operation, updateValue);
    if end < |tlv| {
      error := DeserializeResources(tlv, end, instance, operation, updateValue);
    }
  }

  // ---------------------------------------------------------- object instances

  lemma {:induction false} ObjectSafeSoFar(s: seq<byte>, list: ObjectInstanceList, n: nat, m: nat, op: Operation, update: bool)
    requires HasHeader(s) && n <= m <= |list|
    requires ObjectInstanceRecord(s, list, m, op, update).safe
    ensures ObjectInstanceRecord(s, list, n, op, update).safe
    decreases m
  {
    if n < m { ObjectSafeSoFar(s, list, n, m - 1, op, update); }
  }

  method ReadNestedResources(tlv: seq<byte>, offset: nat, obj: M2MObject, k: nat,
                             operation: Operation, updateValue: bool) returns (error: Error)
    requires obj.Valid() && k < |obj.instances| && offset <= |tlv|
    requires ReadResources(tlv[offset..], obj.instances[k].ResourceViews(), operation, updateValue).safe
    modifies obj.Repr
    ensures obj.Valid() && fresh(obj.Repr - old(obj.Repr)) && obj.instances == old(obj.instances)
    ensures var before := old(obj.View());
            var p := ReadResources(tlv[offset..], before[k].resources, operation, updateValue);
            error == p.error && obj.View() == before[k := before[k].(resources := p.tree)]
  {
    hide ReadResources;
    ghost var before := obj.View();
    var i := obj.instances[k];
    assert before[k] == i.View();
    error := DeserializeResources(tlv, offset, i, operation, updateValue);
    forall j | 0 <= j < |obj.instances| && j != k
      ensures obj.instances[j].Valid() && obj.instances[j].Repr == old(obj.instances[j].Repr)
      ensures obj.instances[j].Repr !! i.Repr && obj.instances[j].View() == before[j]
    {
      assert old(obj.instances[j].Repr !! i.Repr);
    }
    obj.Repr := obj.Repr + i.Repr;
    assert obj.View() == before[k := before[k].(resources := i.ResourceViews())];
  }

  method VisitObjectInstance(tlv: seq<byte>, offset: nat, ghost s: seq<byte>, id: uint16, obj: M2MObject, it: nat,
                             operation: Operation, updateValue: bool, soFar: Error, ghost before: ObjectInstanceList)
    returns (error: Error)
    requires obj.Valid() && offset <= |tlv| && it < |obj.instances| == |before|
    requires HasHeader(s) && id == ParseHeader(s).id && tlv[offset..] == Payload(s)
    requires ObjectInstanceRecord(s, before, |before|, operation, updateValue).safe
    requires var p := ObjectInstanceRecord(s, before, it, operation, updateValue);
             soFar == p.error && obj.View() == p.tree
    modifies obj.Repr
    ensures obj.Valid() && fresh(obj.Repr - old(obj.Repr)) && obj.instances == old(obj.instances)
    ensures var p := ObjectInstanceRecord(s, before, it + 1, operation, updateValue);
            error == p.error && obj.View() == p.tree
  {
    ghost var now := obj.View();
    ObjectSafeSoFar(s, before, it + 1, |before|, operation, updateValue);
    ObjectKeepsRest(s, before, it, it, operation, updateValue);
    assert now[it] == obj.instances[it].View();
    error := soFar;
    if obj.instances[it].id == id {
      error := ReadNestedResources(tlv, offset, obj, it, operation, updateValue);
    }
  }

  method ApplyToObjectInstances(tlv: seq<byte>, offset: nat, ghost s: seq<byte>, id: uint16, obj: M2MObject,
                                operation: Operation, updateValue: bool) returns (error: Error)
    requires obj.Valid() && offset <= |tlv|
    requires HasHeader(s) && id == ParseHeader(s).id && tlv[offset..] == Payload(s)
    requires ObjectInstanceRecord(s, obj.View(), |obj.instances|, operation, updateValue).safe
    modifies obj.Repr
    ensures obj.Valid() && fresh(obj.Repr - old(obj.Repr))
    ensures var before := old(obj.View());
            var p := ObjectInstanceRecord(s, before, |before|, operation, updateValue);
            error == p.error && obj.View() == p.tree
  {
    hide ObjectInstanceRecord;
    ghost var before := obj.View();
    ObjectsOfNone(s, before, operation, updateValue);
    ghost var p := ObjectInstanceRecord(s, before, 0, operation, updateValue);
    error := None;
    var it := 0;
    while it < |obj.instances|
      invariant 0 <= it <= |obj.instances| == |before|
      invariant obj.Valid() && fresh(obj.Repr - old(obj.Repr))
      invariant p == ObjectInstanceRecord(s, before, it, operation, updateValue)
      invariant error == p.error && obj.View() == p.tree
    {
      error := VisitObjectInstance(tlv, offset, s, id, obj, it, operation, updateValue, error, before);
      it := it + 1;
      p := ObjectInstanceRecord(s, before, it, operation, updateValue);
    }
  }

  method DeserializeObjectInstances(tlv: seq<byte>, offset: nat, obj: M2MObject,
                                    operation: Operation, updateValue: bool) returns (error: Error)
    requires obj.Valid() && offset <= |tlv|
    requires ReadObjectInstances(tlv[offset..], obj.View(), operation, updateValue).safe
    modifies obj.Repr
    ensures obj.Valid() && fresh(obj.Repr - old(obj.Repr))
    ensures var p := ReadObjectInstances(tlv[offset..], old(obj.View()), operation, updateValue);
            error == p.error && obj.View() == p.tree
    decreases |tlv| - offset
  {
    ghost var s := tlv[offset..];
    var til, end := NextHeader(tlv, offset, s);
    error := None;
    if til.kind == ObjectInstance {
      error := ApplyToObjectInstances(tlv, til.offset, s, til.id, obj, operation, updateValue);
      if end < |tlv| {
        error := DeserializeObjectInstances(tlv, end, obj, operation, updateValue);
      }
    }
  }

  // -------------------------------------------------------------- public calls

  method DeserialiseObjectInstances(tlv: seq<byte>, obj: M2MObject, operation: Operation) returns (error: Error)
    requires obj.Valid() && PutObjectInstances(tlv, obj.View(), operation).safe
    modifies obj.Repr
    ensures obj.Valid() && fresh(obj.Repr - old(obj.Repr))
    ensures var p := PutObjectInstances(tlv, old(obj.View()), operation);
            error == p.error && obj.View() == p.tree
  {
    assert tlv[0..] == tlv;
    if |tlv| > 0 && KindOf(tlv[0]) == ObjectInstance {
      error := DeserializeObjectInstances(tlv, 0, obj, operation, false);
      if error == None {
        error := DeserializeObjectInstances(tlv, 0, obj, operation, true);
      }
    } else {
      error := NotValid;
    }
  }

  method DeserialiseResources(tlv: seq<byte>, instance: M2MObjectInstance, operation: Operation) returns (error: Error)
    requires instance.Valid() && PutResources(tlv, instance.ResourceViews(), operation).safe
    modifies instance.Repr
    ensures instance.Valid() && fresh(instance.Repr - old(instance.Repr))
    ensures var p := PutResources(tlv, old(instance.ResourceViews()), operation);
            error == p.error && instance.ResourceViews() == p.tree
  {
    assert tlv[0..] == tlv;
    if |tlv| == 0 || (KindOf(tlv[0]) != Resource && KindOf(tlv[0]) != MultipleResource) {
      error := NotValid;
    } else {
      error := DeserializeResources(tlv, 0, instance, operation, false);
      if error == None {
        error := DeserializeResources(tlv, 0, instance, operation, true);
      }
    }
  }

  method DeserialiseResourceInstances(tlv: seq<byte>, resource: M2MResource, operation: Operation) returns (error: Error)
    requires resource.Valid() && PutResourceInstances(tlv, resource.InstanceViews(), operation).safe
    modifies resource.Repr
    ensures resource.Valid() && fresh(resource.Repr - old(resource.Repr))
    ensures var p := PutResourceInstances(tlv, old(resource.InstanceViews()), operation);
            error == p.error && resource.View() == old(resource.View()).(instances := p.tree)
  {
    if |tlv| == 0 || KindOf(tlv[0]) != MultipleResource {
      error := NotValid;
    } else {
      var offset := 2;
      if IdSize(tlv[0]) == 2 {
        offset := offset + 1;
      }
      offset := offset + LengthSize(tlv[0]);
      assert offset == HeaderSize(tlv[0]);
      error := DeserializeResourceInstances(tlv, offset, resource, SingleResource, operation, false);
      if error == None {
        error := DeserializeResourceInstances(tlv, offset, resource, SingleResource, operation, true);
      }
    }
  }
}
