/** Which identifiers and permissions of the receiver decide what a Put of resource
    instances does, and what a Post makes of identifiers the receiver does not know. */
module TlvPermissions {
  import opened CommonTypes
  import opened TlvHeader
  import opened ObjectModel
  import opened TlvSemantics
  import opened TlvPasses
  import opened TlvEncoding
  import opened TlvRoundTrip
  import opened TlvOutcomes
  import opened TlvNames

  // ------------------------------------------------ Put of resource instances

  /** What a receiver says to a resource instance: there is none, there is one that may not
      be written, or neither. */
  predicate Answers(error: Error, list: InstanceList, id: uint16) {
    match error
    case NotFound => forall k | 0 <= k < |list| :: list[k].id != id
    case NotAllowed => exists k :: 0 <= k < |list| && list[k].id == id && !list[k].putAllowed
    case None =>
      && (exists k :: 0 <= k < |list| && list[k].id == id)
      && (forall k | 0 <= k < |list| :: list[k].id == id ==> list[k].putAllowed)
    case NotValid => false
  }

  /** Written instances, whatever they are read into: reading stops at the last one, and
      stays inside. */
  lemma {:induction false} WrittenInstancesStopAtLast(src: InstanceList, k: nat, dst: InstanceList, context: Context, update: bool)
    requires k < |src| && FitsInstances(src)
    ensures var s := EncodeInstances(src[k..]);
            && InstancesStopAt(s, context) == EncodeInstance(src[|src| - 1])
            && ReadInstances(s, dst, context, Put, update).safe
    decreases |src| - k
  {
    hide EncodeInstances, EncodeInstance, Front, InstancesStopAt;
    var i := src[k];
    var rest := EncodeInstances(src[k + 1..]);
    var value := WireValue(i.dataType, i.value);
    EncodeInstancesStep(src, k, []);
    assert EncodeInstances(src[k..]) + [] == EncodeInstances(src[k..]) && rest + [] == rest;
    InstanceAtFront(i, rest);
    EmptyInstances(src[k + 1..]);
    var s := EncodeInstances(src[k..]);
    OneInstance(s, i.id, value, rest, dst, context, update);
    if k + 1 < |src| {
      WrittenInstancesStopAtLast(src, k + 1, InstanceRecord(s, dst, context, Put, update).tree, context, update);
    } else {
      assert rest == [];
      assert s == EncodeInstance(i) + [] == EncodeInstance(i);
    }
  }

  lemma InstanceAtFront(i: ResourceInstanceView, rest: seq<byte>)
    requires |WireValue(i.dataType, i.value)| < LENGTH_LIMIT
    ensures Front(EncodeInstance(i) + rest, ResourceInstance, i.id, WireValue(i.dataType, i.value), rest)
  {
    RecordAtFront(ResourceInstance, i.id, WireValue(i.dataType, i.value), rest);
  }

  lemma OneInstance(s: seq<byte>, id: uint16, value: seq<byte>, rest: seq<byte>, dst: InstanceList, context: Context, update: bool)
    requires Front(s, ResourceInstance, id, value, rest)
    ensures HasHeader(s)
    ensures InstancesStopAt(s, context) == if rest == [] then s else InstancesStopAt(rest, context)
    ensures var here := InstanceRecord(s, dst, context, Put, update);
            && here.safe
            && ReadInstances(s, dst, context, Put, update) ==
               if rest == [] then here else ReadInstances(rest, here.tree, context, Put, update)
  {
  }

  /** The last instance that is written decides for all of them. */
  lemma LastInstanceDecides(src: InstanceList, dst: InstanceList, context: Context)
    requires src != [] && FitsInstances(src)
    ensures var p := ReadInstances(EncodeInstances(src), dst, context, Put, false);
            p.safe && Answers(p.error, dst, src[|src| - 1].id)
  {
    var s := EncodeInstances(src);
    var last := src[|src| - 1];
    assert src[0..] == src;
    WrittenInstancesStopAtLast(src, 0, dst, context, false);
    InstancesErrorIsTheLastOutcome(s, dst, context, false);
    hide ReadInstances, EncodeInstances, InstancesStopAt;
    InstanceAtFront(last, []);
    assert EncodeInstance(last) + [] == EncodeInstance(last);
  }

  /** The public call on one resource, for any instances written and any receiver: it
      reports whether the receiver lacks the last instance, forbids it, or neither, and in
      the first two cases writes nothing. */
  lemma InstancePermissionDecides(r: ResourceView, dst: InstanceList)
    requires r.multiple && Fits(r) && r.instances != []
    ensures var call := PutResourceInstances(EncodeResource(r), dst, Put);
            && call.safe
            && Answers(call.error, dst, r.instances[|r.instances| - 1].id)
            && (call.error != None ==> call.tree == dst)
  {
    var s := EncodeResource(r);
    var src := r.instances;
    ResourceAtFront(r, []);
    assert s + [] == s;
    assert Payload(s) == EncodeInstances(src) + [] == EncodeInstances(src);
    LastInstanceDecides(src, dst, SingleResource);
    DryRunInstances(EncodeInstances(src), dst, SingleResource, Put);
    assert src[0..] == src;
    WrittenInstancesStopAtLast(src, 0, dst, SingleResource, true);
    hide ReadInstances, EncodeInstances;
    assert s[HeaderSize(s[0])..] == Payload(s);
    if ReadInstances(EncodeInstances(src), dst, SingleResource, Put, false).error == None {
      InstancesSucceedTwice(EncodeInstances(src), dst, SingleResource);
    }
  }

  lemma {:induction false} LastTakerDecides(s: seq<byte>, list: ResourceList, n: nat, k: nat, update: bool)
    requires HasHeader(s) && k < n <= |list| && TakesInstances(list[k], ParseHeader(s).id)
    requires forall j | k < j < n :: !TakesInstances(list[j], ParseHeader(s).id)
    ensures MultipleRecord(s, list, n, Put, update).error ==
            ReadInstances(Payload(s), list[k].instances, InsideList, Put, update).error
    decreases n
  {
    if n - 1 > k {
      LastTakerDecides(s, list, n - 1, k, update);
    }
  }

  lemma {:induction false} NoTakerNoError(s: seq<byte>, list: ResourceList, n: nat, update: bool)
    requires HasHeader(s) && n <= |list|
    requires forall j | 0 <= j < n :: !TakesInstances(list[j], ParseHeader(s).id)
    ensures MultipleRecord(s, list, n, Put, update).error == None
    decreases n
  {
    if n > 0 {
      NoTakerNoError(s, list, n - 1, update);
    }
  }

  /** The public call on a resource list, for any written list that ends in a multiple
      resource and any receiver: the last instance of that resource decides, at the last
      multiple resource of the receiver with its number; without one there is no error. */
  lemma LastMultipleDecides(src: ResourceList, dst: ResourceList)
    requires src != [] && FitsResources(src)
    requires src[|src| - 1].multiple && src[|src| - 1].instances != []
    requires PutResources(EncodeResources(src), dst, Put).safe
    ensures var last := src[|src| - 1];
            var call := PutResources(EncodeResources(src), dst, Put);
            && (call.error != None ==> call.tree == dst)
            && ((forall j | 0 <= j < |dst| :: !(dst[j].multiple && dst[j].nameId == WireId(last))) ==> call.error == None)
            && (forall k | 0 <= k < |dst| && dst[k].multiple && dst[k].nameId == WireId(last) ::
                  (forall j | k < j < |dst| :: !(dst[j].multiple && dst[j].nameId == WireId(last))) ==>
                  Answers(call.error, dst[k].instances, last.instances[|last.instances| - 1].id))
  {
    hide PutResources, EncodeResources, FitsResources, Answers, MultipleRecord, EncodeResource;
    var last := src[|src| - 1];
    var t := EncodeResource(last);
    LastMultipleOutcome(src, dst);
    forall k | 0 <= k < |dst| && dst[k].multiple && dst[k].nameId == WireId(last)
               && (forall j | k < j < |dst| :: !(dst[j].multiple && dst[j].nameId == WireId(last)))
      ensures Answers(MultipleRecord(t, dst, |dst|, Put, false).error, dst[k].instances,
                      last.instances[|last.instances| - 1].id)
    {
      LastMultipleAnswers(last, dst, k);
    }
    if forall j | 0 <= j < |dst| :: !(dst[j].multiple && dst[j].nameId == WireId(last)) {
      NoTakerNoError(t, dst, |dst|, false);
    }
  }

  /** The call reports what the written multiple resource at the end says. */
  lemma LastMultipleOutcome(src: ResourceList, dst: ResourceList)
    requires src != [] && FitsResources(src) && src[|src| - 1].multiple
    requires PutResources(EncodeResources(src), dst, Put).safe
    ensures var t := EncodeResource(src[|src| - 1]);
            var call := PutResources(EncodeResources(src), dst, Put);
            && Fits(src[|src| - 1])
            && HasHeader(t) && ParseHeader(t).id == WireId(src[|src| - 1])
            && call.error == MultipleRecord(t, dst, |dst|, Put, false).error
            && (call.error != None ==> call.tree == dst)
  {
    hide PutResources, ReadResources, EncodeResources, FitsResources, StopsAt, MultipleRecord;
    WrittenListStopsAtLast(src);
    WrittenListStarts(src);
    ResourcesCallOutcome(EncodeResources(src), dst);
    LastFits(src);
    var t := EncodeResource(src[|src| - 1]);
    ResourceAtFront(src[|src| - 1], []);
    hide EncodeResource;
    assert t + [] == t;
  }

  lemma LastMultipleAnswers(last: ResourceView, dst: ResourceList, k: nat)
    requires last.multiple && Fits(last) && last.instances != []
    requires k < |dst| && TakesInstances(dst[k], WireId(last))
    requires forall j | k < j < |dst| :: !TakesInstances(dst[j], WireId(last))
    requires HasHeader(EncodeResource(last)) && ParseHeader(EncodeResource(last)).id == WireId(last)
    ensures Answers(MultipleRecord(EncodeResource(last), dst, |dst|, Put, false).error, dst[k].instances,
                    last.instances[|last.instances| - 1].id)
  {
    hide Answers, ReadInstances, MultipleRecord, EncodeInstances;
    var t := EncodeResource(last);
    ResourceAtFront(last, []);
    hide EncodeResource;
    assert t + [] == t;
    assert Payload(t) == EncodeInstances(last.instances) + [] == EncodeInstances(last.instances);
    LastTakerDecides(t, dst, |dst|, k, false);
    LastInstanceDecides(last.instances, dst[k].instances, InsideList);
  }

  // --------------------------------------------------------------------- Post

  /** A Post of one resource the receiver does not know creates it, writable, and the
      second pass fills it: the dry run has made it known. */
  lemma PostCreatesResource(list: ResourceList, id: uint16, v: seq<byte>)
    requires |v| < LENGTH_LIMIT && forall k | 0 <= k < |list| :: list[k].nameId != id
    ensures PutResources(Record(Resource, id, v), list, Post) ==
            Pass(None, list + [ResourceView(id, false, INTEGER, true, v, [])], true)
  {
    var s := Record(Resource, id, v);
    RecordAtFront(Resource, id, v, []);
    assert s + [] == s;
    var grown := list + [ResourceView(id, false, INTEGER, true, [], [])];
    assert grown[|list|].nameId == id;
    SetFirstResource(grown, |list|, v);
    assert grown[|list| := grown[|list|].(value := v)] == list + [ResourceView(id, false, INTEGER, true, v, [])];
  }

  /** A Post to a known resource that may be written is a Put. */
  lemma PostWritesKnownResource(list: ResourceList, k: nat, v: seq<byte>, op: Operation)
    requires |v| < LENGTH_LIMIT && k < |list| && IsNumeric(list[k])
    requires forall j | 0 <= j < |list| && j != k :: list[j].nameId != list[k].nameId
    ensures PutResources(Record(Resource, list[k].nameId, v), list, op) ==
            if list[k].putAllowed then Pass(None, list[k := list[k].(value := v)], true) else Pass(NotAllowed, list, true)
  {
    var s := Record(Resource, list[k].nameId, v);
    RecordAtFront(Resource, list[k].nameId, v, []);
    assert s + [] == s;
    SetFirstResource(list, k, v);
    assert HasResource(list, list[k].nameId);
  }

  /** A Post of an instance that the one addressed resource does not have is refused. */
  lemma PostOfUnknownInstance(id: uint16, i: uint16, v: seq<byte>, dst: InstanceList)
    requires |v| < LENGTH_LIMIT && |Record(ResourceInstance, i, v)| < LENGTH_LIMIT
    requires forall k | 0 <= k < |dst| :: dst[k].id != i
    ensures PutResourceInstances(Record(MultipleResource, id, Record(ResourceInstance, i, v)), dst, Post) ==
            Pass(NotAllowed, dst, true)
  {
    var inner := Record(ResourceInstance, i, v);
    var s := Record(MultipleResource, id, inner);
    RecordAtFront(ResourceInstance, i, v, []);
    RecordAtFront(MultipleResource, id, inner, []);
    assert s + [] == s && inner + [] == inner;
    assert s[HeaderSize(s[0])..] == Payload(s) == inner;
  }

  lemma OneTaker(s: seq<byte>, r: ResourceView, update: bool)
    requires HasHeader(s) && TakesInstances(r, ParseHeader(s).id)
    ensures var nested := ReadInstances(Payload(s), r.instances, InsideList, Post, update);
            MultipleRecord(s, [r], 1, Post, update) == Pass(nested.error, [r.(instances := nested.tree)], nested.safe)
  {
    MultipleOfNone(s, [r], Post, update);
    var nested := ReadInstances(Payload(s), r.instances, InsideList, Post, update);
    hide ReadInstances;
    assert [r][0 := r.(instances := nested.tree)] == [r.(instances := nested.tree)];
  }

  /** Both passes over a single instance the receiver does not have. */
  lemma PostOneInstance(s: seq<byte>, i: uint16, v: seq<byte>, list: InstanceList)
    requires Front(s, ResourceInstance, i, v, []) && forall k | 0 <= k < |list| :: list[k].id != i
    ensures var grown := list + [ResourceInstanceView(i, INTEGER, true, [])];
            && ReadInstances(s, list, InsideList, Post, false) == Pass(None, grown, true)
            && ReadInstances(s, grown, InsideList, Post, true) ==
               Pass(None, list + [ResourceInstanceView(i, INTEGER, true, v)], true)
  {
    var grown := list + [ResourceInstanceView(i, INTEGER, true, [])];
    assert grown[|list|].id == i;
    SetFirstInstance(grown, |list|, v);
    assert grown[|list| := grown[|list|].(value := v)] == list + [ResourceInstanceView(i, INTEGER, true, v)];
  }

  /** Inside a resource list it is created, writable, and filled. */
  lemma PostCreatesInstance(r: ResourceView, i: uint16, v: seq<byte>)
    requires r.multiple && IsNumeric(r) && |v| < LENGTH_LIMIT && |Record(ResourceInstance, i, v)| < LENGTH_LIMIT
    requires forall k | 0 <= k < |r.instances| :: r.instances[k].id != i
    ensures PutResources(Record(MultipleResource, r.nameId, Record(ResourceInstance, i, v)), [r], Post) ==
            Pass(None, [r.(instances := r.instances + [ResourceInstanceView(i, INTEGER, true, v)])], true)
  {
    var inner := Record(ResourceInstance, i, v);
    var s := Record(MultipleResource, r.nameId, inner);
    RecordAtFront(ResourceInstance, i, v, []);
    RecordAtFront(MultipleResource, r.nameId, inner, []);
    hide Record;
    assert s + [] == s && inner + [] == inner;
    PostOneInstance(inner, i, v, r.instances);
    var grown := r.instances + [ResourceInstanceView(i, INTEGER, true, [])];
    OneTaker(s, r, false);
    OneTaker(s, r.(instances := grown), true);
    hide MultipleRecord, ReadInstances;
    assert [r.(instances := grown)] == [r.(instances := grown)];
  }

  // ----------------------------------------------------------------- truncation

  /** A record that announces more bytes than there are, for a resource that may be written:
      the second pass reads past the end of the payload. */
  lemma TruncatedResourceOverruns(s: seq<byte>, list: ResourceList, k: nat, op: Operation)
    requires HasHeader(s) && ParseHeader(s).kind == Resource && ParseHeader(s).size + ParseHeader(s).length > |s|
    requires k < |list| && list[k].nameId == ParseHeader(s).id
    requires forall j | 0 <= j < |list| :: list[j].nameId == list[k].nameId ==> list[j].putAllowed
    ensures !PutResources(s, list, op).safe
  {
    assert HasResource(list, ParseHeader(s).id);
  }

  /** The same for a resource instance of the one resource addressed. */
  lemma TruncatedInstanceOverruns(s: seq<byte>, dst: InstanceList, k: nat, op: Operation)
    requires HasHeader(s) && ParseHeader(s).kind == MultipleResource
    requires var t := Payload(s);
             && HasHeader(t) && ParseHeader(t).kind == ResourceInstance
             && ParseHeader(t).size + ParseHeader(t).length > |t|
             && k < |dst| && dst[k].id == ParseHeader(t).id
    requires forall j | 0 <= j < |dst| :: dst[j].id == dst[k].id ==> dst[j].putAllowed
    ensures !PutResourceInstances(s, dst, op).safe
  {
    assert s[HeaderSize(s[0])..] == Payload(s);
    assert HasInstance(dst, ParseHeader(Payload(s)).id);
  }

  // -------------------------------------------------------------- other records

  /** A payload that is empty, or starts with a record of another kind, is not valid for the
      call, and nothing is written. */
  lemma OtherPayloadIsNotValid(s: seq<byte>, objects: ObjectInstanceList, list: ResourceList, dst: InstanceList, op: Operation)
    ensures s == [] || s[0] >= 0x40 ==> PutObjectInstances(s, objects, op) == Pass(NotValid, objects, true)
    ensures s == [] || s[0] < 0x80 ==> PutResources(s, list, op) == Pass(NotValid, list, true)
    ensures s == [] || s[0] < 0x80 || s[0] >= 0xC0 ==> PutResourceInstances(s, dst, op) == Pass(NotValid, dst, true)
  {
    hide ReadObjectInstances, ReadResources, ReadInstances;
  }

  /** A record of another kind behind an object instance ends reading without an error; so
      does the record of an object instance that the receiver does not have. */
  lemma OtherRecordEndsObjects(id: uint16, v: seq<byte>, rest: seq<byte>, list: ObjectInstanceList, op: Operation)
    requires |v| < LENGTH_LIMIT && forall j | 0 <= j < |list| :: list[j].id != id
    requires rest == [] || (HasHeader(rest) && rest[0] >= 0x40)
    ensures PutObjectInstances(Record(ObjectInstance, id, v) + rest, list, op) == Pass(None, list, true)
  {
    var s := Record(ObjectInstance, id, v) + rest;
    RecordAtFront(ObjectInstance, id, v, rest);
    hide Record;
    NoSuchObject(s, list, |list|, op, false);
    NoSuchObject(s, list, |list|, op, true);
    hide ObjectInstanceRecord;
    if rest != [] {
      assert ParseHeader(rest).kind != ObjectInstance;
      assert forall update :: ReadObjectInstances(rest, list, op, update) == Pass(None, list, true);
    }
    assert ReadObjectInstances(s, list, op, false) == Pass(None, list, true);
    assert ReadObjectInstances(s, list, op, true) == Pass(None, list, true);
  }

  lemma {:induction false} NoSuchObject(s: seq<byte>, list: ObjectInstanceList, n: nat, op: Operation, update: bool)
    requires HasHeader(s) && n <= |list| && forall j | 0 <= j < |list| :: list[j].id != ParseHeader(s).id
    ensures ObjectInstanceRecord(s, list, n, op, update) == Pass(None, list, true)
    decreases n
  {
    if n > 0 {
      NoSuchObject(s, list, n - 1, op, update);
    }
  }
}
