/** Writing a tree and reading it back under Put.

    Every nested pass of the reader is handed the size of the whole payload, so it
    runs past the end of its own record.  The lemmas carry whatever follows the
    record along as an explicit suffix and show that the overrun writes nothing. */
module TlvRoundTrip {
  import opened Arithmetic
  import opened CommonTypes
  import opened TlvHeader
  import opened ObjectModel
  import opened TlvSemantics
  import opened TlvEncoding
  import CText

  // -------------------------------------------------- what the sender may hold

  predicate FitsInstances(list: InstanceList) {
    forall k :: 0 <= k < |list| ==> |WireValue(list[k].dataType, list[k].value)| < LENGTH_LIMIT
  }

  predicate Fits(r: ResourceView) {
    if r.multiple then FitsInstances(r.instances) && |EncodeInstances(r.instances)| < LENGTH_LIMIT
    else |WireValue(r.dataType, r.value)| < LENGTH_LIMIT
  }

  /** Every value, at every level of nesting, is short enough for its header. */
  predicate FitsResources(list: ResourceList) { forall k :: 0 <= k < |list| ==> Fits(list[k]) }

  predicate FitsObject(i: ObjectInstanceView) {
    AllNumbered(i.resources) ==> FitsResources(i.resources) && |EncodeResources(i.resources)| < LENGTH_LIMIT
  }

  predicate FitsObjects(list: ObjectInstanceList) { forall k :: 0 <= k < |list| ==> FitsObject(list[k]) }

  // ------------------------------------------------ what the receiver must have

  predicate DistinctInstances(list: InstanceList) {
    forall j, k :: 0 <= j < k < |list| ==> list[j].id != list[k].id
  }

  predicate ReadyInstances(src: InstanceList, dst: InstanceList) {
    && |src| == |dst|
    && DistinctInstances(dst)
    && forall k :: 0 <= k < |dst| ==> dst[k].id == src[k].id && dst[k].putAllowed
  }

  predicate DistinctResources(list: ResourceList) {
    forall j, k :: 0 <= j < k < |list| ==> list[j].nameId != list[k].nameId
  }

  predicate Ready(s: ResourceView, d: ResourceView) {
    && IsNumeric(s) && d.nameId == s.nameId && d.multiple == s.multiple
    && (d.multiple ==> ReadyInstances(s.instances, d.instances))
    && (!d.multiple ==> d.putAllowed)
  }

  predicate ReadyResources(src: ResourceList, dst: ResourceList) {
    && |src| == |dst|
    && DistinctResources(dst)
    && forall k :: 0 <= k < |dst| ==> Ready(src[k], dst[k])
  }

  predicate DistinctObjects(list: ObjectInstanceList) {
    forall j, k :: 0 <= j < k < |list| ==> list[j].id != list[k].id
  }

  /** Same identifiers in the same places, all different, and writable. */
  predicate ReadyObjects(src: ObjectInstanceList, dst: ObjectInstanceList) {
    && |src| == |dst|
    && DistinctObjects(dst)
    && forall k :: 0 <= k < |dst| ==>
         dst[k].id == src[k].id && (AllNumbered(src[k].resources) ==> ReadyResources(src[k].resources, dst[k].resources))
  }

  // ----------------------------------------------------------- what must result

  /** From position k on, dst takes the values src puts on the wire. */
  function MergeInstances(src: InstanceList, dst: InstanceList, k: nat): (r: InstanceList)
    requires |src| == |dst|
    ensures |r| == |dst|
  {
    seq(|dst|, i requires 0 <= i < |dst| =>
      if i < k then dst[i] else dst[i].(value := WireValue(src[i].dataType, src[i].value)))
  }

  /** A multiple resource's own value does not travel. */
  function Merge(s: ResourceView, d: ResourceView): ResourceView
    requires s.multiple ==> |s.instances| == |d.instances|
  {
    if s.multiple then d.(instances := MergeInstances(s.instances, d.instances, 0))
    else d.(value := WireValue(s.dataType, s.value))
  }

  function MergeResources(src: ResourceList, dst: ResourceList, k: nat): (r: ResourceList)
    requires ReadyResources(src, dst)
    ensures |r| == |dst|
  {
    seq(|dst|, i requires 0 <= i < |dst| => if i < k then dst[i] else Merge(src[i], dst[i]))
  }

  function MergeObject(s: ObjectInstanceView, d: ObjectInstanceView): ObjectInstanceView
    requires AllNumbered(s.resources) ==> ReadyResources(s.resources, d.resources)
  {
    if AllNumbered(s.resources) then d.(resources := MergeResources(s.resources, d.resources, 0)) else d
  }

  function MergeObjects(src: ObjectInstanceList, dst: ObjectInstanceList, k: nat): (r: ObjectInstanceList)
    requires ReadyObjects(src, dst)
    ensures |r| == |dst|
  {
    seq(|dst|, i requires 0 <= i < |dst| => if i < k then dst[i] else MergeObject(src[i], dst[i]))
  }

  // ------------------------------------------------------------- single records

  /** What the reader sees at s: one record that fits, and the rest. */
  predicate Front(s: seq<byte>, k: Kind, id: uint16, value: seq<byte>, rest: seq<byte>) {
    && HasHeader(s) && ParseHeader(s).kind == k && ParseHeader(s).id == id
    && HasValue(s) && Value(s) == value
    && Payload(s) == value + rest
    && (IsLast(s) <==> rest == [])
    && (rest != [] ==> Rest(s) == rest)
    && StartsWith(s, k)
  }

  lemma RecordAtFront(k: Kind, id: uint16, value: seq<byte>, rest: seq<byte>)
    requires |value| < LENGTH_LIMIT
    ensures Front(Record(k, id, value) + rest, k, id, value, rest)
  {
    var s := Record(k, id, value) + rest;
    HeaderRoundTrip(k, id, value, rest);
    var h := ParseHeader(s);
    ModBelow(|value|, LENGTH_LIMIT);
    assert |s| == h.size + |value| + |rest|;
    SplitPayload(s, h.size, value, rest);
    TypeByteFields(k, id, |value|);
    assert s[0] == Record(k, id, value)[0] == TypeByte(k, id, |value|);
  }

  lemma SplitPayload(s: seq<byte>, n: nat, value: seq<byte>, rest: seq<byte>)
    requires n <= |s| && s[n..] == value + rest
    ensures s[n..n + |value|] == value
    ensures s[n + |value|..] == rest
  {
    assert s[n..n + |value|] == s[n..][..|value|];
    assert s[n + |value|..] == s[n..][|value|..];
  }

  lemma {:induction false} UniqueMultiple(s: seq<byte>, list: ResourceList, n: nat, k: nat, update: bool)
    requires HasHeader(s) && n <= |list| && k < |list| && DistinctResources(list)
    requires TakesInstances(list[k], ParseHeader(s).id)
    ensures var nested := ReadInstances(Payload(s), list[k].instances, InsideList, Put, update);
            MultipleRecord(s, list, n, Put, update) ==
              if n <= k then Pass(None, list, true)
              else Pass(nested.error, list[k := list[k].(instances := nested.tree)], nested.safe)
    decreases n
  {
    if n > 0 {
      UniqueMultiple(s, list, n - 1, k, update);
      assert n - 1 != k ==> list[n - 1].nameId != list[k].nameId;
    }
  }

  lemma {:induction false} UniqueObject(s: seq<byte>, list: ObjectInstanceList, n: nat, k: nat, update: bool)
    requires HasHeader(s) && n <= |list| && k < |list| && DistinctObjects(list)
    requires list[k].id == ParseHeader(s).id
    ensures var nested := ReadResources(Payload(s), list[k].resources, Put, update);
            ObjectInstanceRecord(s, list, n, Put, update) ==
              if n <= k then Pass(None, list, true)
              else Pass(nested.error, list[k := list[k].(resources := nested.tree)], nested.safe)
    decreases n
  {
    if n > 0 {
      UniqueObject(s, list, n - 1, k, update);
      assert n - 1 != k ==> list[n - 1].id != list[k].id;
    }
  }

  // ------------------------------------------------------------------- overruns

  /** What can follow a resource list inside a payload: nothing, or the next
      object instance. */
  predicate Tail(tail: seq<byte>) { tail == [] || (HasHeader(tail) && StartsWith(tail, ObjectInstance)) }

  lemma EncodeResourcesStep(rs: ResourceList, tail: seq<byte>)
    requires rs != [] && FitsResources(rs)
    ensures FitsResources(rs[1..])
    ensures EncodeResources(rs) + tail == EncodeResource(rs[0]) + (EncodeResources(rs[1..]) + tail)
  {
    assert rs[0] in rs;
    assert (EncodeResource(rs[0]) + EncodeResources(rs[1..])) + tail == EncodeResource(rs[0]) + (EncodeResources(rs[1..]) + tail);
  }

  /** The one record a resource is written as. */
  function ResourceKind(r: ResourceView): Kind { if r.multiple then MultipleResource else Resource }

  function ResourcePayload(r: ResourceView): seq<byte> {
    if r.multiple then EncodeInstances(r.instances) else WireValue(r.dataType, r.value)
  }

  lemma ResourceAtFront(r: ResourceView, rest: seq<byte>)
    requires Fits(r)
    ensures Front(EncodeResource(r) + rest, ResourceKind(r), WireId(r), ResourcePayload(r), rest)
  {
    RecordAtFront(ResourceKind(r), WireId(r), ResourcePayload(r), rest);
  }

  /** A pass over resource instances that has run past its own record meets the
      records of the enclosing list.  It skips multiple resources, payload and
      all, and stops at the first other record: it writes nothing. */
  lemma {:induction false} OverrunWritesNothing(rs: ResourceList, tail: seq<byte>, list: InstanceList, update: bool)
    requires FitsResources(rs) && Tail(tail)
    ensures var s := EncodeResources(rs) + tail;
            var p := ReadInstances(s, list, InsideList, Put, update);
            s != [] ==> p.safe && p.tree == list && p.error != None
    decreases |rs|
  {
    var s := EncodeResources(rs) + tail;
    if rs == [] {
      assert s == tail;
    } else {
      EncodeResourcesStep(rs, tail);
      assert rs[0] in rs;
      ResourceAtFront(rs[0], EncodeResources(rs[1..]) + tail);
      OverrunWritesNothing(rs[1..], tail, list, update);
      OverrunStep(s, ResourceKind(rs[0]), WireId(rs[0]), ResourcePayload(rs[0]), EncodeResources(rs[1..]) + tail, list, update);
    }
  }

  lemma OverrunStep(s: seq<byte>, k: Kind, id: uint16, value: seq<byte>, rest: seq<byte>, list: InstanceList, update: bool)
    requires Front(s, k, id, value, rest) && k != ResourceInstance
    ensures var p := ReadInstances(s, list, InsideList, Put, update);
            p == if k == MultipleResource then
                   if rest == [] then Pass(NotFound, list, true) else ReadInstances(rest, list, InsideList, Put, update)
                 else Pass(NotValid, list, true)
  {
  }

  // ------------------------------------------------------- the three round trips

  lemma InstanceStep(s: seq<byte>, list: InstanceList, k: nat, value: seq<byte>, rest: seq<byte>, context: Context, update: bool)
    requires k < |list| && DistinctInstances(list) && list[k].putAllowed
    requires Front(s, ResourceInstance, list[k].id, value, rest)
    ensures var next := if update then list[k := list[k].(value := value)] else list;
            ReadInstances(s, list, context, Put, update) ==
              if rest == [] then Pass(None, next, true) else ReadInstances(rest, next, context, Put, update)
  {
    SetFirstInstance(list, k, value);
  }

  /** Reading s merges src into dst from position k on; after is what follows
      the instances in s. */
  predicate MergesInstances(s: seq<byte>, src: InstanceList, k: nat, dst: InstanceList, after: seq<byte>,
                            context: Context, update: bool)
    requires |src| == |dst|
  {
    var p := ReadInstances(s, dst, context, Put, update);
    && (p.safe <==> s != [])
    && (p.safe ==> p.tree == if update then MergeInstances(src, dst, k) else dst)
    && (p.safe && after == [] ==> p.error == None)
  }

  lemma {:induction false} InstancesRoundTrip(src: InstanceList, k: nat, dst: InstanceList,
                                              after: seq<byte>, rs: ResourceList, tail: seq<byte>,
                                              context: Context, update: bool)
    requires context == SingleResource ==> after == []
    requires k <= |src| && FitsInstances(src) && ReadyInstances(src, dst)
    requires FitsResources(rs) && Tail(tail) && after == EncodeResources(rs) + tail
    ensures MergesInstances(EncodeInstances(src[k..]) + after, src, k, dst, after, context, update)
    decreases |src| - k
  {
    if k == |src| {
      assert EncodeInstances(src[k..]) + after == after;
      assert MergeInstances(src, dst, k) == dst;
      OverrunWritesNothing(rs, tail, dst, update);
    } else {
      var i := src[k];
      var value := WireValue(i.dataType, i.value);
      var rest := EncodeInstances(src[k + 1..]) + after;
      EncodeInstancesStep(src, k, after);
      RecordAtFront(ResourceInstance, i.id, value, rest);
      var next := if update then dst[k := dst[k].(value := value)] else dst;
      InstancesRoundTrip(src, k + 1, next, after, rs, tail, context, update);
      EmptyInstances(src[k + 1..]);
      MergeOneMore(EncodeInstance(i) + rest, src, k, dst, after, rest, context, update);
    }
  }

  lemma MergeOneMore(s: seq<byte>, src: InstanceList, k: nat, dst: InstanceList, after: seq<byte>, rest: seq<byte>,
                     context: Context, update: bool)
    requires k < |src| && ReadyInstances(src, dst)
    requires rest == [] ==> k + 1 == |src|
    requires Front(s, ResourceInstance, src[k].id, WireValue(src[k].dataType, src[k].value), rest)
    requires var value := WireValue(src[k].dataType, src[k].value);
             MergesInstances(rest, src, k + 1, if update then dst[k := dst[k].(value := value)] else dst, after, context, update)
    ensures MergesInstances(s, src, k, dst, after, context, update)
  {
    var value := WireValue(src[k].dataType, src[k].value);
    InstanceStep(s, dst, k, value, rest, context, update);
    var next := dst[k := dst[k].(value := value)];
    assert MergeInstances(src, next, k + 1) == MergeInstances(src, dst, k);
    assert k + 1 == |src| ==> MergeInstances(src, dst, k) == next;
  }

  lemma EncodeInstancesStep(src: InstanceList, k: nat, after: seq<byte>)
    requires k < |src|
    ensures EncodeInstances(src[k..]) + after == EncodeInstance(src[k]) + (EncodeInstances(src[k + 1..]) + after)
  {
    assert src[k..][0] == src[k] && src[k..][1..] == src[k + 1..];
    var a, b := EncodeInstance(src[k]), EncodeInstances(src[k + 1..]);
    assert (a + b) + after == a + (b + after);
  }

  /** The reader stays inside the buffer exactly when something follows the list
      or the list ends in a resource that puts a readable record last. */
  predicate Readable(list: ResourceList, tail: seq<byte>) {
    tail != [] || (list != [] && (list[|list| - 1].multiple ==> list[|list| - 1].instances != []))
  }

  predicate MergesResources(s: seq<byte>, src: ResourceList, k: nat, dst: ResourceList, tail: seq<byte>, update: bool)
    requires k <= |src| && ReadyResources(src, dst)
  {
    var p := ReadResources(s, dst, Put, update);
    && (p.safe <==> Readable(src[k..], tail))
    && (p.safe ==> p.tree == if update then MergeResources(src, dst, k) else dst)
    && (p.safe ==> p.error == if tail == [] then None else NotValid)
  }

  lemma {:induction false} ResourcesRoundTrip(src: ResourceList, k: nat, dst: ResourceList, tail: seq<byte>, update: bool)
    requires k <= |src| && FitsResources(src) && ReadyResources(src, dst) && Tail(tail)
    ensures MergesResources(EncodeResources(src[k..]) + tail, src, k, dst, tail, update)
    decreases |src| - k
  {
    hide ResourceKind, ResourcePayload, EncodeResource, Fits, Merge, Front;
    if k == |src| {
      assert EncodeResources(src[k..]) + tail == tail;
      assert MergeResources(src, dst, k) == dst;
    } else {
      var r := src[k];
      var later := src[k + 1..];
      assert src[k..][0] == r && src[k..][1..] == later;
      EncodeResourcesStep(src[k..], tail);
      var rest := EncodeResources(later) + tail;
      assert Fits(r) && Ready(r, dst[k]);
      ResourceAtFront(r, rest);
      var s := EncodeResource(r) + rest;
      ResourceStep(s, r, dst, k, rest, later, tail, update);
      EmptyEncoding(later);
      var next := if update then dst[k := Merge(r, dst[k])] else dst;
      MergeKeepsReady(src, k, dst);
      ResourcesRoundTrip(src, k + 1, next, tail, update);
      MergeOneMoreResource(s, src, k, dst, tail, rest, update);
    }
  }

  lemma MergeKeepsReady(src: ResourceList, k: nat, dst: ResourceList)
    requires k < |src| && ReadyResources(src, dst)
    ensures Ready(src[k], dst[k]) && ReadyResources(src, dst[k := Merge(src[k], dst[k])])
  {
    var next := dst[k := Merge(src[k], dst[k])];
    forall j | 0 <= j < |next| ensures Ready(src[j], next[j]) {
      assert Ready(src[j], dst[j]);
    }
  }

  lemma MergeOneMoreResource(s: seq<byte>, src: ResourceList, k: nat, dst: ResourceList, tail: seq<byte>, rest: seq<byte>, update: bool)
    requires k < |src| && ReadyResources(src, dst) && Ready(src[k], dst[k])
    requires rest == [] <==> k + 1 == |src| && tail == []
    requires ReadyResources(src, dst[k := Merge(src[k], dst[k])])
    requires var next := if update then dst[k := Merge(src[k], dst[k])] else dst;
             var p := ReadResources(s, dst, Put, update);
             if rest == [] then
               if src[k].multiple && src[k].instances == [] then !p.safe else p == Pass(None, next, true)
             else p == ReadResources(rest, next, Put, update) && MergesResources(rest, src, k + 1, next, tail, update)
    ensures MergesResources(s, src, k, dst, tail, update)
  {
    hide ReadResources, Merge;
    var next := dst[k := Merge(src[k], dst[k])];
    assert MergeResources(src, next, k + 1) == MergeResources(src, dst, k);
    assert k + 1 == |src| ==> MergeResources(src, dst, k) == next;
    assert k + 1 < |src| ==> src[k + 1..][|src| - k - 2] == src[k..][|src| - k - 1];
  }

  lemma EmptyEncoding(list: ResourceList)
    ensures EncodeResources(list) == [] <==> list == []
  {
  }

  /** One resource's record in front of the rest of the payload. */
  lemma ResourceStep(s: seq<byte>, r: ResourceView, dst: ResourceList, k: nat, rest: seq<byte>,
                     later: ResourceList, tail: seq<byte>, update: bool)
    requires k < |dst| && DistinctResources(dst) && Fits(r) && Ready(r, dst[k])
    requires FitsResources(later) && Tail(tail) && rest == EncodeResources(later) + tail
    requires Front(s, ResourceKind(r), r.nameId, ResourcePayload(r), rest)
    ensures var p := ReadResources(s, dst, Put, update);
            var next := if update then dst[k := Merge(r, dst[k])] else dst;
            if rest == [] then
              if r.multiple && r.instances == [] then !p.safe else p == Pass(None, next, true)
            else p == ReadResources(rest, next, Put, update)
  {
    var d := dst[k];
    if r.multiple {
      UniqueMultiple(s, dst, |dst|, k, update);
      assert r.instances[0..] == r.instances;
      InstancesRoundTrip(r.instances, 0, d.instances, rest, later, tail, InsideList, update);
      assert dst[k := d.(instances := d.instances)] == dst;
      EmptyInstances(r.instances);
    } else {
      SetFirstResource(dst, k, ResourcePayload(r));
      UniqueIsAllowed(dst, k);
    }
  }

  lemma EmptyInstances(list: InstanceList)
    ensures EncodeInstances(list) == [] <==> list == []
  {
  }

  lemma UniqueIsAllowed(list: ResourceList, k: nat)
    requires k < |list| && DistinctResources(list) && list[k].putAllowed && IsNumeric(list[k])
    ensures HasResource(list, list[k].nameId) && !ResourceForbidden(list, list[k].nameId)
  {
  }

  /** The last object instance that is written at all ends readably. */
  predicate ReadableObjects(src: ObjectInstanceList)
    decreases |src|
  {
    && src != []
    && var rest := EncodeObjectInstances(src[1..]);
       if AllNumbered(src[0].resources) && rest == [] then Readable(src[0].resources, [])
       else ReadableObjects(src[1..])
  }

  lemma EncodeObjectsStep(src: ObjectInstanceList, k: nat)
    requires k < |src|
    ensures EncodeObjectInstances(src[k..]) == EncodeObjectInstance(src[k]) + EncodeObjectInstances(src[k + 1..])
    ensures !AllNumbered(src[k].resources) ==> EncodeObjectInstances(src[k..]) == EncodeObjectInstances(src[k + 1..])
    ensures ReadableObjects(src[k..]) <==>
              if AllNumbered(src[k].resources) && EncodeObjectInstances(src[k + 1..]) == [] then Readable(src[k].resources, [])
              else ReadableObjects(src[k + 1..])
  {
    assert src[k..][0] == src[k] && src[k..][1..] == src[k + 1..];
  }

  lemma {:induction false} ObjectEncodingIsTail(src: ObjectInstanceList, k: nat)
    requires k <= |src| && FitsObjects(src)
    ensures Tail(EncodeObjectInstances(src[k..]))
    decreases |src| - k
  {
    if k < |src| {
      EncodeObjectsStep(src, k);
      ObjectEncodingIsTail(src, k + 1);
      var i := src[k];
      assert FitsObject(i);
      if AllNumbered(i.resources) {
        RecordAtFront(ObjectInstance, i.id, EncodeResources(i.resources), EncodeObjectInstances(src[k + 1..]));
      }
    }
  }

  lemma ObjectStep(s: seq<byte>, i: ObjectInstanceView, dst: ObjectInstanceList, k: nat, rest: seq<byte>, update: bool)
    requires k < |dst| && DistinctObjects(dst) && dst[k].id == i.id
    requires AllNumbered(i.resources) && FitsResources(i.resources) && ReadyResources(i.resources, dst[k].resources)
    requires Tail(rest)
    requires Front(s, ObjectInstance, i.id, EncodeResources(i.resources), rest)
    ensures var p := ReadObjectInstances(s, dst, Put, update);
            var next := if update then dst[k := MergeObject(i, dst[k])] else dst;
            if rest == [] then
              if Readable(i.resources, []) then p == Pass(None, next, true) else !p.safe
            else p == ReadObjectInstances(rest, next, Put, update)
  {
    UniqueObject(s, dst, |dst|, k, update);
    assert i.resources[0..] == i.resources;
    ResourcesRoundTrip(i.resources, 0, dst[k].resources, rest, update);
    assert dst[k := dst[k].(resources := dst[k].resources)] == dst;
  }

  predicate MergesObjects(s: seq<byte>, src: ObjectInstanceList, k: nat, dst: ObjectInstanceList, update: bool)
    requires k <= |src| && ReadyObjects(src, dst)
  {
    var p := ReadObjectInstances(s, dst, Put, update);
    && (p.safe <==> ReadableObjects(src[k..]))
    && (p.safe ==> p.error == None && p.tree == if update then MergeObjects(src, dst, k) else dst)
  }

  /** The whole object, from position k on. */
  lemma {:induction false} ObjectsRoundTrip(src: ObjectInstanceList, k: nat, dst: ObjectInstanceList, update: bool)
    requires k <= |src| && FitsObjects(src) && ReadyObjects(src, dst)
    ensures MergesObjects(EncodeObjectInstances(src[k..]), src, k, dst, update)
    decreases |src| - k
  {
    var s := EncodeObjectInstances(src[k..]);
    if k < |src| {
      var i, d := src[k], dst[k];
      var rest := EncodeObjectInstances(src[k + 1..]);
      EncodeObjectsStep(src, k);
      assert FitsObject(i) && d.id == i.id;
      if !AllNumbered(i.resources) {
        ObjectsRoundTrip(src, k + 1, dst, update);
        assert MergeObjects(src, dst, k + 1) == MergeObjects(src, dst, k);
      } else {
        ObjectEncodingIsTail(src, k + 1);
        RecordAtFront(ObjectInstance, i.id, EncodeResources(i.resources), rest);
        ObjectStep(s, i, dst, k, rest, update);
        NextIsReady(src, k, dst);
        ObjectsRoundTrip(src, k + 1, if update then dst[k := MergeObject(i, d)] else dst, update);
        MergeOneMoreObject(s, src, k, dst, rest, update);
      }
    }
  }

  lemma MergeOneMoreObject(s: seq<byte>, src: ObjectInstanceList, k: nat, dst: ObjectInstanceList, rest: seq<byte>, update: bool)
    requires k < |src| && ReadyObjects(src, dst) && AllNumbered(src[k].resources)
    requires rest == EncodeObjectInstances(src[k + 1..])
    requires ReadyObjects(src, dst[k := MergeObject(src[k], dst[k])])
    requires var next := if update then dst[k := MergeObject(src[k], dst[k])] else dst;
             var p := ReadObjectInstances(s, dst, Put, update);
             if rest == [] then
               if Readable(src[k].resources, []) then p == Pass(None, next, true) else !p.safe
             else p == ReadObjectInstances(rest, next, Put, update) && MergesObjects(rest, src, k + 1, next, update)
    ensures MergesObjects(s, src, k, dst, update)
  {
    EncodeObjectsStep(src, k);
    var next := dst[k := MergeObject(src[k], dst[k])];
    assert MergeObjects(src, next, k + 1) == MergeObjects(src, dst, k);
    if rest == [] {
      NothingEmitted(src, k + 1, dst);
      assert MergeObjects(src, dst, k) == next;
    }
  }

  lemma NextIsReady(src: ObjectInstanceList, k: nat, dst: ObjectInstanceList)
    requires k < |src| && ReadyObjects(src, dst) && AllNumbered(src[k].resources)
    ensures ReadyObjects(src, dst[k := MergeObject(src[k], dst[k])])
  {
  }

  lemma {:induction false} NothingEmitted(src: ObjectInstanceList, k: nat, dst: ObjectInstanceList)
    requires k <= |src| && ReadyObjects(src, dst)
    requires EncodeObjectInstances(src[k..]) == []
    ensures forall i :: k <= i < |src| ==> !AllNumbered(src[i].resources)
    decreases |src| - k
  {
    if k < |src| {
      EncodeObjectsStep(src, k);
      NothingEmitted(src, k + 1, dst);
    }
  }
}
