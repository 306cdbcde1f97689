/** What every pass over a TLV payload keeps: the dry run's frame, failure
    atomicity of the public calls, and which record's outcome is reported. */
module TlvPasses {
  import opened CommonTypes
  import opened TlvHeader
  import opened ObjectModel
  import opened TlvSemantics

  // ------------------------------------------------------------------ dry run

  /** Nothing but new resources and new resource instances at the list ends. */
  predicate OnlyGrown(before: ResourceList, after: ResourceList) {
    && |before| <= |after|
    && forall k :: 0 <= k < |before| ==>
         && after[k].(instances := []) == before[k].(instances := [])
         && before[k].instances <= after[k].instances
  }

  predicate ObjectsOnlyGrown(before: ObjectInstanceList, after: ObjectInstanceList) {
    && |before| == |after|
    && forall k :: 0 <= k < |before| ==>
         before[k].id == after[k].id && OnlyGrown(before[k].resources, after[k].resources)
  }

  lemma {:induction false} DryRunInstances(s: seq<byte>, list: InstanceList, context: Context, op: Operation)
    ensures list <= ReadInstances(s, list, context, op, false).tree
    ensures op == Put || context == SingleResource ==> ReadInstances(s, list, context, op, false).tree == list
    decreases |s|
  {
    if HasHeader(s) && AcceptsInstanceRecord(ParseHeader(s).kind, context) {
      var here := InstanceRecord(s, list, context, op, false);
      if !IsLast(s) {
        DryRunInstances(Rest(s), here.tree, context, op);
      }
    }
  }

  lemma {:induction false} DryRunMultiple(s: seq<byte>, list: ResourceList, n: nat, op: Operation)
    requires HasHeader(s) && n <= |list|
    ensures OnlyGrown(list, MultipleRecord(s, list, n, op, false).tree)
    ensures op == Put ==> MultipleRecord(s, list, n, op, false).tree == list
    decreases n
  {
    if n > 0 {
      DryRunMultiple(s, list, n - 1, op);
      DryRunInstances(Payload(s), list[n - 1].instances, InsideList, op);
    }
  }

  /** The dry run over a resource list writes no value at any level; under Put
      it leaves the whole list as it was. */
  lemma {:induction false} DryRunResources(s: seq<byte>, list: ResourceList, op: Operation)
    ensures OnlyGrown(list, ReadResources(s, list, op, false).tree)
    ensures op == Put ==> ReadResources(s, list, op, false).tree == list
    decreases |s|
  {
    if HasHeader(s) && ParseHeader(s).kind != ObjectInstance {
      var here := AnyResourceRecord(s, list, op, false);
      DryRunMultiple(s, list, |list|, op);
      if !IsLast(s) && here.safe {
        DryRunResources(Rest(s), here.tree, op);
        GrownTwice(list, here.tree, ReadResources(Rest(s), here.tree, op, false).tree);
      }
    }
  }

  lemma GrownTwice(a: ResourceList, b: ResourceList, c: ResourceList)
    requires OnlyGrown(a, b) && OnlyGrown(b, c)
    ensures OnlyGrown(a, c)
  {
    forall k | 0 <= k < |a|
      ensures c[k].(instances := []) == a[k].(instances := []) && a[k].instances <= c[k].instances
    {
      assert b[k].(instances := []) == a[k].(instances := []);
    }
  }

  lemma {:induction false} DryRunObjectRecord(s: seq<byte>, list: ObjectInstanceList, n: nat, op: Operation)
    requires HasHeader(s) && n <= |list|
    ensures ObjectsOnlyGrown(list, ObjectInstanceRecord(s, list, n, op, false).tree)
    ensures op == Put ==> ObjectInstanceRecord(s, list, n, op, false).tree == list
    decreases n
  {
    if n > 0 {
      DryRunObjectRecord(s, list, n - 1, op);
      DryRunResources(Payload(s), list[n - 1].resources, op);
    }
  }

  /** The dry run over a whole object, through all three levels below it. */
  lemma {:induction false} DryRunObjectInstances(s: seq<byte>, list: ObjectInstanceList, op: Operation)
    ensures ObjectsOnlyGrown(list, ReadObjectInstances(s, list, op, false).tree)
    ensures op == Put ==> ReadObjectInstances(s, list, op, false).tree == list
    decreases |s|
  {
    if HasHeader(s) && ParseHeader(s).kind == ObjectInstance {
      var here := ObjectInstanceRecord(s, list, |list|, op, false);
      DryRunObjectRecord(s, list, |list|, op);
      if !IsLast(s) && here.safe {
        DryRunObjectInstances(Rest(s), here.tree, op);
        forall k | 0 <= k < |list|
          ensures OnlyGrown(list[k].resources, ReadObjectInstances(Rest(s), here.tree, op, false).tree[k].resources)
        {
          GrownTwice(list[k].resources, here.tree[k].resources,
                     ReadObjectInstances(Rest(s), here.tree, op, false).tree[k].resources);
        }
      }
    }
  }

  /** Failure atomicity of the three public calls: when the first pass reports an
      error, so does the call, and no value of the tree has changed; under Put
      the tree is untouched. */
  lemma FailureIsAtomic(s: seq<byte>, objects: ObjectInstanceList, resources: ResourceList, instances: InstanceList, op: Operation)
    ensures var first := ReadObjectInstances(s, objects, op, false);
            var call := PutObjectInstances(s, objects, op);
            StartsWith(s, ObjectInstance) && first.error != None ==>
              && call.error == first.error
              && ObjectsOnlyGrown(objects, call.tree) && (op == Put ==> call.tree == objects)
    ensures var first := ReadResources(s, resources, op, false);
            var call := PutResources(s, resources, op);
            (StartsWith(s, Resource) || StartsWith(s, MultipleResource)) && first.error != None ==>
              && call.error == first.error
              && OnlyGrown(resources, call.tree) && (op == Put ==> call.tree == resources)
    ensures var call := PutResourceInstances(s, instances, op);
            StartsWith(s, MultipleResource) && HeaderSize(s[0]) <= |s| ==>
              var first := ReadInstances(s[HeaderSize(s[0])..], instances, SingleResource, op, false);
              first.error != None ==> call.error == first.error && call.tree == instances
  {
    DryRunObjectInstances(s, objects, op);
    DryRunResources(s, resources, op);
    if StartsWith(s, MultipleResource) && HeaderSize(s[0]) <= |s| {
      DryRunInstances(s[HeaderSize(s[0])..], instances, SingleResource, op);
    }
  }

  // -------------------------------------------------------------------- shape

  /** Equal up to the values. */
  predicate SameInstances(a: InstanceList, b: InstanceList) {
    |a| == |b| && forall k :: 0 <= k < |a| ==> a[k].(value := []) == b[k].(value := [])
  }

  predicate SameResource(a: ResourceView, b: ResourceView) {
    && a.(value := [], instances := []) == b.(value := [], instances := [])
    && SameInstances(a.instances, b.instances)
  }

  predicate SameResources(a: ResourceList, b: ResourceList) {
    |a| == |b| && forall k :: 0 <= k < |a| ==> SameResource(a[k], b[k])
  }

  lemma {:induction false} SetInstanceKeepsShape(list: InstanceList, id: uint16, value: seq<byte>)
    ensures SameInstances(list, SetInstance(list, id, value))
  {
    if list != [] { SetInstanceKeepsShape(list[1..], id, value); }
  }

  lemma {:induction false} SetResourceKeepsShape(list: ResourceList, id: uint16, value: seq<byte>)
    ensures SameResources(list, SetResource(list, id, value))
  {
    if list != [] { SetResourceKeepsShape(list[1..], id, value); }
  }

  lemma InstanceQueriesByShape(a: InstanceList, b: InstanceList, id: uint16)
    requires SameInstances(a, b)
    ensures HasInstance(a, id) == HasInstance(b, id)
    ensures InstanceForbidden(a, id) == InstanceForbidden(b, id)
  {
    assert forall k :: 0 <= k < |a| ==> a[k].id == b[k].id && a[k].putAllowed == b[k].putAllowed by {
      forall k | 0 <= k < |a| ensures a[k].id == b[k].id && a[k].putAllowed == b[k].putAllowed {
        assert a[k].(value := []) == b[k].(value := []);
      }
    }
  }

  lemma ResourceQueriesByShape(a: ResourceList, b: ResourceList, id: uint16)
    requires SameResources(a, b)
    ensures HasResource(a, id) == HasResource(b, id)
    ensures ResourceForbidden(a, id) == ResourceForbidden(b, id)
  {
    assert forall k :: 0 <= k < |a| ==> a[k].nameId == b[k].nameId && a[k].putAllowed == b[k].putAllowed by {
      forall k | 0 <= k < |a| ensures a[k].nameId == b[k].nameId && a[k].putAllowed == b[k].putAllowed {
        assert SameResource(a[k], b[k]);
      }
    }
  }

  /** Under Put, a pass changes values only, and neither its error nor its reads
      depend on the values it started from. */
  lemma {:induction false} InstancesByShape(s: seq<byte>, a: InstanceList, b: InstanceList, context: Context, update: bool)
    requires SameInstances(a, b)
    ensures var p, q := ReadInstances(s, a, context, Put, update), ReadInstances(s, b, context, Put, update);
            p.error == q.error && p.safe == q.safe && SameInstances(a, p.tree) && SameInstances(p.tree, q.tree)
    decreases |s|
  {
    if HasHeader(s) && AcceptsInstanceRecord(ParseHeader(s).kind, context) {
      var id := ParseHeader(s).id;
      InstanceQueriesByShape(a, b, id);
      var p, q := InstanceRecord(s, a, context, Put, update), InstanceRecord(s, b, context, Put, update);
      if HasValue(s) {
        SetInstanceKeepsShape(a, id, Value(s));
        SetInstanceKeepsShape(b, id, Value(s));
      }
      if !IsLast(s) && p.safe {
        InstancesByShape(Rest(s), p.tree, q.tree, context, update);
      }
    }
  }

  lemma {:induction false} MultipleByShape(s: seq<byte>, a: ResourceList, b: ResourceList, n: nat, update: bool)
    requires HasHeader(s) && n <= |a|
    requires SameResources(a, b)
    ensures var p, q := MultipleRecord(s, a, n, Put, update), MultipleRecord(s, b, n, Put, update);
            p.error == q.error && p.safe == q.safe && SameResources(a, p.tree) && SameResources(p.tree, q.tree)
    decreases n
  {
    hide ReadInstances;
    if n > 0 {
      MultipleByShape(s, a, b, n - 1, update);
      assert SameResource(a[n - 1], b[n - 1]);
      InstancesByShape(Payload(s), a[n - 1].instances, b[n - 1].instances, InsideList, update);
    }
  }

  lemma AnyRecordByShape(s: seq<byte>, a: ResourceList, b: ResourceList, update: bool)
    requires HasHeader(s)
    requires SameResources(a, b)
    ensures var p, q := AnyResourceRecord(s, a, Put, update), AnyResourceRecord(s, b, Put, update);
            p.error == q.error && p.safe == q.safe && SameResources(a, p.tree) && SameResources(p.tree, q.tree)
  {
    if ParseHeader(s).kind == MultipleResource {
      MultipleByShape(s, a, b, |a|, update);
    } else {
      SingleByShape(s, a, b, update);
    }
  }

  lemma SingleByShape(s: seq<byte>, a: ResourceList, b: ResourceList, update: bool)
    requires HasHeader(s)
    requires SameResources(a, b)
    ensures var p, q := ResourceRecord(s, a, Put, update), ResourceRecord(s, b, Put, update);
            p.error == q.error && p.safe == q.safe && SameResources(a, p.tree) && SameResources(p.tree, q.tree)
  {
    var id := ParseHeader(s).id;
    ResourceQueriesByShape(a, b, id);
    SameResourcesReflexive(a);
    if HasValue(s) {
      SetResourceKeepsShape(a, id, Value(s));
      SetResourceKeepsShape(b, id, Value(s));
      SameResourcesJoin(a, b, SetResource(a, id, Value(s)), SetResource(b, id, Value(s)));
    }
  }

  lemma SameResourcesReflexive(a: ResourceList)
    ensures SameResources(a, a)
  {
  }

  lemma SameResourcesJoin(a: ResourceList, b: ResourceList, c: ResourceList, d: ResourceList)
    requires SameResources(a, b) && SameResources(a, c) && SameResources(b, d)
    ensures SameResources(c, d)
  {
    forall k | 0 <= k < |c| ensures SameResource(c[k], d[k]) {
      assert SameResource(a[k], b[k]) && SameResource(a[k], c[k]) && SameResource(b[k], d[k]);
    }
  }

  // -------------------------------------------------- whose error is reported

  /** Where reading a resource list stops: at the last record, or at the first
      one of object-instance kind. */
  function StopsAt(s: seq<byte>): (t: seq<byte>)
    ensures |t| <= |s|
  {
    if !HasHeader(s) || ParseHeader(s).kind == ObjectInstance || IsLast(s) then s else StopsAt(Rest(s))
  }

  function Outcome(t: seq<byte>, list: ResourceList, update: bool): Error
    requires HasHeader(t)
  {
    if ParseHeader(t).kind == ObjectInstance then NotValid else AnyResourceRecord(t, list, Put, update).error
  }

  /** The error a pass reports under Put is exactly the outcome of the record it
      stops at: the outcomes of all earlier records are overwritten. */
  lemma {:induction false} ErrorIsTheLastOutcome(s: seq<byte>, list: ResourceList, update: bool)
    requires ReadResources(s, list, Put, update).safe
    ensures HasHeader(StopsAt(s))
    ensures ReadResources(s, list, Put, update).error == Outcome(StopsAt(s), list, update)
    ensures var t := StopsAt(s);
            ParseHeader(t).kind != ObjectInstance ==> AnyResourceRecord(t, list, Put, update).safe
    decreases |s|
  {
    if ParseHeader(s).kind != ObjectInstance && !IsLast(s) {
      var here := AnyResourceRecord(s, list, Put, update);
      AnyRecordByShape(s, list, list, update);
      ErrorIsTheLastOutcome(Rest(s), here.tree, update);
      var t := StopsAt(s);
      AnyRecordByShape(t, list, here.tree, update);
    }
  }
}
