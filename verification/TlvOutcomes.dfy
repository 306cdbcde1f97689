/** What the public calls report under Put, and when they write: at every level the
    outcome of one record decides, that of the record where reading stops. */
module TlvOutcomes {
  import opened CommonTypes
  import opened TlvHeader
  import opened ObjectModel
  import opened TlvSemantics
  import opened TlvPasses
  import opened TlvRoundTrip

  // -------------------------------------------------------- resource instances

  /** Where reading resource instances stops: at the last record, or at the first one
      that is not accepted. */
  function InstancesStopAt(s: seq<byte>, context: Context): (t: seq<byte>)
    ensures |t| <= |s|
  {
    if !HasHeader(s) || !AcceptsInstanceRecord(ParseHeader(s).kind, context) || IsLast(s) then s
    else InstancesStopAt(Rest(s), context)
  }

  function InstancesOutcome(t: seq<byte>, list: InstanceList, context: Context, update: bool): Error
    requires HasHeader(t)
  {
    if !AcceptsInstanceRecord(ParseHeader(t).kind, context) then NotValid
    else InstanceRecord(t, list, context, Put, update).error
  }

  lemma {:induction false} InstancesErrorIsTheLastOutcome(s: seq<byte>, list: InstanceList, context: Context, update: bool)
    requires ReadInstances(s, list, context, Put, update).safe
    ensures HasHeader(InstancesStopAt(s, context))
    ensures ReadInstances(s, list, context, Put, update).error ==
            InstancesOutcome(InstancesStopAt(s, context), list, context, update)
    decreases |s|
  {
    if AcceptsInstanceRecord(ParseHeader(s).kind, context) && !IsLast(s) {
      var here := InstanceRecord(s, list, context, Put, update);
      if HasValue(s) {
        SetInstanceKeepsShape(list, ParseHeader(s).id, Value(s));
      }
      InstancesErrorIsTheLastOutcome(Rest(s), here.tree, context, update);
      InstanceQueriesByShape(list, here.tree, ParseHeader(InstancesStopAt(s, context)).id);
    }
  }

  /** A pass that succeeds dry succeeds again. */
  lemma InstancesSucceedTwice(s: seq<byte>, list: InstanceList, context: Context)
    requires ReadInstances(s, list, context, Put, false).safe && ReadInstances(s, list, context, Put, true).safe
    requires ReadInstances(s, list, context, Put, false).error == None
    ensures ReadInstances(s, list, context, Put, true).error == None
  {
    InstancesErrorIsTheLastOutcome(s, list, context, false);
    InstancesErrorIsTheLastOutcome(s, list, context, true);
    hide ReadInstances;
  }

  /** The public call on the instances of one resource reports exactly the dry-run outcome
      of the record where reading stops, and writes exactly if that is no error. */
  lemma InstancesCallOutcome(s: seq<byte>, list: InstanceList)
    requires StartsWith(s, MultipleResource) && PutResourceInstances(s, list, Put).safe
    ensures var nested := s[HeaderSize(s[0])..];
            var call := PutResourceInstances(s, list, Put);
            && HasHeader(InstancesStopAt(nested, SingleResource))
            && call.error == InstancesOutcome(InstancesStopAt(nested, SingleResource), list, SingleResource, false)
            && call.tree == if call.error == None then ReadInstances(nested, list, SingleResource, Put, true).tree else list
  {
    hide ReadInstances;
    var nested := s[HeaderSize(s[0])..];
    DryRunInstances(nested, list, SingleResource, Put);
    InstancesErrorIsTheLastOutcome(nested, list, SingleResource, false);
    if ReadInstances(nested, list, SingleResource, Put, false).error == None {
      InstancesSucceedTwice(nested, list, SingleResource);
    }
  }

  // ----------------------------------------------------------------- resources

  lemma {:induction false} MultipleSucceedsTwice(s: seq<byte>, list: ResourceList, n: nat)
    requires HasHeader(s) && n <= |list|
    requires MultipleRecord(s, list, n, Put, false).safe && MultipleRecord(s, list, n, Put, true).safe
    requires MultipleRecord(s, list, n, Put, false).error == None
    ensures MultipleRecord(s, list, n, Put, true).error == None
    decreases n
  {
    hide ReadInstances;
    if n > 0 {
      if TakesInstances(list[n - 1], ParseHeader(s).id) {
        InstancesSucceedTwice(Payload(s), list[n - 1].instances, InsideList);
      } else {
        MultipleSucceedsTwice(s, list, n - 1);
      }
    }
  }

  lemma ResourcesSucceedTwice(s: seq<byte>, list: ResourceList)
    requires ReadResources(s, list, Put, false).safe && ReadResources(s, list, Put, true).safe
    requires ReadResources(s, list, Put, false).error == None
    ensures ReadResources(s, list, Put, true).error == None
  {
    hide MultipleRecord, ReadResources;
    ErrorIsTheLastOutcome(s, list, false);
    ErrorIsTheLastOutcome(s, list, true);
    var t := StopsAt(s);
    if ParseHeader(t).kind == MultipleResource {
      MultipleSucceedsTwice(t, list, |list|);
    }
  }

  /** The public call on a resource list reports exactly the dry-run outcome of the record
      where reading stops, whatever the records before it were refused for, and applies the
      whole payload exactly if that is no error. */
  lemma ResourcesCallOutcome(s: seq<byte>, list: ResourceList)
    requires (StartsWith(s, Resource) || StartsWith(s, MultipleResource)) && PutResources(s, list, Put).safe
    ensures var call := PutResources(s, list, Put);
            && HasHeader(StopsAt(s))
            && call.error == Outcome(StopsAt(s), list, false)
            && call.tree == if call.error == None then ReadResources(s, list, Put, true).tree else list
  {
    hide ReadResources, Outcome;
    DryRunResources(s, list, Put);
    ErrorIsTheLastOutcome(s, list, false);
    if ReadResources(s, list, Put, false).error == None {
      ResourcesSucceedTwice(s, list);
    }
  }

  // ---------------------------------------------------------- object instances

  lemma {:induction false} ResourcesByShape(s: seq<byte>, a: ResourceList, b: ResourceList, update: bool)
    requires SameResources(a, b)
    ensures var p, q := ReadResources(s, a, Put, update), ReadResources(s, b, Put, update);
            p.error == q.error && p.safe == q.safe && SameResources(a, p.tree)
    decreases |s|
  {
    hide AnyResourceRecord, SameResource;
    SameResourcesReflexive(a);
    if HasHeader(s) && ParseHeader(s).kind != ObjectInstance {
      AnyRecordByShape(s, a, b, update);
      var p, q := AnyResourceRecord(s, a, Put, update), AnyResourceRecord(s, b, Put, update);
      if !IsLast(s) && p.safe {
        ResourcesByShape(Rest(s), p.tree, q.tree, update);
        SameResourcesTwice(a, p.tree, ReadResources(Rest(s), p.tree, Put, update).tree);
      }
    }
  }

  lemma SameResourcesTwice(a: ResourceList, b: ResourceList, c: ResourceList)
    requires SameResources(a, b) && SameResources(b, c)
    ensures SameResources(a, c)
  {
    forall k | 0 <= k < |a| ensures SameResource(a[k], c[k]) {
      assert SameResource(a[k], b[k]) && SameResource(b[k], c[k]);
    }
  }

  predicate SameObjects(a: ObjectInstanceList, b: ObjectInstanceList) {
    |a| == |b| && forall k :: 0 <= k < |a| ==> a[k].id == b[k].id && SameResources(a[k].resources, b[k].resources)
  }

  lemma {:induction false} ObjectRecordByShape(s: seq<byte>, a: ObjectInstanceList, b: ObjectInstanceList, n: nat, update: bool)
    requires HasHeader(s) && n <= |a| && SameObjects(a, b)
    ensures var p, q := ObjectInstanceRecord(s, a, n, Put, update), ObjectInstanceRecord(s, b, n, Put, update);
            p.error == q.error && p.safe == q.safe && SameObjects(a, p.tree)
    decreases n
  {
    hide ReadResources, SameResources;
    if n == 0 {
      forall k | 0 <= k < |a| ensures SameResources(a[k].resources, a[k].resources) {
        SameResourcesReflexive(a[k].resources);
      }
    } else {
      ObjectRecordByShape(s, a, b, n - 1, update);
      ResourcesByShape(Payload(s), a[n - 1].resources, b[n - 1].resources, update);
    }
  }

  /** Where reading an object stops: at the last record, or at the first one that is no
      object instance. */
  function ObjectsStopAt(s: seq<byte>): (t: seq<byte>)
    ensures |t| <= |s|
  {
    if !HasHeader(s) || ParseHeader(s).kind != ObjectInstance || IsLast(s) then s else ObjectsStopAt(Rest(s))
  }

  /** A record of another kind is no error at this level. */
  function ObjectsOutcome(t: seq<byte>, list: ObjectInstanceList, update: bool): Error
    requires HasHeader(t)
  {
    if ParseHeader(t).kind != ObjectInstance then None else ObjectInstanceRecord(t, list, |list|, Put, update).error
  }

  lemma {:induction false} ObjectsErrorIsTheLastOutcome(s: seq<byte>, list: ObjectInstanceList, update: bool)
    requires ReadObjectInstances(s, list, Put, update).safe
    ensures HasHeader(ObjectsStopAt(s))
    ensures var t := ObjectsStopAt(s);
            && ReadObjectInstances(s, list, Put, update).error == ObjectsOutcome(t, list, update)
            && (ParseHeader(t).kind == ObjectInstance ==> ObjectInstanceRecord(t, list, |list|, Put, update).safe)
    decreases |s|
  {
    hide ObjectInstanceRecord, SameObjects;
    if ParseHeader(s).kind == ObjectInstance && !IsLast(s) {
      var here := ObjectInstanceRecord(s, list, |list|, Put, update);
      SameObjectsReflexive(list);
      ObjectRecordByShape(s, list, list, |list|, update);
      ObjectsErrorIsTheLastOutcome(Rest(s), here.tree, update);
      ObjectRecordByShape(ObjectsStopAt(s), list, here.tree, |list|, update);
    }
  }

  lemma SameObjectsReflexive(a: ObjectInstanceList)
    ensures SameObjects(a, a)
  {
    forall k | 0 <= k < |a| ensures SameResources(a[k].resources, a[k].resources) {
      SameResourcesReflexive(a[k].resources);
    }
  }

  lemma {:induction false} ObjectRecordSucceedsTwice(s: seq<byte>, list: ObjectInstanceList, n: nat)
    requires HasHeader(s) && n <= |list|
    requires ObjectInstanceRecord(s, list, n, Put, false).safe && ObjectInstanceRecord(s, list, n, Put, true).safe
    requires ObjectInstanceRecord(s, list, n, Put, false).error == None
    ensures ObjectInstanceRecord(s, list, n, Put, true).error == None
    decreases n
  {
    hide ReadResources;
    if n > 0 {
      if list[n - 1].id == ParseHeader(s).id {
        ResourcesSucceedTwice(Payload(s), list[n - 1].resources);
      } else {
        ObjectRecordSucceedsTwice(s, list, n - 1);
      }
    }
  }

  /** The public call on an object reports exactly the dry-run outcome of the record where
      reading stops, and applies the whole payload exactly if that is no error.  So a refused
      object instance followed by a record of another kind is reported as a success. */
  lemma ObjectsCallOutcome(s: seq<byte>, list: ObjectInstanceList)
    requires StartsWith(s, ObjectInstance) && PutObjectInstances(s, list, Put).safe
    ensures var call := PutObjectInstances(s, list, Put);
            && HasHeader(ObjectsStopAt(s))
            && call.error == ObjectsOutcome(ObjectsStopAt(s), list, false)
            && call.tree == if call.error == None then ReadObjectInstances(s, list, Put, true).tree else list
  {
    hide ReadObjectInstances, ObjectInstanceRecord;
    DryRunObjectInstances(s, list, Put);
    ObjectsErrorIsTheLastOutcome(s, list, false);
    if ReadObjectInstances(s, list, Put, false).error == None {
      ObjectsErrorIsTheLastOutcome(s, list, true);
      var t := ObjectsStopAt(s);
      if ParseHeader(t).kind == ObjectInstance {
        ObjectRecordSucceedsTwice(t, list, |list|);
      }
    }
  }

  // ------------------------------------------------------------------ refusals

  /** A refusal is lost whenever the record where reading stops is accepted: for any list
      and any further payload, the refused value is written and the rest applied on top. */
  lemma EarlierRefusalIsLost(list: ResourceList, k: nat, v: seq<byte>, rest: seq<byte>)
    requires k < |list| && IsNumeric(list[k]) && !list[k].putAllowed && |v| < LENGTH_LIMIT
    requires forall j :: 0 <= j < k ==> list[j].nameId != list[k].nameId
    requires rest != [] && HasHeader(StopsAt(rest)) && Outcome(StopsAt(rest), list, false) == None
    ensures var s := Record(Resource, list[k].nameId, v) + rest;
            var call := PutResources(s, list, Put);
            && HasHeader(s) && ResourceRecord(s, list, Put, false).error == NotAllowed
            && (call.safe ==>
                  && call.error == None
                  && call.tree == ReadResources(rest, list[k := list[k].(value := v)], Put, true).tree)
  {
    hide Outcome, ReadResources;
    var s := Record(Resource, list[k].nameId, v) + rest;
    RecordAtFront(Resource, list[k].nameId, v, rest);
    SetFirstResource(list, k, v);
    assert HasResource(list, list[k].nameId) && ResourceForbidden(list, list[k].nameId);
    if PutResources(s, list, Put).safe {
      assert StopsAt(s) == StopsAt(rest);
      ResourcesCallOutcome(s, list);
      OneMoreRecord(s, list);
    }
  }

  lemma OneMoreRecord(s: seq<byte>, list: ResourceList)
    requires HasHeader(s) && ParseHeader(s).kind == Resource && !IsLast(s) && ResourceRecord(s, list, Put, true).safe
    ensures ReadResources(s, list, Put, true) == ReadResources(Rest(s), ResourceRecord(s, list, Put, true).tree, Put, true)
  {
  }
}
