/** The object tree as the client keeps it: objects in the heap whose values and
    lists are updated in place.  View gives the abstract value of a node, Repr the
    objects it is made of. */
module ObjectTree {
  import opened CommonTypes
  import opened TlvHeader
  import opened ObjectModel

  class M2MResourceInstance {
    const id: uint16
    const dataType: DataType
    var putAllowed: bool
    var value: seq<byte>

    constructor (id: uint16, dataType: DataType, putAllowed: bool, value: seq<byte>)
      ensures View() == ResourceInstanceView(id, dataType, putAllowed, value)
    {
      this.id, this.dataType, this.putAllowed, this.value := id, dataType, putAllowed, value;
    }

    ghost function View(): ResourceInstanceView
      reads this
    {
      ResourceInstanceView(id, dataType, putAllowed, value)
    }

    /** set_value for a value that has bytes, clear_value otherwise. */
    method Update(bytes: seq<byte>)
      modifies this
      ensures View() == old(View()).(value := bytes)
    {
      value := bytes;
    }
  }

  class M2MResource {
    const nameId: int
    const multiple: bool
    const dataType: DataType
    var putAllowed: bool
    var value: seq<byte>
    var instances: seq<M2MResourceInstance>
    ghost var Repr: set<object>

    constructor (nameId: int, multiple: bool, dataType: DataType, putAllowed: bool)
      ensures Valid() && fresh(Repr)
      ensures View() == ResourceView(nameId, multiple, dataType, putAllowed, [], [])
    {
      this.nameId, this.multiple, this.dataType, this.putAllowed := nameId, multiple, dataType, putAllowed;
      value, instances, Repr := [], [], {this};
    }

    ghost predicate Valid()
      reads this, Repr
      ensures Valid() ==> this in Repr
    {
      && this in Repr
      && (forall k :: 0 <= k < |instances| ==> instances[k] in Repr)
      && forall j, k :: 0 <= j < k < |instances| ==> instances[j] != instances[k]
    }

    ghost function InstanceViews(): (views: InstanceList)
      requires Valid()
      reads this, Repr
      ensures |views| == |instances| && forall k :: 0 <= k < |instances| ==> views[k] == instances[k].View()
    {
      seq(|instances|, k requires 0 <= k < |instances| && Valid() reads this, Repr => instances[k].View())
    }

    ghost function View(): ResourceView
      requires Valid()
      reads this, Repr
    {
      ResourceView(nameId, multiple, dataType, putAllowed, value, InstanceViews())
    }

    method Update(bytes: seq<byte>)
      requires Valid()
      modifies this
      ensures Valid() && Repr == old(Repr)
      ensures View() == old(View()).(value := bytes)
    {
      value := bytes;
      assert InstanceViews() == old(InstanceViews());
    }

    method UpdateInstance(k: nat, bytes: seq<byte>)
      requires Valid() && k < |instances|
      modifies Repr
      ensures Valid() && Repr == old(Repr) && instances == old(instances)
      ensures var before := old(View());
              View() == before.(instances := before.instances[k := before.instances[k].(value := bytes)])
    {
      ghost var before := View();
      instances[k].Update(bytes);
      assert InstanceViews() == before.instances[k := before.instances[k].(value := bytes)];
    }

    /** A new writable integer instance, unless the id is taken. */
    method CreateInstance(id: uint16)
      requires Valid()
      modifies this
      ensures Valid() && fresh(Repr - old(Repr))
      ensures var before := old(View());
              View() == before.(instances :=
                if exists k :: 0 <= k < |before.instances| && before.instances[k].id == id then before.instances
                else before.instances + [ResourceInstanceView(id, INTEGER, true, [])])
    {
      ghost var before := View();
      var k := 0;
      while k < |instances|
        invariant 0 <= k <= |instances|
        invariant forall j :: 0 <= j < k ==> before.instances[j].id != id
      {
        assert before.instances[k] == instances[k].View();
        if instances[k].id == id {
          return;
        }
        k := k + 1;
      }
      var i := new M2MResourceInstance(id, INTEGER, true, []);
      instances, Repr := instances + [i], Repr + {i};
      assert InstanceViews() == before.instances + [i.View()];
    }
  }

  class M2MObjectInstance {
    const id: uint16
    var resources: seq<M2MResource>
    ghost var Repr: set<object>

    ghost predicate Valid()
      reads this, Repr
      ensures Valid() ==> this in Repr
    {
      && this in Repr
      && (forall k :: 0 <= k < |resources| ==>
            resources[k] in Repr && resources[k].Repr <= Repr && this !in resources[k].Repr && resources[k].Valid())
      && forall j, k :: 0 <= j < k < |resources| ==> resources[j].Repr !! resources[k].Repr
    }

    constructor (id: uint16)
      ensures Valid() && fresh(Repr) && this.id == id && resources == []
    {
      this.id, resources, Repr := id, [], {this};
    }

    ghost function ResourceViews(): (views: ResourceList)
      requires Valid()
      reads this, Repr
      ensures |views| == |resources| && forall k :: 0 <= k < |resources| ==> views[k] == resources[k].View()
    {
      seq(|resources|, k requires 0 <= k < |resources| && Valid() reads this, Repr => resources[k].View())
    }

    ghost function View(): ObjectInstanceView
      requires Valid()
      reads this, Repr
    {
      ObjectInstanceView(id, ResourceViews())
    }

    method UpdateResource(k: nat, bytes: seq<byte>)
      requires Valid() && k < |resources|
      modifies Repr
      ensures Valid() && Repr == old(Repr)
      ensures var before := old(ResourceViews());
              ResourceViews() == before[k := before[k].(value := bytes)]
    {
      ghost var before := ResourceViews();
      resources[k].Update(bytes);
      assert ResourceViews() == before[k := before[k].(value := bytes)];
    }

    /** A new writable integer resource named by the number. */
    method CreateResource(nameId: uint16)
      requires Valid()
      modifies this
      ensures Valid() && fresh(Repr - old(Repr))
      ensures ResourceViews() == old(ResourceViews()) + [ResourceView(nameId, false, INTEGER, true, [], [])]
    {
      ghost var before := ResourceViews();
      var r := new M2MResource(nameId, false, INTEGER, true);
      resources, Repr := resources + [r], Repr + r.Repr;
      assert ResourceViews() == before + [r.View()];
    }
  }

  class M2MObject {
    var instances: seq<M2MObjectInstance>
    ghost var Repr: set<object>

    ghost predicate Valid()
      reads this, Repr
      ensures Valid() ==> this in Repr
    {
      && this in Repr
      && (forall k :: 0 <= k < |instances| ==>
            instances[k] in Repr && instances[k].Repr <= Repr && this !in instances[k].Repr && instances[k].Valid())
      && forall j, k :: 0 <= j < k < |instances| ==> instances[j].Repr !! instances[k].Repr
    }

    constructor ()
      ensures Valid() && fresh(Repr) && instances == []
    {
      instances, Repr := [], {this};
    }

    ghost function View(): (views: ObjectInstanceList)
      requires Valid()
      reads this, Repr
      ensures |views| == |instances| && forall k :: 0 <= k < |instances| ==> views[k] == instances[k].View()
    {
      seq(|instances|, k requires 0 <= k < |instances| && Valid() reads this, Repr => instances[k].View())
    }
  }
}
