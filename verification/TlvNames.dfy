/** Resources whose names are numbers that an identifier cannot hold: what their records
    do at the receiver, alone and in a list. */
module TlvNames {
  import opened CommonTypes
  import opened TlvHeader
  import opened ObjectModel
  import opened TlvSemantics
  import opened TlvPasses
  import opened TlvEncoding
  import opened TlvRoundTrip
  import opened TlvOutcomes
  import opened TlvTheorems

  /** The resource, named by the identifier it is written under. */
  function Renamed(r: ResourceView): ResourceView { r.(nameId := WireId(r)) }

  /** A numbered resource is written exactly as the one named by its number modulo 65536:
      on the wire a negative name cannot be told from another resource's. */
  lemma WrittenAsRenamed(r: ResourceView)
    ensures IsNumeric(Renamed(r)) && (IsNumeric(r) <==> Renamed(r) == r)
    ensures EncodeResource(Renamed(r)) == EncodeResource(r)
  {
    assert WireId(Renamed(r)) == WireId(r);
  }

  lemma OneResource(r: ResourceView)
    ensures EncodeResources([r]) == EncodeResource(r)
    ensures EncodeResource(r) + [] == EncodeResource(r)
  {
    assert [r][1..] == [] && EncodeResources([]) == [];
  }

  /** Where a negatively named resource that is sent alone arrives: nowhere if the receiver
      has no resource of the renamed number.  A single one is then refused, a multiple one
      silently dropped. */
  lemma NegativeNameIsNotFound(r: ResourceView, dst: ResourceList)
    requires IsNumbered(r) && r.nameId < 0 && Fits(r)
    requires !HasResource(dst, WireId(r))
    ensures PutResources(EncodeResources([r]), dst, Put) == Pass(if r.multiple then None else NotFound, dst, true)
  {
    var s := EncodeResources([r]);
    OneResource(r);
    ResourceAtFront(r, []);
    if r.multiple {
      NoTaker(s, dst, |dst|, false);
      NoTaker(s, dst, |dst|, true);
    }
  }

  lemma {:induction false} NoTaker(s: seq<byte>, list: ResourceList, n: nat, update: bool)
    requires HasHeader(s) && n <= |list|
    requires forall k :: 0 <= k < |list| ==> list[k].nameId != ParseHeader(s).id
    ensures MultipleRecord(s, list, n, Put, update) == Pass(None, list, true)
    decreases n
  {
    if n > 0 {
      NoTaker(s, list, n - 1, update);
    }
  }

  /** If the receiver has one, ready for it, the value is written into that other resource
      and the call reports success. */
  lemma NegativeNameTakesAnother(r: ResourceView, dst: ResourceList, k: nat)
    requires IsNumbered(r) && r.nameId < 0 && Fits(r)
    requires k < |dst| && DistinctResources(dst) && Ready(Renamed(r), dst[k])
    requires r.multiple ==> r.instances != []
    ensures dst[k].nameId != r.nameId
    ensures PutResources(EncodeResources([r]), dst, Put) == Pass(None, dst[k := Merge(r, dst[k])], true)
  {
    var s := EncodeResources([r]);
    OneResource(r);
    WrittenAsRenamed(r);
    ResourceAtFront(Renamed(r), []);
    assert EncodeResources([]) + [] == [];
    ResourceStep(s, Renamed(r), dst, k, [], [], [], false);
    ResourceStep(s, Renamed(r), dst, k, [], [], [], true);
  }

  /** A single one the receiver may not write is refused. */
  lemma NegativeNameIsForbidden(r: ResourceView, dst: ResourceList)
    requires IsNumbered(r) && r.nameId < 0 && Fits(r) && !r.multiple
    requires ResourceForbidden(dst, WireId(r))
    ensures PutResources(EncodeResources([r]), dst, Put) == Pass(NotAllowed, dst, true)
  {
    OneResource(r);
    ResourceAtFront(r, []);
  }

  /** Exactly when a numbered resource that is sent alone arrives: if the number is not
      negative. */
  lemma NumberedResourceArrivesExactlyWhen(r: ResourceView, d: ResourceView)
    requires IsNumbered(r) && r.nameId < 0x1_0000 && Fits(r) && !r.multiple
    requires d.nameId == r.nameId && !d.multiple && d.putAllowed
    ensures PutResources(EncodeResources([r]), [d], Put) == Pass(None, [Merge(r, d)], true) <==> r.nameId >= 0
  {
    if r.nameId >= 0 {
      ResourceListRoundTrip([r], [d]);
      assert MergeResources([r], [d], 0) == [Merge(r, d)];
    } else {
      NegativeNameIsNotFound(r, [d]);
    }
  }

  lemma {:induction false} SetOther(list: ResourceList, id: uint16, value: seq<byte>, j: nat)
    requires j < |list| && list[j].nameId != id
    ensures SetResource(list, id, value)[j] == list[j]
  {
    if j > 0 {
      SetOther(list[1..], id, value, j - 1);
    }
  }

  lemma {:induction false} MultipleKeepsOther(s: seq<byte>, list: ResourceList, n: nat, j: nat, op: Operation, update: bool)
    requires HasHeader(s) && n <= |list| && j < |list| && list[j].nameId != ParseHeader(s).id
    ensures MultipleRecord(s, list, n, op, update).tree[j] == list[j]
    decreases n
  {
    if n > 0 {
      MultipleKeepsOther(s, list, n - 1, j, op, update);
    }
  }

  lemma RecordKeepsOther(s: seq<byte>, list: ResourceList, j: nat, op: Operation, update: bool)
    requires HasHeader(s) && j < |list| && list[j].nameId != ParseHeader(s).id
    ensures var tree := AnyResourceRecord(s, list, op, update).tree;
            |tree| >= |list| && tree[j] == list[j]
  {
    MultipleKeepsOther(s, list, |list|, j, op, update);
    if HasValue(s) {
      SetOther(list, ParseHeader(s).id, Value(s), j);
    }
  }

  /** No payload at all, under Put or Post, ever writes a resource whose name is no number an
      identifier can hold. */
  lemma {:induction false} UnnumberedIsNeverWritten(s: seq<byte>, list: ResourceList, j: nat, op: Operation, update: bool)
    requires j < |list| && !IsNumeric(list[j])
    ensures var tree := ReadResources(s, list, op, update).tree;
            |tree| >= |list| && tree[j] == list[j]
    decreases |s|
  {
    hide AnyResourceRecord;
    if HasHeader(s) && ParseHeader(s).kind != ObjectInstance {
      RecordKeepsOther(s, list, j, op, update);
      var here := AnyResourceRecord(s, list, op, update);
      if !IsLast(s) && here.safe {
        UnnumberedIsNeverWritten(Rest(s), here.tree, j, op, update);
      }
    }
  }

  lemma StopsBehind(s: seq<byte>, k: Kind, id: uint16, value: seq<byte>, rest: seq<byte>)
    requires Front(s, k, id, value, rest) && k != ObjectInstance
    ensures StopsAt(s) == if rest == [] then s else StopsAt(rest)
  {
  }

  /** Reading a written list stops at its last resource. */
  lemma {:induction false} WrittenListStopsAtLast(src: ResourceList)
    requires src != [] && FitsResources(src)
    ensures StopsAt(EncodeResources(src)) == EncodeResource(src[|src| - 1])
    decreases |src|
  {
    hide EncodeResource, EncodeResources, FitsResources, Fits, Front, StopsAt, ResourceKind, ResourcePayload;
    var r, later := src[0], src[1..];
    var rest := EncodeResources(later);
    FirstOfList(src);
    StopsBehind(EncodeResources(src), ResourceKind(r), WireId(r), ResourcePayload(r), rest);
    EmptyEncoding(later);
    if |src| == 1 {
      OneResource(r);
      assert src == [r];
    } else {
      WrittenListStopsAtLast(later);
      assert later[|later| - 1] == src[|src| - 1];
    }
  }

  /** What the reader sees of a written list: its first resource, and the rest. */
  lemma FirstOfList(src: ResourceList)
    requires src != [] && FitsResources(src)
    ensures FitsResources(src[1..]) && Fits(src[0]) && ResourceKind(src[0]) != ObjectInstance
    ensures Front(EncodeResources(src), ResourceKind(src[0]), WireId(src[0]), ResourcePayload(src[0]), EncodeResources(src[1..]))
  {
    var rest := EncodeResources(src[1..]);
    EncodeResourcesStep(src, []);
    assert EncodeResources(src) + [] == EncodeResources(src) && rest + [] == rest;
    assert src[0] in src;
    ResourceAtFront(src[0], rest);
  }

  /** The last resource of a written list decides for all: if it is a single one, the call
      reports what is said to it alone, and unless that is no error nothing is written. */
  lemma LastResourceDecides(src: ResourceList, dst: ResourceList)
    requires src != [] && FitsResources(src) && !src[|src| - 1].multiple
    requires PutResources(EncodeResources(src), dst, Put).safe
    ensures var id := WireId(src[|src| - 1]);
            var call := PutResources(EncodeResources(src), dst, Put);
            && call.error == (if !HasResource(dst, id) then NotFound else if ResourceForbidden(dst, id) then NotAllowed else None)
            && (call.error != None ==> call.tree == dst)
  {
    hide PutResources, ReadResources, Fits, FitsResources;
    var last := src[|src| - 1];
    var s := EncodeResources(src);
    WrittenListStopsAtLast(src);
    WrittenListStarts(src);
    ResourcesCallOutcome(s, dst);
    LastFits(src);
    ResourceAtFront(last, []);
    OneResource(last);
  }

  lemma LastFits(src: ResourceList)
    requires src != [] && FitsResources(src)
    ensures Fits(src[|src| - 1])
  {
  }

  lemma WrittenListStarts(src: ResourceList)
    requires src != [] && FitsResources(src)
    ensures var s := EncodeResources(src);
            StartsWith(s, Resource) || StartsWith(s, MultipleResource)
  {
    FirstOfList(src);
  }

  /** The identifier a resource goes out under: its number if that has 16 bits, and the one
      65536 above it if it is negative. */
  lemma NameOnTheWire(r: ResourceView)
    requires Fits(r)
    ensures var s := EncodeResource(r);
            && HasHeader(s)
            && ParseHeader(s).kind == (if r.multiple then MultipleResource else Resource)
            && (0 <= r.nameId < 0x1_0000 ==> ParseHeader(s).id == r.nameId)
            && (-0x1_0000 <= r.nameId < 0 ==> ParseHeader(s).id == r.nameId + 0x1_0000)
  {
    ResourceAtFront(r, []);
    assert EncodeResource(r) + [] == EncodeResource(r);
    hide EncodeResource;
  }

  /** Exactly when an object instance is left out: when some resource of it has no number. */
  lemma LeftOutExactlyWhen(i: ObjectInstanceView)
    ensures EncodeObjectInstance(i) == [] <==> exists k :: 0 <= k < |i.resources| && i.resources[k].nameId == -1
    ensures AllNumbered(i.resources) <==> forall k :: 0 <= k < |i.resources| ==> i.resources[k].nameId != -1
  {
    hide EncodeResources;
  }
}
