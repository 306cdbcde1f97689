/** What reading a TLV payload means, as functions on the unread suffix of the
    buffer.  A pass over the payload yields the error it reports, the tree it
    leaves behind, and whether every byte it read lay inside the buffer.  The
    suffix is never cut at the end of a nested record: a nested pass runs on into
    whatever follows, just as the implementation passes on the outer size. */
module TlvSemantics {
  import opened CommonTypes
  import opened TlvHeader
  import opened ObjectModel

  datatype Error = None | NotFound | NotAllowed | NotValid
  datatype Operation = Put | Post

  datatype Pass<T> = Pass(error: Error, tree: T, safe: bool)

  /** The value bytes of the record at the front of s are all present. */
  predicate HasValue(s: seq<byte>)
    requires HasHeader(s)
  {
    var h := ParseHeader(s);
    h.size + h.length <= |s|
  }

  function Value(s: seq<byte>): seq<byte>
    requires HasHeader(s) && HasValue(s)
  {
    var h := ParseHeader(s);
    s[h.size..h.size + h.length]
  }

  /** Reading stops after this record: nothing of the buffer is left. */
  predicate IsLast(s: seq<byte>)
    requires HasHeader(s)
  {
    var h := ParseHeader(s);
    |s| <= h.size + h.length
  }

  function Rest(s: seq<byte>): (r: seq<byte>)
    requires HasHeader(s) && !IsLast(s)
    ensures 0 < |r| < |s|
  {
    var h := ParseHeader(s);
    s[h.size + h.length..]
  }

  function Payload(s: seq<byte>): (r: seq<byte>)
    requires HasHeader(s)
    ensures |r| < |s|
  {
    s[ParseHeader(s).size..]
  }

  // -------------------------------------------------------- resource instances

  predicate HasInstance(list: InstanceList, id: uint16) { exists k :: 0 <= k < |list| && list[k].id == id }

  predicate InstanceForbidden(list: InstanceList, id: uint16) {
    exists k :: 0 <= k < |list| && list[k].id == id && !list[k].putAllowed
  }

  /** The first resource instance with this id takes the value. */
  function SetInstance(list: InstanceList, id: uint16, value: seq<byte>): (r: InstanceList)
    ensures |r| == |list|
  {
    if list == [] then []
    else if list[0].id == id then [list[0].(value := value)] + list[1..]
    else [list[0]] + SetInstance(list[1..], id, value)
  }

  lemma {:induction false} SetFirstInstance(list: InstanceList, k: nat, value: seq<byte>)
    requires k < |list| && forall j :: 0 <= j < k ==> list[j].id != list[k].id
    ensures SetInstance(list, list[k].id, value) == list[k := list[k].(value := value)]
  {
    if k > 0 { SetFirstInstance(list[1..], k - 1, value); }
  }

  function NewInstance(id: uint16): ResourceInstanceView {
    ResourceInstanceView(id, INTEGER, true, [])
  }

  /** Which records a pass over resource instances accepts.  Inside a resource
      list a MultipleResource record is skipped over; the entry point that is
      given one resource refuses it. */
  datatype Context = InsideList | SingleResource

  predicate AcceptsInstanceRecord(k: Kind, context: Context) {
    k == ResourceInstance || (k == MultipleResource && context == InsideList)
  }

  /** One record, applied to a list of resource instances. */
  function InstanceRecord(s: seq<byte>, list: InstanceList, context: Context, op: Operation, update: bool): Pass<InstanceList>
    requires HasHeader(s)
  {
    var h := ParseHeader(s);
    if h.kind == ResourceInstance && HasInstance(list, h.id) then
      if update then
        if HasValue(s) then Pass(None, SetInstance(list, h.id, Value(s)), true) else Pass(None, list, false)
      else
        Pass(if InstanceForbidden(list, h.id) then NotAllowed else None, list, true)
    else
      match op
      case Put => Pass(NotFound, list, true)
      case Post =>
        if context == SingleResource then Pass(NotAllowed, list, true)
        else Pass(None, if HasInstance(list, h.id) then list else list + [NewInstance(h.id)], true)
  }

  function ReadInstances(s: seq<byte>, list: InstanceList, context: Context, op: Operation, update: bool): Pass<InstanceList> {
    if !HasHeader(s) then Pass(NotValid, list, false)
    else if !AcceptsInstanceRecord(ParseHeader(s).kind, context) then Pass(NotValid, list, true)
    else
      var here := InstanceRecord(s, list, context, op, update);
      if IsLast(s) || !here.safe then here
      else ReadInstances(Rest(s), here.tree, context, op, update)
  }

  // ----------------------------------------------------------------- resources

  predicate HasResource(list: ResourceList, id: uint16) { exists k :: 0 <= k < |list| && list[k].nameId == id }

  predicate ResourceForbidden(list: ResourceList, id: uint16) {
    exists k :: 0 <= k < |list| && list[k].nameId == id && !list[k].putAllowed
  }

  function SetResource(list: ResourceList, id: uint16, value: seq<byte>): (r: ResourceList)
    ensures |r| == |list|
  {
    if list == [] then []
    else if list[0].nameId == id then [list[0].(value := value)] + list[1..]
    else [list[0]] + SetResource(list[1..], id, value)
  }

  lemma {:induction false} SetFirstResource(list: ResourceList, k: nat, value: seq<byte>)
    requires k < |list| && IsNumeric(list[k])
    requires forall j :: 0 <= j < k ==> list[j].nameId != list[k].nameId
    ensures SetResource(list, list[k].nameId, value) == list[k := list[k].(value := value)]
  {
    if k > 0 { SetFirstResource(list[1..], k - 1, value); }
  }

  function NewResource(id: uint16): ResourceView {
    ResourceView(id, false, INTEGER, true, [], [])
  }

  /** A Resource (or stray ResourceInstance) record, applied to a resource list. */
  function ResourceRecord(s: seq<byte>, list: ResourceList, op: Operation, update: bool): Pass<ResourceList>
    requires HasHeader(s)
  {
    var h := ParseHeader(s);
    if HasResource(list, h.id) then
      if update then
        if HasValue(s) then Pass(None, SetResource(list, h.id, Value(s)), true) else Pass(None, list, false)
      else
        Pass(if ResourceForbidden(list, h.id) then NotAllowed else None, list, true)
    else
      match op
      case Put => Pass(NotFound, list, true)
      case Post => Pass(None, list + [NewResource(h.id)], true)
  }

  predicate TakesInstances(r: ResourceView, id: uint16) { r.multiple && r.nameId == id }

  /** A MultipleResource record, applied to the first n resources: each that has
      the record's id reads the nested resource instances, and the error of the
      last one stays. */
  function MultipleRecord(s: seq<byte>, list: ResourceList, n: nat, op: Operation, update: bool): (p: Pass<ResourceList>)
    requires HasHeader(s)
    requires n <= |list|
    ensures |p.tree| == |list|
    decreases n
  {
    if n == 0 then Pass(None, list, true)
    else
      var before := MultipleRecord(s, list, n - 1, op, update);
      var r := list[n - 1];
      if TakesInstances(r, ParseHeader(s).id) then
        var nested := ReadInstances(Payload(s), r.instances, InsideList, op, update);
        Pass(nested.error, before.tree[n - 1 := r.(instances := nested.tree)], before.safe && nested.safe)
      else before
  }

  lemma MultipleOfNone(s: seq<byte>, list: ResourceList, op: Operation, update: bool)
    requires HasHeader(s)
    ensures MultipleRecord(s, list, 0, op, update) == Pass(None, list, true)
  {
  }

  lemma {:induction false} MultipleKeepsRest(s: seq<byte>, list: ResourceList, n: nat, k: nat, op: Operation, update: bool)
    requires HasHeader(s) && n <= k < |list|
    ensures MultipleRecord(s, list, n, op, update).tree[k] == list[k]
    decreases n
  {
    if n > 0 { MultipleKeepsRest(s, list, n - 1, k, op, update); }
  }

  function AnyResourceRecord(s: seq<byte>, list: ResourceList, op: Operation, update: bool): Pass<ResourceList>
    requires HasHeader(s)
  {
    if ParseHeader(s).kind == MultipleResource then MultipleRecord(s, list, |list|, op, update)
    else ResourceRecord(s, list, op, update)
  }

  function ReadResources(s: seq<byte>, list: ResourceList, op: Operation, update: bool): Pass<ResourceList> {
    if !HasHeader(s) then Pass(NotValid, list, false)
    else if ParseHeader(s).kind == ObjectInstance then Pass(NotValid, list, true)
    else
      var here := AnyResourceRecord(s, list, op, update);
      if IsLast(s) || !here.safe then here
      else ReadResources(Rest(s), here.tree, op, update)
  }

  // ---------------------------------------------------------- object instances

  /** An ObjectInstance record, applied to the first n object instances. */
  function ObjectInstanceRecord(s: seq<byte>, list: ObjectInstanceList, n: nat, op: Operation, update: bool): (p: Pass<ObjectInstanceList>)
    requires HasHeader(s)
    requires n <= |list|
    ensures |p.tree| == |list|
    decreases n
  {
    if n == 0 then Pass(None, list, true)
    else
      var before := ObjectInstanceRecord(s, list, n - 1, op, update);
      var i := list[n - 1];
      if i.id == ParseHeader(s).id then
        var nested := ReadResources(Payload(s), i.resources, op, update);
        Pass(nested.error, before.tree[n - 1 := i.(resources := nested.tree)], before.safe && nested.safe)
      else before
  }

  lemma ObjectsOfNone(s: seq<byte>, list: ObjectInstanceList, op: Operation, update: bool)
    requires HasHeader(s)
    ensures ObjectInstanceRecord(s, list, 0, op, update) == Pass(None, list, true)
  {
  }

  lemma {:induction false} ObjectKeepsRest(s: seq<byte>, list: ObjectInstanceList, n: nat, k: nat, op: Operation, update: bool)
    requires HasHeader(s) && n <= k < |list|
    ensures ObjectInstanceRecord(s, list, n, op, update).tree[k] == list[k]
    decreases n
  {
    if n > 0 { ObjectKeepsRest(s, list, n - 1, k, op, update); }
  }

  function ReadObjectInstances(s: seq<byte>, list: ObjectInstanceList, op: Operation, update: bool): Pass<ObjectInstanceList> {
    if !HasHeader(s) then Pass(None, list, false)
    else if ParseHeader(s).kind != ObjectInstance then Pass(None, list, true)
    else
      var here := ObjectInstanceRecord(s, list, |list|, op, update);
      if IsLast(s) || !here.safe then here
      else ReadObjectInstances(Rest(s), here.tree, op, update)
  }

  // ------------------------------------------------------------ two-pass entry

  /** The dry run decides whether the update happens at all. */
  function TwoPasses<T>(dryRun: Pass<T>, update: Pass<T>): Pass<T> {
    if dryRun.error != None || !dryRun.safe then dryRun else update
  }

  // An absent payload (a null pointer) is the empty sequence.
  predicate StartsWith(s: seq<byte>, k: Kind) { s != [] && KindOf(s[0]) == k }

  function PutObjectInstances(s: seq<byte>, list: ObjectInstanceList, op: Operation): Pass<ObjectInstanceList> {
    if !StartsWith(s, ObjectInstance) then Pass(NotValid, list, true)
    else
      var dryRun := ReadObjectInstances(s, list, op, false);
      TwoPasses(dryRun, ReadObjectInstances(s, dryRun.tree, op, true))
  }

  function PutResources(s: seq<byte>, list: ResourceList, op: Operation): Pass<ResourceList> {
    if !StartsWith(s, Resource) && !StartsWith(s, MultipleResource) then Pass(NotValid, list, true)
    else
      var dryRun := ReadResources(s, list, op, false);
      TwoPasses(dryRun, ReadResources(s, dryRun.tree, op, true))
  }

  function PutResourceInstances(s: seq<byte>, list: InstanceList, op: Operation): Pass<InstanceList> {
    if !StartsWith(s, MultipleResource) then Pass(NotValid, list, true)
    else if HeaderSize(s[0]) > |s| then Pass(NotValid, list, false)
    else
      var nested := s[HeaderSize(s[0])..];
      var dryRun := ReadInstances(nested, list, SingleResource, op, false);
      TwoPasses(dryRun, ReadInstances(nested, dryRun.tree, SingleResource, op, true))
  }
}
