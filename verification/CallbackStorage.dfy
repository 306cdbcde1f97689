/** M2MCallbackStorage: callbacks kept in one flat list, keyed by the object they
    belong to and their type. */
module CallbackStorage {
  /** An address; zero is the null pointer. */
  type Pointer = nat
  const NULL: Pointer := 0

  datatype Kind =
    | ValueUpdated | ValueUpdated2 | Execute | Execute2
    | IncomingBlock | OutgoingBlock | NotificationSent | NotificationSent2

  datatype Key = Key(owner: Pointer, kind: Kind)
  datatype Association = Association(key: Key, callback: Pointer)

  // ------------------------------------------------------------ on sequences

  /** The callback of the first association with the key. */
  function Get(s: seq<Association>, key: Key): Pointer {
    if s == [] then NULL else if s[0].key == key then s[0].callback else Get(s[1..], key)
  }

  /** The list without its first association with the key. */
  function Remove(s: seq<Association>, key: Key): seq<Association> {
    if s == [] then [] else if s[0].key == key then s[1..] else [s[0]] + Remove(s[1..], key)
  }

  /** The associations of other objects, in order. */
  function Without(s: seq<Association>, owner: Pointer): seq<Association> {
    if s == [] then []
    else if s[0].key.owner == owner then Without(s[1..], owner)
    else [s[0]] + Without(s[1..], owner)
  }

  function Add(s: seq<Association>, a: Association): seq<Association> { if a in s then s else s + [a] }

  /** What every setter does: remove the old callback, then add the new one. */
  function Set(s: seq<Association>, key: Key, callback: Pointer): seq<Association> {
    Add(Remove(s, key), Association(key, callback))
  }

  // ------------------------------------------------------------- as a map

  function AsMap(s: seq<Association>): map<Key, Pointer> {
    if s == [] then map[] else AsMap(s[1..])[s[0].key := s[0].callback]
  }

  /** No key comes again in the rest of the list. */
  predicate KeysUnique(s: seq<Association>) {
    s == [] || (s[0].key !in AsMap(s[1..]) && KeysUnique(s[1..]))
  }

  lemma {:induction false} MemberHasKey(s: seq<Association>, i: nat)
    requires i < |s|
    ensures s[i].key in AsMap(s)
  {
    if i > 0 {
      MemberHasKey(s[1..], i - 1);
    }
  }

  /** Unique means that entries at different positions differ in their keys. */
  lemma {:induction false} UniqueKeysDiffer(s: seq<Association>, i: nat, j: nat)
    requires KeysUnique(s) && i < j < |s|
    ensures s[i].key != s[j].key
  {
    if i == 0 {
      MemberHasKey(s[1..], j - 1);
    } else {
      UniqueKeysDiffer(s[1..], i - 1, j - 1);
    }
  }

  lemma {:induction false} GetReadsMap(s: seq<Association>, key: Key)
    ensures Get(s, key) == if key in AsMap(s) then AsMap(s)[key] else NULL
  {
    if s != [] {
      GetReadsMap(s[1..], key);
    }
  }

  lemma Unfold(a: Association, r: seq<Association>)
    ensures AsMap([a] + r) == AsMap(r)[a.key := a.callback]
    ensures KeysUnique([a] + r) <==> a.key !in AsMap(r) && KeysUnique(r)
  {
    assert ([a] + r)[1..] == r;
  }

  lemma {:induction false} RemoveDropsKey(s: seq<Association>, key: Key)
    requires KeysUnique(s)
    ensures KeysUnique(Remove(s, key))
    ensures AsMap(Remove(s, key)) == AsMap(s) - {key}
  {
    if s != [] && s[0].key != key {
      RemoveDropsKey(s[1..], key);
      Unfold(s[0], Remove(s[1..], key));
    }
  }

  lemma {:induction false} WithoutDropsOwner(s: seq<Association>, owner: Pointer)
    requires KeysUnique(s)
    ensures KeysUnique(Without(s, owner))
    ensures AsMap(Without(s, owner)) == map key | key in AsMap(s) && key.owner != owner :: AsMap(s)[key]
  {
    if s != [] {
      WithoutDropsOwner(s[1..], owner);
      if s[0].key.owner != owner {
        Unfold(s[0], Without(s[1..], owner));
      }
    }
  }

  lemma {:induction false} AppendExtendsMap(s: seq<Association>, a: Association)
    requires KeysUnique(s) && a.key !in AsMap(s)
    ensures KeysUnique(s + [a])
    ensures AsMap(s + [a]) == AsMap(s)[a.key := a.callback]
  {
    if s == [] {
      assert s + [a] == [a] + [];
      Unfold(a, []);
    } else {
      AppendExtendsMap(s[1..], a);
      assert s + [a] == [s[0]] + (s[1..] + [a]);
      Unfold(s[0], s[1..] + [a]);
    }
  }

  /** A setter updates the map at its key; its add never meets a duplicate. */
  lemma SetUpdatesMap(s: seq<Association>, key: Key, callback: Pointer)
    requires KeysUnique(s)
    ensures KeysUnique(Set(s, key, callback))
    ensures AsMap(Set(s, key, callback)) == AsMap(s)[key := callback]
    ensures Association(key, callback) !in Remove(s, key)
  {
    hide AsMap, KeysUnique, Remove;
    RemoveDropsKey(s, key);
    var r := Remove(s, key);
    if i :| 0 <= i < |r| && r[i].key == key {
      MemberHasKey(r, i);
    }
    AppendExtendsMap(r, Association(key, callback));
  }

  /** In any list, with whatever duplicates: the first entry with a key is the one read and
      the one removed; a list without one is left as it is and reads as null. */
  lemma {:induction false} FirstIsReadAndRemoved(before: seq<Association>, x: Association, after: seq<Association>)
    requires forall k | 0 <= k < |before| :: before[k].key != x.key
    ensures Get(before + [x] + after, x.key) == x.callback
    ensures Remove(before + [x] + after, x.key) == before + after
    ensures Get(before, x.key) == NULL && Remove(before, x.key) == before
  {
    var s := before + [x] + after;
    if before == [] {
      assert s[0] == x && s[1..] == after;
    } else {
      FirstIsReadAndRemoved(before[1..], x, after);
      assert s[0] == before[0] && s[1..] == before[1..] + [x] + after;
      assert before + after == [before[0]] + (before[1..] + after);
    }
  }

  /** Removing an owner's entries drops every one of them and keeps the others in order: it
      does so entry by entry. */
  lemma {:induction false} WithoutFilters(a: seq<Association>, b: seq<Association>, owner: Pointer)
    ensures Without(a + b, owner) == Without(a, owner) + Without(b, owner)
    decreases |a|
  {
    if a == [] {
      assert a + b == b;
      hide Without;
      assert [] + Without(b, owner) == Without(b, owner);
    } else {
      WithoutFilters(a[1..], b, owner);
      assert (a + b)[0] == a[0] && (a + b)[1..] == a[1..] + b;
      WithoutFirst(a, owner);
      WithoutFirst(a + b, owner);
      hide Without;
    }
  }

  lemma WithoutFirst(s: seq<Association>, owner: Pointer)
    requires s != []
    ensures Without(s, owner) == (if s[0].key.owner == owner then [] else [s[0]]) + Without(s[1..], owner)
    ensures Without([s[0]], owner) == if s[0].key.owner == owner then [] else [s[0]]
  {
  }

  predicate Distinct(s: seq<Association>) { forall j, k | 0 <= j < k < |s| :: s[j] != s[k] }

  /** Adding keeps all entries where they are and never stores one twice. */
  lemma AddStoresOnce(s: seq<Association>, a: Association)
    ensures s <= Add(s, a) && a in Add(s, a) && Add(Add(s, a), a) == Add(s, a)
    ensures Distinct(s) ==> Distinct(Add(s, a))
    ensures forall x | x in Add(s, a) :: x == a || x in s
  {
  }

  // -------------------------------------------------------------- over a run

  /** What the client does with the storage. */
  datatype Operation = SetOne(key: Key, callback: Pointer) | RemoveOne(key: Key) | RemoveAll(owner: Pointer)

  function Apply(s: seq<Association>, op: Operation): seq<Association> {
    match op
    case SetOne(key, callback) => Set(s, key, callback)
    case RemoveOne(key) => Remove(s, key)
    case RemoveAll(owner) => Without(s, owner)
  }

  function ApplyToMap(m: map<Key, Pointer>, op: Operation): map<Key, Pointer> {
    match op
    case SetOne(key, callback) => m[key := callback]
    case RemoveOne(key) => m - {key}
    case RemoveAll(owner) => map key | key in m && key.owner != owner :: m[key]
  }

  function After(ops: seq<Operation>): seq<Association> {
    if ops == [] then [] else Apply(After(ops[..|ops| - 1]), ops[|ops| - 1])
  }

  function MapAfter(ops: seq<Operation>): map<Key, Pointer> {
    if ops == [] then map[] else ApplyToMap(MapAfter(ops[..|ops| - 1]), ops[|ops| - 1])
  }

  /** In every run the list stands for the map, with each key at most once, and
      reading it reads the map: the last value set and not removed since. */
  lemma {:induction false} ListIsMap(ops: seq<Operation>, key: Key)
    ensures KeysUnique(After(ops))
    ensures AsMap(After(ops)) == MapAfter(ops)
    ensures Get(After(ops), key) == if key in MapAfter(ops) then MapAfter(ops)[key] else NULL
  {
    if ops != [] {
      var before, op := ops[..|ops| - 1], ops[|ops| - 1];
      ListIsMap(before, key);
      match op {
        case SetOne(k, callback) => SetUpdatesMap(After(before), k, callback);
        case RemoveOne(k) => RemoveDropsKey(After(before), k);
        case RemoveAll(owner) => WithoutDropsOwner(After(before), owner);
      }
    }
    GetReadsMap(After(ops), key);
  }

  /** Appending does not change what is read, unless the key was not there before. */
  lemma {:induction false} GetAfterAppend(s: seq<Association>, a: Association, key: Key)
    ensures Get(s + [a], key) == if key !in AsMap(s) && key == a.key then a.callback else Get(s, key)
  {
    if s == [] {
      assert s + [a] == [a] + [];
    } else {
      assert (s + [a])[0] == s[0] && (s + [a])[1..] == s[1..] + [a];
      GetAfterAppend(s[1..], a, key);
    }
  }

  /** Exactly when a callback added without removing the old one is the one returned:
      if the key was not there, or that callback was returned before.  In every other
      list the callback is shadowed by the first one with its key. */
  lemma AddIsReadExactlyWhen(s: seq<Association>, key: Key, callback: Pointer)
    ensures Get(Add(s, Association(key, callback)), key) == callback
       <==> key !in AsMap(s) || Get(s, key) == callback
    ensures key in AsMap(s) ==> Get(Add(s, Association(key, callback)), key) == Get(s, key)
  {
    var a := Association(key, callback);
    if i :| 0 <= i < |s| && s[i] == a {
      MemberHasKey(s, i);
    } else {
      GetAfterAppend(s, a, key);
    }
  }

  // ----------------------------------------------------------------- in place

  /** The C++ vector: an array that doubles, of which the first `size` entries count. */
  class Vector {
    var items: array<Association>
    var size: nat

    ghost predicate Valid()
      reads this
    {
      size <= items.Length
    }

    ghost function Contents(): seq<Association>
      requires Valid()
      reads this, items
    {
      items[..size]
    }

    constructor ()
      ensures Valid() && fresh(items) && Contents() == []
    {
      items := new Association[1];
      size := 0;
    }

    method PushBack(x: Association)
      requires Valid()
      modifies this, items
      ensures Valid() && (items == old(items) || fresh(items))
      ensures Contents() == old(Contents()) + [x]
    {
      if size == items.Length {
        Reserve(2 * size + 1);
      }
      items[size] := x;
      size := size + 1;
      assert Contents() == old(Contents()) + [x];
    }

    method Reserve(newCapacity: nat)
      requires Valid()
      modifies this
      ensures Valid() && size == old(size) && Contents() == old(Contents())
      ensures if newCapacity < size then items == old(items) else fresh(items) && items.Length == newCapacity
    {
      if newCapacity < size {
        return;
      }
      var moved := new Association[newCapacity];
      for k := 0 to size
        invariant size == old(size) && items == old(items) && size <= newCapacity
        invariant moved[..k] == items[..k]
      {
        moved[k] := items[k];
      }
      items := moved;
    }

    /** Close the gap one entry at a time. */
    method Erase(position: nat)
      requires Valid()
      modifies this, items
      ensures Valid() && items == old(items)
      ensures var s := old(Contents());
        Contents() == if position < |s| then s[..position] + s[position + 1..] else s
    {
      if position < size {
        var k := position;
        while k + 1 < size
          invariant size == old(size) && items == old(items)
          invariant position <= k < size
          invariant forall j | 0 <= j < position :: items[j] == old(items[j])
          invariant forall j | position <= j < k :: items[j] == old(items[j + 1])
          invariant forall j | k < j < size :: items[j] == old(items[j])
        {
          items[k] := items[k + 1];
          k := k + 1;
        }
        size := size - 1;
      }
    }
  }

  /** Of the list without an owner's entries, `kept` is what the first n entries leave. */
  ghost predicate Scanned(s: seq<Association>, owner: Pointer, n: nat, kept: seq<Association>) {
    n <= |s| && Without(s, owner) == kept + Without(s[n..], owner)
  }

  lemma ScanStarts(s: seq<Association>, owner: Pointer)
    ensures Scanned(s, owner, 0, [])
  {
    assert s[0..] == s;
  }

  lemma ScanGoesOn(s: seq<Association>, owner: Pointer, n: nat, kept: seq<Association>)
    requires n < |s| && Scanned(s, owner, n, kept)
    ensures Scanned(s, owner, n + 1, if s[n].key.owner == owner then kept else kept + [s[n]])
  {
    assert s[n..][1..] == s[n + 1..];
    assert kept + ([s[n]] + Without(s[n + 1..], owner)) == (kept + [s[n]]) + Without(s[n + 1..], owner);
  }

  lemma ScanEnds(s: seq<Association>, owner: Pointer, kept: seq<Association>)
    requires Scanned(s, owner, |s|, kept)
    ensures Without(s, owner) == kept
  {
  }

  class M2MCallbackStorage {
    const callbacks: Vector

    ghost predicate Valid()
      reads this, callbacks
    {
      callbacks.Valid()
    }

    ghost function Contents(): seq<Association>
      requires Valid()
      reads this, callbacks, callbacks.items
    {
      callbacks.Contents()
    }

    constructor ()
      ensures Valid() && fresh(callbacks) && fresh(callbacks.items) && Contents() == After([])
    {
      callbacks := new Vector();
    }

    /** does_callback_exist with a callback: is the very association there? */
    method IsStored(a: Association) returns (found: bool)
      requires Valid()
      ensures found <==> a in Contents()
    {
      found := false;
      for it := 0 to callbacks.size
        invariant !found && a !in callbacks.items[..it]
      {
        if callbacks.items[it] == a {
          found := true;
          break;
        }
      }
    }

    method DoAddCallback(key: Key, callback: Pointer) returns (added: bool)
      requires Valid()
      modifies callbacks, callbacks.items
      ensures Valid() && (callbacks.items == old(callbacks.items) || fresh(callbacks.items))
      ensures Contents() == Add(old(Contents()), Association(key, callback))
      ensures added <==> Association(key, callback) !in old(Contents())
    {
      var exists_ := IsStored(Association(key, callback));
      if !exists_ {
        callbacks.PushBack(Association(key, callback));
      }
      added := !exists_;
    }

    method DoGetCallback(key: Key) returns (callback: Pointer)
      requires Valid()
      ensures callback == Get(Contents(), key)
    {
      callback := NULL;
      var it := 0;
      while it < callbacks.size
        invariant it <= callbacks.size && callback == NULL
        invariant Get(Contents(), key) == Get(Contents()[it..], key)
      {
        if callbacks.items[it].key == key {
          callback := callbacks.items[it].callback;
          return;
        }
        assert Contents()[it..][1..] == Contents()[it + 1..];
        it := it + 1;
      }
    }

    /** does_callback_exist without one: a stored null pointer reads as absent. */
    method DoesCallbackExist(key: Key) returns (found: bool)
      requires Valid()
      ensures found <==> Get(Contents(), key) != NULL
    {
      var callback := DoGetCallback(key);
      found := callback != NULL;
    }

    method DoRemoveCallback(key: Key) returns (callback: Pointer)
      requires Valid()
      modifies callbacks, callbacks.items
      ensures Valid() && callbacks.items == old(callbacks.items)
      ensures callback == Get(old(Contents()), key)
      ensures Contents() == Remove(old(Contents()), key)
    {
      callback := NULL;
      ghost var s := Contents();
      var index := 0;
      while index < callbacks.size
        invariant index <= callbacks.size && callback == NULL && Contents() == s
        invariant callbacks.items == old(callbacks.items)
        invariant Get(s, key) == Get(s[index..], key)
        invariant Remove(s, key) == s[..index] + Remove(s[index..], key)
      {
        assert s[index..][1..] == s[index + 1..];
        if callbacks.items[index].key == key {
          callback := callbacks.items[index].callback;
          callbacks.Erase(index);
          return;
        }
        assert s[..index + 1] == s[..index] + [s[index]];
        index := index + 1;
      }
      assert s[..index] + Remove(s[index..], key) == s;
    }

    /** Erase while scanning: the index stays where an entry was erased. */
    method DoRemoveCallbacks(owner: Pointer)
      requires Valid()
      modifies callbacks, callbacks.items
      ensures Valid() && callbacks.items == old(callbacks.items)
      ensures Contents() == Without(old(Contents()), owner)
    {
      hide Without, Scanned;
      ghost var s := Contents();
      ghost var kept, seen := [], 0;
      ScanStarts(s, owner);
      var index := 0;
      while index < callbacks.size
        invariant Valid() && callbacks.items == old(callbacks.items)
        invariant index <= callbacks.size && seen + (callbacks.size - index) == |s|
        invariant callbacks.items[index..callbacks.size] == s[seen..]
        invariant callbacks.items[..index] == kept && Scanned(s, owner, seen, kept)
        decreases callbacks.size - index
      {
        assert callbacks.items[index] == callbacks.items[index..callbacks.size][0] == s[seen];
        assert callbacks.items[index + 1..callbacks.size] == callbacks.items[index..callbacks.size][1..] == s[seen + 1..];
        ScanGoesOn(s, owner, seen, kept);
        if callbacks.items[index].key.owner == owner {
          EraseAt(index);
        } else {
          kept := kept + [s[seen]];
          index := index + 1;
        }
        seen := seen + 1;
      }
      ScanEnds(s, owner, kept);
    }

    /** Erase, seen from the array: what is in front stays, what is behind moves up. */
    method EraseAt(index: nat)
      requires Valid() && index < callbacks.size
      modifies callbacks, callbacks.items
      ensures Valid() && callbacks.items == old(callbacks.items) && callbacks.size == old(callbacks.size) - 1
      ensures callbacks.items[..index] == old(callbacks.items[..index])
      ensures callbacks.items[index..callbacks.size] == old(callbacks.items[index + 1..callbacks.size])
    {
      ghost var s := Contents();
      callbacks.Erase(index);
      assert callbacks.items[..index] == Contents()[..index];
      assert callbacks.items[index..callbacks.size] == Contents()[index..];
    }

    /** The setters of M2MBase and M2MResourceBase. */
    method SetFunction(key: Key, callback: Pointer) returns (added: bool)
      requires Valid() && KeysUnique(Contents())
      modifies callbacks, callbacks.items
      ensures Valid() && (callbacks.items == old(callbacks.items) || fresh(callbacks.items))
      ensures added && Contents() == Set(old(Contents()), key, callback)
    {
      SetUpdatesMap(Contents(), key, callback);
      var _ := DoRemoveCallback(key);
      added := DoAddCallback(key, callback);
    }
  }
}
