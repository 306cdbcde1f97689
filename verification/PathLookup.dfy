/** find_resource: the search for a node of the registered tree by its path or by its
    observation token. */
module PathLookup {
  import opened CommonTypes
  import opened Optional
  import CText

  /** What every node has: the path as a C string, and the observation token. */
  datatype Node = Node(path: seq<byte>, token: Option<seq<byte>>)

  datatype Resource = Resource(node: Node, multiple: bool, instances: seq<Node>)
  datatype ObjectInstance = ObjectInstance(node: Node, resources: seq<Resource>)
  datatype Object = Object(node: Node, instances: seq<ObjectInstance>)

  /** Where in the tree a node is; Nowhere is a null pointer. */
  datatype Place =
    | Nowhere
    | AtObject(o: nat)
    | AtInstance(o: nat, i: nat)
    | AtResource(o: nat, i: nat, r: nat)
    | AtResourceInstance(o: nat, i: nat, r: nat, k: nat)

  /** The place is that of a node of the tree; a resource has resource instances only
      if it supports multiple ones. */
  predicate In(tree: seq<Object>, p: Place) {
    match p
    case Nowhere => false
    case AtObject(o) => o < |tree|
    case AtInstance(o, i) => o < |tree| && i < |tree[o].instances|
    case AtResource(o, i, r) =>
      o < |tree| && i < |tree[o].instances| && r < |tree[o].instances[i].resources|
    case AtResourceInstance(o, i, r, k) =>
      && o < |tree| && i < |tree[o].instances| && r < |tree[o].instances[i].resources|
      && var resource := tree[o].instances[i].resources[r];
         resource.multiple && k < |resource.instances|
  }

  function NodeAt(tree: seq<Object>, p: Place): Node
    requires In(tree, p)
  {
    match p
    case AtObject(o) => tree[o].node
    case AtInstance(o, i) => tree[o].instances[i].node
    case AtResource(o, i, r) => tree[o].instances[i].resources[r].node
    case AtResourceInstance(o, i, r, k) => tree[o].instances[i].resources[r].instances[k]
  }

  /** What is searched for: a name, and a token if one is given. */
  datatype Query = Query(name: seq<byte>, token: Option<seq<byte>>)

  /** strcmp(path, name) == 0 */
  predicate SamePath(n: Node, q: Query) { CText.UpToNul(n.path) == CText.UpToNul(q.name) }

  predicate SameToken(n: Node, q: Query) { q.token.Some? && n.token == q.token }

  /** Objects compare tokens if the token has a length, the levels below if there is
      a token at all. */
  predicate Hits(n: Node, isObject: bool, q: Query) {
    if q.token.None? || (isObject && q.token.value == []) then SamePath(n, q) else SameToken(n, q)
  }

  predicate IsHit(tree: seq<Object>, p: Place, q: Query) {
    && In(tree, p)
    && Hits(NodeAt(tree, p), p.AtObject?, q)
    // a token is not looked for among resource instances
    && (p.AtResourceInstance? ==> q.token.None?)
  }

  /** The coordinates of a place; -1 where it has none. */
  function O(p: Place): int { if p.Nowhere? then -1 else p.o }
  function I(p: Place): int { if p.Nowhere? || p.AtObject? then -1 else p.i }
  function R(p: Place): int { if p.AtResource? || p.AtResourceInstance? then p.r else -1 }
  function K(p: Place): int { if p.AtResourceInstance? then p.k else -1 }

  /** Depth-first order, a node before what is below it. */
  predicate Before(p: Place, q: Place) {
    || O(p) < O(q)
    || (O(p) == O(q) && I(p) < I(q))
    || (O(p) == O(q) && I(p) == I(q) && R(p) < R(q))
    || (O(p) == O(q) && I(p) == I(q) && R(p) == R(q) && K(p) < K(q))
  }

  /** p is a proper descendant of the place; everything is one of Nowhere. */
  predicate Below(top: Place, p: Place) {
    match top
    case Nowhere => !p.Nowhere?
    case AtObject(o) => O(p) == o && I(p) >= 0
    case AtInstance(o, i) => O(p) == o && I(p) == i && R(p) >= 0
    case AtResource(o, i, r) => O(p) == o && I(p) == i && R(p) == r && K(p) >= 0
    case AtResourceInstance(_, _, _, _) => false
  }

  /** p is the first hit, in depth-first order, below a place; Nowhere if there is none. */
  ghost predicate FirstHit(tree: seq<Object>, q: Query, top: Place, p: Place) {
    && (!p.Nowhere? ==> Below(top, p) && IsHit(tree, p, q))
    && forall r | Below(top, r) && IsHit(tree, r, q) :: !p.Nowhere? && !Before(r, p)
  }

  // ---------------------------------------------------------- the four searches

  /** The last level compares paths only. */
  method FindResourceInstance(tree: seq<Object>, o: nat, i: nat, r: nat, name: seq<byte>) returns (p: Place)
    requires In(tree, AtResource(o, i, r))
    ensures FirstHit(tree, Query(name, None), AtResource(o, i, r), p)
  {
    p := Nowhere;
    var q := Query(name, None);
    var resource := tree[o].instances[i].resources[r];
    if resource.multiple {
      var list := resource.instances;
      for it := 0 to |list|
        invariant p == Nowhere
        invariant forall s | Below(AtResource(o, i, r), s) && K(s) < it :: !IsHit(tree, s, q)
      {
        if SamePath(list[it], q) {
          p := AtResourceInstance(o, i, r, it);
          break;
        }
      }
    }
  }

  method FindResource(tree: seq<Object>, o: nat, i: nat, q: Query) returns (p: Place)
    requires In(tree, AtInstance(o, i))
    ensures FirstHit(tree, q, AtInstance(o, i), p)
  {
    p := Nowhere;
    var list := tree[o].instances[i].resources;
    for it := 0 to |list|
      invariant p == Nowhere
      invariant forall s | Below(AtInstance(o, i), s) && R(s) < it :: !IsHit(tree, s, q)
    {
      if q.token.None? {
        if SamePath(list[it].node, q) {
          p := AtResource(o, i, it);
          break;
        } else if list[it].multiple {
          p := FindResourceInstance(tree, o, i, it, q.name);
          if p != Nowhere {
            break;
          }
        }
      } else if SameToken(list[it].node, q) {
        p := AtResource(o, i, it);
        break;
      }
    }
  }

  method FindObjectInstance(tree: seq<Object>, o: nat, q: Query) returns (p: Place)
    requires In(tree, AtObject(o))
    ensures FirstHit(tree, q, AtObject(o), p)
  {
    p := Nowhere;
    var list := tree[o].instances;
    for it := 0 to |list|
      invariant p == Nowhere
      invariant forall s | Below(AtObject(o), s) && I(s) < it :: !IsHit(tree, s, q)
    {
      if if q.token.None? then SamePath(list[it].node, q) else SameToken(list[it].node, q) {
        p := AtInstance(o, it);
        break;
      }
      p := FindResource(tree, o, it, q);
      if p != Nowhere {
        break;
      }
    }
  }

  method FindObject(tree: seq<Object>, q: Query) returns (p: Place)
    ensures FirstHit(tree, q, Nowhere, p)
  {
    p := Nowhere;
    for it := 0 to |tree|
      invariant p == Nowhere
      invariant forall s | Below(Nowhere, s) && O(s) < it :: !IsHit(tree, s, q)
    {
      var tokenLength := if q.token.None? then 0 else |q.token.value|;
      if if tokenLength == 0 then SamePath(tree[it].node, q) else SameToken(tree[it].node, q) {
        p := AtObject(it);
        break;
      }
      p := FindObjectInstance(tree, it, q);
      if p != Nowhere {
        break;
      }
    }
  }

  // ------------------------------------------------------------- what it finds

  /** Search by path, from the top: a place is found exactly if some node of the tree
      has that path, and the node found has it. */
  lemma PathSearchIsExact(tree: seq<Object>, name: seq<byte>, p: Place)
    requires FirstHit(tree, Query(name, None), Nowhere, p)
    ensures p != Nowhere <==> exists s :: In(tree, s) && CText.UpToNul(NodeAt(tree, s).path) == CText.UpToNul(name)
    ensures p != Nowhere ==> In(tree, p) && CText.UpToNul(NodeAt(tree, p).path) == CText.UpToNul(name)
  {
    var q := Query(name, None);
    if s :| In(tree, s) && CText.UpToNul(NodeAt(tree, s).path) == CText.UpToNul(name) {
      assert Below(Nowhere, s) && IsHit(tree, s, q);
    }
  }

  /** The search has one answer. */
  lemma FirstHitIsUnique(tree: seq<Object>, q: Query, top: Place, p: Place, p': Place)
    requires FirstHit(tree, q, top, p) && FirstHit(tree, q, top, p')
    ensures p == p'
  {
  }

  /** When paths are distinct, searching for a node's own path finds that node. */
  lemma OwnPathFindsNode(tree: seq<Object>, s: Place, p: Place)
    requires In(tree, s)
    requires forall a, b | In(tree, a) && In(tree, b) ::
               CText.UpToNul(NodeAt(tree, a).path) == CText.UpToNul(NodeAt(tree, b).path) ==> a == b
    requires FirstHit(tree, Query(NodeAt(tree, s).path, None), Nowhere, p)
    ensures p == s
  {
    PathSearchIsExact(tree, NodeAt(tree, s).path, p);
    assert SamePath(NodeAt(tree, s), Query(NodeAt(tree, s).path, None));
  }

  /** A search by a token with a length finds the first object, object instance or
      resource observed under it, and never a resource instance. */
  lemma TokenSearchIsExact(tree: seq<Object>, name: seq<byte>, token: seq<byte>, p: Place)
    requires token != [] && FirstHit(tree, Query(name, Some(token)), Nowhere, p)
    ensures p != Nowhere <==>
            exists s :: In(tree, s) && !s.AtResourceInstance? && NodeAt(tree, s).token == Some(token)
    ensures p != Nowhere ==>
              In(tree, p) && !p.AtResourceInstance? && NodeAt(tree, p).token == Some(token)
  {
    var q := Query(name, Some(token));
    if s :| In(tree, s) && !s.AtResourceInstance? && NodeAt(tree, s).token == Some(token) {
      assert Below(Nowhere, s) && IsHit(tree, s, q);
    }
  }

  /** A search by a token without a length compares the objects by path, and what is below
      them by the empty token. */
  lemma EmptyTokenSearchIsExact(tree: seq<Object>, name: seq<byte>, p: Place)
    requires FirstHit(tree, Query(name, Some([])), Nowhere, p)
    ensures p != Nowhere <==>
            || (exists o: nat :: o < |tree| && CText.UpToNul(tree[o].node.path) == CText.UpToNul(name))
            || exists s :: In(tree, s) && (s.AtInstance? || s.AtResource?) && NodeAt(tree, s).token == Some([])
  {
    var q := Query(name, Some([]));
    if o: nat :| o < |tree| && CText.UpToNul(tree[o].node.path) == CText.UpToNul(name) {
      assert Below(Nowhere, AtObject(o)) && IsHit(tree, AtObject(o), q);
    }
    if s :| In(tree, s) && (s.AtInstance? || s.AtResource?) && NodeAt(tree, s).token == Some([]) {
      assert Below(Nowhere, s) && IsHit(tree, s, q);
    }
  }

  /** A node or one below it. */
  predicate AtOrBelow(top: Place, p: Place) { p == top || Below(top, p) }

  /** The order of the search: a node comes before all below it, and these before the next
      node of the same level. */
  lemma SearchIsDepthFirst(p: Place, q: Place, o: nat, i: nat, r: nat, k: nat, next: nat)
    ensures p != Nowhere && Below(p, q) ==> Before(p, q) && !Before(q, p)
    ensures o < next && AtOrBelow(AtObject(o), p) && AtOrBelow(AtObject(next), q) ==> Before(p, q)
    ensures i < next && AtOrBelow(AtInstance(o, i), p) && AtOrBelow(AtInstance(o, next), q) ==> Before(p, q)
    ensures r < next && AtOrBelow(AtResource(o, i, r), p) && AtOrBelow(AtResource(o, i, next), q) ==> Before(p, q)
    ensures k < next ==> Before(AtResourceInstance(o, i, r, k), AtResourceInstance(o, i, r, next))
    ensures Below(AtObject(o), AtInstance(o, i)) && Below(AtInstance(o, i), AtResource(o, i, r))
    ensures Below(AtResource(o, i, r), AtResourceInstance(o, i, r, k))
  {
  }

  /** Of two places one comes first, and only one. */
  lemma OrderIsTotal(p: Place, q: Place)
    ensures p == q || Before(p, q) || Before(q, p)
    ensures !(Before(p, q) && Before(q, p))
  {
  }
}
