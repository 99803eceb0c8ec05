/** The object graph of a ModelPart, and its way through the serializer into another one. */
module MeshSnapshots {
  import opened ObjectGraph
  import opened StreamFormat
  import opened LoadWalk
  import opened Isomorphism
  import opened Ownership
  import opened Readability
  import opened RoundTrip
  import opened Mesh
  import opened IndexedVectors
  import opened ModelParts
  import opened MeshGraph

  /** The numbers that stand for coordinates and element types. */
  datatype Coding = Coding(bits: real -> int, kind: ElementType -> int)

  /** A part without its sub parts. */
  datatype Contents = Contents(name: string, nodes: seq<Node>, elements: seq<Element>)

  /**
   * All parts of a ModelPart: itself, and in `parts` its local part, its ghost part, the partition
   * parts in the order of their keys, the local parts of these, and their ghost parts.
   */
  datatype Snapshot = Snapshot(root: Contents, keys: seq<int>, parts: seq<Contents>) {
    // The addresses of the nodes, then those of the elements, then those of the parts.

    function NodeAddr(k: nat): Addr { k }

    function ElementAddr(k: nat): Addr { |root.nodes| + k }

    function PartAddr(m: nat): Addr { |root.nodes| + |root.elements| + m }

    /** Part `m` is a partition part, and has a local and a ghost part of its own. */
    predicate IsPartition(m: nat) { 2 <= m < 2 + |keys| }

    function LocalOf(m: nat): nat { m + |keys| }

    function GhostsOf(m: nat): nat { m + 2 * |keys| }
  }

  // Pointers

  function IndexOf<T(==)>(x: T, s: seq<T>): (k: nat)
    requires x in s
    ensures k < |s| && s[k] == x
  {
    if s[0] == x then 0 else 1 + IndexOf(x, s[1..])
  }

  predicate Within<T(==)>(xs: seq<T>, s: seq<T>) {
    forall j :: 0 <= j < |xs| ==> xs[j] in s
  }

  function NodePtrs(s: Snapshot, ns: seq<Node>): (ps: seq<Ptr>)
    requires Within(ns, s.root.nodes)
    ensures |ps| == |ns|
  {
    seq(|ns|, j requires 0 <= j < |ns| => To(s.NodeAddr(IndexOf(ns[j], s.root.nodes))))
  }

  function ElementPtrs(s: Snapshot, es: seq<Element>): (ps: seq<Ptr>)
    requires Within(es, s.root.elements)
    ensures |ps| == |es|
  {
    seq(|es|, j requires 0 <= j < |es| => To(s.ElementAddr(IndexOf(es[j], s.root.elements))))
  }

  // Objects

  function NodeObj(c: Coding, n: Node): Obj {
    Obj(NODE,
        [Scalar(Num(8, n.id)), Scalar(Num(8, c.bits(n.x))), Scalar(Num(8, c.bits(n.y))), Scalar(Num(8, c.bits(n.z)))])
  }

  function ElementObj(c: Coding, s: Snapshot, e: Element): Obj
    requires Within(e.nodes, s.root.nodes)
  {
    Obj(ELEMENT, [Scalar(Num(8, e.id)), Scalar(Num(4, c.kind(e.ty))), Refs(NodePtrs(s, e.nodes))])
  }

  predicate ContentsOk(p: Contents, root: Contents) {
    Within(p.nodes, root.nodes) && Within(p.elements, root.elements)
  }

  /** Sub parts have nodes and elements of the part, and elements have nodes of the part. */
  predicate SnapshotOk(s: Snapshot) {
    && |s.parts| == 2 + 3 * |s.keys|
    && (forall j, k :: 0 <= j < k < |s.keys| ==> s.keys[j] != s.keys[k])
    && (forall e :: e in s.root.elements ==> Within(e.nodes, s.root.nodes))
    && (forall m :: 0 <= m < |s.parts| ==> ContentsOk(s.parts[m], s.root))
  }

  function PartFields(s: Snapshot, p: Contents, local: Ptr, ghosts: Ptr, es: seq<(Token, Ptr)>): (vs: seq<Value>)
    requires ContentsOk(p, s.root)
  {
    [Scalar(Str(p.name)), Nothing, Refs(NodePtrs(s, p.nodes)), Nothing, Refs(ElementPtrs(s, p.elements)),
     Ref(local), Ref(ghosts), Entries(es)]
  }

  /** The partition parts in the order of the keys. */
  function PartEntries(s: Snapshot): (es: seq<(Token, Ptr)>)
    ensures |es| == |s.keys|
  {
    seq(|s.keys|, q requires 0 <= q < |s.keys| => (Num(4, s.keys[q]), To(s.PartAddr(2 + q))))
  }

  function RootFields(s: Snapshot): (vs: seq<Value>)
    requires SnapshotOk(s)
  {
    PartFields(s, s.root, To(s.PartAddr(0)), To(s.PartAddr(1)), PartEntries(s))
  }

  function SubFields(s: Snapshot, m: nat): (vs: seq<Value>)
    requires SnapshotOk(s) && m < |s.parts|
  {
    if s.IsPartition(m) then PartFields(s, s.parts[m], To(s.PartAddr(s.LocalOf(m))), To(s.PartAddr(s.GhostsOf(m))), [])
    else PartFields(s, s.parts[m], Null, Null, [])
  }

  function ObjAt(c: Coding, s: Snapshot, a: Addr): Obj
    requires SnapshotOk(s) && a < s.PartAddr(|s.parts|)
  {
    if a < s.ElementAddr(0) then NodeObj(c, s.root.nodes[a])
    else if a < s.PartAddr(0) then ElementObj(c, s, s.root.elements[a - s.ElementAddr(0)])
    else Obj(PART, SubFields(s, a - s.PartAddr(0)))
  }

  /** The objects the part leads to. */
  function GraphOf(c: Coding, s: Snapshot): Heap
    requires SnapshotOk(s)
  {
    map a: nat | a < s.PartAddr(|s.parts|) :: ObjAt(c, s, a)
  }

  // The graph is a mesh

  predicate NodesPlaced(c: Coding, s: Snapshot, h: Heap) {
    forall n :: n in s.root.nodes ==>
      var a := s.NodeAddr(IndexOf(n, s.root.nodes)); a in h && h[a] == NodeObj(c, n)
  }

  predicate ElementsPlaced(c: Coding, s: Snapshot, h: Heap)
    requires SnapshotOk(s)
  {
    forall e :: e in s.root.elements ==>
      var a := s.ElementAddr(IndexOf(e, s.root.elements)); a in h && h[a] == ElementObj(c, s, e)
  }

  predicate PartsPlaced(s: Snapshot, h: Heap)
    requires SnapshotOk(s)
  {
    forall m :: 0 <= m < |s.parts| ==> s.PartAddr(m) in h && h[s.PartAddr(m)] == Obj(PART, SubFields(s, m))
  }

  predicate Placed(c: Coding, s: Snapshot, h: Heap) {
    SnapshotOk(s) && NodesPlaced(c, s, h) && ElementsPlaced(c, s, h) && PartsPlaced(s, h)
  }

  lemma GraphAt(c: Coding, s: Snapshot, a: Addr)
    requires SnapshotOk(s) && a < s.PartAddr(|s.parts|)
    ensures a in GraphOf(c, s) && GraphOf(c, s)[a] == ObjAt(c, s, a)
  {
  }

  lemma GraphHasNode(c: Coding, s: Snapshot, n: Node)
    requires SnapshotOk(s) && n in s.root.nodes
    ensures var a := s.NodeAddr(IndexOf(n, s.root.nodes)); a in GraphOf(c, s) && GraphOf(c, s)[a] == NodeObj(c, n)
  {
    GraphAt(c, s, s.NodeAddr(IndexOf(n, s.root.nodes)));
  }

  lemma GraphHasElement(c: Coding, s: Snapshot, e: Element)
    requires SnapshotOk(s) && e in s.root.elements
    ensures var a := s.ElementAddr(IndexOf(e, s.root.elements));
            a in GraphOf(c, s) && GraphOf(c, s)[a] == ElementObj(c, s, e)
  {
    var k := IndexOf(e, s.root.elements);
    assert s.ElementAddr(k) - s.ElementAddr(0) == k;
    GraphAt(c, s, s.ElementAddr(k));
  }

  lemma GraphHasPart(c: Coding, s: Snapshot, m: nat)
    requires SnapshotOk(s) && m < |s.parts|
    ensures s.PartAddr(m) in GraphOf(c, s) && GraphOf(c, s)[s.PartAddr(m)] == Obj(PART, SubFields(s, m))
  {
    assert s.PartAddr(m) - s.PartAddr(0) == m;
    GraphAt(c, s, s.PartAddr(m));
  }

  lemma GraphPlaced(c: Coding, s: Snapshot)
    requires SnapshotOk(s)
    ensures Placed(c, s, GraphOf(c, s))
  {
    forall n | n in s.root.nodes
      ensures var a := s.NodeAddr(IndexOf(n, s.root.nodes)); a in GraphOf(c, s) && GraphOf(c, s)[a] == NodeObj(c, n)
    {
      GraphHasNode(c, s, n);
    }
    forall e | e in s.root.elements
      ensures var a := s.ElementAddr(IndexOf(e, s.root.elements));
              a in GraphOf(c, s) && GraphOf(c, s)[a] == ElementObj(c, s, e)
    {
      GraphHasElement(c, s, e);
    }
    forall m | 0 <= m < |s.parts|
      ensures s.PartAddr(m) in GraphOf(c, s) && GraphOf(c, s)[s.PartAddr(m)] == Obj(PART, SubFields(s, m))
    {
      GraphHasPart(c, s, m);
    }
  }

  lemma NodePtrsPoint(c: Coding, s: Snapshot, h: Heap, ns: seq<Node>)
    requires Placed(c, s, h) && Within(ns, s.root.nodes)
    ensures forall j :: 0 <= j < |ns| ==> NodePtrs(s, ns)[j].To? && PointsTo(h, NODE, NodePtrs(s, ns)[j])
    ensures ValueOk(h, RefsF("", NODE_PTR), Refs(NodePtrs(s, ns)))
  {
    forall j | 0 <= j < |ns|
      ensures PointsTo(h, NODE, NodePtrs(s, ns)[j])
    {
      assert ns[j] in s.root.nodes;
    }
  }

  lemma ElementPtrsPoint(c: Coding, s: Snapshot, h: Heap, es: seq<Element>)
    requires Placed(c, s, h) && Within(es, s.root.elements)
    ensures forall j :: 0 <= j < |es| ==> ElementPtrs(s, es)[j].To? && PointsTo(h, ELEMENT, ElementPtrs(s, es)[j])
    ensures ValueOk(h, RefsF("", ELEMENT_PTR), Refs(ElementPtrs(s, es)))
  {
    forall j | 0 <= j < |es|
      ensures PointsTo(h, ELEMENT, ElementPtrs(s, es)[j])
    {
      assert es[j] in s.root.elements;
    }
  }

  lemma PartFieldsOk(c: Coding, s: Snapshot, h: Heap, p: Contents, local: Ptr, ghosts: Ptr, es: seq<(Token, Ptr)>)
    requires Placed(c, s, h) && ContentsOk(p, s.root) && PointsTo(h, PART, local) && PointsTo(h, PART, ghosts)
    requires ValueOk(h, PART_SHAPE[7], Entries(es)) && forall j :: 0 <= j < |es| ==> PointsTo(h, PART, es[j].1)
    ensures PartOk(h, PartFields(s, p, local, ghosts, es))
  {
    NodePtrsPoint(c, s, h, p.nodes);
    ElementPtrsPoint(c, s, h, p.elements);
  }

  lemma SubFieldsOk(c: Coding, s: Snapshot, h: Heap, m: nat)
    requires Placed(c, s, h) && m < |s.parts|
    ensures PartOk(h, SubFields(s, m))
  {
    if s.IsPartition(m) {
      assert s.LocalOf(m) < |s.parts| && s.GhostsOf(m) < |s.parts|;
      PartFieldsOk(c, s, h, s.parts[m], To(s.PartAddr(s.LocalOf(m))), To(s.PartAddr(s.GhostsOf(m))), []);
    } else {
      PartFieldsOk(c, s, h, s.parts[m], Null, Null, []);
    }
  }

  lemma RootFieldsOk(c: Coding, s: Snapshot, h: Heap)
    requires Placed(c, s, h)
    ensures PartOk(h, RootFields(s))
  {
    assert forall q :: 0 <= q < |s.keys| ==> PartEntries(s)[q].1 == To(s.PartAddr(2 + q)) && 2 + q < |s.parts|;
    PartFieldsOk(c, s, h, s.root, To(s.PartAddr(0)), To(s.PartAddr(1)), PartEntries(s));
  }

  lemma ElementFieldsOk(c: Coding, s: Snapshot, h: Heap, e: Element)
    requires Placed(c, s, h) && e in s.root.elements
    ensures ElementOk(h, ElementObj(c, s, e).fields)
  {
    NodePtrsPoint(c, s, h, e.nodes);
  }

  /** Every object of the graph is that of a node, an element or a part. */
  predicate NothingElse(c: Coding, s: Snapshot, h: Heap)
    requires SnapshotOk(s)
  {
    forall a :: a in h ==>
      || (exists n :: n in s.root.nodes && h[a] == NodeObj(c, n))
      || (exists e :: e in s.root.elements && h[a] == ElementObj(c, s, e))
      || (exists m :: 0 <= m < |s.parts| && a == s.PartAddr(m) && h[a] == Obj(PART, SubFields(s, m)))
  }

  lemma GraphNothingElse(c: Coding, s: Snapshot)
    requires SnapshotOk(s)
    ensures NothingElse(c, s, GraphOf(c, s))
  {
    var h := GraphOf(c, s);
    forall a | a in h && a >= s.PartAddr(0)
      ensures exists m :: 0 <= m < |s.parts| && a == s.PartAddr(m) && h[a] == Obj(PART, SubFields(s, m))
    {
      var m := a - s.PartAddr(0);
      assert 0 <= m < |s.parts| && a == s.PartAddr(m);
    }
  }

  lemma ObjectOk(env: Env, c: Coding, s: Snapshot, h: Heap, o: Obj)
    requires MeshEnv(env) && Placed(c, s, h)
    requires
      || (exists n :: n in s.root.nodes && o == NodeObj(c, n))
      || (exists e :: e in s.root.elements && o == ElementObj(c, s, e))
      || (exists m :: 0 <= m < |s.parts| && o == Obj(PART, SubFields(s, m)))
    ensures o.ty in {NODE, ELEMENT, PART}
    ensures o.ty == NODE ==> FieldsOk(h, NODE_SHAPE, o.fields)
    ensures o.ty == ELEMENT ==> ElementOk(h, o.fields)
    ensures o.ty == PART ==> PartOk(h, o.fields)
  {
    if e :| e in s.root.elements && o == ElementObj(c, s, e) {
      ElementFieldsOk(c, s, h, e);
    } else if m: nat :| m < |s.parts| && o == Obj(PART, SubFields(s, m)) {
      SubFieldsOk(c, s, h, m);
    }
  }

  lemma SnapshotIsMesh(env: Env, c: Coding, s: Snapshot)
    requires MeshEnv(env) && SnapshotOk(s)
    ensures MeshOk(env, GraphOf(c, s)) && PartOk(GraphOf(c, s), RootFields(s))
  {
    GraphPlaced(c, s);
    GraphNothingElse(c, s);
    PlacedIsMesh(env, c, s, GraphOf(c, s));
  }

  lemma PlacedIsMesh(env: Env, c: Coding, s: Snapshot, h: Heap)
    requires MeshEnv(env) && Placed(c, s, h) && NothingElse(c, s, h)
    ensures MeshOk(env, h) && PartOk(h, RootFields(s))
  {
    RootFieldsOk(c, s, h);
    forall a | a in h
      ensures h[a].ty in {NODE, ELEMENT, PART}
      ensures h[a].ty == NODE ==> FieldsOk(h, NODE_SHAPE, h[a].fields)
      ensures h[a].ty == ELEMENT ==> ElementOk(h, h[a].fields)
      ensures h[a].ty == PART ==> PartOk(h, h[a].fields)
    {
      ObjectOk(env, c, s, h, h[a]);
    }
  }

  // Every sub part has one pointer to it

  function PartHome(s: Snapshot, m: nat): Hold {
    if m == 0 then Home(Root, 5, 0)
    else if m == 1 then Home(Root, 6, 0)
    else if s.IsPartition(m) then Home(Root, 7, m - 2)
    else if m < 2 + 2 * |s.keys| then Home(At(s.PartAddr(m - |s.keys|)), 5, 0)
    else Home(At(s.PartAddr(m - 2 * |s.keys|)), 6, 0)
  }

  function HoldAt(s: Snapshot, a: Addr): Hold {
    if a < s.ElementAddr(0) then Through(NODE_PTR)
    else if a < s.PartAddr(0) then Through(ELEMENT_PTR)
    else PartHome(s, a - s.PartAddr(0))
  }

  function HoldsOf(s: Snapshot): Holds {
    map a: nat | a < s.PartAddr(|s.parts|) :: HoldAt(s, a)
  }

  /** How the three kinds of objects are held. */
  predicate HoldsPlaced(s: Snapshot, holds: Holds) {
    && (forall k :: 0 <= k < |s.root.nodes| ==> Held(holds, To(s.NodeAddr(k)), Through(NODE_PTR)))
    && (forall k :: 0 <= k < |s.root.elements| ==> Held(holds, To(s.ElementAddr(k)), Through(ELEMENT_PTR)))
    && (forall m :: 0 <= m < |s.parts| ==> Held(holds, To(s.PartAddr(m)), PartHome(s, m)))
  }

  lemma HoldsOfPlaced(s: Snapshot)
    ensures HoldsPlaced(s, HoldsOf(s))
  {
    forall k | 0 <= k < |s.root.nodes|
      ensures Held(HoldsOf(s), To(s.NodeAddr(k)), Through(NODE_PTR))
    {
      assert s.NodeAddr(k) < s.PartAddr(|s.parts|);
    }
    forall k | 0 <= k < |s.root.elements|
      ensures Held(HoldsOf(s), To(s.ElementAddr(k)), Through(ELEMENT_PTR))
    {
      assert s.ElementAddr(k) < s.PartAddr(|s.parts|);
    }
    forall m | 0 <= m < |s.parts|
      ensures Held(HoldsOf(s), To(s.PartAddr(m)), PartHome(s, m))
    {
      assert s.PartAddr(m) - s.PartAddr(0) == m && s.PartAddr(m) < s.PartAddr(|s.parts|);
    }
  }

  lemma PtrsHeld(s: Snapshot, holds: Holds, me: Owner, i: nat, ns: seq<Node>)
    requires HoldsPlaced(s, holds) && Within(ns, s.root.nodes)
    ensures HeldField(holds, me, i, RefsF("", NODE_PTR), Refs(NodePtrs(s, ns)))
  {
  }

  lemma ElementPtrsHeld(s: Snapshot, holds: Holds, me: Owner, i: nat, es: seq<Element>)
    requires HoldsPlaced(s, holds) && Within(es, s.root.elements)
    ensures HeldField(holds, me, i, RefsF("", ELEMENT_PTR), Refs(ElementPtrs(s, es)))
  {
  }

  lemma PartFieldsHeld(s: Snapshot, holds: Holds, me: Owner, p: Contents, local: Ptr, ghosts: Ptr,
                       es: seq<(Token, Ptr)>)
    requires HoldsPlaced(s, holds) && ContentsOk(p, s.root)
    requires Held(holds, local, Home(me, 5, 0)) && Held(holds, ghosts, Home(me, 6, 0))
    requires forall j :: 0 <= j < |es| ==> Held(holds, es[j].1, Home(me, 7, j))
    ensures HeldFields(holds, me, PART_SHAPE, PartFields(s, p, local, ghosts, es))
  {
    PtrsHeld(s, holds, me, 2, p.nodes);
    ElementPtrsHeld(s, holds, me, 4, p.elements);
  }

  lemma ElementFieldsHeld(c: Coding, s: Snapshot, holds: Holds, me: Owner, e: Element)
    requires HoldsPlaced(s, holds) && SnapshotOk(s) && e in s.root.elements
    ensures HeldFields(holds, me, ELEMENT_SHAPE, ElementObj(c, s, e).fields)
  {
    PtrsHeld(s, holds, me, 2, e.nodes);
  }

  lemma SubFieldsHeld(s: Snapshot, holds: Holds, m: nat)
    requires HoldsPlaced(s, holds) && SnapshotOk(s) && m < |s.parts|
    ensures HeldFields(holds, At(s.PartAddr(m)), PART_SHAPE, SubFields(s, m))
  {
    var me := At(s.PartAddr(m));
    if s.IsPartition(m) {
      assert PartHome(s, s.LocalOf(m)) == Home(me, 5, 0) && PartHome(s, s.GhostsOf(m)) == Home(me, 6, 0);
      PartFieldsHeld(s, holds, me, s.parts[m], To(s.PartAddr(s.LocalOf(m))), To(s.PartAddr(s.GhostsOf(m))), []);
    } else {
      PartFieldsHeld(s, holds, me, s.parts[m], Null, Null, []);
    }
  }

  lemma RootFieldsHeld(s: Snapshot, holds: Holds)
    requires HoldsPlaced(s, holds) && SnapshotOk(s)
    ensures HeldFields(holds, Root, PART_SHAPE, RootFields(s))
  {
    forall q | 0 <= q < |s.keys|
      ensures Held(holds, PartEntries(s)[q].1, Home(Root, 7, q))
    {
      assert PartHome(s, 2 + q) == Home(Root, 7, q);
    }
    PartFieldsHeld(s, holds, Root, s.root, To(s.PartAddr(0)), To(s.PartAddr(1)), PartEntries(s));
  }

  lemma SnapshotPartsUnique(env: Env, c: Coding, s: Snapshot)
    requires MeshEnv(env) && SnapshotOk(s)
    ensures PartsUnique(env, GraphOf(c, s), RootFields(s), HoldsOf(s))
  {
    HoldsOfPlaced(s);
    GraphNothingElse(c, s);
    PlacedIsUnique(env, c, s, GraphOf(c, s), HoldsOf(s));
  }

  lemma PlacedIsUnique(env: Env, c: Coding, s: Snapshot, h: Heap, holds: Holds)
    requires MeshEnv(env) && SnapshotOk(s) && NothingElse(c, s, h) && HoldsPlaced(s, holds)
    ensures PartsUnique(env, h, RootFields(s), holds)
  {
    RootFieldsHeld(s, holds);
    forall a | a in h
      ensures HeldFields(holds, At(a), env.Shape(h[a].ty), h[a].fields)
    {
      ObjectHeld(env, c, s, h, holds, a);
    }
  }

  lemma ObjectHeld(env: Env, c: Coding, s: Snapshot, h: Heap, holds: Holds, a: Addr)
    requires MeshEnv(env) && SnapshotOk(s) && NothingElse(c, s, h) && HoldsPlaced(s, holds) && a in h
    ensures HeldFields(holds, At(a), env.Shape(h[a].ty), h[a].fields)
  {
    if e :| e in s.root.elements && h[a] == ElementObj(c, s, e) {
      ElementFieldsHeld(c, s, holds, At(a), e);
    } else if m: nat :| m < |s.parts| && a == s.PartAddr(m) && h[a] == Obj(PART, SubFields(s, m)) {
      SubFieldsHeld(s, holds, m);
    }
  }

  // ModelParts

  function ContentsOf(p: ModelPart): Contents
    reads p
  {
    Contents(p.name, p.nodes.data, p.elements.data)
  }

  /** The partitions in iteration order. */
  ghost predicate Enumerates(keys: seq<int>, parts: map<int, ModelPart>) {
    && (forall j, k :: 0 <= j < k < |keys| ==> keys[j] != keys[k])
    && forall k :: k in keys <==> k in parts
  }

  ghost predicate Sendable(part: ModelPart, keys: seq<int>)
    reads part, part.Parts(), part.InnerParts()
  {
    part.Valid() && Enumerates(keys, part.partitions)
  }

  ghost function PartNo(part: ModelPart, keys: seq<int>, m: nat): (p: ModelPart)
    requires Sendable(part, keys) && m < 2 + 3 * |keys|
    reads part, part.Parts(), part.InnerParts()
    ensures p in part.Parts() + part.InnerParts()
  {
    if m == 0 then part.local
    else if m == 1 then part.ghosts
    else if m < 2 + |keys| then PartitionNo(part, keys, m - 2)
    else if m < 2 + 2 * |keys| then
      assert PartitionNo(part, keys, m - 2 - |keys|).local in part.InnerParts();
      PartitionNo(part, keys, m - 2 - |keys|).local
    else
      assert PartitionNo(part, keys, m - 2 - 2 * |keys|).ghosts in part.InnerParts();
      PartitionNo(part, keys, m - 2 - 2 * |keys|).ghosts
  }

  lemma KeyFound(keys: seq<int>, parts: map<int, ModelPart>, q: nat)
    requires Enumerates(keys, parts) && q < |keys|
    ensures keys[q] in parts
  {
    assert keys[q] in keys;
  }

  lemma PartitionFound(part: ModelPart, keys: seq<int>, q: nat)
    requires Sendable(part, keys) && q < |keys|
    ensures keys[q] in part.partitions && part.partitions[keys[q]] in part.partitions.Values
    ensures var p := part.partitions[keys[q]];
            && p.local != null && p.ghosts != null
            && p.local in part.InnerParts() && p.ghosts in part.InnerParts()
  {
    KeyFound(keys, part.partitions, q);
    PartitionIsBranch(part, keys[q]);
    var p := part.partitions[keys[q]];
    InnerHas(part.partitions, keys[q], p.local);
    InnerHas(part.partitions, keys[q], p.ghosts);
  }

  lemma PartitionIsBranch(part: ModelPart, k: int)
    requires part.Valid() && k in part.partitions
    ensures var p := part.partitions[k]; p.Branch() && p.local in p.OwnParts() && p.ghosts in p.OwnParts()
  {
    assert part.Nested();
  }

  lemma InnerHas(parts: map<int, ModelPart>, k: int, p: ModelPart)
    requires k in parts && p in parts[k].OwnParts()
    ensures p in ModelPart.InnerOf(parts)
  {
  }

  ghost function PartitionNo(part: ModelPart, keys: seq<int>, q: nat): (p: ModelPart)
    requires Sendable(part, keys) && q < |keys|
    reads part, part.Parts(), part.InnerParts()
    ensures p in part.partitions.Values && keys[q] in part.partitions && p == part.partitions[keys[q]]
    ensures p.local != null && p.ghosts != null && p.local in part.InnerParts() && p.ghosts in part.InnerParts()
  {
    PartitionFound(part, keys, q);
    part.partitions[keys[q]]
  }

  lemma InnerIs(part: ModelPart, keys: seq<int>, i: nat)
    requires Sendable(part, keys) && i < |keys|
    ensures PartNo(part, keys, 2 + |keys| + i) == PartitionNo(part, keys, i).local
    ensures PartNo(part, keys, 2 + 2 * |keys| + i) == PartitionNo(part, keys, i).ghosts
  {
  }

  lemma LocalsApart(part: ModelPart, keys: seq<int>, i: nat, j: nat)
    requires Sendable(part, keys) && i < j < |keys|
    ensures PartNo(part, keys, 2 + |keys| + i) != PartNo(part, keys, 2 + |keys| + j)
  {
    InnerIs(part, keys, i);
    InnerIs(part, keys, j);
    InnerApart(part, keys, i, j);
  }

  lemma GhostsApart(part: ModelPart, keys: seq<int>, i: nat, j: nat)
    requires Sendable(part, keys) && i < j < |keys|
    ensures PartNo(part, keys, 2 + 2 * |keys| + i) != PartNo(part, keys, 2 + 2 * |keys| + j)
  {
    InnerIs(part, keys, i);
    InnerIs(part, keys, j);
    InnerApart(part, keys, i, j);
  }

  lemma LocalGhostApart(part: ModelPart, keys: seq<int>, i: nat, j: nat)
    requires Sendable(part, keys) && i < |keys| && j < |keys|
    ensures PartNo(part, keys, 2 + |keys| + i) != PartNo(part, keys, 2 + 2 * |keys| + j)
  {
    InnerIs(part, keys, i);
    InnerIs(part, keys, j);
    InnerApart(part, keys, i, j);
  }

  lemma InnersApart(part: ModelPart, keys: seq<int>, m: nat, n: nat)
    requires Sendable(part, keys) && 2 + |keys| <= m < n < 2 + 3 * |keys|
    ensures PartNo(part, keys, m) != PartNo(part, keys, n)
  {
    var locals, ghosts := 2 + |keys|, 2 + 2 * |keys|;
    if n < ghosts {
      LocalsApart(part, keys, m - locals, n - locals);
    } else if m < ghosts {
      LocalGhostApart(part, keys, m - locals, n - ghosts);
    } else {
      GhostsApart(part, keys, m - ghosts, n - ghosts);
    }
  }

  lemma PartKinds(part: ModelPart, keys: seq<int>, m: nat)
    requires Sendable(part, keys) && m < 2 + 3 * |keys|
    ensures PartNo(part, keys, m) in if m < 2 + |keys| then part.Parts() else part.InnerParts()
    ensures PartNo(part, keys, m) != part
  {
  }

  lemma OutersApart(part: ModelPart, keys: seq<int>, m: nat, n: nat)
    requires Sendable(part, keys) && m < n < 2 + |keys|
    ensures PartNo(part, keys, m) != PartNo(part, keys, n)
  {
    if 2 <= m { PartitionsApart(part, keys, m - 2, n - 2); }
  }

  /** Each object has one address: different addresses stand for different parts. */
  lemma OneAddressEach(part: ModelPart, keys: seq<int>, m: nat, n: nat)
    requires Sendable(part, keys) && m < n < 2 + 3 * |keys|
    ensures PartNo(part, keys, m) != PartNo(part, keys, n) && part !in {PartNo(part, keys, m), PartNo(part, keys, n)}
  {
    PartKinds(part, keys, m);
    PartKinds(part, keys, n);
    if 2 + |keys| <= m {
      InnersApart(part, keys, m, n);
    } else if n < 2 + |keys| {
      OutersApart(part, keys, m, n);
    }
  }

  lemma PartitionsApart(part: ModelPart, keys: seq<int>, i: nat, j: nat)
    requires Sendable(part, keys) && i < j < |keys|
    ensures PartitionNo(part, keys, i) != PartitionNo(part, keys, j)
  {
    assert keys[i] != keys[j];
  }

  lemma InnerApart(part: ModelPart, keys: seq<int>, i: nat, j: nat)
    requires Sendable(part, keys) && i < |keys| && j < |keys|
    ensures var p, q := PartitionNo(part, keys, i), PartitionNo(part, keys, j);
            p.local != q.ghosts && (i != j ==> p.local != q.local && p.ghosts != q.ghosts)
  {
    var p, q := PartitionNo(part, keys, i), PartitionNo(part, keys, j);
    assert p.local in p.OwnParts() && p.ghosts in p.OwnParts() && q.local in q.OwnParts() && q.ghosts in q.OwnParts();
    if i != j {
      assert keys[i] != keys[j];
      assert p.OwnParts() !! q.OwnParts();
    } else {
      assert p.Branch();
    }
  }

  lemma ViewWithin(view: seq<Node>, all: seq<Node>)
    requires ViewOf(view, all)
    ensures Within(view, all)
  {
    forall j | 0 <= j < |view|
      ensures view[j] in all
    {
      assert view[j] in ToSet(view);
    }
  }

  lemma SubPartOk(part: ModelPart, keys: seq<int>, m: nat)
    requires Sendable(part, keys) && m < 2 + 3 * |keys|
    ensures ContentsOk(ContentsOf(PartNo(part, keys, m)), ContentsOf(part))
  {
    ViewWithin(part.local.nodes.data, part.nodes.data);
    ViewWithin(part.ghosts.nodes.data, part.nodes.data);
    if 2 <= m < 2 + |keys| {
      var p := PartitionNo(part, keys, m - 2);
      assert ModelPart.ListsOf(part.partitions)[keys[m - 2]] == p.nodes.data;
      ViewWithin(p.nodes.data, part.ghosts.nodes.data);
    } else if 2 + |keys| <= m {
      var p := PartitionNo(part, keys, if m < 2 + 2 * |keys| then m - 2 - |keys| else m - 2 - 2 * |keys|);
      assert p.Branch();
    }
  }

  lemma PartsMakeSnapshot(part: ModelPart, keys: seq<int>, s: Snapshot)
    requires Sendable(part, keys) && s.root == ContentsOf(part) && s.keys == keys && |s.parts| == 2 + 3 * |keys|
    requires forall m :: 0 <= m < |s.parts| ==> s.parts[m] == ContentsOf(PartNo(part, keys, m))
    ensures SnapshotOk(s)
  {
    forall m | 0 <= m < |s.parts|
      ensures ContentsOk(s.parts[m], s.root)
    {
      SubPartOk(part, keys, m);
    }
  }

  ghost function SnapshotOf(part: ModelPart, keys: seq<int>): (s: Snapshot)
    requires Sendable(part, keys)
    reads part, part.Parts(), part.InnerParts()
    ensures SnapshotOk(s)
  {
    var parts := seq(2 + 3 * |keys|,
                     m requires 0 <= m < 2 + 3 * |keys| && Sendable(part, keys)
                       reads part, part.Parts(), part.InnerParts() => ContentsOf(PartNo(part, keys, m)));
    var s := Snapshot(ContentsOf(part), keys, parts);
    PartsMakeSnapshot(part, keys, s);
    s
  }

  // The receiver

  /** An empty part as the loading process sees it. */
  function EmptyObj(p: ModelPart, local: Ptr, ghosts: Ptr): Obj
    requires p.Empty()
    reads p
  {
    Obj(PART, [Scalar(Str(p.name)), Nothing, Refs([]), Nothing, Refs([]), Ref(local), Ref(ghosts), Entries([])])
  }

  lemma EmptyIsBlank(p: ModelPart, local: Ptr, ghosts: Ptr)
    requires p.Empty()
    ensures BlankPart(EmptyObj(p, local, ghosts), local, ghosts)
  {
  }

  lemma EmptyInside(part: ModelPart)
    requires part.Valid() && part.Empty()
    ensures part.local.Empty() && part.ghosts.Empty()
  {
    ViewWithin(part.local.nodes.data, part.nodes.data);
    ViewWithin(part.ghosts.nodes.data, part.nodes.data);
    assert part.local.nodes.data == [] && part.ghosts.nodes.data == [];
    assert NodeIds([]) == [];
  }

  /** The memory of a process with one empty ModelPart. */
  ghost function MemoryOf(part: ModelPart): (mem: Memory)
    requires part.Valid() && part.Empty()
    reads part, part.Parts(), part.InnerParts()
    ensures NewPart(mem)
  {
    EmptyInside(part);
    EmptyIsBlank(part, To(1), To(2));
    EmptyIsBlank(part.local, Null, Null);
    EmptyIsBlank(part.ghosts, Null, Null);
    [EmptyObj(part, To(1), To(2)), EmptyObj(part.local, Null, Null), EmptyObj(part.ghosts, Null, Null)]
  }

  // What arrives

  /** The object that a node becomes. */
  predicate IsNode(c: Coding, n: Node, o: Obj) {
    && o.ty == "Node" && |o.fields| == 4
    && o.fields[0] == Scalar(Num(8, n.id)) && o.fields[1] == Scalar(Num(8, c.bits(n.x)))
    && o.fields[2] == Scalar(Num(8, c.bits(n.y))) && o.fields[3] == Scalar(Num(8, c.bits(n.z)))
  }

  /** The nodes `ns` of the part with all nodes `all`, each rebuilt once with its id and coordinates. */
  ghost predicate NodesBack(c: Coding, s: Snapshot, ns: seq<Node>, mem: Memory, qs: seq<Ptr>, iso: Iso) {
    && |qs| == |ns| && Within(ns, s.root.nodes)
    && forall j :: 0 <= j < |ns| ==>
      var a := s.NodeAddr(IndexOf(ns[j], s.root.nodes));
      a in iso && qs[j] == To(iso[a]) && iso[a] < |mem| && IsNode(c, ns[j], mem[iso[a]])
  }

  ghost predicate ElementBack(c: Coding, s: Snapshot, e: Element, mem: Memory, o: Obj, iso: Iso) {
    && |o.fields| == 3 && o.fields[0] == Scalar(Num(8, e.id)) && o.fields[1] == Scalar(Num(4, c.kind(e.ty)))
    && o.fields[2].Refs? && NodesBack(c, s, e.nodes, mem, o.fields[2].ps, iso)
  }

  ghost predicate ElementsBack(c: Coding, s: Snapshot, es: seq<Element>, mem: Memory, qs: seq<Ptr>, iso: Iso) {
    && |qs| == |es| && Within(es, s.root.elements)
    && forall j :: 0 <= j < |es| ==>
      var a := s.ElementAddr(IndexOf(es[j], s.root.elements));
      a in iso && qs[j] == To(iso[a]) && iso[a] < |mem| && ElementBack(c, s, es[j], mem, mem[iso[a]], iso)
  }

  /** The part without its sub parts has been rebuilt with the fields `ws`, which lead to the indexes of its ids. */
  ghost predicate ContentsBack(c: Coding, s: Snapshot, p: Contents, mem: Memory, ws: seq<Value>, iso: Iso) {
    && |ws| == 8 && ws[0] == Scalar(Str(p.name))
    && ws[2].Refs? && NodesBack(c, s, p.nodes, mem, ws[2].ps, iso)
    && ws[4].Refs? && ElementsBack(c, s, p.elements, mem, ws[4].ps, iso)
    && AccessMap(LoadedIds(mem, ws[2].ps)) == AccessMap(NodeIds(p.nodes))
    && AccessMap(LoadedIds(mem, ws[4].ps)) == AccessMap(ElementIds(p.elements))
  }

  /** Part `m` has been rebuilt where `q` leads to, an object of its own. */
  ghost predicate PartBack(c: Coding, s: Snapshot, m: nat, mem: Memory, q: Ptr, iso: Iso)
    requires SnapshotOk(s) && m < |s.parts|
  {
    && s.PartAddr(m) in iso && q == To(iso[s.PartAddr(m)]) && q.a < |mem|
    && ContentsBack(c, s, s.parts[m], mem, mem[q.a].fields, iso)
  }

  /** So has a part without sub parts. */
  ghost predicate LeafBack(c: Coding, s: Snapshot, m: nat, mem: Memory, q: Ptr, iso: Iso)
    requires SnapshotOk(s) && m < |s.parts|
  {
    && PartBack(c, s, m, mem, q, iso)
    && var ws := mem[q.a].fields; ws[5] == Ref(Null) && ws[6] == Ref(Null) && ws[7] == Entries([])
  }

  /** So has a partition part, with its local and its ghost part. */
  ghost predicate BranchBack(c: Coding, s: Snapshot, m: nat, mem: Memory, q: Ptr, iso: Iso)
    requires SnapshotOk(s) && s.IsPartition(m)
  {
    && PartBack(c, s, m, mem, q, iso)
    && var ws := mem[q.a].fields;
       && ws[5].Ref? && LeafBack(c, s, s.LocalOf(m), mem, ws[5].p, iso)
       && ws[6].Ref? && LeafBack(c, s, s.GhostsOf(m), mem, ws[6].p, iso)
       && ws[7] == Entries([])
  }

  /** The entry of the partition part with key number `k`. */
  ghost predicate EntryBack(c: Coding, s: Snapshot, k: nat, mem: Memory, e: (Token, Ptr), iso: Iso)
    requires SnapshotOk(s) && k < |s.keys|
  {
    e.0 == Num(4, s.keys[k]) && BranchBack(c, s, 2 + k, mem, e.1, iso)
  }

  /** One of the entries is that of key number `k`. */
  ghost predicate PartitionBack(c: Coding, s: Snapshot, k: nat, mem: Memory, es: seq<(Token, Ptr)>, iso: Iso)
    requires SnapshotOk(s) && k < |s.keys|
  {
    exists j :: 0 <= j < |es| && EntryBack(c, s, k, mem, es[j], iso)
  }

  /** There is one entry for every key, in any order. */
  ghost predicate PartitionsBack(c: Coding, s: Snapshot, mem: Memory, es: seq<(Token, Ptr)>, iso: Iso)
    requires SnapshotOk(s)
  {
    && |es| == |s.keys|
    && forall k :: 0 <= k < |s.keys| ==> PartitionBack(c, s, k, mem, es, iso)
  }

  /** The part and all parts within it have arrived: the same lists everywhere, over the same shared nodes. */
  ghost predicate Arrived(c: Coding, s: Snapshot, mem: Memory, iso: Iso)
    requires SnapshotOk(s)
  {
    && |mem| > 0 && Injective(iso) && ContentsBack(c, s, s.root, mem, mem[0].fields, iso)
    && var ws := mem[0].fields;
       && ws[5].Ref? && LeafBack(c, s, 0, mem, ws[5].p, iso)
       && ws[6].Ref? && LeafBack(c, s, 1, mem, ws[6].p, iso)
       && ws[7].Entries? && PartitionsBack(c, s, mem, ws[7].es, iso)
  }

  /** Two pointers of what arrived are equal exactly when they stand for the same node. */
  lemma NodesShared(c: Coding, s: Snapshot, ns: seq<Node>, ms: seq<Node>, mem: Memory, qs: seq<Ptr>, rs: seq<Ptr>,
                    iso: Iso, j: nat, k: nat)
    requires Injective(iso) && NodesBack(c, s, ns, mem, qs, iso) && NodesBack(c, s, ms, mem, rs, iso) && j < |ns|
    requires k < |ms|
    ensures qs[j] == rs[k] <==> ns[j] == ms[k]
  {
    assert ns[j] in s.root.nodes && ms[k] in s.root.nodes;
  }

  lemma ElementsShared(c: Coding, s: Snapshot, es: seq<Element>, fs: seq<Element>, mem: Memory, qs: seq<Ptr>,
                       rs: seq<Ptr>, iso: Iso, j: nat, k: nat)
    requires Injective(iso) && ElementsBack(c, s, es, mem, qs, iso) && ElementsBack(c, s, fs, mem, rs, iso)
    requires j < |es| && k < |fs|
    ensures qs[j] == rs[k] <==> es[j] == fs[k]
  {
    assert es[j] in s.root.elements && fs[k] in s.root.elements;
  }

  lemma NodesArrive(c: Coding, s: Snapshot, h: Heap, ns: seq<Node>, mem: Memory, qs: seq<Ptr>, iso: Iso)
    requires Placed(c, s, h) && Within(ns, s.root.nodes) && SameNodes(h, NodePtrs(s, ns), mem, qs, iso)
    ensures NodesBack(c, s, ns, mem, qs, iso)
  {
    forall j | 0 <= j < |ns|
      ensures var a := s.NodeAddr(IndexOf(ns[j], s.root.nodes));
              a in iso && qs[j] == To(iso[a]) && iso[a] < |mem| && IsNode(c, ns[j], mem[iso[a]])
    {
      assert NodePtrs(s, ns)[j] == To(s.NodeAddr(IndexOf(ns[j], s.root.nodes)));
      assert ns[j] in s.root.nodes;
    }
  }

  lemma ElementsArrive(c: Coding, s: Snapshot, h: Heap, es: seq<Element>, mem: Memory, qs: seq<Ptr>, iso: Iso)
    requires Placed(c, s, h) && Within(es, s.root.elements) && SameElements(h, ElementPtrs(s, es), mem, qs, iso)
    ensures ElementsBack(c, s, es, mem, qs, iso)
  {
    forall j | 0 <= j < |es|
      ensures var a := s.ElementAddr(IndexOf(es[j], s.root.elements));
              a in iso && qs[j] == To(iso[a]) && iso[a] < |mem| && ElementBack(c, s, es[j], mem, mem[iso[a]], iso)
    {
      assert ElementPtrs(s, es)[j] == To(s.ElementAddr(IndexOf(es[j], s.root.elements)));
      assert es[j] in s.root.elements;
      assert SameElement(h, ElementObj(c, s, es[j]), mem, mem[qs[j].a], iso);
      NodesArrive(c, s, h, es[j].nodes, mem, mem[qs[j].a].fields[2].ps, iso);
    }
  }

  lemma ContentsArrive(c: Coding, s: Snapshot, h: Heap, p: Contents, local: Ptr, ghosts: Ptr, es: seq<(Token, Ptr)>,
                       mem: Memory, ws: seq<Value>, iso: Iso, depth: nat)
    requires Placed(c, s, h) && ContentsOk(p, s.root)
    requires SamePart(h, PartFields(s, p, local, ghosts, es), mem, ws, iso, depth)
    ensures ContentsBack(c, s, p, mem, ws, iso)
  {
    NodesArrive(c, s, h, p.nodes, mem, ws[2].ps, iso);
    ElementsArrive(c, s, h, p.elements, mem, ws[4].ps, iso);
    NodeIdsArrive(c, s, p.nodes, mem, ws[2].ps, iso);
    ElementIdsArrive(c, s, p.elements, mem, ws[4].ps, iso);
  }

  lemma NodeIdsArrive(c: Coding, s: Snapshot, ns: seq<Node>, mem: Memory, qs: seq<Ptr>, iso: Iso)
    requires NodesBack(c, s, ns, mem, qs, iso)
    ensures LoadedIds(mem, qs) == NodeIds(ns)
  {
  }

  lemma ElementIdsArrive(c: Coding, s: Snapshot, es: seq<Element>, mem: Memory, qs: seq<Ptr>, iso: Iso)
    requires ElementsBack(c, s, es, mem, qs, iso)
    ensures LoadedIds(mem, qs) == ElementIds(es)
  {
  }

  lemma PartArrives(c: Coding, s: Snapshot, h: Heap, m: nat, mem: Memory, q: Ptr, iso: Iso, depth: nat)
    requires Placed(c, s, h) && m < |s.parts| && depth > 0 && SameSubPart(h, To(s.PartAddr(m)), mem, q, iso, depth)
    ensures PartBack(c, s, m, mem, q, iso) && SamePart(h, SubFields(s, m), mem, mem[q.a].fields, iso, depth - 1)
  {
    var ws := mem[q.a].fields;
    assert SamePart(h, SubFields(s, m), mem, ws, iso, depth - 1);
    if s.IsPartition(m) {
      ContentsArrive(c, s, h, s.parts[m], To(s.PartAddr(s.LocalOf(m))), To(s.PartAddr(s.GhostsOf(m))), [], mem, ws, iso,
                     depth - 1);
    } else {
      ContentsArrive(c, s, h, s.parts[m], Null, Null, [], mem, ws, iso, depth - 1);
    }
  }

  lemma LeafArrives(c: Coding, s: Snapshot, h: Heap, m: nat, mem: Memory, q: Ptr, iso: Iso, depth: nat)
    requires Placed(c, s, h) && m < |s.parts| && !s.IsPartition(m)
    requires depth > 0 && SameSubPart(h, To(s.PartAddr(m)), mem, q, iso, depth)
    ensures LeafBack(c, s, m, mem, q, iso)
  {
    PartArrives(c, s, h, m, mem, q, iso, depth);
    assert SubFields(s, m) == PartFields(s, s.parts[m], Null, Null, []);
  }

  lemma BranchArrives(c: Coding, s: Snapshot, h: Heap, m: nat, mem: Memory, q: Ptr, iso: Iso)
    requires Placed(c, s, h) && s.IsPartition(m) && SameSubPart(h, To(s.PartAddr(m)), mem, q, iso, 2)
    ensures BranchBack(c, s, m, mem, q, iso)
  {
    PartArrives(c, s, h, m, mem, q, iso, 2);
    var ws := mem[q.a].fields;
    LeafArrives(c, s, h, s.LocalOf(m), mem, ws[5].p, iso, 1);
    LeafArrives(c, s, h, s.GhostsOf(m), mem, ws[6].p, iso, 1);
  }

  lemma AllArrive(c: Coding, s: Snapshot, h: Heap, mem: Memory, iso: Iso)
    requires Placed(c, s, h) && |mem| > 0 && Injective(iso) && SamePart(h, RootFields(s), mem, mem[0].fields, iso, 2)
    ensures Arrived(c, s, mem, iso)
  {
    var vs, ws := RootFields(s), mem[0].fields;
    ContentsArrive(c, s, h, s.root, To(s.PartAddr(0)), To(s.PartAddr(1)), PartEntries(s), mem, ws, iso, 2);
    LeafArrives(c, s, h, 0, mem, ws[5].p, iso, 2);
    LeafArrives(c, s, h, 1, mem, ws[6].p, iso, 2);
    assert forall k :: 0 <= k < |s.keys| ==>
      ws[7].es[k].0 == vs[7].es[k].0 && SameSubPart(h, vs[7].es[k].1, mem, ws[7].es[k].1, iso, 2);
    PartitionsArrive(c, s, h, mem, ws[7].es, iso);
  }

  lemma PartitionsArrive(c: Coding, s: Snapshot, h: Heap, mem: Memory, es: seq<(Token, Ptr)>, iso: Iso)
    requires Placed(c, s, h) && |es| == |s.keys|
    requires forall k :: 0 <= k < |s.keys| ==>
      es[k].0 == PartEntries(s)[k].0 && SameSubPart(h, PartEntries(s)[k].1, mem, es[k].1, iso, 2)
    ensures PartitionsBack(c, s, mem, es, iso)
  {
    forall k | 0 <= k < |s.keys|
      ensures PartitionBack(c, s, k, mem, es, iso)
    {
      BranchArrives(c, s, h, 2 + k, mem, es[k].1, iso);
      assert EntryBack(c, s, k, mem, es[k], iso);
    }
  }

  /** The indexes that loading computes for the lists in `ws` are those of `p`. */
  ghost predicate IndexesBack(p: ModelPart, mem: Memory, ws: seq<Value>)
    reads p
  {
    && |ws| == 8 && ws[2].Refs? && ws[4].Refs?
    && AccessMap(LoadedIds(mem, ws[2].ps)) == p.nodes.access
    && AccessMap(LoadedIds(mem, ws[4].ps)) == p.elements.access
  }

  /** Every part that has arrived finds its nodes and elements by the index it was saved with. */
  lemma SubPartIndexesBack(c: Coding, part: ModelPart, keys: seq<int>, m: nat, mem: Memory, q: Ptr, iso: Iso)
    requires Sendable(part, keys) && m < 2 + 3 * |keys| && PartBack(c, SnapshotOf(part, keys), m, mem, q, iso)
    ensures IndexesBack(PartNo(part, keys, m), mem, mem[q.a].fields)
  {
    PartIndexed(part, keys, m);
  }

  lemma PartIndexed(part: ModelPart, keys: seq<int>, m: nat)
    requires Sendable(part, keys) && m < 2 + 3 * |keys|
    ensures PartNo(part, keys, m).Indexed()
  {
    if 2 + |keys| <= m {
      var p := PartitionNo(part, keys, if m < 2 + 2 * |keys| then m - 2 - |keys| else m - 2 - 2 * |keys|);
      assert p.Branch();
    } else if 2 <= m {
      assert PartitionNo(part, keys, m - 2).Indexed();
    }
  }

  /** The requirements on the mode: it represents what the serializer puts around the names and numbers. */
  ghost predicate Carries(env: Env, c: Coding, s: Snapshot)
    requires SnapshotOk(s)
  {
    MeshEnv(env) && CodeOk(env) && Framed(env, GraphOf(c, s)) && FieldsFramed(env, PART_SHAPE, RootFields(s))
  }

  /** The names, ids, coordinates and types of the part are readable. */
  ghost predicate PartReadable(env: Env, c: Coding, s: Snapshot, reach: set<Addr>)
    requires SnapshotOk(s)
  {
    GraphReadable(env, GraphOf(c, s), RootFields(s), reach)
  }

  lemma SnapshotSaveThenLoad(env: Env, c: Coding, s: Snapshot, mem: Memory, tail: string) returns (iso: Iso)
    requires SnapshotOk(s) && Carries(env, c, s) && NewPart(mem)
    ensures HeapOk(env, GraphOf(c, s)) && FieldsOk(GraphOf(c, s), PART_SHAPE, RootFields(s))
    ensures var w := Save(env, GraphOf(c, s), PART_SHAPE, RootFields(s));
            w.Walk? &&
            var r := LoadInto(env, PART_SHAPE, Wire(env, w.out, tail), mem);
            && (Faithful(r, w.out) <==> PartReadable(env, c, s, w.done))
            && (Faithful(r, w.out) ==>
                 Arrived(c, s, r.mem, iso) && Isomorphic(GraphOf(c, s), RootFields(s), w.done, r.mem, iso))
  {
    var h, vs := GraphOf(c, s), RootFields(s);
    SnapshotIsMesh(env, c, s);
    SnapshotPartsUnique(env, c, s);
    NewPartReceives(env, h, vs, mem);
    iso := ModelPartSaveThenLoad(env, h, vs, HoldsOf(s), mem, tail);
    var w := Save(env, h, PART_SHAPE, vs);
    var r := LoadInto(env, PART_SHAPE, Wire(env, w.out, tail), mem);
    if Faithful(r, w.out) {
      assert SamePart(h, vs, r.mem, r.mem[0].fields, iso, 2);
      GraphPlaced(c, s);
      AllArrive(c, s, h, r.mem, iso);
    }
  }
}
