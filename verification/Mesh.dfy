/** The mesh a ModelPart stands for, and the effect of its creation methods on it. */
module Mesh {
  import opened ObjectGraph

  datatype ElementType =
    | Hexahedra3D20 | Hexahedra3D27 | Hexahedra3D8 | Prism3D15 | Prism3D6 | Pyramid3D13 | Pyramid3D5
    | Quadrilateral2D4 | Quadrilateral2D8 | Quadrilateral2D9 | Quadrilateral3D4 | Quadrilateral3D8 | Quadrilateral3D9
    | Tetrahedra3D10 | Tetrahedra3D4 | Triangle2D3 | Triangle2D6 | Triangle3D3 | Triangle3D6
    | Line2D2 | Line2D3 | Line3D2 | Line3D3 | Point2D | Point3D

  /** `GetNumberOfNodesForElementType`. */
  function Arity(ty: ElementType): (n: nat)
    ensures 1 <= n <= 27
  {
    match ty
    case Hexahedra3D20 => 20
    case Hexahedra3D27 => 27
    case Hexahedra3D8 => 8
    case Prism3D15 => 15
    case Prism3D6 => 6
    case Pyramid3D13 => 13
    case Pyramid3D5 => 5
    case Quadrilateral2D4 => 4
    case Quadrilateral2D8 => 8
    case Quadrilateral2D9 => 9
    case Quadrilateral3D4 => 4
    case Quadrilateral3D8 => 8
    case Quadrilateral3D9 => 9
    case Tetrahedra3D10 => 10
    case Tetrahedra3D4 => 4
    case Triangle2D3 => 3
    case Triangle2D6 => 6
    case Triangle3D3 => 3
    case Triangle3D6 => 6
    case Line2D2 => 2
    case Line2D3 => 3
    case Line3D2 => 2
    case Line3D3 => 3
    case Point2D => 1
    case Point3D => 1
  }

  datatype NodeData = NodeData(id: int, x: real, y: real, z: real)
  datatype ElementData = ElementData(id: int, ty: ElementType, conn: seq<int>)

  datatype MeshData = MeshData(nodes: seq<NodeData>, elements: seq<ElementData>) {
    predicate HasNode(id: int) {
      exists k :: 0 <= k < |nodes| && nodes[k].id == id
    }

    predicate HasElement(id: int) {
      exists k :: 0 <= k < |elements| && elements[k].id == id
    }

    /** The mesh with one more node, unless the id is taken or not positive. */
    function AddNode(n: NodeData): Option<MeshData> {
      if HasNode(n.id) || n.id < 1 then None else Some(MeshData(nodes + [n], elements))
    }

    predicate CanAdd(e: ElementData) {
      && !HasElement(e.id) && e.id >= 1
      && |e.conn| == Arity(e.ty)
      && forall k :: 0 <= k < |e.conn| ==> HasNode(e.conn[k])
    }

    function AddElement(e: ElementData): Option<MeshData> {
      if CanAdd(e) then Some(MeshData(nodes, elements + [e])) else None
    }

    /** What every reachable mesh satisfies. */
    predicate Ok() {
      && (forall j :: 0 <= j < |nodes| ==> nodes[j].id >= 1)
      && (forall j, k :: 0 <= j < k < |nodes| ==> nodes[j].id != nodes[k].id)
      && (forall j, k :: 0 <= j < k < |elements| ==> elements[j].id != elements[k].id)
      && (forall j :: 0 <= j < |elements| ==>
            elements[j].id >= 1 && |elements[j].conn| == Arity(elements[j].ty)
            && forall k :: 0 <= k < |elements[j].conn| ==> HasNode(elements[j].conn[k]))
    }

    /** One node after the other, up to the first that cannot be added; with the number of those added. */
    function AddNodes(ns: seq<NodeData>): (MeshData, nat)
      decreases |ns|
    {
      if ns == [] then (this, 0)
      else
        match AddNode(ns[0])
        case None => (this, 0)
        case Some(m) => var r := m.AddNodes(ns[1..]); (r.0, r.1 + 1)
    }

    function AddElements(es: seq<ElementData>): (MeshData, nat)
      decreases |es|
    {
      if es == [] then (this, 0)
      else
        match AddElement(es[0])
        case None => (this, 0)
        case Some(m) => var r := m.AddElements(es[1..]); (r.0, r.1 + 1)
    }
  }

  lemma AddNodesStep(m: MeshData, n: NodeData, ns: seq<NodeData>)
    ensures m.AddNodes([n] + ns) ==
      match m.AddNode(n)
      case None => (m, 0)
      case Some(m1) => (m1.AddNodes(ns).0, m1.AddNodes(ns).1 + 1)
  {
    assert ([n] + ns)[1..] == ns;
  }

  lemma AddElementsStep(m: MeshData, e: ElementData, es: seq<ElementData>)
    ensures m.AddElements([e] + es) ==
      match m.AddElement(e)
      case None => (m, 0)
      case Some(m1) => (m1.AddElements(es).0, m1.AddElements(es).1 + 1)
  {
    assert ([e] + es)[1..] == es;
  }

  /** A mesh with its list of ghost nodes and the list of each partition. */
  datatype GhostMesh = GhostMesh(mesh: MeshData, ghosts: seq<NodeData>, lists: map<int, seq<NodeData>>) {
    /** One more ghost node, in the partition `k`. */
    function AddGhost(n: NodeData, k: int): Option<GhostMesh> {
      match mesh.AddNode(n)
      case None => None
      case Some(m) =>
        if k < 0 then None
        else Some(GhostMesh(m, ghosts + [n], lists[k := (if k in lists then lists[k] else []) + [n]]))
    }

    function AddGhosts(ns: seq<(NodeData, int)>): (GhostMesh, nat)
      decreases |ns|
    {
      if ns == [] then (this, 0)
      else
        match AddGhost(ns[0].0, ns[0].1)
        case None => (this, 0)
        case Some(m) => var r := m.AddGhosts(ns[1..]); (r.0, r.1 + 1)
    }
  }

  lemma AddGhostsStep(m: GhostMesh, n: NodeData, k: int, ns: seq<(NodeData, int)>)
    ensures m.AddGhosts([(n, k)] + ns) ==
      match m.AddGhost(n, k)
      case None => (m, 0)
      case Some(m1) => (m1.AddGhosts(ns).0, m1.AddGhosts(ns).1 + 1)
  {
    assert ([(n, k)] + ns)[1..] == ns;
  }

  /** `r` is the result of a run that added `i` things before it continued as `q`. */
  predicate After<M(==)>(r: (M, nat), q: (M, nat), i: nat) {
    r.0 == q.0 && r.1 == q.1 + i
  }

  /** Where the nodes of element `i` start in a flat array of connectivities. */
  function Offset(types: seq<ElementType>, i: nat): (r: nat)
    requires i <= |types|
  {
    if i == 0 then 0 else Offset(types, i - 1) + Arity(types[i - 1])
  }

  lemma {:induction false} OffsetMonotone(types: seq<ElementType>, i: nat, j: nat)
    requires i <= j <= |types|
    ensures Offset(types, i) <= Offset(types, j)
    ensures i < j ==> Offset(types, i) + Arity(types[i]) <= Offset(types, j)
    decreases j - i
  {
    if i < j {
      OffsetMonotone(types, i, j - 1);
    }
  }

  /** The elements described by parallel arrays: element `i` takes the nodes between two offsets. */
  function Slices(ids: seq<int>, types: seq<ElementType>, conns: seq<int>, i: nat): (es: seq<ElementData>)
    requires i <= |ids| == |types| && Offset(types, |types|) == |conns|
    ensures |es| == |ids| - i
    decreases |ids| - i
  {
    if i == |ids| then []
    else
      OffsetMonotone(types, i, |types|);
      [ElementData(ids[i], types[i], conns[Offset(types, i)..Offset(types, i + 1)])] + Slices(ids, types, conns, i + 1)
  }
}
