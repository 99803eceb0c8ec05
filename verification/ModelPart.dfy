/** ModelPart: one list of nodes, and local, ghost and partition views that share its node objects. */
module ModelParts {
  import opened ObjectGraph
  import opened Decimals
  import opened Mesh
  import opened Elements
  import opened IndexedVectors

  class Node {
    const id: int
    const x: real
    const y: real
    const z: real

    constructor (id: int, x: real, y: real, z: real)
      requires id >= 1
      ensures this.id == id && this.x == x && this.y == y && this.z == z
    {
      this.id, this.x, this.y, this.z := id, x, y, z;
    }

    function Data(): NodeData {
      NodeData(id, x, y, z)
    }
  }

  class Element {
    const id: int
    const ty: ElementType
    const nodes: seq<Node>

    constructor (id: int, ty: ElementType, nodes: seq<Node>)
      requires id >= 1 && |nodes| == Arity(ty)
      ensures this.id == id && this.ty == ty && this.nodes == nodes
    {
      this.id, this.ty, this.nodes := id, ty, nodes;
    }

    function Data(): ElementData {
      ElementData(id, ty, seq(|nodes|, k requires 0 <= k < |nodes| => nodes[k].id))
    }
  }

  function NodeDatas(ns: seq<Node>): seq<NodeData> {
    seq(|ns|, k requires 0 <= k < |ns| => ns[k].Data())
  }

  function ElementDatas(es: seq<Element>): seq<ElementData> {
    seq(|es|, k requires 0 <= k < |es| => es[k].Data())
  }

  function NodeIds(ns: seq<Node>): seq<int> {
    seq(|ns|, k requires 0 <= k < |ns| => ns[k].id)
  }

  function ElementIds(es: seq<Element>): seq<int> {
    seq(|es|, k requires 0 <= k < |es| => es[k].id)
  }

  /** The elements of `s` that are in `S`, in the order of `s`. */
  ghost function Select(s: seq<Node>, S: set<Node>): seq<Node> {
    if s == [] then []
    else
      var init := Select(s[..|s| - 1], S);
      if s[|s| - 1] in S then init + [s[|s| - 1]] else init
  }

  ghost function ToSet(s: seq<Node>): set<Node> {
    set n | n in s
  }

  ghost predicate NoDuplicates(s: seq<Node>) {
    forall j, k :: 0 <= j < k < |s| ==> s[j] != s[k]
  }

  lemma {:induction false} SelectOther(s: seq<Node>, S: set<Node>, n: Node)
    requires n !in s
    ensures Select(s, S + {n}) == Select(s, S)
  {
    if s != [] { SelectOther(s[..|s| - 1], S, n); }
  }

  /** Appending a new node to a list and to one of its views. */
  lemma SelectAppend(s: seq<Node>, S: set<Node>, n: Node)
    requires n !in s && n !in S
    ensures Select(s + [n], S + {n}) == Select(s, S) + [n]
    ensures Select(s + [n], S) == Select(s, S)
  {
    assert (s + [n])[..|s|] == s;
    SelectOther(s, S, n);
  }

  /** `view` holds some of the objects of `all`, in the same order. */
  ghost predicate ViewOf(view: seq<Node>, all: seq<Node>) {
    ToSet(view) <= ToSet(all) && view == Select(all, ToSet(view))
  }

  /** `all` is an order preserving merge of the disjoint lists `a` and `b`. */
  ghost predicate MergeOf(all: seq<Node>, a: seq<Node>, b: seq<Node>) {
    && NoDuplicates(all) && ViewOf(a, all) && ViewOf(b, all)
    && ToSet(a) !! ToSet(b) && ToSet(all) == ToSet(a) + ToSet(b)
  }

  /** `all` is an order preserving merge of the disjoint lists `lists`. */
  ghost predicate Partition(all: seq<Node>, lists: map<int, seq<Node>>) {
    && (forall k :: k in lists ==> ViewOf(lists[k], all))
    && (forall k, l, n :: k in lists && l in lists && n in lists[k] && n in lists[l] ==> k == l)
    && (forall n :: n in all ==> exists k :: k in lists && n in lists[k])
  }

  lemma ViewAppend(view: seq<Node>, all: seq<Node>, n: Node)
    requires ViewOf(view, all) && n !in all
    ensures ViewOf(view + [n], all + [n]) && ViewOf(view, all + [n])
  {
    assert n !in ToSet(view);
    assert ToSet(view + [n]) == ToSet(view) + {n};
    SelectAppend(all, ToSet(view), n);
  }

  lemma MergeAppend(all: seq<Node>, a: seq<Node>, b: seq<Node>, n: Node)
    requires MergeOf(all, a, b) && n !in all
    ensures MergeOf(all + [n], a + [n], b) && MergeOf(all + [n], a, b + [n])
  {
    ViewAppend(a, all, n);
    ViewAppend(b, all, n);
    assert n !in ToSet(a) && n !in ToSet(b);
    Appended(all, n);
    Appended(a, n);
    Appended(b, n);
  }

  /** The list of partition `k`, empty if there is none yet. */
  ghost function ListAt(lists: map<int, seq<Node>>, k: int): seq<Node> {
    if k in lists then lists[k] else []
  }

  lemma {:induction false} SelectNone(s: seq<Node>)
    ensures Select(s, {}) == []
  {
    if s != [] { SelectNone(s[..|s| - 1]); }
  }

  lemma PartitionAppend(all: seq<Node>, lists: map<int, seq<Node>>, k: int, n: Node)
    requires Partition(all, lists) && n !in all
    ensures Partition(all + [n], lists[k := ListAt(lists, k) + [n]])
  {
    var lists1 := lists[k := ListAt(lists, k) + [n]];
    forall l | l in lists1
      ensures ViewOf(lists1[l], all + [n])
    {
      SelectNone(all);
      assert ToSet([]) == {};
      ViewAppend(ListAt(lists, l), all, n);
    }
    assert forall l :: l in lists ==> n !in ToSet(lists[l]);
    assert forall l, m :: l in lists && m in lists[l] ==> m in ToSet(lists[l]);
    forall m | m in all + [n]
      ensures exists l :: l in lists1 && m in lists1[l]
    {
      if m == n {
        assert n in lists1[k];
      } else {
        var l :| l in lists && m in lists[l];
        assert m in lists1[l];
      }
    }
  }

  /** The names a model part may have. */
  predicate NameOk(name: string) {
    name != "" && '.' !in name
  }

  /** The public constructor; none when it rejects the name. */
  method NewModelPart(name: string) returns (part: ModelPart?)
    ensures part == null <==> name == "" || '.' in name
    ensures part != null ==> fresh(part) && part.name == name && part.Empty() && part.Valid()
    ensures part != null ==> part.local.name == "local" && part.ghosts.name == "ghost"
  {
    part := null;
    if NameOk(name) {
      part := new ModelPart(name);
    }
  }

  class ModelPart {
    const name: string
    var nodes: IndexedVector<Node>
    var elements: IndexedVector<Element>
    var local: ModelPart?
    var ghosts: ModelPart?
    var partitions: map<int, ModelPart>

    /** A part without sub parts of its own: the local and the ghost part. */
    constructor Internal(name: string)
      ensures this.name == name && Empty() && local == null && ghosts == null
    {
      this.name := name;
      nodes, elements := IndexedVector([], map[]), IndexedVector([], map[]);
      local, ghosts, partitions := null, null, map[];
    }

    constructor (name: string)
      requires NameOk(name)
      ensures this.name == name && Empty() && Valid() && fresh(local) && fresh(ghosts)
      ensures Branch()
    {
      this.name := name;
      nodes, elements := IndexedVector([], map[]), IndexedVector([], map[]);
      partitions := map[];
      var l := new ModelPart.Internal("local");
      var g := new ModelPart.Internal("ghost");
      local, ghosts := l, g;
      new;
      ValidWhenEmpty();
    }

    lemma ValidWhenEmpty()
      requires Separate() && Empty() && Branch()
      ensures Valid() && View() == MeshData([], [])
    {
    }

    predicate Empty()
      reads this
    {
      nodes == IndexedVector([], map[]) && elements == IndexedVector([], map[]) && partitions == map[]
    }

    /** The local and the ghost part. */
    ghost function OwnParts(): set<ModelPart>
      reads this
    {
      (if local == null then {} else {local}) + (if ghosts == null then {} else {ghosts})
    }

    ghost function Parts(): set<ModelPart>
      reads this
    {
      OwnParts() + partitions.Values
    }

    /** The local and ghost parts of the partition parts. */
    ghost function InnerParts(): set<ModelPart>
      reads this, Parts()
    {
      InnerOf(partitions)
    }

    static ghost function InnerOf(parts: map<int, ModelPart>): set<ModelPart>
      reads parts.Values
    {
      set k, p | k in parts && p in parts[k].OwnParts() :: p
    }

    /** A local or ghost part has no parts itself. */
    ghost predicate Leaf()
      reads this
    {
      local == null && ghosts == null && partitions == map[]
    }

    /** A partition part has an empty local and an empty ghost part and no partitions. */
    ghost predicate Branch()
      reads this, OwnParts()
    {
      && partitions == map[] && local != null && ghosts != null && local != ghosts
      && local.Leaf() && local.Empty() && ghosts.Leaf() && ghosts.Empty()
      && local.name == "local" && ghosts.name == "ghost"
    }

    /** `std::to_string` of the index. */
    static function PartitionName(k: int): string {
      Signed(k)
    }

    /** The local and the ghost part have these names, the part of a partition is named after its index. */
    ghost predicate Named()
      requires Separate()
      reads this
    {
      && local.name == "local" && ghosts.name == "ghost"
      && forall k {:trigger PartitionName(k)} :: k in partitions ==> partitions[k].name == PartitionName(k)
    }

    /** The parts of parts, all of them separate objects. */
    ghost predicate Nested()
      requires Separate()
      reads this, Parts(), InnerParts()
    {
      && Named() && local.Leaf() && ghosts.Leaf() && InnerParts() !! Parts() + {this}
      && (forall k :: k in partitions ==> partitions[k].Branch())
      && (forall k, l :: k in partitions && l in partitions && k != l ==>
            partitions[k].OwnParts() !! partitions[l].OwnParts())
    }

    /** The sub parts are separate objects. */
    ghost predicate Separate()
      reads this
    {
      && local != null && ghosts != null && local != ghosts && local != this && ghosts != this
      && (forall k :: k in partitions ==> partitions[k] !in {this, local, ghosts})
      && (forall k, l :: k in partitions && l in partitions && k != l ==> partitions[k] != partitions[l])
    }

    /** Both indexes are those of the data. */
    ghost predicate Indexed()
      reads this
    {
      nodes.access == AccessMap(NodeIds(nodes.data)) && elements.access == AccessMap(ElementIds(elements.data))
    }

    /** The node lists of the partition parts. */
    static ghost function ListsOf(parts: map<int, ModelPart>): map<int, seq<Node>>
      reads parts.Values
    {
      map k | k in parts :: parts[k].nodes.data
    }

    /** Elements use nodes of the node list. */
    ghost predicate Connected(ns: seq<Node>)
      reads this
    {
      forall e, k :: e in elements.data && 0 <= k < |e.nodes| ==> e.nodes[k] in ns
    }

    /** The sub parts not in `S` keep their indexes, and only the local part has elements. */
    ghost predicate SubPartsOkBut(S: set<ModelPart>)
      requires Separate()
      reads this, Parts()
    {
      && (local !in S ==> local.Indexed() && local.elements == elements)
      && (ghosts !in S ==> ghosts.Indexed() && ghosts.elements == IndexedVector([], map[]))
      && forall k :: k in partitions && partitions[k] !in S ==>
           k >= 0 && partitions[k].Indexed() && partitions[k].elements == IndexedVector([], map[])
    }

    /** Changing the lists of the part and of its sub parts leaves the nesting alone. */
    twostate lemma NestedStays()
      requires old(Separate()) && old(Nested()) && Separate()
      requires local == old(local) && ghosts == old(ghosts) && partitions == old(partitions)
      requires forall p :: p in old(Parts()) ==>
        p.local == old(p.local) && p.ghosts == old(p.ghosts) && p.partitions == old(p.partitions)
      requires forall p :: p in old(InnerParts()) ==> unchanged(p)
      ensures Nested()
    {
      forall k | k in partitions
        ensures partitions[k].OwnParts() == old(partitions[k].OwnParts()) && partitions[k].Branch()
      {
        var p := partitions[k];
        assert p in old(Parts()) && old(partitions[k].Branch());
        assert p.local in old(p.OwnParts()) && p.ghosts in old(p.OwnParts());
        assert p.local in old(InnerParts()) && p.ghosts in old(InnerParts());
      }
      assert InnerParts() == old(InnerParts());
    }

    ghost predicate Valid()
      reads this, Parts(), InnerParts()
    {
      && Structured() && Nested() && Connected(nodes.data) && View().Ok()
      && MergeOf(nodes.data, local.nodes.data, ghosts.nodes.data)
      && Partition(ghosts.nodes.data, ListsOf(partitions))
    }

    function View(): MeshData
      reads this
    {
      MeshData(NodeDatas(nodes.data), ElementDatas(elements.data))
    }

    static ghost function ListDatas(lists: map<int, seq<Node>>): map<int, seq<NodeData>> {
      map k | k in lists :: NodeDatas(lists[k])
    }

    /** The mesh together with its ghost nodes. */
    ghost function GhostView(): GhostMesh
      requires ghosts != null
      reads this, Parts()
    {
      GhostMesh(View(), NodeDatas(ghosts.nodes.data), ListDatas(ListsOf(partitions)))
    }

    /** The index answers as a search through the list would. */
    lemma HasNodeIsSearch(id: int)
      requires Indexed()
      ensures nodes.Contains(id) <==> View().HasNode(id)
      ensures nodes.Find(id).Some? ==> nodes.Find(id).value < |nodes.data| && nodes.data[nodes.Find(id).value].id == id
    {
      var ids := NodeIds(nodes.data);
      AccessMapFinds(ids, id);
      if id in ids {
        var k :| 0 <= k < |ids| && ids[k] == id;
        assert View().nodes[k].id == id;
      }
      if View().HasNode(id) {
        var k :| 0 <= k < |View().nodes| && View().nodes[k].id == id;
        assert ids[k] == id;
      }
    }

    lemma HasElementIsSearch(id: int)
      requires Indexed()
      ensures elements.Contains(id) <==> View().HasElement(id)
      ensures elements.Find(id).Some? ==>
        elements.Find(id).value < |elements.data| && elements.data[elements.Find(id).value].id == id
    {
      var ids := ElementIds(elements.data);
      AccessMapFinds(ids, id);
      if id in ids {
        var k :| 0 <= k < |ids| && ids[k] == id;
        assert View().elements[k].id == id;
      }
      if View().HasElement(id) {
        var k :| 0 <= k < |View().elements| && View().elements[k].id == id;
        assert ids[k] == id;
      }
    }

    method CreateNewNode(id: int, x: real, y: real, z: real) returns (ok: bool, node: Node?)
      requires Valid()
      modifies this`nodes, local`nodes
      ensures Valid()
      ensures var d := NodeData(id, x, y, z);
              && ok == old(View()).AddNode(d).Some?
              && (ok ==> Some(View()) == old(View()).AddNode(d) && node != null && fresh(node) && node.Data() == d
                         && nodes.data == old(nodes.data) + [node]
                         && local.nodes.data == old(local.nodes.data) + [node])
              && (!ok ==> nodes == old(nodes) && local.nodes == old(local.nodes))
    {
      node := null;
      HasNodeIsSearch(id);
      ok := !nodes.Contains(id) && id >= 1;
      if ok {
        node := InsertNode(NodeData(id, x, y, z));
      }
    }

    /** Inserts a new node with a free id. */
    method InsertNode(d: NodeData) returns (node: Node)
      requires Valid() && View().AddNode(d).Some?
      modifies this`nodes, local`nodes
      ensures Valid() && Some(View()) == old(View()).AddNode(d) && fresh(node) && node.Data() == d
      ensures nodes.data == old(nodes.data) + [node] && local.nodes.data == old(local.nodes.data) + [node]
    {
      node := new Node(d.id, d.x, d.y, d.z);
      assert node !in nodes.data;
      nodes := nodes.PushBack(node, d.id);
      local.nodes := local.nodes.PushBack(node, d.id);
      NestedStays();
      ValidWithLocalNode(old(nodes), old(local.nodes), old(View()), node);
    }

    /** The state after a local node was appended to a valid one. */
    lemma ValidWithLocalNode(before: IndexedVector<Node>, localBefore: IndexedVector<Node>, view: MeshData, node: Node)
      requires Separate() && Nested() && SubPartsOkBut({local}) && Connected(before.data)
      requires before.access == AccessMap(NodeIds(before.data))
      requires localBefore.access == AccessMap(NodeIds(localBefore.data))
      requires elements.access == AccessMap(ElementIds(elements.data)) && local.elements == elements
      requires nodes == before.PushBack(node, node.id) && local.nodes == localBefore.PushBack(node, node.id)
      requires MergeOf(before.data, localBefore.data, ghosts.nodes.data) && node !in before.data
      requires Partition(ghosts.nodes.data, ListsOf(partitions))
      requires view == MeshData(NodeDatas(before.data), ElementDatas(elements.data))
      requires view.Ok() && view.AddNode(node.Data()).Some?
      ensures Valid() && Some(View()) == view.AddNode(node.Data())
    {
      Appended(before.data, node);
      Appended(localBefore.data, node);
      AddNodeOk(view, node.Data());
      MergeAppend(before.data, localBefore.data, ghosts.nodes.data, node);
      ViewWithNode(before.data, view, node);
      assert Structured();
    }

    lemma ViewWithNode(before: seq<Node>, view: MeshData, node: Node)
      requires nodes.data == before + [node] && view == MeshData(NodeDatas(before), ElementDatas(elements.data))
      requires view.AddNode(node.Data()).Some?
      ensures View() == view.AddNode(node.Data()).value
    {
      Appended(before, node);
    }

    /** Partitions keep their parts, and further parts are new. */
    twostate predicate Grown()
      reads this
    {
      && (forall k :: k in old(partitions) ==> k in partitions && partitions[k] == old(partitions)[k])
      && (forall k :: k in partitions && k !in old(partitions) ==> fresh(partitions[k]))
    }

    /** A node was appended to the list, to the ghost view and to the view of partition `k`, and to no other. */
    twostate predicate GhostPushed(new node: Node, k: int)
      requires old(ghosts) != null && ghosts != null
      reads this, Parts()
    {
      && nodes.data == old(nodes.data) + [node] && ghosts.nodes.data == old(ghosts.nodes.data) + [node]
      && ListsOf(partitions) == old(ListsOf(partitions))[k := ListAt(old(ListsOf(partitions)), k) + [node]]
    }

    method CreateNewGhostNode(id: int, x: real, y: real, z: real, partition: int) returns (ok: bool, node: Node?)
      requires Valid()
      modifies this`nodes, this`partitions, ghosts`nodes, PartAt(partition)`nodes
      ensures Valid() && Grown()
      ensures ok == old(GhostView()).AddGhost(NodeData(id, x, y, z), partition).Some?
      ensures ok ==> Some(GhostView()) == old(GhostView()).AddGhost(NodeData(id, x, y, z), partition)
      ensures ok ==> node != null && fresh(node) && node.Data() == NodeData(id, x, y, z) && GhostPushed(node, partition)
      ensures !ok ==> unchanged(this) && GhostView() == old(GhostView())
    {
      node := null;
      HasNodeIsSearch(id);
      ok := !nodes.Contains(id) && partition >= 0 && id >= 1;
      if ok {
        node := InsertGhostNode(NodeData(id, x, y, z), partition);
      }
    }

    /** Inserts a new node with a free id. */
    method InsertGhostNode(d: NodeData, k: nat) returns (node: Node)
      requires Valid() && View().AddNode(d).Some?
      modifies this`nodes, this`partitions, ghosts`nodes, PartAt(k)`nodes
      ensures Valid() && Grown() && fresh(node) && node.Data() == d
      ensures GhostPushed(node, k) && Some(GhostView()) == old(GhostView()).AddGhost(d, k)
    {
      node := new Node(d.id, d.x, d.y, d.z);
      ghost var before, view, ghostView := nodes, View(), GhostView();
      ghost var ghostsBefore, lists := ghosts.nodes.data, ListsOf(partitions);
      GhostMerges(node, k);
      PushGhostNode(node, k);
      ValidWithGhostNode(before, view, node);
      GhostViewGrown(ghostView, ghostsBefore, lists, k, node);
    }

    /** What the lists with one more ghost node will satisfy. */
    lemma GhostMerges(node: Node, k: nat)
      requires Valid() && node !in nodes.data
      ensures MergeOf(nodes.data + [node], local.nodes.data, ghosts.nodes.data + [node])
      ensures Partition(ghosts.nodes.data + [node], ListsOf(partitions)[k := ListAt(ListsOf(partitions), k) + [node]])
    {
      assert node !in ToSet(ghosts.nodes.data);
      MergeAppend(nodes.data, local.nodes.data, ghosts.nodes.data, node);
      PartitionAppend(ghosts.nodes.data, ListsOf(partitions), k, node);
    }

    lemma GhostViewGrown(before: GhostMesh, ghostsBefore: seq<Node>, lists: map<int, seq<Node>>, k: nat, node: Node)
      requires ghosts != null && ghosts.nodes.data == ghostsBefore + [node]
      requires ListsOf(partitions) == lists[k := ListAt(lists, k) + [node]]
      requires before.ghosts == NodeDatas(ghostsBefore) && before.lists == ListDatas(lists)
      requires Some(View()) == before.mesh.AddNode(node.Data())
      ensures Some(GhostView()) == before.AddGhost(node.Data(), k)
    {
      GhostAppended(ghostsBefore, lists, k, node);
    }

    ghost function PartAt(k: int): set<ModelPart>
      reads this
    {
      if k in partitions then {partitions[k]} else {}
    }

    /** The parts are separate and every index is that of its data. */
    ghost predicate Structured()
      reads this, Parts()
    {
      Separate() && Indexed() && SubPartsOkBut({})
    }

    /** `mNodes.push_back`. */
    method PushNode(node: Node)
      requires Indexed()
      modifies this`nodes
      ensures Indexed() && nodes == old(nodes).PushBack(node, node.id)
    {
      Appended(nodes.data, node);
      nodes := nodes.PushBack(node, node.id);
    }

    /** The insertion of a ghost node into the three lists that hold it. */
    method PushGhostNode(node: Node, k: nat)
      requires Structured() && Nested()
      modifies this`nodes, this`partitions, ghosts`nodes, PartAt(k)`nodes
      ensures Structured() && Nested() && Grown()
      ensures nodes == old(nodes).PushBack(node, node.id) && GhostPushed(node, k)
      ensures local.nodes == old(local.nodes)
    {
      PushToGhosts(node);
      PushToPartition(node, k);
    }

    method PushToGhosts(node: Node)
      requires Structured() && Nested()
      modifies this`nodes, ghosts`nodes
      ensures Structured() && Nested()
      ensures nodes == old(nodes).PushBack(node, node.id) && ghosts.nodes == old(ghosts.nodes).PushBack(node, node.id)
      ensures ListsOf(partitions) == old(ListsOf(partitions))
    {
      PushNode(node);
      ghosts.PushNode(node);
      NestedStays();
      ListsStay();
    }

    twostate lemma ListsStay()
      requires partitions == old(partitions) && forall k :: k in partitions ==> unchanged(partitions[k])
      ensures ListsOf(partitions) == old(ListsOf(partitions))
    {
      assert forall k :: k in partitions ==> partitions[k].nodes.data == old(partitions[k].nodes.data);
    }

    method PushToPartition(node: Node, k: nat)
      requires Structured() && Nested()
      modifies this`partitions, PartAt(k)`nodes
      ensures Structured() && Nested() && Grown()
      ensures ListsOf(partitions) == old(ListsOf(partitions))[k := ListAt(old(ListsOf(partitions)), k) + [node]]
    {
      ghost var lists := ListsOf(partitions);
      var part := GetPartitionModelPart(k);
      ListsFound(lists, k);
      PushToPart(part, node, k);
      UpdatedTwice(lists, k, ListAt(lists, k), ListAt(lists, k) + [node]);
    }

    static lemma UpdatedTwice(lists: map<int, seq<Node>>, k: int, a: seq<Node>, b: seq<Node>)
      ensures lists[k := a][k := b] == lists[k := b]
    {
    }

    method PushToPart(part: ModelPart, node: Node, k: nat)
      requires Structured() && Nested() && k in partitions && part == partitions[k]
      modifies part`nodes
      ensures Structured() && Nested()
      ensures ListsOf(partitions) == old(ListsOf(partitions))[k := old(part.nodes.data) + [node]]
    {
      ghost var lists := ListsOf(partitions);
      part.PushNode(node);
      PartPushed(k);
      ListsUpdated(lists, k, node);
    }

    /** Finding a partition part, or inserting an empty one, leaves the lists as they are. */
    lemma ListsFound(lists: map<int, seq<Node>>, k: int)
      requires k in partitions && partitions.Keys == lists.Keys + {k} && partitions[k].nodes.data == ListAt(lists, k)
      requires forall l :: l in lists ==> partitions[l].nodes.data == lists[l]
      ensures ListsOf(partitions) == lists[k := ListAt(lists, k)]
    {
      assert ListsOf(partitions).Keys == lists.Keys + {k};
      assert forall l :: l in lists && l != k ==> ListsOf(partitions)[l] == lists[l];
    }

    /** Changing the node list of one partition part keeps the rest. */
    twostate lemma PartPushed(k: int)
      requires old(Structured()) && old(Nested()) && unchanged(this) && k in partitions
      requires partitions[k].Indexed() && partitions[k].elements == old(partitions[k].elements)
      requires partitions[k].local == old(partitions[k].local) && partitions[k].ghosts == old(partitions[k].ghosts)
      requires partitions[k].partitions == old(partitions[k].partitions)
      requires forall p :: p in old(Parts()) && p != partitions[k] ==> unchanged(p)
      requires forall p :: p in old(InnerParts()) ==> unchanged(p)
      ensures Structured() && Nested()
    {
      var part := partitions[k];
      assert Separate();
      NestedStays();
      assert local in old(Parts()) && ghosts in old(Parts());
      forall k | k in partitions && partitions[k] != part
        ensures partitions[k].Indexed() && partitions[k].elements == IndexedVector([], map[])
      {
        assert partitions[k] in old(Parts());
      }
    }

    /** The part of partition `k`, a new one if there is none yet. */
    method GetPartitionModelPart(k: nat) returns (part: ModelPart)
      requires Structured() && Nested()
      modifies this`partitions
      ensures Structured() && Nested() && k in partitions && part == partitions[k] && part.name == Decimal(k)
      ensures partitions == old(partitions)[k := part]
      ensures k in old(partitions) ==> part == old(partitions)[k]
      ensures Grown() && (k !in old(partitions) ==> part.Empty())
    {
      if k in partitions {
        part := partitions[k];
        assert part.name == PartitionName(k);
      } else {
        part := NewPartition(k);
      }
    }

    method NewPartition(k: nat) returns (part: ModelPart)
      requires Structured() && Nested() && k !in partitions
      modifies this`partitions
      ensures Structured() && Nested() && fresh(part) && part.Empty() && part.name == Decimal(k)
      ensures partitions == old(partitions)[k := part]
    {
      part := new ModelPart(Decimal(k));
      FreshApart(part);
      AddPartition(k, part);
    }

    twostate lemma FreshApart(new part: ModelPart)
      requires old(Structured()) && old(Nested())
      requires unchanged(this) && unchanged(old(Parts())) && unchanged(old(InnerParts())) && fresh(part)
      requires fresh(part.OwnParts())
      ensures Structured() && Nested() && {part} + part.OwnParts() !! Parts() + InnerParts() + {this}
    {
      assert InnerParts() == old(InnerParts());
    }

    method AddPartition(k: nat, part: ModelPart)
      requires Structured() && Nested() && k !in partitions
      requires part.Branch() && part.Empty() && part.name == Decimal(k)
      requires {part} + part.OwnParts() !! Parts() + InnerParts() + {this} && part !in part.OwnParts()
      modifies this`partitions
      ensures Structured() && Nested() && partitions == old(partitions)[k := part]
    {
      ghost var before := partitions;
      partitions := partitions[k := part];
      NestedInsert(before, k, part);
    }

    static lemma InnerInsert(before: map<int, ModelPart>, k: int, part: ModelPart)
      requires k !in before
      ensures InnerOf(before[k := part]) == InnerOf(before) + part.OwnParts()
    {
      var after := before[k := part];
      forall p | p in InnerOf(before) + part.OwnParts()
        ensures p in InnerOf(after)
      {
        if p in part.OwnParts() {
          assert p in after[k].OwnParts();
        } else {
          var l :| l in before && p in before[l].OwnParts();
          assert p in after[l].OwnParts();
        }
      }
    }

    /** The nesting after a new part was inserted. */
    lemma NestedInsert(before: map<int, ModelPart>, k: nat, part: ModelPart)
      requires Separate() && Named() && local.Leaf() && ghosts.Leaf()
      requires k !in before && partitions == before[k := part]
      requires part.Branch() && forall l :: l in before ==> before[l].Branch()
      requires forall l, m :: l in before && m in before && l != m ==> before[l].OwnParts() !! before[m].OwnParts()
      requires InnerOf(before) !! Parts() + {this} + part.OwnParts()
      requires part.OwnParts() !! Parts() + {this}
      ensures Nested()
    {
      InnerInsert(before, k, part);
      assert part.name == PartitionName(k);
      forall l | l in before
        ensures before[l].OwnParts() !! part.OwnParts()
      {
        assert before[l].OwnParts() <= InnerOf(before);
      }
    }

    lemma ListsUpdated(lists: map<int, seq<Node>>, k: int, n: Node)
      requires k in partitions && partitions.Keys == lists.Keys + {k}
      requires partitions[k].nodes.data == ListAt(lists, k) + [n]
      requires forall l :: l in lists && l != k ==> partitions[l].nodes.data == lists[l]
      ensures ListsOf(partitions) == lists[k := ListAt(lists, k) + [n]]
    {
    }

    /** The state after a ghost node was appended to a valid one. */
    lemma ValidWithGhostNode(before: IndexedVector<Node>, view: MeshData, node: Node)
      requires Structured() && Nested() && Connected(before.data) && nodes == before.PushBack(node, node.id)
      requires MergeOf(nodes.data, local.nodes.data, ghosts.nodes.data)
      requires Partition(ghosts.nodes.data, ListsOf(partitions))
      requires view == MeshData(NodeDatas(before.data), ElementDatas(elements.data))
      requires view.Ok() && view.AddNode(node.Data()).Some?
      ensures Valid() && Some(View()) == view.AddNode(node.Data())
    {
      Appended(before.data, node);
      AddNodeOk(view, node.Data());
    }

    method PGetNode(id: int) returns (node: Node?)
      requires Indexed()
      ensures if View().HasNode(id) then node != null && node in nodes.data && node.id == id else node == null
    {
      HasNodeIsSearch(id);
      var k := nodes.Find(id);
      node := if k.Some? then nodes.data[k.value] else null;
    }

    /** The nodes of a new element; fails at the first id that no node has. */
    method PGetNodes(conn: seq<int>) returns (ok: bool, ns: seq<Node>)
      requires Indexed()
      ensures ok <==> forall k :: 0 <= k < |conn| ==> View().HasNode(conn[k])
      ensures ok ==> |ns| == |conn| && forall k :: 0 <= k < |conn| ==> ns[k] in nodes.data && ns[k].id == conn[k]
    {
      ns := [];
      var j := 0;
      while j < |conn|
        invariant j <= |conn| && |ns| == j
        invariant forall k :: 0 <= k < j ==> ns[k] in nodes.data && ns[k].id == conn[k] && View().HasNode(conn[k])
      {
        var node := PGetNode(conn[j]);
        if node == null {
          return false, [];
        }
        ns := ns + [node];
        j := j + 1;
      }
      return true, ns;
    }

    /** The checks of a new element: a free positive id, existing nodes, and as many of them as its type has. */
    method NodesForElement(id: int, ty: ElementType, conn: seq<int>) returns (ok: bool, ns: seq<Node>)
      requires Indexed()
      ensures ok <==> View().CanAdd(ElementData(id, ty, conn))
      ensures ok ==> |ns| == |conn| && forall k :: 0 <= k < |conn| ==> ns[k] in nodes.data && ns[k].id == conn[k]
    {
      HasElementIsSearch(id);
      if elements.Contains(id) {
        return false, [];
      }
      ok, ns := PGetNodes(conn);
      ok := ok && id >= 1 && |ns| >= 1 && Arity(ty) == |ns|;
    }

    method CreateNewElement(id: int, ty: ElementType, conn: seq<int>) returns (ok: bool, element: Element?)
      requires Valid()
      modifies this`elements, local`elements
      ensures Valid()
      ensures ok <==> id >= 1 && !old(View()).HasElement(id) && |conn| == ShapeOf(ty).Points()
                      && forall k :: 0 <= k < |conn| ==> old(View()).HasNode(conn[k])
      ensures var d := ElementData(id, ty, conn);
              && ok == old(View()).AddElement(d).Some?
              && (ok ==> Some(View()) == old(View()).AddElement(d)
                         && element != null && fresh(element) && element.Data() == d
                         && elements.data == old(elements.data) + [element])
              && (!ok ==> elements == old(elements) && local.elements == old(local.elements))
    {
      element := null;
      ArityCounts(ty);
      var ns;
      ok, ns := NodesForElement(id, ty, conn);
      if ok {
        element := InsertNewElement(id, ty, conn, ns);
      }
    }

    method InsertNewElement(id: int, ty: ElementType, ghost conn: seq<int>, ns: seq<Node>) returns (element: Element)
      requires Valid() && View().CanAdd(ElementData(id, ty, conn))
      requires |ns| == |conn| && forall k :: 0 <= k < |conn| ==> ns[k] in nodes.data && ns[k].id == conn[k]
      modifies this`elements, local`elements
      ensures Valid() && Some(View()) == old(View()).AddElement(element.Data())
      ensures fresh(element) && element.Data() == ElementData(id, ty, conn)
      ensures elements.data == old(elements.data) + [element]
    {
      element := new Element(id, ty, ns);
      assert element.Data() == ElementData(id, ty, conn);
      InsertElement(element);
    }

    /** Inserts a new element with a free id and nodes of the node list. */
    method InsertElement(element: Element)
      requires Valid() && View().AddElement(element.Data()).Some?
      requires forall k :: 0 <= k < |element.nodes| ==> element.nodes[k] in nodes.data
      modifies this`elements, local`elements
      ensures Valid() && Some(View()) == old(View()).AddElement(element.Data())
      ensures elements.data == old(elements.data) + [element]
    {
      elements := elements.PushBack(element, element.id);
      local.elements := local.elements.PushBack(element, element.id);
      NestedStays();
      ValidWithElement(old(elements), old(View()), element);
    }

    /** The state after an element was appended to a valid one. */
    lemma ValidWithElement(before: IndexedVector<Element>, view: MeshData, element: Element)
      requires Separate() && Nested() && nodes.access == AccessMap(NodeIds(nodes.data)) && SubPartsOkBut({local})
      requires local.nodes.access == AccessMap(NodeIds(local.nodes.data)) && local.elements == elements
      requires before.access == AccessMap(ElementIds(before.data)) && elements == before.PushBack(element, element.id)
      requires forall e, k :: e in before.data && 0 <= k < |e.nodes| ==> e.nodes[k] in nodes.data
      requires forall k :: 0 <= k < |element.nodes| ==> element.nodes[k] in nodes.data
      requires MergeOf(nodes.data, local.nodes.data, ghosts.nodes.data)
      requires Partition(ghosts.nodes.data, ListsOf(partitions))
      requires view == MeshData(NodeDatas(nodes.data), ElementDatas(before.data))
      requires view.Ok() && view.AddElement(element.Data()).Some?
      ensures Valid() && Some(View()) == view.AddElement(element.Data())
    {
      ElementAppended(before.data, element);
      AddElementOk(view, element.Data());
    }

    method Clear()
      requires Valid()
      modifies this
      ensures Valid() && View() == MeshData([], []) && partitions == map[]
      ensures fresh(local) && fresh(ghosts) && local.nodes.data == ghosts.nodes.data == []
      ensures local.name == "local" && ghosts.name == "ghost"
    {
      local := new ModelPart.Internal("local");
      ghosts := new ModelPart.Internal("ghost");
      partitions := map[];
      elements := IndexedVector([], map[]);
      nodes := IndexedVector([], map[]);
      ValidWhenEmpty();
    }

    /** Creates nodes one by one; the first failure ends it and leaves the earlier ones in place. */
    method CreateNewNodes(ids: seq<int>, xs: seq<real>, ys: seq<real>, zs: seq<real>) returns (ok: bool)
      requires Valid()
      modifies this`nodes, local`nodes
      ensures Valid()
      ensures |xs| != |ids| || |ys| != |ids| || |zs| != |ids| ==> !ok && nodes == old(nodes)
      ensures |xs| == |ys| == |zs| == |ids| ==>
        (View(), ok) == var r := old(View()).AddNodes(Zip(ids, xs, ys, zs, 0)); (r.0, r.1 == |ids|)
    {
      if |xs| != |ids| || |ys| != |ids| || |zs| != |ids| {
        return false;
      }
      ghost var goal := View().AddNodes(Zip(ids, xs, ys, zs, 0));
      var i := 0;
      ok := true;
      while i < |ids|
        invariant i <= |ids| && ok && Valid()
        invariant After(goal, View().AddNodes(Zip(ids, xs, ys, zs, i)), i)
      {
        ok := CreateNodeAt(ids, xs, ys, zs, i, goal);
        if !ok {
          break;
        }
        i := i + 1;
      }
    }

    /** The loop body; `goal` is the result of the whole run. */
    method CreateNodeAt(ids: seq<int>, xs: seq<real>, ys: seq<real>, zs: seq<real>, i: nat, ghost goal: (MeshData, nat))
        returns (created: bool)
      requires Valid() && i < |ids| == |xs| == |ys| == |zs|
      requires After(goal, View().AddNodes(Zip(ids, xs, ys, zs, i)), i)
      modifies this`nodes, local`nodes
      ensures Valid()
      ensures if created then After(goal, View().AddNodes(Zip(ids, xs, ys, zs, i + 1)), i + 1) else goal == (View(), i)
    {
      AddNodesStep(View(), NodeData(ids[i], xs[i], ys[i], zs[i]), Zip(ids, xs, ys, zs, i + 1));
      var node: Node?;
      created, node := CreateNewNode(ids[i], xs[i], ys[i], zs[i]);
    }

    /** The same for ghost nodes, whose partition index must not be negative. */
    method CreateNewGhostNodes(ids: seq<int>, xs: seq<real>, ys: seq<real>, zs: seq<real>, ps: seq<int>)
      returns (ok: bool)
      requires Valid()
      modifies this`nodes, this`partitions, ghosts`nodes, partitions.Values`nodes
      ensures Valid()
      ensures |xs| != |ids| || |ys| != |ids| || |zs| != |ids| || |ps| != |ids| ==>
        !ok && GhostView() == old(GhostView())
      ensures |xs| == |ys| == |zs| == |ps| == |ids| ==>
        (GhostView(), ok) == var r := old(GhostView()).AddGhosts(ZipGhosts(ids, xs, ys, zs, ps, 0)); (r.0, r.1 == |ids|)
    {
      if |xs| != |ids| || |ys| != |ids| || |zs| != |ids| || |ps| != |ids| {
        return false;
      }
      ok := CreateGhosts(ids, xs, ys, zs, ps, GhostView().AddGhosts(ZipGhosts(ids, xs, ys, zs, ps, 0)));
    }

    /** The loop of the bulk creation; `goal` is the result of the whole run. */
    method CreateGhosts(ids: seq<int>, xs: seq<real>, ys: seq<real>, zs: seq<real>, ps: seq<int>,
                        ghost goal: (GhostMesh, nat))
        returns (ok: bool)
      requires Valid() && |ids| == |xs| == |ys| == |zs| == |ps|
      requires goal == GhostRun(GhostView(), ids, xs, ys, zs, ps, 0)
      modifies this`nodes, this`partitions, ghosts`nodes, partitions.Values`nodes
      ensures Valid() && goal.0 == GhostView() && (ok <==> goal.1 == |ids|)
    {
      var i := 0;
      ghost var view := GhostView();
      ok := true;
      while i < |ids|
        invariant i <= |ids| && ok && Valid() && Grown()
        invariant view == GhostView() && After(goal, GhostRun(view, ids, xs, ys, zs, ps, i), i)
      {
        ghost var before := partitions;
        ok, view := CreateGhostNodeAt(ids, xs, ys, zs, ps, i, goal);
        if !ok {
          return;
        }
        GrownOn(before);
        i := i + 1;
      }
      GhostRunEnds(view, ids, xs, ys, zs, ps);
    }

    twostate lemma GrownOn(new mid: map<int, ModelPart>)
      requires forall k :: k in old(partitions) ==> k in mid && mid[k] == old(partitions)[k]
      requires forall k :: k in mid && k !in old(partitions) ==> fresh(mid[k])
      requires forall k :: k in mid ==> k in partitions && partitions[k] == mid[k]
      requires forall k :: k in partitions && k !in mid ==> fresh(partitions[k])
      ensures Grown()
    {
    }

    /** The loop body; `goal` is the result of the whole run, `view` the state it leaves. */
    method CreateGhostNodeAt(ids: seq<int>, xs: seq<real>, ys: seq<real>, zs: seq<real>, ps: seq<int>, i: nat,
                             ghost goal: (GhostMesh, nat))
        returns (created: bool, ghost view: GhostMesh)
      requires Valid() && i < |ids| == |xs| == |ys| == |zs| == |ps|
      requires After(goal, GhostRun(GhostView(), ids, xs, ys, zs, ps, i), i)
      modifies this`nodes, this`partitions, ghosts`nodes, PartAt(ps[i])`nodes
      ensures Valid() && Grown() && view == GhostView()
      ensures if created then After(goal, GhostRun(view, ids, xs, ys, zs, ps, i + 1), i + 1) else goal == (view, i)
    {
      AddGhostsStep(GhostView(), NodeData(ids[i], xs[i], ys[i], zs[i]), ps[i], ZipGhosts(ids, xs, ys, zs, ps, i + 1));
      var node: Node?;
      created, node := CreateNewGhostNode(ids[i], xs[i], ys[i], zs[i], ps[i]);
      view := GhostView();
    }

    /** Creates elements one by one; element `i` takes its nodes from its part of the flat array. */
    method CreateNewElements(ids: seq<int>, types: seq<ElementType>, conns: seq<int>) returns (ok: bool)
      requires Valid()
      modifies this`elements, local`elements
      ensures Valid()
      ensures |types| != |ids| || Offset(types, |types|) != |conns| ==> !ok && elements == old(elements)
      ensures |types| == |ids| && Offset(types, |types|) == |conns| ==>
        (View(), ok) == var r := old(View()).AddElements(Slices(ids, types, conns, 0)); (r.0, r.1 == |ids|)
    {
      if |types| != |ids| {
        return false;
      }
      var expected := ExpectedConnectivities(types);
      if expected != |conns| {
        return false;
      }
      ghost var all := Slices(ids, types, conns, 0);
      ok := CreateSlices(ids, types, conns, all, View().AddElements(all));
    }

    /** The loop of the bulk creation; `goal` is the result of the whole run. */
    method CreateSlices(ids: seq<int>, types: seq<ElementType>, conns: seq<int>,
                        ghost all: seq<ElementData>, ghost goal: (MeshData, nat))
      returns (ok: bool)
      requires Valid() && |ids| == |types| && Offset(types, |types|) == |conns|
      requires all == Slices(ids, types, conns, 0) && goal == View().AddElements(all)
      modifies this`elements, local`elements
      ensures Valid() && goal.0 == View() && (ok <==> goal.1 == |ids|)
    {
      var counter := 0;
      var i := 0;
      ok := true;
      while i < |ids|
        invariant i <= |ids| && ok && Valid() && counter == Offset(types, i)
        invariant After(goal, View().AddElements(all[i..]), i)
      {
        ok := CreateElementAt(ids, types, conns, i, counter, all, goal);
        if !ok {
          break;
        }
        counter := counter + Arity(types[i]);
        i := i + 1;
      }
    }

    /** The loop body of the bulk creation; `goal` is the result of the whole run. */
    method CreateElementAt(ids: seq<int>, types: seq<ElementType>, conns: seq<int>, i: nat, counter: nat,
                           ghost all: seq<ElementData>, ghost goal: (MeshData, nat))
        returns (created: bool)
      requires Valid() && i < |ids| == |types| && Offset(types, |types|) == |conns| && counter == Offset(types, i)
      requires all == Slices(ids, types, conns, 0) && After(goal, View().AddElements(all[i..]), i)
      modifies this`elements, local`elements
      ensures Valid()
      ensures if created then After(goal, View().AddElements(all[i + 1..]), i + 1) else goal == (View(), i)
    {
      OffsetMonotone(types, i, |types|);
      SlicesFrom(ids, types, conns, i);
      SlicesFrom(ids, types, conns, i + 1);
      var conn := TakeConnectivities(conns, counter, Arity(types[i]));
      assert conn == conns[Offset(types, i)..Offset(types, i + 1)];
      ghost var m := View();
      var element: Element?;
      created, element := CreateNewElement(ids[i], types[i], conn);
      ElementStep(m, View(), created, ids, types, conns, i, goal);
    }
  }

  method ExpectedConnectivities(types: seq<ElementType>) returns (n: nat)
    ensures n == Offset(types, |types|)
  {
    n := 0;
    var i := 0;
    while i < |types|
      invariant i <= |types| && n == Offset(types, i)
    {
      n := n + Arity(types[i]);
      i := i + 1;
    }
  }

  method TakeConnectivities(conns: seq<int>, start: nat, n: nat) returns (conn: seq<int>)
    requires start + n <= |conns|
    ensures conn == conns[start..start + n]
  {
    conn := [];
    var j := 0;
    while j < n
      invariant j <= n && conn == conns[start..start + j]
    {
      conn := conn + [conns[start + j]];
      j := j + 1;
    }
  }

  /** The nodes described by parallel arrays from index `i` on. */
  function Zip(ids: seq<int>, xs: seq<real>, ys: seq<real>, zs: seq<real>, i: nat): (ns: seq<NodeData>)
    requires i <= |ids| == |xs| == |ys| == |zs|
    decreases |ids| - i
  {
    if i == |ids| then [] else [NodeData(ids[i], xs[i], ys[i], zs[i])] + Zip(ids, xs, ys, zs, i + 1)
  }

  /** The same with the partition of each node. */
  function ZipGhosts(ids: seq<int>, xs: seq<real>, ys: seq<real>, zs: seq<real>, ps: seq<int>,
                     i: nat): (ns: seq<(NodeData, int)>)
    requires i <= |ids| == |xs| == |ys| == |zs| == |ps|
    ensures |ns| == |ids| - i
    decreases |ids| - i
  {
    if i == |ids| then [] else [(NodeData(ids[i], xs[i], ys[i], zs[i]), ps[i])] + ZipGhosts(ids, xs, ys, zs, ps, i + 1)
  }

  lemma {:induction false} SlicesFrom(ids: seq<int>, types: seq<ElementType>, conns: seq<int>, i: nat)
    requires i <= |ids| == |types| && Offset(types, |types|) == |conns|
    ensures Slices(ids, types, conns, i) == Slices(ids, types, conns, 0)[i..]
  {
    if i > 0 { SlicesFrom(ids, types, conns, i - 1); }
  }

  /** One step of a run over the described elements. */
  lemma SlicesStep(m: MeshData, ids: seq<int>, types: seq<ElementType>, conns: seq<int>, i: nat)
    requires i < |ids| == |types| && Offset(types, |types|) == |conns| && Offset(types, i + 1) <= |conns|
    ensures var e := ElementData(ids[i], types[i], conns[Offset(types, i)..Offset(types, i + 1)]);
            var run := m.AddElements(Slices(ids, types, conns, i));
            if m.AddElement(e).None? then run == (m, 0)
            else After(run, m.AddElement(e).value.AddElements(Slices(ids, types, conns, i + 1)), 1)
  {
    var e := ElementData(ids[i], types[i], conns[Offset(types, i)..Offset(types, i + 1)]);
    AddElementsStep(m, e, Slices(ids, types, conns, i + 1));
  }

  /** What the creation of element `i` leaves of a run with result `goal`. */
  lemma ElementStep(m: MeshData, m1: MeshData, created: bool, ids: seq<int>, types: seq<ElementType>, conns: seq<int>,
                    i: nat, goal: (MeshData, nat))
    requires i < |ids| == |types| && Offset(types, |types|) == |conns| && Offset(types, i + 1) <= |conns|
    requires After(goal, m.AddElements(Slices(ids, types, conns, i)), i)
    requires var e := ElementData(ids[i], types[i], conns[Offset(types, i)..Offset(types, i + 1)]);
             if created then m.AddElement(e) == Some(m1) else m.AddElement(e).None? && m1 == m
    ensures if created then After(goal, m1.AddElements(Slices(ids, types, conns, i + 1)), i + 1) else goal == (m1, i)
  {
    SlicesStep(m, ids, types, conns, i);
  }

  /** Appending a node to the ghost list and to the list of one partition. */
  lemma GhostAppended(ghosts: seq<Node>, lists: map<int, seq<Node>>, k: int, n: Node)
    ensures NodeDatas(ghosts + [n]) == NodeDatas(ghosts) + [n.Data()]
    ensures ModelPart.ListDatas(lists[k := ListAt(lists, k) + [n]])
         == var datas := ModelPart.ListDatas(lists);
            datas[k := (if k in datas then datas[k] else []) + [n.Data()]]
  {
    Appended(ghosts, n);
    Appended(ListAt(lists, k), n);
  }

  /** The run over the described ghost nodes from index `i` on. */
  function GhostRun(view: GhostMesh, ids: seq<int>, xs: seq<real>, ys: seq<real>, zs: seq<real>, ps: seq<int>,
                    i: nat): (GhostMesh, nat)
    requires i <= |ids| == |xs| == |ys| == |zs| == |ps|
  {
    view.AddGhosts(ZipGhosts(ids, xs, ys, zs, ps, i))
  }

  lemma GhostRunEnds(view: GhostMesh, ids: seq<int>, xs: seq<real>, ys: seq<real>, zs: seq<real>, ps: seq<int>)
    requires |ids| == |xs| == |ys| == |zs| == |ps|
    ensures GhostRun(view, ids, xs, ys, zs, ps, |ids|) == (view, 0)
  {
  }

  lemma ElementAppended(s: seq<Element>, e: Element)
    ensures ElementIds(s + [e]) == ElementIds(s) + [e.id]
    ensures ElementDatas(s + [e]) == ElementDatas(s) + [e.Data()]
    ensures AccessMap(ElementIds(s + [e])) == AccessMap(ElementIds(s))[e.id := |s|]
  {
    assert ElementIds(s + [e])[..|s|] == ElementIds(s);
  }

  lemma AddElementOk(m: MeshData, e: ElementData)
    requires m.Ok() && m.AddElement(e).Some?
    ensures m.AddElement(e).value.Ok()
  {
    var m1 := m.AddElement(e).value;
    forall id | m.HasNode(id)
      ensures m1.HasNode(id)
    {
      var k :| 0 <= k < |m.nodes| && m.nodes[k].id == id;
      assert m1.nodes[k].id == id;
    }
  }

  lemma AddNodeOk(m: MeshData, n: NodeData)
    requires m.Ok() && m.AddNode(n).Some?
    ensures m.AddNode(n).value.Ok()
  {
    var m1 := m.AddNode(n).value;
    forall j, k | 0 <= j < |m1.elements| && 0 <= k < |m1.elements[j].conn|
      ensures m1.HasNode(m1.elements[j].conn[k])
    {
      assert m.HasNode(m.elements[j].conn[k]);
      var i :| 0 <= i < |m.nodes| && m.nodes[i].id == m.elements[j].conn[k];
      assert m1.nodes[i].id == m1.elements[j].conn[k];
    }
  }

  /** Appending an object to a list of nodes. */
  lemma Appended(s: seq<Node>, n: Node)
    ensures NodeIds(s + [n]) == NodeIds(s) + [n.id]
    ensures NodeDatas(s + [n]) == NodeDatas(s) + [n.Data()]
    ensures ToSet(s + [n]) == ToSet(s) + {n}
    ensures AccessMap(NodeIds(s + [n])) == AccessMap(NodeIds(s))[n.id := |s|]
  {
    assert NodeIds(s + [n])[..|s|] == NodeIds(s);
  }
}
