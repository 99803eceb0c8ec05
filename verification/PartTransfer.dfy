/** Main result about ModelParts: what arrives at the other end is the part itself, object by object. */
module PartTransfers {
  import opened ObjectGraph
  import opened LoadWalk
  import opened Isomorphism
  import opened RoundTrip
  import opened ModelParts
  import opened MeshGraph
  import opened MeshSnapshots

  /** Where the objects of a part are in the memory of the receiver. */
  datatype Places = Places(nodes: map<Node, nat>, elements: map<Element, nat>, parts: map<ModelPart, nat>) {
    ghost predicate OneToOne() {
      Apart(nodes) && Apart(elements) && Apart(parts)
    }
  }

  /** Different objects are at different places, and none at that of the part itself. */
  ghost predicate Apart<T>(places: map<T, nat>) {
    && (forall x :: x in places ==> places[x] > 0)
    && (forall x, y :: x in places && y in places && places[x] == places[y] ==> x == y)
  }

  /** The pointers `qs` lead to the nodes `ns`. */
  ghost predicate LeadToNodes(at: Places, ns: seq<Node>, qs: seq<Ptr>) {
    |qs| == |ns| && forall j :: 0 <= j < |ns| ==> ns[j] in at.nodes && qs[j] == To(at.nodes[ns[j]])
  }

  ghost predicate LeadToElements(at: Places, es: seq<Element>, qs: seq<Ptr>) {
    |qs| == |es| && forall j :: 0 <= j < |es| ==> es[j] in at.elements && qs[j] == To(at.elements[es[j]])
  }

  /** The object that an element becomes: its id, its type and its nodes. */
  ghost predicate IsElement(c: Coding, at: Places, e: Element, o: Obj) {
    && o.ty == "Element" && |o.fields| == 3
    && o.fields[0] == Scalar(Num(8, e.id)) && o.fields[1] == Scalar(Num(4, c.kind(e.ty)))
    && o.fields[2].Refs? && LeadToNodes(at, e.nodes, o.fields[2].ps)
  }

  /** The name, the lists and the indexes of a part. */
  ghost predicate HasLists(at: Places, p: ModelPart, mem: Memory, ws: seq<Value>)
    reads p
  {
    && |ws| == 8 && ws[0] == Scalar(Str(p.name))
    && ws[2].Refs? && LeadToNodes(at, p.nodes.data, ws[2].ps)
    && ws[4].Refs? && LeadToElements(at, p.elements.data, ws[4].ps)
    && IndexesBack(p, mem, ws)
  }

  /** The pointer leads to the part, which has its lists. */
  ghost predicate IsPart(at: Places, p: ModelPart, mem: Memory, q: Ptr)
    reads p
  {
    && p in at.parts && q == To(at.parts[p]) && q.a < |mem| && mem[q.a].ty == "ModelPart"
    && HasLists(at, p, mem, mem[q.a].fields)
  }

  /** So it does, and the part has no parts itself. */
  ghost predicate IsLeaf(at: Places, p: ModelPart, mem: Memory, q: Ptr)
    reads p
  {
    IsPart(at, p, mem, q) && mem[q.a].fields[5..] == [Ref(Null), Ref(Null), Entries([])]
  }

  /** So it does, and the part has its local part in field 5, its ghost part in field 6 and no partitions. */
  ghost predicate IsBranch(at: Places, p: ModelPart, mem: Memory, q: Ptr)
    reads p, p.OwnParts()
  {
    && IsPart(at, p, mem, q) && p.local != null && p.ghosts != null
    && var ws := mem[q.a].fields;
       && ws[5].Ref? && IsLeaf(at, p.local, mem, ws[5].p)
       && ws[6].Ref? && IsLeaf(at, p.ghosts, mem, ws[6].p)
       && ws[7] == Entries([])
  }

  /** Some entry has the key `k` and leads to the part. */
  ghost predicate HasPartition(at: Places, k: int, p: ModelPart, mem: Memory, es: seq<(Token, Ptr)>)
    reads p, p.OwnParts()
  {
    exists j :: 0 <= j < |es| && es[j].0 == Num(4, k) && IsBranch(at, p, mem, es[j].1)
  }

  /**
   * The memory holds the part: itself at address 0, every node, every element, its local part in field 5, its ghost
   * part in field 6, and in field 7 one entry for each partition.
   */
  ghost predicate Mirror(c: Coding, at: Places, part: ModelPart, mem: Memory)
    reads part, part.Parts(), part.InnerParts()
  {
    && at.OneToOne()
    && (forall n :: n in part.nodes.data ==>
          n in at.nodes && at.nodes[n] < |mem| && IsNode(c, n, mem[at.nodes[n]]))
    && (forall e :: e in part.elements.data ==>
          e in at.elements && at.elements[e] < |mem| && IsElement(c, at, e, mem[at.elements[e]]))
    && |mem| > 0 && HasLists(at, part, mem, mem[0].fields) && part.local != null && part.ghosts != null
    && var ws := mem[0].fields;
       && ws[5].Ref? && IsLeaf(at, part.local, mem, ws[5].p)
       && ws[6].Ref? && IsLeaf(at, part.ghosts, mem, ws[6].p)
       && ws[7].Entries? && |ws[7].es| == |part.partitions|
       && forall k :: k in part.partitions ==> HasPartition(at, k, part.partitions[k], mem, ws[7].es)
  }

  // From the addresses of the snapshot to the objects

  /** `at` sends nodes and elements where `iso` sends their addresses. */
  ghost predicate FollowsLists(at: Places, s: Snapshot, iso: Iso) {
    && (forall n :: n in s.root.nodes && s.NodeAddr(IndexOf(n, s.root.nodes)) in iso ==>
          n in at.nodes && at.nodes[n] == iso[s.NodeAddr(IndexOf(n, s.root.nodes))])
    && (forall e :: e in s.root.elements && s.ElementAddr(IndexOf(e, s.root.elements)) in iso ==>
          e in at.elements && at.elements[e] == iso[s.ElementAddr(IndexOf(e, s.root.elements))])
  }

  /** And the parts. */
  ghost predicate FollowsParts(at: Places, part: ModelPart, keys: seq<int>, s: Snapshot, iso: Iso)
    requires Sendable(part, keys)
    reads part, part.Parts(), part.InnerParts()
  {
    forall m :: 0 <= m < 2 + 3 * |keys| && s.PartAddr(m) in iso ==>
      var p := PartNo(part, keys, m); p in at.parts && at.parts[p] == iso[s.PartAddr(m)]
  }

  /** What is at an address has the type of the object with that address. */
  ghost predicate Typed(s: Snapshot, mem: Memory, iso: Iso) {
    && (forall k :: 0 <= k < |s.root.elements| && s.ElementAddr(k) in iso ==>
          iso[s.ElementAddr(k)] < |mem| && mem[iso[s.ElementAddr(k)]].ty == "Element")
    && (forall m :: 0 <= m < |s.parts| && s.PartAddr(m) in iso ==>
          iso[s.PartAddr(m)] < |mem| && mem[iso[s.PartAddr(m)]].ty == "ModelPart")
  }

  lemma GraphTyped(c: Coding, s: Snapshot, mem: Memory, iso: Iso)
    requires SnapshotOk(s) && forall a :: a in iso ==> Complete(GraphOf(c, s), mem, iso, a)
    ensures Typed(s, mem, iso)
  {
    forall k | 0 <= k < |s.root.elements| && s.ElementAddr(k) in iso
      ensures iso[s.ElementAddr(k)] < |mem| && mem[iso[s.ElementAddr(k)]].ty == "Element"
    {
      GraphAt(c, s, s.ElementAddr(k));
      assert Complete(GraphOf(c, s), mem, iso, s.ElementAddr(k));
    }
    forall m | 0 <= m < |s.parts| && s.PartAddr(m) in iso
      ensures iso[s.PartAddr(m)] < |mem| && mem[iso[s.PartAddr(m)]].ty == "ModelPart"
    {
      GraphHasPart(c, s, m);
      assert Complete(GraphOf(c, s), mem, iso, s.PartAddr(m));
    }
  }

  lemma NodesLead(c: Coding, s: Snapshot, at: Places, ns: seq<Node>, mem: Memory, qs: seq<Ptr>, iso: Iso)
    requires FollowsLists(at, s, iso) && NodesBack(c, s, ns, mem, qs, iso)
    ensures LeadToNodes(at, ns, qs)
    ensures forall n :: n in ns ==> n in at.nodes && at.nodes[n] < |mem| && IsNode(c, n, mem[at.nodes[n]])
  {
    forall j | 0 <= j < |ns|
      ensures ns[j] in at.nodes && qs[j] == To(at.nodes[ns[j]])
      ensures at.nodes[ns[j]] < |mem| && IsNode(c, ns[j], mem[at.nodes[ns[j]]])
    {
      assert ns[j] in s.root.nodes;
    }
  }

  lemma ElementLands(c: Coding, s: Snapshot, at: Places, e: Element, mem: Memory, iso: Iso)
    requires FollowsLists(at, s, iso) && Typed(s, mem, iso) && e in s.root.elements
    requires var a := s.ElementAddr(IndexOf(e, s.root.elements));
             a in iso && iso[a] < |mem| && ElementBack(c, s, e, mem, mem[iso[a]], iso)
    ensures e in at.elements && at.elements[e] < |mem| && IsElement(c, at, e, mem[at.elements[e]])
  {
    NodesLead(c, s, at, e.nodes, mem, mem[at.elements[e]].fields[2].ps, iso);
  }

  lemma ElementsLead(c: Coding, s: Snapshot, at: Places, es: seq<Element>, mem: Memory, qs: seq<Ptr>, iso: Iso)
    requires FollowsLists(at, s, iso) && Typed(s, mem, iso) && ElementsBack(c, s, es, mem, qs, iso)
    ensures LeadToElements(at, es, qs)
    ensures forall e :: e in es ==>
      e in at.elements && at.elements[e] < |mem| && IsElement(c, at, e, mem[at.elements[e]])
  {
    forall j | 0 <= j < |es|
      ensures es[j] in at.elements && qs[j] == To(at.elements[es[j]])
      ensures at.elements[es[j]] < |mem| && IsElement(c, at, es[j], mem[at.elements[es[j]]])
    {
      assert es[j] in s.root.elements;
      ElementLands(c, s, at, es[j], mem, iso);
    }
  }

  lemma ListsLead(c: Coding, s: Snapshot, at: Places, p: ModelPart, mem: Memory, ws: seq<Value>, iso: Iso)
    requires FollowsLists(at, s, iso) && Typed(s, mem, iso)
    requires ContentsBack(c, s, ContentsOf(p), mem, ws, iso) && p.Indexed()
    ensures HasLists(at, p, mem, ws)
    ensures forall n :: n in p.nodes.data ==> n in at.nodes && at.nodes[n] < |mem| && IsNode(c, n, mem[at.nodes[n]])
    ensures forall e :: e in p.elements.data ==>
      e in at.elements && at.elements[e] < |mem| && IsElement(c, at, e, mem[at.elements[e]])
  {
    NodesLead(c, s, at, p.nodes.data, mem, ws[2].ps, iso);
    ElementsLead(c, s, at, p.elements.data, mem, ws[4].ps, iso);
  }

  /** What the following lemmas know. */
  ghost predicate Landing(at: Places, part: ModelPart, keys: seq<int>, mem: Memory, iso: Iso)
    reads part, part.Parts(), part.InnerParts()
  {
    && Sendable(part, keys)
    && var s := SnapshotOf(part, keys);
       FollowsLists(at, s, iso) && FollowsParts(at, part, keys, s, iso) && Typed(s, mem, iso)
  }

  lemma PartLands(c: Coding, at: Places, part: ModelPart, keys: seq<int>, m: nat, mem: Memory, q: Ptr, iso: Iso)
    requires Landing(at, part, keys, mem, iso)
    requires m < 2 + 3 * |keys| && PartBack(c, SnapshotOf(part, keys), m, mem, q, iso)
    ensures IsPart(at, PartNo(part, keys, m), mem, q)
  {
    PartIndexed(part, keys, m);
    ListsLead(c, SnapshotOf(part, keys), at, PartNo(part, keys, m), mem, mem[q.a].fields, iso);
  }

  lemma LeafLands(c: Coding, at: Places, part: ModelPart, keys: seq<int>, m: nat, mem: Memory, q: Ptr, iso: Iso)
    requires Landing(at, part, keys, mem, iso)
    requires m < 2 + 3 * |keys| && LeafBack(c, SnapshotOf(part, keys), m, mem, q, iso)
    ensures IsLeaf(at, PartNo(part, keys, m), mem, q)
  {
    PartLands(c, at, part, keys, m, mem, q, iso);
  }

  lemma BranchLands(c: Coding, at: Places, part: ModelPart, keys: seq<int>, i: nat, mem: Memory, q: Ptr, iso: Iso)
    requires Landing(at, part, keys, mem, iso) && i < |keys|
    requires PartBack(c, SnapshotOf(part, keys), 2 + i, mem, q, iso)
    requires var ws := mem[q.a].fields;
             && ws[5].Ref? && LeafBack(c, SnapshotOf(part, keys), 2 + |keys| + i, mem, ws[5].p, iso)
             && ws[6].Ref? && LeafBack(c, SnapshotOf(part, keys), 2 + 2 * |keys| + i, mem, ws[6].p, iso)
             && ws[7] == Entries([])
    ensures IsBranch(at, PartitionNo(part, keys, i), mem, q)
  {
    PartitionPartLands(c, at, part, keys, i, mem, q, iso);
    LocalLands(c, at, part, keys, i, mem, mem[q.a].fields[5].p, iso);
    GhostsLand(c, at, part, keys, i, mem, mem[q.a].fields[6].p, iso);
    BranchMade(at, PartitionNo(part, keys, i), mem, q);
  }

  lemma BranchSplit(c: Coding, s: Snapshot, i: nat, mem: Memory, q: Ptr, iso: Iso)
    requires SnapshotOk(s) && i < |s.keys| && BranchBack(c, s, 2 + i, mem, q, iso)
    ensures PartBack(c, s, 2 + i, mem, q, iso)
    ensures var ws := mem[q.a].fields;
            && ws[5].Ref? && LeafBack(c, s, 2 + |s.keys| + i, mem, ws[5].p, iso)
            && ws[6].Ref? && LeafBack(c, s, 2 + 2 * |s.keys| + i, mem, ws[6].p, iso)
            && ws[7] == Entries([])
  {
    assert s.LocalOf(2 + i) == 2 + |s.keys| + i && s.GhostsOf(2 + i) == 2 + 2 * |s.keys| + i;
  }

  lemma BranchMade(at: Places, p: ModelPart, mem: Memory, q: Ptr)
    requires IsPart(at, p, mem, q) && p.local != null && p.ghosts != null
    requires mem[q.a].fields[5].Ref? && IsLeaf(at, p.local, mem, mem[q.a].fields[5].p)
    requires mem[q.a].fields[6].Ref? && IsLeaf(at, p.ghosts, mem, mem[q.a].fields[6].p)
    requires mem[q.a].fields[7] == Entries([])
    ensures IsBranch(at, p, mem, q)
  {
  }

  lemma PartitionPartLands(c: Coding, at: Places, part: ModelPart, keys: seq<int>, i: nat, mem: Memory, q: Ptr,
                           iso: Iso)
    requires Landing(at, part, keys, mem, iso) && i < |keys|
    requires PartBack(c, SnapshotOf(part, keys), 2 + i, mem, q, iso)
    ensures IsPart(at, PartitionNo(part, keys, i), mem, q)
  {
    PartLands(c, at, part, keys, 2 + i, mem, q, iso);
  }

  lemma LocalLands(c: Coding, at: Places, part: ModelPart, keys: seq<int>, i: nat, mem: Memory, q: Ptr, iso: Iso)
    requires Landing(at, part, keys, mem, iso) && i < |keys|
    requires LeafBack(c, SnapshotOf(part, keys), 2 + |keys| + i, mem, q, iso)
    ensures IsLeaf(at, PartitionNo(part, keys, i).local, mem, q)
  {
    InnerIs(part, keys, i);
    LeafLands(c, at, part, keys, 2 + |keys| + i, mem, q, iso);
  }

  lemma GhostsLand(c: Coding, at: Places, part: ModelPart, keys: seq<int>, i: nat, mem: Memory, q: Ptr, iso: Iso)
    requires Landing(at, part, keys, mem, iso) && i < |keys|
    requires LeafBack(c, SnapshotOf(part, keys), 2 + 2 * |keys| + i, mem, q, iso)
    ensures IsLeaf(at, PartitionNo(part, keys, i).ghosts, mem, q)
  {
    InnerIs(part, keys, i);
    LeafLands(c, at, part, keys, 2 + 2 * |keys| + i, mem, q, iso);
  }

  lemma PartitionLands(c: Coding, at: Places, part: ModelPart, keys: seq<int>, i: nat, mem: Memory,
                       es: seq<(Token, Ptr)>, iso: Iso)
    requires Landing(at, part, keys, mem, iso) && i < |keys|
    requires PartitionBack(c, SnapshotOf(part, keys), i, mem, es, iso)
    ensures keys[i] in part.partitions && HasPartition(at, keys[i], part.partitions[keys[i]], mem, es)
  {
    var p := PartitionNo(part, keys, i);
    var j :| 0 <= j < |es| && EntryBack(c, SnapshotOf(part, keys), i, mem, es[j], iso);
    BranchSplit(c, SnapshotOf(part, keys), i, mem, es[j].1, iso);
    BranchLands(c, at, part, keys, i, mem, es[j].1, iso);
  }

  lemma {:induction false} KeysCounted(keys: seq<int>)
    requires forall j, k :: 0 <= j < k < |keys| ==> keys[j] != keys[k]
    ensures |set k | k in keys| == |keys|
  {
    var all := set k | k in keys;
    if keys != [] {
      KeysCounted(keys[1..]);
      assert all - {keys[0]} == set k | k in keys[1..];
    }
  }

  lemma AsManyEntries(keys: seq<int>, parts: map<int, ModelPart>)
    requires Enumerates(keys, parts)
    ensures |keys| == |parts|
  {
    var all := set k | k in keys;
    KeysCounted(keys);
    forall k
      ensures k in all <==> k in parts.Keys
    {
      assert k in all <==> k in keys;
    }
    assert all == parts.Keys;
  }

  lemma PartitionsLand(c: Coding, at: Places, part: ModelPart, keys: seq<int>, mem: Memory,
                       es: seq<(Token, Ptr)>, iso: Iso)
    requires Landing(at, part, keys, mem, iso) && PartitionsBack(c, SnapshotOf(part, keys), mem, es, iso)
    ensures |es| == |part.partitions|
    ensures forall k :: k in part.partitions ==> HasPartition(at, k, part.partitions[k], mem, es)
  {
    AsManyEntries(keys, part.partitions);
    forall k | k in part.partitions
      ensures HasPartition(at, k, part.partitions[k], mem, es)
    {
      var i :| 0 <= i < |keys| && keys[i] == k;
      PartitionLands(c, at, part, keys, i, mem, es, iso);
    }
  }

  lemma ArrivedIsMirror(c: Coding, at: Places, part: ModelPart, keys: seq<int>, mem: Memory, iso: Iso)
    requires Landing(at, part, keys, mem, iso) && at.OneToOne() && Arrived(c, SnapshotOf(part, keys), mem, iso)
    ensures Mirror(c, at, part, mem)
  {
    var ws := mem[0].fields;
    ListsLead(c, SnapshotOf(part, keys), at, part, mem, ws, iso);
    assert PartNo(part, keys, 0) == part.local && PartNo(part, keys, 1) == part.ghosts;
    LeafLands(c, at, part, keys, 0, mem, ws[5].p, iso);
    LeafLands(c, at, part, keys, 1, mem, ws[6].p, iso);
    PartitionsLand(c, at, part, keys, mem, ws[7].es, iso);
  }

  // The places

  ghost function NodePlaces(s: Snapshot, iso: Iso): map<Node, nat> {
    map n | n in s.root.nodes && s.NodeAddr(IndexOf(n, s.root.nodes)) in iso ::
      iso[s.NodeAddr(IndexOf(n, s.root.nodes))]
  }

  ghost function ElementPlaces(s: Snapshot, iso: Iso): map<Element, nat> {
    map e | e in s.root.elements && s.ElementAddr(IndexOf(e, s.root.elements)) in iso ::
      iso[s.ElementAddr(IndexOf(e, s.root.elements))]
  }

  /** The places of the first `m` of these parts. */
  lemma {:induction false} PartPlaces(parts: seq<ModelPart>, s: Snapshot, iso: Iso, m: nat)
    returns (places: map<ModelPart, nat>)
    requires m <= |parts| && forall i, j :: 0 <= i < j < |parts| ==> parts[i] != parts[j]
    ensures forall i :: 0 <= i < m && s.PartAddr(i) in iso ==>
      parts[i] in places && places[parts[i]] == iso[s.PartAddr(i)]
    ensures forall p :: p in places ==> exists i :: 0 <= i < m && s.PartAddr(i) in iso && p == parts[i]
  {
    places := map[];
    if m > 0 {
      places := PartPlaces(parts, s, iso, m - 1);
      if s.PartAddr(m - 1) in iso {
        places := places[parts[m - 1] := iso[s.PartAddr(m - 1)]];
      }
    }
  }

  /** The parts by their numbers. */
  lemma PartList(part: ModelPart, keys: seq<int>) returns (parts: seq<ModelPart>)
    requires Sendable(part, keys)
    ensures |parts| == 2 + 3 * |keys| && forall i :: 0 <= i < |parts| ==> parts[i] == PartNo(part, keys, i)
  {
    parts := seq(2 + 3 * |keys|,
                 m requires 0 <= m < 2 + 3 * |keys| && Sendable(part, keys)
                   reads part, part.Parts(), part.InnerParts() => PartNo(part, keys, m));
  }

  lemma PartsApart(parts: seq<ModelPart>, s: Snapshot, iso: Iso, places: map<ModelPart, nat>)
    requires Injective(iso) && forall a :: a in iso ==> iso[a] > 0
    requires forall i :: 0 <= i < |parts| && s.PartAddr(i) in iso ==>
      parts[i] in places && places[parts[i]] == iso[s.PartAddr(i)]
    requires forall p :: p in places ==> exists i :: 0 <= i < |parts| && s.PartAddr(i) in iso && p == parts[i]
    ensures Apart(places)
  {
    forall p, q | p in places && q in places && places[p] == places[q]
      ensures p == q
    {
      var i :| 0 <= i < |parts| && s.PartAddr(i) in iso && p == parts[i];
      var j :| 0 <= j < |parts| && s.PartAddr(j) in iso && q == parts[j];
      assert s.PartAddr(i) == s.PartAddr(j);
    }
  }

  lemma ListsApart(s: Snapshot, iso: Iso)
    requires Injective(iso) && forall a :: a in iso ==> iso[a] > 0
    ensures Apart(NodePlaces(s, iso)) && Apart(ElementPlaces(s, iso))
  {
  }

  lemma PlacesOf(part: ModelPart, keys: seq<int>, s: Snapshot, iso: Iso) returns (at: Places)
    requires Sendable(part, keys) && Injective(iso) && forall a :: a in iso ==> iso[a] > 0
    ensures at.OneToOne() && FollowsLists(at, s, iso) && FollowsParts(at, part, keys, s, iso)
  {
    var parts := PartList(part, keys);
    forall i, j | 0 <= i < j < |parts|
      ensures parts[i] != parts[j]
    {
      OneAddressEach(part, keys, i, j);
    }
    var places := PartPlaces(parts, s, iso, |parts|);
    PartsApart(parts, s, iso, places);
    ListsApart(s, iso);
    at := Places(NodePlaces(s, iso), ElementPlaces(s, iso), places);
  }

  /**
   * Main result: any valid ModelPart is loaded back into any empty one exactly when its names, ids,
   * coordinates and types are readable, and then the memory of the receiver holds the part.
   */
  lemma PartSaveThenLoad(env: Env, c: Coding, part: ModelPart, keys: seq<int>, into: ModelPart, tail: string)
    returns (at: Places)
    requires Sendable(part, keys) && Carries(env, c, SnapshotOf(part, keys)) && into.Valid() && into.Empty()
    ensures var s := SnapshotOf(part, keys);
            && HeapOk(env, GraphOf(c, s)) && FieldsOk(GraphOf(c, s), PART_SHAPE, RootFields(s))
            && var w := Save(env, GraphOf(c, s), PART_SHAPE, RootFields(s));
               w.Walk? &&
               var r := LoadInto(env, PART_SHAPE, Wire(env, w.out, tail), MemoryOf(into));
               && (Faithful(r, w.out) <==> PartReadable(env, c, s, w.done))
               && (Faithful(r, w.out) ==> Mirror(c, at, part, r.mem))
  {
    var s := SnapshotOf(part, keys);
    var iso := SnapshotSaveThenLoad(env, c, s, MemoryOf(into), tail);
    var w := Save(env, GraphOf(c, s), PART_SHAPE, RootFields(s));
    var r := LoadInto(env, PART_SHAPE, Wire(env, w.out, tail), MemoryOf(into));
    at := Places(map[], map[], map[]);
    if Faithful(r, w.out) {
      at := PlacesOf(part, keys, s, iso);
      GraphTyped(c, s, r.mem, iso);
      ArrivedIsMirror(c, at, part, keys, r.mem, iso);
    }
  }
}
