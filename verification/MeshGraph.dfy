/** A ModelPart sent through the serializer: every view of the mesh keeps its nodes and shares them as before. */
module MeshGraph {
  import opened ObjectGraph
  import opened StreamFormat
  import opened LoadWalk
  import opened Isomorphism
  import opened Ownership
  import opened Readability
  import opened RoundTrip
  import opened IndexedVectors

  const NODE: TypeId := "Node"
  const ELEMENT: TypeId := "Element"
  const PART: TypeId := "ModelPart"

  const NODE_PTR := PtrType(Intrusive, NODE)
  const ELEMENT_PTR := PtrType(Intrusive, ELEMENT)
  const PART_PTR := PtrType(Unique, PART)

  const NODE_SHAPE: seq<FieldShape> :=
    [ScalarF("mId", Number(8)), ScalarF("mX", Number(8)), ScalarF("mY", Number(8)), ScalarF("mZ", Number(8))]

  const ELEMENT_SHAPE: seq<FieldShape> :=
    [ScalarF("mId", Number(8)), ScalarF("mType", Number(4)), RefsF("mNodes", NODE_PTR)]

  /** The two indexed vectors are held by value and save only their data. */
  const PART_SHAPE: seq<FieldShape> :=
    [ScalarF("mName", Text),
     MarkF("mNodes"), RefsF("mData", NODE_PTR),
     MarkF("mElements"), RefsF("mData", ELEMENT_PTR),
     RefF("mpLocalModelPart", PART_PTR), RefF("mpGhostModelPart", PART_PTR),
     MapF("mPartitionModelParts", Number(4), PART_PTR)]

  predicate MeshEnv(env: Env) {
    && NODE in env.classes && env.classes[NODE] == NODE_SHAPE
    && ELEMENT in env.classes && env.classes[ELEMENT] == ELEMENT_SHAPE
    && PART in env.classes && env.classes[PART] == PART_SHAPE
    && env.RegistryOk()
  }

  /** The object a non-null pointer leads to has the static type of the pointer. */
  predicate PointsTo(h: Heap, ty: TypeId, p: Ptr) {
    p.To? ==> p.a in h && h[p.a].ty == ty
  }

  /** The fields of a ModelPart: nodes and elements are never null. */
  predicate PartOk(h: Heap, vs: seq<Value>) {
    && FieldsOk(h, PART_SHAPE, vs)
    && (forall j :: 0 <= j < |vs[2].ps| ==> vs[2].ps[j].To? && PointsTo(h, NODE, vs[2].ps[j]))
    && (forall j :: 0 <= j < |vs[4].ps| ==> vs[4].ps[j].To? && PointsTo(h, ELEMENT, vs[4].ps[j]))
    && PointsTo(h, PART, vs[5].p) && PointsTo(h, PART, vs[6].p)
    && (forall j :: 0 <= j < |vs[7].es| ==> PointsTo(h, PART, vs[7].es[j].1))
  }

  predicate ElementOk(h: Heap, vs: seq<Value>) {
    && FieldsOk(h, ELEMENT_SHAPE, vs)
    && (forall j :: 0 <= j < |vs[2].ps| ==> vs[2].ps[j].To? && PointsTo(h, NODE, vs[2].ps[j]))
  }

  predicate MeshOk(env: Env, h: Heap) {
    && MeshEnv(env)
    && (forall a :: a in h ==> h[a].ty in {NODE, ELEMENT, PART})
    && (forall a :: a in h && h[a].ty == NODE ==> FieldsOk(h, NODE_SHAPE, h[a].fields))
    && (forall a :: a in h && h[a].ty == ELEMENT ==> ElementOk(h, h[a].fields))
    && (forall a :: a in h && h[a].ty == PART ==> PartOk(h, h[a].fields))
  }

  /** A `unique_ptr` is the only pointer to its ModelPart, as `holds` records. */
  ghost predicate PartsUnique(env: Env, h: Heap, vs: seq<Value>, holds: Holds) {
    && HeldFields(holds, Root, PART_SHAPE, vs)
    && forall a :: a in h ==> HeldFields(holds, At(a), env.Shape(h[a].ty), h[a].fields)
  }

  /** Pointer by pointer the same list, with equal ids and coordinates. */
  ghost predicate SameNodes(h: Heap, ps: seq<Ptr>, mem: Memory, qs: seq<Ptr>, iso: Iso) {
    && |qs| == |ps|
    && forall j :: 0 <= j < |ps| ==>
      && ps[j].To? && ps[j].a in iso && ps[j].a in h && qs[j] == To(iso[ps[j].a])
      && qs[j].a < |mem| && mem[qs[j].a] == h[ps[j].a]
  }

  ghost predicate SameElements(h: Heap, ps: seq<Ptr>, mem: Memory, qs: seq<Ptr>, iso: Iso) {
    && |qs| == |ps|
    && forall j :: 0 <= j < |ps| ==>
      && ps[j].To? && ps[j].a in iso && ps[j].a in h && qs[j] == To(iso[ps[j].a]) && qs[j].a < |mem|
      && SameElement(h, h[ps[j].a], mem, mem[qs[j].a], iso)
  }

  ghost predicate SameElement(h: Heap, e: Obj, mem: Memory, d: Obj, iso: Iso) {
    && |e.fields| == |d.fields| == 3 && e.fields[2].Refs? && d.fields[2].Refs?
    && d.fields[0] == e.fields[0] && d.fields[1] == e.fields[1]
    && SameNodes(h, e.fields[2].ps, mem, d.fields[2].ps, iso)
  }

  /** `ws` is the ModelPart `vs` again, down to `depth` levels of parts within parts. */
  ghost predicate SamePart(h: Heap, vs: seq<Value>, mem: Memory, ws: seq<Value>, iso: Iso, depth: nat)
    decreases depth, 1
  {
    && PartOk(h, vs) && |ws| == 8
    && ws[0] == vs[0]
    && ws[2].Refs? && SameNodes(h, vs[2].ps, mem, ws[2].ps, iso)
    && ws[4].Refs? && SameElements(h, vs[4].ps, mem, ws[4].ps, iso)
    && ws[5].Ref? && SameSubPart(h, vs[5].p, mem, ws[5].p, iso, depth)
    && ws[6].Ref? && SameSubPart(h, vs[6].p, mem, ws[6].p, iso, depth)
    && ws[7].Entries? && |ws[7].es| == |vs[7].es|
    && forall j :: 0 <= j < |vs[7].es| ==>
         ws[7].es[j].0 == vs[7].es[j].0 && SameSubPart(h, vs[7].es[j].1, mem, ws[7].es[j].1, iso, depth)
  }

  ghost predicate SameSubPart(h: Heap, p: Ptr, mem: Memory, q: Ptr, iso: Iso, depth: nat)
    decreases depth, 0
  {
    if p.Null? then q.Null?
    else
      && p.a in iso && p.a in h && q == To(iso[p.a]) && q.a < |mem|
      && (depth > 0 ==> SamePart(h, h[p.a].fields, mem, mem[q.a].fields, iso, depth - 1))
  }

  /**
   * Main result: a ModelPart is loaded back exactly when its name, ids and coordinates are readable,
   * and then has the same name, nodes, elements, local, ghost and partition parts, all through one
   * injective map of the objects, so that an element or a view shares a node with another view
   * exactly when it did before.
   */
  lemma ModelPartSaveThenLoad(env: Env, h: Heap, vs: seq<Value>, holds: Holds, mem: Memory, tail: string)
    returns (iso: Iso)
    requires MeshOk(env, h) && PartOk(h, vs) && PartsUnique(env, h, vs, holds)
    requires CodeOk(env) && Framed(env, h) && FieldsFramed(env, PART_SHAPE, vs)
    requires Receiver(env, h, PART_SHAPE, vs, mem)
    ensures HeapOk(env, h)
    ensures var w := Save(env, h, PART_SHAPE, vs);
            w.Walk? &&
            var r := LoadInto(env, PART_SHAPE, Wire(env, w.out, tail), mem);
            && IsReach(h, vs, w.done)
            && (Faithful(r, w.out) <==> GraphReadable(env, h, vs, w.done))
            && (Faithful(r, w.out) ==>
                 && Delivered(env, h, vs, w, tail, mem, r, iso)
                 && forall depth :: SamePart(h, vs, r.mem, r.mem[0].fields, iso, depth))
  {
    MeshIsOrderly(env, h, vs, holds);
    iso := OwnedSaveThenLoad(env, h, h.Keys, holds, PART_SHAPE, vs, mem, tail);
    var w := Save(env, h, PART_SHAPE, vs);
    var r := LoadInto(env, PART_SHAPE, Wire(env, w.out, tail), mem);
    if Faithful(r, w.out) {
      forall depth
        ensures SamePart(h, vs, r.mem, r.mem[0].fields, iso, depth)
      {
        PartKept(env, h, vs, r.mem, r.mem[0].fields, iso, depth);
      }
    }
  }

  lemma MeshIsOrderly(env: Env, h: Heap, vs: seq<Value>, holds: Holds)
    requires MeshOk(env, h) && PartOk(h, vs) && PartsUnique(env, h, vs, holds)
    ensures OrderlyValue(env, h, h.Keys, holds, PART_SHAPE, vs)
  {
    MeshHeapOk(env, h);
    PartKnown(env, h, vs);
    InsideHeap(h, PART_SHAPE, vs);
    forall a | a in h
      ensures Orderly(env, h, h.Keys, holds, At(a), env.Shape(h[a].ty), h[a].fields)
    {
      ObjectKnown(env, h, a);
      InsideHeap(h, env.Shape(h[a].ty), h[a].fields);
    }
  }

  lemma ObjectKnown(env: Env, h: Heap, a: Addr)
    requires MeshOk(env, h) && a in h
    ensures KnownFields(env, h, env.Shape(h[a].ty), h[a].fields)
  {
    if h[a].ty == PART { PartKnown(env, h, h[a].fields); }
    if h[a].ty == ELEMENT { ElementKnown(env, h, h[a].fields); }
  }

  lemma InsideHeap(h: Heap, sh: seq<FieldShape>, vs: seq<Value>)
    requires FieldsOk(h, sh, vs)
    ensures forall i :: 0 <= i < |vs| ==> Targets(vs[i]) <= h.Keys
  {
    forall i | 0 <= i < |vs|
      ensures Targets(vs[i]) <= h.Keys
    {
      assert ValueOk(h, sh[i], vs[i]);
    }
  }

  // The receiver

  /** A part with arbitrary name and no contents. */
  predicate BlankPart(o: Obj, local: Ptr, ghosts: Ptr) {
    && o.ty == PART && |o.fields| == 8
    && o.fields[0].Scalar? && o.fields[1].Nothing? && o.fields[2] == Refs([])
    && o.fields[3].Nothing? && o.fields[4] == Refs([])
    && o.fields[5] == Ref(local) && o.fields[6] == Ref(ghosts) && o.fields[7] == Entries([])
  }

  /** What the public constructor and `Clear` make: an empty part with an empty local and an empty ghost part. */
  predicate NewPart(mem: Memory) {
    |mem| >= 3 && BlankPart(mem[0], To(1), To(2)) && BlankPart(mem[1], Null, Null) && BlankPart(mem[2], Null, Null)
  }

  /** It can receive every part that has a local and a ghost part. */
  lemma NewPartReceives(env: Env, h: Heap, vs: seq<Value>, mem: Memory)
    requires MeshOk(env, h) && PartOk(h, vs) && vs[5].p.To? && vs[6].p.To? && NewPart(mem)
    ensures Receiver(env, h, PART_SHAPE, vs, mem)
  {
    BlankPartSpare(env, h, mem, vs[5].p, 1);
    BlankPartSpare(env, h, mem, vs[6].p, 2);
    forall i | 0 <= i < 8
      ensures Receives(env, h, mem, map[], 0, PART_SHAPE[i], vs[i], mem[0].fields[i])
    {
      assert ValueOk(h, PART_SHAPE[i], vs[i]);
    }
    PartSpares(mem[0], 1, 2);
  }

  lemma PartSpares(o: Obj, a: nat, b: nat)
    requires BlankPart(o, To(a), To(b)) && a != b
    ensures SparesDistinct(o.fields, 0)
  {
    assert forall i :: 0 <= i < 8 && i != 5 && i != 6 ==> SpareOf(o.fields[i]) == {};
  }

  lemma BlankPartSpare(env: Env, h: Heap, mem: Memory, p: Ptr, b: nat)
    requires MeshEnv(env) && p.To? && PointsTo(h, PART, p) && 0 < b < |mem| && BlankPart(mem[b], Null, Null)
    ensures Spare(env, h, mem, map[], 0, p, b)
  {
    assert forall i :: 0 <= i < 8 ==> BlankValue(PART_SHAPE[i], mem[b].fields[i]);
  }

  /** The ids from which `ComputeAccessMap` builds an index. */
  function ItemId(o: Obj): int {
    if |o.fields| > 0 && o.fields[0].Scalar? && o.fields[0].t.Num? then o.fields[0].t.n else 0
  }

  ghost function SavedIds(h: Heap, ps: seq<Ptr>): seq<int>
    requires forall j :: 0 <= j < |ps| ==> ps[j].To? && ps[j].a in h
  {
    seq(|ps|, j requires 0 <= j < |ps| => ItemId(h[ps[j].a]))
  }

  function LoadedIds(mem: Memory, qs: seq<Ptr>): seq<int> {
    seq(|qs|, j requires 0 <= j < |qs| => if qs[j].To? && qs[j].a < |mem| then ItemId(mem[qs[j].a]) else 0)
  }

  /** The indexes computed while loading are those of the saved part. */
  lemma IndexesRebuilt(h: Heap, vs: seq<Value>, mem: Memory, ws: seq<Value>, iso: Iso, depth: nat)
    requires SamePart(h, vs, mem, ws, iso, depth)
    ensures AccessMap(LoadedIds(mem, ws[2].ps)) == AccessMap(SavedIds(h, vs[2].ps))
    ensures AccessMap(LoadedIds(mem, ws[4].ps)) == AccessMap(SavedIds(h, vs[4].ps))
  {
    assert LoadedIds(mem, ws[2].ps) == SavedIds(h, vs[2].ps);
    assert LoadedIds(mem, ws[4].ps) == SavedIds(h, vs[4].ps);
  }

  lemma MeshHeapOk(env: Env, h: Heap)
    requires MeshOk(env, h)
    ensures HeapOk(env, h)
  {
  }

  lemma PartKnown(env: Env, h: Heap, vs: seq<Value>)
    requires PartOk(h, vs)
    ensures KnownFields(env, h, PART_SHAPE, vs)
  {
  }

  lemma ElementKnown(env: Env, h: Heap, vs: seq<Value>)
    requires ElementOk(h, vs)
    ensures KnownFields(env, h, ELEMENT_SHAPE, vs)
  {
  }

  lemma NodesKept(env: Env, h: Heap, ps: seq<Ptr>, mem: Memory, qs: seq<Ptr>, iso: Iso)
    requires MeshOk(env, h) && Rebuilt(iso, Refs(ps), Refs(qs))
    requires forall a :: a in iso ==> Complete(h, mem, iso, a)
    requires forall j :: 0 <= j < |ps| ==> ps[j].To? && PointsTo(h, NODE, ps[j])
    ensures SameNodes(h, ps, mem, qs, iso)
  {
    forall j | 0 <= j < |ps|
      ensures ps[j].a in iso && qs[j] == To(iso[ps[j].a]) && qs[j].a < |mem| && mem[qs[j].a] == h[ps[j].a]
    {
      assert ps[j].a in Targets(Refs(ps));
      NodeKept(env, h, mem, iso, ps[j].a);
    }
  }

  lemma NodeKept(env: Env, h: Heap, mem: Memory, iso: Iso, a: Addr)
    requires MeshOk(env, h) && a in h && h[a].ty == NODE && Complete(h, mem, iso, a)
    ensures mem[iso[a]] == h[a]
  {
    forall i | 0 <= i < |h[a].fields|
      ensures mem[iso[a]].fields[i] == h[a].fields[i]
    {
      assert Rebuilt(iso, h[a].fields[i], mem[iso[a]].fields[i]);
      assert ValueOk(h, NODE_SHAPE[i], h[a].fields[i]);
    }
  }

  lemma ElementsKept(env: Env, h: Heap, ps: seq<Ptr>, mem: Memory, qs: seq<Ptr>, iso: Iso)
    requires MeshOk(env, h) && Rebuilt(iso, Refs(ps), Refs(qs))
    requires forall a :: a in iso ==> Complete(h, mem, iso, a)
    requires forall j :: 0 <= j < |ps| ==> ps[j].To? && PointsTo(h, ELEMENT, ps[j])
    ensures SameElements(h, ps, mem, qs, iso)
  {
    forall j | 0 <= j < |ps|
      ensures ps[j].a in iso && qs[j] == To(iso[ps[j].a]) && qs[j].a < |mem|
      ensures SameElement(h, h[ps[j].a], mem, mem[qs[j].a], iso)
    {
      assert ps[j].a in Targets(Refs(ps));
      ElementKept(env, h, mem, iso, ps[j].a);
    }
  }

  lemma ElementKept(env: Env, h: Heap, mem: Memory, iso: Iso, a: Addr)
    requires MeshOk(env, h) && a in h && h[a].ty == ELEMENT && a in iso
    requires forall b :: b in iso ==> Complete(h, mem, iso, b)
    ensures iso[a] < |mem| && SameElement(h, h[a], mem, mem[iso[a]], iso)
  {
    var e, d := h[a], mem[iso[a]];
    assert Complete(h, mem, iso, a);
    forall i | 0 <= i < 3
      ensures Rebuilt(iso, e.fields[i], d.fields[i]) && ValueOk(h, ELEMENT_SHAPE[i], e.fields[i])
    {
    }
    NodesKept(env, h, e.fields[2].ps, mem, d.fields[2].ps, iso);
  }

  lemma {:induction false} PartKept(env: Env, h: Heap, vs: seq<Value>, mem: Memory, ws: seq<Value>, iso: Iso,
                                    depth: nat)
    requires MeshOk(env, h) && PartOk(h, vs) && |ws| == |vs|
    requires forall i :: 0 <= i < |vs| ==> Rebuilt(iso, vs[i], ws[i])
    requires forall a :: a in iso ==> Complete(h, mem, iso, a)
    ensures SamePart(h, vs, mem, ws, iso, depth)
    decreases depth, 1
  {
    forall i | 0 <= i < 8
      ensures ValueOk(h, PART_SHAPE[i], vs[i]) && Rebuilt(iso, vs[i], ws[i])
    {
    }
    assert vs[2] == Refs(vs[2].ps) && ws[2] == Refs(ws[2].ps) && vs[4] == Refs(vs[4].ps) && ws[4] == Refs(ws[4].ps);
    NodesKept(env, h, vs[2].ps, mem, ws[2].ps, iso);
    ElementsKept(env, h, vs[4].ps, mem, ws[4].ps, iso);
    SubPartKept(env, h, vs[5].p, mem, iso, depth);
    SubPartKept(env, h, vs[6].p, mem, iso, depth);
    forall j | 0 <= j < |vs[7].es|
      ensures ws[7].es[j].0 == vs[7].es[j].0 && SameSubPart(h, vs[7].es[j].1, mem, ws[7].es[j].1, iso, depth)
    {
      if vs[7].es[j].1.To? { assert vs[7].es[j].1.a in Targets(vs[7]); }
      SubPartKept(env, h, vs[7].es[j].1, mem, iso, depth);
    }
  }

  lemma {:induction false} SubPartKept(env: Env, h: Heap, p: Ptr, mem: Memory, iso: Iso, depth: nat)
    requires MeshOk(env, h) && PointsTo(h, PART, p) && (p.To? ==> p.a in iso)
    requires forall a :: a in iso ==> Complete(h, mem, iso, a)
    ensures SameSubPart(h, p, mem, MapPtr(iso, p), iso, depth)
    decreases depth, 0
  {
    if p.To? {
      assert Complete(h, mem, iso, p.a);
      if depth > 0 {
        PartKept(env, h, h[p.a].fields, mem, mem[iso[p.a]].fields, iso, depth - 1);
      }
    }
  }
}
