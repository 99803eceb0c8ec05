/** What `save` writes for an object graph: the specification of the saving half of the serializer. */
module SaveWalk {
  import opened ObjectGraph

  type Live = map<Addr, PtrType>

  /**
   * Result of saving: the tokens, the pointees whose bodies have been written (`mSavedPointers`),
   * and two facts about the stream that only matter to its reader: `live` holds the pointees whose
   * slot the reader can still use, with the type of the pointer variable that is this slot (the slot
   * of a `unique_ptr` never, that of a map entry not after it was moved), and `safe` says that a
   * pointee is met again only while its slot is live and through a pointer of the same type.
   */
  datatype Walk = Failed | Walk(out: seq<Token>, done: set<Addr>, live: Live, safe: bool) {
    function Then(next: Walk): Walk {
      if Failed? || next.Failed? then Failed
      else Walk(out + next.out, next.done, next.live, safe && next.safe)
    }
  }

  function Trace(env: Env, tag: string): seq<Token> {
    if env.Tags() then [Str(tag)] else []
  }

  predicate Extends(w: Walk, done: set<Addr>, h: Heap) {
    w.Failed? || (done <= w.done && (done <= h.Keys ==> w.done <= h.Keys))
  }

  /** What precedes the body of a pointee: its kind, its address, and the registered name of a derived class. */
  function PtrHead(env: Env, tag: string, target: TypeId, ty: TypeId, a: Addr): seq<Token>
    requires ty != target ==> ty in env.names
  {
    PtrKnown(target, ty, a) + (if ty != target then [Str(env.names[ty])] else []) + Trace(env, tag)
  }

  /** All that is written for a pointee whose body is on the stream already. */
  function PtrKnown(target: TypeId, ty: TypeId, a: Addr): seq<Token> {
    [Kind(if ty == target then 1 else 2), Address(a)]
  }

  /** The usable slots after `a` was met for the first time through a pointer of type `d`. */
  function Met(live: Live, a: Addr, d: PtrType): Live {
    if d.kind.Unique? then live else live[a := d]
  }

  /** `save(tag, pointer)` and `SavePointer`. */
  function SavePtr(env: Env, h: Heap, tag: string, d: PtrType, p: Ptr,
                   done: set<Addr>, live: Live): (w: Walk)
    requires HeapOk(env, h) && PtrOk(h, p)
    ensures Extends(w, done, h)
    decreases h.Keys - done, 0, 0
  {
    if p.Null? then Walk([Kind(0)], done, live, true)
    else
      var ty := h[p.a].ty;
      if p.a in done then Walk(PtrKnown(d.target, ty, p.a), done, live, p.a in live && live[p.a] == d)
      else if ty != d.target && ty !in env.names then Failed
      else
        var w := SaveFields(env, h, env.Shape(ty), h[p.a].fields, 0, done + {p.a}, Met(live, p.a, d));
        if w.Failed? then Failed
        else Walk(PtrHead(env, tag, d.target, ty, p.a) + w.out, w.done, w.live, w.safe)
  }

  /** The elements of a vector of pointers from index `j` on. */
  function SaveRefs(env: Env, h: Heap, d: PtrType, ps: seq<Ptr>, j: nat,
                    done: set<Addr>, live: Live): (w: Walk)
    requires HeapOk(env, h) && j <= |ps| && forall k :: 0 <= k < |ps| ==> PtrOk(h, ps[k])
    ensures Extends(w, done, h)
    decreases h.Keys - done, 1, |ps| - j
  {
    if j == |ps| then Walk([], done, live, true)
    else
      var w := SavePtr(env, h, "E", d, ps[j], done, live);
      if w.Failed? then Failed
      else w.Then(SaveRefs(env, h, d, ps, j + 1, w.done, w.live))
  }

  /** A map entry is a pair; its pointer loses its slot once the reader has moved the pair into the map. */
  function SaveEntry(env: Env, h: Heap, d: PtrType, e: (Token, Ptr),
                     done: set<Addr>, live: Live): (w: Walk)
    requires HeapOk(env, h) && PtrOk(h, e.1)
    ensures Extends(w, done, h)
    decreases h.Keys - done, 1, 0
  {
    var w := SavePtr(env, h, "Second", d, e.1, done, live);
    if w.Failed? then Failed
    else
      Walk(Trace(env, "E") + Trace(env, "First") + [e.0] + w.out, w.done,
           if e.1.To? && e.1.a !in done then w.live - {e.1.a} else w.live, w.safe)
  }

  function SaveEntries(env: Env, h: Heap, d: PtrType, es: seq<(Token, Ptr)>, j: nat,
                       done: set<Addr>, live: Live): (w: Walk)
    requires HeapOk(env, h) && j <= |es| && forall k :: 0 <= k < |es| ==> PtrOk(h, es[k].1)
    ensures Extends(w, done, h)
    decreases h.Keys - done, 2, |es| - j
  {
    if j == |es| then Walk([], done, live, true)
    else
      var w := SaveEntry(env, h, d, es[j], done, live);
      if w.Failed? then Failed
      else w.Then(SaveEntries(env, h, d, es, j + 1, w.done, w.live))
  }

  function SizeHead(env: Env, tag: string, size: nat): seq<Token> {
    Trace(env, tag) + Trace(env, "size") + [Num(8, size)]
  }

  function SaveField(env: Env, h: Heap, f: FieldShape, v: Value, done: set<Addr>, live: Live): (w: Walk)
    requires HeapOk(env, h) && ValueOk(h, f, v)
    ensures Extends(w, done, h)
    decreases h.Keys - done, 3, 0
  {
    match f
    case MarkF(tag) => Walk(Trace(env, tag), done, live, true)
    case ScalarF(tag, _) => Walk(Trace(env, tag) + [v.t], done, live, true)
    case RefF(tag, d) => SavePtr(env, h, tag, d, v.p, done, live)
    case RefsF(tag, d) =>
      Walk(SizeHead(env, tag, |v.ps|), done, live, true).Then(SaveRefs(env, h, d, v.ps, 0, done, live))
    case MapF(tag, _, d) =>
      Walk(SizeHead(env, tag, |v.es|), done, live, true).Then(SaveEntries(env, h, d, v.es, 0, done, live))
  }

  /** The fields of one object from index `i` on: the body of its `save`. */
  function SaveFields(env: Env, h: Heap, sh: seq<FieldShape>, vs: seq<Value>, i: nat,
                      done: set<Addr>, live: Live): (w: Walk)
    requires HeapOk(env, h) && FieldsOk(h, sh, vs) && i <= |sh|
    ensures Extends(w, done, h)
    decreases h.Keys - done, 4, |sh| - i
  {
    if i == |sh| then Walk([], done, live, true)
    else
      var w := SaveField(env, h, sh[i], vs[i], done, live);
      if w.Failed? then Failed
      else w.Then(SaveFields(env, h, sh, vs, i + 1, w.done, w.live))
  }
}
