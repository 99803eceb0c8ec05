/** A condition on the graph itself under which no reader of its stream meets a slot it cannot use. */
module Ownership {
  import opened ObjectGraph
  import opened SaveWalk

  /**
   * How a pointee is held: by one `unique_ptr` or map entry, its home, and by no other pointer, or
   * by any number of pointers of one type.
   */
  datatype Hold = Home(owner: Owner, field: nat, elem: nat) | Through(ptr: PtrType)

  type Holds = map<Addr, Hold>

  predicate Held(holds: Holds, p: Ptr, hold: Hold) {
    p.To? ==> p.a in holds && holds[p.a] == hold
  }

  function HoldOf(d: PtrType, me: Owner, i: nat, j: nat): Hold {
    if d.kind.Unique? then Home(me, i, j) else Through(d)
  }

  predicate HeldField(holds: Holds, me: Owner, i: nat, f: FieldShape, v: Value) {
    match f
    case RefF(_, d) => v.Ref? ==> Held(holds, v.p, HoldOf(d, me, i, 0))
    case RefsF(_, d) => v.Refs? ==> forall j :: 0 <= j < |v.ps| ==> Held(holds, v.ps[j], HoldOf(d, me, i, j))
    case MapF(_, _, _) => v.Entries? ==> forall j :: 0 <= j < |v.es| ==> Held(holds, v.es[j].1, Home(me, i, j))
    case _ => true
  }

  predicate HeldFields(holds: Holds, me: Owner, sh: seq<FieldShape>, vs: seq<Value>) {
    forall i :: 0 <= i < |sh| && i < |vs| ==> HeldField(holds, me, i, sh[i], vs[i])
  }

  /** Every pointee has the static type of the pointer or a registered one. */
  predicate KnownType(env: Env, h: Heap, target: TypeId, p: Ptr) {
    p.To? && p.a in h ==> h[p.a].ty == target || h[p.a].ty in env.names
  }

  predicate KnownField(env: Env, h: Heap, f: FieldShape, v: Value) {
    match f
    case RefF(_, d) => v.Ref? ==> KnownType(env, h, d.target, v.p)
    case RefsF(_, d) => v.Refs? ==> forall j :: 0 <= j < |v.ps| ==> KnownType(env, h, d.target, v.ps[j])
    case MapF(_, _, d) => v.Entries? ==> forall j :: 0 <= j < |v.es| ==> KnownType(env, h, d.target, v.es[j].1)
    case _ => true
  }

  predicate KnownFields(env: Env, h: Heap, sh: seq<FieldShape>, vs: seq<Value>) {
    forall i :: 0 <= i < |sh| && i < |vs| ==> KnownField(env, h, sh[i], vs[i])
  }

  /** What an object of class `sh` with fields `vs` has to satisfy, whose pointers lead into `S`. */
  predicate Orderly(env: Env, h: Heap, S: set<Addr>, holds: Holds, me: Owner, sh: seq<FieldShape>, vs: seq<Value>) {
    && HeldFields(holds, me, sh, vs) && KnownFields(env, h, sh, vs)
    && forall i :: 0 <= i < |vs| ==> Targets(vs[i]) <= S
  }

  /** The objects `S` of the heap are orderly and no pointer leaves them. */
  ghost predicate OrderlyHeap(env: Env, h: Heap, S: set<Addr>, holds: Holds) {
    && HeapOk(env, h)
    && forall a :: a in S ==> a in h && Orderly(env, h, S, holds, At(a), env.Shape(h[a].ty), h[a].fields)
  }

  /**
   * Of the pointees met so far, those held by many pointers have a usable slot, the others a home
   * in an object met so far.
   */
  ghost predicate Passed(holds: Holds, done: set<Addr>, live: Live, me: Owner) {
    && (me.At? ==> me.a in done)
    && forall b :: b in done && b in holds ==>
         match holds[b]
         case Through(d) => b in live && live[b] == d
         case Home(owner, _, _) => owner.At? ==> owner.a in done
  }

  /** All pointees met so far whose home is in object `me` come before place `(i, j)`. */
  ghost predicate Before(holds: Holds, done: set<Addr>, me: Owner, i: nat, j: nat) {
    forall b :: b in done && b in holds && holds[b].Home? && holds[b].owner == me ==>
      holds[b].field < i || (holds[b].field == i && holds[b].elem < j)
  }

  /** What a walk over part of object `me` meets anew belongs to `me` or to objects it meets anew. */
  ghost predicate Fresh(holds: Holds, done: set<Addr>, done1: set<Addr>, me: Owner) {
    forall b :: b in done1 && b !in done && b in holds && holds[b].Home? ==>
      holds[b].owner == me || (holds[b].owner.At? && holds[b].owner.a in done1 && holds[b].owner.a !in done)
  }

  /** The walk succeeds, meets no unusable slot, and ends before place `(i, j)` of object `me`. */
  ghost predicate Clean(holds: Holds, done: set<Addr>, w: Walk, me: Owner, i: nat, j: nat) {
    && w.Walk? && w.safe && done <= w.done
    && Passed(holds, w.done, w.live, me) && Before(holds, w.done, me, i, j) && Fresh(holds, done, w.done, me)
  }

  lemma {:induction false} PtrClean(env: Env, h: Heap, S: set<Addr>, holds: Holds, me: Owner, i: nat, j: nat,
                                    tag: string, d: PtrType, p: Ptr, done: set<Addr>, live: Live)
    requires OrderlyHeap(env, h, S, holds) && (p.To? ==> p.a in S) && KnownType(env, h, d.target, p)
    requires Held(holds, p, Through(d)) || Held(holds, p, Home(me, i, j))
    requires d.kind.Unique? ==> Held(holds, p, Home(me, i, j))
    requires Passed(holds, done, live, me) && Before(holds, done, me, i, j)
    ensures Clean(holds, done, SavePtr(env, h, tag, d, p, done, live), me, i, j + 1)
    ensures Held(holds, p, Through(d)) && !d.kind.Unique? ==>
      Before(holds, SavePtr(env, h, tag, d, p, done, live).done, me, i, j)
    decreases h.Keys - done, 0, 0
  {
    if p.To? && p.a !in done {
      var sh, vs := env.Shape(h[p.a].ty), h[p.a].fields;
      var done1, live1 := done + {p.a}, Met(live, p.a, d);
      assert Orderly(env, h, S, holds, At(p.a), sh, vs);
      assert Before(holds, done1, At(p.a), 0, 0);
      FieldsClean(env, h, S, holds, At(p.a), sh, vs, 0, done1, live1);
    }
  }

  lemma {:induction false} RefsClean(env: Env, h: Heap, S: set<Addr>, holds: Holds, me: Owner, i: nat, d: PtrType,
                                     ps: seq<Ptr>, k: nat, done: set<Addr>, live: Live)
    requires OrderlyHeap(env, h, S, holds) && k <= |ps|
    requires forall j :: 0 <= j < |ps| ==> (ps[j].To? ==> ps[j].a in S) && KnownType(env, h, d.target, ps[j])
    requires forall j :: 0 <= j < |ps| ==> Held(holds, ps[j], HoldOf(d, me, i, j))
    requires Passed(holds, done, live, me) && Before(holds, done, me, i, k)
    ensures Clean(holds, done, SaveRefs(env, h, d, ps, k, done, live), me, i + 1, 0)
    decreases h.Keys - done, 1, |ps| - k
  {
    if k < |ps| {
      var w := SavePtr(env, h, "E", d, ps[k], done, live);
      PtrClean(env, h, S, holds, me, i, k, "E", d, ps[k], done, live);
      RefsClean(env, h, S, holds, me, i, d, ps, k + 1, w.done, w.live);
    }
  }

  /** A pair that has been moved into the map leaves its pointee without a usable slot, which has a home there. */
  lemma EntryClean(env: Env, h: Heap, S: set<Addr>, holds: Holds, me: Owner, i: nat, d: PtrType,
                   e: (Token, Ptr), k: nat, done: set<Addr>, live: Live)
    requires HeapOk(env, h) && PtrOk(h, e.1) && Held(holds, e.1, Home(me, i, k))
    requires Clean(holds, done, SavePtr(env, h, "Second", d, e.1, done, live), me, i, k + 1)
    ensures Clean(holds, done, SaveEntry(env, h, d, e, done, live), me, i, k + 1)
  {
  }

  lemma {:induction false} EntriesClean(env: Env, h: Heap, S: set<Addr>, holds: Holds, me: Owner, i: nat, d: PtrType,
                                        es: seq<(Token, Ptr)>, k: nat, done: set<Addr>, live: Live)
    requires OrderlyHeap(env, h, S, holds) && k <= |es|
    requires forall j :: 0 <= j < |es| ==> (es[j].1.To? ==> es[j].1.a in S) && KnownType(env, h, d.target, es[j].1)
    requires forall j :: 0 <= j < |es| ==> Held(holds, es[j].1, Home(me, i, j))
    requires Passed(holds, done, live, me) && Before(holds, done, me, i, k)
    ensures Clean(holds, done, SaveEntries(env, h, d, es, k, done, live), me, i + 1, 0)
    decreases h.Keys - done, 2, |es| - k
  {
    if k < |es| {
      PtrClean(env, h, S, holds, me, i, k, "Second", d, es[k].1, done, live);
      EntryClean(env, h, S, holds, me, i, d, es[k], k, done, live);
      var w := SaveEntry(env, h, d, es[k], done, live);
      EntriesClean(env, h, S, holds, me, i, d, es, k + 1, w.done, w.live);
    }
  }

  lemma {:induction false} FieldClean(env: Env, h: Heap, S: set<Addr>, holds: Holds, me: Owner, i: nat, f: FieldShape,
                                      v: Value, done: set<Addr>, live: Live)
    requires OrderlyHeap(env, h, S, holds) && ValueOk(h, f, v) && Targets(v) <= S
    requires HeldField(holds, me, i, f, v) && KnownField(env, h, f, v)
    requires Passed(holds, done, live, me) && Before(holds, done, me, i, 0)
    ensures Clean(holds, done, SaveField(env, h, f, v, done, live), me, i + 1, 0)
    decreases h.Keys - done, 3, 0
  {
    match f {
      case RefF(tag, d) => PtrClean(env, h, S, holds, me, i, 0, tag, d, v.p, done, live);
      case RefsF(tag, d) =>
        assert forall j :: 0 <= j < |v.ps| && v.ps[j].To? ==> v.ps[j].a in Targets(v);
        RefsClean(env, h, S, holds, me, i, d, v.ps, 0, done, live);
      case MapF(tag, _, d) =>
        assert forall j :: 0 <= j < |v.es| && v.es[j].1.To? ==> v.es[j].1.a in Targets(v);
        EntriesClean(env, h, S, holds, me, i, d, v.es, 0, done, live);
      case _ =>
    }
  }

  lemma {:induction false} FieldsClean(env: Env, h: Heap, S: set<Addr>, holds: Holds, me: Owner, sh: seq<FieldShape>,
                                       vs: seq<Value>, i: nat, done: set<Addr>, live: Live)
    requires OrderlyHeap(env, h, S, holds) && FieldsOk(h, sh, vs) && i <= |sh|
    requires Orderly(env, h, S, holds, me, sh, vs)
    requires Passed(holds, done, live, me) && Before(holds, done, me, i, 0)
    ensures Clean(holds, done, SaveFields(env, h, sh, vs, i, done, live), me, |sh|, 0)
    decreases h.Keys - done, 4, |sh| - i
  {
    if i < |sh| {
      FieldClean(env, h, S, holds, me, i, sh[i], vs[i], done, live);
      var w := SaveField(env, h, sh[i], vs[i], done, live);
      FieldsClean(env, h, S, holds, me, sh, vs, i + 1, w.done, w.live);
    }
  }

  // Saving fails only at a derived class that is not registered

  ghost predicate AllKnown(env: Env, h: Heap) {
    HeapOk(env, h) && forall a :: a in h ==> KnownFields(env, h, env.Shape(h[a].ty), h[a].fields)
  }

  lemma {:induction false} PtrIsSaved(env: Env, h: Heap, tag: string, d: PtrType, p: Ptr, done: set<Addr>, live: Live)
    requires AllKnown(env, h) && PtrOk(h, p) && KnownType(env, h, d.target, p)
    ensures SavePtr(env, h, tag, d, p, done, live).Walk?
    decreases h.Keys - done, 0, 0
  {
    if p.To? && p.a !in done {
      FieldsAreSaved(env, h, env.Shape(h[p.a].ty), h[p.a].fields, 0, done + {p.a}, Met(live, p.a, d));
    }
  }

  lemma {:induction false} RefsAreSaved(env: Env, h: Heap, d: PtrType, ps: seq<Ptr>, k: nat, done: set<Addr>,
                                        live: Live)
    requires AllKnown(env, h) && k <= |ps|
    requires forall j :: 0 <= j < |ps| ==> PtrOk(h, ps[j]) && KnownType(env, h, d.target, ps[j])
    ensures SaveRefs(env, h, d, ps, k, done, live).Walk?
    decreases h.Keys - done, 1, |ps| - k
  {
    if k < |ps| {
      var w := SavePtr(env, h, "E", d, ps[k], done, live);
      PtrIsSaved(env, h, "E", d, ps[k], done, live);
      RefsAreSaved(env, h, d, ps, k + 1, w.done, w.live);
    }
  }

  lemma {:induction false} EntriesAreSaved(env: Env, h: Heap, d: PtrType, es: seq<(Token, Ptr)>, k: nat,
                                           done: set<Addr>, live: Live)
    requires AllKnown(env, h) && k <= |es|
    requires forall j :: 0 <= j < |es| ==> PtrOk(h, es[j].1) && KnownType(env, h, d.target, es[j].1)
    ensures SaveEntries(env, h, d, es, k, done, live).Walk?
    decreases h.Keys - done, 2, |es| - k
  {
    if k < |es| {
      var w := SaveEntry(env, h, d, es[k], done, live);
      PtrIsSaved(env, h, "Second", d, es[k].1, done, live);
      EntriesAreSaved(env, h, d, es, k + 1, w.done, w.live);
    }
  }

  lemma {:induction false} FieldsAreSaved(env: Env, h: Heap, sh: seq<FieldShape>, vs: seq<Value>, i: nat,
                                          done: set<Addr>, live: Live)
    requires AllKnown(env, h) && FieldsOk(h, sh, vs) && KnownFields(env, h, sh, vs) && i <= |sh|
    ensures SaveFields(env, h, sh, vs, i, done, live).Walk?
    decreases h.Keys - done, 4, |sh| - i
  {
    if i < |sh| {
      var v := vs[i];
      assert ValueOk(h, sh[i], v) && KnownField(env, h, sh[i], v);
      match sh[i] {
        case RefF(tag, d) => PtrIsSaved(env, h, tag, d, v.p, done, live);
        case RefsF(_, d) => RefsAreSaved(env, h, d, v.ps, 0, done, live);
        case MapF(_, _, d) => EntriesAreSaved(env, h, d, v.es, 0, done, live);
        case _ =>
      }
      var w := SaveField(env, h, sh[i], v, done, live);
      FieldsAreSaved(env, h, sh, vs, i + 1, w.done, w.live);
    }
  }
}
