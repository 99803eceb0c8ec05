/** Loading what was saved rebuilds the object graph: the simulation between the two walks. */
module Isomorphism {
  import opened ObjectGraph
  import opened StreamFormat
  import opened SaveWalk
  import opened LoadWalk

  /** Where each pointee that was met has been rebuilt. */
  type Iso = map<Addr, Addr>

  function MapPtr(iso: Iso, p: Ptr): Ptr
    requires p.To? ==> p.a in iso
  {
    if p.Null? then Null else To(iso[p.a])
  }

  function MapValue(iso: Iso, v: Value): (r: Value)
    requires Targets(v) <= iso.Keys
  {
    match v
    case Ref(p) => Ref(MapPtr(iso, p))
    case Refs(ps) =>
      assert forall j :: 0 <= j < |ps| && ps[j].To? ==> ps[j].a in Targets(v);
      Refs(seq(|ps|, j requires 0 <= j < |ps| => MapPtr(iso, ps[j])))
    case Entries(es) =>
      assert forall j :: 0 <= j < |es| && es[j].1.To? ==> es[j].1.a in Targets(v);
      Entries(seq(|es|, j requires 0 <= j < |es| => (es[j].0, MapPtr(iso, es[j].1))))
    case _ => v
  }

  /** The value `v` has been rebuilt as `r`. */
  predicate Rebuilt(iso: Iso, v: Value, r: Value) {
    Targets(v) <= iso.Keys && r == MapValue(iso, v)
  }

  /** The object at `a` has been rebuilt completely. */
  predicate Complete(h: Heap, mem: Memory, iso: Iso, a: Addr) {
    && a in h && a in iso && iso[a] < |mem|
    && mem[iso[a]].ty == h[a].ty
    && |mem[iso[a]].fields| == |h[a].fields|
    && forall i :: 0 <= i < |h[a].fields| ==> Rebuilt(iso, h[a].fields[i], mem[iso[a]].fields[i])
  }

  predicate Injective(iso: Iso) {
    forall a, b :: a in iso && b in iso && iso[a] == iso[b] ==> a == b
  }

  /** A recorded slot that can be read again, and holds a pointer to object `n`. */
  predicate Usable(mem: Memory, rec: Record, d: PtrType, n: nat) {
    rec.ptr == d && !d.kind.Unique? && ReadCell(mem, rec.slot) == Some(To(n))
  }

  /** A recorded slot that can never be read again. */
  predicate Gone(mem: Memory, s: Slot) {
    s.Whole? || (s.obj < |mem| && mem[s.obj] == DEAD)
  }

  /** The saving and the loading process agree on what has been met so far. */
  ghost predicate Sim(h: Heap, done: set<Addr>, live: Live, mem: Memory, table: Table, iso: Iso) {
    && iso.Keys == done && table.Keys == done && done <= h.Keys && live.Keys <= done
    && Injective(iso)
    && (forall a :: a in done ==> iso[a] < |mem|)
    && (forall a :: a in live ==> Usable(mem, table[a], live[a], iso[a]))
    && (forall a :: a in done && a !in live ==> Gone(mem, table[a].slot))
  }

  // What a variable may hold before it is loaded

  /** A default value, except that scalars are arbitrary and vectors may hold null pointers. */
  predicate BlankValue(f: FieldShape, r: Value) {
    match f
    case MarkF(_) => r.Nothing?
    case ScalarF(_, _) => r.Scalar?
    case RefF(_, _) => r == Ref(Null)
    case RefsF(_, _) => r.Refs? && forall j :: 0 <= j < |r.ps| ==> r.ps[j].Null?
    case MapF(_, _, _) => r == Entries([])
  }

  predicate Blank(sh: seq<FieldShape>, rs: seq<Value>) {
    |rs| == |sh| && forall i :: 0 <= i < |sh| ==> BlankValue(sh[i], rs[i])
  }

  /**
   * The variable of object `n` that pointer `p` will be loaded into points to object `b` already,
   * an object of the type of the pointee that nothing has been loaded into.
   */
  predicate Spare(env: Env, h: Heap, mem: Memory, iso: Iso, n: nat, p: Ptr, b: nat) {
    && p.To? && p.a in h && b < |mem| && b != n && b !in iso.Values
    && mem[b].ty == h[p.a].ty && Blank(env.Shape(mem[b].ty), mem[b].fields)
  }

  /** Value `v` can be loaded into a field of object `n` that holds `r`. */
  predicate Receives(env: Env, h: Heap, mem: Memory, iso: Iso, n: nat, f: FieldShape, v: Value, r: Value) {
    if f.RefF? && r.Ref? && r.p.To? then v.Ref? && Spare(env, h, mem, iso, n, v.p, r.p.a) else BlankValue(f, r)
  }

  /** The object a field points to before it is loaded. */
  function SpareOf(r: Value): set<nat> {
    if r.Ref? && r.p.To? then {r.p.a} else {}
  }

  function Spares(rs: seq<Value>, i: nat): set<nat>
    decreases |rs| - i
  {
    if i >= |rs| then {} else SpareOf(rs[i]) + Spares(rs, i + 1)
  }

  predicate SparesDistinct(rs: seq<Value>, i: nat) {
    forall j, k :: i <= j < k < |rs| ==> SpareOf(rs[j]) !! SpareOf(rs[k])
  }

  lemma {:induction false} SparesAre(rs: seq<Value>, i: nat)
    ensures forall b :: b in Spares(rs, i) <==> exists k :: i <= k < |rs| && b in SpareOf(rs[k])
    decreases |rs| - i
  {
    if i < |rs| {
      SparesAre(rs, i + 1);
      forall b ensures b in Spares(rs, i) <==> exists k :: i <= k < |rs| && b in SpareOf(rs[k]) {
        if k :| i <= k < |rs| && b in SpareOf(rs[k]) {
          assert k == i || (i + 1 <= k < |rs| && b in SpareOf(rs[k]));
        }
      }
    }
  }

  lemma {:induction false} SparesSame(rs: seq<Value>, rs1: seq<Value>, i: nat)
    requires |rs1| == |rs| && forall k :: i <= k < |rs| ==> rs1[k] == rs[k]
    ensures Spares(rs1, i) == Spares(rs, i)
    decreases |rs| - i
  {
    if i < |rs| { SparesSame(rs, rs1, i + 1); }
  }

  // Steps

  /** Nothing but the objects `X` and new ones was written. */
  predicate Others(mem: Memory, mem1: Memory, X: set<nat>) {
    |mem| <= |mem1| && forall k :: 0 <= k < |mem| && k !in X ==> mem1[k] == mem[k]
  }

  predicate Includes(iso: Iso, iso1: Iso) {
    forall a :: a in iso ==> a in iso1 && iso1[a] == iso[a]
  }

  /** What was met anew has been rebuilt in the spare objects `S` or in new ones. */
  predicate Grows(iso: Iso, iso1: Iso, S: set<nat>, bound: nat) {
    Includes(iso, iso1) && forall a :: a in iso1 && a !in iso ==> iso1[a] in S || iso1[a] >= bound
  }

  predicate TableGrows(table: Table, table1: Table) {
    forall a :: a in table ==> a in table1 && table1[a] == table[a]
  }

  /** What a step that fills part of object `n`, and maybe the spare objects `S`, does to the rest of the state. */
  ghost predicate Step(h: Heap, mem: Memory, table: Table, iso: Iso, n: nat, S: set<nat>,
                       w: Walk, r: Load, rest: Stream, iso1: Iso)
    requires w.Walk?
  {
    && r.Loaded? && r.rest == rest
    && Sim(h, w.done, w.live, r.mem, r.table, iso1)
    && Others(mem, r.mem, S + {n}) && Grows(iso, iso1, S, |mem|) && TableGrows(table, r.table)
    && (forall a :: a in w.done && a !in iso ==> Complete(h, r.mem, iso1, a))
  }

  /** The step of loading pointer `p` into the variable `c`. */
  ghost predicate PtrStep(h: Heap, d: PtrType, p: Ptr, c: Slot, S: set<nat>, mem: Memory, table: Table, iso: Iso,
                          w: Walk, r: Load, rest: Stream, iso1: Iso)
    requires w.Walk? && ReadCell(mem, c).Some?
  {
    && Step(h, mem, table, iso, c.obj, S, w, r, rest, iso1)
    && (p.To? ==> p.a in iso1)
    && r.mem[c.obj] == WriteCell(mem, c, MapPtr(iso1, p))[c.obj]
    && (p.To? && p.a !in iso ==> p.a in r.table && r.table[p.a] == RecordOf(d, c, iso1[p.a]))
  }

  /** A completed object stays complete while other objects are written and the rebuilt part grows. */
  lemma CompleteStays(h: Heap, mem: Memory, mem1: Memory, iso: Iso, iso1: Iso, X: set<nat>, a: Addr)
    requires Complete(h, mem, iso, a) && Others(mem, mem1, X) && Includes(iso, iso1) && iso[a] !in X
    ensures Complete(h, mem1, iso1, a)
  {
    forall i | 0 <= i < |h[a].fields|
      ensures Rebuilt(iso1, h[a].fields[i], mem1[iso1[a]].fields[i])
    {
      assert Rebuilt(iso, h[a].fields[i], mem[iso[a]].fields[i]);
      RebuiltStays(iso, iso1, h[a].fields[i], mem[iso[a]].fields[i]);
    }
  }

  lemma RebuiltStays(iso: Iso, iso1: Iso, v: Value, r: Value)
    requires Rebuilt(iso, v, r) && Includes(iso, iso1)
    ensures Rebuilt(iso1, v, r)
  {
    assert Targets(v) <= iso1.Keys;
    match v {
      case Refs(ps) =>
        assert forall j :: 0 <= j < |ps| && ps[j].To? ==> ps[j].a in Targets(v);
      case Entries(es) =>
        assert forall j :: 0 <= j < |es| && es[j].1.To? ==> es[j].1.a in Targets(v);
      case _ =>
    }
  }

  /** The part of a stream between two lists of tokens. */
  lemma Between(env: Env, s: Stream, a: seq<Token>, b: seq<Token>, rest: Stream) returns (mid: Stream)
    requires After(env, s, a + b) == Some(rest)
    ensures After(env, s, a) == Some(mid) && After(env, mid, b) == Some(rest)
  {
    AfterConcat(env, s, a, b);
    mid := After(env, s, a).value;
  }

  lemma OthersThen(mem: Memory, mem1: Memory, mem2: Memory, X: set<nat>, Y: set<nat>, Z: set<nat>)
    requires Others(mem, mem1, X) && Others(mem1, mem2, Y) && X <= Z && Y <= Z
    ensures Others(mem, mem2, Z)
  {
  }

  lemma GrowsThen(iso: Iso, iso1: Iso, iso2: Iso, S1: set<nat>, S2: set<nat>, bound: nat, bound1: nat)
    requires Grows(iso, iso1, S1, bound) && Grows(iso1, iso2, S2, bound1) && bound <= bound1
    ensures Grows(iso, iso2, S1 + S2, bound)
  {
  }

  /** Steps compose. */
  lemma StepThen(h: Heap, done: set<Addr>, live: Live, mem: Memory, table: Table, iso: Iso, n: nat, S1: set<nat>,
                 S2: set<nat>, w1: Walk, r1: Load, rest1: Stream, iso1: Iso, w2: Walk, r2: Load, rest: Stream,
                 iso2: Iso)
    requires w1.Walk? && w2.Walk?
    requires Sim(h, done, live, mem, table, iso) && w1.done <= w2.done
    requires n < |mem| && n !in S1 && n !in S2 && S1 !! S2 && forall b :: b in S2 ==> b < |mem|
    requires Step(h, mem, table, iso, n, S1, w1, r1, rest1, iso1)
    requires Step(h, r1.mem, r1.table, iso1, n, S2, w2, r2, rest, iso2)
    ensures Step(h, mem, table, iso, n, S1 + S2, w1.Then(w2), r2, rest, iso2)
  {
    OthersThen(mem, r1.mem, r2.mem, S1 + {n}, S2 + {n}, S1 + S2 + {n});
    GrowsThen(iso, iso1, iso2, S1, S2, |mem|, |r1.mem|);
    forall a | a in w2.done && a !in iso
      ensures Complete(h, r2.mem, iso2, a)
    {
      if a in iso1 {
        CompleteStays(h, r1.mem, r2.mem, iso1, iso2, S2 + {n}, a);
      }
    }
  }

  lemma TraceRead(env: Env, tag: string, s: Stream, rest: Stream)
    requires After(env, s, Trace(env, tag)) == Some(rest)
    ensures ReadTrace(env, tag, s) == Some(rest)
  {
  }

  lemma OneRead(env: Env, t: Token, s: Stream, rest: Stream)
    requires After(env, s, [t]) == Some(rest)
    ensures Next(env, WantOf(t), s) == Some((t, rest))
  {
  }

  lemma TwoRead(env: Env, t: Token, u: Token, s: Stream, rest: Stream) returns (mid: Stream)
    requires After(env, s, [t, u]) == Some(rest)
    ensures Next(env, WantOf(t), s) == Some((t, mid)) && Next(env, WantOf(u), mid) == Some((u, rest))
  {
    assert [t, u] == [t] + [u];
    mid := Between(env, s, [t], [u], rest);
    OneRead(env, t, s, mid);
    OneRead(env, u, mid, rest);
  }

  /** Writing a variable that holds no loaded pointer disturbs no slot that can still be read. */
  lemma WriteKeepsSim(h: Heap, done: set<Addr>, live: Live, mem: Memory, table: Table, iso: Iso, c: Slot, p: Ptr)
    requires Sim(h, done, live, mem, table, iso)
    requires var q := ReadCell(mem, c); q.Some? && (q.value.To? ==> q.value.a !in iso.Values)
    ensures Sim(h, done, live, WriteCell(mem, c, p), table, iso)
  {
    var mem1 := WriteCell(mem, c, p);
    forall a | a in live
      ensures Usable(mem1, table[a], live[a], iso[a])
    {
      assert Usable(mem, table[a], live[a], iso[a]);
      assert iso[a] in iso.Values;
    }
  }

  lemma NullWrite(mem: Memory, c: Slot)
    requires ReadCell(mem, c) == Some(Null)
    ensures WriteCell(mem, c, Null)[c.obj] == mem[c.obj]
  {
    SameWrite(mem, c, Null);
  }

  lemma SameWrite(mem: Memory, c: Slot, p: Ptr)
    requires ReadCell(mem, c) == Some(p)
    ensures WriteCell(mem, c, p)[c.obj] == mem[c.obj]
  {
    var o := mem[c.obj];
    assert PutValue(o.fields[c.field], c.elem, p) == o.fields[c.field];
    assert o.fields[c.field := o.fields[c.field]] == o.fields;
  }

  /** The graph to be saved is well typed and the registries are consistent. */
  ghost predicate Ready(env: Env, h: Heap) {
    HeapOk(env, h) && env.RegistryOk()
  }

  /** Pointer `p` can be loaded into the variable `c`, which is null or points to the one object of `S`. */
  predicate Vacant(env: Env, h: Heap, mem: Memory, iso: Iso, c: Slot, p: Ptr, S: set<nat>) {
    var q := ReadCell(mem, c);
    && q.Some?
    && if q.value.Null? then S == {} else S == {q.value.a} && Spare(env, h, mem, iso, c.obj, p, q.value.a)
  }

  // The lemmas from here on follow the recursion of the two walks.

  lemma {:induction false} PtrSim(env: Env, h: Heap, tag: string, d: PtrType, p: Ptr, done: set<Addr>, live: Live,
                 c: Slot, S: set<nat>, s: Stream, rest: Stream, mem: Memory, table: Table, iso: Iso)
    returns (iso1: Iso)
    requires Ready(env, h) && PtrOk(h, p) && Vacant(env, h, mem, iso, c, p, S)
    requires Sim(h, done, live, mem, table, iso)
    requires var w := SavePtr(env, h, tag, d, p, done, live); w.Walk? && After(env, s, w.out) == Some(rest)
    ensures var w := SavePtr(env, h, tag, d, p, done, live);
            var r := LoadPtr(env, tag, d, c, s, mem, table);
            if !w.safe then r.Error? else PtrStep(h, d, p, c, S, mem, table, iso, w, r, rest, iso1)
    decreases h.Keys - done, 0, 0
  {
    iso1 := iso;
    if p.Null? {
      OneRead(env, Kind(0), s, rest);
      NullWrite(mem, c);
    } else if p.a in done {
      KnownPtrSim(env, h, tag, d, p, done, live, c, S, s, rest, mem, table, iso);
    } else {
      iso1 := NewPtrSim(env, h, tag, d, p, done, live, c, S, s, rest, mem, table, iso);
    }
  }

  /** A pointee that was met before. */
  lemma KnownPtrSim(env: Env, h: Heap, tag: string, d: PtrType, p: Ptr, done: set<Addr>, live: Live,
                    c: Slot, S: set<nat>, s: Stream, rest: Stream, mem: Memory, table: Table, iso: Iso)
    requires Ready(env, h) && p.To? && p.a in h && p.a in done && Vacant(env, h, mem, iso, c, p, S)
    requires Sim(h, done, live, mem, table, iso)
    requires After(env, s, PtrKnown(d.target, h[p.a].ty, p.a)) == Some(rest)
    ensures var w := SavePtr(env, h, tag, d, p, done, live);
            var r := LoadPtr(env, tag, d, c, s, mem, table);
            if !w.safe then r.Error? else PtrStep(h, d, p, c, S, mem, table, iso, w, r, rest, iso)
  {
    var w := SavePtr(env, h, tag, d, p, done, live);
    KnownRead(env, tag, d, h[p.a].ty, p.a, c, s, rest, mem, table);
    KnownLookup(h, d, p.a, done, live, mem, table, iso);
    if w.safe {
      KnownStep(env, h, d, p, done, live, c, S, rest, mem, table, iso, w);
    }
  }

  /** The recorded slot gives the pointer while it is live, and only to a pointer of its own type. */
  lemma KnownLookup(h: Heap, d: PtrType, a: Addr, done: set<Addr>, live: Live, mem: Memory, table: Table, iso: Iso)
    requires Sim(h, done, live, mem, table, iso) && a in done
    ensures Lookup(mem, d, table[a]) == if a in live && live[a] == d then Some(To(iso[a])) else None
  {
    if a in live {
      assert Usable(mem, table[a], live[a], iso[a]);
    } else {
      assert Gone(mem, table[a].slot);
    }
  }

  lemma KnownStep(env: Env, h: Heap, d: PtrType, p: Ptr, done: set<Addr>, live: Live, c: Slot, S: set<nat>,
                  rest: Stream, mem: Memory, table: Table, iso: Iso, w: Walk)
    requires p.To? && p.a in done && Vacant(env, h, mem, iso, c, p, S) && Sim(h, done, live, mem, table, iso)
    requires w.Walk? && w.done == done && w.live == live
    ensures PtrStep(h, d, p, c, S, mem, table, iso, w, Loaded(rest, WriteCell(mem, c, To(iso[p.a])), table), rest, iso)
  {
    WriteKeepsSim(h, done, live, mem, table, iso, c, To(iso[p.a]));
  }

  lemma KnownRead(env: Env, tag: string, d: PtrType, ty: TypeId, a: Addr, c: Slot, s: Stream, rest: Stream, mem: Memory,
                  table: Table)
    requires ReadCell(mem, c).Some? && a in table && After(env, s, PtrKnown(d.target, ty, a)) == Some(rest)
    ensures LoadPtr(env, tag, d, c, s, mem, table) ==
            match Lookup(mem, d, table[a])
            case None => Error
            case Some(p) => Loaded(rest, WriteCell(mem, c, p), table)
  {
    var mid := TwoRead(env, Kind(if ty == d.target then 1 else 2), Address(a), s, rest);
  }

  lemma {:induction false} NewPtrSim(env: Env, h: Heap, tag: string, d: PtrType, p: Ptr, done: set<Addr>, live: Live,
                 c: Slot, S: set<nat>, s: Stream, rest: Stream, mem: Memory, table: Table, iso: Iso)
    returns (iso1: Iso)
    requires Ready(env, h) && p.To? && p.a in h && p.a !in done && Vacant(env, h, mem, iso, c, p, S)
    requires Sim(h, done, live, mem, table, iso)
    requires var w := SavePtr(env, h, tag, d, p, done, live); w.Walk? && After(env, s, w.out) == Some(rest)
    ensures var w := SavePtr(env, h, tag, d, p, done, live);
            var r := LoadPtr(env, tag, d, c, s, mem, table);
            if !w.safe then r.Error? else PtrStep(h, d, p, c, S, mem, table, iso, w, r, rest, iso1)
    decreases h.Keys - done, 0, 0, 0
  {
    var ty, vs := h[p.a].ty, h[p.a].fields;
    var sh := env.Shape(ty);
    var done1, live1 := done + {p.a}, Met(live, p.a, d);
    var (n, mem1) := Allocate(env, ty, mem, c);
    var table1 := table[p.a := RecordOf(d, c, n)];
    var w := SavePtr(env, h, tag, d, p, done, live);
    var fw := SaveFields(env, h, sh, vs, 0, done1, live1);
    var head := PtrHead(env, tag, d.target, ty, p.a);
    var mid := Between(env, s, head, fw.out, rest);
    AllocateSim(env, h, d, done, live, p, c, S, mem, table, iso);
    HeadRead(env, tag, d, ty, p.a, c, s, mid, mem, table);
    NoSpares(sh, mem1[n].fields, 0);
    BlankReceives(env, h, mem1, iso[p.a := n], n, sh, vs);
    iso1 := FieldsSim(env, h, sh, vs, 0, done1, live1, n, mid, rest, mem1, table1, iso[p.a := n]);
    if fw.safe {
      NewPtrStep(env, h, d, p, c, S, mem, table, iso, done1, fw, w, LoadFields(env, sh, n, 0, mid, mem1, table1), rest,
                 iso1);
    }
  }

  /** A blank object has no spare ones. */
  lemma {:induction false} NoSpares(sh: seq<FieldShape>, rs: seq<Value>, i: nat)
    requires Blank(sh, rs)
    ensures Spares(rs, i) == {}
    decreases |rs| - i
  {
    if i < |rs| {
      assert BlankValue(sh[i], rs[i]);
      NoSpares(sh, rs, i + 1);
    }
  }

  lemma BlankReceives(env: Env, h: Heap, mem: Memory, iso: Iso, n: nat, sh: seq<FieldShape>, vs: seq<Value>)
    requires n < |mem| && |sh| == |vs| && Blank(sh, mem[n].fields)
    ensures ReceivesAll(env, h, mem, iso, n, sh, vs, 0)
  {
    forall k | 0 <= k < |sh|
      ensures Receives(env, h, mem, iso, n, sh[k], vs[k], mem[n].fields[k]) && SpareOf(mem[n].fields[k]) == {}
    {
      assert BlankValue(sh[k], mem[n].fields[k]);
    }
  }

  /** The reader recognises the head of a pointee that is met for the first time. */
  lemma HeadRead(env: Env, tag: string, d: PtrType, ty: TypeId, a: Addr, c: Slot,
                 s: Stream, rest: Stream, mem: Memory, table: Table)
    requires ReadCell(mem, c).Some? && a !in table && env.RegistryOk() && (ty != d.target ==> ty in env.names)
    requires After(env, s, PtrHead(env, tag, d.target, ty, a)) == Some(rest)
    ensures var (n, mem1) := Allocate(env, ty, mem, c);
            LoadPtr(env, tag, d, c, s, mem, table)
            == if n >= |mem1| then Error
               else LoadFields(env, env.Shape(mem1[n].ty), n, 0, rest, mem1, table[a := RecordOf(d, c, n)])
  {
    var name := if ty != d.target then [Str(env.names[ty])] else [];
    var s3 := Between(env, s, PtrKnown(d.target, ty, a) + name, Trace(env, tag), rest);
    var s2 := Between(env, s, PtrKnown(d.target, ty, a), name, s3);
    var s1 := TwoRead(env, Kind(if ty == d.target then 1 else 2), Address(a), s, s2);
    TypeRead(env, d.target, ty, s2, s3);
    TraceRead(env, tag, s3, rest);
    assert ReadHead(env, if ty == d.target then 1 else 2, tag, d.target, s2) == Some((ty, rest));
  }

  lemma TypeRead(env: Env, target: TypeId, ty: TypeId, s: Stream, rest: Stream)
    requires env.RegistryOk() && (ty != target ==> ty in env.names)
    requires After(env, s, if ty != target then [Str(env.names[ty])] else []) == Some(rest)
    ensures ReadType(env, if ty == target then 1 else 2, target, s) == Some((ty, rest))
  {
    if ty != target { OneRead(env, Str(env.names[ty]), s, rest); }
  }

  /** Setting the variable of a new pointee, to a new object or to the one it has. */
  lemma AllocateSim(env: Env, h: Heap, d: PtrType, done: set<Addr>, live: Live, p: Ptr, c: Slot, S: set<nat>,
                    mem: Memory, table: Table, iso: Iso)
    requires Sim(h, done, live, mem, table, iso) && p.To? && p.a in h && p.a !in done
    requires Vacant(env, h, mem, iso, c, p, S)
    ensures var (n, mem1) := Allocate(env, h[p.a].ty, mem, c);
            && Allocated(env, h, p.a, c, S, mem, n, mem1)
            && Sim(h, done + {p.a}, Met(live, p.a, d), mem1, table[p.a := RecordOf(d, c, n)], iso[p.a := n])
  {
    var (n, mem1) := Allocate(env, h[p.a].ty, mem, c);
    if ReadCell(mem, c).value.Null? {
      DefaultsAreBlank(env.Shape(h[p.a].ty));
      WriteKeepsSim(h, done, live, mem, table, iso, c, To(n));
      AppendKeepsSim(h, done, live, WriteCell(mem, c, To(n)), table, iso,
                     Obj(h[p.a].ty, Defaults(env.Shape(h[p.a].ty))));
    } else {
      SameWrite(mem, c, To(n));
    }
    assert ReadCell(mem1, c) == Some(To(n));
    assert n !in iso.Values;
    MetKeepsSim(h, done, live, mem1, table, iso, d, p.a, c, n);
  }

  /** What `Allocate` gives: the object to load into, and the variable that points to it. */
  predicate Allocated(env: Env, h: Heap, a: Addr, c: Slot, S: set<nat>, mem: Memory, n: nat, mem1: Memory)
    requires a in h
  {
    && ReadCell(mem, c).Some? && n < |mem1| && n != c.obj && (n in S || n >= |mem|)
    && mem1[n].ty == h[a].ty && Blank(env.Shape(h[a].ty), mem1[n].fields)
    && Others(mem, mem1, {c.obj}) && mem1[c.obj] == WriteCell(mem, c, To(n))[c.obj]
  }

  lemma DefaultsAreBlank(sh: seq<FieldShape>)
    ensures Blank(sh, Defaults(sh))
  {
  }

  lemma AppendKeepsSim(h: Heap, done: set<Addr>, live: Live, mem: Memory, table: Table, iso: Iso, o: Obj)
    requires Sim(h, done, live, mem, table, iso)
    ensures Sim(h, done, live, mem + [o], table, iso)
  {
    forall a | a in live
      ensures Usable(mem + [o], table[a], live[a], iso[a])
    {
      assert Usable(mem, table[a], live[a], iso[a]);
    }
  }

  lemma MetKeepsSim(h: Heap, done: set<Addr>, live: Live, mem: Memory, table: Table, iso: Iso,
                    d: PtrType, a: Addr, c: Slot, n: nat)
    requires Sim(h, done, live, mem, table, iso) && a in h && a !in done
    requires ReadCell(mem, c) == Some(To(n)) && n < |mem| && n !in iso.Values
    ensures Sim(h, done + {a}, Met(live, a, d), mem, table[a := RecordOf(d, c, n)], iso[a := n])
  {
    forall b | b in iso
      ensures iso[b] != n
    {
      assert iso[b] in iso.Values;
    }
  }

  /** Rebuilding the fields of a new pointee is a step of the variable that points to it. */
  lemma NewPtrStep(env: Env, h: Heap, d: PtrType, p: Ptr, c: Slot, S: set<nat>, mem: Memory, table: Table, iso: Iso,
                   done1: set<Addr>, fw: Walk, w: Walk, r: Load, rest: Stream, iso1: Iso)
    requires p.To? && p.a in h && p.a !in iso && p.a !in table && Vacant(env, h, mem, iso, c, p, S)
    requires fw.Walk? && done1 == iso.Keys + {p.a} <= fw.done && w.Walk? && w.done == fw.done && w.live == fw.live
    requires var (n, mem1) := Allocate(env, h[p.a].ty, mem, c);
             && Allocated(env, h, p.a, c, S, mem, n, mem1)
             && Step(h, mem1, table[p.a := RecordOf(d, c, n)], iso[p.a := n], n, {}, fw, r, rest, iso1)
             && r.mem[n].ty == h[p.a].ty && |r.mem[n].fields| == |h[p.a].fields|
             && forall k :: 0 <= k < |h[p.a].fields| ==> Rebuilt(iso1, h[p.a].fields[k], r.mem[n].fields[k])
    ensures PtrStep(h, d, p, c, S, mem, table, iso, w, r, rest, iso1)
  {
    var a := p.a;
    var (n, mem1) := Allocate(env, h[a].ty, mem, c);
    assert a in iso[a := n] && iso1[a] == n;
    assert r.mem[c.obj] == mem1[c.obj];
    assert Complete(h, r.mem, iso1, a);
    OthersVia(mem, mem1, r.mem, c.obj, n, S);
    GrowsVia(iso, iso1, a, n, S, |mem|, |mem1|);
    assert a in table[a := RecordOf(d, c, n)];
  }

  lemma OthersVia(mem: Memory, mem1: Memory, mem2: Memory, k: nat, n: nat, S: set<nat>)
    requires Others(mem, mem1, {k}) && Others(mem1, mem2, {n}) && (n in S || n >= |mem|)
    ensures Others(mem, mem2, S + {k})
  {
  }

  lemma GrowsVia(iso: Iso, iso1: Iso, a: Addr, n: nat, S: set<nat>, bound: nat, bound1: nat)
    requires a !in iso && Grows(iso[a := n], iso1, {}, bound1) && (n in S || n >= bound) && bound <= bound1
    ensures Grows(iso, iso1, S, bound)
  {
    forall b | b in iso
      ensures b in iso1 && iso1[b] == iso[b]
    {
      assert b in iso[a := n];
    }
  }

  // Vectors

  predicate VectorAt(mem: Memory, n: nat, i: nat, ps: seq<Ptr>) {
    n < |mem| && i < |mem[n].fields| && mem[n].fields[i].Refs? && |mem[n].fields[i].ps| == |ps|
  }

  /** Elements `j..` of the vector at field `i` of object `n` have been rebuilt, and only they changed in `n`. */
  predicate RefsFilled(mem: Memory, mem1: Memory, n: nat, i: nat, j: nat, ps: seq<Ptr>, iso: Iso)
    requires VectorAt(mem, n, i, ps) && j <= |ps|
  {
    && VectorAt(mem1, n, i, ps)
    && mem1[n] == PutField(mem[n], i, mem1[n].fields[i])
    && (forall k :: 0 <= k < j ==> mem1[n].fields[i].ps[k] == mem[n].fields[i].ps[k])
    && (forall k :: j <= k < |ps| ==> (ps[k].To? ==> ps[k].a in iso) && mem1[n].fields[i].ps[k] == MapPtr(iso, ps[k]))
  }

  ghost predicate RefsStep(h: Heap, mem: Memory, table: Table, iso: Iso, n: nat, i: nat, j: nat, ps: seq<Ptr>,
                           w: Walk, r: Load, rest: Stream, iso1: Iso)
    requires w.Walk? && VectorAt(mem, n, i, ps) && j <= |ps|
  {
    Step(h, mem, table, iso, n, {}, w, r, rest, iso1) && RefsFilled(mem, r.mem, n, i, j, ps, iso1)
  }

  /** Loading element `j` leaves the later elements null. */
  lemma {:induction false} RefSim(env: Env, h: Heap, d: PtrType, ps: seq<Ptr>, j: nat, done: set<Addr>, live: Live,
                 n: nat, i: nat, s: Stream, rest: Stream, mem: Memory, table: Table, iso: Iso)
    returns (iso1: Iso)
    requires Ready(env, h) && j < |ps| && PtrOk(h, ps[j])
    requires Sim(h, done, live, mem, table, iso) && VectorAt(mem, n, i, ps)
    requires forall k :: j <= k < |ps| ==> mem[n].fields[i].ps[k] == Null
    requires var w := SavePtr(env, h, "E", d, ps[j], done, live); w.Walk? && After(env, s, w.out) == Some(rest)
    ensures var w := SavePtr(env, h, "E", d, ps[j], done, live);
            var r := LoadPtr(env, "E", d, Cell(n, i, j), s, mem, table);
            if !w.safe then r.Error?
            else
              && PtrStep(h, d, ps[j], Cell(n, i, j), {}, mem, table, iso, w, r, rest, iso1)
              && VectorAt(r.mem, n, i, ps)
              && forall k :: j < k < |ps| ==> r.mem[n].fields[i].ps[k] == Null
    decreases h.Keys - done, 0, 1
  {
    var c := Cell(n, i, j);
    iso1 := PtrSim(env, h, "E", d, ps[j], done, live, c, {}, s, rest, mem, table, iso);
    var w := SavePtr(env, h, "E", d, ps[j], done, live);
    if w.safe {
      RefsFirst(h, d, mem, table, iso, n, i, j, ps, w, LoadPtr(env, "E", d, c, s, mem, table), rest, iso1);
    }
  }

  /** What is written for element `j` and for the later ones. */
  lemma RefsSplit(env: Env, h: Heap, d: PtrType, ps: seq<Ptr>, j: nat, done: set<Addr>, live: Live, s: Stream,
                  rest: Stream)
    returns (w1: Walk, w2: Walk, mid: Stream)
    requires HeapOk(env, h) && j < |ps| && forall k :: 0 <= k < |ps| ==> PtrOk(h, ps[k])
    requires var w := SaveRefs(env, h, d, ps, j, done, live); w.Walk? && After(env, s, w.out) == Some(rest)
    ensures w1 == SavePtr(env, h, "E", d, ps[j], done, live) && w1.Walk? && After(env, s, w1.out) == Some(mid)
    ensures w2 == SaveRefs(env, h, d, ps, j + 1, w1.done, w1.live) && w2.Walk? && After(env, mid, w2.out) == Some(rest)
    ensures SaveRefs(env, h, d, ps, j, done, live) == w1.Then(w2) && done <= w1.done <= w2.done
  {
    w1 := SavePtr(env, h, "E", d, ps[j], done, live);
    w2 := SaveRefs(env, h, d, ps, j + 1, w1.done, w1.live);
    mid := Between(env, s, w1.out, w2.out, rest);
  }

  lemma {:induction false} RefsSim(env: Env, h: Heap, d: PtrType, ps: seq<Ptr>, j: nat, done: set<Addr>, live: Live,
                  n: nat, i: nat, s: Stream, rest: Stream, mem: Memory, table: Table, iso: Iso)
    returns (iso1: Iso)
    requires Ready(env, h) && j <= |ps| && forall k :: 0 <= k < |ps| ==> PtrOk(h, ps[k])
    requires Sim(h, done, live, mem, table, iso)
    requires VectorAt(mem, n, i, ps)
    requires forall k :: j <= k < |ps| ==> mem[n].fields[i].ps[k] == Null
    requires var w := SaveRefs(env, h, d, ps, j, done, live); w.Walk? && After(env, s, w.out) == Some(rest)
    ensures var w := SaveRefs(env, h, d, ps, j, done, live);
            var r := LoadRefs(env, d, n, i, j, |ps|, s, mem, table);
            if !w.safe then r.Error? else RefsStep(h, mem, table, iso, n, i, j, ps, w, r, rest, iso1)
    decreases h.Keys - done, 1, |ps| - j, 1
  {
    iso1 := iso;
    if j == |ps| {
      RefsDone(h, done, live, n, i, ps, rest, mem, table, iso);
    } else {
      iso1 := RefsNext(env, h, d, ps, j, done, live, n, i, s, rest, mem, table, iso);
    }
  }

  lemma {:induction false} RefsNext(env: Env, h: Heap, d: PtrType, ps: seq<Ptr>, j: nat, done: set<Addr>, live: Live,
                  n: nat, i: nat, s: Stream, rest: Stream, mem: Memory, table: Table, iso: Iso)
    returns (iso2: Iso)
    requires Ready(env, h) && j < |ps| && forall k :: 0 <= k < |ps| ==> PtrOk(h, ps[k])
    requires Sim(h, done, live, mem, table, iso)
    requires VectorAt(mem, n, i, ps)
    requires forall k :: j <= k < |ps| ==> mem[n].fields[i].ps[k] == Null
    requires var w := SaveRefs(env, h, d, ps, j, done, live); w.Walk? && After(env, s, w.out) == Some(rest)
    ensures var w := SaveRefs(env, h, d, ps, j, done, live);
            var r := LoadRefs(env, d, n, i, j, |ps|, s, mem, table);
            if !w.safe then r.Error? else RefsStep(h, mem, table, iso, n, i, j, ps, w, r, rest, iso2)
    decreases h.Keys - done, 1, |ps| - j, 0
  {
    var w1, w2, mid := RefsSplit(env, h, d, ps, j, done, live, s, rest);
    var iso1 := RefSim(env, h, d, ps, j, done, live, n, i, s, mid, mem, table, iso);
    iso2 := iso1;
    if w1.safe {
      var r1 := LoadPtr(env, "E", d, Cell(n, i, j), s, mem, table);
      iso2 := RefsSim(env, h, d, ps, j + 1, w1.done, w1.live, n, i, mid, rest, r1.mem, r1.table, iso1);
    }
    RefsJoin(env, h, d, ps, j, done, live, n, i, s, mem, table, iso, w1, mid, iso1, w2, rest, iso2);
  }

  /** No element is left. */
  lemma RefsDone(h: Heap, done: set<Addr>, live: Live, n: nat, i: nat, ps: seq<Ptr>, rest: Stream, mem: Memory,
                 table: Table, iso: Iso)
    requires Sim(h, done, live, mem, table, iso) && VectorAt(mem, n, i, ps)
    ensures RefsStep(h, mem, table, iso, n, i, |ps|, ps, Walk([], done, live, true), Loaded(rest, mem, table), rest,
                     iso)
  {
    assert mem[n] == PutField(mem[n], i, mem[n].fields[i]);
  }

  lemma RefsFirst(h: Heap, d: PtrType, mem: Memory, table: Table, iso: Iso, n: nat, i: nat, j: nat, ps: seq<Ptr>,
                  w1: Walk, r1: Load, rest1: Stream, iso1: Iso)
    requires w1.Walk? && VectorAt(mem, n, i, ps) && j < |ps|
    requires forall k :: j <= k < |ps| ==> mem[n].fields[i].ps[k] == Null
    requires PtrStep(h, d, ps[j], Cell(n, i, j), {}, mem, table, iso, w1, r1, rest1, iso1)
    ensures VectorAt(r1.mem, n, i, ps)
    ensures forall k :: j < k < |ps| ==> r1.mem[n].fields[i].ps[k] == Null
  {
  }

  /** Element `j` and then the others. */
  lemma RefsJoin(env: Env, h: Heap, d: PtrType, ps: seq<Ptr>, j: nat, done: set<Addr>, live: Live,
                 n: nat, i: nat, s: Stream, mem: Memory, table: Table, iso: Iso,
                 w1: Walk, rest1: Stream, iso1: Iso, w2: Walk, rest: Stream, iso2: Iso)
    requires w1.Walk? && w2.Walk? && VectorAt(mem, n, i, ps) && j < |ps| && mem[n].fields[i].ps[j] == Null
    requires Sim(h, done, live, mem, table, iso) && w1.done <= w2.done
    requires var r1 := LoadPtr(env, "E", d, Cell(n, i, j), s, mem, table);
             if !w1.safe then r1.Error?
             else
               && PtrStep(h, d, ps[j], Cell(n, i, j), {}, mem, table, iso, w1, r1, rest1, iso1)
               && VectorAt(r1.mem, n, i, ps)
               && var r := LoadRefs(env, d, n, i, j + 1, |ps|, rest1, r1.mem, r1.table);
               if !w2.safe then r.Error? else RefsStep(h, r1.mem, r1.table, iso1, n, i, j + 1, ps, w2, r, rest, iso2)
    ensures var r := LoadRefs(env, d, n, i, j, |ps|, s, mem, table);
            if !w1.Then(w2).safe then r.Error?
            else RefsStep(h, mem, table, iso, n, i, j, ps, w1.Then(w2), r, rest, iso2)
  {
    if w1.safe && w2.safe {
      var r1 := LoadPtr(env, "E", d, Cell(n, i, j), s, mem, table);
      var r := LoadRefs(env, d, n, i, j + 1, |ps|, rest1, r1.mem, r1.table);
      StepThen(h, done, live, mem, table, iso, n, {}, {}, w1, r1, rest1, iso1, w2, r, rest, iso2);
      RefsFilledThen(mem, r1.mem, r.mem, n, i, j, ps, iso1, iso2);
    }
  }

  lemma RefsFilledThen(mem: Memory, mem1: Memory, mem2: Memory, n: nat, i: nat, j: nat, ps: seq<Ptr>, iso1: Iso,
                       iso2: Iso)
    requires VectorAt(mem, n, i, ps) && VectorAt(mem1, n, i, ps) && j < |ps|
    requires mem[n].fields[i].ps[j] == Null && (ps[j].To? ==> ps[j].a in iso1)
    requires mem1[n] == WriteCell(mem, Cell(n, i, j), MapPtr(iso1, ps[j]))[n]
    requires RefsFilled(mem1, mem2, n, i, j + 1, ps, iso2) && Includes(iso1, iso2)
    ensures RefsFilled(mem, mem2, n, i, j, ps, iso2)
  {
    assert mem2[n].fields[i].ps[j] == mem1[n].fields[i].ps[j] == MapPtr(iso1, ps[j]);
    assert mem2[n] == PutField(mem[n], i, mem2[n].fields[i]);
  }

  // Maps

  /** Field `i` of object `n` is a map that holds rebuilt entries `..j` of `es`. */
  predicate MapAt(mem: Memory, n: nat, i: nat, j: nat, es: seq<(Token, Ptr)>) {
    && n < |mem| && i < |mem[n].fields| && mem[n].fields[i].Entries? && |mem[n].fields[i].es| == j <= |es|
    && forall k :: 0 <= k < j ==> mem[n].fields[i].es[k].0 == es[k].0
  }

  /** Entries `j..` have been added to the map at field `i` of object `n`, and nothing else changed in `n`. */
  ghost predicate MapStep(h: Heap, mem: Memory, table: Table, iso: Iso, n: nat, i: nat, j: nat, j1: nat,
                          es: seq<(Token, Ptr)>, w: Walk, r: Load, rest: Stream, iso1: Iso)
    requires w.Walk? && MapAt(mem, n, i, j, es) && j <= j1
  {
    && Step(h, mem, table, iso, n, {}, w, r, rest, iso1)
    && MapAt(r.mem, n, i, j1, es)
    && r.mem[n] == PutField(mem[n], i, r.mem[n].fields[i])
    && (forall k :: 0 <= k < j ==> r.mem[n].fields[i].es[k] == mem[n].fields[i].es[k])
    && (forall k :: j <= k < j1 ==>
          (es[k].1.To? ==> es[k].1.a in iso1) && r.mem[n].fields[i].es[k] == (es[k].0, MapPtr(iso1, es[k].1)))
  }

  lemma MapThen(h: Heap, done: set<Addr>, live: Live, mem: Memory, table: Table, iso: Iso, n: nat, i: nat, j: nat,
                es: seq<(Token, Ptr)>, w1: Walk, r1: Load, rest1: Stream, iso1: Iso, w2: Walk, r: Load, rest: Stream,
                iso2: Iso)
    requires w1.Walk? && w2.Walk? && MapAt(mem, n, i, j, es) && j < |es|
    requires MapStep(h, mem, table, iso, n, i, j, j + 1, es, w1, r1, rest1, iso1)
    requires MapStep(h, r1.mem, r1.table, iso1, n, i, j + 1, |es|, es, w2, r, rest, iso2)
    requires Sim(h, done, live, mem, table, iso) && w1.done <= w2.done
    ensures MapStep(h, mem, table, iso, n, i, j, |es|, es, w1.Then(w2), r, rest, iso2)
  {
    StepThen(h, done, live, mem, table, iso, n, {}, {}, w1, r1, rest1, iso1, w2, r, rest, iso2);
    assert r.mem[n].fields[i].es[j] == r1.mem[n].fields[i].es[j];
    assert r.mem[n] == PutField(mem[n], i, r.mem[n].fields[i]);
  }

  /** Moving a loaded pair into the map adds the entry and loses the slot of a pointee first met there. */
  lemma MoveStep(h: Heap, d: PtrType, done: set<Addr>, live: Live, mem: Memory, table: Table, iso: Iso, n: nat, i: nat,
                 j: nat, es: seq<(Token, Ptr)>, w: Walk, w1: Walk, r: Load, rest: Stream, iso1: Iso)
    requires w.Walk? && MapAt(mem, n, i, j, es) && j < |es| && Sim(h, done, live, mem, table, iso)
    requires forall k :: 0 <= k < j ==> es[k].0 != es[j].0
    requires ReadCell(mem + [TEMP], Cell(|mem|, 0, 0)) == Some(Null)
    requires PtrStep(h, d, es[j].1, Cell(|mem|, 0, 0), {}, mem + [TEMP], table, iso, w, r, rest, iso1)
    requires w1.Walk? && w1.done == w.done
    requires w1.live == if es[j].1.To? && es[j].1.a !in done then w.live - {es[j].1.a} else w.live
    ensures var m := MoveEntry(r.mem, n, i, es[j].0, |mem|);
            m.Some? && MapStep(h, mem, table, iso, n, i, j, j + 1, es, w1, Loaded(r.rest, m.value, r.table), rest, iso1)
  {
    var t := |mem|;
    var p := es[j].1;
    assert r.mem[n] == mem[n];
    assert ReadCell(r.mem, Cell(t, 0, 0)) == Some(MapPtr(iso1, p));
    var m := MoveEntry(r.mem, n, i, es[j].0, t);
    assert Insert(mem[n].fields[i].es, (es[j].0, MapPtr(iso1, p)))
        == mem[n].fields[i].es + [(es[j].0, MapPtr(iso1, p))];
    var mem1 := m.value;
    SlotsBelow(h, done, live, mem, table, iso);
    MoveSim(h, d, p, done, mem, table, w, w1, r, iso1, n, i, mem1[n].fields[i], mem1);
    forall a | a in w.done && a !in iso
      ensures Complete(h, mem1, iso1, a)
    {
      assert Complete(h, r.mem, iso1, a) && iso1[a] >= |mem| + 1;
    }
  }

  lemma SlotsBelow(h: Heap, done: set<Addr>, live: Live, mem: Memory, table: Table, iso: Iso)
    requires Sim(h, done, live, mem, table, iso)
    ensures forall a :: a in done && table[a].slot.Cell? ==> table[a].slot.obj < |mem|
  {
    forall a | a in done && table[a].slot.Cell? ensures table[a].slot.obj < |mem| {
      if a in live { assert Usable(mem, table[a], live[a], iso[a]); } else { assert Gone(mem, table[a].slot); }
    }
  }

  lemma MoveSim(h: Heap, d: PtrType, p: Ptr, done: set<Addr>, mem: Memory, table: Table, w: Walk, w1: Walk, r: Load,
                iso1: Iso, n: nat, i: nat, v: Value, mem1: Memory)
    requires w.Walk? && w1.Walk? && r.Loaded? && Sim(h, w.done, w.live, r.mem, r.table, iso1)
    requires TableGrows(table, r.table) && table.Keys == done
    requires forall a :: a in done && table[a].slot.Cell? ==> table[a].slot.obj < |mem|
    requires p.To? ==> p.a in w.done
    requires p.To? && p.a !in done ==> r.table[p.a] == RecordOf(d, Cell(|mem|, 0, 0), iso1[p.a])
    requires w1.done == w.done && w1.live == if p.To? && p.a !in done then w.live - {p.a} else w.live
    requires n < |mem| < |r.mem| == |mem1| && i < |r.mem[n].fields| && r.mem[n].fields[i].Entries?
    requires ReadCell(r.mem, Cell(|mem|, 0, 0)) == Some(MapPtr(iso1, p)) && |r.mem[|mem|].fields| == 1
    requires r.mem[|mem|].fields[0].Ref?
    requires mem1[|mem|] == DEAD
    requires v.Entries? && mem1[n] == PutField(r.mem[n], i, v)
    requires forall k :: 0 <= k < |mem1| && k != n && k != |mem| ==> mem1[k] == r.mem[k]
    ensures Sim(h, w1.done, w1.live, mem1, r.table, iso1)
  {
    forall a | a in w1.live
      ensures Usable(mem1, r.table[a], w1.live[a], iso1[a])
    {
      assert Usable(r.mem, r.table[a], w.live[a], iso1[a]);
      NotTheTemp(h, p, done, |mem|, table, w, r, iso1, a);
    }
    forall a | a in w1.done && a !in w1.live
      ensures Gone(mem1, r.table[a].slot)
    {
      if a in w.live { assert a == p.a; } else { assert Gone(r.mem, r.table[a].slot); }
    }
  }

  /** The slots of other pointees are not the variable of the pair. */
  lemma NotTheTemp(h: Heap, p: Ptr, done: set<Addr>, t: nat, table: Table, w: Walk, r: Load, iso1: Iso, a: Addr)
    requires w.Walk? && r.Loaded? && Sim(h, w.done, w.live, r.mem, r.table, iso1) && a in w.live
    requires TableGrows(table, r.table) && table.Keys == done && (p.To? ==> p.a in w.done)
    requires forall b :: b in done && table[b].slot.Cell? ==> table[b].slot.obj < t
    requires ReadCell(r.mem, Cell(t, 0, 0)) == Some(MapPtr(iso1, p)) && |r.mem[t].fields| == 1
    requires r.mem[t].fields[0].Ref?
    requires p.To? && p.a == a ==> a in done
    ensures r.table[a].slot.obj != t
  {
    assert Usable(r.mem, r.table[a], w.live[a], iso1[a]);
    if a in done {
      assert r.table[a] == table[a];
    } else {
      OneCell(r.mem, t, r.table[a].slot);
    }
  }

  /** An object with one pointer has one slot. */
  lemma OneCell(mem: Memory, t: nat, c: Slot)
    requires t < |mem| && |mem[t].fields| == 1 && mem[t].fields[0].Ref? && ReadCell(mem, c).Some?
    ensures c.obj == t ==> c == Cell(t, 0, 0)
  {
  }

  lemma KeyRead(env: Env, scalar: ScalarType, key: Token, s: Stream, rest: Stream)
    requires ScalarOk(scalar, key) && After(env, s, Trace(env, "E") + Trace(env, "First") + [key]) == Some(rest)
    ensures ReadKey(env, scalar, s) == Some((key, rest))
  {
    var s2 := Between(env, s, Trace(env, "E") + Trace(env, "First"), [key], rest);
    var s1 := Between(env, s, Trace(env, "E"), Trace(env, "First"), s2);
    TraceRead(env, "E", s, s1);
    TraceRead(env, "First", s1, s2);
    OneRead(env, key, s2, rest);
  }

  lemma SizeRead(env: Env, tag: string, size: nat, s: Stream, rest: Stream)
    requires After(env, s, SizeHead(env, tag, size)) == Some(rest)
    ensures ReadSize(env, tag, s) == Some((size, rest))
  {
    var s2 := Between(env, s, Trace(env, tag) + Trace(env, "size"), [Num(8, size)], rest);
    var s1 := Between(env, s, Trace(env, tag), Trace(env, "size"), s2);
    TraceRead(env, tag, s, s1);
    TraceRead(env, "size", s1, s2);
    OneRead(env, Num(8, size), s2, rest);
  }

  /** What is saved for an entry is what is saved for its pointer, after the key. */
  lemma EntryIs(env: Env, h: Heap, d: PtrType, e: (Token, Ptr), done: set<Addr>, live: Live)
    requires HeapOk(env, h) && PtrOk(h, e.1) && SaveEntry(env, h, d, e, done, live).Walk?
    ensures var w, w1 := SavePtr(env, h, "Second", d, e.1, done, live), SaveEntry(env, h, d, e, done, live);
            && w.Walk? && w1.out == Trace(env, "E") + Trace(env, "First") + [e.0] + w.out
            && w1.done == w.done && w1.safe == w.safe
            && w1.live == if e.1.To? && e.1.a !in done then w.live - {e.1.a} else w.live
  {
  }

  /** Loading an entry is loading its pointer into a variable of its own, after the key. */
  lemma EntryRead(env: Env, f: FieldShape, key: Token, n: nat, i: nat, s: Stream, rest: Stream, mem: Memory,
                  table: Table)
    requires f.MapF? && ScalarOk(f.key, key)
    requires After(env, s, Trace(env, "E") + Trace(env, "First") + [key]) == Some(rest)
    ensures LoadEntry(env, f, n, i, s, mem, table) ==
            InsertLoaded(LoadPtr(env, "Second", f.ptr, Cell(|mem|, 0, 0), rest, mem + [TEMP], table), n, i, key, |mem|)
  {
    KeyRead(env, f.key, key, s, rest);
  }

  lemma {:induction false} EntrySim(env: Env, h: Heap, f: FieldShape, es: seq<(Token, Ptr)>, j: nat, done: set<Addr>,
                                    live: Live, n: nat, i: nat, s: Stream, rest: Stream, mem: Memory, table: Table,
                                    iso: Iso)
    returns (iso1: Iso)
    requires Ready(env, h) && f.MapF? && ValueOk(h, f, Entries(es)) && j < |es|
    requires Sim(h, done, live, mem, table, iso) && MapAt(mem, n, i, j, es)
    requires var w := SaveEntry(env, h, f.ptr, es[j], done, live); w.Walk? && After(env, s, w.out) == Some(rest)
    ensures var w := SaveEntry(env, h, f.ptr, es[j], done, live);
            var r := LoadEntry(env, f, n, i, s, mem, table);
            if !w.safe then r.Error? else MapStep(h, mem, table, iso, n, i, j, j + 1, es, w, r, rest, iso1)
    decreases h.Keys - done, 1, 0
  {
    var p := es[j].1;
    var w1 := SaveEntry(env, h, f.ptr, es[j], done, live);
    var w := SavePtr(env, h, "Second", f.ptr, p, done, live);
    EntryIs(env, h, f.ptr, es[j], done, live);
    var mid := Between(env, s, Trace(env, "E") + Trace(env, "First") + [es[j].0], w.out, rest);
    EntryRead(env, f, es[j].0, n, i, s, mid, mem, table);
    AppendKeepsSim(h, done, live, mem, table, iso, TEMP);
    var c := Cell(|mem|, 0, 0);
    iso1 := PtrSim(env, h, "Second", f.ptr, p, done, live, c, {}, mid, rest, mem + [TEMP], table, iso);
    if w.safe {
      var r := LoadPtr(env, "Second", f.ptr, c, mid, mem + [TEMP], table);
      MoveStep(h, f.ptr, done, live, mem, table, iso, n, i, j, es, w, w1, r, rest, iso1);
    }
  }

  /** No entry is left. */
  lemma EntriesDone(h: Heap, done: set<Addr>, live: Live, n: nat, i: nat, es: seq<(Token, Ptr)>, rest: Stream,
                    mem: Memory, table: Table, iso: Iso)
    requires Sim(h, done, live, mem, table, iso) && MapAt(mem, n, i, |es|, es)
    ensures MapStep(h, mem, table, iso, n, i, |es|, |es|, es, Walk([], done, live, true), Loaded(rest, mem, table),
                    rest, iso)
  {
    assert mem[n] == PutField(mem[n], i, mem[n].fields[i]);
  }

  /** Entry `j` and then the others. */
  lemma EntriesJoin(env: Env, h: Heap, f: FieldShape, es: seq<(Token, Ptr)>, j: nat, done: set<Addr>, live: Live,
                    n: nat, i: nat, s: Stream, mem: Memory, table: Table, iso: Iso,
                    w1: Walk, rest1: Stream, iso1: Iso, w2: Walk, rest: Stream, iso2: Iso)
    requires w1.Walk? && w2.Walk? && f.MapF? && j < |es| && MapAt(mem, n, i, j, es)
    requires Sim(h, done, live, mem, table, iso) && w1.done <= w2.done
    requires var r1 := LoadEntry(env, f, n, i, s, mem, table);
             if !w1.safe then r1.Error?
             else
               && MapStep(h, mem, table, iso, n, i, j, j + 1, es, w1, r1, rest1, iso1)
               && MapAt(r1.mem, n, i, j + 1, es)
               && var r := LoadEntries(env, f, n, i, j + 1, |es|, rest1, r1.mem, r1.table);
               if !w2.safe then r.Error?
               else MapStep(h, r1.mem, r1.table, iso1, n, i, j + 1, |es|, es, w2, r, rest, iso2)
    ensures var r := LoadEntries(env, f, n, i, j, |es|, s, mem, table);
            if !w1.Then(w2).safe then r.Error?
            else MapStep(h, mem, table, iso, n, i, j, |es|, es, w1.Then(w2), r, rest, iso2)
  {
    if w1.safe && w2.safe {
      var r1 := LoadEntry(env, f, n, i, s, mem, table);
      var r := LoadEntries(env, f, n, i, j + 1, |es|, rest1, r1.mem, r1.table);
      MapThen(h, done, live, mem, table, iso, n, i, j, es, w1, r1, rest1, iso1, w2, r, rest, iso2);
    }
  }

  /** What is written for entry `j` and for the later ones. */
  lemma EntriesSplit(env: Env, h: Heap, d: PtrType, es: seq<(Token, Ptr)>, j: nat, done: set<Addr>, live: Live,
                     s: Stream, rest: Stream)
    returns (w1: Walk, w2: Walk, mid: Stream)
    requires HeapOk(env, h) && j < |es| && forall k :: 0 <= k < |es| ==> PtrOk(h, es[k].1)
    requires var w := SaveEntries(env, h, d, es, j, done, live); w.Walk? && After(env, s, w.out) == Some(rest)
    ensures w1 == SaveEntry(env, h, d, es[j], done, live) && w1.Walk? && After(env, s, w1.out) == Some(mid)
    ensures w2 == SaveEntries(env, h, d, es, j + 1, w1.done, w1.live) && w2.Walk?
    ensures After(env, mid, w2.out) == Some(rest)
    ensures SaveEntries(env, h, d, es, j, done, live) == w1.Then(w2) && done <= w1.done <= w2.done
  {
    w1 := SaveEntry(env, h, d, es[j], done, live);
    w2 := SaveEntries(env, h, d, es, j + 1, w1.done, w1.live);
    mid := Between(env, s, w1.out, w2.out, rest);
  }

  lemma {:induction false} EntriesSim(env: Env, h: Heap, f: FieldShape, es: seq<(Token, Ptr)>, j: nat, done: set<Addr>,
                                      live: Live, n: nat, i: nat, s: Stream, rest: Stream, mem: Memory, table: Table,
                                      iso: Iso)
    returns (iso1: Iso)
    requires Ready(env, h) && f.MapF? && ValueOk(h, f, Entries(es)) && j <= |es|
    requires Sim(h, done, live, mem, table, iso) && MapAt(mem, n, i, j, es)
    requires var w := SaveEntries(env, h, f.ptr, es, j, done, live); w.Walk? && After(env, s, w.out) == Some(rest)
    ensures var w := SaveEntries(env, h, f.ptr, es, j, done, live);
            var r := LoadEntries(env, f, n, i, j, |es|, s, mem, table);
            if !w.safe then r.Error? else MapStep(h, mem, table, iso, n, i, j, |es|, es, w, r, rest, iso1)
    decreases h.Keys - done, 2, |es| - j
  {
    iso1 := iso;
    if j == |es| {
      EntriesDone(h, done, live, n, i, es, rest, mem, table, iso);
    } else {
      var w1, w2, mid := EntriesSplit(env, h, f.ptr, es, j, done, live, s, rest);
      iso1 := EntrySim(env, h, f, es, j, done, live, n, i, s, mid, mem, table, iso);
      var iso2 := iso1;
      if w1.safe {
        var r1 := LoadEntry(env, f, n, i, s, mem, table);
        iso2 := EntriesSim(env, h, f, es, j + 1, w1.done, w1.live, n, i, mid, rest, r1.mem, r1.table, iso1);
      }
      EntriesJoin(env, h, f, es, j, done, live, n, i, s, mem, table, iso, w1, mid, iso1, w2, rest, iso2);
      iso1 := iso2;
    }
  }

  // Fields

  /** Field `i` of object `n` has been rebuilt, and nothing else changed in `n`. */
  ghost predicate FieldStep(h: Heap, mem: Memory, table: Table, iso: Iso, n: nat, i: nat, S: set<nat>, v: Value,
                            w: Walk, r: Load, rest: Stream, iso1: Iso)
    requires w.Walk? && n < |mem| && i < |mem[n].fields|
  {
    && Step(h, mem, table, iso, n, S, w, r, rest, iso1)
    && n < |r.mem| && |r.mem[n].fields| == |mem[n].fields|
    && r.mem[n] == PutField(mem[n], i, r.mem[n].fields[i])
    && Rebuilt(iso1, v, r.mem[n].fields[i])
  }

  lemma {:induction false} FieldSim(env: Env, h: Heap, f: FieldShape, v: Value, done: set<Addr>, live: Live,
                    n: nat, i: nat, s: Stream, rest: Stream, mem: Memory, table: Table, iso: Iso)
    returns (iso1: Iso)
    requires Ready(env, h) && ValueOk(h, f, v)
    requires Sim(h, done, live, mem, table, iso)
    requires n < |mem| && i < |mem[n].fields| && Receives(env, h, mem, iso, n, f, v, mem[n].fields[i])
    requires var w := SaveField(env, h, f, v, done, live); w.Walk? && After(env, s, w.out) == Some(rest)
    ensures var w := SaveField(env, h, f, v, done, live);
            var r := LoadField(env, f, n, i, s, mem, table);
            if !w.safe then r.Error?
            else FieldStep(h, mem, table, iso, n, i, SpareOf(mem[n].fields[i]), v, w, r, rest, iso1)
    decreases h.Keys - done, 3, 0
  {
    iso1 := iso;
    match f {
      case MarkF(tag) => PlainFieldSim(env, h, f, v, done, live, n, i, s, rest, mem, table, iso);
      case ScalarF(tag, _) => PlainFieldSim(env, h, f, v, done, live, n, i, s, rest, mem, table, iso);
      case RefF(tag, d) =>
        var c, S := Cell(n, i, 0), SpareOf(mem[n].fields[i]);
        iso1 := PtrSim(env, h, tag, d, v.p, done, live, c, S, s, rest, mem, table, iso);
        var w := SavePtr(env, h, tag, d, v.p, done, live);
        if w.safe {
          RefFieldStep(h, d, mem, table, iso, n, i, S, v, w, LoadPtr(env, tag, d, c, s, mem, table), rest, iso1);
        }
      case RefsF(tag, d) => iso1 := VectorSim(env, h, f, v, done, live, n, i, s, rest, mem, table, iso);
      case MapF(tag, _, _) => iso1 := MapSim(env, h, f, v, done, live, n, i, s, rest, mem, table, iso);
    }
  }

  lemma RefFieldStep(h: Heap, d: PtrType, mem: Memory, table: Table, iso: Iso, n: nat, i: nat, S: set<nat>, v: Value,
                     w: Walk, r: Load, rest: Stream, iso1: Iso)
    requires w.Walk? && v.Ref? && n < |mem| && i < |mem[n].fields| && mem[n].fields[i].Ref?
    requires PtrStep(h, d, v.p, Cell(n, i, 0), S, mem, table, iso, w, r, rest, iso1)
    ensures FieldStep(h, mem, table, iso, n, i, S, v, w, r, rest, iso1)
  {
  }

  /** Writing a value without readable cells in place of another such value disturbs nothing. */
  lemma PlainWriteKeepsSim(h: Heap, done: set<Addr>, live: Live, mem: Memory, table: Table, iso: Iso, n: nat, i: nat,
                           v: Value)
    requires Sim(h, done, live, mem, table, iso) && n < |mem| && i < |mem[n].fields|
    requires !mem[n].fields[i].Ref?
    requires mem[n].fields[i].Refs? ==> forall j :: 0 <= j < |mem[n].fields[i].ps| ==> mem[n].fields[i].ps[j].Null?
    ensures Sim(h, done, live, mem[n := PutField(mem[n], i, v)], table, iso)
  {
    var mem1 := mem[n := PutField(mem[n], i, v)];
    forall a | a in live
      ensures Usable(mem1, table[a], live[a], iso[a])
    {
      assert Usable(mem, table[a], live[a], iso[a]);
    }
  }

  lemma PlainFieldSim(env: Env, h: Heap, f: FieldShape, v: Value, done: set<Addr>, live: Live,
                      n: nat, i: nat, s: Stream, rest: Stream, mem: Memory, table: Table, iso: Iso)
    requires Ready(env, h) && ValueOk(h, f, v) && (f.MarkF? || f.ScalarF?)
    requires Sim(h, done, live, mem, table, iso)
    requires n < |mem| && i < |mem[n].fields| && BlankValue(f, mem[n].fields[i])
    requires After(env, s, SaveField(env, h, f, v, done, live).out) == Some(rest)
    ensures var w := SaveField(env, h, f, v, done, live);
            var r := LoadField(env, f, n, i, s, mem, table);
            w.safe && FieldStep(h, mem, table, iso, n, i, {}, v, w, r, rest, iso)
  {
    if f.MarkF? {
      TraceRead(env, f.tag, s, rest);
      MarkStep(h, done, live, mem, table, iso, n, i, SaveField(env, h, f, v, done, live), rest);
    } else {
      var mid := Between(env, s, Trace(env, f.tag), [v.t], rest);
      TraceRead(env, f.tag, s, mid);
      OneRead(env, v.t, mid, rest);
      ScalarStep(h, done, live, mem, table, iso, n, i, v, SaveField(env, h, f, v, done, live), rest);
    }
  }

  lemma MarkStep(h: Heap, done: set<Addr>, live: Live, mem: Memory, table: Table, iso: Iso, n: nat, i: nat, w: Walk,
                 rest: Stream)
    requires Sim(h, done, live, mem, table, iso) && w.Walk? && w.done == done && w.live == live
    requires n < |mem| && i < |mem[n].fields| && mem[n].fields[i] == Nothing
    ensures FieldStep(h, mem, table, iso, n, i, {}, Nothing, w, Loaded(rest, mem, table), rest, iso)
  {
    assert PutField(mem[n], i, mem[n].fields[i]) == mem[n];
  }

  lemma ScalarStep(h: Heap, done: set<Addr>, live: Live, mem: Memory, table: Table, iso: Iso, n: nat, i: nat, v: Value,
                   w: Walk, rest: Stream)
    requires Sim(h, done, live, mem, table, iso) && w.Walk? && w.done == done && w.live == live && v.Scalar?
    requires n < |mem| && i < |mem[n].fields| && mem[n].fields[i].Scalar?
    ensures FieldStep(h, mem, table, iso, n, i, {}, v, w, Loaded(rest, mem[n := PutField(mem[n], i, v)], table), rest,
                      iso)
  {
    PlainWriteKeepsSim(h, done, live, mem, table, iso, n, i, v);
  }

  lemma {:induction false} VectorSim(env: Env, h: Heap, f: FieldShape, v: Value, done: set<Addr>, live: Live,
                    n: nat, i: nat, s: Stream, rest: Stream, mem: Memory, table: Table, iso: Iso)
    returns (iso1: Iso)
    requires Ready(env, h) && ValueOk(h, f, v) && f.RefsF?
    requires Sim(h, done, live, mem, table, iso)
    requires n < |mem| && i < |mem[n].fields| && BlankValue(f, mem[n].fields[i])
    requires var w := SaveField(env, h, f, v, done, live); w.Walk? && After(env, s, w.out) == Some(rest)
    ensures var w := SaveField(env, h, f, v, done, live);
            var r := LoadField(env, f, n, i, s, mem, table);
            if !w.safe then r.Error? else FieldStep(h, mem, table, iso, n, i, {}, v, w, r, rest, iso1)
    decreases h.Keys - done, 2, 0
  {
    var w := SaveField(env, h, f, v, done, live);
    var w1 := SaveRefs(env, h, f.ptr, v.ps, 0, done, live);
    var mid := Between(env, s, SizeHead(env, f.tag, |v.ps|), w1.out, rest);
    var mem1 := VectorRead(env, h, f, |v.ps|, done, live, n, i, s, mid, mem, table, iso);
    iso1 := RefsSim(env, h, f.ptr, v.ps, 0, done, live, n, i, mid, rest, mem1, table, iso);
    if w1.safe {
      var r := LoadRefs(env, f.ptr, n, i, 0, |v.ps|, mid, mem1, table);
      VectorStep(h, mem, mem1, table, iso, n, i, v, w1, w, r, rest, iso1);
    }
  }

  /** Reading the size and resizing the vector. */
  lemma VectorRead(env: Env, h: Heap, f: FieldShape, size: nat, done: set<Addr>, live: Live,
                   n: nat, i: nat, s: Stream, rest: Stream, mem: Memory, table: Table, iso: Iso) returns (mem1: Memory)
    requires Sim(h, done, live, mem, table, iso) && f.RefsF?
    requires n < |mem| && i < |mem[n].fields| && BlankValue(f, mem[n].fields[i])
    requires After(env, s, SizeHead(env, f.tag, size)) == Some(rest)
    ensures LoadField(env, f, n, i, s, mem, table) == LoadRefs(env, f.ptr, n, i, 0, size, rest, mem1, table)
    ensures Sim(h, done, live, mem1, table, iso) && |mem1| == |mem| && |mem1[n].fields| == |mem[n].fields|
    ensures mem1 == mem[n := PutField(mem[n], i, mem1[n].fields[i])]
    ensures mem1[n].fields[i].Refs? && |mem1[n].fields[i].ps| == size
    ensures forall k :: 0 <= k < size ==> mem1[n].fields[i].ps[k] == Null
  {
    SizeRead(env, f.tag, size, s, rest);
    var resized := Refs(Resize(mem[n].fields[i].ps, size));
    mem1 := mem[n := PutField(mem[n], i, resized)];
    PlainWriteKeepsSim(h, done, live, mem, table, iso, n, i, resized);
  }

  lemma VectorStep(h: Heap, mem: Memory, mem1: Memory, table: Table, iso: Iso, n: nat, i: nat, v: Value,
                   w1: Walk, w: Walk, r: Load, rest: Stream, iso1: Iso)
    requires w1.Walk? && w.Walk? && w.done == w1.done && w.live == w1.live && v.Refs?
    requires n < |mem| && i < |mem[n].fields| && |mem1| == |mem| && |mem1[n].fields| == |mem[n].fields|
    requires mem1 == mem[n := PutField(mem[n], i, mem1[n].fields[i])]
    requires VectorAt(mem1, n, i, v.ps) && RefsStep(h, mem1, table, iso, n, i, 0, v.ps, w1, r, rest, iso1)
    ensures FieldStep(h, mem, table, iso, n, i, {}, v, w, r, rest, iso1)
  {
    assert Targets(v) <= iso1.Keys;
    assert r.mem[n].fields[i].ps == MapValue(iso1, v).ps;
    assert r.mem[n] == PutField(mem[n], i, r.mem[n].fields[i]);
  }

  lemma {:induction false} MapSim(env: Env, h: Heap, f: FieldShape, v: Value, done: set<Addr>, live: Live,
                    n: nat, i: nat, s: Stream, rest: Stream, mem: Memory, table: Table, iso: Iso)
    returns (iso1: Iso)
    requires Ready(env, h) && ValueOk(h, f, v) && f.MapF?
    requires Sim(h, done, live, mem, table, iso)
    requires n < |mem| && i < |mem[n].fields| && BlankValue(f, mem[n].fields[i])
    requires var w := SaveField(env, h, f, v, done, live); w.Walk? && After(env, s, w.out) == Some(rest)
    ensures var w := SaveField(env, h, f, v, done, live);
            var r := LoadField(env, f, n, i, s, mem, table);
            if !w.safe then r.Error? else FieldStep(h, mem, table, iso, n, i, {}, v, w, r, rest, iso1)
    decreases h.Keys - done, 2, |v.es| + 1
  {
    var w := SaveField(env, h, f, v, done, live);
    var w1 := SaveEntries(env, h, f.ptr, v.es, 0, done, live);
    var mid := Between(env, s, SizeHead(env, f.tag, |v.es|), w1.out, rest);
    SizeRead(env, f.tag, |v.es|, s, mid);
    iso1 := EntriesSim(env, h, f, v.es, 0, done, live, n, i, mid, rest, mem, table, iso);
    if w1.safe {
      var r := LoadEntries(env, f, n, i, 0, |v.es|, mid, mem, table);
      MapFieldStep(h, mem, table, iso, n, i, v, w1, w, r, rest, iso1);
    }
  }

  lemma MapFieldStep(h: Heap, mem: Memory, table: Table, iso: Iso, n: nat, i: nat, v: Value,
                     w1: Walk, w: Walk, r: Load, rest: Stream, iso1: Iso)
    requires w1.Walk? && w.Walk? && w.done == w1.done && w.live == w1.live && v.Entries?
    requires MapAt(mem, n, i, 0, v.es) && MapStep(h, mem, table, iso, n, i, 0, |v.es|, v.es, w1, r, rest, iso1)
    ensures FieldStep(h, mem, table, iso, n, i, {}, v, w, r, rest, iso1)
  {
    assert Targets(v) <= iso1.Keys;
    assert r.mem[n].fields[i].es == MapValue(iso1, v).es;
  }

  /** Fields `i..` of object `n` have been rebuilt, and nothing else changed in `n`. */
  ghost predicate FieldsStep(h: Heap, mem: Memory, table: Table, iso: Iso, n: nat, i: nat, vs: seq<Value>,
                             w: Walk, r: Load, rest: Stream, iso1: Iso)
    requires w.Walk? && n < |mem| && i <= |mem[n].fields| == |vs|
  {
    && Step(h, mem, table, iso, n, Spares(mem[n].fields, i), w, r, rest, iso1)
    && n < |r.mem| && r.mem[n].ty == mem[n].ty && |r.mem[n].fields| == |vs|
    && (forall k :: 0 <= k < i ==> r.mem[n].fields[k] == mem[n].fields[k])
    && (forall k :: i <= k < |vs| ==> Rebuilt(iso1, vs[k], r.mem[n].fields[k]))
  }

  /** The fields `i..` of object `n` can receive `vs`, and no two of them have the same spare object. */
  predicate ReceivesAll(env: Env, h: Heap, mem: Memory, iso: Iso, n: nat, sh: seq<FieldShape>, vs: seq<Value>, i: nat) {
    && n < |mem| && |mem[n].fields| == |sh| == |vs|
    && (forall k :: i <= k < |sh| ==> Receives(env, h, mem, iso, n, sh[k], vs[k], mem[n].fields[k]))
    && SparesDistinct(mem[n].fields, i)
  }

  /** Loading field `i` leaves the later fields and their spare objects as they were. */
  lemma FieldsFirst(env: Env, h: Heap, mem: Memory, table: Table, iso: Iso, n: nat, i: nat, sh: seq<FieldShape>,
                    vs: seq<Value>, w1: Walk, r1: Load, rest1: Stream, iso1: Iso)
    requires w1.Walk? && i < |sh| && ReceivesAll(env, h, mem, iso, n, sh, vs, i)
    requires FieldStep(h, mem, table, iso, n, i, SpareOf(mem[n].fields[i]), vs[i], w1, r1, rest1, iso1)
    ensures ReceivesAll(env, h, r1.mem, iso1, n, sh, vs, i + 1)
    ensures Spares(r1.mem[n].fields, i + 1) == Spares(mem[n].fields, i + 1)
  {
    var rs, rs1 := mem[n].fields, r1.mem[n].fields;
    assert |rs1| == |rs| && forall k :: i < k < |rs| ==> rs1[k] == rs[k];
    LaterReceive(env, h, mem, r1.mem, iso, iso1, n, i, sh, vs);
    SparesSame(rs, rs1, i + 1);
  }

  lemma LaterReceive(env: Env, h: Heap, mem: Memory, mem1: Memory, iso: Iso, iso1: Iso, n: nat, i: nat,
                     sh: seq<FieldShape>, vs: seq<Value>)
    requires i < |sh| && ReceivesAll(env, h, mem, iso, n, sh, vs, i) && n < |mem1|
    requires |mem1[n].fields| == |mem[n].fields|
    requires forall k :: i < k < |sh| ==> mem1[n].fields[k] == mem[n].fields[k]
    requires Others(mem, mem1, SpareOf(mem[n].fields[i]) + {n}) && Grows(iso, iso1, SpareOf(mem[n].fields[i]), |mem|)
    ensures ReceivesAll(env, h, mem1, iso1, n, sh, vs, i + 1)
  {
    var rs := mem[n].fields;
    SparesStayDistinct(rs, mem1[n].fields, i);
    forall k | i + 1 <= k < |sh|
      ensures Receives(env, h, mem1, iso1, n, sh[k], vs[k], mem1[n].fields[k])
    {
      assert SpareOf(rs[i]) !! SpareOf(rs[k]);
      ReceivesStays(env, h, mem, mem1, iso, iso1, n, SpareOf(rs[i]), sh[k], vs[k], rs[k]);
    }
  }

  lemma SparesStayDistinct(rs: seq<Value>, rs1: seq<Value>, i: nat)
    requires |rs1| == |rs| && (forall k :: i < k < |rs| ==> rs1[k] == rs[k]) && SparesDistinct(rs, i)
    ensures SparesDistinct(rs1, i + 1)
  {
  }

  lemma ReceivesStays(env: Env, h: Heap, mem: Memory, mem1: Memory, iso: Iso, iso1: Iso, n: nat, S: set<nat>,
                      f: FieldShape, v: Value, r: Value)
    requires Receives(env, h, mem, iso, n, f, v, r) && S !! SpareOf(r)
    requires Others(mem, mem1, S + {n}) && Grows(iso, iso1, S, |mem|)
    ensures Receives(env, h, mem1, iso1, n, f, v, r)
  {
    if f.RefF? && r.Ref? && r.p.To? {
      SpareStays(env, h, mem, mem1, iso, iso1, n, S, v.p, r.p.a);
    }
  }

  lemma SpareStays(env: Env, h: Heap, mem: Memory, mem1: Memory, iso: Iso, iso1: Iso, n: nat, S: set<nat>, p: Ptr,
                   b: nat)
    requires Spare(env, h, mem, iso, n, p, b) && b !in S && Others(mem, mem1, S + {n}) && Grows(iso, iso1, S, |mem|)
    ensures Spare(env, h, mem1, iso1, n, p, b)
  {
    forall a | a in iso1
      ensures iso1[a] != b
    {
      if a in iso { assert iso[a] in iso.Values; }
    }
  }

  /** No field is left. */
  lemma FieldsDone(h: Heap, done: set<Addr>, live: Live, n: nat, vs: seq<Value>, rest: Stream, mem: Memory,
                   table: Table, iso: Iso)
    requires Sim(h, done, live, mem, table, iso) && n < |mem| && |mem[n].fields| == |vs|
    ensures FieldsStep(h, mem, table, iso, n, |vs|, vs, Walk([], done, live, true), Loaded(rest, mem, table), rest, iso)
  {
  }

  /** Field `i` and then the others. */
  lemma FieldsJoin(env: Env, h: Heap, sh: seq<FieldShape>, vs: seq<Value>, i: nat, done: set<Addr>, live: Live,
                   n: nat, s: Stream, mem: Memory, table: Table, iso: Iso,
                   w1: Walk, rest1: Stream, iso1: Iso, w2: Walk, rest: Stream, iso2: Iso)
    requires w1.Walk? && w2.Walk? && i < |sh| && ReceivesAll(env, h, mem, iso, n, sh, vs, i)
    requires Sim(h, done, live, mem, table, iso) && w1.done <= w2.done
    requires var r1 := LoadField(env, sh[i], n, i, s, mem, table);
             if !w1.safe then r1.Error?
             else
               && FieldStep(h, mem, table, iso, n, i, SpareOf(mem[n].fields[i]), vs[i], w1, r1, rest1, iso1)
               && n < |r1.mem| && |r1.mem[n].fields| == |vs|
               && Spares(r1.mem[n].fields, i + 1) == Spares(mem[n].fields, i + 1)
               && var r := LoadFields(env, sh, n, i + 1, rest1, r1.mem, r1.table);
               if !w2.safe then r.Error? else FieldsStep(h, r1.mem, r1.table, iso1, n, i + 1, vs, w2, r, rest, iso2)
    ensures var r := LoadFields(env, sh, n, i, s, mem, table);
            if !w1.Then(w2).safe then r.Error? else FieldsStep(h, mem, table, iso, n, i, vs, w1.Then(w2), r, rest, iso2)
  {
    if w1.safe && w2.safe {
      var r1 := LoadField(env, sh[i], n, i, s, mem, table);
      var r := LoadFields(env, sh, n, i + 1, rest1, r1.mem, r1.table);
      SparesApart(env, h, mem, iso, n, sh, vs, i);
      FieldsThen(h, done, live, mem, table, iso, n, i, vs, w1, r1, rest1, iso1, w2, r, rest, iso2);
    }
  }

  lemma SparesApart(env: Env, h: Heap, mem: Memory, iso: Iso, n: nat, sh: seq<FieldShape>, vs: seq<Value>, i: nat)
    requires i < |sh| && ReceivesAll(env, h, mem, iso, n, sh, vs, i)
    ensures var S1, S2 := SpareOf(mem[n].fields[i]), Spares(mem[n].fields, i + 1);
            S1 !! S2 && n !in S1 && n !in S2 && forall b :: b in S2 ==> b < |mem|
  {
    SparesAre(mem[n].fields, i + 1);
    assert Receives(env, h, mem, iso, n, sh[i], vs[i], mem[n].fields[i]);
    forall b | b in Spares(mem[n].fields, i + 1)
      ensures b !in SpareOf(mem[n].fields[i]) && b != n && b < |mem|
    {
      var k :| i + 1 <= k < |mem[n].fields| && b in SpareOf(mem[n].fields[k]);
      assert Receives(env, h, mem, iso, n, sh[k], vs[k], mem[n].fields[k]);
      assert SpareOf(mem[n].fields[i]) !! SpareOf(mem[n].fields[k]);
    }
  }

  lemma FieldsThen(h: Heap, done: set<Addr>, live: Live, mem: Memory, table: Table, iso: Iso, n: nat, i: nat,
                   vs: seq<Value>, w1: Walk, r1: Load, rest1: Stream, iso1: Iso, w2: Walk, r: Load, rest: Stream,
                   iso2: Iso)
    requires w1.Walk? && w2.Walk? && n < |mem| && i < |mem[n].fields| == |vs|
    requires var S1, S2 := SpareOf(mem[n].fields[i]), Spares(mem[n].fields, i + 1);
             S1 !! S2 && n !in S1 && n !in S2 && forall b :: b in S2 ==> b < |mem|
    requires FieldStep(h, mem, table, iso, n, i, SpareOf(mem[n].fields[i]), vs[i], w1, r1, rest1, iso1)
    requires Spares(r1.mem[n].fields, i + 1) == Spares(mem[n].fields, i + 1)
    requires FieldsStep(h, r1.mem, r1.table, iso1, n, i + 1, vs, w2, r, rest, iso2)
    requires Sim(h, done, live, mem, table, iso) && w1.done <= w2.done
    ensures FieldsStep(h, mem, table, iso, n, i, vs, w1.Then(w2), r, rest, iso2)
  {
    StepThen(h, done, live, mem, table, iso, n, SpareOf(mem[n].fields[i]), Spares(mem[n].fields, i + 1),
             w1, r1, rest1, iso1, w2, r, rest, iso2);
    assert r.mem[n].fields[i] == r1.mem[n].fields[i];
    RebuiltStays(iso1, iso2, vs[i], r.mem[n].fields[i]);
  }

  /** What is written for field `i` and for the later ones. */
  lemma FieldsSplit(env: Env, h: Heap, sh: seq<FieldShape>, vs: seq<Value>, i: nat, done: set<Addr>, live: Live,
                    s: Stream, rest: Stream)
    returns (w1: Walk, w2: Walk, mid: Stream)
    requires HeapOk(env, h) && FieldsOk(h, sh, vs) && i < |sh|
    requires var w := SaveFields(env, h, sh, vs, i, done, live); w.Walk? && After(env, s, w.out) == Some(rest)
    ensures w1 == SaveField(env, h, sh[i], vs[i], done, live) && w1.Walk? && After(env, s, w1.out) == Some(mid)
    ensures w2 == SaveFields(env, h, sh, vs, i + 1, w1.done, w1.live) && w2.Walk?
    ensures After(env, mid, w2.out) == Some(rest)
    ensures SaveFields(env, h, sh, vs, i, done, live) == w1.Then(w2) && done <= w1.done <= w2.done
  {
    w1 := SaveField(env, h, sh[i], vs[i], done, live);
    w2 := SaveFields(env, h, sh, vs, i + 1, w1.done, w1.live);
    mid := Between(env, s, w1.out, w2.out, rest);
  }

  lemma {:induction false} FieldsSim(env: Env, h: Heap, sh: seq<FieldShape>, vs: seq<Value>, i: nat, done: set<Addr>,
                                     live: Live, n: nat, s: Stream, rest: Stream, mem: Memory, table: Table, iso: Iso)
    returns (iso1: Iso)
    requires Ready(env, h) && FieldsOk(h, sh, vs) && i <= |sh|
    requires Sim(h, done, live, mem, table, iso) && ReceivesAll(env, h, mem, iso, n, sh, vs, i)
    requires var w := SaveFields(env, h, sh, vs, i, done, live); w.Walk? && After(env, s, w.out) == Some(rest)
    ensures var w := SaveFields(env, h, sh, vs, i, done, live);
            var r := LoadFields(env, sh, n, i, s, mem, table);
            if !w.safe then r.Error? else FieldsStep(h, mem, table, iso, n, i, vs, w, r, rest, iso1)
    decreases h.Keys - done, 4, |sh| - i
  {
    iso1 := iso;
    if i == |sh| {
      FieldsDone(h, done, live, n, vs, rest, mem, table, iso);
    } else {
      var w1, w2, mid := FieldsSplit(env, h, sh, vs, i, done, live, s, rest);
      iso1 := FieldSim(env, h, sh[i], vs[i], done, live, n, i, s, mid, mem, table, iso);
      var iso2 := iso1;
      if w1.safe {
        var r1 := LoadField(env, sh[i], n, i, s, mem, table);
        FieldsFirst(env, h, mem, table, iso, n, i, sh, vs, w1, r1, mid, iso1);
        iso2 := FieldsSim(env, h, sh, vs, i + 1, w1.done, w1.live, n, mid, rest, r1.mem, r1.table, iso1);
      }
      FieldsJoin(env, h, sh, vs, i, done, live, n, s, mem, table, iso, w1, mid, iso1, w2, rest, iso2);
      iso1 := iso2;
    }
  }
}
