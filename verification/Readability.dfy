/** Which graphs are read back: a stream is readable exactly when the values and keys of the graph are. */
module Readability {
  import opened ObjectGraph
  import opened StreamFormat
  import opened SaveWalk

  /** The scalars and keys of a field. */
  predicate ValueReadable(env: Env, v: Value) {
    match v
    case Scalar(t) => Readable(env, t)
    case Entries(es) => forall j :: 0 <= j < |es| ==> Readable(env, es[j].0)
    case _ => true
  }

  predicate DataReadable(env: Env, vs: seq<Value>) {
    forall i :: 0 <= i < |vs| ==> ValueReadable(env, vs[i])
  }

  /** The data of all objects `S`. */
  ghost predicate BodiesReadable(env: Env, h: Heap, S: set<Addr>) {
    forall a :: a in S && a in h ==> DataReadable(env, h[a].fields)
  }

  predicate SizeReadable(env: Env, v: Value) {
    match v
    case Refs(ps) => Readable(env, Num(8, |ps|))
    case Entries(es) => Readable(env, Num(8, |es|))
    case _ => true
  }

  /** The tag of a field and the size of a container. */
  predicate FieldFramed(env: Env, f: FieldShape, v: Value) {
    Readable(env, Str(f.tag)) && SizeReadable(env, v)
  }

  predicate FieldsFramed(env: Env, sh: seq<FieldShape>, vs: seq<Value>) {
    forall i :: 0 <= i < |sh| && i < |vs| ==> FieldFramed(env, sh[i], vs[i])
  }

  /** What the serializer itself puts around the data is readable: kinds, addresses, names, tags and sizes. */
  ghost predicate Framed(env: Env, h: Heap) {
    && (forall k: nat :: k <= 2 ==> Readable(env, Kind(k)))
    && (forall ty :: ty in env.names ==> Readable(env, Str(env.names[ty])))
    && (forall s :: s in {"E", "First", "Second", "size"} ==> Readable(env, Str(s)))
    && (forall a :: a in h ==> Readable(env, Address(a)) && FieldsFramed(env, env.Shape(h[a].ty), h[a].fields))
  }

  /** The tokens of a walk are readable exactly when `own` holds and the bodies it adds to `done` are readable. */
  ghost predicate Contents(env: Env, h: Heap, done: set<Addr>, w: Walk, own: bool) {
    w.Walk? ==> done <= w.done && (AllReadable(env, w.out) <==> own && BodiesReadable(env, h, w.done - done))
  }

  lemma ReadableConcat(env: Env, s: seq<Token>, t: seq<Token>)
    ensures AllReadable(env, s + t) <==> AllReadable(env, s) && AllReadable(env, t)
  {
    if AllReadable(env, s + t) {
      assert forall k :: 0 <= k < |s| ==> s[k] == (s + t)[k];
      assert forall k :: 0 <= k < |t| ==> t[k] == (s + t)[|s| + k];
    }
  }

  lemma ContentsThen(env: Env, h: Heap, done: set<Addr>, w1: Walk, own1: bool, w2: Walk, own2: bool)
    requires w1.Walk? && Contents(env, h, done, w1, own1) && Contents(env, h, w1.done, w2, own2)
    ensures Contents(env, h, done, w1.Then(w2), own1 && own2)
  {
    if w2.Walk? {
      ReadableConcat(env, w1.out, w2.out);
      assert w2.done - done == (w1.done - done) + (w2.done - w1.done);
    }
  }

  lemma TraceReadable(env: Env, tag: string)
    requires Readable(env, Str(tag))
    ensures AllReadable(env, Trace(env, tag))
  {
  }

  lemma SizeHeadReadable(env: Env, h: Heap, tag: string, size: nat)
    requires Framed(env, h) && Readable(env, Str(tag)) && Readable(env, Num(8, size))
    ensures AllReadable(env, SizeHead(env, tag, size))
  {
    assert Readable(env, Str("size"));
  }

  lemma PtrHeadReadable(env: Env, h: Heap, tag: string, target: TypeId, ty: TypeId, a: Addr)
    requires Framed(env, h) && a in h && Readable(env, Str(tag))
    ensures AllReadable(env, PtrKnown(target, ty, a))
    ensures ty == target || ty in env.names ==> AllReadable(env, PtrHead(env, tag, target, ty, a))
  {
  }

  lemma {:induction false} PtrContents(env: Env, h: Heap, tag: string, d: PtrType, p: Ptr, done: set<Addr>, live: Live)
    requires HeapOk(env, h) && Framed(env, h) && PtrOk(h, p) && Readable(env, Str(tag))
    ensures Contents(env, h, done, SavePtr(env, h, tag, d, p, done, live), true)
    decreases h.Keys - done, 0, 0
  {
    var w := SavePtr(env, h, tag, d, p, done, live);
    if w.Walk? && p.To? {
      var ty := h[p.a].ty;
      PtrHeadReadable(env, h, tag, d.target, ty, p.a);
      if p.a !in done {
        var vs := h[p.a].fields;
        var body := SaveFields(env, h, env.Shape(ty), vs, 0, done + {p.a}, Met(live, p.a, d));
        FieldsContents(env, h, env.Shape(ty), vs, 0, done + {p.a}, Met(live, p.a, d));
        ReadableConcat(env, PtrHead(env, tag, d.target, ty, p.a), body.out);
        assert w.done - done == {p.a} + (body.done - (done + {p.a}));
        AllData(env, vs);
      }
    }
  }

  lemma {:induction false} RefsContents(env: Env, h: Heap, d: PtrType, ps: seq<Ptr>, j: nat, done: set<Addr>,
                                        live: Live)
    requires HeapOk(env, h) && Framed(env, h) && j <= |ps| && forall k :: 0 <= k < |ps| ==> PtrOk(h, ps[k])
    ensures Contents(env, h, done, SaveRefs(env, h, d, ps, j, done, live), true)
    decreases h.Keys - done, 1, |ps| - j
  {
    if j < |ps| {
      assert Readable(env, Str("E"));
      var w1 := SavePtr(env, h, "E", d, ps[j], done, live);
      PtrContents(env, h, "E", d, ps[j], done, live);
      if w1.Walk? {
        RefsContents(env, h, d, ps, j + 1, w1.done, w1.live);
        ContentsThen(env, h, done, w1, true, SaveRefs(env, h, d, ps, j + 1, w1.done, w1.live), true);
      }
    }
  }

  lemma {:induction false} EntryContents(env: Env, h: Heap, d: PtrType, e: (Token, Ptr), done: set<Addr>, live: Live)
    requires HeapOk(env, h) && Framed(env, h) && PtrOk(h, e.1)
    ensures Contents(env, h, done, SaveEntry(env, h, d, e, done, live), Readable(env, e.0))
    decreases h.Keys - done, 1, 0
  {
    assert Readable(env, Str("E")) && Readable(env, Str("First")) && Readable(env, Str("Second"));
    PtrContents(env, h, "Second", d, e.1, done, live);
    var w := SavePtr(env, h, "Second", d, e.1, done, live);
    if w.Walk? {
      TraceReadable(env, "E");
      TraceReadable(env, "First");
      KeyReadable(env, Trace(env, "E") + Trace(env, "First"), e.0);
      ReadableConcat(env, Trace(env, "E") + Trace(env, "First") + [e.0], w.out);
    }
  }

  lemma KeyReadable(env: Env, head: seq<Token>, key: Token)
    requires AllReadable(env, head)
    ensures AllReadable(env, head + [key]) <==> Readable(env, key)
  {
    assert (head + [key])[|head|] == key;
  }

  predicate KeysReadable(env: Env, es: seq<(Token, Ptr)>, j: nat) {
    forall k :: j <= k < |es| ==> Readable(env, es[k].0)
  }

  lemma {:induction false} EntriesContents(env: Env, h: Heap, d: PtrType, es: seq<(Token, Ptr)>, j: nat,
                                           done: set<Addr>, live: Live)
    requires HeapOk(env, h) && Framed(env, h) && j <= |es| && forall k :: 0 <= k < |es| ==> PtrOk(h, es[k].1)
    ensures Contents(env, h, done, SaveEntries(env, h, d, es, j, done, live), KeysReadable(env, es, j))
    decreases h.Keys - done, 2, |es| - j
  {
    if j < |es| {
      var w1 := SaveEntry(env, h, d, es[j], done, live);
      EntryContents(env, h, d, es[j], done, live);
      if w1.Walk? {
        EntriesContents(env, h, d, es, j + 1, w1.done, w1.live);
        var own1, own2 := Readable(env, es[j].0), KeysReadable(env, es, j + 1);
        ContentsThen(env, h, done, w1, own1, SaveEntries(env, h, d, es, j + 1, w1.done, w1.live), own2);
        assert own1 && own2 <==> KeysReadable(env, es, j);
      }
    }
  }

  lemma {:induction false} FieldContents(env: Env, h: Heap, f: FieldShape, v: Value, done: set<Addr>, live: Live)
    requires HeapOk(env, h) && Framed(env, h) && ValueOk(h, f, v) && FieldFramed(env, f, v)
    ensures Contents(env, h, done, SaveField(env, h, f, v, done, live), ValueReadable(env, v))
    decreases h.Keys - done, 3, 0
  {
    TraceReadable(env, f.tag);
    match f {
      case MarkF(_) =>
      case ScalarF(tag, _) => KeyReadable(env, Trace(env, tag), v.t);
      case RefF(tag, d) => PtrContents(env, h, tag, d, v.p, done, live);
      case RefsF(tag, d) =>
        SizeHeadReadable(env, h, tag, |v.ps|);
        RefsContents(env, h, d, v.ps, 0, done, live);
        ContentsThen(env, h, done, Walk(SizeHead(env, tag, |v.ps|), done, live, true), true,
                     SaveRefs(env, h, d, v.ps, 0, done, live), true);
      case MapF(tag, _, d) =>
        SizeHeadReadable(env, h, tag, |v.es|);
        EntriesContents(env, h, d, v.es, 0, done, live);
        ContentsThen(env, h, done, Walk(SizeHead(env, tag, |v.es|), done, live, true), true,
                     SaveEntries(env, h, d, v.es, 0, done, live), KeysReadable(env, v.es, 0));
    }
  }

  predicate DataFrom(env: Env, vs: seq<Value>, i: nat) {
    forall k :: i <= k < |vs| ==> ValueReadable(env, vs[k])
  }

  lemma AllData(env: Env, vs: seq<Value>)
    ensures DataFrom(env, vs, 0) <==> DataReadable(env, vs)
  {
  }

  /** Main result: the fields from `i` on and everything they lead to. */
  lemma {:induction false} FieldsContents(env: Env, h: Heap, sh: seq<FieldShape>, vs: seq<Value>, i: nat,
                                          done: set<Addr>, live: Live)
    requires HeapOk(env, h) && Framed(env, h) && FieldsOk(h, sh, vs) && FieldsFramed(env, sh, vs) && i <= |sh|
    ensures Contents(env, h, done, SaveFields(env, h, sh, vs, i, done, live), DataFrom(env, vs, i))
    decreases h.Keys - done, 4, |sh| - i
  {
    if i < |sh| {
      var w1 := SaveField(env, h, sh[i], vs[i], done, live);
      FieldContents(env, h, sh[i], vs[i], done, live);
      if w1.Walk? {
        FieldsContents(env, h, sh, vs, i + 1, w1.done, w1.live);
        var own1, own2 := ValueReadable(env, vs[i]), DataFrom(env, vs, i + 1);
        ContentsThen(env, h, done, w1, own1, SaveFields(env, h, sh, vs, i + 1, w1.done, w1.live), own2);
        assert own1 && own2 <==> DataFrom(env, vs, i);
      }
    }
  }
}
