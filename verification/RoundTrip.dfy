/** The guarantees of saving a value and loading it back. */
module RoundTrip {
  import opened ObjectGraph
  import opened StreamFormat
  import opened SaveWalk
  import opened LoadWalk
  import opened Isomorphism
  import opened SaveFacts
  import opened Ownership
  import opened ReadFacts
  import opened Readability

  /** Saving the fields `vs` of a value, with an empty table of saved pointers. */
  function Save(env: Env, h: Heap, sh: seq<FieldShape>, vs: seq<Value>): (w: Walk)
    requires HeapOk(env, h) && FieldsOk(h, sh, vs)
  {
    SaveFields(env, h, sh, vs, 0, {}, map[])
  }

  /** The characters of what was saved, and whatever follows them. */
  function Wire(env: Env, toks: seq<Token>, tail: string): Stream {
    Stream(WrittenAll(env, toks) + tail, [])
  }

  /** Loading into the value at address 0 of the receiver's memory. */
  function LoadInto(env: Env, sh: seq<FieldShape>, s: Stream, mem: Memory): (r: Load) {
    LoadFields(env, sh, 0, 0, s, mem, map[])
  }

  /** A default constructed value, alone in its memory. */
  function NewValue(sh: seq<FieldShape>): Memory {
    [Obj("", Defaults(sh))]
  }

  /**
   * The value at address 0 can receive `vs`: its maps are empty, its vectors hold null pointers, and
   * a pointer of it is null or leads to an object of its own that is as empty. It is left out that
   * such a pointer is saved as null, since `load` then leaves it alone.
   */
  predicate Receiver(env: Env, h: Heap, sh: seq<FieldShape>, vs: seq<Value>, mem: Memory) {
    ReceivesAll(env, h, mem, map[], 0, sh, vs, 0)
  }

  /** Loading succeeds, and every value is read as it was written. */
  predicate Faithful(r: Load, toks: seq<Token>) {
    r.Loaded? && r.rest.seen == toks
  }

  /** `reach` is the least set that holds the pointees of `vs` and of its own members. */
  ghost predicate IsReach(h: Heap, vs: seq<Value>, reach: set<Addr>) {
    && Encloses(h, vs, reach)
    && forall S: set<Addr> :: Encloses(h, vs, S) ==> reach <= S
  }

  ghost predicate Encloses(h: Heap, vs: seq<Value>, S: set<Addr>) {
    ClosedUnder(h, S) && forall i :: 0 <= i < |vs| ==> Targets(vs[i]) <= S
  }

  /**
   * `iso` maps the objects `reach` one to one to objects of the same type in `mem`, the value at
   * address 0 is `vs` and every object is its original, with each pointer mapped by `iso`.
   */
  ghost predicate Isomorphic(h: Heap, vs: seq<Value>, reach: set<Addr>, mem: Memory, iso: Iso) {
    && iso.Keys == reach && Injective(iso)
    && (forall a :: a in iso ==> 0 < iso[a] < |mem|)
    && 0 < |mem| && |mem[0].fields| == |vs|
    && (forall i :: 0 <= i < |vs| ==> Rebuilt(iso, vs[i], mem[0].fields[i]))
    && (forall a :: a in reach ==> Complete(h, mem, iso, a))
  }

  /** Whatever is saved, the objects written are exactly the reachable ones. */
  lemma WalkIsReach(env: Env, h: Heap, sh: seq<FieldShape>, vs: seq<Value>)
    requires HeapOk(env, h) && FieldsOk(h, sh, vs) && Save(env, h, sh, vs).Walk?
    ensures IsReach(h, vs, Save(env, h, sh, vs).done)
  {
    FieldsCover(env, h, sh, vs, 0, {}, map[]);
    var reach := Save(env, h, sh, vs).done;
    assert forall i :: 0 <= i < |vs| ==> Targets(vs[i]) <= reach;
    forall a, i | a in reach && a in h && 0 <= i < |h[a].fields|
      ensures Targets(h[a].fields[i]) <= reach
    {
      assert FieldsIn(h[a].fields, 0, reach);
    }
    forall S: set<Addr> | Encloses(h, vs, S)
      ensures reach <= S
    {
      var _ := FieldsFacts(env, h, S, Root, sh, vs, 0, {}, map[]);
    }
  }

  lemma OneReach(h: Heap, vs: seq<Value>, S: set<Addr>, T: set<Addr>)
    requires IsReach(h, vs, S) && IsReach(h, vs, T)
    ensures S == T
  {
  }

  /** The reachable graph has been rebuilt, nothing else of the receiver was written, and `tail` is still to be read. */
  ghost predicate Delivered(env: Env, h: Heap, vs: seq<Value>, w: Walk, tail: string, mem: Memory, r: Load, iso: Iso)
    requires w.Walk? && |mem| > 0
  {
    && r.Loaded? && r.rest == Stream((if w.out == [] then "" else Left(env)) + tail, w.out)
    && Isomorphic(h, vs, w.done, r.mem, iso)
    && Others(mem, r.mem, Spares(mem[0].fields, 0) + {0})
  }

  /**
   * Main result: loading is faithful exactly on safe streams of readable values, and then rebuilds
   * the reachable graph; where the values are readable and the stream is not safe it fails. If the
   * mode represents the numbers exactly, it is the quotes in strings that decide in the text modes.
   */
  lemma SaveThenLoad(env: Env, h: Heap, sh: seq<FieldShape>, vs: seq<Value>, mem: Memory, tail: string)
    returns (iso: Iso)
    requires Ready(env, h) && CodeOk(env) && FieldsOk(h, sh, vs) && Save(env, h, sh, vs).Walk?
    requires Receiver(env, h, sh, vs, mem)
    ensures var w := Save(env, h, sh, vs);
            var r := LoadInto(env, sh, Wire(env, w.out, tail), mem);
            && IsReach(h, vs, w.done)
            && (Faithful(r, w.out) <==> w.safe && AllReadable(env, w.out))
            && (Faithful(r, w.out) ==> Delivered(env, h, vs, w, tail, mem, r, iso))
            && (AllReadable(env, w.out) && !w.safe ==> r.Error?)
            && (Exact(env, w.out) ==> (Faithful(r, w.out) <==> w.safe && (env.Binary() || QuoteFree(w.out))))
  {
    if Exact(env, Save(env, h, sh, vs).out) { ReadableExactly(env, Save(env, h, sh, vs).out); }
    var w := Save(env, h, sh, vs);
    var s := Wire(env, w.out, tail);
    WalkIsReach(env, h, sh, vs);
    WireAfter(env, w.out, tail);
    iso := map[];
    if AllReadable(env, w.out) {
      iso := ReadableSaveThenLoad(env, h, sh, vs, mem, tail);
    } else if Faithful(LoadInto(env, sh, s, mem), w.out) {
      OnlyIfReadable(env, sh, w.out, tail, mem);
    }
  }

  lemma WireAfter(env: Env, toks: seq<Token>, tail: string)
    requires CodeOk(env)
    ensures After(env, Wire(env, toks, tail), toks) ==
            if AllReadable(env, toks) then Some(Stream((if toks == [] then "" else Left(env)) + tail, toks)) else None
  {
    AfterWritten(env, toks, "", tail, []);
    assert "" + WrittenAll(env, toks) == WrittenAll(env, toks) && [] + toks == toks;
  }

  /** What is not readable cannot have been read as it was written. */
  lemma OnlyIfReadable(env: Env, sh: seq<FieldShape>, toks: seq<Token>, tail: string, mem: Memory)
    requires CodeOk(env) && Faithful(LoadInto(env, sh, Wire(env, toks, tail), mem), toks)
    ensures AllReadable(env, toks)
  {
    var s := Wire(env, toks, tail);
    FieldsHonest(env, sh, 0, 0, s, mem, map[]);
    assert ReadBetween(s, LoadInto(env, sh, s, mem).rest) == toks;
    WireAfter(env, toks, tail);
  }

  lemma ReadableSaveThenLoad(env: Env, h: Heap, sh: seq<FieldShape>, vs: seq<Value>, mem: Memory, tail: string)
    returns (iso: Iso)
    requires Ready(env, h) && CodeOk(env) && FieldsOk(h, sh, vs) && Save(env, h, sh, vs).Walk?
    requires Receiver(env, h, sh, vs, mem) && AllReadable(env, Save(env, h, sh, vs).out)
    ensures var w := Save(env, h, sh, vs);
            var r := LoadInto(env, sh, Wire(env, w.out, tail), mem);
            if !w.safe then r.Error? else Faithful(r, w.out) && Delivered(env, h, vs, w, tail, mem, r, iso)
  {
    var w := Save(env, h, sh, vs);
    var s := Wire(env, w.out, tail);
    WireAfter(env, w.out, tail);
    var rest := After(env, s, w.out).value;
    iso := FieldsSim(env, h, sh, vs, 0, {}, map[], 0, s, rest, mem, map[], map[]);
    if w.safe {
      var r := LoadInto(env, sh, s, mem);
      StepIsIsomorphic(env, h, sh, vs, w, mem, r, rest, iso);
    }
  }

  lemma StepIsIsomorphic(env: Env, h: Heap, sh: seq<FieldShape>, vs: seq<Value>, w: Walk, mem: Memory, r: Load,
                         rest: Stream, iso: Iso)
    requires w.Walk? && Receiver(env, h, sh, vs, mem)
    requires FieldsStep(h, mem, map[], map[], 0, 0, vs, w, r, rest, iso)
    ensures Isomorphic(h, vs, w.done, r.mem, iso)
  {
    SparesNotRoot(env, h, sh, vs, mem);
    assert Sim(h, w.done, w.live, r.mem, r.table, iso) && Grows(map[], iso, Spares(mem[0].fields, 0), |mem|);
    forall a | a in iso
      ensures 0 < iso[a]
    {
    }
  }

  lemma SparesNotRoot(env: Env, h: Heap, sh: seq<FieldShape>, vs: seq<Value>, mem: Memory)
    requires Receiver(env, h, sh, vs, mem)
    ensures forall b :: b in Spares(mem[0].fields, 0) ==> 0 < b < |mem|
  {
    SparesAre(mem[0].fields, 0);
    forall b | b in Spares(mem[0].fields, 0)
      ensures 0 < b < |mem|
    {
      var k :| 0 <= k < |sh| && b in SpareOf(mem[0].fields[k]);
      assert Receives(env, h, mem, map[], 0, sh[k], vs[k], mem[0].fields[k]);
    }
  }

  /** A default constructed value can receive anything. */
  lemma NewReceives(env: Env, h: Heap, sh: seq<FieldShape>, vs: seq<Value>)
    requires FieldsOk(h, sh, vs)
    ensures Receiver(env, h, sh, vs, NewValue(sh))
  {
  }

  // Aliases

  /** A pointer of the saved value or of an object, counted within its field. */
  datatype Place = Place(owner: Owner, field: nat, elem: nat)

  function PointerOf(vs: seq<Value>, i: nat, j: nat): Option<Ptr> {
    if i >= |vs| then None
    else
      match vs[i]
      case Ref(p) => if j == 0 then Some(p) else None
      case Refs(ps) => if j < |ps| then Some(ps[j]) else None
      case Entries(es) => if j < |es| then Some(es[j].1) else None
      case _ => None
  }

  function SavedPointer(h: Heap, vs: seq<Value>, x: Place): Option<Ptr> {
    match x.owner
    case Root => PointerOf(vs, x.field, x.elem)
    case At(a) => if a in h then PointerOf(h[a].fields, x.field, x.elem) else None
  }

  function LoadedPointer(mem: Memory, iso: Iso, x: Place): Option<Ptr> {
    match x.owner
    case Root => if |mem| > 0 then PointerOf(mem[0].fields, x.field, x.elem) else None
    case At(a) => if a in iso && iso[a] < |mem| then PointerOf(mem[iso[a]].fields, x.field, x.elem) else None
  }

  lemma PointerRebuilt(iso: Iso, vs: seq<Value>, ws: seq<Value>, i: nat, j: nat)
    requires |ws| == |vs| && forall k :: 0 <= k < |vs| ==> Rebuilt(iso, vs[k], ws[k])
    ensures match PointerOf(vs, i, j)
            case None => PointerOf(ws, i, j).None?
            case Some(p) => (p.To? ==> p.a in iso) && PointerOf(ws, i, j) == Some(MapPtr(iso, p))
  {
    if i < |vs| {
      assert Rebuilt(iso, vs[i], ws[i]);
      match vs[i] {
        case Refs(ps) => if j < |ps| && ps[j].To? { assert ps[j].a in Targets(vs[i]); }
        case Entries(es) => if j < |es| && es[j].1.To? { assert es[j].1.a in Targets(vs[i]); }
        case _ =>
      }
    }
  }

  /**
   * Whenever loading is faithful, any two pointers of the loaded graph, wherever they are, lead to
   * the same object exactly when the two saved ones did.
   */
  lemma AliasesKept(env: Env, h: Heap, sh: seq<FieldShape>, vs: seq<Value>, mem: Memory, tail: string, x: Place,
                    y: Place)
    returns (iso: Iso)
    requires Ready(env, h) && CodeOk(env) && FieldsOk(h, sh, vs) && Save(env, h, sh, vs).Walk?
    requires Receiver(env, h, sh, vs, mem)
    requires var w := Save(env, h, sh, vs);
             && Faithful(LoadInto(env, sh, Wire(env, w.out, tail), mem), w.out)
             && (x.owner.At? ==> x.owner.a in w.done) && (y.owner.At? ==> y.owner.a in w.done)
    ensures var w := Save(env, h, sh, vs);
            var r := LoadInto(env, sh, Wire(env, w.out, tail), mem);
            && Delivered(env, h, vs, w, tail, mem, r, iso)
            && (LoadedPointer(r.mem, iso, x) == LoadedPointer(r.mem, iso, y) <==>
                SavedPointer(h, vs, x) == SavedPointer(h, vs, y))
  {
    iso := SaveThenLoad(env, h, sh, vs, mem, tail);
    var w := Save(env, h, sh, vs);
    var r := LoadInto(env, sh, Wire(env, w.out, tail), mem);
    PlaceRebuilt(h, vs, w.done, r.mem, iso, x);
    PlaceRebuilt(h, vs, w.done, r.mem, iso, y);
    SamePointee(iso, SavedPointer(h, vs, x), SavedPointer(h, vs, y));
  }

  function MapPointer(iso: Iso, p: Option<Ptr>): Option<Ptr>
    requires p.Some? && p.value.To? ==> p.value.a in iso
  {
    if p.None? then None else Some(MapPtr(iso, p.value))
  }

  lemma PlaceRebuilt(h: Heap, vs: seq<Value>, reach: set<Addr>, mem: Memory, iso: Iso, x: Place)
    requires Isomorphic(h, vs, reach, mem, iso) && (x.owner.At? ==> x.owner.a in reach)
    ensures var p := SavedPointer(h, vs, x);
            (p.Some? && p.value.To? ==> p.value.a in iso) && LoadedPointer(mem, iso, x) == MapPointer(iso, p)
  {
    match x.owner
    case Root => PointerRebuilt(iso, vs, mem[0].fields, x.field, x.elem);
    case At(a) =>
      assert Complete(h, mem, iso, a);
      PointerRebuilt(iso, h[a].fields, mem[iso[a]].fields, x.field, x.elem);
  }

  lemma SamePointee(iso: Iso, p: Option<Ptr>, q: Option<Ptr>)
    requires Injective(iso)
    requires (p.Some? && p.value.To? ==> p.value.a in iso) && (q.Some? && q.value.To? ==> q.value.a in iso)
    ensures MapPointer(iso, p) == MapPointer(iso, q) <==> p == q
  {
    if p.Some? && q.Some? && p.value.To? && q.value.To? {
      assert iso[p.value.a] == iso[q.value.a] ==> p.value.a == q.value.a;
    }
  }

  // Conditions on the graph

  /**
   * Each body is written once: apart from names and tags, the stream is made up of the fields of the
   * value and, for every reachable object and no other, of one opening by its address followed by
   * its fields, each of them complete and in order.
   */
  lemma WrittenOnce(env: Env, h: Heap, sh: seq<FieldShape>, vs: seq<Value>) returns (marks: seq<Mark>)
    requires HeapOk(env, h) && FieldsOk(h, sh, vs) && Save(env, h, sh, vs).Walk?
    ensures var w := Save(env, h, sh, vs);
            && IsReach(h, vs, w.done) && w.done <= h.Keys && LabelsOk(env, w.out, marks)
            && Share(w.out, marks, Root) == FieldsTokens(h, sh, vs, 0)
            && forall a :: Share(w.out, marks, At(a)) == if a in w.done then BodyTokens(env, h, a) else []
  {
    WalkIsReach(env, h, sh, vs);
    assert forall i :: 0 <= i < |vs| ==> Targets(vs[i]) <= h.Keys by {
      forall i | 0 <= i < |vs|
        ensures Targets(vs[i]) <= h.Keys
      {
        assert ValueOk(h, sh[i], vs[i]);
      }
    }
    assert ClosedUnder(h, h.Keys) by {
      forall a, i | a in h && 0 <= i < |h[a].fields|
        ensures Targets(h[a].fields[i]) <= h.Keys
      {
        assert ValueOk(h, env.Shape(h[a].ty)[i], h[a].fields[i]);
      }
    }
    marks := FieldsFacts(env, h, h.Keys, Root, sh, vs, 0, {}, map[]);
    var w := Save(env, h, sh, vs);
    forall a
      ensures Share(w.out, marks, At(a)) == if a in w.done then BodyTokens(env, h, a) else []
    {
      assert Share(w.out, marks, At(a))
          == Due(env, h, {}, w.done, Root, FieldsTokens(h, sh, vs, 0), At(a));
    }
  }

  /** The value and the objects it leads to are orderly: `S` encloses them and `holds` says how each is held. */
  ghost predicate OrderlyValue(env: Env, h: Heap, S: set<Addr>, holds: Holds, sh: seq<FieldShape>, vs: seq<Value>) {
    OrderlyHeap(env, h, S, holds) && FieldsOk(h, sh, vs) && Orderly(env, h, S, holds, Root, sh, vs)
  }

  lemma OrderlyIsSafe(env: Env, h: Heap, S: set<Addr>, holds: Holds, sh: seq<FieldShape>, vs: seq<Value>)
    requires OrderlyValue(env, h, S, holds, sh, vs)
    ensures var w := Save(env, h, sh, vs); w.Walk? && w.safe
  {
    FieldsClean(env, h, S, holds, Root, sh, vs, 0, {}, map[]);
  }

  /** The scalars and keys of the value and of the objects `reach` are readable. */
  ghost predicate GraphReadable(env: Env, h: Heap, vs: seq<Value>, reach: set<Addr>) {
    DataReadable(env, vs) && BodiesReadable(env, h, reach)
  }

  lemma SavedReadable(env: Env, h: Heap, sh: seq<FieldShape>, vs: seq<Value>)
    requires HeapOk(env, h) && FieldsOk(h, sh, vs) && Save(env, h, sh, vs).Walk?
    requires Framed(env, h) && FieldsFramed(env, sh, vs)
    ensures var w := Save(env, h, sh, vs); AllReadable(env, w.out) <==> GraphReadable(env, h, vs, w.done)
  {
    FieldsContents(env, h, sh, vs, 0, {}, map[]);
    AllData(env, vs);
    var w := Save(env, h, sh, vs);
    assert w.done - {} == w.done;
  }

  /**
   * A condition on the graph alone: an orderly graph is always saved, and comes back exactly when
   * its scalars and keys are readable, provided that the kinds, addresses, names, tags and sizes
   * that the serializer puts around them are.
   */
  lemma OwnedSaveThenLoad(env: Env, h: Heap, S: set<Addr>, holds: Holds, sh: seq<FieldShape>, vs: seq<Value>,
                          mem: Memory, tail: string)
    returns (iso: Iso)
    requires Ready(env, h) && CodeOk(env) && OrderlyValue(env, h, S, holds, sh, vs)
    requires Framed(env, h) && FieldsFramed(env, sh, vs) && Receiver(env, h, sh, vs, mem)
    ensures var w := Save(env, h, sh, vs);
            w.Walk? &&
            var r := LoadInto(env, sh, Wire(env, w.out, tail), mem);
            && IsReach(h, vs, w.done)
            && (Faithful(r, w.out) <==> GraphReadable(env, h, vs, w.done))
            && (Faithful(r, w.out) ==> Delivered(env, h, vs, w, tail, mem, r, iso))
  {
    OrderlyIsSafe(env, h, S, holds, sh, vs);
    SavedReadable(env, h, sh, vs);
    iso := SaveThenLoad(env, h, sh, vs, mem, tail);
  }

  // What is lost

  const TAGS: map<TypeId, seq<FieldShape>> := map["Tag" := []]

  predicate TagEnv(env: Env) {
    env.classes == TAGS && env.names == map[] && env.prototypes == map[]
  }

  const ONE_TAG: Heap := map[7 := Obj("Tag", [])]

  /** Meeting the one object of `ONE_TAG`. */
  lemma TagWalk(env: Env, tag: string, d: PtrType, done: set<Addr>, live: Live)
    requires TagEnv(env) && d.target == "Tag"
    ensures HeapOk(env, ONE_TAG)
    ensures var w := SavePtr(env, ONE_TAG, tag, d, To(7), done, live);
            && w.Walk? && w.done == done + {7}
            && (7 !in done ==> w.live == Met(live, 7, d) && w.safe)
            && (7 in done ==> w.live == live && w.safe == (7 in live && live[7] == d))
  {
    if 7 !in done {
      assert SaveFields(env, ONE_TAG, [], [], 0, done + {7}, Met(live, 7, d))
          == Walk([], done + {7}, Met(live, 7, d), true);
    } else {
      assert done + {7} == done;
    }
  }

  lemma TwoTagsWalk(env: Env, f: FieldShape, es: seq<(Token, Ptr)>)
    requires TagEnv(env) && f.MapF? && f.ptr.target == "Tag" && |es| == 2 && es[0].1 == es[1].1 == To(7)
    requires ValueOk(ONE_TAG, f, Entries(es))
    ensures HeapOk(env, ONE_TAG) && FieldsOk(ONE_TAG, [f], [Entries(es)])
    ensures var w := Save(env, ONE_TAG, [f], [Entries(es)]); w.Walk? && !w.safe
  {
    var d := f.ptr;
    TagWalk(env, "Second", d, {}, map[]);
    var w1 := SaveEntry(env, ONE_TAG, d, es[0], {}, map[]);
    TagWalk(env, "Second", d, w1.done, w1.live);
    var w2 := SaveEntry(env, ONE_TAG, d, es[1], w1.done, w1.live);
    assert w2.Walk? && !w2.safe;
    var v := SaveEntries(env, ONE_TAG, d, es, 1, w1.done, w1.live);
    assert v.Walk? && !v.safe by {
      assert SaveEntries(env, ONE_TAG, d, es, 2, w2.done, w2.live) == Walk([], w2.done, w2.live, true);
    }
    var w := SaveField(env, ONE_TAG, f, Entries(es), {}, map[]);
    assert w.Walk? && !w.safe;
    assert SaveFields(env, ONE_TAG, [f], [Entries(es)], 1, w.done, w.live) == Walk([], w.done, w.live, true);
  }

  /** One object in two entries of a map cannot be loaded back. */
  lemma SharedEntryIsLost(env: Env, tail: string)
    requires TagEnv(env) && CodeOk(env)
    ensures var sh := [MapF("m", Number(4), PtrType(Shared, "Tag"))];
            var vs := [Entries([(Num(4, 1), To(7)), (Num(4, 2), To(7))])];
            && Ready(env, ONE_TAG) && FieldsOk(ONE_TAG, sh, vs) && Save(env, ONE_TAG, sh, vs).Walk?
            && var toks := Save(env, ONE_TAG, sh, vs).out;
               var r := LoadInto(env, sh, Wire(env, toks, tail), NewValue(sh));
               !Faithful(r, toks) && (AllReadable(env, toks) ==> r.Error?)
  {
    var sh := [MapF("m", Number(4), PtrType(Shared, "Tag"))];
    var vs := [Entries([(Num(4, 1), To(7)), (Num(4, 2), To(7))])];
    TwoTagsWalk(env, sh[0], vs[0].es);
    NewReceives(env, ONE_TAG, sh, vs);
    var _ := SaveThenLoad(env, ONE_TAG, sh, vs, NewValue(sh), tail);
  }

  /** Nor can an object that is held by a raw pointer and by a shared one. */
  lemma MixedPointersAreLost(env: Env, tail: string)
    requires TagEnv(env) && CodeOk(env)
    ensures var sh := [RefF("raw", PtrType(Raw, "Tag")), RefF("shared", PtrType(Shared, "Tag"))];
            var vs := [Ref(To(7)), Ref(To(7))];
            && Ready(env, ONE_TAG) && FieldsOk(ONE_TAG, sh, vs) && Save(env, ONE_TAG, sh, vs).Walk?
            && var toks := Save(env, ONE_TAG, sh, vs).out;
               var r := LoadInto(env, sh, Wire(env, toks, tail), NewValue(sh));
               !Faithful(r, toks) && (AllReadable(env, toks) ==> r.Error?)
  {
    var sh := [RefF("raw", PtrType(Raw, "Tag")), RefF("shared", PtrType(Shared, "Tag"))];
    var vs := [Ref(To(7)), Ref(To(7))];
    TagWalk(env, "raw", PtrType(Raw, "Tag"), {}, map[]);
    var w1 := SaveField(env, ONE_TAG, sh[0], vs[0], {}, map[]);
    TagWalk(env, "shared", PtrType(Shared, "Tag"), w1.done, w1.live);
    var w2 := SaveField(env, ONE_TAG, sh[1], vs[1], w1.done, w1.live);
    assert w2.Walk? && !w2.safe;
    assert SaveFields(env, ONE_TAG, sh, vs, 2, w2.done, w2.live) == Walk([], w2.done, w2.live, true);
    var v := SaveFields(env, ONE_TAG, sh, vs, 1, w1.done, w1.live);
    assert v.Walk? && !v.safe;
    NewReceives(env, ONE_TAG, sh, vs);
    var _ := SaveThenLoad(env, ONE_TAG, sh, vs, NewValue(sh), tail);
  }

  lemma TextSaved(env: Env, tag: string, t: string)
    requires !env.Tags()
    ensures Save(env, map[], [ScalarF(tag, Text)], [Scalar(Str(t))]) == Walk([Str(t)], {}, map[], true)
  {
    var sh, vs := [ScalarF(tag, Text)], [Scalar(Str(t))];
    assert SaveFields(env, map[], sh, vs, 1, {}, map[]) == Walk([], {}, map[], true);
    assert [] + [Str(t)] + [] == [Str(t)];
    assert SaveField(env, map[], sh[0], vs[0], {}, map[]) == Walk([] + [Str(t)], {}, map[], true);
  }

  lemma TextLoaded(env: Env, tag: string, s: Stream, t: Token, rest: Stream)
    requires !env.Tags() && Next(env, WantStr, s) == Some((t, rest))
    ensures LoadInto(env, [ScalarF(tag, Text)], s, NewValue([ScalarF(tag, Text)]))
            == Loaded(rest, [Obj("", [Scalar(t)])], map[])
  {
    var sh := [ScalarF(tag, Text)];
    assert Defaults(sh) == [DefaultValue(sh[0])];
    var mem := NewValue(sh);
    var mem1 := mem[0 := PutField(mem[0], 0, Scalar(t))];
    assert LoadField(env, sh[0], 0, 0, s, mem, map[]) == Loaded(rest, mem1, map[]);
    assert LoadFields(env, sh, 0, 1, rest, mem1, map[]) == Loaded(rest, mem1, map[]);
    assert mem1[0].fields == [Scalar(t)];
    assert mem1 == [mem1[0]];
  }

  /** In the text mode without trace tags a string with a quote comes back cut off. */
  lemma QuotedStringIsLost(env: Env, tail: string)
    requires env.mode.Ascii?
    ensures var sh := [ScalarF("s", Text)];
            var vs := [Scalar(Str("a\"b"))];
            && FieldsOk(map[], sh, vs) && HeapOk(env, map[])
            && var w := Save(env, map[], sh, vs);
               var r := LoadInto(env, sh, Wire(env, w.out, tail), NewValue(sh));
               w.Walk? && w.safe && r.Loaded? && r.mem == [Obj("", [Scalar(Str("a"))])]
  {
    TextSaved(env, "s", "a\"b");
    var s := Wire(env, [Str("a\"b")], tail);
    assert s.chars == "" + ['"'] + "a" + ['"'] + ("b\"\n" + tail) by {
      assert [Str("a\"b")][1..] == [];
      assert WrittenAll(env, [Str("a\"b")]) == ['"'] + "a\"b" + ['"', '\n'] + "";
    }
    QuotedBack("", "a", "b\"\n" + tail);
    assert s.seen + [Str("a")] == [Str("a")];
    TextLoaded(env, "s", s, Str("a"), Stream("b\"\n" + tail, [Str("a")]));
  }

  /** A pointer that was saved as null does not reset a pointer of the receiver. */
  lemma NullLeavesPointee(env: Env, tag: string, d: PtrType, c: Slot, s: Stream, rest: Stream, mem: Memory,
                          table: Table)
    requires After(env, s, [Kind(0)]) == Some(rest) && ReadCell(mem, c).Some?
    ensures LoadPtr(env, tag, d, c, s, mem, table) == Loaded(rest, mem, table)
  {
    OneRead(env, Kind(0), s, rest);
  }
}
