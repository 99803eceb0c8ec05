/** What the serializer puts on its stream for single values, pointers, containers and objects, word for word. */
module Records {
  import opened ObjectGraph
  import opened ByteCoding
  import opened StreamFormat
  import opened SaveWalk
  import opened LoadWalk
  import opened InfoLookup
  import opened InfoGraph
  import opened MeshGraph

  // Trace tags

  /** Two of the four modes write a tag before every value. */
  lemma TagsExactly(env: Env, tag: string)
    ensures Trace(env, tag) ==
      match env.mode
      case NoTrace => []
      case TraceError => [Str(tag)]
      case TraceAll => [Str(tag)]
      case Ascii => []
  {
  }

  /** These read a tag, and anything but the expected one is an error; the others read nothing. */
  lemma TagsReadExactly(env: Env, tag: string, s: Stream)
    ensures env.mode in {TraceError, TraceAll} ==>
      forall s1 :: ReadTrace(env, tag, s) == Some(s1) <==> Next(env, WantStr, s) == Some((Str(tag), s1))
    ensures env.mode in {NoTrace, Ascii} ==> ReadTrace(env, tag, s) == Some(s)
  {
  }

  /** So a stream that was written with another tag is refused. */
  lemma OtherTagRefused(env: Env, tag: string, other: string, rest: string, seen: seq<Token>)
    requires CodeOk(env) && env.mode in {TraceError, TraceAll} && '"' !in other
    ensures ReadTrace(env, tag, Stream(StreamFormat.Written(env, Str(other)) + rest, seen)).Some? <==> other == tag
  {
    NextWritten(env, Str(other), "", rest, seen);
    assert "" + StreamFormat.Written(env, Str(other)) + rest == StreamFormat.Written(env, Str(other)) + rest;
  }

  // Characters

  lemma WhiteSpace(c: char)
    ensures Space(c) <==> c as int in {9, 10, 11, 12, 13, 32}
  {
  }

  /** A string: its length in eight bytes, or quotes around it and a new line. */
  lemma StringChars(env: Env, s: string)
    requires |s| < Power(8)
    ensures var w := StreamFormat.Written(env, Str(s));
            if env.mode.NoTrace? then |w| == 8 + |s| && Decode(Bytes(w[..8])) == |s| && w[8..] == s
            else w == "\"" + s + "\"\n"
  {
    if env.mode.NoTrace? {
      CountRead(|s|, s);
    }
  }

  /** Anything else: as many bytes as its type has, or a word and a new line. */
  lemma ValueChars(env: Env, t: Token)
    requires CodeOk(env) && !t.Str?
    ensures var w := StreamFormat.Written(env, t);
            if env.mode.NoTrace? then
              |w| == match t
                     case Kind(_) => 4
                     case Address(_) => 8
                     case Num(width, _) => width
            else |w| >= 2 && w[|w| - 1] == '\n' && forall k :: 0 <= k < |w| - 1 ==> !Space(w[k])
  {
  }

  /** A stream that ends too early is an error: in binary mode for every value, in the text modes for a string. */
  lemma CutOffRefused(env: Env, t: Token, k: nat, seen: seq<Token>)
    requires CodeOk(env) && k < |StreamFormat.Written(env, t)| && (t.Str? ==> |t.s| < Power(8))
    requires env.mode.NoTrace? || (t.Str? && '"' !in t.s && k < |t.s| + 2)
    ensures Next(env, WantOf(t), Stream(StreamFormat.Written(env, t)[..k], seen)).None?
  {
    if t.Str? {
      if env.mode.NoTrace? {
        CountCutOff(t.s, k);
      } else {
        QuoteCutOff(t.s, k);
      }
    }
  }

  lemma CountCutOff(s: string, k: nat)
    requires |s| < Power(8) && k < 8 + |s|
    ensures ReadCounted((Chars(Encode(|s|, 8)) + s)[..k]).None?
  {
    var w := Chars(Encode(|s|, 8)) + s;
    CountRead(|s|, s);
    if k >= 8 {
      assert w[..k][..8] == w[..8];
    }
  }

  lemma QuoteCutOff(s: string, k: nat)
    requires '"' !in s && k < |s| + 2
    ensures ReadQuoted((['"'] + s + ['"', '\n'])[..k]).None?
  {
    var w := (['"'] + s + ['"', '\n'])[..k];
    if k > 0 {
      QuoteAt(w, 0);
      var t := w[1..];
      assert t == s[..k - 1];
      assert FindQuote(t) == |t|;
    }
  }

  // Pointers

  /** A null pointer, a pointee that is on the stream already, and one that comes now. */
  lemma PointerWritten(env: Env, h: Heap, tag: string, d: PtrType, a: Addr, done: set<Addr>, live: Live)
    requires HeapOk(env, h) && a in h && h[a].ty in env.names
    ensures SavePtr(env, h, tag, d, Null, done, live).out == [Kind(0)]
    ensures var kind := if h[a].ty == d.target then Kind(1) else Kind(2);
            var w := SavePtr(env, h, tag, d, To(a), done, live);
            if a in done then w.Walk? && w.out == [kind, Address(a)]
            else
              var body := SaveFields(env, h, env.Shape(h[a].ty), h[a].fields, 0, done + {a}, Met(live, a, d));
              body.Walk? ==>
                w.Walk? && w.out == [kind, Address(a)]
                                    + (if h[a].ty == d.target then [] else [Str(env.names[h[a].ty])])
                                    + Trace(env, tag) + body.out
  {
  }

  /** What a reader does with a kind: the static type, the type registered under the name that follows, or an error. */
  lemma KindRead(env: Env, k: nat, target: TypeId, s: Stream)
    ensures k == 1 ==> ReadType(env, k, target, s) == Some((target, s))
    ensures k == 2 ==>
      match Next(env, WantStr, s)
      case None => ReadType(env, k, target, s).None?
      case Some((t, s1)) =>
        ReadType(env, k, target, s) == if t.s in env.prototypes then Some((env.prototypes[t.s], s1)) else None
    ensures k !in {1, 2} ==> ReadType(env, k, target, s).None?
  {
  }

  // Containers

  /** A vector of pointers: its length, and one pointer after the other. */
  lemma RefsWritten(env: Env, h: Heap, tag: string, d: PtrType, ps: seq<Ptr>, done: set<Addr>, live: Live)
    requires HeapOk(env, h) && ValueOk(h, RefsF(tag, d), Refs(ps))
    ensures var w := SaveField(env, h, RefsF(tag, d), Refs(ps), done, live);
            w.Walk? ==>
              var refs := SaveRefs(env, h, d, ps, 0, done, live);
              refs.Walk? && w.out == Trace(env, tag) + Trace(env, "size") + [Num(8, |ps|)] + refs.out
  {
  }

  lemma RefWritten(env: Env, h: Heap, d: PtrType, ps: seq<Ptr>, j: nat, done: set<Addr>, live: Live)
    requires HeapOk(env, h) && j < |ps| && forall k :: 0 <= k < |ps| ==> PtrOk(h, ps[k])
    ensures var w := SaveRefs(env, h, d, ps, j, done, live);
            var w1 := SavePtr(env, h, "E", d, ps[j], done, live);
            w.Walk? ==>
              w1.Walk? && SaveRefs(env, h, d, ps, j + 1, w1.done, w1.live).Walk?
              && w.out == w1.out + SaveRefs(env, h, d, ps, j + 1, w1.done, w1.live).out
    ensures SaveRefs(env, h, d, ps, |ps|, done, live) == Walk([], done, live, true)
  {
  }

  /** A map: its length, and one pair after the other, each with its key before its pointer. */
  lemma EntriesWritten(env: Env, h: Heap, tag: string, key: ScalarType, d: PtrType, es: seq<(Token, Ptr)>,
                       done: set<Addr>, live: Live)
    requires HeapOk(env, h) && ValueOk(h, MapF(tag, key, d), Entries(es))
    ensures var w := SaveField(env, h, MapF(tag, key, d), Entries(es), done, live);
            var w1 := SaveEntries(env, h, d, es, 0, done, live);
            w.Walk? ==> w1.Walk? && w.out == Trace(env, tag) + Trace(env, "size") + [Num(8, |es|)] + w1.out
  {
  }

  lemma EntryWritten(env: Env, h: Heap, d: PtrType, es: seq<(Token, Ptr)>, j: nat, done: set<Addr>, live: Live)
    requires HeapOk(env, h) && j < |es| && forall k :: 0 <= k < |es| ==> PtrOk(h, es[k].1)
    ensures var w := SaveEntries(env, h, d, es, j, done, live);
            var w1 := SaveEntry(env, h, d, es[j], done, live);
            var p := SavePtr(env, h, "Second", d, es[j].1, done, live);
            w.Walk? ==>
              && w1.Walk? && p.Walk? && SaveEntries(env, h, d, es, j + 1, w1.done, w1.live).Walk?
              && w1.out == Trace(env, "E") + Trace(env, "First") + [es[j].0] + p.out
              && w.out == w1.out + SaveEntries(env, h, d, es, j + 1, w1.done, w1.live).out
    ensures SaveEntries(env, h, d, es, |es|, done, live) == Walk([], done, live, true)
  {
  }

  /** A new key goes to the end of a map; the value of a key that is there already stays. */
  lemma InsertKeeps(es: seq<(Token, Ptr)>, e: (Token, Ptr))
    ensures (exists k :: 0 <= k < |es| && es[k].0 == e.0) ==> Insert(es, e) == es
    ensures (forall k :: 0 <= k < |es| ==> es[k].0 != e.0) ==> Insert(es, e) == es + [e]
  {
  }

  /** The string of a default constructed object is empty, its pointers are null and its containers have no elements. */
  lemma DefaultsAreEmpty(tag: string, key: ScalarType, d: PtrType)
    ensures DefaultValue(ScalarF(tag, Text)) == Scalar(Str("")) && DefaultValue(RefF(tag, d)) == Ref(Null)
    ensures DefaultValue(RefsF(tag, d)) == Refs([]) && DefaultValue(MapF(tag, key, d)) == Entries([])
  {
  }

  lemma ResizeKeeps(ps: seq<Ptr>, size: nat, k: nat)
    requires k < size
    ensures LoadWalk.Resize(ps, size)[k] == if k < |ps| then ps[k] else Null
  {
  }

  // Values of an Info

  /** A value of an Info that holds no Info, met for the first time under some key. */
  lemma InfoValueWritten(env: Env, h: Heap, a: Addr, done: set<Addr>, live: Live)
    requires InfoEnv(env) && HeapOk(env, h) && a in h && a !in done && h[a].ty != INFO
    ensures |h[a].fields| == 2 && h[a].fields[1].Scalar?
    ensures var w := SavePtr(env, h, "Second", VALUE, To(a), done, live);
            w.Walk? && w.out == [Kind(2), Address(a), Str(env.names[h[a].ty])] + Trace(env, "Second")
                                + (Trace(env, "BaseClass") + Trace(env, "mData") + [h[a].fields[1].t])
  {
    InfoBody(env, h, a, done + {a}, Met(live, a, VALUE));
    assert BASE !in INFO_CLASSES;
    PointerWritten(env, h, "Second", VALUE, a, done, live);
  }

  lemma InfoBody(env: Env, h: Heap, a: Addr, done: set<Addr>, live: Live)
    requires InfoEnv(env) && HeapOk(env, h) && a in h && h[a].ty != INFO
    ensures |h[a].fields| == 2 && h[a].fields[1].Scalar?
    ensures SaveFields(env, h, env.Shape(h[a].ty), h[a].fields, 0, done, live)
         == Walk(Trace(env, "BaseClass") + Trace(env, "mData") + [h[a].fields[1].t], done, live, true)
  {
    var sh, vs := env.Shape(h[a].ty), h[a].fields;
    assert |sh| == 2 && ValueOk(h, sh[0], vs[0]) && ValueOk(h, sh[1], vs[1]);
    TwoFields(env, h, sh, vs, done, live);
  }

  lemma TwoFields(env: Env, h: Heap, sh: seq<FieldShape>, vs: seq<Value>, done: set<Addr>, live: Live)
    requires HeapOk(env, h) && FieldsOk(h, sh, vs) && |sh| == 2 && sh[0].MarkF? && sh[1].ScalarF?
    ensures vs[1].Scalar? && SaveFields(env, h, sh, vs, 0, done, live)
         == Walk(Trace(env, sh[0].tag) + Trace(env, sh[1].tag) + [vs[1].t], done, live, true)
  {
    assert ValueOk(h, sh[0], vs[0]) && ValueOk(h, sh[1], vs[1]);
    assert SaveFields(env, h, sh, vs, 2, done, live) == Walk([], done, live, true);
    assert SaveFields(env, h, sh, vs, 1, done, live) == Walk(Trace(env, sh[1].tag) + [vs[1].t], done, live, true);
  }

  /** The types of these values, by the name under which they are registered. */
  lemma InfoValueTypes(env: Env, h: Heap, a: Addr)
    requires InfoEnv(env) && HeapOk(env, h) && a in h && h[a].ty != INFO
    ensures |h[a].fields| == 2 && h[a].fields[1].Scalar?
    ensures match h[a].fields[1].t
            case Num(width, _) =>
              || (h[a].ty == "InfoData<int>" && width == 4) || (h[a].ty == "InfoData<bool>" && width == 1)
              || (h[a].ty in {"InfoData<size_t>", "InfoData<double>"} && width == 8)
            case Str(_) => h[a].ty == "InfoData<string>"
            case _ => false
  {
    var sh, vs := env.Shape(h[a].ty), h[a].fields;
    assert |sh| == 2 && ValueOk(h, sh[0], vs[0]) && ValueOk(h, sh[1], vs[1]);
  }

  // Objects of a mesh

  /** The tokens of field `i` in front of those of the fields after it. */
  lemma FieldThen(env: Env, h: Heap, sh: seq<FieldShape>, vs: seq<Value>, i: nat, done: set<Addr>, live: Live)
    requires HeapOk(env, h) && FieldsOk(h, sh, vs) && i < |sh|
    ensures var w := SaveField(env, h, sh[i], vs[i], done, live);
            var all := SaveFields(env, h, sh, vs, i, done, live);
            all.Walk? ==>
              && w.Walk? && SaveFields(env, h, sh, vs, i + 1, w.done, w.live).Walk?
              && all.out == w.out + SaveFields(env, h, sh, vs, i + 1, w.done, w.live).out
  {
  }

  lemma ScalarThen(env: Env, h: Heap, sh: seq<FieldShape>, vs: seq<Value>, i: nat, done: set<Addr>, live: Live)
    requires HeapOk(env, h) && FieldsOk(h, sh, vs) && i < |sh| && sh[i].ScalarF?
    ensures vs[i].Scalar?
    ensures var all, rest := SaveFields(env, h, sh, vs, i, done, live), SaveFields(env, h, sh, vs, i + 1, done, live);
            all.Walk? ==> rest.Walk? && all.out == Trace(env, sh[i].tag) + [vs[i].t] + rest.out
  {
    assert ValueOk(h, sh[i], vs[i]);
  }

  lemma MarkThen(env: Env, h: Heap, sh: seq<FieldShape>, vs: seq<Value>, i: nat, done: set<Addr>, live: Live)
    requires HeapOk(env, h) && FieldsOk(h, sh, vs) && i < |sh| && sh[i].MarkF?
    ensures var all, rest := SaveFields(env, h, sh, vs, i, done, live), SaveFields(env, h, sh, vs, i + 1, done, live);
            all.Walk? ==> rest.Walk? && all.out == Trace(env, sh[i].tag) + rest.out
  {
    assert ValueOk(h, sh[i], vs[i]);
  }

  /** An Info as a value: its entries behind two tags. */
  lemma NestedInfoWritten(env: Env, h: Heap, a: Addr, done: set<Addr>, live: Live)
    requires InfoEnv(env) && HeapOk(env, h) && a in h && h[a].ty == INFO
    ensures |h[a].fields| == 3 && ValueOk(h, MapF("mOptions", Text, PtrType(Shared, "InfoDataBase")), h[a].fields[2])
    ensures var w := SaveFields(env, h, env.Shape(INFO), h[a].fields, 0, done, live);
            var entries := SaveField(env, h, MapF("mOptions", Text, PtrType(Shared, "InfoDataBase")), h[a].fields[2],
                                     done, live);
            w.Walk? ==> entries.Walk? && w.out == Trace(env, "BaseClass") + (Trace(env, "mData") + (entries.out + []))
  {
    var sh, vs := env.Shape(INFO), h[a].fields;
    assert |sh| == 3 && ValueOk(h, sh[2], vs[2]);
    MarkThen(env, h, sh, vs, 0, done, live);
    MarkThen(env, h, sh, vs, 1, done, live);
    FieldThen(env, h, sh, vs, 2, done, live);
  }

  /** A node: its id and its coordinates. */
  lemma NodeWritten(env: Env, h: Heap, vs: seq<Value>, done: set<Addr>, live: Live)
    requires HeapOk(env, h) && FieldsOk(h, NODE_SHAPE, vs)
    ensures |vs| == 4 && forall i :: 0 <= i < 4 ==> vs[i].Scalar?
    ensures var w := SaveFields(env, h, NODE_SHAPE, vs, 0, done, live);
            w.Walk? ==>
              w.out == Trace(env, "mId") + [vs[0].t] + (Trace(env, "mX") + [vs[1].t] + (Trace(env, "mY") + [vs[2].t]
                       + (Trace(env, "mZ") + [vs[3].t] + [])))
  {
    ScalarThen(env, h, NODE_SHAPE, vs, 0, done, live);
    ScalarThen(env, h, NODE_SHAPE, vs, 1, done, live);
    ScalarThen(env, h, NODE_SHAPE, vs, 2, done, live);
    ScalarThen(env, h, NODE_SHAPE, vs, 3, done, live);
    assert SaveFields(env, h, NODE_SHAPE, vs, 4, done, live) == Walk([], done, live, true);
  }

  /** An element: its id, its type and its nodes. */
  lemma ElementWritten(env: Env, h: Heap, vs: seq<Value>, done: set<Addr>, live: Live)
    requires HeapOk(env, h) && FieldsOk(h, ELEMENT_SHAPE, vs)
    ensures |vs| == 3 && vs[0].Scalar? && vs[1].Scalar? && vs[2].Refs? && ValueOk(h, RefsF("mNodes", NODE_PTR), vs[2])
    ensures var w := SaveFields(env, h, ELEMENT_SHAPE, vs, 0, done, live);
            var nodes := SaveField(env, h, RefsF("mNodes", NODE_PTR), vs[2], done, live);
            w.Walk? ==>
              nodes.Walk?
              && w.out == Trace(env, "mId") + [vs[0].t] + (Trace(env, "mType") + [vs[1].t] + (nodes.out + []))
  {
    assert ValueOk(h, ELEMENT_SHAPE[2], vs[2]);
    ScalarThen(env, h, ELEMENT_SHAPE, vs, 0, done, live);
    ScalarThen(env, h, ELEMENT_SHAPE, vs, 1, done, live);
    FieldThen(env, h, ELEMENT_SHAPE, vs, 2, done, live);
  }

  /** The fields of a ModelPart with the tags of its `save`: each the fields after the tokens of the one before. */
  lemma PartListsWritten(env: Env, h: Heap, vs: seq<Value>, done: set<Addr>, live: Live)
    requires HeapOk(env, h) && PartOk(h, vs)
    ensures vs[0].Scalar?
    ensures ValueOk(h, RefsF("mData", NODE_PTR), vs[2]) && ValueOk(h, RefsF("mData", ELEMENT_PTR), vs[4])
    ensures var w := SaveFields(env, h, PART_SHAPE, vs, 0, done, live);
            w.Walk? ==>
              var nodes := SaveField(env, h, RefsF("mData", NODE_PTR), vs[2], done, live);
              nodes.Walk? &&
              var elements := SaveField(env, h, RefsF("mData", ELEMENT_PTR), vs[4], nodes.done, nodes.live);
              elements.Walk? &&
              var rest := SaveFields(env, h, PART_SHAPE, vs, 5, elements.done, elements.live);
              rest.Walk?
              && w.out == Trace(env, "mName") + [vs[0].t] + (Trace(env, "mNodes") + (nodes.out
                          + (Trace(env, "mElements") + (elements.out + rest.out))))
  {
    assert ValueOk(h, PART_SHAPE[2], vs[2]) && ValueOk(h, PART_SHAPE[4], vs[4]);
    ScalarThen(env, h, PART_SHAPE, vs, 0, done, live);
    MarkThen(env, h, PART_SHAPE, vs, 1, done, live);
    FieldThen(env, h, PART_SHAPE, vs, 2, done, live);
    var nodes := SaveField(env, h, PART_SHAPE[2], vs[2], done, live);
    if nodes.Walk? {
      MarkThen(env, h, PART_SHAPE, vs, 3, nodes.done, nodes.live);
      FieldThen(env, h, PART_SHAPE, vs, 4, nodes.done, nodes.live);
    }
  }

  lemma SubPartsWritten(env: Env, h: Heap, vs: seq<Value>, done: set<Addr>, live: Live)
    requires HeapOk(env, h) && PartOk(h, vs)
    ensures vs[5].Ref? && PtrOk(h, vs[5].p) && vs[6].Ref? && PtrOk(h, vs[6].p)
    ensures ValueOk(h, MapF("mPartitionModelParts", Number(4), PART_PTR), vs[7])
    ensures var w := SaveFields(env, h, PART_SHAPE, vs, 5, done, live);
            w.Walk? ==>
              var local := SavePtr(env, h, "mpLocalModelPart", PART_PTR, vs[5].p, done, live);
              local.Walk? &&
              var ghosts := SavePtr(env, h, "mpGhostModelPart", PART_PTR, vs[6].p, local.done, local.live);
              ghosts.Walk? &&
              var parts := SaveField(env, h, MapF("mPartitionModelParts", Number(4), PART_PTR), vs[7], ghosts.done,
                                     ghosts.live);
              parts.Walk? && w.out == local.out + (ghosts.out + (parts.out + []))
  {
    assert ValueOk(h, PART_SHAPE[5], vs[5]) && ValueOk(h, PART_SHAPE[6], vs[6]) && ValueOk(h, PART_SHAPE[7], vs[7]);
    FieldThen(env, h, PART_SHAPE, vs, 5, done, live);
    var local := SavePtr(env, h, "mpLocalModelPart", PART_PTR, vs[5].p, done, live);
    if local.Walk? {
      FieldThen(env, h, PART_SHAPE, vs, 6, local.done, local.live);
      var ghosts := SavePtr(env, h, "mpGhostModelPart", PART_PTR, vs[6].p, local.done, local.live);
      if ghosts.Walk? {
        FieldThen(env, h, PART_SHAPE, vs, 7, ghosts.done, ghosts.live);
      }
    }
  }
}
