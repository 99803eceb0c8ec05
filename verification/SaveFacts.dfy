/** What a saved stream contains: every reachable pointee, and each of them once. */
module SaveFacts {
  import opened ObjectGraph
  import opened SaveWalk

  /** `S` holds every pointee of the fields and of its own members. */
  ghost predicate ClosedUnder(h: Heap, S: set<Addr>) {
    forall a, i :: a in S && a in h && 0 <= i < |h[a].fields| ==> Targets(h[a].fields[i]) <= S
  }

  // Each body is written once

  /**
   * Where a token comes from: it is a tag or a name, or belongs to an owner, as the address that
   * opens a body or not.
   */
  datatype Mark = Label | Part(owner: Owner, opens: bool)

  predicate Belongs(t: Token, m: Mark, o: Owner) {
    m.Part? && (m.owner == o || (m.opens && o.At? && t == Address(o.a)))
  }

  /** The tokens that belong to one owner, and the address that opens its body. */
  function Share(toks: seq<Token>, marks: seq<Mark>, o: Owner): seq<Token>
    requires |marks| == |toks|
  {
    if toks == [] then []
    else (if Belongs(toks[0], marks[0], o) then [toks[0]] else []) + Share(toks[1..], marks[1..], o)
  }

  lemma {:induction false} ShareConcat(s: seq<Token>, ms: seq<Mark>, t: seq<Token>, mt: seq<Mark>, o: Owner)
    requires |ms| == |s| && |mt| == |t|
    ensures Share(s + t, ms + mt, o) == Share(s, ms, o) + Share(t, mt, o)
  {
    if s == [] {
      assert s + t == t && ms + mt == mt;
    } else {
      ShareConcat(s[1..], ms[1..], t, mt, o);
      ShareCons(s[0], ms[0], s[1..], ms[1..], o);
      ShareCons(s[0], ms[0], s[1..] + t, ms[1..] + mt, o);
      assert [s[0]] + s[1..] == s && [ms[0]] + ms[1..] == ms;
      assert [s[0]] + (s[1..] + t) == s + t && [ms[0]] + (ms[1..] + mt) == ms + mt;
    }
  }

  lemma ShareCons(t: Token, m: Mark, toks: seq<Token>, marks: seq<Mark>, o: Owner)
    requires |marks| == |toks|
    ensures Share([t] + toks, [m] + marks, o) == (if Belongs(t, m, o) then [t] else []) + Share(toks, marks, o)
  {
    assert ([t] + toks)[1..] == toks && ([m] + marks)[1..] == marks;
  }

  /** All that is written for one pointer, apart from the body of its pointee. */
  function PtrTokens(h: Heap, d: PtrType, p: Ptr): seq<Token>
    requires PtrOk(h, p)
  {
    if p.Null? then [Kind(0)] else PtrKnown(d.target, h[p.a].ty, p.a)
  }

  function RefsTokens(h: Heap, d: PtrType, ps: seq<Ptr>, j: nat): seq<Token>
    requires j <= |ps| && forall k :: 0 <= k < |ps| ==> PtrOk(h, ps[k])
    decreases |ps| - j
  {
    if j == |ps| then [] else PtrTokens(h, d, ps[j]) + RefsTokens(h, d, ps, j + 1)
  }

  function EntriesTokens(h: Heap, d: PtrType, es: seq<(Token, Ptr)>, j: nat): seq<Token>
    requires j <= |es| && forall k :: 0 <= k < |es| ==> PtrOk(h, es[k].1)
    decreases |es| - j
  {
    if j == |es| then [] else [es[j].0] + PtrTokens(h, d, es[j].1) + EntriesTokens(h, d, es, j + 1)
  }

  function FieldTokens(h: Heap, f: FieldShape, v: Value): seq<Token>
    requires ValueOk(h, f, v)
  {
    match f
    case MarkF(_) => []
    case ScalarF(_, _) => [v.t]
    case RefF(_, d) => PtrTokens(h, d, v.p)
    case RefsF(_, d) => [Num(8, |v.ps|)] + RefsTokens(h, d, v.ps, 0)
    case MapF(_, _, d) => [Num(8, |v.es|)] + EntriesTokens(h, d, v.es, 0)
  }

  /** The fields of one object from index `i` on, without tags and names and without the bodies of its pointees. */
  function FieldsTokens(h: Heap, sh: seq<FieldShape>, vs: seq<Value>, i: nat): seq<Token>
    requires FieldsOk(h, sh, vs) && i <= |sh|
    decreases |sh| - i
  {
    if i == |sh| then [] else FieldTokens(h, sh[i], vs[i]) + FieldsTokens(h, sh, vs, i + 1)
  }

  /** The body of an object, after the address that opens it. */
  function BodyTokens(env: Env, h: Heap, a: Addr): seq<Token>
    requires HeapOk(env, h) && a in h
  {
    [Address(a)] + FieldsTokens(h, env.Shape(h[a].ty), h[a].fields, 0)
  }

  /** What a walk over the data `own` of `me`, which meets the objects from `done` to `done1`, writes for owner `o`. */
  function Due(env: Env, h: Heap, done: set<Addr>, done1: set<Addr>, me: Owner, own: seq<Token>, o: Owner): seq<Token>
    requires HeapOk(env, h) && done1 <= h.Keys
  {
    if o == me then own
    else if o.At? && o.a in done1 && o.a !in done then BodyTokens(env, h, o.a)
    else []
  }

  /** A registered name, or a trace tag in a mode that writes them. */
  predicate NameOrTag(env: Env, t: Token) {
    t.Str? && (env.Tags() || exists ty :: ty in env.names && env.names[ty] == t.s)
  }

  predicate LabelsOk(env: Env, toks: seq<Token>, marks: seq<Mark>) {
    |marks| == |toks| && forall k :: 0 <= k < |toks| && marks[k].Label? ==> NameOrTag(env, toks[k])
  }

  /** The tokens are those due, shared out by `marks`. */
  ghost predicate Shared(env: Env, h: Heap, done: set<Addr>, done1: set<Addr>, me: Owner, own: seq<Token>,
                         toks: seq<Token>, marks: seq<Mark>) {
    && HeapOk(env, h) && done <= done1 <= h.Keys && LabelsOk(env, toks, marks)
    && forall o :: Share(toks, marks, o) == Due(env, h, done, done1, me, own, o)
  }

  predicate Inside(me: Owner, done: set<Addr>) {
    me.At? ==> me.a in done
  }

  lemma SharedThen(env: Env, h: Heap, done: set<Addr>, done1: set<Addr>, done2: set<Addr>, me: Owner,
                   own1: seq<Token>, toks1: seq<Token>, marks1: seq<Mark>,
                   own2: seq<Token>, toks2: seq<Token>, marks2: seq<Mark>)
    requires Inside(me, done)
    requires Shared(env, h, done, done1, me, own1, toks1, marks1)
    requires Shared(env, h, done1, done2, me, own2, toks2, marks2)
    ensures Shared(env, h, done, done2, me, own1 + own2, toks1 + toks2, marks1 + marks2)
  {
    forall o
      ensures Share(toks1 + toks2, marks1 + marks2, o) == Due(env, h, done, done2, me, own1 + own2, o)
    {
      ShareConcat(toks1, marks1, toks2, marks2, o);
      assert Share(toks1, marks1, o) == Due(env, h, done, done1, me, own1, o);
      assert Share(toks2, marks2, o) == Due(env, h, done1, done2, me, own2, o);
      DueThen(env, h, done, done1, done2, me, own1, own2, o);
    }
  }

  lemma DueThen(env: Env, h: Heap, done: set<Addr>, done1: set<Addr>, done2: set<Addr>, me: Owner,
                own1: seq<Token>, own2: seq<Token>, o: Owner)
    requires HeapOk(env, h) && done <= done1 <= done2 <= h.Keys && Inside(me, done)
    ensures Due(env, h, done, done1, me, own1, o) + Due(env, h, done1, done2, me, own2, o)
            == Due(env, h, done, done2, me, own1 + own2, o)
  {
    if o != me && o.At? && o.a in done2 && o.a !in done {
      assert BodyTokens(env, h, o.a) + [] == BodyTokens(env, h, o.a) == [] + BodyTokens(env, h, o.a);
    }
  }

  /** Nothing is written. */
  lemma SharedNone(env: Env, h: Heap, done: set<Addr>, me: Owner)
    requires HeapOk(env, h) && done <= h.Keys
    ensures Shared(env, h, done, done, me, [], [], [])
  {
  }

  /** One token of `me`. */
  lemma SharedOne(env: Env, h: Heap, done: set<Addr>, me: Owner, t: Token)
    requires HeapOk(env, h) && done <= h.Keys
    ensures Shared(env, h, done, done, me, [t], [t], [Part(me, false)])
  {
    forall o
      ensures Share([t], [Part(me, false)], o) == Due(env, h, done, done, me, [t], o)
    {
      assert [t][1..] == [] && [Part(me, false)][1..] == [];
    }
  }

  function Labels(toks: seq<Token>): (marks: seq<Mark>)
    ensures |marks| == |toks|
  {
    if toks == [] then [] else [Label] + Labels(toks[1..])
  }

  /** Tags and names belong to nobody. */
  lemma {:induction false} LabelsBelongToNone(toks: seq<Token>, o: Owner)
    ensures Share(toks, Labels(toks), o) == []
  {
    if toks != [] {
      LabelsBelongToNone(toks[1..], o);
      assert Labels(toks)[1..] == Labels(toks[1..]);
    }
  }

  lemma SharedLabels(env: Env, h: Heap, done: set<Addr>, me: Owner, toks: seq<Token>)
    requires HeapOk(env, h) && done <= h.Keys && forall k :: 0 <= k < |toks| ==> NameOrTag(env, toks[k])
    ensures Shared(env, h, done, done, me, [], toks, Labels(toks))
  {
    forall o
      ensures Share(toks, Labels(toks), o) == Due(env, h, done, done, me, [], o)
    {
      LabelsBelongToNone(toks, o);
    }
  }

  /** Tags, then one token of `me`. */
  lemma SharedTagged(env: Env, h: Heap, done: set<Addr>, me: Owner, tags: seq<Token>, t: Token)
    returns (marks: seq<Mark>)
    requires HeapOk(env, h) && done <= h.Keys && Inside(me, done)
    requires forall k :: 0 <= k < |tags| ==> NameOrTag(env, tags[k])
    ensures Shared(env, h, done, done, me, [t], tags + [t], marks)
  {
    marks := Labels(tags) + [Part(me, false)];
    SharedLabels(env, h, done, me, tags);
    SharedOne(env, h, done, me, t);
    SharedThen(env, h, done, done, done, me, [], tags, Labels(tags), [t], [t], [Part(me, false)]);
    assert [] + [t] == [t];
  }

  lemma SharedKnown(env: Env, h: Heap, done: set<Addr>, me: Owner, d: PtrType, p: Ptr) returns (marks: seq<Mark>)
    requires HeapOk(env, h) && done <= h.Keys && Inside(me, done) && PtrOk(h, p)
    ensures Shared(env, h, done, done, me, PtrTokens(h, d, p), PtrTokens(h, d, p), marks)
  {
    var toks := PtrTokens(h, d, p);
    marks := [Part(me, false)];
    SharedOne(env, h, done, me, toks[0]);
    if p.To? {
      SharedOne(env, h, done, me, toks[1]);
      SharedThen(env, h, done, done, done, me, [toks[0]], [toks[0]], marks, [toks[1]], [toks[1]], marks);
      marks := marks + marks;
      assert [toks[0]] + [toks[1]] == toks;
    }
  }

  /** The address that opens the body of a pointee met for the first time belongs to both. */
  lemma OpeningShare(t: Token, a: Addr, me: Owner, o: Owner)
    requires !t.Address?
    ensures Share([t, Address(a)], [Part(me, false), Part(me, true)], o) ==
            if o == me then [t, Address(a)] else if o == At(a) then [Address(a)] else []
  {
    var toks, marks := [t, Address(a)], [Part(me, false), Part(me, true)];
    assert toks[1..] == [Address(a)] && marks[1..] == [Part(me, true)];
    assert [Address(a)][1..] == [] && [Part(me, true)][1..] == [];
    assert Share([Address(a)], [Part(me, true)], o) == if o == me || o == At(a) then [Address(a)] else [];
  }

  /** The kind and address of a new pointee, tags and a name, and its body. */
  lemma SharedNew(env: Env, h: Heap, done: set<Addr>, done1: set<Addr>, me: Owner, a: Addr, t: Token, tags: seq<Token>,
                  body: seq<Token>, bodyMarks: seq<Mark>) returns (marks: seq<Mark>)
    requires HeapOk(env, h) && a in h && a !in done && Inside(me, done) && !t.Address?
    requires forall k :: 0 <= k < |tags| ==> NameOrTag(env, tags[k])
    requires var own := FieldsTokens(h, env.Shape(h[a].ty), h[a].fields, 0);
             Shared(env, h, done + {a}, done1, At(a), own, body, bodyMarks)
    ensures Shared(env, h, done, done1, me, [t, Address(a)], [t, Address(a)] + tags + body, marks)
  {
    var own := FieldsTokens(h, env.Shape(h[a].ty), h[a].fields, 0);
    var head, headMarks := [t, Address(a)], [Part(me, false), Part(me, true)];
    marks := headMarks + Labels(tags) + bodyMarks;
    SharedLabels(env, h, done + {a}, At(a), tags);
    forall o
      ensures Share(head + tags + body, marks, o) == Due(env, h, done, done1, me, head, o)
    {
      OpeningShare(t, a, me, o);
      LabelsBelongToNone(tags, o);
      assert Share(body, bodyMarks, o) == Due(env, h, done + {a}, done1, At(a), own, o);
      ShareConcat(head, headMarks, tags, Labels(tags), o);
      ShareConcat(head + tags, headMarks + Labels(tags), body, bodyMarks, o);
      NewDue(env, h, done, done1, me, a, head, o);
    }
  }

  lemma NewDue(env: Env, h: Heap, done: set<Addr>, done1: set<Addr>, me: Owner, a: Addr, head: seq<Token>, o: Owner)
    requires HeapOk(env, h) && a in h && a !in done && Inside(me, done) && done + {a} <= done1 <= h.Keys
    ensures var own := FieldsTokens(h, env.Shape(h[a].ty), h[a].fields, 0);
            (if o == me then head else if o == At(a) then [Address(a)] else []) + [] +
            Due(env, h, done + {a}, done1, At(a), own, o) == Due(env, h, done, done1, me, head, o)
  {
    if o == me {
      assert head + [] + [] == head;
    }
  }

  /**
   * `w` continues a walk at `done` within the closed set `S`; its tokens are `own` and the bodies
   * it adds to `done`.
   */
  ghost predicate Accounted(env: Env, h: Heap, S: set<Addr>, done: set<Addr>, w: Walk, me: Owner, own: seq<Token>,
                            marks: seq<Mark>) {
    w.Walk? ==> w.done <= S && Shared(env, h, done, w.done, me, own, w.out, marks)
  }

  ghost predicate Walkable(env: Env, h: Heap, S: set<Addr>, done: set<Addr>, me: Owner) {
    HeapOk(env, h) && ClosedUnder(h, S) && done <= S && done <= h.Keys && Inside(me, done)
  }

  lemma ThenAccounted(env: Env, h: Heap, S: set<Addr>, done: set<Addr>, me: Owner, w1: Walk, own1: seq<Token>,
                      marks1: seq<Mark>, w2: Walk, own2: seq<Token>, marks2: seq<Mark>)
    requires w1.Walk? && Inside(me, done)
    requires Accounted(env, h, S, done, w1, me, own1, marks1) && Accounted(env, h, S, w1.done, w2, me, own2, marks2)
    ensures Accounted(env, h, S, done, w1.Then(w2), me, own1 + own2, marks1 + marks2)
  {
    if w2.Walk? {
      SharedThen(env, h, done, w1.done, w2.done, me, own1, w1.out, marks1, own2, w2.out, marks2);
    }
  }

  lemma {:induction false} PtrFacts(env: Env, h: Heap, S: set<Addr>, me: Owner, tag: string, d: PtrType, p: Ptr,
                                    done: set<Addr>, live: Live) returns (marks: seq<Mark>)
    requires Walkable(env, h, S, done, me) && PtrOk(h, p) && (p.To? ==> p.a in S)
    ensures Accounted(env, h, S, done, SavePtr(env, h, tag, d, p, done, live), me, PtrTokens(h, d, p), marks)
    decreases h.Keys - done, 0, 0
  {
    if p.Null? || p.a in done {
      marks := SharedKnown(env, h, done, me, d, p);
    } else {
      var ty := h[p.a].ty;
      var sh, vs := env.Shape(ty), h[p.a].fields;
      assert forall i :: 0 <= i < |vs| ==> Targets(vs[i]) <= S;
      marks := FieldsFacts(env, h, S, At(p.a), sh, vs, 0, done + {p.a}, Met(live, p.a, d));
      var w := SaveFields(env, h, sh, vs, 0, done + {p.a}, Met(live, p.a, d));
      if w.Walk? && (ty != d.target ==> ty in env.names) {
        var tags := (if ty != d.target then [Str(env.names[ty])] else []) + Trace(env, tag);
        HeadIs(env, tag, d.target, ty, p.a, tags);
        marks := SharedNew(env, h, done, w.done, me, p.a, Kind(if ty == d.target then 1 else 2), tags, w.out, marks);
      }
    }
  }

  lemma HeadIs(env: Env, tag: string, target: TypeId, ty: TypeId, a: Addr, tags: seq<Token>)
    requires ty != target ==> ty in env.names
    requires tags == (if ty != target then [Str(env.names[ty])] else []) + Trace(env, tag)
    ensures PtrHead(env, tag, target, ty, a) == PtrKnown(target, ty, a) + tags
  {
  }

  lemma {:induction false} RefsFacts(env: Env, h: Heap, S: set<Addr>, me: Owner, d: PtrType, ps: seq<Ptr>, j: nat,
                                     done: set<Addr>, live: Live) returns (marks: seq<Mark>)
    requires Walkable(env, h, S, done, me) && j <= |ps|
    requires forall k :: 0 <= k < |ps| ==> PtrOk(h, ps[k]) && (ps[k].To? ==> ps[k].a in S)
    ensures Accounted(env, h, S, done, SaveRefs(env, h, d, ps, j, done, live), me, RefsTokens(h, d, ps, j), marks)
    decreases h.Keys - done, 1, |ps| - j
  {
    marks := [];
    if j == |ps| {
      SharedNone(env, h, done, me);
    } else {
      marks := PtrFacts(env, h, S, me, "E", d, ps[j], done, live);
      var w := SavePtr(env, h, "E", d, ps[j], done, live);
      if w.Walk? {
        var rest := RefsFacts(env, h, S, me, d, ps, j + 1, w.done, w.live);
        ThenAccounted(env, h, S, done, me, w, PtrTokens(h, d, ps[j]), marks,
                      SaveRefs(env, h, d, ps, j + 1, w.done, w.live), RefsTokens(h, d, ps, j + 1), rest);
        marks := marks + rest;
      }
    }
  }

  lemma {:induction false} EntryFacts(env: Env, h: Heap, S: set<Addr>, me: Owner, d: PtrType, e: (Token, Ptr),
                                      done: set<Addr>, live: Live) returns (marks: seq<Mark>)
    requires Walkable(env, h, S, done, me) && PtrOk(h, e.1) && (e.1.To? ==> e.1.a in S)
    ensures Accounted(env, h, S, done, SaveEntry(env, h, d, e, done, live), me, [e.0] + PtrTokens(h, d, e.1), marks)
    decreases h.Keys - done, 1, 0
  {
    var tags := Trace(env, "E") + Trace(env, "First");
    marks := SharedTagged(env, h, done, me, tags, e.0);
    var rest := PtrFacts(env, h, S, me, "Second", d, e.1, done, live);
    var w := SavePtr(env, h, "Second", d, e.1, done, live);
    if w.Walk? {
      SharedThen(env, h, done, done, w.done, me, [e.0], tags + [e.0], marks, PtrTokens(h, d, e.1), w.out, rest);
    }
    marks := marks + rest;
  }

  lemma {:induction false} EntriesFacts(env: Env, h: Heap, S: set<Addr>, me: Owner, d: PtrType, es: seq<(Token, Ptr)>,
                                        j: nat, done: set<Addr>, live: Live) returns (marks: seq<Mark>)
    requires Walkable(env, h, S, done, me) && j <= |es|
    requires forall k :: 0 <= k < |es| ==> PtrOk(h, es[k].1) && (es[k].1.To? ==> es[k].1.a in S)
    ensures Accounted(env, h, S, done, SaveEntries(env, h, d, es, j, done, live), me, EntriesTokens(h, d, es, j), marks)
    decreases h.Keys - done, 2, |es| - j
  {
    marks := [];
    if j == |es| {
      SharedNone(env, h, done, me);
    } else {
      marks := EntryFacts(env, h, S, me, d, es[j], done, live);
      var w := SaveEntry(env, h, d, es[j], done, live);
      if w.Walk? {
        var rest := EntriesFacts(env, h, S, me, d, es, j + 1, w.done, w.live);
        ThenAccounted(env, h, S, done, me, w, [es[j].0] + PtrTokens(h, d, es[j].1), marks,
                      SaveEntries(env, h, d, es, j + 1, w.done, w.live), EntriesTokens(h, d, es, j + 1), rest);
        marks := marks + rest;
      }
    }
  }

  lemma SizeFacts(env: Env, h: Heap, S: set<Addr>, me: Owner, tag: string, size: nat, done: set<Addr>, live: Live)
    returns (marks: seq<Mark>)
    requires Walkable(env, h, S, done, me)
    ensures Accounted(env, h, S, done, Walk(SizeHead(env, tag, size), done, live, true), me, [Num(8, size)], marks)
  {
    marks := SharedTagged(env, h, done, me, Trace(env, tag) + Trace(env, "size"), Num(8, size));
  }

  lemma {:induction false} FieldFacts(env: Env, h: Heap, S: set<Addr>, me: Owner, f: FieldShape, v: Value,
                                      done: set<Addr>, live: Live) returns (marks: seq<Mark>)
    requires Walkable(env, h, S, done, me) && ValueOk(h, f, v) && Targets(v) <= S
    ensures Accounted(env, h, S, done, SaveField(env, h, f, v, done, live), me, FieldTokens(h, f, v), marks)
    decreases h.Keys - done, 3, 0
  {
    match f {
      case MarkF(tag) =>
        marks := Labels(Trace(env, tag));
        SharedLabels(env, h, done, me, Trace(env, tag));
      case ScalarF(tag, _) =>
        marks := SharedTagged(env, h, done, me, Trace(env, tag), v.t);
      case RefF(tag, d) =>
        marks := PtrFacts(env, h, S, me, tag, d, v.p, done, live);
      case RefsF(tag, d) =>
        marks := SizeFacts(env, h, S, me, tag, |v.ps|, done, live);
        assert forall k :: 0 <= k < |v.ps| && v.ps[k].To? ==> v.ps[k].a in Targets(v);
        var rest := RefsFacts(env, h, S, me, d, v.ps, 0, done, live);
        ThenAccounted(env, h, S, done, me, Walk(SizeHead(env, tag, |v.ps|), done, live, true), [Num(8, |v.ps|)], marks,
                      SaveRefs(env, h, d, v.ps, 0, done, live), RefsTokens(h, d, v.ps, 0), rest);
        marks := marks + rest;
      case MapF(tag, _, d) =>
        marks := SizeFacts(env, h, S, me, tag, |v.es|, done, live);
        assert forall k :: 0 <= k < |v.es| && v.es[k].1.To? ==> v.es[k].1.a in Targets(v);
        var rest := EntriesFacts(env, h, S, me, d, v.es, 0, done, live);
        ThenAccounted(env, h, S, done, me, Walk(SizeHead(env, tag, |v.es|), done, live, true), [Num(8, |v.es|)], marks,
                      SaveEntries(env, h, d, v.es, 0, done, live), EntriesTokens(h, d, v.es, 0), rest);
        marks := marks + rest;
    }
  }

  lemma {:induction false} FieldsFacts(env: Env, h: Heap, S: set<Addr>, me: Owner, sh: seq<FieldShape>, vs: seq<Value>,
                                       i: nat, done: set<Addr>, live: Live) returns (marks: seq<Mark>)
    requires Walkable(env, h, S, done, me) && FieldsOk(h, sh, vs) && i <= |sh|
    requires forall k :: 0 <= k < |vs| ==> Targets(vs[k]) <= S
    ensures Accounted(env, h, S, done, SaveFields(env, h, sh, vs, i, done, live), me, FieldsTokens(h, sh, vs, i), marks)
    decreases h.Keys - done, 4, |sh| - i
  {
    marks := [];
    if i == |sh| {
      SharedNone(env, h, done, me);
    } else {
      marks := FieldFacts(env, h, S, me, sh[i], vs[i], done, live);
      var w := SaveField(env, h, sh[i], vs[i], done, live);
      if w.Walk? {
        var rest := FieldsFacts(env, h, S, me, sh, vs, i + 1, w.done, w.live);
        ThenAccounted(env, h, S, done, me, w, FieldTokens(h, sh[i], vs[i]), marks,
                      SaveFields(env, h, sh, vs, i + 1, w.done, w.live), FieldsTokens(h, sh, vs, i + 1), rest);
        marks := marks + rest;
      }
    }
  }

  // The pointees of everything that was written have been written

  predicate PtrIn(p: Ptr, S: set<Addr>) {
    p.To? ==> p.a in S
  }

  predicate FieldsIn(vs: seq<Value>, i: nat, S: set<Addr>) {
    forall k :: i <= k < |vs| ==> Targets(vs[k]) <= S
  }

  /** The walk adds objects whose pointees it has met. */
  ghost predicate Covers(h: Heap, done: set<Addr>, w: Walk) {
    w.Walk? ==> done <= w.done && forall a :: a in w.done && a !in done && a in h ==> FieldsIn(h[a].fields, 0, w.done)
  }

  lemma {:induction false} PtrCovers(env: Env, h: Heap, tag: string, d: PtrType, p: Ptr, done: set<Addr>, live: Live)
    requires HeapOk(env, h) && PtrOk(h, p)
    ensures var w := SavePtr(env, h, tag, d, p, done, live); Covers(h, done, w) && (w.Walk? ==> PtrIn(p, w.done))
    decreases h.Keys - done, 0, 0
  {
    if p.To? && p.a !in done {
      FieldsCover(env, h, env.Shape(h[p.a].ty), h[p.a].fields, 0, done + {p.a}, Met(live, p.a, d));
    }
  }

  lemma {:induction false} RefsCover(env: Env, h: Heap, d: PtrType, ps: seq<Ptr>, j: nat, done: set<Addr>, live: Live)
    requires HeapOk(env, h) && j <= |ps| && forall k :: 0 <= k < |ps| ==> PtrOk(h, ps[k])
    ensures var w := SaveRefs(env, h, d, ps, j, done, live);
            Covers(h, done, w) && (w.Walk? ==> forall k :: j <= k < |ps| ==> PtrIn(ps[k], w.done))
    decreases h.Keys - done, 1, |ps| - j
  {
    if j < |ps| {
      var w1 := SavePtr(env, h, "E", d, ps[j], done, live);
      PtrCovers(env, h, "E", d, ps[j], done, live);
      if w1.Walk? {
        RefsCover(env, h, d, ps, j + 1, w1.done, w1.live);
        CoversThen(h, done, w1, SaveRefs(env, h, d, ps, j + 1, w1.done, w1.live));
      }
    }
  }

  lemma CoversThen(h: Heap, done: set<Addr>, w1: Walk, w2: Walk)
    requires w1.Walk? && Covers(h, done, w1) && Covers(h, w1.done, w2)
    ensures Covers(h, done, w1.Then(w2))
  {
  }

  lemma {:induction false} EntryCovers(env: Env, h: Heap, d: PtrType, e: (Token, Ptr), done: set<Addr>, live: Live)
    requires HeapOk(env, h) && PtrOk(h, e.1)
    ensures var w := SaveEntry(env, h, d, e, done, live); Covers(h, done, w) && (w.Walk? ==> PtrIn(e.1, w.done))
    decreases h.Keys - done, 1, 0
  {
    PtrCovers(env, h, "Second", d, e.1, done, live);
  }

  lemma {:induction false} EntriesCover(env: Env, h: Heap, d: PtrType, es: seq<(Token, Ptr)>, j: nat, done: set<Addr>,
                                        live: Live)
    requires HeapOk(env, h) && j <= |es| && forall k :: 0 <= k < |es| ==> PtrOk(h, es[k].1)
    ensures var w := SaveEntries(env, h, d, es, j, done, live);
            Covers(h, done, w) && (w.Walk? ==> forall k :: j <= k < |es| ==> PtrIn(es[k].1, w.done))
    decreases h.Keys - done, 2, |es| - j
  {
    if j < |es| {
      var w1 := SaveEntry(env, h, d, es[j], done, live);
      EntryCovers(env, h, d, es[j], done, live);
      if w1.Walk? {
        EntriesCover(env, h, d, es, j + 1, w1.done, w1.live);
        CoversThen(h, done, w1, SaveEntries(env, h, d, es, j + 1, w1.done, w1.live));
      }
    }
  }

  lemma {:induction false} FieldCovers(env: Env, h: Heap, f: FieldShape, v: Value, done: set<Addr>, live: Live)
    requires HeapOk(env, h) && ValueOk(h, f, v)
    ensures var w := SaveField(env, h, f, v, done, live); Covers(h, done, w) && (w.Walk? ==> Targets(v) <= w.done)
    decreases h.Keys - done, 3, 0
  {
    match f {
      case RefF(tag, d) => PtrCovers(env, h, tag, d, v.p, done, live);
      case RefsF(_, d) => RefsCover(env, h, d, v.ps, 0, done, live);
      case MapF(_, _, d) => EntriesCover(env, h, d, v.es, 0, done, live);
      case _ =>
    }
  }

  lemma {:induction false} FieldsCover(env: Env, h: Heap, sh: seq<FieldShape>, vs: seq<Value>, i: nat, done: set<Addr>,
                                       live: Live)
    requires HeapOk(env, h) && FieldsOk(h, sh, vs) && i <= |sh|
    ensures var w := SaveFields(env, h, sh, vs, i, done, live);
            Covers(h, done, w) && (w.Walk? ==> FieldsIn(vs, i, w.done))
    decreases h.Keys - done, 4, |sh| - i
  {
    if i < |sh| {
      var w1 := SaveField(env, h, sh[i], vs[i], done, live);
      FieldCovers(env, h, sh[i], vs[i], done, live);
      if w1.Walk? {
        FieldsCover(env, h, sh, vs, i + 1, w1.done, w1.live);
        CoversThen(h, done, w1, SaveFields(env, h, sh, vs, i + 1, w1.done, w1.live));
      }
    }
  }
}
