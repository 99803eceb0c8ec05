/** Info: a map from names to typed values, some of them Infos again, sent through the serializer. */
module InfoGraph {
  import opened ObjectGraph
  import opened StreamFormat
  import opened SaveWalk
  import opened LoadWalk
  import opened InfoLookup
  import opened Isomorphism
  import opened Ownership
  import opened Readability
  import opened RoundTrip
  import opened Registries

  const BASE: TypeId := "InfoDataBase"
  const INT: TypeId := "InfoData<int>"
  const SIZE: TypeId := "InfoData<size_t>"
  const DOUBLE: TypeId := "InfoData<double>"
  const BOOL: TypeId := "InfoData<bool>"
  const STRING: TypeId := "InfoData<string>"

  const VALUE := PtrType(Shared, BASE)

  /** `Info::save` and `Info::load`. */
  const OPTIONS: FieldShape := MapF("mOptions", Text, VALUE)

  function ScalarShape(scalar: ScalarType): seq<FieldShape> {
    [MarkF("BaseClass"), ScalarF("mData", scalar)]
  }

  const INFO_CLASSES: map<TypeId, seq<FieldShape>> :=
    map[INT := ScalarShape(Number(4)), SIZE := ScalarShape(Number(8)), DOUBLE := ScalarShape(Number(8)),
        BOOL := ScalarShape(Number(1)), STRING := ScalarShape(Text),
        INFO := [MarkF("BaseClass"), MarkF("mData"), OPTIONS]]

  const NUMBER_NAMES: map<TypeId, string> :=
    map[INT := "info_data_int", SIZE := "info_data_size_t", DOUBLE := "info_data_double"]

  /** `Info::RegisterTypesInSerializer` on empty registries. */
  method RegisterTypes() returns (r: Registry)
    ensures r.names.Keys == INFO_CLASSES.Keys && Consistent(r.names, r.prototypes)
    ensures r.names == map[INT := "info_data_int", SIZE := "info_data_size_t", DOUBLE := "info_data_double",
                           BOOL := "info_data_bool", STRING := "info_data_string", INFO := "info_data_info"]
  {
    r := new Registry();
    RegisterNumbers(r);
    RegisterOthers(r);
  }

  method RegisterNumbers(r: Registry)
    requires r.names == map[] && r.prototypes == map[]
    modifies r
    ensures Consistent(r.names, r.prototypes) && r.names == NUMBER_NAMES
    ensures r.prototypes.Keys == {"info_data_int", "info_data_size_t", "info_data_double"}
  {
    r.Register("info_data_int", INT);
    r.Register("info_data_size_t", SIZE);
    r.Register("info_data_double", DOUBLE);
  }

  method RegisterOthers(r: Registry)
    requires Consistent(r.names, r.prototypes) && r.names == NUMBER_NAMES
    requires r.prototypes.Keys == {"info_data_int", "info_data_size_t", "info_data_double"}
    modifies r
    ensures Consistent(r.names, r.prototypes)
    ensures r.names == NUMBER_NAMES[BOOL := "info_data_bool"][STRING := "info_data_string"][INFO := "info_data_info"]
  {
    r.Register("info_data_bool", BOOL);
    RegisterLast(r);
  }

  method RegisterLast(r: Registry)
    requires Consistent(r.names, r.prototypes) && r.names == NUMBER_NAMES[BOOL := "info_data_bool"]
    requires r.prototypes.Keys == {"info_data_int", "info_data_size_t", "info_data_double", "info_data_bool"}
    modifies r
    ensures Consistent(r.names, r.prototypes)
    ensures r.names == NUMBER_NAMES[BOOL := "info_data_bool"][STRING := "info_data_string"][INFO := "info_data_info"]
  {
    r.Register("info_data_string", STRING);
    r.Register("info_data_info", INFO);
  }

  /** The environment of an Info transfer, once the types are registered. */
  predicate InfoEnv(env: Env) {
    env.classes == INFO_CLASSES && env.names.Keys == INFO_CLASSES.Keys && env.RegistryOk()
  }

  predicate InfoOk(env: Env, h: Heap, es: InfoMap) {
    && InfoEnv(env) && HeapOk(env, h) && ValueOk(h, OPTIONS, Entries(es))
    && (forall j :: 0 <= j < |es| ==> es[j].1.To?)
    && (forall a, j :: a in h && h[a].ty == INFO && 0 <= j < |h[a].fields[2].es| ==> h[a].fields[2].es[j].1.To?)
  }

  /** As in a `std::map`, so that a look-up finds the entry with the key. */
  lemma KeysAreDistinct(env: Env, h: Heap, es: InfoMap)
    requires InfoOk(env, h, es)
    ensures DistinctKeys(es) && AllDistinct(h)
  {
    forall a | a in h && Nested(h[a])
      ensures DistinctKeys(h[a].fields[2].es)
    {
      assert ValueOk(h, env.Shape(INFO)[2], h[a].fields[2]);
    }
  }

  // The walk over an Info

  /** Two walks meet the same objects. */
  predicate SameMeets(w: Walk, v: Walk) {
    w.Walk? && v.Walk? && w.done == v.done && w.live == v.live && w.safe == v.safe
  }

  lemma PlainField(env: Env, h: Heap, sh: seq<FieldShape>, vs: seq<Value>, i: nat, done: set<Addr>, live: Live)
    requires HeapOk(env, h) && FieldsOk(h, sh, vs) && i < |sh| && (sh[i].MarkF? || sh[i].ScalarF?)
    requires SaveFields(env, h, sh, vs, i + 1, done, live).Walk?
    ensures SameMeets(SaveFields(env, h, sh, vs, i, done, live), SaveFields(env, h, sh, vs, i + 1, done, live))
  {
  }

  lemma LastField(env: Env, h: Heap, sh: seq<FieldShape>, vs: seq<Value>, i: nat, done: set<Addr>, live: Live)
    requires HeapOk(env, h) && FieldsOk(h, sh, vs) && |sh| == i + 1
    requires SaveField(env, h, sh[i], vs[i], done, live).Walk?
    ensures SameMeets(SaveFields(env, h, sh, vs, i, done, live), SaveField(env, h, sh[i], vs[i], done, live))
  {
    var w := SaveField(env, h, sh[i], vs[i], done, live);
    assert SaveFields(env, h, sh, vs, i + 1, w.done, w.live) == Walk([], w.done, w.live, true);
  }

  lemma OptionsWalk(env: Env, h: Heap, sh: seq<FieldShape>, vs: seq<Value>, i: nat, done: set<Addr>, live: Live)
    requires AllKnown(env, h) && FieldsOk(h, sh, vs) && |sh| == i + 1 && sh[i] == OPTIONS
    requires KnownField(env, h, OPTIONS, vs[i])
    ensures SameMeets(SaveFields(env, h, sh, vs, i, done, live), SaveEntries(env, h, VALUE, vs[i].es, 0, done, live))
  {
    assert ValueOk(h, sh[i], vs[i]);
    EntriesAreSaved(env, h, VALUE, vs[i].es, 0, done, live);
    LastField(env, h, sh, vs, i, done, live);
  }

  /** All types of values are registered. */
  lemma InfoKnown(env: Env, h: Heap)
    requires InfoEnv(env) && HeapOk(env, h)
    ensures AllKnown(env, h)
    ensures forall es: InfoMap :: KnownField(env, h, OPTIONS, Entries(es))
  {
    forall a | a in h
      ensures KnownFields(env, h, env.Shape(h[a].ty), h[a].fields)
    {
      forall i | 0 <= i < |h[a].fields|
        ensures KnownField(env, h, env.Shape(h[a].ty)[i], h[a].fields[i])
      {
        assert ValueOk(h, env.Shape(h[a].ty)[i], h[a].fields[i]);
      }
    }
  }

  // When an Info can be loaded

  /** The entries of an Info: the one that is sent, or the value of an object. */
  function EntriesOf(h: Heap, es: InfoMap, o: Owner): InfoMap {
    match o
    case Root => es
    case At(a) =>
      if a in h && h[a].ty == INFO && |h[a].fields| > 2 && h[a].fields[2].Entries? then h[a].fields[2].es else []
  }

  predicate Member(S: set<Addr>, o: Owner) {
    o.At? ==> o.a in S
  }

  /** No value object belongs to two entries of the Info and the Infos `S` below it. */
  ghost predicate EntriesDistinct(h: Heap, es: InfoMap, S: set<Addr>) {
    forall o, p, j, k ::
      (Member(S, o) && Member(S, p) && 0 <= j < |EntriesOf(h, es, o)| && 0 <= k < |EntriesOf(h, es, p)|
       && EntriesOf(h, es, o)[j].1 == EntriesOf(h, es, p)[k].1) ==> o == p && j == k
  }

  /** A value is created after the values it holds and never changed, so that creation orders them. */
  ghost predicate BottomUp(h: Heap, rank: Addr -> nat) {
    forall a, j :: 0 <= j < |EntriesOf(h, [], At(a))| && EntriesOf(h, [], At(a))[j].1.To? ==>
      rank(EntriesOf(h, [], At(a))[j].1.a) < rank(a)
  }

  function HomeOf(o: Owner, j: nat): Hold {
    Home(o, if o.Root? then 0 else 2, j)
  }

  predicate Homed(holds: Holds, o: Owner, es: InfoMap, k: nat) {
    forall j :: k <= j < |es| ==> Held(holds, es[j].1, HomeOf(o, j))
  }

  predicate Keeps(holds: Holds, holds1: Holds) {
    forall a :: a in holds ==> a in holds1 && holds1[a] == holds[a]
  }

  /** A safe walk meets everything anew, and `holds1` records the one entry of each value it meets. */
  ghost predicate Visits(h: Heap, done: set<Addr>, holds: Holds, w: Walk, holds1: Holds) {
    && w.Walk? && holds1.Keys == w.done && Keeps(holds, holds1)
    && forall b :: b in w.done && b !in done ==> Homed(holds1, At(b), EntriesOf(h, [], At(b)), 0)
  }

  lemma VisitsThen(h: Heap, done: set<Addr>, holds: Holds, w1: Walk, holds1: Holds, w2: Walk, holds2: Holds)
    requires Visits(h, done, holds, w1, holds1) && Visits(h, w1.done, holds1, w2, holds2)
    ensures Visits(h, done, holds, w1.Then(w2), holds2)
  {
  }

  /** The values a walk can meet again are those whose bodies it is in, and these were created later. */
  ghost predicate Above(rank: Addr -> nat, done: set<Addr>, live: Live, bound: nat) {
    live.Keys <= done && forall b :: b in live ==> rank(b) >= bound
  }

  /** Saving the fields of a value object comes down to its entries. */
  lemma BodyWalk(env: Env, h: Heap, a: Addr, done: set<Addr>, live: Live)
    requires InfoEnv(env) && AllKnown(env, h) && a in h
    ensures var w := SaveFields(env, h, env.Shape(h[a].ty), h[a].fields, 0, done, live);
            if h[a].ty == INFO
            then SameMeets(w, SaveEntries(env, h, VALUE, EntriesOf(h, [], At(a)), 0, done, live))
            else w.Walk? && w.done == done && w.live == live && w.safe && EntriesOf(h, [], At(a)) == []
  {
    var sh, vs := env.Shape(h[a].ty), h[a].fields;
    if h[a].ty == INFO {
      assert |sh| == 3 && sh[0].MarkF? && sh[1].MarkF? && sh[2] == OPTIONS;
      assert ValueOk(h, sh[2], vs[2]) && KnownField(env, h, sh[2], vs[2]);
      OptionsWalk(env, h, sh, vs, 2, done, live);
      PlainField(env, h, sh, vs, 1, done, live);
    } else {
      assert |sh| == 2 && sh[0].MarkF? && sh[1].ScalarF?;
      LastField(env, h, sh, vs, 1, done, live);
    }
    PlainField(env, h, sh, vs, 0, done, live);
  }

  lemma ValueWalk(env: Env, h: Heap, a: Addr, done: set<Addr>, live: Live)
    requires InfoEnv(env) && AllKnown(env, h) && a in h
    ensures var w := SavePtr(env, h, "Second", VALUE, To(a), done, live);
            if a in done then w.safe ==> a in live
            else SameMeets(w, SaveFields(env, h, env.Shape(h[a].ty), h[a].fields, 0, done + {a}, live[a := VALUE]))
  {
    PtrIsSaved(env, h, "Second", VALUE, To(a), done, live);
    assert BASE !in INFO_CLASSES;
  }

  lemma {:induction false} ValueVisits(env: Env, h: Heap, rank: Addr -> nat, a: Addr, home: Hold, done: set<Addr>,
                                       live: Live, holds: Holds)
    returns (holds1: Holds)
    requires InfoEnv(env) && AllKnown(env, h) && BottomUp(h, rank) && a in h
    requires Above(rank, done, live, rank(a) + 1) && holds.Keys == done
    ensures var w := SavePtr(env, h, "Second", VALUE, To(a), done, live);
            w.Walk? && w.safe ==>
              a !in done && w.live == live[a := VALUE] && Visits(h, done, holds, w, holds1) && Held(holds1, To(a), home)
    decreases h.Keys - done, 0, 0
  {
    holds1 := holds[a := home];
    ValueWalk(env, h, a, done, live);
    if a !in done {
      var done1, live1 := done + {a}, live[a := VALUE];
      BodyWalk(env, h, a, done1, live1);
      if h[a].ty == INFO {
        holds1 := EntriesVisit(env, h, rank, At(a), EntriesOf(h, [], At(a)), 0, rank(a), done1, live1, holds1);
      }
      var body := SaveFields(env, h, env.Shape(h[a].ty), h[a].fields, 0, done1, live1);
      var w := SavePtr(env, h, "Second", VALUE, To(a), done, live);
      if w.Walk? && w.safe { ValueMet(h, a, home, done, holds, body, w, holds1); }
    }
  }

  /** A value met for the first time: its home, and then what its entries lead to. */
  lemma ValueMet(h: Heap, a: Addr, home: Hold, done: set<Addr>, holds: Holds, body: Walk, w: Walk, holds1: Holds)
    requires a !in done && holds.Keys == done && body.Walk? && w.Walk? && w.done == body.done
    requires holds1.Keys == body.done && Keeps(holds[a := home], holds1)
    requires forall b :: b in body.done && b !in done + {a} ==> Homed(holds1, At(b), EntriesOf(h, [], At(b)), 0)
    requires Homed(holds1, At(a), EntriesOf(h, [], At(a)), 0)
    ensures Visits(h, done, holds, w, holds1) && Held(holds1, To(a), home)
  {
    assert holds[a := home][a] == home;
    forall b | b in holds
      ensures b in holds1 && holds1[b] == holds[b]
    {
      assert holds[a := home][b] == holds[b];
    }
  }

  lemma {:induction false} EntryVisits(env: Env, h: Heap, rank: Addr -> nat, e: (Token, Ptr), home: Hold,
                                       done: set<Addr>, live: Live, holds: Holds)
    returns (holds1: Holds)
    requires InfoEnv(env) && AllKnown(env, h) && BottomUp(h, rank) && PtrOk(h, e.1)
    requires (e.1.To? ==> Above(rank, done, live, rank(e.1.a) + 1)) && live.Keys <= done && holds.Keys == done
    ensures var w := SaveEntry(env, h, VALUE, e, done, live);
            w.Walk? && w.safe ==> w.live == live && Visits(h, done, holds, w, holds1) && Held(holds1, e.1, home)
    decreases h.Keys - done, 1, 0
  {
    holds1 := holds;
    if e.1.To? {
      holds1 := ValueVisits(env, h, rank, e.1.a, home, done, live, holds);
      if e.1.a !in done { assert live[e.1.a := VALUE] - {e.1.a} == live; }
    }
  }

  lemma EntriesUnfold(env: Env, h: Heap, es: InfoMap, k: nat, done: set<Addr>, live: Live)
    requires HeapOk(env, h) && k < |es| && forall j :: 0 <= j < |es| ==> PtrOk(h, es[j].1)
    ensures var w1 := SaveEntry(env, h, VALUE, es[k], done, live);
            w1.Walk? ==>
              SaveEntries(env, h, VALUE, es, k, done, live)
              == w1.Then(SaveEntries(env, h, VALUE, es, k + 1, w1.done, w1.live))
  {
  }

  lemma HomedFrom(holds: Holds, holds1: Holds, me: Owner, es: InfoMap, k: nat)
    requires k < |es| && Keeps(holds, holds1) && Held(holds, es[k].1, HomeOf(me, k)) && Homed(holds1, me, es, k + 1)
    ensures Homed(holds1, me, es, k)
  {
  }

  lemma {:induction false} EntriesVisit(env: Env, h: Heap, rank: Addr -> nat, me: Owner, es: InfoMap, k: nat,
                                        bound: nat, done: set<Addr>, live: Live, holds: Holds)
    returns (holds1: Holds)
    requires InfoEnv(env) && AllKnown(env, h) && BottomUp(h, rank) && k <= |es|
    requires forall j :: 0 <= j < |es| ==> PtrOk(h, es[j].1) && (es[j].1.To? ==> rank(es[j].1.a) < bound)
    requires Above(rank, done, live, bound) && holds.Keys == done
    ensures var w := SaveEntries(env, h, VALUE, es, k, done, live);
            w.Walk? && w.safe ==> w.live == live && Visits(h, done, holds, w, holds1) && Homed(holds1, me, es, k)
    decreases h.Keys - done, 2, |es| - k
  {
    holds1 := holds;
    if k < |es| {
      var w1 := SaveEntry(env, h, VALUE, es[k], done, live);
      holds1 := EntryVisits(env, h, rank, es[k], HomeOf(me, k), done, live, holds);
      if w1.Walk? && w1.safe {
        var holds2 := EntriesVisit(env, h, rank, me, es, k + 1, bound, w1.done, w1.live, holds1);
        var w2 := SaveEntries(env, h, VALUE, es, k + 1, w1.done, w1.live);
        EntriesUnfold(env, h, es, k, done, live);
        if w2.Walk? && w2.safe {
          VisitsThen(h, done, holds, w1, holds1, w2, holds2);
          HomedFrom(holds1, holds2, me, es, k);
        }
        holds1 := holds2;
      }
    }
  }

  /** A walk that visits everything has one home for each value. */
  lemma VisitedDistinct(h: Heap, es: InfoMap, S: set<Addr>, holds: Holds)
    requires forall o :: Member(S, o) ==> Homed(holds, o, EntriesOf(h, es, o), 0)
    requires forall o, j :: Member(S, o) && 0 <= j < |EntriesOf(h, es, o)| ==> EntriesOf(h, es, o)[j].1.To?
    ensures EntriesDistinct(h, es, S)
  {
    forall o, p, j, k | Member(S, o) && Member(S, p) && 0 <= j < |EntriesOf(h, es, o)| && 0 <= k < |EntriesOf(h, es, p)|
      && EntriesOf(h, es, o)[j].1 == EntriesOf(h, es, p)[k].1
      ensures o == p && j == k
    {
      var x := EntriesOf(h, es, o)[j].1;
      assert Held(holds, x, HomeOf(o, j)) && Held(holds, x, HomeOf(p, k));
    }
  }

  lemma EntryTarget(h: Heap, es: InfoMap, S: set<Addr>, o: Owner, j: nat)
    requires Encloses(h, [Entries(es)], S) && Member(S, o) && j < |EntriesOf(h, es, o)|
    ensures EntriesOf(h, es, o)[j].1.To? ==> EntriesOf(h, es, o)[j].1.a in S
  {
    var xs := EntriesOf(h, es, o);
    if xs[j].1.To? {
      assert xs[j].1.a in Targets(Entries(xs));
      match o
      case Root => assert Targets([Entries(es)][0]) <= S;
      case At(a) => assert Targets(h[a].fields[2]) <= S;
    }
  }

  lemma SafeIsDistinct(env: Env, h: Heap, es: InfoMap, S: set<Addr>, rank: Addr -> nat)
    requires InfoOk(env, h, es) && BottomUp(h, rank) && IsReach(h, [Entries(es)], S)
    requires AllKnown(env, h) && KnownField(env, h, OPTIONS, Entries(es))
    requires var w := SaveEntries(env, h, VALUE, es, 0, {}, map[]); w.Walk? && w.safe && w.done == S
    ensures EntriesDistinct(h, es, S)
  {
    var top := TopRank(es, rank);
    var holds := EntriesVisit(env, h, rank, Root, es, 0, top, {}, map[], map[]);
    forall o | Member(S, o)
      ensures Homed(holds, o, EntriesOf(h, es, o), 0)
    {
      if o.At? { assert EntriesOf(h, es, o) == EntriesOf(h, [], o); }
    }
    VisitedDistinct(h, es, S, holds);
  }

  /** A bound for the entries of the Info itself. */
  lemma {:induction false} TopRank(es: InfoMap, rank: Addr -> nat) returns (top: nat)
    ensures forall j :: 0 <= j < |es| && es[j].1.To? ==> rank(es[j].1.a) < top
  {
    top := 0;
    if es != [] {
      var rest := TopRank(es[1..], rank);
      top := if es[0].1.To? && rank(es[0].1.a) >= rest then rank(es[0].1.a) + 1 else rest;
      forall j | 0 <= j < |es| && es[j].1.To?
        ensures rank(es[j].1.a) < top
      {
        if j > 0 { assert es[j] == es[1..][j - 1]; }
      }
    }
  }

  ghost predicate HasEntry(h: Heap, es: InfoMap, S: set<Addr>, b: Addr, o: Owner, j: nat) {
    Member(S, o) && j < |EntriesOf(h, es, o)| && EntriesOf(h, es, o)[j].1 == To(b)
  }

  ghost function HomeFor(h: Heap, es: InfoMap, S: set<Addr>, b: Addr): Hold
    requires exists o: Owner, j: nat :: HasEntry(h, es, S, b, o, j)
  {
    var o: Owner, j: nat :| HasEntry(h, es, S, b, o, j);
    HomeOf(o, j)
  }

  lemma HomeForIs(h: Heap, es: InfoMap, S: set<Addr>, b: Addr) returns (o: Owner, j: nat)
    requires exists o: Owner, j: nat :: HasEntry(h, es, S, b, o, j)
    ensures HasEntry(h, es, S, b, o, j) && HomeFor(h, es, S, b) == HomeOf(o, j)
  {
    o, j :| HasEntry(h, es, S, b, o, j) && HomeFor(h, es, S, b) == HomeOf(o, j);
  }

  ghost function HomesOf(h: Heap, es: InfoMap, S: set<Addr>): Holds {
    map b | b in S && exists o: Owner, j: nat :: HasEntry(h, es, S, b, o, j) :: HomeFor(h, es, S, b)
  }

  lemma DistinctHomed(h: Heap, es: InfoMap, S: set<Addr>, o: Owner)
    requires Encloses(h, [Entries(es)], S) && EntriesDistinct(h, es, S) && Member(S, o)
    ensures Homed(HomesOf(h, es, S), o, EntriesOf(h, es, o), 0)
  {
    var xs := EntriesOf(h, es, o);
    forall j | 0 <= j < |xs|
      ensures Held(HomesOf(h, es, S), xs[j].1, HomeOf(o, j))
    {
      if xs[j].1.To? {
        EntryTarget(h, es, S, o, j);
        assert HasEntry(h, es, S, xs[j].1.a, o, j);
        var p, k := HomeForIs(h, es, S, xs[j].1.a);
        assert EntriesOf(h, es, p)[k].1 == xs[j].1;
      }
    }
  }

  lemma DistinctIsOrderly(env: Env, h: Heap, es: InfoMap, S: set<Addr>)
    requires InfoOk(env, h, es) && IsReach(h, [Entries(es)], S) && EntriesDistinct(h, es, S)
    requires AllKnown(env, h) && KnownField(env, h, OPTIONS, Entries(es))
    ensures OrderlyValue(env, h, S, HomesOf(h, es, S), [OPTIONS], [Entries(es)])
  {
    var holds := HomesOf(h, es, S);
    ReachInHeap(env, h, es, S);
    DistinctHomed(h, es, S, Root);
    assert EntriesOf(h, es, Root) == es;
    assert Targets([Entries(es)][0]) <= S;
    assert Orderly(env, h, S, holds, Root, [OPTIONS], [Entries(es)]);
    forall a | a in S
      ensures a in h && Orderly(env, h, S, holds, At(a), env.Shape(h[a].ty), h[a].fields)
    {
      DistinctHomed(h, es, S, At(a));
      ObjectOrderly(env, h, es, S, holds, a);
    }
  }

  lemma ObjectOrderly(env: Env, h: Heap, es: InfoMap, S: set<Addr>, holds: Holds, a: Addr)
    requires InfoEnv(env) && AllKnown(env, h) && a in h && a in S
    requires Encloses(h, [Entries(es)], S) && Homed(holds, At(a), EntriesOf(h, es, At(a)), 0)
    ensures Orderly(env, h, S, holds, At(a), env.Shape(h[a].ty), h[a].fields)
  {
    var sh := env.Shape(h[a].ty);
    forall i | 0 <= i < |sh|
      ensures HeldField(holds, At(a), i, sh[i], h[a].fields[i])
    {
      assert ValueOk(h, sh[i], h[a].fields[i]);
    }
  }

  lemma ReachInHeap(env: Env, h: Heap, es: InfoMap, S: set<Addr>)
    requires InfoOk(env, h, es) && IsReach(h, [Entries(es)], S)
    ensures S <= h.Keys
  {
    assert Encloses(h, [Entries(es)], h.Keys) by {
      forall a, i | a in h && 0 <= i < |h[a].fields|
        ensures Targets(h[a].fields[i]) <= h.Keys
      {
        assert ValueOk(h, env.Shape(h[a].ty)[i], h[a].fields[i]);
      }
    }
  }

  /** Saving always succeeds, and the stream can be read back exactly when all entries have their own value objects. */
  lemma SafeExactlyWhenDistinct(env: Env, h: Heap, es: InfoMap, S: set<Addr>, rank: Addr -> nat)
    requires InfoOk(env, h, es) && BottomUp(h, rank) && IsReach(h, [Entries(es)], S)
    ensures var w := Save(env, h, [OPTIONS], [Entries(es)]);
            w.Walk? && w.done == S && (w.safe <==> EntriesDistinct(h, es, S))
  {
    InfoKnown(env, h);
    OptionsWalk(env, h, [OPTIONS], [Entries(es)], 0, {}, map[]);
    WalkIsReach(env, h, [OPTIONS], [Entries(es)]);
    OneReach(h, [Entries(es)], S, Save(env, h, [OPTIONS], [Entries(es)]).done);
    if Save(env, h, [OPTIONS], [Entries(es)]).safe {
      SafeIsDistinct(env, h, es, S, rank);
    }
    if EntriesDistinct(h, es, S) {
      DistinctIsOrderly(env, h, es, S);
      OrderlyIsSafe(env, h, S, HomesOf(h, es, S), [OPTIONS], [Entries(es)]);
    }
  }

  /**
   * The loaded Info has the keys of the saved one, every path of keys leads to the same type and value
   * through the entries, and looking it up finds the same.
   */
  ghost predicate SameInfo(h: Heap, es: InfoMap, mem: Memory) {
    && |mem| > 0 && |mem[0].fields| == 1 && mem[0].fields[0].Entries?
    && var es1 := mem[0].fields[0].es;
    && |es1| == |es| && (forall j :: 0 <= j < |es| ==> es1[j].0 == es[j].0)
    && (forall path, ty, v :: Leads(HeapOf(mem), es1, path, ty, v) <==> Leads(h, es, path, ty, v))
    && (forall path :: GetPath(HeapOf(mem), es1, path) == GetPath(h, es, path))
  }

  /**
   * The keys and values of the Info and of the objects `S` below it are readable: in the text
   * modes, without quotes.
   */
  ghost predicate InfoReadable(env: Env, h: Heap, es: InfoMap, S: set<Addr>) {
    GraphReadable(env, h, [Entries(es)], S)
  }

  /**
   * Main result: an Info is loaded back exactly when no two entries reachable from it have the same
   * value object and its keys and values are readable; what is loaded is then the same Info. If only
   * the entries are to blame, loading fails.
   */
  lemma InfoSaveThenLoad(env: Env, h: Heap, es: InfoMap, S: set<Addr>, rank: Addr -> nat, tail: string)
    requires InfoOk(env, h, es) && BottomUp(h, rank) && IsReach(h, [Entries(es)], S)
    requires CodeOk(env) && Framed(env, h) && FieldsFramed(env, [OPTIONS], [Entries(es)])
    ensures var w := Save(env, h, [OPTIONS], [Entries(es)]);
            w.Walk? &&
            var r := LoadInto(env, [OPTIONS], Wire(env, w.out, tail), NewValue([OPTIONS]));
            && (Faithful(r, w.out) <==> EntriesDistinct(h, es, S) && InfoReadable(env, h, es, S))
            && (Faithful(r, w.out) ==> r.rest.chars == Left(env) + tail && SameInfo(h, es, r.mem))
            && (InfoReadable(env, h, es, S) && !EntriesDistinct(h, es, S) ==> r.Error?)
  {
    var v := Entries(es);
    var w := Save(env, h, [OPTIONS], [v]);
    SafeExactlyWhenDistinct(env, h, es, S, rank);
    NewReceives(env, h, [OPTIONS], [v]);
    SavedReadable(env, h, [OPTIONS], [v]);
    var iso := SaveThenLoad(env, h, [OPTIONS], [v], NewValue([OPTIONS]), tail);
    var r := LoadInto(env, [OPTIONS], Wire(env, w.out, tail), NewValue([OPTIONS]));
    if Faithful(r, w.out) {
      SizeFirst(env, h, es);
      IsoKeepsInfo(env, h, es, w.done, r.mem, iso);
    }
  }

  lemma SizeFirst(env: Env, h: Heap, es: InfoMap)
    requires InfoOk(env, h, es) && Save(env, h, [OPTIONS], [Entries(es)]).Walk?
    ensures Save(env, h, [OPTIONS], [Entries(es)]).out != []
  {
    var w := SaveField(env, h, OPTIONS, Entries(es), {}, map[]);
    assert w.Walk? && |w.out| >= |SizeHead(env, "mOptions", |es|)| > 0;
    assert |Save(env, h, [OPTIONS], [Entries(es)]).out| >= |w.out|;
  }

  lemma IsoKeepsInfo(env: Env, h: Heap, es: InfoMap, reach: set<Addr>, mem: Memory, iso: Iso)
    requires InfoOk(env, h, es) && Isomorphic(h, [Entries(es)], reach, mem, iso)
    ensures SameInfo(h, es, mem)
  {
    assert Rebuilt(iso, [Entries(es)][0], mem[0].fields[0]);
    forall path
      ensures GetPath(HeapOf(mem), mem[0].fields[0].es, path) == GetPath(h, es, path)
    {
      PathKept(env, h, mem, iso, es, mem[0].fields[0].es, path);
    }
    forall path, ty, v
      ensures Leads(HeapOf(mem), mem[0].fields[0].es, path, ty, v) <==> Leads(h, es, path, ty, v)
    {
      LeadsKept(env, h, mem, iso, es, mem[0].fields[0].es, path, ty, v);
    }
  }

  lemma {:induction false} FindKept(iso: Iso, es: InfoMap, es1: InfoMap, key: string)
    requires |es1| == |es|
    requires forall j :: 0 <= j < |es| ==>
      (es[j].1.To? ==> es[j].1.a in iso) && es1[j] == (es[j].0, MapPtr(iso, es[j].1))
    ensures match Find(es, key)
            case None => Find(es1, key).None?
            case Some(p) => (p.To? ==> p.a in iso) && Find(es1, key) == Some(MapPtr(iso, p))
  {
    if es != [] && es[0].0 != Str(key) {
      FindKept(iso, es[1..], es1[1..], key);
    }
  }

  /** The type, the scalar and the nested entries of a value object. */
  predicate SameObject(iso: Iso, o: Obj, o1: Obj) {
    && o1.ty == o.ty && |o1.fields| == |o.fields| >= 2 && o1.fields[1] == o.fields[1]
    && (o.ty == INFO ==>
         && |o.fields| == 3 && o.fields[2].Entries? && o1.fields[2].Entries?
         && Rebuilt(iso, Entries(o.fields[2].es), Entries(o1.fields[2].es)))
  }

  lemma ObjectKept(env: Env, h: Heap, mem: Memory, iso: Iso, a: Addr)
    requires InfoEnv(env) && HeapOk(env, h) && Complete(h, mem, iso, a)
    ensures SameObject(iso, h[a], mem[iso[a]])
  {
    var o := h[a];
    assert FieldsOk(h, env.Shape(o.ty), o.fields);
    assert Rebuilt(iso, o.fields[1], mem[iso[a]].fields[1]);
    assert ValueOk(h, env.Shape(o.ty)[1], o.fields[1]);
    if o.ty == INFO {
      assert Rebuilt(iso, o.fields[2], mem[iso[a]].fields[2]);
      assert ValueOk(h, env.Shape(o.ty)[2], o.fields[2]);
    }
  }

  lemma ValueKept(env: Env, h: Heap, mem: Memory, iso: Iso, es: InfoMap, es1: InfoMap, key: string)
    requires InfoEnv(env) && HeapOk(env, h) && Rebuilt(iso, Entries(es), Entries(es1))
    requires forall a :: a in iso ==> Complete(h, mem, iso, a)
    ensures match ValueAt(h, es, key)
            case None => ValueAt(HeapOf(mem), es1, key).None?
            case Some(o) =>
              ValueAt(HeapOf(mem), es1, key).Some? && SameObject(iso, o, ValueAt(HeapOf(mem), es1, key).value)
  {
    assert forall j :: 0 <= j < |es| && es[j].1.To? ==> es[j].1.a in Targets(Entries(es));
    FindKept(iso, es, es1, key);
    var found := Find(es, key);
    if found.Some? && found.value.To? {
      ObjectKept(env, h, mem, iso, found.value.a);
    }
  }

  lemma {:induction false} PathKept(env: Env, h: Heap, mem: Memory, iso: Iso, es: InfoMap, es1: InfoMap,
                                    path: seq<string>)
    requires InfoEnv(env) && HeapOk(env, h) && Rebuilt(iso, Entries(es), Entries(es1))
    requires forall a :: a in iso ==> Complete(h, mem, iso, a)
    ensures GetPath(HeapOf(mem), es1, path) == GetPath(h, es, path)
    decreases |path|
  {
    if path != [] {
      ValueKept(env, h, mem, iso, es, es1, path[0]);
      var o := ValueAt(h, es, path[0]);
      if o.Some? && o.value.ty == INFO && |path| > 1 {
        var o1 := ValueAt(HeapOf(mem), es1, path[0]);
        PathKept(env, h, mem, iso, o.value.fields[2].es, o1.value.fields[2].es, path[1..]);
      }
    }
  }

  /** An entry of the loaded Info is the image of one of the saved Info. */
  lemma EntryKept(env: Env, h: Heap, mem: Memory, iso: Iso, es: InfoMap, es1: InfoMap, key: string, j: nat, a: Addr)
    requires InfoEnv(env) && HeapOk(env, h) && Rebuilt(iso, Entries(es), Entries(es1))
    requires forall a :: a in iso ==> Complete(h, mem, iso, a)
    requires EntryAt(h, es, key, j, a)
    ensures a in iso && EntryAt(HeapOf(mem), es1, key, j, iso[a]) && SameObject(iso, h[a], mem[iso[a]])
  {
    assert es[j].1.a in Targets(Entries(es));
    ObjectKept(env, h, mem, iso, a);
  }

  lemma EntryCame(env: Env, h: Heap, mem: Memory, iso: Iso, es: InfoMap, es1: InfoMap, key: string, j: nat, b: nat)
      returns (a: Addr)
    requires InfoEnv(env) && HeapOk(env, h) && Rebuilt(iso, Entries(es), Entries(es1))
    requires forall a :: a in iso ==> Complete(h, mem, iso, a)
    requires forall j :: 0 <= j < |es| ==> PtrOk(h, es[j].1)
    requires EntryAt(HeapOf(mem), es1, key, j, b)
    ensures a in iso && iso[a] == b && EntryAt(h, es, key, j, a) && SameObject(iso, h[a], mem[b])
  {
    a := es[j].1.a;
    assert es[j].1.a in Targets(Entries(es));
    ObjectKept(env, h, mem, iso, a);
  }

  lemma {:induction false} LeadsForth(env: Env, h: Heap, mem: Memory, iso: Iso, es: InfoMap, es1: InfoMap,
                                      path: seq<string>, ty: TypeId, v: Value)
    requires InfoEnv(env) && HeapOk(env, h) && Rebuilt(iso, Entries(es), Entries(es1))
    requires forall a :: a in iso ==> Complete(h, mem, iso, a)
    requires Leads(h, es, path, ty, v)
    ensures Leads(HeapOf(mem), es1, path, ty, v)
    decreases |path|
  {
    var j: nat, a: nat :| EntryAt(h, es, path[0], j, a) && LeadsOn(h, h[a], path[1..], ty, v);
    EntryKept(env, h, mem, iso, es, es1, path[0], j, a);
    if |path| > 1 {
      LeadsForth(env, h, mem, iso, h[a].fields[2].es, mem[iso[a]].fields[2].es, path[1..], ty, v);
    }
    assert LeadsOn(HeapOf(mem), mem[iso[a]], path[1..], ty, v);
  }

  lemma {:induction false} LeadsBack(env: Env, h: Heap, mem: Memory, iso: Iso, es: InfoMap, es1: InfoMap,
                                     path: seq<string>, ty: TypeId, v: Value)
    requires InfoEnv(env) && HeapOk(env, h) && Rebuilt(iso, Entries(es), Entries(es1))
    requires forall a :: a in iso ==> Complete(h, mem, iso, a)
    requires forall j :: 0 <= j < |es| ==> PtrOk(h, es[j].1)
    requires Leads(HeapOf(mem), es1, path, ty, v)
    ensures Leads(h, es, path, ty, v)
    decreases |path|
  {
    var m := HeapOf(mem);
    var j: nat, b: nat :| EntryAt(m, es1, path[0], j, b) && LeadsOn(m, m[b], path[1..], ty, v);
    var a := EntryCame(env, h, mem, iso, es, es1, path[0], j, b);
    assert m[b] == mem[b];
    if |path| > 1 {
      NestedOk(env, h, a);
      LeadsBack(env, h, mem, iso, h[a].fields[2].es, mem[b].fields[2].es, path[1..], ty, v);
    }
    LeadsFrom(h, es, path, ty, v, j, a);
  }

  lemma LeadsFrom(h: Heap, es: InfoMap, path: seq<string>, ty: TypeId, v: Value, j: nat, a: Addr)
    requires path != [] && EntryAt(h, es, path[0], j, a) && LeadsOn(h, h[a], path[1..], ty, v)
    ensures Leads(h, es, path, ty, v)
  {
  }

  lemma NestedOk(env: Env, h: Heap, a: Addr)
    requires InfoEnv(env) && HeapOk(env, h) && a in h && h[a].ty == INFO
    ensures |h[a].fields| == 3 && ValueOk(h, OPTIONS, h[a].fields[2])
  {
    assert ValueOk(h, env.Shape(INFO)[2], h[a].fields[2]);
  }

  lemma LeadsKept(env: Env, h: Heap, mem: Memory, iso: Iso, es: InfoMap, es1: InfoMap,
                  path: seq<string>, ty: TypeId, v: Value)
    requires InfoEnv(env) && HeapOk(env, h) && Rebuilt(iso, Entries(es), Entries(es1))
    requires forall a :: a in iso ==> Complete(h, mem, iso, a)
    requires forall j :: 0 <= j < |es| ==> PtrOk(h, es[j].1)
    ensures Leads(HeapOf(mem), es1, path, ty, v) <==> Leads(h, es, path, ty, v)
  {
    if Leads(h, es, path, ty, v) { LeadsForth(env, h, mem, iso, es, es1, path, ty, v); }
    if Leads(HeapOf(mem), es1, path, ty, v) { LeadsBack(env, h, mem, iso, es, es1, path, ty, v); }
  }

  // An Info that was given the same nested Info under two names

  const SUB: InfoMap := [(Str("k"), To(3))]

  const TWICE: InfoMap := [(Str("a"), To(1)), (Str("b"), To(2))]

  const SHARED: Heap :=
    map[1 := Obj(INFO, [Nothing, Nothing, Entries(SUB)]), 2 := Obj(INFO, [Nothing, Nothing, Entries(SUB)]),
        3 := Obj(INT, [Nothing, Scalar(Num(4, 5))])]

  /** The integer is created before the two Infos. */
  function Age(a: Addr): nat {
    if a == 3 then 0 else 1
  }

  lemma TwiceHeapOk(env: Env)
    requires InfoEnv(env)
    ensures HeapOk(env, SHARED)
  {
    assert ValueOk(SHARED, OPTIONS, Entries(SUB));
    forall a | a in SHARED
      ensures SHARED[a].ty in env.classes && FieldsOk(SHARED, env.Shape(SHARED[a].ty), SHARED[a].fields)
    {
    }
  }

  lemma TwiceOk(env: Env)
    requires InfoEnv(env)
    ensures InfoOk(env, SHARED, TWICE) && BottomUp(SHARED, Age)
  {
    TwiceHeapOk(env);
  }

  lemma TwiceReach()
    ensures IsReach(SHARED, [Entries(TWICE)], {1, 2, 3})
  {
    assert TWICE[0].1.a in Targets(Entries(TWICE)) && TWICE[1].1.a in Targets(Entries(TWICE));
    assert SUB[0].1.a in Targets(Entries(SUB));
    assert Encloses(SHARED, [Entries(TWICE)], {1, 2, 3});
    forall S: set<Addr> | Encloses(SHARED, [Entries(TWICE)], S)
      ensures {1, 2, 3} <= S
    {
      assert Targets([Entries(TWICE)][0]) <= S;
      assert Targets(SHARED[1].fields[2]) <= S;
    }
  }

  lemma TwiceNotDistinct()
    ensures !EntriesDistinct(SHARED, TWICE, {1, 2, 3})
  {
    assert Member({1, 2, 3}, At(1)) && Member({1, 2, 3}, At(2));
    assert EntriesOf(SHARED, TWICE, At(1))[0].1 == EntriesOf(SHARED, TWICE, At(2))[0].1;
  }

  /**
   * Copying an Info shares its value objects, so an Info that was given the same nested Info under
   * two names has a value object with two entries. Such an Info cannot be loaded back.
   */
  lemma InfoSetTwiceIsLost(env: Env, tail: string)
    requires InfoEnv(env) && CodeOk(env)
    ensures InfoOk(env, SHARED, TWICE)
    ensures var w := Save(env, SHARED, [OPTIONS], [Entries(TWICE)]);
            w.Walk? &&
            var r := LoadInto(env, [OPTIONS], Wire(env, w.out, tail), NewValue([OPTIONS]));
            !Faithful(r, w.out) && (AllReadable(env, w.out) ==> r.Error?)
  {
    TwiceOk(env);
    TwiceReach();
    TwiceNotDistinct();
    SafeExactlyWhenDistinct(env, SHARED, TWICE, {1, 2, 3}, Age);
    NewReceives(env, SHARED, [OPTIONS], [Entries(TWICE)]);
    var _ := SaveThenLoad(env, SHARED, [OPTIONS], [Entries(TWICE)], NewValue([OPTIONS]), tail);
  }
}
