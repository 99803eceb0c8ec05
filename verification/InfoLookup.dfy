/** Looking up a key, or a path of keys, in the entries of an Info. */
module InfoLookup {
  import opened ObjectGraph
  import opened LoadWalk

  const INFO: TypeId := "InfoData<Info>"

  /** The entries of an Info: keys with pointers to its values. */
  type InfoMap = seq<(Token, Ptr)>

  predicate DistinctKeys(es: InfoMap) {
    forall j, k :: 0 <= j < k < |es| ==> es[j].0 != es[k].0
  }

  function Find(es: InfoMap, key: string): Option<Ptr> {
    if es == [] then None else if es[0].0 == Str(key) then Some(es[0].1) else Find(es[1..], key)
  }

  function ValueAt(h: Heap, es: InfoMap, key: string): Option<Obj> {
    match Find(es, key)
    case None => None
    case Some(p) => if p.Null? || p.a !in h || |h[p.a].fields| < 2 then None else Some(h[p.a])
  }

  /** What is found by descending through nested Infos along `path`: the type and, for a scalar, the value. */
  function GetPath(h: Heap, es: InfoMap, path: seq<string>): Option<(TypeId, Value)>
    decreases |path|
  {
    if path == [] then None
    else
      match ValueAt(h, es, path[0])
      case None => None
      case Some(o) =>
        if |path| == 1 then Some((o.ty, o.fields[1]))
        else if o.ty != INFO || |o.fields| < 3 || !o.fields[2].Entries? then None
        else GetPath(h, o.fields[2].es, path[1..])
  }

  function HeapOf(mem: Memory): Heap {
    map a: nat | a < |mem| :: mem[a]
  }

  /** Main result: what is found under a key is the pointer of the entry with that key. */
  lemma {:induction false} FindIsEntry(es: InfoMap, key: string, p: Ptr)
    requires DistinctKeys(es)
    ensures Find(es, key) == Some(p) <==> exists j :: 0 <= j < |es| && es[j] == (Str(key), p)
  {
    if es != [] {
      FindIsEntry(es[1..], key, p);
      assert forall j :: 1 <= j < |es| ==> es[j] == es[1..][j - 1];
      if Find(es[1..], key) == Some(p) {
        var j :| 0 <= j < |es[1..]| && es[1..][j] == (Str(key), p);
        assert es[j + 1] == (Str(key), p);
      }
    }
  }

  /** `Has`: nothing is found under a key exactly if no entry has it. */
  lemma {:induction false} FindNone(es: InfoMap, key: string)
    ensures Find(es, key).None? <==> forall j :: 0 <= j < |es| ==> es[j].0 != Str(key)
  {
    if es != [] {
      FindNone(es[1..], key);
      assert forall j :: 1 <= j < |es| ==> es[j] == es[1..][j - 1];
    }
  }

  /** Entry `j` has the key and points to a value object at `a`. */
  predicate EntryAt(h: Heap, es: InfoMap, key: string, j: nat, a: Addr) {
    j < |es| && es[j] == (Str(key), To(a)) && a in h && |h[a].fields| >= 2
  }

  predicate Nested(o: Obj) {
    o.ty == INFO && |o.fields| >= 3 && o.fields[2].Entries?
  }

  /** Through the entries themselves, the path leads to a value object of this type with this value. */
  ghost predicate Leads(h: Heap, es: InfoMap, path: seq<string>, ty: TypeId, v: Value)
    decreases |path|, 0
  {
    path != [] && exists j: nat, a: nat :: EntryAt(h, es, path[0], j, a) && LeadsOn(h, h[a], path[1..], ty, v)
  }

  /** From a value object on: the object itself, or along the rest of the path through the entries of a nested Info. */
  ghost predicate LeadsOn(h: Heap, o: Obj, path: seq<string>, ty: TypeId, v: Value)
    requires |o.fields| >= 2
    decreases |path|, 1
  {
    if path == [] then ty == o.ty && v == o.fields[1]
    else Nested(o) && Leads(h, o.fields[2].es, path, ty, v)
  }

  /** No Info has two entries with the same key. */
  ghost predicate AllDistinct(h: Heap) {
    forall a :: a in h && Nested(h[a]) ==> DistinctKeys(h[a].fields[2].es)
  }

  lemma ValueIsEntry(h: Heap, es: InfoMap, key: string, a: Addr)
    requires DistinctKeys(es) && a in h
    ensures (exists j: nat :: EntryAt(h, es, key, j, a)) ==> ValueAt(h, es, key) == Some(h[a])
    ensures Find(es, key) == Some(To(a)) && |h[a].fields| >= 2 ==> exists j: nat :: EntryAt(h, es, key, j, a)
  {
    FindIsEntry(es, key, To(a));
    if j: nat :| EntryAt(h, es, key, j, a) {
      assert es[j] == (Str(key), To(a));
    }
    if Find(es, key) == Some(To(a)) && |h[a].fields| >= 2 {
      var j :| 0 <= j < |es| && es[j] == (Str(key), To(a));
      assert EntryAt(h, es, key, j, a);
    }
  }

  /** Main result: what is found along a path is what the entries lead to. */
  lemma {:induction false} PathLeads(h: Heap, es: InfoMap, path: seq<string>, ty: TypeId, v: Value)
    requires DistinctKeys(es) && AllDistinct(h)
    ensures GetPath(h, es, path) == Some((ty, v)) <==> Leads(h, es, path, ty, v)
    decreases |path|
  {
    if GetPath(h, es, path) == Some((ty, v)) {
      var a := Find(es, path[0]).value.a;
      ValueIsEntry(h, es, path[0], a);
      var j: nat :| EntryAt(h, es, path[0], j, a);
      if |path| > 1 { PathLeads(h, h[a].fields[2].es, path[1..], ty, v); }
    }
    if Leads(h, es, path, ty, v) {
      var j: nat, a: nat :| EntryAt(h, es, path[0], j, a) && LeadsOn(h, h[a], path[1..], ty, v);
      ValueIsEntry(h, es, path[0], a);
      if |path| > 1 { PathLeads(h, h[a].fields[2].es, path[1..], ty, v); }
    }
  }
}
