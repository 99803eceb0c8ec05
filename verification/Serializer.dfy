/** The serializer as the object it is: a stream and two pointer tables that every call updates. */
module SerializerClass {
  import opened ObjectGraph
  import opened StreamFormat
  import opened SaveWalk
  import opened LoadWalk

  function TypeName(env: Env, target: TypeId, ty: TypeId): seq<Token>
    requires ty == target || ty in env.names
  {
    if ty != target then [Str(env.names[ty])] else []
  }

  class Serializer {
    const env: Env
    var buffer: string          // mpBuffer: the characters that have been written and not yet read
    var saved: set<Addr>        // mSavedPointers
    var loaded: Table           // mLoadedPointers
    var mem: Memory             // the objects of the loading process
    ghost var out: seq<Token>   // the values written
    ghost var seen: seq<Token>  // the values read
    ghost var live: Live        // the pointees whose slots the reader of the stream can still use

    constructor (env: Env, buffer: string, mem: Memory)
      ensures this.env == env && this.buffer == buffer && this.mem == mem
      ensures saved == {} && loaded == map[] && out == [] && seen == [] && live == map[]
    {
      this.env, this.buffer, this.mem := env, buffer, mem;
      saved, loaded, out, seen, live := {}, map[], [], [], map[];
    }

    /** The buffer holds what was written and nothing else. */
    ghost predicate Sending()
      reads this
    {
      buffer == WrittenAll(env, out)
    }

    /** What is still to be read. */
    ghost function Rest(): Stream
      reads this
    {
      Stream(buffer, seen)
    }

    /** The state after a successful save that wrote `w`. */
    twostate predicate Wrote(w: Walk)
      reads this
    {
      w.Walk? && Sending() && out == old(out) + w.out && saved == w.done && live == w.live
    }

    /** The state after a successful load with result `r`. */
    ghost predicate Holds(r: Load)
      reads this
    {
      r.Loaded? && Rest() == r.rest && mem == r.mem && loaded == r.table
    }

    /** `write`: a string in quotes or after its length, any other value as the mode prints it. */
    method Write(t: Token)
      requires Sending()
      modifies this`buffer, this`out
      ensures Sending() && out == old(out) + [t]
      ensures buffer == old(buffer) + Written(env, t)
    {
      WrittenThen(env, out, t);
      buffer := buffer + Written(env, t);
      out := out + [t];
    }

    /** `read` into a variable of the wanted type. */
    method Read(want: Want) returns (ok: bool, t: Token)
      modifies this`buffer, this`seen
      ensures ok == Next(env, want, old(Rest())).Some?
      ensures ok ==> (t, Rest()) == Next(env, want, old(Rest())).value
    {
      t := Str("");
      if want.WantStr? {
        var r := if env.Binary() then ReadCounted(buffer) else ReadQuoted(buffer);
        ok := r.Some?;
        if ok { t, buffer := Str(r.value.0), r.value.1; }
      } else {
        var r := ReadValue(env, want, buffer);
        ok := r.Some?;
        if ok { t, buffer := r.value.0, r.value.1; }
      }
      if ok { seen := seen + [t]; }
    }

    method SaveTracePoint(tag: string)
      requires Sending()
      modifies this`buffer, this`out
      ensures Sending() && out == old(out) + Trace(env, tag)
    {
      if env.Tags() {
        Write(Str(tag));
      }
    }

    /** `save(tag, pointer)`: false when a derived class is not registered. */
    method SavePtr(h: Heap, tag: string, d: PtrType, p: Ptr) returns (ok: bool)
      requires HeapOk(env, h) && PtrOk(h, p) && Sending()
      modifies this`buffer, this`out, this`saved, this`live
      ensures ok == SaveWalk.SavePtr(env, h, tag, d, p, old(saved), old(live)).Walk?
      ensures ok ==> Wrote(SaveWalk.SavePtr(env, h, tag, d, p, old(saved), old(live)))
      decreases h.Keys - saved, 0, 1
    {
      if p.Null? {
        Write(Kind(0));
        return true;
      }
      Write(Kind(if h[p.a].ty == d.target then 1 else 2));
      ghost var w := SaveWalk.SavePtr(env, h, tag, d, p, saved, live);
      ok := SavePointer(h, tag, d, p.a);
      if ok {
        KindFirst(env, h, tag, d, p.a, old(saved), old(live));
        Regrouped(old(out), [w.out[0]], w.out[1..]);
      }
    }

    /** The address, and for a pointee that is met for the first time also its name and its body. */
    method SavePointer(h: Heap, tag: string, d: PtrType, a: Addr) returns (ok: bool)
      requires HeapOk(env, h) && a in h && Sending()
      modifies this`buffer, this`out, this`saved, this`live
      ensures var w := SaveWalk.SavePtr(env, h, tag, d, To(a), old(saved), old(live));
              && ok == w.Walk?
              && (ok ==> |w.out| > 0 && Sending() && out == old(out) + w.out[1..] && saved == w.done && live == w.live)
      decreases h.Keys - saved, 0, 0
    {
      Write(Address(a));
      if a in saved {
        assert PtrKnown(d.target, h[a].ty, a)[1..] == [Address(a)];
        return true;
      }
      saved := saved + {a};
      live := Met(live, a, d);
      ok := SaveBody(h, tag, d.target, a);
      NewPointee(env, h, tag, d, a, old(saved), old(live));
      ghost var w := SaveFields(env, h, env.Shape(h[a].ty), h[a].fields, 0, old(saved) + {a}, Met(old(live), a, d));
      if ok { Regrouped(old(out), [Address(a)], TypeName(env, d.target, h[a].ty) + Trace(env, tag) + w.out); }
    }

    /** What follows the address of a pointee that is met for the first time. */
    method SaveBody(h: Heap, tag: string, target: TypeId, a: Addr) returns (ok: bool)
      requires HeapOk(env, h) && a in h && a in saved && Sending()
      modifies this`buffer, this`out, this`saved, this`live
      ensures var ty := h[a].ty;
              var w := SaveFields(env, h, env.Shape(ty), h[a].fields, 0, old(saved), old(live));
              && ok == ((ty == target || ty in env.names) && w.Walk?)
              && (ok ==> Sending() && out == old(out) + (TypeName(env, target, ty) + Trace(env, tag) + w.out)
                         && saved == w.done && live == w.live)
      decreases h.Keys - saved, 5, 0
    {
      var ty := h[a].ty;
      ok := SaveTypeName(target, ty);
      if !ok {
        return false;
      }
      SaveTracePoint(tag);
      Regrouped(old(out), TypeName(env, target, ty), Trace(env, tag));
      ghost var w := SaveFields(env, h, env.Shape(ty), h[a].fields, 0, saved, live);
      ok := SaveObject(h, env.Shape(ty), h[a].fields);
      if ok { Regrouped(old(out), TypeName(env, target, ty) + Trace(env, tag), w.out); }
    }

    /** The registered name of a derived class. */
    method SaveTypeName(target: TypeId, ty: TypeId) returns (ok: bool)
      requires Sending()
      modifies this`buffer, this`out
      ensures ok <==> ty == target || ty in env.names
      ensures ok ==> Sending() && out == old(out) + TypeName(env, target, ty)
    {
      if ty == target {
        return true;
      }
      if ty !in env.names {
        return false;
      }
      Write(Str(env.names[ty]));
      return true;
    }

    /** The elements of a vector of pointers. */
    method SaveVector(h: Heap, d: PtrType, ps: seq<Ptr>) returns (ok: bool)
      requires HeapOk(env, h) && Sending()
      requires forall k :: 0 <= k < |ps| ==> PtrOk(h, ps[k])
      modifies this`buffer, this`out, this`saved, this`live
      ensures ok == SaveRefs(env, h, d, ps, 0, old(saved), old(live)).Walk?
      ensures ok ==> Wrote(SaveRefs(env, h, d, ps, 0, old(saved), old(live)))
      decreases h.Keys - saved, 1, 0
    {
      ghost var w := SaveRefs(env, h, d, ps, 0, saved, live);
      ghost var part := Walk([], saved, live, true);
      var j := 0;
      while j < |ps|
        invariant j <= |ps| && old(saved) <= saved
        invariant Wrote(part)
        invariant w == part.Then(SaveRefs(env, h, d, ps, j, saved, live))
      {
        ghost var step := SaveWalk.SavePtr(env, h, "E", d, ps[j], saved, live);
        RefsNext(env, h, d, ps, j, saved, live, part);
        ok := SavePtr(h, "E", d, ps[j]);
        if !ok {
          return false;
        }
        Appended(old(out), part, step);
        part := part.Then(step);
        j := j + 1;
      }
      return true;
    }

    /** The entries of a map in iteration order. */
    method SaveMap(h: Heap, d: PtrType, es: seq<(Token, Ptr)>) returns (ok: bool)
      requires HeapOk(env, h) && Sending()
      requires forall k :: 0 <= k < |es| ==> PtrOk(h, es[k].1)
      modifies this`buffer, this`out, this`saved, this`live
      ensures ok == SaveEntries(env, h, d, es, 0, old(saved), old(live)).Walk?
      ensures ok ==> Wrote(SaveEntries(env, h, d, es, 0, old(saved), old(live)))
      decreases h.Keys - saved, 2, 0
    {
      ghost var w := SaveEntries(env, h, d, es, 0, saved, live);
      ghost var part := Walk([], saved, live, true);
      var j := 0;
      while j < |es|
        invariant j <= |es| && old(saved) <= saved
        invariant Wrote(part)
        invariant w == part.Then(SaveEntries(env, h, d, es, j, saved, live))
      {
        ghost var step := SaveEntry(env, h, d, es[j], saved, live);
        EntriesNext(env, h, d, es, j, saved, live, part);
        ok := SavePair(h, d, es[j]);
        if !ok {
          return false;
        }
        Appended(old(out), part, step);
        part := part.Then(step);
        j := j + 1;
      }
      return true;
    }

    method SavePair(h: Heap, d: PtrType, e: (Token, Ptr)) returns (ok: bool)
      requires HeapOk(env, h) && PtrOk(h, e.1) && Sending()
      modifies this`buffer, this`out, this`saved, this`live
      ensures ok == SaveEntry(env, h, d, e, old(saved), old(live)).Walk?
      ensures ok ==> Wrote(SaveEntry(env, h, d, e, old(saved), old(live)))
      decreases h.Keys - saved, 1, 0
    {
      ghost var first := e.1.To? && e.1.a !in saved;
      ghost var head := Trace(env, "E") + Trace(env, "First") + [e.0];
      SaveKey(e.0);
      ghost var w := SaveWalk.SavePtr(env, h, "Second", d, e.1, saved, live);
      ok := SavePtr(h, "Second", d, e.1);
      if ok {
        Regrouped(old(out), head, w.out);
        if first { live := live - {e.1.a}; }
      }
    }

    method SaveKey(key: Token)
      requires Sending()
      modifies this`buffer, this`out
      ensures Sending() && out == old(out) + (Trace(env, "E") + Trace(env, "First") + [key])
    {
      SaveTracePoint("E");
      SaveTracePoint("First");
      Write(key);
    }

    method SaveField(h: Heap, f: FieldShape, v: Value) returns (ok: bool)
      requires HeapOk(env, h) && ValueOk(h, f, v) && Sending()
      modifies this`buffer, this`out, this`saved, this`live
      ensures ok == SaveWalk.SaveField(env, h, f, v, old(saved), old(live)).Walk?
      ensures ok ==> Wrote(SaveWalk.SaveField(env, h, f, v, old(saved), old(live)))
      decreases h.Keys - saved, 3, 0
    {
      match f {
        case MarkF(tag) =>
          SaveTracePoint(tag);
          ok := true;
        case ScalarF(tag, _) =>
          SaveTracePoint(tag);
          Write(v.t);
          Regrouped(old(out), Trace(env, tag), [v.t]);
          ok := true;
        case RefF(tag, d) =>
          ok := SavePtr(h, tag, d, v.p);
        case RefsF(tag, d) =>
          ghost var w := SaveRefs(env, h, d, v.ps, 0, saved, live);
          SaveSize(tag, |v.ps|);
          ok := SaveVector(h, d, v.ps);
          if ok { Regrouped(old(out), SizeHead(env, tag, |v.ps|), w.out); }
        case MapF(tag, _, d) =>
          ghost var w := SaveEntries(env, h, d, v.es, 0, saved, live);
          SaveSize(tag, |v.es|);
          ok := SaveMap(h, d, v.es);
          if ok { Regrouped(old(out), SizeHead(env, tag, |v.es|), w.out); }
      }
    }

    method SaveSize(tag: string, size: nat)
      requires Sending()
      modifies this`buffer, this`out
      ensures Sending() && out == old(out) + SizeHead(env, tag, size)
    {
      SaveTracePoint(tag);
      SaveTracePoint("size");
      Write(Num(8, size));
    }

    /** The body of a class's `save`: its fields one after the other. */
    method SaveObject(h: Heap, sh: seq<FieldShape>, vs: seq<Value>) returns (ok: bool)
      requires HeapOk(env, h) && FieldsOk(h, sh, vs) && Sending()
      modifies this`buffer, this`out, this`saved, this`live
      ensures ok == SaveFields(env, h, sh, vs, 0, old(saved), old(live)).Walk?
      ensures ok ==> Wrote(SaveFields(env, h, sh, vs, 0, old(saved), old(live)))
      decreases h.Keys - saved, 4, 0
    {
      ghost var w := SaveFields(env, h, sh, vs, 0, saved, live);
      ghost var part := Walk([], saved, live, true);
      var i := 0;
      while i < |sh|
        invariant i <= |sh| && old(saved) <= saved
        invariant Wrote(part)
        invariant w == part.Then(SaveFields(env, h, sh, vs, i, saved, live))
      {
        ghost var step := SaveWalk.SaveField(env, h, sh[i], vs[i], saved, live);
        FieldsNext(env, h, sh, vs, i, saved, live, part);
        ok := SaveField(h, sh[i], vs[i]);
        if !ok {
          return false;
        }
        Appended(old(out), part, step);
        part := part.Then(step);
        i := i + 1;
      }
      return true;
    }

    method LoadTracePoint(tag: string) returns (ok: bool)
      modifies this`buffer, this`seen
      ensures ok == ReadTrace(env, tag, old(Rest())).Some?
      ensures ok ==> Rest() == ReadTrace(env, tag, old(Rest())).value
    {
      if !env.Tags() {
        return true;
      }
      var t;
      ok, t := Read(WantStr);
      ok := ok && t == Str(tag);
    }

    method LoadSize(tag: string) returns (ok: bool, size: nat)
      modifies this`buffer, this`seen
      ensures ok == ReadSize(env, tag, old(Rest())).Some?
      ensures ok ==> (size, Rest()) == ReadSize(env, tag, old(Rest())).value
    {
      size := 0;
      ok := LoadTracePoint(tag);
      if !ok { return; }
      ok := LoadTracePoint("size");
      if !ok { return; }
      var t;
      ok, t := Read(WantNum(8));
      ok := ok && t.n >= 0;
      if ok { size := t.n; }
    }

    /** `load(tag, pointer)` into the pointer variable `c`. */
    method LoadPtr(tag: string, d: PtrType, c: Slot) returns (ok: bool)
      modifies this`buffer, this`seen, this`mem, this`loaded
      ensures ok == LoadWalk.LoadPtr(env, tag, d, c, old(Rest()), old(mem), old(loaded)).Loaded?
      ensures ok ==> Holds(LoadWalk.LoadPtr(env, tag, d, c, old(Rest()), old(mem), old(loaded)))
      decreases |buffer|, 0, 0
    {
      var kind, address;
      ok, kind := Read(WantKind);
      if !ok || ReadCell(mem, c).None? {
        return false;
      }
      if kind.k == 0 {
        return true;
      }
      ok, address := Read(WantAddress);
      if !ok {
        return false;
      }
      if address.a in loaded {
        var p := Lookup(mem, d, loaded[address.a]);
        if p.None? {
          return false;
        }
        mem := WriteCell(mem, c, p.value);
        return true;
      }
      ok := LoadPointee(tag, d, c, kind.k, address.a);
    }

    /** What follows the address of a pointee that is met for the first time. */
    method LoadPointee(tag: string, d: PtrType, c: Slot, k: nat, a: Addr) returns (ok: bool)
      requires ReadCell(mem, c).Some?
      modifies this`buffer, this`seen, this`mem, this`loaded
      ensures ok == Pointee(env, tag, d, c, k, a, old(Rest()), old(mem), old(loaded)).Loaded?
      ensures ok ==> Holds(Pointee(env, tag, d, c, k, a, old(Rest()), old(mem), old(loaded)))
      decreases |buffer|, 5, 0
    {
      var ty;
      ok, ty := LoadType(k, d.target);
      if !ok {
        return false;
      }
      ghost var typed := Rest();
      var n, newMem := Allocate(env, ty, mem, c).0, Allocate(env, ty, mem, c).1;
      mem := newMem;
      loaded := loaded[a := RecordOf(d, c, n)];
      ok := LoadTracePoint(tag);
      if !ok || n >= |mem| {
        return false;
      }
      ok := LoadObject(env.Shape(mem[n].ty), n);
    }

    /** The type to create: the static one, or the one registered under the name on the stream. */
    method LoadType(k: nat, target: TypeId) returns (ok: bool, ty: TypeId)
      modifies this`buffer, this`seen
      ensures ok == ReadType(env, k, target, old(Rest())).Some?
      ensures ok ==> (ty, Rest()) == ReadType(env, k, target, old(Rest())).value
    {
      ty := target;
      ok := k == 1;
      if k == 2 {
        var t;
        ok, t := Read(WantStr);
        ok := ok && t.s in env.prototypes;
        if ok { ty := env.prototypes[t.s]; }
      }
    }

    method LoadVector(d: PtrType, n: nat, i: nat, size: nat) returns (ok: bool)
      modifies this`buffer, this`seen, this`mem, this`loaded
      ensures ok == LoadRefs(env, d, n, i, 0, size, old(Rest()), old(mem), old(loaded)).Loaded?
      ensures ok ==> Holds(LoadRefs(env, d, n, i, 0, size, old(Rest()), old(mem), old(loaded)))
      decreases |buffer|, 1, 0
    {
      var j := 0;
      while j < size
        invariant j <= size && |buffer| <= |old(buffer)|
        invariant LoadRefs(env, d, n, i, 0, size, old(Rest()), old(mem), old(loaded))
               == LoadRefs(env, d, n, i, j, size, Rest(), mem, loaded)
      {
        ok := LoadPtr("E", d, Cell(n, i, j));
        if !ok {
          return false;
        }
        j := j + 1;
      }
      return true;
    }

    /** One pair of a map: loaded into a local variable, then moved into the map. */
    method LoadPair(f: FieldShape, n: nat, i: nat) returns (ok: bool)
      requires f.MapF?
      modifies this`buffer, this`seen, this`mem, this`loaded
      ensures ok == LoadEntry(env, f, n, i, old(Rest()), old(mem), old(loaded)).Loaded?
      ensures ok ==> Holds(LoadEntry(env, f, n, i, old(Rest()), old(mem), old(loaded)))
      decreases |buffer|, 1, 0
    {
      var key;
      ok, key := LoadKey(f.key);
      if !ok { return; }
      var t := |mem|;
      mem := mem + [TEMP];
      ok := LoadPtr("Second", f.ptr, Cell(t, 0, 0));
      if !ok { return; }
      var moved := MoveEntry(mem, n, i, key, t);
      ok := moved.Some?;
      if ok {
        mem := moved.value;
      }
    }

    method LoadKey(scalar: ScalarType) returns (ok: bool, key: Token)
      modifies this`buffer, this`seen
      ensures ok == ReadKey(env, scalar, old(Rest())).Some?
      ensures ok ==> (key, Rest()) == ReadKey(env, scalar, old(Rest())).value
    {
      key := Str("");
      ok := LoadTracePoint("E");
      if !ok { return; }
      ok := LoadTracePoint("First");
      if !ok { return; }
      ok, key := Read(WantOfType(scalar));
    }

    method LoadMap(f: FieldShape, n: nat, i: nat, size: nat) returns (ok: bool)
      requires f.MapF?
      modifies this`buffer, this`seen, this`mem, this`loaded
      ensures ok == LoadEntries(env, f, n, i, 0, size, old(Rest()), old(mem), old(loaded)).Loaded?
      ensures ok ==> Holds(LoadEntries(env, f, n, i, 0, size, old(Rest()), old(mem), old(loaded)))
      decreases |buffer|, 2, 0
    {
      var j := 0;
      while j < size
        invariant j <= size && |buffer| <= |old(buffer)|
        invariant LoadEntries(env, f, n, i, 0, size, old(Rest()), old(mem), old(loaded))
               == LoadEntries(env, f, n, i, j, size, Rest(), mem, loaded)
      {
        ok := LoadPair(f, n, i);
        if !ok {
          return false;
        }
        j := j + 1;
      }
      return true;
    }

    method LoadField(f: FieldShape, n: nat, i: nat) returns (ok: bool)
      modifies this`buffer, this`seen, this`mem, this`loaded
      ensures ok == LoadWalk.LoadField(env, f, n, i, old(Rest()), old(mem), old(loaded)).Loaded?
      ensures ok ==> Holds(LoadWalk.LoadField(env, f, n, i, old(Rest()), old(mem), old(loaded)))
      decreases |buffer|, 3, 0
    {
      if n >= |mem| || i >= |mem[n].fields| {
        return false;
      }
      match f {
        case MarkF(tag) =>
          ok := LoadTracePoint(tag);
        case ScalarF(tag, scalar) =>
          ok := LoadTracePoint(tag);
          if !ok { return; }
          var t;
          ok, t := Read(WantOfType(scalar));
          if ok {
            mem := mem[n := PutField(mem[n], i, Scalar(t))];
          }
        case RefF(tag, d) =>
          ok := LoadPtr(tag, d, Cell(n, i, 0));
        case RefsF(tag, d) =>
          var size;
          ok, size := LoadSize(tag);
          if !ok || !mem[n].fields[i].Refs? {
            return false;
          }
          mem := mem[n := PutField(mem[n], i, Refs(Resize(mem[n].fields[i].ps, size)))];
          ok := LoadVector(d, n, i, size);
        case MapF(tag, _, _) =>
          var size;
          ok, size := LoadSize(tag);
          if ok {
            ok := LoadMap(f, n, i, size);
          }
      }
    }

    method LoadObject(sh: seq<FieldShape>, n: nat) returns (ok: bool)
      modifies this`buffer, this`seen, this`mem, this`loaded
      ensures ok == LoadFields(env, sh, n, 0, old(Rest()), old(mem), old(loaded)).Loaded?
      ensures ok ==> Holds(LoadFields(env, sh, n, 0, old(Rest()), old(mem), old(loaded)))
      decreases |buffer|, 4, 0
    {
      var i := 0;
      while i < |sh|
        invariant i <= |sh| && |buffer| <= |old(buffer)|
        invariant LoadFields(env, sh, n, 0, old(Rest()), old(mem), old(loaded))
               == LoadFields(env, sh, n, i, Rest(), mem, loaded)
      {
        ok := LoadField(sh[i], n, i);
        if !ok {
          return false;
        }
        i := i + 1;
      }
      return true;
    }
  }

  /** The part of `LoadWalk.LoadPtr` after the address of a pointee that is met for the first time. */
  ghost function Pointee(env: Env, tag: string, d: PtrType, c: Slot, k: nat, a: Addr, s: Stream, mem: Memory,
                         table: Table): Load
    requires ReadCell(mem, c).Some?
  {
    match ReadHead(env, k, tag, d.target, s)
    case None => Error
    case Some((ty, s1)) =>
      var (n, mem1) := Allocate(env, ty, mem, c);
      if n >= |mem1| then Error
      else LoadFields(env, env.Shape(mem1[n].ty), n, 0, s1, mem1, table[a := RecordOf(d, c, n)])
  }

  lemma {:induction false} WrittenThen(env: Env, toks: seq<Token>, t: Token)
    ensures WrittenAll(env, toks + [t]) == WrittenAll(env, toks) + Written(env, t)
  {
    if toks == [] {
      assert [t][1..] == [] && toks + [t] == [t];
      assert WrittenAll(env, [t][1..]) == "";
    } else {
      WrittenThen(env, toks[1..], t);
      assert (toks + [t])[1..] == toks[1..] + [t];
    }
  }

  lemma KindFirst(env: Env, h: Heap, tag: string, d: PtrType, a: Addr, done: set<Addr>, live: Live)
    requires HeapOk(env, h) && a in h
    ensures var w := SaveWalk.SavePtr(env, h, tag, d, To(a), done, live);
            w.Walk? ==>
              w.out != [] && w.out[0] == Kind(if h[a].ty == d.target then 1 else 2) && [w.out[0]] + w.out[1..] == w.out
  {
  }

  lemma NewPointee(env: Env, h: Heap, tag: string, d: PtrType, a: Addr, done: set<Addr>, live: Live)
    requires HeapOk(env, h) && a in h && a !in done
    ensures var w := SaveWalk.SavePtr(env, h, tag, d, To(a), done, live);
            var ty := h[a].ty;
            var v := SaveFields(env, h, env.Shape(ty), h[a].fields, 0, done + {a}, Met(live, a, d));
            && w.Walk? == ((ty == d.target || ty in env.names) && v.Walk?)
            && (w.Walk? ==> |w.out| > 0
                            && w.out[1..] == [Address(a)] + (TypeName(env, d.target, ty) + Trace(env, tag) + v.out)
                            && w.done == v.done && w.live == v.live)
  {
    var ty := h[a].ty;
    var v := SaveFields(env, h, env.Shape(ty), h[a].fields, 0, done + {a}, Met(live, a, d));
    if v.Walk? && (ty == d.target || ty in env.names) {
      TailOfHead(env, tag, d.target, ty, a, v.out);
    }
  }

  lemma TailOfHead(env: Env, tag: string, target: TypeId, ty: TypeId, a: Addr, body: seq<Token>)
    requires ty == target || ty in env.names
    ensures (PtrHead(env, tag, target, ty, a) + body)[1..] ==
            [Address(a)] + (TypeName(env, target, ty) + Trace(env, tag) + body)
  {
  }

  lemma RefsNext(env: Env, h: Heap, d: PtrType, ps: seq<Ptr>, j: nat,
                 done: set<Addr>, live: Live, part: Walk)
    requires HeapOk(env, h) && j < |ps| && forall k :: 0 <= k < |ps| ==> PtrOk(h, ps[k])
    ensures var step := SaveWalk.SavePtr(env, h, "E", d, ps[j], done, live);
            part.Then(SaveRefs(env, h, d, ps, j, done, live))
            == if step.Failed? then Failed
               else part.Then(step).Then(SaveRefs(env, h, d, ps, j + 1, step.done, step.live))
  {
    var step := SaveWalk.SavePtr(env, h, "E", d, ps[j], done, live);
    if step.Walk? {
      ThenAssoc(part, step, SaveRefs(env, h, d, ps, j + 1, step.done, step.live));
    }
  }

  lemma EntriesNext(env: Env, h: Heap, d: PtrType, es: seq<(Token, Ptr)>, j: nat,
                    done: set<Addr>, live: Live, part: Walk)
    requires HeapOk(env, h) && j < |es| && forall k :: 0 <= k < |es| ==> PtrOk(h, es[k].1)
    ensures var step := SaveEntry(env, h, d, es[j], done, live);
            part.Then(SaveEntries(env, h, d, es, j, done, live))
            == if step.Failed? then Failed
               else part.Then(step).Then(SaveEntries(env, h, d, es, j + 1, step.done, step.live))
  {
    var step := SaveEntry(env, h, d, es[j], done, live);
    if step.Walk? {
      ThenAssoc(part, step, SaveEntries(env, h, d, es, j + 1, step.done, step.live));
    }
  }

  lemma FieldsNext(env: Env, h: Heap, sh: seq<FieldShape>, vs: seq<Value>, i: nat,
                   done: set<Addr>, live: Live, part: Walk)
    requires HeapOk(env, h) && FieldsOk(h, sh, vs) && i < |sh|
    ensures var step := SaveWalk.SaveField(env, h, sh[i], vs[i], done, live);
            part.Then(SaveFields(env, h, sh, vs, i, done, live))
            == if step.Failed? then Failed
               else part.Then(step).Then(SaveFields(env, h, sh, vs, i + 1, step.done, step.live))
  {
    var step := SaveWalk.SaveField(env, h, sh[i], vs[i], done, live);
    if step.Walk? {
      ThenAssoc(part, step, SaveFields(env, h, sh, vs, i + 1, step.done, step.live));
    }
  }

  lemma Appended(before: seq<Token>, a: Walk, b: Walk)
    requires a.Walk? && b.Walk?
    ensures before + a.out + b.out == before + a.Then(b).out
  {
  }

  lemma ThenAssoc(a: Walk, b: Walk, c: Walk)
    ensures a.Then(b).Then(c) == a.Then(b.Then(c))
  {
    if a.Walk? && b.Walk? && c.Walk? {
      assert (a.out + b.out) + c.out == a.out + (b.out + c.out);
    }
  }
}
