/** A loader that succeeds has read its values off the stream one after the other. */
module ReadFacts {
  import opened ObjectGraph
  import opened StreamFormat
  import opened LoadWalk

  /** The values read on the way from `s` to `s1`. */
  function ReadBetween(s: Stream, s1: Stream): seq<Token>
    requires |s.seen| <= |s1.seen|
  {
    s1.seen[|s.seen|..]
  }

  /** Reading some values leads from `s` to `s1`. */
  predicate Leads(env: Env, s: Stream, s1: Stream) {
    |s.seen| <= |s1.seen| && After(env, s, ReadBetween(s, s1)) == Some(s1)
  }

  predicate Honest(env: Env, s: Stream, r: Load) {
    r.Loaded? ==> Leads(env, s, r.rest)
  }

  lemma Stays(env: Env, s: Stream)
    ensures Leads(env, s, s)
  {
    assert ReadBetween(s, s) == [];
  }

  lemma LeadsOn(env: Env, s: Stream, s1: Stream, s2: Stream)
    requires Leads(env, s, s1) && Leads(env, s1, s2)
    ensures Leads(env, s, s2)
  {
    var a, b := ReadBetween(s, s1), ReadBetween(s1, s2);
    AfterConcat(env, s, a, b);
    assert s1.seen == s.seen + a && s2.seen == s1.seen + b;
    assert s2.seen == s.seen + (a + b);
    assert ReadBetween(s, s2) == a + b;
  }

  lemma NextLeads(env: Env, q: Want, s: Stream)
    ensures var r := Next(env, q, s); r.Some? ==> Leads(env, s, r.value.1)
  {
    var r := Next(env, q, s);
    if r.Some? {
      var (t, s1) := r.value;
      assert ReadBetween(s, s1) == [t];
      assert After(env, s1, []) == Some(s1);
      assert [t][1..] == [];
    }
  }

  lemma TraceLeads(env: Env, tag: string, s: Stream)
    ensures var r := ReadTrace(env, tag, s); r.Some? ==> Leads(env, s, r.value)
  {
    Stays(env, s);
    NextLeads(env, WantStr, s);
  }

  lemma HeadLeads(env: Env, k: nat, tag: string, target: TypeId, s: Stream)
    ensures var r := ReadHead(env, k, tag, target, s); r.Some? ==> Leads(env, s, r.value.1)
  {
    var r := ReadType(env, k, target, s);
    if r.Some? {
      var s1 := r.value.1;
      Stays(env, s);
      NextLeads(env, WantStr, s);
      TraceLeads(env, tag, s1);
      if ReadTrace(env, tag, s1).Some? { LeadsOn(env, s, s1, ReadTrace(env, tag, s1).value); }
    }
  }

  lemma KeyLeads(env: Env, key: ScalarType, s: Stream)
    ensures var r := ReadKey(env, key, s); r.Some? ==> Leads(env, s, r.value.1)
  {
    if ReadKey(env, key, s).Some? {
      var s1 := ReadTrace(env, "E", s).value;
      var s2 := ReadTrace(env, "First", s1).value;
      TraceLeads(env, "E", s);
      TraceLeads(env, "First", s1);
      NextLeads(env, WantOfType(key), s2);
      LeadsOn(env, s, s1, s2);
      LeadsOn(env, s, s2, Next(env, WantOfType(key), s2).value.1);
    }
  }

  lemma SizeLeads(env: Env, tag: string, s: Stream)
    ensures var r := ReadSize(env, tag, s); r.Some? ==> Leads(env, s, r.value.1)
  {
    if ReadSize(env, tag, s).Some? {
      var s1 := ReadTrace(env, tag, s).value;
      var s2 := ReadTrace(env, "size", s1).value;
      TraceLeads(env, tag, s);
      TraceLeads(env, "size", s1);
      NextLeads(env, WantNum(8), s2);
      LeadsOn(env, s, s1, s2);
      LeadsOn(env, s, s2, Next(env, WantNum(8), s2).value.1);
    }
  }

  lemma {:induction false} PtrHonest(env: Env, tag: string, d: PtrType, c: Slot, s: Stream, mem: Memory, table: Table)
    ensures Honest(env, s, LoadPtr(env, tag, d, c, s, mem, table))
    decreases |s.chars|, 0, 0
  {
    NextLeads(env, WantKind, s);
    match Next(env, WantKind, s)
    case None =>
    case Some((kind, s1)) =>
      NextLeads(env, WantAddress, s1);
      match Next(env, WantAddress, s1)
      case None =>
      case Some((address, s2)) =>
        LeadsOn(env, s, s1, s2);
        if ReadCell(mem, c).Some? && kind.k != 0 && address.a !in table {
          BodyHonest(env, tag, d, c, kind.k, address.a, s2, mem, table);
          var r := LoadPtr(env, tag, d, c, s, mem, table);
          if r.Loaded? { LeadsOn(env, s, s2, r.rest); }
        }
  }

  /** What is loaded for a pointee that is met for the first time. */
  lemma {:induction false} BodyHonest(env: Env, tag: string, d: PtrType, c: Slot, k: nat, a: Addr, s: Stream,
                                      mem: Memory, table: Table)
    requires ReadCell(mem, c).Some?
    ensures var h := ReadHead(env, k, tag, d.target, s);
            h.Some? ==>
              var (n, mem1) := Allocate(env, h.value.0, mem, c);
              n < |mem1| ==>
                Honest(env, s,
                       LoadFields(env, env.Shape(mem1[n].ty), n, 0, h.value.1, mem1, table[a := RecordOf(d, c, n)]))
    decreases |s.chars|, 5, 0
  {
    HeadLeads(env, k, tag, d.target, s);
    match ReadHead(env, k, tag, d.target, s)
    case None =>
    case Some((ty, s1)) =>
      var (n, mem1) := Allocate(env, ty, mem, c);
      if n < |mem1| {
        var table1 := table[a := RecordOf(d, c, n)];
        FieldsHonest(env, env.Shape(mem1[n].ty), n, 0, s1, mem1, table1);
        var r := LoadFields(env, env.Shape(mem1[n].ty), n, 0, s1, mem1, table1);
        if r.Loaded? { LeadsOn(env, s, s1, r.rest); }
      }
  }

  lemma {:induction false} RefsHonest(env: Env, d: PtrType, n: nat, i: nat, j: nat, size: nat, s: Stream, mem: Memory,
                                      table: Table)
    requires j <= size
    ensures Honest(env, s, LoadRefs(env, d, n, i, j, size, s, mem, table))
    decreases |s.chars|, 1, size - j
  {
    if j == size {
      Stays(env, s);
    } else {
      PtrHonest(env, "E", d, Cell(n, i, j), s, mem, table);
      match LoadPtr(env, "E", d, Cell(n, i, j), s, mem, table)
      case Error =>
      case Loaded(s1, mem1, table1) =>
        RefsHonest(env, d, n, i, j + 1, size, s1, mem1, table1);
        var r := LoadRefs(env, d, n, i, j + 1, size, s1, mem1, table1);
        if r.Loaded? { LeadsOn(env, s, s1, r.rest); }
    }
  }

  lemma {:induction false} EntryHonest(env: Env, f: FieldShape, n: nat, i: nat, s: Stream, mem: Memory, table: Table)
    requires f.MapF?
    ensures Honest(env, s, LoadEntry(env, f, n, i, s, mem, table))
    decreases |s.chars|, 1, 0
  {
    KeyLeads(env, f.key, s);
    match ReadKey(env, f.key, s)
    case None =>
    case Some((key, s1)) =>
      PtrHonest(env, "Second", f.ptr, Cell(|mem|, 0, 0), s1, mem + [TEMP], table);
      var r := LoadPtr(env, "Second", f.ptr, Cell(|mem|, 0, 0), s1, mem + [TEMP], table);
      if r.Loaded? { LeadsOn(env, s, s1, r.rest); }
  }

  lemma {:induction false} EntriesHonest(env: Env, f: FieldShape, n: nat, i: nat, j: nat, size: nat, s: Stream,
                                         mem: Memory, table: Table)
    requires f.MapF? && j <= size
    ensures Honest(env, s, LoadEntries(env, f, n, i, j, size, s, mem, table))
    decreases |s.chars|, 2, size - j
  {
    if j == size {
      Stays(env, s);
    } else {
      EntryHonest(env, f, n, i, s, mem, table);
      match LoadEntry(env, f, n, i, s, mem, table)
      case Error =>
      case Loaded(s1, mem1, table1) =>
        EntriesHonest(env, f, n, i, j + 1, size, s1, mem1, table1);
        var r := LoadEntries(env, f, n, i, j + 1, size, s1, mem1, table1);
        if r.Loaded? { LeadsOn(env, s, s1, r.rest); }
    }
  }

  lemma {:induction false} FieldHonest(env: Env, f: FieldShape, n: nat, i: nat, s: Stream, mem: Memory, table: Table)
    ensures Honest(env, s, LoadField(env, f, n, i, s, mem, table))
    decreases |s.chars|, 3, 0
  {
    if n < |mem| && i < |mem[n].fields| {
      match f {
        case MarkF(tag) => TraceLeads(env, tag, s);
        case ScalarF(tag, scalar) =>
          TraceLeads(env, tag, s);
          if ReadTrace(env, tag, s).Some? {
            var s1 := ReadTrace(env, tag, s).value;
            NextLeads(env, WantOfType(scalar), s1);
            var r := Next(env, WantOfType(scalar), s1);
            if r.Some? { LeadsOn(env, s, s1, r.value.1); }
          }
        case RefF(tag, d) => PtrHonest(env, tag, d, Cell(n, i, 0), s, mem, table);
        case RefsF(tag, _) => VectorHonest(env, f, n, i, s, mem, table);
        case MapF(tag, _, _) =>
          SizeLeads(env, tag, s);
          if ReadSize(env, tag, s).Some? {
            var (size, s1) := ReadSize(env, tag, s).value;
            EntriesHonest(env, f, n, i, 0, size, s1, mem, table);
            var r := LoadEntries(env, f, n, i, 0, size, s1, mem, table);
            if r.Loaded? { LeadsOn(env, s, s1, r.rest); }
          }
      }
    }
  }

  lemma {:induction false} VectorHonest(env: Env, f: FieldShape, n: nat, i: nat, s: Stream, mem: Memory, table: Table)
    requires f.RefsF? && n < |mem| && i < |mem[n].fields|
    ensures Honest(env, s, LoadField(env, f, n, i, s, mem, table))
    decreases |s.chars|, 2, 0
  {
    SizeLeads(env, f.tag, s);
    if ReadSize(env, f.tag, s).Some? && mem[n].fields[i].Refs? {
      var (size, s1) := ReadSize(env, f.tag, s).value;
      var mem1 := mem[n := PutField(mem[n], i, Refs(Resize(mem[n].fields[i].ps, size)))];
      RefsHonest(env, f.ptr, n, i, 0, size, s1, mem1, table);
      var r := LoadRefs(env, f.ptr, n, i, 0, size, s1, mem1, table);
      if r.Loaded? { LeadsOn(env, s, s1, r.rest); }
    }
  }

  /** Main result: whatever `load` reads, it is what the stream holds next. */
  lemma {:induction false} FieldsHonest(env: Env, sh: seq<FieldShape>, n: nat, i: nat, s: Stream, mem: Memory,
                                        table: Table)
    requires i <= |sh|
    ensures Honest(env, s, LoadFields(env, sh, n, i, s, mem, table))
    decreases |s.chars|, 4, |sh| - i
  {
    if i == |sh| {
      Stays(env, s);
    } else {
      FieldHonest(env, sh[i], n, i, s, mem, table);
      match LoadField(env, sh[i], n, i, s, mem, table)
      case Error =>
      case Loaded(s1, mem1, table1) =>
        FieldsHonest(env, sh, n, i + 1, s1, mem1, table1);
        var r := LoadFields(env, sh, n, i + 1, s1, mem1, table1);
        if r.Loaded? { LeadsOn(env, s, s1, r.rest); }
    }
  }
}
