/** What `load` builds from a stream: the specification of the loading half of the serializer. */
module LoadWalk {
  import opened ObjectGraph
  import opened StreamFormat

  /** The memory of the loading process; an object's address is its index. */
  type Memory = seq<Obj>

  /** A pointer variable, or the pointee itself. */
  datatype Slot = Cell(obj: nat, field: nat, elem: nat) | Whole(obj: nat)

  /**
   * What `mLoadedPointers` records for a pointee: the pointer variable it was first loaded into,
   * or, for a `unique_ptr`, the pointee itself. The address is kept without its type, here `ptr`.
   */
  datatype Record = Record(slot: Slot, ptr: PtrType)

  type Table = map<Addr, Record>

  /** `Error` is an exception, the end of the stream, or a use the language leaves undefined. */
  datatype Load = Error | Loaded(rest: Stream, mem: Memory, table: Table)

  predicate Shorter(r: Load, s: Stream) {
    r.Loaded? ==> |r.rest.chars| <= |s.chars|
  }

  /** The pointer variable of a pair that a map entry is loaded into. */
  const TEMP := Obj("", [Ref(Null)])
  /** The same variable after the pair has been moved into the map. */
  const DEAD := Obj("", [])

  function ReadCell(mem: Memory, c: Slot): Option<Ptr> {
    if c.Whole? || c.obj >= |mem| || c.field >= |mem[c.obj].fields| then None
    else
      match mem[c.obj].fields[c.field]
      case Ref(p) => if c.elem == 0 then Some(p) else None
      case Refs(ps) => if c.elem < |ps| then Some(ps[c.elem]) else None
      case _ => None
  }

  function PutValue(v: Value, elem: nat, p: Ptr): Value
    requires v.Ref? || (v.Refs? && elem < |v.ps|)
  {
    if v.Ref? then Ref(p) else Refs(v.ps[elem := p])
  }

  function PutField(o: Obj, i: nat, v: Value): Obj
    requires i < |o.fields|
  {
    Obj(o.ty, o.fields[i := v])
  }

  function WriteCell(mem: Memory, c: Slot, p: Ptr): Memory
    requires ReadCell(mem, c).Some?
  {
    mem[c.obj := PutField(mem[c.obj], c.field, PutValue(mem[c.obj].fields[c.field], c.elem, p))]
  }

  function DefaultValue(f: FieldShape): Value {
    match f
    case MarkF(_) => Nothing
    case ScalarF(_, scalar) => Scalar(if scalar.Text? then Str("") else Num(scalar.width, 0))
    case RefF(_, _) => Ref(Null)
    case RefsF(_, _) => Refs([])
    case MapF(_, _, _) => Entries([])
  }

  /** The fields of a default constructed object. */
  function Defaults(sh: seq<FieldShape>): (vs: seq<Value>)
  {
    seq(|sh|, i requires 0 <= i < |sh| => DefaultValue(sh[i]))
  }

  function ReadTrace(env: Env, tag: string, s: Stream): (r: Option<Stream>)
    ensures r.Some? ==> |r.value.chars| <= |s.chars|
  {
    if !env.Tags() then Some(s)
    else
      match Next(env, WantStr, s)
      case None => None
      case Some((t, s1)) => if t == Str(tag) then Some(s1) else None
  }

  /** The type to create: the static one, or the one registered under the name on the stream. */
  function ReadType(env: Env, k: nat, target: TypeId, s: Stream): (r: Option<(TypeId, Stream)>)
    ensures r.Some? ==> |r.value.1.chars| <= |s.chars|
  {
    if k == 1 then Some((target, s))
    else if k == 2 then
      match Next(env, WantStr, s)
      case None => None
      case Some((t, s1)) => if t.s in env.prototypes then Some((env.prototypes[t.s], s1)) else None
    else None
  }

  /** The head of a pointee that is met for the first time, after its kind and address. */
  function ReadHead(env: Env, k: nat, tag: string, target: TypeId, s: Stream): (r: Option<(TypeId, Stream)>)
    ensures r.Some? ==> |r.value.1.chars| <= |s.chars|
  {
    match ReadType(env, k, target, s)
    case None => None
    case Some((ty, s1)) =>
      match ReadTrace(env, tag, s1)
      case None => None
      case Some(s2) => Some((ty, s2))
  }

  /** Points the variable to a new default object unless it already points to one. */
  function Allocate(env: Env, ty: TypeId, mem: Memory, c: Slot): (r: (nat, Memory))
    requires ReadCell(mem, c).Some?
  {
    var current := ReadCell(mem, c).value;
    if current.To? then (current.a, mem)
    else (|mem|, WriteCell(mem, c, To(|mem|)) + [Obj(ty, Defaults(env.Shape(ty)))])
  }

  /**
   * Reading a recorded slot again: possible while the pointer variable exists and through a pointer
   * of the same type, never through a `unique_ptr`.
   */
  function Lookup(mem: Memory, d: PtrType, rec: Record): Option<Ptr> {
    if d.kind.Unique? || rec.ptr != d then None else ReadCell(mem, rec.slot)
  }

  function RecordOf(d: PtrType, c: Slot, n: nat): Record {
    Record(if d.kind.Unique? then Whole(n) else c, d)
  }

  function LoadPtr(env: Env, tag: string, d: PtrType, c: Slot,
                   s: Stream, mem: Memory, table: Table): (r: Load)
    ensures Shorter(r, s) && (r.Loaded? ==> |r.rest.chars| < |s.chars|)
    decreases |s.chars|, 0, 0
  {
    match Next(env, WantKind, s)
    case None => Error
    case Some((kind, s1)) =>
      if ReadCell(mem, c).None? then Error
      else if kind.k == 0 then Loaded(s1, mem, table)
      else
        match Next(env, WantAddress, s1)
        case None => Error
        case Some((address, s2)) =>
          if address.a in table then
            match Lookup(mem, d, table[address.a])
            case None => Error
            case Some(p) => Loaded(s2, WriteCell(mem, c, p), table)
          else
            match ReadHead(env, kind.k, tag, d.target, s2)
            case None => Error
            case Some((ty, s3)) =>
              var (n, mem1) := Allocate(env, ty, mem, c);
              if n >= |mem1| then Error
              else LoadFields(env, env.Shape(mem1[n].ty), n, 0, s3, mem1, table[address.a := RecordOf(d, c, n)])
  }

  /** The elements of a vector that has been resized to `size`. */
  function LoadRefs(env: Env, d: PtrType, n: nat, i: nat, j: nat, size: nat,
                    s: Stream, mem: Memory, table: Table): (r: Load)
    requires j <= size
    ensures Shorter(r, s)
    decreases |s.chars|, 1, size - j
  {
    if j == size then Loaded(s, mem, table)
    else
      match LoadPtr(env, "E", d, Cell(n, i, j), s, mem, table)
      case Error => Error
      case Loaded(s1, mem1, table1) => LoadRefs(env, d, n, i, j + 1, size, s1, mem1, table1)
  }

  /** `insert` leaves an existing entry alone. */
  function Insert(es: seq<(Token, Ptr)>, e: (Token, Ptr)): seq<(Token, Ptr)> {
    if exists k :: 0 <= k < |es| && es[k].0 == e.0 then es else es + [e]
  }

  /** Ends the life of the pair at `t` by moving it into the map at field `i` of object `n`. */
  function MoveEntry(mem: Memory, n: nat, i: nat, key: Token, t: nat): Option<Memory> {
    if t < |mem| && n < |mem| && n != t && i < |mem[n].fields| && mem[n].fields[i].Entries?
       && ReadCell(mem, Cell(t, 0, 0)).Some?
    then
      var es := Insert(mem[n].fields[i].es, (key, ReadCell(mem, Cell(t, 0, 0)).value));
      Some(mem[n := PutField(mem[n], i, Entries(es))][t := DEAD])
    else None
  }

  function WantOfType(scalar: ScalarType): Want {
    match scalar
    case Text => WantStr
    case Number(width) => WantNum(width)
  }

  function ReadKey(env: Env, key: ScalarType, s: Stream): (r: Option<(Token, Stream)>)
    ensures r.Some? ==> |r.value.1.chars| <= |s.chars|
  {
    match ReadTrace(env, "E", s)
    case None => None
    case Some(s1) =>
      match ReadTrace(env, "First", s1)
      case None => None
      case Some(s2) => Next(env, WantOfType(key), s2)
  }

  function LoadEntry(env: Env, f: FieldShape, n: nat, i: nat,
                     s: Stream, mem: Memory, table: Table): (r: Load)
    requires f.MapF?
    ensures Shorter(r, s) && (r.Loaded? ==> |r.rest.chars| < |s.chars|)
    decreases |s.chars|, 1, 0
  {
    match ReadKey(env, f.key, s)
    case None => Error
    case Some((key, s1)) =>
      InsertLoaded(LoadPtr(env, "Second", f.ptr, Cell(|mem|, 0, 0), s1, mem + [TEMP], table), n, i, key, |mem|)
  }

  function InsertLoaded(l: Load, n: nat, i: nat, key: Token, t: nat): (r: Load)
    ensures r.Loaded? ==> l.Loaded? && r.rest == l.rest
  {
    match l
    case Error => Error
    case Loaded(s, mem, table) =>
      match MoveEntry(mem, n, i, key, t)
      case None => Error
      case Some(mem1) => Loaded(s, mem1, table)
  }

  function LoadEntries(env: Env, f: FieldShape, n: nat, i: nat, j: nat, size: nat,
                       s: Stream, mem: Memory, table: Table): (r: Load)
    requires f.MapF? && j <= size
    ensures Shorter(r, s)
    decreases |s.chars|, 2, size - j
  {
    if j == size then Loaded(s, mem, table)
    else
      match LoadEntry(env, f, n, i, s, mem, table)
      case Error => Error
      case Loaded(s1, mem1, table1) => LoadEntries(env, f, n, i, j + 1, size, s1, mem1, table1)
  }

  function ReadSize(env: Env, tag: string, s: Stream): (r: Option<(nat, Stream)>)
    ensures r.Some? ==> |r.value.1.chars| <= |s.chars|
  {
    match ReadTrace(env, tag, s)
    case None => None
    case Some(s1) =>
      match ReadTrace(env, "size", s1)
      case None => None
      case Some(s2) =>
        match Next(env, WantNum(8), s2)
        case None => None
        case Some((t, s3)) => if t.n >= 0 then Some((t.n, s3)) else None
  }

  /** `vector::resize`: keeps a prefix, fills up with null pointers. */
  function Resize(ps: seq<Ptr>, size: nat): (r: seq<Ptr>)
    ensures |r| == size
  {
    if |ps| >= size then ps[..size] else ps + seq(size - |ps|, _ => Null)
  }

  function LoadField(env: Env, f: FieldShape, n: nat, i: nat,
                     s: Stream, mem: Memory, table: Table): (r: Load)
    ensures Shorter(r, s)
    decreases |s.chars|, 3, 0
  {
    if n >= |mem| || i >= |mem[n].fields| then Error
    else
      match f
      case MarkF(tag) =>
        (match ReadTrace(env, tag, s)
         case None => Error
         case Some(s1) => Loaded(s1, mem, table))
      case ScalarF(tag, scalar) =>
        (match ReadTrace(env, tag, s)
         case None => Error
         case Some(s1) =>
           match Next(env, WantOfType(scalar), s1)
           case None => Error
           case Some((t, s2)) => Loaded(s2, mem[n := PutField(mem[n], i, Scalar(t))], table))
      case RefF(tag, d) => LoadPtr(env, tag, d, Cell(n, i, 0), s, mem, table)
      case RefsF(tag, d) =>
        (match ReadSize(env, tag, s)
         case None => Error
         case Some((size, s1)) =>
           if !mem[n].fields[i].Refs? then Error
           else LoadRefs(env, d, n, i, 0, size, s1,
                         mem[n := PutField(mem[n], i, Refs(Resize(mem[n].fields[i].ps, size)))], table))
      case MapF(tag, _, _) =>
        (match ReadSize(env, tag, s)
         case None => Error
         case Some((size, s1)) => LoadEntries(env, f, n, i, 0, size, s1, mem, table))
  }

  function LoadFields(env: Env, sh: seq<FieldShape>, n: nat, i: nat,
                      s: Stream, mem: Memory, table: Table): (r: Load)
    requires i <= |sh|
    ensures Shorter(r, s)
    decreases |s.chars|, 4, |sh| - i
  {
    if i == |sh| then Loaded(s, mem, table)
    else
      match LoadField(env, sh[i], n, i, s, mem, table)
      case Error => Error
      case Loaded(s1, mem1, table1) => LoadFields(env, sh, n, i + 1, s1, mem1, table1)
  }
}
