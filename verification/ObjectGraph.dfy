/** Object graphs, their class descriptions and the tokens of a serializer stream. */
module ObjectGraph {

  datatype Option<+T> = None | Some(value: T)

  type Addr = nat
  type TypeId = string

  datatype Ptr = Null | To(a: Addr)

  /** What the serializer puts on its stream, one token per `write`. */
  datatype Token =
    | Kind(k: nat)              // PointerType: 0 invalid, 1 base class, 2 derived class
    | Address(a: Addr)          // the address of a pointee
    | Str(s: string)            // a string value, a trace tag or a registered name
    | Num(width: nat, n: int)   // any other value, of a type of `width` bytes

  /** What one `read` of the serializer asks for: the type of the variable it reads into. */
  datatype Want = WantKind | WantAddress | WantStr | WantNum(width: nat)

  function WantOf(t: Token): Want {
    match t
    case Kind(_) => WantKind
    case Address(_) => WantAddress
    case Str(_) => WantStr
    case Num(width, _) => WantNum(width)
  }

  datatype Mode = NoTrace | TraceError | TraceAll | Ascii

  /** How the current mode represents the values that are not strings: what is written, and what a read makes of it. */
  datatype NumberCode = NumberCode(form: Token -> string, scan: (Want, string) -> Option<Token>)

  datatype ScalarType = Text | Number(width: nat)

  datatype PtrKind = Shared | Intrusive | Unique | Raw

  /** A pointer type: `std::shared_ptr<target>` and so on. */
  datatype PtrType = PtrType(kind: PtrKind, target: TypeId)

  /** One step of a class's `save`/`load` body; every step carries its trace tag. */
  datatype FieldShape =
    | MarkF(tag: string)                                 // object held by value, or base class: trace point only
    | ScalarF(tag: string, scalar: ScalarType)
    | RefF(tag: string, ptr: PtrType)
    | RefsF(tag: string, ptr: PtrType)                   // vector of pointers
    | MapF(tag: string, key: ScalarType, ptr: PtrType)   // map from a scalar to a pointer

  datatype Value =
    | Nothing
    | Scalar(t: Token)
    | Ref(p: Ptr)
    | Refs(ps: seq<Ptr>)
    | Entries(es: seq<(Token, Ptr)>)                     // in iteration order

  datatype Obj = Obj(ty: TypeId, fields: seq<Value>)

  type Heap = map<Addr, Obj>

  /** What a field belongs to: an object of the heap, or the value handed to `save`. */
  datatype Owner = Root | At(a: Addr)

  /** A registered name creates the type that was registered under it. */
  predicate Consistent(names: map<TypeId, string>, prototypes: map<string, TypeId>) {
    forall ty :: ty in names ==> names[ty] in prototypes && prototypes[names[ty]] == ty
  }

  /** The classes, and the two static registries of the serializer. */
  datatype Env = Env(
    mode: Mode,
    code: NumberCode,
    classes: map<TypeId, seq<FieldShape>>,
    names: map<TypeId, string>,      // type id -> registered name
    prototypes: map<string, TypeId>) // registered name -> type created for it
  {
    predicate Binary() {
      mode.NoTrace?
    }

    predicate Tags() {
      mode.TraceError? || mode.TraceAll?
    }

    function Shape(ty: TypeId): seq<FieldShape> {
      if ty in classes then classes[ty] else []
    }

    predicate RegistryOk() {
      Consistent(names, prototypes)
    }
  }

  predicate ScalarOk(scalar: ScalarType, t: Token) {
    match scalar
    case Text => t.Str?
    case Number(width) => t.Num? && t.width == width
  }

  predicate PtrOk(h: Heap, p: Ptr) {
    p.To? ==> p.a in h
  }

  predicate ValueOk(h: Heap, f: FieldShape, v: Value) {
    match f
    case MarkF(_) => v.Nothing?
    case ScalarF(_, scalar) => v.Scalar? && ScalarOk(scalar, v.t)
    case RefF(_, _) => v.Ref? && PtrOk(h, v.p)
    case RefsF(_, _) => v.Refs? && forall j :: 0 <= j < |v.ps| ==> PtrOk(h, v.ps[j])
    case MapF(_, key, _) =>
      && v.Entries?
      && (forall j :: 0 <= j < |v.es| ==> ScalarOk(key, v.es[j].0) && PtrOk(h, v.es[j].1))
      && (forall j, k :: 0 <= j < k < |v.es| ==> v.es[j].0 != v.es[k].0)
  }

  predicate FieldsOk(h: Heap, sh: seq<FieldShape>, vs: seq<Value>) {
    |sh| == |vs| && forall i :: 0 <= i < |sh| ==> ValueOk(h, sh[i], vs[i])
  }

  /** Every object has the fields of its class and no pointer leaves the heap. */
  predicate HeapOk(env: Env, h: Heap) {
    forall a :: a in h ==> h[a].ty in env.classes && FieldsOk(h, env.Shape(h[a].ty), h[a].fields)
  }

  /** The addresses a field value points to. */
  function Targets(v: Value): set<Addr> {
    match v
    case Ref(p) => if p.To? then {p.a} else {}
    case Refs(ps) => set j | 0 <= j < |ps| && ps[j].To? :: ps[j].a
    case Entries(es) => set j | 0 <= j < |es| && es[j].1.To? :: es[j].1.a
    case _ => {}
  }
}
