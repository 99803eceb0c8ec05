/** Writing a mesh as a legacy VTK file and reading it back. */
module Vtk {
  import opened ObjectGraph
  import opened Mesh

  /** A file as its words and numbers, with the ends of its lines. A coordinate stands for its printed form. */
  datatype Tok = Word(s: string) | Int(n: int) | Coord(r: real) | End

  /** `GetVtkCellTypeForElementType`; none for the element types that VTK does not have. */
  function CellType(ty: ElementType): Option<nat> {
    match ty
    case Hexahedra3D20 => Some(25)
    case Hexahedra3D8 => Some(12)
    case Prism3D6 => Some(13)
    case Pyramid3D5 => Some(14)
    case Quadrilateral2D4 => Some(9)
    case Quadrilateral2D8 => Some(23)
    case Quadrilateral3D4 => Some(9)
    case Quadrilateral3D8 => Some(23)
    case Tetrahedra3D10 => Some(24)
    case Tetrahedra3D4 => Some(10)
    case Triangle2D3 => Some(5)
    case Triangle2D6 => Some(22)
    case Triangle3D3 => Some(5)
    case Triangle3D6 => Some(22)
    case Line2D2 => Some(3)
    case Line2D3 => Some(21)
    case Line3D2 => Some(3)
    case Line3D3 => Some(21)
    case Point2D => Some(1)
    case Point3D => Some(1)
    case _ => None
  }

  const TYPES: seq<ElementType> :=
    [Hexahedra3D20, Hexahedra3D27, Hexahedra3D8, Prism3D15, Prism3D6, Pyramid3D13, Pyramid3D5,
     Quadrilateral2D4, Quadrilateral2D8, Quadrilateral2D9, Quadrilateral3D4, Quadrilateral3D8, Quadrilateral3D9,
     Tetrahedra3D10, Tetrahedra3D4, Triangle2D3, Triangle2D6, Triangle3D3, Triangle3D6,
     Line2D2, Line2D3, Line3D2, Line3D3, Point2D, Point3D]

  /** The number of an enumerator. */
  function Code(ty: ElementType): (c: nat)
    ensures c < |TYPES| && TYPES[c] == ty
  {
    match ty
    case Hexahedra3D20 => 0
    case Hexahedra3D27 => 1
    case Hexahedra3D8 => 2
    case Prism3D15 => 3
    case Prism3D6 => 4
    case Pyramid3D13 => 5
    case Pyramid3D5 => 6
    case Quadrilateral2D4 => 7
    case Quadrilateral2D8 => 8
    case Quadrilateral2D9 => 9
    case Quadrilateral3D4 => 10
    case Quadrilateral3D8 => 11
    case Quadrilateral3D9 => 12
    case Tetrahedra3D10 => 13
    case Tetrahedra3D4 => 14
    case Triangle2D3 => 15
    case Triangle2D6 => 16
    case Triangle3D3 => 17
    case Triangle3D6 => 18
    case Line2D2 => 19
    case Line2D3 => 20
    case Line3D2 => 21
    case Line3D3 => 22
    case Point2D => 23
    case Point3D => 24
  }

  // What WriteVtk writes

  function Ints(ns: seq<int>): seq<Tok> {
    seq(|ns|, k requires 0 <= k < |ns| => Int(ns[k]))
  }

  /** One number a line. */
  function Column(ns: seq<int>): seq<Tok> {
    if ns == [] then [] else [Int(ns[0]), End] + Column(ns[1..])
  }

  function CoordLines(ns: seq<NodeData>): seq<Tok> {
    if ns == [] then [] else [Coord(ns[0].x), Coord(ns[0].y), Coord(ns[0].z), End] + CoordLines(ns[1..])
  }

  function CellLines(conns: seq<seq<int>>): seq<Tok> {
    if conns == [] then [] else [Int(|conns[0]|)] + Ints(conns[0]) + [End] + CellLines(conns[1..])
  }

  function CellListSize(conns: seq<seq<int>>): nat {
    if conns == [] then 0 else |conns[0]| + 1 + CellListSize(conns[1..])
  }

  const HEADER: seq<Tok> :=
    [Word("#"), Word("vtk"), Word("DataFile"), Word("Version"), Word("4.0"), End,
     Word("CoSimIO"), Word("FileCommunication"), End,
     Word("ASCII"), End,
     Word("DATASET"), Word("UNSTRUCTURED_GRID"), End, End]

  /** The lines before a column of `n` integers. */
  function DataHead(section: string, field: string, n: nat): seq<Tok> {
    [Word(section), Int(n), End, Word("FIELD"), Word("FieldData"), Int(1), End]
    + [Word(field), Int(1), Int(n), Word("int"), End]
  }

  /** The content of a file: the mesh with connectivities as positions in the node list. */
  datatype Content = Content(
    nodes: seq<NodeData>,
    conns: seq<seq<int>>,
    cellTypes: seq<int>,
    ids: seq<int>,
    types: seq<int>)

  function Written(c: Content): seq<Tok> {
    HEADER + PointsSection(c)
  }

  // Each section is followed by the remaining ones.

  function PointsSection(c: Content): seq<Tok> {
    [Word("POINTS"), Int(|c.nodes|), Word("float"), End] + CoordLines(c.nodes) + [End] + CellsSection(c)
  }

  function CellsSection(c: Content): seq<Tok> {
    [Word("CELLS"), Int(|c.conns|), Int(CellListSize(c.conns)), End] + CellLines(c.conns) + [End] + CellTypesSection(c)
  }

  function CellTypesSection(c: Content): seq<Tok> {
    [Word("CELL_TYPES"), Int(|c.conns|), End] + Column(c.cellTypes) + [End] + NodeIdSection(c)
  }

  function NodeIdSection(c: Content): seq<Tok> {
    DataHead("POINT_DATA", "NODE_ID", |c.nodes|) + Column(Ids(c.nodes)) + [End] + ElementIdSection(c)
  }

  function ElementIdSection(c: Content): seq<Tok> {
    DataHead("CELL_DATA", "ELEMENT_ID", |c.ids|) + Column(c.ids) + [End] + ElementTypeSection(c)
  }

  function ElementTypeSection(c: Content): seq<Tok> {
    DataHead("CELL_DATA", "ELEMENT_TYPE", |c.types|) + Column(c.types)
  }

  function Ids(ns: seq<NodeData>): seq<int> {
    seq(|ns|, k requires 0 <= k < |ns| => ns[k].id)
  }

  // What ReadVtk does

  function TakeLine(toks: seq<Tok>): (r: (seq<Tok>, seq<Tok>))
    ensures toks != [] ==> |r.1| < |toks|
  {
    if toks == [] then ([], [])
    else if toks[0].End? then ([], toks[1..])
    else
      var r := TakeLine(toks[1..]);
      ([toks[0]] + r.0, r.1)
  }

  /** `string::find`. */
  predicate Contains(s: string, keyword: string) {
    exists i :: 0 <= i <= |s| - |keyword| && MatchAt(s, keyword, i)
  }

  predicate MatchAt(s: string, keyword: string, i: nat) {
    i + |keyword| <= |s| && s[i..i + |keyword|] == keyword
  }

  /** The position in a line of the first word that contains the keyword. */
  function FindWord(line: seq<Tok>, keyword: string): (r: Option<nat>)
    ensures r.Some? ==> r.value < |line|
  {
    if line == [] then None
    else if line[0].Word? && Contains(line[0].s, keyword) then Some(0)
    else
      match FindWord(line[1..], keyword)
      case None => None
      case Some(k) => Some(k + 1)
  }

  /** `operator>>` for `k` integers, across lines. */
  function TakeInts(toks: seq<Tok>, k: nat): (r: Option<(seq<int>, seq<Tok>)>)
    ensures r.Some? ==> |r.value.0| == k && |r.value.1| <= |toks|
  {
    if k == 0 then Some(([], toks))
    else if toks == [] then None
    else if toks[0].End? then TakeInts(toks[1..], k)
    else if !toks[0].Int? then None
    else
      match TakeInts(toks[1..], k - 1)
      case None => None
      case Some((ns, rest)) => Some(([toks[0].n] + ns, rest))
  }

  /** `operator>>` for `k` floating point numbers. */
  function TakeReals(toks: seq<Tok>, k: nat): (r: Option<(seq<real>, seq<Tok>)>)
    ensures r.Some? ==> |r.value.0| == k && |r.value.1| <= |toks|
  {
    if k == 0 then Some(([], toks))
    else if toks == [] then None
    else if toks[0].End? then TakeReals(toks[1..], k)
    else if toks[0].Word? then None
    else
      match TakeReals(toks[1..], k - 1)
      case None => None
      case Some((rs, rest)) => Some(([if toks[0].Int? then toks[0].n as real else toks[0].r] + rs, rest))
  }

  function TakeCells(toks: seq<Tok>, k: nat): (r: Option<(seq<seq<int>>, seq<Tok>)>)
    ensures r.Some? ==> |r.value.0| == k && |r.value.1| <= |toks|
    decreases k
  {
    if k == 0 then Some(([], toks))
    else
      match TakeInts(toks, 1)
      case None => None
      case Some((size, toks1)) =>
        if size[0] < 0 then None
        else
          match TakeInts(toks1, size[0])
          case None => None
          case Some((conn, toks2)) =>
            match TakeCells(toks2, k - 1)
            case None => None
            case Some((conns, rest)) => Some(([conn] + conns, rest))
  }

  /** The local vectors of `ReadVtk`. */
  datatype State = State(coords: seq<real>, nodeIds: seq<int>, ids: seq<int>, types: seq<int>, conns: seq<seq<int>>)

  function Resize<T>(s: seq<T>, n: nat, zero: T): (r: seq<T>)
    ensures |r| == n
  {
    if |s| >= n then s[..n] else s + seq(n - |s|, _ => zero)
  }

  /** The number behind the keyword at word `k` of the line. */
  function Count(line: seq<Tok>, k: nat): Option<nat> {
    if k + 1 < |line| && line[k + 1].Int? && line[k + 1].n >= 0 then Some(line[k + 1].n) else None
  }

  /** The POINTS section: the rest of the line, the rest of the file and the new state. */
  function ReadPoints(line: seq<Tok>, rest: seq<Tok>, st: State): Option<(seq<Tok>, seq<Tok>, State)> {
    match FindWord(line, "POINTS")
    case None => Some((line, rest, st))
    case Some(k) =>
      match Count(line, k)
      case None => None
      case Some(n) =>
        match TakeReals(rest, 3 * n)
        case None => None
        case Some((coords, rest1)) =>
          Some((line[k + 1..], rest1, st.(coords := coords, nodeIds := Resize(st.nodeIds, n, 0))))
  }

  function ReadCells(line: seq<Tok>, rest: seq<Tok>, st: State): Option<(seq<Tok>, seq<Tok>, State)> {
    match FindWord(line, "CELLS")
    case None => Some((line, rest, st))
    case Some(k) =>
      match Count(line, k)
      case None => None
      case Some(n) =>
        match TakeCells(rest, n)
        case None => None
        case Some((conns, rest1)) =>
          Some((line[k + 1..], rest1,
                st.(ids := Resize(st.ids, n, 0), types := Resize(st.types, n, 0), conns := conns)))
  }

  /** The three sections of one integer for each node or element. */
  function ReadColumns(line: seq<Tok>, rest: seq<Tok>, st: State): Option<(seq<Tok>, State)> {
    match if FindWord(line, "NODE_ID").Some? then TakeInts(rest, |st.nodeIds|) else Some((st.nodeIds, rest))
    case None => None
    case Some((nodeIds, rest1)) =>
      match if FindWord(line, "ELEMENT_ID").Some? then TakeInts(rest1, |st.ids|) else Some((st.ids, rest1))
      case None => None
      case Some((ids, rest2)) =>
        match if FindWord(line, "ELEMENT_TYPE").Some? then TakeInts(rest2, |st.types|) else Some((st.types, rest2))
        case None => None
        case Some((types, rest3)) => Some((rest3, st.(nodeIds := nodeIds, ids := ids, types := types)))
  }

  /** One pass of the reading loop: a line and the sections it announces. */
  function ReadStep(toks: seq<Tok>, st: State): (r: Option<(seq<Tok>, State)>)
    requires toks != []
    ensures r.Some? ==> |r.value.0| < |toks|
  {
    var (line, rest) := TakeLine(toks);
    match ReadPoints(line, rest, st)
    case None => None
    case Some((line1, rest1, st1)) =>
      match ReadCells(line1, rest1, st1)
      case None => None
      case Some((line2, rest2, st2)) => ReadColumns(line2, rest2, st2)
  }

  function ReadLines(toks: seq<Tok>, st: State): Option<State>
    decreases |toks|
  {
    if toks == [] then Some(st)
    else
      match ReadStep(toks, st)
      case None => None
      case Some((rest, st1)) => ReadLines(rest, st1)
  }
}
