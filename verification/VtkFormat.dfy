/** Legacy VTK files from the side of the format: its cell types, and the sections found by their first words. */
module VtkFormat {
  import opened ObjectGraph
  import opened Elements
  import opened Mesh
  import opened Vtk
  import opened VtkRoundTrip

  // Cell types

  /** The cell types of the format by their numbers: the geometry of a cell and where its points lie. */
  function CellOf(code: int): Option<(Geometry, Order)> {
    match code
    case 1 => Some((Vertex, Linear))
    case 3 => Some((Segment, Linear))
    case 5 => Some((Triangle, Linear))
    case 9 => Some((Quadrilateral, Linear))
    case 10 => Some((Tetrahedron, Linear))
    case 12 => Some((Hexahedron, Linear))
    case 13 => Some((Wedge, Linear))
    case 14 => Some((Pyramid, Linear))
    case 21 => Some((Segment, Quadratic))
    case 22 => Some((Triangle, Quadratic))
    case 23 => Some((Quadrilateral, Quadratic))
    case 24 => Some((Tetrahedron, Quadratic))
    case 25 => Some((Hexahedron, Quadratic))
    case _ => None
  }

  /** The cell with this number has the geometry of the shape, and a point for each of its nodes. */
  predicate IsCell(code: int, shape: Shape) {
    CellOf(code) == Some((shape.geometry, shape.order))
  }

  /** The points of the cell with this number; none if there is no such cell. */
  function CellPoints(code: int): Option<nat> {
    match CellOf(code)
    case None => None
    case Some((geometry, order)) => Some(Shape(geometry, order, 3).Points())
  }

  /** Main result: a type has a number exactly if the format has a cell of its shape, and it is that of the cell. */
  lemma CellTypeIsCell(ty: ElementType)
    ensures CellType(ty).Some? ==> IsCell(CellType(ty).value, ShapeOf(ty))
    ensures CellType(ty).Some? ==> CellPoints(CellType(ty).value) == Some(Arity(ty))
    ensures CellType(ty).None? <==> forall code :: !IsCell(code, ShapeOf(ty))
  {
    ArityCounts(ty);
    var shape := ShapeOf(ty);
    if CellType(ty).None? {
      assert shape.order.Full? || (shape.order.Quadratic? && (shape.geometry.Wedge? || shape.geometry.Pyramid?));
    } else {
      assert IsCell(CellType(ty).value, shape);
    }
  }

  lemma NoCellExactly(ty: ElementType)
    ensures CellType(ty).None? <==>
      ty in {Hexahedra3D27, Prism3D15, Pyramid3D13, Quadrilateral2D9, Quadrilateral3D9}
  {
  }

  // Sections

  /** The file from its first word `w` on. */
  function From(toks: seq<Tok>, w: string): (r: seq<Tok>)
    ensures |r| <= |toks| && r == toks[|toks| - |r|..]
    ensures r != [] ==> r[0] == Word(w)
  {
    if toks == [] || toks[0] == Word(w) then toks else From(toks[1..], w)
  }

  /** The line of that word and the lines after it. */
  function Section(toks: seq<Tok>, w: string): (seq<Tok>, seq<Tok>) {
    TakeLine(From(toks, w))
  }

  lemma {:induction false} FromPassed(head: seq<Tok>, rest: seq<Tok>, w: string)
    requires Word(w) !in head
    ensures From(head + rest, w) == From(rest, w)
  {
    if head == [] {
      assert head + rest == rest;
    } else {
      assert (head + rest)[1..] == head[1..] + rest;
      FromPassed(head[1..], rest, w);
    }
  }

  predicate Wordless(toks: seq<Tok>) {
    forall k :: 0 <= k < |toks| ==> !toks[k].Word?
  }

  lemma {:induction false} ColumnWordless(ns: seq<int>)
    ensures Wordless(Column(ns))
  {
    if ns != [] { ColumnWordless(ns[1..]); }
  }

  lemma {:induction false} CoordLinesWordless(ns: seq<NodeData>)
    ensures Wordless(CoordLines(ns))
  {
    if ns != [] { CoordLinesWordless(ns[1..]); }
  }

  lemma {:induction false} CellLinesWordless(conns: seq<seq<int>>)
    ensures Wordless(CellLines(conns))
  {
    if conns != [] { CellLinesWordless(conns[1..]); }
  }

  /** A line that does not hold the word, and wordless lines after it, are passed over. */
  lemma LinesPassed(line: seq<Tok>, lines: seq<Tok>, rest: seq<Tok>, w: string)
    requires Word(w) !in line && Wordless(lines)
    ensures From(line + [End] + lines + [End] + rest, w) == From(rest, w)
  {
    FromPassed(line + [End] + lines + [End], rest, w);
  }

  lemma PointsPassed(c: Content, w: string)
    requires w != "POINTS" && w != "float"
    ensures From(PointsSection(c), w) == From(CellsSection(c), w)
  {
    CoordLinesWordless(c.nodes);
    var line := [Word("POINTS"), Int(|c.nodes|), Word("float")];
    assert PointsSection(c) == line + [End] + CoordLines(c.nodes) + [End] + CellsSection(c);
    LinesPassed(line, CoordLines(c.nodes), CellsSection(c), w);
  }

  lemma CellsPassed(c: Content, w: string)
    requires w != "CELLS"
    ensures From(CellsSection(c), w) == From(CellTypesSection(c), w)
  {
    CellLinesWordless(c.conns);
    var line := [Word("CELLS"), Int(|c.conns|), Int(CellListSize(c.conns))];
    assert CellsSection(c) == line + [End] + CellLines(c.conns) + [End] + CellTypesSection(c);
    LinesPassed(line, CellLines(c.conns), CellTypesSection(c), w);
  }

  lemma CellTypesPassed(c: Content, w: string)
    requires w != "CELL_TYPES"
    ensures From(CellTypesSection(c), w) == From(NodeIdSection(c), w)
  {
    ColumnWordless(c.cellTypes);
    var line := [Word("CELL_TYPES"), Int(|c.conns|)];
    assert CellTypesSection(c) == line + [End] + Column(c.cellTypes) + [End] + NodeIdSection(c);
    LinesPassed(line, Column(c.cellTypes), NodeIdSection(c), w);
  }

  /** The line that announces a field. */
  function FieldLine(field: string, n: nat): seq<Tok> {
    [Word(field), Int(1), Int(n), Word("int")]
  }

  /** A field is found behind the two lines before it. */
  lemma FieldFound(section: string, field: string, n: nat, rest: seq<Tok>)
    requires field !in {section, "FIELD", "FieldData"}
    ensures From(DataHead(section, field, n) + rest, field) == FieldLine(field, n) + [End] + rest
  {
    var head := [Word(section), Int(n), End, Word("FIELD"), Word("FieldData"), Int(1), End];
    assert DataHead(section, field, n) + rest == head + (FieldLine(field, n) + [End] + rest);
    FromPassed(head, FieldLine(field, n) + [End] + rest, field);
  }

  lemma FieldPassed(section: string, field: string, ns: seq<int>, rest: seq<Tok>, w: string)
    requires w !in {section, field, "FIELD", "FieldData", "int"}
    ensures From(DataHead(section, field, |ns|) + Column(ns) + [End] + rest, w) == From(rest, w)
  {
    ColumnWordless(ns);
    FromPassed(DataHead(section, field, |ns|) + Column(ns) + [End], rest, w);
  }

  lemma HeaderPassed(c: Content, w: string)
    requires w in {"POINTS", "CELLS", "CELL_TYPES", "NODE_ID", "ELEMENT_ID", "ELEMENT_TYPE"}
    ensures From(Written(c), w) == From(PointsSection(c), w)
  {
    FromPassed(HEADER, PointsSection(c), w);
  }

  // The first sections of a written file.

  lemma PointsFound(c: Content)
    ensures From(Written(c), "POINTS") == PointsSection(c)
  {
    HeaderPassed(c, "POINTS");
  }

  lemma CellsFound(c: Content)
    ensures From(Written(c), "CELLS") == CellsSection(c)
  {
    HeaderPassed(c, "CELLS");
    PointsPassed(c, "CELLS");
  }

  lemma CellTypesFound(c: Content)
    ensures From(Written(c), "CELL_TYPES") == CellTypesSection(c)
  {
    HeaderPassed(c, "CELL_TYPES");
    PointsPassed(c, "CELL_TYPES");
    CellsPassed(c, "CELL_TYPES");
  }

  /** Fields lie behind the geometry. */
  lemma FieldsBehind(c: Content, w: string)
    requires w in {"NODE_ID", "ELEMENT_ID", "ELEMENT_TYPE"}
    ensures From(Written(c), w) == From(NodeIdSection(c), w)
  {
    HeaderPassed(c, w);
    PointsPassed(c, w);
    CellsPassed(c, w);
    CellTypesPassed(c, w);
  }

  /** Section `w` starts with this line, and `|ns|` integers follow it: these. */
  predicate IntsBehind(toks: seq<Tok>, line: seq<Tok>, ns: seq<int>)
    requires line != [] && line[0].Word?
  {
    var (first, rest) := Section(toks, line[0].s);
    var r := TakeInts(rest, |ns|);
    first == line && r.Some? && r.value.0 == ns
  }

  lemma ColumnBehind(toks: seq<Tok>, w: string, line: seq<Tok>, ns: seq<int>, rest: seq<Tok>)
    requires line != [] && line[0] == Word(w) && OneLine(line)
    requires From(toks, w) == line + [End] + (Column(ns) + rest)
    ensures IntsBehind(toks, line, ns)
  {
    LineTaken(line, Column(ns) + rest);
    ColumnTaken(ns, rest);
  }

  /** The line of the cell types. */
  function CellTypesLine(n: nat): (line: seq<Tok>)
    ensures line != [] && line[0] == Word("CELL_TYPES") && OneLine(line)
  {
    [Word("CELL_TYPES"), Int(n)]
  }

  lemma CellTypesSplit(c: Content)
    ensures CellTypesSection(c) == CellTypesLine(|c.conns|) + [End]
                                   + (Column(c.cellTypes) + ([End] + NodeIdSection(c)))
  {
  }

  lemma CellTypesHeld(c: Content)
    requires |c.cellTypes| == |c.conns|
    ensures IntsBehind(Written(c), CellTypesLine(|c.conns|), c.cellTypes)
  {
    CellTypesFound(c);
    CellTypesSplit(c);
    ColumnBehind(Written(c), "CELL_TYPES", CellTypesLine(|c.conns|), c.cellTypes, [End] + NodeIdSection(c));
  }

  lemma FieldHeld(toks: seq<Tok>, field: string, ns: seq<int>, rest: seq<Tok>)
    requires From(toks, field) == FieldLine(field, |ns|) + [End] + (Column(ns) + rest)
    ensures IntsBehind(toks, FieldLine(field, |ns|), ns)
  {
    ColumnBehind(toks, field, FieldLine(field, |ns|), ns, rest);
  }

  lemma NodeIdsSplit(c: Content)
    ensures NodeIdSection(c) == DataHead("POINT_DATA", "NODE_ID", |c.nodes|)
                                + (Column(Ids(c.nodes)) + ([End] + ElementIdSection(c)))
  {
  }

  lemma NodeIdsHeld(c: Content)
    ensures IntsBehind(Written(c), FieldLine("NODE_ID", |c.nodes|), Ids(c.nodes))
  {
    FieldsBehind(c, "NODE_ID");
    NodeIdsSplit(c);
    var rest := [End] + ElementIdSection(c);
    FieldFound("POINT_DATA", "NODE_ID", |c.nodes|, Column(Ids(c.nodes)) + rest);
    FieldHeld(Written(c), "NODE_ID", Ids(c.nodes), rest);
  }

  lemma NodeIdsPassed(c: Content, w: string)
    requires w in {"ELEMENT_ID", "ELEMENT_TYPE"}
    ensures From(Written(c), w) == From(ElementIdSection(c), w)
  {
    FieldsBehind(c, w);
    FieldPassed("POINT_DATA", "NODE_ID", Ids(c.nodes), ElementIdSection(c), w);
  }

  lemma ElementIdsSplit(c: Content)
    ensures ElementIdSection(c) == DataHead("CELL_DATA", "ELEMENT_ID", |c.ids|)
                                   + (Column(c.ids) + ([End] + ElementTypeSection(c)))
  {
  }

  lemma ElementIdsHeld(c: Content)
    ensures IntsBehind(Written(c), FieldLine("ELEMENT_ID", |c.ids|), c.ids)
  {
    NodeIdsPassed(c, "ELEMENT_ID");
    ElementIdsSplit(c);
    var rest := [End] + ElementTypeSection(c);
    FieldFound("CELL_DATA", "ELEMENT_ID", |c.ids|, Column(c.ids) + rest);
    FieldHeld(Written(c), "ELEMENT_ID", c.ids, rest);
  }

  lemma ElementTypesHeld(c: Content)
    ensures IntsBehind(Written(c), FieldLine("ELEMENT_TYPE", |c.types|), c.types)
  {
    NodeIdsPassed(c, "ELEMENT_TYPE");
    FieldPassed("CELL_DATA", "ELEMENT_ID", c.ids, ElementTypeSection(c), "ELEMENT_TYPE");
    assert Column(c.types) + [] == Column(c.types);
    FieldFound("CELL_DATA", "ELEMENT_TYPE", |c.types|, Column(c.types) + []);
    FieldHeld(Written(c), "ELEMENT_TYPE", c.types, []);
  }

  /** The coordinates behind the line of the points, three for each node. */
  predicate PointsBehind(toks: seq<Tok>, ns: seq<NodeData>) {
    var (line, rest) := Section(toks, "POINTS");
    var r := TakeReals(rest, 3 * |ns|);
    && line == [Word("POINTS"), Int(|ns|), Word("float")] && r.Some?
    && forall k :: 0 <= k < |ns| ==>
         r.value.0[3 * k] == ns[k].x && r.value.0[3 * k + 1] == ns[k].y && r.value.0[3 * k + 2] == ns[k].z
  }

  lemma PointsTaken(toks: seq<Tok>, ns: seq<NodeData>, line: seq<Tok>, rest: seq<Tok>)
    requires line == [Word("POINTS"), Int(|ns|), Word("float")]
    requires From(toks, "POINTS") == line + [End] + (CoordLines(ns) + rest)
    ensures PointsBehind(toks, ns)
  {
    LineTaken(line, CoordLines(ns) + rest);
    CoordsTaken(ns, rest);
  }

  lemma PointsHeld(c: Content)
    ensures PointsBehind(Written(c), c.nodes)
  {
    PointsFound(c);
    PointsSplit(c);
    PointsTaken(Written(c), c.nodes, [Word("POINTS"), Int(|c.nodes|), Word("float")], [End] + CellsSection(c));
  }

  /** The lines of the cells, behind their number and the number of integers in them. */
  predicate CellsBehind(toks: seq<Tok>, conns: seq<seq<int>>) {
    var (line, rest) := Section(toks, "CELLS");
    var r := TakeCells(rest, |conns|);
    line == [Word("CELLS"), Int(|conns|), Int(CellListSize(conns))] && r.Some? && r.value.0 == conns
  }

  lemma CellLinesTaken(toks: seq<Tok>, conns: seq<seq<int>>, line: seq<Tok>, rest: seq<Tok>)
    requires line == [Word("CELLS"), Int(|conns|), Int(CellListSize(conns))]
    requires From(toks, "CELLS") == line + [End] + (CellLines(conns) + rest)
    ensures CellsBehind(toks, conns)
  {
    LineTaken(line, CellLines(conns) + rest);
    CellsTaken(conns, rest);
  }

  lemma CellsSplit(c: Content)
    ensures CellsSection(c) == [Word("CELLS"), Int(|c.conns|), Int(CellListSize(c.conns))] + [End]
                               + (CellLines(c.conns) + ([End] + CellTypesSection(c)))
  {
  }

  lemma CellsHeld(c: Content)
    ensures CellsBehind(Written(c), c.conns)
  {
    CellsFound(c);
    CellsSplit(c);
    var line := [Word("CELLS"), Int(|c.conns|), Int(CellListSize(c.conns))];
    CellLinesTaken(Written(c), c.conns, line, [End] + CellTypesSection(c));
  }

  /** A node at (0, 0, 5) and a point element on it. */
  const POINT := Content([NodeData(7, 0.0, 0.0, 5.0)], [[0]], [1], [9], [24])

  lemma PointColumns()
    ensures CoordLines(POINT.nodes) == [Coord(0.0), Coord(0.0), Coord(5.0), End]
    ensures CellLines(POINT.conns) == [Int(1), Int(0), End] && CellListSize(POINT.conns) == 2
    ensures Column(POINT.cellTypes) == [Int(1), End] && Column(POINT.ids) == [Int(9), End]
    ensures Column(POINT.types) == [Int(24), End] && Column(Ids(POINT.nodes)) == [Int(7), End]
  {
    assert [NodeData(7, 0.0, 0.0, 5.0)][1..] == [];
    assert [[0]][1..] == [] && CellLines([]) == [] && Ints([0]) == [Int(0)];
    assert [1][1..] == [] && [7][1..] == [] && [9][1..] == [] && [24][1..] == [];
    assert Ids(POINT.nodes) == [7];
  }

  /** The geometry of that file in words. */
  lemma PointGeometry()
    ensures Written(POINT) ==
      [Word("#"), Word("vtk"), Word("DataFile"), Word("Version"), Word("4.0"), End,
       Word("CoSimIO"), Word("FileCommunication"), End, Word("ASCII"), End,
       Word("DATASET"), Word("UNSTRUCTURED_GRID"), End, End] + PointsSection(POINT)
    ensures PointsSection(POINT) ==
      [Word("POINTS"), Int(1), Word("float"), End, Coord(0.0), Coord(0.0), Coord(5.0), End, End] + CellsSection(POINT)
    ensures CellsSection(POINT) ==
      [Word("CELLS"), Int(1), Int(2), End, Int(1), Int(0), End, End] + CellTypesSection(POINT)
    ensures CellTypesSection(POINT) == [Word("CELL_TYPES"), Int(1), End, Int(1), End, End] + NodeIdSection(POINT)
  {
    PointColumns();
  }

  /** Its fields in words. */
  lemma PointFields()
    ensures NodeIdSection(POINT) ==
      [Word("POINT_DATA"), Int(1), End, Word("FIELD"), Word("FieldData"), Int(1), End,
       Word("NODE_ID"), Int(1), Int(1), Word("int"), End, Int(7), End, End] + ElementIdSection(POINT)
    ensures ElementIdSection(POINT) ==
      [Word("CELL_DATA"), Int(1), End, Word("FIELD"), Word("FieldData"), Int(1), End,
       Word("ELEMENT_ID"), Int(1), Int(1), Word("int"), End, Int(9), End, End] + ElementTypeSection(POINT)
    ensures ElementTypeSection(POINT) ==
      [Word("CELL_DATA"), Int(1), End, Word("FIELD"), Word("FieldData"), Int(1), End,
       Word("ELEMENT_TYPE"), Int(1), Int(1), Word("int"), End, Int(24), End]
  {
    PointColumns();
  }
}
