/** WriteVtk and ReadVtk on ModelParts. */
module VtkFiles {
  import opened ObjectGraph
  import opened Elements
  import opened Mesh
  import opened IndexedVectors
  import opened ModelParts
  import opened Vtk
  import opened VtkFormat
  import opened VtkRoundTrip

  /** Every element type is known to VTK. */
  predicate Supported(m: MeshData) {
    forall k :: 0 <= k < |m.elements| ==> CellType(m.elements[k].ty).Some?
  }

  function Positions(access: map<int, nat>, conn: seq<int>): (r: seq<int>)
    requires forall k :: 0 <= k < |conn| ==> conn[k] in access
    ensures |r| == |conn| && forall k :: 0 <= k < |conn| ==> r[k] == access[conn[k]]
  {
    seq(|conn|, k requires 0 <= k < |conn| => access[conn[k]])
  }

  function AllPositions(access: map<int, nat>, es: seq<ElementData>): (r: seq<seq<int>>)
    requires forall j, k :: 0 <= j < |es| && 0 <= k < |es[j].conn| ==> es[j].conn[k] in access
    ensures |r| == |es| && forall j :: 0 <= j < |es| ==> r[j] == Positions(access, es[j].conn)
  {
    seq(|es|, j requires 0 <= j < |es| => Positions(access, es[j].conn))
  }

  function CellTypesOf(es: seq<ElementData>): (r: seq<int>)
    requires forall k :: 0 <= k < |es| ==> CellType(es[k].ty).Some?
    ensures |r| == |es|
  {
    seq(|es|, k requires 0 <= k < |es| => CellType(es[k].ty).value)
  }

  function ElementIdsOf(es: seq<ElementData>): (r: seq<int>)
    ensures |r| == |es|
  {
    seq(|es|, k requires 0 <= k < |es| => es[k].id)
  }

  function Codes(es: seq<ElementData>): (r: seq<int>)
    ensures |r| == |es|
  {
    seq(|es|, k requires 0 <= k < |es| => Code(es[k].ty))
  }

  /** Every node of an element is in the node list. */
  predicate Known(m: MeshData) {
    forall j, k :: 0 <= j < |m.elements| && 0 <= k < |m.elements[j].conn| ==>
      m.elements[j].conn[k] in AccessMap(Ids(m.nodes))
  }

  function ContentOf(m: MeshData): Content
    requires Supported(m) && Known(m)
  {
    Content(m.nodes, AllPositions(AccessMap(Ids(m.nodes)), m.elements), CellTypesOf(m.elements),
            ElementIdsOf(m.elements), Codes(m.elements))
  }

  // Filling a ModelPart with what was read

  function NodesRead(st: State): (ns: seq<NodeData>)
    requires |st.coords| >= 3 * |st.nodeIds|
  {
    seq(|st.nodeIds|, k requires 0 <= k < |st.nodeIds| =>
      NodeData(st.nodeIds[k], st.coords[3 * k], st.coords[3 * k + 1], st.coords[3 * k + 2]))
  }

  /** Element `k` of the file, with positions turned back into ids. */
  function ElementRead(st: State, k: nat): Option<ElementData> {
    if k >= |st.ids| || k >= |st.types| || k >= |st.conns| || !(0 <= st.types[k] < |TYPES|)
       || exists j :: 0 <= j < |st.conns[k]| && !(0 <= st.conns[k][j] < |st.nodeIds|)
    then None
    else Some(ElementData(st.ids[k], TYPES[st.types[k]],
                          seq(|st.conns[k]|, j requires 0 <= j < |st.conns[k]| => st.nodeIds[st.conns[k][j]])))
  }

  function FillElements(m: MeshData, st: State, k: nat): Option<MeshData>
    decreases |st.ids| - k
  {
    if k >= |st.ids| then Some(m)
    else
      match ElementRead(st, k)
      case None => None
      case Some(e) =>
        match m.AddElement(e)
        case None => None
        case Some(m1) => FillElements(m1, st, k + 1)
  }

  function FillNodes(m: MeshData, ns: seq<NodeData>, k: nat): Option<MeshData>
    decreases |ns| - k
  {
    if k >= |ns| then Some(m)
    else
      match m.AddNode(ns[k])
      case None => None
      case Some(m1) => FillNodes(m1, ns, k + 1)
  }

  /** The mesh after reading a file into `m`; none if the file is malformed or does not fit. */
  function ReadInto(m: MeshData, toks: seq<Tok>): Option<MeshData> {
    match ReadLines(toks, State([], [], [], [], []))
    case None => None
    case Some(st) =>
      if |st.coords| < 3 * |st.nodeIds| then None
      else
        match FillNodes(m, NodesRead(st), 0)
        case None => None
        case Some(m1) => FillElements(m1, st, 0)
  }

  // The round trip

  lemma KnownIfOk(m: MeshData)
    requires m.Ok()
    ensures Known(m)
  {
    forall j, k | 0 <= j < |m.elements| && 0 <= k < |m.elements[j].conn|
      ensures m.elements[j].conn[k] in AccessMap(Ids(m.nodes))
    {
      var id := m.elements[j].conn[k];
      assert m.HasNode(id);
      var i :| 0 <= i < |m.nodes| && m.nodes[i].id == id;
      assert Ids(m.nodes)[i] == id;
      AccessMapFinds(Ids(m.nodes), id);
    }
  }

  lemma NodesReadBack(ns: seq<NodeData>, st: State)
    requires st.nodeIds == Ids(ns) && st.coords == Coords(ns)
    ensures NodesRead(st) == ns
  {
  }

  lemma {:induction false} NodesFilled(m: MeshData, k: nat)
    requires m.Ok() && k <= |m.nodes|
    ensures FillNodes(MeshData(m.nodes[..k], []), m.nodes, k) == Some(MeshData(m.nodes, []))
    decreases |m.nodes| - k
  {
    if k == |m.nodes| {
      assert m.nodes[..k] == m.nodes;
    } else {
      assert m.nodes[..k] + [m.nodes[k]] == m.nodes[..k + 1];
      NodesFilled(m, k + 1);
    }
  }

  lemma ElementReadBack(m: MeshData, st: State, k: nat)
    requires m.Ok() && Supported(m) && Known(m) && k < |m.elements|
    requires st.nodeIds == Ids(m.nodes) && st.ids == ContentOf(m).ids && st.types == ContentOf(m).types
    requires st.conns == ContentOf(m).conns
    ensures ElementRead(st, k) == Some(m.elements[k])
  {
    var conn := m.elements[k].conn;
    forall j | 0 <= j < |conn|
      ensures 0 <= st.conns[k][j] < |st.nodeIds| && st.nodeIds[st.conns[k][j]] == conn[j]
    {
      AccessMapFinds(Ids(m.nodes), conn[j]);
    }
    assert seq(|st.conns[k]|, j requires 0 <= j < |st.conns[k]| => st.nodeIds[st.conns[k][j]]) == conn;
  }

  lemma PrefixCanAdd(m: MeshData, k: nat)
    requires m.Ok() && k < |m.elements|
    ensures MeshData(m.nodes, m.elements[..k]).CanAdd(m.elements[k])
  {
    var m0 := MeshData(m.nodes, m.elements[..k]);
    forall j | 0 <= j < |m.elements[k].conn|
      ensures m0.HasNode(m.elements[k].conn[j])
    {
      assert m.HasNode(m.elements[k].conn[j]);
    }
  }

  lemma FillUnfold(m: MeshData, st: State, k: nat, e: ElementData)
    requires k < |st.ids| && ElementRead(st, k) == Some(e) && m.CanAdd(e)
    ensures FillElements(m, st, k) == FillElements(MeshData(m.nodes, m.elements + [e]), st, k + 1)
  {
  }

  lemma {:induction false} ElementsFilled(m: MeshData, st: State, k: nat)
    requires m.Ok() && Supported(m) && Known(m) && k <= |m.elements|
    requires st.nodeIds == Ids(m.nodes) && st.ids == ContentOf(m).ids && st.types == ContentOf(m).types
    requires st.conns == ContentOf(m).conns
    ensures FillElements(MeshData(m.nodes, m.elements[..k]), st, k) == Some(m)
    decreases |m.elements| - k
  {
    if k == |m.elements| {
      assert m.elements[..k] == m.elements;
    } else {
      ElementReadBack(m, st, k);
      var m0 := MeshData(m.nodes, m.elements[..k]);
      PrefixCanAdd(m, k);
      FillUnfold(m0, st, k, m.elements[k]);
      assert m.elements[..k] + [m.elements[k]] == m.elements[..k + 1];
      ElementsFilled(m, st, k + 1);
    }
  }

  /** Main result: what is written for a mesh is read back as that mesh. */
  lemma WriteThenRead(m: MeshData)
    requires m.Ok() && Supported(m)
    ensures Known(m) && ReadInto(MeshData([], []), Written(ContentOf(m))) == Some(m)
  {
    KnownIfOk(m);
    var c := ContentOf(m);
    ContentRead(c);
    var st := State(Coords(c.nodes), Ids(c.nodes), c.ids, c.types, c.conns);
    NodesReadBack(m.nodes, st);
    NodesFilled(m, 0);
    ElementsFilled(m, st, 0);
  }

  /** Numbers in a list of tokens. */
  function CountInts(toks: seq<Tok>): nat {
    if toks == [] then 0 else (if toks[0].Int? then 1 else 0) + CountInts(toks[1..])
  }

  lemma {:induction false} CountConcat(s: seq<Tok>, t: seq<Tok>)
    ensures CountInts(s + t) == CountInts(s) + CountInts(t)
  {
    if s == [] {
      assert s + t == t;
    } else {
      assert (s + t)[1..] == s[1..] + t;
      CountConcat(s[1..], t);
    }
  }

  lemma {:induction false} CountOfInts(ns: seq<int>)
    ensures CountInts(Ints(ns)) == |ns|
  {
    if ns != [] {
      assert Ints(ns)[1..] == Ints(ns[1..]);
      CountOfInts(ns[1..]);
    }
  }

  /** The size declared for CELLS is the number of integers in its lines. */
  lemma {:induction false} DeclaredSize(conns: seq<seq<int>>)
    ensures CountInts(CellLines(conns)) == CellListSize(conns)
  {
    if conns != [] {
      CountOfInts(conns[0]);
      DeclaredSize(conns[1..]);
      CountConcat([Int(|conns[0]|)], Ints(conns[0]));
      CountConcat([Int(|conns[0]|)] + Ints(conns[0]), [End]);
      CountConcat([Int(|conns[0]|)] + Ints(conns[0]) + [End], CellLines(conns[1..]));
    }
  }

  // The written file as one of the format

  /** A line of positions and a cell type describe the element: a cell of its shape with a point for each position. */
  predicate CellDescribes(m: MeshData, e: ElementData, line: seq<int>, code: int) {
    && IsCell(code, ShapeOf(e.ty)) && CellPoints(code) == Some(|line|) && |line| == |e.conn|
    && forall j :: 0 <= j < |line| ==> 0 <= line[j] < |m.nodes| && m.nodes[line[j]].id == e.conn[j]
  }

  /** Line `k` behind CELLS and entry `k` behind CELL_TYPES describe element `k`. */
  predicate CellsDescribe(file: seq<Tok>, m: MeshData) {
    var cells := TakeCells(Section(file, "CELLS").1, |m.elements|);
    var codes := TakeInts(Section(file, "CELL_TYPES").1, |m.elements|);
    && cells.Some? && codes.Some?
    && forall k :: 0 <= k < |m.elements| ==> CellDescribes(m, m.elements[k], cells.value.0[k], codes.value.0[k])
  }

  /** The file lists the points, the cells, and behind them the ids and the types. */
  predicate Describes(file: seq<Tok>, m: MeshData) {
    && PointsBehind(file, m.nodes) && CellsDescribe(file, m)
    && IntsBehind(file, FieldLine("NODE_ID", |m.nodes|), Ids(m.nodes))
    && IntsBehind(file, FieldLine("ELEMENT_ID", |m.elements|), ElementIdsOf(m.elements))
    && IntsBehind(file, FieldLine("ELEMENT_TYPE", |m.elements|), Codes(m.elements))
  }

  lemma ElementDescribed(m: MeshData, k: nat)
    requires m.Ok() && Supported(m) && Known(m) && k < |m.elements|
    ensures var c := ContentOf(m); CellDescribes(m, m.elements[k], c.conns[k], c.cellTypes[k])
  {
    var e, line := m.elements[k], ContentOf(m).conns[k];
    CellTypeIsCell(e.ty);
    forall j | 0 <= j < |line|
      ensures 0 <= line[j] < |m.nodes| && m.nodes[line[j]].id == e.conn[j]
    {
      AccessMapFinds(Ids(m.nodes), e.conn[j]);
    }
  }

  lemma CellsDescribed(m: MeshData)
    requires m.Ok() && Supported(m) && Known(m)
    ensures CellsDescribe(Written(ContentOf(m)), m)
  {
    var c := ContentOf(m);
    CellsHeld(c);
    CellTypesHeld(c);
    forall k | 0 <= k < |m.elements|
      ensures CellDescribes(m, m.elements[k], c.conns[k], c.cellTypes[k])
    {
      ElementDescribed(m, k);
    }
  }

  /** Main result: the file written for a mesh describes it in the words of the format. */
  lemma WrittenDescribes(m: MeshData)
    requires m.Ok() && Supported(m)
    ensures Known(m) && Describes(Written(ContentOf(m)), m)
  {
    KnownIfOk(m);
    var c := ContentOf(m);
    CellsDescribed(m);
    PointsHeld(c);
    NodeIdsHeld(c);
    ElementIdsHeld(c);
    ElementTypesHeld(c);
  }

  // The two functions as loops

  lemma {:induction false} CoordLinesAppend(ns: seq<NodeData>, n: NodeData)
    ensures CoordLines(ns + [n]) == CoordLines(ns) + [Coord(n.x), Coord(n.y), Coord(n.z), End]
  {
    if ns == [] {
      assert [n][1..] == [];
    } else {
      assert (ns + [n])[1..] == ns[1..] + [n];
      CoordLinesAppend(ns[1..], n);
    }
  }

  lemma {:induction false} ColumnAppend(ns: seq<int>, n: int)
    ensures Column(ns + [n]) == Column(ns) + [Int(n), End]
  {
    if ns == [] {
      assert [n][1..] == [];
    } else {
      assert (ns + [n])[1..] == ns[1..] + [n];
      ColumnAppend(ns[1..], n);
    }
  }

  lemma {:induction false} CellLinesAppend(conns: seq<seq<int>>, conn: seq<int>)
    ensures CellLines(conns + [conn]) == CellLines(conns) + ([Int(|conn|)] + Ints(conn) + [End])
    ensures CellListSize(conns + [conn]) == CellListSize(conns) + |conn| + 1
  {
    if conns == [] {
      assert [conn][1..] == [] && CellLines([conn][1..]) == [];
      assert CellLines([conn]) == [Int(|conn|)] + Ints(conn) + [End];
    } else {
      assert (conns + [conn])[1..] == conns[1..] + [conn];
      CellLinesAppend(conns[1..], conn);
    }
  }

  /** The coordinates, and the map from ids to positions. */
  method WriteNodes(ns: seq<NodeData>) returns (out: seq<Tok>, idMap: map<int, nat>)
    ensures out == CoordLines(ns) && idMap == AccessMap(Ids(ns))
  {
    out, idMap := [], map[];
    var i := 0;
    while i < |ns|
      invariant i <= |ns| && out == CoordLines(ns[..i]) && idMap == AccessMap(Ids(ns[..i]))
    {
      assert ns[..i + 1] == ns[..i] + [ns[i]];
      CoordLinesAppend(ns[..i], ns[i]);
      assert Ids(ns[..i + 1])[..i] == Ids(ns[..i]);
      out := out + [Coord(ns[i].x), Coord(ns[i].y), Coord(ns[i].z), End];
      idMap := idMap[ns[i].id := i];
      i := i + 1;
    }
    assert ns[..i] == ns;
  }

  /** The connectivities as positions; fails at a node that is not in the map. */
  method WriteCells(es: seq<ElementData>, idMap: map<int, nat>) returns (ok: bool, out: seq<Tok>)
    ensures ok <==> forall j, k :: 0 <= j < |es| && 0 <= k < |es[j].conn| ==> es[j].conn[k] in idMap
    ensures ok ==> out == CellLines(AllPositions(idMap, es))
  {
    out := [];
    var i := 0;
    while i < |es|
      invariant i <= |es|
      invariant forall j, k :: 0 <= j < i && 0 <= k < |es[j].conn| ==> es[j].conn[k] in idMap
      invariant out == CellLines(AllPositions(idMap, es[..i]))
    {
      var found, line := WriteConnectivity(es[i].conn, idMap);
      if !found {
        return false, out;
      }
      CellLinesAppend(AllPositions(idMap, es[..i]), Positions(idMap, es[i].conn));
      assert AllPositions(idMap, es[..i + 1]) == AllPositions(idMap, es[..i]) + [Positions(idMap, es[i].conn)];
      out := out + ([Int(|es[i].conn|)] + line + [End]);
      i := i + 1;
    }
    assert es[..i] == es;
    return true, out;
  }

  method WriteConnectivity(conn: seq<int>, idMap: map<int, nat>) returns (ok: bool, out: seq<Tok>)
    ensures ok <==> forall k :: 0 <= k < |conn| ==> conn[k] in idMap
    ensures ok ==> out == Ints(Positions(idMap, conn))
  {
    out := [];
    var j := 0;
    while j < |conn|
      invariant j <= |conn| && |out| == j
      invariant forall k :: 0 <= k < j ==> conn[k] in idMap && out[k] == Int(idMap[conn[k]])
    {
      if conn[j] !in idMap {
        return false, out;
      }
      out := out + [Int(idMap[conn[j]])];
      j := j + 1;
    }
    assert out == Ints(Positions(idMap, conn));
    return true, out;
  }

  /** Fails at the first element type that VTK does not have. */
  method WriteCellTypes(es: seq<ElementData>) returns (ok: bool, out: seq<Tok>)
    ensures ok <==> forall k :: 0 <= k < |es| ==> CellType(es[k].ty).Some?
    ensures ok ==> out == Column(CellTypesOf(es))
  {
    out := [];
    var i := 0;
    while i < |es|
      invariant i <= |es| && forall k :: 0 <= k < i ==> CellType(es[k].ty).Some?
      invariant out == Column(CellTypesOf(es[..i]))
    {
      if CellType(es[i].ty).None? {
        return false, out;
      }
      ColumnAppend(CellTypesOf(es[..i]), CellType(es[i].ty).value);
      assert CellTypesOf(es[..i + 1]) == CellTypesOf(es[..i]) + [CellType(es[i].ty).value];
      out := out + [Int(CellType(es[i].ty).value), End];
      i := i + 1;
    }
    assert es[..i] == es;
    return true, out;
  }

  method WriteColumn(ns: seq<int>) returns (out: seq<Tok>)
    ensures out == Column(ns)
  {
    out := [];
    var i := 0;
    while i < |ns|
      invariant i <= |ns| && out == Column(ns[..i])
    {
      assert ns[..i + 1] == ns[..i] + [ns[i]];
      ColumnAppend(ns[..i], ns[i]);
      out := out + [Int(ns[i]), End];
      i := i + 1;
    }
    assert ns[..i] == ns;
  }

  method CellListSizeOf(es: seq<ElementData>, ghost conns: seq<seq<int>>) returns (size: nat)
    requires |conns| == |es| && forall k :: 0 <= k < |es| ==> |conns[k]| == |es[k].conn|
    ensures size == CellListSize(conns)
  {
    size := 0;
    var i := 0;
    while i < |es|
      invariant i <= |es| && size == CellListSize(conns[..i])
    {
      assert conns[..i + 1] == conns[..i] + [conns[i]];
      CellLinesAppend(conns[..i], conns[i]);
      size := size + |es[i].conn| + 1;
      i := i + 1;
    }
    assert conns[..i] == conns;
  }

  /** Writes every ModelPart whose element types VTK has, and no other. */
  method WriteVtk(part: ModelPart) returns (ok: bool, out: seq<Tok>)
    requires part.Valid()
    ensures Known(part.View())
    ensures ok <==> Supported(part.View())
    ensures ok ==> out == Written(ContentOf(part.View())) && Describes(out, part.View())
  {
    var m := part.View();
    KnownIfOk(m);
    out := HEADER;
    var coords, idMap := WriteNodes(m.nodes);
    var points := [Word("POINTS"), Int(|m.nodes|), Word("float"), End] + coords + [End];
    var size := CellListSizeOf(m.elements, AllPositions(idMap, m.elements));
    var found, lines := WriteCells(m.elements, idMap);
    if !found {
      return false, out;
    }
    var cells := [Word("CELLS"), Int(|m.elements|), Int(size), End] + lines + [End];
    var supported, column := WriteCellTypes(m.elements);
    if !supported {
      return false, out;
    }
    var types := [Word("CELL_TYPES"), Int(|m.elements|), End] + column + [End];
    column := WriteColumn(Ids(m.nodes));
    var nodeIds := DataHead("POINT_DATA", "NODE_ID", |m.nodes|) + column + [End];
    column := WriteColumn(ElementIdsOf(m.elements));
    var ids := DataHead("CELL_DATA", "ELEMENT_ID", |m.elements|) + column + [End];
    column := WriteColumn(Codes(m.elements));
    var codes := DataHead("CELL_DATA", "ELEMENT_TYPE", |m.elements|) + column;
    out := out + (points + (cells + (types + (nodeIds + (ids + codes)))));
    ok := true;
    ghost var c := ContentOf(m);
    assert codes == ElementTypeSection(c);
    assert ids + codes == ElementIdSection(c);
    assert nodeIds + (ids + codes) == NodeIdSection(c);
    WrittenDescribes(m);
  }

  /** Reads a file into a ModelPart; on failure the part keeps what had been created. */
  method ReadVtk(file: seq<Tok>, part: ModelPart) returns (ok: bool)
    requires part.Valid()
    modifies part`nodes, part`elements, part.local`nodes, part.local`elements
    ensures part.Valid()
    ensures ok <==> ReadInto(old(part.View()), file).Some?
    ensures ok ==> Some(part.View()) == ReadInto(old(part.View()), file)
  {
    var start := State([], [], [], [], []);
    var toks, st := file, start;
    while toks != []
      modifies {}
      invariant ReadLines(file, start) == ReadLines(toks, st)
      decreases |toks|
    {
      var step := ReadStep(toks, st);
      if step.None? {
        return false;
      }
      toks, st := step.value.0, step.value.1;
    }
    if |st.coords| < 3 * |st.nodeIds| {
      return false;
    }
    ok := CreateNodes(part, NodesRead(st));
    if ok {
      ok := CreateElements(part, st);
    }
  }

  /** The body of the loop over the nodes. */
  method CreateNodeAt(part: ModelPart, ns: seq<NodeData>, i: nat) returns (created: bool)
    requires part.Valid() && i < |ns|
    modifies part`nodes, part.local`nodes
    ensures part.Valid()
    ensures FillNodes(old(part.View()), ns, i) == if created then FillNodes(part.View(), ns, i + 1) else None
  {
    var ok, _ := part.CreateNewNode(ns[i].id, ns[i].x, ns[i].y, ns[i].z);
    return ok;
  }

  method CreateNodes(part: ModelPart, ns: seq<NodeData>) returns (ok: bool)
    requires part.Valid()
    modifies part`nodes, part.local`nodes
    ensures part.Valid()
    ensures ok <==> FillNodes(old(part.View()), ns, 0).Some?
    ensures ok ==> Some(part.View()) == FillNodes(old(part.View()), ns, 0)
  {
    var i := 0;
    ghost var goal := FillNodes(part.View(), ns, 0);
    while i < |ns|
      invariant i <= |ns| && part.Valid() && FillNodes(part.View(), ns, i) == goal
    {
      var created := CreateNodeAt(part, ns, i);
      if !created {
        return false;
      }
      i := i + 1;
    }
    return true;
  }

  /** The body of the loop over the elements. */
  method CreateElementAt(part: ModelPart, st: State, i: nat) returns (created: bool)
    requires part.Valid() && i < |st.ids|
    modifies part`elements, part.local`elements
    ensures part.Valid()
    ensures FillElements(old(part.View()), st, i) == if created then FillElements(part.View(), st, i + 1) else None
  {
    var e := ElementRead(st, i);
    if e.None? {
      return false;
    }
    var ok, _ := part.CreateNewElement(e.value.id, e.value.ty, e.value.conn);
    return ok;
  }

  method CreateElements(part: ModelPart, st: State) returns (ok: bool)
    requires part.Valid()
    modifies part`elements, part.local`elements
    ensures part.Valid()
    ensures ok <==> FillElements(old(part.View()), st, 0).Some?
    ensures ok ==> Some(part.View()) == FillElements(old(part.View()), st, 0)
  {
    var i := 0;
    ghost var goal := FillElements(part.View(), st, 0);
    while i < |st.ids|
      invariant i <= |st.ids| && part.Valid() && FillElements(part.View(), st, i) == goal
    {
      var created := CreateElementAt(part, st, i);
      if !created {
        return false;
      }
      i := i + 1;
    }
    return true;
  }
}
