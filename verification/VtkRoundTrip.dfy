/** Reading a written file gives the mesh back. */
module VtkRoundTrip {
  import opened ObjectGraph
  import opened Mesh
  import opened Vtk

  const KEYWORDS: set<string> := {"POINTS", "CELLS", "NODE_ID", "ELEMENT_ID", "ELEMENT_TYPE"}

  /** No keyword but possibly `own` is found in `w`. */
  predicate Quiet(w: string, own: string) {
    forall k :: k in KEYWORDS && k != own ==> !Contains(w, k)
  }

  /** A keyword is found in a word exactly if it stands somewhere between other characters. */
  lemma ContainsExactly(w: string, keyword: string)
    ensures Contains(w, keyword) <==> exists before, behind :: w == before + keyword + behind
  {
    if Contains(w, keyword) {
      var i :| 0 <= i <= |w| - |keyword| && MatchAt(w, keyword, i);
      assert w == w[..i] + keyword + w[i + |keyword|..];
    }
    if before, behind :| w == before + keyword + behind {
      assert w[|before|..|before| + |keyword|] == keyword;
      assert MatchAt(w, keyword, |before|);
    }
  }

  /** A keyword with two adjacent characters that are not adjacent in a word is not found in it. */
  lemma NoPair(w: string, keyword: string, j: nat)
    requires j + 1 < |keyword|
    requires forall i :: 0 <= i < |w| - 1 ==> !(w[i] == keyword[j] && w[i + 1] == keyword[j + 1])
    ensures !Contains(w, keyword)
  {
    forall i | 0 <= i <= |w| - |keyword|
      ensures !MatchAt(w, keyword, i)
    {
      var part := w[i..i + |keyword|];
      assert part[j] == w[i + j] && part[j + 1] == w[i + j + 1];
    }
  }

  predicate Pair(w: string, a: char, b: char) {
    exists i :: 0 <= i < |w| - 1 && w[i] == a && w[i + 1] == b
  }

  lemma QuietWord(w: string)
    requires !Pair(w, 'T', 'S') && !Pair(w, 'L', 'S') && !Pair(w, 'D', 'E') && !Pair(w, 'L', 'E')
    ensures Quiet(w, "")
  {
    NoPair(w, "POINTS", 4);
    NoPair(w, "CELLS", 3);
    NoPair(w, "NODE_ID", 2);
    NoPair(w, "ELEMENT_ID", 1);
    NoPair(w, "ELEMENT_TYPE", 1);
  }

  lemma QuietHeader()
    ensures Quiet("#", "") && Quiet("vtk", "") && Quiet("DataFile", "") && Quiet("Version", "") && Quiet("4.0", "")
  {
    QuietWord("#"); QuietWord("vtk"); QuietWord("DataFile"); QuietWord("Version"); QuietWord("4.0");
  }

  lemma QuietTitle()
    ensures Quiet("CoSimIO", "") && Quiet("FileCommunication", "") && Quiet("ASCII", "")
  {
    QuietWord("CoSimIO"); QuietWord("FileCommunication"); QuietWord("ASCII");
  }

  lemma QuietDataset()
    ensures Quiet("DATASET", "") && Quiet("UNSTRUCTURED_GRID", "") && Quiet("float", "") && Quiet("int", "")
  {
    QuietWord("DATASET"); QuietWord("UNSTRUCTURED_GRID"); QuietWord("float"); QuietWord("int");
  }

  lemma QuietSections()
    ensures Quiet("CELL_TYPES", "") && Quiet("POINT_DATA", "") && Quiet("CELL_DATA", "")
    ensures Quiet("FIELD", "") && Quiet("FieldData", "")
  {
    QuietWord("CELL_TYPES"); QuietWord("POINT_DATA"); QuietWord("CELL_DATA");
    QuietWord("FIELD"); QuietWord("FieldData");
  }

  lemma PointsQuiet()
    ensures Quiet("POINTS", "POINTS")
  {
    NoPair("POINTS", "CELLS", 3); NoPair("POINTS", "NODE_ID", 2);
    NoPair("POINTS", "ELEMENT_ID", 1); NoPair("POINTS", "ELEMENT_TYPE", 1);
  }

  lemma CellsQuiet()
    ensures Quiet("CELLS", "CELLS")
  {
    NoPair("CELLS", "POINTS", 4); NoPair("CELLS", "NODE_ID", 2);
    NoPair("CELLS", "ELEMENT_ID", 1); NoPair("CELLS", "ELEMENT_TYPE", 1);
  }

  lemma NodeIdQuiet()
    ensures Quiet("NODE_ID", "NODE_ID")
  {
    NoPair("NODE_ID", "POINTS", 4); NoPair("NODE_ID", "CELLS", 3);
    NoPair("NODE_ID", "ELEMENT_ID", 1); NoPair("NODE_ID", "ELEMENT_TYPE", 1);
  }

  lemma ElementIdQuiet()
    ensures Quiet("ELEMENT_ID", "ELEMENT_ID")
  {
    NoPair("ELEMENT_ID", "POINTS", 4); NoPair("ELEMENT_ID", "CELLS", 3);
    NoPair("ELEMENT_ID", "NODE_ID", 2); NoPair("ELEMENT_ID", "ELEMENT_TYPE", 7);
  }

  lemma ElementTypeQuiet()
    ensures Quiet("ELEMENT_TYPE", "ELEMENT_TYPE")
  {
    NoPair("ELEMENT_TYPE", "POINTS", 4); NoPair("ELEMENT_TYPE", "CELLS", 3);
    NoPair("ELEMENT_TYPE", "NODE_ID", 2); NoPair("ELEMENT_TYPE", "ELEMENT_ID", 7);
  }

  lemma SectionWords()
    ensures forall k :: k in KEYWORDS ==> Contains(k, k) && Quiet(k, k)
  {
    PointsQuiet();
    CellsQuiet();
    NodeIdQuiet();
    ElementIdQuiet();
    ElementTypeQuiet();
    forall k | k in KEYWORDS
      ensures Contains(k, k)
    {
      assert MatchAt(k, k, 0);
    }
  }

  // Lines and columns

  predicate OneLine(line: seq<Tok>) {
    forall k :: 0 <= k < |line| ==> !line[k].End?
  }

  lemma {:induction false} LineTaken(line: seq<Tok>, rest: seq<Tok>)
    requires OneLine(line)
    ensures TakeLine(line + [End] + rest) == (line, rest)
  {
    var toks := line + [End] + rest;
    if line == [] {
      assert toks[1..] == rest;
    } else {
      assert toks[1..] == line[1..] + [End] + rest;
      LineTaken(line[1..], rest);
      assert line == [line[0]] + line[1..];
    }
  }

  /** Every word of the line is quiet. */
  predicate QuietLine(line: seq<Tok>) {
    forall k :: 0 <= k < |line| && line[k].Word? ==> Quiet(line[k].s, "")
  }

  lemma {:induction false} QuietFinds(line: seq<Tok>, keyword: string)
    requires QuietLine(line) && keyword in KEYWORDS
    ensures FindWord(line, keyword).None?
  {
    if line != [] { QuietFinds(line[1..], keyword); }
  }

  /** A line without keywords is skipped. */
  lemma LineSkipped(line: seq<Tok>, rest: seq<Tok>, st: State)
    requires OneLine(line) && QuietLine(line)
    ensures ReadLines(line + [End] + rest, st) == ReadLines(rest, st)
  {
    LineTaken(line, rest);
    QuietFinds(line, "POINTS");
    QuietFinds(line, "CELLS");
    QuietFinds(line, "NODE_ID");
    QuietFinds(line, "ELEMENT_ID");
    QuietFinds(line, "ELEMENT_TYPE");
  }

  lemma EndSkipped(rest: seq<Tok>, st: State)
    ensures ReadLines([End] + rest, st) == ReadLines(rest, st)
  {
    LineSkipped([], rest, st);
    assert [] + [End] + rest == [End] + rest;
  }

  lemma {:induction false} ColumnSkipped(ns: seq<int>, rest: seq<Tok>, st: State)
    ensures ReadLines(Column(ns) + rest, st) == ReadLines(rest, st)
  {
    if ns == [] {
      assert Column(ns) + rest == rest;
    } else {
      var tail := Column(ns[1..]) + rest;
      assert Column(ns) + rest == [Int(ns[0])] + [End] + tail;
      LineSkipped([Int(ns[0])], tail, st);
      ColumnSkipped(ns[1..], rest, st);
    }
  }

  /** The end of the last line that `operator>>` leaves on the stream. */
  function Left(n: nat): seq<Tok> {
    if n == 0 then [] else [End]
  }

  lemma LeftSkipped(n: nat, rest: seq<Tok>, st: State)
    ensures ReadLines(Left(n) + ([End] + rest), st) == ReadLines(rest, st)
  {
    EndSkipped(rest, st);
    if n == 0 {
      assert Left(n) + ([End] + rest) == [End] + rest;
    } else {
      EndSkipped([End] + rest, st);
    }
  }

  lemma {:induction false} ColumnTaken(ns: seq<int>, rest: seq<Tok>)
    ensures TakeInts(Column(ns) + rest, |ns|) == Some((ns, Left(|ns|) + rest))
  {
    if ns == [] {
      assert Column(ns) + rest == rest == Left(0) + rest;
    } else {
      var toks := Column(ns) + rest;
      var tail := Column(ns[1..]) + rest;
      assert toks[1..] == [End] + tail && toks[1..][1..] == tail;
      ColumnTaken(ns[1..], rest);
      if |ns| > 1 {
        assert TakeInts(toks[1..], |ns| - 1) == TakeInts(tail, |ns| - 1);
      } else {
        assert tail == rest;
      }
      assert ns == [ns[0]] + ns[1..];
    }
  }

  function Coords(ns: seq<NodeData>): (r: seq<real>)
    ensures |r| == 3 * |ns|
    ensures forall k :: 0 <= k < |ns| ==> r[3 * k] == ns[k].x && r[3 * k + 1] == ns[k].y && r[3 * k + 2] == ns[k].z
  {
    if ns == [] then [] else
      var r := [ns[0].x, ns[0].y, ns[0].z] + Coords(ns[1..]);
      assert forall k :: 1 <= k < |ns| ==> ns[k] == ns[1..][k - 1];
      r
  }

  lemma TakeThree(x: real, y: real, z: real, tail: seq<Tok>, k: nat)
    requires TakeReals(tail, k).Some?
    ensures TakeReals([Coord(x), Coord(y), Coord(z)] + tail, k + 3)
         == Some(([x, y, z] + TakeReals(tail, k).value.0, TakeReals(tail, k).value.1))
  {
    var toks := [Coord(x), Coord(y), Coord(z)] + tail;
    var toks1, toks2 := toks[1..], toks[2..];
    assert toks1[1..] == toks2 && toks2[1..] == tail;
    var r := TakeReals(tail, k).value;
    assert TakeReals(toks2, k + 1) == Some(([z] + r.0, r.1));
    assert TakeReals(toks1, k + 2) == Some(([y] + ([z] + r.0), r.1));
    assert [x] + ([y] + ([z] + r.0)) == [x, y, z] + r.0;
  }

  lemma {:induction false} CoordsTaken(ns: seq<NodeData>, rest: seq<Tok>)
    ensures TakeReals(CoordLines(ns) + rest, 3 * |ns|) == Some((Coords(ns), Left(|ns|) + rest))
  {
    if ns == [] {
      assert CoordLines(ns) + rest == rest == Left(0) + rest;
    } else {
      var n := ns[0];
      var tail := CoordLines(ns[1..]) + rest;
      assert CoordLines(ns) + rest == [Coord(n.x), Coord(n.y), Coord(n.z)] + ([End] + tail);
      CoordsTaken(ns[1..], rest);
      assert ([End] + tail)[1..] == tail;
      if |ns| == 1 { assert tail == rest; }
      TakeThree(n.x, n.y, n.z, [End] + tail, 3 * |ns| - 3);
    }
  }

  lemma {:induction false} IntsTaken(ns: seq<int>, rest: seq<Tok>)
    ensures TakeInts(Ints(ns) + rest, |ns|) == Some((ns, rest))
  {
    if ns == [] {
      assert Ints(ns) + rest == rest;
    } else {
      assert (Ints(ns) + rest)[1..] == Ints(ns[1..]) + rest;
      IntsTaken(ns[1..], rest);
      assert ns == [ns[0]] + ns[1..];
    }
  }

  lemma TakeOne(n: int, rest: seq<Tok>)
    ensures TakeInts([Int(n)] + rest, 1) == Some(([n], rest))
  {
    assert ([Int(n)] + rest)[1..] == rest;
    assert TakeInts(rest, 0) == Some(([], rest));
    assert [n] + [] == [n];
  }

  lemma EndBeforeCells(toks: seq<Tok>, k: nat)
    requires k > 0
    ensures TakeCells([End] + toks, k) == TakeCells(toks, k)
  {
    assert ([End] + toks)[1..] == toks;
  }

  lemma FirstCell(conns: seq<seq<int>>, rest: seq<Tok>)
    requires conns != []
    ensures CellLines(conns) + rest == [Int(|conns[0]|)] + (Ints(conns[0]) + ([End] + (CellLines(conns[1..]) + rest)))
  {
  }

  lemma {:induction false} CellsTaken(conns: seq<seq<int>>, rest: seq<Tok>)
    ensures TakeCells(CellLines(conns) + rest, |conns|) == Some((conns, Left(|conns|) + rest))
  {
    if conns == [] {
      assert CellLines(conns) + rest == rest == Left(0) + rest;
    } else {
      var conn := conns[0];
      var tail := CellLines(conns[1..]) + rest;
      FirstCell(conns, rest);
      TakeOne(|conn|, Ints(conn) + ([End] + tail));
      IntsTaken(conn, [End] + tail);
      CellsTaken(conns[1..], rest);
      if |conns| > 1 {
        EndBeforeCells(tail, |conns| - 1);
      } else {
        assert tail == rest;
      }
      assert conns == [conn] + conns[1..];
    }
  }

  // The sections, one after the other

  lemma HeaderSkipped(rest: seq<Tok>, st: State)
    ensures ReadLines(HEADER + rest, st) == ReadLines(rest, st)
  {
    var l1 := [Word("#"), Word("vtk"), Word("DataFile"), Word("Version"), Word("4.0")];
    var l2 := [Word("CoSimIO"), Word("FileCommunication")];
    var l3 := [Word("ASCII")];
    var l4 := [Word("DATASET"), Word("UNSTRUCTURED_GRID")];
    var t4 := l4 + [End] + ([End] + rest);
    var t3 := l3 + [End] + t4;
    var t2 := l2 + [End] + t3;
    assert HEADER + rest == l1 + [End] + t2;
    HeaderLinesQuiet();
    LineSkipped(l1, t2, st);
    LineSkipped(l2, t3, st);
    LineSkipped(l3, t4, st);
    LineSkipped(l4, [End] + rest, st);
    EndSkipped(rest, st);
  }

  lemma HeaderLinesQuiet()
    ensures QuietLine([Word("#"), Word("vtk"), Word("DataFile"), Word("Version"), Word("4.0")])
    ensures QuietLine([Word("CoSimIO"), Word("FileCommunication")])
    ensures QuietLine([Word("ASCII")])
    ensures QuietLine([Word("DATASET"), Word("UNSTRUCTURED_GRID")])
  {
    QuietHeader();
    QuietTitle();
    QuietDataset();
  }

  /** A line that starts with a keyword and is quiet otherwise: what each search finds in it. */
  lemma KeywordFinds(own: string, line: seq<Tok>, keyword: string)
    requires own in KEYWORDS && keyword in KEYWORDS && line != [] && line[0] == Word(own) && QuietLine(line[1..])
    ensures FindWord(line, keyword) == if keyword == own then Some(0) else None
  {
    SectionWords();
    QuietFinds(line[1..], keyword);
  }

  lemma PointsSplit(c: Content)
    ensures PointsSection(c) == [Word("POINTS"), Int(|c.nodes|), Word("float")] + [End]
                                + (CoordLines(c.nodes) + ([End] + CellsSection(c)))
  {
  }

  function AfterPoints(c: Content, st: State): State {
    st.(coords := Coords(c.nodes), nodeIds := Resize(st.nodeIds, |c.nodes|, 0))
  }

  /** The rest of a line that holds no keyword is passed over. */
  lemma QuietPassed(line: seq<Tok>, rest: seq<Tok>, st: State)
    requires QuietLine(line)
    ensures ReadCells(line, rest, st) == Some((line, rest, st)) && ReadColumns(line, rest, st) == Some((rest, st))
  {
    QuietFinds(line, "CELLS");
    QuietFinds(line, "NODE_ID");
    QuietFinds(line, "ELEMENT_ID");
    QuietFinds(line, "ELEMENT_TYPE");
  }

  lemma PointsLineRead(c: Content, st: State)
    ensures var n := |c.nodes|;
            var tail := [End] + CellsSection(c);
            var line := [Word("POINTS"), Int(n), Word("float")];
            && QuietLine(line[1..])
            && ReadPoints(line, CoordLines(c.nodes) + tail, st) == Some((line[1..], Left(n) + tail, AfterPoints(c, st)))
  {
    var line := [Word("POINTS"), Int(|c.nodes|), Word("float")];
    CoordsTaken(c.nodes, [End] + CellsSection(c));
    QuietDataset();
    assert line[1..] == [Int(|c.nodes|), Word("float")] && QuietLine(line[1..]);
    KeywordFinds("POINTS", line, "POINTS");
  }

  lemma PointsRead(c: Content, st: State)
    ensures ReadLines(PointsSection(c), st) == ReadLines(CellsSection(c), AfterPoints(c, st))
  {
    var n := |c.nodes|;
    var line := [Word("POINTS"), Int(n), Word("float")];
    var rest := Left(n) + ([End] + CellsSection(c));
    PointsSplit(c);
    LineTaken(line, CoordLines(c.nodes) + ([End] + CellsSection(c)));
    PointsLineRead(c, st);
    QuietPassed(line[1..], rest, AfterPoints(c, st));
    assert ReadStep(PointsSection(c), st) == Some((rest, AfterPoints(c, st)));
    LeftSkipped(n, CellsSection(c), AfterPoints(c, st));
  }

  lemma CellsRead(c: Content, st: State)
    ensures ReadLines(CellsSection(c), st)
         == ReadLines(CellTypesSection(c),
                      st.(conns := c.conns, ids := Resize(st.ids, |c.conns|, 0),
                          types := Resize(st.types, |c.conns|, 0)))
  {
    var n := |c.conns|;
    var line := [Word("CELLS"), Int(n), Int(CellListSize(c.conns))];
    var rest := CellLines(c.conns) + ([End] + CellTypesSection(c));
    var st1 := st.(conns := c.conns, ids := Resize(st.ids, n, 0), types := Resize(st.types, n, 0));
    assert CellsSection(c) == line + [End] + rest;
    LineTaken(line, rest);
    CellsTaken(c.conns, [End] + CellTypesSection(c));
    var line1 := line[1..];
    assert line1 == [Int(n), Int(CellListSize(c.conns))] && QuietLine(line1);
    KeywordFinds("CELLS", line, "POINTS");
    KeywordFinds("CELLS", line, "CELLS");
    QuietFinds(line1, "NODE_ID");
    QuietFinds(line1, "ELEMENT_ID");
    QuietFinds(line1, "ELEMENT_TYPE");
    assert ReadCells(line, rest, st) == Some((line1, Left(n) + ([End] + CellTypesSection(c)), st1));
    assert ReadStep(CellsSection(c), st) == Some((Left(n) + ([End] + CellTypesSection(c)), st1));
    LeftSkipped(n, CellTypesSection(c), st1);
  }

  lemma CellTypesSkipped(c: Content, st: State)
    ensures ReadLines(CellTypesSection(c), st) == ReadLines(NodeIdSection(c), st)
  {
    var line := [Word("CELL_TYPES"), Int(|c.conns|)];
    var rest := Column(c.cellTypes) + ([End] + NodeIdSection(c));
    assert CellTypesSection(c) == line + [End] + rest;
    QuietSections();
    LineSkipped(line, rest, st);
    ColumnSkipped(c.cellTypes, [End] + NodeIdSection(c), st);
    EndSkipped(NodeIdSection(c), st);
  }

  lemma DataHeadLines(section: string, field: string, n: nat, column: seq<Tok>, rest: seq<Tok>)
    ensures DataHead(section, field, n) + column + rest ==
            [Word(section), Int(n)] + [End] + ([Word("FIELD"), Word("FieldData"), Int(1)] + [End]
              + ([Word(field), Int(1), Int(n), Word("int")] + [End] + (column + rest)))
  {
  }

  /** A column of integers announced by `field`. */
  lemma ColumnRead(section: string, field: string, ns: seq<int>, rest: seq<Tok>, st: State, st1: State)
    requires section in {"POINT_DATA", "CELL_DATA"}
    requires field in {"NODE_ID", "ELEMENT_ID", "ELEMENT_TYPE"}
    requires field == "NODE_ID" ==> |st.nodeIds| == |ns| && st1 == st.(nodeIds := ns)
    requires field == "ELEMENT_ID" ==> |st.ids| == |ns| && st1 == st.(ids := ns)
    requires field == "ELEMENT_TYPE" ==> |st.types| == |ns| && st1 == st.(types := ns)
    ensures ReadLines(DataHead(section, field, |ns|) + Column(ns) + rest, st) == ReadLines(Left(|ns|) + rest, st1)
  {
    var n := |ns|;
    var l1 := [Word(section), Int(n)];
    var l2 := [Word("FIELD"), Word("FieldData"), Int(1)];
    var line := [Word(field), Int(1), Int(n), Word("int")];
    var body := Column(ns) + rest;
    var t3 := line + [End] + body;
    var t2 := l2 + [End] + t3;
    DataHeadLines(section, field, n, Column(ns), rest);
    QuietSections();
    LineSkipped(l1, t2, st);
    LineSkipped(l2, t3, st);
    FieldRead(field, ns, line, body, rest, st, st1);
  }

  lemma FieldRead(field: string, ns: seq<int>, line: seq<Tok>, body: seq<Tok>, rest: seq<Tok>, st: State, st1: State)
    requires field in {"NODE_ID", "ELEMENT_ID", "ELEMENT_TYPE"}
    requires field == "NODE_ID" ==> |st.nodeIds| == |ns| && st1 == st.(nodeIds := ns)
    requires field == "ELEMENT_ID" ==> |st.ids| == |ns| && st1 == st.(ids := ns)
    requires field == "ELEMENT_TYPE" ==> |st.types| == |ns| && st1 == st.(types := ns)
    requires line == [Word(field), Int(1), Int(|ns|), Word("int")] && body == Column(ns) + rest
    ensures ReadLines(line + [End] + body, st) == ReadLines(Left(|ns|) + rest, st1)
  {
    LineTaken(line, body);
    FieldFinds(field, line, |ns|);
    FieldColumnRead(field, ns, line, body, rest, st, st1);
  }

  /** What the searches find in the line of a field. */
  lemma FieldFinds(field: string, line: seq<Tok>, n: nat)
    requires field in {"NODE_ID", "ELEMENT_ID", "ELEMENT_TYPE"}
    requires line == [Word(field), Int(1), Int(n), Word("int")]
    ensures forall k :: k in KEYWORDS ==> FindWord(line, k) == if k == field then Some(0) else None
  {
    QuietDataset();
    assert QuietLine(line[1..]);
    forall k | k in KEYWORDS
      ensures FindWord(line, k) == if k == field then Some(0) else None
    {
      KeywordFinds(field, line, k);
    }
  }

  lemma FieldColumnRead(field: string, ns: seq<int>, line: seq<Tok>, body: seq<Tok>, rest: seq<Tok>, st: State,
                        st1: State)
    requires field in {"NODE_ID", "ELEMENT_ID", "ELEMENT_TYPE"}
    requires field == "NODE_ID" ==> |st.nodeIds| == |ns| && st1 == st.(nodeIds := ns)
    requires field == "ELEMENT_ID" ==> |st.ids| == |ns| && st1 == st.(ids := ns)
    requires field == "ELEMENT_TYPE" ==> |st.types| == |ns| && st1 == st.(types := ns)
    requires forall k :: k in KEYWORDS ==> FindWord(line, k) == if k == field then Some(0) else None
    requires body == Column(ns) + rest
    ensures ReadColumns(line, body, st) == Some((Left(|ns|) + rest, st1))
  {
    ColumnTaken(ns, rest);
    assert "NODE_ID" in KEYWORDS && "ELEMENT_ID" in KEYWORDS && "ELEMENT_TYPE" in KEYWORDS;
  }

  /** Every section of a written file is read into the reader's vectors. */
  lemma ContentRead(c: Content)
    requires |c.ids| == |c.types| == |c.conns|
    ensures ReadLines(Written(c), State([], [], [], [], []))
         == Some(State(Coords(c.nodes), Ids(c.nodes), c.ids, c.types, c.conns))
  {
    var st0 := State([], [], [], [], []);
    HeaderSkipped(PointsSection(c), st0);
    PointsRead(c, st0);
    var st1 := st0.(coords := Coords(c.nodes), nodeIds := Resize(st0.nodeIds, |c.nodes|, 0));
    CellsRead(c, st1);
    var st2 := st1.(conns := c.conns, ids := Resize(st1.ids, |c.conns|, 0), types := Resize(st1.types, |c.conns|, 0));
    CellTypesSkipped(c, st2);
    var st3 := st2.(nodeIds := Ids(c.nodes));
    NodeIdsRead(c, st2, st3);
    var st4 := st3.(ids := c.ids);
    ElementIdsRead(c, st3, st4);
    ElementTypesRead(c, st4, st4.(types := c.types));
  }

  lemma NodeIdsRead(c: Content, st: State, st1: State)
    requires |st.nodeIds| == |c.nodes| && st1 == st.(nodeIds := Ids(c.nodes))
    ensures ReadLines(NodeIdSection(c), st) == ReadLines(ElementIdSection(c), st1)
  {
    var rest := [End] + ElementIdSection(c);
    assert NodeIdSection(c) == DataHead("POINT_DATA", "NODE_ID", |c.nodes|) + Column(Ids(c.nodes)) + rest;
    ColumnRead("POINT_DATA", "NODE_ID", Ids(c.nodes), rest, st, st1);
    LeftSkipped(|c.nodes|, ElementIdSection(c), st1);
  }

  lemma ElementIdsRead(c: Content, st: State, st1: State)
    requires |st.ids| == |c.ids| && st1 == st.(ids := c.ids)
    ensures ReadLines(ElementIdSection(c), st) == ReadLines(ElementTypeSection(c), st1)
  {
    var rest := [End] + ElementTypeSection(c);
    assert ElementIdSection(c) == DataHead("CELL_DATA", "ELEMENT_ID", |c.ids|) + Column(c.ids) + rest;
    ColumnRead("CELL_DATA", "ELEMENT_ID", c.ids, rest, st, st1);
    LeftSkipped(|c.ids|, ElementTypeSection(c), st1);
  }

  lemma ElementTypesRead(c: Content, st: State, st1: State)
    requires |st.types| == |c.types| && st1 == st.(types := c.types)
    ensures ReadLines(ElementTypeSection(c), st) == Some(st1)
  {
    assert ElementTypeSection(c) == DataHead("CELL_DATA", "ELEMENT_TYPE", |c.types|) + Column(c.types) + [];
    ColumnRead("CELL_DATA", "ELEMENT_TYPE", c.types, [], st, st1);
    if |c.types| > 0 {
      assert Left(|c.types|) + [] == [End] + [];
      EndSkipped([], st1);
    }
  }
}
