/** What the element types stand for: shapes with corners, edges and faces, and the names printed for them. */
module Elements {
  import opened Decimals
  import opened Mesh

  datatype Geometry = Vertex | Segment | Triangle | Quadrilateral | Tetrahedron | Pyramid | Wedge | Hexahedron

  /** The cells of a geometry: corners, edges, faces and bodies. */
  datatype Cells = Cells(corners: nat, edges: nat, faces: nat, bodies: nat)

  function CellsOf(g: Geometry): (c: Cells)
    ensures c.corners + c.faces == c.edges + c.bodies + 1
  {
    match g
    case Vertex => Cells(1, 0, 0, 0)
    case Segment => Cells(2, 1, 0, 0)
    case Triangle => Cells(3, 3, 1, 0)
    case Quadrilateral => Cells(4, 4, 1, 0)
    case Tetrahedron => Cells(4, 6, 4, 1)
    case Pyramid => Cells(5, 8, 5, 1)
    case Wedge => Cells(6, 9, 5, 1)
    case Hexahedron => Cells(8, 12, 6, 1)
  }

  function Dimension(g: Geometry): nat {
    var c := CellsOf(g);
    if c.bodies > 0 then 3 else if c.faces > 0 then 2 else if c.edges > 0 then 1 else 0
  }

  /** The nodes lie on the corners, also on the edges, or on all cells of the geometry. */
  datatype Order = Linear | Quadratic | Full

  /** A geometry with its nodes, in a space of two or three dimensions. */
  datatype Shape = Shape(geometry: Geometry, order: Order, space: nat) {
    function Points(): nat {
      var c := CellsOf(geometry);
      match order
      case Linear => c.corners
      case Quadratic => c.corners + c.edges
      case Full => c.corners + c.edges + c.faces + c.bodies
    }

    /** The name it should have: geometry, dimension of the space, and the number of nodes unless it is a point. */
    function Name(): string {
      GeometryName(geometry) + Decimal(space) + "D" + if geometry.Vertex? then "" else Decimal(Points())
    }
  }

  function GeometryName(g: Geometry): string {
    match g
    case Vertex => "Point"
    case Segment => "Line"
    case Triangle => "Triangle"
    case Quadrilateral => "Quadrilateral"
    case Tetrahedron => "Tetrahedra"
    case Pyramid => "Pyramid"
    case Wedge => "Prism"
    case Hexahedron => "Hexahedra"
  }

  function ShapeOf(ty: ElementType): Shape {
    match ty
    case Hexahedra3D20 => Shape(Hexahedron, Quadratic, 3)
    case Hexahedra3D27 => Shape(Hexahedron, Full, 3)
    case Hexahedra3D8 => Shape(Hexahedron, Linear, 3)
    case Prism3D15 => Shape(Wedge, Quadratic, 3)
    case Prism3D6 => Shape(Wedge, Linear, 3)
    case Pyramid3D13 => Shape(Pyramid, Quadratic, 3)
    case Pyramid3D5 => Shape(Pyramid, Linear, 3)
    case Quadrilateral2D4 => Shape(Quadrilateral, Linear, 2)
    case Quadrilateral2D8 => Shape(Quadrilateral, Quadratic, 2)
    case Quadrilateral2D9 => Shape(Quadrilateral, Full, 2)
    case Quadrilateral3D4 => Shape(Quadrilateral, Linear, 3)
    case Quadrilateral3D8 => Shape(Quadrilateral, Quadratic, 3)
    case Quadrilateral3D9 => Shape(Quadrilateral, Full, 3)
    case Tetrahedra3D10 => Shape(Tetrahedron, Quadratic, 3)
    case Tetrahedra3D4 => Shape(Tetrahedron, Linear, 3)
    case Triangle2D3 => Shape(Triangle, Linear, 2)
    case Triangle2D6 => Shape(Triangle, Quadratic, 2)
    case Triangle3D3 => Shape(Triangle, Linear, 3)
    case Triangle3D6 => Shape(Triangle, Quadratic, 3)
    case Line2D2 => Shape(Segment, Linear, 2)
    case Line2D3 => Shape(Segment, Quadratic, 2)
    case Line3D2 => Shape(Segment, Linear, 3)
    case Line3D3 => Shape(Segment, Quadratic, 3)
    case Point2D => Shape(Vertex, Linear, 2)
    case Point3D => Shape(Vertex, Linear, 3)
  }

  /** `GetElementName`. */
  function ElementName(ty: ElementType): string {
    match ty
    case Hexahedra3D20 => "Hexahedra3D20"
    case Hexahedra3D27 => "Hexahedra3D27"
    case Hexahedra3D8 => "Hexahedra3D8"
    case Prism3D15 => "Prism3D15"
    case Prism3D6 => "Prism3D6"
    case Pyramid3D13 => "Pyramid3D13"
    case Pyramid3D5 => "Pyramid3D5"
    case Quadrilateral2D4 => "Quadrilateral2D4"
    case Quadrilateral2D8 => "Quadrilateral2D8"
    case Quadrilateral2D9 => "Quadrilateral2D9"
    case Quadrilateral3D4 => "Quadrilateral3D4"
    case Quadrilateral3D8 => "Quadrilateral3D8"
    case Quadrilateral3D9 => "Quadrilateral3D9"
    case Tetrahedra3D10 => "Tetrahedra3D10"
    case Tetrahedra3D4 => "Tetrahedra3D4"
    case Triangle2D3 => "Triangle3D3"
    case Triangle2D6 => "Triangle2D6"
    case Triangle3D3 => "Triangle3D3"
    case Triangle3D6 => "Triangle3D6"
    case Line2D2 => "Line2D2"
    case Line2D3 => "Line2D3"
    case Line3D2 => "Line3D2"
    case Line3D3 => "Line3D3"
    case Point2D => "Point2D"
    case Point3D => "Point3D"
  }

  /** Main result: an element needs as many nodes as its shape has places for them. */
  lemma ArityCounts(ty: ElementType)
    ensures Arity(ty) == ShapeOf(ty).Points()
  {
  }

  lemma SmallDecimals()
    ensures Decimal(2) == "2" && Decimal(3) == "3" && Decimal(4) == "4" && Decimal(5) == "5" && Decimal(6) == "6"
    ensures Decimal(8) == "8" && Decimal(9) == "9"
    ensures Decimal(10) == "10" && Decimal(13) == "13" && Decimal(15) == "15" && Decimal(20) == "20"
    ensures Decimal(27) == "27"
  {
    assert Decimal(1) == "1" && Decimal(2) == "2";
  }

  /** The parts of a name that are joined to it. */
  function Joined(geometry: string, space: string, number: string): string {
    geometry + space + "D" + number
  }

  lemma NameIsJoined(shape: Shape)
    ensures shape.Name() == Joined(GeometryName(shape.geometry), Decimal(shape.space),
                                   if shape.geometry.Vertex? then "" else Decimal(shape.Points()))
  {
  }

  lemma SolidNames()
    ensures Joined("Hexahedra", "3", "20") == "Hexahedra3D20"
    ensures Joined("Hexahedra", "3", "27") == "Hexahedra3D27"
    ensures Joined("Hexahedra", "3", "8") == "Hexahedra3D8"
    ensures Joined("Tetrahedra", "3", "10") == "Tetrahedra3D10"
    ensures Joined("Tetrahedra", "3", "4") == "Tetrahedra3D4"
  {
  }

  lemma TaperedNames()
    ensures Joined("Prism", "3", "15") == "Prism3D15"
    ensures Joined("Prism", "3", "6") == "Prism3D6"
    ensures Joined("Pyramid", "3", "13") == "Pyramid3D13"
    ensures Joined("Pyramid", "3", "5") == "Pyramid3D5"
  {
  }

  lemma QuadrilateralNames()
    ensures Joined("Quadrilateral", "2", "4") == "Quadrilateral2D4"
    ensures Joined("Quadrilateral", "2", "8") == "Quadrilateral2D8"
    ensures Joined("Quadrilateral", "2", "9") == "Quadrilateral2D9"
    ensures Joined("Quadrilateral", "3", "4") == "Quadrilateral3D4"
    ensures Joined("Quadrilateral", "3", "8") == "Quadrilateral3D8"
    ensures Joined("Quadrilateral", "3", "9") == "Quadrilateral3D9"
  {
  }

  lemma TriangleNames()
    ensures Joined("Triangle", "2", "3") == "Triangle2D3"
    ensures Joined("Triangle", "2", "6") == "Triangle2D6"
    ensures Joined("Triangle", "3", "3") == "Triangle3D3"
    ensures Joined("Triangle", "3", "6") == "Triangle3D6"
  {
  }

  lemma ThinNames()
    ensures Joined("Line", "2", "2") == "Line2D2"
    ensures Joined("Line", "2", "3") == "Line2D3"
    ensures Joined("Line", "3", "2") == "Line3D2"
    ensures Joined("Line", "3", "3") == "Line3D3"
    ensures Joined("Point", "2", "") == "Point2D"
    ensures Joined("Point", "3", "") == "Point3D"
  {
  }

  /** The printed name says what the type is, for all types but one: Triangle2D3 is called Triangle3D3. */
  lemma NameSaysShape(ty: ElementType)
    ensures ElementName(ty) == ShapeOf(ty).Name() <==> ty != Triangle2D3
  {
    SmallDecimals();
    NameIsJoined(ShapeOf(ty));
    SolidNames();
    TaperedNames();
    QuadrilateralNames();
    TriangleNames();
    ThinNames();
  }

  lemma QuadrilateralNamesDistinct(s: ElementType, t: ElementType)
    requires ShapeOf(s).geometry.Quadrilateral?
    ensures ElementName(s) == ElementName(t) <==> s == t
  {
  }

  lemma TriangleNamesDistinct(s: ElementType, t: ElementType)
    requires ShapeOf(s).geometry.Triangle?
    ensures ElementName(s) == ElementName(t) <==> s == t || {s, t} == {Triangle2D3, Triangle3D3}
  {
  }

  lemma SolidNamesDistinct(s: ElementType, t: ElementType)
    requires Dimension(ShapeOf(s).geometry) == 3
    ensures ElementName(s) == ElementName(t) <==> s == t
  {
  }

  lemma ThinNamesDistinct(s: ElementType, t: ElementType)
    requires Dimension(ShapeOf(s).geometry) <= 1
    ensures ElementName(s) == ElementName(t) <==> s == t
  {
  }

  /** So two types are printed alike exactly if they are equal or these two. */
  lemma NamesDistinct(s: ElementType, t: ElementType)
    ensures ElementName(s) == ElementName(t) <==> s == t || {s, t} == {Triangle2D3, Triangle3D3}
  {
    var d := Dimension(ShapeOf(s).geometry);
    if d == 3 {
      SolidNamesDistinct(s, t);
    } else if d == 2 {
      if ShapeOf(s).geometry.Triangle? {
        TriangleNamesDistinct(s, t);
      } else {
        QuadrilateralNamesDistinct(s, t);
      }
    } else {
      ThinNamesDistinct(s, t);
    }
  }

  // Bulk creation

  /** The nodes of the first `i` elements. */
  function PointsBefore(types: seq<ElementType>, i: nat): nat
    requires i <= |types|
  {
    if i == 0 then 0 else PointsBefore(types, i - 1) + ShapeOf(types[i - 1]).Points()
  }

  lemma {:induction false} OffsetCounts(types: seq<ElementType>, i: nat)
    requires i <= |types|
    ensures Offset(types, i) == PointsBefore(types, i)
  {
    if i > 0 {
      OffsetCounts(types, i - 1);
      ArityCounts(types[i - 1]);
    }
  }

  /** Described element `k` has the nodes between those of the elements before it and those after it. */
  lemma {:induction false} SliceHolds(ids: seq<int>, types: seq<ElementType>, conns: seq<int>, i: nat, k: nat)
    requires i <= k < |ids| == |types| && Offset(types, |types|) == |conns|
    ensures var from, size := PointsBefore(types, k), ShapeOf(types[k]).Points();
            && from + size <= |conns|
            && Slices(ids, types, conns, i)[k - i] == ElementData(ids[k], types[k], conns[from..from + size])
    decreases k - i
  {
    OffsetMonotone(types, k, |types|);
    OffsetCounts(types, k);
    ArityCounts(types[k]);
    if i < k {
      SliceHolds(ids, types, conns, i + 1, k);
    }
  }
}
