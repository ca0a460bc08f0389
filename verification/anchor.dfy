/** Anchor placement of the floating toolbar: one of six positions,
    turned into a top-left point computed from the parent's size alone,
    with a fixed margin. The toolbar is a window of its own, so the point
    is its desktop position; the parent's own position plays no part. */
module Anchor {
  import opened Geometry

  /** The six anchors, in the order the toolbar header declares them. */
  datatype Position = TopCenter | TopLeft | TopRight | BottomCenter | BottomLeft | BottomRight

  /** The margin, in pixels, subtracted from the parent's width and height
      or used as the coordinate itself. It is a margin from the parent's
      edges only when the parent sits at the desktop origin. */
  const Margin: int := 20

  /** An anchor is a row and a column. */
  datatype Row = Top | Bottom
  datatype Column = Left | Center | Right

  function RowOf(p: Position): Row {
    match p
    case TopCenter | TopLeft | TopRight => Top
    case BottomCenter | BottomLeft | BottomRight => Bottom
  }

  function ColumnOf(p: Position): Column {
    match p
    case TopLeft | BottomLeft => Left
    case TopCenter | BottomCenter => Center
    case TopRight | BottomRight => Right
  }

  function MakePosition(r: Row, c: Column): (p: Position)
    ensures RowOf(p) == r && ColumnOf(p) == c
  {
    match (r, c)
    case (Top, Left) => TopLeft
    case (Top, Center) => TopCenter
    case (Top, Right) => TopRight
    case (Bottom, Left) => BottomLeft
    case (Bottom, Center) => BottomCenter
    case (Bottom, Right) => BottomRight
  }

  const AllPositions: set<Position> :=
    {TopCenter, TopLeft, TopRight, BottomCenter, BottomLeft, BottomRight}

  /** There are exactly six anchors, and each is exactly one (row, column)
      pair. */
  lemma SixPositions()
    ensures forall p: Position :: p in AllPositions
    ensures |AllPositions| == 6
    ensures forall p: Position :: MakePosition(RowOf(p), ColumnOf(p)) == p
  {
    forall p: Position
      ensures p in AllPositions
    {
      match p
      case TopCenter => case TopLeft => case TopRight =>
      case BottomCenter => case BottomLeft => case BottomRight =>
    }
  }

  /** The top-left point of a toolbar whose size hint is `hint`, anchored at
      `p` inside a parent of size `parent`. The centre columns halve the
      free width with C++'s truncating division. */
  function AnchorPoint(p: Position, parent: Size, hint: Size): (r: Point)
    ensures RowOf(p) == Top ==> r.y == Margin
    ensures RowOf(p) == Bottom ==> r.y + hint.height + Margin == parent.height
    ensures ColumnOf(p) == Left ==> r.x == Margin
    ensures ColumnOf(p) == Right ==> r.x + hint.width + Margin == parent.width
    ensures ColumnOf(p) == Center && parent.width >= hint.width ==>
              2 * r.x <= parent.width - hint.width <= 2 * r.x + 1
    ensures ColumnOf(p) == Center && parent.width < hint.width ==>
              2 * r.x - 1 <= parent.width - hint.width <= 2 * r.x
  {
    match p
    case TopCenter => Point(TruncHalf(parent.width - hint.width), Margin)
    case TopLeft => Point(Margin, Margin)
    case TopRight => Point(parent.width - hint.width - Margin, Margin)
    case BottomCenter => Point(TruncHalf(parent.width - hint.width), parent.height - hint.height - Margin)
    case BottomLeft => Point(Margin, parent.height - hint.height - Margin)
    case BottomRight => Point(parent.width - hint.width - Margin, parent.height - hint.height - Margin)
  }

  /** The row alone decides y and the column alone decides x: switching
      between top and bottom never moves the toolbar sideways, and
      switching columns never moves it up or down. */
  lemma RowAndColumnAreIndependent(p: Position, q: Position, parent: Size, hint: Size)
    ensures ColumnOf(p) == ColumnOf(q) ==> AnchorPoint(p, parent, hint).x == AnchorPoint(q, parent, hint).x
    ensures RowOf(p) == RowOf(q) ==> AnchorPoint(p, parent, hint).y == AnchorPoint(q, parent, hint).y
  {
  }

  /** The centre is symmetric: when the free width is even, the gaps to
      the left and right edges are equal; when it is odd and non-negative,
      the right gap is one pixel larger. */
  lemma CenterIsSymmetric(p: Position, parent: Size, hint: Size)
    requires ColumnOf(p) == Center && parent.width >= hint.width
    ensures var r := AnchorPoint(p, parent, hint);
            var rightGap := parent.width - (r.x + hint.width);
            rightGap == r.x || rightGap == r.x + 1
  {
  }

  /** A toolbar wider than its parent overhangs both edges; truncation
      puts the centre one pixel right of where Euclidean halving (-2)
      would when the overhang is odd. */
  lemma OverhangTruncatesTowardZero()
    ensures AnchorPoint(TopCenter, Size(100, 50), Size(103, 10)).x == -1
  {
  }

  /** A bound on window dimensions under which every anchor coordinate is
      representable as a C++ `int`. */
  const MaxDimension: int := 0x4000_0000

  predicate SaneSize(s: Size) {
    0 <= s.width <= MaxDimension && 0 <= s.height <= MaxDimension
  }

  /** With non-negative dimensions up to 2^30 no intermediate or final
      coordinate overflows an `int`, so the unbounded arithmetic above is
      the arithmetic the widget performs. */
  lemma AnchorFitsInt(p: Position, parent: Size, hint: Size)
    requires SaneSize(parent) && SaneSize(hint)
    ensures InInt32(parent.width - hint.width) && InInt32(parent.height - hint.height)
    ensures InInt32(AnchorPoint(p, parent, hint).x) && InInt32(AnchorPoint(p, parent, hint).y)
  {
  }
}
