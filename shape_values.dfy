/**
 * The values of the `<basic-shape>` grammar (CSS Shapes Module Level 1,
 * section 3.1): the capability flags that say which shape functions a
 * property admits, the specified shape tree the parser builds, and the
 * property-level unions of `clip-path` and `shape-outside`.
 */
module ShapeValues {
  import opened AsciiBytes
  import opened CssParser

  // ---------------------------------------------------------------------
  // Capability flags

  /** `AllowedBasicShapes`: an 8-bit set of shape functions. */
  datatype AllowedBasicShapes = AllowedBasicShapes(bits: bv8)
  {
    /** `bitflags` `contains`: every bit of `other` is set here. */
    predicate Contains(other: AllowedBasicShapes)
    {
      bits & other.bits == other.bits
    }
  }

  const InsetFlag := AllowedBasicShapes(1 << 0)
  const XywhFlag := AllowedBasicShapes(1 << 1)
  const CircleFlag := AllowedBasicShapes(1 << 3)
  const EllipseFlag := AllowedBasicShapes(1 << 4)
  const PolygonFlag := AllowedBasicShapes(1 << 5)
  const PathFlag := AllowedBasicShapes(1 << 6)

  /** `ALL`, the shapes of `clip-path` (and of `offset-path`). */
  const AllFlags := AllowedBasicShapes(
    InsetFlag.bits | XywhFlag.bits | CircleFlag.bits | EllipseFlag.bits | PolygonFlag.bits | PathFlag.bits)

  /** `SHAPE_OUTSIDE`: `inset()`, `circle()`, `ellipse()` and `polygon()` only. */
  const ShapeOutsideFlags := AllowedBasicShapes(
    InsetFlag.bits | CircleFlag.bits | EllipseFlag.bits | PolygonFlag.bits)

  /** The six shape functions, by the name they are written with. */
  datatype ShapeFunction = InsetFn | XywhFn | CircleFn | EllipseFn | PolygonFn | PathFn
  {
    function Name(): Bytes
    {
      match this
      case InsetFn => Kw("inset")
      case XywhFn => Kw("xywh")
      case CircleFn => Kw("circle")
      case EllipseFn => Kw("ellipse")
      case PolygonFn => Kw("polygon")
      case PathFn => Kw("path")
    }

    function Flag(): AllowedBasicShapes
    {
      match this
      case InsetFn => InsetFlag
      case XywhFn => XywhFlag
      case CircleFn => CircleFlag
      case EllipseFn => EllipseFlag
      case PolygonFn => PolygonFlag
      case PathFn => PathFlag
    }
  }

  /**
   * May `fn` be parsed under `flags`? Its flag must be set, and `xywh()`
   * also needs the `layout.css.basic-shape-xywh.enabled` preference.
   */
  predicate Enabled(flags: AllowedBasicShapes, fn: ShapeFunction, xywhEnabled: bool)
  {
    flags.Contains(fn.Flag()) && (fn == XywhFn ==> xywhEnabled)
  }

  // ---------------------------------------------------------------------
  // Parsing context

  /** Does the property draw filled shapes (with a fill rule) or outlines (without)? */
  datatype ShapeType = Filled | Outline

  /** What an omitted `at <position>` of `circle()` and `ellipse()` stands for. */
  datatype DefaultPosition = Center | Context

  // ---------------------------------------------------------------------
  // Specified shapes

  datatype FillRule = Nonzero | Evenodd

  /** The fill rule of a polygon or path that does not give one. */
  const DefaultFillRule: FillRule := Nonzero

  datatype ShapeRadius = Length(length: Dimension) | ClosestSide | FarthestSide

  /** The radius of a circle or ellipse that does not give one. */
  const DefaultShapeRadius: ShapeRadius := ClosestSide

  datatype PositionOrAuto = Pos(position: Position) | Auto

  /** `Position::center()`. */
  const CenterPosition: Position := Position(Kw("center"), Kw("center"))

  /** `BorderRadius::zero()`. */
  const ZeroRadius: BorderRadius := BorderRadius(Kw("0"), true)

  /** The four box edges, in the order top, right, bottom, left. */
  datatype Rect<T> = Rect(top: T, right: T, bottom: T, left: T)

  /**
   * A `<length-percentage>`: either a value as its own parser produced it,
   * or the symbolic `calc(100% - t1 - t2 - ...)` that the `xywh()` rewrite
   * builds and a later stage resolves against the reference box.
   */
  datatype LengthPercentage = Leaf(value: Dimension) | HundredPercentMinus(terms: seq<Dimension>)

  datatype InsetRect = InsetRect(rect: Rect<LengthPercentage>, round: BorderRadius)

  /** `xywh(x y width height [round <border-radius>]?)`; width and height are non-negative. */
  datatype Xywh = Xywh(x: Dimension, y: Dimension, width: Dimension, height: Dimension, round: BorderRadius)

  /** `<basic-shape-rect>`. */
  datatype BasicShapeRect = InsetShape(inset: InsetRect) | XywhShape(xywh: Xywh)

  datatype Circle = Circle(radius: ShapeRadius, position: PositionOrAuto)

  datatype Ellipse = Ellipse(semiaxisX: ShapeRadius, semiaxisY: ShapeRadius, position: PositionOrAuto)

  datatype PolygonCoord = PolygonCoord(x: Dimension, y: Dimension)

  datatype Polygon = Polygon(fill: FillRule, coordinates: seq<PolygonCoord>)

  /** `path([<fill-rule>,]? <string>)`; the path data is kept as the string it was written with. */
  datatype Path = Path(fill: FillRule, path: Bytes)

  datatype BasicShape =
    | RectShape(rect: BasicShapeRect)
    | CircleShape(circle: Circle)
    | EllipseShape(ellipse: Ellipse)
    | PolygonShape(polygon: Polygon)
    | PathShape(path: Path)
  {
    /** The function a shape was written with. */
    function Function(): ShapeFunction
    {
      match this
      case RectShape(InsetShape(_)) => InsetFn
      case RectShape(XywhShape(_)) => XywhFn
      case CircleShape(_) => CircleFn
      case EllipseShape(_) => EllipseFn
      case PolygonShape(_) => PolygonFn
      case PathShape(_) => PathFn
    }
  }

  // ---------------------------------------------------------------------
  // Reference boxes and the property-level unions

  datatype BoxKeyword = MarginBox | BorderBox | PaddingBox | ContentBox | FillBox | StrokeBox | ViewBox
  {
    function Name(): Bytes
    {
      match this
      case MarginBox => Kw("margin-box")
      case BorderBox => Kw("border-box")
      case PaddingBox => Kw("padding-box")
      case ContentBox => Kw("content-box")
      case FillBox => Kw("fill-box")
      case StrokeBox => Kw("stroke-box")
      case ViewBox => Kw("view-box")
    }
  }

  /** A reference box; `ElementDependent` is clip-path's default, whose meaning depends on the element. */
  datatype ReferenceBox = ElementDependent | Keyword(keyword: BoxKeyword)

  /**
   * Which reference-box type a property uses: clip-path's `<geometry-box>`
   * (all seven keywords) or shape-outside's `<shape-box>` (the four CSS
   * boxes).
   */
  datatype BoxType = GeometryBox | ShapeBox
  {
    predicate Admits(k: BoxKeyword)
    {
      this == GeometryBox || k in {MarginBox, BorderBox, PaddingBox, ContentBox}
    }

    /** The box a shape uses when none was written (`Default::default()`). */
    function Default(): ReferenceBox
    {
      match this
      case GeometryBox => ElementDependent
      case ShapeBox => Keyword(MarginBox)
    }
  }

  /** What the shape-or-box grammar recognised, before it is wrapped by its property. */
  datatype ShapeOrBox = ShapeAndBox(shape: BasicShape, refBox: ReferenceBox) | BoxOnly(refBox: ReferenceBox)

  /** A specified `clip-path`. */
  datatype ClipPath =
    | ClipNone
    | ClipUrl(url: Url)
    | ClipShape(shape: BasicShape, refBox: ReferenceBox)
    | ClipBox(refBox: ReferenceBox)

  /** A specified `shape-outside`. */
  datatype ShapeOutside =
    | OutsideNone
    | OutsideImage(image: Bytes)
    | OutsideShape(shape: BasicShape, refBox: ReferenceBox)
    | OutsideBox(refBox: ReferenceBox)
}
