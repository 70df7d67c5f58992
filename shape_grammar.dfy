/**
 * The `<basic-shape>` grammar of `clip-path` and `shape-outside`, stated as
 * functions from a token sequence and a start position to a `Step`: the
 * outcome and the position the cursor is left at. Every `try_parse` is a
 * `Try`, every `parse_nested_block` an `Entirely` over the function token's
 * argument block. The parser methods in `ShapeParser` are proved to compute
 * exactly these functions.
 */
module ShapeGrammar {
  import opened AsciiBytes
  import opened CssParser
  import opened ShapeValues

  // ---------------------------------------------------------------------
  // Leaf values: each is one token, consumed whether or not it is accepted

  /** `LengthPercentage::parse`. */
  function AsLengthPercentage(t: Token): Option<Dimension>
  {
    if t.DimensionToken? then Some(t.dimension) else None
  }

  /** `NonNegativeLengthPercentage::parse`. */
  function AsNonNegative(t: Token): Option<Dimension>
  {
    if t.DimensionToken? && t.dimension.nonNegative then Some(t.dimension) else None
  }

  /** `BorderRadius::parse`. */
  function AsBorderRadius(t: Token): Option<BorderRadius>
  {
    if t.RadiusToken? then Some(t.radius) else None
  }

  /** `Position::parse`. */
  function AsPosition(t: Token): Option<Position>
  {
    if t.PositionToken? then Some(t.position) else None
  }

  /** `ShapeRadius::parse`: a non-negative length-percentage, `closest-side` or `farthest-side`. */
  function AsShapeRadius(t: Token): Option<ShapeRadius>
  {
    if t.DimensionToken? && t.dimension.nonNegative then Some(Length(t.dimension))
    else if t.Ident? && EqIgnoreAsciiCase(t.name, Kw("closest-side")) then Some(ClosestSide)
    else if t.Ident? && EqIgnoreAsciiCase(t.name, Kw("farthest-side")) then Some(FarthestSide)
    else None
  }

  /** `FillRule::parse`. */
  function AsFillRule(t: Token): Option<FillRule>
  {
    if t.Ident? && EqIgnoreAsciiCase(t.name, Kw("nonzero")) then Some(Nonzero)
    else if t.Ident? && EqIgnoreAsciiCase(t.name, Kw("evenodd")) then Some(Evenodd)
    else None
  }

  /** `SVGPathData::parse(.., AllowEmpty::No)`: a string, which must not be empty. */
  function AsPathData(t: Token): Option<Bytes>
  {
    if t.StringToken? && t.value != [] then Some(t.value) else None
  }

  /** `SpecifiedUrl::parse`. */
  function AsUrl(t: Token): Option<Url>
  {
    if t.UrlToken? then Some(t.url) else None
  }

  /** `Image::parse_with_cors_anonymous`. */
  function AsImage(t: Token): Option<Bytes>
  {
    if t.ImageToken? then Some(t.css) else None
  }

  /** The keyword a box identifier names, if it names one. */
  function BoxKeywordNamed(name: Bytes): (r: Option<BoxKeyword>)
    ensures r.Some? ==> EqIgnoreAsciiCase(name, r.value.Name())
  {
    if EqIgnoreAsciiCase(name, MarginBox.Name()) then Some(MarginBox)
    else if EqIgnoreAsciiCase(name, BorderBox.Name()) then Some(BorderBox)
    else if EqIgnoreAsciiCase(name, PaddingBox.Name()) then Some(PaddingBox)
    else if EqIgnoreAsciiCase(name, ContentBox.Name()) then Some(ContentBox)
    else if EqIgnoreAsciiCase(name, FillBox.Name()) then Some(FillBox)
    else if EqIgnoreAsciiCase(name, StrokeBox.Name()) then Some(StrokeBox)
    else if EqIgnoreAsciiCase(name, ViewBox.Name()) then Some(ViewBox)
    else None
  }

  /** `ReferenceBox::parse` for the property's box type. */
  function AsReferenceBox(boxType: BoxType): Token -> Option<ReferenceBox>
  {
    (t: Token) =>
      if t.Ident? && BoxKeywordNamed(t.name).Some? && boxType.Admits(BoxKeywordNamed(t.name).value)
      then Some(Keyword(BoxKeywordNamed(t.name).value))
      else None
  }

  /** The result of a successful step, passed through `f`. */
  function MapStep<T, U>(s: Step<T>, f: T -> U): (r: Step<U>)
    ensures r.pos == s.pos && r.result.Ok? == s.result.Ok?
    ensures r.result.Ok? ==> r.result.value == f(s.result.value)
    ensures r.result.Err? ==> r.result.error == s.result.error
  {
    match s.result
    case Ok(v) => Step(Ok(f(v)), s.pos)
    case Err(e) => Step(Err(e), s.pos)
  }

  // ---------------------------------------------------------------------
  // Shared clauses

  /** `Rect::parse_with(LengthPercentage::parse)`: one to four edges, expanded to all four. */
  function RectEdges(ts: seq<Token>, p: nat): (r: Step<Rect<LengthPercentage>>)
    requires p <= |ts|
    ensures p <= r.pos <= |ts|
  {
    var first := ReadToken(ts, p, AsLengthPercentage);
    if first.result.Err? then Propagate(first)
    else
      var a := Leaf(first.result.value);
      var second := Try(ReadToken(ts, first.pos, AsLengthPercentage), first.pos);
      if second.result.Err? then Step(Ok(Rect(a, a, a, a)), second.pos)
      else
        var b := Leaf(second.result.value);
        var third := Try(ReadToken(ts, second.pos, AsLengthPercentage), second.pos);
        if third.result.Err? then Step(Ok(Rect(a, b, a, b)), third.pos)
        else
          var c := Leaf(third.result.value);
          var fourth := Try(ReadToken(ts, third.pos, AsLengthPercentage), third.pos);
          if fourth.result.Err? then Step(Ok(Rect(a, b, c, b)), fourth.pos)
          else Step(Ok(Rect(a, b, c, Leaf(fourth.result.value))), fourth.pos)
  }

  /** The optional `round <border-radius>` clause of `inset()` and `xywh()`. */
  function RoundClause(ts: seq<Token>, p: nat): (r: Step<BorderRadius>)
    requires p <= |ts|
    ensures p <= r.pos <= |ts|
  {
    var round := Try(ReadToken(ts, p, AsKeyword(Kw("round"))), p);
    if round.result.Ok? then ReadToken(ts, round.pos, AsBorderRadius)
    else Step(Ok(ZeroRadius), round.pos)
  }

  /** `parse_at_position`: `at <position>`, or the default the property asks for. */
  function AtPosition(ts: seq<Token>, p: nat, defaultPosition: DefaultPosition): (r: Step<PositionOrAuto>)
    requires p <= |ts|
    ensures p <= r.pos <= |ts|
  {
    var at := Try(ReadToken(ts, p, AsKeyword(Kw("at"))), p);
    if at.result.Ok? then MapStep(ReadToken(ts, at.pos, AsPosition), (v: Position) => Pos(v))
    else
      match defaultPosition
      case Center => Step(Ok(Pos(CenterPosition)), at.pos)
      case Context => Step(Ok(Auto), at.pos)
  }

  /** A fill rule that must be followed by a comma. */
  function FillRuleAndComma(ts: seq<Token>, p: nat): (r: Step<FillRule>)
    requires p <= |ts|
    ensures p <= r.pos <= |ts|
  {
    var fill := ReadToken(ts, p, AsFillRule);
    if fill.result.Err? then Propagate(fill)
    else
      var comma := ReadToken(ts, fill.pos, AsComma);
      if comma.result.Err? then Propagate(comma)
      else Step(Ok(fill.result.value), comma.pos)
  }

  /** `parse_fill_rule`: never fails; outline shapes do not even look for a fill rule. */
  function ParseFillRule(ts: seq<Token>, p: nat, shapeType: ShapeType): (r: Step<FillRule>)
    requires p <= |ts|
    ensures r.result.Ok? && p <= r.pos <= |ts|
  {
    match shapeType
    case Outline => Step(Ok(DefaultFillRule), p)
    case Filled =>
      var fill := Try(FillRuleAndComma(ts, p), p);
      if fill.result.Ok? then fill else Step(Ok(DefaultFillRule), fill.pos)
  }

  // ---------------------------------------------------------------------
  // Argument grammars of the six functions

  function InsetArguments(ts: seq<Token>, p: nat): (r: Step<InsetRect>)
    requires p <= |ts|
    ensures p <= r.pos <= |ts|
  {
    var rect := RectEdges(ts, p);
    if rect.result.Err? then Propagate(rect)
    else
      var round := RoundClause(ts, rect.pos);
      if round.result.Err? then Propagate(round)
      else Step(Ok(InsetRect(rect.result.value, round.result.value)), round.pos)
  }

  function XywhArguments(ts: seq<Token>, p: nat): (r: Step<Xywh>)
    requires p <= |ts|
    ensures p <= r.pos <= |ts|
  {
    var x := ReadToken(ts, p, AsLengthPercentage);
    if x.result.Err? then Propagate(x) else
    var y := ReadToken(ts, x.pos, AsLengthPercentage);
    if y.result.Err? then Propagate(y) else
    var w := ReadToken(ts, y.pos, AsNonNegative);
    if w.result.Err? then Propagate(w) else
    var h := ReadToken(ts, w.pos, AsNonNegative);
    if h.result.Err? then Propagate(h) else
    var round := RoundClause(ts, h.pos);
    if round.result.Err? then Propagate(round)
    else Step(Ok(Xywh(x.result.value, y.result.value, w.result.value, h.result.value, round.result.value)), round.pos)
  }

  function CircleArguments(ts: seq<Token>, p: nat, defaultPosition: DefaultPosition): (r: Step<Circle>)
    requires p <= |ts|
    ensures p <= r.pos <= |ts|
  {
    var radius := Try(ReadToken(ts, p, AsShapeRadius), p);
    var position := AtPosition(ts, radius.pos, defaultPosition);
    if position.result.Err? then Propagate(position)
    else
      var rad := if radius.result.Ok? then radius.result.value else DefaultShapeRadius;
      Step(Ok(Circle(rad, position.result.value)), position.pos)
  }

  /** Two radii in a row, or a failure. */
  function RadiusPair(ts: seq<Token>, p: nat): (r: Step<(ShapeRadius, ShapeRadius)>)
    requires p <= |ts|
    ensures p <= r.pos <= |ts|
  {
    var a := ReadToken(ts, p, AsShapeRadius);
    if a.result.Err? then Propagate(a)
    else
      var b := ReadToken(ts, a.pos, AsShapeRadius);
      if b.result.Err? then Propagate(b)
      else Step(Ok((a.result.value, b.result.value)), b.pos)
  }

  function EllipseArguments(ts: seq<Token>, p: nat, defaultPosition: DefaultPosition): (r: Step<Ellipse>)
    requires p <= |ts|
    ensures p <= r.pos <= |ts|
  {
    var radii := Try(RadiusPair(ts, p), p);
    var position := AtPosition(ts, radii.pos, defaultPosition);
    if position.result.Err? then Propagate(position)
    else
      var (rx, ry) := if radii.result.Ok? then radii.result.value else (DefaultShapeRadius, DefaultShapeRadius);
      Step(Ok(Ellipse(rx, ry, position.result.value)), position.pos)
  }

  /** One `<length-percentage> <length-percentage>` pair of a polygon. */
  function Coordinate(ts: seq<Token>, p: nat): (r: Step<PolygonCoord>)
    requires p <= |ts|
    ensures p <= r.pos <= |ts|
  {
    var x := ReadToken(ts, p, AsLengthPercentage);
    if x.result.Err? then Propagate(x)
    else
      var y := ReadToken(ts, x.pos, AsLengthPercentage);
      if y.result.Err? then Propagate(y)
      else Step(Ok(PolygonCoord(x.result.value, y.result.value)), y.pos)
  }

  /** `parse_comma_separated(Coordinate)`: each item must use up its tokens up to the next comma. */
  function Coordinates(ts: seq<Token>, p: nat): (r: Step<seq<PolygonCoord>>)
    requires p <= |ts|
    ensures p <= r.pos <= |ts|
    ensures r.result.Ok? ==> |r.result.value| >= 1
    decreases |ts| - p
  {
    var c := NextComma(ts, p);
    var item := Coordinate(ts[..c], p);
    var one := Entirely(ts[..c], item);
    if one.Err? then Step(Err(one.error), item.pos)
    else if c == |ts| then Step(Ok([one.value]), c)
    else Prepend([one.value], Coordinates(ts, c + 1))
  }

  /** The items parsed before a step, put in front of what the step parsed. */
  function Prepend<T>(items: seq<T>, s: Step<seq<T>>): (r: Step<seq<T>>)
    ensures r.pos == s.pos && r.result.Ok? == s.result.Ok?
  {
    MapStep(s, (rest: seq<T>) => items + rest)
  }

  function PolygonArguments(ts: seq<Token>, p: nat, shapeType: ShapeType): (r: Step<Polygon>)
    requires p <= |ts|
    ensures p <= r.pos <= |ts|
  {
    var fill := ParseFillRule(ts, p, shapeType);
    var coordinates := Coordinates(ts, fill.pos);
    if coordinates.result.Err? then Propagate(coordinates)
    else Step(Ok(Polygon(fill.result.value, coordinates.result.value)), coordinates.pos)
  }

  function PathArguments(ts: seq<Token>, p: nat, shapeType: ShapeType): (r: Step<Path>)
    requires p <= |ts|
    ensures p <= r.pos <= |ts|
  {
    var fill := ParseFillRule(ts, p, shapeType);
    var path := ReadToken(ts, fill.pos, AsPathData);
    if path.result.Err? then Propagate(path)
    else Step(Ok(Path(fill.result.value, path.result.value)), path.pos)
  }

  // ---------------------------------------------------------------------
  // Shapes

  /** Is `fn` the function called `name`, and may it be parsed here? */
  predicate Selects(name: Bytes, fn: ShapeFunction, flags: AllowedBasicShapes, xywhEnabled: bool)
  {
    EqIgnoreAsciiCase(name, fn.Name()) && Enabled(flags, fn, xywhEnabled)
  }

  /** The arguments of the shape function `fn`, as the shape they describe. */
  function FunctionArguments(fn: ShapeFunction, ts: seq<Token>, p: nat, shapeType: ShapeType,
                             defaultPosition: DefaultPosition): (r: Step<BasicShape>)
    requires p <= |ts|
    ensures p <= r.pos <= |ts|
    ensures r.result.Ok? ==> r.result.value.Function() == fn
  {
    match fn
    case InsetFn => MapStep(InsetArguments(ts, p), (v: InsetRect) => RectShape(InsetShape(v)))
    case CircleFn => MapStep(CircleArguments(ts, p, defaultPosition), (v: Circle) => CircleShape(v))
    case EllipseFn => MapStep(EllipseArguments(ts, p, defaultPosition), (v: Ellipse) => EllipseShape(v))
    case PolygonFn => MapStep(PolygonArguments(ts, p, shapeType), (v: Polygon) => PolygonShape(v))
    case PathFn => MapStep(PathArguments(ts, p, shapeType), (v: Path) => PathShape(v))
    case XywhFn => MapStep(XywhArguments(ts, p), (v: Xywh) => RectShape(XywhShape(v)))
  }

  /**
   * The body of `parse_nested_block` in `BasicShape::parse`: the arguments
   * of the function `name`. Only a function whose name matches and that the
   * flags admit is parsed; any other name is `UnexpectedFunction(name)`.
   */
  function ShapeArguments(name: Bytes, ts: seq<Token>, p: nat, flags: AllowedBasicShapes, shapeType: ShapeType,
                          defaultPosition: DefaultPosition, xywhEnabled: bool): (r: Step<BasicShape>)
    requires p <= |ts|
    ensures p <= r.pos <= |ts|
    ensures r.result.Ok? ==> Selects(name, r.result.value.Function(), flags, xywhEnabled)
    ensures (forall fn: ShapeFunction :: !Selects(name, fn, flags, xywhEnabled)) ==>
              r == Step(Err(UnexpectedFunction(name)), p)
  {
    if Selects(name, InsetFn, flags, xywhEnabled) then FunctionArguments(InsetFn, ts, p, shapeType, defaultPosition)
    else if Selects(name, CircleFn, flags, xywhEnabled) then FunctionArguments(CircleFn, ts, p, shapeType, defaultPosition)
    else if Selects(name, EllipseFn, flags, xywhEnabled) then FunctionArguments(EllipseFn, ts, p, shapeType, defaultPosition)
    else if Selects(name, PolygonFn, flags, xywhEnabled) then FunctionArguments(PolygonFn, ts, p, shapeType, defaultPosition)
    else if Selects(name, PathFn, flags, xywhEnabled) then FunctionArguments(PathFn, ts, p, shapeType, defaultPosition)
    else if Selects(name, XywhFn, flags, xywhEnabled) then FunctionArguments(XywhFn, ts, p, shapeType, defaultPosition)
    else Step(Err(UnexpectedFunction(name)), p)
  }

  /** `BasicShape::parse`: a function token whose argument block is parsed to its end. */
  function ParseBasicShape(ts: seq<Token>, p: nat, flags: AllowedBasicShapes, shapeType: ShapeType,
                      defaultPosition: DefaultPosition, xywhEnabled: bool): (r: Step<BasicShape>)
    requires p <= |ts|
    ensures p <= r.pos <= |ts|
    ensures r.result.Ok? ==> r.pos == p + 1
  {
    var f := ReadToken(ts, p, AsFunction);
    if f.result.Err? then Propagate(f)
    else
      var (name, args) := f.result.value;
      Step(Entirely(args, ShapeArguments(name, args, 0, flags, shapeType, defaultPosition, xywhEnabled)), f.pos)
  }

  /** The two slots of `parse_shape_or_box` and the cursor. */
  datatype Slots = Slots(shape: Option<BasicShape>, refBox: Option<ReferenceBox>, pos: nat)

  /**
   * The loop of `parse_shape_or_box`, from a state of its two slots: try a
   * shape if none is held, then a box if none is held, and go round again
   * only when that box was found.
   */
  function ShapeOrBoxLoop(ts: seq<Token>, p: nat, shape: Option<BasicShape>, refBox: Option<ReferenceBox>,
                          flags: AllowedBasicShapes, boxType: BoxType, xywhEnabled: bool): (r: Slots)
    requires p <= |ts|
    ensures p <= r.pos <= |ts|
    decreases if refBox.None? then 1 else 0
  {
    var s := if shape.Some? then Step(Ok(shape.value), p)
             else Try(ParseBasicShape(ts, p, flags, Filled, Center, xywhEnabled), p);
    var shape' := if s.result.Ok? then Some(s.result.value) else None;
    if refBox.None? then
      var b := Try(ReadToken(ts, s.pos, AsReferenceBox(boxType)), s.pos);
      if b.result.Ok? then ShapeOrBoxLoop(ts, b.pos, shape', Some(b.result.value), flags, boxType, xywhEnabled)
      else Slots(shape', None, s.pos)
    else Slots(shape', refBox, s.pos)
  }

  /** `parse_shape_or_box`: a shape with its (possibly default) box, a box alone, or nothing recognised. */
  function ParseShapeOrBox(ts: seq<Token>, p: nat, flags: AllowedBasicShapes, boxType: BoxType, xywhEnabled: bool)
    : (r: Step<ShapeOrBox>)
    requires p <= |ts|
    ensures p <= r.pos <= |ts|
  {
    var slots := ShapeOrBoxLoop(ts, p, None, None, flags, boxType, xywhEnabled);
    if slots.shape.Some? then
      var refBox := if slots.refBox.Some? then slots.refBox.value else boxType.Default();
      Step(Ok(ShapeAndBox(slots.shape.value, refBox)), slots.pos)
    else if slots.refBox.Some? then Step(Ok(BoxOnly(slots.refBox.value)), slots.pos)
    else Step(Err(UnspecifiedError), slots.pos)
  }

  /** `ClipPath::parse`: `none`, then a URL, then a shape and/or a geometry box. */
  function ParseClipPath(ts: seq<Token>, p: nat, xywhEnabled: bool): (r: Step<ClipPath>)
    requires p <= |ts|
    ensures p <= r.pos <= |ts|
  {
    var none := Try(ReadToken(ts, p, AsKeyword(Kw("none"))), p);
    if none.result.Ok? then Step(Ok(ClipNone), none.pos) else
    var url := Try(ReadToken(ts, p, AsUrl), p);
    if url.result.Ok? then Step(Ok(ClipUrl(url.result.value)), url.pos) else
    MapStep(ParseShapeOrBox(ts, p, AllFlags, GeometryBox, xywhEnabled),
            (v: ShapeOrBox) => match v
                               case ShapeAndBox(s, b) => ClipShape(s, b)
                               case BoxOnly(b) => ClipBox(b))
  }

  /** `ShapeOutside::parse`: `none`, then an image, then a shape and/or a shape box. */
  function ParseShapeOutside(ts: seq<Token>, p: nat, xywhEnabled: bool): (r: Step<ShapeOutside>)
    requires p <= |ts|
    ensures p <= r.pos <= |ts|
  {
    var none := Try(ReadToken(ts, p, AsKeyword(Kw("none"))), p);
    if none.result.Ok? then Step(Ok(OutsideNone), none.pos) else
    var image := Try(ReadToken(ts, p, AsImage), p);
    if image.result.Ok? then Step(Ok(OutsideImage(image.result.value)), image.pos) else
    MapStep(ParseShapeOrBox(ts, p, ShapeOutsideFlags, ShapeBox, xywhEnabled),
            (v: ShapeOrBox) => match v
                               case ShapeAndBox(s, b) => OutsideShape(s, b)
                               case BoxOnly(b) => OutsideBox(b))
  }

  // ---------------------------------------------------------------------
  // The stand-alone `Parse` impls of single shapes

  /** `expect_function_matching(name)`: the argument block of a function called `name`. */
  function AsFunctionNamed(name: Bytes): Token -> Option<seq<Token>>
  {
    (t: Token) => if t.Function? && EqIgnoreAsciiCase(t.name, name) then Some(t.arguments) else None
  }

  /** `InsetRect::parse`. */
  function InsetFunction(ts: seq<Token>, p: nat): (r: Step<InsetRect>)
    requires p <= |ts|
    ensures p <= r.pos <= |ts|
  {
    var f := ReadToken(ts, p, AsFunctionNamed(Kw("inset")));
    if f.result.Err? then Propagate(f)
    else Step(Entirely(f.result.value, InsetArguments(f.result.value, 0)), f.pos)
  }

  /** `Circle::parse`. */
  function CircleFunction(ts: seq<Token>, p: nat): (r: Step<Circle>)
    requires p <= |ts|
    ensures p <= r.pos <= |ts|
  {
    var f := ReadToken(ts, p, AsFunctionNamed(Kw("circle")));
    if f.result.Err? then Propagate(f)
    else Step(Entirely(f.result.value, CircleArguments(f.result.value, 0, Center)), f.pos)
  }

  /** `Ellipse::parse`. */
  function EllipseFunction(ts: seq<Token>, p: nat): (r: Step<Ellipse>)
    requires p <= |ts|
    ensures p <= r.pos <= |ts|
  {
    var f := ReadToken(ts, p, AsFunctionNamed(Kw("ellipse")));
    if f.result.Err? then Propagate(f)
    else Step(Entirely(f.result.value, EllipseArguments(f.result.value, 0, Center)), f.pos)
  }

  /** `Polygon::parse`. */
  function PolygonFunction(ts: seq<Token>, p: nat): (r: Step<Polygon>)
    requires p <= |ts|
    ensures p <= r.pos <= |ts|
  {
    var f := ReadToken(ts, p, AsFunctionNamed(Kw("polygon")));
    if f.result.Err? then Propagate(f)
    else Step(Entirely(f.result.value, PolygonArguments(f.result.value, 0, Filled)), f.pos)
  }
}
