/**
 * The basic-shape parsers as they run: each advances the cursor of a
 * `Parser`, `try_parse` saves the cursor with `State` and puts it back with
 * `Reset` when the attempt fails, and `parse_nested_block` runs a fresh
 * parser over a function's argument block and then checks it is used up.
 * Every method is proved to leave the result and the cursor that the
 * corresponding `ShapeGrammar` function describes.
 */
module ShapeParser {
  import opened AsciiBytes
  import opened CssParser
  import opened ShapeValues
  import G = ShapeGrammar

  /** `Rect::parse_with(LengthPercentage::parse)`. */
  method RectEdges(input: Parser) returns (r: Result<Rect<LengthPercentage>>)
    requires input.Valid()
    modifies input
    ensures input.Valid() && Step(r, input.pos) == G.RectEdges(input.tokens, old(input.pos))
  {
    var first := input.Next(G.AsLengthPercentage);
    if first.Err? {
      return Err(first.error);
    }
    var a := Leaf(first.value);
    var state := input.State();
    var second := input.Next(G.AsLengthPercentage);
    if second.Err? {
      input.Reset(state);
      return Ok(Rect(a, a, a, a));
    }
    var b := Leaf(second.value);
    state := input.State();
    var third := input.Next(G.AsLengthPercentage);
    if third.Err? {
      input.Reset(state);
      return Ok(Rect(a, b, a, b));
    }
    var c := Leaf(third.value);
    state := input.State();
    var fourth := input.Next(G.AsLengthPercentage);
    if fourth.Err? {
      input.Reset(state);
      return Ok(Rect(a, b, c, b));
    }
    r := Ok(Rect(a, b, c, Leaf(fourth.value)));
  }

  /** `try_parse(expect_ident_matching("round"))`, then the radius or `BorderRadius::zero()`. */
  method RoundClause(input: Parser) returns (r: Result<BorderRadius>)
    requires input.Valid()
    modifies input
    ensures input.Valid() && Step(r, input.pos) == G.RoundClause(input.tokens, old(input.pos))
  {
    var state := input.State();
    var round := input.Next(AsKeyword(Kw("round")));
    if round.Ok? {
      r := input.Next(G.AsBorderRadius);
    } else {
      input.Reset(state);
      r := Ok(ZeroRadius);
    }
  }

  /** `parse_at_position`. */
  method AtPosition(input: Parser, defaultPosition: DefaultPosition) returns (r: Result<PositionOrAuto>)
    requires input.Valid()
    modifies input
    ensures input.Valid() && Step(r, input.pos) == G.AtPosition(input.tokens, old(input.pos), defaultPosition)
  {
    var state := input.State();
    var at := input.Next(AsKeyword(Kw("at")));
    if at.Ok? {
      var position := input.Next(G.AsPosition);
      r := if position.Ok? then Ok(Pos(position.value)) else Err(position.error);
    } else {
      input.Reset(state);
      r := match defaultPosition
        case Center => Ok(Pos(CenterPosition))
        case Context => Ok(Auto);
    }
  }

  /** `parse_fill_rule`. */
  method ParseFillRule(input: Parser, shapeType: ShapeType) returns (fill: FillRule)
    requires input.Valid()
    modifies input
    ensures input.Valid() && Step(Ok(fill), input.pos) == G.ParseFillRule(input.tokens, old(input.pos), shapeType)
  {
    match shapeType
    case Outline =>
      fill := DefaultFillRule;
    case Filled =>
      var state := input.State();
      var parsed := input.Next(G.AsFillRule);
      if parsed.Ok? {
        var comma := input.Next(AsComma);
        if comma.Ok? {
          return parsed.value;
        }
      }
      input.Reset(state);
      fill := DefaultFillRule;
  }

  /** `InsetRect::parse_function_arguments`. */
  method InsetArguments(input: Parser) returns (r: Result<InsetRect>)
    requires input.Valid()
    modifies input
    ensures input.Valid() && Step(r, input.pos) == G.InsetArguments(input.tokens, old(input.pos))
  {
    var rect := RectEdges(input);
    if rect.Err? {
      return Err(rect.error);
    }
    var round := RoundClause(input);
    if round.Err? {
      return Err(round.error);
    }
    r := Ok(InsetRect(rect.value, round.value));
  }

  /** `Xywh::parse_function_arguments`. */
  method XywhArguments(input: Parser) returns (r: Result<Xywh>)
    requires input.Valid()
    modifies input
    ensures input.Valid() && Step(r, input.pos) == G.XywhArguments(input.tokens, old(input.pos))
  {
    var x := input.Next(G.AsLengthPercentage);
    if x.Err? {
      return Err(x.error);
    }
    var y := input.Next(G.AsLengthPercentage);
    if y.Err? {
      return Err(y.error);
    }
    var width := input.Next(G.AsNonNegative);
    if width.Err? {
      return Err(width.error);
    }
    var height := input.Next(G.AsNonNegative);
    if height.Err? {
      return Err(height.error);
    }
    var round := RoundClause(input);
    if round.Err? {
      return Err(round.error);
    }
    r := Ok(Xywh(x.value, y.value, width.value, height.value, round.value));
  }

  /** `Circle::parse_function_arguments`. */
  method CircleArguments(input: Parser, defaultPosition: DefaultPosition) returns (r: Result<Circle>)
    requires input.Valid()
    modifies input
    ensures input.Valid() && Step(r, input.pos) == G.CircleArguments(input.tokens, old(input.pos), defaultPosition)
  {
    var state := input.State();
    var parsed := input.Next(G.AsShapeRadius);
    var radius := DefaultShapeRadius;
    if parsed.Ok? {
      radius := parsed.value;
    } else {
      input.Reset(state);
    }
    var position := AtPosition(input, defaultPosition);
    if position.Err? {
      return Err(position.error);
    }
    r := Ok(Circle(radius, position.value));
  }

  /** `Ellipse::parse_function_arguments`: both radii or neither. */
  method EllipseArguments(input: Parser, defaultPosition: DefaultPosition) returns (r: Result<Ellipse>)
    requires input.Valid()
    modifies input
    ensures input.Valid() && Step(r, input.pos) == G.EllipseArguments(input.tokens, old(input.pos), defaultPosition)
  {
    var state := input.State();
    var rx, ry := DefaultShapeRadius, DefaultShapeRadius;
    var first := input.Next(G.AsShapeRadius);
    var second: Result<ShapeRadius> := Err(UnspecifiedError);
    if first.Ok? {
      second := input.Next(G.AsShapeRadius);
    }
    if first.Ok? && second.Ok? {
      rx, ry := first.value, second.value;
    } else {
      input.Reset(state);
    }
    var position := AtPosition(input, defaultPosition);
    if position.Err? {
      return Err(position.error);
    }
    r := Ok(Ellipse(rx, ry, position.value));
  }

  /** One coordinate pair of `polygon()`. */
  method Coordinate(input: Parser) returns (r: Result<PolygonCoord>)
    requires input.Valid()
    modifies input
    ensures input.Valid() && Step(r, input.pos) == G.Coordinate(input.tokens, old(input.pos))
  {
    var x := input.Next(G.AsLengthPercentage);
    if x.Err? {
      return Err(x.error);
    }
    var y := input.Next(G.AsLengthPercentage);
    if y.Err? {
      return Err(y.error);
    }
    r := Ok(PolygonCoord(x.value, y.value));
  }

  /**
   * `parse_comma_separated(Coordinate)`: each item is parsed by a parser
   * delimited before the next top-level comma and must use up its tokens;
   * a comma after an item asks for another, the end of the input ends the list.
   */
  method Coordinates(input: Parser) returns (r: Result<seq<PolygonCoord>>)
    requires input.Valid()
    modifies input
    ensures input.Valid() && Step(r, input.pos) == G.Coordinates(input.tokens, old(input.pos))
  {
    ghost var start := input.pos;
    var items: seq<PolygonCoord> := [];
    PrependNothing(G.Coordinates(input.tokens, start));
    while true
      invariant input.Valid()
      invariant G.Coordinates(input.tokens, start) == G.Prepend(items, G.Coordinates(input.tokens, input.pos))
      decreases |input.tokens| - input.pos
    {
      ghost var c := NextComma(input.tokens, input.pos);
      var item := DelimitedCoordinate(input);
      if item.Err? {
        return Err(item.error);
      }
      var comma := input.Next(AsComma);
      if comma.Err? {
        return Ok(items + [item.value]);
      }
      PrependTwice(items, [item.value], G.Coordinates(input.tokens, input.pos));
      items := items + [item.value];
    }
  }

  /**
   * One item of the list: `parse_until_before(Comma, Coordinate)`, which
   * parses the tokens before the next comma and must use them all up. On
   * success the cursor stands at that comma (or at the end).
   */
  method DelimitedCoordinate(input: Parser) returns (r: Result<PolygonCoord>)
    requires input.Valid()
    modifies input
    ensures input.Valid()
    ensures var c := NextComma(input.tokens, old(input.pos));
            var item := G.Coordinate(input.tokens[..c], old(input.pos));
            r == Entirely(input.tokens[..c], item) && input.pos == if r.Err? then item.pos else c
  {
    var c := input.UntilComma();
    var delimited := new Parser(input.tokens[..c]);
    delimited.Reset(input.pos);
    r := Coordinate(delimited);
    if r.Ok? {
      var done := delimited.ExpectExhausted();
      if done.Err? {
        r := Err(done.error);
      }
    }
    if r.Err? {
      input.Reset(delimited.pos);
    } else {
      input.Reset(c);
    }
  }

  lemma PrependNothing<T>(s: Step<seq<T>>)
    ensures G.Prepend([], s) == s
  {
    if s.result.Ok? {
      assert [] + s.result.value == s.result.value;
    }
  }

  lemma PrependTwice<T>(a: seq<T>, b: seq<T>, s: Step<seq<T>>)
    ensures G.Prepend(a, G.Prepend(b, s)) == G.Prepend(a + b, s)
  {
    if s.result.Ok? {
      assert a + (b + s.result.value) == (a + b) + s.result.value;
    }
  }

  /** `Polygon::parse_function_arguments`. */
  method PolygonArguments(input: Parser, shapeType: ShapeType) returns (r: Result<Polygon>)
    requires input.Valid()
    modifies input
    ensures input.Valid() && Step(r, input.pos) == G.PolygonArguments(input.tokens, old(input.pos), shapeType)
  {
    var fill := ParseFillRule(input, shapeType);
    var coordinates := Coordinates(input);
    if coordinates.Err? {
      return Err(coordinates.error);
    }
    r := Ok(Polygon(fill, coordinates.value));
  }

  /** `Path::parse_function_arguments`. */
  method PathArguments(input: Parser, shapeType: ShapeType) returns (r: Result<Path>)
    requires input.Valid()
    modifies input
    ensures input.Valid() && Step(r, input.pos) == G.PathArguments(input.tokens, old(input.pos), shapeType)
  {
    var fill := ParseFillRule(input, shapeType);
    var path := input.Next(G.AsPathData);
    if path.Err? {
      return Err(path.error);
    }
    r := Ok(Path(fill, path.value));
  }

  /** The closure `BasicShape::parse` hands to `parse_nested_block`. */
  method ShapeArguments(name: Bytes, input: Parser, flags: AllowedBasicShapes, shapeType: ShapeType,
                        defaultPosition: DefaultPosition, xywhEnabled: bool) returns (r: Result<BasicShape>)
    requires input.Valid()
    modifies input
    ensures input.Valid()
    ensures Step(r, input.pos) ==
            G.ShapeArguments(name, input.tokens, old(input.pos), flags, shapeType, defaultPosition, xywhEnabled)
  {
    if G.Selects(name, InsetFn, flags, xywhEnabled) {
      var v := InsetArguments(input);
      r := if v.Ok? then Ok(RectShape(InsetShape(v.value))) else Err(v.error);
    } else if G.Selects(name, CircleFn, flags, xywhEnabled) {
      var v := CircleArguments(input, defaultPosition);
      r := if v.Ok? then Ok(CircleShape(v.value)) else Err(v.error);
    } else if G.Selects(name, EllipseFn, flags, xywhEnabled) {
      var v := EllipseArguments(input, defaultPosition);
      r := if v.Ok? then Ok(EllipseShape(v.value)) else Err(v.error);
    } else if G.Selects(name, PolygonFn, flags, xywhEnabled) {
      var v := PolygonArguments(input, shapeType);
      r := if v.Ok? then Ok(PolygonShape(v.value)) else Err(v.error);
    } else if G.Selects(name, PathFn, flags, xywhEnabled) {
      var v := PathArguments(input, shapeType);
      r := if v.Ok? then Ok(PathShape(v.value)) else Err(v.error);
    } else if G.Selects(name, XywhFn, flags, xywhEnabled) {
      var v := XywhArguments(input);
      r := if v.Ok? then Ok(RectShape(XywhShape(v.value))) else Err(v.error);
    } else {
      r := Err(UnexpectedFunction(name));
    }
  }

  /** `BasicShape::parse`. */
  method ParseBasicShape(input: Parser, flags: AllowedBasicShapes, shapeType: ShapeType,
                    defaultPosition: DefaultPosition, xywhEnabled: bool) returns (r: Result<BasicShape>)
    requires input.Valid()
    modifies input
    ensures input.Valid()
    ensures Step(r, input.pos) ==
            G.ParseBasicShape(input.tokens, old(input.pos), flags, shapeType, defaultPosition, xywhEnabled)
  {
    var token := input.Next(AsFunction);
    if token.Err? {
      return Err(token.error);
    }
    var (name, arguments) := token.value;
    var nested := new Parser(arguments);
    r := ShapeArguments(name, nested, flags, shapeType, defaultPosition, xywhEnabled);
    if r.Ok? {
      var done := nested.ExpectExhausted();
      if done.Err? {
        r := Err(done.error);
      }
    }
  }

  /** `parse_shape_or_box`. */
  method ParseShapeOrBox(input: Parser, flags: AllowedBasicShapes, boxType: BoxType, xywhEnabled: bool)
    returns (r: Result<ShapeOrBox>)
    requires input.Valid()
    modifies input
    ensures input.Valid() && Step(r, input.pos) == G.ParseShapeOrBox(input.tokens, old(input.pos), flags, boxType, xywhEnabled)
  {
    var shape: Option<BasicShape> := None;
    var refBox: Option<ReferenceBox> := None;
    ghost var final := G.ShapeOrBoxLoop(input.tokens, input.pos, None, None, flags, boxType, xywhEnabled);
    while true
      invariant input.Valid()
      invariant final == G.ShapeOrBoxLoop(input.tokens, input.pos, shape, refBox, flags, boxType, xywhEnabled)
      decreases if refBox.None? then 1 else 0
    {
      if shape.None? {
        var state := input.State();
        var parsed := ParseBasicShape(input, flags, Filled, Center, xywhEnabled);
        if parsed.Ok? {
          shape := Some(parsed.value);
        } else {
          input.Reset(state);
        }
      }
      if refBox.None? {
        var state := input.State();
        var parsed := input.Next(G.AsReferenceBox(boxType));
        if parsed.Ok? {
          refBox := Some(parsed.value);
          continue;
        }
        input.Reset(state);
      }
      break;
    }
    if shape.Some? {
      var b := if refBox.Some? then refBox.value else boxType.Default();
      return Ok(ShapeAndBox(shape.value, b));
    }
    match refBox
    case Some(b) => r := Ok(BoxOnly(b));
    case None => r := Err(UnspecifiedError);
  }

  /** `ClipPath::parse`. */
  method ParseClipPath(input: Parser, xywhEnabled: bool) returns (r: Result<ClipPath>)
    requires input.Valid()
    modifies input
    ensures input.Valid() && Step(r, input.pos) == G.ParseClipPath(input.tokens, old(input.pos), xywhEnabled)
  {
    var state := input.State();
    var none := input.Next(AsKeyword(Kw("none")));
    if none.Ok? {
      return Ok(ClipNone);
    }
    input.Reset(state);
    var url := input.Next(G.AsUrl);
    if url.Ok? {
      return Ok(ClipUrl(url.value));
    }
    input.Reset(state);
    var v := ParseShapeOrBox(input, AllFlags, GeometryBox, xywhEnabled);
    r := match v
      case Ok(ShapeAndBox(s, b)) => Ok(ClipShape(s, b))
      case Ok(BoxOnly(b)) => Ok(ClipBox(b))
      case Err(e) => Err(e);
  }

  /** `ShapeOutside::parse`. */
  method ParseShapeOutside(input: Parser, xywhEnabled: bool) returns (r: Result<ShapeOutside>)
    requires input.Valid()
    modifies input
    ensures input.Valid() && Step(r, input.pos) == G.ParseShapeOutside(input.tokens, old(input.pos), xywhEnabled)
  {
    var state := input.State();
    var none := input.Next(AsKeyword(Kw("none")));
    if none.Ok? {
      return Ok(OutsideNone);
    }
    input.Reset(state);
    var image := input.Next(G.AsImage);
    if image.Ok? {
      return Ok(OutsideImage(image.value));
    }
    input.Reset(state);
    var v := ParseShapeOrBox(input, ShapeOutsideFlags, ShapeBox, xywhEnabled);
    r := match v
      case Ok(ShapeAndBox(s, b)) => Ok(OutsideShape(s, b))
      case Ok(BoxOnly(b)) => Ok(OutsideBox(b))
      case Err(e) => Err(e);
  }

  /** A stand-alone shape parser: `expect_function_matching(name)`, then the argument block. */
  method InsetFunction(input: Parser) returns (r: Result<InsetRect>)
    requires input.Valid()
    modifies input
    ensures input.Valid() && Step(r, input.pos) == G.InsetFunction(input.tokens, old(input.pos))
  {
    var arguments := input.Next(G.AsFunctionNamed(Kw("inset")));
    if arguments.Err? {
      return Err(arguments.error);
    }
    var nested := new Parser(arguments.value);
    r := InsetArguments(nested);
    if r.Ok? {
      var done := nested.ExpectExhausted();
      if done.Err? {
        r := Err(done.error);
      }
    }
  }

  /** `Circle::parse`. */
  method CircleFunction(input: Parser) returns (r: Result<Circle>)
    requires input.Valid()
    modifies input
    ensures input.Valid() && Step(r, input.pos) == G.CircleFunction(input.tokens, old(input.pos))
  {
    var arguments := input.Next(G.AsFunctionNamed(Kw("circle")));
    if arguments.Err? {
      return Err(arguments.error);
    }
    var nested := new Parser(arguments.value);
    r := CircleArguments(nested, Center);
    if r.Ok? {
      var done := nested.ExpectExhausted();
      if done.Err? {
        r := Err(done.error);
      }
    }
  }

  /** `Ellipse::parse`. */
  method EllipseFunction(input: Parser) returns (r: Result<Ellipse>)
    requires input.Valid()
    modifies input
    ensures input.Valid() && Step(r, input.pos) == G.EllipseFunction(input.tokens, old(input.pos))
  {
    var arguments := input.Next(G.AsFunctionNamed(Kw("ellipse")));
    if arguments.Err? {
      return Err(arguments.error);
    }
    var nested := new Parser(arguments.value);
    r := EllipseArguments(nested, Center);
    if r.Ok? {
      var done := nested.ExpectExhausted();
      if done.Err? {
        r := Err(done.error);
      }
    }
  }

  /** `Polygon::parse`. */
  method PolygonFunction(input: Parser) returns (r: Result<Polygon>)
    requires input.Valid()
    modifies input
    ensures input.Valid() && Step(r, input.pos) == G.PolygonFunction(input.tokens, old(input.pos))
  {
    var arguments := input.Next(G.AsFunctionNamed(Kw("polygon")));
    if arguments.Err? {
      return Err(arguments.error);
    }
    var nested := new Parser(arguments.value);
    r := PolygonArguments(nested, Filled);
    if r.Ok? {
      var done := nested.ExpectExhausted();
      if done.Err? {
        r := Err(done.error);
      }
    }
  }
}
