/**
 * What the basic-shape grammar guarantees: which functions each property
 * admits, how the shape-or-box loop fills its two slots, that failed
 * attempts leave no trace, and the defaults of the argument grammars.
 */
module ShapeGrammarProperties {
  import opened AsciiBytes
  import opened CssParser
  import opened ShapeValues
  import opened ShapeGrammar

  // ---------------------------------------------------------------------
  // Capability flags

  /** Each shape function has a bit of its own, and `ALL` holds every one of them. */
  lemma FlagsAreDistinct(a: ShapeFunction, b: ShapeFunction)
    ensures a.Flag().Contains(b.Flag()) <==> a == b
    ensures AllFlags.Contains(a.Flag())
  {
  }

  /** `SHAPE_OUTSIDE` admits every function but `xywh()` and `path()`. */
  lemma ShapeOutsideFlagsAdmit(fn: ShapeFunction)
    ensures ShapeOutsideFlags.Contains(fn.Flag()) <==> fn != XywhFn && fn != PathFn
  {
  }

  /** A shape function is known by the length of its name and its first letter. */
  lemma LengthAndInitialDetermine(a: ShapeFunction, b: ShapeFunction)
    requires |a.Name()| == |b.Name()| && a.Name()[0] == b.Name()[0]
    ensures a == b
  {
  }

  /** The six function names are different even ignoring ASCII case, so a name selects at most one. */
  lemma NamesDistinct(name: Bytes, a: ShapeFunction, b: ShapeFunction)
    requires EqIgnoreAsciiCase(name, a.Name()) && EqIgnoreAsciiCase(name, b.Name())
    ensures a == b
  {
    EqIgnoreAsciiCaseIsEquivalence(a.Name(), name, b.Name());
    var an, bn := a.Name(), b.Name();
    assert |an| == |bn| && ToAsciiLowercase(an[0]) == ToAsciiLowercase(bn[0]);
    assert ToAsciiLowercase(an[0]) == an[0] && ToAsciiLowercase(bn[0]) == bn[0];
    LengthAndInitialDetermine(a, b);
  }

  /** A name that selects `fn` selects nothing else, so the arguments parsed are those of `fn`. */
  lemma SelectedArguments(name: Bytes, fn: ShapeFunction, ts: seq<Token>, p: nat, flags: AllowedBasicShapes,
                          shapeType: ShapeType, defaultPosition: DefaultPosition, xywhEnabled: bool)
    requires p <= |ts| && Selects(name, fn, flags, xywhEnabled)
    ensures ShapeArguments(name, ts, p, flags, shapeType, defaultPosition, xywhEnabled) ==
            FunctionArguments(fn, ts, p, shapeType, defaultPosition)
  {
    forall g: ShapeFunction | Selects(name, g, flags, xywhEnabled) ensures g == fn {
      NamesDistinct(name, g, fn);
    }
  }

  /**
   * `BasicShape::parse` yields a shape only from a function whose name
   * matches ignoring ASCII case and that `flags` (and, for `xywh()`, the
   * preference) admits; a function no admitted name matches fails with
   * `UnexpectedFunction` carrying its name.
   */
  lemma BasicShapeIsGated(ts: seq<Token>, p: nat, flags: AllowedBasicShapes, shapeType: ShapeType,
                          defaultPosition: DefaultPosition, xywhEnabled: bool)
    requires p <= |ts|
    ensures var r := ParseBasicShape(ts, p, flags, shapeType, defaultPosition, xywhEnabled);
            r.result.Ok? ==> p < |ts| && ts[p].Function? && Selects(ts[p].name, r.result.value.Function(), flags, xywhEnabled)
    ensures var r := ParseBasicShape(ts, p, flags, shapeType, defaultPosition, xywhEnabled);
            p < |ts| && ts[p].Function? && (forall fn: ShapeFunction :: !Selects(ts[p].name, fn, flags, xywhEnabled)) ==>
              r.result == Err(UnexpectedFunction(ts[p].name))
  {
    if p < |ts| && ts[p].Function? {
      assert ReadToken(ts, p, AsFunction) == Step(Ok((ts[p].name, ts[p].arguments)), p + 1);
    }
  }

  /** Without the `xywh` preference a name that selected `xywh()` selects nothing. */
  lemma XywhNameWithoutPref(name: Bytes, ts: seq<Token>, flags: AllowedBasicShapes, shapeType: ShapeType,
                            defaultPosition: DefaultPosition)
    requires Selects(name, XywhFn, flags, true)
    ensures ShapeArguments(name, ts, 0, flags, shapeType, defaultPosition, false) == Step(Err(UnexpectedFunction(name)), 0)
  {
    forall fn: ShapeFunction ensures !Selects(name, fn, flags, false) {
      if Selects(name, fn, flags, false) {
        NamesDistinct(name, fn, XywhFn);
      }
    }
  }

  /** Without the `xywh` preference any other name selects what it selected before. */
  lemma OtherNameWithoutPref(name: Bytes, ts: seq<Token>, flags: AllowedBasicShapes, shapeType: ShapeType,
                             defaultPosition: DefaultPosition)
    requires !Selects(name, XywhFn, flags, true)
    ensures ShapeArguments(name, ts, 0, flags, shapeType, defaultPosition, true) ==
            ShapeArguments(name, ts, 0, flags, shapeType, defaultPosition, false)
  {
    if fn: ShapeFunction :| Selects(name, fn, flags, true) {
      assert Selects(name, fn, flags, false);
      SelectedArguments(name, fn, ts, 0, flags, shapeType, defaultPosition, true);
      SelectedArguments(name, fn, ts, 0, flags, shapeType, defaultPosition, false);
    } else {
      assert forall fn: ShapeFunction :: !Selects(name, fn, flags, false) by {
        forall fn: ShapeFunction ensures Selects(name, fn, flags, false) ==> Selects(name, fn, flags, true) {
        }
      }
    }
  }

  /** Without the `xywh` preference a name parses as before, unless it named `xywh()`, which is then rejected. */
  lemma ArgumentsWithoutXywh(name: Bytes, ts: seq<Token>, flags: AllowedBasicShapes, shapeType: ShapeType,
                             defaultPosition: DefaultPosition)
    ensures var on := ShapeArguments(name, ts, 0, flags, shapeType, defaultPosition, true);
            var off := ShapeArguments(name, ts, 0, flags, shapeType, defaultPosition, false);
            if Selects(name, XywhFn, flags, true)
            then off == Step(Err(UnexpectedFunction(name)), 0) && (on.result.Ok? ==> on.result.value.Function() == XywhFn)
            else on == off
  {
    if Selects(name, XywhFn, flags, true) {
      XywhNameWithoutPref(name, ts, flags, shapeType, defaultPosition);
      SelectedArguments(name, XywhFn, ts, 0, flags, shapeType, defaultPosition, true);
    } else {
      OtherNameWithoutPref(name, ts, flags, shapeType, defaultPosition);
    }
  }

  /** Turning the `xywh` preference off only removes `xywh()`: every other shape parses as before. */
  lemma XywhPreferenceOnlyGatesXywh(ts: seq<Token>, p: nat, flags: AllowedBasicShapes, shapeType: ShapeType,
                                    defaultPosition: DefaultPosition)
    requires p <= |ts|
    ensures var on := ParseBasicShape(ts, p, flags, shapeType, defaultPosition, true);
            var off := ParseBasicShape(ts, p, flags, shapeType, defaultPosition, false);
            (off.result.Ok? ==> on == off) && (on.result.Ok? && on.result.value.Function() != XywhFn ==> on == off)
  {
    if p < |ts| && ts[p].Function? {
      assert ReadToken(ts, p, AsFunction) == Step(Ok((ts[p].name, ts[p].arguments)), p + 1);
      ArgumentsWithoutXywh(ts[p].name, ts[p].arguments, flags, shapeType, defaultPosition);
    }
  }

  // ---------------------------------------------------------------------
  // The shape-or-box loop

  /** Whether a box keyword token sits at `p`. */
  predicate BoxAt(ts: seq<Token>, p: nat, boxType: BoxType)
  {
    p < |ts| && AsReferenceBox(boxType)(ts[p]).Some?
  }

  /** Whether a shape this property admits sits at `p`. */
  predicate ShapeAt(ts: seq<Token>, p: nat, flags: AllowedBasicShapes, xywhEnabled: bool)
    requires p <= |ts|
  {
    ParseBasicShape(ts, p, flags, Filled, Center, xywhEnabled).result.Ok?
  }

  /**
   * Each slot is filled at most once: a filled slot keeps its value, and
   * each slot the loop fills costs exactly one token, so the loop never
   * reads more than a shape and a box.
   */
  lemma {:induction false} LoopFillsEachSlotOnce(ts: seq<Token>, p: nat, shape: Option<BasicShape>,
                                                 refBox: Option<ReferenceBox>, flags: AllowedBasicShapes,
                                                 boxType: BoxType, xywhEnabled: bool)
    requires p <= |ts|
    ensures var r := ShapeOrBoxLoop(ts, p, shape, refBox, flags, boxType, xywhEnabled);
            (shape.Some? ==> r.shape == shape) && (refBox.Some? ==> r.refBox == refBox) &&
            r.pos == p + (if shape.None? && r.shape.Some? then 1 else 0)
                       + (if refBox.None? && r.refBox.Some? then 1 else 0)
    decreases if refBox.None? then 1 else 0
  {
    var s := if shape.Some? then Step(Ok(shape.value), p)
             else Try(ParseBasicShape(ts, p, flags, Filled, Center, xywhEnabled), p);
    var shape' := if s.result.Ok? then Some(s.result.value) else None;
    if refBox.None? {
      var b := Try(ReadToken(ts, s.pos, AsReferenceBox(boxType)), s.pos);
      if b.result.Ok? {
        LoopFillsEachSlotOnce(ts, b.pos, shape', Some(b.result.value), flags, boxType, xywhEnabled);
      }
    }
  }

  /**
   * `parse_shape_or_box` in terms of the first tokens: a shape at `p` is
   * taken with the box after it or the default box; a box at `p` is taken
   * with the shape after it, or alone; with neither the result is
   * `UnspecifiedError` and the cursor has not moved.
   */
  lemma ShapeOrBoxCases(ts: seq<Token>, p: nat, flags: AllowedBasicShapes, boxType: BoxType, xywhEnabled: bool)
    requires p <= |ts|
    ensures var r := ParseShapeOrBox(ts, p, flags, boxType, xywhEnabled);
            ShapeAt(ts, p, flags, xywhEnabled) ==>
              var s := ParseBasicShape(ts, p, flags, Filled, Center, xywhEnabled).result.value;
              r == if BoxAt(ts, p + 1, boxType)
                   then Step(Ok(ShapeAndBox(s, AsReferenceBox(boxType)(ts[p + 1]).value)), p + 2)
                   else Step(Ok(ShapeAndBox(s, boxType.Default())), p + 1)
    ensures var r := ParseShapeOrBox(ts, p, flags, boxType, xywhEnabled);
            !ShapeAt(ts, p, flags, xywhEnabled) && BoxAt(ts, p, boxType) ==>
              var b := AsReferenceBox(boxType)(ts[p]).value;
              r == if ShapeAt(ts, p + 1, flags, xywhEnabled)
                   then Step(Ok(ShapeAndBox(ParseBasicShape(ts, p + 1, flags, Filled, Center, xywhEnabled).result.value, b)), p + 2)
                   else Step(Ok(BoxOnly(b)), p + 1)
    ensures var r := ParseShapeOrBox(ts, p, flags, boxType, xywhEnabled);
            r.result.Err? <==> !ShapeAt(ts, p, flags, xywhEnabled) && !BoxAt(ts, p, boxType)
    ensures var r := ParseShapeOrBox(ts, p, flags, boxType, xywhEnabled);
            r.result.Err? ==> r == Step(Err(UnspecifiedError), p)
  {
    var loop := ShapeOrBoxLoop(ts, p, None, None, flags, boxType, xywhEnabled);
    if ShapeAt(ts, p, flags, xywhEnabled) {
      var s := ParseBasicShape(ts, p, flags, Filled, Center, xywhEnabled).result.value;
      if BoxAt(ts, p + 1, boxType) {
        assert loop == Slots(Some(s), Some(AsReferenceBox(boxType)(ts[p + 1]).value), p + 2);
      } else {
        assert loop == Slots(Some(s), None, p + 1);
      }
    } else if BoxAt(ts, p, boxType) {
      var b := AsReferenceBox(boxType)(ts[p]).value;
      assert loop == ShapeOrBoxLoop(ts, p + 1, None, Some(b), flags, boxType, xywhEnabled);
    } else {
      assert loop == Slots(None, None, p);
    }
  }

  /** A function token is never a box keyword, and a box keyword never a shape. */
  lemma ShapeAndBoxTokensDiffer(ts: seq<Token>, p: nat, flags: AllowedBasicShapes, boxType: BoxType, xywhEnabled: bool)
    requires p < |ts|
    ensures ShapeAt(ts, p, flags, xywhEnabled) ==> ts[p].Function? && !BoxAt(ts, p, boxType)
    ensures BoxAt(ts, p, boxType) ==> ts[p].Ident? && !ShapeAt(ts, p, flags, xywhEnabled)
  {
  }

  /** `BasicShape::parse` reads the function token at the cursor and nothing else. */
  lemma BasicShapeReadsOneToken(ts: seq<Token>, p: nat, us: seq<Token>, q: nat, flags: AllowedBasicShapes,
                                shapeType: ShapeType, defaultPosition: DefaultPosition, xywhEnabled: bool)
    requires p < |ts| && q < |us| && ts[p] == us[q]
    ensures ParseBasicShape(ts, p, flags, shapeType, defaultPosition, xywhEnabled).result ==
            ParseBasicShape(us, q, flags, shapeType, defaultPosition, xywhEnabled).result
  {
  }

  /**
   * The shape and the box may come in either order: `<shape> <box>` and
   * `<box> <shape>` give the same value and use up both tokens.
   */
  lemma EitherOrder(shape: Token, box: Token, rest: seq<Token>, flags: AllowedBasicShapes, boxType: BoxType,
                    xywhEnabled: bool)
    requires ParseBasicShape([shape], 0, flags, Filled, Center, xywhEnabled).result.Ok?
    requires AsReferenceBox(boxType)(box).Some?
    ensures var s := ParseBasicShape([shape], 0, flags, Filled, Center, xywhEnabled).result.value;
            var b := AsReferenceBox(boxType)(box).value;
            ParseShapeOrBox([shape, box] + rest, 0, flags, boxType, xywhEnabled) == Step(Ok(ShapeAndBox(s, b)), 2) &&
            ParseShapeOrBox([box, shape] + rest, 0, flags, boxType, xywhEnabled) == Step(Ok(ShapeAndBox(s, b)), 2)
  {
    var sb, bs := [shape, box] + rest, [box, shape] + rest;
    BasicShapeReadsOneToken([shape], 0, sb, 0, flags, Filled, Center, xywhEnabled);
    BasicShapeReadsOneToken([shape], 0, bs, 1, flags, Filled, Center, xywhEnabled);
    ShapeAndBoxTokensDiffer(bs, 0, flags, boxType, xywhEnabled);
    ShapeOrBoxCases(sb, 0, flags, boxType, xywhEnabled);
    ShapeOrBoxCases(bs, 0, flags, boxType, xywhEnabled);
  }

  /**
   * A second shape is never taken: after `<shape> <shape>` the loop has read
   * one token at most, so `clip-path: inset(1px) inset(2px)` is rejected.
   */
  lemma SecondShapeIsLeft(first: Token, second: Token, xywhEnabled: bool)
    requires first.Function? && second.Function?
    ensures ParseShapeOrBox([first, second], 0, AllFlags, GeometryBox, xywhEnabled).pos <= 1
    ensures Entirely([first, second], ParseClipPath([first, second], 0, xywhEnabled)).Err?
  {
    ShapeOrBoxCases([first, second], 0, AllFlags, GeometryBox, xywhEnabled);
    assert !BoxAt([first, second], 1, GeometryBox);
  }

  /** Every shape the loop keeps was admitted by `flags`. */
  lemma {:induction false} LoopShapesAreEnabled(ts: seq<Token>, p: nat, shape: Option<BasicShape>,
                                                refBox: Option<ReferenceBox>, flags: AllowedBasicShapes,
                                                boxType: BoxType, xywhEnabled: bool)
    requires p <= |ts|
    requires shape.Some? ==> Enabled(flags, shape.value.Function(), xywhEnabled)
    ensures var r := ShapeOrBoxLoop(ts, p, shape, refBox, flags, boxType, xywhEnabled);
            r.shape.Some? ==> Enabled(flags, r.shape.value.Function(), xywhEnabled)
    decreases if refBox.None? then 1 else 0
  {
    if shape.None? {
      BasicShapeIsGated(ts, p, flags, Filled, Center, xywhEnabled);
    }
    var s := if shape.Some? then Step(Ok(shape.value), p)
             else Try(ParseBasicShape(ts, p, flags, Filled, Center, xywhEnabled), p);
    var shape' := if s.result.Ok? then Some(s.result.value) else None;
    if refBox.None? {
      var b := Try(ReadToken(ts, s.pos, AsReferenceBox(boxType)), s.pos);
      if b.result.Ok? {
        LoopShapesAreEnabled(ts, b.pos, shape', Some(b.result.value), flags, boxType, xywhEnabled);
      }
    }
  }

  // ---------------------------------------------------------------------
  // The properties

  /**
   * `clip-path` tries `none`, then a URL, then shape-or-box, and the first
   * that succeeds decides the value.
   */
  lemma ClipPathAlternatives(ts: seq<Token>, p: nat, xywhEnabled: bool)
    requires p <= |ts|
    ensures var r := ParseClipPath(ts, p, xywhEnabled);
            var none := p < |ts| && AsKeyword(Kw("none"))(ts[p]).Some?;
            var url := p < |ts| && ts[p].UrlToken?;
            var sob := ParseShapeOrBox(ts, p, AllFlags, GeometryBox, xywhEnabled);
            (none ==> r == Step(Ok(ClipNone), p + 1)) &&
            (url ==> r == Step(Ok(ClipUrl(ts[p].url)), p + 1)) &&
            (!none && !url ==>
               r.pos == sob.pos && r.result.Ok? == sob.result.Ok? &&
               (sob.result.Ok? && sob.result.value.ShapeAndBox? ==>
                  r.result == Ok(ClipShape(sob.result.value.shape, sob.result.value.refBox))) &&
               (sob.result.Ok? && sob.result.value.BoxOnly? ==>
                  r.result == Ok(ClipBox(sob.result.value.refBox))))
  {
  }

  /** `shape-outside` tries `none`, then an image, then shape-or-box; it never yields `path()` or `xywh()`. */
  lemma ShapeOutsideAlternatives(ts: seq<Token>, p: nat, xywhEnabled: bool)
    requires p <= |ts|
    ensures var r := ParseShapeOutside(ts, p, xywhEnabled);
            var none := p < |ts| && AsKeyword(Kw("none"))(ts[p]).Some?;
            var image := p < |ts| && ts[p].ImageToken?;
            var sob := ParseShapeOrBox(ts, p, ShapeOutsideFlags, ShapeBox, xywhEnabled);
            (none ==> r == Step(Ok(OutsideNone), p + 1)) &&
            (image ==> r == Step(Ok(OutsideImage(ts[p].css)), p + 1)) &&
            (!none && !image ==>
               r.pos == sob.pos && r.result.Ok? == sob.result.Ok? &&
               (sob.result.Ok? && sob.result.value.ShapeAndBox? ==>
                  r.result == Ok(OutsideShape(sob.result.value.shape, sob.result.value.refBox))) &&
               (sob.result.Ok? && sob.result.value.BoxOnly? ==>
                  r.result == Ok(OutsideBox(sob.result.value.refBox))))
    ensures var r := ParseShapeOutside(ts, p, xywhEnabled);
            r.result.Ok? && r.result.value.OutsideShape? ==>
              r.result.value.shape.Function() != PathFn && r.result.value.shape.Function() != XywhFn
  {
    LoopShapesAreEnabled(ts, p, None, None, ShapeOutsideFlags, ShapeBox, xywhEnabled);
    var slots := ShapeOrBoxLoop(ts, p, None, None, ShapeOutsideFlags, ShapeBox, xywhEnabled);
    if slots.shape.Some? {
      ShapeOutsideFlagsAdmit(slots.shape.value.Function());
    }
  }

  /**
   * `parse_fill_rule`: an outline shape reads nothing; a filled shape takes
   * a fill rule only when a comma follows it, and otherwise leaves the
   * cursor where it was and uses the default.
   */
  lemma FillRuleNeedsComma(ts: seq<Token>, p: nat, shapeType: ShapeType)
    requires p <= |ts|
    ensures var r := ParseFillRule(ts, p, shapeType);
            var taken := shapeType == Filled && p + 1 < |ts| && AsFillRule(ts[p]).Some? && ts[p + 1].Comma?;
            (taken ==> r == Step(Ok(AsFillRule(ts[p]).value), p + 2)) &&
            (!taken ==> r == Step(Ok(DefaultFillRule), p))
  {
  }

  /**
   * An omitted `at <position>` is the centre, or `auto` when the context
   * supplies the position, and reads nothing; after `at` a position is
   * required and is taken with the keyword.
   */
  lemma AtPositionDefault(ts: seq<Token>, p: nat, defaultPosition: DefaultPosition)
    requires p <= |ts|
    ensures var r := AtPosition(ts, p, defaultPosition);
            var at := p < |ts| && AsKeyword(Kw("at"))(ts[p]).Some?;
            (!at ==> r == Step(Ok(if defaultPosition == Center then Pos(CenterPosition) else Auto), p)) &&
            (at ==> (r.result.Ok? <==> p + 1 < |ts| && AsPosition(ts[p + 1]).Some?)) &&
            (at && r.result.Ok? ==> r == Step(Ok(Pos(AsPosition(ts[p + 1]).value)), p + 2))
  {
  }

  /** An omitted `round` clause is a zero radius; a present one must be followed by a radius. */
  lemma RoundDefault(ts: seq<Token>, p: nat)
    requires p <= |ts|
    ensures p == |ts| || AsKeyword(Kw("round"))(ts[p]).None? ==> RoundClause(ts, p) == Step(Ok(ZeroRadius), p)
    ensures p < |ts| && AsKeyword(Kw("round"))(ts[p]).Some? ==>
              (RoundClause(ts, p).result.Ok? <==> p + 1 < |ts| && ts[p + 1].RadiusToken?)
  {
  }

  // ---------------------------------------------------------------------
  // Whole argument blocks

  function DimensionTokens(ds: seq<Dimension>): (ts: seq<Token>)
    ensures |ts| == |ds| && forall i :: 0 <= i < |ds| ==> ts[i] == DimensionToken(ds[i])
  {
    seq(|ds|, i requires 0 <= i < |ds| => DimensionToken(ds[i]))
  }

  /**
   * The box-edge expansion of one to four values (CSS Backgrounds and
   * Borders Level 3, section 4.1 shorthand rule): one value for all edges;
   * two for top and bottom, then right and left; three for top, right and
   * left, then bottom; four for top, right, bottom, left.
   */
  function ExpandEdges(ds: seq<Dimension>): Rect<LengthPercentage>
    requires 1 <= |ds| <= 4
  {
    var top := Leaf(ds[0]);
    var right := if |ds| >= 2 then Leaf(ds[1]) else top;
    var bottom := if |ds| >= 3 then Leaf(ds[2]) else top;
    var left := if |ds| == 4 then Leaf(ds[3]) else right;
    Rect(top, right, bottom, left)
  }

  /** `Rect::parse_with` reads one to four values, stops at anything else, and expands them. */
  lemma RectEdgesExpands(ds: seq<Dimension>, rest: seq<Token>)
    requires 1 <= |ds| <= 4
    requires |ds| < 4 && rest != [] ==> !rest[0].DimensionToken?
    ensures RectEdges(DimensionTokens(ds) + rest, 0) == Step(Ok(ExpandEdges(ds)), |ds|)
  {
    var ts := DimensionTokens(ds) + rest;
    assert forall i :: 0 <= i < |ds| ==> ts[i] == DimensionToken(ds[i]);
  }

  /** `inset(<1-4 values>)` is the expanded rectangle with square corners. */
  lemma InsetWithoutRound(ds: seq<Dimension>)
    requires 1 <= |ds| <= 4
    ensures var ts := DimensionTokens(ds);
            Entirely(ts, InsetArguments(ts, 0)) == Ok(InsetRect(ExpandEdges(ds), ZeroRadius))
  {
    RectEdgesExpands(ds, []);
    assert DimensionTokens(ds) + [] == DimensionTokens(ds);
  }

  /** `inset(<1-4 values> round <radius>)` keeps the radius. */
  lemma InsetWithRound(ds: seq<Dimension>, round: Bytes, radius: BorderRadius)
    requires 1 <= |ds| <= 4 && EqIgnoreAsciiCase(round, Kw("round"))
    ensures var ts := DimensionTokens(ds) + [Ident(round), RadiusToken(radius)];
            Entirely(ts, InsetArguments(ts, 0)) == Ok(InsetRect(ExpandEdges(ds), radius))
  {
    RectEdgesExpands(ds, [Ident(round), RadiusToken(radius)]);
  }

  /** `xywh(x y w h)` takes four values, the last two non-negative, and square corners. */
  lemma XywhWithoutRound(x: Dimension, y: Dimension, w: Dimension, h: Dimension)
    ensures var ts := DimensionTokens([x, y, w, h]);
            var r := Entirely(ts, XywhArguments(ts, 0));
            (r.Ok? <==> w.nonNegative && h.nonNegative) &&
            (r.Ok? ==> r.value == Xywh(x, y, w, h, ZeroRadius))
  {
  }

  /** `circle()` with no arguments is a closest-side circle at the default position. */
  lemma CircleWithoutArguments(defaultPosition: DefaultPosition)
    ensures Entirely([], CircleArguments([], 0, defaultPosition)) ==
            Ok(Circle(ClosestSide, if defaultPosition == Center then Pos(CenterPosition) else Auto))
  {
  }

  /**
   * `circle([<shape-radius>]? [at <position>]?)`: an optional radius, then
   * the position clause, which alone decides whether the arguments parse.
   */
  lemma CircleArgumentsCases(ts: seq<Token>, p: nat, defaultPosition: DefaultPosition)
    requires p <= |ts|
    ensures var one := p < |ts| && AsShapeRadius(ts[p]).Some?;
            var position := AtPosition(ts, if one then p + 1 else p, defaultPosition);
            var r := CircleArguments(ts, p, defaultPosition);
            r.pos == position.pos && (r.result.Ok? <==> position.result.Ok?) &&
            (r.result.Ok? ==>
               r.result.value == Circle(if one then AsShapeRadius(ts[p]).value else ClosestSide, position.result.value))
  {
  }

  /**
   * `ellipse([<shape-radius>{2}]? [at <position>]?)`: the radii are taken
   * only as a pair, and then the position clause alone decides whether the
   * arguments parse.
   */
  lemma EllipseArgumentsCases(ts: seq<Token>, p: nat, defaultPosition: DefaultPosition)
    requires p <= |ts|
    ensures var both := p + 1 < |ts| && AsShapeRadius(ts[p]).Some? && AsShapeRadius(ts[p + 1]).Some?;
            var position := AtPosition(ts, if both then p + 2 else p, defaultPosition);
            var r := EllipseArguments(ts, p, defaultPosition);
            r.pos == position.pos && (r.result.Ok? <==> position.result.Ok?) &&
            (r.result.Ok? && both ==>
               r.result.value == Ellipse(AsShapeRadius(ts[p]).value, AsShapeRadius(ts[p + 1]).value, position.result.value)) &&
            (r.result.Ok? && !both ==> r.result.value == Ellipse(ClosestSide, ClosestSide, position.result.value))
  {
  }

  /** A radius token is never the `at` keyword. */
  lemma RadiusIsNotAt(t: Token)
    requires AsShapeRadius(t).Some?
    ensures AsKeyword(Kw("at"))(t).None?
  {
    if t.Ident? {
      assert |t.name| == 12 || |t.name| == 13;
    }
  }

  /**
   * The radii of `ellipse()` come both or neither: none gives two
   * closest-side radii, two are kept, and a single radius is rejected.
   */
  lemma EllipseRadiiBothOrNeither(a: Token, b: Token, defaultPosition: DefaultPosition)
    requires AsShapeRadius(a).Some? && AsShapeRadius(b).Some?
    ensures var at := if defaultPosition == Center then Pos(CenterPosition) else Auto;
            Entirely([], EllipseArguments([], 0, defaultPosition)) == Ok(Ellipse(ClosestSide, ClosestSide, at)) &&
            Entirely([a, b], EllipseArguments([a, b], 0, defaultPosition)) ==
              Ok(Ellipse(AsShapeRadius(a).value, AsShapeRadius(b).value, at)) &&
            Entirely([a], EllipseArguments([a], 0, defaultPosition)).Err?
  {
    RadiusIsNotAt(a);
  }

  /** The tokens of a coordinate list: `x y, x y, ...`. */
  function CoordinateTokens(cs: seq<PolygonCoord>): seq<Token>
    requires |cs| >= 1
  {
    var pair := [DimensionToken(cs[0].x), DimensionToken(cs[0].y)];
    if |cs| == 1 then pair else pair + [Comma] + CoordinateTokens(cs[1..])
  }

  /** The tokens of a coordinate list start with the first pair, then end or go on after a comma. */
  lemma CoordinateTokensHead(cs: seq<PolygonCoord>)
    requires |cs| >= 1
    ensures var t := CoordinateTokens(cs);
            |t| >= 2 && t[0] == DimensionToken(cs[0].x) && t[1] == DimensionToken(cs[0].y) &&
            (|cs| == 1 ==> |t| == 2) &&
            (|cs| > 1 ==> |t| >= 3 && t[2] == Comma && t[3..] == CoordinateTokens(cs[1..]))
  {
    if |cs| > 1 {
      var pair := [DimensionToken(cs[0].x), DimensionToken(cs[0].y)];
      assert CoordinateTokens(cs) == pair + [Comma] + CoordinateTokens(cs[1..]);
    }
  }

  /** Two values with nothing before the next comma are one coordinate pair, read to its end. */
  lemma PairBeforeComma(ts: seq<Token>, p: nat, x: Dimension, y: Dimension)
    requires p + 2 <= |ts| && ts[p] == DimensionToken(x) && ts[p + 1] == DimensionToken(y)
    requires p + 2 == |ts| || ts[p + 2] == Comma
    ensures NextComma(ts, p) == p + 2
    ensures var item := Coordinate(ts[..p + 2], p);
            item.pos == p + 2 && Entirely(ts[..p + 2], item) == Ok(PolygonCoord(x, y))
  {
    assert NextComma(ts, p + 1) == p + 2;
    var delimited := ts[..p + 2];
    assert delimited[p] == ts[p] && delimited[p + 1] == ts[p + 1];
  }

  /** A comma-separated list of coordinate pairs parses to exactly those pairs, in order. */
  lemma {:induction false} CoordinatesOfList(ts: seq<Token>, p: nat, cs: seq<PolygonCoord>)
    requires p <= |ts| && |cs| >= 1 && ts[p..] == CoordinateTokens(cs)
    ensures Coordinates(ts, p) == Step(Ok(cs), |ts|)
    decreases |cs|
  {
    var tail := CoordinateTokens(cs);
    CoordinateTokensHead(cs);
    assert ts[p] == tail[0] && ts[p + 1] == tail[1];
    if |cs| == 1 {
      PairBeforeComma(ts, p, cs[0].x, cs[0].y);
      assert [cs[0]] == cs;
    } else {
      assert ts[p + 2] == tail[2];
      PairBeforeComma(ts, p, cs[0].x, cs[0].y);
      assert ts[p + 3..] == tail[3..];
      CoordinatesOfList(ts, p + 3, cs[1..]);
      assert [cs[0]] + cs[1..] == cs;
    }
  }

  /** `polygon()` needs at least one coordinate pair. */
  lemma PolygonNeedsACoordinate(shapeType: ShapeType)
    ensures Entirely([], PolygonArguments([], 0, shapeType)).Err?
  {
  }

  /**
   * A fill rule is only a fill rule when a comma follows it:
   * `polygon(nonzero, x y)` keeps it, `polygon(nonzero x y)` is rejected.
   */
  lemma PolygonFillRuleNeedsComma(fill: Token, x: Dimension, y: Dimension)
    requires AsFillRule(fill).Some?
    ensures var with := [fill, Comma, DimensionToken(x), DimensionToken(y)];
            Entirely(with, PolygonArguments(with, 0, Filled)) ==
              Ok(Polygon(AsFillRule(fill).value, [PolygonCoord(x, y)]))
    ensures var without := [fill, DimensionToken(x), DimensionToken(y)];
            Entirely(without, PolygonArguments(without, 0, Filled)).Err?
  {
    var with := [fill, Comma, DimensionToken(x), DimensionToken(y)];
    CoordinatesOfList(with, 2, [PolygonCoord(x, y)]);
    var without := [fill, DimensionToken(x), DimensionToken(y)];
    assert NextComma(without, 0) == 3;
  }

  /**
   * Outline shapes do not look for a fill rule: `path(nonzero, "M0 0")` keeps
   * the rule when filled, and is rejected as an outline.
   */
  lemma PathOutlineIgnoresFillRule(fill: Token, data: Bytes)
    requires AsFillRule(fill).Some? && data != []
    ensures var ts := [fill, Comma, StringToken(data)];
            Entirely(ts, PathArguments(ts, 0, Filled)) == Ok(Path(AsFillRule(fill).value, data)) &&
            Entirely(ts, PathArguments(ts, 0, Outline)).Err?
  {
  }

  /** `InsetRect::parse` agrees with `BasicShape::parse` under `ALL`. */
  lemma InsetFunctionAgrees(ts: seq<Token>, p: nat, xywhEnabled: bool)
    requires p <= |ts|
    ensures InsetFunction(ts, p).result.Ok? ==>
              ParseBasicShape(ts, p, AllFlags, Filled, Center, xywhEnabled).result ==
              Ok(RectShape(InsetShape(InsetFunction(ts, p).result.value)))
  {
    if InsetFunction(ts, p).result.Ok? {
      assert ReadToken(ts, p, AsFunction) == Step(Ok((ts[p].name, ts[p].arguments)), p + 1);
      FlagsAreDistinct(InsetFn, InsetFn);
      SelectedArguments(ts[p].name, InsetFn, ts[p].arguments, 0, AllFlags, Filled, Center, xywhEnabled);
    }
  }

  /** `Circle::parse` agrees with `BasicShape::parse` under `ALL`. */
  lemma CircleFunctionAgrees(ts: seq<Token>, p: nat, xywhEnabled: bool)
    requires p <= |ts|
    ensures CircleFunction(ts, p).result.Ok? ==>
              ParseBasicShape(ts, p, AllFlags, Filled, Center, xywhEnabled).result ==
              Ok(CircleShape(CircleFunction(ts, p).result.value))
  {
    if CircleFunction(ts, p).result.Ok? {
      assert ReadToken(ts, p, AsFunction) == Step(Ok((ts[p].name, ts[p].arguments)), p + 1);
      FlagsAreDistinct(CircleFn, CircleFn);
      SelectedArguments(ts[p].name, CircleFn, ts[p].arguments, 0, AllFlags, Filled, Center, xywhEnabled);
    }
  }

  /** `Ellipse::parse` agrees with `BasicShape::parse` under `ALL`. */
  lemma EllipseFunctionAgrees(ts: seq<Token>, p: nat, xywhEnabled: bool)
    requires p <= |ts|
    ensures EllipseFunction(ts, p).result.Ok? ==>
              ParseBasicShape(ts, p, AllFlags, Filled, Center, xywhEnabled).result ==
              Ok(EllipseShape(EllipseFunction(ts, p).result.value))
  {
    if EllipseFunction(ts, p).result.Ok? {
      assert ReadToken(ts, p, AsFunction) == Step(Ok((ts[p].name, ts[p].arguments)), p + 1);
      FlagsAreDistinct(EllipseFn, EllipseFn);
      SelectedArguments(ts[p].name, EllipseFn, ts[p].arguments, 0, AllFlags, Filled, Center, xywhEnabled);
    }
  }

  /** `Polygon::parse` agrees with `BasicShape::parse` under `ALL`. */
  lemma PolygonFunctionAgrees(ts: seq<Token>, p: nat, xywhEnabled: bool)
    requires p <= |ts|
    ensures PolygonFunction(ts, p).result.Ok? ==>
              ParseBasicShape(ts, p, AllFlags, Filled, Center, xywhEnabled).result ==
              Ok(PolygonShape(PolygonFunction(ts, p).result.value))
  {
    if PolygonFunction(ts, p).result.Ok? {
      assert ReadToken(ts, p, AsFunction) == Step(Ok((ts[p].name, ts[p].arguments)), p + 1);
      FlagsAreDistinct(PolygonFn, PolygonFn);
      SelectedArguments(ts[p].name, PolygonFn, ts[p].arguments, 0, AllFlags, Filled, Center, xywhEnabled);
    }
  }
}
