/**
 * The computed value of `<basic-shape-rect>` (CSS Shapes Module Level 1,
 * section 3.1.1, "computed values of basic shapes"): `inset()` computes to
 * itself and `xywh(x y w h)` to the equivalent
 * `inset(y calc(100% - x - w) calc(100% - y - h) x)`. Going back from a
 * computed value always gives `inset()`.
 *
 * The leaves (lengths, percentages, radii) compute to themselves here; what
 * they resolve to against a reference box is a parameter `leaf` of the
 * geometry below, so the statements hold whatever units and font sizes the
 * leaves use.
 */
module ShapeComputed {
  import opened CssParser
  import opened ShapeValues

  /** `ComputedInsetRect`: the computed value of both `inset()` and `xywh()`. */
  datatype ComputedInsetRect = ComputedInsetRect(rect: Rect<LengthPercentage>, round: BorderRadius)

  /** `ToComputedValue::to_computed_value` for `BasicShapeRect`. */
  function ToComputedValue(s: BasicShapeRect): (r: ComputedInsetRect)
    ensures r.round == match s case InsetShape(i) => i.round case XywhShape(v) => v.round
  {
    match s
    case InsetShape(i) => ComputedInsetRect(i.rect, i.round)
    case XywhShape(v) =>
      // left and top are x and y; right and bottom are what is left of the box after them
      var right := HundredPercentMinus([v.x, v.width]);
      var bottom := HundredPercentMinus([v.y, v.height]);
      ComputedInsetRect(Rect(Leaf(v.y), right, bottom, Leaf(v.x)), v.round)
  }

  /** `ToComputedValue::from_computed_value`: always an `inset()`. */
  function FromComputedValue(c: ComputedInsetRect): (r: BasicShapeRect)
    ensures r.InsetShape?
  {
    InsetShape(InsetRect(c.rect, c.round))
  }

  // ---------------------------------------------------------------------
  // Resolution against a reference box

  /** The sum of some leaves, each resolved against `basis`. */
  function Total(ds: seq<Dimension>, basis: int, leaf: (Dimension, int) -> int): int
  {
    if ds == [] then 0 else leaf(ds[0], basis) + Total(ds[1..], basis, leaf)
  }

  lemma TotalOfTwo(a: Dimension, b: Dimension, basis: int, leaf: (Dimension, int) -> int)
    ensures Total([a, b], basis, leaf) == leaf(a, basis) + leaf(b, basis)
  {
    assert [a, b][1..] == [b] && [b][1..] == [];
    assert Total([b], basis, leaf) == leaf(b, basis) + Total([], basis, leaf);
  }

  /** A length-percentage resolved against `basis` (100%): `calc(100% - t1 - ...)` is `basis` less the terms. */
  function Resolve(lp: LengthPercentage, basis: int, leaf: (Dimension, int) -> int): int
  {
    match lp
    case Leaf(d) => leaf(d, basis)
    case HundredPercentMinus(terms) => basis - Total(terms, basis, leaf)
  }

  /** The edges of a region of the reference box, as coordinates from its top left corner. */
  datatype Area = Area(left: int, top: int, right: int, bottom: int)

  /**
   * The region an `inset()` cuts out of a `width` by `height` box: each
   * inset moves its edge inwards; horizontal insets resolve against the
   * width and vertical ones against the height.
   */
  function InsetArea(c: ComputedInsetRect, width: int, height: int, leaf: (Dimension, int) -> int): Area
  {
    Area(Resolve(c.rect.left, width, leaf), Resolve(c.rect.top, height, leaf),
         width - Resolve(c.rect.right, width, leaf), height - Resolve(c.rect.bottom, height, leaf))
  }

  // ---------------------------------------------------------------------
  // Properties

  /**
   * The inset that `xywh(x y w h)` computes to covers exactly the rectangle
   * whose top left corner is at (x, y) and whose size is w by h, in every
   * reference box.
   */
  lemma XywhComputesToItsRectangle(v: Xywh, width: int, height: int, leaf: (Dimension, int) -> int)
    ensures var x, y := leaf(v.x, width), leaf(v.y, height);
            InsetArea(ToComputedValue(XywhShape(v)), width, height, leaf) ==
              Area(x, y, x + leaf(v.width, width), y + leaf(v.height, height))
  {
    TotalOfTwo(v.x, v.width, width, leaf);
    TotalOfTwo(v.y, v.height, height, leaf);
  }

  /** `inset()` survives the trip to the computed value and back unchanged. */
  lemma InsetRoundTrip(i: InsetRect)
    ensures FromComputedValue(ToComputedValue(InsetShape(i))) == InsetShape(i)
  {
  }

  /** Every computed value is reached again from the specified value it converts back to. */
  lemma ComputedRoundTrip(c: ComputedInsetRect)
    ensures ToComputedValue(FromComputedValue(c)) == c
  {
  }

  /**
   * `xywh()` does not survive the trip: it comes back as the equivalent
   * `inset()`, which computes to the same value.
   */
  lemma XywhComesBackAsInset(v: Xywh)
    ensures var back := FromComputedValue(ToComputedValue(XywhShape(v)));
            back != XywhShape(v) && back.InsetShape? &&
            ToComputedValue(back) == ToComputedValue(XywhShape(v))
  {
    ComputedRoundTrip(ToComputedValue(XywhShape(v)));
  }
}
