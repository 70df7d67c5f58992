# Basic shapes and attribute selectors, modelled in Dafny

This project models two pieces of Servo's style system.

**The `<basic-shape>` values of `clip-path` and `shape-outside`**
(`style/values/specified/basic_shape.rs`). These follow CSS Shapes Module
Level 1, sections 3.1 and 3.2. The model covers:

- the `AllowedBasicShapes` capability bits, which say which shape functions a
  property admits;
- `BasicShape::parse`, which dispatches on the function name ignoring ASCII
  case;
- the argument grammars of `inset()`, `xywh()`, `circle()`, `ellipse()`,
  `polygon()` and `path()`, with their defaults (zero `round` radius,
  `closest-side` radii, centre or `auto` position, `nonzero` fill rule);
- `parse_fill_rule` and `parse_at_position`;
- the two-slot loop `parse_shape_or_box`, and the `ClipPath` and
  `ShapeOutside` parsers built on it;
- the serialisation `Xywh::to_css`;
- the computed-value rewrite of `xywh(x y w h)` into
  `inset(y calc(100% - x - w) calc(100% - y - h) x)`.

**Attribute-selector matching** (`selectors/attr.rs`). This covers:

- the `=`, `~=`, `|=`, `^=`, `*=` and `$=` operators of Selectors Level 3,
  sections 6.3.1 and 6.3.2, compared byte-wise either exactly or ignoring ASCII
  case;
- how the operators are written as text;
- the projection of an attribute selector's namespace.

## Layout

| file | module | contents |
|---|---|---|
| `ascii_bytes.dfy` | `AsciiBytes` | byte strings; `to_ascii_lowercase` and `eq_ignore_ascii_case`; `str::split` on a set of delimiter bytes, with its pieces characterised as maximal runs |
| `attr.dfy` | `AttrSelectors` | `selectors/attr.rs`, written as functions (the source is pure); a reference predicate `Matches` gives the Selectors Level 3 meaning of each operator |
| `css_parser.dfy` | `CssParser` | the part of the CSS token parser the shape grammar uses. Tokens are abstract, and function tokens carry their argument block. A `Step` is an outcome together with the position the cursor is left at. A `Parser` class holds the token sequence and a mutable cursor |
| `shape_values.dfy` | `ShapeValues` | the capability bits and the specified-value datatypes |
| `shape_grammar.dfy` | `ShapeGrammar` | each parser as a function from `(tokens, position)` to a `Step` |
| `shape_parser.dfy` | `ShapeParser` | the same parsers as methods that move the `Parser` cursor. `try_parse` becomes save and restore, and the shape-or-box loop is a `while` loop over two `Option` slots. Each method is proved to compute its `ShapeGrammar` function |
| `shape_properties.dfy` | `ShapeGrammarProperties` | what the grammar guarantees |
| `shape_computed.dfy` | `ShapeComputed` | `to_computed_value` and `from_computed_value`. `InsetArea` is an independent reference definition of the region an `inset()` cuts out of a reference box; it is not in the source, and `XywhComputesToItsRectangle` uses it to say what the computed inset of `xywh()` covers |
| `shape_css.dfy` | `ShapeSerialization` | a `CssWriter` buffer and `Xywh::to_css` |

How the cursor behaves follows cssparser:

- A one-token read (`expect_ident_matching`, or a leaf parser) consumes the
  token even when it rejects it. At the end of the input the cursor stays put.
- `try_parse` restores the cursor on failure.
- `parse_nested_block` parses the argument block of a function token and
  requires it to be used up.
- `parse_comma_separated` parses each item within the tokens up to the next
  top-level comma.

## Model

| member | source | states |
|---|---|---|
| `ShapeGrammarProperties.FlagsAreDistinct` | style/values/specified/basic_shape.rs:147-173 | each shape function has a bit of its own, and `ALL` contains every one |
| `ShapeGrammarProperties.ShapeOutsideFlagsAdmit` | style/values/specified/basic_shape.rs:175-179 | `SHAPE_OUTSIDE` contains a function's bit exactly when the function is neither `xywh()` nor `path()` |
| `ShapeGrammarProperties.NamesDistinct` | style/values/specified/basic_shape.rs:296-327 | a name matches, ignoring ASCII case, at most one of the six function names |
| `ShapeGrammar.ShapeArguments` | style/values/specified/basic_shape.rs:295-328 | a successful parse yields a shape of a function whose name matches and that the flags (and, for `xywh`, the preference) admit; when no admitted function matches, the result is `UnexpectedFunction(name)` and the cursor is unmoved |
| `ShapeGrammar.FunctionArguments` | style/values/specified/basic_shape.rs:297-322 | the shape parsed for a function is a shape of that function |
| `ShapeGrammarProperties.SelectedArguments` | style/values/specified/basic_shape.rs:296-327 | the arms are tried in order, but once a name selects an admitted function, that function's argument grammar alone decides the result |
| `ShapeGrammar.ParseBasicShape` | style/values/specified/basic_shape.rs:281-330 | a successful parse uses exactly one (function) token |
| `ShapeGrammarProperties.BasicShapeIsGated` | style/values/specified/basic_shape.rs:293-327 | a shape comes only from a function token whose name is admitted by the flags and the preference; a function with no admitted name fails with `UnexpectedFunction` carrying its name |
| `ShapeGrammarProperties.ArgumentsWithoutXywh` | style/values/specified/basic_shape.rs:317-325 | with the `xywh` preference off, a name that selects `xywh` is `UnexpectedFunction` (with it on, it can only give an `xywh()` shape); any other name parses exactly as with the preference on |
| `ShapeGrammarProperties.XywhPreferenceOnlyGatesXywh` | style/values/specified/basic_shape.rs:317-325 | turning the preference off changes no successful parse except those of `xywh()` |
| `ShapeGrammarProperties.BasicShapeReadsOneToken` | style/values/specified/basic_shape.rs:294-328 | `BasicShape::parse` depends only on the token at the cursor |
| `ShapeGrammar.ShapeOrBoxLoop` | style/values/specified/basic_shape.rs:194-218 | the loop never moves the cursor backwards, and terminates because it goes round again only after the box slot fills |
| `ShapeGrammarProperties.LoopFillsEachSlotOnce` | style/values/specified/basic_shape.rs:194-218 | a filled slot keeps its value, and the cursor advances by exactly one token per slot the loop fills |
| `ShapeGrammarProperties.LoopShapesAreEnabled` | style/values/specified/basic_shape.rs:196-208 | every shape the loop keeps is admitted by the flags |
| `ShapeGrammarProperties.ShapeOrBoxCases` | style/values/specified/basic_shape.rs:184-228 | characterises the result by the first tokens. A shape first is taken with the box after it, or the default box. A box first is taken with the shape after it, or alone. With neither, the result is `UnspecifiedError` with the cursor unmoved, and this is the only way the result can be an error |
| `ShapeGrammarProperties.ShapeAndBoxTokensDiffer` | style/values/specified/basic_shape.rs:196-211 | a token is never both a shape and a box keyword |
| `ShapeGrammarProperties.EitherOrder` | style/values/specified/basic_shape.rs:194-222 | `<shape> <box>` and `<box> <shape>` give the same value and use up both tokens |
| `ShapeGrammarProperties.SecondShapeIsLeft` | style/values/specified/basic_shape.rs:194-218 | after two shapes in a row the loop has read at most one token, so `clip-path` rejects the pair |
| `ShapeGrammarProperties.ClipPathAlternatives` | style/values/specified/basic_shape.rs:230-252 | `none` first, then a URL, then shape-or-box; the first that succeeds decides, and shape-or-box results are mapped to `Shape` and `Box` unchanged |
| `ShapeGrammarProperties.ShapeOutsideAlternatives` | style/values/specified/basic_shape.rs:254-279 | `none` first, then an image, then shape-or-box, whose result (or error) is taken over as `OutsideShape`/`OutsideBox` at the same cursor; a shape from `shape-outside` is never `path()` or `xywh()` |
| `ShapeGrammar.ParseFillRule` | style/values/specified/basic_shape.rs:442-465 | `parse_fill_rule` never fails |
| `ShapeGrammarProperties.FillRuleNeedsComma` | style/values/specified/basic_shape.rs:442-465 | an outline shape reads nothing and gets the default rule. A filled shape takes a fill rule only when a comma follows it, and then it consumes both tokens. Otherwise the cursor is unmoved and the rule is the default |
| `ShapeGrammarProperties.AtPositionDefault` | style/values/specified/basic_shape.rs:361-377 | without `at`, the position is `center center` under `Center` and `auto` under `Context`, and nothing is read; after `at`, the clause succeeds exactly when a position follows, and then yields it with the cursor past both tokens |
| `ShapeGrammarProperties.RoundDefault` | style/values/specified/basic_shape.rs:349-356 | without `round`, the radius is zero and nothing is read; after `round`, a radius is required |
| `ShapeGrammarProperties.RectEdgesExpands` | style/values/specified/basic_shape.rs:348 | one to four values are read and expanded to the four edges by the box-edge rule |
| `ShapeGrammarProperties.InsetWithoutRound` | style/values/specified/basic_shape.rs:342-359 | `inset(<1 to 4 values>)` is the expanded rectangle with a zero radius |
| `ShapeGrammarProperties.InsetWithRound` | style/values/specified/basic_shape.rs:342-359 | `inset(<values> round <radius>)` keeps the radius |
| `ShapeGrammarProperties.XywhWithoutRound` | style/values/specified/basic_shape.rs:532-559 | `xywh(x y w h)` is accepted exactly when `w` and `h` are non-negative, and then has a zero radius |
| `ShapeGrammarProperties.CircleWithoutArguments` | style/values/specified/basic_shape.rs:391-404 | `circle()` is a `closest-side` circle at the default position |
| `ShapeGrammarProperties.CircleArgumentsCases` | style/values/specified/basic_shape.rs:391-404 | for all inputs: a leading radius is taken when present (otherwise `closest-side`), then the `at` clause decides success and the final cursor, and its position is the circle's |
| `ShapeGrammarProperties.RadiusIsNotAt` | style/values/specified/basic_shape.rs:396-400 | a radius token is never the `at` keyword |
| `ShapeGrammarProperties.EllipseRadiiBothOrNeither` | style/values/specified/basic_shape.rs:418-440 | for the whole argument lists `[]`, `[a, b]` and `[a]`: no radii give two `closest-side` radii, two radii are kept, and a lone radius is rejected |
| `ShapeGrammarProperties.EllipseArgumentsCases` | style/values/specified/basic_shape.rs:418-440 | for all inputs: radii are taken only as a pair (otherwise two `closest-side` radii and nothing read), then the `at` clause decides success and the final cursor, and its position is the ellipse's |
| `ShapeGrammarProperties.CoordinatesOfList` | style/values/specified/basic_shape.rs:484-491 | a comma-separated list of coordinate pairs parses to exactly those pairs, in order |
| `ShapeGrammar.Coordinates` | style/values/specified/basic_shape.rs:484-491 | a successful list holds at least one pair |
| `ShapeGrammarProperties.PolygonNeedsACoordinate` | style/values/specified/basic_shape.rs:477-496 | `polygon()` without a coordinate pair is rejected |
| `ShapeGrammarProperties.PolygonFillRuleNeedsComma` | style/values/specified/basic_shape.rs:442-496 | `polygon(nonzero, x y)` keeps the rule; `polygon(nonzero x y)` is rejected |
| `ShapeGrammarProperties.PathOutlineIgnoresFillRule` | style/values/specified/basic_shape.rs:498-510 | `path(<rule>, "<data>")` keeps the rule when the shape is filled, and is rejected when it is an outline |
| `ShapeGrammarProperties.InsetFunctionAgrees` | style/values/specified/basic_shape.rs:332-340 | a successful `InsetRect::parse` gives the same shape as `BasicShape::parse` under `ALL` |
| `ShapeGrammarProperties.CircleFunctionAgrees` | style/values/specified/basic_shape.rs:379-389 | as above, for `Circle::parse` |
| `ShapeGrammarProperties.EllipseFunctionAgrees` | style/values/specified/basic_shape.rs:406-416 | as above, for `Ellipse::parse` |
| `ShapeGrammarProperties.PolygonFunctionAgrees` | style/values/specified/basic_shape.rs:467-475 | as above, for `Polygon::parse` |
| `ShapeParser.RectEdges` | style/values/specified/basic_shape.rs:348 | the cursor-moving parser computes the outcome and the position of `ShapeGrammar.RectEdges` |
| `ShapeParser.RoundClause` | style/values/specified/basic_shape.rs:349-356 | the same, for `ShapeGrammar.RoundClause` |
| `ShapeParser.AtPosition` | style/values/specified/basic_shape.rs:361-377 | the same, for `ShapeGrammar.AtPosition` |
| `ShapeParser.ParseFillRule` | style/values/specified/basic_shape.rs:442-465 | the same, for `ShapeGrammar.ParseFillRule` |
| `ShapeParser.InsetArguments` | style/values/specified/basic_shape.rs:342-359 | the same, for `ShapeGrammar.InsetArguments` |
| `ShapeParser.XywhArguments` | style/values/specified/basic_shape.rs:532-559 | the same, for `ShapeGrammar.XywhArguments` |
| `ShapeParser.CircleArguments` | style/values/specified/basic_shape.rs:391-404 | the same, for `ShapeGrammar.CircleArguments` |
| `ShapeParser.EllipseArguments` | style/values/specified/basic_shape.rs:418-440 | the same, for `ShapeGrammar.EllipseArguments` |
| `ShapeParser.Coordinate` | style/values/specified/basic_shape.rs:486-491 | the same, for `ShapeGrammar.Coordinate` |
| `ShapeParser.Coordinates` | style/values/specified/basic_shape.rs:484-491 | the same, for `ShapeGrammar.Coordinates`. Each item is parsed by a delimited parser that stops at the next comma, and the loop invariant joins the items parsed so far to what the rest of the list parses to |
| `ShapeParser.DelimitedCoordinate` | style/values/specified/basic_shape.rs:485-490 | one item of the list: the pair parsed from the tokens before the next comma must use all of them (`Entirely`); on success the cursor stands at that comma, on failure where the item failed |
| `ShapeParser.PolygonArguments` | style/values/specified/basic_shape.rs:477-496 | the same, for `ShapeGrammar.PolygonArguments` |
| `ShapeParser.PathArguments` | style/values/specified/basic_shape.rs:498-510 | the same, for `ShapeGrammar.PathArguments` |
| `ShapeParser.ShapeArguments` | style/values/specified/basic_shape.rs:295-328 | the same, for `ShapeGrammar.ShapeArguments` |
| `ShapeParser.ParseBasicShape` | style/values/specified/basic_shape.rs:281-330 | the same, for `ShapeGrammar.ParseBasicShape`; the argument block gets a parser of its own, which must be used up |
| `ShapeParser.ParseShapeOrBox` | style/values/specified/basic_shape.rs:184-228 | the loop over two mutable slots computes `ShapeGrammar.ParseShapeOrBox`; its invariant is that running `ShapeGrammar.ShapeOrBoxLoop` from the current slots and cursor gives the final result |
| `ShapeParser.ParseClipPath` | style/values/specified/basic_shape.rs:230-252 | the same, for `ShapeGrammar.ParseClipPath` |
| `ShapeParser.ParseShapeOutside` | style/values/specified/basic_shape.rs:254-279 | the same, for `ShapeGrammar.ParseShapeOutside` |
| `ShapeParser.InsetFunction` | style/values/specified/basic_shape.rs:332-340 | the same, for `ShapeGrammar.InsetFunction` |
| `ShapeParser.CircleFunction` | style/values/specified/basic_shape.rs:379-389 | the same, for `ShapeGrammar.CircleFunction` |
| `ShapeParser.EllipseFunction` | style/values/specified/basic_shape.rs:406-416 | the same, for `ShapeGrammar.EllipseFunction` |
| `ShapeParser.PolygonFunction` | style/values/specified/basic_shape.rs:467-475 | the same, for `ShapeGrammar.PolygonFunction` |
| `ShapeSerialization.XywhToCss` | style/values/specified/basic_shape.rs:512-530 | appends exactly `XywhCss(v)` to what the writer already holds |
| `ShapeSerialization.XywhCssWords` | style/values/specified/basic_shape.rs:512-530 | read back word by word, the output is `x`, `y`, `width`, `height`, then `round` and the words of the radius only when the radius is not zero |
| `ShapeSerialization.XywhRoundTrip` | style/values/specified/basic_shape.rs:512-559 | parsing the tokens of the serialisation gives the value back; a zero radius, which is not written, comes back as `BorderRadius::zero()` |
| `ShapeComputed.ToComputedValue` | style/values/specified/basic_shape.rs:565-597 | the computed radius is the specified one, for both `inset()` and `xywh()` |
| `ShapeComputed.FromComputedValue` | style/values/specified/basic_shape.rs:600-603 | always gives an `inset()` |
| `ShapeComputed.XywhComputesToItsRectangle` | style/values/specified/basic_shape.rs:569-593 | in every reference box, the inset computed from `xywh(x y w h)` covers exactly the rectangle with its top-left corner at (x, y) and its size w by h |
| `ShapeComputed.InsetRoundTrip` | style/values/specified/basic_shape.rs:565-603 | `inset()` survives the trip to the computed value and back |
| `ShapeComputed.ComputedRoundTrip` | style/values/specified/basic_shape.rs:565-603 | converting a computed value back and computing again gives the same computed value |
| `ShapeComputed.XywhComesBackAsInset` | style/values/specified/basic_shape.rs:565-603 | `xywh()` comes back as a different value, an `inset()` that computes to the same thing |
| `AttrSelectors.AttrSelectorWithOptionalNamespace.Namespace` | selectors/attr.rs:25-31 | `None` stays `None`, `Any` stays `Any`, and `Specific((prefix, url))` becomes `Specific(url)` |
| `AttrSelectors.NamespaceIgnoresPrefix` | selectors/attr.rs:26-31 | constraints that differ only in the prefix project to the same namespace |
| `AttrSelectors.CaseSensitivity.Eq` | selectors/attr.rs:166-171 | exact byte equality when case-sensitive; equality after ASCII lowercasing otherwise; equal lengths either way |
| `AttrSelectors.CaseSensitivity.Contains` | selectors/attr.rs:173-195 | true exactly when the needle occurs, under the comparison, at some index of the haystack (so always for an empty needle) |
| `AttrSelectors.AnyMatchFrom` | selectors/attr.rs:177-187 | the case-insensitive scan from index `i` is true exactly when the needle occurs at some index `k >= i` |
| `AttrSelectors.MatchesFromByteIff` | selectors/attr.rs:178-186 | the scan's test at one byte (first byte, then the rest of the needle) is an occurrence of the whole needle there |
| `AttrSelectors.AttrSelectorOperator.ToCss` | selectors/attr.rs:91-107 | each operator is written as one or two bytes ending in `=` |
| `AttrSelectors.ToCssInjective` | selectors/attr.rs:98-105 | the six operators are written differently |
| `AttrSelectors.EvalStrMatchesSelectors` | selectors/attr.rs:109-141 | `eval_str` decides exactly the Selectors Level 3 meaning of each operator: equal, a whitespace-separated word, equal or followed by `-`, and begins, contains or ends with a nonempty value |
| `AttrSelectors.IncludesIff` | selectors/attr.rs:130-134 | some piece of the split value equals the word exactly when some maximal whitespace-free run does |
| `AttrSelectors.DashIff` | selectors/attr.rs:137 | looking at the byte after the prefix is the same as matching the prefix extended by `-` |
| `AttrSelectors.AttrSelectorOperation.EvalStr` | selectors/attr.rs:64-78 | `Exists` matches every value; `WithValue` matches as its operator does, with its value and case sensitivity |
| `AttrSelectors.EmptyValueNeverMatches` | selectors/attr.rs:121-135 | `^=`, `$=`, `*=` and `~=` with an empty value never match |
| `AttrSelectors.IncludesWhitespaceNeverMatches` | selectors/attr.rs:130-135 | `~=` with a value that contains one of the `SELECTOR_WHITESPACE` bytes never matches |
| `AttrSelectors.CaseSensitiveImpliesInsensitive` | selectors/attr.rs:109-141 | whatever matches case-sensitively also matches ignoring ASCII case |
| `AttrSelectors.InsensitiveIsLowercasedSensitive` | selectors/attr.rs:109-195 | matching ignoring ASCII case is case-sensitive matching of the lowercased value and selector value |
| `AsciiBytes.EqIgnoreAsciiCaseIffLowercaseEqual` | selectors/attr.rs:169 | `eq_ignore_ascii_case` is equality after lowercasing |
| `AsciiBytes.SplitPieceIsRun` | selectors/attr.rs:132-133 | every piece `split` returns is a maximal run free of delimiters |
| `AsciiBytes.RunIsSplitPiece` | selectors/attr.rs:132-133 | every maximal delimiter-free run is a piece `split` returns |
| `AsciiBytes.JoinSplit` | selectors/attr.rs:132-133 | joining the pieces with the delimiter gives the input back |

## Left out

- The leaf parsers are not part of this model: `LengthPercentage`, `NonNegativeLengthPercentage`, `Position`, `BorderRadius`, `ShapeRadius`, `FillRule`, `SVGPathData`, `Image`, `SpecifiedUrl` and the reference-box keywords. Each is an opaque value that fills one token, and its parser accepts or rejects that one token. `ShapeRadius` accepts a non-negative length or `closest-side`/`farthest-side`. The path data is a nonempty string.
- `Rect::parse_with` is not part of this model. It is taken to read one to four values and expand them by the usual box-edge rule.
- The CSS tokenizer is not modelled. Input is a sequence of abstract tokens, and function tokens hold their argument block. So `XywhRoundTrip` reads back the tokens of the serialisation, not its text.
- Default reference boxes are not defined in the files modelled. The default of `clip-path`'s geometry box is taken to be the element-dependent default, and the default of `shape-outside`'s shape box to be `margin-box`.
- `static_prefs::pref!("layout.css.basic-shape-xywh.enabled")` is a boolean parameter.
- Source locations and the custom-error wrapping of `new_custom_error` are not modelled. Errors keep only their kind.
- `ShapeComputed.ToComputedValue`: leaves compute to themselves. Computing lengths and radii from a style context is not part of this model. The geometry lemmas take the resolution of a leaf against a reference box as a parameter.
- `ShapeComputed.ToComputedValue`: `LengthPercentage::hundred_percent_minus_list` is kept as the symbolic `100% - t1 - t2`. Its simplification of the calc tree, and float arithmetic, are not modelled.
- `ShapeSerialization.XywhToCss`: the writer never fails, so the `fmt::Result` error path is not modelled. The leaves serialise as their stored text.
- The derived `ToCss` of `BasicShapeRect` and `InsetRect` is not modelled. Neither are `MallocSizeOf`, `ToShmem` and `SpecifiedValueInfo`, which are generated code.
- `AttrSelectorOperator::to_css` returns the bytes it writes rather than appending them to a writer.
- Strings in `selectors/attr.rs` are byte sequences. UTF-8 validity is not modelled; `split` and `contains` are taken byte-wise, which they are for these ASCII delimiters.
- `ParsedAttrSelectorOperation` and `ParsedCaseSensitivity` are data without behaviour in this file. Deciding the case sensitivity from the document is not part of this model.
- `style/values/computed/percentage.rs` is floating-point arithmetic and serialisation, and is not part of this model.
- `script/dom/htmlulistelement.rs` is DOM binding code, and is not part of this model.
