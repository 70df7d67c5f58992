/**
 * Serialising `xywh()`: the four values separated by single spaces, then
 * ` round <border-radius>` unless the radius is zero. The writer is a byte
 * buffer that only grows.
 */
module ShapeSerialization {
  import opened AsciiBytes
  import opened CssParser
  import opened ShapeValues
  import opened ShapeGrammar
  import opened ShapeGrammarProperties

  const Space: Byte := 32

  /** `CssWriter`: the text written so far. */
  class CssWriter {
    var written: Bytes

    constructor ()
      ensures written == []
    {
      written := [];
    }

    /** `write_str`. */
    method WriteStr(s: Bytes)
      modifies this
      ensures written == old(written) + s
    {
      written := written + s;
    }

    /** `write_char`. */
    method WriteChar(b: Byte)
      modifies this
      ensures written == old(written) + [b]
    {
      written := written + [b];
    }
  }

  /** The text `Xywh::to_css` writes. */
  function XywhCss(v: Xywh): Bytes
  {
    v.x.css + [Space] + v.y.css + [Space] + v.width.css + [Space] + v.height.css +
    (if v.round.isZero then [] else Kw(" round ") + v.round.css)
  }

  /** `Xywh::to_css`: appends the serialisation and nothing else. */
  method XywhToCss(v: Xywh, dest: CssWriter)
    modifies dest
    ensures dest.written == old(dest.written) + XywhCss(v)
  {
    ghost var before := dest.written;
    dest.WriteStr(v.x.css);
    dest.WriteChar(Space);
    dest.WriteStr(v.y.css);
    dest.WriteChar(Space);
    dest.WriteStr(v.width.css);
    dest.WriteChar(Space);
    dest.WriteStr(v.height.css);
    ghost var values := v.x.css + [Space] + v.y.css + [Space] + v.width.css + [Space] + v.height.css;
    assert dest.written == before + values;
    if !v.round.isZero {
      dest.WriteStr(Kw(" round "));
      dest.WriteStr(v.round.css);
      assert dest.written == before + (values + (Kw(" round ") + v.round.css));
    } else {
      assert values == values + [];
    }
  }

  predicate SpaceFree(s: Bytes)
  {
    forall m :: 0 <= m < |s| ==> s[m] != Space
  }

  /** A space-free word followed by a space is the first word. */
  lemma WordThenSpace(word: Bytes, rest: Bytes)
    requires SpaceFree(word)
    ensures Split(word + [Space] + rest, {Space}) == [word] + Split(rest, {Space})
  {
    SplitCons(word, Space, rest, {Space});
  }

  /** Three space-free words, each followed by a space. */
  lemma ThreeWords(a: Bytes, b: Bytes, c: Bytes, rest: Bytes)
    requires SpaceFree(a) && SpaceFree(b) && SpaceFree(c)
    ensures Split(a + [Space] + b + [Space] + c + [Space] + rest, {Space}) == [a, b, c] + Split(rest, {Space})
  {
    var third := c + [Space] + rest;
    var second := b + [Space] + third;
    calc {
      Split(a + [Space] + b + [Space] + c + [Space] + rest, {Space});
      { Regroup(a, b, c, rest); }
      Split(a + [Space] + second, {Space});
      { WordThenSpace(a, second); }
      [a] + Split(second, {Space});
      { WordThenSpace(b, third); }
      [a] + ([b] + Split(third, {Space}));
      { WordThenSpace(c, rest); }
      [a] + ([b] + ([c] + Split(rest, {Space})));
      [a, b, c] + Split(rest, {Space});
    }
  }

  lemma Regroup(a: Bytes, b: Bytes, c: Bytes, rest: Bytes)
    ensures a + [Space] + b + [Space] + c + [Space] + rest == a + [Space] + (b + [Space] + (c + [Space] + rest))
  {
  }

  /** What follows the height: nothing, or `round` and the words of the radius. */
  lemma LastWords(h: Bytes, round: BorderRadius)
    requires SpaceFree(h)
    ensures Split(h + (if round.isZero then [] else Kw(" round ") + round.css), {Space}) ==
            [h] + (if round.isZero then [] else [Kw("round")] + Split(round.css, {Space}))
  {
    if round.isZero {
      assert h + [] == h;
      SplitNoDelimiter(h, {Space});
    } else {
      var after := Kw("round") + [Space] + round.css;
      calc {
        Split(h + (Kw(" round ") + round.css), {Space});
        { assert Kw(" round ") == [Space] + Kw("round") + [Space];
          assert h + (Kw(" round ") + round.css) == h + [Space] + after; }
        Split(h + [Space] + after, {Space});
        { WordThenSpace(h, after); }
        [h] + Split(after, {Space});
        { WordThenSpace(Kw("round"), round.css); }
        [h] + ([Kw("round")] + Split(round.css, {Space}));
      }
    }
  }

  /**
   * Read back word by word, the serialisation is the four values in order,
   * then `round` and the words of the radius when the radius is not zero.
   * This holds for values whose text has no space; a `calc()` value, whose
   * text does, is split into several words and is not covered here.
   */
  lemma XywhCssWords(v: Xywh)
    requires SpaceFree(v.x.css) && SpaceFree(v.y.css) && SpaceFree(v.width.css) && SpaceFree(v.height.css)
    ensures Split(XywhCss(v), {Space}) ==
            [v.x.css, v.y.css, v.width.css, v.height.css] +
            (if v.round.isZero then [] else [Kw("round")] + Split(v.round.css, {Space}))
  {
    var tail := if v.round.isZero then [] else Kw(" round ") + v.round.css;
    calc {
      Split(XywhCss(v), {Space});
      { assert XywhCss(v) == v.x.css + [Space] + v.y.css + [Space] + v.width.css + [Space] + (v.height.css + tail); }
      Split(v.x.css + [Space] + v.y.css + [Space] + v.width.css + [Space] + (v.height.css + tail), {Space});
      { ThreeWords(v.x.css, v.y.css, v.width.css, v.height.css + tail); }
      [v.x.css, v.y.css, v.width.css] + Split(v.height.css + tail, {Space});
      { LastWords(v.height.css, v.round); }
      [v.x.css, v.y.css, v.width.css] +
      ([v.height.css] + (if v.round.isZero then [] else [Kw("round")] + Split(v.round.css, {Space})));
    }
  }

  /** The tokens the serialisation of `v` is read back as. */
  function XywhTokens(v: Xywh): seq<Token>
  {
    DimensionTokens([v.x, v.y, v.width, v.height]) +
    (if v.round.isZero then [] else [Ident(Kw("round")), RadiusToken(v.round)])
  }

  /**
   * Parsing what `to_css` wrote gives the value back, except that a zero
   * radius, which is not written, comes back as `BorderRadius::zero()`.
   */
  lemma XywhRoundTrip(v: Xywh)
    requires v.width.nonNegative && v.height.nonNegative
    ensures var ts := XywhTokens(v);
            Entirely(ts, XywhArguments(ts, 0)) == Ok(if v.round.isZero then v.(round := ZeroRadius) else v)
  {
    var ts := XywhTokens(v);
    assert ts[0] == DimensionToken(v.x) && ts[1] == DimensionToken(v.y);
    assert ts[2] == DimensionToken(v.width) && ts[3] == DimensionToken(v.height);
    if !v.round.isZero {
      assert ts[4] == Ident(Kw("round")) && ts[5] == RadiusToken(v.round);
      EqIgnoreAsciiCaseIsEquivalence(Kw("round"), Kw("round"), Kw("round"));
    }
  }
}
