/**
 * The slice of the CSS token parser that the basic-shape grammar uses: a
 * token sequence whose function tokens hold their nested argument block, a
 * cursor into it, one-token reads that consume the token even when it is not
 * the one expected, save and restore of the cursor (what `try_parse` is made
 * of), and the end-of-input check of `parse_entirely`.
 *
 * Each read is stated twice: as a function over `(tokens, position)` that
 * returns the outcome and the new position (a `Step`), and as a method of the
 * `Parser` class that moves the cursor and is proved to agree with it.
 */
module CssParser {
  import opened AsciiBytes

  /** A `<length-percentage>` as its own parser produced it: opaque apart from its text and its sign. */
  datatype Dimension = Dimension(css: Bytes, nonNegative: bool)

  /** A `<border-radius>` value as its own parser produced it. */
  datatype BorderRadius = BorderRadius(css: Bytes, isZero: bool)

  /** A `<position>` value as its own parser produced it. */
  datatype Position = Position(horizontal: Bytes, vertical: Bytes)

  datatype Url = Url(css: Bytes)

  datatype Token =
    | Ident(name: Bytes)
    | Comma
    | Function(name: Bytes, arguments: seq<Token>)
    | DimensionToken(dimension: Dimension)
    | PositionToken(position: Position)
    | RadiusToken(radius: BorderRadius)
    | StringToken(value: Bytes)
    | UrlToken(url: Url)
    | ImageToken(css: Bytes)

  datatype ParseError =
    | EndOfInput
    | UnexpectedToken(token: Token)
    | UnexpectedFunction(name: Bytes)
    | UnspecifiedError

  datatype Result<T> = Ok(value: T) | Err(error: ParseError)

  /** The outcome of a parse started at some position, and the position the cursor is left at. */
  datatype Step<T> = Step(result: Result<T>, pos: nat)

  /** A failed step, retyped so that it can be returned by the parse that contains it. */
  function Propagate<T, U>(s: Step<T>): (r: Step<U>)
    requires s.result.Err?
    ensures r.result.Err? && r.result.error == s.result.error && r.pos == s.pos
  {
    Step(Err(s.result.error), s.pos)
  }

  /**
   * `next()` followed by a check of the token: at the end of the input the
   * cursor stays; otherwise the token is consumed whether or not `accept`
   * takes it.
   */
  function ReadToken<T>(ts: seq<Token>, p: nat, accept: Token -> Option<T>): (r: Step<T>)
    requires p <= |ts|
    ensures p == |ts| ==> r == Step(Err(EndOfInput), p)
    ensures p < |ts| ==> r.pos == p + 1
    ensures p < |ts| ==> (r.result.Ok? <==> accept(ts[p]).Some?)
    ensures r.result.Ok? ==> p < |ts| && accept(ts[p]) == Some(r.result.value)
  {
    if p == |ts| then Step(Err(EndOfInput), p)
    else match accept(ts[p])
      case Some(v) => Step(Ok(v), p + 1)
      case None => Step(Err(UnexpectedToken(ts[p])), p + 1)
  }

  /** `try_parse`: a failed attempt leaves the cursor where the attempt started. */
  function Try<T>(s: Step<T>, start: nat): (r: Step<T>)
    ensures r.result == s.result
    ensures r.pos == if s.result.Ok? then s.pos else start
  {
    if s.result.Ok? then s else Step(s.result, start)
  }

  /** `parse_entirely`: the parse must have consumed every token. */
  function Entirely<T>(ts: seq<Token>, s: Step<T>): (r: Result<T>)
    requires s.pos <= |ts|
    ensures r.Ok? <==> s.result.Ok? && s.pos == |ts|
    ensures r.Ok? ==> r == s.result
  {
    if s.result.Err? then s.result
    else if s.pos == |ts| then s.result
    else Err(UnexpectedToken(ts[s.pos]))
  }

  /** Token acceptors shared by several grammars. */
  function AsComma(t: Token): Option<()>
  {
    if t.Comma? then Some(()) else None
  }

  /** `expect_ident_matching(keyword)`: an identifier equal to `keyword` ignoring ASCII case. */
  function AsKeyword(keyword: Bytes): Token -> Option<()>
  {
    (t: Token) => if t.Ident? && EqIgnoreAsciiCase(t.name, keyword) then Some(()) else None
  }

  /** `expect_function`: the function's name and its argument block. */
  function AsFunction(t: Token): Option<(Bytes, seq<Token>)>
  {
    if t.Function? then Some((t.name, t.arguments)) else None
  }

  /** The position of the first top-level comma at or after `p`, or the end of the input. */
  function NextComma(ts: seq<Token>, p: nat): (c: nat)
    requires p <= |ts|
    ensures p <= c <= |ts|
    ensures forall m :: p <= m < c ==> !ts[m].Comma?
    ensures c < |ts| ==> ts[c].Comma?
    decreases |ts| - p
  {
    if p == |ts| || ts[p].Comma? then p else NextComma(ts, p + 1)
  }

  /** The cursor of the parser over one token sequence. */
  class Parser {
    const tokens: seq<Token>
    var pos: nat

    ghost predicate Valid()
      reads this
    {
      pos <= |tokens|
    }

    constructor (ts: seq<Token>)
      ensures Valid() && tokens == ts && pos == 0
    {
      tokens := ts;
      pos := 0;
    }

    /** `state()`: the position to come back to. */
    method State() returns (state: nat)
      requires Valid()
      ensures state == pos
    {
      state := pos;
    }

    /** `reset(state)`. */
    method Reset(state: nat)
      requires state <= |tokens|
      modifies this
      ensures Valid() && pos == state
    {
      pos := state;
    }

    /** `next()` and a check of the token read. */
    method Next<T>(accept: Token -> Option<T>) returns (r: Result<T>)
      requires Valid()
      modifies this
      ensures Valid() && Step(r, pos) == ReadToken(tokens, old(pos), accept)
    {
      if pos == |tokens| {
        r := Err(EndOfInput);
      } else {
        var t := tokens[pos];
        pos := pos + 1;
        match accept(t)
        case Some(v) => r := Ok(v);
        case None => r := Err(UnexpectedToken(t));
      }
    }

    /** `expect_exhausted()`: succeeds only at the end of the input; never moves the cursor. */
    method ExpectExhausted() returns (r: Result<()>)
      requires Valid()
      ensures r == Entirely(tokens, Step(Ok(()), pos))
    {
      if pos == |tokens| {
        r := Ok(());
      } else {
        r := Err(UnexpectedToken(tokens[pos]));
      }
    }

    /** The delimited parser of `parse_until_before(Comma, ..)` sees the tokens up to the next comma. */
    method UntilComma() returns (c: nat)
      requires Valid()
      ensures c == NextComma(tokens, pos)
    {
      c := pos;
      while c < |tokens| && !tokens[c].Comma?
        invariant pos <= c <= |tokens|
        invariant NextComma(tokens, pos) == NextComma(tokens, c)
      {
        c := c + 1;
      }
    }
  }
}
