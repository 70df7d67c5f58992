/**
 * Attribute-selector value matching: the `=`, `~=`, `|=`, `^=`, `*=` and `$=`
 * operators of Selectors Level 3 (sections 6.3.1 and 6.3.2), compared
 * byte-wise either exactly or ignoring ASCII case, the serialisation of the
 * operators, and the projection of an attribute selector's namespace.
 */
module AttrSelectors {
  import opened AsciiBytes

  /** `b'-'`, the separator `|=` looks for. */
  const Hyphen: Byte := 45

  /** `SELECTOR_WHITESPACE`: space, tab, line feed, carriage return, form feed (Selectors Level 3, section 4). */
  const SelectorWhitespace: set<Byte> := {32, 9, 10, 13, 12}

  // ---------------------------------------------------------------------
  // Namespaces

  datatype NamespaceConstraint<Url> = Any | Specific(url: Url)

  /**
   * An attribute selector as parsed: an optional namespace constraint that
   * remembers the prefix it was written with, the local name in its written
   * and its lower-case form, and the operation.
   */
  datatype AttrSelectorWithOptionalNamespace<Prefix, Url, LocalName, Operation> =
    AttrSelectorWithOptionalNamespace(
      namespace: Option<NamespaceConstraint<(Prefix, Url)>>,
      localName: LocalName,
      localNameLower: LocalName,
      operation: Operation)
  {
    /** `namespace()`: the constraint with the prefix dropped and only the namespace URL kept. */
    function Namespace(): (r: Option<NamespaceConstraint<Url>>)
      ensures r.None? <==> namespace.None?
      ensures r == Some(Any) <==> namespace == Some(Any)
      ensures r.Some? && r.value.Specific? <==> namespace.Some? && namespace.value.Specific?
      ensures r.Some? && r.value.Specific? ==> r.value.url == namespace.value.url.1
    {
      match namespace
      case None => None
      case Some(Any) => Some(Any)
      case Some(Specific((_, url))) => Some(Specific(url))
    }
  }

  /** The prefix a namespace was written with is invisible to `namespace()`. */
  lemma NamespaceIgnoresPrefix<P, U, L, O>(a: AttrSelectorWithOptionalNamespace<P, U, L, O>,
                                           b: AttrSelectorWithOptionalNamespace<P, U, L, O>)
    requires a.namespace.None? <==> b.namespace.None?
    requires a.namespace.Some? ==> (a.namespace.value.Any? <==> b.namespace.value.Any?)
    requires a.namespace.Some? && a.namespace.value.Specific? ==>
               a.namespace.value.url.1 == b.namespace.value.url.1
    ensures a.Namespace() == b.Namespace()
  {
  }

  // ---------------------------------------------------------------------
  // Case sensitivity

  /** The comparison an attribute selector uses, after the document has decided it. */
  datatype CaseSensitivity = CaseSensitive | AsciiCaseInsensitive
  {
    /** `CaseSensitivity::eq`: exact byte equality, or equality ignoring ASCII case. */
    function Eq(a: Bytes, b: Bytes): (r: bool)
      ensures r ==> |a| == |b|
      ensures this == CaseSensitive ==> (r <==> a == b)
      ensures this == AsciiCaseInsensitive ==> (r <==> Lowercase(a) == Lowercase(b))
    {
      EqIgnoreAsciiCaseIffLowercaseEqual(a, b);
      match this
      case CaseSensitive => a == b
      case AsciiCaseInsensitive => EqIgnoreAsciiCase(a, b)
    }

    /**
     * `CaseSensitivity::contains`: `str::contains` when case-sensitive; when
     * not, a scan over the haystack's bytes for one that matches the needle's
     * first byte and is followed by the needle's remaining bytes, all ignoring
     * ASCII case. An empty needle is contained in everything.
     */
    function Contains(haystack: Bytes, needle: Bytes): (r: bool)
      ensures r <==> exists i :: OccursAt(this, haystack, needle, i)
    {
      match this
      case CaseSensitive =>
        assert forall i :: OccursAt(this, haystack, needle, i) <==> SliceAt(haystack, needle, i);
        HasSubslice(haystack, needle)
      case AsciiCaseInsensitive =>
        if needle == [] then
          assert OccursAt(this, haystack, needle, 0);
          true
        else
          AnyMatchFrom(haystack, needle, 0)
    }
  }

  /** The `|needle|` bytes of `haystack` from index `i` equal `needle` under `cs`. */
  ghost predicate OccursAt(cs: CaseSensitivity, haystack: Bytes, needle: Bytes, i: int)
  {
    0 <= i && i + |needle| <= |haystack| && cs.Eq(haystack[i..i + |needle|], needle)
  }

  predicate SliceAt(haystack: Bytes, needle: Bytes, i: int)
  {
    0 <= i && i + |needle| <= |haystack| && haystack[i..i + |needle|] == needle
  }

  /** `str::contains` on byte strings. */
  predicate HasSubslice(haystack: Bytes, needle: Bytes)
  {
    exists i | 0 <= i <= |haystack| - |needle| :: SliceAt(haystack, needle, i)
  }

  /** The closure of the case-insensitive scan, at haystack index `i`. */
  predicate MatchesFromByte(haystack: Bytes, needle: Bytes, i: nat)
    requires needle != [] && i < |haystack|
  {
    ToAsciiLowercase(haystack[i]) == ToAsciiLowercase(needle[0]) &&
    |needle| - 1 <= |haystack| - (i + 1) &&
    EqIgnoreAsciiCase(haystack[i + 1..i + |needle|], needle[1..])
  }

  /** `haystack.bytes().enumerate().any(...)` from index `i` on. */
  function AnyMatchFrom(haystack: Bytes, needle: Bytes, i: nat): (r: bool)
    requires needle != [] && i <= |haystack|
    ensures r <==> exists k :: i <= k && OccursAt(AsciiCaseInsensitive, haystack, needle, k)
    decreases |haystack| - i
  {
    if i == |haystack| then
      false
    else
      MatchesFromByteIff(haystack, needle, i);
      var r := MatchesFromByte(haystack, needle, i) || AnyMatchFrom(haystack, needle, i + 1);
      assert r ==> exists k :: i <= k && OccursAt(AsciiCaseInsensitive, haystack, needle, k);
      assert (exists k :: i <= k && OccursAt(AsciiCaseInsensitive, haystack, needle, k)) ==> r by {
        if k :| i <= k && OccursAt(AsciiCaseInsensitive, haystack, needle, k) {
          if k > i {
            assert exists k' :: i + 1 <= k' && OccursAt(AsciiCaseInsensitive, haystack, needle, k');
          }
        }
      }
      r
  }

  /** Matching the first byte and then the rest is matching the whole needle. */
  lemma MatchesFromByteIff(haystack: Bytes, needle: Bytes, i: nat)
    requires needle != [] && i < |haystack|
    ensures MatchesFromByte(haystack, needle, i) <==> OccursAt(AsciiCaseInsensitive, haystack, needle, i)
  {
    if i + |needle| <= |haystack| {
      var w := haystack[i..i + |needle|];
      assert w[1..] == haystack[i + 1..i + |needle|];
      assert EqIgnoreAsciiCase(w, needle) <==>
             ToAsciiLowercase(w[0]) == ToAsciiLowercase(needle[0]) && EqIgnoreAsciiCase(w[1..], needle[1..]) by {
        if ToAsciiLowercase(w[0]) == ToAsciiLowercase(needle[0]) && EqIgnoreAsciiCase(w[1..], needle[1..]) {
          forall m | 0 <= m < |w| ensures ToAsciiLowercase(w[m]) == ToAsciiLowercase(needle[m]) {
            if m > 0 { assert w[m] == w[1..][m - 1] && needle[m] == needle[1..][m - 1]; }
          }
        }
      }
    }
  }

  // ---------------------------------------------------------------------
  // Operators

  datatype AttrSelectorOperator = Equal | Includes | DashMatch | Prefix | Substring | Suffix
  {
    /** The operator as written in a selector (the CSSOM serialisation of attribute selectors). */
    function ToCss(): (r: Bytes)
      ensures |r| == (if this == Equal then 1 else 2)
      ensures r[|r| - 1] == '=' as int as Byte
    {
      match this
      case Equal => Kw("=")
      case Includes => Kw("~=")
      case DashMatch => Kw("|=")
      case Prefix => Kw("^=")
      case Substring => Kw("*=")
      case Suffix => Kw("$=")
    }

    /**
     * `AttrSelectorOperator::eval_str`: does an element whose attribute has
     * value `e` match `[attr <op> s]` under `cs`?
     */
    function EvalStr(e: Bytes, s: Bytes, cs: CaseSensitivity): bool
    {
      match this
      case Equal => cs.Eq(e, s)
      case Prefix => s != [] && |e| >= |s| && cs.Eq(e[..|s|], s)
      case Suffix => s != [] && |e| >= |s| && cs.Eq(e[|e| - |s|..], s)
      case Substring => s != [] && cs.Contains(e, s)
      case Includes =>
        s != [] && exists piece | piece in Split(e, SelectorWhitespace) :: cs.Eq(piece, s)
      case DashMatch =>
        cs.Eq(e, s) || (|s| < |e| && e[|s|] == Hyphen && cs.Eq(e[..|s|], s))
    }
  }

  /** The six operators serialise to six different strings. */
  lemma ToCssInjective(a: AttrSelectorOperator, b: AttrSelectorOperator)
    ensures a.ToCss() == b.ToCss() ==> a == b
  {
    if a != b {
      assert a.ToCss()[0] != b.ToCss()[0] || |a.ToCss()| != |b.ToCss()|;
    }
  }

  /**
   * What `[attr <op> s]` means in Selectors Level 3, section 6.3, stated with
   * the comparison `cs`: the value is exactly `s`; is a whitespace-separated
   * list of words one of which is exactly `s`; is exactly `s` or begins with
   * `s` immediately followed by `-`; begins, contains or ends with a nonempty `s`.
   */
  ghost predicate Matches(op: AttrSelectorOperator, cs: CaseSensitivity, e: Bytes, s: Bytes)
  {
    match op
    case Equal => cs.Eq(e, s)
    case Includes => s != [] && exists i, j :: IsPiece(e, SelectorWhitespace, i, j) && cs.Eq(e[i..j], s)
    case DashMatch => cs.Eq(e, s) || OccursAt(cs, e, s + [Hyphen], 0)
    case Prefix => s != [] && OccursAt(cs, e, s, 0)
    case Substring => s != [] && exists i :: OccursAt(cs, e, s, i)
    case Suffix => s != [] && OccursAt(cs, e, s, |e| - |s|)
  }

  /** `eval_str` decides exactly the Selectors Level 3 meaning of each operator. */
  lemma EvalStrMatchesSelectors(op: AttrSelectorOperator, e: Bytes, s: Bytes, cs: CaseSensitivity)
    ensures op.EvalStr(e, s, cs) <==> Matches(op, cs, e, s)
  {
    match op
    case Includes =>
      IncludesIff(e, s, cs);
    case DashMatch =>
      DashIff(e, s, cs);
    case Prefix =>
      assert |e| >= |s| ==> e[..|s|] == e[0..0 + |s|];
    case Suffix =>
      assert |e| >= |s| ==> e[|e| - |s|..] == e[|e| - |s|..|e| - |s| + |s|];
    case _ =>
  }

  lemma IncludesIff(e: Bytes, s: Bytes, cs: CaseSensitivity)
    ensures (exists piece | piece in Split(e, SelectorWhitespace) :: cs.Eq(piece, s)) <==>
            (exists i, j :: IsPiece(e, SelectorWhitespace, i, j) && cs.Eq(e[i..j], s))
  {
    var pieces := Split(e, SelectorWhitespace);
    if piece :| piece in pieces && cs.Eq(piece, s) {
      var n :| 0 <= n < |pieces| && pieces[n] == piece;
      var i, j := SplitPieceIsRun(e, SelectorWhitespace, n);
      assert IsPiece(e, SelectorWhitespace, i, j) && cs.Eq(e[i..j], s);
    }
    if i, j :| IsPiece(e, SelectorWhitespace, i, j) && cs.Eq(e[i..j], s) {
      var n := RunIsSplitPiece(e, SelectorWhitespace, i, j);
      assert pieces[n] == e[i..j];
      assert e[i..j] in pieces && cs.Eq(e[i..j], s);
    }
  }

  /** Looking at the byte after a prefix is the same as matching the prefix extended by `-`. */
  lemma DashIff(e: Bytes, s: Bytes, cs: CaseSensitivity)
    ensures (|s| < |e| && e[|s|] == Hyphen && cs.Eq(e[..|s|], s)) <==> OccursAt(cs, e, s + [Hyphen], 0)
  {
    if |s| < |e| {
      var w := e[0..|s| + 1];
      assert w == e[..|s|] + [e[|s|]];
      LowercaseAppend(e[..|s|], [e[|s|]]);
      LowercaseAppend(s, [Hyphen]);
      FoldsToNonLetter(e[|s|], Hyphen);
      assert Lowercase([e[|s|]]) == [ToAsciiLowercase(e[|s|])];
      assert Lowercase([Hyphen]) == [Hyphen];
      if cs.Eq(w, s + [Hyphen]) {
        assert w[..|s|] == e[..|s|];
        assert Lowercase(w)[..|s|] == Lowercase(e[..|s|]);
        assert Lowercase(s + [Hyphen])[..|s|] == Lowercase(s);
        assert Lowercase(w)[|s|] == Lowercase(s + [Hyphen])[|s|];
      }
    }
  }

  // ---------------------------------------------------------------------
  // Properties of the matching

  /** An operation with no value matches every attribute value; one with a value matches as its operator says. */
  datatype AttrSelectorOperation = Exists | WithValue(operator: AttrSelectorOperator, caseSensitivity: CaseSensitivity, value: Bytes)
  {
    /** `AttrSelectorOperation::eval_str`. */
    function EvalStr(elementAttrValue: Bytes): (r: bool)
      ensures Exists? ==> r
      ensures WithValue? ==> (r <==> Matches(operator, caseSensitivity, elementAttrValue, value))
    {
      match this
      case Exists => true
      case WithValue(op, cs, v) =>
        EvalStrMatchesSelectors(op, elementAttrValue, v, cs);
        op.EvalStr(elementAttrValue, v, cs)
    }
  }

  /** `^=`, `$=`, `*=` and `~=` with an empty value never match. */
  lemma EmptyValueNeverMatches(op: AttrSelectorOperator, e: Bytes, cs: CaseSensitivity)
    requires op in {Prefix, Suffix, Substring, Includes}
    ensures !op.EvalStr(e, [], cs)
  {
  }

  /** `~=` with a value that contains whitespace never matches (Selectors Level 3, section 6.3.1). */
  lemma IncludesWhitespaceNeverMatches(e: Bytes, s: Bytes, cs: CaseSensitivity, m: nat)
    requires m < |s| && s[m] in SelectorWhitespace
    ensures !Includes.EvalStr(e, s, cs)
  {
    EvalStrMatchesSelectors(Includes, e, s, cs);
    if i, j :| IsPiece(e, SelectorWhitespace, i, j) && cs.Eq(e[i..j], s) {
      var w := e[i..j];
      assert w[m] == e[i + m] && w[m] !in SelectorWhitespace;
      assert Lowercase(w)[m] == Lowercase(s)[m];
      FoldsToNonLetter(w[m], s[m]);
    }
  }

  /** Case-sensitive matching implies case-insensitive matching, for every operator. */
  lemma CaseSensitiveImpliesInsensitive(op: AttrSelectorOperator, e: Bytes, s: Bytes)
    ensures op.EvalStr(e, s, CaseSensitive) ==> op.EvalStr(e, s, AsciiCaseInsensitive)
  {
    EvalStrMatchesSelectors(op, e, s, CaseSensitive);
    EvalStrMatchesSelectors(op, e, s, AsciiCaseInsensitive);
    if op.EvalStr(e, s, CaseSensitive) {
      match op
      case Includes =>
        var i, j :| IsPiece(e, SelectorWhitespace, i, j) && CaseSensitive.Eq(e[i..j], s);
        assert AsciiCaseInsensitive.Eq(e[i..j], s);
      case Substring =>
        var i :| OccursAt(CaseSensitive, e, s, i);
        assert OccursAt(AsciiCaseInsensitive, e, s, i);
      case _ =>
    }
  }

  /**
   * Matching ignoring ASCII case is matching exactly after folding both the
   * attribute value and the selector value to lower case, for every operator.
   */
  lemma {:induction false} InsensitiveIsLowercasedSensitive(op: AttrSelectorOperator, e: Bytes, s: Bytes)
    ensures op.EvalStr(e, s, AsciiCaseInsensitive) <==> op.EvalStr(Lowercase(e), Lowercase(s), CaseSensitive)
  {
    var le, ls := Lowercase(e), Lowercase(s);
    EvalStrMatchesSelectors(op, e, s, AsciiCaseInsensitive);
    EvalStrMatchesSelectors(op, le, ls, CaseSensitive);
    assert s == [] <==> ls == [];
    match op
    case Equal =>
    case Prefix =>
      OccursAtLowercase(e, s, 0);
    case Suffix =>
      OccursAtLowercase(e, s, |e| - |s|);
    case Substring =>
      if i :| OccursAt(AsciiCaseInsensitive, e, s, i) {
        OccursAtLowercase(e, s, i);
      }
      if i :| OccursAt(CaseSensitive, le, ls, i) {
        OccursAtLowercase(e, s, i);
      }
    case DashMatch =>
      OccursAtLowercase(e, s + [Hyphen], 0);
      LowercaseAppend(s, [Hyphen]);
      FoldsToNonLetter(Hyphen, Hyphen);
      assert Lowercase([Hyphen]) == [Hyphen];
    case Includes =>
      if i, j :| IsPiece(e, SelectorWhitespace, i, j) && AsciiCaseInsensitive.Eq(e[i..j], s) {
        PieceLowercase(e, i, j);
        LowercaseSlice(e, i, j);
        assert IsPiece(le, SelectorWhitespace, i, j) && CaseSensitive.Eq(le[i..j], ls);
      }
      if i, j :| IsPiece(le, SelectorWhitespace, i, j) && CaseSensitive.Eq(le[i..j], ls) {
        PieceLowercase(e, i, j);
        LowercaseSlice(e, i, j);
        assert IsPiece(e, SelectorWhitespace, i, j) && AsciiCaseInsensitive.Eq(e[i..j], s);
      }
  }

  lemma OccursAtLowercase(e: Bytes, s: Bytes, i: int)
    ensures OccursAt(AsciiCaseInsensitive, e, s, i) <==> OccursAt(CaseSensitive, Lowercase(e), Lowercase(s), i)
  {
    if 0 <= i && i + |s| <= |e| {
      LowercaseSlice(e, i, i + |s|);
    }
  }

  /** Folding case keeps whitespace where it was, so the words of a value stay where they were. */
  lemma PieceLowercase(e: Bytes, i: int, j: int)
    ensures IsPiece(e, SelectorWhitespace, i, j) <==> IsPiece(Lowercase(e), SelectorWhitespace, i, j)
  {
    var le := Lowercase(e);
    forall m | 0 <= m < |e| ensures e[m] in SelectorWhitespace <==> le[m] in SelectorWhitespace {
      if e[m] in SelectorWhitespace {
        FoldsToNonLetter(e[m], e[m]);
      } else if le[m] in SelectorWhitespace {
        FoldsToNonLetter(e[m], le[m]);
      }
    }
  }
}
