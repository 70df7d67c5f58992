/**
 * Byte strings and the ASCII helpers both core files rely on: ASCII case
 * folding (`u8::to_ascii_lowercase`, `[u8]::eq_ignore_ascii_case`) and
 * splitting a string on a set of delimiter characters (`str::split(&[char])`).
 * CSS identifiers, attribute values and serialised CSS are all byte strings.
 */
module AsciiBytes {

  datatype Option<T> = None | Some(value: T)

  newtype Byte = b: int | 0 <= b < 256

  type Bytes = seq<Byte>

  /** The bytes of a literal written with ASCII characters. */
  function Kw(s: string): Bytes
  {
    seq(|s|, i requires 0 <= i < |s| => (s[i] as int % 256) as Byte)
  }

  predicate IsAsciiUppercase(b: Byte)
  {
    'A' as int <= b as int <= 'Z' as int
  }

  /** `u8::to_ascii_lowercase`: only `A`..`Z` change. */
  function ToAsciiLowercase(b: Byte): Byte
  {
    if IsAsciiUppercase(b) then b + 32 else b
  }

  function Lowercase(s: Bytes): (r: Bytes)
    ensures |r| == |s|
    ensures forall i :: 0 <= i < |s| ==> r[i] == ToAsciiLowercase(s[i])
  {
    seq(|s|, i requires 0 <= i < |s| => ToAsciiLowercase(s[i]))
  }

  /** `[u8]::eq_ignore_ascii_case`: same length, equal after folding each byte. */
  predicate EqIgnoreAsciiCase(a: Bytes, b: Bytes)
  {
    |a| == |b| && forall i :: 0 <= i < |a| ==> ToAsciiLowercase(a[i]) == ToAsciiLowercase(b[i])
  }

  /** Folding changes letters only: the bytes that fold to a non-letter are that byte alone. */
  lemma FoldsToNonLetter(b: Byte, c: Byte)
    requires !IsAsciiUppercase(c) && !('a' as int <= c as int <= 'z' as int)
    ensures ToAsciiLowercase(b) == c <==> b == c
  {
  }

  lemma EqIgnoreAsciiCaseIffLowercaseEqual(a: Bytes, b: Bytes)
    ensures EqIgnoreAsciiCase(a, b) <==> Lowercase(a) == Lowercase(b)
  {
    if Lowercase(a) == Lowercase(b) {
      assert |a| == |Lowercase(a)| == |Lowercase(b)| == |b|;
      forall i | 0 <= i < |a| ensures ToAsciiLowercase(a[i]) == ToAsciiLowercase(b[i]) {
        assert Lowercase(a)[i] == Lowercase(b)[i];
      }
    }
  }

  lemma LowercaseSlice(s: Bytes, i: int, j: int)
    requires 0 <= i <= j <= |s|
    ensures Lowercase(s[i..j]) == Lowercase(s)[i..j]
  {
  }

  lemma LowercaseAppend(a: Bytes, b: Bytes)
    ensures Lowercase(a + b) == Lowercase(a) + Lowercase(b)
  {
  }

  /** Case folding is an equivalence relation. */
  lemma EqIgnoreAsciiCaseIsEquivalence(a: Bytes, b: Bytes, c: Bytes)
    ensures EqIgnoreAsciiCase(a, a)
    ensures EqIgnoreAsciiCase(a, b) ==> EqIgnoreAsciiCase(b, a)
    ensures EqIgnoreAsciiCase(a, b) && EqIgnoreAsciiCase(b, c) ==> EqIgnoreAsciiCase(a, c)
  {
  }

  // ---------------------------------------------------------------------
  // Splitting on delimiter bytes

  /** The index of the first delimiter at or after `start`, or `|s|` when there is none. */
  function NextDelimiter(s: Bytes, delims: set<Byte>, start: nat): (k: nat)
    requires start <= |s|
    ensures start <= k <= |s|
    ensures k < |s| ==> s[k] in delims
    decreases |s| - start
  {
    if start == |s| || s[start] in delims then start else NextDelimiter(s, delims, start + 1)
  }

  /** No delimiter comes between `start` and the next delimiter. */
  lemma {:induction false} BeforeNextDelimiter(s: Bytes, delims: set<Byte>, start: nat, m: int)
    requires start <= |s| && start <= m < NextDelimiter(s, delims, start)
    ensures s[m] !in delims
    decreases |s| - start
  {
    if m > start {
      BeforeNextDelimiter(s, delims, start + 1, m);
    }
  }

  /** The next delimiter is the first byte from `start` on that is one. */
  lemma NextDelimiterAt(s: Bytes, delims: set<Byte>, start: nat, k: nat)
    requires start <= k <= |s| && (k < |s| ==> s[k] in delims)
    requires forall m :: start <= m < k ==> s[m] !in delims
    ensures NextDelimiter(s, delims, start) == k
  {
    if k < NextDelimiter(s, delims, start) {
      BeforeNextDelimiter(s, delims, start, k);
    }
  }

  /**
   * The pieces of `s[from..]`, scanning byte by byte from `pos`: the piece
   * being read started at `from`; a delimiter at `pos` ends it and starts
   * the next one after it.
   */
  function SplitScan(s: Bytes, delims: set<Byte>, from: nat, pos: nat): (pieces: seq<Bytes>)
    requires from <= pos <= |s|
    ensures |pieces| >= 1
    decreases |s| - pos
  {
    if pos == |s| then [s[from..]]
    else if s[pos] in delims then [s[from..pos]] + SplitScan(s, delims, pos + 1, pos + 1)
    else SplitScan(s, delims, from, pos + 1)
  }

  /** The pieces of `s[start..]`. */
  function SplitFrom(s: Bytes, delims: set<Byte>, start: nat): (pieces: seq<Bytes>)
    requires start <= |s|
    ensures |pieces| >= 1
  {
    SplitScan(s, delims, start, start)
  }

  /** Scanning skips to the next delimiter, which ends the piece. */
  lemma {:induction false} ScanToDelimiter(s: Bytes, delims: set<Byte>, from: nat, pos: nat)
    requires from <= pos <= |s|
    ensures var k := NextDelimiter(s, delims, pos);
            SplitScan(s, delims, from, pos) ==
              if k == |s| then [s[from..]] else [s[from..k]] + SplitFrom(s, delims, k + 1)
    decreases |s| - pos
  {
    if pos < |s| && s[pos] !in delims {
      ScanToDelimiter(s, delims, from, pos + 1);
    }
  }

  /**
   * `str::split` with a set of delimiter characters: the pieces between
   * delimiters, in order, including the empty pieces next to a leading, a
   * trailing or a doubled delimiter (so there is always at least one piece).
   */
  function Split(s: Bytes, delims: set<Byte>): (pieces: seq<Bytes>)
    ensures |pieces| >= 1
  {
    SplitFrom(s, delims, 0)
  }

  /** `s[i..j]` is a maximal delimiter-free run of `s`. */
  ghost predicate IsPiece(s: Bytes, delims: set<Byte>, i: int, j: int)
  {
    0 <= i <= j <= |s| &&
    (i == 0 || s[i - 1] in delims) &&
    (j == |s| || s[j] in delims) &&
    forall m :: i <= m < j ==> s[m] !in delims
  }

  /** `i` is where a piece starts: the start of the text, or just after a delimiter. */
  ghost predicate PieceStart(s: Bytes, delims: set<Byte>, i: int)
  {
    0 <= i <= |s| && (i == 0 || s[i - 1] in delims)
  }

  /** A piece is what runs from a piece start to the next delimiter. */
  lemma IsPieceIffNext(s: Bytes, delims: set<Byte>, i: int, j: int)
    ensures IsPiece(s, delims, i, j) <==> PieceStart(s, delims, i) && j == NextDelimiter(s, delims, i)
  {
    if IsPiece(s, delims, i, j) {
      NextDelimiterAt(s, delims, i, j);
    }
    if PieceStart(s, delims, i) && j == NextDelimiter(s, delims, i) {
      forall m | i <= m < j ensures s[m] !in delims {
        BeforeNextDelimiter(s, delims, i, m);
      }
    }
  }

  /** `SplitFrom` unfolded once. */
  lemma SplitFromUnfold(s: Bytes, delims: set<Byte>, start: nat)
    requires start <= |s|
    ensures var k := NextDelimiter(s, delims, start);
            SplitFrom(s, delims, start) == if k == |s| then [s[start..]] else [s[start..k]] + SplitFrom(s, delims, k + 1)
  {
    ScanToDelimiter(s, delims, start, start);
  }

  /** The first piece from `start`, and the pieces after it. */
  lemma SplitFromStep(s: Bytes, delims: set<Byte>, start: nat, m: nat)
    requires start <= |s| && m < |SplitFrom(s, delims, start)|
    ensures var k := NextDelimiter(s, delims, start);
            (m == 0 ==> SplitFrom(s, delims, start)[0] == s[start..k]) &&
            (m > 0 ==> k < |s| && m - 1 < |SplitFrom(s, delims, k + 1)| &&
                       SplitFrom(s, delims, start)[m] == SplitFrom(s, delims, k + 1)[m - 1])
  {
    var k := NextDelimiter(s, delims, start);
    SplitFromUnfold(s, delims, start);
    if k < |s| {
      var tail := SplitFrom(s, delims, k + 1);
      assert m > 0 ==> ([s[start..k]] + tail)[m] == tail[m - 1];
    }
  }

  /** One piece from `start`, or one more than from just after the next delimiter. */
  lemma SplitFromLength(s: Bytes, delims: set<Byte>, start: nat)
    requires start <= |s|
    ensures var k := NextDelimiter(s, delims, start);
            |SplitFrom(s, delims, start)| == if k == |s| then 1 else 1 + |SplitFrom(s, delims, k + 1)|
  {
    SplitFromUnfold(s, delims, start);
  }

  /** The `n`th piece from a piece start runs from a later piece start to the next delimiter. */
  lemma {:induction false} SplitFromPieces(s: Bytes, delims: set<Byte>, start: nat, n: nat) returns (i: int)
    requires PieceStart(s, delims, start) && n < |SplitFrom(s, delims, start)|
    ensures start <= i && PieceStart(s, delims, i)
    ensures SplitFrom(s, delims, start)[n] == s[i..NextDelimiter(s, delims, i)]
    decreases |s| - start
  {
    SplitFromStep(s, delims, start, n);
    if n == 0 {
      i := start;
    } else {
      var k := NextDelimiter(s, delims, start);
      i := SplitFromPieces(s, delims, k + 1, n - 1);
    }
  }

  /** Every piece start at or after `start` begins one of the pieces from `start`. */
  lemma {:induction false} PiecesInSplitFrom(s: Bytes, delims: set<Byte>, start: nat, i: int) returns (n: nat)
    requires PieceStart(s, delims, start) && PieceStart(s, delims, i) && start <= i
    ensures n < |SplitFrom(s, delims, start)|
    ensures SplitFrom(s, delims, start)[n] == s[i..NextDelimiter(s, delims, i)]
    decreases |s| - start
  {
    var k := NextDelimiter(s, delims, start);
    if i == start {
      n := 0;
      SplitFromStep(s, delims, start, n);
    } else {
      if i - 1 < k {
        BeforeNextDelimiter(s, delims, start, i - 1);
      }
      SplitFromLength(s, delims, start);
      var n' := PiecesInSplitFrom(s, delims, k + 1, i);
      n := n' + 1;
      SplitFromStep(s, delims, start, n);
    }
  }

  /** Every piece `Split` returns is a maximal delimiter-free run `s[i..j]` of the input. */
  lemma SplitPieceIsRun(s: Bytes, delims: set<Byte>, n: nat) returns (i: int, j: int)
    requires n < |Split(s, delims)|
    ensures IsPiece(s, delims, i, j) && Split(s, delims)[n] == s[i..j]
  {
    i := SplitFromPieces(s, delims, 0, n);
    j := NextDelimiter(s, delims, i);
    IsPieceIffNext(s, delims, i, j);
  }

  /** Every maximal delimiter-free run of the input is one of the pieces `Split` returns, the `n`th. */
  lemma RunIsSplitPiece(s: Bytes, delims: set<Byte>, i: int, j: int) returns (n: nat)
    requires IsPiece(s, delims, i, j)
    ensures n < |Split(s, delims)| && Split(s, delims)[n] == s[i..j]
  {
    IsPieceIffNext(s, delims, i, j);
    n := PiecesInSplitFrom(s, delims, 0, i);
  }

  /** The pieces, read back with one delimiter between each two, give the input (for one delimiter). */
  function Join(pieces: seq<Bytes>, sep: Byte): Bytes
  {
    if |pieces| <= 1 then (if pieces == [] then [] else pieces[0])
    else pieces[0] + [sep] + Join(pieces[1..], sep)
  }

  /** `Join` puts the delimiter after the first piece when more follow. */
  lemma JoinCons(piece: Bytes, pieces: seq<Bytes>, sep: Byte)
    requires |pieces| >= 1
    ensures Join([piece] + pieces, sep) == piece + [sep] + Join(pieces, sep)
  {
    assert ([piece] + pieces)[1..] == pieces;
  }

  lemma {:induction false} JoinSplitFrom(s: Bytes, sep: Byte, start: nat)
    requires start <= |s|
    ensures Join(SplitFrom(s, {sep}, start), sep) == s[start..]
    decreases |s| - start
  {
    var k := NextDelimiter(s, {sep}, start);
    SplitFromUnfold(s, {sep}, start);
    if k < |s| {
      var tail := SplitFrom(s, {sep}, k + 1);
      calc {
        Join(SplitFrom(s, {sep}, start), sep);
        Join([s[start..k]] + tail, sep);
        { JoinCons(s[start..k], tail, sep); }
        s[start..k] + [sep] + Join(tail, sep);
        { JoinSplitFrom(s, sep, k + 1); }
        s[start..k] + [sep] + s[k + 1..];
        s[start..];
      }
    } else {
      assert Join(SplitFrom(s, {sep}, start), sep) == s[start..];
    }
  }

  /** Joining the pieces of a split on one delimiter gives the text back. */
  lemma JoinSplit(s: Bytes, sep: Byte)
    ensures Join(Split(s, {sep}), sep) == s
  {
    JoinSplitFrom(s, sep, 0);
  }

  /** The next delimiter after `d + start` in `s` is `d` past the next one after `start` in `s[d..]`. */
  lemma NextDelimiterSuffix(s: Bytes, delims: set<Byte>, d: nat, start: nat)
    requires d + start <= |s|
    ensures NextDelimiter(s, delims, d + start) == d + NextDelimiter(s[d..], delims, start)
  {
    var t := s[d..];
    var k := NextDelimiter(t, delims, start);
    forall m | d + start <= m < d + k ensures s[m] !in delims {
      BeforeNextDelimiter(t, delims, start, m - d);
      assert t[m - d] == s[m];
    }
    assert k < |t| ==> t[k] == s[d + k];
    NextDelimiterAt(s, delims, d + start, d + k);
  }

  lemma SliceOfSuffix(s: Bytes, d: nat, a: nat, b: nat)
    requires d + a <= d + b <= |s|
    ensures s[d..][a..b] == s[d + a..d + b]
  {
  }

  /** As many pieces from `d + start` in `s` as from `start` in `s[d..]`. */
  lemma {:induction false} SuffixLength(s: Bytes, delims: set<Byte>, d: nat, start: nat)
    requires d + start <= |s|
    ensures |SplitFrom(s, delims, d + start)| == |SplitFrom(s[d..], delims, start)|
    decreases |s| - d - start
  {
    var k := NextDelimiter(s[d..], delims, start);
    NextDelimiterSuffix(s, delims, d, start);
    SplitFromLength(s, delims, d + start);
    SplitFromLength(s[d..], delims, start);
    if k < |s| - d {
      SuffixLength(s, delims, d, k + 1);
    }
  }

  /** The `n`th piece from `d + start` in `s` is the `n`th from `start` in `s[d..]`. */
  lemma {:induction false} SuffixPiece(s: Bytes, delims: set<Byte>, d: nat, start: nat, n: nat)
    requires d + start <= |s| && n < |SplitFrom(s, delims, d + start)|
    ensures n < |SplitFrom(s[d..], delims, start)|
    ensures SplitFrom(s, delims, d + start)[n] == SplitFrom(s[d..], delims, start)[n]
    decreases |s| - d - start
  {
    var k := NextDelimiter(s[d..], delims, start);
    NextDelimiterSuffix(s, delims, d, start);
    SuffixLength(s, delims, d, start);
    SplitFromStep(s, delims, d + start, n);
    SplitFromStep(s[d..], delims, start, n);
    if n == 0 {
      SliceOfSuffix(s, d, start, k);
    } else {
      SuffixPiece(s, delims, d, k + 1, n - 1);
    }
  }

  /** Splitting from `d` is splitting what follows `d`. */
  lemma SplitFromSuffix(s: Bytes, delims: set<Byte>, d: nat)
    requires d <= |s|
    ensures SplitFrom(s, delims, d) == Split(s[d..], delims)
  {
    var a, b := SplitFrom(s, delims, d + 0), SplitFrom(s[d..], delims, 0);
    SuffixLength(s, delims, d, 0);
    forall n | 0 <= n < |a| ensures a[n] == b[n] {
      SuffixPiece(s, delims, d, 0, n);
    }
  }

  /** Splitting a delimiter-free piece followed by a delimiter peels that piece off. */
  lemma SplitCons(piece: Bytes, sep: Byte, rest: Bytes, delims: set<Byte>)
    requires sep in delims
    requires forall m :: 0 <= m < |piece| ==> piece[m] !in delims
    ensures Split(piece + [sep] + rest, delims) == [piece] + Split(rest, delims)
  {
    var s := piece + [sep] + rest;
    var p := |piece|;
    assert s[p] == sep;
    NextDelimiterAt(s, delims, 0, p);
    SplitFromUnfold(s, delims, 0);
    assert s[0..p] == piece;
    assert s[p + 1..] == rest;
    SplitFromSuffix(s, delims, p + 1);
  }

  /** Splitting a delimiter-free string gives just that string. */
  lemma SplitNoDelimiter(s: Bytes, delims: set<Byte>)
    requires forall m :: 0 <= m < |s| ==> s[m] !in delims
    ensures Split(s, delims) == [s]
  {
    NextDelimiterAt(s, delims, 0, |s|);
    SplitFromUnfold(s, delims, 0);
    assert s[0..] == s;
  }
}
