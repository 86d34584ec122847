/** The two JavaScript string operations the validation schemas rely on:
    `.length`, which counts UTF-16 code units, and `String.prototype.trim`,
    which removes WhiteSpace and LineTerminator code points (sections 12.2,
    12.3 and 22.1.3.32 of ECMA-262, 2022 edition) from both ends. */
module JsString {

  /** Number of UTF-16 code units needed for `s`: code points above U+FFFF
      take a surrogate pair. */
  function Utf16Length(s: string): (n: nat)
    ensures |s| <= n <= 2 * |s|
    ensures (forall i :: 0 <= i < |s| ==> s[i] as int <= 0xFFFF) ==> n == |s|
  {
    if s == [] then 0 else (if s[0] as int > 0xFFFF then 2 else 1) + Utf16Length(s[1..])
  }

  /** WhiteSpace (TAB, VT, FF, ZWNBSP, SP, NBSP and the Zs category) and
      LineTerminator (LF, CR, LS, PS). */
  predicate IsJsWhitespace(c: char) {
    var n := c as int;
    || n == 0x0009 || n == 0x000B || n == 0x000C || n == 0x0020 || n == 0x00A0 || n == 0xFEFF
    || n == 0x000A || n == 0x000D || n == 0x2028 || n == 0x2029
    || n == 0x1680 || (0x2000 <= n <= 0x200A) || n == 0x202F || n == 0x205F || n == 0x3000
  }

  predicate AllWhitespace(s: string) {
    forall i :: 0 <= i < |s| ==> IsJsWhitespace(s[i])
  }

  /** Where the white space that starts at position `i` of `s` ends. */
  function SkipLeading(s: string, i: nat): (j: nat)
    requires i <= |s|
    ensures i <= j <= |s|
    ensures forall k :: i <= k < j ==> IsJsWhitespace(s[k])
    ensures j < |s| ==> !IsJsWhitespace(s[j])
    decreases |s| - i
  {
    if i < |s| && IsJsWhitespace(s[i]) then SkipLeading(s, i + 1) else i
  }

  /** Where the white space that ends at position `j` of `s` starts, looking
      no further back than `lo`. */
  function SkipTrailing(s: string, lo: nat, j: nat): (e: nat)
    requires lo <= j <= |s|
    ensures lo <= e <= j
    ensures forall k :: e <= k < j ==> IsJsWhitespace(s[k])
    ensures lo < e ==> !IsJsWhitespace(s[e - 1])
    decreases j
  {
    if lo < j && IsJsWhitespace(s[j - 1]) then SkipTrailing(s, lo, j - 1) else j
  }

  /** `String.prototype.trim`: the part of `s` between its leading and its
      trailing white space. */
  function Trim(s: string): string {
    var i := SkipLeading(s, 0);
    s[i..SkipTrailing(s, i, |s|)]
  }

  /** A run of white space from `i` up to a non-white-space character (or
      the end) is skipped exactly. */
  lemma {:induction false} SkipLeadingStopsAt(s: string, i: nat, j: nat)
    requires i <= j <= |s|
    requires forall k :: i <= k < j ==> IsJsWhitespace(s[k])
    requires j < |s| ==> !IsJsWhitespace(s[j])
    ensures SkipLeading(s, i) == j
    decreases j - i
  {
    if i < j {
      SkipLeadingStopsAt(s, i + 1, j);
    }
  }

  lemma {:induction false} SkipTrailingStopsAt(s: string, lo: nat, e: nat, j: nat)
    requires lo <= e <= j <= |s|
    requires forall k :: e <= k < j ==> IsJsWhitespace(s[k])
    requires lo < e ==> !IsJsWhitespace(s[e - 1])
    ensures SkipTrailing(s, lo, j) == e
    decreases j
  {
    if e < j {
      SkipTrailingStopsAt(s, lo, e, j - 1);
    }
  }

  /** The trimmed string is a contiguous slice of the input, and only white
      space is cut off before and after it. */
  lemma TrimCutsWhitespace(s: string)
    ensures exists i, j :: 0 <= i <= j <= |s| && Trim(s) == s[i..j] && AllWhitespace(s[..i]) && AllWhitespace(s[j..])
  {
    var i := SkipLeading(s, 0);
    var j := SkipTrailing(s, i, |s|);
    assert AllWhitespace(s[..i]) && AllWhitespace(s[j..]);
  }

  /** The trimmed string neither starts nor ends with white space. */
  lemma TrimEnds(s: string)
    ensures Trim(s) != [] ==> !IsJsWhitespace(Trim(s)[0]) && !IsJsWhitespace(Trim(s)[|Trim(s)| - 1])
  {
  }

  lemma WhitespaceBefore(a: string, m: string, b: string)
    requires AllWhitespace(a)
    ensures forall k :: 0 <= k < |a| ==> IsJsWhitespace((a + m + b)[k])
  {
    forall k | 0 <= k < |a| ensures IsJsWhitespace((a + m + b)[k]) {
      assert (a + m + b)[k] == a[k];
    }
  }

  lemma WhitespaceAfter(a: string, m: string, b: string)
    requires AllWhitespace(b)
    ensures forall k :: |a| + |m| <= k < |a + m + b| ==> IsJsWhitespace((a + m + b)[k])
  {
    forall k | |a| + |m| <= k < |a + m + b| ensures IsJsWhitespace((a + m + b)[k]) {
      assert (a + m + b)[k] == b[k - |a| - |m|];
    }
  }

  /** Trim characterised: whenever `s` is white space, then `m`, then white
      space, and `m` is empty or neither starts nor ends with white space,
      trimming `s` gives `m`. */
  lemma TrimOfDecomposition(a: string, m: string, b: string)
    requires AllWhitespace(a) && AllWhitespace(b)
    requires m != [] ==> !IsJsWhitespace(m[0]) && !IsJsWhitespace(m[|m| - 1])
    ensures Trim(a + m + b) == m
  {
    var s := a + m + b;
    WhitespaceBefore(a, m, b);
    WhitespaceAfter(a, m, b);
    if m == [] {
      SkipLeadingStopsAt(s, 0, |s|);
    } else {
      assert s[|a|] == m[0] && s[|a| + |m| - 1] == m[|m| - 1];
      SkipLeadingStopsAt(s, 0, |a|);
      SkipTrailingStopsAt(s, |a|, |a| + |m|, |s|);
      assert s[|a|..|a| + |m|] == m;
    }
  }

  /** A string is trimmed to nothing exactly when it is all white space. */
  lemma TrimEmptyIffWhitespace(s: string)
    ensures Trim(s) == [] <==> AllWhitespace(s)
  {
    if AllWhitespace(s) {
      SkipLeadingStopsAt(s, 0, |s|);
    } else {
      var k :| 0 <= k < |s| && !IsJsWhitespace(s[k]);
      assert SkipLeading(s, 0) <= k < SkipTrailing(s, SkipLeading(s, 0), |s|);
    }
  }

  /** Trimming twice is trimming once. */
  lemma TrimIdempotent(s: string)
    ensures Trim(Trim(s)) == Trim(s)
  {
    TrimOfDecomposition([], Trim(s), []);
    assert [] + Trim(s) + [] == Trim(s);
  }

  lemma WhitespaceAppend(x: string, y: string)
    requires AllWhitespace(x) && AllWhitespace(y)
    ensures AllWhitespace(x + y)
  {
    forall k | 0 <= k < |x + y| ensures IsJsWhitespace((x + y)[k]) {
      if k < |x| {
        assert (x + y)[k] == x[k];
      } else {
        assert (x + y)[k] == y[k - |x|];
      }
    }
  }

  lemma Regroup<T>(p: seq<T>, s: seq<T>, q: seq<T>, i: nat, j: nat)
    requires i <= j <= |s|
    ensures p + s + q == (p + s[..i]) + s[i..j] + (s[j..] + q)
  {
    assert s == s[..i] + s[i..j] + s[j..];
  }

  /** White space added at either end is trimmed away again. */
  lemma TrimOfPadded(pad1: string, s: string, pad2: string)
    requires AllWhitespace(pad1) && AllWhitespace(pad2)
    ensures Trim(pad1 + s + pad2) == Trim(s)
  {
    var i := SkipLeading(s, 0);
    var j := SkipTrailing(s, i, |s|);
    assert AllWhitespace(s[..i]) && AllWhitespace(s[j..]);
    WhitespaceAppend(pad1, s[..i]);
    WhitespaceAppend(s[j..], pad2);
    Regroup(pad1, s, pad2, i, j);
    TrimOfDecomposition(pad1 + s[..i], s[i..j], s[j..] + pad2);
  }
}
