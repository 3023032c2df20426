/**
 * The few JavaScript string primitives the application relies on, with their
 * ECMAScript semantics written out over `seq<char>`:
 *   - `String.prototype.trim`, which strips WhiteSpace and LineTerminator
 *     code points from both ends;
 *   - `String.prototype.split` with a one-character string separator.
 * A Dafny `char` is a Unicode scalar value while a JavaScript string is a
 * sequence of UTF-16 code units. Every character these primitives look for
 * lies in the Basic Multilingual Plane and no surrogate half equals one of
 * them, so the two views cut the same text even around emoji.
 */
module JsText {

  /** WhiteSpace (TAB, VT, FF, ZWNBSP and every `Zs` code point) and
      LineTerminator (LF, CR, LS, PS): the set `trim` strips and `\s` matches. */
  predicate IsJsSpace(c: char) {
    || c == '\t' || c == '\n' || c == '\U{000B}' || c == '\U{000C}' || c == '\r'
    || c == ' ' || c == '\U{00A0}' || c == '\U{1680}'
    || ('\U{2000}' <= c <= '\U{200A}')
    || c == '\U{2028}' || c == '\U{2029}' || c == '\U{202F}' || c == '\U{205F}'
    || c == '\U{3000}' || c == '\U{FEFF}'
  }

  /** Every character of `s` is white space (vacuously true of ""). */
  predicate AllSpace(s: string) {
    forall k :: 0 <= k < |s| ==> IsJsSpace(s[k])
  }

  /** `s` neither starts nor ends with white space. */
  predicate Trimmed(s: string) {
    s == "" || (!IsJsSpace(s[0]) && !IsJsSpace(s[|s| - 1]))
  }

  /** `trimStart`: the suffix left after dropping leading white space. */
  function TrimStart(s: string): (r: string)
    ensures |r| <= |s| && r == s[|s| - |r|..]
    ensures AllSpace(s[..|s| - |r|])
    ensures r == "" || !IsJsSpace(r[0])
    decreases |s|
  {
    if |s| > 0 && IsJsSpace(s[0]) then TrimStart(s[1..]) else s
  }

  /** `trimEnd`: the prefix left after dropping trailing white space. */
  function TrimEnd(s: string): (r: string)
    ensures |r| <= |s| && r == s[..|r|]
    ensures AllSpace(s[|r|..])
    ensures r == "" || !IsJsSpace(r[|r| - 1])
    decreases |s|
  {
    if |s| > 0 && IsJsSpace(s[|s| - 1]) then TrimEnd(s[..|s| - 1]) else s
  }

  /** Number of leading white-space characters `trim` removes. */
  function LeadingSpace(s: string): nat
  {
    |s| - |TrimStart(s)|
  }

  /** `s.trim()`: a contiguous slice of `s`, with only white space cut away on
      either side, that neither starts nor ends with white space. */
  function Trim(s: string): (r: string)
    ensures Trimmed(r)
    ensures LeadingSpace(s) + |r| <= |s|
    ensures r == s[LeadingSpace(s)..LeadingSpace(s) + |r|]
    ensures AllSpace(s[..LeadingSpace(s)]) && AllSpace(s[LeadingSpace(s) + |r|..])
  {
    var t := TrimStart(s);
    var r := TrimEnd(t);
    var k := LeadingSpace(s);
    assert k == |s| - |t|;
    SliceOfSuffix(s, k, t, r);
    assert AllSpace(s[..k]) && AllSpace(t[|r|..]);
    r
  }

  /** A prefix `r` of the suffix `t` of `s` that starts at `k` is the slice
      of `s` from `k`, and what follows it in `t` is what follows it in `s`. */
  lemma SliceOfSuffix(s: string, k: nat, t: string, r: string)
    requires k <= |s| && t == s[k..] && |r| <= |t| && r == t[..|r|]
    ensures k + |r| <= |s|
    ensures r == s[k..k + |r|]
    ensures s[k + |r|..] == t[|r|..]
    ensures r != "" ==> r[0] == t[0]
  {
  }

  /** `!s.trim()`: the string is blank exactly when it is all white space. */
  predicate IsBlank(s: string) {
    Trim(s) == ""
  }

  /** Reference characterisation of `trim`: whatever the padding, cutting
      white space off a string that starts and ends with non-space gives back
      that string. */
  lemma {:induction false} TrimOfPadded(a: string, m: string, b: string)
    requires AllSpace(a) && AllSpace(b) && Trimmed(m)
    ensures Trim(a + m + b) == m
  {
    if m == [] {
      assert a + m + b == a + b;
      TrimAllSpace(a + b);
    } else {
      assert a + m + b == a + (m + b);
      TrimStartOfPadded(a, m + b);
      TrimEndOfPadded(m, b);
      assert Trim(a + m + b) == TrimEnd(TrimStart(a + (m + b)));
    }
  }

  lemma TrimAllSpace(s: string)
    requires AllSpace(s)
    ensures Trim(s) == ""
  {
  }

  lemma {:induction false} TrimStartOfPadded(a: string, t: string)
    requires AllSpace(a)
    requires t == "" || !IsJsSpace(t[0])
    ensures TrimStart(a + t) == t
    decreases |a|
  {
    if a != [] {
      assert (a + t)[1..] == a[1..] + t;
      TrimStartOfPadded(a[1..], t);
    } else {
      assert a + t == t;
    }
  }

  lemma {:induction false} TrimEndOfPadded(m: string, b: string)
    requires AllSpace(b)
    requires m == "" || !IsJsSpace(m[|m| - 1])
    ensures TrimEnd(m + b) == m
    decreases |b|
  {
    if b != [] {
      assert (m + b)[..|m + b| - 1] == m + b[..|b| - 1];
      TrimEndOfPadded(m, b[..|b| - 1]);
    } else {
      assert m + b == m;
    }
  }

  /** Trimming twice is trimming once. */
  lemma TrimIdempotent(s: string)
    ensures Trim(Trim(s)) == Trim(s)
  {
    var t := Trim(s);
    assert [] + t + [] == t;
    TrimOfPadded([], t, []);
  }

  /** Blank means all white space, in both directions. */
  lemma BlankIffAllSpace(s: string)
    ensures IsBlank(s) <==> AllSpace(s)
  {
    if AllSpace(s) {
      assert s + [] + [] == s;
      TrimOfPadded(s, [], []);
    }
  }

  /** Number of occurrences of `c` in `s`. */
  function Count(s: string, c: char): nat
  {
    if s == [] then 0 else (if s[0] == c then 1 else 0) + Count(s[1..], c)
  }

  /** `pieces.join(d)`. */
  function Join(pieces: seq<string>, d: char): string
    requires |pieces| > 0
  {
    if |pieces| == 1 then pieces[0] else pieces[0] + [d] + Join(pieces[1..], d)
  }

  /** Index of the first `d` in `s`, or |s| when there is none. */
  function IndexOf(s: string, d: char): (k: nat)
    ensures k <= |s|
    ensures d !in s[..k]
    ensures k < |s| ==> s[k] == d
  {
    if s == [] || s[0] == d then 0
    else
      var k := 1 + IndexOf(s[1..], d);
      assert s[..k] == [s[0]] + s[1..][..k - 1];
      k
  }

  /** `s.split(d)` for a one-character separator `d`: the pieces between
      consecutive occurrences of `d`; "" splits into [""]. */
  function Split(s: string, d: char): (pieces: seq<string>)
    ensures |pieces| >= 1
    ensures forall i :: 0 <= i < |pieces| ==> d !in pieces[i]
    ensures Join(pieces, d) == s
    decreases |s|
  {
    var k := IndexOf(s, d);
    if k == |s| then
      assert s[..k] == s;
      [s]
    else
      var rest := Split(s[k + 1..], d);
      assert s == s[..k] + [d] + s[k + 1..];
      [s[..k]] + rest
  }

  /** There is one more piece than there are separators. */
  lemma {:induction false} SplitCount(s: string, d: char)
    ensures |Split(s, d)| == Count(s, d) + 1
    decreases |s|
  {
    var k := IndexOf(s, d);
    CountPrefixFree(s, d, k);
    if k < |s| {
      SplitCount(s[k + 1..], d);
      assert s[k..][1..] == s[k + 1..];
    }
  }

  /** The characters before the first `d` contribute nothing to the count. */
  lemma {:induction false} CountPrefixFree(s: string, d: char, k: nat)
    requires k <= |s| && d !in s[..k]
    ensures Count(s, d) == Count(s[k..], d)
    decreases k
  {
    if k > 0 {
      assert s[0] == s[..k][0];
      assert s[1..][..k - 1] == s[..k][1..];
      CountPrefixFree(s[1..], d, k - 1);
      assert s[1..][k - 1..] == s[k..];
    }
  }

  /** Splitting undoes joining: the pieces are recovered exactly, so `Split`
      is the only decomposition of `s` into separator-free pieces. */
  lemma {:induction false} SplitJoin(pieces: seq<string>, d: char)
    requires |pieces| > 0
    requires forall i :: 0 <= i < |pieces| ==> d !in pieces[i]
    ensures Split(Join(pieces, d), d) == pieces
    decreases |pieces|
  {
    var s := Join(pieces, d);
    var p := pieces[0];
    if |pieces| == 1 {
      SplitNoDelimiter(p, d);
    } else {
      var tail := Join(pieces[1..], d);
      assert s == p + ([d] + tail);
      SplitAtFirst(p, tail, d);
      SplitJoin(pieces[1..], d);
      assert pieces == [p] + pieces[1..];
    }
  }

  /** Splitting at the first separator: the piece before it, then the split
      of what follows. */
  lemma SplitAtFirst(p: string, tail: string, d: char)
    requires d !in p
    ensures Split(p + ([d] + tail), d) == [p] + Split(tail, d)
  {
    var s := p + ([d] + tail);
    IndexOfAt(p, [d] + tail, d);
    assert s[..|p|] == p;
    assert s[|p| + 1..] == tail;
  }

  lemma IndexOfAbsent(s: string, d: char)
    requires d !in s
    ensures IndexOf(s, d) == |s|
  {
  }

  /** A string without the separator splits into itself alone. */
  lemma SplitNoDelimiter(s: string, d: char)
    requires d !in s
    ensures Split(s, d) == [s]
  {
    IndexOfAbsent(s, d);
  }

  lemma IndexOfAt(p: string, t: string, d: char)
    requires d !in p && t != [] && t[0] == d
    ensures IndexOf(p + t, d) == |p|
  {
    assert (p + t)[..|p|] == p;
  }
}
