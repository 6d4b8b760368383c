/** The functions of Go's `strings` package that the services and handlers call. A Go string is
    read here as its sequence of Unicode code points. */
module Text {

  /** `unicode.IsSpace`: the Latin-1 spaces and the rest of Unicode's White_Space property. */
  predicate IsSpace(c: char) {
    c == ' ' || c == '\t' || c == '\n' || c == '\U{0B}' || c == '\U{0C}' || c == '\r'
    || c == '\U{85}' || c == '\U{A0}' || c == '\U{1680}' || ('\U{2000}' <= c <= '\U{200A}')
    || c == '\U{2028}' || c == '\U{2029}' || c == '\U{202F}' || c == '\U{205F}' || c == '\U{3000}'
  }

  predicate AllSpace(s: string) {
    forall i :: 0 <= i < |s| ==> IsSpace(s[i])
  }

  /** `strings.TrimLeftFunc(s, unicode.IsSpace)`: the longest suffix of `s` that does not start
      with a space. */
  function TrimLeadingSpace(s: string): (r: string)
    ensures |r| <= |s| && r == s[|s| - |r|..]
    ensures r == [] || !IsSpace(r[0])
    ensures forall i :: 0 <= i < |s| - |r| ==> IsSpace(s[i])
  {
    if s != [] && IsSpace(s[0]) then TrimLeadingSpace(s[1..]) else s
  }

  /** `strings.TrimRightFunc(s, unicode.IsSpace)`: the longest prefix of `s` that does not end
      with a space. */
  function TrimTrailingSpace(s: string): (r: string)
    ensures |r| <= |s| && r == s[..|r|]
    ensures r == [] || !IsSpace(r[|r| - 1])
    ensures forall i :: |r| <= i < |s| ==> IsSpace(s[i])
  {
    if s != [] && IsSpace(s[|s| - 1]) then TrimTrailingSpace(s[..|s| - 1]) else s
  }

  /** `strings.TrimSpace`. */
  function TrimSpace(s: string): (r: string)
    ensures |r| <= |s|
    ensures r == [] || (!IsSpace(r[0]) && !IsSpace(r[|r| - 1]))
  {
    TrimTrailingSpace(TrimLeadingSpace(s))
  }

  /** Lower-cases the ASCII letters and leaves every other code point alone. */
  function LowerChar(c: char): char {
    if 'A' <= c <= 'Z' then (c as int + 32) as char else c
  }

  /** Upper-cases the ASCII letters and leaves every other code point alone. */
  function UpperChar(c: char): char {
    if 'a' <= c <= 'z' then (c as int - 32) as char else c
  }

  /** `strings.ToLower`, restricted to ASCII letters. */
  function ToLower(s: string): (r: string)
    ensures |r| == |s|
    ensures forall i :: 0 <= i < |s| ==> r[i] == LowerChar(s[i])
  {
    if s == [] then [] else [LowerChar(s[0])] + ToLower(s[1..])
  }

  /** `strings.ToUpper`, restricted to ASCII letters. */
  function ToUpper(s: string): (r: string)
    ensures |r| == |s|
    ensures forall i :: 0 <= i < |s| ==> r[i] == UpperChar(s[i])
  {
    if s == [] then [] else [UpperChar(s[0])] + ToUpper(s[1..])
  }

  /** `strings.HasPrefix`. */
  predicate HasPrefix(s: string, prefix: string) {
    |prefix| <= |s| && s[..|prefix|] == prefix
  }

  /** `strings.TrimPrefix`: drops `prefix` once if `s` starts with it. */
  function TrimPrefix(s: string, prefix: string): (r: string)
    ensures HasPrefix(s, prefix) ==> prefix + r == s
    ensures !HasPrefix(s, prefix) ==> r == s
  {
    if HasPrefix(s, prefix) then s[|prefix|..] else s
  }

  /** `strings.IndexByte`: the first position of `c` in `s`, or -1. */
  function Index(s: string, c: char): (i: int)
    ensures -1 <= i < |s|
    ensures i == -1 <==> forall j :: 0 <= j < |s| ==> s[j] != c
    ensures i >= 0 ==> s[i] == c && forall j :: 0 <= j < i ==> s[j] != c
  {
    if s == [] then -1
    else if s[0] == c then 0
    else var k := Index(s[1..], c); if k == -1 then -1 else k + 1
  }

  /** `strings.SplitN(s, sep, 2)` for a one-character separator: the text before the first
      separator and the text after it, or `s` alone when there is none. */
  function SplitN2(s: string, sep: char): (parts: seq<string>)
    ensures 1 <= |parts| <= 2
    ensures |parts| == 1 <==> sep !in s
    ensures |parts| == 1 ==> parts[0] == s
    ensures |parts| == 2 ==> parts[0] + [sep] + parts[1] == s && sep !in parts[0]
  {
    var i := Index(s, sep);
    if i == -1 then [s] else [s[..i], s[i + 1..]]
  }

  /** `strings.ReplaceAll` with a one-character pattern and replacement. */
  function ReplaceAll(s: string, from: char, to: char): (r: string)
    ensures |r| == |s|
    ensures forall i :: 0 <= i < |s| ==> r[i] == if s[i] == from then to else s[i]
  {
    if s == [] then [] else [if s[0] == from then to else s[0]] + ReplaceAll(s[1..], from, to)
  }

  /** `strings.TrimLeft` with a one-character cutset: the longest suffix of `s` that does not
      start with `c`. */
  function TrimLeft(s: string, c: char): (r: string)
    ensures |r| <= |s| && r == s[|s| - |r|..]
    ensures r == [] || r[0] != c
    ensures forall i :: 0 <= i < |s| - |r| ==> s[i] == c
  {
    if s != [] && s[0] == c then TrimLeft(s[1..], c) else s
  }

  /** `strings.TrimRight` with a one-character cutset: the longest prefix of `s` that does not
      end with `c`. */
  function TrimRight(s: string, c: char): (r: string)
    ensures |r| <= |s| && r == s[..|r|]
    ensures r == [] || r[|r| - 1] != c
    ensures forall i :: |r| <= i < |s| ==> s[i] == c
  {
    if s != [] && s[|s| - 1] == c then TrimRight(s[..|s| - 1], c) else s
  }

  /** `strings.Trim` with a one-character cutset: `s` without the `c`s at either end. */
  function Trim(s: string, c: char): (r: string)
    ensures r == [] || (r[0] != c && r[|r| - 1] != c)
    ensures exists i, j :: 0 <= i <= j <= |s| && r == s[i..j]
  {
    var left := TrimLeft(s, c);
    var r := TrimRight(left, c);
    assert r == s[|s| - |left|..|s| - |left| + |r|];
    r
  }

  /** The normalisation applied to every e-mail address that enters the system:
      `strings.ToLower(strings.TrimSpace(email))`. */
  function NormalizeEmail(email: string): string {
    ToLower(TrimSpace(email))
  }

  // ---------------------------------------------------------------------------------------
  // Properties of trimming and case mapping

  lemma {:induction false} TrimLeadingSpacePadded(pre: string, s: string)
    requires AllSpace(pre)
    ensures TrimLeadingSpace(pre + s) == TrimLeadingSpace(s)
  {
    if pre != [] {
      assert (pre + s)[0] == pre[0];
      assert (pre + s)[1..] == pre[1..] + s;
      TrimLeadingSpacePadded(pre[1..], s);
    } else {
      assert pre + s == s;
    }
  }

  lemma {:induction false} TrimTrailingSpacePadded(s: string, post: string)
    requires AllSpace(post)
    ensures TrimTrailingSpace(s + post) == TrimTrailingSpace(s)
  {
    if post != [] {
      var n := |post|;
      assert (s + post)[|s + post| - 1] == post[n - 1];
      assert (s + post)[..|s + post| - 1] == s + post[..n - 1];
      TrimTrailingSpacePadded(s, post[..n - 1]);
    } else {
      assert s + post == s;
    }
  }

  /** Once the leading spaces of `s` are gone, text appended afterwards is kept as it is. */
  lemma {:induction false} TrimLeadingSpaceAppend(s: string, post: string)
    ensures TrimLeadingSpace(s) != [] ==> TrimLeadingSpace(s + post) == TrimLeadingSpace(s) + post
    ensures TrimLeadingSpace(s) == [] ==> TrimLeadingSpace(s + post) == TrimLeadingSpace(post)
  {
    if s == [] {
      assert s + post == post;
    } else {
      assert (s + post)[0] == s[0];
      if IsSpace(s[0]) {
        assert (s + post)[1..] == s[1..] + post;
        TrimLeadingSpaceAppend(s[1..], post);
      }
    }
  }

  /** Surrounding white space never changes what `strings.TrimSpace` returns. */
  lemma TrimSpacePadded(pre: string, s: string, post: string)
    requires AllSpace(pre) && AllSpace(post)
    ensures TrimSpace(pre + s + post) == TrimSpace(s)
  {
    assert pre + s + post == pre + (s + post);
    TrimLeadingSpacePadded(pre, s + post);
    TrimLeadingSpaceAppend(s, post);
    if TrimLeadingSpace(s) != [] {
      TrimTrailingSpacePadded(TrimLeadingSpace(s), post);
    } else {
      TrimLeadingSpacePadded(post, []);
      assert post + [] == post;
    }
  }

  /** A string that neither starts nor ends with white space is its own `TrimSpace`. */
  lemma TrimSpaceUnpadded(s: string)
    requires s != [] ==> !IsSpace(s[0]) && !IsSpace(s[|s| - 1])
    ensures TrimSpace(s) == s
  {
    if s != [] {
      assert TrimLeadingSpace(s) == s;
      assert TrimTrailingSpace(s) == s;
    }
  }

  lemma TrimSpaceIdempotent(s: string)
    ensures TrimSpace(TrimSpace(s)) == TrimSpace(s)
  {
    var r := TrimSpace(s);
    assert TrimLeadingSpace(r) == r;
  }

  lemma LowerCharKeepsSpace(c: char)
    ensures IsSpace(LowerChar(c)) <==> IsSpace(c)
  {
  }

  lemma {:induction false} ToLowerAppend(a: string, b: string)
    ensures ToLower(a + b) == ToLower(a) + ToLower(b)
    decreases |a|
  {
    if a == [] {
      assert a + b == b;
    } else {
      assert (a + b)[1..] == a[1..] + b;
      ToLowerAppend(a[1..], b);
    }
  }

  /** Lower-casing and trimming commute, because lower-casing never turns a space into a
      non-space or back. */
  lemma {:induction false} ToLowerTrimLeading(s: string)
    ensures ToLower(TrimLeadingSpace(s)) == TrimLeadingSpace(ToLower(s))
  {
    if s != [] {
      LowerCharKeepsSpace(s[0]);
      assert ToLower(s)[1..] == ToLower(s[1..]);
      if IsSpace(s[0]) {
        ToLowerTrimLeading(s[1..]);
      }
    }
  }

  lemma {:induction false} ToLowerTrimTrailing(s: string)
    ensures ToLower(TrimTrailingSpace(s)) == TrimTrailingSpace(ToLower(s))
  {
    if s != [] {
      var n := |s|;
      LowerCharKeepsSpace(s[n - 1]);
      assert ToLower(s)[..n - 1] == ToLower(s[..n - 1]);
      if IsSpace(s[n - 1]) {
        ToLowerTrimTrailing(s[..n - 1]);
      }
    }
  }

  lemma ToLowerTrimSpace(s: string)
    ensures ToLower(TrimSpace(s)) == TrimSpace(ToLower(s))
  {
    ToLowerTrimLeading(s);
    ToLowerTrimTrailing(TrimLeadingSpace(s));
  }

  lemma ToLowerIdempotent(s: string)
    ensures ToLower(ToLower(s)) == ToLower(s)
  {
  }

  /** Upper-casing first and then lower-casing gives the same result as lower-casing alone: the
      two spellings differ only in case. */
  lemma ToLowerIgnoresUpper(s: string)
    ensures ToLower(ToUpper(s)) == ToLower(s)
  {
  }

  /** Normalising an address twice is the same as normalising it once. */
  lemma NormalizeEmailIdempotent(email: string)
    ensures NormalizeEmail(NormalizeEmail(email)) == NormalizeEmail(email)
  {
    var t := TrimSpace(email);
    ToLowerTrimSpace(ToLower(t));
    ToLowerTrimSpace(t);
    TrimSpaceIdempotent(email);
    ToLowerIdempotent(t);
  }

  /** Two addresses that differ only in ASCII case and in surrounding white space normalise to
      the same address. */
  lemma NormalizeEmailCanonical(pre: string, typed: string, post: string, email: string)
    requires AllSpace(pre) && AllSpace(post)
    requires ToLower(typed) == ToLower(email)
    ensures NormalizeEmail(pre + typed + post) == NormalizeEmail(email)
  {
    TrimSpacePadded(pre, typed, post);
    ToLowerTrimSpace(typed);
    ToLowerTrimSpace(email);
  }
}
