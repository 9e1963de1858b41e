/**
 * The Python string operations the core relies on, over ASCII text:
 * `str.strip()`, `str.title()`, `str.startswith()`, and the "text after the
 * last separator" shared by `os.path.basename` and `str.rpartition(sep)[2]`.
 */
module Text {

  /** The whitespace `str.strip()` removes from a Python 2 byte string: space, \t, \n, \r, \v and \f. */
  predicate IsSpace(c: char)
  {
    c == ' ' || c == '\t' || c == '\n' || c == '\r' || c == '\U{B}' || c == '\U{C}'
  }

  function LeadingSpaces(s: string): (n: nat)
    ensures n <= |s|
    ensures forall i :: 0 <= i < n ==> IsSpace(s[i])
    ensures n < |s| ==> !IsSpace(s[n])
  {
    if s != [] && IsSpace(s[0]) then 1 + LeadingSpaces(s[1..]) else 0
  }

  function TrailingSpaces(s: string): (n: nat)
    ensures n <= |s|
    ensures forall i :: |s| - n <= i < |s| ==> IsSpace(s[i])
    ensures n < |s| ==> !IsSpace(s[|s| - 1 - n])
  {
    if s != [] && IsSpace(s[|s| - 1]) then 1 + TrailingSpaces(s[..|s| - 1]) else 0
  }

  /**
   * `s.strip()`: the part of `s` left once the whitespace on both ends is
   * removed. It is empty exactly when `s` is all whitespace, it neither
   * starts nor ends with whitespace, and everything cut off is whitespace.
   */
  function Strip(s: string): (r: string)
    ensures r == "" <==> forall i :: 0 <= i < |s| ==> IsSpace(s[i])
    ensures r != "" ==> !IsSpace(r[0]) && !IsSpace(r[|r| - 1])
    ensures LeadingSpaces(s) + |r| <= |s| && r == s[LeadingSpaces(s)..LeadingSpaces(s) + |r|]
    ensures forall i :: 0 <= i < |s| && !(LeadingSpaces(s) <= i < LeadingSpaces(s) + |r|) ==> IsSpace(s[i])
  {
    var a := LeadingSpaces(s);
    if a == |s| then ""
    else
      s[a..|s| - TrailingSpaces(s)]
  }

  lemma {:induction false} StripIdempotent(s: string)
    ensures Strip(Strip(s)) == Strip(s)
  {
    var r := Strip(s);
    if r != "" {
      assert LeadingSpaces(r) == 0;
      assert TrailingSpaces(r) == 0;
    }
  }

  /** `s.startswith(prefix)` */
  predicate StartsWith(s: string, prefix: string)
  {
    |prefix| <= |s| && s[..|prefix|] == prefix
  }

  /** The index of the last `sep` in `s`, or -1 when there is none. */
  function LastIndex(s: string, sep: char): (k: int)
    ensures -1 <= k < |s|
    ensures k >= 0 ==> s[k] == sep
    ensures forall i :: k < i < |s| ==> s[i] != sep
  {
    if s == [] then -1
    else if s[|s| - 1] == sep then |s| - 1
    else LastIndex(s[..|s| - 1], sep)
  }

  /**
   * The text after the last `sep` in `s`, or all of `s` when it holds no
   * `sep`: `os.path.basename` for `sep == '/'`, `s.rpartition(sep)[2]` in
   * general. The result is the longest suffix of `s` free of `sep`.
   */
  function AfterLast(s: string, sep: char): (r: string)
    ensures forall i :: 0 <= i < |r| ==> r[i] != sep
    ensures |r| <= |s| && r == s[|s| - |r|..]
    ensures |r| < |s| ==> s[|s| - |r| - 1] == sep
  {
    s[LastIndex(s, sep) + 1..]
  }

  predicate IsUpper(c: char) { 'A' <= c <= 'Z' }
  predicate IsLower(c: char) { 'a' <= c <= 'z' }
  predicate IsCased(c: char) { IsUpper(c) || IsLower(c) }

  function ToUpper(c: char): char
  {
    if IsLower(c) then (c as int - 32) as char else c
  }

  function ToLower(c: char): char
  {
    if IsUpper(c) then (c as int + 32) as char else c
  }

  /** Whether the cased character at `i` begins a word for `str.title()`. */
  predicate StartsWord(s: string, i: nat)
    requires i < |s|
  {
    i == 0 || !IsCased(s[i - 1])
  }

  function TitleChar(c: char, afterCased: bool): (r: char)
    ensures !IsCased(c) ==> r == c
    ensures IsCased(c) ==> IsCased(r) && ToLower(r) == ToLower(c) && (IsUpper(r) <==> !afterCased)
  {
    if !IsCased(c) then c else if afterCased then ToLower(c) else ToUpper(c)
  }

  function TitleFrom(s: string, afterCased: bool): (r: string)
    ensures |r| == |s|
    ensures forall i :: 0 <= i < |s| ==>
      r[i] == TitleChar(s[i], if i == 0 then afterCased else IsCased(s[i - 1]))
  {
    if s == [] then [] else [TitleChar(s[0], afterCased)] + TitleFrom(s[1..], IsCased(s[0]))
  }

  /**
   * `s.title()`: every cased character that begins a word is upper case,
   * every other cased character lower case, and the other characters are
   * left alone.
   */
  function Title(s: string): (r: string)
    ensures |r| == |s|
    ensures forall i :: 0 <= i < |s| && !IsCased(s[i]) ==> r[i] == s[i]
    ensures forall i :: 0 <= i < |s| && IsCased(s[i]) ==>
      IsCased(r[i]) && ToLower(r[i]) == ToLower(s[i]) && (IsUpper(r[i]) <==> StartsWord(s, i))
  {
    var r := TitleFrom(s, false);
    assert forall i :: 0 <= i < |s| ==> r[i] == TitleChar(s[i], !StartsWord(s, i));
    r
  }

  lemma {:induction false} TitleIdempotent(s: string)
    ensures Title(Title(s)) == Title(s)
  {
    var t := Title(s);
    var u := Title(t);
    forall i | 0 <= i < |s|
      ensures u[i] == t[i]
    {
      if IsCased(s[i]) {
        assert i > 0 ==> (IsCased(t[i - 1]) <==> IsCased(s[i - 1]));
        assert StartsWord(t, i) <==> StartsWord(s, i);
      }
    }
  }
}
