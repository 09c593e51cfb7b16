/** String and sequence helpers standing in for the JavaScript built-ins the
    report wizard relies on: `Array.prototype.join`, number-to-string
    conversion in template literals, `String.prototype.trim` and
    `[...new Set(xs)]`. */
module Text {

  // ---------------------------------------------------------------------
  // Array.prototype.join
  // ---------------------------------------------------------------------

  /** `parts.join(sep)`: the parts in order, with `sep` between neighbours. */
  function Join(parts: seq<string>, sep: string): (r: string)
    ensures |parts| == 0 ==> r == ""
    ensures |parts| == 1 ==> r == parts[0]
    ensures |parts| >= 1 ==> |parts[0]| <= |r| && r[..|parts[0]|] == parts[0]
    ensures |parts| >= 2 ==> r[|parts[0]|..] == sep + Join(parts[1..], sep)
  {
    if |parts| == 0 then ""
    else if |parts| == 1 then parts[0]
    else parts[0] + sep + Join(parts[1..], sep)
  }

  /** Two parts joined: the first, the separator, the second. */
  lemma JoinPair(a: string, b: string, sep: string)
    ensures Join([a, b], sep) == a + sep + b
  {
    assert [a, b][1..] == [b];
  }

  // ---------------------------------------------------------------------
  // Decimal rendering of a page number (`Trang ${pageNum}`)
  // ---------------------------------------------------------------------

  predicate IsDigit(c: char) { '0' <= c <= '9' }

  function DigitChar(d: nat): (c: char)
    requires d < 10
    ensures IsDigit(c) && c as int - '0' as int == d
  {
    (d + '0' as int) as char
  }

  /** The shortest decimal numeral of `n`, as JavaScript prints a
      non-negative integer. */
  function NatToString(n: nat): (s: string)
    ensures |s| >= 1
    ensures forall i :: 0 <= i < |s| ==> IsDigit(s[i])
    ensures |s| > 1 ==> s[0] != '0'
    decreases n
  {
    if n < 10 then [DigitChar(n)] else NatToString(n / 10) + [DigitChar(n % 10)]
  }

  /** Reads back a string of decimal digits. */
  function DigitsValue(s: string): nat
    requires forall i :: 0 <= i < |s| ==> IsDigit(s[i])
  {
    if s == [] then 0
    else
      var last := s[|s| - 1];
      assert IsDigit(last);
      DigitsValue(s[..|s| - 1]) * 10 + (last as int - '0' as int)
  }

  /** Rendering a page number loses nothing: it can be read back. */
  lemma {:induction false} NatToStringRoundTrip(n: nat)
    ensures DigitsValue(NatToString(n)) == n
    decreases n
  {
    var s := NatToString(n);
    if n >= 10 {
      NatToStringRoundTrip(n / 10);
      assert s[..|s| - 1] == NatToString(n / 10);
    }
  }

  /** Distinct page numbers are rendered as distinct numerals. */
  lemma NatToStringInjective(m: nat, n: nat)
    requires NatToString(m) == NatToString(n)
    ensures m == n
  {
    NatToStringRoundTrip(m);
    NatToStringRoundTrip(n);
  }

  // ---------------------------------------------------------------------
  // String.prototype.trim
  // ---------------------------------------------------------------------

  /** ECMAScript WhiteSpace and LineTerminator code points, the characters
      `trim()` removes. */
  predicate IsWhitespace(c: char)
  {
    || c == '\t' || c == '\n' || c == '\U{B}' || c == '\U{C}' || c == '\r'
    || c == ' ' || c == '\U{A0}' || c == '\U{1680}'
    || ('\U{2000}' <= c <= '\U{200A}')
    || c == '\U{2028}' || c == '\U{2029}' || c == '\U{202F}' || c == '\U{205F}'
    || c == '\U{3000}' || c == '\U{FEFF}'
  }

  predicate AllWhitespace(s: string)
  {
    forall i :: 0 <= i < |s| ==> IsWhitespace(s[i])
  }

  /** The number of whitespace characters `s` starts with. */
  function LeadingWhitespace(s: string): (n: nat)
    ensures n <= |s| && AllWhitespace(s[..n])
    ensures n < |s| ==> !IsWhitespace(s[n])
  {
    if s != [] && IsWhitespace(s[0]) then
      var m := LeadingWhitespace(s[1..]);
      assert forall i :: 1 <= i < m + 1 ==> s[i] == s[1..][..m][i - 1];
      m + 1
    else 0
  }

  /** The number of whitespace characters `s` ends with. */
  function TrailingWhitespace(s: string): (n: nat)
    ensures n <= |s| && AllWhitespace(s[|s| - n..])
    ensures n < |s| ==> !IsWhitespace(s[|s| - n - 1])
  {
    if s != [] && IsWhitespace(s[|s| - 1]) then
      var m := TrailingWhitespace(s[..|s| - 1]);
      assert forall i :: |s| - m - 1 <= i < |s| - 1 ==> s[i] == s[..|s| - 1][i];
      m + 1
    else 0
  }

  /** `s` without its leading whitespace. */
  function TrimStart(s: string): (r: string)
    ensures |r| <= |s| && r == s[|s| - |r|..]
    ensures AllWhitespace(s[..|s| - |r|])
    ensures r == [] || !IsWhitespace(r[0])
  {
    s[LeadingWhitespace(s)..]
  }

  /** `s` without its trailing whitespace. */
  function TrimEnd(s: string): (r: string)
    ensures |r| <= |s| && r == s[..|r|]
    ensures AllWhitespace(s[|r|..])
    ensures r == [] || !IsWhitespace(r[|r| - 1])
  {
    s[..|s| - TrailingWhitespace(s)]
  }

  /** `s.trim()`: whitespace removed at both ends. It is empty exactly
      when `s` is all whitespace. */
  function Trim(s: string): (r: string)
    ensures r == [] <==> AllWhitespace(s)
    ensures r == [] || (!IsWhitespace(r[0]) && !IsWhitespace(r[|r| - 1]))
  {
    TrimEmptyIffBlank(s);
    TrimEnd(TrimStart(s))
  }

  /** What `trim()` keeps is the infix of `s` between its leading and its
      trailing whitespace. */
  lemma TrimIsInfix(s: string)
    ensures var r := Trim(s); var k := |s| - |TrimStart(s)|;
      && k + |r| <= |s| && r == s[k..k + |r|]
      && AllWhitespace(s[..k]) && AllWhitespace(s[k + |r|..])
  {
    var k := LeadingWhitespace(s);
    var left := s[k..];
    var e := |left| - TrailingWhitespace(left);
    assert left[..e] == s[k..k + e];
    assert s[k + e..] == left[e..];
  }

  lemma TrimEmptyIffBlank(s: string)
    ensures TrimEnd(TrimStart(s)) == [] <==> AllWhitespace(s)
  {
    var left := TrimStart(s);
    var k := |s| - |left|;
    if TrimEnd(left) == [] {
      assert left == [];
      assert s == s[..k];
    } else {
      var r := TrimEnd(left);
      assert r[0] == left[0] == s[k];
    }
  }

  // ---------------------------------------------------------------------
  // [...new Set(xs)]
  // ---------------------------------------------------------------------

  predicate Distinct<T(==)>(s: seq<T>)
  {
    forall i, j :: 0 <= i < j < |s| ==> s[i] != s[j]
  }

  /** The elements of `s` without repetitions, each at its first occurrence
      (a JavaScript `Set` iterates in insertion order). */
  function Dedup<T(==,!new)>(s: seq<T>): (r: seq<T>)
    ensures Distinct(r)
    ensures forall x :: x in r <==> x in s
    ensures |r| <= |s|
  {
    if s == [] then []
    else
      var d := Dedup(s[..|s| - 1]);
      var x := s[|s| - 1];
      assert s == s[..|s| - 1] + [x];
      if x in d then d else d + [x]
  }

  /** Appending an element already seen leaves the de-duplicated sequence
      as it was; appending a new one adds it at the end. */
  lemma DedupSnoc<T(!new)>(s: seq<T>, x: T)
    ensures Dedup(s + [x]) == if x in s then Dedup(s) else Dedup(s) + [x]
  {
    assert (s + [x])[..|s + [x]| - 1] == s;
  }

  /** The first element of `s` always heads its de-duplication. */
  lemma {:induction false} DedupHead<T(!new)>(s: seq<T>)
    requires s != []
    ensures Dedup(s) != [] && Dedup(s)[0] == s[0]
  {
    if |s| > 1 {
      DedupHead(s[..|s| - 1]);
    }
  }
}
