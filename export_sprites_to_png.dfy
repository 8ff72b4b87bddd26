/**
 * The two string helpers of the sprite exporter editor tool (ExportSpritesToPng.cs):
 * `Sanitize`, which turns a sprite or texture name into a file-name stem, and `Escape`,
 * which prepares a string for a JSON string literal.  Strings are sequences of UTF-16
 * code units, as in .NET.
 */
module ExportSpritesToPng {

  /** `String.Replace` with one-character arguments: every `from` becomes `to`. */
  function ReplaceChar(s: string, from: char, to: char): (r: string)
    ensures |r| == |s|
    ensures forall i :: 0 <= i < |s| ==> r[i] == (if s[i] == from then to else s[i])
  {
    if s == [] then [] else [if s[0] == from then to else s[0]] + ReplaceChar(s[1..], from, to)
  }

  /**
   * The characters `Char.IsWhiteSpace` accepts, which is what `String.Trim()` removes:
   * U+0009..U+000D, U+0085 and the Unicode space, line and paragraph separators.
   */
  predicate IsWhiteSpace(c: char)
  {
    var n := c as int;
    (0x09 <= n <= 0x0D) || n == 0x20 || n == 0x85 || n == 0xA0 || n == 0x1680
    || (0x2000 <= n <= 0x200A) || n == 0x2028 || n == 0x2029 || n == 0x202F
    || n == 0x205F || n == 0x3000
  }

  /** `String.TrimStart()`. */
  function TrimStart(s: string): (r: string)
    ensures |r| <= |s| && r == s[|s| - |r|..]
    ensures r == [] || !IsWhiteSpace(r[0])
    ensures forall i :: 0 <= i < |s| - |r| ==> IsWhiteSpace(s[i])
  {
    if s != [] && IsWhiteSpace(s[0]) then TrimStart(s[1..]) else s
  }

  /** `String.TrimEnd()`. */
  function TrimEnd(s: string): (r: string)
    ensures |r| <= |s| && r == s[..|r|]
    ensures r == [] || !IsWhiteSpace(r[|r| - 1])
    ensures forall i :: |r| <= i < |s| ==> IsWhiteSpace(s[i])
  {
    if s != [] && IsWhiteSpace(s[|s| - 1]) then TrimEnd(s[..|s| - 1]) else s
  }

  /** `String.Trim()`: both ends. */
  function Trim(s: string): string
  {
    TrimEnd(TrimStart(s))
  }

  /** The first step of `Sanitize`: both path separators become underscores. */
  function Unseparated(name: string): (r: string)
    ensures |r| == |name|
    ensures forall i :: 0 <= i < |r| ==> r[i] != '/' && r[i] != '\\'
    ensures forall i :: 0 <= i < |r| ==> (IsWhiteSpace(r[i]) <==> IsWhiteSpace(name[i]))
  {
    ReplaceChar(ReplaceChar(name, '/', '_'), '\\', '_')
  }

  /**
   * `Sanitize(name)`: path separators become underscores, then surrounding white space goes.
   * The result holds no path separator, does not start or end in white space and is no
   * longer than the input.
   */
  function Sanitize(name: string): (r: string)
    ensures |r| <= |name|
    ensures forall i :: 0 <= i < |r| ==> r[i] != '/' && r[i] != '\\'
    ensures r == [] || (!IsWhiteSpace(r[0]) && !IsWhiteSpace(r[|r| - 1]))
  {
    var p := Unseparated(name);
    TrimCharacterised(p);
    Trim(p)
  }

  /** The number of white-space characters `Trim` cuts from the front of `s`. */
  function Leading(s: string): nat
  {
    |s| - |TrimStart(s)|
  }

  /** `Trim` cuts a maximal white-space run from each end and keeps the middle intact. */
  lemma TrimCharacterised(s: string)
    ensures var r := Trim(s); var lo := Leading(s);
      && lo + |r| <= |s|
      && r == s[lo..lo + |r|]
      && (r == [] || (!IsWhiteSpace(r[0]) && !IsWhiteSpace(r[|r| - 1])))
      && (forall i :: 0 <= i < lo ==> IsWhiteSpace(s[i]))
      && (forall i :: lo + |r| <= i < |s| ==> IsWhiteSpace(s[i]))
  {
    var t := TrimStart(s);
    var r := TrimEnd(t);
    var lo := |s| - |t|;
    assert r == s[lo..lo + |r|] by {
      assert t == s[lo..] && r == t[..|r|];
    }
    WhiteSpaceTail(s, lo, |r|);
    if r != [] {
      assert r[0] == t[0];
    }
  }

  /** White space after position `n` of `s[lo..]` is white space after `lo + n` of `s`. */
  lemma WhiteSpaceTail(s: string, lo: nat, n: nat)
    requires lo + n <= |s|
    requires forall i :: n <= i < |s| - lo ==> IsWhiteSpace(s[lo..][i])
    ensures forall i :: lo + n <= i < |s| ==> IsWhiteSpace(s[i])
  {
    forall i | lo + n <= i < |s| ensures IsWhiteSpace(s[i]) {
      assert s[lo..][i - lo] == s[i];
    }
  }

  /**
   * `Sanitize` removes ONLY surrounding white space: the result is the separator-free name
   * with the white space before position `Leading` and after the result cut away.
   */
  lemma SanitizeKeepsTheMiddle(name: string)
    ensures var p := Unseparated(name); var r := Sanitize(name); var lo := Leading(p);
      && lo + |r| <= |name|
      && r == p[lo..lo + |r|]
      && (forall i :: 0 <= i < lo ==> IsWhiteSpace(name[i]))
      && (forall i :: lo + |r| <= i < |name| ==> IsWhiteSpace(name[i]))
  {
    var p := Unseparated(name);
    TrimCharacterised(p);
  }

  /** `String.Replace` with a one-character pattern and a longer replacement. */
  function ReplaceCharBy(s: string, from: char, to: string): (r: string)
  {
    if s == [] then [] else (if s[0] == from then to else [s[0]]) + ReplaceCharBy(s[1..], from, to)
  }

  /** `Escape(s)`: backslashes are doubled first, then every quote gets a backslash. */
  function Escape(s: string): string
  {
    ReplaceCharBy(ReplaceCharBy(s, '\\', "\\\\"), '"', "\\\"")
  }

  /** How often `c` occurs in `s`. */
  function Count(s: string, c: char): nat
  {
    if s == [] then 0 else (if s[0] == c then 1 else 0) + Count(s[1..], c)
  }

  /** The JSON reading of an escaped string: a backslash makes the next character literal. */
  function Unescape(s: string): string
  {
    if |s| >= 2 && s[0] == '\\' then [s[1]] + Unescape(s[2..])
    else if s == [] then []
    else [s[0]] + Unescape(s[1..])
  }

  /** What `Escape` does to one character of its input. */
  function EscapeChar(c: char): string
  {
    if c == '\\' then "\\\\" else if c == '"' then "\\\"" else [c]
  }

  lemma {:induction false} ReplaceCharByAppend(a: string, b: string, from: char, to: string)
    ensures ReplaceCharBy(a + b, from, to) == ReplaceCharBy(a, from, to) + ReplaceCharBy(b, from, to)
  {
    if a == [] {
      assert a + b == b;
    } else {
      assert (a + b)[1..] == a[1..] + b;
      ReplaceCharByAppend(a[1..], b, from, to);
    }
  }

  /** The two passes of `Escape` act character by character. */
  lemma {:induction false} EscapeCons(s: string)
    requires s != []
    ensures Escape(s) == EscapeChar(s[0]) + Escape(s[1..])
  {
    var p := ReplaceCharBy(s[1..], '\\', "\\\\");
    assert ReplaceCharBy(s, '\\', "\\\\") == (if s[0] == '\\' then "\\\\" else [s[0]]) + p;
    ReplaceCharByAppend(if s[0] == '\\' then "\\\\" else [s[0]], p, '"', "\\\"");
  }

  /** Decoding what `Escape` produced gives back the original string. */
  lemma {:induction false} UnescapeEscape(s: string)
    ensures Unescape(Escape(s)) == s
  {
    if s != [] {
      EscapeCons(s);
      UnescapeEscape(s[1..]);
      var e := Escape(s[1..]);
      if s[0] == '\\' || s[0] == '"' {
        assert EscapeChar(s[0]) + e == ['\\', s[0]] + e;
        assert (['\\', s[0]] + e)[2..] == e;
      } else {
        assert EscapeChar(s[0]) + e == [s[0]] + e;
        assert ([s[0]] + e)[1..] == e;
      }
    }
  }

  /** Each backslash and each quote costs exactly one extra character. */
  lemma {:induction false} EscapeLength(s: string)
    ensures |Escape(s)| == |s| + Count(s, '\\') + Count(s, '"')
  {
    if s != [] {
      EscapeCons(s);
      EscapeLength(s[1..]);
    }
  }

  /** A string with nothing to escape comes through unchanged. */
  lemma {:induction false} EscapeIdentity(s: string)
    requires Count(s, '\\') == 0 && Count(s, '"') == 0
    ensures Escape(s) == s
  {
    if s != [] {
      EscapeCons(s);
      EscapeIdentity(s[1..]);
    }
  }

  /**
   * The order of the two passes matters: escaping quotes before backslashes would double
   * the backslash it just added, and a lone quote would no longer read back as a quote.
   */
  lemma QuotesFirstWouldNotRoundTrip()
    ensures var quotesFirst := ReplaceCharBy(ReplaceCharBy("\"", '"', "\\\""), '\\', "\\\\");
      Unescape(quotesFirst) != "\""
  {
    var q := ReplaceCharBy("\"", '"', "\\\"");
    assert q == "\\\"";
    assert ReplaceCharBy(q, '\\', "\\\\") == "\\\\\"";
    assert Unescape("\\\\\"") == "\\\"";
  }
}
