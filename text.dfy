/**
  The JavaScript string operations the pages rely on: `length`, `trim`,
  `toLowerCase`, `toUpperCase`, `includes` and `split` on a one-character
  separator.
  Case mapping is ASCII only; `trim` removes exactly the ECMAScript
  WhiteSpace and LineTerminator code points.
 */
module Text {

  /** The code points `String.prototype.trim` strips (ECMA-262, WhiteSpace and LineTerminator). */
  predicate IsWhitespace(c: char) {
    c == '\t' || c == '\n' || c == '\U{000B}' || c == '\U{000C}' || c == '\r' || c == ' '
    || c == '\U{00A0}' || c == '\U{1680}' || ('\U{2000}' <= c <= '\U{200A}')
    || c == '\U{2028}' || c == '\U{2029}' || c == '\U{202F}' || c == '\U{205F}'
    || c == '\U{3000}' || c == '\U{FEFF}'
  }

  ghost predicate AllWhitespace(s: string) {
    forall i :: 0 <= i < |s| ==> IsWhitespace(s[i])
  }

  /** `s.trimStart()`: the suffix left after dropping leading whitespace. */
  function TrimStart(s: string): (r: string)
    ensures |r| <= |s| && r == s[|s| - |r|..]
    ensures forall i :: 0 <= i < |s| - |r| ==> IsWhitespace(s[i])
    ensures r != [] ==> !IsWhitespace(r[0])
  {
    if s != [] && IsWhitespace(s[0]) then TrimStart(s[1..]) else s
  }

  /** `s.trimEnd()`: the prefix left after dropping trailing whitespace. */
  function TrimEnd(s: string): (r: string)
    ensures |r| <= |s| && r == s[..|r|]
    ensures forall i :: |r| <= i < |s| ==> IsWhitespace(s[i])
    ensures r != [] ==> !IsWhitespace(r[|r| - 1])
  {
    if s != [] && IsWhitespace(s[|s| - 1]) then TrimEnd(s[..|s| - 1]) else s
  }

  /** `s.trim()`. */
  function Trim(s: string): string {
    TrimEnd(TrimStart(s))
  }

  /** `!s.trim()`: the string is empty once trimmed. */
  predicate IsBlank(s: string) {
    Trim(s) == ""
  }

  /** A string is blank exactly when every one of its characters is whitespace. */
  lemma BlankIffAllWhitespace(s: string)
    ensures IsBlank(s) <==> AllWhitespace(s)
  {
    var t := TrimStart(s);
    if !IsBlank(s) {
      var r := Trim(s);
      assert r != [] && !IsWhitespace(r[0]);
      assert r[0] == t[0] == s[|s| - |t|];
    }
  }

  /** A trimmed string neither starts nor ends with whitespace. */
  lemma TrimHasNoOuterWhitespace(s: string)
    ensures Trim(s) != [] ==> !IsWhitespace(Trim(s)[0]) && !IsWhitespace(Trim(s)[|Trim(s)| - 1])
  {
    var t := TrimStart(s);
    var r := TrimEnd(t);
    if r != [] {
      assert r[0] == t[0];
    }
  }

  /**
    `s.length`: JavaScript strings count UTF-16 code units, so a character
    outside the Basic Multilingual Plane (above U+FFFF) counts twice.
   */
  function Utf16Length(s: string): (n: nat)
    ensures |s| <= n <= 2 * |s|
    ensures (forall i :: 0 <= i < |s| ==> s[i] as int <= 0xFFFF) ==> n == |s|
  {
    if s == [] then 0 else (if s[0] as int > 0xFFFF then 2 else 1) + Utf16Length(s[1..])
  }

  function LowerChar(c: char): char {
    if 'A' <= c <= 'Z' then (c as int + 32) as char else c
  }

  function UpperChar(c: char): char {
    if 'a' <= c <= 'z' then (c as int - 32) as char else c
  }

  /** `s.toLowerCase()` on ASCII letters. */
  function Lower(s: string): (r: string)
    ensures |r| == |s|
    ensures forall i :: 0 <= i < |s| ==> r[i] == LowerChar(s[i])
  {
    seq(|s|, i requires 0 <= i < |s| => LowerChar(s[i]))
  }

  /** `s.toUpperCase()` on ASCII letters. */
  function Upper(s: string): (r: string)
    ensures |r| == |s|
    ensures forall i :: 0 <= i < |s| ==> r[i] == UpperChar(s[i])
  {
    seq(|s|, i requires 0 <= i < |s| => UpperChar(s[i]))
  }

  lemma LowerIdempotent(s: string)
    ensures Lower(Lower(s)) == Lower(s)
  {
  }

  /** `k` occurs in `s` at position `i`. */
  ghost predicate OccursAt(s: string, k: string, i: nat) {
    i + |k| <= |s| && s[i..i + |k|] == k
  }

  /**
    `s.includes(k, i)`: `k` occurs in `s` at position `i` or later. The
    first characters are compared before the slices, as a quick rejection.
   */
  predicate IncludesFrom(s: string, k: string, i: nat)
    decreases |s| - i
  {
    i + |k| <= |s| && ((|k| == 0 || (s[i] == k[0] && s[i..i + |k|] == k)) || IncludesFrom(s, k, i + 1))
  }

  /** `s.includes(k)`. */
  predicate Includes(s: string, k: string) {
    IncludesFrom(s, k, 0)
  }

  lemma {:induction false} IncludesFromIff(s: string, k: string, i: nat)
    ensures IncludesFrom(s, k, i) <==> exists j: nat :: i <= j && OccursAt(s, k, j)
    decreases |s| - i
  {
    if i + |k| <= |s| {
      IncludesFromIff(s, k, i + 1);
      if OccursAt(s, k, i) {
        if |k| > 0 {
          assert s[i] == s[i..i + |k|][0];
        }
        assert IncludesFrom(s, k, i);
      }
      if IncludesFrom(s, k, i) && !OccursAt(s, k, i) {
        assert IncludesFrom(s, k, i + 1);
      }
      if exists j: nat :: i <= j && OccursAt(s, k, j) {
        var j: nat :| i <= j && OccursAt(s, k, j);
        if j != i {
          assert i + 1 <= j;
        }
      }
    } else {
      assert forall j: nat :: i <= j ==> !OccursAt(s, k, j);
    }
  }

  /** `includes` is exactly "occurs at some position". */
  lemma IncludesIff(s: string, k: string)
    ensures Includes(s, k) <==> exists j: nat :: OccursAt(s, k, j)
  {
    IncludesFromIff(s, k, 0);
  }

  /** An occurrence at a known position is an inclusion. */
  lemma IncludesAt(s: string, k: string, i: nat)
    requires OccursAt(s, k, i)
    ensures Includes(s, k)
  {
    IncludesIff(s, k);
  }

  /** A string lacking one of the characters of `k` does not include `k`. */
  lemma MissingCharExcludes(s: string, k: string, m: nat)
    requires m < |k| && k[m] !in s
    ensures !Includes(s, k)
  {
    forall j: nat | j + |k| <= |s|
      ensures !OccursAt(s, k, j)
    {
      assert s[j..j + |k|][m] == s[j + m] && s[j + m] in s;
    }
    IncludesIff(s, k);
  }

  /**
    When the character `k[m]` occurs in `a + [c] + b` only as the `c`, the
    only place `k` could start is `|a| - m`; if it does not occur there, it
    does not occur at all.
   */
  lemma SingleAnchorExcludes(a: string, c: char, b: string, k: string, m: nat)
    requires m < |k| && k[m] == c && c !in a && c !in b
    requires |a| >= m ==> !OccursAt(a + [c] + b, k, |a| - m)
    ensures !Includes(a + [c] + b, k)
  {
    var s := a + [c] + b;
    forall j: nat | j + |k| <= |s| && j + m != |a|
      ensures !OccursAt(s, k, j)
    {
      assert s[j..j + |k|][m] == s[j + m];
      if j + m < |a| {
        assert s[j + m] == a[j + m];
      } else {
        assert s[j + m] == b[j + m - |a| - 1];
      }
    }
    IncludesIff(s, k);
  }

  /** The empty string is included in every string. */
  lemma IncludesEmpty(s: string)
    ensures Includes(s, "")
  {
  }

  /** Every string includes itself. */
  lemma IncludesSelf(s: string)
    ensures Includes(s, s)
  {
    IncludesIff(s, s);
    assert OccursAt(s, s, 0);
  }

  /** Substring inclusion is transitive. */
  lemma IncludesTransitive(a: string, b: string, c: string)
    requires Includes(c, b) && Includes(b, a)
    ensures Includes(c, a)
  {
    IncludesIff(c, b);
    IncludesIff(b, a);
    var j: nat :| OccursAt(c, b, j);
    var i: nat :| OccursAt(b, a, i);
    assert c[j + i..j + i + |a|] == a by {
      forall m | 0 <= m < |a| ensures c[j + i..j + i + |a|][m] == a[m] {
        assert c[j..j + |b|][i + m] == b[i + m];
        assert b[i..i + |a|][m] == a[m];
      }
    }
    assert OccursAt(c, a, j + i);
    IncludesIff(c, a);
  }

  /** Lower-casing both sides keeps an inclusion. */
  lemma IncludesLower(s: string, k: string)
    requires Includes(s, k)
    ensures Includes(Lower(s), Lower(k))
  {
    IncludesIff(s, k);
    var j: nat :| OccursAt(s, k, j);
    var ls, lk := Lower(s), Lower(k);
    assert ls[j..j + |k|] == lk by {
      forall m | 0 <= m < |k| ensures ls[j..j + |k|][m] == lk[m] {
        assert s[j..j + |k|][m] == k[m];
      }
    }
    assert OccursAt(ls, lk, j);
    IncludesIff(ls, lk);
  }

  /**
    `s.split(sep)` for a one-character separator: the pieces between
    separators, with an empty piece wherever two separators meet or the
    string starts or ends with one; `"".split(sep)` is `[""]`.
   */
  function Split(s: string, sep: char): (parts: seq<string>)
    ensures |parts| >= 1
    ensures forall p :: p in parts ==> sep !in p
  {
    if s == [] then [[]]
    else
      var rest := Split(s[1..], sep);
      if s[0] == sep then [[]] + rest
      else [[s[0]] + rest[0]] + rest[1..]
  }

  /** `parts.join(sep)`. */
  function JoinWith(parts: seq<string>, sep: char): string
    requires |parts| >= 1
  {
    if |parts| == 1 then parts[0] else parts[0] + [sep] + JoinWith(parts[1..], sep)
  }

  /** Splitting and joining back on the same separator gives the original string. */
  lemma {:induction false} SplitJoin(s: string, sep: char)
    ensures JoinWith(Split(s, sep), sep) == s
  {
    if s != [] {
      var rest := Split(s[1..], sep);
      SplitJoin(s[1..], sep);
      if s[0] != sep {
        var parts := Split(s, sep);
        if |rest| == 1 {
          assert parts == [[s[0]] + rest[0]];
        } else {
          assert parts[1..] == rest[1..];
          assert JoinWith(rest, sep) == rest[0] + [sep] + JoinWith(rest[1..], sep);
        }
      }
    }
  }
}
