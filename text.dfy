/** Character and string utilities shared by the model: the two lower-case
    foldings the application mixes (Python's `str.lower` and SQLite's built-in
    `LOWER()`), substring search, Python's `str.strip`, the binary string order
    used by `ORDER BY` and `sorted`, and decimal rendering of slot numbers. */
module Text {

  // ---------------------------------------------------------------------------
  // Case folding
  // ---------------------------------------------------------------------------

  /** SQLite's built-in lower(): only the 26 ASCII capitals are folded. */
  function SqlLowerChar(c: char): char {
    if 'A' <= c <= 'Z' then (c as int + 32) as char else c
  }

  /** Python's str.lower on one character, for the ASCII capitals and
      the Cyrillic capitals U+0400..U+042F (the alphabet the application's data
      is written in); every other character is left as it is. */
  function PyLowerChar(c: char): char {
    if 'A' <= c <= 'Z' then (c as int + 32) as char
    else if '\U{0410}' <= c <= '\U{042F}' then (c as int + 32) as char
    else if '\U{0400}' <= c <= '\U{040F}' then (c as int + 80) as char
    else c
  }

  function SqlLower(s: string): (r: string)
    ensures |r| == |s|
    ensures forall i :: 0 <= i < |s| ==> r[i] == SqlLowerChar(s[i])
  {
    seq(|s|, i requires 0 <= i < |s| => SqlLowerChar(s[i]))
  }

  function PyLower(s: string): (r: string)
    ensures |r| == |s|
    ensures forall i :: 0 <= i < |s| ==> r[i] == PyLowerChar(s[i])
  {
    seq(|s|, i requires 0 <= i < |s| => PyLowerChar(s[i]))
  }

  lemma PyLowerCharIdempotent(c: char)
    ensures PyLowerChar(PyLowerChar(c)) == PyLowerChar(c)
  {
  }

  /** Folding twice is folding once. */
  lemma PyLowerIdempotent(s: string)
    ensures PyLower(PyLower(s)) == PyLower(s)
  {
    forall i | 0 <= i < |s| ensures PyLower(PyLower(s))[i] == PyLower(s)[i] {
      PyLowerCharIdempotent(s[i]);
    }
  }

  // ---------------------------------------------------------------------------
  // Substring search (`x in y` in Python, `LIKE '%x%'` in SQL)
  // ---------------------------------------------------------------------------

  predicate OccursAt(needle: string, hay: string, i: int) {
    0 <= i && i + |needle| <= |hay| && hay[i..i + |needle|] == needle
  }

  predicate IsSubstring(needle: string, hay: string) {
    exists i :: 0 <= i <= |hay| - |needle| && OccursAt(needle, hay, i)
  }

  lemma EmptyIsSubstring(hay: string)
    ensures IsSubstring([], hay)
  {
    assert OccursAt([], hay, 0);
  }

  lemma SelfIsSubstring(s: string)
    ensures IsSubstring(s, s)
  {
    assert s[0..|s|] == s;
    assert OccursAt(s, s, 0);
  }

  /** A character-wise folding keeps every occurrence: whatever occurs in a
      string also occurs, folded, in the folded string. */
  lemma {:induction false} PyLowerKeepsSubstring(needle: string, hay: string)
    requires IsSubstring(needle, hay)
    ensures IsSubstring(PyLower(needle), PyLower(hay))
  {
    var i :| 0 <= i <= |hay| - |needle| && OccursAt(needle, hay, i);
    var n, h := PyLower(needle), PyLower(hay);
    assert h[i..i + |n|] == n by {
      forall k | 0 <= k < |n| ensures h[i..i + |n|][k] == n[k] {
        assert hay[i..i + |needle|][k] == needle[k];
      }
    }
    assert OccursAt(n, h, i);
  }

  lemma SqlLowerIdempotent(s: string)
    ensures SqlLower(SqlLower(s)) == SqlLower(s)
  {
    forall i | 0 <= i < |s| ensures SqlLower(SqlLower(s))[i] == SqlLower(s)[i] {
    }
  }

  /** The same for SQLite's ASCII-only folding. */
  lemma {:induction false} SqlLowerKeepsSubstring(needle: string, hay: string)
    requires IsSubstring(needle, hay)
    ensures IsSubstring(SqlLower(needle), SqlLower(hay))
  {
    var i :| 0 <= i <= |hay| - |needle| && OccursAt(needle, hay, i);
    var n, h := SqlLower(needle), SqlLower(hay);
    assert h[i..i + |n|] == n by {
      forall k | 0 <= k < |n| ensures h[i..i + |n|][k] == n[k] {
        assert hay[i..i + |needle|][k] == needle[k];
      }
    }
    assert OccursAt(n, h, i);
  }

  // ---------------------------------------------------------------------------
  // Python's str.strip() with no argument
  // ---------------------------------------------------------------------------

  /** The characters Python's str.isspace accepts. */
  predicate IsSpace(c: char) {
    c == ' ' || ('\t' <= c <= '\r') || ('\U{001C}' <= c <= '\U{001F}')
    || c == '\U{0085}' || c == '\U{00A0}' || c == '\U{1680}'
    || ('\U{2000}' <= c <= '\U{200A}') || c == '\U{2028}' || c == '\U{2029}'
    || c == '\U{202F}' || c == '\U{205F}' || c == '\U{3000}'
  }

  predicate IsBlank(s: string) {
    forall i :: 0 <= i < |s| ==> IsSpace(s[i])
  }

  function TrimLeft(s: string): (r: string)
    ensures |r| <= |s| && r == s[|s| - |r|..]
    ensures r == [] || !IsSpace(r[0])
    ensures IsBlank(s[..|s| - |r|])
  {
    if s == [] || !IsSpace(s[0]) then s
    else
      var r := TrimLeft(s[1..]);
      assert s[..|s| - |r|] == [s[0]] + s[1..][..|s[1..]| - |r|];
      r
  }

  function TrimRight(s: string): (r: string)
    ensures |r| <= |s| && r == s[..|r|]
    ensures r == [] || !IsSpace(r[|r| - 1])
    ensures IsBlank(s[|r|..])
  {
    if s == [] || !IsSpace(s[|s| - 1]) then s
    else
      var r := TrimRight(s[..|s| - 1]);
      assert s[|r|..] == s[..|s| - 1][|r|..] + [s[|s| - 1]];
      r
  }

  function Strip(s: string): string {
    TrimRight(TrimLeft(s))
  }

  /** `not query.strip()` holds exactly for queries made of whitespace only. */
  lemma StripEmptyIffBlank(s: string)
    ensures Strip(s) == [] <==> IsBlank(s)
  {
    var l := TrimLeft(s);
    if Strip(s) == [] {
      assert IsBlank(l[0..]);
      assert l[0..] == l;
      assert s == s[..|s| - |l|] + l;
      forall i | 0 <= i < |s| ensures IsSpace(s[i]) {
        if i < |s| - |l| {
          assert s[i] == s[..|s| - |l|][i];
        } else {
          assert s[i] == l[i - (|s| - |l|)];
        }
      }
    }
  }

  /** The stripped query neither starts nor ends with whitespace. */
  lemma StripTrimsBothEnds(s: string)
    ensures var r := Strip(s); r == [] || (!IsSpace(r[0]) && !IsSpace(r[|r| - 1]))
  {
    var l := TrimLeft(s);
    var r := TrimRight(l);
    if r != [] {
      assert r[0] == l[0];
    }
  }

  // ---------------------------------------------------------------------------
  // Binary (code point) string order, as `ORDER BY` and Python's `sorted` use
  // ---------------------------------------------------------------------------

  predicate StrLe(a: string, b: string)
    decreases |a|
  {
    |a| == 0 || (|b| > 0 && (a[0] < b[0] || (a[0] == b[0] && StrLe(a[1..], b[1..]))))
  }

  lemma {:induction false} StrLeTotal(a: string, b: string)
    ensures StrLe(a, b) || StrLe(b, a)
    decreases |a|
  {
    if |a| > 0 && |b| > 0 && a[0] == b[0] {
      StrLeTotal(a[1..], b[1..]);
    }
  }

  lemma {:induction false} StrLeTransitive(a: string, b: string, c: string)
    requires StrLe(a, b) && StrLe(b, c)
    ensures StrLe(a, c)
    decreases |a|
  {
    if |a| > 0 && a[0] == b[0] && b[0] == c[0] {
      StrLeTransitive(a[1..], b[1..], c[1..]);
    }
  }

  lemma {:induction false} StrLeAntisymmetric(a: string, b: string)
    requires StrLe(a, b) && StrLe(b, a)
    ensures a == b
    decreases |a|
  {
    if |a| > 0 {
      StrLeAntisymmetric(a[1..], b[1..]);
      assert a == [a[0]] + a[1..];
      assert b == [b[0]] + b[1..];
    }
  }

  // ---------------------------------------------------------------------------
  // Decimal rendering of a slot number (`str(i)` in `f"file_{i}"`)
  // ---------------------------------------------------------------------------

  function DigitChar(d: nat): char
    requires d < 10
  {
    ('0' as int + d) as char
  }

  function Digits(n: nat): (r: string)
    ensures |r| >= 1
    ensures n < 10 <==> |r| == 1
  {
    if n < 10 then [DigitChar(n)] else Digits(n / 10) + [DigitChar(n % 10)]
  }

  /** Different numbers render differently, so `file_i` names distinct keys. */
  lemma {:induction false} DigitsInjective(a: nat, b: nat)
    requires Digits(a) == Digits(b)
    ensures a == b
    decreases a
  {
    var da, db := Digits(a), Digits(b);
    if a >= 10 && b >= 10 {
      assert da[..|da| - 1] == Digits(a / 10);
      assert db[..|db| - 1] == Digits(b / 10);
      DigitsInjective(a / 10, b / 10);
      assert da[|da| - 1] == DigitChar(a % 10);
    } else if a < 10 && b < 10 {
      assert da[0] == DigitChar(a);
    }
  }
}
