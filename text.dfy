/**
 * String helpers with the JavaScript meaning the application relies on:
 * `trim()` emptiness, `toLowerCase()`, `includes`, `startsWith`,
 * number-to-decimal conversion in template literals, and the slug rule
 * `toLowerCase().replace(/\s+/g, '-')`.
 */
module Text {

  /** The characters `trim()` and `\s` remove: the ECMAScript WhiteSpace set
      (tab, vertical tab, form feed, space, no-break space, the byte-order
      mark and the other space separators) and the LineTerminator set. */
  predicate IsWhitespace(c: char) {
    c == ' ' || c == '\t' || c == '\n' || c == '\r' || c == '\U{000B}' || c == '\U{000C}'
    || c == '\U{00A0}' || c == '\U{FEFF}' || c == '\U{1680}' || '\U{2000}' <= c <= '\U{200A}'
    || c == '\U{2028}' || c == '\U{2029}' || c == '\U{202F}' || c == '\U{205F}' || c == '\U{3000}'
  }

  /** `!s.trim()`: the string is empty once surrounding whitespace is removed. */
  predicate IsBlank(s: string) {
    forall i :: 0 <= i < |s| ==> IsWhitespace(s[i])
  }

  function LowerChar(c: char): (r: char)
    ensures 'A' <= c <= 'Z' ==> r as int == c as int + 32
    ensures !('A' <= c <= 'Z') ==> r == c
  {
    if 'A' <= c <= 'Z' then (c as int + 32) as char else c
  }

  /** `s.toLowerCase()` restricted to the ASCII letters. */
  function Lower(s: string): (r: string)
    ensures |r| == |s|
    ensures forall i :: 0 <= i < |s| ==> r[i] == LowerChar(s[i])
  {
    if s == [] then [] else [LowerChar(s[0])] + Lower(s[1..])
  }

  /** `s.includes(sub)`: `sub` occurs at some position of `s`. */
  predicate Contains(s: string, sub: string)
    decreases |s|
  {
    StartsWith(s, sub) || (s != [] && Contains(s[1..], sub))
  }

  /** `s.startsWith(p)`. */
  predicate StartsWith(s: string, p: string) {
    |p| <= |s| && s[..|p|] == p
  }

  /** `s.slice(0, n)` / `s.substring(0, n)` for a non-negative `n`. */
  function Take(s: string, n: nat): (r: string)
    ensures |r| == if n < |s| then n else |s|
    ensures r <= s
  {
    if n < |s| then s[..n] else s
  }

  function DigitChar(d: nat): (c: char)
    requires d < 10
    ensures '0' <= c <= '9'
  {
    ('0' as int + d) as char
  }

  /** Decimal rendering of a natural number, as `${n}` prints it. */
  function NatToString(n: nat): (r: string)
    ensures |r| >= 1
    ensures forall i :: 0 <= i < |r| ==> '0' <= r[i] <= '9'
    decreases n
  {
    if n < 10 then [DigitChar(n)] else NatToString(n / 10) + [DigitChar(n % 10)]
  }

  /** Reads a string of decimal digits back as a number. */
  function ParseNat(s: string): nat
    decreases |s|
  {
    if s == [] then 0
    else ParseNat(s[..|s| - 1]) * 10 + (if '0' <= s[|s| - 1] <= '9' then s[|s| - 1] as int - '0' as int else 0)
  }

  lemma {:induction false} ParseNatToString(n: nat)
    ensures ParseNat(NatToString(n)) == n
    decreases n
  {
    var r := NatToString(n);
    if n < 10 {
      assert r[..0] == [];
    } else {
      ParseNatToString(n / 10);
      assert r[..|r| - 1] == NatToString(n / 10);
    }
  }

  lemma NatToStringInjective(m: nat, n: nat)
    requires NatToString(m) == NatToString(n)
    ensures m == n
  {
    ParseNatToString(m);
    ParseNatToString(n);
  }

  /** `s.toLowerCase().replace(/\s+/g, '-')`: letters lowered, every maximal
      run of whitespace replaced by one '-'. */
  function Slug(s: string): (r: string)
    ensures forall i :: 0 <= i < |r| ==> !IsWhitespace(r[i])
    ensures (forall i :: 0 <= i < |s| ==> !IsWhitespace(s[i])) ==> r == Lower(s)
    decreases |s|
  {
    if s == [] then []
    else if IsWhitespace(s[0]) then ['-'] + Slug(SkipWhitespace(s[1..]))
    else [LowerChar(s[0])] + Slug(s[1..])
  }

  /** Drops the leading whitespace. */
  function SkipWhitespace(s: string): (r: string)
    ensures |r| <= |s|
    ensures r == [] || !IsWhitespace(r[0])
    ensures forall i :: 0 <= i < |s| - |r| ==> IsWhitespace(s[i])
  {
    s[Leading(s)..]
  }

  /** Drops the trailing whitespace. */
  function TrimEnd(s: string): (r: string)
    ensures r <= s
    ensures r == [] || !IsWhitespace(r[|r| - 1])
    ensures forall i :: |r| <= i < |s| ==> IsWhitespace(s[i])
  {
    if s != [] && IsWhitespace(s[|s| - 1]) then TrimEnd(s[..|s| - 1]) else s
  }

  /** `s.trim()`: the longest infix of `s` with no whitespace at either end. */
  function Trim(s: string): (r: string)
    ensures |r| <= |s|
    ensures r == [] || (!IsWhitespace(r[0]) && !IsWhitespace(r[|r| - 1]))
    ensures Leading(s) + |r| <= |s| && r == s[Leading(s)..Leading(s) + |r|]
    ensures Surrounds(s, Leading(s), Leading(s) + |r|)
    ensures (s == [] || (!IsWhitespace(s[0]) && !IsWhitespace(s[|s| - 1]))) ==> r == s
  {
    var k := SkipWhitespace(s);
    TrimmedInfix(s, Leading(s), k, TrimEnd(k));
    TrimEnd(k)
  }

  lemma TrimmedInfix(s: string, a: nat, k: string, r: string)
    requires a <= |s| && k == s[a..] && r <= k
    requires forall i :: 0 <= i < a ==> IsWhitespace(s[i])
    requires forall i :: |r| <= i < |k| ==> IsWhitespace(k[i])
    ensures a + |r| <= |s| && r == s[a..a + |r|] && Surrounds(s, a, a + |r|)
  {
    forall i | a + |r| <= i < |s|
      ensures IsWhitespace(s[i])
    {
      assert s[i] == k[i - a];
    }
  }

  /** The number of whitespace characters `s` starts with. */
  function Leading(s: string): (n: nat)
    ensures n <= |s| && (n == |s| || !IsWhitespace(s[n]))
    ensures forall i :: 0 <= i < n ==> IsWhitespace(s[i])
  {
    if s != [] && IsWhitespace(s[0]) then 1 + Leading(s[1..]) else 0
  }


  /** Everything of `s` outside `s[a..b]` is whitespace. */
  predicate Surrounds(s: string, a: int, b: int)
    requires 0 <= a <= b <= |s|
  {
    (forall i :: 0 <= i < a ==> IsWhitespace(s[i])) && (forall i :: b <= i < |s| ==> IsWhitespace(s[i]))
  }

  /** The two readings of an empty `trim()`: every character is whitespace
      exactly when trimming leaves nothing. */
  lemma {:induction false} BlankIffTrimEmpty(s: string)
    ensures IsBlank(s) <==> Trim(s) == []
  {
    var r := Trim(s);
    var a := Leading(s);
    if r != [] {
      assert s[a] == r[0];
    } else {
      assert Surrounds(s, a, a);
    }
  }

  /** A whitespace-free word is lower-cased in place and the slug goes on
      after it. */
  lemma {:induction false} SlugWord(w: string, rest: string)
    requires forall i :: 0 <= i < |w| ==> !IsWhitespace(w[i])
    ensures Slug(w + rest) == Lower(w) + Slug(rest)
    decreases |w|
  {
    if w != [] {
      assert (w + rest)[1..] == w[1..] + rest;
      SlugWord(w[1..], rest);
    } else {
      assert w + rest == rest;
    }
  }

  /** A maximal run of whitespace, however long, becomes exactly one '-'. */
  lemma {:induction false} SlugRun(ws: string, rest: string)
    requires ws != [] && forall i :: 0 <= i < |ws| ==> IsWhitespace(ws[i])
    requires rest == [] || !IsWhitespace(rest[0])
    ensures Slug(ws + rest) == "-" + Slug(rest)
  {
    assert (ws + rest)[0] == ws[0];
    assert (ws + rest)[1..] == ws[1..] + rest;
    SkipRun(ws[1..], rest);
  }

  lemma {:induction false} SkipRun(ws: string, rest: string)
    requires forall i :: 0 <= i < |ws| ==> IsWhitespace(ws[i])
    requires rest == [] || !IsWhitespace(rest[0])
    ensures SkipWhitespace(ws + rest) == rest
    decreases |ws|
  {
    if ws != [] {
      assert (ws + rest)[0] == ws[0];
      assert (ws + rest)[1..] == ws[1..] + rest;
      SkipRun(ws[1..], rest);
    } else {
      assert ws + rest == rest;
    }
  }

  /** Two words separated by any whitespace run slug to the lowered words
      joined by one '-'. */
  lemma SlugTwoWords(a: string, ws: string, b: string)
    requires forall i :: 0 <= i < |a| ==> !IsWhitespace(a[i])
    requires forall i :: 0 <= i < |b| ==> !IsWhitespace(b[i])
    requires ws != [] && forall i :: 0 <= i < |ws| ==> IsWhitespace(ws[i])
    ensures Slug(a + ws + b) == Lower(a) + "-" + Lower(b)
  {
    assert a + ws + b == a + (ws + b);
    SlugWord(a, ws + b);
    SlugRun(ws, b);
    SlugWord(b, []);
    assert b + [] == b;
  }

  /** A decimal rendering of an integer, with a leading '-' when negative. */
  function IntToString(n: int): (r: string)
    ensures |r| >= 1
  {
    if n < 0 then "-" + NatToString(-n) else NatToString(n)
  }

  /** A date shown relative to now ("Just now", "3 days ago"), or left to
      `toLocaleDateString`, whose locale rendering is not modelled. */
  datatype DateText = Relative(text: string) | LocaleDate(timestamp: int)
}
