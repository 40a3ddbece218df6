/**
 * String helpers with Python's meaning: `str.strip()`, `str.split(sep)`,
 * `str.split()`, `sep.join(...)`, `startswith`, `in`, `lower()` and the
 * decimal rendering of `str(n)` / `f"{n:06d}"`.  Whitespace and digits are
 * the ASCII ones (`\s` and `\d` in the patterns the program uses); the
 * whitespace is the six characters of `IsSpace`.
 */
module Text {

  predicate IsSpace(c: char) {
    c == ' ' || c == '\t' || c == '\n' || c == '\r' || c == '\U{000B}' || c == '\U{000C}'
  }

  predicate IsDigit(c: char) { '0' <= c <= '9' }

  predicate AllDigits(s: string) { forall i :: 0 <= i < |s| ==> IsDigit(s[i]) }

  predicate AllSpace(s: string) { forall i :: 0 <= i < |s| ==> IsSpace(s[i]) }

  predicate NoSpace(s: string) { forall i :: 0 <= i < |s| ==> !IsSpace(s[i]) }

  /** `s.lstrip()`: what is left after dropping leading whitespace. */
  function TrimLeft(s: string): (r: string)
    ensures |r| <= |s|
  {
    if s != [] && IsSpace(s[0]) then TrimLeft(s[1..]) else s
  }

  /** `lstrip` drops a whitespace prefix and keeps the rest, which starts with no blank. */
  lemma {:induction false} TrimLeftSpec(s: string)
    ensures var r := TrimLeft(s);
            r == s[|s| - |r|..] && AllSpace(s[..|s| - |r|]) && (r != [] ==> !IsSpace(r[0]))
  {
    if s != [] && IsSpace(s[0]) {
      TrimLeftSpec(s[1..]);
      var r := TrimLeft(s);
      assert s[1..][..|s| - 1 - |r|] == s[1..|s| - |r|];
    }
  }

  /** `s.rstrip()`: what is left after dropping trailing whitespace. */
  function TrimRight(s: string): (r: string)
    ensures |r| <= |s|
  {
    if s != [] && IsSpace(s[|s| - 1]) then TrimRight(s[..|s| - 1]) else s
  }

  /** `rstrip` drops a whitespace suffix and keeps the rest, which ends with no blank. */
  lemma {:induction false} TrimRightSpec(s: string)
    ensures var r := TrimRight(s);
            r == s[..|r|] && AllSpace(s[|r|..]) && (r != [] ==> !IsSpace(r[|r| - 1]))
  {
    if s != [] && IsSpace(s[|s| - 1]) {
      TrimRightSpec(s[..|s| - 1]);
      var r := TrimRight(s);
      assert s[..|s| - 1][..|r|] == s[..|r|];
      assert s[..|s| - 1][|r|..] == s[|r|..|s| - 1];
      assert s[|r|..] == s[|r|..|s| - 1] + [s[|s| - 1]];
    }
  }

  /** `s.strip()`. */
  function Strip(s: string): (r: string)
    ensures |r| <= |s|
  {
    TrimRight(TrimLeft(s))
  }

  /** A stripped string has no blank at either end, and is empty exactly when `s` is all blank. */
  lemma StripSpec(s: string)
    ensures var r := Strip(s);
            (r != [] ==> !IsSpace(r[0]) && !IsSpace(r[|r| - 1])) && (r == [] <==> AllSpace(s))
  {
    var l := TrimLeft(s);
    var r := TrimRight(l);
    TrimLeftSpec(s);
    TrimRightSpec(l);
    if r != [] {
      assert r[0] == l[0];
    }
    if r == [] {
      assert s == s[..|s| - |l|] + l;
    } else {
      assert !IsSpace(s[|s| - |l|]);
    }
  }

  /** Stripping is idempotent: a stripped value is its own strip. */
  lemma {:induction false} StripIdempotent(s: string)
    ensures Strip(Strip(s)) == Strip(s)
  {
    var t := Strip(s);
    StripSpec(s);
    if t != [] {
      assert TrimLeft(t) == t;
      assert TrimRight(t) == t;
    }
  }

  predicate StartsWith(s: string, p: string) { |p| <= |s| && s[..|p|] == p }

  /** `needle` occurs in `hay` starting at position `i`. */
  predicate OccursAt(hay: string, needle: string, i: int) {
    0 <= i && i + |needle| <= |hay| && hay[i..i + |needle|] == needle
  }

  /** Python's `needle in hay`. */
  predicate Contains(hay: string, needle: string) {
    exists i :: 0 <= i <= |hay| - |needle| && OccursAt(hay, needle, i)
  }

  function LowerChar(c: char): char {
    if 'A' <= c <= 'Z' then (c as int + 32) as char else c
  }

  function Lower(s: string): (r: string)
    ensures |r| == |s|
    ensures forall i :: 0 <= i < |s| ==> r[i] == LowerChar(s[i])
  {
    if s == [] then [] else [LowerChar(s[0])] + Lower(s[1..])
  }

  /** Lower-casing works character by character, so it distributes over concatenation. */
  lemma LowerAppend(a: string, b: string)
    ensures Lower(a + b) == Lower(a) + Lower(b)
  {
    var l, la, lb := Lower(a + b), Lower(a), Lower(b);
    forall i | 0 <= i < |l|
      ensures l[i] == (la + lb)[i]
    {
      if i < |a| {
        assert (a + b)[i] == a[i];
      } else {
        assert (a + b)[i] == b[i - |a|];
      }
    }
  }

  /** A piece of a concatenation occurs in it. */
  lemma ContainsMiddle(a: string, b: string, c: string)
    ensures Contains(a + b + c, b)
  {
    assert (a + b + c)[|a|..|a| + |b|] == b;
    assert OccursAt(a + b + c, b, |a|);
  }

  /** Each filled-in value of a four-slot template occurs in the text. */
  lemma SlotsOccur(p1: string, x1: string, p2: string, x2: string, p3: string, x3: string,
                   p4: string, x4: string, p5: string)
    ensures var m := p1 + x1 + p2 + x2 + p3 + x3 + p4 + x4 + p5;
            Contains(m, x1) && Contains(m, x2) && Contains(m, x3) && Contains(m, x4)
  {
    var m := p1 + x1 + p2 + x2 + p3 + x3 + p4 + x4 + p5;
    assert m == p1 + x1 + (p2 + x2 + p3 + x3 + p4 + x4 + p5);
    ContainsMiddle(p1, x1, p2 + x2 + p3 + x3 + p4 + x4 + p5);
    assert m == p1 + x1 + p2 + x2 + (p3 + x3 + p4 + x4 + p5);
    ContainsMiddle(p1 + x1 + p2, x2, p3 + x3 + p4 + x4 + p5);
    assert m == p1 + x1 + p2 + x2 + p3 + x3 + (p4 + x4 + p5);
    ContainsMiddle(p1 + x1 + p2 + x2 + p3, x3, p4 + x4 + p5);
    ContainsMiddle(p1 + x1 + p2 + x2 + p3 + x3 + p4, x4, p5);
  }

  /** No value occurs twice. */
  predicate Distinct<T(==)>(xs: seq<T>) {
    forall i, j :: 0 <= i < |xs| && 0 <= j < |xs| && xs[i] == xs[j] ==> i == j
  }

  predicate IStartsWith(s: string, p: string) {
    |p| <= |s| && forall i :: 0 <= i < |p| ==> LowerChar(s[i]) == p[i]
  }

  /** Django's `icontains`: case-insensitive substring test (ASCII case folding). */
  predicate IContains(hay: string, needle: string) {
    Contains(Lower(hay), Lower(needle))
  }

  /** Python's `s[:n]`, which never fails on a short string. */
  function Take(s: string, n: nat): (r: string)
    ensures |r| == if |s| < n then |s| else n
    ensures StartsWith(s, r)
  {
    if |s| <= n then s else s[..n]
  }

  /** Position of the first `c` in `s`. */
  function IndexOf(s: string, c: char): (k: nat)
    requires c in s
    ensures k < |s| && s[k] == c && c !in s[..k]
  {
    if s[0] == c then 0 else 1 + IndexOf(s[1..], c)
  }

  /** Python's `s.split(c)` for a one-character separator. */
  function SplitOn(s: string, c: char): (r: seq<string>)
    ensures |r| >= 1
    ensures forall i :: 0 <= i < |r| ==> c !in r[i]
    decreases |s|
  {
    if c !in s then [s]
    else
      var k := IndexOf(s, c);
      [s[..k]] + SplitOn(s[k + 1..], c)
  }

  /** Python's `sep.join(xs)`. */
  function Join(xs: seq<string>, sep: string): (r: string)
  {
    if xs == [] then []
    else if |xs| == 1 then xs[0]
    else xs[0] + sep + Join(xs[1..], sep)
  }

  /** Joining the pieces of a split puts the string back together. */
  lemma {:induction false} JoinSplit(s: string, c: char)
    ensures Join(SplitOn(s, c), [c]) == s
    decreases |s|
  {
    if c in s {
      var k := IndexOf(s, c);
      var rest := SplitOn(s[k + 1..], c);
      JoinSplit(s[k + 1..], c);
      assert SplitOn(s, c) == [s[..k]] + rest;
      JoinCons(s[..k], rest, [c]);
      SplitAround(s, k);
    }
  }

  /** Joining a head onto a non-empty tail puts the separator between them. */
  lemma JoinCons(x: string, rest: seq<string>, sep: string)
    requires rest != []
    ensures Join([x] + rest, sep) == x + sep + Join(rest, sep)
  {
    assert ([x] + rest)[1..] == rest;
  }

  /** A string is the part before position `k`, the character there, and the part after. */
  lemma SplitAround(s: string, k: nat)
    requires k < |s|
    ensures s == s[..k] + [s[k]] + s[k + 1..]
  {
  }

  /** Splitting a join of separator-free pieces gives the pieces back. */
  lemma {:induction false} SplitJoin(xs: seq<string>, c: char)
    requires |xs| >= 1
    requires forall i :: 0 <= i < |xs| ==> c !in xs[i]
    ensures SplitOn(Join(xs, [c]), c) == xs
  {
    if |xs| > 1 {
      var s := Join(xs, [c]);
      var rest := Join(xs[1..], [c]);
      assert s == xs[0] + [c] + rest;
      assert s[|xs[0]|] == c;
      assert s[..|xs[0]|] == xs[0];
      assert IndexOf(s, c) == |xs[0]|;
      assert s[|xs[0]| + 1..] == rest;
      SplitJoin(xs[1..], c);
    }
  }

  /** Index of the first whitespace character of `s`, or `|s|`. */
  function TokenEnd(s: string): (k: nat)
    ensures k <= |s| && NoSpace(s[..k]) && (k < |s| ==> IsSpace(s[k]))
  {
    if s == [] || IsSpace(s[0]) then 0 else 1 + TokenEnd(s[1..])
  }

  /** Python's argument-less `s.split()`: the maximal runs of non-whitespace. */
  function Words(s: string): (r: seq<string>)
    decreases |s|
  {
    var t := TrimLeft(s);
    if t == [] then []
    else
      var k := TokenEnd(t);
      [t[..k]] + Words(t[k..])
  }

  /** Every word is non-empty and blank-free. */
  lemma {:induction false} WordsSpec(s: string)
    ensures forall w :: w in Words(s) ==> w != [] && NoSpace(w)
    decreases |s|
  {
    var t := TrimLeft(s);
    if t != [] {
      TrimLeftSpec(s);
      var k := TokenEnd(t);
      WordsSpec(t[k..]);
    }
  }

  function DigitValue(c: char): nat requires IsDigit(c) { c as int - '0' as int }

  function DigitChar(d: nat): (c: char)
    requires d < 10
    ensures IsDigit(c) && DigitValue(c) == d
  {
    ('0' as int + d) as char
  }

  /** The number a string of decimal digits denotes (Python's `int(s)` on digits). */
  function DigitsValue(s: string): nat
    requires AllDigits(s)
  {
    if s == [] then 0 else 10 * DigitsValue(s[..|s| - 1]) + DigitValue(s[|s| - 1])
  }

  /** `str(n)` for a natural number: shortest decimal rendering. */
  function NatToString(n: nat): (r: string)
    ensures r != [] && AllDigits(r) && DigitsValue(r) == n
    ensures |r| > 1 ==> r[0] != '0'
  {
    if n < 10 then [DigitChar(n)]
    else
      var p := NatToString(n / 10);
      var r := p + [DigitChar(n % 10)];
      assert r[..|r| - 1] == p;
      r
  }

  /** Appending a zero digit multiplies by ten. */
  lemma NatToStringTimesTen(k: nat)
    requires k >= 1
    ensures NatToString(10 * k) == NatToString(k) + "0"
  {
    assert (10 * k) / 10 == k && (10 * k) % 10 == 0;
  }

  /** `str` is injective on naturals. */
  lemma NatToStringInjective(a: nat, b: nat)
    requires NatToString(a) == NatToString(b)
    ensures a == b
  {
  }

  /** `"0" * n`. */
  function Zeros(n: nat): (z: string)
    ensures |z| == n && AllDigits(z) && forall i :: 0 <= i < n ==> z[i] == '0'
  {
    seq(n, _ => '0')
  }

  /** `"0" * (w - |s|) + s`: left padding with zeros to width `w`. */
  function PadZeros(s: string, w: nat): (r: string)
    ensures |r| == if |s| < w then w else |s|
    ensures r[|r| - |s|..] == s
    ensures AllDigits(s) ==> AllDigits(r)
  {
    if |s| >= w then s else Zeros(w - |s|) + s
  }

  /** Leading zeros do not change the value of a digit string. */
  lemma {:induction false} LeadingZero(s: string)
    requires AllDigits(s)
    ensures DigitsValue(['0'] + s) == DigitsValue(s)
    decreases |s|
  {
    if s != [] {
      var t := ['0'] + s;
      assert t[..|t| - 1] == ['0'] + s[..|s| - 1];
      LeadingZero(s[..|s| - 1]);
    }
  }

  lemma {:induction false} LeadingZeros(n: nat, s: string)
    requires AllDigits(s)
    ensures DigitsValue(Zeros(n) + s) == DigitsValue(s)
  {
    if n > 0 {
      assert Zeros(n) + s == ['0'] + (Zeros(n - 1) + s);
      LeadingZeros(n - 1, s);
      LeadingZero(Zeros(n - 1) + s);
    } else {
      assert Zeros(n) + s == s;
    }
  }

  lemma {:induction false} PadZerosValue(s: string, w: nat)
    requires AllDigits(s)
    ensures DigitsValue(PadZeros(s, w)) == DigitsValue(s)
  {
    if |s| < w {
      assert PadZeros(s, w) == Zeros(w - |s|) + s;
      LeadingZeros(w - |s|, s);
    }
  }

  /** Python's `f"{n:0{w}d}"`: decimal digits of `n`, zero-padded to width `w`. */
  function FormatPadded(n: nat, w: nat): (r: string)
    ensures AllDigits(r) && DigitsValue(r) == n && |r| >= w
  {
    PadZerosValue(NatToString(n), w);
    PadZeros(NatToString(n), w)
  }

  // ---------------------------------------------------------------- repr

  /** A lower-case hexadecimal digit. */
  function HexDigit(d: nat): (c: char)
    requires d < 16
  {
    if d < 10 then DigitChar(d) else ('a' as int + d - 10) as char
  }

  /** A character `repr` writes as itself inside quotes `q`. */
  predicate ReprPlain(c: char, q: char) {
    c != '\\' && c != q && ' ' <= c && c != '\U{007F}'
  }

  /** How `repr` writes one character inside quotes `q`. */
  function ReprChar(c: char, q: char): (r: string)
    ensures ReprPlain(c, q) <==> r == [c]
    ensures !ReprPlain(c, q) ==> |r| >= 2 && r[0] == '\\'
  {
    if c == '\\' then "\\\\"
    else if c == q then ['\\', q]
    else if c == '\t' then "\\t"
    else if c == '\n' then "\\n"
    else if c == '\r' then "\\r"
    else if c < ' ' || c == '\U{007F}' then "\\x" + [HexDigit(c as int / 16), HexDigit(c as int % 16)]
    else [c]
  }

  /** The characters of a string as `repr` writes them between quotes `q`. */
  function ReprBody(s: string, q: char): (r: string)
    ensures |r| >= |s|
    ensures (forall i :: 0 <= i < |s| ==> ReprPlain(s[i], q)) ==> r == s
  {
    if s == [] then []
    else
      var rest := ReprBody(s[1..], q);
      assert forall i :: 1 <= i < |s| ==> s[1..][i - 1] == s[i];
      ReprChar(s[0], q) + rest
  }

  /** `repr(s)`: single quotes, unless `s` holds a single quote and no double quote. */
  function PyRepr(s: string): (r: string)
    ensures |r| >= |s| + 2 && r[0] == r[|r| - 1] && (r[0] == '\'' || r[0] == '"')
    ensures r[0] == '"' <==> '\'' in s && '"' !in s
  {
    var q := if '\'' in s && '"' !in s then '"' else '\'';
    [q] + ReprBody(s, q) + [q]
  }

  /** Text without quotes, backslashes or control characters is shown between single quotes as it is. */
  lemma PlainRepr(s: string)
    requires forall i :: 0 <= i < |s| ==> ReprPlain(s[i], '\'')
    ensures PyRepr(s) == "'" + s + "'"
  {
    assert '\'' !in s by {
      forall i | 0 <= i < |s| ensures s[i] != '\'' {
        assert ReprPlain(s[i], '\'');
      }
    }
  }

  /** Text with a single quote but no double quote is shown between double quotes, the single quote unescaped. */
  lemma DoubleQuotedRepr(s: string)
    requires '\'' in s
    requires forall i :: 0 <= i < |s| ==> ReprPlain(s[i], '"')
    ensures PyRepr(s) == "\"" + s + "\""
  {
    assert '"' !in s by {
      forall i | 0 <= i < |s| ensures s[i] != '"' {
        assert ReprPlain(s[i], '"');
      }
    }
  }

  /** The `ValueError` text of `int(s)` for a string it refuses. */
  function IntLiteralError(s: string): (r: string)
    ensures StartsWith(r, "invalid literal for int() with base 10: ")
  {
    "invalid literal for int() with base 10: " + PyRepr(s)
  }
}
