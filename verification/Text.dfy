/** Text as the platform compares it: character by character, with numbers printed in fixed-width fields. */
module Text {
  import opened Sorting

  /** Strict code-point order of two texts: what Python's `<` on `str` and a TEXT comparison in SQLite compute. */
  predicate LexLess(a: string, b: string)
  {
    b != [] && (a == [] || a[0] < b[0] || (a[0] == b[0] && LexLess(a[1..], b[1..])))
  }

  predicate LexLessEq(a: string, b: string)
  {
    a == b || LexLess(a, b)
  }

  lemma {:induction false} LexIrreflexive(a: string)
    ensures !LexLess(a, a)
  {
    if a != [] { LexIrreflexive(a[1..]); }
  }

  lemma {:induction false} LexTransitive(a: string, b: string, c: string)
    requires LexLess(a, b) && LexLess(b, c)
    ensures LexLess(a, c)
  {
    if a != [] && a[0] == b[0] == c[0] { LexTransitive(a[1..], b[1..], c[1..]); }
  }

  lemma {:induction false} LexTotal(a: string, b: string)
    ensures LexLess(a, b) || a == b || LexLess(b, a)
  {
    if a != [] && b != [] && a[0] == b[0] {
      LexTotal(a[1..], b[1..]);
      assert a == [a[0]] + a[1..] && b == [b[0]] + b[1..];
    }
  }

  /** Fields of equal width compare from the left: the tail decides only when the heads agree. */
  lemma {:induction false} LexAppend(a: string, b: string, x: string, y: string)
    requires |a| == |b|
    ensures LexLess(a + x, b + y) <==> LexLess(a, b) || (a == b && LexLess(x, y))
  {
    if a == [] {
      assert a + x == x && b + y == y;
    } else {
      assert (a + x)[1..] == a[1..] + x && (b + y)[1..] == b[1..] + y;
      LexAppend(a[1..], b[1..], x, y);
      assert a == [a[0]] + a[1..] && b == [b[0]] + b[1..];
    }
  }

  /** A common prefix never matters. */
  lemma LexPrefix(p: string, x: string, y: string)
    ensures LexLess(p + x, p + y) <==> LexLess(x, y)
  {
    LexAppend(p, p, x, y);
    LexIrreflexive(p);
  }

  /** Code-point order is a key order, so sorting by text sorts. */
  lemma LexStrictWeak()
    ensures StrictWeak(LexLess)
  {
    forall x: string, y: string | LexLess(x, y)
      ensures !LexLess(y, x)
    {
      LexIrreflexive(x);
      if LexLess(y, x) { LexTransitive(x, y, x); }
    }
    forall x: string, y: string, z: string | !LexLess(x, y) && !LexLess(y, z)
      ensures !LexLess(x, z)
    {
      LexTotal(x, y);
      LexTotal(y, z);
      if LexLess(y, x) && LexLess(z, y) { LexTransitive(z, y, x); }
      LexIrreflexive(x);
      if LexLess(x, z) && LexLess(z, x) { LexTransitive(x, z, x); }
    }
  }

  // ---------- Numbers as text ----------

  const DIGITS := "0123456789abcdef"

  function Pow10(e: nat): nat
  {
    if e == 0 then 1 else 10 * Pow10(e - 1)
  }

  /** `n` in decimal, zero-padded to exactly `w` characters (its low `w` digits if `n` is wider). */
  function Pad(w: nat, n: nat): (s: string)
    ensures |s| == w && AllDigits(s)
  {
    if w == 0 then "" else Pad(w - 1, n / 10) + [DIGITS[n % 10]]
  }

  lemma DigitOrder(i: nat, j: nat)
    requires i < 16 && j < 16
    ensures DIGITS[i] < DIGITS[j] <==> i < j
    ensures DIGITS[i] == DIGITS[j] <==> i == j
  {
  }

  lemma LexSnoc(p: string, q: string, c: char, d: char)
    requires |p| == |q|
    ensures LexLess(p + [c], q + [d]) <==> LexLess(p, q) || (p == q && c < d)
    ensures p + [c] == q + [d] <==> p == q && c == d
  {
    LexAppend(p, q, [c], [d]);
    assert (p + [c])[..|p|] == p && (q + [d])[..|q|] == q;
    assert (p + [c])[|p|] == c && (q + [d])[|q|] == d;
  }

  /** Printing in a fixed width loses nothing and keeps the order. */
  lemma {:induction false} PadOrder(w: nat, n: nat, m: nat)
    requires n < Pow10(w) && m < Pow10(w)
    ensures LexLess(Pad(w, n), Pad(w, m)) <==> n < m
    ensures Pad(w, n) == Pad(w, m) <==> n == m
  {
    if w > 0 {
      PadOrder(w - 1, n / 10, m / 10);
      DigitOrder(n % 10, m % 10);
      LexSnoc(Pad(w - 1, n / 10), Pad(w - 1, m / 10), DIGITS[n % 10], DIGITS[m % 10]);
    }
  }

  predicate IsDigit(c: char)
  {
    '0' <= c <= '9'
  }

  predicate AllDigits(s: string)
  {
    forall i :: 0 <= i < |s| ==> IsDigit(s[i])
  }

  /** The number a run of decimal digits denotes (Python's `int(text)`). */
  function ParseNat(s: string): nat
    requires AllDigits(s)
  {
    if s == [] then 0 else ParseNat(s[..|s| - 1]) * 10 + (s[|s| - 1] as int - '0' as int)
  }

  /** Reading a zero-padded decimal field back gives the number that was printed. */
  lemma {:induction false} ParsePad(w: nat, n: nat)
    requires n < Pow10(w)
    ensures ParseNat(Pad(w, n)) == n
  {
    if w > 0 {
      ParsePad(w - 1, n / 10);
      assert Pad(w, n)[..w - 1] == Pad(w - 1, n / 10);
      assert DIGITS[n % 10] as int - '0' as int == n % 10;
    }
  }

  /** And printing a field that was read gives its digits back. */
  lemma {:induction false} PadParse(s: string)
    requires AllDigits(s)
    ensures ParseNat(s) < Pow10(|s|) && Pad(|s|, ParseNat(s)) == s
  {
    if s != [] {
      var (front, last) := (s[..|s| - 1], s[|s| - 1]);
      PadParse(front);
      assert IsDigit(last) && s == front + [last];
      DigitOf(last);
      PadStep(|front|, ParseNat(front), last as int - '0' as int);
    }
  }

  lemma DigitOf(c: char)
    requires IsDigit(c)
    ensures DIGITS[c as int - '0' as int] == c
  {
  }

  lemma PadStep(w: nat, n: nat, d: nat)
    requires d < 10
    ensures Pad(w + 1, n * 10 + d) == Pad(w, n) + [DIGITS[d]]
  {
    assert (n * 10 + d) / 10 == n && (n * 10 + d) % 10 == d;
  }

  /** The leading run of digits, and what follows it. */
  function SpanDigits(s: string): (r: (string, string))
    ensures AllDigits(r.0)
  {
    if s != [] && IsDigit(s[0]) then
      var r := SpanDigits(s[1..]);
      ([s[0]] + r.0, r.1)
    else
      ("", s)
  }

  /** `f"{n:03d}"`: decimal, zero-padded to at least three characters. */
  function Print03(n: nat): string
  {
    if n < 1000 then Pad(3, n) else Print03(n / 10) + [DIGITS[n % 10]]
  }

  lemma {:induction false} ParsePrint03(n: nat)
    ensures |Print03(n)| >= 3 && AllDigits(Print03(n)) && ParseNat(Print03(n)) == n
    decreases n
  {
    if n < 1000 {
      assert Pow10(3) == 1000 by { assert Pow10(1) == 10 && Pow10(2) == 100; }
      ParsePad(3, n);
    } else {
      ParsePrint03(n / 10);
      var d := DIGITS[n % 10];
      assert IsDigit(d) && d as int - '0' as int == n % 10;
      assert Print03(n)[..|Print03(n)| - 1] == Print03(n / 10);
    }
  }

  /** Pieces of text put back together. */
  function Joined(pieces: seq<string>): string
  {
    if pieces == [] then "" else Joined(pieces[..|pieces| - 1]) + pieces[|pieces| - 1]
  }
}
