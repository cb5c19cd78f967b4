/** String helpers: JavaScript's `String.prototype.includes`, the decimal
    rendering of numbers inside template literals, the `\s` class of
    JavaScript regular expressions, and `length`, which counts UTF-16 code
    units. */
module Text {

  /** `s.includes(w)`: `w` occurs in `s` as a contiguous block. */
  predicate Contains(s: string, w: string)
  {
    exists i :: 0 <= i <= |s| && OccursAt(s, w, i)
  }

  /** `w` occurs in `s` starting at index `i`. */
  predicate OccursAt(s: string, w: string, i: int)
  {
    0 <= i && i + |w| <= |s| && s[i..i + |w|] == w
  }

  lemma ContainsAt(s: string, w: string, i: nat)
    requires i + |w| <= |s| && s[i..i + |w|] == w
    ensures Contains(s, w)
  {
    assert OccursAt(s, w, i);
  }

  /** A word with a character that never appears in `s` is not in `s`. */
  lemma NotContainedWithoutChar(s: string, w: string, j: nat)
    requires j < |w|
    requires forall i :: 0 <= i < |s| ==> s[i] != w[j]
    ensures !Contains(s, w)
  {
    forall i | 0 <= i <= |s|
      ensures !OccursAt(s, w, i)
    {
      if i + |w| <= |s| {
        assert s[i..i + |w|][j] == s[i + j];
      }
    }
  }

  /** A word with two neighbouring characters that never appear side by
      side in `s` is not in `s`. */
  lemma NotContainedWithoutPair(s: string, w: string, j: nat)
    requires j + 1 < |w|
    requires forall i :: 0 <= i < |s| - 1 ==> !(s[i] == w[j] && s[i + 1] == w[j + 1])
    ensures !Contains(s, w)
  {
    forall i | 0 <= i <= |s|
      ensures !OccursAt(s, w, i)
    {
      if i + |w| <= |s| {
        assert s[i..i + |w|][j] == s[i + j];
        assert s[i..i + |w|][j + 1] == s[i + j + 1];
      }
    }
  }

  /** A prefix that holds no copy of the word's first character cannot host
      any occurrence, not even one straddling the join. */
  lemma {:induction false} ContainsAfterPrefix(a: string, b: string, w: string)
    requires |w| > 0 && w[0] !in a
    ensures Contains(a + b, w) <==> Contains(b, w)
  {
    if Contains(a + b, w) {
      var i :| 0 <= i <= |a + b| && OccursAt(a + b, w, i);
      OccursPastPrefix(a, b, w, i);
      ContainsAt(b, w, i - |a|);
    }
    if Contains(b, w) {
      var j :| 0 <= j <= |b| && OccursAt(b, w, j);
      assert (a + b)[|a| + j..|a| + j + |w|] == b[j..j + |w|];
      ContainsAt(a + b, w, |a| + j);
    }
  }

  /** An occurrence in `a + b` of a word whose first character is not in
      `a` lies wholly inside `b`. */
  lemma OccursPastPrefix(a: string, b: string, w: string, i: int)
    requires |w| > 0 && w[0] !in a
    requires OccursAt(a + b, w, i)
    ensures i >= |a| && OccursAt(b, w, i - |a|)
  {
    var s := a + b;
    assert s[i..i + |w|][0] == s[i];
    assert s[i..i + |w|] == b[i - |a|..i - |a| + |w|];
  }

  /** An occurrence starts either at the first character or in the rest. */
  lemma ContainsUncons(s: string, w: string)
    requires |s| > 0
    ensures Contains(s, w) <==> (|w| <= |s| && s[..|w|] == w) || Contains(s[1..], w)
  {
    if Contains(s, w) {
      var i :| 0 <= i <= |s| && OccursAt(s, w, i);
      if i > 0 {
        assert s[1..][i - 1..i - 1 + |w|] == s[i..i + |w|];
        ContainsAt(s[1..], w, i - 1);
      }
    }
    if Contains(s[1..], w) {
      var j :| 0 <= j <= |s[1..]| && OccursAt(s[1..], w, j);
      assert s[j + 1..j + 1 + |w|] == s[1..][j..j + |w|];
      ContainsAt(s, w, j + 1);
    }
    if |w| <= |s| && s[..|w|] == w {
      ContainsAt(s, w, 0);
    }
  }

  predicate IsDigit(c: char)
  {
    '0' <= c <= '9'
  }

  function DigitChar(d: nat): (c: char)
    requires d < 10
    ensures IsDigit(c)
  {
    ('0' as int + d) as char
  }

  /** Decimal rendering of a natural number, as `${n}` produces it. */
  function Decimal(n: nat): (s: string)
    ensures |s| > 0
    ensures forall i :: 0 <= i < |s| ==> IsDigit(s[i])
  {
    if n < 10 then [DigitChar(n)] else Decimal(n / 10) + [DigitChar(n % 10)]
  }

  /** Decimal rendering of an integer, with a leading '-' for negatives. */
  function IntText(n: int): string
  {
    if n < 0 then "-" + Decimal(-n) else Decimal(n)
  }

  /** Three-digit numbers (every HTTP status code) render as three digits,
      and "404" is the rendering of 404 and of nothing else among them. */
  lemma ThreeDigits(n: nat)
    requires 100 <= n <= 999
    ensures |Decimal(n)| == 3
    ensures Decimal(n) == "404" <==> n == 404
  {
    assert Decimal(n) == Decimal(n / 100) + [DigitChar((n / 10) % 10)] + [DigitChar(n % 10)];
    if Decimal(n) == "404" {
      assert Decimal(n)[0] == DigitChar(n / 100);
      assert Decimal(n)[1] == DigitChar((n / 10) % 10);
      assert Decimal(n)[2] == DigitChar(n % 10);
      assert n / 100 == 4 && (n / 10) % 10 == 0 && n % 10 == 4;
    }
  }

  /** JavaScript's `\s`: the white-space and line-terminator characters. */
  predicate IsSpace(c: char)
  {
    var k := c as int;
    k == 0x09 || k == 0x0A || k == 0x0B || k == 0x0C || k == 0x0D || k == 0x20
    || k == 0xA0 || k == 0x1680 || (0x2000 <= k <= 0x200A)
    || k == 0x2028 || k == 0x2029 || k == 0x202F || k == 0x205F
    || k == 0x3000 || k == 0xFEFF
  }

  /** JavaScript's `s.length`: one UTF-16 code unit per character of the
      Basic Multilingual Plane, two (a surrogate pair) for any other. */
  function Utf16Length(s: string): (n: nat)
    ensures |s| <= n <= 2 * |s|
    ensures (forall i :: 0 <= i < |s| ==> s[i] as int <= 0xFFFF) ==> n == |s|
  {
    if s == [] then 0 else (if s[0] as int > 0xFFFF then 2 else 1) + Utf16Length(s[1..])
  }
}
