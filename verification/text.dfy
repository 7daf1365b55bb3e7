/**
 * Character-level helpers shared by the name ordering of inventory items and
 * by the SQL `LIKE` search: ASCII case folding, the lexicographic order on
 * strings, case-insensitive substring containment and decimal rendering of
 * integers (Java's string concatenation `"Item " + i`).
 */
module Text {

  /** Folds an ASCII upper-case letter to lower case; every other character is kept. */
  function FoldChar(c: char): char {
    if 'A' <= c <= 'Z' then (c as int + 32) as char else c
  }

  /** Folds every character of `s`. */
  function FoldCase(s: string): (r: string)
    ensures |r| == |s|
    ensures forall i :: 0 <= i < |s| ==> r[i] == FoldChar(s[i])
  {
    if s == [] then [] else [FoldChar(s[0])] + FoldCase(s[1..])
  }

  /**
   * Strict lexicographic order on strings by character code: `x` is a proper
   * prefix of `y`, or the first position where they differ holds a smaller
   * character in `x`.
   */
  ghost predicate LexLess(x: string, y: string) {
    exists k :: 0 <= k <= |x| && k <= |y| && x[..k] == y[..k] &&
      ((k == |x| && k < |y|) || (k < |x| && k < |y| && x[k] < y[k]))
  }

  lemma LexLessEmpty(x: string, y: string)
    ensures x == [] ==> (LexLess(x, y) <==> y != [])
    ensures y == [] ==> !LexLess(x, y)
  {
    if x == [] && y != [] {
      assert x[..0] == y[..0];
    }
  }

  lemma LexLessHead(x: string, y: string)
    requires x != [] && y != [] && x[0] != y[0]
    ensures LexLess(x, y) <==> x[0] < y[0]
  {
    if x[0] < y[0] {
      assert x[..0] == y[..0];
    }
    if LexLess(x, y) {
      var k :| 0 <= k <= |x| && k <= |y| && x[..k] == y[..k] &&
        ((k == |x| && k < |y|) || (k < |x| && k < |y| && x[k] < y[k]));
      if k > 0 {
        assert x[..k][0] == y[..k][0];
      }
    }
  }

  lemma LexLessTail(x: string, y: string)
    requires x != [] && y != [] && x[0] == y[0]
    ensures LexLess(x, y) <==> LexLess(x[1..], y[1..])
  {
    var x', y' := x[1..], y[1..];
    if LexLess(x, y) {
      var k :| 0 <= k <= |x| && k <= |y| && x[..k] == y[..k] &&
        ((k == |x| && k < |y|) || (k < |x| && k < |y| && x[k] < y[k]));
      assert k > 0;
      assert x'[..k - 1] == x[1..k] == y[1..k] == y'[..k - 1] by {
        assert x[1..k] == x[..k][1..];
        assert y[1..k] == y[..k][1..];
      }
      assert k < |x| ==> x'[k - 1] == x[k];
      assert k < |y| ==> y'[k - 1] == y[k];
    }
    if LexLess(x', y') {
      var k :| 0 <= k <= |x'| && k <= |y'| && x'[..k] == y'[..k] &&
        ((k == |x'| && k < |y'|) || (k < |x'| && k < |y'| && x'[k] < y'[k]));
      assert x[..k + 1] == [x[0]] + x'[..k];
      assert y[..k + 1] == [y[0]] + y'[..k];
      assert x[..k + 1] == y[..k + 1];
    }
  }

  /** `LexLess` is transitive. */
  lemma {:induction false} LexLessTransitive(x: string, y: string, z: string)
    requires LexLess(x, y) && LexLess(y, z)
    ensures LexLess(x, z)
  {
    LexLessEmpty(x, y);
    LexLessEmpty(y, z);
    LexLessEmpty(x, z);
    if x != [] {
      if x[0] != y[0] {
        LexLessHead(x, y);
        if y[0] != z[0] { LexLessHead(y, z); } else { }
        LexLessHead(x, z);
      } else if y[0] != z[0] {
        LexLessHead(y, z);
        LexLessHead(x, z);
      } else {
        LexLessTail(x, y);
        LexLessTail(y, z);
        LexLessTransitive(x[1..], y[1..], z[1..]);
        LexLessTail(x, z);
      }
    }
  }

  /**
   * Java's `String.length()`: the number of UTF-16 code units, so a character
   * above U+FFFF (a surrogate pair in Java) counts twice.
   */
  function Utf16Length(s: string): (n: nat)
    ensures |s| <= n <= 2 * |s|
    ensures (forall i :: 0 <= i < |s| ==> s[i] as int <= 0xFFFF) ==> n == |s|
    ensures (forall i :: 0 <= i < |s| ==> s[i] as int > 0xFFFF) ==> n == 2 * |s|
  {
    if s == [] then 0 else (if s[0] as int > 0xFFFF then 2 else 1) + Utf16Length(s[1..])
  }

  /** `s` occurs in `t` at position `i` when both are case-folded. */
  ghost predicate OccursAt(t: string, s: string, i: int) {
    0 <= i && i + |s| <= |t| && FoldCase(t[i..i + |s|]) == FoldCase(s)
  }

  /** `s` occurs in `t` at some position when both are case-folded. */
  ghost predicate ContainsIgnoreCase(t: string, s: string) {
    exists i :: OccursAt(t, s, i)
  }

  /** The decimal digit for `d`. */
  function DecimalDigit(d: nat): char
    requires d < 10
  {
    "0123456789"[d]
  }

  /** Decimal rendering of a natural number, as Java's `String.valueOf(int)` gives for `n >= 0`. */
  function Decimal(n: nat): (s: string)
    ensures |s| >= 1
    ensures n < 10 <==> |s| == 1
    ensures forall i :: 0 <= i < |s| ==> '0' <= s[i] <= '9'
  {
    if n < 10 then [DecimalDigit(n)] else Decimal(n / 10) + [DecimalDigit(n % 10)]
  }

  /** Different numbers have different decimal renderings. */
  lemma {:induction false} DecimalInjective(m: nat, n: nat)
    requires Decimal(m) == Decimal(n)
    ensures m == n
  {
    if m >= 10 && n >= 10 {
      var sm, sn := Decimal(m), Decimal(n);
      assert sm[..|sm| - 1] == Decimal(m / 10);
      assert sn[..|sn| - 1] == Decimal(n / 10);
      DecimalInjective(m / 10, n / 10);
      assert DecimalDigit(m % 10) == sm[|sm| - 1] == DecimalDigit(n % 10);
    }
  }
}
