/**
 * The few JavaScript runtime notions the application relies on: `undefined`
 * as an option, the IEEE number values that matter here, string comparison
 * with `<`, and `Array.prototype.findIndex`.
 */
module Js {

  /** A value that may be `undefined` (or `null`). */
  datatype Option<+T> = None | Some(value: T)

  /**
   * A JavaScript number. Finite values are modelled exactly as reals; the
   * special values are kept because validation and arithmetic distinguish them.
   */
  datatype Number = Finite(value: real) | NaN | Infinity(negative: bool)

  /** `n + d` for a number `n` and a finite addend `d`. */
  function Plus(n: Number, d: real): Number
  {
    match n
    case Finite(x) => Finite(x + d)
    case NaN => NaN
    case Infinity(neg) => Infinity(neg)
  }

  lemma PlusAssociates(n: Number, a: real, b: real)
    ensures Plus(Plus(n, a), b) == Plus(n, a + b)
  {
  }

  // ---------------------------------------------------------------------
  // Strings as UTF-16 code units

  /** Whether a code unit is a leading (high) surrogate. */
  predicate IsHighSurrogate(u: int)
  {
    0xD800 <= u < 0xDC00
  }

  /**
   * The UTF-16 code units of one character: the character itself when it is
   * in the Basic Multilingual Plane, otherwise a high and a low surrogate.
   */
  function CodeUnits(c: char): (units: seq<int>)
    ensures |units| == (if c as int < 0x10000 then 1 else 2)
    ensures forall k :: 0 <= k < |units| ==> 0 <= units[k] < 0x10000
    ensures IsHighSurrogate(units[0]) <==> |units| == 2
    ensures |units| == 1 ==> units[0] == c as int
    ensures |units| == 2 ==>
      && 0xDC00 <= units[1] < 0xE000
      && (units[0] - 0xD800) * 0x400 + (units[1] - 0xDC00) + 0x10000 == c as int
  {
    if c as int < 0x10000 then [c as int]
    else
      var v := c as int - 0x10000;
      [0xD800 + v / 0x400, 0xDC00 + v % 0x400]
  }

  /** The UTF-16 encoding of a string, the sequence JavaScript strings are made of. */
  function Utf16(s: string): (units: seq<int>)
    ensures |units| >= |s|
  {
    if |s| == 0 then [] else CodeUnits(s[0]) + Utf16(s[1..])
  }

  /** Lexicographic order on code unit sequences, a proper prefix being smaller. */
  predicate UnitsLess(a: seq<int>, b: seq<int>)
  {
    if |a| == 0 then |b| > 0
    else if |b| == 0 then false
    else if a[0] != b[0] then a[0] < b[0]
    else UnitsLess(a[1..], b[1..])
  }

  /**
   * `a < b` on strings: lexicographic comparison of their UTF-16 code units.
   * A character outside the Basic Multilingual Plane therefore sorts by its
   * high surrogate, below the characters U+E000 to U+FFFF.
   */
  predicate StrLess(a: string, b: string)
  {
    UnitsLess(Utf16(a), Utf16(b))
  }

  /** Two characters with the same code units are the same character. */
  lemma CodeUnitsInjective(c: char, d: char)
    requires CodeUnits(c) == CodeUnits(d)
    ensures c == d
  {
    assert c as int == d as int;
  }

  /** Distinct strings have distinct encodings: the high surrogate tells each character's width. */
  lemma {:induction false} Utf16Injective(a: string, b: string)
    requires Utf16(a) == Utf16(b)
    ensures a == b
  {
    if |a| > 0 && |b| > 0 {
      var ua, ub := CodeUnits(a[0]), CodeUnits(b[0]);
      assert Utf16(a) == ua + Utf16(a[1..]) && Utf16(b) == ub + Utf16(b[1..]);
      assert ua[0] == Utf16(a)[0] && ub[0] == Utf16(b)[0];
      assert |ua| == |ub|;
      assert ua == Utf16(a)[..|ua|] && ub == Utf16(b)[..|ub|];
      CodeUnitsInjective(a[0], b[0]);
      assert Utf16(a[1..]) == Utf16(a)[|ua|..] && Utf16(b[1..]) == Utf16(b)[|ub|..];
      Utf16Injective(a[1..], b[1..]);
      assert a == [a[0]] + a[1..] && b == [b[0]] + b[1..];
    }
  }

  lemma {:induction false} UnitsLessIrreflexive(a: seq<int>)
    ensures !UnitsLess(a, a)
  {
    if |a| > 0 {
      UnitsLessIrreflexive(a[1..]);
    }
  }

  lemma {:induction false} UnitsLessAsymmetric(a: seq<int>, b: seq<int>)
    ensures UnitsLess(a, b) ==> !UnitsLess(b, a)
  {
    if |a| > 0 && |b| > 0 && a[0] == b[0] {
      UnitsLessAsymmetric(a[1..], b[1..]);
    }
  }

  lemma {:induction false} UnitsLessTransitive(a: seq<int>, b: seq<int>, c: seq<int>)
    requires UnitsLess(a, b) && UnitsLess(b, c)
    ensures UnitsLess(a, c)
  {
    if |a| > 0 && |b| > 0 && |c| > 0 && a[0] == b[0] && b[0] == c[0] {
      UnitsLessTransitive(a[1..], b[1..], c[1..]);
    }
  }

  lemma {:induction false} UnitsLessTotal(a: seq<int>, b: seq<int>)
    ensures a == b || UnitsLess(a, b) || UnitsLess(b, a)
  {
    if |a| > 0 && |b| > 0 && a[0] == b[0] {
      UnitsLessTotal(a[1..], b[1..]);
      if a[1..] == b[1..] {
        assert a == [a[0]] + a[1..] && b == [b[0]] + b[1..];
      }
    }
  }

  lemma StrLessIrreflexive(a: string)
    ensures !StrLess(a, a)
  {
    UnitsLessIrreflexive(Utf16(a));
  }

  lemma StrLessAsymmetric(a: string, b: string)
    ensures StrLess(a, b) ==> !StrLess(b, a)
  {
    UnitsLessAsymmetric(Utf16(a), Utf16(b));
  }

  lemma StrLessTransitive(a: string, b: string, c: string)
    requires StrLess(a, b) && StrLess(b, c)
    ensures StrLess(a, c)
  {
    UnitsLessTransitive(Utf16(a), Utf16(b), Utf16(c));
  }

  /** Any two distinct strings are ordered one way or the other. */
  lemma StrLessTotal(a: string, b: string)
    ensures a == b || StrLess(a, b) || StrLess(b, a)
  {
    UnitsLessTotal(Utf16(a), Utf16(b));
    if Utf16(a) == Utf16(b) {
      Utf16Injective(a, b);
    }
  }

  /** U+1F600 is encoded from U+D83D, so it sorts before U+FF01 though its code point is larger. */
  lemma AstralSortsBelowHighBmp()
    ensures StrLess("\U{1F600}", "\U{FF01}") && !StrLess("\U{FF01}", "\U{1F600}")
  {
    assert Utf16("\U{1F600}") == [0xD83D, 0xDE00];
    assert Utf16("\U{FF01}") == [0xFF01];
  }

  // ---------------------------------------------------------------------
  // Strings of the Basic Multilingual Plane

  /** Every character of `s` is a single code unit. */
  predicate Bmp(s: string)
  {
    forall k :: 0 <= k < |s| ==> s[k] as int < 0x10000
  }

  /** Lexicographic order of code points. */
  predicate CodePointLess(a: string, b: string)
  {
    if |a| == 0 then |b| > 0
    else if |b| == 0 then false
    else if a[0] != b[0] then a[0] < b[0]
    else CodePointLess(a[1..], b[1..])
  }

  /** Within the Basic Multilingual Plane code units are code points, so the two orders agree. */
  lemma {:induction false} BmpOrderAgrees(a: string, b: string)
    requires Bmp(a) && Bmp(b)
    ensures StrLess(a, b) <==> CodePointLess(a, b)
  {
    if |a| > 0 && |b| > 0 {
      assert Utf16(a) == [a[0] as int] + Utf16(a[1..]);
      assert Utf16(b) == [b[0] as int] + Utf16(b[1..]);
      assert Utf16(a)[1..] == Utf16(a[1..]) && Utf16(b)[1..] == Utf16(b[1..]);
      assert Bmp(a[1..]) && Bmp(b[1..]) by {
        forall k | 0 <= k < |a| - 1 ensures a[1..][k] as int < 0x10000 { assert a[1..][k] == a[k + 1]; }
        forall k | 0 <= k < |b| - 1 ensures b[1..][k] as int < 0x10000 { assert b[1..][k] == b[k + 1]; }
      }
      BmpOrderAgrees(a[1..], b[1..]);
    }
  }

  /**
   * `s.findIndex(p)`: the index of the first element satisfying `p`, or -1
   * when there is none.
   */
  function FindIndex<T>(s: seq<T>, p: T -> bool): (i: int)
    ensures -1 <= i < |s|
    ensures i == -1 <==> forall j :: 0 <= j < |s| ==> !p(s[j])
    ensures 0 <= i ==> p(s[i]) && forall j :: 0 <= j < i ==> !p(s[j])
  {
    if |s| == 0 then -1
    else if p(s[0]) then 0
    else
      var k := FindIndex(s[1..], p);
      if k == -1 then -1 else k + 1
  }
}
