/** String operations of the JavaScript runtime that the survey code relies on:
    whitespace (as `trim` and `/\s/` see it), joining, number-to-string
    conversion, UTF-16 length, lower-casing and `indexOf`. */
module Strings {

  /** ECMAScript WhiteSpace and LineTerminator code points: the characters
      `String.prototype.trim` strips and the regular expression `\s` matches. */
  predicate IsWhitespace(c: char) {
    || c == '\t' || c == '\n' || c == '\U{000B}' || c == '\U{000C}' || c == '\r'
    || c == ' ' || c == '\U{00A0}' || c == '\U{1680}'
    || ('\U{2000}' <= c <= '\U{200A}')
    || c == '\U{2028}' || c == '\U{2029}' || c == '\U{202F}' || c == '\U{205F}'
    || c == '\U{3000}' || c == '\U{FEFF}'
  }

  /** `/\s/.test(s)` */
  predicate HasWhitespace(s: string) {
    exists i :: 0 <= i < |s| && IsWhitespace(s[i])
  }

  /** Every character is whitespace (the empty string included). */
  predicate Blank(s: string) {
    forall i :: 0 <= i < |s| ==> IsWhitespace(s[i])
  }

  function TrimStart(s: string): (r: string)
    ensures |r| <= |s|
    ensures r == [] || !IsWhitespace(r[0])
    ensures r == s[|s| - |r|..]
  {
    if s == [] || !IsWhitespace(s[0]) then s else TrimStart(s[1..])
  }

  function TrimEnd(s: string): (r: string)
    ensures |r| <= |s|
    ensures r == [] || !IsWhitespace(r[|r| - 1])
    ensures r == s[..|r|]
  {
    if s == [] || !IsWhitespace(s[|s| - 1]) then s else TrimEnd(s[..|s| - 1])
  }

  /** `s.trim()` */
  function Trim(s: string): string {
    TrimEnd(TrimStart(s))
  }

  lemma {:induction false} TrimStartBlank(s: string)
    ensures TrimStart(s) == [] <==> Blank(s)
  {
    if s != [] && IsWhitespace(s[0]) {
      var t := s[1..];
      TrimStartBlank(t);
      assert TrimStart(s) == TrimStart(t);
      if Blank(t) {
        forall i | 0 <= i < |s| ensures IsWhitespace(s[i]) {
          if i > 0 { assert s[i] == t[i - 1]; }
        }
      }
      if Blank(s) {
        forall i | 0 <= i < |t| ensures IsWhitespace(t[i]) {
          assert t[i] == s[i + 1];
        }
      }
    } else if s != [] {
      assert TrimStart(s) == s;
      assert !IsWhitespace(s[0]);
    }
  }

  /** A string trims to nothing exactly when it is blank. */
  lemma TrimEmptyIffBlank(s: string)
    ensures Trim(s) == [] <==> Blank(s)
  {
    TrimStartBlank(s);
    var t := TrimStart(s);
    if t != [] {
      TrimEndBlank(t);
      assert !IsWhitespace(t[0]);
    }
  }

  lemma {:induction false} TrimEndBlank(s: string)
    ensures TrimEnd(s) == [] <==> Blank(s)
  {
    if s != [] && IsWhitespace(s[|s| - 1]) {
      var p := s[..|s| - 1];
      TrimEndBlank(p);
      if Blank(p) {
        forall i | 0 <= i < |s| ensures IsWhitespace(s[i]) {
          if i < |s| - 1 { assert s[i] == p[i]; }
        }
      }
      if Blank(s) {
        forall i | 0 <= i < |p| ensures IsWhitespace(p[i]) {
          assert p[i] == s[i];
        }
      }
    } else if s != [] {
      assert !IsWhitespace(s[|s| - 1]);
    }
  }

  /** A string without whitespace is its own trim. */
  lemma NoWhitespaceTrim(s: string)
    requires !HasWhitespace(s)
    ensures Trim(s) == s
  {
    assert s == [] || !IsWhitespace(s[0]);
    assert TrimStart(s) == s;
    assert s == [] || !IsWhitespace(s[|s| - 1]);
  }

  /** `items.map(f)` */
  function MapSeq<A, B>(items: seq<A>, f: A -> B): (r: seq<B>)
    ensures |r| == |items|
    ensures forall i :: 0 <= i < |items| ==> r[i] == f(items[i])
  {
    seq(|items|, i requires 0 <= i < |items| => f(items[i]))
  }

  lemma ConsAt<T>(x: T, items: seq<T>)
    ensures forall i :: 0 < i <= |items| ==> ([x] + items)[i] == items[i - 1]
  {
  }

  /** `items.filter(keep)` */
  function Filter<T>(items: seq<T>, keep: T -> bool): (r: seq<T>)
    ensures |r| <= |items|
    ensures forall x | x in r :: x in items && keep(x)
    ensures forall x | x in items && keep(x) :: x in r
  {
    if items == [] then []
    else (if keep(items[0]) then [items[0]] else []) + Filter(items[1..], keep)
  }

  /** The first item a filter keeps is the earliest item it keeps. */
  lemma {:induction false} FilterFirst<T>(items: seq<T>, keep: T -> bool) returns (i: nat)
    requires Filter(items, keep) != []
    ensures i < |items| && items[i] == Filter(items, keep)[0] && keep(items[i])
    ensures forall j :: 0 <= j < i ==> !keep(items[j])
  {
    if keep(items[0]) {
      assert Filter(items, keep) == [items[0]] + Filter(items[1..], keep);
      i := 0;
    } else {
      assert Filter(items, keep) == Filter(items[1..], keep);
      var i' := FilterFirst(items[1..], keep);
      i := i' + 1;
      forall j | 0 < j < i ensures !keep(items[j]) {
        assert items[j] == items[1..][j - 1];
      }
    }
  }

  /** `[x, ...items.map(f)]` */
  lemma MapSeqCons<A, B>(x: B, items: seq<A>, f: A -> B)
    ensures forall i :: 0 < i <= |items| ==> ([x] + MapSeq(items, f))[i] == f(items[i - 1])
  {
  }

  /** `parts.join(sep)` */
  function Join(parts: seq<string>, sep: string): (r: string)
    ensures |parts| == 1 ==> r == parts[0]
  {
    if |parts| == 0 then ""
    else if |parts| == 1 then parts[0]
    else parts[0] + sep + Join(parts[1..], sep)
  }

  function DigitChar(d: nat): (c: char)
    requires d < 10
    ensures '0' <= c <= '9'
  {
    ['0', '1', '2', '3', '4', '5', '6', '7', '8', '9'][d]
  }

  /** Decimal notation of a non-negative integer, as `String(n)` prints it. */
  function NatToDecimal(n: nat): (r: string)
    ensures |r| >= 1
    ensures forall i :: 0 <= i < |r| ==> '0' <= r[i] <= '9'
    ensures (n < 10) == (|r| == 1)
    decreases n
  {
    if n < 10 then [DigitChar(n)] else NatToDecimal(n / 10) + [DigitChar(n % 10)]
  }

  lemma DigitCharInjective(a: nat, b: nat)
    requires a < 10 && b < 10 && DigitChar(a) == DigitChar(b)
    ensures a == b
  {
  }

  /** Distinct numbers print differently. */
  lemma {:induction false} NatToDecimalInjective(a: nat, b: nat)
    requires NatToDecimal(a) == NatToDecimal(b)
    ensures a == b
    decreases a
  {
    var s := NatToDecimal(a);
    if a < 10 {
      assert b < 10;
      DigitCharInjective(a, b);
    } else {
      assert b >= 10;
      var sa, sb := NatToDecimal(a / 10), NatToDecimal(b / 10);
      assert s == sa + [DigitChar(a % 10)];
      assert s == sb + [DigitChar(b % 10)];
      assert |sa| == |sb|;
      assert sa == s[..|s| - 1] == sb;
      DigitCharInjective(a % 10, b % 10);
      NatToDecimalInjective(a / 10, b / 10);
    }
  }

  /** Decimal notation of an integer, with a leading minus sign when negative. */
  function IntToDecimal(n: int): (r: string)
    ensures |r| >= 1
  {
    if n < 0 then "-" + NatToDecimal(-n) else NatToDecimal(n)
  }

  /** Decimal notation without a sign never starts with a minus sign. */
  lemma NatToDecimalUnsigned(n: nat)
    ensures NatToDecimal(n)[0] != '-'
  {
    assert '0' <= NatToDecimal(n)[0] <= '9';
  }

  lemma DropSign(x: string, y: string)
    requires "-" + x == "-" + y
    ensures x == y
  {
    assert x == ("-" + x)[1..];
    assert y == ("-" + y)[1..];
  }

  lemma IntToDecimalInjective(a: int, b: int)
    requires IntToDecimal(a) == IntToDecimal(b)
    ensures a == b
  {
    if a < 0 && b < 0 {
      DropSign(NatToDecimal(-a), NatToDecimal(-b));
      NatToDecimalInjective(-a, -b);
    } else if a >= 0 && b >= 0 {
      NatToDecimalInjective(a, b);
    } else if a < 0 {
      NatToDecimalUnsigned(b);
    } else {
      NatToDecimalUnsigned(a);
    }
  }

  /** `s.length`: JavaScript counts UTF-16 code units, so a character outside
      the Basic Multilingual Plane counts twice. */
  function Utf16Length(s: string): (n: nat)
    ensures |s| <= n <= 2 * |s|
  {
    if s == [] then 0 else (if s[0] as int > 0xFFFF then 2 else 1) + Utf16Length(s[1..])
  }

  /** Lower-casing of the ASCII letters A-Z; every other character is kept. */
  function LowerChar(c: char): (r: char)
    ensures !('A' <= r <= 'Z')
    ensures IsWhitespace(r) == IsWhitespace(c)
  {
    if 'A' <= c <= 'Z' then (c as int - 'A' as int + 'a' as int) as char else c
  }

  function ToLower(s: string): (r: string)
    ensures |r| == |s|
    ensures forall i :: 0 <= i < |s| ==> r[i] == LowerChar(s[i])
  {
    if s == [] then [] else [LowerChar(s[0])] + ToLower(s[1..])
  }

  /** `s.indexOf(x)`: the first position of `x`, or -1. */
  function IndexOf(s: seq<string>, x: string): (r: int)
    ensures -1 <= r < |s|
    ensures r == -1 <==> x !in s
    ensures r >= 0 ==> s[r] == x && x !in s[..r]
  {
    if s == [] then -1
    else if s[0] == x then 0
    else var i := IndexOf(s[1..], x); (if i == -1 then -1 else i + 1)
  }
}
