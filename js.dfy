/** The few JavaScript runtime notions the style registry and its helpers
    rest on: optional values, thrown errors, option bags, `Array.prototype.indexOf`
    and the decimal text a number turns into inside a template literal. */
module Js {

  datatype Option<+T> = None | Some(value: T)

  /** A thrown JavaScript error. */
  datatype JsError = TypeError(message: string) | Error(message: string)

  /** The completion of a call that may throw. */
  datatype Result<+T> = Ok(value: T) | Err(error: JsError)

  /** A value stored in an options bag (`{ index: 2, meta: 'foo-1', Renderer: … }`). */
  datatype OptionValue = Text(s: string) | Number(n: int) | Opaque(tag: nat)

  /** An options bag; own keys only. */
  type Options = map<string, OptionValue>

  /** `s.indexOf(x)`: the first position holding `x`, or -1. */
  function IndexOf<T(==)>(s: seq<T>, x: T): (r: int)
    ensures -1 <= r < |s|
    ensures r == -1 <==> x !in s
    ensures r >= 0 ==> s[r] == x && x !in s[..r]
  {
    if |s| == 0 then -1
    else if s[0] == x then 0
    else
      var k := IndexOf(s[1..], x);
      if k >= 0 then
        assert s[..k + 1] == [s[0]] + s[1..][..k];
        k + 1
      else
        assert s == [s[0]] + s[1..];
        -1
  }

  /** Past a first element that differs, `indexOf` searches the rest. */
  lemma IndexOfTail<T>(s: seq<T>, x: T)
    requires |s| > 0 && s[0] != x
    ensures IndexOf(s, x) == (var k := IndexOf(s[1..], x); if k == -1 then -1 else k + 1)
  {
  }

  predicate IsDigit(c: char) { '0' <= c <= '9' }

  predicate AllDigits(s: string) { forall i :: 0 <= i < |s| ==> IsDigit(s[i]) }

  function DigitChar(d: nat): (c: char)
    requires d < 10
    ensures IsDigit(c)
  {
    ['0', '1', '2', '3', '4', '5', '6', '7', '8', '9'][d]
  }

  function DigitValue(c: char): (d: nat)
    requires IsDigit(c)
    ensures d < 10
  {
    (c as int) - ('0' as int)
  }

  lemma DigitRoundTrip(d: nat)
    requires d < 10
    ensures DigitValue(DigitChar(d)) == d
  {
  }

  /** The decimal text of a natural number, as `${n}` writes it. */
  function NatToString(n: nat): (s: string)
    ensures |s| > 0 && AllDigits(s)
  {
    if n < 10 then [DigitChar(n)] else NatToString(n / 10) + [DigitChar(n % 10)]
  }

  /** The decimal text of an integer, with a leading minus sign when negative. */
  function IntToString(i: int): (s: string)
    ensures |s| > 0
    ensures i >= 0 ==> AllDigits(s)
  {
    if i < 0 then "-" + NatToString(-i) else NatToString(i)
  }

  /** Reads a string of decimal digits back as the number it denotes. */
  function ParseDigits(s: string): nat
    requires AllDigits(s)
  {
    if |s| == 0 then 0 else 10 * ParseDigits(s[..|s| - 1]) + DigitValue(s[|s| - 1])
  }

  /** The decimal text determines the number: ParseDigits inverts NatToString. */
  lemma {:induction false} NatToStringRoundTrip(n: nat)
    ensures ParseDigits(NatToString(n)) == n
  {
    var s := NatToString(n);
    if n < 10 {
      DigitRoundTrip(n);
    } else {
      assert s[..|s| - 1] == NatToString(n / 10);
      NatToStringRoundTrip(n / 10);
      DigitRoundTrip(n % 10);
    }
  }

  /** Distinct numbers have distinct decimal texts. */
  lemma NatToStringInjective(m: nat, n: nat)
    requires NatToString(m) == NatToString(n)
    ensures m == n
  {
    NatToStringRoundTrip(m);
    NatToStringRoundTrip(n);
  }

  /** Regrouping a concatenation; stated once so that callers can supply the
      single step they need. */
  lemma AppendAssociative<T>(a: seq<T>, b: seq<T>, c: seq<T>)
    ensures (a + b) + c == a + (b + c)
  {
  }

  /** Strings that agree after a common prefix are equal. */
  lemma PrefixCancel(p: string, a: string, b: string)
    requires p + a == p + b
    ensures a == b
  {
    assert a == (p + a)[|p|..];
    assert b == (p + b)[|p|..];
  }

  /** Strings that agree before a common suffix are equal. */
  lemma SuffixCancel(a: string, b: string, q: string)
    requires a + q == b + q
    ensures a == b
  {
    assert |a| == |b|;
    assert a == (a + q)[..|a|];
    assert b == (b + q)[..|b|];
  }
}
