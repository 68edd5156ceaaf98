/**
 * String helpers shared by the model: `String.replace(char, char)`, the
 * unsigned decimal and hexadecimal renderings of `Integer.toString` and
 * `Long.toHexString`, and the comma joining of `StringJoiner`, each with the
 * inverse that shows no information is lost.
 */
module Text {

  /** `String.replace(from, to)`: every occurrence of `from` becomes `to`. */
  function Replace(s: string, from: char, to: char): (r: string)
    ensures |r| == |s|
    ensures forall i :: 0 <= i < |s| ==> r[i] == (if s[i] == from then to else s[i])
    ensures from != to ==> from !in r
  {
    if s == [] then [] else [if s[0] == from then to else s[0]] + Replace(s[1..], from, to)
  }

  lemma {:induction false} ReplaceAppend(a: string, b: string, from: char, to: char)
    ensures Replace(a + b, from, to) == Replace(a, from, to) + Replace(b, from, to)
  {
    var l, r := Replace(a + b, from, to), Replace(a, from, to) + Replace(b, from, to);
    assert |l| == |r|;
    forall i | 0 <= i < |l| ensures l[i] == r[i] {
      if i < |a| { assert (a + b)[i] == a[i]; } else { assert (a + b)[i] == b[i - |a|]; }
    }
  }

  function Pow(b: nat, k: nat): (r: nat)
    ensures b > 0 ==> r > 0
  {
    if k == 0 then 1 else b * Pow(b, k - 1)
  }

  // ---------------------------------------------------------------------
  // Unsigned positional rendering in base 10 or 16, lowercase, no padding
  // ---------------------------------------------------------------------

  predicate IsBase(base: nat) { base == 10 || base == 16 }

  /** The character for digit value `d`: '0'..'9', then lowercase 'a'..'f'. */
  function Digit(d: nat): (c: char)
    requires d < 16
    ensures ('0' <= c <= '9') || ('a' <= c <= 'f')
  {
    if d < 10 then ('0' as int + d) as char else ('a' as int + d - 10) as char
  }

  function DigitValue(c: char): nat
  {
    if '0' <= c <= '9' then c as int - '0' as int
    else if 'a' <= c <= 'f' then c as int - 'a' as int + 10
    else 0
  }

  predicate IsDigit(c: char, base: nat)
  {
    (('0' <= c <= '9') || ('a' <= c <= 'f')) && DigitValue(c) < base
  }

  lemma DigitRoundTrip(d: nat)
    requires d < 16
    ensures DigitValue(Digit(d)) == d
  {
  }

  /**
   * `n` written in `base` without leading zeros: "0" for zero, otherwise the
   * first digit is not '0'. Base 10 is `Integer.toString` of a non-negative
   * value, base 16 is `Long.toHexString` of the unsigned value.
   */
  function ToDigits(n: nat, base: nat): (r: string)
    requires IsBase(base)
    ensures |r| >= 1
    ensures forall i :: 0 <= i < |r| ==> IsDigit(r[i], base)
    ensures r[0] == '0' <==> n == 0
    decreases n
  {
    if n < base then
      DigitRoundTrip(n);
      [Digit(n)]
    else
      DigitRoundTrip(n % base);
      ToDigits(n / base, base) + [Digit(n % base)]
  }

  /** Reads a digit string back as a number, most significant digit first. */
  function ParseDigits(s: string, base: nat): nat
  {
    if s == [] then 0 else ParseDigits(s[..|s| - 1], base) * base + DigitValue(s[|s| - 1])
  }

  /** Rendering loses nothing: parsing the digits gives the number back. */
  lemma {:induction false} ParseToDigits(n: nat, base: nat)
    requires IsBase(base)
    ensures ParseDigits(ToDigits(n, base), base) == n
    decreases n
  {
    var r := ToDigits(n, base);
    if n < base {
      DigitRoundTrip(n);
      assert r[..|r| - 1] == [];
    } else {
      ParseToDigits(n / base, base);
      DigitRoundTrip(n % base);
      assert r[..|r| - 1] == ToDigits(n / base, base);
    }
  }

  /** Rendering is one-to-one. */
  lemma ToDigitsInjective(m: nat, n: nat, base: nat)
    requires IsBase(base) && ToDigits(m, base) == ToDigits(n, base)
    ensures m == n
  {
    ParseToDigits(m, base);
    ParseToDigits(n, base);
  }

  /** A number below base^k needs at most k digits. */
  lemma {:induction false} ToDigitsLength(n: nat, base: nat, k: nat)
    requires IsBase(base) && k >= 1 && n < Pow(base, k)
    ensures |ToDigits(n, base)| <= k
    decreases k
  {
    if n >= base {
      var q := n / base;
      assert Pow(base, 1) == base;
      assert k >= 2;
      assert q * base <= n;
      assert Pow(base, k) == Pow(base, k - 1) * base;
      MulMonotone(q, Pow(base, k - 1), base);
      ToDigitsLength(q, base, k - 1);
    }
  }

  lemma MulMonotone(a: nat, b: nat, c: nat)
    requires c > 0 && a * c < b * c
    ensures a < b
  {
  }

  // ---------------------------------------------------------------------
  // Joining with a separator (StringJoiner) and splitting back
  // ---------------------------------------------------------------------

  /** The elements of `xs` separated by `sep`, as `StringJoiner.add` builds them. */
  function Join(xs: seq<string>, sep: char): string
  {
    if xs == [] then [] else if |xs| == 1 then xs[0] else xs[0] + [sep] + Join(xs[1..], sep)
  }

  /** The position of the first `c` in `s`, or `|s|` when there is none. */
  function IndexOf(s: string, c: char): (k: nat)
    ensures k <= |s|
    ensures k < |s| ==> s[k] == c
    ensures forall j :: 0 <= j < k ==> s[j] != c
  {
    if s == [] then 0 else if s[0] == c then 0 else 1 + IndexOf(s[1..], c)
  }

  function Split(s: string, sep: char): seq<string>
    decreases |s|
  {
    var k := IndexOf(s, sep);
    if k == |s| then [s] else [s[..k]] + Split(s[k + 1..], sep)
  }

  predicate Free(xs: seq<string>, c: char)
  {
    forall x :: x in xs ==> c !in x
  }

  /** Joining is undone by splitting, provided no element contains the separator. */
  lemma {:induction false} SplitJoin(xs: seq<string>, sep: char)
    requires |xs| >= 1 && Free(xs, sep)
    ensures Split(Join(xs, sep), sep) == xs
    decreases |xs|
  {
    if |xs| == 1 {
      assert xs[0] in xs;
      assert IndexOf(xs[0], sep) == |xs[0]|;
    } else {
      var x, rest := xs[0], xs[1..];
      assert x in xs;
      var s := x + [sep] + Join(rest, sep);
      assert Join(xs, sep) == s;
      var k := IndexOf(s, sep);
      assert s[|x|] == sep;
      forall j | 0 <= j < |x| ensures s[j] != sep {
        assert s[j] == x[j];
        assert x[j] in x;
      }
      assert k == |x|;
      assert s[..k] == x;
      assert s[k + 1..] == Join(rest, sep);
      assert Free(rest, sep) by {
        forall y | y in rest ensures sep !in y { assert y in xs; }
      }
      SplitJoin(rest, sep);
    }
  }

  /** Concatenation is associative; the step a loop needs when it appends to what it already built. */
  lemma Assoc<T>(a: seq<T>, b: seq<T>, c: seq<T>)
    ensures a + (b + c) == a + b + c
  {
  }
}
