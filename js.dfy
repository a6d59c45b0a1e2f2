/** The JavaScript built-ins the image studio's handlers lean on, stated over
    Dafny values: nullish values and `??`, `String.prototype.trim`,
    `toLowerCase`, `includes`, `Math.round` of an integer ratio, the `%`
    operator and the decimal text of an integer. */
module Js {

  /** A value that may be `null` or `undefined`. */
  datatype Option<+T> = None | Some(value: T) {

    /** `x ?? d`: the value unless it is nullish; a present falsy value such
        as 0 or "" is kept. */
    function GetOr(default: T): T {
      match this
      case Some(v) => v
      case None => default
    }
  }

  function Min(a: int, b: int): int { if a <= b then a else b }

  function Max(a: int, b: int): int { if a >= b then a else b }

  // ---------------------------------------------------------------------
  // Strings
  // ---------------------------------------------------------------------

  /** The code points `String.prototype.trim` removes: ECMAScript's
      WhiteSpace and LineTerminator characters. */
  predicate IsSpace(c: char) {
    var n := c as int;
    n == 0x09 || n == 0x0A || n == 0x0B || n == 0x0C || n == 0x0D || n == 0x20
    || n == 0xA0 || n == 0x1680 || (0x2000 <= n <= 0x200A) || n == 0x2028
    || n == 0x2029 || n == 0x202F || n == 0x205F || n == 0x3000 || n == 0xFEFF
  }

  /** `s` with its leading white space removed. */
  function TrimStart(s: string): (r: string)
    ensures |r| <= |s| && r == s[|s| - |r|..]
    ensures r == [] || !IsSpace(r[0])
    ensures forall i :: 0 <= i < |s| - |r| ==> IsSpace(s[i])
  {
    if s != [] && IsSpace(s[0]) then TrimStart(s[1..]) else s
  }

  /** `s` with its trailing white space removed. */
  function TrimEnd(s: string): (r: string)
    ensures |r| <= |s| && r == s[..|r|]
    ensures r == [] || !IsSpace(r[|r| - 1])
    ensures forall i :: |r| <= i < |s| ==> IsSpace(s[i])
  {
    if s != [] && IsSpace(s[|s| - 1]) then TrimEnd(s[..|s| - 1]) else s
  }

  /** `s.trim()`. */
  function Trim(s: string): (r: string)
    ensures r == [] || (!IsSpace(r[0]) && !IsSpace(r[|r| - 1]))
  {
    TrimEnd(TrimStart(s))
  }

  /** Trimming twice is trimming once. */
  lemma TrimIdempotent(s: string)
    ensures Trim(Trim(s)) == Trim(s)
  {
    var t := Trim(s);
    assert TrimStart(t) == t;
    assert TrimEnd(t) == t;
  }

  /** Trailing white space of a concatenation comes from its right part
      first: if that part is all white space it vanishes and the left part
      is trimmed in turn. */
  lemma {:induction false} TrimEndAppend(a: string, b: string)
    ensures TrimEnd(a + b) == if TrimEnd(b) == [] then TrimEnd(a) else a + TrimEnd(b)
    decreases |b|
  {
    if b == [] {
      assert a + b == a;
    } else if IsSpace(b[|b| - 1]) {
      var b' := b[..|b| - 1];
      assert (a + b)[..|a + b| - 1] == a + b';
      TrimEndAppend(a, b');
    }
  }

  /** A string trims to nothing exactly when it is all white space. */
  lemma TrimEmpty(s: string)
    ensures Trim(s) == [] <==> forall i :: 0 <= i < |s| ==> IsSpace(s[i])
  {
  }

  /** A string that starts with a character other than white space loses
      nothing at its front. */
  lemma TrimStartKeeps(s: string)
    requires s != [] && !IsSpace(s[0])
    ensures TrimStart(s) == s
  {
  }

  function LowerChar(c: char): char {
    if 'A' <= c <= 'Z' then (c as int + 32) as char else c
  }

  /** `s.toLowerCase()` for the letters A to Z: no capital is left, and
      every other character stays where it was. */
  function ToLower(s: string): (r: string)
    ensures |r| == |s|
    ensures forall i :: 0 <= i < |r| ==> !('A' <= r[i] <= 'Z')
    ensures forall i :: 0 <= i < |s| && !('A' <= s[i] <= 'Z') ==> r[i] == s[i]
  {
    seq(|s|, i requires 0 <= i < |s| => LowerChar(s[i]))
  }

  predicate StartsWith(s: string, prefix: string) {
    |prefix| <= |s| && s[..|prefix|] == prefix
  }

  /** `s.includes(part)`: `part` occurs in `s` at some position. */
  predicate Includes(s: string, part: string) {
    StartsWith(s, part) || (s != [] && Includes(s[1..], part))
  }

  /** `part` is included exactly when it starts some suffix of `s`. */
  lemma {:induction false} IncludesAt(s: string, part: string)
    ensures Includes(s, part) <==> exists i :: 0 <= i <= |s| && StartsWith(s[i..], part)
  {
    assert s[0..] == s;
    if s != [] {
      IncludesAt(s[1..], part);
      forall i | 1 <= i <= |s|
        ensures s[i..] == s[1..][i - 1..]
      {
      }
      if exists i :: 0 <= i <= |s| && StartsWith(s[i..], part) {
        var i :| 0 <= i <= |s| && StartsWith(s[i..], part);
        if i > 0 {
          assert StartsWith(s[1..][i - 1..], part);
        }
      }
    }
  }

  // ---------------------------------------------------------------------
  // Numbers
  // ---------------------------------------------------------------------

  /** `Math.round(p / q)` for a positive q: the integer nearest to p/q,
      with halves rounded up (`Math.round(x)` is the floor of x + 1/2). */
  function RoundDiv(p: int, q: int): (r: int)
    requires q > 0
    ensures 2 * q * r - q <= 2 * p < 2 * q * r + q
  {
    var d := 2 * q;
    var r := (2 * p + q) / d;
    assert d * r <= 2 * p + q < d * r + d by {
      assert 2 * p + q == d * r + (2 * p + q) % d;
    }
    r
  }

  /** The quotient JavaScript's `%` goes with: a / b truncated toward zero. */
  function TruncDiv(a: int, b: int): int
    requires b > 0
  {
    if a >= 0 then a / b else -((-a) / b)
  }

  /** `a % b` for a positive b: what is left of a after taking away b times
      the truncated quotient, smaller than b in size and with the sign of a. */
  function Remainder(a: int, b: int): (r: int)
    requires b > 0
    ensures -b < r < b
    ensures a >= 0 ==> r >= 0
    ensures a < 0 ==> r <= 0
  {
    if a >= 0 then a % b else -((-a) % b)
  }

  /** The remainder is what the truncated quotient leaves: with the bounds
      and the sign above, this fixes it. */
  lemma RemainderValue(a: int, b: int)
    requires b > 0
    ensures a == b * TruncDiv(a, b) + Remainder(a, b)
  {
    if a < 0 {
      assert -a == b * ((-a) / b) + (-a) % b;
    }
  }

  function DigitChar(d: int): char
    requires 0 <= d < 10
  {
    ('0' as int + d) as char
  }

  /** The decimal digits of n, without leading zeros. */
  function NatToString(n: nat): (r: string)
    ensures r != []
    ensures forall k :: 0 <= k < |r| ==> '0' <= r[k] <= '9'
    ensures |r| == 1 <==> n < 10
  {
    if n < 10 then [DigitChar(n)] else NatToString(n / 10) + [DigitChar(n % 10)]
  }

  /** Different numbers have different digits. */
  lemma {:induction false} NatToStringInjective(n: nat, m: nat)
    requires NatToString(n) == NatToString(m)
    ensures n == m
  {
    if n >= 10 && m >= 10 {
      var a, b := NatToString(n), NatToString(m);
      assert a[..|a| - 1] == NatToString(n / 10);
      assert b[..|b| - 1] == NatToString(m / 10);
      NatToStringInjective(n / 10, m / 10);
      assert DigitChar(n % 10) == a[|a| - 1] == b[|b| - 1] == DigitChar(m % 10);
    } else if n < 10 && m < 10 {
      assert DigitChar(n) == DigitChar(m);
    }
  }

  /** The decimal text of an integer, as a template literal renders it: a
      minus sign exactly for a negative number, then its digits. */
  function IntToString(n: int): string {
    if n < 0 then "-" + NatToString(-n) else NatToString(n)
  }

  /** Different integers have different texts: the sign tells negatives
      from the rest, and the digits do the remaining work. */
  lemma IntToStringInjective(n: int, m: int)
    requires IntToString(n) == IntToString(m)
    ensures n == m
  {
    var a, b := IntToString(n), IntToString(m);
    assert a[0] == '-' <==> n < 0;
    assert b[0] == '-' <==> m < 0;
    if n < 0 && m < 0 {
      assert a[1..] == NatToString(-n);
      assert b[1..] == NatToString(-m);
      NatToStringInjective(-n, -m);
    } else if n >= 0 && m >= 0 {
      NatToStringInjective(n, m);
    }
  }
}
