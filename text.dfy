/** Python's `str()` on the values the ledger and the entities render:
    decimal integers and the booleans `True`/`False`, plus the facts
    about sequence concatenation that tamper detection rests on. */
module Text {

  predicate IsDigit(c: char) {
    '0' <= c <= '9'
  }

  function DigitChar(d: nat): (c: char)
    requires d < 10
    ensures IsDigit(c)
  {
    ('0' as int + d) as char
  }

  /** The number a string of decimal digits denotes, most significant first. */
  function DecimalValue(s: string): int
    decreases |s|
  {
    if |s| == 0 then 0 else DecimalValue(s[..|s| - 1]) * 10 + (s[|s| - 1] as int - '0' as int)
  }

  /** Decimal rendering of a natural number, most significant digit first. */
  function NatToString(n: nat): (s: string)
    ensures |s| >= 1
    ensures n >= 10 ==> |s| >= 2
    ensures forall k :: 0 <= k < |s| ==> IsDigit(s[k])
    decreases n
  {
    if n < 10 then [DigitChar(n)] else NatToString(n / 10) + [DigitChar(n % 10)]
  }

  /** The rendering spells `n` in decimal. */
  lemma {:induction false} NatToStringValue(n: nat)
    ensures DecimalValue(NatToString(n)) == n
    decreases n
  {
    if n >= 10 {
      var s := NatToString(n);
      assert s[..|s| - 1] == NatToString(n / 10);
      NatToStringValue(n / 10);
    }
  }

  /** `str(i)` for a Python int: a leading '-' exactly for negative values,
      followed by the decimal digits of the magnitude. */
  function IntToString(i: int): (s: string)
    ensures |s| >= 1
    ensures s[0] == '-' <==> i < 0
    ensures IsDigit(s[0]) || s[0] == '-'
    ensures forall k :: 1 <= k < |s| ==> IsDigit(s[k])
  {
    if i < 0 then "-" + NatToString(-i) else NatToString(i)
  }

  /** After the sign, `str(i)` spells the magnitude of `i` in decimal. */
  lemma IntToStringValue(i: int)
    ensures i >= 0 ==> DecimalValue(IntToString(i)) == i
    ensures i < 0 ==> DecimalValue(IntToString(i)[1..]) == -i
  {
    if i < 0 {
      assert IntToString(i)[1..] == NatToString(-i);
      NatToStringValue(-i);
    } else {
      NatToStringValue(i);
    }
  }

  /** `str(b)` for a Python bool. */
  function BoolToString(b: bool): (s: string)
    ensures s == "True" || s == "False"
    ensures (s == "True") == b
  {
    if b then "True" else "False"
  }

  lemma {:induction false} NatToStringInjective(m: nat, n: nat)
    requires NatToString(m) == NatToString(n)
    ensures m == n
    decreases m
  {
    var s := NatToString(m);
    if m < 10 && n < 10 {
      assert s[0] == DigitChar(m) && s[0] == DigitChar(n);
    } else if m >= 10 && n >= 10 {
      var last := |s| - 1;
      assert s[last] == DigitChar(m % 10) && s[last] == DigitChar(n % 10);
      assert s[..last] == NatToString(m / 10) && s[..last] == NatToString(n / 10);
      NatToStringInjective(m / 10, n / 10);
    }
    // otherwise one rendering has a single digit and the other at least two
  }

  /** Distinct integers render differently, so a diagnostic names one block. */
  lemma IntToStringInjective(i: int, j: int)
    requires IntToString(i) == IntToString(j)
    ensures i == j
  {
    var s := IntToString(i);
    if i < 0 && j < 0 {
      assert s[1..] == NatToString(-i) && s[1..] == NatToString(-j);
      NatToStringInjective(-i, -j);
    } else if i >= 0 && j >= 0 {
      NatToStringInjective(i, j);
    }
    // otherwise exactly one rendering starts with '-'
  }

  /** Equal concatenations with a common prefix and suffix agree in the middle. */
  lemma CancelMiddle(a: string, x: string, y: string, b: string)
    requires a + x + b == a + y + b
    ensures x == y
  {
    var u := a + x + b;
    assert |x| == |y|;
    assert x == u[|a|..|a| + |x|];
    assert y == u[|a|..|a| + |y|];
  }

  /** Equal concatenations with a common suffix agree on the rest. */
  lemma CancelSuffix(x: string, y: string, b: string)
    requires x + b == y + b
    ensures x == y
  {
    assert x == (x + b)[..|x|];
    assert y == (y + b)[..|y|];
  }
}
