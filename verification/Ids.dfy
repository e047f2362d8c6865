/** Textual ids: an allocation is named after its evaluation and its position in the plan. */
module Ids {

  function Digit(d: nat): (c: char)
    requires d < 10
    ensures c != '-'
  {
    ('0' as int + d) as char
  }

  /** The decimal rendering of a number. */
  function Decimal(n: nat): (s: string)
    ensures s != [] && '-' !in s
  {
    if n < 10 then [Digit(n)] else Decimal(n / 10) + [Digit(n % 10)]
  }

  function AllocId(evalId: string, index: nat): string {
    evalId + "-" + Decimal(index)
  }

  /** The number a rendering stands for. */
  function Value(s: string): int {
    if |s| == 0 then 0 else 10 * Value(s[..|s| - 1]) + (s[|s| - 1] as int - '0' as int)
  }

  lemma {:induction false} DecimalRoundTrip(n: nat)
    ensures Value(Decimal(n)) == n
  {
    var s := Decimal(n);
    if n >= 10 {
      DecimalRoundTrip(n / 10);
      assert s[..|s| - 1] == Decimal(n / 10);
    } else {
      assert Value(s[..0]) == 0;
    }
  }

  /** Where a name splits into a prefix and a dash-free suffix is unique. */
  lemma LastDashUnique(e: string, x: string, f: string, y: string)
    requires e + "-" + x == f + "-" + y && '-' !in x && |e| <= |f|
    ensures e == f && x == y
  {
    var s := e + "-" + x;
    assert s[|f|] == '-';
    assert |e| == |f|;
    assert s[..|e|] == e && s[..|f|] == f;
    assert s[|e| + 1..] == x && s[|f| + 1..] == y;
  }

  /** The evaluation and the position are recoverable from the name. */
  lemma AllocIdInjective(e: string, i: nat, f: string, j: nat)
    requires AllocId(e, i) == AllocId(f, j)
    ensures e == f && i == j
  {
    if |e| <= |f| {
      LastDashUnique(e, Decimal(i), f, Decimal(j));
    } else {
      LastDashUnique(f, Decimal(j), e, Decimal(i));
    }
    DecimalRoundTrip(i);
    DecimalRoundTrip(j);
  }
}
