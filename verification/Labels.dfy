/** Local labels of the C back end (C.Ir/Label.cpp): a counter and decimal names. */
module Labels {

  function Digit(d: nat): (c: char)
    requires d < 10
  {
    "0123456789"[d]
  }

  /** `std::to_string` of a non-negative number. */
  function Decimal(n: nat): (s: string)
    ensures |s| > 0
  {
    if n < 10 then [Digit(n)] else Decimal(n / 10) + [Digit(n % 10)]
  }

  lemma DigitInjective(a: nat, b: nat)
    requires a < 10 && b < 10 && Digit(a) == Digit(b)
    ensures a == b
  {
  }

  lemma {:induction false} DecimalInjective(a: nat, b: nat)
    requires Decimal(a) == Decimal(b)
    ensures a == b
  {
    var s := Decimal(a);
    assert s[|s| - 1] == Digit(a % 10) && s[|s| - 1] == Digit(b % 10);
    DigitInjective(a % 10, b % 10);
    if a >= 10 && b >= 10 {
      assert s[..|s| - 1] == Decimal(a / 10) && s[..|s| - 1] == Decimal(b / 10);
      DecimalInjective(a / 10, b / 10);
    }
  }

  /** The number that decimal digits stand for. */
  function Value(s: string): nat
    requires forall i :: 0 <= i < |s| ==> '0' <= s[i] <= '9'
  {
    if s == "" then 0 else 10 * Value(s[..|s| - 1]) + (s[|s| - 1] as int - '0' as int)
  }

  /** The decimal text of a number is that number, written without superfluous zeros. */
  lemma {:induction false} DecimalValue(n: nat)
    ensures var s := Decimal(n); forall i :: 0 <= i < |s| ==> '0' <= s[i] <= '9'
    ensures Value(Decimal(n)) == n && (Decimal(n)[0] == '0' ==> n == 0)
  {
    DigitCode(n % 10);
    if n >= 10 {
      DecimalValue(n / 10);
      var s := Decimal(n);
      assert s[..|s| - 1] == Decimal(n / 10) && s[|s| - 1] == Digit(n % 10);
    } else {
      assert Decimal(n)[..0] == "";
    }
  }

  lemma DigitCode(d: nat)
    requires d < 10
    ensures Digit(d) as int == '0' as int + d
  {
  }

  /** The object name of the label that the counter value `n` gives. */
  function LocalLabel(n: nat): string {
    "_L_" + Decimal(n)
  }

  lemma LocalLabelInjective(a: nat, b: nat)
    requires LocalLabel(a) == LocalLabel(b)
    ensures a == b
  {
    assert LocalLabel(a)[3..] == Decimal(a) && LocalLabel(b)[3..] == Decimal(b);
    DecimalInjective(a, b);
  }

  /** No name in `names` can be produced by the counter from `k` on. */
  ghost predicate FreshFrom(names: set<string>, k: nat) {
    forall n: nat :: n >= k ==> LocalLabel(n) !in names
  }

  class LabelCounter {
    var next: nat

    constructor ()
      ensures next == 0
    {
      next := 0;
    }

    /** A set of names that is fresh for the counter stays so when the new label joins it. */
    method CreateNextLocalLabel(ghost names: set<string>) returns (name: string)
      modifies this
      ensures name == LocalLabel(old(next)) && next == old(next) + 1
      ensures old(FreshFrom(names, next)) ==> name !in names && FreshFrom(names + {name}, next)
    {
      name := LocalLabel(next);
      next := next + 1;
      forall n: nat | n >= next && LocalLabel(n) == name ensures false {
        LocalLabelInjective(n, old(next));
      }
    }

    method ResetLocalLabelCounter()
      modifies this
      ensures next == 0
    {
      next := 0;
    }
  }
}
