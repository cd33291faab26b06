/** Numbers written in decimal, as in event ids and choice labels. */
module Decimal {
  function Digits(n: nat): (s: string)
    ensures s != [] && forall i | 0 <= i < |s| :: '0' <= s[i] <= '9'
  {
    if n < 10 then [(n as char) + '0'] else Digits(n / 10) + [((n % 10) as char) + '0']
  }

  function Value(s: string): int
  {
    if s == [] then 0 else 10 * Value(s[..|s| - 1]) + (s[|s| - 1] as int - '0' as int)
  }

  lemma {:induction false} DigitsFaithful(n: nat)
    ensures Value(Digits(n)) == n
  {
    if n >= 10 {
      DigitsFaithful(n / 10);
      var s := Digits(n);
      assert s[..|s| - 1] == Digits(n / 10);
    } else {
      assert Digits(n)[..0] == [];
    }
  }

  /** In name:number, the colon before the number is the last one. */
  lemma LastColon(a: string, x: string)
    requires forall i | 0 <= i < |x| :: '0' <= x[i] <= '9'
    ensures (a + ":" + x)[|a|] == ':' && forall k | |a| < k < |a + ":" + x| :: (a + ":" + x)[k] != ':'
  {
    forall k | |a| < k < |a + ":" + x|
      ensures (a + ":" + x)[k] != ':'
    {
      assert (a + ":" + x)[k] == x[k - |a| - 1];
    }
  }

  /** An id of the form name:number determines both its parts, whatever colons
      the name contains. */
  lemma TaggedNumberFaithful(a: string, m: nat, b: string, n: nat)
    requires a + ":" + Digits(m) == b + ":" + Digits(n)
    ensures a == b && m == n
  {
    var s, x, y := a + ":" + Digits(m), Digits(m), Digits(n);
    LastColon(a, x);
    LastColon(b, y);
    assert |a| == |b|;
    assert a == s[..|a|] == b && x == s[|a| + 1..] == y;
    DigitsFaithful(m);
    DigitsFaithful(n);
  }
}
