/**
 * Tempvar: unique temporary variable names "tmp1", "tmp2", ... drawn from a
 * counter. The package-level counter TempCount becomes the field of a class
 * whose method increments it; the names are the counter printed in decimal,
 * as fmt's %d verb prints an int.
 */
module TempVars {

  /** The decimal digit for 0 <= d < 10. */
  function Digit(d: int): char
    requires 0 <= d < 10
  {
    ('0' as int + d) as char
  }

  predicate IsDigits(s: string)
  {
    forall i :: 0 <= i < |s| ==> '0' <= s[i] <= '9'
  }

  /** The decimal digits of n, most significant first, without leading zeros. */
  function NatToDecimal(n: nat): (r: string)
    ensures |r| > 0 && IsDigits(r)
    ensures |r| > 1 ==> r[0] != '0'
    decreases n
  {
    if n < 10 then [Digit(n)] else NatToDecimal(n / 10) + [Digit(n % 10)]
  }

  /** %d applied to an int: a minus sign before the digits of a negative number. */
  function IntToDecimal(i: int): (r: string)
    ensures |r| > 0
    ensures i < 0 <==> r[0] == '-'
  {
    if i < 0 then "-" + NatToDecimal(-i) else NatToDecimal(i)
  }

  /** The value of a string of decimal digits: the inverse of NatToDecimal. */
  function DecimalValue(s: string): nat
    requires IsDigits(s)
  {
    if s == [] then 0 else DecimalValue(s[..|s| - 1]) * 10 + (s[|s| - 1] as int - '0' as int)
  }

  /** Reading back the digits of n gives n. */
  lemma {:induction false} DecimalRoundTrip(n: nat)
    ensures DecimalValue(NatToDecimal(n)) == n
    decreases n
  {
    var r := NatToDecimal(n);
    if n >= 10 {
      DecimalRoundTrip(n / 10);
      assert r[..|r| - 1] == NatToDecimal(n / 10);
    }
  }

  /** Distinct naturals have distinct digits. */
  lemma NatToDecimalInjective(m: nat, n: nat)
    requires NatToDecimal(m) == NatToDecimal(n)
    ensures m == n
  {
    DecimalRoundTrip(m);
    DecimalRoundTrip(n);
  }

  /** Distinct numbers print differently. */
  lemma IntToDecimalInjective(i: int, j: int)
    requires IntToDecimal(i) == IntToDecimal(j)
    ensures i == j
  {
    var r := IntToDecimal(i);
    if i < 0 {
      assert j < 0 by { assert r[0] == '-'; }
      assert r == "-" + NatToDecimal(-i) == "-" + NatToDecimal(-j);
      assert NatToDecimal(-i) == r[1..] == NatToDecimal(-j);
      NatToDecimalInjective(-i, -j);
    } else {
      assert j >= 0 by { assert r[0] != '-'; }
      NatToDecimalInjective(i, j);
    }
  }

  /** The name Tempvar returns once the counter has reached count. */
  function TempName(count: int): string
  {
    "tmp" + IntToDecimal(count)
  }

  /** Distinct counter values give distinct names. */
  lemma TempNameInjective(i: int, j: int)
    requires i != j
    ensures TempName(i) != TempName(j)
  {
    if TempName(i) == TempName(j) {
      assert TempName(i)[3..] == IntToDecimal(i);
      assert TempName(j)[3..] == IntToDecimal(j);
      IntToDecimalInjective(i, j);
    }
  }

  /** The counter behind Tempvar, with the counter values already handed out. */
  class TempCounter {
    var TempCount: int
    ghost var used: set<int>

    /** Every counter value handed out is at most the current one. */
    ghost predicate Valid()
      reads this
    {
      forall k :: k in used ==> k <= TempCount
    }

    constructor()
      ensures TempCount == 0 && used == {}
      ensures Valid()
    {
      TempCount := 0;
      used := {};
    }

    /** Tempvar: increments the counter and names a variable after its new value. */
    method Tempvar() returns (name: string)
      requires Valid()
      modifies this
      ensures TempCount == old(TempCount) + 1
      ensures name == TempName(TempCount)
      ensures used == old(used) + {TempCount}
      ensures forall k :: k in old(used) ==> TempName(k) != name
      ensures Valid()
    {
      TempCount := TempCount + 1;
      name := "tmp" + IntToDecimal(TempCount);
      forall k | k in used
        ensures TempName(k) != name
      {
        TempNameInjective(k, TempCount);
      }
      used := used + {TempCount};
    }
  }

  /** Three calls on a fresh counter name "tmp1", "tmp2" and "tmp3". */
  method ThreeNames() returns (a: string, b: string, c: string)
    ensures a == "tmp1" && b == "tmp2" && c == "tmp3"
    ensures a != b && b != c && a != c
  {
    var counter := new TempCounter();
    a := counter.Tempvar();
    b := counter.Tempvar();
    c := counter.Tempvar();
  }
}
