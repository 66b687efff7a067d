/** Timestamps as `Utils::GetTS` writes them, and how well their text order follows the clock. */
module Timestamps {
  import opened Text

  function Digit(d: nat): char
    requires d < 10
  {
    ('0' as int + d) as char
  }

  function Decimal(n: nat): (digits: string)
    ensures digits != []
  {
    if n < 10 then [Digit(n)] else Decimal(n / 10) + [Digit(n % 10)]
  }

  /** The number `GetTS` prints: seconds scaled by ten million, plus microseconds. */
  function Reading(sec: nat, usec: nat): nat {
    sec * 10000000 + usec
  }

  function GetTS(sec: nat, usec: nat): string {
    "ts" + Decimal(Reading(sec, usec))
  }

  /** What the store's names need of a timestamp. */
  predicate GoodTs(ts: string) {
    ts != "" && ts != "entry" && '_' !in ts
  }

  lemma {:induction false} DecimalDigits(n: nat)
    ensures forall c :: c in Decimal(n) ==> '0' <= c <= '9'
  {
    if n >= 10 {
      DecimalDigits(n / 10);
    }
  }

  function Zeros(k: nat): string {
    if k == 0 then "" else Zeros(k - 1) + "0"
  }

  function Shifted(n: nat, k: nat): nat {
    if k == 0 then n else 10 * Shifted(n, k - 1)
  }

  lemma DecimalTimesTen(n: nat)
    requires n > 0
    ensures Decimal(10 * n) == Decimal(n) + "0"
  {
    assert 10 * n / 10 == n && 10 * n % 10 == 0;
  }

  lemma {:induction false} DecimalShifted(n: nat, k: nat)
    requires n > 0
    ensures Shifted(n, k) > 0 && Decimal(Shifted(n, k)) == Decimal(n) + Zeros(k)
  {
    if k > 0 {
      DecimalShifted(n, k - 1);
      DecimalTimesTen(Shifted(n, k - 1));
    }
  }

  /** Whole seconds are their decimal digits and seven zeros; microseconds alone are theirs. */
  lemma GetTSAsWritten(sec: nat, usec: nat)
    ensures sec > 0 ==> GetTS(sec, 0) == "ts" + (Decimal(sec) + Zeros(7))
    ensures GetTS(0, usec) == "ts" + Decimal(usec)
  {
    if sec > 0 {
      assert Shifted(sec, 1) == 10 * sec && Shifted(sec, 2) == 100 * sec && Shifted(sec, 3) == 1000 * sec;
      assert Shifted(sec, 4) == 10000 * sec && Shifted(sec, 5) == 100000 * sec && Shifted(sec, 6) == 1000000 * sec;
      DecimalShifted(sec, 7);
    }
  }

  /** Every timestamp of `GetTS` is safe in a store name. */
  lemma GetTSIsGood(sec: nat, usec: nat)
    ensures GoodTs(GetTS(sec, usec))
  {
    DecimalDigits(Reading(sec, usec));
    var ts := GetTS(sec, usec);
    assert ts[0] == 't';
    assert "entry"[0] == 'e';
  }

  lemma {:induction false} DecimalSameLength(n: nat, m: nat)
    requires |Decimal(n)| == |Decimal(m)|
    ensures Less(Decimal(n), Decimal(m)) <==> n < m
    ensures Decimal(n) == Decimal(m) <==> n == m
  {
    if n >= 10 && m >= 10 {
      DecimalSameLength(n / 10, m / 10);
      LessLast(Decimal(n / 10), Decimal(m / 10), Digit(n % 10), Digit(m % 10));
      assert Decimal(n)[..|Decimal(n)| - 1] == Decimal(n / 10);
      assert Decimal(m)[..|Decimal(m)| - 1] == Decimal(m / 10);
      assert Decimal(n)[|Decimal(n)| - 1] == Digit(n % 10);
      assert Decimal(m)[|Decimal(m)| - 1] == Digit(m % 10);
    }
  }

  /** Dropping the last `k` digits. */
  function Leading(m: nat, k: nat): nat {
    if k == 0 then m else Leading(m / 10, k - 1)
  }

  lemma {:induction false} DecimalSplit(m: nat, k: nat)
    requires k < |Decimal(m)|
    ensures |Decimal(Leading(m, k))| == |Decimal(m)| - k
    ensures Decimal(Leading(m, k)) == Decimal(m)[..|Decimal(m)| - k]
  {
    if k > 0 {
      DecimalSplit(m / 10, k - 1);
    }
  }

  /** Distinct clock readings give distinct timestamps, whatever their length. */
  lemma GetTSInjective(s1: nat, u1: nat, s2: nat, u2: nat)
    requires u1 < 1000000 && u2 < 1000000
    ensures GetTS(s1, u1) == GetTS(s2, u2) <==> s1 == s2 && u1 == u2
  {
    var n, m := Reading(s1, u1), Reading(s2, u2);
    if GetTS(s1, u1) == GetTS(s2, u2) {
      assert Decimal(n) == GetTS(s1, u1)[2..] && Decimal(m) == GetTS(s2, u2)[2..];
      DecimalSameLength(n, m);
    }
  }

  /** A larger reading never has fewer digits. */
  lemma {:induction false} DecimalMonotone(n: nat, m: nat)
    requires n <= m
    ensures |Decimal(n)| <= |Decimal(m)|
  {
    if n >= 10 {
      DecimalMonotone(n / 10, m / 10);
    }
  }

  /** Clock order and text order agree exactly when the readings have the same number of digits, or
      the earlier one is no more than the leading digits of the later one. */
  lemma ClockOrder(n: nat, m: nat)
    requires n < m
    ensures |Decimal(n)| <= |Decimal(m)|
    ensures Less("ts" + Decimal(n), "ts" + Decimal(m)) <==>
            |Decimal(n)| == |Decimal(m)| || n <= Leading(m, |Decimal(m)| - |Decimal(n)|)
  {
    LessSamePrefix("ts", Decimal(n), Decimal(m));
    DecimalMonotone(n, m);
    if |Decimal(m)| == |Decimal(n)| {
      DecimalSameLength(n, m);
    } else {
      LongerInOrder(n, m, |Decimal(m)| - |Decimal(n)|);
    }
  }

  lemma LongerInOrder(n: nat, m: nat, k: nat)
    requires k > 0 && |Decimal(m)| == |Decimal(n)| + k
    ensures Less(Decimal(n), Decimal(m)) <==> n <= Leading(m, k)
  {
    DecimalSplit(m, k);
    var lead, more := Leading(m, k), Decimal(m)[|Decimal(n)|..];
    assert Decimal(m) == Decimal(lead) + more;
    LessExtended(Decimal(n), Decimal(lead), more);
    DecimalSameLength(n, lead);
  }

  /** From September 2001 until the year 2286 every reading has seventeen digits. */
  lemma SeventeenDigits(sec: nat, usec: nat)
    requires 1000000000 <= sec < 10000000000 && usec < 1000000
    ensures |Decimal(Reading(sec, usec))| == 17
  {
    assert Pow10(8) == 100000000;
    assert Pow10(16) == 10000000000000000;
    DigitsBetween(Reading(sec, usec), 16);
  }

  function Pow10(k: nat): nat {
    if k == 0 then 1 else 10 * Pow10(k - 1)
  }

  lemma {:induction false} DigitsBetween(n: nat, k: nat)
    requires Pow10(k) <= n < Pow10(k + 1)
    ensures |Decimal(n)| == k + 1
  {
    if k > 0 {
      assert Pow10(k) == 10 * Pow10(k - 1);
      DigitsBetween(n / 10, k - 1);
    }
  }

  /** In that span a later clock reading is a later timestamp, and only a later one is. */
  lemma GetTSOrder(s1: nat, u1: nat, s2: nat, u2: nat)
    requires 1000000000 <= s1 < 10000000000 && u1 < 1000000
    requires 1000000000 <= s2 < 10000000000 && u2 < 1000000
    ensures Less(GetTS(s1, u1), GetTS(s2, u2)) <==> s1 < s2 || (s1 == s2 && u1 < u2)
  {
    SeventeenDigits(s1, u1);
    SeventeenDigits(s2, u2);
    DecimalSameLength(Reading(s1, u1), Reading(s2, u2));
    LessSamePrefix("ts", Decimal(Reading(s1, u1)), Decimal(Reading(s2, u2)));
  }

  /** Outside that span it can fail: one more digit, and the later timestamp sorts first. */
  lemma ClockOrderFails()
    ensures Reading(0, 9) < Reading(0, 10) && Less(GetTS(0, 10), GetTS(0, 9))
  {
    assert Decimal(10) == Decimal(1) + [Digit(0)];
    LessSamePrefix("ts", Decimal(10), Decimal(9));
  }
}
