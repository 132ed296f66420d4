/**
 * Check digits and dates of Nordic national identity numbers, and how far apart
 * two numbers that pass the check must be.
 */
module CheckDigits {
  import opened Options
  import opened Text

  const NO_K1_WEIGHTS: seq<int> := [3, 7, 6, 1, 8, 9, 4, 5, 2]
  const NO_K2_WEIGHTS: seq<int> := [5, 4, 3, 2, 7, 6, 5, 4, 3, 2]

  const DAYS_IN_MONTH: seq<int> := [31, 29, 31, 30, 31, 30, 31, 31, 30, 31, 30, 31]

  predicate Digits(d: seq<int>) {
    forall k :: 0 <= k < |d| ==> 0 <= d[k] <= 9
  }

  function ToDigits(s: string): (d: seq<int>)
    ensures |d| == |s|
    ensures (forall k :: 0 <= k < |s| ==> IsDigit(s[k])) ==> Digits(d)
  {
    seq(|s|, k requires 0 <= k < |s| => s[k] as int - 48)
  }

  predicate ValidDate(day: int, month: int) {
    1 <= month <= 12 && 1 <= day <= DAYS_IN_MONTH[month - 1]
  }

  /** The calendar, with 29 February in every year. */
  lemma Calendar(day: int, month: int)
    ensures ValidDate(day, month) <==>
      && 1 <= month <= 12 && day >= 1
      && day <= if month == 2 then 29 else if month in {4, 6, 9, 11} then 30 else 31
  {
  }

  /** A two-digit number as it is written. */
  function Two(n: int): seq<int> {
    [n / 10, n % 10]
  }

  // ----- Weighted sums modulo 11 -----

  function Dot(d: seq<int>, w: seq<int>, n: nat): int
    requires n <= |d| && n <= |w|
  {
    if n == 0 then 0 else Dot(d, w, n - 1) + w[n - 1] * d[n - 1]
  }

  /** The digit that completes a weighted sum to a multiple of 11; there is none
      when that would take a 10. */
  function Completing(sum: int): (r: Option<int>)
    ensures r.Some? ==> 0 <= r.value <= 9 && (sum + r.value) % 11 == 0
    ensures r.None? ==> (sum + 10) % 11 == 0
  {
    var rest := sum % 11;
    if rest == 0 then Some(0) else if rest == 1 then None else Some(11 - rest)
  }

  /** At most one digit completes a sum. */
  lemma CompletingIff(sum: int, digit: int)
    requires 0 <= digit <= 9
    ensures Completing(sum) == Some(digit) <==> (sum + digit) % 11 == 0
  {
  }

  method Mod11(digits: seq<int>, weights: seq<int>) returns (r: Option<int>)
    requires |weights| <= |digits|
    ensures r == Completing(Dot(digits, weights, |weights|))
  {
    var sum := 0;
    for i := 0 to |weights|
      invariant sum == Dot(digits, weights, i)
    {
      sum := sum + weights[i] * digits[i];
    }
    r := Completing(sum);
  }

  function NoDate(d: seq<int>): (int, int)
    requires |d| == 11
  {
    var day := d[0] * 10 + d[1];
    var month := d[2] * 10 + d[3];
    (if day > 40 then day - 40 else day,
     if month > 80 then month - 80 else if month > 40 then month - 40 else month)
  }

  /** Day and month are written first; 40 more for the day, and 40 or 80 more for
      the month, mark special series. */
  lemma NoDateWritten(day: int, month: int, dayMark: int, monthMark: int, rest: seq<int>)
    requires ValidDate(day, month) && dayMark in {0, 40} && monthMark in {0, 40, 80} && |rest| == 7
    ensures NoDate(Two(day + dayMark) + Two(month + monthMark) + rest) == (day, month)
  {
    var d := Two(day + dayMark) + Two(month + monthMark) + rest;
    assert d[0] * 10 + d[1] == day + dayMark && d[2] * 10 + d[3] == month + monthMark;
  }

  predicate ValidNoFnr(d: seq<int>)
    requires |d| == 11
  {
    && ValidDate(NoDate(d).0, NoDate(d).1)
    && Completing(Dot(d, NO_K1_WEIGHTS, 9)) == Some(d[9])
    && Completing(Dot(d, NO_K2_WEIGHTS, 10)) == Some(d[10])
  }

  // ----- The distance of the Norwegian check -----

  /** Weight of position `i` in the first check equation, check digit included. */
  function K1(i: nat): int {
    if i < 9 then NO_K1_WEIGHTS[i] else if i == 9 then 1 else 0
  }

  function K2(i: nat): int {
    if i < 10 then NO_K2_WEIGHTS[i] else if i == 10 then 1 else 0
  }

  function Total(d: seq<int>, weight: nat -> int, n: nat): int
    requires n <= |d|
  {
    if n == 0 then 0 else Total(d, weight, n - 1) + weight(n - 1) * d[n - 1]
  }

  lemma {:induction false} DotIsTotal(d: seq<int>, w: seq<int>, weight: nat -> int, n: nat)
    requires n <= |d| && n <= |w| && forall i: nat :: i < n ==> weight(i) == w[i]
    ensures Dot(d, w, n) == Total(d, weight, n)
  {
    if n > 0 { DotIsTotal(d, w, weight, n - 1); }
  }

  /** A number is valid exactly when its date is and both equations are multiples of 11. */
  lemma ValidSumsVanish(d: seq<int>)
    requires |d| == 11 && Digits(d)
    ensures ValidNoFnr(d) <==>
      ValidDate(NoDate(d).0, NoDate(d).1) && Total(d, K1, 11) % 11 == 0 && Total(d, K2, 11) % 11 == 0
  {
    hide Dot, Completing, ValidDate, NoDate;
    DotIsTotal(d, NO_K1_WEIGHTS, K1, 9);
    DotIsTotal(d, NO_K2_WEIGHTS, K2, 10);
    CompletingIff(Dot(d, NO_K1_WEIGHTS, 9), d[9]);
    CompletingIff(Dot(d, NO_K2_WEIGHTS, 10), d[10]);
    assert Total(d, K1, 11) == Total(d, K1, 9) + 1 * d[9] + 0 * d[10];
    assert Total(d, K2, 11) == Total(d, K2, 10) + 1 * d[10];
  }

  ghost predicate AgreeExcept(d: seq<int>, e: seq<int>, p: nat, q: nat) {
    |d| == |e| && forall k :: 0 <= k < |d| && k != p && k != q ==> d[k] == e[k]
  }

  lemma {:induction false} TotalDifference(d: seq<int>, e: seq<int>, weight: nat -> int, p: nat, q: nat, n: nat)
    requires p < q && AgreeExcept(d, e, p, q) && n <= |d|
    ensures Total(d, weight, n) - Total(e, weight, n) ==
      (if p < n then weight(p) * (d[p] - e[p]) else 0) + (if q < n then weight(q) * (d[q] - e[q]) else 0)
  {
    if n > 0 { TotalDifference(d, e, weight, p, q, n - 1); }
  }

  /** 11 is prime: no small multiple of a unit is a multiple of 11. */
  lemma Cancel11(c: int, x: int)
    requires c % 11 != 0 && (c * x) % 11 == 0 && -9 <= x <= 9
    ensures x == 0
  {
    var r, m, u := c % 11, c / 11, (c * x) / 11;
    assert c * x == (11 * m + r) * x == 11 * (m * x) + r * x;
    CancelRemainder(r, x, u - m * x);
  }

  lemma CancelRemainder(r: int, x: int, t: int)
    requires 1 <= r <= 10 && -9 <= x <= 9 && r * x == 11 * t
    ensures x == 0
  {
    if r <= 2 { assert r * x == if r == 1 then x else 2 * x; }
    else if r <= 4 { assert r * x == if r == 3 then 3 * x else 4 * x; }
    else if r <= 6 { assert r * x == if r == 5 then 5 * x else 6 * x; }
    else if r <= 8 { assert r * x == if r == 7 then 7 * x else 8 * x; }
    else { assert r * x == if r == 9 then 9 * x else 10 * x; }
  }

  /** The two equations are independent at any two positions but the 4th and 10th. */
  lemma Independent(p: nat, q: nat)
    requires p < q < 11 && !(p == 3 && q == 9)
    ensures (K1(p) * K2(q) - K1(q) * K2(p)) % 11 != 0
  {
  }

  lemma Eliminate(a: int, b: int, c: int, d: int, x: int, y: int)
    requires (a * x + b * y) % 11 == 0 && (c * x + d * y) % 11 == 0
    ensures ((a * d - b * c) * x) % 11 == 0 && ((a * d - b * c) * y) % 11 == 0
  {
    var s, t := (a * x + b * y) / 11, (c * x + d * y) / 11;
    Determinant(a, b, c, d, x, y);
    CombineMultiples(d, s, b, t);
    CombineMultiples(a, t, c, s);
    assert d * (a * x + b * y) - b * (c * x + d * y) == d * (11 * s) - b * (11 * t);
    assert a * (c * x + d * y) - c * (a * x + b * y) == a * (11 * t) - c * (11 * s);
  }

  lemma Determinant(a: int, b: int, c: int, d: int, x: int, y: int)
    ensures (a * d - b * c) * x == d * (a * x + b * y) - b * (c * x + d * y)
    ensures (a * d - b * c) * y == a * (c * x + d * y) - c * (a * x + b * y)
  {
  }

  lemma CombineMultiples(p: int, s: int, q: int, t: int)
    ensures (p * (11 * s) - q * (11 * t)) % 11 == 0
  {
    assert p * (11 * s) - q * (11 * t) == 11 * (p * s - q * t);
  }

  /**
   * Distance of the Norwegian check: valid numbers that agree outside two
   * positions are equal, unless those are the 4th and the 10th and both differ.
   * In particular one changed digit is always caught.
   */
  lemma NoFnrDistance(d: seq<int>, e: seq<int>, p: nat, q: nat)
    requires |d| == |e| == 11 && Digits(d) && Digits(e) && ValidNoFnr(d) && ValidNoFnr(e)
    requires p < q < 11 && AgreeExcept(d, e, p, q) && d != e
    ensures p == 3 && q == 9 && d[3] != e[3] && d[9] != e[9]
  {
    ValidSumsVanish(d);
    ValidSumsVanish(e);
    CodewordDistance(d, e, p, q);
  }

  lemma EquationKept(d: seq<int>, e: seq<int>, weight: nat -> int, p: nat, q: nat)
    requires |d| == |e| == 11 && p < q < 11 && AgreeExcept(d, e, p, q)
    requires Total(d, weight, 11) % 11 == 0 && Total(e, weight, 11) % 11 == 0
    ensures (weight(p) * (d[p] - e[p]) + weight(q) * (d[q] - e[q])) % 11 == 0
  {
    TotalDifference(d, e, weight, p, q, 11);
    var s, t := Total(d, weight, 11) / 11, Total(e, weight, 11) / 11;
    assert weight(p) * (d[p] - e[p]) + weight(q) * (d[q] - e[q]) == 11 * (s - t);
  }

  lemma CodewordDistance(d: seq<int>, e: seq<int>, p: nat, q: nat)
    requires |d| == |e| == 11 && Digits(d) && Digits(e)
    requires Total(d, K1, 11) % 11 == 0 && Total(d, K2, 11) % 11 == 0
    requires Total(e, K1, 11) % 11 == 0 && Total(e, K2, 11) % 11 == 0
    requires p < q < 11 && AgreeExcept(d, e, p, q) && d != e
    ensures p == 3 && q == 9 && d[3] != e[3] && d[9] != e[9]
  {
    EquationKept(d, e, K1, p, q);
    EquationKept(d, e, K2, p, q);
    var x, y := d[p] - e[p], d[q] - e[q];
    assert x != 0 || y != 0 by { assert x == 0 && y == 0 ==> d == e; }
    Dependent(p, q, x, y);
  }

  /** Small changes at two positions that keep both equations. */
  lemma Dependent(p: nat, q: nat, x: int, y: int)
    requires p < q < 11 && -9 <= x <= 9 && -9 <= y <= 9 && (x != 0 || y != 0)
    requires (K1(p) * x + K1(q) * y) % 11 == 0 && (K2(p) * x + K2(q) * y) % 11 == 0
    ensures p == 3 && q == 9 && x != 0 && y != 0
  {
    if !(p == 3 && q == 9) {
      Eliminate(K1(p), K1(q), K2(p), K2(q), x, y);
      Independent(p, q);
      Cancel11(K1(p) * K2(q) - K1(q) * K2(p), x);
      Cancel11(K1(p) * K2(q) - K1(q) * K2(p), y);
    }
  }

  /** The weighted sums written out. */
  lemma Weighted(d: seq<int>)
    requires |d| == 11
    ensures Dot(d, NO_K1_WEIGHTS, 9) ==
      3 * d[0] + 7 * d[1] + 6 * d[2] + d[3] + 8 * d[4] + 9 * d[5] + 4 * d[6] + 5 * d[7] + 2 * d[8]
    ensures Dot(d, NO_K2_WEIGHTS, 10) ==
      5 * d[0] + 4 * d[1] + 3 * d[2] + 2 * d[3] + 7 * d[4] + 6 * d[5] + 5 * d[6] + 4 * d[7] + 3 * d[8] + 2 * d[9]
  {
    assert Dot(d, NO_K1_WEIGHTS, 1) == 3 * d[0];
    assert Dot(d, NO_K1_WEIGHTS, 3) == 3 * d[0] + 7 * d[1] + 6 * d[2];
    assert Dot(d, NO_K1_WEIGHTS, 5) == Dot(d, NO_K1_WEIGHTS, 3) + d[3] + 8 * d[4];
    assert Dot(d, NO_K1_WEIGHTS, 7) == Dot(d, NO_K1_WEIGHTS, 5) + 9 * d[5] + 4 * d[6];
    assert Dot(d, NO_K2_WEIGHTS, 1) == 5 * d[0];
    assert Dot(d, NO_K2_WEIGHTS, 2) == 5 * d[0] + 4 * d[1];
    assert Dot(d, NO_K2_WEIGHTS, 4) == Dot(d, NO_K2_WEIGHTS, 2) + 3 * d[2] + 2 * d[3];
    assert Dot(d, NO_K2_WEIGHTS, 6) == Dot(d, NO_K2_WEIGHTS, 4) + 7 * d[4] + 6 * d[5];
    assert Dot(d, NO_K2_WEIGHTS, 8) == Dot(d, NO_K2_WEIGHTS, 6) + 5 * d[6] + 4 * d[7];
  }

  /** The exception is real: two valid numbers that differ in the 4th and 10th digit only. */
  lemma NoFnrDistanceTight()
    ensures ValidNoFnr([0, 1, 0, 1, 0, 0, 0, 0, 1, 1, 0]) && ValidNoFnr([0, 1, 0, 2, 0, 0, 0, 0, 1, 0, 0])
  {
    hide Dot;
    Weighted([0, 1, 0, 1, 0, 0, 0, 0, 1, 1, 0]);
    Weighted([0, 1, 0, 2, 0, 0, 0, 0, 1, 0, 0]);
  }

  // ----- Luhn -----

  function LuhnValue(i: nat, digit: int): int {
    if i % 2 == 0 then (if digit * 2 > 9 then digit * 2 - 9 else digit * 2) else digit
  }

  function LuhnSum(d: seq<int>, n: nat): int
    requires n <= |d|
  {
    if n == 0 then 0 else LuhnSum(d, n - 1) + LuhnValue(n - 1, d[n - 1])
  }

  predicate LuhnValid(d: seq<int>) {
    LuhnSum(d, |d|) % 10 == 0
  }

  method Luhn(digits: string) returns (r: bool)
    ensures r <==> LuhnValid(ToDigits(digits))
  {
    var sum := 0;
    for i := 0 to |digits|
      invariant sum == LuhnSum(ToDigits(digits), i)
    {
      var value := digits[i] as int - 48;
      if i % 2 == 0 {
        value := value * 2;
        if value > 9 { value := value - 9; }
      }
      sum := sum + value;
    }
    r := sum % 10 == 0;
  }

  function DigitSum(n: nat): nat {
    if n < 10 then n else n % 10 + DigitSum(n / 10)
  }

  /** The sum of Annex B of ISO/IEC 7812-1: from the right, every second digit counts
      with the digit sum of its double; `doubled` says so of the rightmost. */
  function StandardSum(d: seq<int>, doubled: bool): int
    requires Digits(d)
  {
    if d == [] then 0
    else
      var last := d[|d| - 1];
      StandardSum(d[..|d| - 1], !doubled) + if doubled then DigitSum(2 * last) else last
  }

  lemma {:induction false} LuhnSumPrefix(d: seq<int>, m: nat, n: nat)
    requires n <= m <= |d|
    ensures LuhnSum(d[..m], n) == LuhnSum(d, n)
  {
    if n > 0 { LuhnSumPrefix(d, m, n - 1); }
  }

  lemma {:induction false} LuhnFromTheRight(d: seq<int>)
    requires Digits(d)
    ensures LuhnSum(d, |d|) == StandardSum(d, |d| % 2 == 1)
  {
    if d != [] {
      LuhnFromTheRight(d[..|d| - 1]);
      LuhnSumPrefix(d, |d| - 1, |d| - 1);
      DoubledValue(d[|d| - 1]);
    }
  }

  lemma DoubledValue(digit: int)
    requires 0 <= digit <= 9
    ensures DigitSum(2 * digit) == if 2 * digit > 9 then 2 * digit - 9 else 2 * digit
  {
  }

  /** Numbers of even length are checked as the standard says: the check digit
      counts once, the digit before it doubled, and so on alternately. */
  lemma LuhnIsStandard(d: seq<int>)
    requires Digits(d) && |d| % 2 == 0
    ensures LuhnValid(d) <==> StandardSum(d, false) % 10 == 0
  {
    LuhnFromTheRight(d);
  }

  lemma {:induction false} LuhnSumUpdate(d: seq<int>, i: nat, v: int, n: nat)
    requires i < |d| && n <= |d|
    ensures LuhnSum(d[i := v], n) ==
      LuhnSum(d, n) + if i < n then LuhnValue(i, v) - LuhnValue(i, d[i]) else 0
  {
    if n > 0 { LuhnSumUpdate(d, i, v, n - 1); }
  }

  /** One changed digit is always caught, at any length. */
  lemma LuhnCatchesChange(d: seq<int>, i: nat, v: int)
    requires Digits(d) && i < |d| && 0 <= v <= 9 && v != d[i] && LuhnValid(d)
    ensures !LuhnValid(d[i := v])
  {
    LuhnSumUpdate(d, i, v, |d|);
    ValuesDiffer(i, v, d[i]);
    Shifted(LuhnSum(d, |d|), LuhnValue(i, v) - LuhnValue(i, d[i]));
  }

  lemma ValuesDiffer(i: nat, a: int, b: int)
    requires 0 <= a <= 9 && 0 <= b <= 9 && a != b
    ensures (LuhnValue(i, a) - LuhnValue(i, b)) % 10 != 0
  {
  }

  lemma Shifted(sum: int, delta: int)
    requires sum % 10 == 0
    ensures (sum + delta) % 10 == 0 <==> delta % 10 == 0
  {
  }

  lemma SwapValues(i: nat, a: int, b: int)
    requires 0 <= a <= 9 && 0 <= b <= 9
    ensures (LuhnValue(i, b) - LuhnValue(i, a) + LuhnValue(i + 1, a) - LuhnValue(i + 1, b)) % 10 == 0 <==>
      a == b || (a == 0 && b == 9) || (a == 9 && b == 0)
  {
  }

  /** Swapping unequal neighbours is caught unless they are 0 and 9, in either order. */
  lemma LuhnSwap(d: seq<int>, i: nat)
    requires Digits(d) && i + 1 < |d| && LuhnValid(d)
    ensures LuhnValid(d[i := d[i + 1]][i + 1 := d[i]]) <==>
      d[i] == d[i + 1] || (d[i] == 0 && d[i + 1] == 9) || (d[i] == 9 && d[i + 1] == 0)
  {
    var a, b := d[i], d[i + 1];
    var mid := d[i := b];
    LuhnSumUpdate(d, i, b, |d|);
    LuhnSumUpdate(mid, i + 1, a, |d|);
    SwapValues(i, a, b);
    Shifted(LuhnSum(d, |d|), LuhnValue(i, b) - LuhnValue(i, a) + LuhnValue(i + 1, a) - LuhnValue(i + 1, b));
  }

  predicate ValidSePnr(d: seq<int>)
    requires |d| == 10
  {
    var day := d[4] * 10 + d[5];
    ValidDate(if day > 60 then day - 60 else day, d[2] * 10 + d[3]) && LuhnValid(d)
  }

  /** Year, month and day are written in that order, the day with 60 more in
      co-ordination numbers; the check is the standard one. */
  lemma SePnrDigits(year: int, month: int, day: int, mark: int, rest: seq<int>)
    requires 0 <= year <= 99 && 0 <= month <= 99 && 1 <= day <= 31 && mark in {0, 60} && |rest| == 4 && Digits(rest)
    ensures var d := Two(year) + Two(month) + Two(day + mark) + rest;
      Digits(d) && (ValidSePnr(d) <==> ValidDate(day, month) && StandardSum(d, false) % 10 == 0)
  {
    hide LuhnValid, StandardSum;
    var d := Two(year) + Two(month) + Two(day + mark) + rest;
    assert d[2] * 10 + d[3] == month && d[4] * 10 + d[5] == day + mark;
    assert Digits(d);
    LuhnIsStandard(d);
  }

  /** A number that passes: 18 December 1981. */
  lemma SePnrExample()
    ensures ValidSePnr([8, 1, 1, 2, 1, 8, 9, 8, 7, 6])
  {
    var d := [8, 1, 1, 2, 1, 8, 9, 8, 7, 6];
    assert LuhnSum(d, 3) == 10;
    assert LuhnSum(d, 6) == 22;
    assert LuhnSum(d, 8) == 39;
    assert LuhnSum(d, 10) == 50;
  }

  predicate ValidDkCpr(d: seq<int>)
    requires |d| == 10
  {
    ValidDate(d[0] * 10 + d[1], d[2] * 10 + d[3])
  }

  /** Day before month. */
  lemma DkCprDigits(day: int, month: int, rest: seq<int>)
    requires 0 <= day <= 99 && 0 <= month <= 99 && |rest| == 6
    ensures ValidDkCpr(Two(day) + Two(month) + rest) <==> ValidDate(day, month)
  {
    var d := Two(day) + Two(month) + rest;
    assert d[0] * 10 + d[1] == day && d[2] * 10 + d[3] == month;
  }
}
