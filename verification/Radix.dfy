// Positional numerals: most significant digit first, in any base of at least two.
module Radix {

  predicate AllBelow(ds: seq<nat>, b: nat) {
    forall i :: 0 <= i < |ds| ==> ds[i] < b
  }

  lemma {:induction false} TimesMonotone(x: int, y: int, b: nat)
    ensures x <= y ==> x * b <= y * b
  {
  }

  lemma {:induction false} Associate(x: int, y: int, z: int)
    ensures x * (y * z) == (x * y) * z
  {
  }

  lemma {:induction false} Distribute(x: int, y: int, z: int)
    ensures (x + y) * z == x * z + y * z
  {
  }

  lemma {:induction false} QuotientSmaller(n: nat, b: nat)
    requires n > 0 && b >= 2
    ensures 0 <= n / b < n
    ensures n == n / b * b + n % b && n % b < b
  {
    TimesMonotone(n, n / b, b);
    TimesMonotone(2, b, n);
  }

  lemma {:induction false} DivideAppended(q: nat, r: nat, b: nat)
    requires r < b
    ensures (q * b + r) / b == q && (q * b + r) % b == r
  {
    var n := q * b + r;
    assert n == n / b * b + n % b;
    TimesMonotone(q + 1, n / b, b);
    TimesMonotone(n / b, q - 1, b);
    assert (q + 1) * b == q * b + b && (q - 1) * b == q * b - b;
  }

  // The canonical numeral of n; zero is the empty numeral.
  function Digits(n: nat, b: nat): (ds: seq<nat>)
    requires b >= 2
    ensures AllBelow(ds, b)
    ensures if n == 0 then ds == [] else ds != [] && ds[0] > 0
    decreases n
  {
    if n == 0 then [] else
      QuotientSmaller(n, b);
      Digits(n / b, b) + [n % b]
  }

  function Value(ds: seq<nat>, b: nat): nat {
    if ds == [] then 0 else Value(ds[..|ds| - 1], b) * b + ds[|ds| - 1]
  }

  lemma {:induction false} ValueOfDigits(n: nat, b: nat)
    requires b >= 2
    ensures Value(Digits(n, b), b) == n
    decreases n
  {
    if n == 0 {
    } else {
      QuotientSmaller(n, b);
      ValueOfDigits(n / b, b);
      var ds := Digits(n, b);
      assert ds[..|ds| - 1] == Digits(n / b, b);
    }
  }

  lemma {:induction false} DigitsOfValue(ds: seq<nat>, b: nat)
    requires b >= 2 && AllBelow(ds, b)
    requires ds != [] ==> ds[0] > 0
    ensures Digits(Value(ds, b), b) == ds
    decreases |ds|
  {
    if ds == [] {
    } else {
      var front, last := ds[..|ds| - 1], ds[|ds| - 1];
      DigitsOfValue(front, b);
      DivideAppended(Value(front, b), last, b);
      assert ds == front + [last];
      if front != [] {
        assert Value(front, b) > 0;
        assert Value(front, b) * b > 0;
      }
    }
  }

  // A block of leading zeros.
  function Zeros(k: nat): (zs: seq<nat>)
    ensures |zs| == k && forall i :: 0 <= i < k ==> zs[i] == 0
  {
    seq(k, _ => 0)
  }

  function LeadingZeros(ds: seq<nat>): (k: nat)
    ensures k <= |ds|
    ensures forall i :: 0 <= i < k ==> ds[i] == 0
    ensures k < |ds| ==> ds[k] > 0
  {
    if ds != [] && ds[0] == 0 then 1 + LeadingZeros(ds[1..]) else 0
  }

  lemma {:induction false} LeadingZerosDoNotCount(k: nat, ds: seq<nat>, b: nat)
    ensures Value(Zeros(k) + ds, b) == Value(ds, b)
    decreases |ds|, k
  {
    var whole := Zeros(k) + ds;
    if ds != [] {
      LeadingZerosDoNotCount(k, ds[..|ds| - 1], b);
      assert whole[..|whole| - 1] == Zeros(k) + ds[..|ds| - 1];
    } else if k > 0 {
      LeadingZerosDoNotCount(k - 1, [], b);
      assert whole[..|whole| - 1] == Zeros(k - 1) + [];
    }
  }

  // A numeral is its leading zeros followed by the canonical numeral of its value.
  lemma {:induction false} Canonical(ds: seq<nat>, b: nat)
    requires b >= 2 && AllBelow(ds, b)
    ensures ds == Zeros(LeadingZeros(ds)) + Digits(Value(ds, b), b)
  {
    var k := LeadingZeros(ds);
    assert ds == Zeros(k) + ds[k..];
    LeadingZerosDoNotCount(k, ds[k..], b);
    DigitsOfValue(ds[k..], b);
  }

  lemma {:induction false} LeadingZerosOfPadded(k: nat, ds: seq<nat>)
    requires ds != [] ==> ds[0] > 0
    ensures LeadingZeros(Zeros(k) + ds) == k
  {
    if k > 0 {
      assert (Zeros(k) + ds)[1..] == Zeros(k - 1) + ds;
      LeadingZerosOfPadded(k - 1, ds);
    } else {
      assert Zeros(0) + ds == ds;
    }
  }

  function Pow(b: nat, e: nat): nat {
    if e == 0 then 1 else Pow(b, e - 1) * b
  }

  lemma {:induction false} ValueBound(ds: seq<nat>, b: nat)
    requires b >= 2 && AllBelow(ds, b)
    ensures Value(ds, b) < Pow(b, |ds|)
    decreases |ds|
  {
    if ds == [] {
    } else {
      var front := ds[..|ds| - 1];
      ValueBound(front, b);
      TimesMonotone(Value(front, b) + 1, Pow(b, |front|), b);
      Distribute(Value(front, b), 1, b);
      assert Value(ds, b) == Value(front, b) * b + ds[|ds| - 1];
    }
  }

  lemma {:induction false} ValueOfConcat(hi: seq<nat>, lo: seq<nat>, b: nat)
    ensures Value(hi + lo, b) == Value(hi, b) * Pow(b, |lo|) + Value(lo, b)
    decreases |lo|
  {
    var whole := hi + lo;
    if lo == [] {
      assert whole == hi;
    } else {
      var front, last := lo[..|lo| - 1], lo[|lo| - 1];
      ValueOfConcat(hi, front, b);
      assert whole[..|whole| - 1] == hi + front;
      Associate(Value(hi, b), Pow(b, |front|), b);
      Distribute(Value(hi, b) * Pow(b, |front|), Value(front, b), b);
    }
  }

  // Moving the last digit of n in front of a block of lower digits.
  lemma {:induction false} DigitMoves(n: nat, low: seq<nat>, b: nat)
    requires n > 0 && b >= 2
    ensures n / b < n
    ensures Digits(n / b, b) + ([n % b] + low) == Digits(n, b) + low
  {
    QuotientSmaller(n, b);
  }

  lemma {:induction false} PowPositive(b: nat, k: nat)
    requires b > 0
    ensures Pow(b, k) > 0
  {
    if k == 0 {
    } else {
      PowPositive(b, k - 1);
      TimesMonotone(1, Pow(b, k - 1), b);
    }
  }

  lemma {:induction false} PowSum(b: nat, i: nat, j: nat)
    ensures Pow(b, i + j) == Pow(b, i) * Pow(b, j)
    decreases j
  {
    if j == 0 {
    } else {
      PowSum(b, i, j - 1);
      Associate(Pow(b, i), Pow(b, j - 1), b);
    }
  }

  lemma {:induction false} QuotientBetween(n: nat, lo: nat, hi: nat, b: nat)
    requires b >= 2 && lo * b <= n < hi * b
    ensures lo <= n / b < hi
  {
    TimesMonotone(n / b + 1, lo, b);
    TimesMonotone(hi, n / b, b);
    Distribute(n / b, 1, b);
    assert n == n / b * b + n % b;
  }

  lemma {:induction false} PeelBounds(n: nat, top: nat, p: nat, b: nat)
    requires b >= 2 && top * (p * b) <= n < (top + 1) * (p * b)
    ensures top * p <= n / b < (top + 1) * p
    ensures top > 0 && p > 0 ==> n > 0
  {
    Associate(top, p, b);
    Associate(top + 1, p, b);
    QuotientBetween(n, top * p, (top + 1) * p, b);
    if top > 0 && p > 0 {
      TimesMonotone(1, top, p);
      assert n / b > 0;
    }
  }

  // A number in [top * b^k, (top + 1) * b^k) has the digits of top and k more.
  lemma {:induction false} LeadingDigits(n: nat, k: nat, top: nat, b: nat)
    requires b >= 2 && top > 0
    requires top * Pow(b, k) <= n < (top + 1) * Pow(b, k)
    ensures |Digits(n, b)| == |Digits(top, b)| + k && Digits(top, b) <= Digits(n, b)
    decreases k
  {
    if k == 0 {
      assert Pow(b, 0) == 1;
    } else {
      PeelBounds(n, top, Pow(b, k - 1), b);
      PowPositive(b, k - 1);
      LeadingDigits(n / b, k - 1, top, b);
      DigitMoves(n, [], b);
      assert Digits(n, b) + [] == Digits(n, b);
    }
  }
}
