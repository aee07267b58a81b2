/** How a balance grows when a percentage late fee is applied again and again. */
module Compounding {
  import opened Money
  import opened LateFees

  function Pow(r: real, k: nat): real { if k == 0 then 1.0 else r * Pow(r, k - 1) }

  /** 1 + r + ... + r^(k-1) */
  function Geometric(r: real, k: nat): real { if k == 0 then 0.0 else 1.0 + r * Geometric(r, k - 1) }

  lemma {:induction false} GeometricSum(r: real, k: nat)
    ensures Geometric(r, k) * (r - 1.0) == Pow(r, k) - 1.0
  {
    if k > 0 {
      GeometricSum(r, k - 1);
      var g := Geometric(r, k - 1);
      assert (1.0 + r * g) * (r - 1.0) == (r - 1.0) + r * (g * (r - 1.0));
    }
  }

  function Abs(x: real): real { if x < 0.0 then -x else x }

  /** The growth factor of a fee of num/den percent. */
  function Factor(num: int, den: Positive): real { 1.0 + num as real / (100 * den) as real }

  lemma HalfAsReal(fee: int, n: int, d: int)
    requires d > 0 && 0 <= 2 * (fee * d - n) + d && 2 * (fee * d - n) <= d
    ensures Abs(fee as real - n as real / d as real) <= 0.5
  {
    var f, x, y := fee as real, n as real, d as real;
    assert (fee * d) as real == f * y;
    Quotient(f, x, y);
  }

  lemma Cancel(a: real, b: real, y: real)
    requires y > 0.0
    ensures a * y <= b * y <==> a <= b
  {}

  lemma Quotient(f: real, x: real, y: real)
    requires y > 0.0 && 0.0 <= 2.0 * (f * y - x) + y && 2.0 * (f * y - x) <= y
    ensures Abs(f - x / y) <= 0.5
  {
    var e := f - x / y;
    assert e * y == f * y - x;
    Cancel(e, 0.5, y);
    Cancel(-0.5, e, y);
  }

  lemma Distribute(b: real, n: real, d: real)
    requires d > 0.0
    ensures (1.0 + n / d) * b == b + (b * n) / d
  {
    assert (n / d) * b == (b * n) / d;
  }

  lemma Product(a: int, b: int)
    ensures (a * b) as real == a as real * b as real
  {}

  /** Rounding the fee to the cent loses at most half a cent. */
  lemma FeeError(balance: int, num: int, den: Positive)
    ensures Abs(RoundHalfEven(balance * num, 100 * den) as real
                - balance as real * num as real / (100 * den) as real) <= 0.5
  {
    RoundingError(balance * num, 100 * den);
    HalfAsReal(RoundHalfEven(balance * num, 100 * den), balance * num, 100 * den);
    Product(balance, num);
  }

  /** One application multiplies the balance by the factor, up to half a cent. */
  lemma OneApplication(balance: int, num: int, den: Positive)
    ensures TimesUpToHalfCent(balance, balance + RoundHalfEven(balance * num, 100 * den), Factor(num, den))
  {
    FeeError(balance, num, den);
    Distribute(balance as real, num as real, (100 * den) as real);
    var fee := RoundHalfEven(balance * num, 100 * den);
    assert (balance + fee) as real == balance as real + fee as real;
  }

  lemma Scale(r: real, e: real, c: real)
    requires r >= 0.0 && Abs(e) <= c
    ensures Abs(r * e) <= r * c
  {
    if e >= 0.0 {
      assert r * (c - e) >= 0.0;
    } else {
      assert r * (c + e) >= 0.0;
    }
  }

  lemma Regroup(r: real, b0: real, b: real, b': real, p: real, g: real)
    ensures b' - b0 * (r * p) == (b' - r * b) + r * (b - b0 * p)
    ensures 0.5 * (1.0 + r * g) == 0.5 + r * (0.5 * g)
  {
    assert r * (b - b0 * p) == r * b - r * (b0 * p);
    assert r * (b0 * p) == b0 * (r * p);
  }

  lemma Triangle(u: real, x: real, c: real)
    requires Abs(u) <= 0.5 && Abs(x) <= c
    ensures Abs(u + x) <= 0.5 + c
  {}

  ghost predicate HalfCentOff(x: real, y: real) { Abs(x - y) <= 0.5 }

  /** b' is r b up to half a cent. */
  ghost predicate TimesUpToHalfCent(b: int, b': int, r: real) { HalfCentOff(b' as real, r * b as real) }

  /** b is b0 p up to so many half cents. */
  ghost predicate Close(b0: real, b: real, p: real, halfCents: real) { Abs(b - b0 * p) <= 0.5 * halfCents }

  /** The error of one more application adds to r times the error so far. */
  lemma ErrorGrows(r: real, b0: real, b: real, b': real, p: real, g: real, p': real, g': real)
    requires r >= 0.0 && HalfCentOff(b', r * b) && Close(b0, b, p, g)
    requires p' == r * p && g' == 1.0 + r * g
    ensures Close(b0, b', p', g')
  {
    Scale(r, b - b0 * p, 0.5 * g);
    Regroup(r, b0, b, b', p, g);
    Triangle(b' - r * b, r * (b - b0 * p), r * (0.5 * g));
  }

  /** The balance is b0 r^k up to so many half cents. */
  ghost predicate Within(b0: int, b: int, r: real, k: nat, halfCents: real) {
    Close(b0 as real, b as real, Pow(r, k), halfCents)
  }

  ghost predicate Near(b0: int, b: int, r: real, k: nat) { Within(b0, b, r, k, Geometric(r, k)) }

  lemma NearGrows(b0: int, b: int, b': int, r: real, k: nat)
    requires r >= 0.0 && Near(b0, b, r, k) && TimesUpToHalfCent(b, b', r)
    ensures Near(b0, b', r, k + 1)
  {
    ErrorGrows(r, b0 as real, b as real, b' as real, Pow(r, k), Geometric(r, k), Pow(r, k + 1), Geometric(r, k + 1));
  }

  lemma NearNext(b0: int, b: int, num: int, den: Positive, k: nat)
    requires num >= 0 && Near(b0, b, Factor(num, den), k)
    ensures Near(b0, b + RoundHalfEven(b * num, 100 * den), Factor(num, den), k + 1)
  {
    OneApplication(b, num, den);
    FactorAbove(num, den);
    NearStep(b0, b, b + RoundHalfEven(b * num, 100 * den), Factor(num, den), k);
  }

  lemma NearStep(b0: int, b: int, b': int, r: real, k: nat)
    requires r >= 1.0 && Near(b0, b, r, k) && TimesUpToHalfCent(b, b', r)
    ensures Near(b0, b', r, k + 1)
  {
    NearGrows(b0, b, b', r, k);
  }

  lemma FactorAbove(num: int, den: Positive)
    ensures num >= 0 ==> Factor(num, den) >= 1.0
    ensures num > 0 ==> Factor(num, den) > 1.0
  {}

  /** The sweep's fee for this invoice is num/den percent whenever its property has a setting. */
  ghost predicate FixedRate(sws: seq<Sweep>, inv: Invoice, num: int, den: Positive) {
    forall sw :: sw in sws && Property(sw, inv).Found? ==> Property(sw, inv).setting.fee == Percent(num, den)
  }

  /** Any sweeps at a positive percentage, k of which charged the invoice. */
  lemma {:induction false} CompoundedBalance(sws: seq<Sweep>, invoices: seq<Invoice>, i: nat,
                                             num: int, den: Positive) returns (k: nat)
    requires i < |invoices| && num > 0 && FixedRate(sws, invoices[i], num, den)
    ensures |Sweeps(sws, invoices)| == |invoices|
    ensures var a, a' := invoices[i].account, Sweeps(sws, invoices)[i].account;
      a'.fees == a.fees + k && a'.balance >= a.balance + k && Near(a.balance, a'.balance, Factor(num, den), k)
    decreases |sws|
  {
    var b0 := invoices[i].account.balance;
    if sws == [] {
      k := 0;
      assert b0 as real * 1.0 == b0 as real;
    } else {
      var rest, last := sws[..|sws| - 1], sws[|sws| - 1];
      k := CompoundedBalance(rest, invoices, i, num, den);
      SweepsKeepBooks(rest, invoices, i);
      var inv := Sweeps(rest, invoices)[i];
      assert last in sws && Property(last, inv) == Property(last, invoices[i]);
      if Swept(last, inv, i) != inv {
        assert Swept(last, inv, i) == Charged(inv, RoundHalfEven(inv.account.balance * num, 100 * den));
        NearNext(b0, inv.account.balance, num, den, k);
        k := k + 1;
      }
    }
  }

  /**
   * After any sweeps at a positive percentage of factor r, k of which charged the invoice, its
   * balance is b_0 r^k up to (r^k - 1) / (r - 1) half cents, and each charge raised it.
   */
  lemma CompoundingBound(sws: seq<Sweep>, invoices: seq<Invoice>, i: nat, num: int, den: Positive)
    returns (k: nat)
    requires i < |invoices| && num > 0 && FixedRate(sws, invoices[i], num, den)
    ensures |Sweeps(sws, invoices)| == |invoices|
    ensures var a, a', r := invoices[i].account, Sweeps(sws, invoices)[i].account, Factor(num, den);
      && r > 1.0 && a'.fees == a.fees + k && a'.balance >= a.balance + k
      && Within(a.balance, a'.balance, r, k, Accumulated(r, k))
  {
    k := CompoundedBalance(sws, invoices, i, num, den);
    FactorAbove(num, den);
    WrittenOut(invoices[i].account.balance, Sweeps(sws, invoices)[i].account.balance, Factor(num, den), k);
  }

  lemma WrittenOut(b0: int, b: int, r: real, k: nat)
    requires r > 1.0 && Near(b0, b, r, k)
    ensures Within(b0, b, r, k, Accumulated(r, k))
  {
    Divided(r, k);
  }

  /** (r^k - 1) / (r - 1) */
  function Accumulated(r: real, k: nat): real
    requires r > 1.0
  {
    (Pow(r, k) - 1.0) / (r - 1.0)
  }

  lemma DividedBy(g: real, q: real, p: real)
    requires q > 0.0 && g * q == p
    ensures g == p / q
  {}

  lemma Divided(r: real, k: nat)
    requires r > 1.0
    ensures Geometric(r, k) == Accumulated(r, k)
  {
    GeometricSum(r, k);
    DividedBy(Geometric(r, k), r - 1.0, Pow(r, k) - 1.0);
  }
}
