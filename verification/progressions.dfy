/**
 The `Series` hierarchy of Lab3_2: arithmetic (`Linear`) and geometric
 (`Exponential`) progressions with their j-th term and the sum of terms
 0..n. The source computes with Python floats; this model uses exact reals,
 with indices restricted to naturals.
 */
module Progressions {

  /** The abstract `Series` with its two concrete classes. Both share the
      first term `a0`; `d` is the common difference and `r` the ratio. */
  datatype Series = Linear(a0: real, d: real) | Exponential(a0: real, r: real)

  /** x raised to the natural power k (Python's `**`, with 0 ** 0 == 1). */
  function Power(x: real, k: nat): real {
    if k == 0 then 1.0 else x * Power(x, k - 1)
  }

  /** `get_element(j)`: the j-th term, counting from 0. Term 0 is the first
      term `a0`, and a series with difference 0 or ratio 1 is constant. */
  function Element(s: Series, j: nat): (e: real)
    ensures j == 0 ==> e == s.a0
    ensures s.Linear? && s.d == 0.0 ==> e == s.a0
    ensures s.Exponential? && s.r == 1.0 ==> e == s.a0
  {
    match s
    case Linear(a0, d) => a0 + (j as real) * d
    case Exponential(a0, r) => PowerOfOne(j); a0 * Power(r, j)
  }

  /** Reference definition: the terms 0..n added one by one. */
  function TermSum(s: Series, n: nat): real {
    if n == 0 then Element(s, 0) else TermSum(s, n - 1) + Element(s, n)
  }

  /** `get_sum(n)`: the closed form the source uses for the sum of terms
      0..n, which is the sum of `get_element(j)` for j = 0..n as the
      abstract class documents. The geometric case avoids dividing by zero
      when r == 1. */
  function Sum(s: Series, n: nat): (t: real)
    ensures t == TermSum(s, n)
  {
    match s
    case Linear(a0, d) =>
      LinearSumIsTermSum(a0, d, n);
      ((n + 1) as real) * (a0 + Element(Linear(a0, d), n)) / 2.0
    case Exponential(a0, r) =>
      GeometricSumIsTermSum(a0, r, n);
      if r == 1.0 then ((n + 1) as real) * a0
      else (a0 - Element(Exponential(a0, r), n) * r) / (1.0 - r)
  }

  /** Consecutive terms of an arithmetic progression differ by `d`. */
  lemma LinearStep(a0: real, d: real, j: nat)
    ensures Element(Linear(a0, d), 0) == a0
    ensures Element(Linear(a0, d), j + 1) - Element(Linear(a0, d), j) == d
  {}

  /** A geometric progression starts at `a0` and each term is `r` times the
      previous one. */
  lemma ExponentialStep(a0: real, r: real, j: nat)
    ensures Element(Exponential(a0, r), 0) == a0
    ensures Element(Exponential(a0, r), j + 1) == r * Element(Exponential(a0, r), j)
  {
    calc {
      Element(Exponential(a0, r), j + 1);
      a0 * (r * Power(r, j));
      r * (a0 * Power(r, j));
    }
  }

  /** Twice the sum of terms 0..n of an arithmetic progression. */
  lemma {:induction false} LinearTermSum(a0: real, d: real, n: nat)
    ensures 2.0 * TermSum(Linear(a0, d), n) == ((n + 1) as real) * (2.0 * a0 + (n as real) * d)
  {
    if n > 0 {
      LinearTermSum(a0, d, n - 1);
      var m := (n - 1) as real;
      assert 2.0 * TermSum(Linear(a0, d), n - 1) == (m + 1.0) * (2.0 * a0 + m * d);
      assert (m + 1.0) * (2.0 * a0 + m * d) + 2.0 * (a0 + (m + 1.0) * d)
          == (m + 2.0) * (2.0 * a0 + (m + 1.0) * d);
    }
  }

  /** The arithmetic closed form is the sum of the terms 0..n. */
  lemma LinearSumIsTermSum(a0: real, d: real, n: nat)
    ensures ((n + 1) as real) * (a0 + Element(Linear(a0, d), n)) / 2.0 == TermSum(Linear(a0, d), n)
  {
    LinearTermSum(a0, d, n);
  }

  lemma {:induction false} PowerOfOne(k: nat)
    ensures Power(1.0, k) == 1.0
  {
    if k > 0 {
      PowerOfOne(k - 1);
    }
  }

  /** (1 - r) times the sum of terms 0..n of a geometric progression
      telescopes to a0 - a_n * r. */
  predicate Telescopes(a0: real, r: real, n: nat) {
    TelescopeHolds(a0, r, Element(Exponential(a0, r), n), TermSum(Exponential(a0, r), n))
  }

  /** (1 - r) * t == a0 - e * r, for a sum t whose last term is e. */
  predicate TelescopeHolds(a0: real, r: real, e: real, t: real) {
    (1.0 - r) * t == a0 - e * r
  }

  lemma {:induction false} GeometricTelescope(a0: real, r: real, n: nat)
    ensures Telescopes(a0, r, n)
  {
    if n > 0 {
      var s := Exponential(a0, r);
      GeometricTelescope(a0, r, n - 1);
      ExponentialStep(a0, r, n - 1);
      TelescopeStep(a0, r, Element(s, n - 1), TermSum(s, n - 1));
      assert TermSum(s, n) == TermSum(s, n - 1) + Element(s, n);
    }
  }

  /** One step of the telescoping: adding the next term r * e keeps
      (1 - r) * sum == a0 - last * r. */
  lemma TelescopeStep(a0: real, r: real, e: real, t: real)
    requires TelescopeHolds(a0, r, e, t)
    ensures TelescopeHolds(a0, r, r * e, t + r * e)
  {}

  /** The geometric closed form is the sum of the terms 0..n, in both the
      r == 1 branch and the division branch. */
  lemma GeometricSumIsTermSum(a0: real, r: real, n: nat)
    ensures r == 1.0 ==> ((n + 1) as real) * a0 == TermSum(Exponential(a0, r), n)
    ensures r != 1.0 ==>
      (a0 - Element(Exponential(a0, r), n) * r) / (1.0 - r) == TermSum(Exponential(a0, r), n)
  {
    if r == 1.0 {
      ConstantRatioTermSum(a0, n);
    } else {
      DivisionBranchIsTermSum(a0, r, n);
    }
  }

  lemma DivisionBranchIsTermSum(a0: real, r: real, n: nat)
    requires r != 1.0
    ensures (a0 - Element(Exponential(a0, r), n) * r) / (1.0 - r) == TermSum(Exponential(a0, r), n)
  {
    GeometricTelescope(a0, r, n);
    TelescopeQuotient(a0, r, n);
  }

  lemma TelescopeQuotient(a0: real, r: real, n: nat)
    requires r != 1.0 && Telescopes(a0, r, n)
    ensures (a0 - Element(Exponential(a0, r), n) * r) / (1.0 - r) == TermSum(Exponential(a0, r), n)
  {
    DivideOut(a0, r, Element(Exponential(a0, r), n), TermSum(Exponential(a0, r), n));
  }

  /** Dividing the telescoped identity by 1 - r, which is not zero. */
  lemma DivideOut(a0: real, r: real, e: real, t: real)
    requires r != 1.0 && TelescopeHolds(a0, r, e, t)
    ensures (a0 - e * r) / (1.0 - r) == t
  {
    QuotientOfProduct(a0 - e * r, 1.0 - r, t);
  }

  lemma QuotientOfProduct(x: real, y: real, t: real)
    requires y != 0.0 && x == y * t
    ensures x / y == t
  {}

  /** With ratio 1 every term is `a0`, so the terms 0..n add up to (n+1) a0. */
  lemma {:induction false} ConstantRatioTermSum(a0: real, n: nat)
    ensures TermSum(Exponential(a0, 1.0), n) == ((n + 1) as real) * a0
  {
    PowerOfOne(n);
    var s := Exponential(a0, 1.0);
    assert Element(s, n) == a0;
    if n > 0 {
      ConstantRatioTermSum(a0, n - 1);
      assert TermSum(s, n) == ((n - 1 + 1) as real) * a0 + a0;
    }
  }

  /** The `a0` setter of `Series`: only the first term changes. */
  function SetA0(s: Series, v: real): (t: Series)
    ensures t.a0 == v
    ensures t.Linear? == s.Linear?
    ensures t.Linear? ==> t.d == s.d
    ensures t.Exponential? ==> t.r == s.r
  {
    s.(a0 := v)
  }

  /** The `d` setter. It is a property of `Linear` only: on an `Exponential`
      object the assignment merely adds an attribute that no computation
      reads, so the series is unchanged. */
  function SetD(s: Series, v: real): (t: Series)
    ensures t.Linear? == s.Linear? && t.a0 == s.a0
    ensures t.Linear? ==> t.d == v
    ensures t.Exponential? ==> t == s
  {
    if s.Linear? then s.(d := v) else s
  }

  /** The `r` setter, a property of `Exponential` only (see `SetD`). */
  function SetR(s: Series, v: real): (t: Series)
    ensures t.Exponential? == s.Exponential? && t.a0 == s.a0
    ensures t.Exponential? ==> t.r == v
    ensures t.Linear? ==> t == s
  {
    if s.Exponential? then s.(r := v) else s
  }

  /** Writing back the value just read changes nothing, and a second write
      overrides the first. */
  lemma SettersAreLenses(s: Series, v: real, w: real)
    ensures SetA0(s, s.a0) == s && SetA0(SetA0(s, v), w) == SetA0(s, w)
    ensures s.Linear? ==> SetD(s, s.d) == s
    ensures s.Exponential? ==> SetR(s, s.r) == s
    ensures SetD(SetD(s, v), w) == SetD(s, w) && SetR(SetR(s, v), w) == SetR(s, w)
  {}

  /** How a new first term shows up in the terms: it shifts an arithmetic
      progression and rescales a geometric one. */
  lemma SetA0Terms(s: Series, v: real, j: nat)
    ensures s.Linear? ==> Element(SetA0(s, v), j) == Element(s, j) + (v - s.a0)
    ensures s.Exponential? ==> Element(SetA0(s, v), j) == v * Power(s.r, j)
  {}

  /** A new difference changes the j-th arithmetic term by j times the change. */
  lemma SetDTerms(s: Series, v: real, j: nat)
    requires s.Linear?
    ensures Element(SetD(s, v), j) == Element(s, j) + (j as real) * (v - s.d)
  {}

  /** The values printed by the demonstration block of Lab3_2. */
  lemma LinearDemo()
    ensures Element(Linear(1.0, 2.0), 5) == 11.0
    ensures Sum(Linear(1.0, 2.0), 5) == 36.0
  {}

  lemma ExponentialDemo()
    ensures Element(Exponential(2.0, 3.0), 5) == 486.0
    ensures Sum(Exponential(2.0, 3.0), 5) == 728.0
  {
    assert Power(3.0, 2) == 9.0;
    assert Power(3.0, 5) == 243.0;
  }
}
