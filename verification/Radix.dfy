/** Positional numbers, most significant digit first. */
module Radix {
  import opened Text

  function Pow(b: nat, n: nat): (r: nat)
    ensures b > 0 ==> r > 0
  {
    if n == 0 then 1 else
      assert b > 0 ==> b * Pow(b, n - 1) > 0;
      b * Pow(b, n - 1)
  }

  lemma Regroup(b: nat, p: nat, q: nat)
    ensures b * (p * q) == (b * p) * q
  {
  }

  lemma {:induction false} PowAdd(b: nat, m: nat, n: nat)
    ensures Pow(b, m + n) == Pow(b, m) * Pow(b, n)
  {
    if m > 0 {
      PowAdd(b, m - 1, n);
      Regroup(b, Pow(b, m - 1), Pow(b, n));
    }
  }

  lemma {:induction false} PowPow(b: nat, m: nat, n: nat)
    ensures Pow(Pow(b, m), n) == Pow(b, m * n)
  {
    if n == 0 {
      assert m * n == 0;
    } else {
      PowPow(b, m, n - 1);
      PowAdd(b, m, m * (n - 1));
      assert m * n == m + m * (n - 1);
    }
  }

  predicate Digits(b: nat, ds: seq<nat>) {
    forall d | d in ds :: d < b
  }

  function Num(b: nat, ds: seq<nat>): nat {
    if ds == [] then 0 else ds[0] * Pow(b, |ds| - 1) + Num(b, ds[1..])
  }

  lemma NumCons(b: nat, d: nat, ds: seq<nat>)
    ensures Num(b, [d] + ds) == d * Pow(b, |ds|) + Num(b, ds)
  {
    assert ([d] + ds)[1..] == ds;
  }

  lemma {:induction false} NumAppend(b: nat, xs: seq<nat>, ys: seq<nat>)
    ensures Num(b, xs + ys) == Num(b, xs) * Pow(b, |ys|) + Num(b, ys)
  {
    if xs == [] {
      assert xs + ys == ys;
    } else {
      assert xs + ys == [xs[0]] + (xs[1..] + ys);
      NumCons(b, xs[0], xs[1..] + ys);
      NumAppend(b, xs[1..], ys);
      PowAdd(b, |xs| - 1, |ys|);
      Distribute(xs[0], Pow(b, |xs| - 1), Num(b, xs[1..]), Pow(b, |ys|));
    }
  }

  lemma Distribute(x: nat, p: nat, n: nat, q: nat)
    ensures x * (p * q) + n * q == (x * p + n) * q
  {
    assert x * (p * q) == (x * p) * q;
  }

  lemma Grows(x: nat, y: nat, p: nat)
    requires x <= y
    ensures x * p <= y * p
  {
  }

  lemma Room(b: nat, d: nat, p: nat, n: nat)
    requires d < b && n < p
    ensures d * p + n < b * p
  {
    Grows(d + 1, b, p);
    assert (d + 1) * p == d * p + p;
  }

  lemma {:induction false} NumBound(b: nat, ds: seq<nat>)
    requires Digits(b, ds)
    ensures Num(b, ds) < Pow(b, |ds|)
  {
    if ds != [] {
      assert ds[0] in ds && forall d | d in ds[1..] :: d in ds;
      NumBound(b, ds[1..]);
      Room(b, ds[0], Pow(b, |ds| - 1), Num(b, ds[1..]));
    }
  }

  /** The `n` lowest digits of a number. */
  function DigitsOf(b: nat, v: nat, n: nat): (ds: seq<nat>)
    requires b > 0
    ensures |ds| == n && Digits(b, ds)
    decreases n
  {
    if n == 0 then [] else DigitsOf(b, v / b, n - 1) + [v % b]
  }

  lemma {:induction false} NumThere(b: nat, ds: seq<nat>)
    requires b > 0 && Digits(b, ds)
    ensures DigitsOf(b, Num(b, ds), |ds|) == ds
    decreases |ds|
  {
    if ds != [] {
      var n := |ds| - 1;
      var init, last := ds[..n], ds[n];
      assert ds == init + [last];
      assert last in ds && forall d | d in init :: d in ds;
      NumAppend(b, init, [last]);
      One(b, last);
      DivMod(b, Num(b, init), last);
      NumThere(b, init);
    }
  }

  lemma QuotientSmaller(b: nat, v: nat, p: nat)
    requires b > 0 && v < b * p
    ensures v / b < p
  {
    if v / b >= p {
      Grows(p, v / b, b);
    }
  }

  lemma {:induction false} NumBack(b: nat, v: nat, n: nat)
    requires b > 0 && v < Pow(b, n)
    ensures Num(b, DigitsOf(b, v, n)) == v
    decreases n
  {
    if n > 0 {
      QuotientSmaller(b, v, Pow(b, n - 1));
      NumBack(b, v / b, n - 1);
      LastDigit(b, DigitsOf(b, v / b, n - 1), v % b);
    }
  }

  lemma LastDigit(b: nat, init: seq<nat>, d: nat)
    ensures Num(b, init + [d]) == Num(b, init) * b + d
  {
    NumAppend(b, init, [d]);
    One(b, d);
  }

  lemma One(b: nat, d: nat)
    ensures Num(b, [d]) == d && Pow(b, 1) == b
  {
    assert [d][1..] == [] && Pow(b, 0) == 1;
  }

  lemma DivMod(b: nat, q: nat, r: nat)
    requires r < b
    ensures (q * b + r) / b == q && (q * b + r) % b == r
  {
    var v := q * b + r;
    var q', r' := v / b, v % b;
    assert v == q' * b + r';
    if q' > q {
      Grows(q + 1, q', b);
    } else if q' < q {
      Grows(q' + 1, q, b);
    }
  }

  // ----- Digit strings as text -----

  /** Alphabets that list their characters in ascending order. */
  ghost predicate Ascending(alphabet: nat -> char, b: nat) {
    forall i, j | 0 <= i < j < b :: alphabet(i) < alphabet(j)
  }

  function Spelled(alphabet: nat -> char, ds: seq<nat>): (s: string)
    ensures |s| == |ds| && forall k | 0 <= k < |ds| :: s[k] == alphabet(ds[k])
  {
    seq(|ds|, k requires 0 <= k < |ds| => alphabet(ds[k]))
  }

  /** Equally long digit strings sort as their numbers do. */
  lemma {:induction false} SpelledSorts(alphabet: nat -> char, b: nat, xs: seq<nat>, ys: seq<nat>)
    requires Ascending(alphabet, b) && |xs| == |ys| && Digits(b, xs) && Digits(b, ys)
    ensures Before(Spelled(alphabet, xs), Spelled(alphabet, ys)) <==> Num(b, xs) < Num(b, ys)
  {
    if xs != [] {
      assert xs[0] in xs && ys[0] in ys;
      assert forall d | d in xs[1..] :: d in xs;
      assert forall d | d in ys[1..] :: d in ys;
      assert Spelled(alphabet, xs)[1..] == Spelled(alphabet, xs[1..]);
      assert Spelled(alphabet, ys)[1..] == Spelled(alphabet, ys[1..]);
      SpelledSorts(alphabet, b, xs[1..], ys[1..]);
      if xs[0] < ys[0] {
        LeadingDecides(b, xs, ys);
      } else if xs[0] > ys[0] {
        LeadingDecides(b, ys, xs);
      }
    }
  }

  lemma LeadingDecides(b: nat, xs: seq<nat>, ys: seq<nat>)
    requires |xs| == |ys| > 0 && Digits(b, xs) && Digits(b, ys) && xs[0] < ys[0]
    ensures Num(b, xs) < Num(b, ys)
  {
    assert forall d | d in xs[1..] :: d in xs;
    NumBound(b, xs[1..]);
    Room(ys[0], xs[0], Pow(b, |xs| - 1), Num(b, xs[1..]));
  }
}
