// Finite real vectors: the little linear algebra that the sampling laws need.
//
// Products and reciprocals are named functions. A lemma about whole vectors hides
// them and gets what it needs about them from lemmas about single numbers.
module Vectors {

  // ----- numbers -----

  function Times(x: real, y: real): real {
    x * y
  }

  function Recip(x: real): real {
    if x > 0.0 then 1.0 / x else 0.0
  }

  function Abs(x: real): real {
    if x < 0.0 then -x else x
  }

  function Min(x: real, y: real): real {
    if x < y then x else y
  }

  predicate Near(x: real, y: real, e: real) {
    -e <= x - y <= e
  }

  // The average of x and y in which x has weight a.
  function Mix(a: real, x: real, y: real): real {
    Times(a, x) + Times(1.0 - a, y)
  }

  lemma TimesUnit(x: real)
    ensures Times(x, 1.0) == Times(1.0, x) == x
    ensures Times(x, 0.0) == Times(0.0, x) == 0.0
  {
  }

  lemma TimesCommutes(x: real, y: real)
    ensures Times(x, y) == Times(y, x)
  {
  }

  lemma TimesAssociates(x: real, y: real, z: real)
    ensures Times(Times(x, y), z) == Times(x, Times(y, z))
  {
  }

  lemma TimesPlus(x: real, y: real, z: real)
    ensures Times(x, y + z) == Times(x, y) + Times(x, z)
    ensures Times(y + z, x) == Times(y, x) + Times(z, x)
  {
  }

  lemma TimesSign(x: real, y: real)
    requires x >= 0.0 && y >= 0.0
    ensures Times(x, y) >= 0.0
    ensures x > 0.0 && y > 0.0 ==> Times(x, y) > 0.0
  {
  }

  lemma TimesMonotone(x: real, y: real, z: real)
    requires x <= y && z >= 0.0
    ensures Times(x, z) <= Times(y, z)
    ensures Times(z, x) <= Times(z, y)
  {
    hide Times;
    TimesSign(y - x, z);
    TimesPlus(z, y - x, x);
    TimesCommutes(x, z);
    TimesCommutes(y, z);
    TimesCommutes(y - x, z);
  }

  lemma TimesNear(w: real, x: real, y: real, e: real)
    requires w >= 0.0 && Near(x, y, e)
    ensures Near(Times(w, x), Times(w, y), Times(w, e))
  {
    hide Times;
    TimesMonotone(x, y + e, w);
    TimesMonotone(y, x + e, w);
    TimesPlus(w, y, e);
    TimesPlus(w, x, e);
  }

  lemma TimesBound(d: real, a: real, v: real, bound: real)
    requires -a <= d <= a && -bound <= v <= bound
    ensures -Times(a, bound) <= Times(d, v) <= Times(a, bound)
  {
    hide Times;
    TimesSign(a - d, bound + v);
    TimesSign(a + d, bound - v);
    TimesSign(a - d, bound - v);
    TimesSign(a + d, bound + v);
    TimesExpand(a, -d, bound, v);
    TimesExpand(a, d, bound, -v);
    TimesExpand(a, -d, bound, -v);
    TimesExpand(a, d, bound, v);
  }

  lemma TimesExpand(a: real, d: real, b: real, v: real)
    ensures Times(a + d, b + v) == Times(a, b) + Times(a, v) + Times(d, b) + Times(d, v)
    ensures Times(-a, b) == -Times(a, b) == Times(a, -b)
    ensures Times(-a, -b) == Times(a, b)
    ensures Times(-d, v) == -Times(d, v) == Times(d, -v)
    ensures Times(-d, b) == -Times(d, b)
    ensures Times(a, -v) == -Times(a, v)
  {
  }

  lemma RecipIs(x: real)
    requires x > 0.0
    ensures Recip(x) > 0.0 && Times(x, Recip(x)) == 1.0
  {
  }

  lemma RecipUnique(x: real, y: real)
    requires x > 0.0 && Times(x, y) == 1.0
    ensures y == Recip(x)
  {
    assert x * (y - 1.0 / x) == 0.0;
  }

  lemma RecipTimes(x: real, y: real)
    requires x > 0.0 && y > 0.0
    ensures Recip(Times(x, y)) == Times(Recip(x), Recip(y))
  {
    hide Times, Recip;
    var a, b := Recip(x), Recip(y);
    TimesSign(x, y);
    RecipIs(x);
    RecipIs(y);
    TimesAssociates(Times(x, y), a, b);
    TimesAssociates(x, y, a);
    TimesCommutes(y, a);
    TimesAssociates(x, a, y);
    TimesUnit(y);
    RecipUnique(Times(x, y), Times(a, b));
  }

  // ----- vectors -----

  function Sum(w: seq<real>): real {
    if |w| == 0 then 0.0 else w[0] + Sum(w[1..])
  }

  function Dot(w: seq<real>, v: seq<real>): real
    requires |w| == |v|
  {
    if |w| == 0 then 0.0 else Times(w[0], v[0]) + Dot(w[1..], v[1..])
  }

  predicate NonNegative(w: seq<real>) {
    forall i :: 0 <= i < |w| ==> w[i] >= 0.0
  }

  // A probability vector over the n tokens 0 .. n-1.
  predicate IsDistribution(w: seq<real>, n: nat) {
    |w| == n && NonNegative(w) && Sum(w) == 1.0
  }

  // Every entry of v lies within e of the corresponding entry of w.
  predicate Within(v: seq<real>, w: seq<real>, e: real)
    requires |v| == |w|
  {
    forall i :: 0 <= i < |v| ==> Near(v[i], w[i], e)
  }

  function Scale(w: seq<real>, c: real): (v: seq<real>)
    ensures |v| == |w|
  {
    seq(|w|, i requires 0 <= i < |w| => Times(w[i], c))
  }

  // Weights as probabilities; weights that are all zero have no law and get none.
  function Normalise(w: seq<real>): (v: seq<real>)
    ensures |v| == |w|
  {
    Scale(w, Recip(Sum(w)))
  }

  lemma {:induction false} SumPlus(z: seq<real>, u: seq<real>, v: seq<real>)
    requires |z| == |u| == |v|
    requires forall i :: 0 <= i < |z| ==> z[i] <= u[i] + v[i]
    ensures Sum(z) <= Sum(u) + Sum(v)
    ensures (forall i :: 0 <= i < |z| ==> z[i] == u[i] + v[i]) ==> Sum(z) == Sum(u) + Sum(v)
  {
    if |z| == 0 {
    } else {
      SumPlus(z[1..], u[1..], v[1..]);
    }
  }

  lemma {:induction false} SumMonotone(u: seq<real>, v: seq<real>)
    requires |u| == |v|
    requires forall i :: 0 <= i < |u| ==> u[i] <= v[i]
    ensures Sum(u) <= Sum(v)
  {
    if |u| == 0 {
    } else {
      SumMonotone(u[1..], v[1..]);
    }
  }

  lemma {:induction false} SumNonNegative(w: seq<real>)
    requires NonNegative(w)
    ensures Sum(w) >= 0.0
  {
    if |w| == 0 {
    } else {
      SumNonNegative(w[1..]);
    }
  }

  lemma {:induction false} SumAtMost(w: seq<real>, hi: real)
    requires forall i :: 0 <= i < |w| ==> w[i] <= hi
    ensures Sum(w) <= Times(|w| as real, hi)
  {
    hide Times;
    TimesUnit(hi);
    if |w| == 0 {
    } else {
      SumAtMost(w[1..], hi);
      TimesPlus(hi, 1.0, |w[1..]| as real);
      assert |w| as real == 1.0 + |w[1..]| as real;
    }
  }

  lemma {:induction false} SumZero(w: seq<real>)
    requires NonNegative(w) && Sum(w) <= 0.0
    ensures forall i :: 0 <= i < |w| ==> w[i] == 0.0
  {
    if |w| == 0 {
    } else {
      SumNonNegative(w[1..]);
      SumZero(w[1..]);
    }
  }

  lemma {:induction false} SumOfZeros(w: seq<real>)
    requires forall i :: 0 <= i < |w| ==> w[i] == 0.0
    ensures Sum(w) == 0.0
  {
    if |w| == 0 {
    } else {
      SumOfZeros(w[1..]);
    }
  }

  // ----- scaling -----

  lemma ScaleTail(w: seq<real>, c: real)
    requires |w| > 0
    ensures Scale(w, c)[1..] == Scale(w[1..], c)
  {
    hide Times;
    forall i | 0 <= i < |w| - 1 ensures Scale(w, c)[1..][i] == Scale(w[1..], c)[i] {
      assert w[1..][i] == w[i + 1];
    }
  }

  lemma {:induction false} SumScale(w: seq<real>, c: real)
    ensures Sum(Scale(w, c)) == Times(Sum(w), c)
  {
    hide Times;
    TimesUnit(c);
    if |w| == 0 {
    } else {
      SumScale(w[1..], c);
      ScaleTail(w, c);
      TimesPlus(c, w[0], Sum(w[1..]));
    }
  }

  lemma {:induction false} DotScale(w: seq<real>, c: real, a: seq<real>)
    requires |w| == |a|
    ensures Dot(Scale(w, c), a) == Times(c, Dot(w, a))
  {
    hide Times;
    TimesUnit(c);
    if |w| == 0 {
    } else {
      DotScale(w[1..], c, a[1..]);
      ScaleTail(w, c);
      TimesCommutes(w[0], c);
      TimesAssociates(c, w[0], a[0]);
      TimesPlus(c, Times(w[0], a[0]), Dot(w[1..], a[1..]));
    }
  }

  lemma ScaleNonNegative(w: seq<real>, c: real)
    requires NonNegative(w) && c >= 0.0
    ensures NonNegative(Scale(w, c))
  {
    hide Times;
    forall i | 0 <= i < |w| ensures Scale(w, c)[i] >= 0.0 {
      TimesSign(w[i], c);
    }
  }

  lemma ScaleUnit(w: seq<real>)
    ensures Scale(w, 1.0) == w
  {
    hide Times;
    forall i | 0 <= i < |w| ensures Scale(w, 1.0)[i] == w[i] {
      TimesUnit(w[i]);
    }
  }

  lemma NormaliseDistribution(w: seq<real>)
    requires Sum(w) == 1.0
    ensures Normalise(w) == w
  {
    hide Times;
    assert Recip(1.0) == 1.0;
    ScaleUnit(w);
  }

  lemma NormaliseSum(w: seq<real>)
    requires NonNegative(w)
    ensures NonNegative(Normalise(w))
    ensures Sum(Normalise(w)) == if Sum(w) > 0.0 then 1.0 else 0.0
  {
    hide Times;
    SumScale(w, Recip(Sum(w)));
    ScaleNonNegative(w, Recip(Sum(w)));
    if Sum(w) > 0.0 {
      RecipIs(Sum(w));
    } else {
      TimesUnit(Sum(w));
    }
  }

  // Scaling all weights does not change the law they stand for.
  lemma NormaliseScale(w: seq<real>, c: real)
    requires c > 0.0 && NonNegative(w)
    ensures Normalise(Scale(w, c)) == Normalise(w)
  {
    hide Times, Recip;
    var s := Sum(w);
    SumScale(w, c);
    SumNonNegative(w);
    forall i | 0 <= i < |w| ensures Normalise(Scale(w, c))[i] == Normalise(w)[i] {
      if s > 0.0 {
        RecipTimes(s, c);
        CancelScale(w[i], s, c);
      } else {
        SumZero(w);
        TimesUnit(c);
        TimesUnit(Recip(Times(s, c)));
        TimesUnit(Recip(s));
      }
    }
  }

  lemma CancelScale(x: real, s: real, c: real)
    requires c > 0.0
    ensures Times(Times(x, c), Times(Recip(s), Recip(c))) == Times(x, Recip(s))
  {
    hide Times, Recip;
    var a, b := Recip(s), Recip(c);
    RecipIs(c);
    TimesAssociates(x, c, Times(a, b));
    TimesCommutes(a, b);
    TimesAssociates(c, b, a);
    TimesUnit(a);
  }

  // ----- averages -----

  lemma {:induction false} DotPlus(z: seq<real>, u: seq<real>, v: seq<real>, a: seq<real>)
    requires |z| == |u| == |v| == |a|
    requires forall i :: 0 <= i < |z| ==> z[i] == u[i] + v[i]
    ensures Dot(z, a) == Dot(u, a) + Dot(v, a)
  {
    hide Times;
    if |z| == 0 {
    } else {
      DotPlus(z[1..], u[1..], v[1..], a[1..]);
      TimesPlus(a[0], u[0], v[0]);
    }
  }

  lemma {:induction false} DotConstant(w: seq<real>, v: seq<real>, c: real)
    requires |w| == |v|
    requires forall i :: 0 <= i < |v| ==> v[i] == c
    ensures Dot(w, v) == Times(Sum(w), c)
  {
    hide Times;
    TimesUnit(c);
    if |w| == 0 {
    } else {
      DotConstant(w[1..], v[1..], c);
      TimesPlus(c, w[0], Sum(w[1..]));
    }
  }

  // Averaging commutes with mixing in a constant.
  lemma {:induction false} DotMix(w: seq<real>, u: seq<real>, v: seq<real>, a: real, r: real)
    requires |w| == |u| == |v|
    requires forall i :: 0 <= i < |w| ==> u[i] == Mix(a, v[i], r)
    ensures Dot(w, u) == Times(a, Dot(w, v)) + Times(Sum(w), Times(1.0 - a, r))
  {
    hide Times;
    var c := Times(1.0 - a, r);
    TimesUnit(a);
    TimesUnit(c);
    if |w| == 0 {
    } else {
      DotMix(w[1..], u[1..], v[1..], a, r);
      TimesPlus(w[0], Times(a, v[0]), c);
      TimesAssociates(w[0], a, v[0]);
      TimesCommutes(w[0], a);
      TimesAssociates(a, w[0], v[0]);
      TimesPlus(a, Times(w[0], v[0]), Dot(w[1..], v[1..]));
      TimesPlus(c, w[0], Sum(w[1..]));
    }
  }

  // A nonnegative weighting of two vectors that are entrywise e apart.
  lemma {:induction false} DotWithin(w: seq<real>, u: seq<real>, v: seq<real>, e: real)
    requires |w| == |u| == |v| && NonNegative(w) && Within(u, v, e)
    ensures Near(Dot(w, u), Dot(w, v), Times(Sum(w), e))
  {
    hide Times;
    TimesUnit(e);
    if |w| == 0 {
    } else {
      DotWithin(w[1..], u[1..], v[1..], e);
      TimesNear(w[0], u[0], v[0], e);
      TimesPlus(e, w[0], Sum(w[1..]));
    }
  }

  lemma WeakWithin(w: seq<real>, u: seq<real>, v: seq<real>, e: real)
    requires |w| == |u| == |v| && NonNegative(w) && Sum(w) <= 1.0 && Within(u, v, e) && e >= 0.0
    ensures Near(Dot(w, u), Dot(w, v), e)
  {
    hide Times, Dot, Sum;
    DotWithin(w, u, v, e);
    TimesMonotone(Sum(w), 1.0, e);
    TimesUnit(e);
  }

  // Hoelder's inequality between the sum of absolute values and the maximum.
  lemma {:induction false} DotBound(d: seq<real>, a: seq<real>, v: seq<real>, bound: real)
    requires |d| == |a| == |v|
    requires forall i :: 0 <= i < |d| ==> -a[i] <= d[i] <= a[i]
    requires forall i :: 0 <= i < |v| ==> -bound <= v[i] <= bound
    ensures -Times(Sum(a), bound) <= Dot(d, v) <= Times(Sum(a), bound)
  {
    hide Times;
    TimesUnit(bound);
    if |d| == 0 {
    } else {
      DotBound(d[1..], a[1..], v[1..], bound);
      TimesBound(d[0], a[0], v[0], bound);
      TimesPlus(bound, a[0], Sum(a[1..]));
    }
  }
}
