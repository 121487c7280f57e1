// Lists as sets, and sizes.
module Collections {
  predicate Distinct<T(==)>(xs: seq<T>) {
    forall i, j :: 0 <= i < j < |xs| ==> xs[i] != xs[j]
  }

  function SetOf<T>(xs: seq<T>): set<T> {
    set x | x in xs
  }

  lemma SetOfMore<T>(xs: seq<T>, x: T)
    ensures SetOf(xs + [x]) == SetOf(xs) + {x}
  {
  }

  lemma {:induction false} SizeOfSet<T>(xs: seq<T>)
    requires Distinct(xs)
    ensures |SetOf(xs)| == |xs|
  {
    if |xs| == 0 {
      assert SetOf(xs) == {};
    } else {
      var before, x := xs[..|xs| - 1], xs[|xs| - 1];
      SizeOfSet(before);
      SetOfMore(before, x);
      assert xs == before + [x];
    }
  }

  lemma SubsetSize<T>(a: set<T>, b: set<T>)
    requires a <= b
    ensures |a| <= |b|
  {
    assert b == a + (b - a);
  }

  function Smaller(a: nat, b: nat): nat {
    if a < b then a else b
  }

  // set(range(n))
  function Range(n: nat): (r: set<nat>)
    ensures |r| == n
    ensures forall b: nat :: b in r <==> b < n
  {
    if n == 0 then {}
    else
      var last: nat := n - 1;
      assert last !in Range(last);
      Range(last) + {last}
  }
}
