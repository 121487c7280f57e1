// The sibling list of a node: the k ids nearest to its own by XOR of the leading 64 bits, kept up
// to date one id at a time without remembering the ids it dropped.
module SiblingList {
  import opened Collections
  import opened Outcomes

  type Id = string

  // The first 16 hexadecimal digits of an id, as a number.
  type Prefix = Id -> nat

  datatype Params = Params(self: Id, prefix: Prefix, k: nat)

  // Python's ^ on integers that are not negative
  function Xor(a: nat, b: nat): nat {
    if a == 0 && b == 0 then 0 else 2 * Xor(a / 2, b / 2) + (if a % 2 == b % 2 then 0 else 1)
  }

  lemma {:induction false} XorInjective(a: nat, b: nat, c: nat)
    requires Xor(a, b) == Xor(a, c)
    ensures b == c
    decreases a + b + c
  {
    if a == 0 && b == 0 && c == 0 {
    } else {
      assert Xor(a, b) == 2 * Xor(a / 2, b / 2) + (if a % 2 == b % 2 then 0 else 1);
      assert Xor(a, c) == 2 * Xor(a / 2, c / 2) + (if a % 2 == c % 2 then 0 else 1);
      XorInjective(a / 2, b / 2, c / 2);
    }
  }

  function Pow2(k: nat): (n: nat)
    ensures n >= 1
  {
    if k == 0 then 1 else 2 * Pow2(k - 1)
  }

  // Bit k is set exactly if it is in one of the two numbers.
  lemma {:induction false} XorBit(a: nat, b: nat, k: nat)
    ensures Xor(a, b) / Pow2(k) % 2 == 1 <==> a / Pow2(k) % 2 != b / Pow2(k) % 2
    decreases k
  {
    var x := Xor(a, b);
    assert x / 2 == Xor(a / 2, b / 2) && (x % 2 == 1 <==> a % 2 != b % 2);
    if k == 0 {
    } else {
      XorBit(a / 2, b / 2, k - 1);
      HalveTwice(x, Pow2(k - 1));
      HalveTwice(a, Pow2(k - 1));
      HalveTwice(b, Pow2(k - 1));
    }
  }

  lemma HalveTwice(n: nat, d: nat)
    requires d >= 1
    ensures n / 2 / d == n / (2 * d)
  {
    var q, r := n / 2 / d, n / 2 % d;
    assert n / 2 == d * q + r;
    assert n == (2 * d) * q + (2 * r + n % 2) by {
      assert 2 * (d * q) == (2 * d) * q;
    }
    DivMod(n, 2 * d, q, 2 * r + n % 2);
  }

  function Distance(p: Params, id: Id): nat {
    Xor(p.prefix(p.self), p.prefix(id))
  }

  // list.sort(key=xor_dist): stable insertion.
  function Insert(p: Params, id: Id, ids: seq<Id>): (r: seq<Id>)
    ensures |r| == |ids| + 1
  {
    if |ids| == 0 then [id]
    else if Distance(p, id) <= Distance(p, ids[0]) then [id] + ids
    else [ids[0]] + Insert(p, id, ids[1..])
  }

  function Sort(p: Params, ids: seq<Id>): (r: seq<Id>)
    ensures |r| == |ids|
  {
    if |ids| == 0 then [] else Insert(p, ids[0], Sort(p, ids[1..]))
  }

  function Add(p: Params, list: seq<Id>, id: Id): seq<Id> {
    var longer := if id in list then list else list + [id];
    var sorted := Sort(p, longer);
    if |sorted| <= p.k then sorted else sorted[..p.k]
  }

  function AddAll(p: Params, ids: seq<Id>): seq<Id> {
    if |ids| == 0 then [] else Add(p, AddAll(p, ids[..|ids| - 1]), ids[|ids| - 1])
  }

  // ----- sorting -----

  predicate Sorted(p: Params, ids: seq<Id>) {
    forall i, j :: 0 <= i < j < |ids| ==> Distance(p, ids[i]) <= Distance(p, ids[j])
  }

  lemma {:induction false} InsertMembers(p: Params, id: Id, ids: seq<Id>)
    ensures forall x :: x in Insert(p, id, ids) <==> x == id || x in ids
    ensures id !in ids && Distinct(ids) ==> Distinct(Insert(p, id, ids))
  {
    hide Distance;
    if |ids| == 0 {
    } else {
      assert ids == [ids[0]] + ids[1..];
      InsertMembers(p, id, ids[1..]);
      if id !in ids && Distinct(ids) {
        assert ids[0] !in ids[1..];
        PrependDistinct(id, ids);
        PrependDistinct(ids[0], Insert(p, id, ids[1..]));
      }
    }
  }

  lemma PrependDistinct(id: Id, ids: seq<Id>)
    ensures id !in ids && Distinct(ids) ==> Distinct([id] + ids)
  {
    var longer := [id] + ids;
    if id !in ids && Distinct(ids) {
      forall i, j | 0 <= i < j < |longer| ensures longer[i] != longer[j] {
        assert longer[j] == ids[j - 1];
      }
    }
  }

  lemma {:induction false} InsertSorted(p: Params, id: Id, ids: seq<Id>)
    requires Sorted(p, ids)
    ensures Sorted(p, Insert(p, id, ids))
  {
    hide Distance;
    if |ids| > 0 && Distance(p, id) > Distance(p, ids[0]) {
      InsertSorted(p, id, ids[1..]);
      InsertMembers(p, id, ids[1..]);
      var rest := Insert(p, id, ids[1..]);
      forall i | 0 <= i < |rest| ensures Distance(p, ids[0]) <= Distance(p, rest[i]) {
        assert rest[i] in rest;
      }
      PrependSorted(p, ids[0], rest);
    } else {
      PrependSorted(p, id, ids);
    }
  }

  lemma PrependSorted(p: Params, id: Id, ids: seq<Id>)
    requires Sorted(p, ids) && forall i :: 0 <= i < |ids| ==> Distance(p, id) <= Distance(p, ids[i])
    ensures Sorted(p, [id] + ids)
  {
    hide Distance;
    var longer := [id] + ids;
    forall i, j | 0 <= i < j < |longer| ensures Distance(p, longer[i]) <= Distance(p, longer[j]) {
      assert longer[j] == ids[j - 1];
    }
  }

  lemma {:induction false} SortFacts(p: Params, ids: seq<Id>)
    ensures Sorted(p, Sort(p, ids))
    ensures forall x :: x in Sort(p, ids) <==> x in ids
    ensures Distinct(ids) ==> Distinct(Sort(p, ids))
  {
    hide Distance, Sorted, Insert;
    if |ids| == 0 {
      NothingSorted(p);
    } else {
      SortFacts(p, ids[1..]);
      InsertSorted(p, ids[0], Sort(p, ids[1..]));
      InsertMembers(p, ids[0], Sort(p, ids[1..]));
      assert ids == [ids[0]] + ids[1..];
      if Distinct(ids) {
        assert Distinct(ids[1..]) && ids[0] !in ids[1..];
      }
    }
  }

  lemma NothingSorted(p: Params)
    ensures Sorted(p, [])
  {
  }

  // ----- the invariant -----

  // list holds, in order of distance, k of the ids seen, or all if there are fewer, and none that it
  // leaves out is nearer than one it holds.
  ghost predicate Nearest(p: Params, list: seq<Id>, seen: set<Id>) {
    && Sorted(p, list) && Distinct(list)
    && (forall x :: x in list ==> x in seen)
    && |list| <= p.k
    && forall x :: x in seen && x !in list ==>
         |list| == p.k && forall y :: y in list ==> Distance(p, y) <= Distance(p, x)
  }

  lemma AddKeepsNearest(p: Params, list: seq<Id>, seen: set<Id>, id: Id)
    requires Nearest(p, list, seen)
    ensures Nearest(p, Add(p, list, id), seen + {id})
  {
    hide Distance;
    var longer := if id in list then list else list + [id];
    var sorted := Sort(p, longer);
    var after := Add(p, list, id);
    SortFacts(p, longer);
    if |longer| <= p.k {
      assert after == sorted;
      forall x | x in seen + {id} && x !in after
        ensures |after| == p.k && forall y :: y in after ==> Distance(p, y) <= Distance(p, x)
      {
        assert x !in list && x != id && |longer| == |list|;
      }
    } else {
      FarthestDropped(p, list, seen, id);
    }
  }

  // A full list and one id more: the farthest of them goes.
  lemma FarthestDropped(p: Params, list: seq<Id>, seen: set<Id>, id: Id)
    requires Nearest(p, list, seen) && id !in list && |list| == p.k
    ensures Nearest(p, Sort(p, list + [id])[..p.k], seen + {id})
  {
    hide Distance;
    var longer := list + [id];
    var sorted := Sort(p, longer);
    SortFacts(p, longer);
    var after, out := sorted[..p.k], sorted[p.k];
    assert sorted == after + [out];
    hide Sorted, Nearest;
    forall x, y | x in seen + {id} && x !in after && y in after ensures Distance(p, y) <= Distance(p, x) {
      assert y in sorted && out in sorted && x in longer ==> x == out;
      LastIsFarthest(p, sorted, y);
      if x != out {
        LeftOutIsFarther(p, list, seen, id, y, out, x);
      }
    }
    KeptAreNearest(p, list, seen, id, after, out);
  }

  lemma LastIsFarthest(p: Params, sorted: seq<Id>, y: Id)
    requires Sorted(p, sorted) && Distinct(sorted) && y in sorted
    ensures Distance(p, y) <= Distance(p, sorted[|sorted| - 1])
    ensures y in sorted[..|sorted| - 1] ==> y != sorted[|sorted| - 1]
  {
  }

  lemma KeptAreNearest(p: Params, list: seq<Id>, seen: set<Id>, id: Id, after: seq<Id>, out: Id)
    requires Nearest(p, list, seen) && |after| == p.k
    requires Sorted(p, after + [out]) && Distinct(after + [out]) && forall x :: x in after + [out] <==> x in list + [id]
    requires forall x, y :: x in seen + {id} && x !in after && y in after ==> Distance(p, y) <= Distance(p, x)
    ensures Nearest(p, after, seen + {id})
  {
    hide Distance;
    var longer := after + [out];
    forall i, j | 0 <= i < j < |after| ensures Distance(p, after[i]) <= Distance(p, after[j]) && after[i] != after[j] {
      assert longer[i] == after[i] && longer[j] == after[j];
    }
    forall x | x in after ensures x in seen + {id} {
      assert x in longer;
    }
  }

  // An id dropped earlier is no nearer than any that is kept now.
  lemma LeftOutIsFarther(p: Params, list: seq<Id>, seen: set<Id>, id: Id, y: Id, out: Id, x: Id)
    requires Nearest(p, list, seen) && x in seen && x !in list
    requires y in list + [id] && out in list + [id] && y != out && Distance(p, y) <= Distance(p, out)
    ensures Distance(p, y) <= Distance(p, x)
  {
    hide Distance;
    assert y in list || out in list;
    assert forall z :: z in list ==> Distance(p, z) <= Distance(p, x);
  }

  // After any insertions, repeats and re-adds included, the list is the k nearest of all ids seen.
  lemma {:induction false} AddAllNearest(p: Params, ids: seq<Id>)
    ensures Nearest(p, AddAll(p, ids), SetOf(ids))
  {
    hide Distance, Add;
    if |ids| == 0 {
    } else {
      var before, id := ids[..|ids| - 1], ids[|ids| - 1];
      AddAllNearest(p, before);
      AddKeepsNearest(p, AddAll(p, before), SetOf(before), id);
      SetOfMore(before, id);
      assert ids == before + [id];
      hide Nearest, SetOf;
    }
  }

  // ----- there is only one such list -----

  ghost predicate DistinctPrefixes(p: Params, ids: set<Id>) {
    forall x, y :: x in ids && y in ids && p.prefix(x) == p.prefix(y) ==> x == y
  }

  lemma DistinctDistances(p: Params, ids: set<Id>, x: Id, y: Id)
    requires DistinctPrefixes(p, ids) && x in ids && y in ids && x != y
    ensures Distance(p, x) != Distance(p, y)
  {
    if Distance(p, x) == Distance(p, y) {
      XorInjective(p.prefix(p.self), p.prefix(x), p.prefix(y));
    }
  }

  lemma NearestSame(p: Params, a: seq<Id>, b: seq<Id>, seen: set<Id>, x: Id)
    requires Nearest(p, a, seen) && Nearest(p, b, seen) && DistinctPrefixes(p, seen) && x in a
    ensures x in b
  {
    hide Distance;
    SizeOfSet(a);
    SizeOfSet(b);
    forall y | y in b && y !in a ensures x in b {
      DistinctDistances(p, seen, x, y);
    }
    if x !in b && SetOf(b) <= SetOf(a) {
      SubsetSize(SetOf(b), SetOf(a) - {x});
    }
  }

  lemma {:induction false} SortedSame(p: Params, a: seq<Id>, b: seq<Id>, ids: set<Id>)
    requires Sorted(p, a) && Sorted(p, b) && Distinct(a) && Distinct(b) && DistinctPrefixes(p, ids)
    requires SetOf(a) == SetOf(b) <= ids
    ensures a == b
  {
    hide Distance;
    SizeOfSet(a);
    SizeOfSet(b);
    if |a| == 0 {
    } else {
      SameFirst(p, a, b, ids);
      TailSet(a);
      TailSet(b);
      SortedSame(p, a[1..], b[1..], ids);
      assert a == [a[0]] + a[1..] && b == [b[0]] + b[1..];
    }
  }

  lemma SameFirst(p: Params, a: seq<Id>, b: seq<Id>, ids: set<Id>)
    requires Sorted(p, a) && Sorted(p, b) && DistinctPrefixes(p, ids) && |a| > 0 && |b| > 0
    requires SetOf(a) == SetOf(b) <= ids
    ensures a[0] == b[0]
  {
    hide Distance;
    assert a[0] in SetOf(a) && b[0] in SetOf(b);
    assert a[0] in b && b[0] in a;
    assert Distance(p, a[0]) == Distance(p, b[0]);
    if a[0] != b[0] {
      DistinctDistances(p, ids, a[0], b[0]);
    }
  }

  lemma TailSet(a: seq<Id>)
    requires |a| > 0 && Distinct(a)
    ensures SetOf(a[1..]) == SetOf(a) - {a[0]}
  {
    assert a == [a[0]] + a[1..];
  }

  // With distinct prefixes the list depends only on which ids have been inserted.
  lemma OrderIrrelevant(p: Params, ids: seq<Id>, other: seq<Id>)
    requires SetOf(ids) == SetOf(other) && DistinctPrefixes(p, SetOf(ids))
    ensures AddAll(p, ids) == AddAll(p, other)
  {
    hide Distance;
    var a, b, seen := AddAll(p, ids), AddAll(p, other), SetOf(ids);
    AddAllNearest(p, ids);
    AddAllNearest(p, other);
    forall x ensures x in a <==> x in b {
      if x in a {
        NearestSame(p, a, b, seen, x);
      }
      if x in b {
        NearestSame(p, b, a, seen, x);
      }
    }
    assert SetOf(a) == SetOf(b);
    SortedSame(p, a, b, seen);
  }

  class SybilResistantDht {
    const params: Params
    var siblings: seq<Id>

    constructor (params: Params)
      ensures this.params == params && siblings == []
    {
      this.params, siblings := params, [];
    }

    // add_to_sibling_list
    method AddToSiblingList(candidate: Id, ghost seen: set<Id>)
      modifies this
      ensures siblings == Add(params, old(siblings), candidate)
      ensures Nearest(params, old(siblings), seen) ==> Nearest(params, siblings, seen + {candidate})
    {
      if Nearest(params, siblings, seen) {
        AddKeepsNearest(params, siblings, seen, candidate);
      }
      if candidate !in siblings {
        siblings := siblings + [candidate];
      }
      siblings := Sort(params, siblings);
      siblings := if |siblings| <= params.k then siblings else siblings[..params.k];
    }
  }
}
