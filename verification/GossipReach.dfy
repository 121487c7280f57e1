// Exactly how large a ttl has to be for a broadcast to reach everybody it can.
module GossipReach {
  import opened Collections
  import opened GossipFlood

  // ----- every message has an outcome -----

  lemma {:induction false} SomeOrder(candidates: set<Id>, size: nat) returns (order: seq<Id>)
    requires size <= |candidates|
    ensures |order| == size && Distinct(order) && forall i :: 0 <= i < size ==> order[i] in candidates
  {
    if size == 0 {
      order := [];
    } else {
      var v :| v in candidates;
      var rest := SomeOrder(candidates - {v}, size - 1);
      order := [v] + rest;
    }
  }

  lemma {:induction false} FloodHappens(g: Net, got: map<Id, int>, self: Id, sender: Id, ttl: int)
    returns (after: map<Id, int>)
    requires WellFormed(g) && self in g.links
    ensures Flood(g, got, self, sender, ttl, after)
    decreases if ttl < 0 then 0 else ttl, 0
  {
    if self in got || ttl <= 0 {
      after := got;
    } else {
      var candidates := g.links[self] - {sender};
      var order := SomeOrder(candidates, Smaller(g.fanout[self], |candidates|));
      after := FloodAllHappens(g, got[self := ttl], order, self, ttl - 1);
      FloodByOrder(g, got, self, sender, ttl, order, after);
    }
  }

  lemma {:induction false} FloodAllHappens(g: Net, got: map<Id, int>, order: seq<Id>, sender: Id, ttl: int)
    returns (after: map<Id, int>)
    requires WellFormed(g) && forall i :: 0 <= i < |order| ==> order[i] in g.links
    ensures FloodAll(g, got, order, sender, ttl, after)
    decreases if ttl < 0 then 0 else ttl, |order| + 1
  {
    if |order| == 0 {
      after := got;
    } else {
      var mid := FloodHappens(g, got, order[0], sender, ttl);
      after := FloodAllHappens(g, mid, order[1..], sender, ttl);
    }
  }

  // ----- a line of nodes, each linked to its neighbours -----

  function Name(i: nat): (v: Id)
    ensures |v| == i
  {
    seq(i, _ => 'x')
  }

  ghost function Names(n: nat): (names: set<Id>)
    ensures forall v :: v in names <==> |v| < n && v == Name(|v|)
  {
    set i: nat | i < n :: Name(i)
  }

  ghost function Neighbours(n: nat, i: nat): (names: set<Id>)
    ensures forall v :: v in names <==> v in Names(n) && (|v| == i + 1 || i == |v| + 1)
  {
    set v | v in Names(n) && (|v| == i + 1 || i == |v| + 1)
  }

  ghost function Line(n: nat): Net {
    Net(map v | v in Names(n) :: Neighbours(n, |v|), map v | v in Names(n) :: |Neighbours(n, |v|)|)
  }

  lemma {:induction false} NamesSize(n: nat)
    ensures |Names(n)| == n
  {
    if n == 0 {
      assert Names(0) == {};
    } else {
      NamesSize(n - 1);
      assert Names(n) == Names(n - 1) + {Name(n - 1)};
    }
  }

  lemma LineFacts(n: nat)
    ensures WellFormed(Line(n)) && FullFanout(Line(n)) && |Line(n).links| == n
  {
    NamesSize(n);
    assert Line(n).links.Keys == Names(n);
  }

  // A walk of k links gets no further than k nodes along.
  lemma {:induction false} WalkAlongLine(n: nat, a: Id, b: Id, k: nat)
    requires Walk(Line(n), a, b, k)
    ensures |b| <= |a| + k
    decreases k
  {
    if k == 0 {
    } else {
      var c :| c in Line(n).links[a] && Walk(Line(n), c, b, k - 1);
      WalkAlongLine(n, c, b, k - 1);
    }
  }

  lemma {:induction false} LineConnected(n: nat, i: nat)
    requires i < n
    ensures Walk(Line(n), Name(i), Name(n - 1), n - 1 - i)
    decreases n - i
  {
    if i == n - 1 {
    } else {
      LineConnected(n, i + 1);
      assert Name(i + 1) in Line(n).links[Name(i)];
    }
  }

  // With a ttl below the number of nodes, no flood from one end of the line reaches the other.
  lemma FarEndMissed(n: nat, ttl: int, after: map<Id, int>)
    requires 0 < n && ttl < n && WellFormed(Line(n)) && Name(0) in Line(n).links
    requires Flood(Line(n), map[], Name(0), Name(0), ttl, after)
    ensures Reachable(Line(n), Name(0), Name(n - 1)) && Name(n - 1) !in after
  {
    LineConnected(n, 0);
    FloodSpreads(Line(n), map[], Name(0), Name(0), ttl, after);
    if Name(n - 1) in after {
      WalkAlongLine(n, Name(0), Name(n - 1), ttl - after[Name(n - 1)]);
    }
  }

  // ----- the bound -----

  ghost predicate ReachesAll(g: Net, origin: Id, ttl: int)
    requires WellFormed(g) && origin in g.links
  {
    forall after, v :: Flood(g, map[], origin, origin, ttl, after) && Reachable(g, origin, v) ==> v in after
  }

  // Every broadcast of this ttl in every full-fanout network of n nodes reaches all it can.
  ghost predicate EnoughFor(n: nat, ttl: int) {
    forall g, origin :: WellFormed(g) && FullFanout(g) && |g.links| == n && origin in g.links ==>
      ReachesAll(g, origin, ttl)
  }

  // Exactly the ttls of at least the number of nodes are enough.
  lemma EnoughTtlIff(n: nat, ttl: int)
    requires n > 0
    ensures EnoughFor(n, ttl) <==> ttl >= n
  {
    if ttl >= n {
      forall g, origin | WellFormed(g) && FullFanout(g) && |g.links| == n && origin in g.links
        ensures ReachesAll(g, origin, ttl)
      {
        forall after, v | Flood(g, map[], origin, origin, ttl, after) && Reachable(g, origin, v) ensures v in after {
          BroadcastReaches(g, origin, ttl, after);
        }
      }
    } else {
      var g := Line(n);
      LineFacts(n);
      assert Name(0) in g.links;
      var after := FloodHappens(g, map[], Name(0), Name(0), ttl);
      FarEndMissed(n, ttl, after);
      assert !ReachesAll(g, Name(0), ttl);
    }
  }
}
