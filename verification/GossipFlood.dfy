// What one message does to a network of gossip nodes, as a relation on node ids: a
// depth-first flood with a hop budget, a seen-set and arbitrary choices of peers.
module GossipFlood {
  import opened Collections

  type Id = string

  // Who each node forwards to, and to how many of them at a time.
  datatype Net = Net(links: map<Id, set<Id>>, fanout: map<Id, nat>)

  ghost predicate WellFormed(g: Net) {
    && g.fanout.Keys == g.links.Keys
    && forall v, w :: v in g.links && w in g.links[v] ==> w in g.links && w != v
  }

  // random.sample(candidates, min(fanout, len(candidates)))
  ghost predicate IsSample(order: seq<Id>, candidates: set<Id>, fanout: nat) {
    && |order| == Smaller(fanout, |candidates|)
    && (forall i :: 0 <= i < |order| ==> order[i] in candidates)
    && (forall i, j :: 0 <= i < j < |order| ==> order[i] != order[j])
  }

  // got maps the nodes that have accepted the message to the ttl it had when they did.
  ghost predicate Flood(g: Net, got: map<Id, int>, self: Id, sender: Id, ttl: int, after: map<Id, int>)
    requires WellFormed(g) && self in g.links
    decreases if ttl < 0 then 0 else ttl, 0
  {
    if self in got || ttl <= 0 then after == got
    else exists order :: IsSample(order, g.links[self] - {sender}, g.fanout[self]) &&
                         FloodAll(g, got[self := ttl], order, self, ttl - 1, after)
  }

  ghost predicate FloodAll(g: Net, got: map<Id, int>, order: seq<Id>, sender: Id, ttl: int, after: map<Id, int>)
    requires WellFormed(g) && forall i :: 0 <= i < |order| ==> order[i] in g.links
    decreases if ttl < 0 then 0 else ttl, |order|
  {
    if |order| == 0 then after == got
    else exists mid :: Flood(g, got, order[0], sender, ttl, mid) && FloodAll(g, mid, order[1..], sender, ttl, after)
  }

  lemma {:induction false} FloodAllSnoc(g: Net, got: map<Id, int>, order: seq<Id>, sender: Id, ttl: int,
                                        mid: map<Id, int>,
                                        last: Id, after: map<Id, int>)
    requires WellFormed(g) && last in g.links && forall i :: 0 <= i < |order| ==> order[i] in g.links
    requires FloodAll(g, got, order, sender, ttl, mid) && Flood(g, mid, last, sender, ttl, after)
    ensures FloodAll(g, got, order + [last], sender, ttl, after)
    decreases |order|
  {
    var longer := order + [last];
    if |order| == 0 {
      assert longer[1..] == [];
      assert FloodAll(g, after, longer[1..], sender, ttl, after);
    } else {
      var first :| Flood(g, got, order[0], sender, ttl, first) && FloodAll(g, first, order[1..], sender, ttl, mid);
      FloodAllSnoc(g, first, order[1..], sender, ttl, mid, last, after);
      assert longer[1..] == order[1..] + [last];
    }
  }

  lemma FloodChoice(g: Net, got: map<Id, int>, self: Id, sender: Id, ttl: int, after: map<Id, int>)
    returns (order: seq<Id>)
    requires WellFormed(g) && self in g.links && self !in got && ttl > 0 && Flood(g, got, self, sender, ttl, after)
    ensures IsSample(order, g.links[self] - {sender}, g.fanout[self])
    ensures forall i :: 0 <= i < |order| ==> order[i] in g.links && order[i] in g.links[self]
    ensures FloodAll(g, got[self := ttl], order, self, ttl - 1, after)
  {
    order :| IsSample(order, g.links[self] - {sender}, g.fanout[self]) &&
             FloodAll(g, got[self := ttl], order, self, ttl - 1, after);
  }

  lemma FloodAllSplit(g: Net, got: map<Id, int>, order: seq<Id>, sender: Id, ttl: int, after: map<Id, int>)
    returns (mid: map<Id, int>)
    requires WellFormed(g) && |order| > 0 && forall i :: 0 <= i < |order| ==> order[i] in g.links
    requires FloodAll(g, got, order, sender, ttl, after)
    ensures forall i :: 0 <= i < |order[1..]| ==> order[1..][i] in g.links
    ensures Flood(g, got, order[0], sender, ttl, mid) && FloodAll(g, mid, order[1..], sender, ttl, after)
  {
    mid :| Flood(g, got, order[0], sender, ttl, mid) && FloodAll(g, mid, order[1..], sender, ttl, after);
  }

  lemma FloodByOrder(g: Net, got: map<Id, int>, self: Id, sender: Id, ttl: int, order: seq<Id>, after: map<Id, int>)
    requires WellFormed(g) && self in g.links && self !in got && ttl > 0
    requires IsSample(order, g.links[self] - {sender}, g.fanout[self])
    requires forall i :: 0 <= i < |order| ==> order[i] in g.links
    requires FloodAll(g, got[self := ttl], order, self, ttl - 1, after)
    ensures Flood(g, got, self, sender, ttl, after)
  {
  }

  lemma FloodRefused(g: Net, got: map<Id, int>, self: Id, sender: Id, ttl: int)
    requires WellFormed(g) && self in g.links
    ensures self in got || ttl <= 0 ==> Flood(g, got, self, sender, ttl, got)
  {
  }

  lemma NothingForwarded(g: Net, got: map<Id, int>, sender: Id, ttl: int)
    requires WellFormed(g)
    ensures FloodAll(g, got, [], sender, ttl, got)
  {
  }

  lemma FloodStops(g: Net, got: map<Id, int>, self: Id, sender: Id, ttl: int, after: map<Id, int>)
    requires WellFormed(g) && self in g.links && Flood(g, got, self, sender, ttl, after)
    ensures self in got || ttl <= 0 ==> after == got
  {
  }

  // A walk of exactly k links.
  ghost predicate Walk(g: Net, a: Id, b: Id, k: nat)
    decreases k
  {
    if k == 0 then a == b
    else a in g.links && exists c :: c in g.links[a] && Walk(g, c, b, k - 1)
  }

  ghost predicate Reachable(g: Net, a: Id, b: Id) {
    exists k: nat :: Walk(g, a, b, k)
  }

  // ----- safety, for every fanout, ttl and choice of peers -----

  // after keeps what got has, and gives every further node a ttl between 1 and `ttl` that says how
  // many links away from `from` it is.
  ghost predicate Spread(g: Net, got: map<Id, int>, from: Id, ttl: int, after: map<Id, int>) {
    && (forall v :: v in got ==> v in after && after[v] == got[v])
    && (forall v :: v in after && v !in got ==> 1 <= after[v] <= ttl && Walk(g, from, v, ttl - after[v]))
  }

  // The same, counted from the links of `sender`.
  ghost predicate SpreadFrom(g: Net, got: map<Id, int>, sender: Id, ttl: int, after: map<Id, int>)
    requires sender in g.links
  {
    && (forall v :: v in got ==> v in after && after[v] == got[v])
    && (forall v :: v in after && v !in got ==> 1 <= after[v] <= ttl && WalkVia(g, sender, v, ttl - after[v]))
  }

  ghost predicate WalkVia(g: Net, sender: Id, v: Id, k: nat)
    requires sender in g.links
  {
    exists c :: c in g.links[sender] && Walk(g, c, v, k)
  }

  // Nobody accepts twice, and every acceptor is at most ttl - 1 links from the origin.
  lemma {:induction false} FloodSpreads(g: Net, got: map<Id, int>, self: Id, sender: Id, ttl: int, after: map<Id, int>)
    requires WellFormed(g) && self in g.links && Flood(g, got, self, sender, ttl, after)
    ensures Spread(g, got, self, ttl, after)
    ensures self !in got && ttl > 0 ==> self in after && after[self] == ttl
    decreases if ttl < 0 then 0 else ttl, 0
  {
    hide Flood, FloodAll, IsSample, SpreadFrom;
    FloodStops(g, got, self, sender, ttl, after);
    if self !in got && ttl > 0 {
      var order := FloodChoice(g, got, self, sender, ttl, after);
      FloodAllSpreads(g, got[self := ttl], order, self, ttl - 1, after);
      SpreadBySelf(g, got, self, ttl, after);
    }
  }

  lemma SpreadBySelf(g: Net, got: map<Id, int>, self: Id, ttl: int, after: map<Id, int>)
    requires self in g.links && self !in got && ttl > 0 && SpreadFrom(g, got[self := ttl], self, ttl - 1, after)
    ensures Spread(g, got, self, ttl, after) && self in after && after[self] == ttl
  {
    assert self in got[self := ttl];
  }

  lemma {:induction false} FloodAllSpreads(g: Net, got: map<Id, int>, order: seq<Id>, sender: Id, ttl: int,
                                           after: map<Id, int>)
    requires WellFormed(g) && sender in g.links
    requires forall i :: 0 <= i < |order| ==> order[i] in g.links[sender]
    requires FloodAll(g, got, order, sender, ttl, after)
    ensures SpreadFrom(g, got, sender, ttl, after)
    decreases if ttl < 0 then 0 else ttl, |order|
  {
    if |order| == 0 {
    } else {
      hide Flood, FloodAll, Spread, SpreadFrom;
      var mid := FloodAllSplit(g, got, order, sender, ttl, after);
      FloodSpreads(g, got, order[0], sender, ttl, mid);
      FloodAllSpreads(g, mid, order[1..], sender, ttl, after);
      SpreadInTurn(g, got, sender, order[0], ttl, mid, after);
    }
  }

  lemma SpreadInTurn(g: Net, got: map<Id, int>, sender: Id, first: Id, ttl: int, mid: map<Id, int>, after: map<Id, int>)
    requires sender in g.links && first in g.links[sender]
    requires Spread(g, got, first, ttl, mid) && SpreadFrom(g, mid, sender, ttl, after)
    ensures SpreadFrom(g, got, sender, ttl, after)
  {
  }

  // ----- completeness, when the fanout covers all peers and the ttl covers all nodes -----

  ghost predicate FullFanout(g: Net)
    requires WellFormed(g)
  {
    forall v :: v in g.links ==> |g.links[v]| <= g.fanout[v]
  }

  // A sample of everything contains everything.
  lemma {:induction false} FullSample(order: seq<Id>, candidates: set<Id>, fanout: nat, v: Id)
    requires IsSample(order, candidates, fanout) && |candidates| <= fanout && v in candidates
    ensures v in order
    decreases |order|
  {
    if v == order[0] {
    } else {
      FullSample(order[1..], candidates - {order[0]}, fanout, v);
    }
  }

  // The hop budget covers the nodes that have not accepted yet.
  ghost predicate Enough(g: Net, got: map<Id, int>, ttl: int) {
    ttl >= |g.links.Keys - got.Keys|
  }

  lemma EnoughKept(g: Net, got: map<Id, int>, more: map<Id, int>, ttl: int)
    requires Enough(g, got, ttl) && got.Keys <= more.Keys
    ensures Enough(g, more, ttl)
  {
    SubsetSize(g.links.Keys - more.Keys, g.links.Keys - got.Keys);
  }

  // Whoever has come to accept the message passed it to all its links.
  ghost predicate Closed(g: Net, got: map<Id, int>, after: map<Id, int>) {
    && got.Keys <= after.Keys
    && forall v :: v in after && v !in got ==> v in g.links && g.links[v] <= after.Keys
  }

  // That is so because the hop budget cannot run out before the nodes do.
  lemma {:induction false} FloodCloses(g: Net, got: map<Id, int>, self: Id, sender: Id, ttl: int, after: map<Id, int>)
    requires WellFormed(g) && FullFanout(g) && self in g.links && Flood(g, got, self, sender, ttl, after)
    requires Enough(g, got, ttl)
    requires sender in g.links[self] ==> sender in got
    ensures self in after && Closed(g, got, after)
    decreases if ttl < 0 then 0 else ttl, 0, 1
  {
    hide Enough, Flood, FloodAll, IsSample;
    FloodStops(g, got, self, sender, ttl, after);
    if self !in got {
      BudgetLeft(g, got, self, ttl);
      var order := FloodChoice(g, got, self, sender, ttl, after);
      ForwardCloses(g, got, self, sender, ttl, order, after);
    }
  }

  lemma ForwardCloses(g: Net, got: map<Id, int>, self: Id, sender: Id, ttl: int, order: seq<Id>, after: map<Id, int>)
    requires WellFormed(g) && FullFanout(g) && self in g.links && self !in got
    requires ttl > 0 && Enough(g, got[self := ttl], ttl - 1)
    requires sender in g.links[self] ==> sender in got
    requires IsSample(order, g.links[self] - {sender}, g.fanout[self])
    requires forall i :: 0 <= i < |order| ==> order[i] in g.links
    requires FloodAll(g, got[self := ttl], order, self, ttl - 1, after)
    ensures self in after && Closed(g, got, after)
    decreases if ttl < 0 then 0 else ttl, 0, 0
  {
    hide Enough;
    FloodAllCloses(g, got[self := ttl], order, self, ttl - 1, after);
    AcceptCloses(g, got, self, sender, ttl, order, after);
  }

  lemma BudgetLeft(g: Net, got: map<Id, int>, self: Id, ttl: int)
    requires self in g.links && self !in got && Enough(g, got, ttl)
    ensures ttl > 0 && Enough(g, got[self := ttl], ttl - 1)
  {
    assert self in g.links.Keys - got.Keys;
    assert g.links.Keys - got[self := ttl].Keys == (g.links.Keys - got.Keys) - {self};
  }

  lemma AcceptCloses(g: Net, got: map<Id, int>, self: Id, sender: Id, ttl: int, order: seq<Id>, after: map<Id, int>)
    requires WellFormed(g) && FullFanout(g) && self in g.links && self !in got
    requires sender in g.links[self] ==> sender in got
    requires IsSample(order, g.links[self] - {sender}, g.fanout[self])
    requires Closed(g, got[self := ttl], after) && forall i :: 0 <= i < |order| ==> order[i] in after
    ensures self in after && Closed(g, got, after)
  {
    var got' := got[self := ttl];
    assert self in got'.Keys && got.Keys <= got'.Keys;
    SubsetSize(g.links[self] - {sender}, g.links[self]);
    SampleCovers(order, g.links[self] - {sender}, g.fanout[self]);
    forall w | w in g.links[self] ensures w in after.Keys {
      if w == sender {
        assert w in got.Keys;
      } else {
        assert w in order;
      }
    }
  }

  lemma SampleCovers(order: seq<Id>, candidates: set<Id>, fanout: nat)
    requires IsSample(order, candidates, fanout) && |candidates| <= fanout
    ensures forall v :: v in candidates ==> v in order
  {
    forall v | v in candidates ensures v in order {
      FullSample(order, candidates, fanout, v);
    }
  }

  lemma {:induction false} FloodAllCloses(g: Net, got: map<Id, int>, order: seq<Id>, sender: Id, ttl: int,
                                          after: map<Id, int>)
    requires WellFormed(g) && FullFanout(g) && sender in got
    requires forall i :: 0 <= i < |order| ==> order[i] in g.links
    requires FloodAll(g, got, order, sender, ttl, after)
    requires Enough(g, got, ttl)
    ensures Closed(g, got, after) && forall i :: 0 <= i < |order| ==> order[i] in after
    decreases if ttl < 0 then 0 else ttl, |order|
  {
    if |order| == 0 {
    } else {
      hide Enough, Flood, FloodAll;
      var mid := FloodAllSplit(g, got, order, sender, ttl, after);
      FloodCloses(g, got, order[0], sender, ttl, mid);
      EnoughKept(g, got, mid, ttl);
      FloodAllCloses(g, mid, order[1..], sender, ttl, after);
      ClosedInTurn(g, got, mid, after);
      forall i | 0 <= i < |order| ensures order[i] in after {
        if i > 0 {
          assert order[i] == order[1..][i - 1];
        }
      }
    }
  }

  lemma ClosedInTurn(g: Net, got: map<Id, int>, mid: map<Id, int>, after: map<Id, int>)
    requires Closed(g, got, mid) && Closed(g, mid, after)
    ensures Closed(g, got, after)
  {
  }

  lemma {:induction false} ClosedContainsReachable(g: Net, closed: set<Id>, a: Id, b: Id, k: nat)
    requires a in closed && Walk(g, a, b, k)
    requires forall v :: v in closed ==> v in g.links && g.links[v] <= closed
    ensures b in closed
    decreases k
  {
    if k == 0 {
    } else {
      var c :| c in g.links[a] && Walk(g, c, b, k - 1);
      ClosedContainsReachable(g, closed, c, b, k - 1);
    }
  }

  // A fresh broadcast with full fanout and a ttl of at least the number of nodes is accepted by
  // exactly the nodes that can be reached along links.
  lemma BroadcastReaches(g: Net, origin: Id, ttl: int, after: map<Id, int>)
    requires WellFormed(g) && FullFanout(g) && origin in g.links && ttl >= |g.links|
    requires Flood(g, map[], origin, origin, ttl, after)
    ensures forall v :: v in after <==> Reachable(g, origin, v)
  {
    FloodSpreads(g, map[], origin, origin, ttl, after);
    var none: map<Id, int> := map[];
    assert g.links.Keys - none.Keys == g.links.Keys;
    FloodCloses(g, map[], origin, origin, ttl, after);
    forall v | Reachable(g, origin, v) ensures v in after {
      var k: nat :| Walk(g, origin, v, k);
      ClosedContainsReachable(g, after.Keys, origin, v, k);
    }
    forall v | v in after ensures Reachable(g, origin, v) {
      assert Walk(g, origin, v, ttl - after[v]);
    }
  }

  // ----- a smaller ttl is not enough -----

  // a-b, b-c, c-a and c-d are linked.
  ghost function Kite(a: Id, b: Id, c: Id, d: Id): Net {
    Net(map[a := {b, c}, b := {a, c}, c := {a, b, d}, d := {c}], map[a := 3, b := 3, c := 3, d := 3])
  }

  lemma FloodTwo(g: Net, got: map<Id, int>, x: Id, y: Id, sender: Id, ttl: int, mid: map<Id, int>, after: map<Id, int>)
    requires WellFormed(g) && x in g.links && y in g.links
    requires Flood(g, got, x, sender, ttl, mid) && Flood(g, mid, y, sender, ttl, after)
    ensures FloodAll(g, got, [x], sender, ttl, mid)
    ensures FloodAll(g, got, [x, y], sender, ttl, after)
  {
    assert [x][1..] == [] && [x, y][1..] == [y] && [y][1..] == [];
    assert FloodAll(g, mid, [x][1..], sender, ttl, mid);
    assert FloodAll(g, after, [y][1..], sender, ttl, after);
    assert FloodAll(g, mid, [y], sender, ttl, after);
  }

  // c, reached with ttl 1, forwards in vain.
  lemma KiteByC(a: Id, b: Id, c: Id, d: Id)
    requires a != b && a != c && a != d && b != c && b != d && c != d
    ensures var g := Kite(a, b, c, d);
            WellFormed(g) && Flood(g, map[a := 3, b := 2], c, b, 1, map[a := 3, b := 2, c := 1])
  {
    var g := Kite(a, b, c, d);
    assert |{a, d}| == 2;
    var got2, got3 := map[a := 3, b := 2], map[a := 3, b := 2, c := 1];
    assert got2[c := 1] == got3;
    FloodTwo(g, got3, a, d, c, 0, got3, got3);
    assert IsSample([a, d], {a, d}, 3);
    FloodByOrder(g, got2, c, b, 1, [a, d], got3);
  }

  lemma KiteByB(a: Id, b: Id, c: Id, d: Id)
    requires a != b && a != c && a != d && b != c && b != d && c != d
    ensures var g := Kite(a, b, c, d);
            WellFormed(g) && Flood(g, map[a := 3], b, a, 2, map[a := 3, b := 2, c := 1])
  {
    var g := Kite(a, b, c, d);
    assert |{c}| == 1;
    var got1, got2, got3 := map[a := 3], map[a := 3, b := 2], map[a := 3, b := 2, c := 1];
    assert got1[b := 2] == got2;
    KiteByC(a, b, c, d);
    // b forwards to c only
    FloodTwo(g, got2, c, c, b, 1, got3, got3);
    assert IsSample([c], {c}, 3);
    FloodByOrder(g, got1, b, a, 2, [c], got3);
  }

  // Two links from the origin, with ttl 3 and full fanout, and still missed: the message went to c
  // by way of b first, and arrived there with its last hop.
  lemma LongWayRoundBurnsTtl(a: Id, b: Id, c: Id, d: Id)
    requires a != b && a != c && a != d && b != c && b != d && c != d
    ensures var g, after := Kite(a, b, c, d), map[a := 3, b := 2, c := 1];
            && WellFormed(g) && FullFanout(g)
            && Flood(g, map[], a, a, 3, after)
            && Walk(g, a, d, 2) && d !in after
  {
    var g := Kite(a, b, c, d);
    assert |{a, b, d}| == 3 && |{b, c}| == |{a, c}| == 2 && |{d}| == 1;
    var none: map<Id, int> := map[];
    var got1, got3 := map[a := 3], map[a := 3, b := 2, c := 1];
    assert none[a := 3] == got1;
    KiteByB(a, b, c, d);
    // a forwards to b, then to c, which has it already
    FloodTwo(g, got1, b, c, a, 2, got3, got3);
    assert IsSample([b, c], {b, c}, 3);
    FloodByOrder(g, none, a, a, 3, [b, c], got3);
    assert Walk(g, d, d, 0);
    assert Walk(g, c, d, 1);
  }
}
