// How many peers a node passes a message to: as many as its fanout says, or all there are apart from
// the one it came from.
module GossipFanout {
  import opened Collections
  import opened GossipFlood

  function Members(order: seq<Id>): set<Id> {
    set i | 0 <= i < |order| :: order[i]
  }

  lemma {:induction false} MembersSize(order: seq<Id>)
    requires forall i, j :: 0 <= i < j < |order| ==> order[i] != order[j]
    ensures |Members(order)| == |order|
  {
    if |order| == 0 {
    } else {
      var rest := order[1..];
      MembersSize(rest);
      MembersSplit(order);
      assert forall i :: 0 <= i < |rest| ==> rest[i] == order[i + 1];
      assert order[0] !in Members(rest);
    }
  }

  // Whom a message with hops left is passed to has accepted it.
  lemma {:induction false} PassedOn(g: Net, got: map<Id, int>, order: seq<Id>, sender: Id, ttl: int,
                                    after: map<Id, int>)
    requires WellFormed(g) && sender in g.links && ttl > 0
    requires forall i :: 0 <= i < |order| ==> order[i] in g.links && order[i] in g.links[sender]
    requires FloodAll(g, got, order, sender, ttl, after)
    ensures forall v :: v in got ==> v in after
    ensures Members(order) <= after.Keys
    decreases |order|
  {
    if |order| == 0 {
    } else {
      hide Flood, FloodAll, Spread, SpreadFrom, Members;
      FloodAllSpreads(g, got, order, sender, ttl, after);
      KeptBySpread(g, got, sender, ttl, after);
      var mid := FloodAllSplit(g, got, order, sender, ttl, after);
      FloodSpreads(g, got, order[0], sender, ttl, mid);
      TakenBySpread(g, got, order[0], ttl, mid);
      PassedOn(g, mid, order[1..], sender, ttl, after);
      MembersSplit(order);
    }
  }

  lemma MembersSplit(order: seq<Id>)
    requires |order| > 0
    ensures Members(order) == {order[0]} + Members(order[1..])
  {
    forall v ensures v in Members(order) <==> v == order[0] || v in Members(order[1..]) {
      if v in Members(order) {
        var i :| 0 <= i < |order| && order[i] == v;
        assert i > 0 ==> order[1..][i - 1] == v;
      }
    }
  }

  lemma KeptBySpread(g: Net, got: map<Id, int>, sender: Id, ttl: int, after: map<Id, int>)
    requires sender in g.links && SpreadFrom(g, got, sender, ttl, after)
    ensures forall v :: v in got ==> v in after
  {
  }

  lemma TakenBySpread(g: Net, got: map<Id, int>, self: Id, ttl: int, after: map<Id, int>)
    requires Spread(g, got, self, ttl, after) && (self !in got && ttl > 0 ==> self in after)
    ensures ttl > 0 ==> self in after
  {
  }

  // With one hop left, a list of nodes accepts and passes on nothing.
  lemma {:induction false} LastHop(g: Net, got: map<Id, int>, order: seq<Id>, sender: Id, after: map<Id, int>)
    requires WellFormed(g) && forall i :: 0 <= i < |order| ==> order[i] in g.links
    requires FloodAll(g, got, order, sender, 1, after)
    ensures after.Keys == got.Keys + Members(order)
    decreases |order|
  {
    if |order| == 0 {
    } else {
      var mid := FloodAllSplit(g, got, order, sender, 1, after);
      LastAccepts(g, got, order[0], sender, mid);
      hide FloodAll, Flood, Members;
      LastHop(g, mid, order[1..], sender, after);
      MembersSplit(order);
    }
  }

  lemma LastAccepts(g: Net, got: map<Id, int>, self: Id, sender: Id, after: map<Id, int>)
    requires WellFormed(g) && self in g.links && Flood(g, got, self, sender, 1, after)
    ensures after.Keys == got.Keys + {self}
  {
    hide Flood, FloodAll, IsSample;
    FloodStops(g, got, self, sender, 1, after);
    if self !in got {
      var order := FloodChoice(g, got, self, sender, 1, after);
      NobodyAccepts(g, got[self := 1], order, self, after);
    }
  }

  lemma {:induction false} NobodyAccepts(g: Net, got: map<Id, int>, order: seq<Id>, sender: Id, after: map<Id, int>)
    requires WellFormed(g) && forall i :: 0 <= i < |order| ==> order[i] in g.links
    requires FloodAll(g, got, order, sender, 0, after)
    ensures after == got
    decreases |order|
  {
    if |order| == 0 {
    } else {
      var mid := FloodAllSplit(g, got, order, sender, 0, after);
      FloodStops(g, got, order[0], sender, 0, mid);
      NobodyAccepts(g, mid, order[1..], sender, after);
    }
  }

  // A node that accepts with hops left passes the message to as many of its other peers as its fanout
  // says, or to all of them: when it is done, these have it, and with two hops nobody else has got it.
  lemma PassesOn(g: Net, got: map<Id, int>, self: Id, sender: Id, ttl: int, after: map<Id, int>)
    returns (to: set<Id>)
    requires WellFormed(g) && self in g.links && self !in got && ttl > 1
    requires Flood(g, got, self, sender, ttl, after)
    ensures to <= g.links[self] - {sender} && to <= after.Keys
    ensures var others := |g.links[self] - {sender}|; |to| == if g.fanout[self] < others then g.fanout[self] else others
    ensures ttl == 2 ==> after.Keys == got.Keys + {self} + to
  {
    hide Flood, FloodAll;
    var order := FloodChoice(g, got, self, sender, ttl, after);
    MembersSize(order);
    PassedOn(g, got[self := ttl], order, self, ttl - 1, after);
    to := Members(order);
    if ttl == 2 {
      LastHop(g, got[self := 2], order, self, after);
    }
  }

  // How many of a node's other peers have accepted.
  lemma AtLeastFanout(g: Net, got: map<Id, int>, self: Id, sender: Id, ttl: int, after: map<Id, int>)
    requires WellFormed(g) && self in g.links && self !in got && ttl > 1
    requires Flood(g, got, self, sender, ttl, after)
    ensures var others := g.links[self] - {sender};
            |others * after.Keys| >= if g.fanout[self] < |others| then g.fanout[self] else |others|
  {
    hide Flood;
    var to := PassesOn(g, got, self, sender, ttl, after);
    SubsetSize(to, (g.links[self] - {sender}) * after.Keys);
  }

  // With two hops, from the start: the node itself and as many peers.
  lemma TwoHopsCount(g: Net, self: Id, sender: Id, after: map<Id, int>)
    requires WellFormed(g) && self in g.links && Flood(g, map[], self, sender, 2, after)
    ensures var others := |g.links[self] - {sender}|;
            |after| == 1 + if g.fanout[self] < others then g.fanout[self] else others
  {
    hide Flood;
    var to := PassesOn(g, map[], self, sender, 2, after);
    assert self !in to && after.Keys == {self} + to;
    assert |after.Keys| == 1 + |to|;
  }
}
