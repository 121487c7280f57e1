// Gossip nodes: objects that keep a seen-set and an inbox and re-enter each other
// when they forward. One broadcast is proved to be a flood in the sense of GossipFlood.
module Gossip {
  import opened Collections
  import opened GossipFlood
  import opened GossipFanout

  datatype Message = Message(msgId: string, senderId: Id, msgType: string, payload: string, timestamp: real, ttl: int)

  predicate SameContent(a: Message, b: Message) {
    a.msgId == b.msgId && a.msgType == b.msgType && a.payload == b.payload && a.timestamp == b.timestamp
  }

  // Readings of time.time(): any nondecreasing values.
  class Clock {
    var now: real

    constructor ()
    {
    }

    method Read() returns (t: real)
      modifies this
      ensures old(now) <= t == now
    {
      var elapsed: real :| elapsed >= 0.0;
      now := now + elapsed;
      t := now;
    }
  }

  // random.sample over the ids of the candidate peers.
  method Sample(candidates: set<Id>, fanout: nat) returns (order: seq<Id>)
    ensures IsSample(order, candidates, fanout)
    ensures |order| == if fanout < |candidates| then fanout else |candidates|
    ensures forall i :: 0 <= i < |order| ==> order[i] in candidates
    ensures forall i, j :: 0 <= i < j < |order| ==> order[i] != order[j]
  {
    order := [];
    var left := candidates;
    while |order| < fanout && left != {}
      invariant |order| + |left| == |candidates| && |order| <= Smaller(fanout, |candidates|)
      invariant forall v :: v in left <==> v in candidates && v !in order
      invariant forall i :: 0 <= i < |order| ==> order[i] in candidates
      invariant forall i, j :: 0 <= i < j < |order| ==> order[i] != order[j]
      decreases left
    {
      var v :| v in left;
      order := order + [v];
      left := left - {v};
    }
  }

  // The nodes are the nodes of g, each known to the others by its own id.
  ghost predicate Network(nodes: set<GossipNode>, g: Net)
    reads nodes`peers
  {
    && WellFormed(g)
    && (forall n, m :: n in nodes && m in nodes && n.nodeId == m.nodeId ==> n == m)
    && (forall v :: v in g.links ==> exists n :: n in nodes && n.nodeId == v)
    && (forall n :: n in nodes ==>
          && n.nodeId in g.links
          && g.links[n.nodeId] == n.peers.Keys && g.fanout[n.nodeId] == n.fanout
          && forall v :: v in n.peers ==> n.peers[v] in nodes && n.peers[v].nodeId == v)
  }

  // got lists exactly the nodes that have seen the message.
  ghost predicate Seen(nodes: set<GossipNode>, msgId: string, got: map<Id, int>)
    reads nodes`seen
  {
    forall n :: n in nodes ==> (msgId in n.seen <==> n.nodeId in got)
  }

  ghost predicate Stamped(nodes: set<GossipNode>, msgId: string, start: real)
    reads nodes`seen
  {
    forall n :: n in nodes && msgId in n.seen ==> n.seen[msgId] >= start
  }

  // No stamp lies in the future.
  ghost predicate Past(nodes: set<GossipNode>, msgId: string, now: real)
    reads nodes`seen
  {
    forall n :: n in nodes && msgId in n.seen ==> n.seen[msgId] <= now
  }

  // Nothing is taken out of an inbox.
  ghost predicate Grows(before: seq<Message>, now: seq<Message>) {
    |before| <= |now| && now[..|before|] == before
  }

  lemma GrowsItself(a: seq<Message>)
    ensures Grows(a, a)
  {
  }

  lemma GrowsInTurn(a: seq<Message>, b: seq<Message>, c: seq<Message>)
    requires Grows(a, b) && Grows(b, c)
    ensures Grows(a, c)
  {
    assert c[..|a|] == c[..|b|][..|a|];
  }

  // Nothing stamped since `start` has expired at `end`.
  ghost predicate InWindow(nodes: set<GossipNode>, start: real, end: real) {
    forall n :: n in nodes ==> end - start <= n.seenTtlSeconds
  }

  lemma EarlierInWindow(nodes: set<GossipNode>, start: real, earlier: real, end: real)
    requires earlier <= end
    ensures InWindow(nodes, start, end) ==> InWindow(nodes, start, earlier)
  {
  }

  // Nodes that came to accept have one more copy in their inbox, with the ttl it arrived with;
  // the others have none.
  ghost predicate Delivered(before: seq<Message>, now: seq<Message>, msg: Message, got: map<Id, int>,
                            after: map<Id, int>, v: Id) {
    if v in after && v !in got then
      && |now| == |before| + 1 && now[..|before|] == before
      && SameContent(now[|before|], msg) && now[|before|].ttl == after[v]
    else now == before
  }

  // Of the other peers, as many as the fanout says, or all of them, have accepted or had done so before;
  // when the message had two hops left, nobody else has.
  ghost predicate PassedTo(others: set<Id>, fanout: nat, to: set<Id>, got: map<Id, int>, after: map<Id, int>,
                           self: Id, ttl: int) {
    && to <= others && |to| == (if fanout < |others| then fanout else |others|)
    && to <= after.Keys && (ttl == 2 ==> after.Keys == got.Keys + {self} + to)
  }

  lemma PassedToPeers(g: Net, got: map<Id, int>, self: Id, sender: Id, ttl: int, after: map<Id, int>)
    returns (to: set<Id>)
    requires WellFormed(g) && self in g.links && self !in got && ttl > 1
    requires Flood(g, got, self, sender, ttl, after)
    ensures PassedTo(g.links[self] - {sender}, g.fanout[self], to, got, after, self, ttl)
  {
    hide Flood;
    to := PassesOn(g, got, self, sender, ttl, after);
  }

  lemma NothingDelivered(box: seq<Message>, msg: Message, got: map<Id, int>, v: Id)
    ensures Delivered(box, box, msg, got, got, v)
  {
  }

  lemma SameContentForwarded(msg: Message, forwarded: Message)
    requires forwarded == msg.(senderId := forwarded.senderId, ttl := forwarded.ttl)
    ensures SameContent(forwarded, msg)
  {
  }

  lemma DeliveredInTurn(a: seq<Message>, b: seq<Message>, c: seq<Message>, msg: Message, sent: Message,
                        got: map<Id, int>, mid: map<Id, int>, after: map<Id, int>, v: Id)
    requires SameContent(sent, msg)
    requires forall w :: w in got ==> w in mid && mid[w] == got[w]
    requires forall w :: w in mid ==> w in after && after[w] == mid[w]
    requires Delivered(a, b, msg, got, mid, v) && Delivered(b, c, sent, mid, after, v)
    ensures Delivered(a, c, msg, got, after, v)
  {
  }

  class GossipNode {
    const nodeId: Id
    const fanout: nat
    const seenTtlSeconds: real
    var peers: map<Id, GossipNode>
    var seen: map<string, real>
    var inbox: seq<Message>

    constructor (nodeId: Id, fanout: nat := 3, seenTtlSeconds: real := 300.0)
      ensures this.nodeId == nodeId && this.fanout == fanout && this.seenTtlSeconds == seenTtlSeconds
      ensures peers == map[] && seen == map[] && inbox == []
    {
      this.nodeId, this.fanout, this.seenTtlSeconds := nodeId, fanout, seenTtlSeconds;
      peers, seen, inbox := map[], map[], [];
    }

    method AddPeer(peer: GossipNode)
      modifies this`peers
      ensures peers == if peer.nodeId != nodeId then old(peers)[peer.nodeId := peer] else old(peers)
    {
      if peer.nodeId != nodeId {
        peers := peers[peer.nodeId := peer];
      }
    }

    method PruneSeen(clock: Clock)
      modifies this`seen, clock
      ensures old(clock.now) <= clock.now
      ensures forall m :: m in seen <==> m in old(seen) && old(seen)[m] >= clock.now - seenTtlSeconds
      ensures forall m :: m in seen ==> seen[m] == old(seen)[m]
    {
      var now := clock.Read();
      var cutoff := now - seenTtlSeconds;
      var expired := set m | m in seen && seen[m] < cutoff;
      while expired != {}
        invariant clock.now == now
        invariant forall m :: m in seen ==> m in old(seen) && seen[m] == old(seen)[m]
        invariant forall m :: m in seen && seen[m] < cutoff ==> m in expired
        invariant forall m :: m in expired ==> m in seen && seen[m] < cutoff
        invariant forall m :: m in old(seen) && old(seen)[m] >= cutoff ==> m in seen
        decreases expired
      {
        var m :| m in expired;
        seen := seen - {m};
        expired := expired - {m};
      }
    }

    lemma SeenInGot(nodes: set<GossipNode>, msgId: string, got: map<Id, int>)
      requires this in nodes
      ensures Seen(nodes, msgId, got) ==> (msgId in seen <==> nodeId in got)
    {
    }

    // Whether the id has been seen within the window.
    method PruneAndLook(msgId: string, clock: Clock,
                        ghost nodes: set<GossipNode>, ghost g: Net, ghost got: map<Id, int>, ghost start: real)
      returns (known: bool)
      requires this in nodes && Network(nodes, g)
      requires start <= clock.now && Stamped(nodes, msgId, start)
      modifies this`seen, clock
      ensures old(clock.now) <= clock.now && Network(nodes, g) && Stamped(nodes, msgId, start)
      ensures old(Past(nodes, msgId, clock.now)) ==> Past(nodes, msgId, clock.now)
      ensures known == (msgId in seen)
      ensures known ==> msgId in old(seen) && old(clock.now) - old(seen)[msgId] <= seenTtlSeconds
      ensures !known && msgId in old(seen) ==> clock.now - old(seen)[msgId] > seenTtlSeconds
      ensures InWindow(nodes, start, clock.now) && old(Seen(nodes, msgId, got)) ==> Seen(nodes, msgId, got)
    {
      PruneSeen(clock);
      known := msgId in seen;
    }

    // Process a message; if it is new and has hops left, record it and forward it.
    method Receive(msg: Message, clock: Clock,
                   ghost nodes: set<GossipNode>, ghost g: Net, ghost got: map<Id, int>, ghost start: real)
      returns (accepted: bool, ghost after: map<Id, int>, ghost to: set<Id>)
      requires this in nodes && Network(nodes, g)
      requires start <= clock.now && Stamped(nodes, msg.msgId, start)
      modifies nodes`seen, nodes`inbox, clock
      ensures old(clock.now) <= clock.now && Stamped(nodes, msg.msgId, start)
      ensures old(Past(nodes, msg.msgId, clock.now)) ==> Past(nodes, msg.msgId, clock.now)
      ensures accepted ==>
                && msg.ttl > 0 && Grows(old(inbox) + [msg], inbox)
                && (msg.msgId in old(seen) ==> clock.now - old(seen)[msg.msgId] > seenTtlSeconds)
      ensures !accepted && msg.ttl > 0 ==>
                msg.msgId in old(seen) && old(clock.now) - old(seen)[msg.msgId] <= seenTtlSeconds
      ensures forall n :: n in nodes ==> Grows(old(n.inbox), n.inbox)
      ensures InWindow(nodes, start, clock.now) && old(Seen(nodes, msg.msgId, got)) ==>
                && accepted == (nodeId !in got && msg.ttl > 0)
                && Flood(g, got, nodeId, msg.senderId, msg.ttl, after)
                && Seen(nodes, msg.msgId, after)
                && forall n :: n in nodes ==> Delivered(old(n.inbox), n.inbox, msg, got, after, n.nodeId)
      ensures InWindow(nodes, start, clock.now) && old(Seen(nodes, msg.msgId, got)) && accepted && msg.ttl > 1 ==>
                PassedTo(peers.Keys - {msg.senderId}, fanout, to, got, after, nodeId, msg.ttl)
      decreases if msg.ttl < 0 then 0 else msg.ttl, 0
    {
      hide Flood, IsSample, Delivered, WellFormed, Grows, Network, Seen, Stamped, Past, OneMore, PassedTo;
      after, to := got, {};
      forall n | n in nodes ensures Grows(n.inbox, n.inbox) {
        GrowsItself(n.inbox);
      }
      var known := PruneAndLook(msg.msgId, clock, nodes, g, got, start);
      label Pruned:
      if known || msg.ttl <= 0 {
        SeenInGot(nodes, msg.msgId, got);
        FloodRefused(g, got, nodeId, msg.senderId, msg.ttl);
        forall n | n in nodes ensures Delivered(n.inbox, n.inbox, msg, got, got, n.nodeId) {
          NothingDelivered(n.inbox, msg, got, n.nodeId);
        }
        return false, got, {};
      }
      SeenInGot(nodes, msg.msgId, got);
      after, to := AcceptAndForward(msg, clock, nodes, g, got, start);
      accepted := true;
      EarlierInWindow(nodes, start, old@Pruned(clock.now), clock.now);
    }

    method AcceptAndForward(msg: Message, clock: Clock, ghost nodes: set<GossipNode>, ghost g: Net,
                            ghost got: map<Id, int>, ghost start: real)
      returns (ghost after: map<Id, int>, ghost to: set<Id>)
      requires this in nodes && Network(nodes, g) && msg.msgId !in seen && msg.ttl > 0
      requires start <= clock.now && Stamped(nodes, msg.msgId, start)
      modifies nodes`seen, nodes`inbox, clock
      ensures old(clock.now) <= clock.now && Stamped(nodes, msg.msgId, start)
      ensures old(Past(nodes, msg.msgId, clock.now)) ==> Past(nodes, msg.msgId, clock.now)
      ensures Grows(old(inbox) + [msg], inbox)
      ensures forall n :: n in nodes ==> Grows(old(n.inbox), n.inbox)
      ensures InWindow(nodes, start, clock.now) && old(Seen(nodes, msg.msgId, got)) ==>
                && Flood(g, got, nodeId, msg.senderId, msg.ttl, after)
                && Seen(nodes, msg.msgId, after)
                && forall n :: n in nodes ==> Delivered(old(n.inbox), n.inbox, msg, got, after, n.nodeId)
      ensures InWindow(nodes, start, clock.now) && old(Seen(nodes, msg.msgId, got)) && msg.ttl > 1 ==>
                PassedTo(peers.Keys - {msg.senderId}, fanout, to, got, after, nodeId, msg.ttl)
      decreases msg.ttl - 1, 2
    {
      hide Flood, FloodAll, IsSample, WellFormed, InWindow, Network, Seen, Stamped, Past, Grows, Delivered, SameContent;
      hide OneMore, PassedTo;
      to := {};
      ghost var live := Seen(nodes, msg.msgId, got);
      ghost var mid := got[nodeId := msg.ttl];
      OwnLinks(nodes, g);
      Record(msg, clock, nodes, g, got, start);
      label Recorded:
      var order := Sample(peers.Keys - {msg.senderId}, fanout);
      var forwarded := Message(msg.msgId, nodeId, msg.msgType, msg.payload, msg.timestamp, msg.ttl - 1);
      after := Forward(order, forwarded, clock, nodes, g, mid, start);
      forall n | n in nodes ensures Grows(old(n.inbox), n.inbox) {
        GrowsInTurn(old(n.inbox), old@Recorded(n.inbox), n.inbox);
      }
      if live && InWindow(nodes, start, clock.now) {
        FloodByOrder(g, got, nodeId, msg.senderId, msg.ttl, order, after);
        SameContentForwarded(msg, forwarded);
        forall n | n in nodes ensures Delivered(old(n.inbox), n.inbox, msg, got, after, n.nodeId) {
          DeliveredInTurn(old(n.inbox), old@Recorded(n.inbox), n.inbox, msg, forwarded, got, mid, after, n.nodeId);
        }
        if msg.ttl > 1 {
          to := PassedToPeers(g, got, nodeId, msg.senderId, msg.ttl, after);
        }
      }
    }

    lemma OwnLinks(nodes: set<GossipNode>, g: Net)
      requires this in nodes && Network(nodes, g)
      ensures WellFormed(g) && nodeId in g.links && g.links[nodeId] == peers.Keys && g.fanout[nodeId] == fanout
    {
    }

    lemma PeerInNetwork(nodes: set<GossipNode>, g: Net, v: Id)
      requires this in nodes && Network(nodes, g) && v in peers
      ensures v in g.links && peers[v] in nodes && peers[v].nodeId == v
    {
    }

    // This node has the message recorded at time t, and nothing else has changed.
    twostate predicate RecordedOnly(msg: Message, nodes: set<GossipNode>, t: real)
      reads nodes
    {
      && this in nodes && seen == old(seen)[msg.msgId := t] && inbox == old(inbox) + [msg]
      && forall n :: n in nodes && n != this ==> n.seen == old(n.seen) && n.inbox == old(n.inbox)
    }

    twostate lemma RecordedSeen(new msg: Message, nodes: set<GossipNode>, new g: Net, new got: map<Id, int>,
                                new t: real)
      requires RecordedOnly(msg, nodes, t) && old(Network(nodes, g)) && msg.msgId !in old(seen)
      ensures old(Seen(nodes, msg.msgId, got)) ==> nodeId !in got && Seen(nodes, msg.msgId, got[nodeId := msg.ttl])
      ensures forall n :: n in nodes ==> Grows(old(n.inbox), n.inbox)
    {
      hide WellFormed;
    }

    twostate lemma RecordedDelivered(new msg: Message, nodes: set<GossipNode>, new g: Net, new got: map<Id, int>,
                                     new t: real)
      requires RecordedOnly(msg, nodes, t) && old(Network(nodes, g)) && nodeId !in got
      ensures forall n :: n in nodes ==> Delivered(old(n.inbox), n.inbox, msg, got, got[nodeId := msg.ttl], n.nodeId)
    {
      hide WellFormed;
    }

    method Record(msg: Message, clock: Clock,
                  ghost nodes: set<GossipNode>, ghost g: Net, ghost got: map<Id, int>, ghost start: real)
      requires this in nodes && Network(nodes, g) && msg.msgId !in seen
      requires start <= clock.now && Stamped(nodes, msg.msgId, start)
      modifies this`seen, this`inbox, clock
      ensures old(clock.now) <= clock.now && Stamped(nodes, msg.msgId, start)
      ensures seen == old(seen)[msg.msgId := clock.now] && inbox == old(inbox) + [msg]
      ensures old(Past(nodes, msg.msgId, clock.now)) ==> Past(nodes, msg.msgId, clock.now)
      ensures forall n :: n in nodes ==> Grows(old(n.inbox), n.inbox)
      ensures old(Seen(nodes, msg.msgId, got)) ==>
                && nodeId !in got && Seen(nodes, msg.msgId, got[nodeId := msg.ttl])
                && forall n :: n in nodes ==>
                     Delivered(old(n.inbox), n.inbox, msg, got, got[nodeId := msg.ttl], n.nodeId)
    {
      hide Network, Seen, Grows, Delivered;
      var now := clock.Read();
      seen := seen[msg.msgId := now];
      inbox := inbox + [msg];
      RecordedSeen(msg, nodes, g, got, now);
      if old(Seen(nodes, msg.msgId, got)) {
        RecordedDelivered(msg, nodes, g, got, now);
      }
    }

    method Forward(order: seq<Id>, forwarded: Message, clock: Clock,
                   ghost nodes: set<GossipNode>, ghost g: Net, ghost got: map<Id, int>, ghost start: real)
      returns (ghost after: map<Id, int>)
      requires this in nodes && Network(nodes, g) && forall i :: 0 <= i < |order| ==> order[i] in peers
      requires start <= clock.now && Stamped(nodes, forwarded.msgId, start) && forwarded.senderId == nodeId
      modifies nodes`seen, nodes`inbox, clock
      ensures old(clock.now) <= clock.now && Stamped(nodes, forwarded.msgId, start)
      ensures old(Past(nodes, forwarded.msgId, clock.now)) ==> Past(nodes, forwarded.msgId, clock.now)
      ensures forall n :: n in nodes ==> Grows(old(n.inbox), n.inbox)
      ensures forall i :: 0 <= i < |order| ==> order[i] in g.links
      ensures InWindow(nodes, start, clock.now) && old(Seen(nodes, forwarded.msgId, got)) ==>
                && FloodAll(g, got, order, nodeId, forwarded.ttl, after)
                && Seen(nodes, forwarded.msgId, after)
                && (forall v :: v in got ==> v in after && after[v] == got[v])
                && forall n :: n in nodes ==> Delivered(old(n.inbox), n.inbox, forwarded, got, after, n.nodeId)
      decreases if forwarded.ttl < 0 then 0 else forwarded.ttl, 1
    {
      hide Flood, FloodAll, IsSample, Delivered, WellFormed, Network, Seen, Stamped, Past, Grows, InWindow;
      after := got;
      OwnLinks(nodes, g);
      NothingForwarded(g, got, nodeId, forwarded.ttl);
      forall n | n in nodes ensures Delivered(n.inbox, n.inbox, forwarded, got, got, n.nodeId) {
        NothingDelivered(n.inbox, forwarded, got, n.nodeId);
      }
      assert order[..0] == [];
      forall n | n in nodes ensures Grows(n.inbox, n.inbox) {
        GrowsItself(n.inbox);
      }
      forall j | 0 <= j < |order| ensures order[j] in g.links {
        PeerInNetwork(nodes, g, order[j]);
      }
      for i := 0 to |order|
        invariant old(clock.now) <= clock.now && Stamped(nodes, forwarded.msgId, start)
        invariant old(Past(nodes, forwarded.msgId, clock.now)) ==> Past(nodes, forwarded.msgId, clock.now)
        invariant forall n :: n in nodes ==> Grows(old(n.inbox), n.inbox)
        invariant forall j :: 0 <= j < |order| ==> order[j] in g.links
        invariant InWindow(nodes, start, clock.now) && old(Seen(nodes, forwarded.msgId, got)) ==>
                    && FloodAll(g, got, order[..i], nodeId, forwarded.ttl, after)
                    && Seen(nodes, forwarded.msgId, after)
                    && (forall v :: v in got ==> v in after && after[v] == got[v])
                    && forall n :: n in nodes ==> Delivered(old(n.inbox), n.inbox, forwarded, got, after, n.nodeId)
      {
        ghost var mid := after;
        PeerInNetwork(nodes, g, order[i]);
        label Before:
        var peer := peers[order[i]];
        var ok, next, _ := peer.Receive(forwarded, clock, nodes, g, mid, start);
        after := next;
        forall n | n in nodes ensures Grows(old(n.inbox), n.inbox) {
          GrowsInTurn(old(n.inbox), old@Before(n.inbox), n.inbox);
        }
        assert order[..i + 1] == order[..i] + [order[i]];
        EarlierInWindow(nodes, start, old@Before(clock.now), clock.now);
        if InWindow(nodes, start, clock.now) && old(Seen(nodes, forwarded.msgId, got)) {
          FloodAllSnoc(g, got, order[..i], nodeId, forwarded.ttl, mid, order[i], after);
          FloodSpreads(g, mid, order[i], nodeId, forwarded.ttl, after);
          forall n | n in nodes ensures Delivered(old(n.inbox), n.inbox, forwarded, got, after, n.nodeId) {
            DeliveredInTurn(old(n.inbox), old@Before(n.inbox), n.inbox, forwarded, forwarded, got, mid, after,
                n.nodeId);
          }
        }
      }
      assert order[..|order|] == order;
    }

    // When more than seenTtlSeconds have passed since a node accepted a message, its id has been pruned
    // and another copy is accepted, recorded and forwarded once more.
    method ReceiveAgain(msg: Message, again: Message, wait: real, clock: Clock,
                        ghost nodes: set<GossipNode>, ghost g: Net, ghost start: real)
      requires this in nodes && Network(nodes, g) && msg.ttl > 0 && msg.msgId !in seen
      requires start <= clock.now && Stamped(nodes, msg.msgId, start) && Past(nodes, msg.msgId, clock.now)
      requires again.msgId == msg.msgId && again.ttl > 0 && wait > seenTtlSeconds && wait >= 0.0
      modifies nodes`seen, nodes`inbox, clock
      ensures exists between :: Grows(old(inbox) + [msg], between) && Grows(between + [again], inbox)
    {
      hide Grows, Network;
      var first, _, _ := Receive(msg, clock, nodes, g, map[], start);
      ghost var between := inbox;
      assert msg.msgId in seen ==> seen[msg.msgId] <= clock.now;
      clock.now := clock.now + wait;
      var second, _, _ := Receive(again, clock, nodes, g, map[], start);
      assert Grows(old(inbox) + [msg], between) && Grows(between + [again], inbox);
    }

    // Create a message under a fresh id and process it here. As long as nothing stamped during the
    // cascade expires, every node gets at most one copy, at most ttl - 1 links away; with full fanout
    // and a ttl of at least the number of nodes, exactly the reachable nodes get one.
    method Broadcast(msgId: string, msgType: string, payload: string, ttl: int, clock: Clock,
                     ghost nodes: set<GossipNode>, ghost g: Net)
      returns (msg: Message, ghost to: set<Id>)
      requires this in nodes && Network(nodes, g)
      requires forall n :: n in nodes ==> msgId !in n.seen
      modifies nodes`seen, nodes`inbox, clock
      ensures msg.msgId == msgId && msg.senderId == nodeId && msg.msgType == msgType
      ensures msg.payload == payload && msg.ttl == ttl
      ensures InWindow(nodes, old(clock.now), clock.now) ==>
                forall n :: n in nodes ==>
                  n.inbox == old(n.inbox) || OneMoreFrom(old(n.inbox), n.inbox, msg, g, nodeId, n.nodeId)
      ensures InWindow(nodes, old(clock.now), clock.now) && FullFanout(g) && ttl >= |g.links| ==>
                forall n :: n in nodes ==>
                  if Reachable(g, nodeId, n.nodeId) then OneMore(old(n.inbox), n.inbox, msg)
                  else n.inbox == old(n.inbox)
      ensures InWindow(nodes, old(clock.now), clock.now) && ttl > 1 ==>
                && to <= peers.Keys && |to| == (if fanout < |peers| then fanout else |peers|)
                && (forall n :: n in nodes && n.nodeId in to ==> OneMore(old(n.inbox), n.inbox, msg))
                && (ttl == 2 ==> forall n :: n in nodes ==>
                      (OneMore(old(n.inbox), n.inbox, msg) <==> n == this || n.nodeId in to))
    {
      hide Flood, WellFormed, Network, Seen, Stamped, Past, Grows, Delivered, OneMore, OneMoreFrom, Reachable;
      hide FullFanout, InWindow;
      var timestamp := clock.Read();
      msg := Message(msgId, nodeId, msgType, payload, timestamp, ttl);
      Unseen(nodes, msgId, old(clock.now));
      ghost var start := old(clock.now);
      label Created:
      ghost var none: map<Id, int> := map[];
      var accepted, after, others := Receive(msg, clock, nodes, g, none, start);
      to := others;
      assert none.Keys + {nodeId} + to == {nodeId} + to;
      if InWindow(nodes, start, clock.now) {
        CopiesArrived@Created(msg, nodes, g, after, to);
      }
    }

    twostate lemma CopiesArrived(new msg: Message, nodes: set<GossipNode>, new g: Net, new after: map<Id, int>,
                                 new to: set<Id>)
      requires this in nodes && Network(nodes, g) && Flood(g, map[], nodeId, nodeId, msg.ttl, after)
      requires forall n :: n in nodes ==> Delivered(old(n.inbox), n.inbox, msg, map[], after, n.nodeId)
      ensures forall n :: n in nodes ==>
                n.inbox == old(n.inbox) || OneMoreFrom(old(n.inbox), n.inbox, msg, g, nodeId, n.nodeId)
      ensures FullFanout(g) && msg.ttl >= |g.links| ==>
                forall n :: n in nodes ==>
                  if Reachable(g, nodeId, n.nodeId) then OneMore(old(n.inbox), n.inbox, msg)
                  else n.inbox == old(n.inbox)
      ensures |peers.Keys - {nodeId}| == |peers|
      ensures to <= after.Keys ==> forall n :: n in nodes && n.nodeId in to ==> OneMore(old(n.inbox), n.inbox, msg)
      ensures after.Keys == {nodeId} + to ==>
                forall n :: n in nodes ==> (OneMore(old(n.inbox), n.inbox, msg) <==> n == this || n.nodeId in to)
    {
      OwnLinks(nodes, g);
      NotOwnPeer(nodes, g);
      hide Flood, Network, WellFormed, Walk, Spread, Delivered, OneMoreFrom, Reachable;
      FloodSpreads(g, map[], nodeId, nodeId, msg.ttl, after);
      forall n | n in nodes
        ensures n.inbox == old(n.inbox) || OneMoreFrom(old(n.inbox), n.inbox, msg, g, nodeId, n.nodeId)
        ensures n.nodeId !in after ==> n.inbox == old(n.inbox)
      {
        CopyArrived(old(n.inbox), n.inbox, msg, g, nodeId, n.nodeId, after);
      }
      hide OneMore;
      forall n | n in nodes ensures OneMore(old(n.inbox), n.inbox, msg) <==> n.nodeId in after {
        DeliveredMore(old(n.inbox), n.inbox, msg, map[], after, n.nodeId);
        NoneMore(old(n.inbox), msg);
      }
      if FullFanout(g) && msg.ttl >= |g.links| {
        BroadcastReaches(g, nodeId, msg.ttl, after);
      }
    }

    lemma NotOwnPeer(nodes: set<GossipNode>, g: Net)
      requires this in nodes && Network(nodes, g)
      ensures peers.Keys - {nodeId} == peers.Keys
      ensures forall n :: n in nodes ==> (n.nodeId == nodeId <==> n == this)
    {
    }
  }

  lemma DeliveredMore(before: seq<Message>, now: seq<Message>, msg: Message, got: map<Id, int>, after: map<Id, int>,
                      v: Id)
    requires Delivered(before, now, msg, got, after, v)
    ensures if v in after && v !in got then OneMore(before, now, msg) else now == before
  {
  }

  lemma Unseen(nodes: set<GossipNode>, msgId: string, start: real)
    requires forall n :: n in nodes ==> msgId !in n.seen
    ensures Seen(nodes, msgId, map[]) && Stamped(nodes, msgId, start)
  {
  }

  lemma NoneMore(box: seq<Message>, msg: Message)
    ensures !OneMore(box, box, msg)
  {
  }

  ghost predicate OneMore(before: seq<Message>, now: seq<Message>, msg: Message) {
    |now| == |before| + 1 && now[..|before|] == before && SameContent(now[|before|], msg)
  }

  // One more copy, whose ttl tells how many links from the origin v is.
  ghost predicate OneMoreFrom(before: seq<Message>, now: seq<Message>, msg: Message, g: Net, origin: Id, v: Id) {
    && OneMore(before, now, msg)
    && 1 <= now[|before|].ttl <= msg.ttl
    && Walk(g, origin, v, msg.ttl - now[|before|].ttl)
  }

  lemma CopyArrived(before: seq<Message>, now: seq<Message>, msg: Message, g: Net, origin: Id, v: Id,
                    after: map<Id, int>)
    requires Delivered(before, now, msg, map[], after, v) && Spread(g, map[], origin, msg.ttl, after)
    ensures now == before || OneMoreFrom(before, now, msg, g, origin, v)
    ensures if v in after then OneMore(before, now, msg) else now == before
  {
  }
}
