// Token positions of the sequences of a cache, one pair each.
module KvPairs {
  import opened Collections
  import opened KvCache
  import opened KvHistory
  import opened Outcomes

  ghost predicate Reachable<T>(c: PagedKVCache<T>, s: int, layer: nat, p: nat)
    reads c
  {
    c.Shaped() && c.InRange(s, layer, 0, p / c.blockSize, p % c.blockSize) &&
        c.InRange(s, layer, 1, p / c.blockSize, p % c.blockSize)
  }

  // What sequence s holds at position p.
  ghost function PairAt<T>(c: PagedKVCache<T>, s: int, layer: nat, p: nat): (T, T)
    requires Reachable(c, s, layer, p)
    reads c, c.store
  {
    (c.Cell(s, layer, 0, p / c.blockSize, p % c.blockSize), c.Cell(s, layer, 1, p / c.blockSize, p % c.blockSize))
  }

  ghost function Size<T>(c: PagedKVCache<T>, s: int): nat
    requires s in c.tables
    reads c
  {
    |c.tables[s]| * c.blockSize
  }

  lemma PageOf(p: nat, blockSize: nat, pages: nat)
    requires blockSize > 0 && p < pages * blockSize
    ensures 0 <= p / blockSize < pages && 0 <= p % blockSize < blockSize
  {
    PositionInTable(p, blockSize, pages);
  }

  lemma AllReachable<T>(c: PagedKVCache<T>, s: int, layer: nat, p: nat)
    requires c.Valid() && s in c.tables && layer < c.numLayers && p < Size(c, s)
    ensures Reachable(c, s, layer, p)
  {
    PageOf(p, c.blockSize, |c.tables[s]|);
    var page: nat := p / c.blockSize;
    assert c.tables[s][page] in c.tables[s];
    assert c.tables[s][page] in c.refcounts;
  }

  // Every position of the sequence can be read, and holds what it held, but for the one written.
  twostate lemma PairAfter<T>(c: PagedKVCache<T>, new s: int, new l: nat, new tokenPos: nat, new pair: (T, T),
                              new layer: nat, new p: nat)
    requires old(Reachable(c, s, layer, p)) && Reachable(c, s, layer, p)
    requires old(c.Shaped()) && c.Shaped()
    requires c.Holds(s, l, tokenPos / c.blockSize, tokenPos % c.blockSize, pair)
    requires c.KeptExcept(s, l, tokenPos / c.blockSize, tokenPos % c.blockSize)
    ensures PairAt(c, s, layer, p) == if layer == l && p == tokenPos then pair else old(PairAt(c, s, layer, p))
  {
    if p / c.blockSize == tokenPos / c.blockSize && p % c.blockSize == tokenPos % c.blockSize {
      SamePosition(p, tokenPos, c.blockSize);
    }
  }

  // The sequence holds the pair there, and everywhere else what it held.
  twostate predicate PairsAfter<T>(c: PagedKVCache<T>, new s: int, new layer: nat, new p: nat, new pair: (T, T))
    requires s in c.tables
    reads c, c.store
  {
    forall l: nat, q: nat :: l < c.numLayers && q < Size(c, s) ==>
      && old(Reachable(c, s, l, q)) && Reachable(c, s, l, q)
      && PairAt(c, s, l, q) == if l == layer && q == p then pair else old(PairAt(c, s, l, q))
  }

  twostate lemma AllPairsAfter<T>(c: PagedKVCache<T>, new s: int, new layer: nat, new p: nat, new pair: (T, T))
    requires old(c.Shaped()) && c.Valid() && s in c.tables
    requires forall l: nat, q: nat :: l < c.numLayers && q < Size(c, s) ==> old(Reachable(c, s, l, q))
    requires c.Holds(s, layer, p / c.blockSize, p % c.blockSize, pair)
    requires c.KeptExcept(s, layer, p / c.blockSize, p % c.blockSize)
    ensures PairsAfter(c, s, layer, p, pair)
  {
    hide Reachable, PairAt;
    forall l: nat, q: nat | l < c.numLayers && q < Size(c, s)
      ensures old(Reachable(c, s, l, q)) && Reachable(c, s, l, q)
      ensures PairAt(c, s, l, q) == if l == layer && q == p then pair else old(PairAt(c, s, l, q))
    {
      AllReachable(c, s, l, q);
      PairAfter(c, s, layer, p, pair, l, q);
    }
  }

  // All that a sequence holds on a layer, position after position.
  ghost function Contents<T>(c: PagedKVCache<T>, s: int, layer: nat): (pairs: seq<(T, T)>)
    requires c.Valid() && s in c.tables && layer < c.numLayers
    reads c, c.store
    ensures |pairs| == Size(c, s)
    ensures forall p: nat :: p < |pairs| ==> Reachable(c, s, layer, p) && pairs[p] == PairAt(c, s, layer, p)
  {
    assert forall p: nat :: p < Size(c, s) ==> Reachable(c, s, layer, p) by {
      forall p: nat | p < Size(c, s) ensures Reachable(c, s, layer, p) {
        AllReachable(c, s, layer, p);
      }
    }
    seq(Size(c, s), p requires p >= 0 && Reachable(c, s, layer, p) reads c, c.store => PairAt(c, s, layer, p))
  }

  // A write at a position of any sequence of any cache: there it leaves the pair, everywhere else and in all
  // other sequences what was there. It fails exactly if the page is shared and no block is free.
  method WritePair<T>(c: PagedKVCache<T>, s: int, layer: nat, p: nat, pair: (T, T)) returns (ok: bool)
    requires c.Valid() && s in c.tables && layer < c.numLayers && p < Size(c, s)
    modifies c, c.store
    ensures c.Valid() && c.tables.Keys == old(c.tables).Keys && |c.tables[s]| == |old(c.tables)[s]|
    ensures p / c.blockSize < |c.tables[s]|
    ensures ok <==> CountOf(old(c.refcounts), old(c.tables)[s][p / c.blockSize]) <= 1 || old(c.freeBlocks) != {}
    ensures !ok ==> unchanged(c) && unchanged(c.store)
    ensures ok ==> PairsAfter(c, s, layer, p, pair)
    ensures ok ==> c.fill == old(c.fill)[s := if p + 1 > old(c.fill)[s] then p + 1 else old(c.fill)[s]]
    ensures forall t :: t in old(c.tables) && t != s ==> c.ViewKept(t)
  {
    hide Reachable, PairAt;
    forall l: nat, q: nat | l < c.numLayers && q < Size(c, s) ensures Reachable(c, s, l, q) {
      AllReachable(c, s, l, q);
    }
    PageOf(p, c.blockSize, |c.tables[s]|);
    var r := c.Write(s, layer, p, pair.0, pair.1);
    ok := r.Ok?;
    if ok {
      AllPairsAfter(c, s, layer, p, pair);
    }
  }

  // Read, as pairs.
  method ReadPairs<T>(c: PagedKVCache<T>, s: int, layer: nat) returns (pairs: seq<(T, T)>)
    requires c.Valid() && s in c.tables && layer < c.numLayers
    ensures |pairs| == c.fill[s] <= Size(c, s)
    ensures forall p: nat :: p < |pairs| ==> Reachable(c, s, layer, p) && pairs[p] == PairAt(c, s, layer, p)
  {
    var r := c.Read(s, layer);
    var ks, vs := r.value.0, r.value.1;
    pairs := seq(|ks|, i requires 0 <= i < |ks| => (ks[i], vs[i]));
    forall p: nat | p < |pairs| ensures Reachable(c, s, layer, p) && pairs[p] == PairAt(c, s, layer, p) {
      AllReachable(c, s, layer, p);
    }
  }
}
