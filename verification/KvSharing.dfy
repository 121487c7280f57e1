// A sequence that shares a prefix and then writes into it: it reads its own pair there and the source's
// everywhere else, and the source reads what it did.
module KvSharing {
  import opened Collections
  import opened KvCache
  import opened KvHistory
  import opened KvPairs
  import opened Outcomes

  // Two sequences hold a block that both have in their tables.
  lemma HeldByTwo<T>(c: PagedKVCache<T>, s: int, t: int, b: nat)
    requires c.Valid() && s in c.tables && t in c.tables && s != t && b in c.tables[s] && b in c.tables[t]
    ensures CountOf(c.refcounts, b) > 1
  {
    assert b in c.refcounts;
    if c.refcounts[b] == 1 {
      UniqueHolder(c.tables, b, s, t);
    }
  }

  // Of n tokens, as many blocks as they take.
  lemma SharedSize(n: int, blockSize: nat, pages: nat)
    requires blockSize > 0 && 0 <= n <= pages * blockSize
    ensures 0 <= CeilDiv(n, blockSize) <= pages && n <= CeilDiv(n, blockSize) * blockSize <= pages * blockSize
  {
    CeilDivIs(n, blockSize, pages);
    CeilDivIs(n, blockSize, -1);
    CeilDivIs(n, blockSize, CeilDiv(n, blockSize));
    TimesMonotone(CeilDiv(n, blockSize), pages, blockSize);
  }

  twostate lemma SharedContents<T>(c: PagedKVCache<T>, new source: int, new s: int, new layer: nat)
    requires old(c.Valid()) && c.Valid() && source in old(c.tables) && s in c.tables && layer < c.numLayers
    requires Size(c, s) <= old(Size(c, source))
    requires forall l: nat, half: nat, page: nat, slot: nat :: c.InRange(s, l, half, page, slot) ==>
               old(c.InRange(source, l, half, page, slot)) &&
               c.Cell(s, l, half, page, slot) == old(c.Cell(source, l, half, page, slot))
    ensures Contents(c, s, layer) == old(Contents(c, source, layer))[..Size(c, s)]
  {
    forall p: nat | p < Size(c, s) ensures Contents(c, s, layer)[p] == old(Contents(c, source, layer))[p] {
      assert Contents(c, s, layer)[p] == PairAt(c, s, layer, p);
      assert old(Contents(c, source, layer))[p] == old(PairAt(c, source, layer, p));
    }
  }

  twostate lemma KeptContents<T>(c: PagedKVCache<T>, new s: int, new layer: nat)
    requires old(c.Valid()) && c.Valid() && s in old(c.tables) && s in c.tables && layer < c.numLayers && c.ViewKept(s)
    ensures Contents(c, s, layer) == old(Contents(c, s, layer))
  {
    forall p: nat | p < Size(c, s) ensures Contents(c, s, layer)[p] == old(Contents(c, s, layer))[p] {
      assert Contents(c, s, layer)[p] == PairAt(c, s, layer, p);
      assert old(Contents(c, s, layer))[p] == old(PairAt(c, s, layer, p));
    }
  }

  twostate lemma WrittenContents<T>(c: PagedKVCache<T>, new s: int, new l: nat, new p: nat, new pair: (T, T),
                                    new layer: nat)
    requires old(c.Valid()) && c.Valid() && s in old(c.tables) && s in c.tables && layer < c.numLayers
    requires Size(c, s) == old(Size(c, s)) && p < Size(c, s) && PairsAfter(c, s, l, p, pair)
    ensures Contents(c, s, layer) ==
            if layer == l then old(Contents(c, s, layer))[p := pair] else old(Contents(c, s, layer))
  {
    forall q: nat | q < Size(c, s)
      ensures Contents(c, s, layer)[q] == if layer == l && q == p then pair else old(Contents(c, s, layer))[q]
    {
      assert Contents(c, s, layer)[q] == PairAt(c, s, layer, q);
      assert old(Contents(c, s, layer))[q] == old(PairAt(c, s, layer, q));
    }
  }

  method ShareAll<T>(c: PagedKVCache<T>, source: int, s: int, n: int)
    requires c.Valid() && source in c.tables && s !in c.tables && 0 <= n <= Size(c, source)
    modifies c
    ensures c.Valid() && c.tables.Keys == old(c.tables).Keys + {s} && c.freeBlocks == old(c.freeBlocks)
    ensures c.fill == old(c.fill)[s := n]
    ensures Size(c, s) == CeilDiv(n, c.blockSize) * c.blockSize && n <= Size(c, s) <= Size(c, source)
    ensures forall page: nat :: page < |c.tables[s]| ==> CountOf(c.refcounts, c.tables[s][page]) > 1
    ensures Size(c, source) == old(Size(c, source))
    ensures forall l: nat :: l < c.numLayers ==>
              && Contents(c, s, l) == old(Contents(c, source, l))[..Size(c, s)]
              && Contents(c, source, l) == old(Contents(c, source, l))
  {
    SharedSize(n, c.blockSize, |c.tables[source]|);
    var r := c.SharePrefix(source, s, n);
    forall page: nat | page < |c.tables[s]| ensures CountOf(c.refcounts, c.tables[s][page]) > 1 {
      assert c.tables[s][page] == c.tables[source][page];
      HeldByTwo(c, s, source, c.tables[s][page]);
    }
    hide Contents;
    forall l: nat | l < c.numLayers
      ensures Contents(c, s, l) == old(Contents(c, source, l))[..Size(c, s)]
      ensures Contents(c, source, l) == old(Contents(c, source, l))
    {
      SharedContents(c, source, s, l);
      KeptContents(c, source, l);
    }
  }

  // A write, on contents.
  method WriteInto<T>(c: PagedKVCache<T>, s: int, layer: nat, p: nat, pair: (T, T)) returns (ok: bool)
    requires c.Valid() && s in c.tables && layer < c.numLayers && p < Size(c, s)
    modifies c, c.store
    ensures c.Valid() && c.tables.Keys == old(c.tables).Keys && p / c.blockSize < |old(c.tables)[s]|
    ensures ok <==> CountOf(old(c.refcounts), old(c.tables)[s][p / c.blockSize]) <= 1 || old(c.freeBlocks) != {}
    ensures c.fill == if ok && p + 1 > old(c.fill)[s] then old(c.fill)[s := p + 1] else old(c.fill)
    ensures forall t, l: nat :: t in c.tables && l < c.numLayers ==>
              Contents(c, t, l) == if ok && t == s && l == layer then old(Contents(c, t, l))[p := pair]
                else old(Contents(c, t, l))
  {
    ok := WritePair(c, s, layer, p, pair);
    if ok {
      hide Contents, PairsAfter;
      forall t, l: nat | t in c.tables && l < c.numLayers
        ensures Contents(c, t, l) == if t == s && l == layer then old(Contents(c, t, l))[p := pair]
                  else old(Contents(c, t, l))
      {
        if t == s {
          WrittenContents(c, s, layer, p, pair, l);
        } else {
          KeptContents(c, t, l);
        }
      }
    }
  }

  method ReadAll<T>(c: PagedKVCache<T>, s: int, layer: nat) returns (pairs: seq<(T, T)>)
    requires c.Valid() && s in c.tables && layer < c.numLayers
    ensures c.fill[s] <= Size(c, s) && pairs == Contents(c, s, layer)[..c.fill[s]]
  {
    pairs := ReadPairs(c, s, layer);
  }

  lemma Spliced<T>(xs: seq<T>, k: nat, p: nat, x: T, m: nat)
    requires p < k <= |xs| && m <= k
    ensures xs[..k][p := x][..m] == xs[p := x][..m]
  {
  }

  lemma FilledAndTables<T>(c: PagedKVCache<T>, s: int)
    requires c.Valid() && s in c.tables
    ensures s in c.fill && c.blockSize > 0
  {
  }

  // One sequence writes, two are read.
  method WriteAndRead<T>(c: PagedKVCache<T>, other: int, s: int, layer: nat, p: nat, pair: (T, T))
    returns (read: Result<seq<(T, T)>>, otherRead: seq<(T, T)>)
    requires c.Valid() && s in c.tables && other in c.tables && other != s && layer < c.numLayers && p < Size(c, s)
    requires forall page: nat :: page < |c.tables[s]| ==> CountOf(c.refcounts, c.tables[s][page]) > 1
    modifies c, c.store
    ensures c.Valid()
    ensures read == Err(MemoryError) <==> old(c.freeBlocks) == {}
    ensures read.Err? ==> read == Err(MemoryError)
    ensures s in old(c.fill) && other in old(c.fill)
    ensures read.Ok? ==>
              var length := if p + 1 > old(c.fill)[s] then p + 1 else old(c.fill)[s];
              length <= old(Size(c, s)) && read.value == old(Contents(c, s, layer))[p := pair][..length]
    ensures old(c.fill)[other] <= old(Size(c, other))
    ensures otherRead == old(Contents(c, other, layer))[..old(c.fill)[other]]
  {
    hide PagedKVCache.Consistent, Accounting, Contents, CountOf, CeilDiv, Size, Reachable, PairAt;
    FilledAndTables(c, other);
    FilledAndTables(c, s);
    var ok := WriteInto(c, s, layer, p, pair);
    otherRead := ReadAll(c, other, layer);
    if !ok {
      return Err(MemoryError), otherRead;
    }
    var own := ReadAll(c, s, layer);
    read := Ok(own);
  }

  // s shares n tokens of source and then writes at a position of the pages it shares. This goes through exactly
  // if a block is free for the copy; then s reads the pair it wrote there and at every other position what
  // source held, and source reads what it held.
  method ShareAndWrite<T>(c: PagedKVCache<T>, source: int, s: int, n: int, layer: nat, p: nat, pair: (T, T))
    returns (read: Result<seq<(T, T)>>, sourceRead: seq<(T, T)>)
    requires c.Valid() && source in c.tables && s !in c.tables && layer < c.numLayers
    requires 0 <= n <= Size(c, source) && p < CeilDiv(n, c.blockSize) * c.blockSize
    modifies c, c.store
    ensures c.Valid() && p < old(Size(c, source))
    ensures read == Err(MemoryError) <==> old(c.freeBlocks) == {}
    ensures read.Err? ==> read == Err(MemoryError)
    ensures read.Ok? ==>
              var length := if p + 1 > n then p + 1 else n;
              && length <= old(Size(c, source))
              && read.value == old(Contents(c, source, layer))[p := pair][..length]
    ensures old(c.fill)[source] <= old(Size(c, source))
    ensures sourceRead == old(Contents(c, source, layer))[..old(c.fill)[source]]
  {
    hide PagedKVCache.Consistent, Accounting, Contents, CountOf, CeilDiv, Size, Reachable, PairAt;
    FilledAndTables(c, source);
    ShareAll(c, source, s, n);
    Spliced(old(Contents(c, source, layer)), Size(c, s), p, pair, if p + 1 > n then p + 1 else n);
    read, sourceRead := WriteAndRead(c, source, s, layer, p, pair);
  }
}
