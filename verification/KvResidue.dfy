// What a read returns at the gaps of a sequence: whatever the blocks held before.
module KvResidue {
  import opened Collections
  import opened KvCache
  import opened KvHistory
  import opened KvPairs
  import opened Outcomes

  datatype Write<T> = Write(layer: nat, tokenPos: nat, pair: (T, T))

  // The last pair written at a position.
  function LastOf<T>(writes: seq<Write<T>>, layer: nat, p: nat): Option<(T, T)> {
    if |writes| == 0 then None
    else
      var w := writes[|writes| - 1];
      if w.layer == layer && w.tokenPos == p then Some(w.pair) else LastOf(writes[..|writes| - 1], layer, p)
  }

  // The fill level after the writes.
  function LevelAfter<T>(writes: seq<Write<T>>, level: nat): nat {
    if |writes| == 0 then level
    else
      var before, top := LevelAfter(writes[..|writes| - 1], level), writes[|writes| - 1].tokenPos + 1;
      if top > before then top else before
  }

  ghost predicate Within<T>(writes: seq<Write<T>>, layers: nat, size: nat) {
    forall i :: 0 <= i < |writes| ==> writes[i].layer < layers && writes[i].tokenPos < size
  }

  // The cache holds one sequence, of the given number of pages.
  ghost predicate Alone<T>(c: PagedKVCache<T>, s: int, pages: nat)
    reads c, c.store
  {
    c.Valid() && c.tables.Keys == {s} && |c.tables[s]| == pages
  }

  lemma SoleHolder<T>(c: PagedKVCache<T>, s: int, pages: nat, p: nat)
    requires Alone(c, s, pages) && p < pages * c.blockSize
    ensures p / c.blockSize < pages && CountOf(c.refcounts, c.tables[s][p / c.blockSize]) == 1
  {
    PageOf(p, c.blockSize, pages);
    var b := c.tables[s][p / c.blockSize];
    assert b in c.tables[s];
    assert Holders(c.tables, b) == {s};
  }

  method ApplyOne<T>(c: PagedKVCache<T>, s: int, w: Write<T>, ghost pages: nat)
    requires Alone(c, s, pages) && w.layer < c.numLayers && w.tokenPos < pages * c.blockSize
    modifies c, c.store
    ensures Alone(c, s, pages)
    ensures c.fill[s] == if w.tokenPos + 1 > old(c.fill[s]) then w.tokenPos + 1 else old(c.fill[s])
    ensures PairsAfter(c, s, w.layer, w.tokenPos, w.pair)
  {
    hide Reachable, PairAt, PairsAfter;
    SoleHolder(c, s, pages, w.tokenPos);
    var ok := WritePair(c, s, w.layer, w.tokenPos, w.pair);
  }

  ghost function Held<T>(writes: seq<Write<T>>, layer: nat, p: nat, before: (T, T)): (T, T) {
    match LastOf(writes, layer, p)
    case Some(pair) => pair
    case None => before
  }

  lemma OneWriteMore<T>(writes: seq<Write<T>>, w: Write<T>, layer: nat, p: nat, before: (T, T), level: nat)
    ensures Held(writes + [w], layer, p, before) ==
            if layer == w.layer && p == w.tokenPos then w.pair else Held(writes, layer, p, before)
    ensures LevelAfter(writes + [w], level) ==
            if w.tokenPos + 1 > LevelAfter(writes, level) then w.tokenPos + 1 else LevelAfter(writes, level)
  {
    assert (writes + [w])[..|writes + [w]| - 1] == writes;
  }

  method ApplyAll<T>(c: PagedKVCache<T>, s: int, writes: seq<Write<T>>, ghost pages: nat)
    requires Alone(c, s, pages) && Within(writes, c.numLayers, pages * c.blockSize)
    modifies c, c.store
    ensures Alone(c, s, pages) && c.fill[s] == LevelAfter(writes, old(c.fill[s]))
    ensures forall layer: nat, p: nat :: layer < c.numLayers && p < pages * c.blockSize ==>
              && old(Reachable(c, s, layer, p)) && Reachable(c, s, layer, p)
              && PairAt(c, s, layer, p) == Held(writes, layer, p, old(PairAt(c, s, layer, p)))
  {
    forall layer: nat, p: nat | layer < c.numLayers && p < pages * c.blockSize ensures Reachable(c, s, layer, p) {
      AllReachable(c, s, layer, p);
    }
    hide Alone, Reachable, PairAt;
    for i := 0 to |writes|
      invariant Alone(c, s, pages) && s in c.fill && c.fill[s] == LevelAfter(writes[..i], old(c.fill[s]))
      invariant forall layer: nat, p: nat :: layer < c.numLayers && p < pages * c.blockSize ==>
                  && old(Reachable(c, s, layer, p)) && Reachable(c, s, layer, p)
                  && PairAt(c, s, layer, p) == Held(writes[..i], layer, p, old(PairAt(c, s, layer, p)))
    {
      label Before:
      ApplyOne(c, s, writes[i], pages);
      assert writes[..i + 1] == writes[..i] + [writes[i]];
      OneWriteMore(writes[..i], writes[i], 0, 0, writes[i].pair, old(c.fill[s]));
      forall layer: nat, p: nat | layer < c.numLayers && p < pages * c.blockSize
        ensures PairAt(c, s, layer, p) == Held(writes[..i + 1], layer, p, old(PairAt(c, s, layer, p)))
      {
        OneWriteMore(writes[..i], writes[i], layer, p, old(PairAt(c, s, layer, p)), 0);
      }
    }
    assert writes[..|writes|] == writes;
  }

  // ----- a pool that holds one pair everywhere -----

  function Row<T>(layer: nat, size: nat, pair: (T, T)): seq<Write<T>> {
    if size == 0 then [] else Row(layer, size - 1, pair) + [Write(layer, size - 1, pair)]
  }

  function Everywhere<T>(layers: nat, size: nat, pair: (T, T)): seq<Write<T>> {
    if layers == 0 then [] else Everywhere(layers - 1, size, pair) + Row(layers - 1, size, pair)
  }

  lemma {:induction false} RowHolds<T>(writes: seq<Write<T>>, l: nat, size: nat, pair: (T, T), layer: nat, p: nat,
                                       before: (T, T))
    ensures Held(writes + Row(l, size, pair), layer, p, before) ==
            if layer == l && p < size then pair else Held(writes, layer, p, before)
  {
    if size == 0 {
      assert writes + [] == writes;
    } else {
      hide Held;
      RowHolds(writes, l, size - 1, pair, layer, p, before);
      assert writes + Row(l, size, pair) == writes + Row(l, size - 1, pair) + [Write(l, size - 1, pair)];
      OneWriteMore(writes + Row(l, size - 1, pair), Write(l, size - 1, pair), layer, p, before, 0);
    }
  }

  lemma {:induction false} EverywhereHolds<T>(layers: nat, size: nat, pair: (T, T), layer: nat, p: nat, before: (T, T))
    requires p < size
    ensures Held(Everywhere(layers, size, pair), layer, p, before) == if layer < layers then pair else before
  {
    if layers == 0 {
    } else {
      EverywhereHolds(layers - 1, size, pair, layer, p, before);
      RowHolds(Everywhere(layers - 1, size, pair), layers - 1, size, pair, layer, p, before);
    }
  }

  lemma {:induction false} RowWithin<T>(layer: nat, size: nat, pair: (T, T))
    ensures forall w :: w in Row(layer, size, pair) ==> w.layer == layer && w.tokenPos < size
  {
    if size == 0 {
    } else {
      RowWithin(layer, size - 1, pair);
    }
  }

  lemma {:induction false} EverywhereWithin<T>(layers: nat, size: nat, pair: (T, T))
    ensures forall w :: w in Everywhere(layers, size, pair) ==> w.layer < layers && w.tokenPos < size
  {
    if layers == 0 {
    } else {
      EverywhereWithin(layers - 1, size, pair);
      RowWithin(layers - 1, size, pair);
    }
  }

  ghost predicate StoreHolds<T>(c: PagedKVCache<T>, pair: (T, T))
    requires c.Shaped()
    reads c, c.store
  {
    forall layer: nat, b: nat, slot: nat :: layer < c.numLayers && b < c.maxBlocks && slot < c.blockSize ==>
      c.store[layer, 0, b, slot] == pair.0 && c.store[layer, 1, b, slot] == pair.1
  }

  // A table as long as the pool has every block.
  lemma AllBlocks(table: seq<nat>, n: nat, b: nat)
    requires Distinct(table) && |table| == n && b < n && forall x :: x in table ==> x < n
    ensures b in table
  {
    SizeOfSet(table);
    assert SetOf(table) <= Range(n);
    SubsetSize(SetOf(table) + {b}, Range(n));
  }

  lemma ExactPages(pages: nat, blockSize: nat)
    requires blockSize > 0
    ensures CeilDiv(pages * blockSize, blockSize) == pages
    ensures pages * blockSize <= 0 <==> pages == 0
  {
    var size := pages * blockSize;
    CeilDivIs(size, blockSize, pages);
    CeilDivIs(size, blockSize, pages - 1);
    assert (pages - 1) * blockSize == size - blockSize;
    if pages > 0 {
      TimesMonotone(1, pages, blockSize);
    }
  }

  method Occupy<T>(c: PagedKVCache<T>, s: int)
    requires c.Valid() && c.tables == map[]
    modifies c
    ensures Alone(c, s, c.maxBlocks) && c.fill[s] == 0
  {
    NoSequencesFullPool(c.maxBlocks, c.freeBlocks, c.tables, c.refcounts);
    ExactPages(c.maxBlocks, c.blockSize);
    var r := c.Allocate(s, c.maxBlocks * c.blockSize);
  }

  lemma AllPairsFillStore<T>(c: PagedKVCache<T>, s: int, pair: (T, T))
    requires Alone(c, s, c.maxBlocks)
    requires forall layer: nat, p: nat :: layer < c.numLayers && p < c.maxBlocks * c.blockSize ==>
               Reachable(c, s, layer, p) && PairAt(c, s, layer, p) == pair
    ensures StoreHolds(c, pair)
  {
    forall layer: nat, b: nat, slot: nat | layer < c.numLayers && b < c.maxBlocks && slot < c.blockSize
      ensures c.store[layer, 0, b, slot] == pair.0 && c.store[layer, 1, b, slot] == pair.1
    {
      forall x | x in c.tables[s] ensures x < c.maxBlocks {
        assert x in c.refcounts;
      }
      AllBlocks(c.tables[s], c.maxBlocks, b);
      var page: nat :| page < |c.tables[s]| && c.tables[s][page] == b;
      var p := page * c.blockSize + slot;
      DivMod(p, c.blockSize, page, slot);
      PositionInTable(p, c.blockSize, c.maxBlocks);
      assert Reachable(c, s, layer, p) && PairAt(c, s, layer, p) == pair;
    }
  }

  lemma StoreFillsAllPairs<T>(c: PagedKVCache<T>, s: int, pair: (T, T), layer: nat, p: nat)
    requires Alone(c, s, c.maxBlocks) && StoreHolds(c, pair) && layer < c.numLayers && p < c.maxBlocks * c.blockSize
    ensures Reachable(c, s, layer, p) && PairAt(c, s, layer, p) == pair
  {
    AllReachable(c, s, layer, p);
    PageOf(p, c.blockSize, c.maxBlocks);
  }

  method FillPairs<T>(c: PagedKVCache<T>, s: int, pair: (T, T))
    requires Alone(c, s, c.maxBlocks)
    modifies c, c.store
    ensures Alone(c, s, c.maxBlocks) && StoreHolds(c, pair)
  {
    var size := c.maxBlocks * c.blockSize;
    var writes := Everywhere(c.numLayers, size, pair);
    EverywhereWithin(c.numLayers, size, pair);
    assert Within(writes, c.numLayers, size);
    hide Alone, StoreHolds, Reachable, PairAt, Everywhere, Held;
    ApplyAll(c, s, writes, c.maxBlocks);
    forall layer: nat, p: nat | layer < c.numLayers && p < size
      ensures Reachable(c, s, layer, p) && PairAt(c, s, layer, p) == pair
    {
      EverywhereHolds(c.numLayers, size, pair, layer, p, old(PairAt(c, s, layer, p)));
    }
    AllPairsFillStore(c, s, pair);
  }

  method FreeLast<T>(c: PagedKVCache<T>, s: int)
    requires c.Valid() && c.tables.Keys == {s}
    modifies c
    ensures c.Valid() && c.tables == map[] && c.freeBlocks == Range(c.maxBlocks)
  {
    c.Free(s);
    NoSequencesFullPool(c.maxBlocks, c.freeBlocks, c.tables, c.refcounts);
  }

  // A sequence fills the whole pool with a pair, and is freed.
  method FillPool<T>(c: PagedKVCache<T>, left: (T, T))
    requires c.Valid() && c.tables == map[]
    modifies c, c.store
    ensures c.Valid() && c.tables == map[] && StoreHolds(c, left)
  {
    Occupy(c, 1);
    FillPairs(c, 1, left);
    FreeLast(c, 1);
  }

  method WriteAndRead<T>(c: PagedKVCache<T>, s: int, left: (T, T), writes: seq<Write<T>>, layer: nat)
    returns (read: seq<(T, T)>)
    requires Alone(c, s, c.maxBlocks) && StoreHolds(c, left) && c.fill[s] == 0
    requires Within(writes, c.numLayers, c.maxBlocks * c.blockSize) && layer < c.numLayers
    modifies c, c.store
    ensures |read| == LevelAfter(writes, 0)
    ensures forall p: nat :: p < |read| ==> read[p] == Held(writes, layer, p, left)
  {
    forall p: nat | p < c.maxBlocks * c.blockSize ensures Reachable(c, s, layer, p) && PairAt(c, s, layer, p) == left {
      StoreFillsAllPairs(c, s, left, layer, p);
    }
    ApplyAll(c, s, writes, c.maxBlocks);
    read := ReadPairs(c, s, layer);
  }

  // Every gap can show residue: whatever positions a sequence is written at, on whatever layers, after
  // another sequence has filled the pool and been freed, a read of any layer returns the last pair
  // written at each position of the layer that was written, and the freed sequence's at each that was not.
  method ResidueAtEveryGap<T>(numLayers: nat, blockSize: nat, maxBlocks: nat, zero: T, left: (T, T),
                              writes: seq<Write<T>>, layer: nat)
    returns (read: seq<(T, T)>)
    requires blockSize > 0 && Within(writes, numLayers, maxBlocks * blockSize) && layer < numLayers
    ensures |read| == LevelAfter(writes, 0)
    ensures forall p: nat :: p < |read| ==>
              read[p] == match LastOf(writes, layer, p) case Some(pair) => pair case None => left
  {
    var c := new PagedKVCache<T>(numLayers, blockSize, maxBlocks, zero);
    FillPool(c, left);
    Occupy(c, 2);
    read := WriteAndRead(c, 2, left, writes, layer);
  }

  // In one block of two slots, the second of which is written.
  method ResidueIsRead<T>(zero: T, left: (T, T), own: (T, T)) returns (read: seq<(T, T)>)
    ensures read == [left, own]
  {
    var writes := [Write(0, 1, own)];
    assert writes[..0] == [];
    read := ResidueAtEveryGap(1, 2, 1, zero, left, writes, 0);
    assert LastOf(writes, 0, 1) == Some(own) && LastOf(writes, 0, 0) == None;
  }
}
