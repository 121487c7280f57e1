// The paged key/value cache: block tables over one shared physical store, with
// reference counts and copy-on-write.
module KvCache {
  import opened Collections
  import opened KvHistory
  import opened Outcomes

  // ----- block accounting, on values -----

  type Tables = map<int, seq<nat>>

  function CountOf(refcounts: map<nat, nat>, b: nat): nat {
    if b in refcounts then refcounts[b] else 0
  }

  function Holders(tables: Tables, b: nat): set<int> {
    set s | s in tables && b in tables[s]
  }

  function SetAt(blocks: seq<nat>, j: nat, b: nat): seq<nat>
    requires j < |blocks|
  {
    blocks[j := b]
  }

  // A block's reference count is the number of sequences whose table contains it, no table repeats
  // a block, and the free blocks are exactly those without a holder.
  ghost predicate Accounting(maxBlocks: nat, free: set<nat>, tables: Tables, refcounts: map<nat, nat>) {
    && (forall s :: s in tables ==> Distinct(tables[s]))
    && (forall s, b: nat :: s in tables && b in tables[s] ==> b in refcounts)
    && (forall b: nat :: b in refcounts ==> b < maxBlocks && refcounts[b] == |Holders(tables, b)| > 0)
    && (forall b: nat :: b in free <==> b < maxBlocks && b !in refcounts)
  }

  lemma UniqueHolder(tables: Tables, b: nat, s: int, t: int)
    requires |Holders(tables, b)| == 1
    requires s in tables && b in tables[s]
    requires t in tables && b in tables[t]
    ensures s == t
  {
    var h := Holders(tables, b);
    assert s in h && t in h;
    assert |h - {s}| == 0;
    assert t in h - {s} <==> t != s;
  }

  lemma PositiveHolders(tables: Tables, b: nat, s: int)
    requires s in tables && b in tables[s]
    ensures |Holders(tables, b)| > 0
  {
    assert s in Holders(tables, b);
  }

  // Giving a new sequence `added` adds one holder to exactly these blocks.
  lemma HoldersAdd(tables: Tables, s: int, added: seq<nat>, b: nat)
    requires s !in tables
    ensures |Holders(tables[s := added], b)| == |Holders(tables, b)| + (if b in added then 1 else 0)
  {
    var after := Holders(tables[s := added], b);
    if b in added {
      assert after == Holders(tables, b) + {s};
    } else {
      assert after == Holders(tables, b);
    }
  }

  lemma HoldersRemove(tables: Tables, s: int, b: nat)
    requires s in tables
    ensures |Holders(tables - {s}, b)| == |Holders(tables, b)| - (if b in tables[s] then 1 else 0)
  {
    var after := Holders(tables - {s}, b);
    if b in tables[s] {
      assert s in Holders(tables, b);
      assert after == Holders(tables, b) - {s};
    } else {
      assert after == Holders(tables, b);
    }
  }

  // Freeing every sequence gives the whole pool back.
  lemma NoSequencesFullPool(maxBlocks: nat, free: set<nat>, tables: Tables, refcounts: map<nat, nat>)
    requires Accounting(maxBlocks, free, tables, refcounts) && tables == map[]
    ensures free == Range(maxBlocks) && refcounts == map[]
  {
    forall b: nat ensures b !in refcounts {
      assert Holders(tables, b) == {};
    }
  }

  // Free and counted blocks partition the pool.
  lemma PoolPartition(maxBlocks: nat, free: set<nat>, tables: Tables, refcounts: map<nat, nat>)
    requires Accounting(maxBlocks, free, tables, refcounts)
    ensures free !! refcounts.Keys
    ensures free + refcounts.Keys == Range(maxBlocks)
    ensures |free| + |refcounts| == maxBlocks
  {
    assert free + refcounts.Keys == Range(maxBlocks);
    assert |free + refcounts.Keys| == |free| + |refcounts.Keys|;
  }

  lemma AccountingAdd(maxBlocks: nat, free: set<nat>, tables: Tables, refcounts: map<nat, nat>,
                      s: int, added: seq<nat>, free': set<nat>, refcounts': map<nat, nat>)
    requires Accounting(maxBlocks, free, tables, refcounts)
    requires s !in tables && Distinct(added)
    requires forall b: nat :: b in added ==> b in free || b in refcounts
    requires forall b: nat :: b in free' <==> b in free && b !in added
    requires forall b: nat :: b in refcounts' <==> b in refcounts || b in added
    requires forall b: nat :: b in refcounts' ==>
               refcounts'[b] == CountOf(refcounts, b) + (if b in added then 1 else 0)
    ensures Accounting(maxBlocks, free', tables[s := added], refcounts')
  {
    var tables' := tables[s := added];
    forall b: nat | b in refcounts' ensures b < maxBlocks && refcounts'[b] == |Holders(tables', b)| > 0 {
      HoldersAdd(tables, s, added, b);
      NotCountedNotHeld(maxBlocks, free, tables, refcounts, b);
    }
  }

  lemma NotCountedNotHeld(maxBlocks: nat, free: set<nat>, tables: Tables, refcounts: map<nat, nat>, b: nat)
    requires Accounting(maxBlocks, free, tables, refcounts)
    ensures b !in refcounts ==> Holders(tables, b) == {}
  {
    forall s | s in Holders(tables, b) ensures b in refcounts {
    }
  }

  lemma AccountingRemove(maxBlocks: nat, free: set<nat>, tables: Tables, refcounts: map<nat, nat>,
                         s: int, free': set<nat>, refcounts': map<nat, nat>)
    requires Accounting(maxBlocks, free, tables, refcounts) && s in tables
    requires forall b: nat :: b in refcounts' <==> b in refcounts && !(b in tables[s] && refcounts[b] == 1)
    requires forall b: nat :: b in refcounts' ==> refcounts'[b] == refcounts[b] - (if b in tables[s] then 1 else 0)
    requires forall b: nat :: b in free' <==> b in free || (b in tables[s] && refcounts[b] == 1)
    ensures Accounting(maxBlocks, free', tables - {s}, refcounts')
  {
    var tables' := tables - {s};
    forall b: nat | b in refcounts' ensures refcounts'[b] == |Holders(tables', b)| > 0 {
      HoldersRemove(tables, s, b);
    }
    forall t, b: nat | t in tables' && b in tables'[t] ensures b in refcounts' {
      HoldersRemove(tables, s, b);
      PositiveHolders(tables', b, t);
    }
  }

  // Replacing a shared block of one table by a fresh one.
  lemma AccountingClone(maxBlocks: nat, free: set<nat>, tables: Tables, refcounts: map<nat, nat>,
                        s: int, j: nat, clone: nat)
    requires Accounting(maxBlocks, free, tables, refcounts)
    requires s in tables && j < |tables[s]| && refcounts[tables[s][j]] > 1 && clone in free
    ensures Accounting(maxBlocks, free - {clone}, tables[s := SetAt(tables[s], j, clone)],
                       refcounts[tables[s][j] := refcounts[tables[s][j]] - 1][clone := 1])
  {
    var row, row' := tables[s], SetAt(tables[s], j, clone);
    var old' := row[j];
    var rest := tables - {s};
    var tables' := tables[s := row'];
    var refcounts' := refcounts[old' := refcounts[old'] - 1][clone := 1];
    assert clone !in row;
    assert Distinct(row');
    assert tables' == rest[s := row'];
    forall b: nat ensures |Holders(tables', b)| ==
                     |Holders(tables, b)| - (if b in row then 1 else 0) + (if b in row' then 1 else 0)
    {
      HoldersRemove(tables, s, b);
      HoldersAdd(rest, s, row', b);
    }
    forall b: nat ensures b in row' <==> b == clone || (b in row && b != old') {
      RowUpdate(row, j, clone, b);
    }
    NotCountedNotHeld(maxBlocks, free, tables, refcounts, clone);
  }

  lemma RowUpdate(row: seq<nat>, j: nat, x: nat, b: nat)
    requires Distinct(row) && j < |row| && x !in row
    ensures b in row[j := x] <==> b == x || (b in row && b != row[j])
  {
    if b in row && b != row[j] {
      var i :| 0 <= i < |row| && row[i] == b;
      assert row[j := x][i] == b;
    }
    assert row[j := x][j] == x;
  }

  predicate Fits(tokens: nat, pages: nat, blockSize: nat) {
    tokens <= pages * blockSize
  }

  lemma NextBlock(i: nat, blockSize: nat)
    ensures (i + 1) * blockSize == i * blockSize + blockSize
  {
  }

  // ----- the cache -----

  class PagedKVCache<T> {
    const numLayers: nat
    const blockSize: nat
    const maxBlocks: nat
    const store: array4<T>   // [layer, 0 = key | 1 = value, physical block, slot]
    var freeBlocks: set<nat>
    var tables: Tables
    var refcounts: map<nat, nat>
    var fill: map<int, nat>
    ghost var log: seq<Event<T>>

    ghost predicate Shaped()
      reads this
    {
      && blockSize > 0
      && store.Length0 == numLayers && store.Length1 == 2
      && store.Length2 == maxBlocks && store.Length3 == blockSize
    }

    ghost predicate InRange(s: int, layer: nat, half: nat, page: nat, slot: nat)
      reads this
    {
      && s in tables && layer < numLayers && half < 2 && page < |tables[s]| && slot < blockSize
      && tables[s][page] < maxBlocks
    }

    // What sequence s holds at a position: its own view of the shared store.
    ghost function Cell(s: int, layer: nat, half: nat, page: nat, slot: nat): T
      requires Shaped() && InRange(s, layer, half, page, slot)
      reads this, store
    {
      store[layer, half, tables[s][page], slot]
    }

    ghost predicate Holds(s: int, layer: nat, page: nat, slot: nat, kv: (T, T))
      requires Shaped()
      reads this, store
    {
      && InRange(s, layer, 0, page, slot)
      && Cell(s, layer, 0, page, slot) == kv.0 && Cell(s, layer, 1, page, slot) == kv.1
    }

    // Every sequence holds what its history says was last written there.
    ghost predicate Faithful()
      requires Shaped()
      reads this, store
    {
      forall s, layer, page, slot :: LastWrite(log, s, layer, page, slot).Some? ==>
        Holds(s, layer, page, slot, LastWrite(log, s, layer, page, slot).value)
    }

    ghost predicate Consistent()
      reads this, store
    {
      && Shaped()
      && Accounting(maxBlocks, freeBlocks, tables, refcounts)
      && fill.Keys == tables.Keys
      && (forall s :: s in tables ==> Fits(fill[s], |tables[s]|, blockSize))
      && Faithful()
    }

    ghost predicate Valid()
      reads this, store
    {
      Consistent() && forall s :: s in tables ==> fill[s] == Level(log, s)
    }

    // Sequence s is still there, with the same length, fill and contents.
    twostate predicate ViewKept(s: int)
      requires old(Shaped()) && Shaped()
      reads this, store
    {
      && s in old(tables) && s in tables && |tables[s]| == |old(tables[s])|
      && s in old(fill) && s in fill && fill[s] == old(fill[s])
      && forall layer: nat, half: nat, page: nat, slot: nat ::
           old(InRange(s, layer, half, page, slot)) ==>
             InRange(s, layer, half, page, slot) &&
             Cell(s, layer, half, page, slot) == old(Cell(s, layer, half, page, slot))
    }

    // All of sequence s except one position, with keys and values alike.
    twostate predicate KeptExcept(s: int, layer: nat, page: nat, slot: nat)
      requires old(Shaped()) && Shaped()
      reads this, store
    {
      && s in old(tables) && s in tables && |tables[s]| == |old(tables[s])|
      && forall l: nat, half: nat, j: nat, o: nat ::
           old(InRange(s, l, half, j, o)) && (l, j, o) != (layer, page, slot) ==>
             InRange(s, l, half, j, o) && Cell(s, l, half, j, o) == old(Cell(s, l, half, j, o))
    }

    constructor (numLayers: nat, blockSize: nat, maxBlocks: nat, zero: T)
      requires blockSize > 0
      ensures Valid() && fresh(store)
      ensures this.numLayers == numLayers && this.blockSize == blockSize && this.maxBlocks == maxBlocks
      ensures tables == map[] && log == [] && freeBlocks == Range(maxBlocks)
    {
      this.numLayers, this.blockSize, this.maxBlocks := numLayers, blockSize, maxBlocks;
      store := new T[numLayers, 2, maxBlocks, blockSize]((_, _, _, _) => zero);
      freeBlocks := Range(maxBlocks);
      tables, refcounts, fill := map[], map[], map[];
      log := [];
    }

    // Sequences other than s keep their views, and s starts or ends without any content.
    twostate lemma FaithfulElsewhere(new s: int, new e: Event<T>)
      requires old(Shaped()) && Shaped() && old(Faithful())
      requires (e == Allocated(s) || e == Freed(s)) && log == old(log) + [e]
      requires forall t :: t in old(tables) && t != s ==> ViewKept(t)
      ensures Faithful()
    {
      forall t, layer: nat, page: nat, slot: nat | LastWrite(log, t, layer, page, slot).Some?
        ensures Holds(t, layer, page, slot, LastWrite(log, t, layer, page, slot).value)
      {
        LastWriteStep(old(log), e, t, layer, page, slot);
        assert old(Holds(t, layer, page, slot, LastWrite(log, t, layer, page, slot).value));
      }
    }

    twostate lemma LevelsKept(new e: Event<T>)
      requires old(fill).Keys == old(tables).Keys && fill.Keys == tables.Keys
      requires forall s :: s in old(tables) ==> old(fill)[s] == Level(old(log), s)
      requires log == old(log) + [e]
      requires forall s :: s in tables && s != e.seqId ==> s in old(tables) && fill[s] == old(fill)[s]
      requires e.seqId in tables ==> fill[e.seqId] == Level(old(log) + [e], e.seqId)
      ensures forall s :: s in tables ==> fill[s] == Level(log, s)
    {
      forall s | s in tables ensures fill[s] == Level(log, s) {
        LevelStep(old(log), e, s);
      }
    }

    method TakeBlocks(numBlocks: int) returns (blocks: seq<nat>)
      requires numBlocks <= |freeBlocks|
      requires forall b: nat :: b in freeBlocks ==> b !in refcounts
      modifies this`freeBlocks, this`refcounts
      ensures |blocks| == (if numBlocks > 0 then numBlocks else 0) && Distinct(blocks)
      ensures forall b: nat :: b in freeBlocks <==> b in old(freeBlocks) && b !in blocks
      ensures forall b: nat :: b in blocks ==> b in old(freeBlocks)
      ensures forall b: nat :: b in refcounts <==> b in old(refcounts) || b in blocks
      ensures forall b: nat :: b in refcounts ==> refcounts[b] == if b in blocks then 1 else old(refcounts)[b]
    {
      blocks := [];
      while |blocks| < numBlocks
        invariant |blocks| <= if numBlocks > 0 then numBlocks else 0
        invariant Distinct(blocks)
        invariant |freeBlocks| + |blocks| == |old(freeBlocks)|
        invariant forall b: nat :: b in freeBlocks <==> b in old(freeBlocks) && b !in blocks
        invariant forall b: nat :: b in blocks ==> b in old(freeBlocks)
        invariant forall b: nat :: b in refcounts <==> b in old(refcounts) || b in blocks
        invariant forall b: nat :: b in refcounts ==> refcounts[b] == if b in blocks then 1 else old(refcounts)[b]
      {
        var b :| b in freeBlocks;
        freeBlocks := freeBlocks - {b};
        blocks := blocks + [b];
        refcounts := refcounts[b := CountOf(refcounts, b) + 1];
      }
    }

    method Allocate(seqId: int, numTokens: int) returns (r: Result<seq<nat>>)
      requires Valid()
      modifies this
      ensures Valid()
      ensures r == Err(ValueError) <==> seqId in old(tables)
      ensures r == Err(MemoryError) <==>
                seqId !in old(tables) && CeilDiv(numTokens, blockSize) > |old(freeBlocks)|
      ensures r.Err? ==> (r == Err(ValueError) || r == Err(MemoryError)) && unchanged(this)
      ensures r.Ok? ==>
                && tables == old(tables)[seqId := r.value]
                && numTokens <= |r.value| * blockSize
                && |r.value| == (if numTokens <= 0 then 0 else CeilDiv(numTokens, blockSize))
                && (forall b: nat :: b in r.value ==> b in old(freeBlocks))
                && fill == old(fill)[seqId := 0]
                && log == old(log) + [Allocated(seqId)]
      ensures forall s :: s in old(tables) ==> ViewKept(s)
    {
      if seqId in tables {
        return Err(ValueError);
      }
      var numBlocks := CeilDiv(numTokens, blockSize);
      CeilDivIs(numTokens, blockSize, numBlocks);
      CeilDivIs(numTokens, blockSize, 0);
      if numBlocks > |freeBlocks| {
        return Err(MemoryError);
      }
      var blocks := TakeBlocks(numBlocks);
      AccountingAdd(maxBlocks, old(freeBlocks), old(tables), old(refcounts), seqId, blocks, freeBlocks, refcounts);
      tables := tables[seqId := blocks];
      fill := fill[seqId := 0];
      log := log + [Allocated(seqId)];
      FaithfulElsewhere(seqId, Allocated(seqId));
      LevelsKept(Allocated(seqId));
      return Ok(blocks);
    }

    method Free(seqId: int)
      requires Valid()
      modifies this
      ensures Valid()
      ensures seqId !in old(tables) ==> unchanged(this)
      ensures tables == old(tables) - {seqId} && fill == old(fill) - {seqId}
      ensures seqId in old(tables) ==> log == old(log) + [Freed(seqId)]
      ensures forall s :: s in old(tables) && s != seqId ==> ViewKept(s)
    {
      if seqId !in tables {
        assert tables == old(tables) - {seqId} && fill == old(fill) - {seqId};
        return;
      }
      ReleaseBlocks(tables[seqId]);
      AccountingRemove(maxBlocks, old(freeBlocks), old(tables), old(refcounts), seqId, freeBlocks, refcounts);
      tables := tables - {seqId};
      fill := fill - {seqId};
      log := log + [Freed(seqId)];
      FaithfulElsewhere(seqId, Freed(seqId));
      LevelsKept(Freed(seqId));
    }

    // One holder fewer; without holders the block is free.
    method DropHolder(b: nat)
      requires b in refcounts && refcounts[b] > 0
      modifies this`freeBlocks, this`refcounts
      ensures refcounts == if old(refcounts)[b] == 1 then old(refcounts) - {b}
              else old(refcounts)[b := old(refcounts)[b] - 1]
      ensures freeBlocks == if old(refcounts)[b] == 1 then old(freeBlocks) + {b} else old(freeBlocks)
    {
      refcounts := refcounts[b := refcounts[b] - 1];
      if refcounts[b] == 0 {
        freeBlocks := freeBlocks + {b};
        refcounts := refcounts - {b};
      }
    }

    method ReleaseBlocks(blocks: seq<nat>)
      requires Distinct(blocks)
      requires forall b: nat :: b in blocks ==> b in refcounts && refcounts[b] > 0
      modifies this`freeBlocks, this`refcounts
      ensures forall b: nat :: b in refcounts <==> b in old(refcounts) && !(b in blocks && old(refcounts)[b] == 1)
      ensures forall b: nat :: b in refcounts ==> refcounts[b] == old(refcounts)[b] - (if b in blocks then 1 else 0)
      ensures forall b: nat :: b in freeBlocks <==>
                b in old(freeBlocks) || (b in blocks && old(refcounts)[b] == 1)
    {
      for i := 0 to |blocks|
        invariant forall b: nat :: b in refcounts <==>
                  b in old(refcounts) && !(b in blocks[..i] && old(refcounts)[b] == 1)
        invariant forall b: nat :: b in refcounts ==>
                  refcounts[b] == old(refcounts)[b] - (if b in blocks[..i] then 1 else 0)
        invariant forall b: nat :: b in freeBlocks <==>
                    b in old(freeBlocks) || (b in blocks[..i] && old(refcounts)[b] == 1)
      {
        var b := blocks[i];
        assert b !in blocks[..i];
        assert forall c: nat :: c in blocks[..i + 1] <==> c in blocks[..i] || c == b;
        DropHolder(b);
      }
      assert blocks[..|blocks|] == blocks;
    }

    method CountOneMore(blocks: seq<nat>)
      requires Distinct(blocks)
      requires forall b: nat :: b in blocks ==> b in refcounts
      modifies this`refcounts
      ensures forall b: nat :: b in refcounts <==> b in old(refcounts)
      ensures forall b: nat :: b in refcounts ==>
                refcounts[b] == old(refcounts)[b] + (if b in blocks then 1 else 0)
    {
      for i := 0 to |blocks|
        invariant forall b: nat :: b in refcounts <==> b in old(refcounts)
        invariant forall b: nat :: b in refcounts ==>
                    refcounts[b] == old(refcounts)[b] + (if b in blocks[..i] then 1 else 0)
      {
        assert blocks[i] !in blocks[..i];
        assert forall c: nat :: c in blocks[..i + 1] <==> c in blocks[..i] || c == blocks[i];
        refcounts := refcounts[blocks[i] := refcounts[blocks[i]] + 1];
      }
      assert blocks[..|blocks|] == blocks;
    }

    twostate lemma FaithfulShare(new source: int, new s: int, new tokens: nat, new pages: nat)
      requires old(Shaped()) && Shaped() && old(Faithful())
      requires source in old(tables) && s !in old(tables) && pages <= |old(tables)[source]|
      requires tables == old(tables)[s := old(tables)[source][..pages]]
      requires log == old(log) + [Shared(source, s, tokens, pages)]
      requires forall t :: t in old(tables) ==> ViewKept(t)
      ensures Faithful()
    {
      forall t, layer: nat, page: nat, slot: nat | LastWrite(log, t, layer, page, slot).Some?
        ensures Holds(t, layer, page, slot, LastWrite(log, t, layer, page, slot).value)
      {
        LastWriteStep(old(log), Shared(source, s, tokens, pages), t, layer, page, slot);
        var kv := LastWrite(log, t, layer, page, slot).value;
        assert old(Holds(if t == s then source else t, layer, page, slot, kv));
      }
    }

    method ShareBlocks(source: int, seqId: int, pages: nat)
      requires Accounting(maxBlocks, freeBlocks, tables, refcounts)
      requires source in tables && seqId !in tables && pages <= |tables[source]|
      modifies this`tables, this`refcounts
      ensures Accounting(maxBlocks, freeBlocks, tables, refcounts)
      ensures tables == old(tables)[seqId := old(tables)[source][..pages]]
    {
      var shared := tables[source][..pages];
      CountOneMore(shared);
      AccountingAdd(maxBlocks, freeBlocks, tables, old(refcounts), seqId, shared, freeBlocks, refcounts);
      tables := tables[seqId := shared];
    }

    // seqId comes into being on the first blocks of source.
    method Attach(source: int, seqId: int, tokens: nat, pages: nat)
      requires Valid() && source in tables && seqId !in tables && pages <= |tables[source]|
      requires Fits(tokens, pages, blockSize)
      modifies this`tables, this`refcounts, this`fill, this`log
      ensures Valid()
      ensures tables == old(tables)[seqId := old(tables)[source][..pages]] && fill == old(fill)[seqId := tokens]
      ensures log == old(log) + [Shared(source, seqId, tokens, pages)]
    {
      hide Fits, Accounting;
      ShareBlocks(source, seqId, pages);
      fill := fill[seqId := tokens];
      log := log + [Shared(source, seqId, tokens, pages)];
      FaithfulShare(source, seqId, tokens, pages);
      LevelsKept(Shared(source, seqId, tokens, pages));
    }

    method SharePrefix(source: int, seqId: int, numSharedTokens: int) returns (r: Result<seq<nat>>)
      requires Valid()
      modifies this
      ensures Valid()
      ensures r == Err(KeyError) <==> source !in old(tables)
      ensures r == Err(ValueError) <==>
                && source in old(tables)
                && (seqId in old(tables) || numSharedTokens < 0 || numSharedTokens > |old(tables)[source]| * blockSize)
      ensures r.Err? ==> (r == Err(KeyError) || r == Err(ValueError)) && unchanged(this)
      ensures r.Ok? ==>
                && r.value <= old(tables)[source] && |r.value| == CeilDiv(numSharedTokens, blockSize)
                && tables == old(tables)[seqId := r.value]
                && freeBlocks == old(freeBlocks)
                && fill == old(fill)[seqId := numSharedTokens]
                && log == old(log) + [Shared(source, seqId, numSharedTokens, |r.value|)]
      ensures forall s :: s in old(tables) ==> ViewKept(s)
      ensures r.Ok? ==> forall layer: nat, half: nat, page: nat, slot: nat ::
                InRange(seqId, layer, half, page, slot) ==>
                  old(InRange(source, layer, half, page, slot)) &&
                  Cell(seqId, layer, half, page, slot) == old(Cell(source, layer, half, page, slot))
    {
      if source !in tables {
        return Err(KeyError);
      }
      if seqId in tables {
        return Err(ValueError);
      }
      if numSharedTokens < 0 {
        return Err(ValueError);
      }
      var sourceBlocks := tables[source];
      var numSharedBlocks := CeilDiv(numSharedTokens, blockSize);
      CeilDivIs(numSharedTokens, blockSize, |sourceBlocks|);
      CeilDivIs(numSharedTokens, blockSize, numSharedBlocks);
      CeilDivIs(numSharedTokens, blockSize, -1);
      if numSharedBlocks > |sourceBlocks| {
        return Err(ValueError);
      }
      var shared := sourceBlocks[..numSharedBlocks];
      Attach(source, seqId, numSharedTokens, numSharedBlocks);
      return Ok(shared);
    }

    // All layers, keys and values, of one block.
    method CopyBlock(from: nat, to: nat)
      requires Shaped() && from < maxBlocks && to < maxBlocks
      modifies store
      ensures forall layer: nat, half: nat, b: nat, slot: nat ::
                layer < numLayers && half < 2 && b < maxBlocks && slot < blockSize ==>
                  store[layer, half, b, slot] == old(store[layer, half, if b == to then from else b, slot])
    {
      forall layer, half, slot | 0 <= layer < numLayers && 0 <= half < 2 && 0 <= slot < blockSize {
        store[layer, half, to, slot] := store[layer, half, from, slot];
      }
    }

    // Give seqId a private copy of a page it shares. Nobody's view changes.
    method CowClone(seqId: int, page: nat) returns (r: Result<nat>)
      requires Valid()
      requires seqId in tables && page < |tables[seqId]| && refcounts[tables[seqId][page]] > 1
      modifies this, store
      ensures Valid()
      ensures r == Err(MemoryError) <==> old(freeBlocks) == {}
      ensures r.Err? ==> r == Err(MemoryError) && unchanged(this) && unchanged(store)
      ensures r.Ok? ==>
                && r.value in old(freeBlocks) && freeBlocks == old(freeBlocks) - {r.value}
                && tables == old(tables)[seqId := SetAt(old(tables)[seqId], page, r.value)]
                && r.value in refcounts && refcounts[r.value] == 1
                && fill == old(fill) && log == old(log)
      ensures forall s :: s in old(tables) ==> ViewKept(s)
    {
      if freeBlocks == {} {
        return Err(MemoryError);
      }
      var oldPhysical := tables[seqId][page];
      var newPhysical :| newPhysical in freeBlocks;
      CopyBlock(oldPhysical, newPhysical);
      Rehome(seqId, page, newPhysical);
      hide Accounting;
      CloneKeepsViews(seqId, page, newPhysical);
      FaithfulKept();
      return Ok(newPhysical);
    }

    // One page of seqId moves from a shared block to a free one.
    method Rehome(seqId: int, page: nat, newPhysical: nat)
      requires Accounting(maxBlocks, freeBlocks, tables, refcounts) && newPhysical in freeBlocks
      requires seqId in tables && page < |tables[seqId]| && refcounts[tables[seqId][page]] > 1
      modifies this`freeBlocks, this`refcounts, this`tables
      ensures Accounting(maxBlocks, freeBlocks, tables, refcounts)
      ensures freeBlocks == old(freeBlocks) - {newPhysical}
      ensures tables == old(tables)[seqId := SetAt(old(tables)[seqId], page, newPhysical)]
      ensures newPhysical in refcounts && refcounts[newPhysical] == 1
    {
      AccountingClone(maxBlocks, freeBlocks, tables, refcounts, seqId, page, newPhysical);
      var oldPhysical := tables[seqId][page];
      freeBlocks := freeBlocks - {newPhysical};
      DropHolder(oldPhysical);
      refcounts := refcounts[newPhysical := CountOf(refcounts, newPhysical) + 1];
      tables := tables[seqId := SetAt(tables[seqId], page, newPhysical)];
    }

    twostate lemma CloneKeepsViews(new seqId: int, new page: nat, new clone: nat)
      requires old(Shaped()) && Shaped() && old(Accounting(maxBlocks, freeBlocks, tables, refcounts))
      requires seqId in old(tables) && page < |old(tables)[seqId]| && clone in old(freeBlocks)
      requires old(tables)[seqId][page] < maxBlocks
      requires tables == old(tables)[seqId := SetAt(old(tables)[seqId], page, clone)] && fill == old(fill)
      requires old(fill).Keys == old(tables).Keys
      requires forall layer: nat, half: nat, b: nat, slot: nat ::
                layer < numLayers && half < 2 && b < maxBlocks && slot < blockSize ==>
                  store[layer, half, b, slot] ==
                      old(store[layer, half, if b == clone then tables[seqId][page] else b, slot])
      ensures forall s :: s in old(tables) ==> ViewKept(s)
    {
      forall s, layer: nat, half: nat, j: nat, slot: nat | old(InRange(s, layer, half, j, slot))
        ensures InRange(s, layer, half, j, slot) && Cell(s, layer, half, j, slot) == old(Cell(s, layer, half, j, slot))
      {
        assert old(tables)[s][j] in old(tables)[s];
        assert old(tables)[s][j] != clone;
      }
    }

    twostate lemma FaithfulKept()
      requires old(Shaped()) && Shaped() && old(Faithful()) && log == old(log)
      requires forall t :: t in old(tables) ==> ViewKept(t)
      ensures Faithful()
    {
      forall t, layer: nat, page: nat, slot: nat | LastWrite(log, t, layer, page, slot).Some?
        ensures Holds(t, layer, page, slot, LastWrite(log, t, layer, page, slot).value)
      {
        assert old(Holds(t, layer, page, slot, LastWrite(log, t, layer, page, slot).value));
      }
    }

    // Store a pair in a block that only seqId holds.
    method Store(seqId: int, layer: nat, tokenPos: int, page: nat, slot: nat, key: T, value: T)
      requires Consistent()
      requires InRange(seqId, layer, 0, page, slot) && refcounts[tables[seqId][page]] == 1
      modifies store, this`log
      ensures Consistent() && log == old(log) + [Written(seqId, layer, tokenPos, page, slot, key, value)]
      ensures Holds(seqId, layer, page, slot, (key, value))
      ensures forall s :: s in tables && s != seqId ==> ViewKept(s)
      ensures KeptExcept(seqId, layer, page, slot)
    {
      var physical := tables[seqId][page];
      forall s, j: nat | s in tables && j < |tables[s]| && tables[s][j] == physical ensures s == seqId && j == page {
        assert physical in tables[s] && physical in tables[seqId];
        UniqueHolder(tables, physical, seqId, s);
      }
      store[layer, 0, physical, slot] := key;
      store[layer, 1, physical, slot] := value;
      log := log + [Written(seqId, layer, tokenPos, page, slot, key, value)];
      forall t, l: nat, j: nat, o: nat | LastWrite(log, t, l, j, o).Some?
        ensures Holds(t, l, j, o, LastWrite(log, t, l, j, o).value)
      {
        LastWriteStep(old(log), Written(seqId, layer, tokenPos, page, slot, key, value), t, l, j, o);
        if t != seqId || (l, j, o) != (layer, page, slot) {
          assert old(Holds(t, l, j, o, LastWrite(log, t, l, j, o).value));
        }
      }
    }

    // Make seqId the only holder of one of its pages.
    method OwnPage(seqId: int, page: nat) returns (r: Result<()>)
      requires Valid() && seqId in tables && page < |tables[seqId]|
      modifies this, store
      ensures Valid() && log == old(log) && fill == old(fill) && tables.Keys == old(tables).Keys
      ensures old(tables)[seqId][page] in old(refcounts)
      ensures r.Ok? <==> old(refcounts)[old(tables)[seqId][page]] == 1 || old(freeBlocks) != {}
      ensures r.Err? ==> r == Err(MemoryError) && unchanged(this) && unchanged(store)
      ensures r.Ok? ==> |tables[seqId]| == |old(tables)[seqId]|
      ensures r.Ok? ==> tables[seqId][page] in refcounts && refcounts[tables[seqId][page]] == 1
      ensures forall s :: s in old(tables) ==> ViewKept(s)
    {
      var physical := tables[seqId][page];
      assert physical in tables[seqId];
      if refcounts[physical] > 1 {
        var clone := CowClone(seqId, page);
        if clone.Err? {
          return Err(clone.error);
        }
      }
      return Ok(());
    }

    // A position's page is tokenPos / blockSize, counted from the end of the table if it is negative, as
    // Python's floor division and negative list indices have it; so is the layer.
    method Write(seqId: int, layer: int, tokenPos: int, key: T, value: T) returns (r: Result<()>)
      requires Valid()
      modifies this, store
      ensures Valid() && tables.Keys == old(tables).Keys
      ensures seqId !in old(tables) ==> r == Err(KeyError) && unchanged(this) && unchanged(store)
      ensures seqId in old(tables) ==>
                var q, n := tokenPos / blockSize, |old(tables)[seqId]|;
                if !(-n <= q < n) then r == Err(IndexError) && unchanged(this) && unchanged(store)
                else
                  var page, slot := if q < 0 then q + n else q, tokenPos % blockSize;
                  if CountOf(old(refcounts), old(tables)[seqId][page]) > 1 && old(freeBlocks) == {} then
                    r == Err(MemoryError) && unchanged(this) && unchanged(store)
                  else if layer >= numLayers || layer + numLayers < 0 then
                    r == Err(IndexError) && log == old(log) && ViewKept(seqId)
                  else
                    var l := if layer < 0 then layer + numLayers else layer;
                    && r == Ok(()) && |tables[seqId]| == n
                    && Holds(seqId, l, page, slot, (key, value)) && KeptExcept(seqId, l, page, slot)
                    && log == old(log) + [Written(seqId, l, tokenPos, page, slot, key, value)]
                    && (tokenPos >= 0 ==>
                          && log == old(log) + [WriteAt(blockSize, seqId, l, tokenPos, (key, value))]
                          && At(log, blockSize, seqId, l, tokenPos) == Some((key, value)))
                    && fill == old(fill)[seqId := if tokenPos + 1 > old(fill)[seqId] then tokenPos + 1
                         else old(fill)[seqId]]
      ensures forall s :: s in old(tables) && s != seqId ==> ViewKept(s)
    {
      if seqId !in tables {
        return Err(KeyError);
      }
      var logicalBlock, slot := tokenPos / blockSize, tokenPos % blockSize;
      if logicalBlock >= |tables[seqId]| {
        return Err(IndexError);
      }
      var index := PyIndex(logicalBlock, |tables[seqId]|);
      if index.None? {
        return Err(IndexError);
      }
      hide Holds, KeptExcept, ViewKept, Accounting, Faithful, LastWrite;
      NegativePage(tokenPos, blockSize);
      r := StoreAt(seqId, layer, index.value, slot, tokenPos, key, value);
    }

    lemma PageIsBlock(seqId: int, page: nat)
      requires Valid() && seqId in tables && page < |tables[seqId]|
      ensures tables[seqId][page] < maxBlocks && CountOf(refcounts, tables[seqId][page]) >= 1
    {
      assert tables[seqId][page] in tables[seqId];
      assert tables[seqId][page] in refcounts;
    }

    // The rest of write: the page is made seqId's own before the layer is looked at.
    method StoreAt(seqId: int, layer: int, page: nat, slot: nat, tokenPos: int, key: T, value: T)
      returns (r: Result<()>)
      requires Valid() && seqId in tables && page < |tables[seqId]| && slot < blockSize
      requires tokenPos / blockSize < |tables[seqId]|
      modifies this, store
      ensures Valid() && tables.Keys == old(tables).Keys && |tables[seqId]| == |old(tables)[seqId]|
      ensures if CountOf(old(refcounts), old(tables)[seqId][page]) > 1 && old(freeBlocks) == {} then
                r == Err(MemoryError) && unchanged(this) && unchanged(store)
              else if PyIndex(layer, numLayers).None? then
                r == Err(IndexError) && log == old(log) && ViewKept(seqId)
              else
                var l := PyIndex(layer, numLayers).value;
                && r == Ok(()) && log == old(log) + [Written(seqId, l, tokenPos, page, slot, key, value)]
                && LastWrite(log, seqId, l, page, slot) == Some((key, value))
                && fill == old(fill)[seqId := if tokenPos + 1 > old(fill)[seqId] then tokenPos + 1
                     else old(fill)[seqId]]
                && Holds(seqId, l, page, slot, (key, value)) && KeptExcept(seqId, l, page, slot)
      ensures forall s :: s in old(tables) && s != seqId ==> ViewKept(s)
    {
      PageIsBlock(seqId, page);
      hide Accounting, Faithful, LastWrite, Level, Fits;
      var owned := OwnPage(seqId, page);
      if owned.Err? {
        return Err(owned.error);
      }
      var l := PyIndex(layer, numLayers);
      if l.None? {
        return Err(IndexError);
      }
      PageIsBlock(seqId, page);
      Put(seqId, l.value, page, slot, tokenPos, key, value);
      LastWriteStep(old(log), Written(seqId, l.value, tokenPos, page, slot, key, value), seqId, l.value, page, slot);
      return Ok(());
    }

    method Put(seqId: int, layer: nat, page: nat, slot: nat, tokenPos: int, key: T, value: T)
      requires Valid()
      requires InRange(seqId, layer, 0, page, slot) && refcounts[tables[seqId][page]] == 1
      requires tokenPos / blockSize < |tables[seqId]|
      modifies store, this`log, this`fill
      ensures Valid() && log == old(log) + [Written(seqId, layer, tokenPos, page, slot, key, value)]
      ensures fill == old(fill)[seqId := if tokenPos + 1 > old(fill)[seqId] then tokenPos + 1 else old(fill)[seqId]]
      ensures Holds(seqId, layer, page, slot, (key, value)) && KeptExcept(seqId, layer, page, slot)
      ensures forall s :: s in tables && s != seqId ==> ViewKept(s)
    {
      Store(seqId, layer, tokenPos, page, slot, key, value);
      AdvanceFill(seqId, tokenPos);
      LevelStep(old(log), Written(seqId, layer, tokenPos, page, slot, key, value), seqId);
      LevelsKept(Written(seqId, layer, tokenPos, page, slot, key, value));
    }

    method AdvanceFill(seqId: int, tokenPos: int)
      requires Consistent() && seqId in tables && tokenPos / blockSize < |tables[seqId]|
      modifies this`fill
      ensures Consistent()
      ensures fill == old(fill)[seqId := if tokenPos + 1 > old(fill)[seqId] then tokenPos + 1 else old(fill)[seqId]]
    {
      var newFill := tokenPos + 1;
      PositionInTable(tokenPos, blockSize, |tables[seqId]|);
      if newFill > fill[seqId] {
        fill := fill[seqId := newFill];
      }
    }

    // All tokens of a sequence at one layer, up to its fill level: the concatenated prefixes of its
    // blocks. A layer index out of range is noticed when the first block is read.
    method Read(seqId: int, layer: int) returns (r: Result<(seq<T>, seq<T>)>)
      requires Valid()
      ensures r == Err(KeyError) <==> seqId !in tables
      ensures r == Err(IndexError) <==> seqId in tables && fill[seqId] > 0 && PyIndex(layer, numLayers).None?
      ensures r.Err? ==> r == Err(KeyError) || r == Err(IndexError)
      ensures r.Ok? ==> |r.value.0| == |r.value.1| == fill[seqId]
      ensures r.Ok? && fill[seqId] > 0 ==> PyIndex(layer, numLayers).Some?
      ensures r.Ok? ==> forall p: nat :: p < fill[seqId] ==>
                && InRange(seqId, PyIndex(layer, numLayers).value, 0, p / blockSize, p % blockSize)
                && r.value.0[p] == Cell(seqId, PyIndex(layer, numLayers).value, 0, p / blockSize, p % blockSize)
                && r.value.1[p] == Cell(seqId, PyIndex(layer, numLayers).value, 1, p / blockSize, p % blockSize)
      ensures r.Ok? ==> forall p: nat :: p < fill[seqId] ==>
                var last := At(log, blockSize, seqId, PyIndex(layer, numLayers).value, p);
                last.Some? ==> (r.value.0[p], r.value.1[p]) == last.value
      ensures r.Ok? ==> fill[seqId] == Level(log, seqId)
      ensures r.Ok? && fill[seqId] > 0 && NoGaps(log, blockSize, seqId, PyIndex(layer, numLayers).value) ==>
                forall p: nat :: p < fill[seqId] ==>
                  At(log, blockSize, seqId, PyIndex(layer, numLayers).value, p) == Some((r.value.0[p], r.value.1[p]))
    {
      if seqId !in tables {
        return Err(KeyError);
      }
      var l := PyIndex(layer, numLayers);
      var table := tables[seqId];
      var remaining: int := fill[seqId];
      var ks, vs := [], [];
      var i := 0;
      while i < |table| && remaining > 0
        invariant 0 <= i <= |table| && |ks| == |vs| && |ks| + remaining == fill[seqId]
        invariant remaining > 0 ==> |ks| == i * blockSize
        invariant remaining >= 0
        invariant |ks| > 0 ==> l.Some?
        invariant l.Some? ==> Gathered(seqId, l.value, 0, ks) && Gathered(seqId, l.value, 1, vs)
      {
        if l.None? {
          return Err(IndexError);
        }
        var tokensInBlock := if remaining < blockSize then remaining else blockSize;
        var chunkK := ReadSlots(seqId, l.value, 0, i, tokensInBlock);
        var chunkV := ReadSlots(seqId, l.value, 1, i, tokensInBlock);
        GatherMore(seqId, l.value, 0, ks, i, chunkK);
        GatherMore(seqId, l.value, 1, vs, i, chunkV);
        NextBlock(i, blockSize);
        ks := ks + chunkK;
        vs := vs + chunkV;
        remaining := remaining - tokensInBlock;
        i := i + 1;
      }
      assert remaining > 0 ==> |ks| + remaining > |table| * blockSize;
      if l.Some? {
        GatheredLastWrites(seqId, l.value, ks, vs);
      }
      return Ok((ks, vs));
    }

    // values[p] is what position p of the sequence holds.
    ghost predicate Gathered(seqId: int, layer: nat, half: nat, values: seq<T>)
      requires Shaped()
      reads this, store
    {
      forall p: nat :: p < |values| ==>
        && InRange(seqId, layer, half, p / blockSize, p % blockSize)
        && values[p] == Cell(seqId, layer, half, p / blockSize, p % blockSize)
    }

    lemma GatherMore(seqId: int, layer: nat, half: nat, values: seq<T>, page: nat, chunk: seq<T>)
      requires Shaped() && Gathered(seqId, layer, half, values)
      requires |values| == page * blockSize && |chunk| <= blockSize
      requires forall o: nat :: o < |chunk| ==>
                 InRange(seqId, layer, half, page, o) && chunk[o] == Cell(seqId, layer, half, page, o)
      ensures Gathered(seqId, layer, half, values + chunk)
    {
      forall p: nat | p < |values + chunk|
        ensures && InRange(seqId, layer, half, p / blockSize, p % blockSize)
                && (values + chunk)[p] == Cell(seqId, layer, half, p / blockSize, p % blockSize)
      {
        if p >= |values| {
          DivMod(p, blockSize, page, p - |values|);
          assert (values + chunk)[p] == chunk[p - |values|];
        } else {
          assert (values + chunk)[p] == values[p];
        }
      }
    }

    lemma GatheredLastWrites(seqId: int, layer: nat, ks: seq<T>, vs: seq<T>)
      requires Valid() && |ks| == |vs| && Gathered(seqId, layer, 0, ks) && Gathered(seqId, layer, 1, vs)
      ensures forall p: nat :: p < |ks| ==>
                At(log, blockSize, seqId, layer, p).Some? ==>
                    (ks[p], vs[p]) == At(log, blockSize, seqId, layer, p).value
    {
      forall p: nat | p < |ks| && At(log, blockSize, seqId, layer, p).Some?
        ensures (ks[p], vs[p]) == At(log, blockSize, seqId, layer, p).value
      {
        assert Holds(seqId, layer, p / blockSize, p % blockSize, At(log, blockSize, seqId, layer, p).value);
      }
    }

    // The first slots of one block.
    method ReadSlots(seqId: int, layer: nat, half: nat, page: nat, tokens: nat) returns (chunk: seq<T>)
      requires Valid() && seqId in tables && page < |tables[seqId]| && layer < numLayers && half < 2
      requires tokens <= blockSize
      ensures |chunk| == tokens
      ensures forall o: nat :: o < tokens ==>
                InRange(seqId, layer, half, page, o) && chunk[o] == Cell(seqId, layer, half, page, o)
    {
      assert tables[seqId][page] in tables[seqId];
      var b := tables[seqId][page];
      assert b in refcounts;
      chunk := [];
      while |chunk| < tokens
        invariant |chunk| <= tokens
        invariant forall o: nat :: o < |chunk| ==> chunk[o] == store[layer, half, b, o]
      {
        chunk := chunk + [store[layer, half, b, |chunk|]];
      }
    }
  }
}
