// What a sequence of the paged cache should hold, from the history of calls alone.
module KvHistory {
  import opened Outcomes

  // A write at tokenPos goes to a (page, slot) pair: for positions from 0 on, these are
  // tokenPos // block_size and tokenPos % block_size.
  datatype Event<T> =
    | Allocated(seqId: int)
    | Freed(seqId: int)
    | Written(seqId: int, layer: nat, tokenPos: int, page: nat, slot: nat, key: T, value: T)
    | Shared(source: int, seqId: int, tokens: nat, pages: nat)

  // The last key/value pair written at a position of a sequence since it came into being, or
  // inherited from the sequence it was shared from.
  function LastWrite<T>(log: seq<Event<T>>, s: int, layer: nat, page: nat, slot: nat): Option<(T, T)> {
    if |log| == 0 then None
    else
      var before, e := log[..|log| - 1], log[|log| - 1];
      if e.seqId != s then LastWrite(before, s, layer, page, slot)
      else match e
        case Allocated(_) => None
        case Freed(_) => None
        case Written(_, l, _, j, o, k, v) =>
          if l == layer && j == page && o == slot then Some((k, v)) else LastWrite(before, s, layer, page, slot)
        case Shared(source, _, _, pages) =>
          if page < pages then LastWrite(before, source, layer, page, slot) else None
  }

  // How many positions a sequence counts as filled, on all layers alike.
  function Level<T>(log: seq<Event<T>>, s: int): nat {
    if |log| == 0 then 0
    else
      var before, e := log[..|log| - 1], log[|log| - 1];
      if e.seqId != s then Level(before, s)
      else match e
        case Allocated(_) => 0
        case Freed(_) => 0
        case Written(_, _, tokenPos, _, _, _, _) => if tokenPos + 1 > Level(before, s) then tokenPos + 1
          else Level(before, s)
        case Shared(_, _, tokens, _) => tokens
  }

  function At<T>(log: seq<Event<T>>, blockSize: nat, s: int, layer: nat, p: nat): Option<(T, T)>
    requires blockSize > 0
  {
    LastWrite(log, s, layer, p / blockSize, p % blockSize)
  }

  // Every position counted as filled has been written on this layer.
  ghost predicate NoGaps<T>(log: seq<Event<T>>, blockSize: nat, s: int, layer: nat)
    requires blockSize > 0
  {
    forall p: nat :: p < Level(log, s) ==> At(log, blockSize, s, layer, p).Some?
  }

  lemma LastWriteStep<T>(log: seq<Event<T>>, e: Event<T>, s: int, layer: nat, page: nat, slot: nat)
    ensures e.seqId != s ==> LastWrite(log + [e], s, layer, page, slot) == LastWrite(log, s, layer, page, slot)
    ensures e.Written? && e.seqId == s && (e.layer, e.page, e.slot) == (layer, page, slot) ==>
              LastWrite(log + [e], s, layer, page, slot) == Some((e.key, e.value))
    ensures e.Written? && e.seqId == s && (e.layer, e.page, e.slot) != (layer, page, slot) ==>
              LastWrite(log + [e], s, layer, page, slot) == LastWrite(log, s, layer, page, slot)
    ensures e.seqId == s && (e.Allocated? || e.Freed?) ==> LastWrite(log + [e], s, layer, page, slot) == None
    ensures e.seqId == s && e.Shared? ==>
              LastWrite(log + [e], s, layer, page, slot) ==
              if page < e.pages then LastWrite(log, e.source, layer, page, slot) else None
  {
    assert (log + [e])[..|log|] == log;
  }

  lemma LevelStep<T>(log: seq<Event<T>>, e: Event<T>, s: int)
    ensures e.seqId != s ==> Level(log + [e], s) == Level(log, s)
    ensures e.seqId == s && (e.Allocated? || e.Freed?) ==> Level(log + [e], s) == 0
    ensures e.seqId == s && e.Shared? ==> Level(log + [e], s) == e.tokens
    ensures e.seqId == s && e.Written? ==>
              Level(log + [e], s) == if e.tokenPos + 1 > Level(log, s) then e.tokenPos + 1 else Level(log, s)
  {
    assert (log + [e])[..|log|] == log;
  }

  // Independence: whatever happens to other sequences, this one's history stands.
  lemma {:induction false} OthersDoNotMatter<T>(log: seq<Event<T>>, more: seq<Event<T>>, s: int, layer: nat, page: nat,
                                                slot: nat)
    requires forall i :: 0 <= i < |more| ==> more[i].seqId != s
    ensures LastWrite(log + more, s, layer, page, slot) == LastWrite(log, s, layer, page, slot)
    ensures Level(log + more, s) == Level(log, s)
  {
    if |more| == 0 {
      assert log + more == log;
    } else {
      var front := more[..|more| - 1];
      OthersDoNotMatter(log, front, s, layer, page, slot);
      assert log + more == (log + front) + [more[|more| - 1]];
      LastWriteStep(log + front, more[|more| - 1], s, layer, page, slot);
      LevelStep(log + front, more[|more| - 1], s);
    }
  }

  // A shared prefix reads what the source had written when it was shared, whatever the source and
  // all other sequences do afterwards, until the sequence itself is touched again.
  lemma SharedPrefixIsASnapshot<T>(log: seq<Event<T>>, source: int, s: int, tokens: nat, pages: nat,
                                   more: seq<Event<T>>,
                                   layer: nat, page: nat, slot: nat)
    requires page < pages && forall i :: 0 <= i < |more| ==> more[i].seqId != s
    ensures LastWrite(log + [Shared(source, s, tokens, pages)] + more, s, layer, page, slot) ==
            LastWrite(log, source, layer, page, slot)
  {
    OthersDoNotMatter(log + [Shared(source, s, tokens, pages)], more, s, layer, page, slot);
    LastWriteStep(log, Shared(source, s, tokens, pages), s, layer, page, slot);
  }

  // Positions 0 .. len*blockSize-1 are the ones whose page is in the table.
  lemma PositionInTable(tokenPos: int, blockSize: nat, pages: nat)
    requires blockSize > 0
    ensures tokenPos / blockSize < pages <==> tokenPos < pages * blockSize
    ensures tokenPos / blockSize < pages ==> tokenPos + 1 <= pages * blockSize
  {
    var q, r := tokenPos / blockSize, tokenPos % blockSize;
    assert tokenPos == q * blockSize + r;
    if q < pages {
      TimesMonotone(q + 1, pages, blockSize);
      assert (q + 1) * blockSize == q * blockSize + blockSize;
    } else {
      TimesMonotone(pages, q, blockSize);
    }
  }

  lemma NegativePage(tokenPos: int, blockSize: nat)
    requires blockSize > 0
    ensures tokenPos / blockSize < 0 <==> tokenPos < 0
  {
    PositionInTable(tokenPos, blockSize, 0);
  }

  // ----- histories without gaps -----

  // Other positions are other (page, slot) pairs.
  lemma SamePosition(p: nat, q: nat, blockSize: nat)
    requires blockSize > 0 && p / blockSize == q / blockSize && p % blockSize == q % blockSize
    ensures p == q
  {
    assert p == p / blockSize * blockSize + p % blockSize;
    assert q == q / blockSize * blockSize + q % blockSize;
  }

  // Sharing what the source has filled without gaps.
  lemma SharedNoGaps<T>(log: seq<Event<T>>, blockSize: nat, source: int, s: int, tokens: nat, layer: nat)
    requires blockSize > 0 && tokens <= Level(log, source) && NoGaps(log, blockSize, source, layer)
    ensures var e := Shared(source, s, tokens, CeilDiv(tokens, blockSize));
            && NoGaps(log + [e], blockSize, s, layer) && Level(log + [e], s) == tokens
            && forall p: nat :: p < tokens ==>
                 At(log + [e], blockSize, s, layer, p) == At(log, blockSize, source, layer, p)
  {
    var pages := CeilDiv(tokens, blockSize);
    CeilDivIs(tokens, blockSize, pages);
    CeilDivIs(tokens, blockSize, -1);
    var e := Shared(source, s, tokens, pages);
    LevelStep(log, e, s);
    forall p: nat | p < tokens ensures At(log + [e], blockSize, s, layer, p) == At(log, blockSize, source, layer, p) {
      PositionInTable(p, blockSize, pages);
      LastWriteStep(log, e, s, layer, p / blockSize, p % blockSize);
    }
  }

  function WriteAt<T>(blockSize: nat, s: int, layer: nat, p: nat, kv: (T, T)): Event<T>
    requires blockSize > 0
  {
    Written(s, layer, p, p / blockSize, p % blockSize, kv.0, kv.1)
  }

  // One token's pairs, layer by layer.
  function TokenWrites<T>(blockSize: nat, s: int, p: nat, pairs: seq<(T, T)>): seq<Event<T>>
    requires blockSize > 0
  {
    if |pairs| == 0 then []
    else
      TokenWrites(blockSize, s, p, pairs[..|pairs| - 1]) +
      [WriteAt(blockSize, s, |pairs| - 1, p, pairs[|pairs| - 1])]
  }

  lemma WriteIs<T>(log: seq<Event<T>>, blockSize: nat, s: int, l: nat, p: nat, kv: (T, T), layer: nat, q: nat)
    requires blockSize > 0
    ensures At(log + [WriteAt(blockSize, s, l, p, kv)], blockSize, s, layer, q) ==
            if layer == l && q == p then Some(kv) else At(log, blockSize, s, layer, q)
  {
    LastWriteStep(log, WriteAt(blockSize, s, l, p, kv), s, layer, q / blockSize, q % blockSize);
    if layer == l && q / blockSize == p / blockSize && q % blockSize == p % blockSize {
      SamePosition(p, q, blockSize);
    }
  }

  lemma {:induction false} TokenWritten<T>(log: seq<Event<T>>, blockSize: nat, s: int, p: nat, pairs: seq<(T, T)>,
                                           layer: nat, q: nat)
    requires blockSize > 0
    ensures At(log + TokenWrites(blockSize, s, p, pairs), blockSize, s, layer, q) ==
            if layer < |pairs| && q == p then Some(pairs[layer]) else At(log, blockSize, s, layer, q)
    ensures Level(log + TokenWrites(blockSize, s, p, pairs), s) ==
            if |pairs| > 0 && p + 1 > Level(log, s) then p + 1 else Level(log, s)
  {
    if |pairs| == 0 {
      assert log + [] == log;
    } else {
      var front, last: nat := pairs[..|pairs| - 1], |pairs| - 1;
      var so := log + TokenWrites(blockSize, s, p, front);
      hide At, Level;
      TokenWritten(log, blockSize, s, p, front, layer, q);
      assert log + TokenWrites(blockSize, s, p, pairs) == so + [WriteAt(blockSize, s, last, p, pairs[last])];
      WriteIs(so, blockSize, s, last, p, pairs[last], layer, q);
      LevelStep(so, WriteAt(blockSize, s, last, p, pairs[last]), s);
    }
  }

  // Token after token from position p on, each with its pairs for all layers.
  function Appends<T>(blockSize: nat, s: int, p: nat, tokens: seq<seq<(T, T)>>): seq<Event<T>>
    requires blockSize > 0
  {
    if |tokens| == 0 then []
    else
      Appends(blockSize, s, p, tokens[..|tokens| - 1]) +
      TokenWrites(blockSize, s, p + |tokens| - 1, tokens[|tokens| - 1])
  }

  // Appending whole tokens leaves no gaps: on every layer, the positions filled before hold what they
  // held, and the new ones hold their pairs.
  lemma {:induction false} AppendsHold<T>(log: seq<Event<T>>, blockSize: nat, s: int, layers: nat,
                                          tokens: seq<seq<(T, T)>>, layer: nat)
    requires blockSize > 0 && layer < layers && forall i :: 0 <= i < |tokens| ==> |tokens[i]| == layers
    ensures var p := Level(log, s); var after := log + Appends(blockSize, s, p, tokens);
            && Level(after, s) == p + |tokens|
            && forall q: nat :: At(after, blockSize, s, layer, q) ==
                 if p <= q < p + |tokens| then Some(tokens[q - p][layer]) else At(log, blockSize, s, layer, q)
  {
    var p := Level(log, s);
    if |tokens| == 0 {
      assert log + [] == log;
    } else {
      var front, last := tokens[..|tokens| - 1], tokens[|tokens| - 1];
      var so, end := log + Appends(blockSize, s, p, front), p + |front|;
      hide At, Level, TokenWrites;
      AppendsHold(log, blockSize, s, layers, front, layer);
      assert log + Appends(blockSize, s, p, tokens) == so + TokenWrites(blockSize, s, end, last);
      forall q: nat ensures At(so + TokenWrites(blockSize, s, end, last), blockSize, s, layer, q) ==
                            if q == end then Some(last[layer]) else At(so, blockSize, s, layer, q) {
        TokenWritten(so, blockSize, s, end, last, layer, q);
      }
      TokenWritten(so, blockSize, s, end, last, layer, 0);
    }
  }

  function Own<T>(log: seq<Event<T>>, s: int): seq<Event<T>> {
    if |log| == 0 then []
    else Own(log[..|log| - 1], s) + if log[|log| - 1].seqId == s then [log[|log| - 1]] else []
  }

  // The same with other sequences' calls in between: only the sequence's own writes count.
  lemma {:induction false} OnlyOwnWrites<T>(log: seq<Event<T>>, blockSize: nat, more: seq<Event<T>>, s: int,
                                            layer: nat, p: nat)
    requires blockSize > 0 && forall i :: 0 <= i < |more| && more[i].seqId == s ==> more[i].Written?
    ensures At(log + more, blockSize, s, layer, p) == At(log + Own(more, s), blockSize, s, layer, p)
    ensures Level(log + more, s) == Level(log + Own(more, s), s)
  {
    if |more| == 0 {
    } else {
      var front, e := more[..|more| - 1], more[|more| - 1];
      hide LastWrite, Level;
      OnlyOwnWrites(log, blockSize, front, s, layer, p);
      assert log + more == (log + front) + [e];
      LastWriteStep(log + front, e, s, layer, p / blockSize, p % blockSize);
      LevelStep(log + front, e, s);
      if e.seqId == s {
        assert log + Own(more, s) == (log + Own(front, s)) + [e];
        LastWriteStep(log + Own(front, s), e, s, layer, p / blockSize, p % blockSize);
        LevelStep(log + Own(front, s), e, s);
      } else {
        assert log + Own(more, s) == log + Own(front, s);
      }
    }
  }

  lemma {:induction false} OwnMembers<T>(log: seq<Event<T>>, s: int)
    ensures forall e :: e in Own(log, s) <==> e in log && e.seqId == s
  {
    if |log| == 0 {
    } else {
      OwnMembers(log[..|log| - 1], s);
      assert log == log[..|log| - 1] + [log[|log| - 1]];
    }
  }

  lemma {:induction false} TokenWritesAreWrites<T>(blockSize: nat, s: int, p: nat, pairs: seq<(T, T)>)
    requires blockSize > 0
    ensures forall e :: e in TokenWrites(blockSize, s, p, pairs) ==> e.Written?
  {
    if |pairs| == 0 {
    } else {
      TokenWritesAreWrites(blockSize, s, p, pairs[..|pairs| - 1]);
    }
  }

  lemma {:induction false} AppendsAreWrites<T>(blockSize: nat, s: int, p: nat, tokens: seq<seq<(T, T)>>)
    requires blockSize > 0
    ensures forall e :: e in Appends(blockSize, s, p, tokens) ==> e.Written?
  {
    if |tokens| == 0 {
    } else {
      AppendsAreWrites(blockSize, s, p, tokens[..|tokens| - 1]);
      TokenWritesAreWrites(blockSize, s, p + |tokens| - 1, tokens[|tokens| - 1]);
    }
  }

  lemma OwnAreWrites<T>(blockSize: nat, s: int, tokens: seq<seq<(T, T)>>, more: seq<Event<T>>)
    requires blockSize > 0 && Own(more, s) == Appends(blockSize, s, 0, tokens)
    ensures forall i :: 0 <= i < |more| && more[i].seqId == s ==> more[i].Written?
  {
    AppendsAreWrites(blockSize, s, 0, tokens);
    OwnMembers(more, s);
  }

  // A sequence that comes into being and is then written token after token, whatever else goes on,
  // holds exactly its tokens' pairs on every layer.
  lemma AppendedHolds<T>(log: seq<Event<T>>, blockSize: nat, s: int, layers: nat, tokens: seq<seq<(T, T)>>,
                         more: seq<Event<T>>, layer: nat)
    requires blockSize > 0 && layer < layers && forall i :: 0 <= i < |tokens| ==> |tokens[i]| == layers
    requires Own(more, s) == Appends(blockSize, s, 0, tokens)
    ensures var after := log + [Allocated(s)] + more;
            && Level(after, s) == |tokens| && NoGaps(after, blockSize, s, layer)
            && forall p: nat :: p < |tokens| ==> At(after, blockSize, s, layer, p) == Some(tokens[p][layer])
  {
    var start := log + [Allocated(s)];
    LevelStep(log, Allocated(s), s);
    OwnAreWrites(blockSize, s, tokens, more);
    hide At, Level, Own, Appends;
    AppendsHold(start, blockSize, s, layers, tokens, layer);
    OnlyOwnWrites(start, blockSize, more, s, layer, 0);
    forall p: nat | p < |tokens| ensures At(start + more, blockSize, s, layer, p) == Some(tokens[p][layer]) {
      OnlyOwnWrites(start, blockSize, more, s, layer, p);
    }
  }
}
