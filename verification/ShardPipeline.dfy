// Layers split over shards: the slices, and what the shards compute one after the other.
module ShardPipeline {
  import opened Collections
  import opened Outcomes

  // _compute_slice
  function Slice(totalLayers: nat, numShards: nat, shardIndex: nat): (int, int)
    requires numShards > 0
  {
    var base := totalLayers / numShards;
    var remainder := totalLayers % numShards;
    var start := shardIndex * base + Smaller(shardIndex, remainder);
    (start, start + base + (if shardIndex < remainder then 1 else 0))
  }

  // The slices follow one another, from the first layer to the last; the first ones have the layers that
  // are left over, one each.
  lemma SlicesPartition(totalLayers: nat, numShards: nat, i: nat)
    requires numShards > 0 && i < numShards
    ensures Slice(totalLayers, numShards, 0).0 == 0
    ensures Slice(totalLayers, numShards, numShards - 1).1 == totalLayers
    ensures Slice(totalLayers, numShards, i).1 == Slice(totalLayers, numShards, i + 1).0
    ensures var (start, end) := Slice(totalLayers, numShards, i);
            && 0 <= start <= end <= totalLayers
            && end - start == totalLayers / numShards + (if i < totalLayers % numShards then 1 else 0)
  {
    var base, remainder := totalLayers / numShards, totalLayers % numShards;
    assert totalLayers == numShards * base + remainder;
    assert (i + 1) * base == i * base + base && (numShards - 1) * base == numShards * base - base;
    TimesMonotone(0, i, base);
    TimesMonotone(i, numShards - 1, base);
  }

  // What a layer returns: the hidden states alone, or a tuple that starts with them.
  datatype LayerOutput<H> = Hidden(states: H) | Tuple(first: H, rest: seq<H>)

  function States<H>(out: LayerOutput<H>): H {
    match out
    case Hidden(states) => states
    case Tuple(first, _) => first
  }

  // A model's layers, each a function on hidden states.
  type Layer<!H> = H -> LayerOutput<H>

  function Forward<H>(layers: seq<Layer<H>>, hidden: H): H {
    if |layers| == 0 then hidden
    else States(layers[|layers| - 1](Forward(layers[..|layers| - 1], hidden)))
  }

  // _ShardWrapper.__call__
  method Call<H>(layers: seq<Layer<H>>, hiddenStates: H) returns (hidden: H)
    ensures hidden == Forward(layers, hiddenStates)
  {
    hidden := hiddenStates;
    for i := 0 to |layers|
      invariant hidden == Forward(layers[..i], hiddenStates)
    {
      assert layers[..i + 1][..i] == layers[..i];
      var out := layers[i](hidden);
      hidden := if out.Tuple? then out.first else out.states;
    }
    assert layers[..|layers|] == layers;
  }

  // The first n shards, in order.
  function Pipeline<H>(layers: seq<Layer<H>>, numShards: nat, n: nat, hidden: H): H
    requires n <= numShards && numShards > 0
  {
    if n == 0 then hidden
    else
      SlicesPartition(|layers|, numShards, n - 1);
      var (start, end) := Slice(|layers|, numShards, n - 1);
      Forward(layers[start..end], Pipeline(layers, numShards, n - 1, hidden))
  }

  lemma {:induction false} ForwardAppend<H>(a: seq<Layer<H>>, b: seq<Layer<H>>, hidden: H)
    ensures Forward(a + b, hidden) == Forward(b, Forward(a, hidden))
  {
    if |b| == 0 {
      assert a + b == a;
    } else {
      var last := |b| - 1;
      ForwardAppend(a, b[..last], hidden);
      assert (a + b)[..|a + b| - 1] == a + b[..last];
    }
  }

  lemma {:induction false} PipelinePrefix<H>(layers: seq<Layer<H>>, numShards: nat, n: nat, hidden: H)
    requires 0 < n <= numShards
    ensures 0 <= Slice(|layers|, numShards, n - 1).1 <= |layers|
    ensures Pipeline(layers, numShards, n, hidden) == Forward(layers[..Slice(|layers|, numShards, n - 1).1], hidden)
    decreases n
  {
    SlicesPartition(|layers|, numShards, n - 1);
    var (start, end) := Slice(|layers|, numShards, n - 1);
    PipelineStep(layers, numShards, n, hidden);
    hide Slice, Forward, Pipeline;
    if n == 1 {
      assert start == 0 && layers[start..end] == layers[..end];
    } else {
      PipelinePrefix(layers, numShards, n - 1, hidden);
      SlicesPartition(|layers|, numShards, n - 2);
      ForwardSlice(layers, start, end, hidden);
    }
  }

  lemma ForwardSlice<H>(layers: seq<Layer<H>>, start: nat, end: nat, hidden: H)
    requires start <= end <= |layers|
    ensures Forward(layers[start..end], Forward(layers[..start], hidden)) == Forward(layers[..end], hidden)
  {
    ForwardAppend(layers[..start], layers[start..end], hidden);
    assert layers[..start] + layers[start..end] == layers[..end];
  }

  lemma PipelineStep<H>(layers: seq<Layer<H>>, numShards: nat, n: nat, hidden: H)
    requires 0 < n <= numShards
    ensures var (start, end) := Slice(|layers|, numShards, n - 1);
            && 0 <= start <= end <= |layers|
            && Pipeline(layers, numShards, n, hidden) ==
               Forward(layers[start..end], if n == 1 then hidden else Pipeline(layers, numShards, n - 1, hidden))
  {
    SlicesPartition(|layers|, numShards, n - 1);
    hide Slice, Forward;
  }

  // All shards together compute what the unsplit model computes.
  lemma PipelineIsModel<H>(layers: seq<Layer<H>>, numShards: nat, hidden: H)
    requires numShards > 0
    ensures Pipeline(layers, numShards, numShards, hidden) == Forward(layers, hidden)
  {
    PipelinePrefix(layers, numShards, numShards, hidden);
    SlicesPartition(|layers|, numShards, 0);
    assert layers[..|layers|] == layers;
  }
}
