// The Merkle tree over byte-string leaves. The hash is a parameter, of which only the fixed width
// of its digests is assumed; soundness claims name the two inputs on which it would have to collide,
// and these are always among the inputs that were actually hashed.
module Merkle {
  import opened ByteStrings
  import opened Collections
  import opened Outcomes

  type Hash = Bytes -> Bytes

  const DIGEST_SIZE: nat := 32

  ghost predicate FixedWidth(h: Hash) {
    forall b: Bytes :: |h(b)| == DIGEST_SIZE
  }

  ghost predicate Collision(h: Hash, x: Bytes, y: Bytes) {
    x != y && h(x) == h(y)
  }

  // Some input of one party collides with some input of the other.
  ghost predicate Collide(h: Hash, xs: set<Bytes>, ys: set<Bytes>) {
    exists x, y :: x in xs && y in ys && Collision(h, x, y)
  }

  function Combine(h: Hash, left: Bytes, right: Bytes): Bytes {
    h(left + right)
  }

  // ----- powers of two and padding -----

  function Pow2(k: nat): (n: nat)
    ensures n >= 1
  {
    if k == 0 then 1 else 2 * Pow2(k - 1)
  }

  predicate IsPow2(n: nat) {
    n == 1 || (n > 1 && n % 2 == 0 && IsPow2(n / 2))
  }

  lemma {:induction false} Pow2IsPow2(k: nat)
    ensures IsPow2(Pow2(k))
  {
    if k == 0 {
    } else {
      Pow2IsPow2(k - 1);
    }
  }

  lemma {:induction false} Log2(n: nat) returns (k: nat)
    requires IsPow2(n)
    ensures n == Pow2(k)
  {
    if n == 1 {
      k := 0;
    } else {
      k := Log2(n / 2);
      k := k + 1;
    }
  }

  lemma {:induction false} Pow2Grows(j: nat, k: nat)
    requires j <= k
    ensures Pow2(j) <= Pow2(k)
    ensures j < k ==> 2 * Pow2(j) <= Pow2(k)
  {
    if j == k {
    } else {
      Pow2Grows(j, k - 1);
    }
  }

  // The exponent of the least power of two not below len, counted as the code counts it.
  function DepthFrom(k: nat, len: nat): (d: nat)
    ensures d >= k && len <= Pow2(d)
    decreases len - Pow2(k)
  {
    if Pow2(k) >= len then k else DepthFrom(k + 1, len)
  }

  function Depth(len: nat): (d: nat)
    ensures len <= Pow2(d)
  {
    DepthFrom(0, len)
  }

  lemma {:induction false} DepthFromLeast(k: nat, len: nat, d: nat)
    requires k <= d && len <= Pow2(d)
    ensures DepthFrom(k, len) <= d
    decreases d - k
  {
    if Pow2(k) >= len {
    } else {
      DepthFromLeast(k + 1, len, d);
    }
  }

  method PaddedLength(len: nat) returns (n: nat)
    ensures n == Pow2(Depth(len))
    ensures IsPow2(n) && n >= len && forall k: nat :: Pow2(k) >= len ==> n <= Pow2(k)
  {
    n := 1;
    ghost var k := 0;
    while n < len
      invariant n == Pow2(k) && DepthFrom(0, len) == DepthFrom(k, len)
      decreases len - n
    {
      n := n * 2;
      k := k + 1;
    }
    Pow2IsPow2(k);
    forall j: nat | Pow2(j) >= len ensures n <= Pow2(j) {
      DepthFromLeast(0, len, j);
      Pow2Grows(Depth(len), j);
    }
  }

  function Padded(leaves: seq<Bytes>): (p: seq<Bytes>)
    requires |leaves| > 0
    ensures |p| == Pow2(Depth(|leaves|)) && leaves <= p
  {
    leaves + seq(Pow2(Depth(|leaves|)) - |leaves|, _ => leaves[|leaves| - 1])
  }

  // ----- levels -----

  // Positions 2i and 2i + 1, as they are hashed together.
  function Pair(row: seq<Bytes>, i: nat): Bytes
    requires 2 * i + 1 < |row|
  {
    row[2 * i] + row[2 * i + 1]
  }

  function Up(h: Hash, row: seq<Bytes>): (up: seq<Bytes>)
    ensures |up| == |row| / 2
  {
    seq(|row| / 2, i requires 0 <= i < |row| / 2 => h(Pair(row, i)))
  }

  lemma UpAt(h: Hash, row: seq<Bytes>, i: nat)
    requires 2 * i + 1 < |row|
    ensures Up(h, row)[i] == h(Pair(row, i)) == Combine(h, row[2 * i], row[2 * i + 1])
  {
    assert i < |row| / 2;
    assert Pair(row, i) == row[2 * i] + row[2 * i + 1];
  }

  function LeafHashes(h: Hash, leaves: seq<Bytes>): (row: seq<Bytes>)
    ensures |row| == |leaves|
  {
    seq(|leaves|, i requires 0 <= i < |leaves| => h(leaves[i]))
  }

  function Levels(h: Hash, row: seq<Bytes>): (levels: seq<seq<Bytes>>)
    ensures |levels| > 0 && levels[0] == row
    decreases |row|
  {
    if |row| <= 1 then [row] else [row] + Levels(h, Up(h, row))
  }

  function Root(h: Hash, row: seq<Bytes>): Bytes
    requires |row| > 0
    decreases |row|
  {
    if |row| == 1 then row[0] else Root(h, Up(h, row))
  }

  datatype MerkleTree = MerkleTree(leaves: seq<Bytes>, levels: seq<seq<Bytes>>)

  function TreeOf(h: Hash, leaves: seq<Bytes>): MerkleTree
    requires |leaves| > 0
  {
    MerkleTree(Padded(leaves), Levels(h, LeafHashes(h, Padded(leaves))))
  }

  function TreeRoot(h: Hash, leaves: seq<Bytes>): Bytes
    requires |leaves| > 0
  {
    Root(h, LeafHashes(h, Padded(leaves)))
  }

  lemma {:induction false} LastLevel(h: Hash, row: seq<Bytes>)
    requires |row| > 0
    ensures var levels := Levels(h, row); levels[|levels| - 1] == [Root(h, row)]
    decreases |row|
  {
    if |row| == 1 {
    } else {
      LastLevel(h, Up(h, row));
    }
  }

  // The root, defined from the top: the hash of the roots of the two halves.
  function TopDown(h: Hash, row: seq<Bytes>): Bytes
    requires |row| > 0
  {
    if |row| == 1 then row[0]
    else Combine(h, TopDown(h, row[..|row| / 2]), TopDown(h, row[|row| / 2..]))
  }

  // Building from the bottom, as the code does, gives the same root.
  lemma {:induction false} BottomUpIsTopDown(h: Hash, row: seq<Bytes>, d: nat)
    requires |row| == Pow2(d)
    ensures Root(h, row) == TopDown(h, row)
    decreases d
  {
    if d == 0 {
    } else {
      BottomUpIsTopDown(h, Up(h, row), d - 1);
      TopDownOfUp(h, row, d);
    }
  }

  lemma {:induction false} TopDownOfUp(h: Hash, row: seq<Bytes>, d: nat)
    requires d > 0 && |row| == Pow2(d)
    ensures TopDown(h, Up(h, row)) == TopDown(h, row)
    decreases d
  {
    if d == 1 {
      TopDownPair(h, row);
      UpAt(h, row, 0);
      assert Up(h, row) == [Up(h, row)[0]];
    } else {
      var half := Pow2(d - 1);
      assert half == 2 * Pow2(d - 2) && |row| == 2 * half;
      hide Up, Combine, TopDown, Pow2;
      TopDownOfUp(h, row[..half], d - 1);
      TopDownOfUp(h, row[half..], d - 1);
      TopDownOfHalves(h, row, half);
    }
  }

  lemma TopDownOfHalves(h: Hash, row: seq<Bytes>, half: nat)
    requires |row| == 2 * half > 0 && half % 2 == 0
    ensures TopDown(h, row) == Combine(h, TopDown(h, row[..half]), TopDown(h, row[half..]))
    ensures TopDown(h, Up(h, row)) == Combine(h, TopDown(h, Up(h, row[..half])), TopDown(h, Up(h, row[half..])))
  {
    hide Up, Combine, TopDown;
    TopDownSplit(h, row, half);
    TopDownSplit(h, Up(h, row), half / 2);
    UpOfHalves(h, row, half);
  }

  lemma TopDownPair(h: Hash, row: seq<Bytes>)
    requires |row| == 2
    ensures TopDown(h, row) == Combine(h, row[0], row[1])
  {
    assert row[..1] == [row[0]] && row[1..] == [row[1]];
  }

  lemma TopDownSplit(h: Hash, row: seq<Bytes>, half: nat)
    requires |row| == 2 * half > 0
    ensures TopDown(h, row) == Combine(h, TopDown(h, row[..half]), TopDown(h, row[half..]))
  {
  }

  lemma UpOfHalves(h: Hash, row: seq<Bytes>, half: nat)
    requires |row| == 2 * half && half % 2 == 0
    ensures Up(h, row)[..half / 2] == Up(h, row[..half])
    ensures Up(h, row)[half / 2..] == Up(h, row[half..])
  {
    hide Up;
    forall i | 0 <= i < half / 2
      ensures Up(h, row)[i] == Up(h, row[..half])[i]
      ensures Up(h, row)[half / 2 + i] == Up(h, row[half..])[i]
    {
      UpAt(h, row, i);
      UpAt(h, row[..half], i);
      UpAt(h, row, half / 2 + i);
      UpAt(h, row[half..], i);
      assert 2 * (half / 2 + i) == half + 2 * i;
    }
  }

  method Build(h: Hash, leaves: seq<Bytes>) returns (levels: seq<seq<Bytes>>)
    requires IsPow2(|leaves|)
    ensures levels == Levels(h, LeafHashes(h, leaves))
  {
    var row := LeafHashes(h, leaves);
    levels := [row];
    ghost var first := row;
    while |levels[|levels| - 1]| > 1
      invariant |levels| > 0 && IsPow2(|levels[|levels| - 1]|)
      invariant levels[..|levels| - 1] + Levels(h, levels[|levels| - 1]) == Levels(h, first)
      decreases |levels[|levels| - 1]|
    {
      var prev := levels[|levels| - 1];
      var next: seq<Bytes> := [];
      var i := 0;
      while i < |prev|
        invariant i <= |prev| && i == 2 * |next|
        invariant forall j :: 0 <= j < |next| ==> next[j] == Combine(h, prev[2 * j], prev[2 * j + 1])
      {
        next := next + [Combine(h, prev[i], prev[i + 1])];
        i := i + 2;
      }
      forall j | 0 <= j < |next| ensures next[j] == Up(h, prev)[j] {
        UpAt(h, prev, j);
      }
      assert next == Up(h, prev);
      assert (levels + [next])[..|levels|] == levels == levels[..|levels| - 1] + [prev];
      levels := levels + [next];
    }
    assert levels == levels[..|levels| - 1] + [levels[|levels| - 1]];
  }

  // MerkleTree(leaves): pads by repeating the last leaf, then builds.
  method NewTree(h: Hash, leaves: seq<Bytes>) returns (r: Result<MerkleTree>)
    ensures r == if |leaves| == 0 then Err(ValueError) else Ok(TreeOf(h, leaves))
    ensures |leaves| > 0 ==> r.value.levels[|r.value.levels| - 1] == [TreeRoot(h, leaves)]
  {
    if |leaves| == 0 {
      return Err(ValueError);
    }
    var n := PaddedLength(|leaves|);
    var padded := leaves + seq(n - |leaves|, _ => leaves[|leaves| - 1]);
    assert padded == Padded(leaves);
    Pow2IsPow2(Depth(|leaves|));
    var levels := Build(h, padded);
    LastLevel(h, LeafHashes(h, padded));
    return Ok(MerkleTree(padded, levels));
  }

  // ----- proofs of membership -----

  datatype Side = Left | Right

  datatype MerkleProof = MerkleProof(leafIndex: nat, leafHash: Bytes, siblings: seq<(Bytes, Side)>, root: Bytes)

  function Joined(current: Bytes, sibling: (Bytes, Side)): Bytes {
    if sibling.1 == Left then sibling.0 + current else current + sibling.0
  }

  function Step(h: Hash, current: Bytes, sibling: (Bytes, Side)): Bytes {
    if sibling.1 == Left then Combine(h, sibling.0, current) else Combine(h, current, sibling.0)
  }

  function Climb(h: Hash, current: Bytes, siblings: seq<(Bytes, Side)>): Bytes
    decreases |siblings|
  {
    if |siblings| == 0 then current else Climb(h, Step(h, current, siblings[0]), siblings[1..])
  }

  // MerkleProof.verify
  method Verify(h: Hash, p: MerkleProof) returns (ok: bool)
    ensures ok <==> Climb(h, p.leafHash, p.siblings) == p.root
  {
    var current := p.leafHash;
    for i := 0 to |p.siblings|
      invariant Climb(h, p.leafHash, p.siblings) == Climb(h, current, p.siblings[i..])
    {
      assert p.siblings[i..][1..] == p.siblings[i + 1..];
      current := Step(h, current, p.siblings[i]);
    }
    return current == p.root;
  }

  function Sibling(row: seq<Bytes>, i: nat): (Bytes, Side)
    requires i < |row| && |row| % 2 == 0
  {
    if i % 2 == 0 then (row[i + 1], Right) else (row[i - 1], Left)
  }

  // The siblings met on the way up from position i.
  function Path(h: Hash, row: seq<Bytes>, i: nat): seq<(Bytes, Side)>
    requires i < |row| && IsPow2(|row|)
    decreases |row|
  {
    if |row| == 1 then []
    else
      [Sibling(row, i)] + Path(h, Up(h, row), i / 2)
  }

  // The directions of a path, read as bits from the bottom, spell the index.
  predicate Spells(siblings: seq<(Bytes, Side)>, i: nat)
    decreases |siblings|
  {
    if |siblings| == 0 then i == 0
    else (siblings[0].1 == Left <==> i % 2 == 1) && Spells(siblings[1..], i / 2)
  }

  lemma StepUp(h: Hash, row: seq<Bytes>, i: nat)
    requires i < |row| && |row| % 2 == 0
    ensures Step(h, row[i], Sibling(row, i)) == Up(h, row)[i / 2]
  {
    UpAt(h, row, i / 2);
    hide Up, Pair, Combine;
  }

  lemma {:induction false} PathFacts(h: Hash, row: seq<Bytes>, i: nat)
    requires i < |row| && IsPow2(|row|)
    ensures |row| == Pow2(|Path(h, row, i)|)
    ensures Spells(Path(h, row, i), i)
    ensures Climb(h, row[i], Path(h, row, i)) == Root(h, row)
    decreases |row|
  {
    if |row| == 1 {
    } else {
      StepUp(h, row, i);
      PathFacts(h, Up(h, row), i / 2);
      hide Up, Step;
      assert Path(h, row, i)[1..] == Path(h, Up(h, row), i / 2);
    }
  }

  // The siblings on the way up; the clamp on the sibling index never binds.
  method Siblings(h: Hash, levels: seq<seq<Bytes>>, leafIndex: nat) returns (siblings: seq<(Bytes, Side)>)
    requires |levels| > 0 && levels == Levels(h, levels[0]) && IsPow2(|levels[0]|) && leafIndex < |levels[0]|
    ensures siblings == Path(h, levels[0], leafIndex)
  {
    siblings := [];
    var idx: nat := leafIndex;
    ghost var rest := levels[0];
    for k := 0 to |levels| - 1
      invariant levels[k..] == Levels(h, rest) && idx < |rest| && IsPow2(|rest|)
      invariant siblings + Path(h, rest, idx) == Path(h, levels[0], leafIndex)
    {
      assert levels[k..][0] == levels[k] && levels[k..][1..] == levels[k + 1..];
      NextLevel(h, rest, idx);
      ghost var above := Up(h, rest);
      hide Path, Levels, Up, IsPow2;
      MoveOneOver(siblings, Sibling(rest, idx), Path(h, above, idx / 2));
      var level := levels[k];
      if idx % 2 == 0 {
        var clamped := if idx + 1 < |level| - 1 then idx + 1 else |level| - 1;
        assert clamped == idx + 1;
        siblings := siblings + [(level[clamped], Right)];
      } else {
        siblings := siblings + [(level[idx - 1], Left)];
      }
      idx := idx / 2;
      rest := above;
    }
    assert |rest| == 1;
  }

  lemma MoveOneOver<T>(a: seq<T>, x: T, b: seq<T>)
    ensures a + ([x] + b) == (a + [x]) + b
  {
  }

  lemma NextLevel(h: Hash, row: seq<Bytes>, i: nat)
    requires i < |row| && IsPow2(|row|)
    ensures |Levels(h, row)| > 1 ==> |row| > 1
    ensures |row| > 1 ==> Levels(h, row) == [row] + Levels(h, Up(h, row))
    ensures |row| > 1 ==> Levels(h, row)[1..] == Levels(h, Up(h, row))
    ensures |row| > 1 ==> |row| % 2 == 0 && IsPow2(|Up(h, row)|) && i / 2 < |Up(h, row)|
    ensures |row| > 1 ==> Path(h, row, i) == [Sibling(row, i)] + Path(h, Up(h, row), i / 2)
  {
    hide Up;
  }

  // get_proof: any index of the padded list is in range.
  method GetProof(h: Hash, leaves: seq<Bytes>, t: MerkleTree, leafIndex: int) returns (r: Result<MerkleProof>)
    requires |leaves| > 0 && t == TreeOf(h, leaves)
    ensures r == Err(IndexError) <==> !(0 <= leafIndex < Pow2(Depth(|leaves|)))
    ensures r.Err? ==> r == Err(IndexError)
    ensures r.Ok? ==>
              && r.value.leafIndex == leafIndex && r.value.root == TreeRoot(h, leaves)
              && r.value.leafHash == h(Padded(leaves)[leafIndex])
              && |r.value.siblings| == Depth(|leaves|) && Spells(r.value.siblings, leafIndex)
              && Climb(h, r.value.leafHash, r.value.siblings) == r.value.root
  {
    if leafIndex < 0 || leafIndex >= |t.leaves| {
      return Err(IndexError);
    }
    ghost var row := LeafHashes(h, t.leaves);
    hide Levels, Path, Climb, Root, Spells;
    Pow2IsPow2(Depth(|leaves|));
    var siblings := Siblings(h, t.levels, leafIndex);
    PathFacts(h, row, leafIndex);
    LastLevel(h, row);
    Pow2Injective(Depth(|leaves|), |siblings|);
    return Ok(MerkleProof(leafIndex, t.levels[0][leafIndex], siblings, t.levels[|t.levels| - 1][0]));
  }

  lemma Pow2Injective(j: nat, k: nat)
    requires Pow2(j) == Pow2(k)
    ensures j == k
  {
    if j < k {
      Pow2Grows(j, k);
    } else if k < j {
      Pow2Grows(k, j);
    }
  }

  // ----- soundness -----

  // Everything hashed while building the levels above a row, and while building a tree.
  function PairInputs(h: Hash, row: seq<Bytes>): set<Bytes>
    decreases |row|
  {
    if |row| <= 1 then {}
    else (set i: nat | i < |row| / 2 :: Pair(row, i)) + PairInputs(h, Up(h, row))
  }

  function TreeInputs(h: Hash, leaves: seq<Bytes>): set<Bytes>
    requires |leaves| > 0
  {
    SetOf(Padded(leaves)) + PairInputs(h, LeafHashes(h, Padded(leaves)))
  }

  // Everything hashed while checking a proof.
  function ClimbInputs(h: Hash, current: Bytes, siblings: seq<(Bytes, Side)>): set<Bytes>
    decreases |siblings|
  {
    if |siblings| == 0 then {}
    else
      {Joined(current, siblings[0])} +
      ClimbInputs(h, Step(h, current, siblings[0]), siblings[1..])
  }

  predicate Wide(row: seq<Bytes>) {
    forall i :: 0 <= i < |row| ==> |row[i]| == DIGEST_SIZE
  }

  lemma SameHalves(a: Bytes, b: Bytes, c: Bytes, d: Bytes)
    requires |a| == |c| && a + b == c + d
    ensures a == c && b == d
  {
    assert a == (a + b)[..|a|] && c == (c + d)[..|c|];
    assert b == (a + b)[|a|..] && d == (c + d)[|c|..];
  }

  lemma CollideMore(h: Hash, xs: set<Bytes>, ys: set<Bytes>, xs': set<Bytes>, ys': set<Bytes>)
    requires Collide(h, xs, ys) && xs <= xs' && ys <= ys'
    ensures Collide(h, xs', ys')
  {
    var x, y :| x in xs && y in ys && Collision(h, x, y);
    assert x in xs' && y in ys';
  }

  // Rows of the same length with the same root are the same, or a collision is at hand.
  lemma {:induction false} RowsBound(h: Hash, a: seq<Bytes>, b: seq<Bytes>)
    requires FixedWidth(h) && |a| == |b| && IsPow2(|a|) && Wide(a) && Wide(b)
    requires Root(h, a) == Root(h, b)
    ensures a == b || Collide(h, PairInputs(h, a), PairInputs(h, b))
    decreases |a|
  {
    if |a| > 1 {
      WideUp(h, a);
      WideUp(h, b);
      MorePairs(h, a);
      MorePairs(h, b);
      hide Up, PairInputs, Wide, FixedWidth;
      RowsBound(h, Up(h, a), Up(h, b));
      if Up(h, a) == Up(h, b) {
        PairsBound(h, a, b);
      } else {
        CollideMore(h, PairInputs(h, Up(h, a)), PairInputs(h, Up(h, b)), PairInputs(h, a), PairInputs(h, b));
      }
    } else {
      assert a == [a[0]] && b == [b[0]];
    }
  }

  lemma PairHashed(h: Hash, row: seq<Bytes>, i: nat)
    requires 2 * i + 1 < |row|
    ensures Pair(row, i) in PairInputs(h, row)
    ensures Up(h, row)[i] == h(Pair(row, i))
  {
    UpAt(h, row, i);
    hide Up, Pair;
  }

  lemma PairDiffers(a: seq<Bytes>, b: seq<Bytes>, k: nat)
    requires |a| == |b| && |a| % 2 == 0 && Wide(a) && Wide(b) && k < |a| && a[k] != b[k]
    ensures Pair(a, k / 2) != Pair(b, k / 2)
  {
    var i := k / 2;
    assert k == 2 * i || k == 2 * i + 1;
    assert a[2 * i] == Pair(a, i)[..DIGEST_SIZE] && a[2 * i + 1] == Pair(a, i)[DIGEST_SIZE..];
    assert b[2 * i] == Pair(b, i)[..DIGEST_SIZE] && b[2 * i + 1] == Pair(b, i)[DIGEST_SIZE..];
  }

  lemma PairsCollide(h: Hash, a: seq<Bytes>, b: seq<Bytes>, k: nat)
    requires |a| == |b| && |a| % 2 == 0 && Wide(a) && Wide(b) && Up(h, a) == Up(h, b) && k < |a| && a[k] != b[k]
    ensures Collide(h, PairInputs(h, a), PairInputs(h, b))
  {
    PairHashed(h, a, k / 2);
    PairHashed(h, b, k / 2);
    PairDiffers(a, b, k);
    hide PairInputs, Up, Wide, Pair;
    assert Collision(h, Pair(a, k / 2), Pair(b, k / 2));
  }

  lemma PairsBound(h: Hash, a: seq<Bytes>, b: seq<Bytes>)
    requires |a| == |b| > 1 && |a| % 2 == 0 && Wide(a) && Wide(b) && Up(h, a) == Up(h, b)
    ensures a == b || Collide(h, PairInputs(h, a), PairInputs(h, b))
  {
    if a != b {
      var k :| 0 <= k < |a| && a[k] != b[k];
      PairsCollide(h, a, b, k);
    }
  }

  lemma LeafHashesBound(h: Hash, a: seq<Bytes>, b: seq<Bytes>)
    requires LeafHashes(h, a) == LeafHashes(h, b)
    ensures a == b || Collide(h, SetOf(a), SetOf(b))
  {
    assert |a| == |LeafHashes(h, a)| == |LeafHashes(h, b)| == |b|;
    if a != b {
      var k :| 0 <= k < |a| && a[k] != b[k];
      assert LeafHashes(h, a)[k] == LeafHashes(h, b)[k];
      assert a[k] in SetOf(a) && b[k] in SetOf(b) && Collision(h, a[k], b[k]);
    }
  }

  // Lists that pad to the same length and have the same root pad to the same list.
  lemma PaddedBinding(h: Hash, a: seq<Bytes>, b: seq<Bytes>)
    requires FixedWidth(h) && |a| > 0 && |b| > 0 && Depth(|a|) == Depth(|b|)
    requires TreeRoot(h, a) == TreeRoot(h, b)
    ensures Padded(a) == Padded(b) || Collide(h, TreeInputs(h, a), TreeInputs(h, b))
  {
    var p, q := LeafHashes(h, Padded(a)), LeafHashes(h, Padded(b));
    Pow2IsPow2(Depth(|a|));
    RowsBound(h, p, q);
    if p == q {
      LeafHashesBound(h, Padded(a), Padded(b));
      if Padded(a) != Padded(b) {
        CollideMore(h, SetOf(Padded(a)), SetOf(Padded(b)), TreeInputs(h, a), TreeInputs(h, b));
      }
    } else {
      CollideMore(h, PairInputs(h, p), PairInputs(h, q), TreeInputs(h, a), TreeInputs(h, b));
    }
  }

  // Binding: equal lengths and equal roots mean equal leaves.
  lemma Binding(h: Hash, a: seq<Bytes>, b: seq<Bytes>)
    requires FixedWidth(h) && |a| == |b| > 0 && TreeRoot(h, a) == TreeRoot(h, b)
    ensures a == b || Collide(h, TreeInputs(h, a), TreeInputs(h, b))
  {
    PaddedBinding(h, a, b);
    if Padded(a) == Padded(b) {
      assert a == Padded(a)[..|a|] == Padded(b)[..|b|] == b;
    }
  }

  // ----- trees of different depths -----

  function UpTimes(h: Hash, row: seq<Bytes>, n: nat): seq<Bytes> {
    if n == 0 then row else Up(h, UpTimes(h, row, n - 1))
  }

  // Going up keeps the root and hashes nothing that building the tree does not hash.
  lemma {:induction false} UpTimesFacts(h: Hash, row: seq<Bytes>, n: nat, d: nat)
    requires FixedWidth(h) && Wide(row) && |row| == Pow2(d) && n <= d
    ensures |UpTimes(h, row, n)| == Pow2(d - n) && Wide(UpTimes(h, row, n))
    ensures Root(h, UpTimes(h, row, n)) == Root(h, row)
    ensures PairInputs(h, UpTimes(h, row, n)) <= PairInputs(h, row)
  {
    hide Up, PairInputs, Root, Wide, FixedWidth, Pow2;
    if n == 0 {
    } else {
      UpTimesFacts(h, row, n - 1, d);
      Pow2Next(d - n);
      UpOnce(h, UpTimes(h, row, n - 1));
    }
  }

  lemma Pow2Next(k: nat)
    ensures Pow2(k + 1) == 2 * Pow2(k)
  {
  }

  lemma UpOnce(h: Hash, row: seq<Bytes>)
    requires FixedWidth(h) && |row| > 1
    ensures Wide(Up(h, row)) && Root(h, Up(h, row)) == Root(h, row) && PairInputs(h, Up(h, row)) <= PairInputs(h, row)
  {
    WideUp(h, row);
    MorePairs(h, row);
    hide Up, PairInputs;
  }

  // The first node of an inner row is the hash of two digests.
  lemma InnerNode(h: Hash, row: seq<Bytes>, n: nat, d: nat) returns (x: Bytes)
    requires FixedWidth(h) && Wide(row) && |row| == Pow2(d) && 0 < n <= d
    ensures |UpTimes(h, row, n)| > 0 && UpTimes(h, row, n)[0] == h(x)
    ensures x in PairInputs(h, row) && |x| == 2 * DIGEST_SIZE
  {
    hide Up, PairInputs, Root, FixedWidth, Pow2;
    UpTimesFacts(h, row, n - 1, d);
    Pow2Next(d - n);
    var below := UpTimes(h, row, n - 1);
    PairHashed(h, below, 0);
    x := Pair(below, 0);
  }

  // A shallower tree whose leaves are not as long as two digests does not share a root with a deeper one.
  lemma DepthBound(h: Hash, a: seq<Bytes>, b: seq<Bytes>)
    requires FixedWidth(h) && |a| > 0 && |b| > 0 && Depth(|a|) < Depth(|b|) && |a[0]| != 2 * DIGEST_SIZE
    requires TreeRoot(h, a) == TreeRoot(h, b)
    ensures Collide(h, TreeInputs(h, a), TreeInputs(h, b))
  {
    var p, q := LeafHashes(h, Padded(a)), LeafHashes(h, Padded(b));
    var n := Depth(|b|) - Depth(|a|);
    var lifted := UpTimes(h, q, n);
    UpTimesFacts(h, q, n, Depth(|b|));
    Pow2IsPow2(Depth(|a|));
    var x := InnerNode(h, q, n, Depth(|b|));
    assert p[0] == h(a[0]) && a[0] in SetOf(Padded(a));
    hide FixedWidth, UpTimes, Root, Padded;
    RowsBound(h, p, lifted);
    if p == lifted {
      assert Collision(h, a[0], x);
      assert a[0] in TreeInputs(h, a) && x in TreeInputs(h, b);
    } else {
      CollideMore(h, PairInputs(h, p), PairInputs(h, lifted), TreeInputs(h, a), TreeInputs(h, b));
    }
  }

  lemma CollideSwap(h: Hash, xs: set<Bytes>, ys: set<Bytes>)
    requires Collide(h, xs, ys)
    ensures Collide(h, ys, xs)
  {
    var x, y :| x in xs && y in ys && Collision(h, x, y);
    assert Collision(h, y, x);
  }

  // Binding for lists of any lengths, if no leaf is as long as two digests: equal roots mean equal
  // padded lists.
  lemma BindingOfAnyLength(h: Hash, a: seq<Bytes>, b: seq<Bytes>)
    requires FixedWidth(h) && |a| > 0 && |b| > 0 && |a[0]| != 2 * DIGEST_SIZE && |b[0]| != 2 * DIGEST_SIZE
    requires TreeRoot(h, a) == TreeRoot(h, b)
    ensures Padded(a) == Padded(b) || Collide(h, TreeInputs(h, a), TreeInputs(h, b))
  {
    if Depth(|a|) < Depth(|b|) {
      DepthBound(h, a, b);
    } else if Depth(|b|) < Depth(|a|) {
      DepthBound(h, b, a);
      CollideSwap(h, TreeInputs(h, b), TreeInputs(h, a));
    } else {
      PaddedBinding(h, a, b);
    }
  }

  // What a root is: of one leaf, its hash; of two lists of as many leaves, a power of two, the hash of
  // their roots, the first one's first.
  lemma RootOfOne(h: Hash, leaf: Bytes)
    ensures TreeRoot(h, [leaf]) == h(leaf)
  {
    assert Padded([leaf]) == [leaf];
  }

  lemma RootOfHalves(h: Hash, left: seq<Bytes>, right: seq<Bytes>, d: nat)
    requires |left| == |right| == Pow2(d)
    ensures TreeRoot(h, left + right) == h(TreeRoot(h, left) + TreeRoot(h, right))
  {
    var row := LeafHashes(h, left + right);
    RootOfRow(h, left, d);
    RootOfRow(h, right, d);
    RootOfRow(h, left + right, d + 1);
    assert row[..Pow2(d)] == LeafHashes(h, left) && row[Pow2(d)..] == LeafHashes(h, right);
    TopDownSplit(h, row, Pow2(d));
  }

  lemma RootOfRow(h: Hash, leaves: seq<Bytes>, d: nat)
    requires |leaves| == Pow2(d)
    ensures TreeRoot(h, leaves) == TopDown(h, LeafHashes(h, leaves))
  {
    DepthFromLeast(0, Pow2(d), d);
    Pow2Grows(Depth(Pow2(d)), d);
    assert Padded(leaves) == leaves;
    BottomUpIsTopDown(h, LeafHashes(h, leaves), d);
  }

  // The length is not bound: a list and what it pads to have the same root.
  lemma PaddingNotBound(h: Hash, leaves: seq<Bytes>)
    requires |leaves| > 0
    ensures Padded(Padded(leaves)) == Padded(leaves)
    ensures TreeRoot(h, Padded(leaves)) == TreeRoot(h, leaves)
  {
    var d := Depth(|leaves|);
    DepthFromLeast(0, Pow2(d), d);
    Pow2Grows(Depth(Pow2(d)), d);
  }

  // Nor are leaves told apart from inner nodes: a tree over two leaves has the root of the tree over
  // the one leaf that is the concatenation of their hashes.
  lemma InnerNodeAsLeaf(h: Hash, x: Bytes, y: Bytes)
    ensures TreeRoot(h, [h(x) + h(y)]) == TreeRoot(h, [x, y])
  {
    assert Pow2(1) == 2;
    assert Depth(2) == 1 && Depth(1) == 0;
    assert Padded([x, y]) == [x, y];
    var row := LeafHashes(h, [x, y]);
    assert row == [h(x), h(y)];
    UpAt(h, row, 0);
    assert Up(h, row) == [Combine(h, h(x), h(y))];
    assert Padded([h(x) + h(y)]) == [h(x) + h(y)];
    assert LeafHashes(h, Padded([h(x) + h(y)])) == [h(h(x) + h(y))];
  }

  lemma StepPins(h: Hash, row: seq<Bytes>, i: nat, current: Bytes, sibling: (Bytes, Side))
    requires Wide(row) && |row| % 2 == 0 && i < |row| && |current| == |sibling.0| == DIGEST_SIZE
    requires (sibling.1 == Left <==> i % 2 == 1) && Step(h, current, sibling) == Up(h, row)[i / 2]
    ensures current == row[i] || Collision(h, Joined(current, sibling), Pair(row, i / 2))
  {
    UpAt(h, row, i / 2);
    if Joined(current, sibling) == Pair(row, i / 2) {
      StepBound(row, i / 2, current, sibling);
    }
  }

  lemma WideUp(h: Hash, row: seq<Bytes>)
    requires FixedWidth(h)
    ensures Wide(Up(h, row))
  {
    forall i | 0 <= i < |Up(h, row)| ensures |Up(h, row)[i]| == DIGEST_SIZE {
      UpAt(h, row, i);
    }
  }

  lemma MorePairs(h: Hash, row: seq<Bytes>)
    requires |row| > 1
    ensures PairInputs(h, Up(h, row)) <= PairInputs(h, row)
  {
  }

  lemma ClimbHashed(h: Hash, current: Bytes, siblings: seq<(Bytes, Side)>)
    requires |siblings| > 0
    ensures var x := Joined(current, siblings[0]);
            x in ClimbInputs(h, current, siblings) && Step(h, current, siblings[0]) == h(x)
    ensures ClimbInputs(h, Step(h, current, siblings[0]), siblings[1..]) <= ClimbInputs(h, current, siblings)
  {
  }

  // What holds one level up holds here.
  lemma LevelBound(h: Hash, row: seq<Bytes>, i: nat, current: Bytes, siblings: seq<(Bytes, Side)>)
    requires Wide(row) && |row| % 2 == 0 && i < |row| && |siblings| > 0
    requires |current| == |siblings[0].0| == DIGEST_SIZE && (siblings[0].1 == Left <==> i % 2 == 1)
    requires var next := Step(h, current, siblings[0]);
             next == Up(h, row)[i / 2] || Collide(h, ClimbInputs(h, next, siblings[1..]), PairInputs(h, Up(h, row)))
    ensures current == row[i] || Collide(h, ClimbInputs(h, current, siblings), PairInputs(h, row))
  {
    var next := Step(h, current, siblings[0]);
    MorePairs(h, row);
    ClimbHashed(h, current, siblings);
    PairHashed(h, row, i / 2);
    hide Up, ClimbInputs, PairInputs, Step, Joined, Pair;
    if next == Up(h, row)[i / 2] {
      StepPins(h, row, i, current, siblings[0]);
    } else {
      CollideMore(h, ClimbInputs(h, next, siblings[1..]), PairInputs(h, Up(h, row)),
                  ClimbInputs(h, current, siblings), PairInputs(h, row));
    }
  }

  // A proof of full depth whose directions spell i pins position i.
  lemma {:induction false} ClimbBound(h: Hash, row: seq<Bytes>, i: nat, current: Bytes, siblings: seq<(Bytes, Side)>)
    requires FixedWidth(h) && Wide(row) && |row| == Pow2(|siblings|) && i < |row|
    requires |current| == DIGEST_SIZE && forall k :: 0 <= k < |siblings| ==> |siblings[k].0| == DIGEST_SIZE
    requires Spells(siblings, i) && Climb(h, current, siblings) == Root(h, row)
    ensures current == row[i] || Collide(h, ClimbInputs(h, current, siblings), PairInputs(h, row))
    decreases |siblings|
  {
    if |siblings| == 0 {
    } else {
      hide Up, ClimbInputs, PairInputs, Step, FixedWidth, Collide;
      WideUp(h, row);
      ClimbBound(h, Up(h, row), i / 2, Step(h, current, siblings[0]), siblings[1..]);
      LevelBound(h, row, i, current, siblings);
    }
  }

  lemma StepBound(row: seq<Bytes>, j: nat, current: Bytes, sibling: (Bytes, Side))
    requires 2 * j + 1 < |row| && |row[2 * j]| == |row[2 * j + 1]| == |current| == |sibling.0|
    requires Joined(current, sibling) == Pair(row, j)
    ensures current == row[if sibling.1 == Left then 2 * j + 1 else 2 * j]
  {
    if sibling.1 == Left {
      SameHalves(sibling.0, current, row[2 * j], row[2 * j + 1]);
    } else {
      SameHalves(current, sibling.0, row[2 * j], row[2 * j + 1]);
    }
  }

  lemma {:induction false} SpelledInRange(siblings: seq<(Bytes, Side)>, i: nat)
    requires Spells(siblings, i)
    ensures i < Pow2(|siblings|)
    decreases |siblings|
  {
    if |siblings| == 0 {
    } else {
      SpelledInRange(siblings[1..], i / 2);
    }
  }

  // Soundness: a proof that verifies against a tree's root, of the tree's depth and with directions
  // spelling i, carries the hash of leaf i.
  lemma ProofSound(h: Hash, leaves: seq<Bytes>, i: nat, p: MerkleProof)
    requires FixedWidth(h) && |leaves| > 0 && |p.siblings| == Depth(|leaves|) && Spells(p.siblings, i)
    requires |p.leafHash| == DIGEST_SIZE && forall k :: 0 <= k < |p.siblings| ==> |p.siblings[k].0| == DIGEST_SIZE
    requires p.root == TreeRoot(h, leaves) && Climb(h, p.leafHash, p.siblings) == p.root
    ensures i < |Padded(leaves)|
    ensures p.leafHash == h(Padded(leaves)[i]) ||
            Collide(h, ClimbInputs(h, p.leafHash, p.siblings), TreeInputs(h, leaves))
  {
    SpelledInRange(p.siblings, i);
    var row := LeafHashes(h, Padded(leaves));
    ClimbBound(h, row, i, p.leafHash, p.siblings);
    if p.leafHash != row[i] {
      CollideMore(h, ClimbInputs(h, p.leafHash, p.siblings), PairInputs(h, row),
                  ClimbInputs(h, p.leafHash, p.siblings), TreeInputs(h, leaves));
    }
  }
}
