// Inference proofs: a signed commitment to the run and the root of a Merkle tree over the output
// tokens. Tokens are leaves of four big-endian bytes; a token that does not fit raises OverflowError,
// which nobody catches.
module VerificationPipeline {
  import opened ByteStrings
  import opened Collections
  import opened Merkle
  import opened Outcomes

  type Token = int

  predicate Encodable(t: Token) {
    0 <= t < 0x1_0000_0000
  }

  function Leaves(tokens: seq<Token>): Result<seq<Bytes>> {
    if forall i :: 0 <= i < |tokens| ==> Encodable(tokens[i])
    then Ok(seq(|tokens|, i requires 0 <= i < |tokens| && Encodable(tokens[i]) => BigEndian(tokens[i], 4)))
    else Err(OverflowError)
  }

  lemma LeavesInjective(a: seq<Token>, b: seq<Token>)
    requires Leaves(a).Ok? && Leaves(b).Ok? && Leaves(a).value == Leaves(b).value
    ensures a == b
  {
    Widths();
    assert |a| == |Leaves(a).value| == |b|;
    forall i | 0 <= i < |a| ensures a[i] == b[i] {
      assert Leaves(a).value[i] == Leaves(b).value[i];
      BigEndianInjective(a[i], b[i], 4);
    }
  }

  // The root that a list of tokens commits to.
  function TokenRoot(h: Hash, tokens: seq<Token>): Result<Bytes> {
    match Leaves(tokens)
    case Err(e) => Err(e)
    case Ok(leaves) => if |tokens| == 0 then Err(ValueError) else Ok(TreeRoot(h, leaves))
  }

  // ----- the signed commitment -----

  // Ed25519 or its HMAC fallback, the sketch of an activation sample, and the name of a node that
  // gives none.
  datatype Crypto = Crypto(sign: (Bytes, Bytes) -> Bytes, verify: (Bytes, Bytes, Bytes) -> bool,
      publicKey: Bytes -> Bytes,
                           sketch: Bytes -> Bytes, nameOf: Bytes -> Bytes)

  // Texts are their UTF-8 bytes, the timestamp its eight packed bytes, the signature what its base-64
  // text decodes to, if it does.
  datatype ComputeCommitment = ComputeCommitment(jobId: Bytes, inputHash: Bytes, outputHash: Bytes,
      activationSketch: Bytes,
                                                 timestamp: Bytes, nodeId: Bytes, signature: Option<Bytes>)

  // _build_payload
  function Payload(c: ComputeCommitment): Bytes {
    c.jobId + [0] + c.inputHash + c.outputHash + c.activationSketch + c.timestamp + c.nodeId
  }

  // InferenceVerifier.create_commitment
  function CreateCommitment(h: Hash, crypto: Crypto, jobId: Bytes, inputIds: Bytes, outputIds: Bytes, sample: Bytes,
                            key: Bytes, nodeId: Bytes, timestamp: Bytes): ComputeCommitment {
    var name := if |nodeId| == 0 then crypto.nameOf(key) else nodeId;
    var unsigned := ComputeCommitment(jobId, h(inputIds), h(outputIds), crypto.sketch(sample), timestamp, name, None);
    unsigned.(signature := Some(crypto.sign(Payload(unsigned), key)))
  }

  // InferenceVerifier.verify_commitment
  predicate VerifyCommitment(crypto: Crypto, c: ComputeCommitment, expectedInputHash: Bytes, publicKey: Bytes) {
    && c.inputHash == expectedInputHash
    && c.signature.Some?
    && crypto.verify(Payload(c), c.signature.value, publicKey)
  }

  lemma SplitAt(a: Bytes, b: Bytes, x: Bytes, y: Bytes)
    requires a + x == b + y && |a| == |b|
    ensures a == b && x == y
  {
    assert a == (a + x)[..|a|] && b == (b + y)[..|b|];
    assert x == (a + x)[|a|..] && y == (b + y)[|b|..];
  }

  lemma FirstZero(a: Bytes, x: Bytes, i: nat)
    requires 0 !in a && i <= |a|
    ensures (a + [0] + x)[i] == 0 <==> i == |a|
  {
    assert i < |a| ==> (a + [0] + x)[i] == a[i];
  }

  lemma SplitAtZero(a: Bytes, b: Bytes, x: Bytes, y: Bytes)
    requires a + [0] + x == b + [0] + y && 0 !in a && 0 !in b
    ensures a == b && x == y
  {
    var i := Smaller(|a|, |b|);
    FirstZero(a, x, i);
    FirstZero(b, y, i);
    assert a == (a + [0] + x)[..i] && b == (b + [0] + y)[..i];
    assert x == (a + [0] + x)[i + 1..] && y == (b + [0] + y)[i + 1..];
  }

  // What is signed determines every field of the commitment, for hashes, sketches and timestamps of
  // fixed lengths and job ids without a zero byte.
  lemma PayloadBinds(a: ComputeCommitment, b: ComputeCommitment)
    requires Payload(a) == Payload(b) && 0 !in a.jobId && 0 !in b.jobId
    requires |a.inputHash| == |b.inputHash| && |a.outputHash| == |b.outputHash|
    requires |a.activationSketch| == |b.activationSketch| && |a.timestamp| == |b.timestamp|
    ensures a == b.(signature := a.signature)
  {
    var restA := a.inputHash + (a.outputHash + (a.activationSketch + (a.timestamp + a.nodeId)));
    var restB := b.inputHash + (b.outputHash + (b.activationSketch + (b.timestamp + b.nodeId)));
    assert Payload(a) == a.jobId + [0] + restA && Payload(b) == b.jobId + [0] + restB;
    SplitAtZero(a.jobId, b.jobId, restA, restB);
    SplitAt(a.inputHash, b.inputHash, a.outputHash + (a.activationSketch + (a.timestamp + a.nodeId)),
            b.outputHash + (b.activationSketch + (b.timestamp + b.nodeId)));
    SplitAt(a.outputHash, b.outputHash, a.activationSketch + (a.timestamp + a.nodeId),
        b.activationSketch + (b.timestamp + b.nodeId));
    SplitAt(a.activationSketch, b.activationSketch, a.timestamp + a.nodeId, b.timestamp + b.nodeId);
    SplitAt(a.timestamp, b.timestamp, a.nodeId, b.nodeId);
  }

  // ----- proofs -----

  datatype InferenceProof = InferenceProof(commitment: ComputeCommitment, outputMerkleRoot: Bytes, tokenCount: nat)

  // What a node is asked to prove, and what it has to do so with.
  datatype Job = Job(jobId: Bytes, inputIds: Bytes, sample: Bytes, nodeId: Bytes, timestamp: Bytes)

  // The big-endian words, one after the other.
  function OutputIds(leaves: seq<Bytes>): Bytes {
    if |leaves| == 0 then [] else leaves[0] + OutputIds(leaves[1..])
  }

  // Byte by byte: four for each token, the most significant first.
  lemma OutputIdsAt(tokens: seq<Token>, i: nat, j: nat)
    requires Leaves(tokens).Ok? && i < |tokens| && j < 4
    ensures |OutputIds(Leaves(tokens).value)| == 4 * |tokens|
    ensures OutputIds(Leaves(tokens).value)[4 * i + j] == tokens[i] / Power256(3 - j) % 256
  {
    var leaves := Leaves(tokens).value;
    FourEach(leaves);
    LeafAt(leaves, i, j);
    ByteAt(tokens[i], 4, j);
  }

  lemma {:induction false} FourEach(leaves: seq<Bytes>)
    requires forall i :: 0 <= i < |leaves| ==> |leaves[i]| == 4
    ensures |OutputIds(leaves)| == 4 * |leaves|
  {
    if |leaves| == 0 {
    } else {
      FourEach(leaves[1..]);
    }
  }

  lemma {:induction false} LeafAt(leaves: seq<Bytes>, i: nat, j: nat)
    requires (forall k :: 0 <= k < |leaves| ==> |leaves[k]| == 4) && i < |leaves| && j < 4
    ensures 4 * i + j < |OutputIds(leaves)| && OutputIds(leaves)[4 * i + j] == leaves[i][j]
  {
    if i == 0 {
    } else {
      LeafAt(leaves[1..], i - 1, j);
      assert OutputIds(leaves)[4 * i + j] == OutputIds(leaves[1..])[4 * (i - 1) + j];
    }
  }

  // ProofBuilder.build_proof
  method BuildProof(h: Hash, crypto: Crypto, key: Bytes, job: Job, outputTokens: seq<Token>)
    returns (r: Result<InferenceProof>)
    ensures r == match TokenRoot(h, outputTokens)
                 case Err(e) => Err(e)
                 case Ok(root) => Ok(InferenceProof(
                   CreateCommitment(h, crypto, job.jobId, job.inputIds, OutputIds(Leaves(outputTokens).value),
                       job.sample, key,
                                    job.nodeId, job.timestamp),
                   root, |outputTokens|))
    ensures r.Ok? ==>
              var c := r.value.commitment;
              && Leaves(outputTokens).Ok? && |outputTokens| > 0 && r.value.tokenCount == |outputTokens|
              && r.value.outputMerkleRoot == TreeRoot(h, Leaves(outputTokens).value)
              && c.jobId == job.jobId && c.inputHash == h(job.inputIds)
              && c.outputHash == h(OutputIds(Leaves(outputTokens).value))
              && c.activationSketch == crypto.sketch(job.sample) && c.timestamp == job.timestamp
              && c.nodeId == (if |job.nodeId| == 0 then crypto.nameOf(key) else job.nodeId)
              && c.signature == Some(crypto.sign(c.jobId + [0] + c.inputHash + c.outputHash + c.activationSketch +
                                                 c.timestamp + c.nodeId, key))
  {
    var leaves := Leaves(outputTokens);
    if leaves.Err? {
      return Err(leaves.error);
    }
    var commitment := CreateCommitment(h, crypto, job.jobId, job.inputIds, OutputIds(leaves.value), job.sample, key,
        job.nodeId,
                                       job.timestamp);
    var tree := NewTree(h, leaves.value);
    if tree.Err? {
      return Err(tree.error);
    }
    var levels := tree.value.levels;
    return Ok(InferenceProof(commitment, levels[|levels| - 1][0], |outputTokens|));
  }

  // What verify_proof comes to.
  function ProofOutcome(h: Hash, crypto: Crypto, proof: InferenceProof, expectedInputHash: Bytes, publicKey: Bytes,
                        tokens: Option<seq<Token>>): Result<bool> {
    if !VerifyCommitment(crypto, proof.commitment, expectedInputHash, publicKey) then Ok(false)
    else if tokens == None then Ok(true)
    else match TokenRoot(h, tokens.value)
         case Ok(root) => Ok(root == proof.outputMerkleRoot)
         case Err(e) => if |tokens.value| == 0 then Ok(false) else Err(OverflowError)
  }

  // ProofVerifier.verify_proof
  method VerifyProof(h: Hash, crypto: Crypto, proof: InferenceProof, expectedInputHash: Bytes, publicKey: Bytes,
                     tokens: Option<seq<Token>>)
    returns (r: Result<bool>)
    ensures r == ProofOutcome(h, crypto, proof, expectedInputHash, publicKey, tokens)
    ensures var c := proof.commitment;
            r == Ok(true) <==>
              && c.inputHash == expectedInputHash && c.signature.Some?
              && crypto.verify(c.jobId + [0] + c.inputHash + c.outputHash + c.activationSketch + c.timestamp + c.nodeId,
                               c.signature.value, publicKey)
              && (tokens.Some? ==>
                    && |tokens.value| > 0 && Leaves(tokens.value).Ok?
                    && TreeRoot(h, Leaves(tokens.value).value) == proof.outputMerkleRoot)
  {
    if !VerifyCommitment(crypto, proof.commitment, expectedInputHash, publicKey) {
      return Ok(false);
    }
    if tokens.Some? {
      if |tokens.value| == 0 {
        return Ok(false);
      }
      var leaves := Leaves(tokens.value);
      if leaves.Err? {
        return Err(leaves.error);
      }
      var tree := NewTree(h, leaves.value);
      var levels := tree.value.levels;
      if levels[|levels| - 1][0] != proof.outputMerkleRoot {
        return Ok(false);
      }
    }
    return Ok(true);
  }

  // Signatures made with a key verify under its public key, and under no other.
  ghost predicate Genuine(crypto: Crypto) {
    forall payload, key, public: Bytes :: crypto.verify(payload, crypto.sign(payload, key), public) <==>
      public == crypto.publicKey(key)
  }

  // A proof as built is accepted with the expected input, under the node's key and for the tokens it
  // was built from, and with no other input hash or key.
  method BuildAndVerify(h: Hash, crypto: Crypto, key: Bytes, job: Job, outputTokens: seq<Token>,
                        expectedInputHash: Bytes, publicKey: Bytes)
    returns (r: Result<bool>)
    requires Genuine(crypto)
    ensures match TokenRoot(h, outputTokens)
            case Err(e) => r == Err(e)
            case Ok(_) => r == Ok(expectedInputHash == h(job.inputIds) && publicKey == crypto.publicKey(key))
  {
    var proof := BuildProof(h, crypto, key, job, outputTokens);
    if proof.Err? {
      return Err(proof.error);
    }
    r := VerifyProof(h, crypto, proof.value, expectedInputHash, publicKey, Some(outputTokens));
    ghost var c := proof.value.commitment;
    assert Payload(c) == Payload(c.(signature := None));
  }

  // ProofVerifier.verify_token_at_index: true exactly for an index that is not negative, at which the
  // token is the claimed one, in a list that has the proof's root.
  method VerifyTokenAtIndex(h: Hash, proof: InferenceProof, tokenId: Token, tokenIndex: int, tokens: seq<Token>)
    returns (r: Result<bool>)
    ensures r.Err? <==> exists i :: 0 <= i < |tokens| && !Encodable(tokens[i])
    ensures r.Err? ==> r == Err(OverflowError)
    ensures r.Ok? ==> (r.value <==>
              && 0 <= tokenIndex < |tokens| && tokens[tokenIndex] == tokenId
              && TokenRoot(h, tokens) == Ok(proof.outputMerkleRoot))
  {
    if |tokens| == 0 {
      return Ok(false);
    }
    var leaves := Leaves(tokens);
    if leaves.Err? {
      return Err(leaves.error);
    }
    var tree := NewTree(h, leaves.value);
    var at := PyIndex(tokenIndex, |tokens|);
    if at.None? {
      return Ok(false);
    }
    if tokens[at.value] != tokenId {
      return Ok(false);
    }
    var merkleProof := GetProof(h, leaves.value, tree.value, tokenIndex);
    if merkleProof.Err? {
      return Ok(false);
    }
    var ok := Verify(h, merkleProof.value);
    var levels := tree.value.levels;
    return Ok(ok && levels[|levels| - 1][0] == proof.outputMerkleRoot);
  }

  // ----- what an accepted root says about the tokens -----

  // The tokens, the last one repeated up to a power of two.
  function PaddedTokens(tokens: seq<Token>): seq<Token>
    requires |tokens| > 0
  {
    tokens + seq(Pow2(Depth(|tokens|)) - |tokens|, _ => tokens[|tokens| - 1])
  }

  lemma PaddedLeaves(tokens: seq<Token>)
    requires |tokens| > 0 && Leaves(tokens).Ok?
    ensures Leaves(PaddedTokens(tokens)) == Ok(Padded(Leaves(tokens).value))
  {
    assert Leaves(PaddedTokens(tokens)).value == Padded(Leaves(tokens).value);
  }

  // Whatever tokens are accepted pad to what the committed ones pad to.
  lemma AcceptedTokens(h: Hash, a: seq<Token>, b: seq<Token>)
    requires FixedWidth(h) && TokenRoot(h, a).Ok? && TokenRoot(h, a) == TokenRoot(h, b)
    ensures PaddedTokens(a) == PaddedTokens(b) ||
            Collide(h, TreeInputs(h, Leaves(a).value), TreeInputs(h, Leaves(b).value))
  {
    PaddedLeaves(a);
    PaddedLeaves(b);
    BindingOfAnyLength(h, Leaves(a).value, Leaves(b).value);
    if Padded(Leaves(a).value) == Padded(Leaves(b).value) {
      LeavesInjective(PaddedTokens(a), PaddedTokens(b));
    }
  }

  // Collision-free, two token lists have the same root exactly when they pad to the same tokens. The
  // token count of the proof is not compared.
  lemma SameRootIff(h: Hash, a: seq<Token>, b: seq<Token>)
    requires FixedWidth(h) && TokenRoot(h, a).Ok? && TokenRoot(h, b).Ok?
    requires !Collide(h, TreeInputs(h, Leaves(a).value), TreeInputs(h, Leaves(b).value))
    ensures TokenRoot(h, a) == TokenRoot(h, b) <==> PaddedTokens(a) == PaddedTokens(b)
  {
    PaddedLeaves(a);
    PaddedLeaves(b);
    if TokenRoot(h, a) == TokenRoot(h, b) {
      AcceptedTokens(h, a, b);
    }
  }

  // So of as many tokens as were committed to, only the committed ones are.
  lemma AcceptedAsMany(h: Hash, a: seq<Token>, b: seq<Token>)
    requires FixedWidth(h) && |a| == |b| && TokenRoot(h, a).Ok? && TokenRoot(h, a) == TokenRoot(h, b)
    ensures a == b || Collide(h, TreeInputs(h, Leaves(a).value), TreeInputs(h, Leaves(b).value))
  {
    AcceptedTokens(h, a, b);
    if PaddedTokens(a) == PaddedTokens(b) {
      assert a == PaddedTokens(a)[..|a|] == PaddedTokens(b)[..|b|] == b;
    }
  }

  // Repeating the last token up to the padded length goes unnoticed.
  lemma RepeatedTokensAccepted(h: Hash, a: seq<Token>)
    requires TokenRoot(h, a).Ok?
    ensures TokenRoot(h, PaddedTokens(a)) == TokenRoot(h, a)
  {
    PaddedLeaves(a);
    PaddingNotBound(h, Leaves(a).value);
  }
}
