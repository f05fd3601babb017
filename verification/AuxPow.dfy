/**
  Turning a solved Kaspa parent back into a ZKas block that carries its AuxPoW proof
  (bridge/src/merged.rs and the merged part of `submit_block` in bridge/src/kaspaapi.rs).

  The consensus crates are not modelled: their hash and commitment functions are fields of
  `Consensus`, and `Lawful` lists the only facts about them that are used.
 */
module AuxPow {
  import opened Wrappers
  import opened CoinbaseMerkle

  type Hash = nat

  datatype Tx = Tx(payload: seq<nat>, body: nat)

  /** `rest` stands for the header fields this code never reads or writes. */
  datatype Header = Header(merkleRoot: Hash, bits: nat, timestamp: nat, nonce: nat, daaScore: nat, rest: nat)

  datatype Block = Block(header: Header, txs: seq<Tx>)

  datatype Proof = Proof(parentHeader: Header, parentCoinbase: Tx, branch: seq<Hash>)

  datatype AuxBlock = AuxBlock(block: Block, proof: Proof)

  datatype Consensus = Consensus(
    zero: Hash,
    merge: (Hash, Hash) -> Hash,
    txHash: Tx -> Hash,
    headerHash: Header -> Hash,
    boundCommitment: (Hash, Hash) -> Hash,
    nonceBinding: Header -> nat,
    embed: Hash -> seq<nat>,
    embedV1: Hash -> seq<nat>,
    extract: seq<nat> -> Option<Hash>,
    extractV1: seq<nat> -> Option<Hash>)
  {
    /** A tagged commitment reads back, and the `ZKM1` tag is not mistaken for `ZKMM`. */
    ghost predicate Lawful() {
      && (forall h: Hash :: extract(embed(h)) == Some(h))
      && (forall h: Hash :: extractV1(embedV1(h)) == Some(h) && extract(embedV1(h)) == None)
    }

    /** The key work is stored under; `bound` is the genesis hash from the security fork on. */
    function MergeKey(fc: Block, bound: Option<Hash>): Hash {
      match bound
      case None => headerHash(fc.header)
      case Some(genesis) => boundCommitment(genesis, headerHash(fc.header.(nonce := 0)))
    }

    function MergeExtraData(fc: Block, bound: Option<Hash>): seq<nat> {
      match bound
      case None => embed(MergeKey(fc, bound))
      case Some(_) => embedV1(MergeKey(fc, bound))
    }

    /** The key a parent commits to, under either tag. */
    function CommittedKey(parent: Block): Option<Hash> {
      if parent.txs == [] then None
      else
        match extract(parent.txs[0].payload)
        case Some(h) => Some(h)
        case None => extractV1(parent.txs[0].payload)
    }

    /** The hash that lands on the ZKas chain for `fc` solved by `parent`. */
    function ChainHash(parent: Block, fc: Block, bound: Option<Hash>): Hash {
      match bound
      case None => headerHash(fc.header)
      case Some(_) => headerHash(fc.header.(nonce := nonceBinding(parent.header)))
    }

    ghost function TxHashes(txs: seq<Tx>): (r: seq<Hash>)
      ensures |r| == |txs| && forall i :: 0 <= i < |txs| ==> r[i] == txHash(txs[i])
    {
      seq(|txs|, i requires 0 <= i < |txs| => txHash(txs[i]))
    }

    /** The header's Merkle root is the root of the smallest tree over the block's transactions. */
    ghost predicate RootIsTree(b: Block) {
      exists k: nat :: IsHeight(|b.txs|, k) &&
                       b.txs != [] && b.header.merkleRoot == Tree(TxHashes(b.txs), k, merge, zero)
    }

    /** A block the Kaspa node returns when asked to put `extra` into its coinbase. */
    ghost predicate IsParentCarrying(parent: Block, extra: seq<nat>) {
      && parent.txs != []
      && RootIsTree(parent)
      && extract(parent.txs[0].payload) == extract(extra)
      && extractV1(parent.txs[0].payload) == extractV1(extra)
    }

    /**
      The verifier's side: the proof's coinbase commits, under the tag in force, to the key
      recomputed from the block itself, it is included in the parent's Merkle root, and from
      the fork on the block's nonce names that parent.
     */
    ghost predicate Verifies(aux: AuxBlock, bound: Option<Hash>) {
      var header, payload := aux.block.header, aux.proof.parentCoinbase.payload;
      && Fold(txHash(aux.proof.parentCoinbase), aux.proof.branch, merge) == aux.proof.parentHeader.merkleRoot
      && match bound
         case None => extract(payload) == Some(headerHash(header))
         case Some(genesis) =>
           && extractV1(payload) == Some(boundCommitment(genesis, headerHash(header.(nonce := 0))))
           && header.nonce == nonceBinding(aux.proof.parentHeader)
    }
  }

  method HashAll(c: Consensus, txs: seq<Tx>) returns (hashes: seq<Hash>)
    ensures hashes == c.TxHashes(txs)
  {
    hashes := [];
    for i := 0 to |txs|
      invariant hashes == c.TxHashes(txs)[..i]
    {
      hashes := hashes + [c.txHash(txs[i])];
    }
  }

  /** `assemble_aux_block`; indexing the coinbase needs a parent with a transaction. */
  method AssembleAuxBlock(c: Consensus, parent: Block, fc: Block, bound: Option<Hash>) returns (aux: AuxBlock)
    requires parent.txs != []
    ensures c.headerHash(aux.block.header) == c.ChainHash(parent, fc, bound)
    ensures aux.block.header == if bound.None? then fc.header else fc.header.(nonce := c.nonceBinding(parent.header))
    ensures aux.block.txs == fc.txs && aux.proof.parentHeader == parent.header
    ensures aux.proof.parentCoinbase == parent.txs[0]
    ensures c.RootIsTree(parent) ==>
              Fold(c.txHash(parent.txs[0]), aux.proof.branch, c.merge) == parent.header.merkleRoot
    ensures c.Lawful() && c.IsParentCarrying(parent, c.MergeExtraData(fc, bound)) ==> c.Verifies(aux, bound)
    ensures c.MergeKey(aux.block, bound) == c.MergeKey(fc, bound)
  {
    var hashes := HashAll(c, parent.txs);
    var branch := CoinbaseMerkleBranch(hashes, c.merge, c.zero);
    var header := if bound.Some? then fc.header.(nonce := c.nonceBinding(parent.header)) else fc.header;
    assert bound.Some? ==> header.(nonce := 0) == fc.header.(nonce := 0);
    aux := AuxBlock(Block(header, fc.txs), Proof(parent.header, parent.txs[0], branch));
    if c.RootIsTree(parent) {
      ghost var k: nat :| IsHeight(|parent.txs|, k) && parent.header.merkleRoot == Tree(hashes, k, c.merge, c.zero);
      HeightUnique(|parent.txs|, k, |branch|);
    }
  }

  /** Every parent built to carry a template's commitment maps back to that template's key. */
  lemma ParentMapsBack(c: Consensus, parent: Block, fc: Block, bound: Option<Hash>)
    requires c.Lawful() && c.IsParentCarrying(parent, c.MergeExtraData(fc, bound))
    ensures c.CommittedKey(parent) == Some(c.MergeKey(fc, bound))
    ensures c.extract(parent.txs[0].payload) == if bound.None? then Some(c.MergeKey(fc, bound)) else None
  {
    assert c.extract(c.embed(c.MergeKey(fc, bound))) == Some(c.MergeKey(fc, bound));
    assert c.extractV1(c.embedV1(c.MergeKey(fc, bound))) == Some(c.MergeKey(fc, bound));
  }

  /** The coinbase carries the key under the legacy tag, or under the fork's tag and not the legacy one. */
  ghost predicate ReadsAs(c: Consensus, coinbase: Tx, key: Hash) {
    || c.extract(coinbase.payload) == Some(key)
    || (c.extract(coinbase.payload) == None && c.extractV1(coinbase.payload) == Some(key))
  }

  /** The template is pending under its own merge key and the parent carries its commitment. */
  ghost predicate CarriesPending(c: Consensus, parent: Block, pending: map<Hash, Block>, forms: nat -> Option<Hash>,
                                 fc: Block)
  {
    var bound := forms(fc.header.daaScore);
    && c.MergeKey(fc, bound) in pending && pending[c.MergeKey(fc, bound)] == fc
    && c.IsParentCarrying(parent, c.MergeExtraData(fc, bound))
  }

  /**
    The merged part of `submit_block`: look the committed key up in the pending work and
    assemble. `forms` is the fork rule as a function of the ZKas DAA score.
   */
  method AssembleForSubmission(c: Consensus, parent: Block, pending: map<Hash, Block>, forms: nat -> Option<Hash>)
    returns (r: Option<AuxBlock>)
    ensures r.Some? <==> c.CommittedKey(parent).Some? && c.CommittedKey(parent).value in pending
    ensures r.Some? ==> parent.txs != []
    ensures r.Some? ==>
              exists key :: key in pending && ReadsAs(c, parent.txs[0], key) && r.value.block.txs == pending[key].txs
    ensures r.None? ==> parent.txs == [] || forall key :: key in pending ==> !ReadsAs(c, parent.txs[0], key)
    ensures r.Some? && c.Lawful() ==>
              var fc := pending[c.CommittedKey(parent).value];
              var bound := forms(fc.header.daaScore);
              c.headerHash(r.value.block.header) == c.ChainHash(parent, fc, bound) &&
              (c.IsParentCarrying(parent, c.MergeExtraData(fc, bound)) ==> c.Verifies(r.value, bound))
    ensures forall fc :: c.Lawful() && CarriesPending(c, parent, pending, forms, fc) ==>
              r.Some? && r.value.block.txs == fc.txs && c.Verifies(r.value, forms(fc.header.daaScore))
  {
    forall fc | c.Lawful() && CarriesPending(c, parent, pending, forms, fc)
      ensures c.CommittedKey(parent) == Some(c.MergeKey(fc, forms(fc.header.daaScore)))
    {
      ParentMapsBack(c, parent, fc, forms(fc.header.daaScore));
    }
    var key := c.CommittedKey(parent);
    if key.None? || key.value !in pending {
      return None;
    }
    var fc := pending[key.value];
    var aux := AssembleAuxBlock(c, parent, fc, forms(fc.header.daaScore));
    r := Some(aux);
  }

  /** `build_parent_block`: a one-transaction synthetic parent with the ZKas target. */
  method BuildParentBlock(c: Consensus, fc: Block, bound: Option<Hash>, rest: nat) returns (parent: Block, key: Hash)
    ensures key == c.MergeKey(fc, bound)
    ensures c.IsParentCarrying(parent, c.MergeExtraData(fc, bound))
    ensures parent.header.bits == fc.header.bits && parent.header.timestamp == fc.header.timestamp
    ensures c.Lawful() ==> c.CommittedKey(parent) == Some(key)
  {
    key := c.MergeKey(fc, bound);
    var coinbase := Tx(c.MergeExtraData(fc, bound), 0);
    var header := Header(c.txHash(coinbase), fc.header.bits, fc.header.timestamp, 0, 0, rest);
    parent := Block(header, [coinbase]);
    assert IsHeight(1, 0);
    assert Tree(c.TxHashes(parent.txs), 0, c.merge, c.zero) == c.txHash(coinbase);
    if c.Lawful() {
      ParentMapsBack(c, parent, fc, bound);
    }
  }
}
