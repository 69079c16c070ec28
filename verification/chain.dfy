/** The ledger: a sequence of blocks and a difficulty, with the proof of work
    that mines a candidate block, the append that mines and stores it, and the
    validation walk over the stored previous-hash links. */
module Chain {
  import opened Strings
  import opened Blocks

  /** The difficulty a `PyChain` gets when none is given. */
  const DefaultDifficulty: int := 4

  /** The creator id the add-block handler stamps on every new block. */
  const HandlerCreatorId: int := 42

  // ---------------------------------------------------------------------
  // Proof of work

  /** The test the mining loop repeats: `hash.startswith("0" * difficulty)`. */
  predicate Meets(hash: string, difficulty: int) {
    StartsWith(hash, Zeros(difficulty))
  }

  /** Putting nonce `n` into `b` makes its hash meet `difficulty`. */
  predicate Solves(p: Primitives, b: BlockData, difficulty: int, n: int) {
    Meets(BlockHash(p, b.(nonce := n)), difficulty)
  }

  /** Some nonce at or above `b`'s own solves the puzzle: exactly the case in
      which the linear search stops. */
  ghost predicate Solvable(p: Primitives, b: BlockData, difficulty: int) {
    exists n :: b.nonce <= n && Solves(p, b, difficulty, n)
  }

  /** `n` is the first nonce, counting up from `b`'s own, that solves the puzzle. */
  ghost predicate LeastSolution(p: Primitives, b: BlockData, difficulty: int, n: int) {
    && b.nonce <= n
    && Solves(p, b, difficulty, n)
    && forall m :: b.nonce <= m < n ==> !Solves(p, b, difficulty, m)
  }

  /** A hash that meets a difficulty meets every lower one too. */
  lemma MeetsDownward(hash: string, d: int, e: int)
    requires Meets(hash, d) && e <= d
    ensures Meets(hash, e)
  {
  }

  /** Whenever the puzzle is solvable, there is exactly one least solution
      (see LeastSolutionUnique), which is what the search returns. */
  lemma {:induction false} LeastSolutionExists(p: Primitives, b: BlockData, difficulty: int, w: int)
    requires b.nonce <= w && Solves(p, b, difficulty, w)
    ensures exists n :: b.nonce <= n <= w && LeastSolution(p, b, difficulty, n)
    decreases w - b.nonce
  {
    if forall m :: b.nonce <= m < w ==> !Solves(p, b, difficulty, m) {
      assert LeastSolution(p, b, difficulty, w);
    } else {
      var m :| b.nonce <= m < w && Solves(p, b, difficulty, m);
      LeastSolutionExists(p, b, difficulty, m);
    }
  }

  lemma LeastSolutionUnique(p: Primitives, b: BlockData, difficulty: int, m: int, n: int)
    requires LeastSolution(p, b, difficulty, m) && LeastSolution(p, b, difficulty, n)
    ensures m == n
  {
  }

  /** At difficulty 0 or below the target is `""`, which every hash starts
      with, so the search stops at once with the nonce it was given. */
  lemma ZeroDifficultyKeepsNonce(p: Primitives, b: BlockData, difficulty: int)
    requires difficulty <= 0
    ensures LeastSolution(p, b, difficulty, b.nonce)
  {
  }

  /** A hex digest has 64 characters, so a difficulty above 64 can never be
      met: the search for such a difficulty does not terminate. */
  lemma UnsolvableAboveDigestLength(p: Primitives, b: BlockData, difficulty: int, n: int)
    requires p.HexShaped() && difficulty > 64
    ensures !Solves(p, b, difficulty, n)
  {
    var h := BlockHash(p, b.(nonce := n));
    HexShapedLength(p, b.(nonce := n));
    StartsWithZerosIff(h, difficulty);
  }

  // ---------------------------------------------------------------------
  // Chain linkage

  /** Every block after the first stores its predecessor's hash. */
  predicate Linked(p: Primitives, bs: seq<BlockData>) {
    forall i :: 1 <= i < |bs| ==> bs[i].prevHash == BlockHash(p, bs[i - 1])
  }

  /** Appending keeps a chain linked exactly when the new block names the
      hash of the old last block. */
  lemma {:induction false} AppendLinked(p: Primitives, bs: seq<BlockData>, b: BlockData)
    ensures Linked(p, bs + [b]) <==> Linked(p, bs) && (bs != [] ==> b.prevHash == BlockHash(p, bs[|bs| - 1]))
  {
    var cs := bs + [b];
    if Linked(p, cs) {
      forall i | 1 <= i < |bs|
        ensures bs[i].prevHash == BlockHash(p, bs[i - 1])
      {
        assert cs[i] == bs[i] && cs[i - 1] == bs[i - 1];
      }
      if bs != [] {
        assert cs[|bs|] == b && cs[|bs| - 1] == bs[|bs| - 1];
      }
    }
  }

  /** Overwriting the stored previous hash of any block after the first with
      a different string breaks the chain. */
  lemma TamperedLinkDetected(p: Primitives, bs: seq<BlockData>, i: int, h: string)
    requires Linked(p, bs) && 1 <= i < |bs| && h != bs[i].prevHash
    ensures !Linked(p, bs[i := bs[i].(prevHash := h)])
  {
    var cs := bs[i := bs[i].(prevHash := h)];
    assert cs[i - 1] == bs[i - 1] && cs[i].prevHash == h;
  }

  /** Replacing a block that has a successor by one with a different hash
      breaks the chain at that successor. */
  lemma TamperedBlockDetected(p: Primitives, bs: seq<BlockData>, i: int, b: BlockData)
    requires Linked(p, bs) && 0 <= i < |bs| - 1 && BlockHash(p, b) != BlockHash(p, bs[i])
    ensures !Linked(p, bs[i := b])
  {
    var cs := bs[i := b];
    assert cs[i + 1] == bs[i + 1] && cs[i] == b;
  }

  /** The block the ledger starts with: `Block("Genesis", 0)` with the default
      previous hash `"0"`, nonce 0, and the default timestamp. */
  function GenesisBlock(timestamp: string): BlockData {
    BlockData(Text("Genesis"), 0, "0", timestamp, 0)
  }

  /** The current fields of a sequence of block objects. */
  function Snapshot(bs: seq<Block>): (r: seq<BlockData>)
    reads bs
    ensures |r| == |bs|
    ensures forall i :: 0 <= i < |bs| ==> r[i] == bs[i].Data()
  {
    if bs == [] then [] else Snapshot(bs[..|bs| - 1]) + [bs[|bs| - 1].Data()]
  }

  // ---------------------------------------------------------------------
  // The ledger object

  class PyChain {
    var chain: seq<Block>
    var difficulty: int

    constructor (chain: seq<Block>, difficulty: int := DefaultDifficulty)
      ensures this.chain == chain && this.difficulty == difficulty
    {
      this.chain := chain;
      this.difficulty := difficulty;
    }

    /** Counts `block.nonce` up from its current value until the block's
        hash meets the difficulty, and returns the same block object. */
    method ProofOfWork(p: Primitives, block: Block) returns (mined: Block)
      requires Solvable(p, block.Data(), difficulty)
      modifies block`nonce
      ensures mined == block
      ensures block.Data() == old(block.Data()).(nonce := block.nonce)
      ensures LeastSolution(p, old(block.Data()), difficulty, block.nonce)
      ensures Meets(BlockHash(p, block.Data()), difficulty)
      ensures difficulty <= 0 ==> block.nonce == old(block.nonce)
    {
      ghost var start := block.Data();
      ghost var target :| start.nonce <= target && Solves(p, start, difficulty, target);
      var calculatedHash := block.HashBlock(p);
      var numOfZeros := Zeros(difficulty);
      while !StartsWith(calculatedHash, numOfZeros)
        invariant start.nonce <= block.nonce <= target
        invariant block.Data() == start.(nonce := block.nonce)
        invariant calculatedHash == BlockHash(p, block.Data())
        invariant forall m :: start.nonce <= m < block.nonce ==> !Solves(p, start, difficulty, m)
        decreases target - block.nonce
      {
        block.nonce := block.nonce + 1;
        calculatedHash := block.HashBlock(p);
      }
      if difficulty <= 0 {
        ZeroDifficultyKeepsNonce(p, start, difficulty);
        LeastSolutionUnique(p, start, difficulty, start.nonce, block.nonce);
      }
      mined := block;
    }

    /** Mines `candidate` and appends it. Nothing checks its previous hash;
        the chain stays linked when it names the hash of the current last
        block and is not already in the chain. */
    method AddBlock(p: Primitives, candidate: Block)
      requires Solvable(p, candidate.Data(), difficulty)
      modifies this`chain, candidate`nonce
      ensures chain == old(chain) + [candidate]
      ensures candidate.Data() == old(candidate.Data()).(nonce := candidate.nonce)
      ensures LeastSolution(p, old(candidate.Data()), difficulty, candidate.nonce)
      ensures candidate !in old(chain) ==> Snapshot(chain) == old(Snapshot(chain)) + [candidate.Data()]
      ensures candidate !in old(chain) && old(chain) != []
              && old(Linked(p, Snapshot(chain)))
              && candidate.prevHash == old(BlockHash(p, chain[|chain| - 1].Data()))
              ==> Linked(p, Snapshot(chain))
    {
      ghost var before := Snapshot(chain);
      var block := ProofOfWork(p, candidate);
      chain := chain + [block];
      if candidate !in old(chain) {
        assert Snapshot(old(chain)) == before;
        assert chain[..|chain| - 1] == old(chain);
        AppendLinked(p, before, candidate.Data());
      }
    }

    /** Walks the chain carrying the hash of the previous block and reports
        whether every stored previous hash matches it. Reads `chain[0]`, so
        the chain must not be empty. */
    method IsValid(p: Primitives) returns (valid: bool)
      requires chain != []
      ensures valid <==> Linked(p, Snapshot(chain))
    {
      var blockHash := chain[0].HashBlock(p);
      for i := 1 to |chain|
        invariant blockHash == BlockHash(p, chain[i - 1].Data())
        invariant forall j :: 1 <= j < i ==> chain[j].prevHash == BlockHash(p, chain[j - 1].Data())
      {
        var block := chain[i];
        if blockHash != block.prevHash {
          return false;
        }
        blockHash := block.HashBlock(p);
      }
      return true;
    }
  }

  /** The ledger a session starts with: the genesis block alone, at the
      default difficulty. `launchTime` is the default block timestamp, fixed
      once when the block class is defined. */
  method Setup(p: Primitives, launchTime: string) returns (ledger: PyChain)
    ensures fresh(ledger) && |ledger.chain| == 1 && fresh(ledger.chain[0])
    ensures Snapshot(ledger.chain) == [GenesisBlock(launchTime)]
    ensures ledger.difficulty == DefaultDifficulty
    ensures Linked(p, Snapshot(ledger.chain))
  {
    var genesis := new Block(Text("Genesis"), 0, timestamp := launchTime);
    ledger := new PyChain([genesis]);
  }

  /** The "Add Block" handler: builds a block for `record` that names the hash
      of the current last block, then mines and appends it. */
  method SubmitRecord(p: Primitives, ledger: PyChain, record: Record, launchTime: string)
    requires ledger.chain != []
    requires Solvable(p, BlockData(Transfer(record), HandlerCreatorId,
                                   BlockHash(p, ledger.chain[|ledger.chain| - 1].Data()), launchTime, 0),
                      ledger.difficulty)
    modifies ledger`chain
    ensures |ledger.chain| == |old(ledger.chain)| + 1
    ensures ledger.chain[..|ledger.chain| - 1] == old(ledger.chain)
    ensures fresh(ledger.chain[|ledger.chain| - 1])
    ensures ledger.chain[|ledger.chain| - 1].Data()
         == BlockData(Transfer(record), HandlerCreatorId, old(BlockHash(p, ledger.chain[|ledger.chain| - 1].Data())),
                      launchTime, ledger.chain[|ledger.chain| - 1].nonce)
    ensures LeastSolution(p, BlockData(Transfer(record), HandlerCreatorId,
                                       old(BlockHash(p, ledger.chain[|ledger.chain| - 1].Data())), launchTime, 0),
                          ledger.difficulty, ledger.chain[|ledger.chain| - 1].nonce)
    ensures Snapshot(ledger.chain)[..|ledger.chain| - 1] == old(Snapshot(ledger.chain))
    ensures old(Linked(p, Snapshot(ledger.chain))) ==> Linked(p, Snapshot(ledger.chain))
  {
    ghost var before := Snapshot(ledger.chain);
    var prevBlock := ledger.chain[|ledger.chain| - 1];
    var prevBlockHash := prevBlock.HashBlock(p);
    var newBlock := new Block(Transfer(record), HandlerCreatorId, prevHash := prevBlockHash, timestamp := launchTime);
    assert newBlock !in ledger.chain;
    assert Snapshot(ledger.chain) == before;
    ledger.AddBlock(p, newBlock);
    assert Snapshot(ledger.chain) == before + [newBlock.Data()];
  }
}
