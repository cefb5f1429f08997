/** Accepting a block into the tree: the contextual header checks of accept.go, which look back along the new
    block's ancestors, and the checkpoint lock-in of checkpoints.go. */
module Accept {
  import opened Arith
  import opened Ledger
  import opened Validate
  import opened Wrappers
  import opened Spending
  import opened Supply
  import opened Chain
  import opened CompactBits
  import opened Retarget
  import opened MedianTime

  datatype Checkpoint = Checkpoint(height: nat, hash: Hash)

  // A block fetched from the database together with its height.
  datatype LockIn = LockIn(block: Block, height: nat)

  datatype Rejection =
    | MissingParent | MissingCheckpoint | UnexpectedDifficulty | TimeTooOld | UnfinalizedTx | BadCheckpoint
    | ForkTooOld | BlockVersionTooOld | ProofOfStakeCheck | CannotConnect

  datatype Outcome = Accepted | Rejected(why: Rejection)

  // The order in which the reasons to refuse a block are looked at.
  function Turn(why: Rejection): nat {
    match why
    case UnexpectedDifficulty => 1
    case TimeTooOld => 2
    case UnfinalizedTx => 3
    case BadCheckpoint => 4
    case ForkTooOld => 5
    case BlockVersionTooOld => 6
    case ProofOfStakeCheck => 7
    case _ => 0
  }

  /** The verdicts of the rules outside this model: finalized transactions, block versions with serialized
      heights, and the kernel check of a proof-of-stake block. */
  datatype Rules = Rules(finalized: bool, version: bool, stake: bool)

  const ONE_LSH_256: nat := 0x1_0000000000000000_0000000000000000_0000000000000000_0000000000000000

  /** CalcTrust: the work a block adds to its chain. */
  function CalcTrust(bits: U32, proofOfStake: bool): nat {
    var target := CompactToBig(bits);
    if target <= 0 then 0 else if !proofOfStake then 1 else Quotient(ONE_LSH_256, target + 1)
  }

  /** A positive target adds 1 to the trust when the block is proof-of-work, and when it is proof-of-stake the number of
      times the target and one go into 2^256; others add nothing. */
  lemma TrustIs(bits: U32, proofOfStake: bool)
    ensures var target, trust := CompactToBig(bits), CalcTrust(bits, proofOfStake);
      && (target <= 0 ==> trust == 0)
      && (target > 0 && !proofOfStake ==> trust == 1)
      && (target > 0 && proofOfStake ==> trust * (target + 1) <= Pow256(32) < (trust + 1) * (target + 1))
  {
    hide CompactToBig, Pow256;
    SmallPowers();
    PowSum(2, 2);
    PowSum(4, 4);
    PowSum(8, 8);
    PowSum(16, 16);
    if CompactToBig(bits) > 0 {
      DivFacts(ONE_LSH_256, CompactToBig(bits) + 1);
    }
  }

  /** Of two stake blocks the one with the smaller target adds at least as much, and all positive targets add the
      same when the block is proof-of-work. */
  lemma SmallerTargetMoreTrust(a: U32, b: U32, proofOfStake: bool)
    requires 0 < CompactToBig(a) <= CompactToBig(b)
    ensures CalcTrust(b, proofOfStake) <= CalcTrust(a, proofOfStake)
    ensures !proofOfStake ==> CalcTrust(a, proofOfStake) == CalcTrust(b, proofOfStake)
  {
    hide CompactToBig;
    var p: nat, q: nat := CompactToBig(a) + 1, CompactToBig(b) + 1;
    if proofOfStake {
      QuotientFalls(ONE_LSH_256, p, q);
    }
  }

  function TotalTrust(chain: seq<Block>): nat {
    if chain == [] then 0
    else
      var last := chain[|chain| - 1];
      TotalTrust(chain[..|chain| - 1]) + CalcTrust(last.bits, last.proofOfStake)
  }

  function Times(chain: seq<Block>): (times: seq<int>)
    ensures |times| == |chain|
    ensures forall i :: 0 <= i < |chain| ==> times[i] == chain[i].timestamp
  {
    seq(|chain|, i requires 0 <= i < |chain| => chain[i].timestamp)
  }

  predicate MatchesCheckpoints(checkpoints: seq<Checkpoint>, height: nat, hash: Hash) {
    forall c :: c in checkpoints && c.height == height ==> c.hash == hash
  }

  predicate Ascending(checkpoints: seq<Checkpoint>) {
    forall i, j :: 0 <= i < j < |checkpoints| ==> checkpoints[i].height < checkpoints[j].height
  }

  predicate DistinctHashes(checkpoints: seq<Checkpoint>) {
    forall i, j :: 0 <= i < j < |checkpoints| ==> checkpoints[i].hash != checkpoints[j].hash
  }

  // The map of checkpoints by height that New builds.
  method ByHeight(checkpoints: seq<Checkpoint>) returns (byHeight: map<nat, Checkpoint>)
    requires Ascending(checkpoints)
    ensures forall h :: h in byHeight ==> byHeight[h] in checkpoints && byHeight[h].height == h
    ensures forall c :: c in checkpoints ==> c.height in byHeight
  {
    byHeight := map[];
    for i := 0 to |checkpoints|
      invariant forall h :: h in byHeight ==> byHeight[h] in checkpoints && byHeight[h].height == h
      invariant forall j :: 0 <= j < i ==> checkpoints[j].height in byHeight
    {
      byHeight := byHeight[checkpoints[i].height := checkpoints[i]];
    }
  }

  // The header of a block after `below` carries the required difficulty and a late enough timestamp.
  ghost predicate GoodHeader(limits: Limits, below: seq<Block>, block: Block) {
    && block.bits == NextRequired(limits, below, block.proofOfStake)
    && (below != [] ==> block.timestamp > PastMedian(Times(below)))
  }

  // What that means for the bits and the timestamp.
  lemma GoodHeaderRules(limits: Limits, below: seq<Block>, block: Block)
    requires below != [] && GoodHeader(limits, below, block)
    ensures Retargets(limits, below, block.proofOfStake, block.bits)
    ensures forall m :: IsMedian(LastEleven(Times(below)), m) ==> m < block.timestamp
  {
    hide Retargets, IsMedian, NextRequired, PastMedian;
    RequiredRetargets(limits, below, block.proofOfStake);
    PastMedianIsMedian(Times(below));
    forall m | IsMedian(LastEleven(Times(below)), m) ensures m < block.timestamp {
      MedianIsUnique(LastEleven(Times(below)), m, PastMedian(Times(below)));
    }
  }

  // What every node in the tree was screened for when it was accepted.
  ghost predicate Screened(limits: Limits, checkpoints: seq<Checkpoint>, n: BlockNode) {
    && n.workSum == TotalTrust(Blocks(Path(n)))
    && MatchesCheckpoints(checkpoints, n.height, n.hash)
    && (n.parent != null ==> GoodHeader(limits, Blocks(n.ancestors), n.block))
  }

  ghost predicate Linked(chain: seq<Block>) {
    forall i :: 1 <= i < |chain| ==> chain[i].prevHash == chain[i - 1].hash
  }

  /** The hypotheses about hashes, for a set of blocks: a hash names one block and one transaction, and the coinbases of
      a validated chain differ. */
  ghost predicate Collisionless(net: Network, universe: iset<Block>, genesis: Block) {
    && (forall a, b :: a in universe && b in universe && a.hash == b.hash ==> a == b)
    && OneTx(universe)
    && (forall chain: seq<Block> :: ChainOf(universe, genesis, chain) && Validated(net, chain) ==>
          CoinBasesDiffer(Steps(chain)))
  }

  ghost predicate OneTx(universe: iset<Block>) {
    forall a, b, tx, other ::
      a in universe && b in universe && tx in a.txs && other in b.txs && tx.hash == other.hash ==> tx == other
  }

  ghost predicate ChainOf(universe: iset<Block>, genesis: Block, chain: seq<Block>) {
    |chain| > 0 && chain[0] == genesis && Linked(chain) && forall b :: b in chain ==> b in universe
  }

  /** The checkpoints are right: a block with a checkpoint's hash lies at the checkpoint's height in every chain from
      genesis, and a checkpoint at height 0 is genesis. */
  ghost predicate RightCheckpoints(checkpoints: seq<Checkpoint>, universe: iset<Block>, genesis: Block) {
    && (forall c :: c in checkpoints && c.height == 0 ==> c.hash == genesis.hash)
    && (forall chain: seq<Block>, c ::
          ChainOf(universe, genesis, chain) && c in checkpoints && chain[|chain| - 1].hash == c.hash ==>
            c.height == |chain| - 1)
  }

  /** Along a validated chain of the universe no transaction is created again. */
  lemma ChainReusesNothing(net: Network, universe: iset<Block>, genesis: Block, chain: seq<Block>)
    requires Collisionless(net, universe, genesis) && ChainOf(universe, genesis, chain) && Validated(net, chain)
    ensures NoReuse(Steps(chain))
  {
    hide Validated, NoReuse;
    var steps := Steps(chain);
    forall i, j | 0 <= i < j < |steps| && steps[i].tx.hash == steps[j].tx.hash ensures steps[i].tx == steps[j].tx {
      var a := StepInBlock(chain, i);
      var b := StepInBlock(chain, j);
      assert chain[a] in universe && chain[b] in universe;
    }
    NothingCreatedAgain(net, chain);
  }

  // The newest block with that hash in the database, and its height.
  function Locate(db: seq<Block>, h: Hash): (found: Option<LockIn>)
    ensures found.Some? ==> found.value.height < |db| && db[found.value.height] == found.value.block
    ensures found.Some? ==> found.value.block.hash == h
    ensures found.None? ==> forall b :: b in db ==> b.hash != h
  {
    if db == [] then None
    else if db[|db| - 1].hash == h then Some(LockIn(db[|db| - 1], |db| - 1))
    else Locate(db[..|db| - 1], h)
  }

  /** The state of the block chain that accept.go and checkpoints.go work on: the tree and the cached lock-in. */
  class BlockAcceptor {
    const chain: BlockChain
    const limits: Limits
    const checkpoints: seq<Checkpoint>
    const checkpointsByHeight: map<nat, Checkpoint>
    var checkpointBlock: Option<LockIn>
    var nextCheckpoint: Option<Checkpoint>
    ghost const universe: iset<Block>

    ghost predicate Configured() {
      && Ascending(checkpoints)
      && (forall h :: h in checkpointsByHeight ==>
            checkpointsByHeight[h] in checkpoints && checkpointsByHeight[h].height == h)
      && (forall c :: c in checkpoints ==> c.height in checkpointsByHeight)
      && DistinctHashes(checkpoints)
      && Collisionless(chain.net, universe, chain.root.block)
      && RightCheckpoints(checkpoints, universe, chain.root.block)
    }

    ghost predicate Screening()
      reads chain`index
    {
      forall h :: h in chain.index ==>
        Screened(limits, checkpoints, chain.index[h]) && chain.index[h].block in universe
    }

    function NextAfter(i: nat): Option<Checkpoint> {
      if i + 1 < |checkpoints| then Some(checkpoints[i + 1]) else None
    }

    // The cache holds the main chain's block at the height of checkpoint `i`.
    ghost predicate LockedAt(i: nat)
      reads this`checkpointBlock, this`nextCheckpoint, chain`db
    {
      && i < |checkpoints| && nextCheckpoint == NextAfter(i)
      && checkpointBlock.Some?
      && var l := checkpointBlock.value;
      && l.height == checkpoints[i].height < |chain.db|
      && chain.db[l.height] == l.block && l.block.hash == checkpoints[i].hash
    }

    ghost predicate Locked()
      reads this`checkpointBlock, this`nextCheckpoint, chain`db
    {
      if checkpointBlock.Some? then exists i: nat :: LockedAt(i)
      else nextCheckpoint.Some? ==> |checkpoints| > 0 && nextCheckpoint.value == checkpoints[0]
    }

    ghost predicate Valid()
      reads this`checkpointBlock, this`nextCheckpoint
      reads chain`index, chain`bestChain, chain`db, chain`blockCache
      reads chain.index.Values`inMainChain, chain.index.Values`moneySupply, chain.index.Values`children
    {
      chain.Valid() && Configured() && Screening() && Locked()
    }

    /** A chain whose database holds just the genesis block. */
    constructor (net: Network, limits: Limits, checkpoints: seq<Checkpoint>, genesis: Block, genesisSupply: int,
                 ghost universe: iset<Block>)
      requires |genesis.txs| == 1 && IsCoinBase(genesis.txs[0])
      requires Ascending(checkpoints) && DistinctHashes(checkpoints)
      requires genesis in universe && Collisionless(net, universe, genesis)
      requires RightCheckpoints(checkpoints, universe, genesis)
      ensures Valid() && chain.db == [genesis] && checkpointBlock == None && nextCheckpoint == None
      ensures fresh(chain) && fresh(chain.index.Values) && chain.index == map[genesis.hash := chain.root]
      ensures this.limits == limits && this.checkpoints == checkpoints && this.universe == universe
      ensures chain.net == net && chain.root.block == genesis
    {
      hide Collisionless, RightCheckpoints, BlockChain.Valid;
      var byHeight := ByHeight(checkpoints);
      var blockChain := new BlockChain(net, genesis, CalcTrust(genesis.bits, genesis.proofOfStake), genesisSupply);
      this.chain := blockChain;
      this.limits := limits;
      this.checkpoints := checkpoints;
      this.checkpointsByHeight := byHeight;
      this.checkpointBlock := None;
      this.nextCheckpoint := None;
      this.universe := universe;
      new;
      GenesisMatches(checkpoints, universe, genesis);
      RootScreened(limits, checkpoints, chain.root);
    }

    // ---------------------------------------------------------------- looking back along a node's ancestors

    /** getLastBlockIndex: walks down to the newest block of the wanted kind, or to genesis. */
    method GetLastBlockIndex(last: BlockNode, proofOfStake: bool, ghost tip: BlockNode) returns (block: BlockNode)
      requires chain.Tree() && chain.Known(tip) && last.height < |Path(tip)| && Path(tip)[last.height] == last
      ensures block.height == LastOfKind(Blocks(Path(tip)), last.height, proofOfStake)
      ensures block.height < |Path(tip)| && Path(tip)[block.height] == block
    {
      hide IsTree;
      ghost var blocks := Blocks(Path(tip));
      block := last;
      chain.PathAt(tip, block.height);
      HeaderOf(tip, block.height);
      while block.height != 0 && block.proofOfStake != proofOfStake
        invariant block.height < |Path(tip)| && Path(tip)[block.height] == block
        invariant block.proofOfStake == blocks[block.height].proofOfStake
        invariant LastOfKind(blocks, block.height, proofOfStake) == LastOfKind(blocks, last.height, proofOfStake)
        decreases block.height
      {
        chain.PathAt(tip, block.height);
        HeaderOf(tip, block.height - 1);
        block := block.parent;
      }
    }

    // A node carries the header fields of its block.
    lemma HeaderOf(tip: BlockNode, i: nat)
      requires chain.Tree() && chain.Known(tip) && i < |Path(tip)|
      ensures var n, b := Path(tip)[i], Blocks(Path(tip))[i];
              n.bits == b.bits && n.timestamp == b.timestamp && n.proofOfStake == b.proofOfStake
    {
      hide Sane, NoReuse;
      assert WellPlaced(Path(tip)[i]);
    }

    /** ppcCalcNextRequiredDifficulty for the block after `lastNode`. */
    method CalcNextRequiredDifficulty(lastNode: BlockNode?, proofOfStake: bool) returns (bits: U32)
      requires chain.Tree() && (lastNode != null ==> chain.Known(lastNode))
      ensures lastNode == null ==> bits == limits.powLimitBits
      ensures lastNode != null ==> bits == NextRequired(limits, Blocks(Path(lastNode)), proofOfStake)
      ensures lastNode != null ==> Retargets(limits, Blocks(Path(lastNode)), proofOfStake, bits)
    {
      hide IsTree, NextBits, TargetSpacing, WellPlaced, LastOfKind, NextRequired, Path, Blocks, Retargets;
      if lastNode == null {
        return limits.powLimitBits;
      }
      chain.KnownFacts(lastNode);
      RequiredCases(limits, Blocks(Path(lastNode)), proofOfStake);
      RequiredRetargets(limits, Blocks(Path(lastNode)), proofOfStake);
      var prev := GetLastBlockIndex(lastNode, proofOfStake, lastNode);
      chain.PathAt(lastNode, prev.height);
      GenesisIsFirst(lastNode, prev.height);
      if prev.hash == chain.root.hash {
        return limits.initialBits;
      }
      var prevPrev := GetLastBlockIndex(prev.parent, proofOfStake, lastNode);
      GenesisIsFirst(lastNode, prevPrev.height);
      if prevPrev.hash == chain.root.hash {
        return limits.initialBits;
      }
      HeaderOf(lastNode, prev.height);
      HeaderOf(lastNode, prevPrev.height);
      var actual := prev.timestamp - prevPrev.timestamp;
      bits := AdjustBits(limits, prev.bits, TargetSpacing(proofOfStake, lastNode.height - prev.height), actual);
    }

    // Only the node at height 0 has the hash of genesis.
    lemma GenesisIsFirst(tip: BlockNode, i: nat)
      requires chain.Tree() && chain.Known(tip) && i < |Path(tip)|
      ensures Path(tip)[i].hash == chain.root.hash <==> i == 0
    {
      hide IsTree;
      chain.KnownFacts(tip);
      chain.PathAt(tip, i);
      chain.PathAt(tip, 0);
    }

    /** calcPastMedianTime: the median of the last eleven timestamps up to a node. */
    method CalcPastMedianTime(startNode: BlockNode?) returns (medianTimestamp: int)
      requires chain.Tree() && (startNode != null ==> chain.Known(startNode))
      ensures startNode == null ==> medianTimestamp == chain.root.timestamp
      ensures startNode != null ==> medianTimestamp == PastMedian(Times(Blocks(Path(startNode))))
      ensures startNode != null ==> IsMedian(LastEleven(Times(Blocks(Path(startNode)))), medianTimestamp)
    {
      hide IsTree, WellPlaced, Sort, Path, Blocks, Indexed, IsMedian;
      if startNode == null {
        return chain.root.timestamp;
      }
      chain.KnownFacts(startNode);
      ghost var times := Times(Blocks(Path(startNode)));
      var timestamps := new int[MEDIAN_TIME_BLOCKS];
      var numNodes := 0;
      var iterNode: BlockNode? := startNode;
      while numNodes < MEDIAN_TIME_BLOCKS && iterNode != null
        invariant 0 <= numNodes <= MEDIAN_TIME_BLOCKS && numNodes <= |times|
        invariant iterNode == if numNodes < |times| then Path(startNode)[|times| - 1 - numNodes] else null
        invariant forall i :: 0 <= i < numNodes ==> timestamps[i] == times[|times| - 1 - i]
      {
        HeaderOf(startNode, |times| - 1 - numNodes);
        chain.PathAt(startNode, |times| - 1 - numNodes);
        timestamps[numNodes] := iterNode.timestamp;
        numNodes := numNodes + 1;
        iterNode := iterNode.parent;
      }
      assert timestamps[..numNodes] == Window(times);
      PastMedianIsMedian(times);
      return Sort(timestamps[..numNodes])[numNodes / 2];
    }

    // ---------------------------------------------------------------- checkpoints

    method VerifyCheckpoint(height: nat, hash: Hash) returns (ok: bool)
      requires Configured()
      ensures ok <==> MatchesCheckpoints(checkpoints, height, hash)
    {
      hide Collisionless;
      if |checkpoints| == 0 {
        return true;
      }
      if height !in checkpointsByHeight {
        return true;
      }
      var checkpoint := checkpointsByHeight[height];
      ok := checkpoint.hash == hash;
      if ok {
        OnePerHeight(checkpoint);
      }
    }

    lemma OnePerHeight(c: Checkpoint)
      requires Configured() && c in checkpoints
      ensures forall d :: d in checkpoints && d.height == c.height ==> d == c
    {
      hide Collisionless;
      forall d | d in checkpoints && d.height == c.height ensures d == c {
        var i :| 0 <= i < |checkpoints| && checkpoints[i] == c;
        var j :| 0 <= j < |checkpoints| && checkpoints[j] == d;
        assert i == j;
      }
    }

    /** Once the main chain reaches a checkpoint's height, the database holds the checkpoint's block there and finds
        it by its hash. */
    lemma CheckpointOnMain(c: Checkpoint)
      requires chain.Tree() && chain.Main() && Screening() && c in checkpoints && c.height < |chain.db|
      ensures chain.db[c.height].hash == c.hash
      ensures Locate(chain.db, c.hash) == Some(LockIn(chain.db[c.height], c.height))
    {
      hide IsTree, GoodHeader, TotalTrust, Validated, MoneySupply;
      var tip: BlockNode := chain.bestChain;
      chain.KnownFacts(tip);
      chain.PathAt(tip, c.height);
      assert Screened(limits, checkpoints, chain.index[Path(tip)[c.height].hash]);
      forall i | 0 <= i < |chain.db| && i != c.height ensures chain.db[i].hash != chain.db[c.height].hash {
        chain.PathAt(tip, i);
      }
      LocateIs(chain.db, c.height);
    }

    // The loop of the first search: the newest checkpoint whose block is in the database, or -1.
    method SearchBackwards() returns (checkpointIndex: int)
      ensures -1 <= checkpointIndex < |checkpoints|
      ensures checkpointIndex >= 0 ==> Locate(chain.db, checkpoints[checkpointIndex].hash).Some?
      ensures forall i :: checkpointIndex < i < |checkpoints| ==> Locate(chain.db, checkpoints[i].hash).None?
    {
      checkpointIndex := |checkpoints| - 1;
      while checkpointIndex >= 0
        invariant -1 <= checkpointIndex < |checkpoints|
        invariant forall i :: checkpointIndex < i < |checkpoints| ==> Locate(chain.db, checkpoints[i].hash).None?
      {
        if Locate(chain.db, checkpoints[checkpointIndex].hash).Some? {
          return;
        }
        checkpointIndex := checkpointIndex - 1;
      }
    }

    // The position of the next checkpoint in the list.
    method IndexOfNext(next: Checkpoint, ghost k: nat) returns (checkpointIndex: int)
      requires Configured() && k < |checkpoints| && checkpoints[k] == next
      ensures checkpointIndex == k
    {
      hide Collisionless;
      checkpointIndex := |checkpoints| - 1;
      while checkpointIndex >= 0
        invariant k <= checkpointIndex < |checkpoints|
      {
        if checkpoints[checkpointIndex].hash == next.hash {
          return;
        }
        checkpointIndex := checkpointIndex - 1;
      }
    }

    // The cached lock-in, before and after a lookup: it stays or moves on to a higher block of the main chain.
    twostate predicate MovedForward()
      reads this`checkpointBlock
    {
      old(checkpointBlock).Some? ==>
        && checkpointBlock.Some?
        && (checkpointBlock == old(checkpointBlock)
            || checkpointBlock.value.height > old(checkpointBlock).value.height)
    }

    // The search of findPreviousCheckpoint when nothing was looked up before.
    method FirstLookup() returns (found: Option<LockIn>)
      requires Valid() && |checkpoints| > 0 && checkpointBlock.None? && nextCheckpoint.None?
      modifies this`checkpointBlock, this`nextCheckpoint
      ensures found == checkpointBlock && Locked() && IsNewest() && (checkpointBlock.Some? || nextCheckpoint.Some?)
    {
      hide BlockChain.Valid, BlockChain.Tree, BlockChain.Main, Collisionless, RightCheckpoints, Screened;
      var checkpointIndex := SearchBackwards();
      if checkpointIndex == -1 {
        nextCheckpoint := Some(checkpoints[0]);
        return None;
      }
      TipHeight();
      InDatabaseIffReached(checkpoints[checkpointIndex]);
      CheckpointOnMain(checkpoints[checkpointIndex]);
      checkpointBlock := Locate(chain.db, checkpoints[checkpointIndex].hash);
      nextCheckpoint := NextAfter(checkpointIndex);
      assert LockedAt(checkpointIndex);
      return checkpointBlock;
    }

    // The lookup when the main chain has reached the next checkpoint.
    method NextLookup() returns (ok: bool)
      requires Valid() && nextCheckpoint.Some? && nextCheckpoint.value.height < |chain.db|
      modifies this`checkpointBlock, this`nextCheckpoint
      ensures ok && Locked()
      ensures var height := old(nextCheckpoint).value.height;
              checkpointBlock == Some(LockIn(chain.db[height], height))
      ensures MovedForward()
    {
      hide Collisionless, Screened, IsTree, BlockChain.Main, BlockChain.Cache, BlockChain.Children;
      hide BlockChain.Optimal;
      ghost var k := NextIndex();
      CheckpointOnMain(checkpoints[k]);
      var block := Locate(chain.db, nextCheckpoint.value.hash);
      if block.None? {
        return false;
      }
      checkpointBlock := block;
      var checkpointIndex := IndexOfNext(nextCheckpoint.value, k);
      nextCheckpoint := if checkpointIndex != -1 then NextAfter(checkpointIndex) else None;
      assert LockedAt(k);
      ok := true;
    }

    /** findPreviousCheckpoint.  The first lookup caches the newest checkpoint in the database; each later one moves
        on by one checkpoint when the main chain has reached it, and the block it looks up is always found.  So the
        cached checkpoint is the newest in the database exactly when the main chain has not also reached the one after
        next. */
    method FindPreviousCheckpoint() returns (ok: bool, found: Option<LockIn>)
      requires Valid()
      modifies this`checkpointBlock, this`nextCheckpoint
      ensures ok && found == checkpointBlock && Valid() && MovedForward()
      ensures |checkpoints| > 0 ==> checkpointBlock.Some? || nextCheckpoint.Some?
      ensures var next, searched := old(nextCheckpoint), old(checkpointBlock.Some? || nextCheckpoint.Some?);
        && (searched && next.Some? && next.value.height < |chain.db| ==>
              checkpointBlock == Some(LockIn(chain.db[next.value.height], next.value.height)))
        && (searched && (next.None? || next.value.height >= |chain.db|) ==> unchanged(this))
      ensures IsNewest() <==> old(nextCheckpoint).None? || NoneReachedAbove(old(nextCheckpoint).value)
      ensures forall l :: old(LockedIn(l)) ==> LockedIn(l)
    {
      hide BlockChain.Valid, BlockChain.Tree, BlockChain.Main, Configured, Screening, Locked, IsNewest;
      TipHeight();
      ok := true;
      if |checkpoints| == 0 {
        LastIsNewest();
        return true, None;
      }
      if chain.bestChain == null || (checkpointBlock.None? && nextCheckpoint.None?) {
        found := FirstLookup();
        return;
      }
      if nextCheckpoint.None? {
        LastIsNewest();
        return true, checkpointBlock;
      }
      ghost var next := nextCheckpoint.value;
      if chain.bestChain.height < nextCheckpoint.value.height {
        NewestIff(next);
        return true, checkpointBlock;
      }
      ok := NextLookup();
      NewestIff(next);
      return ok, checkpointBlock;
    }

    lemma TipExists()
      requires Valid()
      ensures chain.bestChain != null && Configured()
    {
      hide Configured, Screening, Locked, BlockChain.Tree, BlockChain.Cache, BlockChain.Children, BlockChain.Optimal;
    }

    lemma TipHeight()
      requires chain.Valid()
      ensures chain.bestChain != null && chain.Known(chain.bestChain) && chain.bestChain.height == |chain.db| - 1
      ensures chain.Tree() && chain.Main() && chain.db == Blocks(Path(chain.bestChain))
    {
      hide BlockChain.Tree, BlockChain.Cache, BlockChain.Children, BlockChain.Optimal, Validated, MoneySupply;
      chain.KnownFacts(chain.bestChain);
    }

    // No checkpoint above the cached one is in the database.
    ghost predicate IsNewest()
      reads this`checkpointBlock, chain`db
    {
      forall c :: c in checkpoints && AboveCached(c) ==> Locate(chain.db, c.hash).None?
    }

    ghost predicate AboveCached(c: Checkpoint)
      reads this`checkpointBlock
    {
      checkpointBlock.Some? ==> c.height > checkpointBlock.value.height
    }

    // The main chain has not reached any checkpoint above `next`.
    ghost predicate NoneReachedAbove(next: Checkpoint)
      reads chain`db
    {
      forall c :: c in checkpoints && c.height > next.height ==> |chain.db| <= c.height
    }

    /** A checkpoint's block is in the database exactly when the main chain has reached its height. */
    lemma InDatabaseIffReached(c: Checkpoint)
      requires chain.Tree() && chain.Main() && Screening() && Configured() && c in checkpoints
      ensures Locate(chain.db, c.hash).Some? <==> c.height < |chain.db|
    {
      hide IsTree, WellPlaced, Screened, Validated, MoneySupply, Collisionless, ChainOf;
      if c.height < |chain.db| {
        CheckpointOnMain(c);
      }
      var found := Locate(chain.db, c.hash);
      if found.Some? {
        var tip: BlockNode := chain.bestChain;
        var n := Path(tip)[found.value.height];
        chain.PathAt(tip, found.value.height);
        chain.KnownFacts(n);
        PathIsChain(n);
      }
    }

    // What lies above the cached checkpoint: the next one and everything after it.
    lemma AboveCachedIsNext(c: Checkpoint)
      requires Locked() && Configured() && c in checkpoints && (checkpointBlock.Some? || nextCheckpoint.Some?)
      ensures AboveCached(c) <==> nextCheckpoint.Some? && c.height >= nextCheckpoint.value.height
    {
      hide Collisionless, RightCheckpoints;
      var j :| 0 <= j < |checkpoints| && checkpoints[j] == c;
      if checkpointBlock.Some? {
        var i: nat :| LockedAt(i);
      }
    }

    /** Whether the cached checkpoint is the newest one after a lookup that started with `next` as the next one. */
    lemma NewestIff(next: Checkpoint)
      requires Valid() && (checkpointBlock.Some? || nextCheckpoint.Some?)
      requires || (nextCheckpoint == Some(next) && |chain.db| <= next.height)
               || (checkpointBlock.Some? && checkpointBlock.value.height == next.height)
      ensures IsNewest() <==> NoneReachedAbove(next)
    {
      hide BlockChain.Valid, Locked, Configured, Screening;
      TipHeight();
      forall c | c in checkpoints ensures Locate(chain.db, c.hash).Some? <==> c.height < |chain.db| {
        InDatabaseIffReached(c);
      }
      forall c | c in checkpoints
        ensures AboveCached(c) <==> nextCheckpoint.Some? && c.height >= nextCheckpoint.value.height
      {
        AboveCachedIsNext(c);
      }
    }

    // With no next checkpoint left the cached one is the newest; without checkpoints nothing is cached.
    lemma LastIsNewest()
      requires Locked() && Configured() && (|checkpoints| == 0 || (nextCheckpoint.None? && checkpointBlock.Some?))
      ensures IsNewest() && (|checkpoints| == 0 ==> checkpointBlock.None? && nextCheckpoint.None?)
    {
      hide Collisionless, RightCheckpoints;
      forall c | c in checkpoints ensures !AboveCached(c) {
        AboveCachedIsNext(c);
      }
    }

    // The next checkpoint is the one right after the cached one.
    lemma NextIndex() returns (k: nat)
      requires Locked() && Configured() && nextCheckpoint.Some?
      ensures k < |checkpoints| && checkpoints[k] == nextCheckpoint.value
      ensures checkpointBlock.Some? ==> checkpointBlock.value.height < nextCheckpoint.value.height
    {
      hide Collisionless;
      if checkpointBlock.Some? {
        var i: nat :| LockedAt(i);
        k := i + 1;
      } else {
        k := 0;
      }
    }

    // ---------------------------------------------------------------- checkpoint finality

    /** With checkpoints enabled throughout, every node at or above a checkpoint's height has that checkpoint as an
        ancestor: its path passes through the one node with the checkpoint's hash. */
    lemma CheckpointIsAncestor(n: BlockNode, c: Checkpoint)
      requires chain.Tree() && Screening() && chain.Known(n) && c in checkpoints && c.height <= n.height
      ensures c.hash in chain.index && Path(n)[c.height] == chain.index[c.hash] && Path(n)[c.height].hash == c.hash
    {
      hide IsTree, GoodHeader, TotalTrust;
      chain.KnownFacts(n);
      chain.PathAt(n, c.height);
      assert Screened(limits, checkpoints, Path(n)[c.height]);
    }

    // The main chain's block at a checkpoint's height is the block of that node.
    lemma CheckpointBlock(c: Checkpoint)
      requires chain.Tree() && chain.Main() && Screening() && c in checkpoints && c.height < |chain.db|
      ensures c.hash in chain.index && chain.db[c.height] == chain.index[c.hash].block
    {
      hide IsTree, Screened, Validated, MoneySupply;
      chain.KnownFacts(chain.bestChain);
      CheckpointIsAncestor(chain.bestChain, c);
    }

    ghost predicate InPlace(l: LockIn)
      reads chain`db
    {
      l.height < |chain.db| && chain.db[l.height] == l.block
    }

    // A block of the main chain that lies at a checkpoint's height, at or below the cached lock-in.
    ghost predicate LockedIn(l: LockIn)
      reads this`checkpointBlock, chain`db
    {
      && InPlace(l) && checkpointBlock.Some? && l.height <= checkpointBlock.value.height
      && exists c :: c in checkpoints && c.height == l.height
    }

    // ---------------------------------------------------------------- accepting a block

    // A block ProcessBlock may hand over: sane, not yet in the tree and not a second genesis block.
    ghost predicate Candidate(block: Block)
      reads chain`index
    {
      block.hash !in chain.index && block in universe && Sane(block) && block.prevHash != ZERO_HASH
    }

    // The contextual checks that depend on the blocks below the new one.
    ghost predicate Admissible(parent: BlockNode, block: Block, rules: Rules) {
      && GoodHeader(limits, Blocks(Path(parent)), block)
      && MatchesCheckpoints(checkpoints, parent.height + 1, block.hash)
      && rules.finalized && rules.version && rules.stake
    }

    // Whether a reason to refuse a block on top of `parent` applies.
    ghost predicate Objects(parent: BlockNode, block: Block, rules: Rules, why: Rejection)
      reads this`checkpointBlock
    {
      match why
      case UnexpectedDifficulty => block.bits != NextRequired(limits, Blocks(Path(parent)), block.proofOfStake)
      case TimeTooOld => Path(parent) != [] && block.timestamp <= PastMedian(Times(Blocks(Path(parent))))
      case UnfinalizedTx => !rules.finalized
      case BadCheckpoint => !MatchesCheckpoints(checkpoints, parent.height + 1, block.hash)
      case ForkTooOld => !NotTooOld(parent.height + 1)
      case BlockVersionTooOld => !rules.version
      case ProofOfStakeCheck => !rules.stake
      case _ => false
    }

    // The reason applies, and none that is looked at before it.
    ghost predicate FirstObjection(parent: BlockNode, block: Block, rules: Rules, why: Rejection)
      reads this`checkpointBlock
    {
      && Objects(parent, block, rules, why)
      && forall other :: Turn(other) < Turn(why) ==> !Objects(parent, block, rules, other)
    }

    // Whether connectBestChain succeeds for a block on top of `parent`.
    ghost predicate Connects(parent: BlockNode, block: Block)
      reads chain`bestChain, chain`db
    {
      && chain.bestChain != null
      && if parent == chain.bestChain then Connectable(chain.net, chain.db, chain.db, block)
         else
           || parent.workSum + CalcTrust(block.bits, block.proofOfStake) <= chain.bestChain.workSum
           || SidePasses(chain.net, chain.db, Blocks(Path(parent)) + [block])
    }

    // Whether a block on top of `parent` becomes the tip when it connects.
    ghost predicate TakesOver(parent: BlockNode, block: Block)
      reads chain`bestChain
    {
      parent == chain.bestChain || TipWork() < parent.workSum + CalcTrust(block.bits, block.proofOfStake)
    }

    ghost predicate NotTooOld(height: nat)
      reads this`checkpointBlock
    {
      checkpointBlock.Some? ==> checkpointBlock.value.height <= height
    }

    ghost function TipWork(): nat
      reads chain`bestChain
    {
      if chain.bestChain == null then 0 else chain.bestChain.workSum
    }

    /** Nothing leaves the tree, the tip's work does not decrease and what was locked in stays locked in. */
    twostate predicate Advanced()
      reads this`checkpointBlock, chain`index, chain`db, chain`bestChain
    {
      && (forall h :: h in old(chain.index) ==> h in chain.index && chain.index[h] == old(chain.index[h]))
      && (forall h :: h in chain.index && h !in old(chain.index) ==> fresh(chain.index[h]))
      && old(TipWork()) <= TipWork()
      && (forall l :: old(LockedIn(l)) ==> LockedIn(l))
    }

    // The tip after the block connected: its own node or the old tip.
    ghost function NewTip(block: Block, takesOver: bool, oldTip: BlockNode?): BlockNode?
      requires block.hash in chain.index
      reads chain`index
    {
      if takesOver then chain.index[block.hash] else oldTip
    }

    // At most the new block joined the tree, with a node that records the main chain it was offered beside.
    twostate predicate JoinedBy(block: Block)
      reads chain`index
    {
      && chain.index.Keys <= old(chain.index.Keys) + {block.hash}
      && (block.hash in chain.index ==>
            chain.index[block.hash].block == block && chain.index[block.hash].offered == old(chain.db))
    }

    // The difficulty and median time checks of maybeAcceptBlock.
    method CheckHeader(block: Block, prevNode: BlockNode) returns (outcome: Outcome)
      requires chain.Tree() && chain.Known(prevNode)
      ensures outcome.Accepted? <==> GoodHeader(limits, Blocks(Path(prevNode)), block)
      ensures outcome.Rejected? ==>
                outcome.why == if block.bits != NextRequired(limits, Blocks(Path(prevNode)), block.proofOfStake)
                               then UnexpectedDifficulty else TimeTooOld
    {
      hide IsTree, NextRequired, PastMedian;
      chain.KnownFacts(prevNode);
      var expectedDifficulty := CalcNextRequiredDifficulty(prevNode, block.proofOfStake);
      if block.bits != expectedDifficulty {
        return Rejected(UnexpectedDifficulty);
      }
      var medianTime := CalcPastMedianTime(prevNode);
      if block.timestamp <= medianTime {
        return Rejected(TimeTooOld);
      }
      return Accepted;
    }

    // What the checks after those of the header decide, in their order.
    lemma Decides(parent: BlockNode, block: Block, rules: Rules, header: Outcome)
      requires header.Accepted? <==> GoodHeader(limits, Blocks(Path(parent)), block)
      requires header.Rejected? ==>
                 header.why == if block.bits != NextRequired(limits, Blocks(Path(parent)), block.proofOfStake)
                               then UnexpectedDifficulty else TimeTooOld
      ensures if header.Rejected? then FirstObjection(parent, block, rules, header.why)
              else if !rules.finalized then FirstObjection(parent, block, rules, UnfinalizedTx)
              else if !MatchesCheckpoints(checkpoints, parent.height + 1, block.hash) then
                FirstObjection(parent, block, rules, BadCheckpoint)
              else if !NotTooOld(parent.height + 1) then FirstObjection(parent, block, rules, ForkTooOld)
              else if !rules.version then FirstObjection(parent, block, rules, BlockVersionTooOld)
              else if !rules.stake then FirstObjection(parent, block, rules, ProofOfStakeCheck)
              else Admissible(parent, block, rules)
      ensures Admissible(parent, block, rules) ==>
                && header.Accepted? && rules.finalized && rules.version && rules.stake
                && MatchesCheckpoints(checkpoints, parent.height + 1, block.hash)
    {
      hide NextRequired, PastMedian, MatchesCheckpoints, Path;
      assert Path(parent) != [] <==> Blocks(Path(parent)) != [];
    }

    // The checks of maybeAcceptBlock before the new node is made.
    method CheckContext(block: Block, prevNode: BlockNode, rules: Rules) returns (outcome: Outcome)
      requires Valid() && chain.Known(prevNode)
      modifies this`checkpointBlock, this`nextCheckpoint
      ensures Valid() && MovedForward()
      ensures outcome.Accepted? <==> Admissible(prevNode, block, rules) && NotTooOld(prevNode.height + 1)
      ensures outcome.Rejected? ==> FirstObjection(prevNode, block, rules, outcome.why)
      ensures outcome.Accepted? && |checkpoints| > 0 ==> checkpointBlock.Some? || nextCheckpoint.Some?
      ensures checkpointBlock.Some? ==> checkpointBlock.value.height < |chain.db|
      ensures forall l :: old(LockedIn(l)) ==> LockedIn(l)
    {
      hide BlockChain.Valid, IsTree, Screened, GoodHeader, Collisionless, MatchesCheckpoints, LockedIn, Locked;
      hide NextRequired, Admissible, FirstObjection, Path, Blocks;
      CachedIsLockedIn();
      IndexedFacts(prevNode.hash);
      var blockHeight := prevNode.height + 1;
      outcome := CheckHeader(block, prevNode);
      ghost var header := outcome;
      Decides(prevNode, block, rules, header);
      if outcome.Rejected? {
        return;
      }
      if !rules.finalized {
        return Rejected(UnfinalizedTx);
      }
      var verified := VerifyCheckpoint(blockHeight, block.hash);
      if !verified {
        return Rejected(BadCheckpoint);
      }
      var ok, checkpoint := FindPreviousCheckpoint();
      CachedIsLockedIn();
      Decides(prevNode, block, rules, header);
      if !ok {
        return Rejected(MissingCheckpoint);
      }
      if checkpoint.Some? && blockHeight < checkpoint.value.height {
        return Rejected(ForkTooOld);
      }
      if !rules.version {
        return Rejected(BlockVersionTooOld);
      }
      if !rules.stake {
        return Rejected(ProofOfStakeCheck);
      }
      return Accepted;
    }

    // The rest of maybeAcceptBlock: make the node and connect it.
    method ConnectNew(block: Block, prevNode: BlockNode, dryRun: bool) returns (ok: bool)
      requires Valid() && Candidate(block) && chain.Known(prevNode) && prevNode.hash == block.prevHash
      requires GoodHeader(limits, Blocks(Path(prevNode)), block) && NotTooOld(prevNode.height + 1)
      requires MatchesCheckpoints(checkpoints, prevNode.height + 1, block.hash)
      requires |checkpoints| > 0 ==> checkpointBlock.Some? || nextCheckpoint.Some?
      modifies chain`db, chain`index, chain`blockCache, chain`bestChain, chain.index.Values
      ensures Valid() && JoinedBy(block) && (dryRun ==> unchanged(chain))
      ensures forall h :: h in old(chain.index) ==> h in chain.index && chain.index[h] == old(chain.index)[h]
      ensures forall h :: h in chain.index && h !in old(chain.index) ==> fresh(chain.index[h])
      ensures ok <==> old(Connects(prevNode, block))
      ensures !ok ==> chain.db == old(chain.db) && chain.bestChain == old(chain.bestChain)
      ensures ok && !dryRun ==> block.hash in chain.index
      ensures ok && !dryRun ==> chain.bestChain == NewTip(block, old(TakesOver(prevNode, block)), old(chain.bestChain))
      ensures chain.bestChain != null && old(TipWork()) <= TipWork()
      ensures forall l :: old(LockedIn(l)) ==> LockedIn(l)
    {
      hide BlockChain.Valid, BlockChain.Main, BlockChain.Attachable, IsTree, Screened, GoodHeader;
      hide Collisionless, Sane;
      hide MatchesCheckpoints, Configured, Validated, SidePasses, Connectable, CalcTrust, WellPlaced, Path, Blocks;
      hide LockedIn, Locked, HasCheckpoints;
      IndexedFacts(prevNode.hash);
      TipHeight();
      CachedIsLockedIn();
      var node := new BlockNode(block, prevNode, CalcTrust(block.bits, block.proofOfStake), chain.db);
      JoinFacts(node, block);
      CheckpointBlocks();
      ok := chain.ConnectBestChain(node, block, dryRun);
      TipHeight();
      ScreeningKept(node);
      CheckpointBlocks();
      LockInKept();
    }

    // Indexing a screened node keeps the tree screened.
    twostate lemma ScreeningKept(new node: BlockNode)
      requires old(Screening()) && Screened(limits, checkpoints, node) && node.block in universe
      requires chain.index == old(chain.index) || chain.index == old(chain.index)[node.hash := node]
      ensures Screening()
    {
    }

    // A main chain that reaches the cached checkpoint's height still holds its block, and all that was locked in.
    twostate lemma LockInKept()
      requires old(Locked()) && old(HasCheckpoints()) && HasCheckpoints()
      requires checkpointBlock == old(checkpointBlock) && nextCheckpoint == old(nextCheckpoint)
      requires forall h :: h in old(chain.index) ==> h in chain.index && chain.index[h] == old(chain.index)[h]
      requires checkpointBlock.Some? ==> checkpointBlock.value.height < |chain.db|
      ensures Locked() && forall l :: old(LockedIn(l)) ==> LockedIn(l)
    {
      if checkpointBlock.Some? {
        var k: nat :| old(LockedAt(k));
        assert checkpoints[k] in checkpoints;
        assert LockedAt(k);
      }
    }

    lemma IndexedFacts(h: Hash)
      requires chain.Valid() && h in chain.index
      ensures var n := chain.index[h]; chain.Known(n) && n.hash == h && WellPlaced(n)
      ensures chain.Tree()
    {
      hide BlockChain.Main, BlockChain.Cache, BlockChain.Children, BlockChain.Optimal, Sane, NoReuse, WellPlaced;
    }

    // At every checkpoint's height the main chain has the block of that checkpoint's node.
    ghost predicate HasCheckpoints()
      reads chain`index, chain`db
    {
      forall c :: c in checkpoints && c.height < |chain.db| ==>
        c.hash in chain.index && chain.db[c.height] == chain.index[c.hash].block
    }

    lemma CheckpointBlocks()
      requires chain.Valid() && Screening()
      ensures HasCheckpoints()
    {
      hide BlockChain.Tree, BlockChain.Main, BlockChain.Cache, BlockChain.Children, BlockChain.Optimal, Screened;
      forall c | c in checkpoints && c.height < |chain.db|
        ensures c.hash in chain.index && chain.db[c.height] == chain.index[c.hash].block
      {
        CheckpointBlock(c);
      }
    }

    // A block that passes the contextual checks and completes a branch that passes beside the main chain `main`.
    ghost predicate Deserving(main: seq<Block>, parent: BlockNode, block: Block, rules: Rules)
      reads this`checkpointBlock
    {
      && Admissible(parent, block, rules) && NotTooOld(parent.height + 1)
      && SidePasses(chain.net, main, Blocks(Path(parent)) + [block])
    }

    lemma {:induction false} BranchConnects(parent: BlockNode, block: Block)
      requires Valid() && chain.Known(parent)
      ensures SidePasses(chain.net, chain.db, Blocks(Path(parent)) + [block]) ==> Connects(parent, block)
    {
      hide BlockChain.Valid, BlockChain.Tree, BlockChain.Cache, Validated, MoneySupply, Connectable, CalcTrust;
      TipHeight();
      var branch := Blocks(Path(parent)) + [block];
      var n := |branch| - 1;
      assert branch[..n] == Blocks(Path(parent));
      if parent == chain.bestChain && SidePasses(chain.net, chain.db, branch) {
        assert n == |chain.db| && !Shares(chain.db, branch, n);
      }
    }

    /** maybeAcceptBlock.  A block is accepted exactly when its parent is known, it passes the contextual checks, it
        does not fork off below the lock-in and the chain can connect it, and otherwise the first reason is
        stated.  Nothing leaves the tree, the tip's work never decreases, and what is locked in stays locked in: no
        checkpoint block up to the cached one ever leaves the main chain.  A refusal leaves the main chain as it is,
        and a deserving block is never refused. */
    method MaybeAcceptBlock(block: Block, rules: Rules, dryRun: bool) returns (outcome: Outcome)
      requires Valid() && Candidate(block)
      modifies this`checkpointBlock, this`nextCheckpoint
      modifies chain`db, chain`index, chain`blockCache, chain`bestChain, chain.index.Values
      ensures Valid() && MovedForward() && chain.bestChain != null
      ensures (outcome.Accepted? <==>
                && old(block.prevHash in chain.index)
                && var parent := old(chain.index)[block.prevHash];
                && Admissible(parent, block, rules) && NotTooOld(parent.height + 1) && old(Connects(parent, block)))
      ensures outcome == Rejected(MissingParent) <==> old(block.prevHash !in chain.index)
      ensures (outcome.Rejected? && old(block.prevHash in chain.index) ==>
                var parent := old(chain.index)[block.prevHash];
                if outcome.why == CannotConnect then
                  Admissible(parent, block, rules) && NotTooOld(parent.height + 1) && !old(Connects(parent, block))
                else FirstObjection(parent, block, rules, outcome.why))
      ensures old(block.prevHash in chain.index) ==>
                (Deserving(old(chain.db), old(chain.index)[block.prevHash], block, rules) ==> outcome.Accepted?)
      ensures outcome.Rejected? ==> chain.db == old(chain.db) && chain.bestChain == old(chain.bestChain)
      ensures Advanced() && JoinedBy(block) && (dryRun ==> unchanged(chain))
      ensures outcome.Accepted? && !dryRun ==>
                && block.hash in chain.index
                && var parent := old(chain.index)[block.prevHash];
                   chain.bestChain == NewTip(block, old(TakesOver(parent, block)), old(chain.bestChain))
      ensures checkpointBlock.Some? ==>
                LockedIn(checkpointBlock.value) && checkpointBlock.value.height < old(|chain.db|)
      ensures outcome.Accepted? && |checkpoints| > 0 ==> checkpointBlock.Some? || nextCheckpoint.Some?
    {
      hide BlockChain.Valid, IsTree, Screened, GoodHeader, Collisionless, Sane, MatchesCheckpoints, Configured;
      hide LockedIn, TipWork, Connects, TakesOver, SidePasses, Connectable;
      TipExists();
      CachedIsLockedIn();
      if block.prevHash !in chain.index {
        return Rejected(MissingParent);
      }
      var prevNode := chain.index[block.prevHash];
      IndexedFacts(block.prevHash);
      BranchConnects(prevNode, block);
      CachedIsLockedIn();
      outcome := CheckContext(block, prevNode, rules);
      CachedIsLockedIn();
      if outcome.Rejected? {
        return;
      }
      var ok := ConnectNew(block, prevNode, dryRun);
      CachedIsLockedIn();
      outcome := if ok then Accepted else Rejected(CannotConnect);
    }

    lemma CachedIsLockedIn()
      requires Locked()
      ensures checkpointBlock.Some? ==> LockedIn(checkpointBlock.value) && checkpointBlock.value.height < |chain.db|
    {
      if checkpointBlock.Some? {
        var i: nat :| LockedAt(i);
        assert checkpoints[i] in checkpoints;
      }
    }

    // A candidate's node may join the tree, and it is screened.
    lemma JoinFacts(node: BlockNode, block: Block)
      requires Valid() && Candidate(block) && WellPlaced(node) && node.block == block
      requires node.parent != null && chain.Known(node.parent)
      requires node.workSum == node.parent.workSum + CalcTrust(block.bits, block.proofOfStake)
      requires GoodHeader(limits, Blocks(Path(node.parent)), block)
      requires MatchesCheckpoints(checkpoints, node.parent.height + 1, block.hash)
      ensures chain.Attachable(node, block) && Screened(limits, checkpoints, node)
      ensures Blocks(Path(node)) == Blocks(Path(node.parent)) + [block] && node.height == node.parent.height + 1
    {
      hide BlockChain.Valid, Sane, NoReuse, CalcTrust, GoodHeader, Collisionless, MatchesCheckpoints, IsTree;
      hide Screened;
      hide Validated;
      IndexedFacts(node.parent.hash);
      var below, blocks := Blocks(Path(node.parent)), Blocks(Path(node));
      assert Path(node) == Path(node.parent) + [node];
      assert blocks == below + [block];
      PathIsChain(node.parent);
      ChainGrows(below, block);
      NewScreened(node);
    }

    // A chain of the universe grows by a block of the universe.
    lemma ChainGrows(below: seq<Block>, block: Block)
      requires Configured() && ChainOf(universe, chain.root.block, below) && block in universe
      requires block.prevHash == below[|below| - 1].hash
      ensures Validated(chain.net, below + [block]) ==> NoReuse(Steps(below + [block]))
    {
      hide NoReuse, Steps, Validated, Collisionless, RightCheckpoints;
      if Validated(chain.net, below + [block]) {
        ChainReusesNothing(chain.net, universe, chain.root.block, below + [block]);
      }
    }

    lemma NewScreened(node: BlockNode)
      requires WellPlaced(node) && node.parent != null && Screened(limits, checkpoints, node.parent)
      requires node.workSum == node.parent.workSum + CalcTrust(node.block.bits, node.block.proofOfStake)
      requires GoodHeader(limits, Blocks(Path(node.parent)), node.block)
      requires MatchesCheckpoints(checkpoints, node.height, node.hash)
      ensures Screened(limits, checkpoints, node)
    {
      hide CalcTrust, GoodHeader, MatchesCheckpoints;
      var blocks := Blocks(Path(node));
      assert blocks[..|blocks| - 1] == Blocks(Path(node.parent));
    }

    // The blocks along an indexed node's path are linked by their hashes.
    lemma PathIsChain(n: BlockNode)
      requires chain.Tree() && Screening() && chain.Known(n)
      ensures ChainOf(universe, chain.root.block, Blocks(Path(n)))
    {
      hide IsTree, Screened;
      var path := Path(n);
      chain.KnownFacts(n);
      forall i | 0 <= i < |path| ensures path[i].block in universe {
        chain.PathAt(n, i);
      }
      forall i | 1 <= i < |path| ensures path[i].block.prevHash == path[i - 1].block.hash {
        chain.PathAt(n, i);
        chain.PathAt(n, i - 1);
        ParentLink(path[i]);
      }
    }

    lemma ParentLink(n: BlockNode)
      requires chain.Tree() && chain.Known(n) && n.parent != null
      ensures n.block.prevHash == n.parent.hash
    {
      hide Sane, NoReuse;
      assert Sound(chain.net, chain.index, chain.root, n);
    }
  }

  lemma GenesisMatches(checkpoints: seq<Checkpoint>, universe: iset<Block>, genesis: Block)
    requires RightCheckpoints(checkpoints, universe, genesis)
    ensures MatchesCheckpoints(checkpoints, 0, genesis.hash)
  {
  }

  lemma RootScreened(limits: Limits, checkpoints: seq<Checkpoint>, root: BlockNode)
    requires WellPlaced(root) && root.parent == null
    requires root.workSum == CalcTrust(root.block.bits, root.block.proofOfStake)
    requires MatchesCheckpoints(checkpoints, 0, root.hash)
    ensures Screened(limits, checkpoints, root)
  {
    hide CalcTrust;
    assert Blocks(Path(root)) == [root.block];
    assert [root.block][..0] == [];
    assert TotalTrust([root.block]) == TotalTrust([]) + CalcTrust(root.block.bits, root.block.proofOfStake);
  }

  lemma {:induction false} LocateIs(db: seq<Block>, i: nat)
    requires i < |db| && forall j :: 0 <= j < |db| && j != i ==> db[j].hash != db[i].hash
    ensures Locate(db, db[i].hash) == Some(LockIn(db[i], i))
  {
    if i < |db| - 1 {
      LocateIs(db[..|db| - 1], i);
    }
  }
}
