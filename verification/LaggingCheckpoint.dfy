/** A run after which the checkpoint lookup lags behind the main chain. */
module LaggingCheckpoint {
  import opened Ledger
  import opened Validate
  import opened Wrappers
  import opened Spending
  import opened Supply
  import opened Chain
  import opened Retarget
  import opened MedianTime
  import opened Accept
  import opened SmallBlocks

  const MINT := CoinBase(1, TxOut(CENT, 0))
  const KERNEL := Tx(2, [TxIn(OutPoint(1, 0), 0)], [EMPTY_OUTPUT, TxOut(CENT, 0)], 600, 0, true)

  const GENESIS := Block(10, 0, [MINT], BITS, 0, false)
  const STAKE := Block(20, 10, [CoinBase(3, EMPTY_OUTPUT), KERNEL], BITS, 600, true)
  const WORK1 := Block(11, 10, [CoinBase(4, TxOut(CENT, 0))], BITS, 600, false)
  const WORK2 := Block(12, 11, [CoinBase(5, TxOut(CENT, 0))], BITS, 1200, false)
  const WORK3 := Block(13, 12, [CoinBase(6, TxOut(CENT, 0))], BITS, 1800, false)

  const CHECKPOINTS := [Checkpoint(2, 12), Checkpoint(3, 13)]

  predicate Ours(b: Block) {
    b == GENESIS || b == STAKE || b == WORK1 || b == WORK2 || b == WORK3
  }

  ghost function Universe(): iset<Block> {
    iset b | Ours(b)
  }

  // ---------------------------------------------------------------- the hypotheses

  // The only chains of these blocks.
  lemma OnlyChains(chain: seq<Block>)
    requires ChainOf(Universe(), GENESIS, chain)
    ensures var last := chain[|chain| - 1];
      && Ours(last)
      && (last == GENESIS ==> chain == [GENESIS])
      && (last == STAKE ==> chain == [GENESIS, STAKE])
      && (last == WORK1 ==> chain == [GENESIS, WORK1])
      && (last == WORK2 ==> chain == [GENESIS, WORK1, WORK2])
      && (last == WORK3 ==> chain == [GENESIS, WORK1, WORK2, WORK3])
  {
    var n := |chain| - 1;
    assert chain[n] in chain;
    if n > 0 {
      var front := chain[..n];
      OnlyChains(front);
      assert chain == front + [chain[n]];
      assert chain[n].prevHash == front[n - 1].hash;
    }
  }

  lemma CheckpointsAreRight()
    ensures RightCheckpoints(CHECKPOINTS, Universe(), GENESIS)
  {
    forall chain: seq<Block>, c |
      ChainOf(Universe(), GENESIS, chain) && c in CHECKPOINTS && chain[|chain| - 1].hash == c.hash
      ensures c.height == |chain| - 1
    {
      OnlyChains(chain);
    }
  }

  // A chain grows by one block with one transaction.
  lemma {:induction false} StepsGrow(chain: seq<Block>, b: Block)
    requires |b.txs| == 1
    ensures Steps(chain + [b]) == Steps(chain) + [Step(b.txs[0], |chain|)]
  {
    StepsSnoc(chain, b);
  }

  lemma WorkSteps()
    ensures Steps([GENESIS]) == [Step(MINT, 0)]
    ensures Steps([GENESIS, WORK1]) == [Step(MINT, 0), Step(WORK1.txs[0], 1)]
    ensures Steps([GENESIS, WORK1, WORK2]) == [Step(MINT, 0), Step(WORK1.txs[0], 1), Step(WORK2.txs[0], 2)]
    ensures Steps([GENESIS, WORK1, WORK2, WORK3])
         == [Step(MINT, 0), Step(WORK1.txs[0], 1), Step(WORK2.txs[0], 2), Step(WORK3.txs[0], 3)]
  {
    assert Steps([]) == [];
    hide Steps;
    StepsGrow([], GENESIS);
    StepsGrow([GENESIS], WORK1);
    StepsGrow([GENESIS, WORK1], WORK2);
    StepsGrow([GENESIS, WORK1, WORK2], WORK3);
    assert [] + [GENESIS] == [GENESIS] && [GENESIS] + [WORK1] == [GENESIS, WORK1];
    assert [GENESIS, WORK1] + [WORK2] == [GENESIS, WORK1, WORK2];
    assert [GENESIS, WORK1, WORK2] + [WORK3] == [GENESIS, WORK1, WORK2, WORK3];
  }

  lemma StakeSteps()
    ensures Steps([GENESIS, STAKE]) == [Step(MINT, 0), Step(STAKE.txs[0], 1), Step(KERNEL, 1)]
  {
    WorkSteps();
    hide Steps;
    StepsSnoc([GENESIS], STAKE);
    assert [GENESIS] + [STAKE] == [GENESIS, STAKE];
  }

  lemma {:induction false} NothingTwice(chain: seq<Block>)
    requires ChainOf(Universe(), GENESIS, chain)
    ensures CoinBasesDiffer(Steps(chain))
  {
    OnlyChains(chain);
    hide Steps, ChainOf;
    WorkSteps();
    StakeSteps();
  }

  lemma OneName(a: Block, b: Block, tx: Tx, other: Tx)
    requires Ours(a) && Ours(b) && tx in a.txs && other in b.txs && tx.hash == other.hash
    ensures tx == other
  {
  }

  lemma OneBlock(a: Block, b: Block)
    requires Ours(a) && Ours(b) && a.hash == b.hash
    ensures a == b
  {
  }

  lemma TxNames(universe: iset<Block>)
    requires forall b :: b in universe ==> Ours(b)
    ensures OneTx(universe)
  {
    hide Ours;
    forall a, b, tx, other |
      a in universe && b in universe && tx in a.txs && other in b.txs && tx.hash == other.hash ensures tx == other
    {
      OneName(a, b, tx, other);
    }
  }

  lemma InUniverse(b: Block)
    ensures b in Universe() <==> Ours(b)
  {
  }

  lemma HashesAreRight()
    ensures Collisionless(NETWORK, Universe(), GENESIS)
  {
    forall b ensures b in Universe() <==> Ours(b) { InUniverse(b); }
    hide ChainOf, CoinBasesDiffer, Validated, OneTx, Universe, Ours;
    TxNames(Universe());
    forall a, b | a in Universe() && b in Universe() && a.hash == b.hash ensures a == b {
      InUniverse(a);
      InUniverse(b);
      OneBlock(a, b);
    }
    forall chain: seq<Block> | ChainOf(Universe(), GENESIS, chain) && Validated(NETWORK, chain)
      ensures CoinBasesDiffer(Steps(chain))
    {
      NothingTwice(chain);
    }
  }

  // ---------------------------------------------------------------- trust and headers

  // The first proof-of-work blocks keep the initial bits, the third because the second came on time.
  lemma HeadersAreGood()
    ensures GoodHeader(LIMITS, [GENESIS], STAKE) && GoodHeader(LIMITS, [GENESIS], WORK1)
    ensures GoodHeader(LIMITS, [GENESIS, WORK1], WORK2) && GoodHeader(LIMITS, [GENESIS, WORK1, WORK2], WORK3)
  {
    hide PastMedian, NextBits;
    MedianBelow(Times([GENESIS]), 600);
    MedianBelow(Times([GENESIS, WORK1]), 1200);
    MedianBelow(Times([GENESIS, WORK1, WORK2]), 1800);
    Trusts();
    BitsDecode();
    OnScheduleKeepsBits(LIMITS, BITS, 600);
    var below := [GENESIS, WORK1, WORK2];
    assert LastOfKind(below, 2, false) == 2 && LastOfKind(below, 1, false) == 1;
  }

  lemma {:induction false} TrustOf(chain: seq<Block>, b: Block)
    requires b.bits == BITS
    ensures TotalTrust(chain + [b]) == TotalTrust(chain) + if b.proofOfStake then 2 else 1
  {
    hide CalcTrust;
    Trusts();
    assert (chain + [b])[..|chain|] == chain;
  }

  lemma NoTrust()
    ensures TotalTrust([]) == 0
  {
  }

  lemma ChainTrusts()
    ensures TotalTrust([GENESIS]) == 1 && TotalTrust([GENESIS, STAKE]) == 3
    ensures TotalTrust([GENESIS, WORK1]) == 2 && TotalTrust([GENESIS, WORK1, WORK2]) == 3
    ensures TotalTrust([GENESIS, WORK1, WORK2, WORK3]) == 4
  {
    hide TotalTrust;
    NoTrust();
    TrustOf([], GENESIS);
    TrustOf([GENESIS], STAKE);
    TrustOf([GENESIS], WORK1);
    TrustOf([GENESIS, WORK1], WORK2);
    TrustOf([GENESIS, WORK1, WORK2], WORK3);
    assert [] + [GENESIS] == [GENESIS] && [GENESIS] + [STAKE] == [GENESIS, STAKE];
    assert [GENESIS] + [WORK1] == [GENESIS, WORK1] && [GENESIS, WORK1] + [WORK2] == [GENESIS, WORK1, WORK2];
    assert [GENESIS, WORK1, WORK2] + [WORK3] == [GENESIS, WORK1, WORK2, WORK3];
  }

  // ---------------------------------------------------------------- the checks

  lemma StakePasses(main: seq<Block>)
    requires |main| > 0
    ensures Connectable(NETWORK, main, [GENESIS], STAKE)
  {
    FirstCreates(GENESIS, MINT);
    Unknown([GENESIS], 2);
    Unknown([GENESIS], 3);
    assert KERNEL.outs[..1] == [EMPTY_OUTPUT];
    OneOutput(EMPTY_OUTPUT);
    SpendBlockPasses(NETWORK, main, [GENESIS], STAKE, MINT);
  }

  lemma {:induction false} WorkPasses(main: seq<Block>, chain: seq<Block>, b: Block)
    requires b in [WORK1, WORK2, WORK3]
    requires forall c, tx :: c in chain && tx in c.txs ==> tx.hash != b.txs[0].hash
    ensures Connectable(NETWORK, main, chain, b)
  {
    Unknown(chain, b.txs[0].hash);
    OneOutput(TxOut(CENT, 0));
    CoinBasePasses(NETWORK, main, chain, b);
  }

  lemma {:induction false} SidePassesChecks()
    ensures SidePasses(NETWORK, [GENESIS, STAKE], [GENESIS, WORK1, WORK2, WORK3])
  {
    hide Connectable;
    var main, chain := [GENESIS, STAKE], [GENESIS, WORK1, WORK2, WORK3];
    assert chain[..1] == [GENESIS] && chain[..2] == [GENESIS, WORK1] && chain[..3] == [GENESIS, WORK1, WORK2];
    WorkPasses(main, chain[..1], chain[1]);
    WorkPasses(main, chain[..2], chain[2]);
    WorkPasses(main, chain[..3], chain[3]);
  }

  lemma BlocksAreSane(b: Block)
    requires Ours(b) && b != GENESIS
    ensures Sane(b)
  {
  }

  // ---------------------------------------------------------------- the run

  // The acceptor's state during the run: these blocks are indexed, this is the main chain, nothing is cached.
  ghost predicate Running(a: BlockAcceptor, hashes: set<Hash>, main: seq<Block>)
    reads a, a.chain, a.chain.index.Values
  {
    && a.Valid() && a.chain.net == NETWORK && a.limits == LIMITS && a.checkpoints == CHECKPOINTS
    && a.universe == Universe() && a.chain.root.block == GENESIS
    && a.chain.index.Keys == hashes && a.chain.db == main && a.checkpointBlock == None
  }

  // What the run knows about an indexed node.
  lemma {:induction false} NodeFacts(a: BlockAcceptor, hashes: set<Hash>, main: seq<Block>, h: Hash)
    requires Running(a, hashes, main) && h in hashes
    ensures var n := a.chain.index[h];
      && ChainOf(Universe(), GENESIS, Blocks(Path(n))) && n.block.hash == h
      && Blocks(Path(n))[n.height] == n.block && n.height == |Path(n)| - 1
      && n.workSum == TotalTrust(Blocks(Path(n)))
  {
    hide BlockAcceptor.Locked, BlockAcceptor.Configured, BlockChain.Main, BlockChain.Cache, BlockChain.Children;
    hide BlockChain.Optimal, ChainOf, Sane, TotalTrust;
    a.IndexedFacts(h);
    var n := a.chain.index[h];
    a.chain.KnownFacts(n);
    a.PathIsChain(n);
    assert Screened(a.limits, a.checkpoints, n);
  }

  // A chain of these blocks is determined by its last block.
  lemma {:induction false} SameChain(a: seq<Block>, b: seq<Block>)
    requires ChainOf(Universe(), GENESIS, a) && ChainOf(Universe(), GENESIS, b)
    requires a[|a| - 1].hash == b[|b| - 1].hash
    ensures a == b
  {
    OnlyChains(a);
    OnlyChains(b);
    hide ChainOf;
    OneBlock(a[|a| - 1], b[|b| - 1]);
  }

  // The tip during the run.
  lemma {:induction false} TipFacts(a: BlockAcceptor, hashes: set<Hash>, main: seq<Block>)
    requires Running(a, hashes, main)
    ensures a.chain.bestChain != null && a.chain.Known(a.chain.bestChain)
    ensures a.chain.bestChain.hash in hashes
    ensures main == Blocks(Path(a.chain.bestChain)) && a.TipWork() == TotalTrust(main)
  {
    hide BlockAcceptor.Locked, BlockAcceptor.Configured, BlockAcceptor.Screening, BlockChain.Valid, TotalTrust;
    hide Validated;
    hide MoneySupply, BlockChain.Tree;
    a.TipHeight();
    NodeFacts(a, hashes, main, a.chain.bestChain.hash);
  }

  // During the run a block is on the main chain's tip exactly when the blocks below it are the main chain.
  lemma {:induction false} ParentFacts(a: BlockAcceptor, hashes: set<Hash>, main: seq<Block>, below: seq<Block>)
    requires Running(a, hashes, main) && ChainOf(Universe(), GENESIS, below) && below[|below| - 1].hash in hashes
    ensures below[|below| - 1].hash in a.chain.index
    ensures var parent := a.chain.index[below[|below| - 1].hash];
      && Blocks(Path(parent)) == below && parent.height == |below| - 1 && parent.workSum == TotalTrust(below)
      && (parent == a.chain.bestChain <==> below == main)
  {
    var h := below[|below| - 1].hash;
    assert h in a.chain.index;
    hide Running, ChainOf, TotalTrust;
    NodeFacts(a, hashes, main, h);
    var parent := a.chain.index[h];
    SameChain(Blocks(Path(parent)), below);
    TipFacts(a, hashes, main);
    var tip: BlockNode := a.chain.bestChain;
    NodeFacts(a, hashes, main, tip.hash);
    if below == main {
      assert Blocks(Path(tip))[|main| - 1].hash == h;
    }
  }

  const ALLOWED := Rules(true, true, true)

  lemma CachedIsCheckpoint(a: BlockAcceptor)
    requires a.Locked() && a.checkpoints == CHECKPOINTS && a.checkpointBlock.Some?
    ensures a.checkpointBlock.value.height >= 2
  {
    var i: nat :| a.LockedAt(i);
  }

  // Nothing is cached below the first checkpoint.
  lemma {:induction false} NothingCached(a: BlockAcceptor, limit: nat)
    requires a.Locked() && a.checkpoints == CHECKPOINTS && limit <= 2
    requires a.checkpointBlock.Some? ==> a.checkpointBlock.value.height < limit
    ensures a.checkpointBlock == None
  {
    if a.checkpointBlock.Some? {
      CachedIsCheckpoint(a);
    }
  }

  // The main chain after a block was offered.
  function Chosen(main: seq<Block>, below: seq<Block>, block: Block): seq<Block> {
    if below == main || TotalTrust(main) < TotalTrust(below + [block]) then below + [block] else main
  }

  // A block that may be offered during the run: it belongs on top of `below` and connects.
  ghost predicate Welcome(hashes: set<Hash>, main: seq<Block>, below: seq<Block>, block: Block) {
    && |main| <= 2 && block.prevHash in hashes && block.hash !in hashes
    && Ours(block) && block != GENESIS && block.bits == BITS
    && ChainOf(Universe(), GENESIS, below) && below[|below| - 1].hash == block.prevHash
    && GoodHeader(LIMITS, below, block) && MatchesCheckpoints(CHECKPOINTS, |below|, block.hash)
    && if below == main then Connectable(NETWORK, main, main, block)
       else TotalTrust(below + [block]) <= TotalTrust(main) || SidePasses(NETWORK, main, below + [block])
  }

  lemma {:induction false} WelcomeFacts(a: BlockAcceptor, hashes: set<Hash>, main: seq<Block>, below: seq<Block>,
                                        block: Block)
    requires Running(a, hashes, main) && Welcome(hashes, main, below, block)
    ensures block.prevHash in a.chain.index && a.Candidate(block)
    ensures var parent := a.chain.index[block.prevHash];
      && a.Connects(parent, block) && a.Admissible(parent, block, ALLOWED)
      && (a.TakesOver(parent, block) <==> below == main || TotalTrust(main) < TotalTrust(below + [block]))
  {
    hide BlockAcceptor.Valid, GoodHeader, MatchesCheckpoints, SidePasses, Connectable, TotalTrust, ChainOf;
    hide Sane, CalcTrust;
    ParentFacts(a, hashes, main, below);
    TipFacts(a, hashes, main);
    TrustOf(below, block);
    Trusts();
    BlocksAreSane(block);
    InUniverse(block);
  }

  lemma {:induction false} LongerChain(below: seq<Block>, block: Block)
    requires ChainOf(Universe(), GENESIS, below) && Ours(block) && below[|below| - 1].hash == block.prevHash
    ensures ChainOf(Universe(), GENESIS, below + [block]) && (below + [block])[|below|] == block
  {
    hide Ours;
    InUniverse(block);
  }

  // What the run knows after a block was accepted.
  lemma {:induction false} Arrived(a: BlockAcceptor, hashes: set<Hash>, main: seq<Block>, below: seq<Block>,
                                   block: Block)
    requires Running(a, hashes, main) && block.hash in hashes && Ours(block)
    requires ChainOf(Universe(), GENESIS, below) && below[|below| - 1].hash == block.prevHash
    ensures block.hash in a.chain.index && (a.chain.bestChain == a.chain.index[block.hash] ==> main == below + [block])
  {
    assert block.hash in a.chain.index;
    hide Running, ChainOf, Universe, Ours, TotalTrust;
    LongerChain(below, block);
    NodeFacts(a, hashes, main, block.hash);
    TipFacts(a, hashes, main);
    if a.chain.bestChain == a.chain.index[block.hash] {
      SameChain(main, below + [block]);
    }
  }

  // A block that connects is accepted and indexed.
  method Offer(a: BlockAcceptor, block: Block, ghost hashes: set<Hash>, ghost main: seq<Block>, ghost below: seq<Block>)
    requires Running(a, hashes, main) && Welcome(hashes, main, below, block)
    modifies a`checkpointBlock, a`nextCheckpoint
    modifies a.chain`db, a.chain`index, a.chain`blockCache, a.chain`bestChain, a.chain.index.Values
    ensures Running(a, hashes + {block.hash}, Chosen(main, below, block)) && a.nextCheckpoint.Some?
    ensures forall n :: n in a.chain.index.Values ==> n in old(a.chain.index.Values) || fresh(n)
  {
    hide BlockChain.Valid, BlockAcceptor.Screening, BlockAcceptor.Configured, BlockAcceptor.Connects;
    hide BlockAcceptor.Locked;
    hide BlockAcceptor.Candidate, BlockAcceptor.Admissible, BlockAcceptor.TakesOver, BlockAcceptor.TipWork;
    hide ChainOf, TotalTrust;
    hide GoodHeader, MatchesCheckpoints, SidePasses, Connectable, BlockAcceptor.LockedIn, BlockAcceptor.Deserving;
    WelcomeFacts(a, hashes, main, below, block);
    TipFacts(a, hashes, main);
    ghost var takesOver := a.TakesOver(a.chain.index[block.prevHash], block);
    var outcome := a.MaybeAcceptBlock(block, ALLOWED, false);
    NothingCached(a, |main|);
    assert outcome.Accepted?;
    assert Running(a, hashes + {block.hash}, a.chain.db);
    TipFacts(a, hashes + {block.hash}, a.chain.db);
    Arrived(a, hashes + {block.hash}, a.chain.db, below, block);
  }

  method Start() returns (a: BlockAcceptor)
    ensures Running(a, {10}, [GENESIS]) && fresh(a) && fresh(a.chain) && fresh(a.chain.index.Values)
  {
    hide Collisionless, RightCheckpoints, BlockAcceptor.Valid;
    HashesAreRight();
    CheckpointsAreRight();
    InUniverse(GENESIS);
    a := new BlockAcceptor(NETWORK, LIMITS, CHECKPOINTS, GENESIS, CENT, Universe());
    assert a.chain.index.Keys == {10};
  }

  lemma StakeIsWelcome()
    ensures Welcome({10}, [GENESIS], [GENESIS], STAKE)
  {
    hide Connectable, GoodHeader;
    HeadersAreGood();
    InUniverse(GENESIS);
    StakePasses([GENESIS]);
  }

  // WORK1 and WORK2 bring no more trust than STAKE.
  lemma SideIsWelcome()
    ensures Welcome({10, 20}, [GENESIS, STAKE], [GENESIS], WORK1)
    ensures Welcome({10, 20, 11}, [GENESIS, STAKE], [GENESIS, WORK1], WORK2)
  {
    hide Connectable, GoodHeader, TotalTrust;
    HeadersAreGood();
    InUniverse(GENESIS);
    InUniverse(WORK1);
    ChainTrusts();
    assert [GENESIS] + [WORK1] == [GENESIS, WORK1] && [GENESIS, WORK1] + [WORK2] == [GENESIS, WORK1, WORK2];
  }

  lemma LastIsWelcome()
    ensures Welcome({10, 20, 11, 12}, [GENESIS, STAKE], [GENESIS, WORK1, WORK2], WORK3)
  {
    hide Connectable, GoodHeader, TotalTrust;
    HeadersAreGood();
    InUniverse(GENESIS);
    InUniverse(WORK1);
    InUniverse(WORK2);
    SidePassesChecks();
    assert [GENESIS, WORK1, WORK2] + [WORK3] == [GENESIS, WORK1, WORK2, WORK3];
  }

  // STAKE becomes the tip, WORK1 and WORK2 wait on a side chain, and WORK3 reorganizes the chain.
  method Reorganized() returns (a: BlockAcceptor)
    ensures fresh(a) && Running(a, {10, 20, 11, 12, 13}, [GENESIS, WORK1, WORK2, WORK3]) && a.nextCheckpoint.Some?
  {
    hide Running, Welcome, Chosen;
    StakeIsWelcome();
    SideIsWelcome();
    LastIsWelcome();
    ChainsChosen();
    a := Start();
    Offer(a, STAKE, {10}, [GENESIS], [GENESIS]);
    assert {10} + {20} == {10, 20};
    Offer(a, WORK1, {10, 20}, [GENESIS, STAKE], [GENESIS]);
    assert {10, 20} + {11} == {10, 20, 11};
    Offer(a, WORK2, {10, 20, 11}, [GENESIS, STAKE], [GENESIS, WORK1]);
    assert {10, 20, 11} + {12} == {10, 20, 11, 12};
    Offer(a, WORK3, {10, 20, 11, 12}, [GENESIS, STAKE], [GENESIS, WORK1, WORK2]);
    assert {10, 20, 11, 12} + {13} == {10, 20, 11, 12, 13};
  }

  /** A run after which the lookup lags.  STAKE becomes the tip with the trust 2, WORK1 and WORK2 wait on a side
      chain, and WORK3 reorganizes the chain from height 1 to height 3, past both checkpoints.  The next lookup moves to
      the first of them, although the second one is in the database too. */
  method LaggingLookup() returns (a: BlockAcceptor)
    ensures a.Valid() && a.checkpoints == CHECKPOINTS && a.chain.db == [GENESIS, WORK1, WORK2, WORK3]
    ensures a.checkpointBlock == Some(LockIn(WORK2, 2)) && !a.IsNewest()
  {
    hide BlockChain.Valid, BlockAcceptor.Configured, BlockAcceptor.Screening, BlockAcceptor.IsNewest;
    hide BlockAcceptor.LockedIn;
    a := Reorganized();
    FirstIsNext(a);
    var ok, found := a.FindPreviousCheckpoint();
    assert CHECKPOINTS[1] in a.checkpoints;
  }

  lemma ChainsChosen()
    ensures Chosen([GENESIS], [GENESIS], STAKE) == [GENESIS, STAKE]
    ensures Chosen([GENESIS, STAKE], [GENESIS], WORK1) == [GENESIS, STAKE]
    ensures Chosen([GENESIS, STAKE], [GENESIS, WORK1], WORK2) == [GENESIS, STAKE]
    ensures Chosen([GENESIS, STAKE], [GENESIS, WORK1, WORK2], WORK3) == [GENESIS, WORK1, WORK2, WORK3]
  {
    hide TotalTrust;
    ChainTrusts();
    assert [GENESIS] + [STAKE] == [GENESIS, STAKE] && [GENESIS] + [WORK1] == [GENESIS, WORK1];
    assert [GENESIS, WORK1] + [WORK2] == [GENESIS, WORK1, WORK2];
    assert [GENESIS, WORK1, WORK2] + [WORK3] == [GENESIS, WORK1, WORK2, WORK3];
  }

  lemma FirstIsNext(a: BlockAcceptor)
    requires a.Locked() && a.checkpoints == CHECKPOINTS && a.checkpointBlock == None && a.nextCheckpoint.Some?
    ensures a.nextCheckpoint == Some(CHECKPOINTS[0])
  {
  }
}
