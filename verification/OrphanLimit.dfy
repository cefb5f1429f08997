/** A run after which the orphan pool holds more than its limit.  All blocks go through ProcessBlock. */
module OrphanLimit {
  import opened Ledger
  import opened Validate
  import opened Wrappers
  import opened Spending
  import opened Chain
  import opened Accept
  import opened Orphans
  import opened Process
  import opened SmallBlocks
  import opened LaggingCheckpoint

  // ---------------------------------------------------------------- the blocks

  // An orphan whose parent nobody has.
  function Numbered(n: nat): Block {
    Block(100 + 2 * n, 99 + 2 * n, [CoinBase(100 + n, TxOut(CENT, 0))], BITS, 1800, false)
  }

  ghost predicate Offered(b: Block) {
    b == GENESIS || b == WORK1 || b == WORK2 || exists n: nat :: b == Numbered(n)
  }

  ghost function AllOffered(): iset<Block> {
    iset b | Offered(b)
  }

  lemma OfferedIsIn(b: Block)
    ensures b in AllOffered() <==> Offered(b)
  {
  }

  lemma OneOffered(a: Block, b: Block)
    requires Offered(a) && Offered(b) && a.hash == b.hash
    ensures a == b
  {
  }

  lemma OneOfferedTx(a: Block, b: Block, tx: Tx, other: Tx)
    requires Offered(a) && Offered(b) && tx in a.txs && other in b.txs && tx.hash == other.hash
    ensures tx == other
  {
    hide IsCoinBase;
    assert a.txs == [a.txs[0]] && b.txs == [b.txs[0]];
    assert tx == a.txs[0] && other == b.txs[0];
  }

  // The only chains from genesis.
  lemma {:induction false} OfferedChains(chain: seq<Block>)
    requires ChainOf(AllOffered(), GENESIS, chain)
    ensures var last := chain[|chain| - 1];
      && (last == GENESIS || last == WORK1 || last == WORK2)
      && (last == GENESIS ==> chain == [GENESIS])
      && (last == WORK1 ==> chain == [GENESIS, WORK1])
      && (last == WORK2 ==> chain == [GENESIS, WORK1, WORK2])
    decreases |chain|
  {
    var n := |chain| - 1;
    assert chain[n] in chain;
    OfferedIsIn(chain[n]);
    if n > 0 {
      var front := chain[..n];
      OfferedChains(front);
      assert chain == front + [chain[n]];
      assert chain[n].prevHash == front[n - 1].hash;
    }
  }

  lemma {:induction false} CoinBasesAreNew(chain: seq<Block>)
    requires ChainOf(AllOffered(), GENESIS, chain)
    ensures CoinBasesDiffer(Steps(chain))
  {
    OfferedChains(chain);
    hide Steps, ChainOf;
    WorkSteps();
  }

  lemma OfferedTxs(universe: iset<Block>)
    requires forall b :: b in universe ==> Offered(b)
    ensures OneTx(universe)
  {
    hide Offered;
    forall a, b, tx, other |
      a in universe && b in universe && tx in a.txs && other in b.txs && tx.hash == other.hash ensures tx == other
    {
      OneOfferedTx(a, b, tx, other);
    }
  }

  lemma OfferedHashes()
    ensures Collisionless(NETWORK, AllOffered(), GENESIS) && RightCheckpoints([], AllOffered(), GENESIS)
    ensures Hashed(AllOffered(), (h: Hash) => h)
  {
    forall b ensures b in AllOffered() <==> Offered(b) { OfferedIsIn(b); }
    forall b | Offered(b) ensures b.prevHash < b.hash {}
    hide ChainOf, CoinBasesDiffer, Validated, OneTx, AllOffered, Offered;
    OfferedTxs(AllOffered());
    forall a, b | a in AllOffered() && b in AllOffered() && a.hash == b.hash ensures a == b {
      OneOffered(a, b);
    }
    forall chain: seq<Block> | ChainOf(AllOffered(), GENESIS, chain) && Validated(NETWORK, chain)
      ensures CoinBasesDiffer(Steps(chain))
    {
      CoinBasesAreNew(chain);
    }
  }

  // ---------------------------------------------------------------- the chain during the run

  const ENVIRONMENT := Environment((b: Block) => true, (b: Block) => ALLOWED)

  // The state of the chain throughout the run.
  ghost predicate Under(a: BlockAcceptor)
    reads a, a.chain, a.chain.index.Values
  {
    && a.Valid() && a.chain.net == NETWORK && a.limits == LIMITS && a.checkpoints == []
    && a.universe == AllOffered() && a.chain.root.block == GENESIS
  }

  // Only the first three blocks are ever in the tree.
  lemma {:induction false} TreeFacts(a: BlockAcceptor, h: Hash)
    requires Under(a) && h in a.chain.index
    ensures var n := a.chain.index[h]; a.chain.Known(n) && ChainOf(AllOffered(), GENESIS, Blocks(Path(n)))
    ensures var branch := Blocks(Path(a.chain.index[h]));
      || (h == 10 && branch == [GENESIS]) || (h == 11 && branch == [GENESIS, WORK1])
      || (h == 12 && branch == [GENESIS, WORK1, WORK2])
  {
    hide BlockAcceptor.Locked, BlockAcceptor.Configured, BlockChain.Main, BlockChain.Cache, BlockChain.Children;
    hide BlockChain.Optimal, ChainOf, Sane, Screened;
    a.IndexedFacts(h);
    var n := a.chain.index[h];
    a.chain.KnownFacts(n);
    a.PathIsChain(n);
    OfferedChains(Blocks(Path(n)));
  }

  lemma NothingLocked(a: BlockAcceptor)
    requires a.Locked() && a.checkpoints == []
    ensures a.checkpointBlock == None
  {
  }

  // A proof-of-work block of the run passes beside every main chain.
  lemma {:induction false} WorkBranchPasses(main: seq<Block>)
    ensures SidePasses(NETWORK, main, [GENESIS, WORK1]) && SidePasses(NETWORK, main, [GENESIS, WORK1, WORK2])
  {
    hide Connectable;
    var one, two := [GENESIS, WORK1], [GENESIS, WORK1, WORK2];
    assert one[..1] == [GENESIS] && two[..1] == [GENESIS] && two[..2] == [GENESIS, WORK1];
    WorkPasses(main, [GENESIS], WORK1);
    WorkPasses(main, [GENESIS, WORK1], WORK2);
  }

  // WORK1 and WORK2 are acceptable whenever their parents are known.
  lemma {:induction false} WorkAcceptable(p: BlockProcessor, block: Block)
    requires Under(p.acceptor) && (block == WORK1 || block == WORK2) && block.prevHash in p.acceptor.chain.index
    ensures p.Acceptable(block, ALLOWED) && !p.TooOld(block)
  {
    hide GoodHeader, SidePasses, BlockAcceptor.Connects, BlockChain.Valid, BlockAcceptor.Screening, ChainOf;
    hide BlockAcceptor.Configured;
    var a := p.acceptor;
    TreeFacts(a, block.prevHash);
    var parent := a.chain.index[block.prevHash];
    HeadersAreGood();
    WorkBranchPasses(a.chain.db);
    assert [GENESIS] + [WORK1] == [GENESIS, WORK1] && [GENESIS, WORK1] + [WORK2] == [GENESIS, WORK1, WORK2];
    a.BranchConnects(parent, block);
    NothingLocked(a);
  }

  // ---------------------------------------------------------------- the run

  const NOW := 2000

  const FIRST := OrphanBlock(WORK2, NOW + HOUR)

  method Begin() returns (p: BlockProcessor)
    ensures fresh(p) && fresh(p.pool) && fresh(p.acceptor) && fresh(p.acceptor.chain)
    ensures fresh(p.acceptor.chain.index.Values) && p.Valid() && Fixed(p.acceptor)
    ensures p.acceptor.chain.index.Keys == {10} && p.pool.orphans == map[] && p.pool.oldestOrphan == None
  {
    hide Collisionless, RightCheckpoints, BlockAcceptor.Valid, OrphanPool.Valid, Hashed, Offered;
    OfferedHashes();
    OfferedIsIn(GENESIS);
    assert Offered(GENESIS) by { GenesisIsOffered(); }
    var acceptor := new BlockAcceptor(NETWORK, LIMITS, [], GENESIS, CENT, AllOffered());
    var pool := new OrphanPool(AllOffered(), (h: Hash) => h);
    p := new BlockProcessor(acceptor, pool);
  }

  lemma GenesisIsOffered()
    ensures Offered(GENESIS)
  {
  }

  // What the constants of a valid processor say about its chain.
  ghost predicate Fixed(a: BlockAcceptor) {
    && a.chain.net == NETWORK && a.limits == LIMITS && a.checkpoints == []
    && a.universe == AllOffered() && a.chain.root.block == GENESIS
  }

  lemma ChainFacts(p: BlockProcessor)
    requires p.Valid() && Fixed(p.acceptor)
    ensures Under(p.acceptor) && p.acceptor.checkpointBlock == None
  {
    hide BlockChain.Valid, BlockAcceptor.Screening, BlockAcceptor.Configured, OrphanPool.Valid;
    NothingLocked(p.acceptor);
  }

  // A sane block whose parent is unknown joins the pool and leaves the chain as it is.
  method OfferOrphan(p: BlockProcessor, block: Block, now: int)
    requires p.Valid() && Fixed(p.acceptor) && Offered(block) && block != GENESIS
    requires block.prevHash !in p.acceptor.chain.index
    requires block.hash !in p.acceptor.chain.index && block.hash !in p.pool.orphans
    modifies p.pool, p.acceptor`checkpointBlock, p.acceptor`nextCheckpoint
    modifies p.acceptor.chain`db, p.acceptor.chain`index, p.acceptor.chain`blockCache, p.acceptor.chain`bestChain
    modifies p.acceptor.chain.index.Values
    ensures p.Valid() && unchanged(p.acceptor.chain)
    ensures Added(old(p.pool.orphans), old(p.pool.oldestOrphan), p.pool.orphans, p.pool.oldestOrphan, block, now)
  {
    hide Added, BlockProcessor.Valid, Under, Sane, BlockProcessor.PredatesLockIn, Offered, BlockAcceptor.LockedIn;
    hide BlockAcceptor.TipWork, BlockProcessor.Settled, BlockProcessor.Freeing, BlockProcessor.RefusedOne;
    OfferedIsIn(block);
    OfferedIsSane(block);
    var processed := p.ProcessBlock(block, ENVIRONMENT, now, false);
    ChainFacts(p);
    NoLockIn(p, block);
  }

  lemma NoLockIn(p: BlockProcessor, block: Block)
    requires p.acceptor.checkpointBlock == None
    ensures !p.PredatesLockIn(block)
  {
  }

  lemma OfferedIsSane(b: Block)
    requires Offered(b) && b != GENESIS
    ensures Sane(b) && b.prevHash != ZERO_HASH
  {
  }

  // The hashes of the orphans 0 to below `end`.
  predicate AreNumbered(hashes: set<Hash>, end: nat) {
    && |hashes| == end
    && (forall n: nat :: n < end ==> Numbered(n).hash in hashes)
    && (forall h :: h in hashes ==> 100 <= h < 100 + 2 * end)
  }

  lemma NumberedGrow(hashes: set<Hash>, end: nat)
    requires AreNumbered(hashes, end)
    ensures Numbered(end).hash !in hashes && AreNumbered(hashes + {Numbered(end).hash}, end + 1)
  {
  }

  lemma NumberedMany(hashes: set<Hash>)
    requires AreNumbered(hashes, MAX_ORPHAN_BLOCKS + 1)
    ensures |hashes| == MAX_ORPHAN_BLOCKS + 1
  {
  }

  // The orphans 0 to below `end` are pooled and FIRST, which has left, is remembered.
  ghost predicate Filled(orphans: map<Hash, OrphanBlock>, remembered: Option<OrphanBlock>, end: nat) {
    && AreNumbered(orphans.Keys, end)
    && (forall h :: h in orphans ==> orphans[h].expiration == NOW + 1 + HOUR)
    && remembered == Some(FIRST)
  }

  lemma FirstAdded(after: map<Hash, OrphanBlock>, remembered: Option<OrphanBlock>)
    requires Added(map[], None, after, remembered, WORK2, NOW)
    ensures after == map[12 := FIRST] && remembered == None
  {
    assert Unexpired(map[], NOW) == {};
    assert after.Keys == {12};
  }

  // FIRST and the orphan 0.
  ghost predicate TwoPooled(orphans: map<Hash, OrphanBlock>) {
    orphans.Keys == {12, 100} && orphans[12] == FIRST && orphans[100] == OrphanBlock(Numbered(0), NOW + 1 + HOUR)
  }

  lemma SecondAdded(after: map<Hash, OrphanBlock>, remembered: Option<OrphanBlock>)
    requires Added(map[12 := FIRST], None, after, remembered, Numbered(0), NOW + 1)
    ensures TwoPooled(after) && remembered == Some(FIRST)
  {
    assert 12 in Unexpired(map[12 := FIRST], NOW + 1);
    assert Unexpired(map[12 := FIRST], NOW + 1) == {12};
  }

  lemma NothingExpired(before: map<Hash, OrphanBlock>, remembered: Option<OrphanBlock>, n: nat)
    requires Filled(before, remembered, n)
    ensures Unexpired(before, NOW + 1) == before.Keys && |before.Keys| == n && !Outlives(before, FIRST, NOW + 1)
    ensures 12 !in before
  {
  }

  lemma RoomForOne(before: map<Hash, OrphanBlock>, remembered: Option<OrphanBlock>, after: map<Hash, OrphanBlock>,
                   rememberedAfter: Option<OrphanBlock>, n: nat)
    requires n < MAX_ORPHAN_BLOCKS && remembered == Some(FIRST) && Unexpired(before, NOW + 1) == before.Keys
    requires |before.Keys| == n && !Outlives(before, FIRST, NOW + 1)
    requires Added(before, remembered, after, rememberedAfter, Numbered(n), NOW + 1)
    ensures after.Keys == before.Keys + {Numbered(n).hash} && rememberedAfter == remembered
  {
    hide Unexpired, Outlives;
  }

  lemma OneAdded(before: map<Hash, OrphanBlock>, remembered: Option<OrphanBlock>, after: map<Hash, OrphanBlock>,
                 rememberedAfter: Option<OrphanBlock>, n: nat)
    requires n < MAX_ORPHAN_BLOCKS && Filled(before, remembered, n)
    requires Added(before, remembered, after, rememberedAfter, Numbered(n), NOW + 1)
    ensures Filled(after, rememberedAfter, n + 1)
  {
    hide Unexpired, Outlives, Scanned, AreNumbered;
    NothingExpired(before, remembered, n);
    RoomForOne(before, remembered, after, rememberedAfter, n);
    NumberedGrow(before.Keys, n);
  }

  // The full pool evicts FIRST, which is not there any more.
  lemma LastAdded(before: map<Hash, OrphanBlock>, remembered: Option<OrphanBlock>, after: map<Hash, OrphanBlock>,
                  rememberedAfter: Option<OrphanBlock>)
    requires Filled(before, remembered, MAX_ORPHAN_BLOCKS)
    requires Added(before, remembered, after, rememberedAfter, Numbered(MAX_ORPHAN_BLOCKS), NOW + 1)
    ensures |after| == MAX_ORPHAN_BLOCKS + 1
  {
    NothingExpired(before, remembered, MAX_ORPHAN_BLOCKS);
    hide Unexpired, Outlives, AreNumbered;
    NumberedGrow(before.Keys, MAX_ORPHAN_BLOCKS);
    assert before.Keys - {12} == before.Keys;
    assert |after| == |after.Keys| by { assert after.Keys == before.Keys + {Numbered(MAX_ORPHAN_BLOCKS).hash}; }
    hide Added;
    NumberedMany(after.Keys);
  }

  // Of the two, exactly FIRST descends from WORK1.
  lemma OnlyFirstDescends(orphans: map<Hash, OrphanBlock>)
    requires TwoPooled(orphans)
    ensures Descends(orphans, 11, 12) && !Descends(orphans, 11, 100)
  {
    assert Line(orphans, 11, [12]);
    forall line | Line(orphans, 11, line) ensures line[|line| - 1] != 100 {
      var n := |line| - 1;
      if n > 0 {
        assert orphans[line[n]].block.prevHash == line[n - 1] && line[n - 1] in orphans;
      }
    }
  }

  // Whatever WORK1's arrival does, it is not refused.
  lemma {:induction false} WorkNotRefused(p: BlockProcessor)
    requires p.Valid() && Fixed(p.acceptor)
    ensures !p.TooOld(WORK1) && !p.PredatesLockIn(WORK1) && Sane(WORK1)
  {
    hide BlockProcessor.Valid, Under, Fixed;
    ChainFacts(p);
    OfferedIsSane(WORK1);
  }

  // What is left in the pool once FIRST has left it.
  lemma OneLeft(before: map<Hash, OrphanBlock>, orphans: map<Hash, OrphanBlock>)
    requires TwoPooled(before) && orphans.Keys <= before.Keys && forall h :: h in orphans ==> orphans[h] == before[h]
    requires forall h :: h in before ==> (h in orphans <==> !Descends(before, 11, h))
    ensures Filled(orphans, Some(FIRST), 1) && before.Keys - orphans.Keys == {12}
  {
    hide Descends;
    OnlyFirstDescends(before);
    assert 12 in before && 100 in before;
    assert orphans.Keys == {100};
    assert forall n: nat :: n < 1 ==> Numbered(n).hash == 100;
  }

  // WORK1 joins the chain and takes FIRST out of the pool with it.
  method OfferParent(p: BlockProcessor)
    requires p.Valid() && Fixed(p.acceptor) && p.acceptor.chain.index.Keys == {10}
    requires TwoPooled(p.pool.orphans) && p.pool.oldestOrphan == Some(FIRST)
    modifies p.pool, p.acceptor`checkpointBlock, p.acceptor`nextCheckpoint
    modifies p.acceptor.chain`db, p.acceptor.chain`index, p.acceptor.chain`blockCache, p.acceptor.chain`bestChain
    modifies p.acceptor.chain.index.Values
    ensures p.Valid() && p.acceptor.chain.index.Keys == {10, 11, 12}
    ensures forall n :: n in p.acceptor.chain.index.Values ==> n in old(p.acceptor.chain.index.Values) || fresh(n)
    ensures Filled(p.pool.orphans, p.pool.oldestOrphan, 1)
  {
    hide Added, BlockProcessor.Valid, Descends, Under, Sane, Filled, BlockProcessor.PredatesLockIn, Offered;
    hide BlockProcessor.Acceptable, BlockProcessor.TooOld, BlockProcessor.RefusedOne, BlockProcessor.Undeserving;
    hide BlockAcceptor.LockedIn, BlockAcceptor.TipWork, BlockProcessor.Settled;
    WorkIsOffered();
    ChainFacts(p);
    WorkAcceptable(p, WORK1);
    ghost var before, known := p.pool.orphans, p.acceptor.chain.index.Keys;
    assert 11 !in before;
    var processed := p.ProcessBlock(WORK1, ENVIRONMENT, NOW + 1, false);
    WorkNotRefused(p);
    ChainFacts(p);
    NotRefused(p, before);
    assert processed == Done(false);
    OneLeft(before, p.pool.orphans);
  }

  lemma WorkIsOffered()
    ensures Offered(WORK1) && WORK1 in AllOffered() && Offered(WORK2)
  {
    OfferedIsIn(WORK1);
  }

  lemma {:induction false} NotRefused(p: BlockProcessor, before: map<Hash, OrphanBlock>)
    requires Under(p.acceptor) && TwoPooled(before)
    ensures !p.RefusedOne(before, 11, ENVIRONMENT.rules)
  {
    hide BlockProcessor.Acceptable, BlockProcessor.TooOld, Under, Descends;
    OnlyFirstDescends(before);
    forall o ensures !p.RefusedOrphan(before, 11, ENVIRONMENT.rules, o) {
      if 11 in p.acceptor.chain.index {
        WorkAcceptable(p, WORK2);
      }
    }
  }

  // The state after WORK1 and WORK2 joined the chain.
  method Prepared() returns (p: BlockProcessor)
    ensures fresh(p.pool) && fresh(p.acceptor) && fresh(p.acceptor.chain) && fresh(p.acceptor.chain.index.Values)
    ensures p.Valid() && Fixed(p.acceptor) && p.acceptor.chain.index.Keys == {10, 11, 12}
    ensures Filled(p.pool.orphans, p.pool.oldestOrphan, 1)
  {
    hide Added, Filled, BlockProcessor.Valid, Offered, Under;
    WorkIsOffered();
    NumberedIsOffered(0);
    p := Begin();
    OfferOrphan(p, WORK2, NOW);
    FirstAdded(p.pool.orphans, p.pool.oldestOrphan);
    OfferOrphan(p, Numbered(0), NOW + 1);
    SecondAdded(p.pool.orphans, p.pool.oldestOrphan);
    OfferParent(p);
  }

  lemma NumberedIsOffered(n: nat)
    ensures Offered(Numbered(n))
  {
  }

  method AddNumbered(p: BlockProcessor, n: nat)
    requires p.Valid() && Fixed(p.acceptor) && p.acceptor.chain.index.Keys == {10, 11, 12}
    requires n <= MAX_ORPHAN_BLOCKS && Filled(p.pool.orphans, p.pool.oldestOrphan, n)
    modifies p.pool, p.acceptor`checkpointBlock, p.acceptor`nextCheckpoint
    modifies p.acceptor.chain`db, p.acceptor.chain`index, p.acceptor.chain`blockCache, p.acceptor.chain`bestChain
    modifies p.acceptor.chain.index.Values
    ensures p.Valid() && unchanged(p.acceptor.chain)
    ensures if n < MAX_ORPHAN_BLOCKS then Filled(p.pool.orphans, p.pool.oldestOrphan, n + 1)
            else |p.pool.orphans| == MAX_ORPHAN_BLOCKS + 1
  {
    hide Added, Filled, BlockProcessor.Valid, Offered, Under;
    ghost var before, remembered := p.pool.orphans, p.pool.oldestOrphan;
    NotYetPooled(before, remembered, n);
    NumberedIsOffered(n);
    OfferOrphan(p, Numbered(n), NOW + 1);
    if n < MAX_ORPHAN_BLOCKS {
      OneAdded(before, remembered, p.pool.orphans, p.pool.oldestOrphan, n);
    } else {
      LastAdded(before, remembered, p.pool.orphans, p.pool.oldestOrphan);
    }
  }

  /** A run that leaves 101 orphans in the pool.  FIRST is remembered as the oldest orphan, leaves the pool when its
      parent WORK1 arrives, and is evicted once more when the pool is full. */
  method OverfullPool() returns (p: BlockProcessor)
    ensures p.Valid() && |p.pool.orphans| == MAX_ORPHAN_BLOCKS + 1
  {
    hide Filled, Fixed, BlockProcessor.Valid;
    p := Prepared();
    for n := 1 to MAX_ORPHAN_BLOCKS
      invariant p.Valid() && Fixed(p.acceptor) && p.acceptor.chain.index.Keys == {10, 11, 12}
      invariant Filled(p.pool.orphans, p.pool.oldestOrphan, n)
      invariant fresh(p.acceptor.chain.index.Values)
    {
      AddNumbered(p, n);
    }
    AddNumbered(p, MAX_ORPHAN_BLOCKS);
  }

  lemma NotYetPooled(orphans: map<Hash, OrphanBlock>, remembered: Option<OrphanBlock>, n: nat)
    requires Filled(orphans, remembered, n)
    ensures Numbered(n).hash !in orphans
  {
  }
}
