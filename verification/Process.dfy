/** Handing blocks to the chain (process.go): duplicates, sanity, orphans, acceptance, and the drain of the orphans
    that an accepted block sets free. */
module Process {
  import opened Ledger
  import opened Validate
  import opened Wrappers
  import opened Accept
  import opened Orphans

  // The verdicts of the rules outside this model for each block.
  datatype Environment = Environment(sanity: Block -> bool, rules: Block -> Rules)

  datatype Refusal = DuplicateBlock | Insane | CheckpointTimeTooOld | NotAccepted(why: Rejection)

  datatype Processed = Done(isOrphan: bool) | Refused(why: Refusal)

  /** Midway through the drain for `hash`.  The orphans that left the pool are descendants of `hash` and are in the
      tree now, and every orphan still pooled whose parent is `hash` or has left the pool has that parent pending. */
  ghost predicate Draining(before: map<Hash, OrphanBlock>, orphans: map<Hash, OrphanBlock>, knownBefore: set<Hash>,
                           known: set<Hash>, hash: Hash, pending: set<Hash>) {
    && orphans.Keys <= before.Keys && (forall h :: h in orphans ==> orphans[h] == before[h])
    && known == knownBefore + (before.Keys - orphans.Keys)
    && (forall h :: h in pending ==> Freed(before, orphans, hash, h))
    && (forall h :: h in before.Keys - orphans.Keys ==> Descends(before, hash, h))
    && (forall h :: h in orphans && Freed(before, orphans, hash, orphans[h].block.prevHash) ==>
          orphans[h].block.prevHash in pending)
  }

  ghost predicate Freed(before: map<Hash, OrphanBlock>, orphans: map<Hash, OrphanBlock>, hash: Hash, h: Hash) {
    h == hash || h in before.Keys - orphans.Keys
  }

  /** What a stretch of the drain does to pool and tree, whether or not it ends with an error: some orphans leave the
      pool, and no other block joins the tree. */
  ghost predicate Moved(before: map<Hash, OrphanBlock>, knownBefore: set<Hash>, orphans: map<Hash, OrphanBlock>,
                        known: set<Hash>) {
    && orphans.Keys <= before.Keys && (forall h :: h in orphans ==> orphans[h] == before[h])
    && known <= knownBefore + (before.Keys - orphans.Keys)
  }

  lemma MovedTwice(a: map<Hash, OrphanBlock>, ka: set<Hash>, b: map<Hash, OrphanBlock>, kb: set<Hash>,
                   c: map<Hash, OrphanBlock>, kc: set<Hash>)
    requires Moved(a, ka, b, kb) && Moved(b, kb, c, kc)
    ensures Moved(a, ka, c, kc) && c.Keys <= b.Keys
  {
  }

  function Pending(queue: seq<Hash>): set<Hash> {
    set h | h in queue
  }

  lemma PendingOne(h: Hash)
    ensures Pending([]) == {} && Pending([h]) == {h}
  {
  }

  lemma PendingFirst(queue: seq<Hash>)
    requires queue != []
    ensures Pending(queue) == Pending(queue[1..]) + {queue[0]}
  {
    assert queue == [queue[0]] + queue[1..];
  }

  lemma PendingLast(queue: seq<Hash>, h: Hash)
    ensures Pending(queue + [h]) == Pending(queue) + {h}
  {
  }

  lemma StartDraining(before: map<Hash, OrphanBlock>, known: set<Hash>, hash: Hash)
    ensures Draining(before, before, known, known, hash, {hash})
  {
  }

  // A pending parent's orphan moves from the pool to the tree and becomes pending itself.
  lemma OrphanAccepted(before: map<Hash, OrphanBlock>, orphans: map<Hash, OrphanBlock>, knownBefore: set<Hash>,
                       known: set<Hash>, hash: Hash, pending: set<Hash>, o: Hash)
    requires Draining(before, orphans, knownBefore, known, hash, pending)
    requires o in orphans && orphans[o].block.prevHash in pending
    ensures Draining(before, orphans - {o}, knownBefore, known + {o}, hash, pending + {o})
  {
    hide Descends;
    ChildDescends(before, hash, orphans[o].block.prevHash, o);
  }

  // An orphan with a pending parent descends from `hash`, and its parent is in the tree.
  lemma PendingChild(before: map<Hash, OrphanBlock>, orphans: map<Hash, OrphanBlock>, knownBefore: set<Hash>,
                     known: set<Hash>, hash: Hash, pending: set<Hash>, o: Hash)
    requires Draining(before, orphans, knownBefore, known, hash, pending) && hash in knownBefore
    requires o in orphans && orphans[o].block.prevHash in pending
    ensures o in before && before[o] == orphans[o] && Descends(before, hash, o) && orphans[o].block.prevHash in known
  {
    hide Descends;
    ChildDescends(before, hash, orphans[o].block.prevHash, o);
  }

  // A parent without orphans is no longer pending.
  lemma ParentDone(before: map<Hash, OrphanBlock>, orphans: map<Hash, OrphanBlock>, knownBefore: set<Hash>,
                   known: set<Hash>, hash: Hash, parent: Hash, pending: set<Hash>)
    requires Draining(before, orphans, knownBefore, known, hash, pending + {parent})
    requires forall h :: h in orphans ==> orphans[h].block.prevHash != parent
    ensures Draining(before, orphans, knownBefore, known, hash, pending)
  {
  }

  // With nothing pending, exactly the descendants have left the pool.
  lemma Drained(before: map<Hash, OrphanBlock>, orphans: map<Hash, OrphanBlock>, knownBefore: set<Hash>,
                known: set<Hash>, hash: Hash)
    requires Draining(before, orphans, knownBefore, known, hash, {})
    ensures forall h :: h in before ==> (h in orphans <==> !Descends(before, hash, h))
    ensures forall h :: h in orphans ==> !Freed(before, orphans, hash, orphans[h].block.prevHash)
  {
    hide Descends;
    forall h | h in before && Descends(before, hash, h) ensures h !in orphans {
      ClosedUnderDescent(before, hash, before.Keys - orphans.Keys, h);
    }
  }

  class BlockProcessor {
    const acceptor: BlockAcceptor
    const pool: OrphanPool

    // An orphan that waits in the pool: sane, not in the tree and not a second genesis block.
    ghost predicate Waiting()
      reads pool`orphans, acceptor.chain`index
    {
      forall h :: h in pool.orphans ==> acceptor.Candidate(pool.orphans[h].block)
    }

    ghost predicate Valid()
      reads acceptor, pool
      reads acceptor.chain`index, acceptor.chain`bestChain, acceptor.chain`db, acceptor.chain`blockCache
      reads acceptor.chain.index.Values`inMainChain, acceptor.chain.index.Values`moneySupply
      reads acceptor.chain.index.Values`children
    {
      acceptor.Valid() && pool.Valid() && pool.universe == acceptor.universe && Waiting()
    }

    /** No pooled orphan has a known parent. */
    ghost predicate Settled()
      reads pool`orphans, acceptor.chain`index
    {
      forall h :: h in pool.orphans ==> pool.orphans[h].block.prevHash !in acceptor.chain.index
    }

    constructor (acceptor: BlockAcceptor, pool: OrphanPool)
      requires acceptor.Valid() && pool.Valid() && pool.universe == acceptor.universe && pool.orphans == map[]
      ensures Valid() && Settled() && this.acceptor == acceptor && this.pool == pool
    {
      hide BlockAcceptor.Valid, OrphanPool.Valid;
      this.acceptor := acceptor;
      this.pool := pool;
    }

    // blockExists; the whole tree is in memory.
    method BlockExists(hash: Hash) returns (exists_: bool)
      ensures exists_ <==> hash in acceptor.chain.index
    {
      return hash in acceptor.chain.index;
    }

    // The contextual checks pass for the block on top of its parent, and the chain can connect it there.
    ghost predicate Acceptable(block: Block, rules: Rules)
      reads acceptor.chain`index, acceptor.chain`bestChain, acceptor.chain`db
    {
      && block.prevHash in acceptor.chain.index
      && var parent := acceptor.chain.index[block.prevHash];
         acceptor.Admissible(parent, block, rules) && acceptor.Connects(parent, block)
    }

    // The block would fork off below the lock-in.
    ghost predicate TooOld(block: Block)
      reads acceptor.chain`index, acceptor`checkpointBlock
    {
      && block.prevHash in acceptor.chain.index
      && !acceptor.NotTooOld(acceptor.chain.index[block.prevHash].height + 1)
    }

    /** A block with a known parent that the chain refuses: it fails the contextual checks, it cannot be connected
        beside the present main chain, or it forks off below the lock-in. */
    ghost predicate Undeserving(block: Block, rules: Rules)
      reads acceptor.chain`index, acceptor.chain`bestChain, acceptor.chain`db, acceptor`checkpointBlock
    {
      block.prevHash in acceptor.chain.index && (!Acceptable(block, rules) || TooOld(block))
    }

    // One of the pooled descendants of `hash` was refused for a reason and dropped.
    ghost predicate RefusedOne(before: map<Hash, OrphanBlock>, hash: Hash, rules: Block -> Rules)
      reads pool`orphans, acceptor`checkpointBlock
      reads acceptor.chain`index, acceptor.chain`bestChain, acceptor.chain`db
    {
      exists o :: RefusedOrphan(before, hash, rules, o)
    }

    ghost predicate RefusedOrphan(before: map<Hash, OrphanBlock>, hash: Hash, rules: Block -> Rules, o: Hash)
      reads pool`orphans, acceptor`checkpointBlock
      reads acceptor.chain`index, acceptor.chain`bestChain, acceptor.chain`db
    {
      && o in before && o !in pool.orphans && Descends(before, hash, o)
      && Undeserving(before[o].block, rules(before[o].block))
    }

    // One turn of processOrphans: the orphan leaves the pool and is offered to the chain.
    method AcceptOrphan(orphan: OrphanBlock, rules: Block -> Rules) returns (outcome: Outcome)
      requires Valid() && orphan.block.hash in pool.orphans && pool.orphans[orphan.block.hash] == orphan
      modifies pool, acceptor`checkpointBlock, acceptor`nextCheckpoint
      modifies acceptor.chain`db, acceptor.chain`index, acceptor.chain`blockCache, acceptor.chain`bestChain
      modifies acceptor.chain.index.Values
      ensures Valid() && acceptor.Advanced() && pool.orphans == old(pool.orphans) - {orphan.block.hash}
      ensures pool.oldestOrphan == old(pool.oldestOrphan)
      ensures acceptor.chain.index.Keys <= old(acceptor.chain.index.Keys) + {orphan.block.hash}
      ensures outcome.Accepted? ==> orphan.block.hash in acceptor.chain.index
      ensures outcome.Rejected? && old(orphan.block.prevHash in acceptor.chain.index) ==>
                Undeserving(orphan.block, rules(orphan.block))
    {
      hide BlockAcceptor.Valid, OrphanPool.Valid, BlockAcceptor.LockedIn, BlockAcceptor.Admissible;
      hide BlockAcceptor.MovedForward, BlockAcceptor.TipWork, Sane, BlockAcceptor.TakesOver, BlockAcceptor.Deserving;
      hide BlockAcceptor.Connects, BlockAcceptor.NotTooOld;
      pool.OwnHashes();
      pool.RemoveOrphanBlock(orphan);
      outcome := acceptor.MaybeAcceptBlock(orphan.block, rules(orphan.block), false);
    }

    twostate predicate MovedToTree()
      reads pool`orphans, acceptor.chain`index
    {
      Moved(old(pool.orphans), old(acceptor.chain.index.Keys), pool.orphans, acceptor.chain.index.Keys)
    }

    ghost predicate DrainState(before: map<Hash, OrphanBlock>, knownBefore: set<Hash>, hash: Hash, pending: set<Hash>)
      reads pool`orphans, acceptor.chain`index
    {
      Draining(before, pool.orphans, knownBefore, acceptor.chain.index.Keys, hash, pending)
    }

    // One turn of the inner loop: the orphan moves from the pool to the tree and its children become pending.
    method MoveOrphan(orphan: OrphanBlock, rules: Block -> Rules, ghost before: map<Hash, OrphanBlock>,
                      ghost knownBefore: set<Hash>, ghost hash: Hash, ghost pending: set<Hash>)
      returns (outcome: Outcome)
      requires Valid() && DrainState(before, knownBefore, hash, pending) && hash in knownBefore
      requires orphan.block.hash in pool.orphans && pool.orphans[orphan.block.hash] == orphan
      requires orphan.block.prevHash in pending
      modifies pool, acceptor`checkpointBlock, acceptor`nextCheckpoint
      modifies acceptor.chain`db, acceptor.chain`index, acceptor.chain`blockCache, acceptor.chain`bestChain
      modifies acceptor.chain.index.Values
      ensures Valid() && acceptor.Advanced() && MovedToTree() && pool.orphans.Keys < old(pool.orphans.Keys)
      ensures pool.oldestOrphan == old(pool.oldestOrphan)
      ensures outcome.Accepted? ==> DrainState(before, knownBefore, hash, pending + {orphan.block.hash})
      ensures outcome.Rejected? ==> RefusedOne(before, hash, rules)
    {
      hide Valid, Draining, BlockAcceptor.LockedIn, BlockAcceptor.TipWork, Descends, Undeserving;
      PendingChild(before, pool.orphans, knownBefore, acceptor.chain.index.Keys, hash, pending, orphan.block.hash);
      OrphanAccepted(before, pool.orphans, knownBefore, acceptor.chain.index.Keys, hash, pending, orphan.block.hash);
      outcome := AcceptOrphan(orphan, rules);
      assert outcome.Accepted? ==>
          acceptor.chain.index.Keys == old(acceptor.chain.index.Keys) + {orphan.block.hash};
      assert outcome.Rejected? ==> RefusedOrphan(before, hash, rules, orphan.block.hash);
    }

    // The inner loop of processOrphans: all orphans whose parent is `processHash`.
    method ProcessChildren(processHash: Hash, queue: seq<Hash>, rules: Block -> Rules,
                           ghost before: map<Hash, OrphanBlock>, ghost knownBefore: set<Hash>, ghost hash: Hash)
      returns (outcome: Outcome, processHashes: seq<Hash>)
      requires Valid() && DrainState(before, knownBefore, hash, Pending(queue) + {processHash})
      requires hash in knownBefore
      modifies pool, acceptor`checkpointBlock, acceptor`nextCheckpoint
      modifies acceptor.chain`db, acceptor.chain`index, acceptor.chain`blockCache, acceptor.chain`bestChain
      modifies acceptor.chain.index.Values
      ensures Valid() && acceptor.Advanced() && MovedToTree() && pool.oldestOrphan == old(pool.oldestOrphan)
      ensures outcome.Accepted? ==> DrainState(before, knownBefore, hash, Pending(processHashes))
      ensures outcome.Accepted? && pool.orphans.Keys == old(pool.orphans.Keys) ==> processHashes == queue
      ensures outcome.Rejected? ==> RefusedOne(before, hash, rules)
    {
      hide Valid, BlockAcceptor.LockedIn, BlockAcceptor.TipWork, RefusedOne, DrainState, Draining, Dependents;
      hide Pending, Moved;
      processHashes := queue;
      outcome := Accepted;
      NothingMoved();
      var i := 0;
      while i < |Dependents(pool.prevOrphans, processHash)|
        invariant i == 0 && outcome.Accepted?
        invariant Valid() && acceptor.Advanced() && MovedToTree() && pool.oldestOrphan == old(pool.oldestOrphan)
        invariant DrainState(before, knownBefore, hash, Pending(processHashes) + {processHash})
        invariant pool.orphans.Keys == old(pool.orphans.Keys) ==> processHashes == queue
        decreases pool.orphans.Keys
      {
        var orphan := Dependents(pool.prevOrphans, processHash)[i];
        PoolFacts();
        ghost var orphans, known := pool.orphans, acceptor.chain.index.Keys;
        outcome := MoveOrphan(orphan, rules, before, knownBefore, hash, Pending(processHashes) + {processHash});
        MovedTwice(old(pool.orphans), old(acceptor.chain.index.Keys), orphans, known,
                   pool.orphans, acceptor.chain.index.Keys);
        i := i - 1;
        if outcome.Rejected? {
          return;
        }
        PendingLast(processHashes, orphan.block.hash);
        assert Pending(processHashes) + {processHash} + {orphan.block.hash}
            == Pending(processHashes) + {orphan.block.hash} + {processHash};
        processHashes := processHashes + [orphan.block.hash];
        i := i + 1;
      }
      PoolFacts();
      ChildrenDone(before, knownBefore, hash, processHash, Pending(processHashes));
    }

    lemma PoolFacts()
      requires Valid()
      ensures forall p, o :: o in Dependents(pool.prevOrphans, p) ==>
                o.block.prevHash == p && o.block.hash in pool.orphans && pool.orphans[o.block.hash] == o
      ensures forall h :: h in pool.orphans ==> Dependents(pool.prevOrphans, pool.orphans[h].block.prevHash) != []
    {
      hide BlockAcceptor.Valid, OrphanPool.Valid;
      pool.OwnHashes();
    }

    lemma ChildrenDone(before: map<Hash, OrphanBlock>, knownBefore: set<Hash>, hash: Hash, parent: Hash,
                       pending: set<Hash>)
      requires DrainState(before, knownBefore, hash, pending + {parent})
      requires forall h :: h in pool.orphans ==> pool.orphans[h].block.prevHash != parent
      ensures DrainState(before, knownBefore, hash, pending)
    {
      ParentDone(before, pool.orphans, knownBefore, acceptor.chain.index.Keys, hash, parent, pending);
    }

    /** processOrphans.  It always ends.  Without an error exactly the pooled descendants of `hash` have left the
        pool, every one of them is in the tree, after its parent, and no orphan left in the pool has a parent among
        them; an error means that one of the descendants was refused for a reason. */
    method ProcessOrphans(hash: Hash, rules: Block -> Rules) returns (outcome: Outcome)
      requires Valid() && hash in acceptor.chain.index
      modifies pool, acceptor`checkpointBlock, acceptor`nextCheckpoint
      modifies acceptor.chain`db, acceptor.chain`index, acceptor.chain`blockCache, acceptor.chain`bestChain
      modifies acceptor.chain.index.Values
      ensures Valid() && acceptor.Advanced() && MovedToTree() && pool.oldestOrphan == old(pool.oldestOrphan)
      ensures outcome.Accepted? ==> forall h :: h in old(pool.orphans) ==>
                (h in pool.orphans <==> !Descends(old(pool.orphans), hash, h))
      ensures outcome.Accepted? ==> DrainedFrom(old(pool.orphans), old(acceptor.chain.index.Keys), hash)
      ensures outcome.Rejected? ==> RefusedOne(old(pool.orphans), hash, rules)
    {
      hide Valid, BlockAcceptor.LockedIn, BlockAcceptor.TipWork, DrainState, Draining, RefusedOne, DrainedFrom;
      hide Descends, Pending;
      hide Moved;
      ghost var before, known := pool.orphans, acceptor.chain.index.Keys;
      outcome := Accepted;
      var processHashes := [hash];
      BeginDrain(hash);
      NothingMoved();
      PendingOne(hash);
      while |processHashes| > 0
        invariant outcome.Accepted? && Valid() && acceptor.Advanced() && MovedToTree()
        invariant pool.oldestOrphan == old(pool.oldestOrphan)
        invariant DrainState(before, known, hash, Pending(processHashes))
        decreases pool.orphans.Keys, |processHashes|
      {
        var processHash, queue := processHashes[0], processHashes[1..];
        PendingFirst(processHashes);
        ghost var orphans, index := pool.orphans, acceptor.chain.index.Keys;
        outcome, processHashes := ProcessChildren(processHash, queue, rules, before, known, hash);
        MovedTwice(before, known, orphans, index, pool.orphans, acceptor.chain.index.Keys);
        if outcome.Rejected? {
          return;
        }
      }
      EndDrain(before, known, hash);
    }

    lemma NothingMoved()
      ensures Moved(pool.orphans, acceptor.chain.index.Keys, pool.orphans, acceptor.chain.index.Keys)
    {
    }

    lemma BeginDrain(hash: Hash)
      ensures DrainState(pool.orphans, acceptor.chain.index.Keys, hash, {hash})
    {
      StartDraining(pool.orphans, acceptor.chain.index.Keys, hash);
    }

    // The end of an error-free drain: what left the pool is in the tree, and no orphan waits for it.
    ghost predicate DrainedFrom(before: map<Hash, OrphanBlock>, knownBefore: set<Hash>, hash: Hash)
      reads pool`orphans, acceptor.chain`index
    {
      && acceptor.chain.index.Keys == knownBefore + (before.Keys - pool.orphans.Keys)
      && forall h :: h in pool.orphans ==> !Freed(before, pool.orphans, hash, pool.orphans[h].block.prevHash)
    }

    lemma EndDrain(before: map<Hash, OrphanBlock>, known: set<Hash>, hash: Hash)
      requires DrainState(before, known, hash, {})
      ensures forall h :: h in before ==> (h in pool.orphans <==> !Descends(before, hash, h))
      ensures DrainedFrom(before, known, hash)
    {
      Drained(before, pool.orphans, known, acceptor.chain.index.Keys, hash);
    }

    // The checks of ProcessBlock that do not depend on the block's parent.
    method ScreenBlock(block: Block, environment: Environment) returns (refusal: Option<Refusal>)
      requires Valid() && block in acceptor.universe && block.prevHash != ZERO_HASH
      modifies acceptor`checkpointBlock, acceptor`nextCheckpoint
      ensures Valid() && acceptor.Advanced()
      ensures block.hash in acceptor.chain.index || block.hash in pool.orphans ==> refusal == Some(DuplicateBlock)
      ensures refusal.Some? ==> !refusal.value.NotAccepted? && Explained(refusal.value, block, environment)
      ensures refusal.None? ==> Joinable(block) && environment.sanity(block) && !PredatesLockIn(block)
    {
      hide BlockAcceptor.Valid, OrphanPool.Valid, BlockAcceptor.LockedIn, BlockAcceptor.MovedForward, Sane;
      var known := BlockExists(block.hash);
      if known || block.hash in pool.orphans {
        return Some(DuplicateBlock);
      }
      var sane := CheckBlockSanity(block);
      if !sane || !environment.sanity(block) {
        return Some(Insane);
      }
      var ok, checkpoint := acceptor.FindPreviousCheckpoint();
      if !ok {
        return Some(NotAccepted(MissingCheckpoint));
      }
      if checkpoint.Some? && block.timestamp < checkpoint.value.block.timestamp {
        return Some(CheckpointTimeTooOld);
      }
      return None;
    }

    ghost predicate PredatesLockIn(block: Block)
      reads acceptor`checkpointBlock
    {
      acceptor.checkpointBlock.Some? && block.timestamp < acceptor.checkpointBlock.value.block.timestamp
    }

    // Why a block is refused before its parent is looked at.
    ghost predicate Explained(why: Refusal, block: Block, environment: Environment)
      reads pool`orphans, acceptor.chain`index, acceptor`checkpointBlock
    {
      match why
      case DuplicateBlock => block.hash in acceptor.chain.index || block.hash in pool.orphans
      case Insane => !Sane(block) || !environment.sanity(block)
      case CheckpointTimeTooOld => PredatesLockIn(block)
      case NotAccepted(_) => false
    }

    // A screened block: neither in the tree nor in the pool.
    ghost predicate Joinable(block: Block)
      reads pool`orphans, acceptor.chain`index
    {
      acceptor.Candidate(block) && block.hash !in pool.orphans
    }

    // The orphan branch of ProcessBlock.
    method KeepOrphan(block: Block, now: int)
      requires Valid() && Joinable(block) && block.prevHash !in acceptor.chain.index
      modifies pool
      ensures Valid() && (old(Settled()) ==> Settled())
      ensures Added(old(pool.orphans), old(pool.oldestOrphan), pool.orphans, pool.oldestOrphan, block, now)
    {
      hide BlockAcceptor.Valid, OrphanPool.Valid, Scanned, KeepsLimit, MadeRoom, WithinLimit, Sane;
      ghost var oldest := pool.AddOrphanBlock(block, now);
    }

    // The last part of ProcessBlock: accept the block and then the orphans it frees.
    method AcceptAndDrain(block: Block, rules: Block -> Rules) returns (outcome: Outcome)
      requires Valid() && Joinable(block) && block.prevHash in acceptor.chain.index
      modifies pool, acceptor`checkpointBlock, acceptor`nextCheckpoint
      modifies acceptor.chain`db, acceptor.chain`index, acceptor.chain`blockCache, acceptor.chain`bestChain
      modifies acceptor.chain.index.Values
      ensures Valid() && acceptor.Advanced()
      ensures outcome.Accepted? ==> Freeing(old(pool.orphans), old(acceptor.chain.index.Keys), block.hash)
      ensures outcome.Accepted? && old(Settled()) ==> Settled()
      ensures pool.oldestOrphan == old(pool.oldestOrphan)
      ensures outcome.Rejected? ==>
                Undeserving(block, rules(block)) || RefusedOne(old(pool.orphans), block.hash, rules)
      ensures outcome.Rejected? && old(Acceptable(block, rules(block))) ==>
                TooOld(block) || RefusedOne(old(pool.orphans), block.hash, rules)
      ensures outcome.Accepted? ==> old(Acceptable(block, rules(block)))
    {
      hide Valid, Descends, BlockAcceptor.LockedIn, BlockAcceptor.TipWork, BlockAcceptor.Candidate;
      hide Undeserving, RefusedOne, Acceptable, TooOld, Freeing;
      outcome := AcceptBlock(block, rules(block), false);
      if outcome.Accepted? {
        outcome := DrainFor(block.hash, rules, old(acceptor.chain.index.Keys));
      }
    }

    // Drains the orphans that a block which has just joined the tree sets free.
    method DrainFor(hash: Hash, rules: Block -> Rules, ghost earlier: set<Hash>) returns (outcome: Outcome)
      requires Valid() && acceptor.chain.index.Keys == earlier + {hash}
      modifies pool, acceptor`checkpointBlock, acceptor`nextCheckpoint
      modifies acceptor.chain`db, acceptor.chain`index, acceptor.chain`blockCache, acceptor.chain`bestChain
      modifies acceptor.chain.index.Values
      ensures Valid() && acceptor.Advanced() && pool.oldestOrphan == old(pool.oldestOrphan)
      ensures outcome.Accepted? ==> Freeing(old(pool.orphans), earlier, hash)
      ensures outcome.Accepted? && old(SettledFor(earlier)) ==> Settled()
      ensures outcome.Rejected? ==> RefusedOne(old(pool.orphans), hash, rules)
    {
      hide Valid, Descends, BlockAcceptor.LockedIn, BlockAcceptor.TipWork, RefusedOne, Freeing, DrainedFrom;
      ghost var before, known := pool.orphans, acceptor.chain.index.Keys;
      outcome := ProcessOrphans(hash, rules);
      if outcome.Accepted? {
        NowFree(before, earlier, known, hash);
        if old(SettledFor(earlier)) {
          SettledAgain(before, earlier, known, hash);
        }
      }
    }

    // No pooled orphan has a parent among these hashes.
    ghost predicate SettledFor(known: set<Hash>)
      reads pool`orphans
    {
      forall h :: h in pool.orphans ==> pool.orphans[h].block.prevHash !in known
    }

    // What an error-free drain means for the pool and the tree.
    lemma NowFree(before: map<Hash, OrphanBlock>, earlier: set<Hash>, known: set<Hash>, hash: Hash)
      requires DrainedFrom(before, known, hash) && known == earlier + {hash} && pool.orphans.Keys <= before.Keys
      requires forall h :: h in before ==> (h in pool.orphans <==> !Descends(before, hash, h))
      requires forall h :: h in pool.orphans ==> pool.orphans[h] == before[h]
      ensures Freeing(before, earlier, hash)
    {
      hide Descends, Freed;
    }

    // It leaves no orphan with a known parent when there was none before the block `hash` joined the tree.
    lemma SettledAgain(before: map<Hash, OrphanBlock>, earlier: set<Hash>, known: set<Hash>, hash: Hash)
      requires known <= earlier + {hash} && forall h :: h in before ==> before[h].block.prevHash !in earlier
      requires DrainedFrom(before, known, hash) && pool.orphans.Keys <= before.Keys
      requires forall h :: h in pool.orphans ==> pool.orphans[h] == before[h]
      ensures Settled()
    {
    }

    // Offers a block to the chain; the pool keeps waiting.
    method AcceptBlock(block: Block, rules: Rules, dryRun: bool) returns (outcome: Outcome)
      requires Valid() && Joinable(block) && block.prevHash in acceptor.chain.index
      modifies acceptor`checkpointBlock, acceptor`nextCheckpoint
      modifies acceptor.chain`db, acceptor.chain`index, acceptor.chain`blockCache, acceptor.chain`bestChain
      modifies acceptor.chain.index.Values
      ensures Valid() && acceptor.Advanced() && (dryRun ==> unchanged(acceptor.chain))
      ensures acceptor.chain.index.Keys <= old(acceptor.chain.index.Keys) + {block.hash}
      ensures outcome.Accepted? && !dryRun ==> block.hash in acceptor.chain.index
      ensures outcome.Accepted? <==> old(Acceptable(block, rules)) && !TooOld(block)
      ensures outcome.Rejected? ==> Undeserving(block, rules)
    {
      hide BlockAcceptor.Valid, OrphanPool.Valid, BlockAcceptor.Admissible, BlockAcceptor.Deserving;
      hide BlockAcceptor.LockedIn, BlockAcceptor.TipWork, BlockAcceptor.MovedForward, BlockAcceptor.TakesOver, Sane;
      pool.OwnHashes();
      outcome := acceptor.MaybeAcceptBlock(block, rules, dryRun);
    }

    // Exactly the descendants of the block have left the pool, and just they and the block have joined the tree.
    ghost predicate Freeing(before: map<Hash, OrphanBlock>, earlier: set<Hash>, hash: Hash)
      reads pool`orphans, acceptor.chain`index
    {
      && acceptor.chain.index.Keys == earlier + {hash} + (before.Keys - pool.orphans.Keys)
      && pool.orphans.Keys <= before.Keys && (forall h :: h in pool.orphans ==> pool.orphans[h] == before[h])
      && forall h :: h in before ==> (h in pool.orphans <==> !Descends(before, hash, h))
    }

    /** ProcessBlock.  A block whose parent is unknown waits in the pool; any other one is accepted or refused, and an
        accepted block frees its pooled descendants.  Over error-free calls no pooled orphan has a known parent, and a
        refusal always has the reason it states. */
    method ProcessBlock(block: Block, environment: Environment, now: int, dryRun: bool) returns (processed: Processed)
      requires Valid() && block in acceptor.universe && block.prevHash != ZERO_HASH
      modifies pool, acceptor`checkpointBlock, acceptor`nextCheckpoint
      modifies acceptor.chain`db, acceptor.chain`index, acceptor.chain`blockCache, acceptor.chain`bestChain
      modifies acceptor.chain.index.Values
      ensures Valid() && acceptor.Advanced()
      ensures dryRun ==> unchanged(acceptor.chain) && unchanged(pool)
      ensures old(block.hash in acceptor.chain.index || block.hash in pool.orphans) ==>
                processed == Refused(DuplicateBlock) && unchanged(acceptor.chain) && unchanged(pool)
      ensures processed == Done(true) ==> old(block.prevHash !in acceptor.chain.index) && unchanged(acceptor.chain)
      ensures processed == Done(true) && !dryRun ==>
                Added(old(pool.orphans), old(pool.oldestOrphan), pool.orphans, pool.oldestOrphan, block, now)
      ensures processed == Done(false) && !dryRun ==>
                Freeing(old(pool.orphans), old(acceptor.chain.index.Keys), block.hash)
      ensures processed != Done(true) ==> pool.oldestOrphan == old(pool.oldestOrphan)
      ensures processed == Done(false) ==> old(Acceptable(block, environment.rules(block)))
      ensures processed.Done? && old(Settled()) ==> Settled()
      ensures processed.Refused? && !processed.why.NotAccepted? ==>
                Explained(processed.why, block, environment) && unchanged(acceptor.chain) && unchanged(pool)
      ensures processed.Refused? && processed.why.NotAccepted? ==> old(block.prevHash in acceptor.chain.index)
      ensures processed.Refused? && processed.why.NotAccepted? ==>
                || Undeserving(block, environment.rules(block))
                || (!dryRun && RefusedOne(old(pool.orphans), block.hash, environment.rules))
      ensures processed.Refused? && processed.why.NotAccepted? && old(Acceptable(block, environment.rules(block))) ==>
                TooOld(block) || (!dryRun && RefusedOne(old(pool.orphans), block.hash, environment.rules))
    {
      hide Undeserving, RefusedOne, Explained, Acceptable, TooOld, Added;
      hide Valid, Descends, BlockAcceptor.LockedIn, BlockAcceptor.TipWork, BlockAcceptor.Candidate, Freeing, Settled;
      var refusal := ScreenBlock(block, environment);
      if refusal.Some? {
        return Refused(refusal.value);
      }
      var known := BlockExists(block.prevHash);
      if !known {
        if !dryRun {
          KeepOrphan(block, now);
        }
        return Done(true);
      }
      var outcome;
      if dryRun {
        outcome := AcceptBlock(block, environment.rules(block), true);
      } else {
        outcome := AcceptAndDrain(block, environment.rules);
      }
      return if outcome.Accepted? then Done(false) else Refused(NotAccepted(outcome.why));
    }
  }
}
