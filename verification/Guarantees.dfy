/** What holds in every reachable state of the chain: consequences of the invariant that every operation keeps,
    stated for the main chain and for all nodes of the tree. */
module Guarantees {
  import opened Arith
  import opened Ledger
  import opened Validate
  import opened Spending
  import opened Supply
  import opened CompactBits
  import opened Retarget
  import opened Reward
  import opened MedianTime
  import opened ConnectRules
  import opened Chain
  import opened Accept

  lemma InTree(a: BlockAcceptor, n: BlockNode)
    requires a.Valid() && a.chain.Known(n)
    ensures a.chain.Tree() && a.chain.Main() && Screened(a.limits, a.checkpoints, n)
  {
    hide IsTree, Screened, Validated, MoneySupply, BlockChain.Cache, BlockChain.Children, BlockChain.Optimal;
  }

  /** The main chain has the most accumulated trust of all branches in the tree whose blocks passed their checks beside
      the main chain of the moment when the branch was completed. */
  lemma {:induction false} TipHasMostTrust(a: BlockAcceptor, n: BlockNode)
    requires a.Valid() && a.chain.Known(n) && SidePasses(a.chain.net, n.offered, Blocks(Path(n)))
    ensures TotalTrust(Blocks(Path(n))) <= TotalTrust(a.chain.db)
  {
    hide IsTree, TotalTrust, GoodHeader, MatchesCheckpoints, Validated, SidePasses, MoneySupply;
    hide BlockChain.Cache, BlockChain.Children, BlockAcceptor.Configured, BlockAcceptor.Locked;
    InTree(a, n);
    InTree(a, a.chain.bestChain);
  }

  /** So it is for every branch whose blocks each passed their checks at some moment, with coin ages that read the same
      block times then as when the branch was completed. */
  lemma {:induction false} PassedBranchHasLessTrust(a: BlockAcceptor, n: BlockNode, mains: seq<seq<Block>>)
    requires a.Valid() && a.chain.Known(n) && PassedWith(a.chain.net, mains, Blocks(Path(n)))
    requires forall j :: 1 <= j < |mains| && !Shares(n.offered, Blocks(Path(n)), j) ==>
               AgesAgree(mains[j], n.offered, Blocks(Path(n))[..j], Blocks(Path(n))[j])
    ensures TotalTrust(Blocks(Path(n))) <= TotalTrust(a.chain.db)
  {
    hide BlockAcceptor.Valid, TotalTrust, PassedWith, SidePasses, AgesAgree, Shares;
    PassedIsLong(a.chain.net, mains, Blocks(Path(n)));
    PassedPassesAgain(a.chain.net, mains, n.offered, Blocks(Path(n)));
    TipHasMostTrust(a, n);
  }

  lemma PassedIsLong(net: Network, mains: seq<seq<Block>>, chain: seq<Block>)
    requires PassedWith(net, mains, chain)
    ensures |mains| == |chain|
  {
  }

  /** And for every branch that is valid by itself and left the main chain of that moment above the transactions its
      coinstakes spend. */
  lemma {:induction false} ValidBranchHasLessTrust(a: BlockAcceptor, n: BlockNode, fork: nat)
    requires a.Valid() && a.chain.Known(n) && ValidAlone(a.chain.net, Blocks(Path(n)))
    requires 1 <= fork <= |Path(n)| && fork <= |n.offered| && n.offered[..fork] == Blocks(Path(n))[..fork]
    requires forall j :: fork <= j < |Path(n)| ==> StakesBelow(Blocks(Path(n))[..j], Blocks(Path(n))[j], fork)
    ensures TotalTrust(Blocks(Path(n))) <= TotalTrust(a.chain.db)
  {
    hide BlockAcceptor.Valid, TotalTrust, ValidAlone, SidePasses, StakesBelow;
    ValidForkPasses(a.chain.net, n.offered, Blocks(Path(n)), fork);
    TipHasMostTrust(a, n);
  }

  /** So it is, without any condition, for every valid branch of proof-of-work blocks. */
  lemma {:induction false} WorkBranchHasLessTrust(a: BlockAcceptor, n: BlockNode)
    requires a.Valid() && a.chain.Known(n) && ValidAlone(a.chain.net, Blocks(Path(n)))
    requires forall j :: 1 <= j < |Path(n)| ==> !Blocks(Path(n))[j].proofOfStake
    ensures TotalTrust(Blocks(Path(n))) <= TotalTrust(a.chain.db)
  {
    hide BlockAcceptor.Valid, TotalTrust, Connectable;
    var branch := Blocks(Path(n));
    OfferedFromGenesis(a, n);
    assert n.offered[..1] == [n.offered[0]] == branch[..1];
    forall j | 1 <= j < |Path(n)| ensures StakesBelow(branch[..j], branch[j], 1) {
      NoStakes(branch[..j], branch[j]);
    }
    hide ValidAlone, StakesBelow;
    ValidBranchHasLessTrust(a, n, 1);
  }

  lemma NoStakes(chain: seq<Block>, b: Block)
    requires Sane(b) && !b.proofOfStake
    ensures StakesBelow(chain, b, 1)
  {
    hide InputStore, OriginBelow, SaneTx, Distinct;
    assert forall t :: 0 <= t < |b.txs| ==> !IsStake(b.txs[t]);
  }

  lemma {:induction false} OfferedFromGenesis(a: BlockAcceptor, n: BlockNode)
    requires a.Valid() && a.chain.Known(n)
    ensures |n.offered| > 0 && n.offered[0] == Path(n)[0].block
  {
    hide IsTree, Screened, MoneySupply, BlockChain.Cache, BlockChain.Children, PassedWhenOffered;
    hide BlockAcceptor.Configured;
    InTree(a, n);
    a.chain.KnownFacts(n);
    a.chain.KnownFacts(a.chain.bestChain);
    assert Recorded(a.chain.net, n, Path(a.chain.bestChain)[0].block);
  }

  /** Along every path of the tree the median time past never decreases. */
  lemma MedianTimeNeverFalls(a: BlockAcceptor, n: BlockNode)
    requires a.Valid() && a.chain.Known(n)
    ensures NeverFalls(Times(Blocks(Path(n))))
  {
    hide BlockAcceptor.Valid, PassedTimeChecks, NeverFalls;
    TimesPassed(a, n);
    MedianNeverDecreases(Times(Blocks(Path(n))));
  }

  lemma TimesPassed(a: BlockAcceptor, n: BlockNode)
    requires a.Valid() && a.chain.Known(n)
    ensures PassedTimeChecks(Times(Blocks(Path(n))))
  {
    hide BlockAcceptor.Valid, IsTree, PastMedian, NextRequired, TotalTrust;
    var times := Times(Blocks(Path(n)));
    InTree(a, n);
    forall i | 1 <= i < |times| ensures times[i] > PastMedian(times[..i]) {
      HeaderIsGood(a, n, i);
      assert Times(Blocks(Path(n))[..i]) == times[..i];
    }
  }

  lemma HeaderIsGood(a: BlockAcceptor, n: BlockNode, i: nat)
    requires a.Valid() && a.chain.Known(n) && 1 <= i < |Path(n)|
    ensures GoodHeader(a.limits, Blocks(Path(n))[..i], Blocks(Path(n))[i])
  {
    hide BlockAcceptor.Valid, IsTree, GoodHeader, TotalTrust, WellPlaced;
    InTree(a, n);
    a.chain.PathAt(n, i);
    var m := Path(n)[i];
    InTree(a, m);
    a.chain.TargetNode(n, i);
    a.chain.ParentPath(m);
    assert m.ancestors == Path(n)[..i] by { a.chain.KnownPrefix(n, i); }
    assert Blocks(m.ancestors) == Blocks(Path(n))[..i];
  }

  /** Every accepted block after genesis has the bits its ancestors of the same kind require and a time after the
      median of the last eleven of them. */
  lemma HeadersKeepRules(a: BlockAcceptor, n: BlockNode)
    requires a.Valid() && a.chain.Known(n) && n.parent != null
    ensures var below := Blocks(n.ancestors);
      && below != [] && Retargets(a.limits, below, n.proofOfStake, n.bits)
      && forall m :: IsMedian(LastEleven(Times(below)), m) ==> m < n.timestamp
  {
    hide BlockAcceptor.Valid, IsTree, TotalTrust, GoodHeader, MatchesCheckpoints, Retargets, IsMedian, LastEleven;
    var below := Blocks(n.ancestors);
    InTree(a, n);
    a.chain.HeaderFields(n);
    a.chain.ParentPath(n);
    GoodHeaderRules(a.limits, below, n.block);
  }

  /** No accepted block after genesis claims a target above the limit. */
  lemma TargetsStayWithinLimit(a: BlockAcceptor, n: BlockNode)
    requires a.Valid() && a.chain.Known(n) && n.parent != null && Fits(a.limits.powLimit)
    requires CompactToBig(a.limits.powLimitBits) <= a.limits.powLimit
    requires CompactToBig(a.limits.initialBits) <= a.limits.powLimit
    ensures CompactToBig(n.bits) <= a.limits.powLimit
  {
    hide BlockAcceptor.Valid, IsTree, TotalTrust, CompactToBig, NextRequired, PastMedian, MatchesCheckpoints;
    InTree(a, n);
    a.chain.HeaderFields(n);
    RequiredWithinLimit(a.limits, Blocks(n.ancestors), n.proofOfStake);
  }

  /** Conservation: every main-chain node's money supply differs from genesis by exactly the change in the total
      value of unspent outputs, however the chain came to be. */
  lemma MoneySupplyOfNode(a: BlockAcceptor, n: BlockNode)
    requires a.Valid() && a.chain.Known(n) && n.inMainChain
    ensures n.moneySupply - a.chain.genesisSupply
         == UnspentTotal(Blocks(Path(n))) - UnspentTotal([a.chain.root.block])
  {
    hide IsTree, TotalTrust, GoodHeader, MatchesCheckpoints, Validated, MoneySupply, UnspentTotal;
    hide BlockChain.Cache, BlockChain.Children, BlockChain.Optimal, BlockAcceptor.Configured, BlockAcceptor.Locked;
    InTree(a, n);
    var tip: BlockNode := a.chain.bestChain;
    a.chain.KnownFacts(n);
    a.chain.OnPath(tip, n);
    a.chain.SamePrefix(n, tip, n.height);
    var chain := Blocks(Path(n));
    assert chain == a.chain.db[..n.height + 1];
    ValidatedPrefix(a.chain.net, a.chain.db, n.height + 1);
    MoneySupplyIsConserved(a.chain.net, a.chain.genesisSupply, chain);
    assert chain[..1] == [a.chain.root.block];
  }

  /** The main chain spends each output at most once, wherever the two inputs are and however often the chain was
      reorganized. */
  lemma MainChainSpendsOnce(a: BlockAcceptor, s: nat, k: nat, t: nat, m: nat)
    requires a.Valid()
    requires var steps := Steps(a.chain.db);
      && s <= t < |steps| && k < |steps[s].tx.ins| && m < |steps[t].tx.ins| && (s == t ==> k < m)
      && !IsCoinBase(steps[s].tx) && !IsCoinBase(steps[t].tx)
    ensures Steps(a.chain.db)[s].tx.ins[k].prev != Steps(a.chain.db)[t].tx.ins[m].prev
  {
    hide BlockAcceptor.Valid, Validated;
    var steps := Steps(a.chain.db);
    MainIsLegal(a);
    if steps[s].tx.ins[k].prev == steps[t].tx.ins[m].prev {
      SpentOnce(a.chain.net, a.chain.db, s, k, t, m);
      SpendsCreated(a.chain.net, a.chain.db, s, k);
    }
  }

  lemma MainIsLegal(a: BlockAcceptor)
    requires a.Valid()
    ensures Validated(a.chain.net, a.chain.db) && NoReuse(Steps(a.chain.db))
  {
    hide IsTree, Screened, Validated, MoneySupply, BlockChain.Cache, BlockChain.Children, BlockChain.Optimal;
    a.chain.MainFacts();
  }

  /** Every input of the main chain, coinbases aside, names an output of an earlier transaction that is not later
      and, if it is a coinbase, mature, and where scripts are run the output's script accepts it. */
  lemma MainChainInputs(a: BlockAcceptor, s: nat, k: nat)
    requires a.Valid() && s < |Steps(a.chain.db)| && k < |Steps(a.chain.db)[s].tx.ins|
    requires !IsCoinBase(Steps(a.chain.db)[s].tx)
    ensures var steps, net := Steps(a.chain.db), a.chain.net;
            var spender, prev := steps[s], steps[s].tx.ins[k].prev;
            exists r :: 0 <= r < s && steps[r].tx.hash == prev.hash && prev.index < |steps[r].tx.outs|
                        && steps[r].tx.time <= spender.tx.time
                        && (IsCoinBase(steps[r].tx) ==> spender.height - steps[r].height >= net.coinbaseMaturity)
                        && (net.runScripts(spender.height) ==>
                              net.scriptOk(spender.tx, k, steps[r].tx.outs[prev.index]))
  {
    hide BlockAcceptor.Valid, Validated, InputSum;
    var steps, net := Steps(a.chain.db), a.chain.net;
    var prev := steps[s].tx.ins[k].prev;
    MainIsLegal(a);
    SpendsCreated(net, a.chain.db, s, k);
    var r :| 0 <= r < s && steps[r].tx.hash == prev.hash && prev.index < |steps[r].tx.outs|;
    SpendsKeepRules(net, a.chain.db, s, k, r);
    if net.runScripts(steps[s].height) {
      ScriptsHavePassed(net, a.chain.db, s, k);
    }
  }

  /** A proof-of-work block of the main chain mints no more than the maximum reward. */
  lemma MintWithinMaximum(a: BlockAcceptor, limit: int, i: nat)
    requires a.Valid()
    requires forall bits: U32 :: a.chain.net.powReward(bits) == RewardFor(limit, CompactToBig(bits))
    requires 1 <= i < |a.chain.db| && !a.chain.db[i].proofOfStake
    ensures Mint(FlowOn(a.chain.db[..i], a.chain.db[i])) <= MAX_MINT_PROOF_OF_WORK
  {
    hide BlockAcceptor.Valid, FlowOn, Sane, ConnectOk, CompactToBig;
    MainIsLegal(a);
    var db := a.chain.db;
    var main :| Connectable(a.chain.net, main, db[..i], db[i]);
    MintIsCapped(Params(a.chain.net, main), db[..i], db[i]);
    RewardRange(limit, CompactToBig(db[i].bits));
  }

  lemma RewardRange(limit: int, target: int)
    ensures 0 <= RewardFor(limit, target) <= MAX_MINT_PROOF_OF_WORK
  {
    hide Search;
    SearchRange(CENT, MAX_MINT_PROOF_OF_WORK, limit, target);
  }

  // The paths of both nodes are the same up to the checkpoint's height, where the node has the checkpoint's hash.
  ghost predicate SharePath(m: BlockNode, n: BlockNode, c: Checkpoint) {
    && c.height < |Path(m)| && c.height < |Path(n)|
    && Path(m)[..c.height + 1] == Path(n)[..c.height + 1] && Path(m)[c.height].hash == c.hash
  }

  /** Two nodes at or above a checkpoint's height meet in it. */
  lemma {:induction false} CheckpointIsShared(a: BlockAcceptor, m: BlockNode, n: BlockNode, c: Checkpoint)
    requires a.Valid() && a.chain.Known(m) && a.chain.Known(n) && c in a.checkpoints
    requires c.height <= m.height && c.height <= n.height
    ensures SharePath(m, n, c)
  {
    hide IsTree, Screened, BlockChain.Main, BlockChain.Cache, BlockChain.Children, BlockChain.Optimal;
    a.chain.KnownFacts(m);
    a.chain.KnownFacts(n);
    a.CheckpointIsAncestor(m, c);
    a.CheckpointIsAncestor(n, c);
    a.chain.PathAt(m, c.height);
    a.chain.SamePrefix(m, n, c.height);
  }
}
