/** Evaluating the checks on small blocks. */
module SmallBlocks {
  import opened Arith
  import opened Ledger
  import opened TxLookup
  import opened Validate
  import opened Wrappers
  import opened Spending
  import opened CompactBits
  import opened Retarget
  import opened MedianTime
  import opened Accept

  // The easiest target: a stake block adds the trust 2, a proof-of-work block 1.
  const BITS: U32 := 0x207f_ffff

  const LIMITS := Limits(ONE_LSH_256, BITS, BITS)

  // A network without scripts whose coinbases may pay three cents and mature at once.
  const NETWORK := Network(1, 1000 * COIN, 0, 10_000, 20_000, bits => 3 * CENT, (tx, k, out) => true, height => false,
                           script => 0, script => false, (sigScript, pkScript) => 0)

  function CoinBase(hash: Hash, out: TxOut): Tx {
    Tx(hash, [TxIn(OutPoint(ZERO_HASH, NULL_INDEX), 0)], [out], 0, 0, false)
  }

  lemma OneOutput(out: TxOut)
    ensures SumOutputs([out]) == out.value
  {
    assert [out][..0] == [];
  }

  // A chain that does not hold a transaction does not know it.
  lemma Unknown(chain: seq<Block>, h: Hash)
    requires forall b, tx :: b in chain && tx in b.txs ==> tx.hash != h
    ensures Replay(chain, h) == Missing
  {
    ReplayPresent(chain, h);
    forall i | 0 <= i < |Steps(chain)| ensures Steps(chain)[i].tx.hash != h {
      var j := StepInBlock(chain, i);
      assert chain[j] in chain;
    }
  }

  // What a chain of one block with one coinbase knows about it.
  lemma FirstCreates(b: Block, tx: Tx)
    requires b.txs == [tx] && IsCoinBase(tx)
    ensures Replay([b], tx.hash) == Fresh(tx, 0)
  {
    SingleTxBlock([], b, tx, tx.hash);
    SpendCoinBase(Fresh(tx, 0), tx.hash, tx);
    assert [] + [b] == [b];
  }

  lemma CoinBaseOnly(p: Params, s: Store, tx: Tx, height: nat)
    requires Shaped(s) && IsCoinBase(tx)
    ensures CheckTxsFrom(p, s, [tx], height, 0, 0) == (Ok(0), s)
  {
  }

  // A network on which scripts are not run and count no signature operations.
  ghost predicate Scriptless(net: Network) {
    (forall script :: net.sigOps(script) == 0) && (forall height :: !net.runScripts(height))
  }

  lemma {:induction false} NoSigOpsInScripts(net: Network, scripts: seq<nat>)
    requires Scriptless(net)
    ensures SumSigOps(net.sigOps, scripts) == 0
  {
    if scripts != [] {
      NoSigOpsInScripts(net, scripts[..|scripts| - 1]);
    }
  }

  lemma {:induction false} NoSigOps(net: Network, s: Store, b: Block, t: nat)
    requires Scriptless(net) && t <= |b.txs| && b.timestamp <= net.bip16Activation
    ensures BlockSigOps(net, s, b, t, 0) == Ok(0)
    decreases |b.txs| - t
  {
    if t < |b.txs| {
      NoSigOpsInScripts(net, InScripts(b.txs[t].ins));
      NoSigOpsInScripts(net, OutScripts(b.txs[t].outs));
      NoSigOps(net, s, b, t + 1);
    }
  }

  // A proof-of-work block that holds just a new coinbase within the reward passes.
  lemma {:induction false} CoinBasePasses(net: Network, main: seq<Block>, chain: seq<Block>, b: Block)
    requires |b.txs| == 1 && IsCoinBase(b.txs[0]) && FullySpent(Replay(chain, b.txs[0].hash)) && !b.proofOfStake
    requires SumOutputs(b.txs[0].outs) <= net.powReward(b.bits) && Scriptless(net) && b.timestamp <= net.bip16Activation
    ensures Connectable(net, main, chain, b)
  {
    hide Replay, CheckTxsFrom, FullySpent, BlockSigOps;
    assert TxHashes(b) == {b.txs[0].hash};
    assert b.txs == [b.txs[0]];
    NoSigOps(net, InputStore(chain, b), b, 0);
    CoinBaseOnly(Params(net, main), InputStore(chain, b), b.txs[0], |chain|);
  }

  // The one input of the second transaction spends the first output of `origin`, within its value.
  ghost predicate Spends(p: Params, tx: Tx, origin: Tx, height: nat) {
    && tx.ins == [TxIn(OutPoint(origin.hash, 0), 0)] && |origin.outs| == 1
    && p.net.coinbaseMaturity <= height && 0 <= origin.outs[0].value <= p.net.maxSatoshi && origin.time <= tx.time
    && var rest := origin.outs[0].value - SumOutputs(tx.outs);
       if tx.coinStake then |p.main| > 0 && rest >= 0 && tx.size < 1000 else rest >= MinFee(tx)
  }

  // Its coin age is known and not negative, so it may keep its value.
  lemma AgeOfOne(p: Params, s: Store, tx: Tx, origin: Tx)
    requires Shaped(s) && tx.ins == [TxIn(OutPoint(origin.hash, 0), 0)] && |origin.outs| == 1 && |p.main| > 0
    requires origin.hash in s && SameOrigins(map[origin.hash := s[origin.hash]], map[origin.hash := Fresh(origin, 0)])
    requires 0 <= origin.outs[0].value && origin.time <= tx.time
    ensures CoinAge(p, s, tx).Some? && ProofOfStakeReward(CoinAge(p, s, tx).value) >= 0
  {
    var age := OriginAge(p, s, tx, tx.ins[0]);
    assert s[origin.hash].Present? && s[origin.hash].tx == origin && s[origin.hash].height == 0 by {
      assert origin.hash in map[origin.hash := s[origin.hash]];
    }
    NotNegative(origin.outs[0].value, tx.time - origin.time);
    assert age.Some? && age.value >= 0;
    assert CentSeconds(p, s, tx, 0, 0) == CentSeconds(p, s, tx, 1, age.value) == Some(age.value);
  }

  lemma NotNegative(a: nat, b: nat)
    ensures a * b / CENT >= 0
  {
  }

  lemma {:induction false} FeeOfOne(p: Params, s: Store, tx: Tx, origin: Tx, height: nat)
    requires Shaped(s) && Spends(p, tx, origin, height) && !IsCoinBase(tx)
    requires origin.hash in s && SameOrigins(map[origin.hash := s[origin.hash]], map[origin.hash := Fresh(origin, 0)])
    ensures var fee := FeeVerdict(p, s, tx, origin.outs[0].value, SumOutputs(tx.outs)); fee.Ok? && fee.value >= 0
  {
    hide SumOutputs, CoinAge, ProofOfStakeReward, SameOrigins, Shaped;
    if tx.coinStake {
      AgeOfOne(p, s, tx, origin);
    }
  }

  lemma {:induction false} SpendPasses(p: Params, s: Store, coin: Tx, tx: Tx, origin: Tx, height: nat)
    requires Shaped(s) && IsCoinBase(coin) && Spends(p, tx, origin, height)
    requires origin.hash in s && s[origin.hash] == Fresh(origin, 0)
    ensures CheckTxsFrom(p, s, [coin, tx], height, 0, 0).0.Ok?
  {
    hide FeeVerdict, SumOutputs;
    SpendShaped(s, tx.ins[0]);
    assert InputError(p, s, tx, height, tx.ins[0], 0).None?;
    var spent := Spend(s, tx.ins[0]);
    assert CheckInputsFrom(p, s, tx, height, 0, 0) == (Ok(origin.outs[0].value), spent);
    FeeOfOne(p, spent, tx, origin, height);
    var fee := FeeVerdict(p, spent, tx, origin.outs[0].value, SumOutputs(tx.outs)).value;
    var t := CheckTx(p, s, tx, height);
    assert t == (Ok(fee), spent);
    assert CheckTxsFrom(p, s, [coin, tx], height, 1, 0) == CheckTxsFrom(p, t.1, [coin, tx], height, 2, fee);
  }

  // The inputs of a block with a coinbase and one transaction that spends the first output of `origin`.
  lemma SpendNeeds(b: Block, origin: Tx)
    requires |b.txs| == 2 && b.txs[1].ins == [TxIn(OutPoint(origin.hash, 0), 0)] && b.txs[0].hash != origin.hash
    ensures Needed(b) == InputHashes(b) == {origin.hash} && TxHashes(b) == {b.txs[0].hash, b.txs[1].hash}
  {
    assert b.txs[1].ins[0].prev.hash == origin.hash && !CreatedBefore(b, 1, b.txs[1].ins[0].prev.hash);
    assert b.txs[1].ins[0].prev.hash in Needed(b) && b.txs[1].ins[0].prev.hash in InputHashes(b);
    assert b.txs[0] in b.txs && b.txs[1] in b.txs;
  }

  // A block with a coinbase and such a transaction, both new to the chain, passes.
  lemma {:induction false} SpendBlockPasses(net: Network, main: seq<Block>, chain: seq<Block>, b: Block, origin: Tx)
    requires |b.txs| == 2 && IsCoinBase(b.txs[0]) && Spends(Params(net, main), b.txs[1], origin, |chain|)
    requires b.txs[0].hash != origin.hash && Replay(chain, origin.hash) == Fresh(origin, 0)
    requires Replay(chain, b.txs[0].hash) == Replay(chain, b.txs[1].hash) == Missing
    requires Scriptless(net) && b.timestamp <= net.bip16Activation
    requires b.proofOfStake || SumOutputs(b.txs[0].outs) <= net.powReward(b.bits)
    ensures Connectable(net, main, chain, b)
  {
    hide Replay, CheckTxsFrom, Needed, InputHashes, TxHashes, BlockSigOps;
    SpendNeeds(b, origin);
    NoSigOps(net, InputStore(chain, b), b, 0);
    assert b.txs == [b.txs[0], b.txs[1]];
    SpendPasses(Params(net, main), InputStore(chain, b), b.txs[0], b.txs[1], origin, |chain|);
  }

  // ---------------------------------------------------------------- trust and headers

  lemma BitsDecode()
    ensures CompactToBig(BITS) == 0x7f_ffff * Pow256(29) && Canonical(BITS)
    ensures ONE_LSH_256 == 0x100_0000 * Pow256(29)
  {
    hide Pow256;
    DecodesUnsigned(BITS);
    SmallPowers();
    PowSum(3, 3);
    PowSum(6, 6);
    PowSum(12, 12);
    PowSum(24, 3);
    PowSum(27, 2);
    PowSum(29, 3);
  }

  lemma Trusts()
    ensures CalcTrust(BITS, false) == 1 && CalcTrust(BITS, true) == 2 && 0 < CompactToBig(BITS) <= ONE_LSH_256
  {
    hide CompactToBig, Pow256;
    BitsDecode();
    QuotientIs(ONE_LSH_256, CompactToBig(BITS) + 1, 2);
  }

  lemma {:induction false} MedianBelow(times: seq<int>, t: int)
    requires times != [] && forall i :: 0 <= i < |times| ==> times[i] < t
    ensures PastMedian(times) < t
  {
    var w := Window(times);
    SortSorts(w);
    assert Sort(w)[|w| / 2] in multiset(Sort(w));
  }
}
