/** The rules behind the checks of checkConnectBlock (validate.go, ppc.go), stated on the transactions of a chain
    alone: who created what, who has spent it since and how old it is.  A block may follow a chain exactly when it
    keeps them all. */
module ConnectRules {
  import opened Ledger
  import opened TxLookup
  import opened Validate
  import opened Wrappers
  import opened Spending
  import opened Supply

  // ---------------------------------------------------------------- what the transactions so far say

  // The position of the newest transaction with a hash.
  function Creator(before: seq<Step>, h: Hash): (r: Option<nat>)
    ensures r.None? <==> forall i :: 0 <= i < |before| ==> before[i].tx.hash != h
    ensures r.Some? ==> r.value < |before| && before[r.value].tx.hash == h
    ensures r.Some? ==> forall i :: r.value < i < |before| ==> before[i].tx.hash != h
  {
    if before == [] then None
    else if before[|before| - 1].tx.hash == h then Some(|before| - 1)
    else Creator(before[..|before| - 1], h)
  }

  // Some input from position `r` on names the output.
  predicate SpentSince(before: seq<Step>, r: nat, prev: OutPoint) {
    exists c, k :: r <= c < |before| && 0 <= k < |before[c].tx.ins| && before[c].tx.ins[k].prev == prev
  }

  lemma SpentSinceSnoc(front: seq<Step>, last: Step, r: nat, prev: OutPoint)
    requires r <= |front|
    ensures SpentSince(front + [last], r, prev)
       <==> SpentSince(front, r, prev) || Names(last.tx.ins, prev.hash, prev.index)
  {
    var steps := front + [last];
    assert steps[|front|] == last && prev == OutPoint(prev.hash, prev.index);
    if SpentSince(front, r, prev) {
      var c, k :| r <= c < |front| && 0 <= k < |front[c].tx.ins| && front[c].tx.ins[k].prev == prev;
      assert steps[c].tx.ins[k].prev == prev;
    }
    if Names(last.tx.ins, prev.hash, prev.index) {
      var k :| 0 <= k < |last.tx.ins| && last.tx.ins[k].prev == OutPoint(prev.hash, prev.index);
      assert steps[|front|].tx.ins[k].prev == prev;
    }
    if SpentSince(steps, r, prev) {
      var c, k :| r <= c < |steps| && 0 <= k < |steps[c].tx.ins| && steps[c].tx.ins[k].prev == prev;
      assert c < |front| ==> steps[c] == front[c];
    }
  }

  // Record `e` of `h` is what the transactions so far say.
  ghost predicate FollowsSteps(before: seq<Step>, h: Hash, e: TxData) {
    match Creator(before, h)
    case None => e.Missing?
    case Some(r) =>
      && e.Present? && e.tx == before[r].tx && e.height == before[r].height && |e.spent| == |e.tx.outs|
      && forall i :: 0 <= i < |e.spent| ==> (e.spent[i] <==> SpentSince(before, r, OutPoint(h, i)))
  }

  /** The replay of any run of transactions knows the newest one with the hash, and of its outputs exactly those as
      spent that some input has named since. */
  lemma {:induction false} ReplayRecords(before: seq<Step>, h: Hash)
    ensures FollowsSteps(before, h, ConnectSteps(Missing, h, before))
  {
    hide SpentSince, Names;
    if before != [] {
      var front, last := before[..|before| - 1], before[|before| - 1];
      assert before == front + [last];
      ReplayRecords(front, h);
      var e := Created(ConnectSteps(Missing, h, front), h, last);
      var r := Creator(before, h);
      SpendInputsShape(e, h, last.tx.ins);
      if r.Some? {
        forall i | 0 <= i < |e.spent|
          ensures ConnectSteps(Missing, h, before).spent[i] <==> SpentSince(before, r.value, OutPoint(h, i))
        {
          InputsPointwise(e, h, last.tx.ins, i);
          SpentSinceSnoc(front, last, if r.value < |front| then r.value else |front|, OutPoint(h, i));
          NotSpentYet(front, OutPoint(h, i));
        }
      }
    }
  }

  lemma NotSpentYet(front: seq<Step>, prev: OutPoint)
    ensures !SpentSince(front, |front|, prev)
  {
  }

  function NamedOutput(before: seq<Step>, prev: OutPoint): Option<TxOut> {
    match Creator(before, prev.hash)
    case None => None
    case Some(r) => if prev.index < |before[r].tx.outs| then Some(before[r].tx.outs[prev.index]) else None
  }

  // The value of the outputs that a run of inputs names.
  function InputSum(before: seq<Step>, ins: seq<TxIn>): int {
    if ins == [] then 0
    else
      InputSum(before, ins[..|ins| - 1])
        + match NamedOutput(before, ins[|ins| - 1].prev) case None => 0 case Some(out) => out.value
  }

  // ---------------------------------------------------------------- the rules

  /** Input `k` of a transaction that comes after others: the newest transaction with the named hash has the named
      output, nobody has spent it since, it is mature if it is a coinbase, not later than the spender, and amounts
      stay in range. */
  predicate InputRule(net: Network, before: seq<Step>, s: Step, k: nat)
    requires k < |s.tx.ins|
  {
    var prev := s.tx.ins[k].prev;
    match Creator(before, prev.hash)
    case None => false
    case Some(r) =>
      var origin := before[r];
      && prev.index < |origin.tx.outs|
      && !SpentSince(before, r, prev)
      && (IsCoinBase(origin.tx) ==> s.height - origin.height >= net.coinbaseMaturity)
      && origin.tx.time <= s.tx.time
      && 0 <= origin.tx.outs[prev.index].value <= net.maxSatoshi
      && InputSum(before, s.tx.ins[..k + 1]) <= net.maxSatoshi
  }

  // The height of the block that holds an input's origin.
  function OriginHeight(before: seq<Step>, txIn: TxIn): nat {
    match Creator(before, txIn.prev.hash) case None => 0 case Some(r) => before[r].height
  }

  // The cent-seconds of one input: nothing while its origin's block is too young, value times age after that.
  function InputAge(net: Network, main: seq<Block>, before: seq<Step>, s: Step, txIn: TxIn): int {
    match Creator(before, txIn.prev.hash)
    case None => 0
    case Some(r) =>
      var origin := before[r];
      if txIn.prev.index < |origin.tx.outs| && origin.height < |main|
         && main[origin.height].timestamp + net.stakeMinAge <= s.tx.time
      then origin.tx.outs[txIn.prev.index].value * (s.tx.time - origin.tx.time) / 10_000
      else 0
  }

  function AgeSum(net: Network, main: seq<Block>, before: seq<Step>, s: Step, k: nat): int
    requires k <= |s.tx.ins|
  {
    if k == 0 then 0 else AgeSum(net, main, before, s, k - 1) + InputAge(net, main, before, s, s.tx.ins[k - 1])
  }

  /** What a transaction must pay: a fee of 10000, and as much for every whole thousand bytes.  A coinstake may instead
      gain the whole cents of 33 per 365 * 33 + 8 coin-days, less the fee for its whole thousands of bytes; all its
      origins must lie in blocks below the height of the main chain. */
  predicate FeeRule(net: Network, main: seq<Block>, before: seq<Step>, s: Step) {
    var paid := InputSum(before, s.tx.ins) - SumOutputs(s.tx.outs);
    if s.tx.coinStake then
      var coinDays := AgeSum(net, main, before, s, |s.tx.ins|) * 10_000 / (1_000_000 * 86_400);
      && (forall k :: 0 <= k < |s.tx.ins| ==> OriginHeight(before, s.tx.ins[k]) < |main|)
      && -paid <= coinDays * 33 / 12_053 * 10_000 - s.tx.size / 1000 * 10_000
    else paid >= (1 + s.tx.size / 1000) * 10_000
  }

  predicate TxRule(net: Network, main: seq<Block>, before: seq<Step>, s: Step) {
    && (forall k :: 0 <= k < |s.tx.ins| ==> InputRule(net, before, s, k))
    && FeeRule(net, main, before, s)
  }

  // What a transaction pays; a coinstake that gains pays nothing.
  function Fee(before: seq<Step>, s: Step): nat {
    var paid := InputSum(before, s.tx.ins) - SumOutputs(s.tx.outs);
    if paid < 0 then 0 else paid
  }

  // The script of input `k` accepts its signature; inputs without an origin are skipped.
  predicate ScriptRule(net: Network, before: seq<Step>, tx: Tx, k: nat)
    requires k < |tx.ins|
  {
    tx.ins[k].prev.index != NULL_INDEX ==>
      match NamedOutput(before, tx.ins[k].prev)
      case None => false
      case Some(out) => net.scriptOk(tx, k, out)
  }

  // The signature operations in the scripts of the first inputs and outputs.
  function InOps(net: Network, tx: Tx, k: nat): nat
    requires k <= |tx.ins|
  {
    if k == 0 then 0 else InOps(net, tx, k - 1) + net.sigOps(tx.ins[k - 1].sigScript)
  }

  function OutOps(net: Network, tx: Tx, k: nat): nat
    requires k <= |tx.outs|
  {
    if k == 0 then 0 else OutOps(net, tx, k - 1) + net.sigOps(tx.outs[k - 1].pkScript)
  }

  // Those hidden behind the script hashes that the first inputs spend.
  function HashOps(net: Network, before: seq<Step>, tx: Tx, k: nat): nat
    requires k <= |tx.ins|
  {
    if k == 0 then 0
    else
      HashOps(net, before, tx, k - 1)
        + match NamedOutput(before, tx.ins[k - 1].prev)
          case None => 0
          case Some(out) =>
            if net.isPayToScriptHash(out.pkScript) then net.preciseSigOps(tx.ins[k - 1].sigScript, out.pkScript) else 0
  }

  // The transactions before number `t` of a block on top of a chain.
  function Before(chain: seq<Block>, b: Block, t: nat): seq<Step>
    requires t <= |b.txs|
  {
    Steps(chain) + StepsAt(b.txs, |chain|)[..t]
  }

  // What the first transactions of a block pay, the coinbase aside.
  function Fees(chain: seq<Block>, b: Block, t: nat): nat
    requires t <= |b.txs|
  {
    if t <= 1 then 0 else Fees(chain, b, t - 1) + Fee(Before(chain, b, t - 1), Step(b.txs[t - 1], |chain|))
  }

  // All signature operations of the first transactions of a block.
  function Ops(net: Network, chain: seq<Block>, b: Block, t: nat): nat
    requires t <= |b.txs|
  {
    if t == 0 then 0
    else
      var tx := b.txs[t - 1];
      Ops(net, chain, b, t - 1) + InOps(net, tx, |tx.ins|) + OutOps(net, tx, |tx.outs|)
        + if b.timestamp > net.bip16Activation && t > 1 then HashOps(net, Before(chain, b, t - 1), tx, |tx.ins|) else 0
  }

  // No transaction of the block takes the hash of one that still has unspent outputs.
  predicate OverwriteRule(chain: seq<Block>, b: Block) {
    forall t :: 0 <= t < |b.txs| ==> AllSpent(Steps(chain), b.txs[t].hash)
  }

  predicate AllSpent(before: seq<Step>, h: Hash) {
    match Creator(before, h)
    case None => true
    case Some(r) => forall i :: 0 <= i < |before[r].tx.outs| ==> SpentSince(before, r, OutPoint(h, i))
  }

  predicate TxRules(net: Network, main: seq<Block>, chain: seq<Block>, b: Block) {
    forall t :: 1 <= t < |b.txs| ==> TxRule(net, main, Before(chain, b, t), Step(b.txs[t], |chain|))
  }

  predicate RewardRule(net: Network, b: Block)
    requires |b.txs| > 0
  {
    !b.proofOfStake ==> SumOutputs(b.txs[0].outs) <= net.powReward(b.bits)
  }

  predicate ScriptRules(net: Network, chain: seq<Block>, b: Block) {
    net.runScripts(|chain|) ==>
      forall t, k :: 0 <= t < |b.txs| && 0 <= k < |b.txs[t].ins| ==> ScriptRule(net, Before(chain, b, t), b.txs[t], k)
  }

  // The rules on hashes, inputs and signature operations.
  predicate KeepsInputRules(net: Network, main: seq<Block>, chain: seq<Block>, b: Block) {
    OverwriteRule(chain, b) && TxRules(net, main, chain, b) && Ops(net, chain, b, |b.txs|) <= net.maxSigOps
  }

  // ---------------------------------------------------------------- one transaction

  // For the inputs of a transaction the store holds what the transactions so far say.
  ghost predicate Mirrors(store: Store, before: seq<Step>, tx: Tx) {
    forall k :: 0 <= k < |tx.ins| ==>
      tx.ins[k].prev.hash in store && FollowsSteps(before, tx.ins[k].prev.hash, store[tx.ins[k].prev.hash])
  }

  lemma {:induction false} SumsAgree(store: Store, before: seq<Step>, tx: Tx, n: nat)
    requires Shaped(store) && Mirrors(store, before, tx) && n <= |tx.ins|
    ensures ValueIn(store, tx.ins[..n]) == InputSum(before, tx.ins[..n])
  {
    hide SpentSince;
    if n > 0 {
      SumsAgree(store, before, tx, n - 1);
      assert tx.ins[..n][..n - 1] == tx.ins[..n - 1];
      assert FollowsSteps(before, tx.ins[n - 1].prev.hash, store[tx.ins[n - 1].prev.hash]);
    }
  }

  lemma InputIff(net: Network, store: Store, before: seq<Step>, s: Step, k: nat)
    requires Shaped(store) && Mirrors(store, before, s.tx) && k < |s.tx.ins|
    ensures InputOk(net, store, s.tx, s.height, k) <==> InputRule(net, before, s, k)
  {
    hide SpentSince, ValueIn, InputSum, Applies;
    var h, index := s.tx.ins[k].prev.hash, s.tx.ins[k].prev.index;
    SumsAgree(store, before, s.tx, k + 1);
    assert s.tx.ins[k].prev == OutPoint(h, index);
    assert FollowsSteps(before, h, store[h]);
    InputOkMeans(net, store, s.tx, s.height, k);
  }

  // Nothing is wrong with an input whose transaction is known, spelled out.
  lemma InputOkMeans(net: Network, store: Store, tx: Tx, height: nat, k: nat)
    requires Shaped(store) && k < |tx.ins| && tx.ins[k].prev.hash in store
    ensures var e, index := store[tx.ins[k].prev.hash], tx.ins[k].prev.index;
            InputOk(net, store, tx, height, k) <==>
              && e.Present? && index < |e.tx.outs| && !e.spent[index]
              && (IsCoinBase(e.tx) ==> height - e.height >= net.coinbaseMaturity) && e.tx.time <= tx.time
              && 0 <= e.tx.outs[index].value <= net.maxSatoshi && ValueIn(store, tx.ins[..k + 1]) <= net.maxSatoshi
  {
    hide ValueIn;
    if InputOk(net, store, tx, height, k) {
      assert !Applies(net, store, tx, height, k, ErrMissingTx) && !Applies(net, store, tx, height, k, ErrImmatureSpend);
      assert !Applies(net, store, tx, height, k, ErrBadTxInput) && !Applies(net, store, tx, height, k, ErrDoubleSpend);
      assert !Applies(net, store, tx, height, k, ErrBadTxOutValue);
      assert !Applies(net, store, tx, height, k, ErrEarlierTimestamp);
    }
  }

  // The coin age is the sum of the cent-seconds, and known when all origins lie below the main chain's height.
  lemma {:induction false} AgeIff(net: Network, main: seq<Block>, store: Store, before: seq<Step>, s: Step, k: nat)
    requires Shaped(store) && Mirrors(store, before, s.tx) && k <= |s.tx.ins|
    requires forall i :: 0 <= i < |s.tx.ins| ==> InputRule(net, before, s, i)
    ensures var age := CentSeconds(Params(net, main), store, s.tx, k, AgeSum(net, main, before, s, k));
            if forall i :: k <= i < |s.tx.ins| ==> OriginHeight(before, s.tx.ins[i]) < |main| then
              age == Some(AgeSum(net, main, before, s, |s.tx.ins|))
            else age == None
    decreases |s.tx.ins| - k
  {
    hide InputRule, Mirrors, OriginAge, InputAge, OriginHeight;
    if k < |s.tx.ins| {
      AgeOfInput(net, main, store, before, s, k);
      if OriginHeight(before, s.tx.ins[k]) < |main| {
        AgeIff(net, main, store, before, s, k + 1);
      }
    }
  }

  lemma AgeOfInput(net: Network, main: seq<Block>, store: Store, before: seq<Step>, s: Step, k: nat)
    requires Shaped(store) && Mirrors(store, before, s.tx) && k < |s.tx.ins| && InputRule(net, before, s, k)
    ensures OriginAge(Params(net, main), store, s.tx, s.tx.ins[k])
         == if OriginHeight(before, s.tx.ins[k]) < |main| then Some(InputAge(net, main, before, s, s.tx.ins[k]))
            else None
  {
    hide SpentSince, InputSum;
    assert FollowsSteps(before, s.tx.ins[k].prev.hash, store[s.tx.ins[k].prev.hash]);
  }

  lemma {:induction false} FeeByOrigins(p: Params, a: Store, b: Store, tx: Tx, totalIn: int)
    requires Shaped(a) && Shaped(b) && SameOrigins(a, b)
    ensures FeeVerdict(p, a, tx, totalIn, SumOutputs(tx.outs)) == FeeVerdict(p, b, tx, totalIn, SumOutputs(tx.outs))
  {
    hide CoinAge, SameOrigins, SumOutputs, ProofOfStakeReward;
    FairOrigins(p, a, b, tx);
  }

  lemma {:induction false} FeeIff(net: Network, main: seq<Block>, store: Store, before: seq<Step>, s: Step)
    requires Shaped(store) && Mirrors(store, before, s.tx) && !IsCoinBase(s.tx)
    requires forall i :: 0 <= i < |s.tx.ins| ==> InputRule(net, before, s, i)
    ensures var p, totalIn := Params(net, main), InputSum(before, s.tx.ins);
            var r := FeeVerdict(p, store, s.tx, totalIn, SumOutputs(s.tx.outs));
            (r.Ok? <==> FeeRule(net, main, before, s)) && (r.Ok? ==> r.value == Fee(before, s))
  {
    hide Mirrors, InputRule, SumOutputs, InputSum, CentSeconds, OriginHeight;
    AgeIff(net, main, store, before, s, 0);
    assert AgeSum(net, main, before, s, 0) == 0;
  }

  /** The checks on one transaction pass exactly when it keeps its rules, and then give its fee. */
  lemma {:induction false} TxIff(net: Network, main: seq<Block>, store: Store, before: seq<Step>, s: Step)
    requires Shaped(store) && Mirrors(store, before, s.tx) && !IsCoinBase(s.tx) && DistinctInputs(s.tx.ins)
    ensures var r := CheckTx(Params(net, main), store, s.tx, s.height).0;
            && (r.Ok? <==> TxRule(net, main, before, s))
            && (r.Ok? ==> r.value == Fee(before, s))
  {
    hide Mirrors, InputRule, InputOk, FirstError, CheckInputsFrom, SumOutputs, AgeSum, InputSum, ValueIn, CentSeconds;
    hide DistinctInputs, Shaped, SameOrigins, OriginHeight, FeeVerdict, FeeRule, Fee;
    var p := Params(net, main);
    assert s.tx.ins[..0] == [];
    NoInputsNoValue(store, s.tx.ins);
    CheckedInputs(p, store, store, s.tx, s.height, 0, 0);
    forall k | 0 <= k < |s.tx.ins|
      ensures InputOk(net, store, s.tx, s.height, k) <==> InputRule(net, before, s, k)
    {
      InputIff(net, store, before, s, k);
    }
    var (inputs, store') := CheckInputsFrom(p, store, s.tx, s.height, 0, 0);
    if inputs.Ok? {
      SumsAgree(store, before, s.tx, |s.tx.ins|);
      assert s.tx.ins[..|s.tx.ins|] == s.tx.ins;
      CheckKeepsOrigins(p, store, s.tx, s.height, 0, 0);
      FeeIff(net, main, store, before, s);
      FeeByOrigins(p, store', store, s.tx, inputs.value);
    }
  }

  // ---------------------------------------------------------------- one block

  // A record on top of a chain is a record of all transactions up to it.
  lemma RecordsBefore(chain: seq<Block>, b: Block, t: nat, h: Hash)
    requires t <= |b.txs|
    ensures FollowsSteps(Before(chain, b, t), h, ConnectSteps(Replay(chain, h), h, StepsAt(b.txs, |chain|)[..t]))
  {
    hide ConnectSteps, FollowsSteps, Steps;
    ConnectStepsConcat(Missing, h, Steps(chain), StepsAt(b.txs, |chain|)[..t]);
    ReplayRecords(Before(chain, b, t), h);
  }

  ghost predicate TracksAll(chain: seq<Block>, b: Block, s: Store, t: nat)
    requires t <= |b.txs|
  {
    forall h :: Tracks(b, |chain|, h, Replay(chain, h), s, t)
  }

  // The hashes that the block creates are free.
  ghost predicate Free(chain: seq<Block>, b: Block) {
    forall h :: CreatedBefore(b, |b.txs|, h) ==> FullySpent(Replay(chain, h))
  }

  // While a block is checked the store holds what the transactions so far say.
  lemma TrackedMirrors(chain: seq<Block>, b: Block, s: Store, t: nat)
    requires 1 <= t < |b.txs| && TracksAll(chain, b, s, t)
    ensures Mirrors(s, Before(chain, b, t), b.txs[t])
  {
    hide FollowsSteps, Before, Replay, ConnectSteps, StepsLegal, Needed, InputHashes, InFlight, CreatedBefore;
    hide NamedBefore;
    var tx := b.txs[t];
    forall k | 0 <= k < |tx.ins|
      ensures tx.ins[k].prev.hash in s && FollowsSteps(Before(chain, b, t), tx.ins[k].prev.hash, s[tx.ins[k].prev.hash])
    {
      var h := tx.ins[k].prev.hash;
      assert Tracks(b, |chain|, h, Replay(chain, h), s, t);
      NamedIsInput(b, t, h);
      RecordsBefore(chain, b, t, h);
    }
  }

  lemma TrackAllStep(p: Params, chain: seq<Block>, b: Block, s: Store, t: nat)
    requires Sane(b) && Shaped(s) && 1 <= t < |b.txs| && Free(chain, b) && TracksAll(chain, b, s, t)
    requires CheckTx(p, s, b.txs[t], |chain|).0.Ok?
    ensures TracksAll(chain, b, CheckTx(p, s, b.txs[t], |chain|).1, t + 1)
  {
    hide Tracks, CheckTx, Sane, Replay, FullySpent;
    forall h ensures Tracks(b, |chain|, h, Replay(chain, h), CheckTx(p, s, b.txs[t], |chain|).1, t + 1) {
      assert Tracks(b, |chain|, h, Replay(chain, h), s, t);
      assert b.txs[t].hash == h ==> CreatedBefore(b, |b.txs|, h);
      ReplayPresent(chain, h);
      TrackStep(p, b, |chain|, h, Replay(chain, h), s, t);
    }
  }

  // From transaction `t` on.
  lemma {:induction false} TxsIff(net: Network, main: seq<Block>, chain: seq<Block>, b: Block, s: Store, t: nat,
                                  fees: int)
    requires Sane(b) && Shaped(s) && 1 <= t <= |b.txs| && Free(chain, b) && TracksAll(chain, b, s, t)
    ensures var r := CheckTxsFrom(Params(net, main), s, b.txs, |chain|, t, fees).0;
            && (r.Ok? <==>
                  forall u :: t <= u < |b.txs| ==> TxRule(net, main, Before(chain, b, u), Step(b.txs[u], |chain|)))
            && (r.Ok? ==> r.value == fees + Fees(chain, b, |b.txs|) - Fees(chain, b, t))
    decreases |b.txs| - t
  {
    hide CheckTx, TxRule, TracksAll, Free, Before, Mirrors, StakeSane, Distinct, Shaped, Fee;
    if t < |b.txs| {
      var p := Params(net, main);
      TrackedMirrors(chain, b, s, t);
      assert SaneTx(b.txs[t]);
      TxIff(net, main, s, Before(chain, b, t), Step(b.txs[t], |chain|));
      var (verdict, s') := CheckTx(p, s, b.txs[t], |chain|);
      if verdict.Ok? {
        TrackAllStep(p, chain, b, s, t);
        TxsIff(net, main, chain, b, s', t + 1, fees + verdict.value);
      }
    }
  }

  /** With free hashes the loop over all transactions passes exactly when each of them keeps its rules. */
  lemma {:induction false} InputsIff(net: Network, main: seq<Block>, chain: seq<Block>, b: Block)
    requires Sane(b) && Free(chain, b)
    ensures TracksAll(chain, b, InputStore(chain, b), 1)
    ensures var p, s := Params(net, main), InputStore(chain, b);
            var r := CheckTxsFrom(p, s, b.txs, |chain|, 0, 0).0;
            && (r.Ok? <==> TxRules(net, main, chain, b)) && (r.Ok? ==> r.value == Fees(chain, b, |b.txs|))
            && CheckTxsFrom(p, s, b.txs, |chain|, 0, 0) == CheckTxsFrom(p, s, b.txs, |chain|, 1, 0)
  {
    hide Merged, TxRule, FullySpent, Tracks, Replay, SaneTx, Distinct, StakeSane, CheckInputsFrom, FeeVerdict, Needed;
    hide Replays, CreatedBefore, Fee;
    var s := InputStore(chain, b);
    forall h ensures Tracks(b, |chain|, h, Replay(chain, h), s, 1) {
      assert CreatedBefore(b, |b.txs|, h) ==> FullySpent(Replay(chain, h));
      CoinBaseTracks(chain, b, h);
    }
    TxsIff(net, main, chain, b, s, 1, 0);
  }

  lemma FreeIff(chain: seq<Block>, b: Block)
    ensures Free(chain, b) <==> OverwriteRule(chain, b)
    ensures Overwrites(Replays(chain, TxHashes(b))) <==> !OverwriteRule(chain, b)
  {
    hide Replay, AllSpent, FullySpent, Steps;
    forall h ensures FullySpent(Replay(chain, h)) <==> AllSpent(Steps(chain), h) {
      AllSpentIff(chain, h);
    }
    if t :| 0 <= t < |b.txs| && !AllSpent(Steps(chain), b.txs[t].hash) {
      assert CreatedBefore(b, |b.txs|, b.txs[t].hash);
      assert b.txs[t] in b.txs && b.txs[t].hash in Replays(chain, TxHashes(b));
    }
  }

  lemma AllSpentIff(chain: seq<Block>, h: Hash)
    ensures FullySpent(Replay(chain, h)) <==> AllSpent(Steps(chain), h)
  {
    hide SpentSince;
    ReplayRecords(Steps(chain), h);
  }

  // Once the inputs have passed, the store's transactions are those the inputs name.
  ghost predicate MirrorsOrigins(chain: seq<Block>, b: Block, s: Store) {
    forall t, k :: 1 <= t < |b.txs| && 0 <= k < |b.txs[t].ins| ==>
      var prev := b.txs[t].ins[k].prev;
      && prev.hash in s && s[prev.hash].Present? && prev.index < |s[prev.hash].tx.outs|
      && NamedOutput(Before(chain, b, t), prev) == Some(s[prev.hash].tx.outs[prev.index])
  }

  lemma {:induction false} AcceptedMirrors(net: Network, main: seq<Block>, chain: seq<Block>, b: Block)
    requires Sane(b) && Free(chain, b) && TxRules(net, main, chain, b)
    ensures MirrorsOrigins(chain, b, InputStore(chain, b))
  {
    hide InputStore, CheckTxsFrom, Tracks, NamedOutput, Replay, Before, TxRule, Sane, FullySpent, StepsAt;
    var p, s := Params(net, main), InputStore(chain, b);
    InputsIff(net, main, chain, b);
    forall t, k | 1 <= t < |b.txs| && 0 <= k < |b.txs[t].ins|
      ensures var prev := b.txs[t].ins[k].prev;
        && prev.hash in s && s[prev.hash].Present? && prev.index < |s[prev.hash].tx.outs|
        && NamedOutput(Before(chain, b, t), prev) == Some(s[prev.hash].tx.outs[prev.index])
    {
      var h := b.txs[t].ins[k].prev.hash;
      assert NamesHash(b.txs[t].ins, h);
      assert Tracks(b, |chain|, h, Replay(chain, h), s, 1);
      ReplayPresent(chain, h);
      TrackedOrigin(p, b, |chain|, h, Replay(chain, h), s, 1, 0, t);
      assert TxRule(net, main, Before(chain, b, t), Step(b.txs[t], |chain|));
      OriginOfInput(net, main, chain, b, t, k, s[h]);
    }
  }

  lemma OriginOfInput(net: Network, main: seq<Block>, chain: seq<Block>, b: Block, t: nat, k: nat, e: TxData)
    requires 1 <= t < |b.txs| && k < |b.txs[t].ins| && e.Present?
    requires TxRule(net, main, Before(chain, b, t), Step(b.txs[t], |chain|))
    requires var h := b.txs[t].ins[k].prev.hash;
             var now := ConnectSteps(Replay(chain, h), h, StepsAt(b.txs, |chain|)[..t]); now.Present? && e.tx == now.tx
    ensures var prev := b.txs[t].ins[k].prev;
      && prev.index < |e.tx.outs| && NamedOutput(Before(chain, b, t), prev) == Some(e.tx.outs[prev.index])
  {
    hide Before, Replay, ConnectSteps, SpentSince, InputSum, FeeRule;
    RecordsBefore(chain, b, t, b.txs[t].ins[k].prev.hash);
    assert InputRule(net, Before(chain, b, t), Step(b.txs[t], |chain|), k);
  }

  // ---------------------------------------------------------------- signature operations of a block

  lemma {:induction false} ScriptsCount(net: Network, tx: Tx, i: nat, o: nat)
    requires i <= |tx.ins| && o <= |tx.outs|
    ensures SumSigOps(net.sigOps, InScripts(tx.ins)[..i]) == InOps(net, tx, i)
    ensures SumSigOps(net.sigOps, OutScripts(tx.outs)[..o]) == OutOps(net, tx, o)
  {
    if i > 0 {
      ScriptsCount(net, tx, i - 1, o);
      assert InScripts(tx.ins)[..i][..i - 1] == InScripts(tx.ins)[..i - 1];
    } else if o > 0 {
      ScriptsCount(net, tx, i, o - 1);
      assert OutScripts(tx.outs)[..o][..o - 1] == OutScripts(tx.outs)[..o - 1];
    }
  }

  lemma {:induction false} HashesCount(net: Network, chain: seq<Block>, b: Block, s: Store, t: nat, k: nat)
    requires 1 <= t < |b.txs| && k <= |b.txs[t].ins| && MirrorsOrigins(chain, b, s)
    ensures var before, tx := Before(chain, b, t), b.txs[t];
            HashSigOps(net, s, tx, k, HashOps(net, before, tx, k)) == Ok(HashOps(net, before, tx, |tx.ins|))
    decreases |b.txs[t].ins| - k
  {
    hide Before, NamedOutput;
    if k < |b.txs[t].ins| {
      HashesCount(net, chain, b, s, t, k + 1);
    }
  }

  lemma {:induction false} TxCount(net: Network, chain: seq<Block>, b: Block, s: Store, t: nat)
    requires t < |b.txs| && MirrorsOrigins(chain, b, s)
    ensures TxSigOps(net, s, b, t).Ok?
    ensures Ops(net, chain, b, t + 1) == Ops(net, chain, b, t) + TxSigOps(net, s, b, t).value
  {
    hide Before, HashSigOps, HashOps, MirrorsOrigins, InOps, OutOps, SumSigOps;
    var tx := b.txs[t];
    ScriptsCount(net, tx, |tx.ins|, |tx.outs|);
    assert InScripts(tx.ins)[..|tx.ins|] == InScripts(tx.ins);
    assert OutScripts(tx.outs)[..|tx.outs|] == OutScripts(tx.outs);
    if t > 0 {
      HashesCount(net, chain, b, s, t, 0);
      assert HashOps(net, Before(chain, b, t), tx, 0) == 0 by { NoHashOps(net, Before(chain, b, t), tx); }
    }
  }

  lemma NoHashOps(net: Network, before: seq<Step>, tx: Tx)
    ensures HashOps(net, before, tx, 0) == 0
  {
  }

  lemma {:induction false} OpsGrow(net: Network, chain: seq<Block>, b: Block, t: nat, u: nat)
    requires t <= u <= |b.txs|
    ensures Ops(net, chain, b, t) <= Ops(net, chain, b, u)
  {
    hide HashOps, InOps, OutOps, Before;
    if t < u {
      OpsGrow(net, chain, b, t, u - 1);
    }
  }

  /** The count of a block whose inputs pass stays within the limit exactly when the total does. */
  lemma {:induction false} OpsIff(net: Network, chain: seq<Block>, b: Block, s: Store, t: nat)
    requires t <= |b.txs| && MirrorsOrigins(chain, b, s) && (t > 0 ==> Ops(net, chain, b, t) <= net.maxSigOps)
    ensures BlockSigOps(net, s, b, t, Ops(net, chain, b, t)).Ok?
       <==> t == |b.txs| || Ops(net, chain, b, |b.txs|) <= net.maxSigOps
    decreases |b.txs| - t
  {
    hide Ops, TxSigOps, MirrorsOrigins;
    if t < |b.txs| {
      TxCount(net, chain, b, s, t);
      OpsGrow(net, chain, b, t + 1, |b.txs|);
      if Ops(net, chain, b, t + 1) <= net.maxSigOps {
        OpsIff(net, chain, b, s, t + 1);
      }
    }
  }

  // ---------------------------------------------------------------- scripts of a block

  lemma {:induction false} TxsKeepOrigins(p: Params, s: Store, txs: seq<Tx>, height: nat, t: nat, fees: int)
    requires Shaped(s) && t <= |txs|
    ensures SameOrigins(CheckTxsFrom(p, s, txs, height, t, fees).1, s)
    decreases |txs| - t
  {
    hide Shaped, CheckTx;
    if t < |txs| {
      TxKeepsOrigins(p, s, txs[t], height);
      var (verdict, s') := CheckTx(p, s, txs[t], height);
      if verdict.Ok? {
        TxsKeepOrigins(p, s', txs, height, t + 1, fees + verdict.value);
      }
    }
  }

  lemma ScriptsIff(net: Network, main: seq<Block>, chain: seq<Block>, b: Block, s: Store, s': Store)
    requires Sane(b) && MirrorsOrigins(chain, b, s) && SameOrigins(s', s)
    ensures (net.runScripts(|chain|) ==> ScriptsPass(Params(net, main), s', b)) <==> ScriptRules(net, chain, b)
  {
    hide Before, NamedOutput, StakeSane, SaneTx, Distinct;
    forall t, k | 0 <= t < |b.txs| && 0 <= k < |b.txs[t].ins|
      ensures ScriptPasses(Params(net, main), s', b.txs[t], k) <==> ScriptRule(net, Before(chain, b, t), b.txs[t], k)
    {
    }
  }

  // ---------------------------------------------------------------- the verdict

  // The verdict of checkConnectBlock on the replay of the chain.
  function Verdict(net: Network, main: seq<Block>, chain: seq<Block>, b: Block): Result<int>
    requires |b.txs| > 0
  {
    CheckBlock(Params(net, main), b, |chain|, Replays(chain, TxHashes(b)), Replays(chain, Needed(b)))
  }

  /** A verdict that follows the rules: the fees the transactions pay if the block keeps all rules, and one of the
      errors of the block as a whole exactly when its rule is the first one broken. */
  ghost predicate FollowsRules(net: Network, main: seq<Block>, chain: seq<Block>, b: Block, r: Result<int>)
    requires |b.txs| > 0
  {
    var counted := KeepsInputRules(net, main, chain, b);
    && (r.Ok? <==> counted && RewardRule(net, b) && ScriptRules(net, chain, b))
    && (r.Ok? ==> r.value == Fees(chain, b, |b.txs|))
    && (r == Err(ErrOverwriteTx) <==> !OverwriteRule(chain, b))
    && (r == Err(ErrBadCoinbaseValue) <==> counted && !RewardRule(net, b))
    && (r == Err(ErrScript) <==> counted && RewardRule(net, b) && !ScriptRules(net, chain, b))
  }

  /** A sane block passes the checks on top of a chain exactly when it keeps all rules. */
  lemma {:induction false} PassesIffRulesKept(net: Network, main: seq<Block>, chain: seq<Block>, b: Block)
    requires Sane(b)
    ensures FollowsRules(net, main, chain, b, Verdict(net, main, chain, b))
  {
    hide CheckTxsFrom, Merged, Replays, Overwrites, BlockSigOps, Needed, SaneTx, Ops, OverwriteRule, TxRules;
    hide ScriptRules;
    hide ScriptsPass, SameOrigins, MirrorsOrigins, TracksAll, Free, SumOutputs, Shaped, Distinct, StakeSane, Fees;
    var p, s := Params(net, main), InputStore(chain, b);
    BlockErrors(p, b, |chain|, Replays(chain, TxHashes(b)), Replays(chain, Needed(b)));
    FreeIff(chain, b);
    if OverwriteRule(chain, b) {
      InputsIff(net, main, chain, b);
      if TxRules(net, main, chain, b) {
        AcceptedMirrors(net, main, chain, b);
        assert Ops(net, chain, b, 0) == 0 by { NoOps(net, chain, b); }
        OpsIff(net, chain, b, s, 0);
        TxsKeepOrigins(p, s, b.txs, |chain|, 0, 0);
        ScriptsIff(net, main, chain, b, s, CheckTxsFrom(p, s, b.txs, |chain|, 0, 0).1);
      }
    }
  }

  lemma NoOps(net: Network, chain: seq<Block>, b: Block)
    ensures Ops(net, chain, b, 0) == 0
  {
  }

  // The script of an output that input `k` of transaction `t` names refuses.
  ghost predicate ScriptRefuses(net: Network, chain: seq<Block>, b: Block, t: nat, k: nat, r: nat) {
    && t < |b.txs| && k < |b.txs[t].ins| && r < |Before(chain, b, t)|
    && var origin, prev := Before(chain, b, t)[r].tx, b.txs[t].ins[k].prev;
       origin.hash == prev.hash && prev.index < |origin.outs| && !net.scriptOk(b.txs[t], k, origin.outs[prev.index])
  }

  /** A script error means that scripts are run and that one of an existing output refuses its spender. */
  lemma ScriptErrorMeans(net: Network, main: seq<Block>, chain: seq<Block>, b: Block)
    requires Sane(b) && FollowsRules(net, main, chain, b, Err(ErrScript))
    ensures net.runScripts(|chain|) && exists t: nat, k: nat, r: nat :: ScriptRefuses(net, chain, b, t, k, r)
  {
    hide Before, StakeSane, Distinct, SaneTx, FeeRule, SpentSince, InputSum, Fees, Ops, OverwriteRule;
    var t, k :| 0 <= t < |b.txs| && 0 <= k < |b.txs[t].ins| && !ScriptRule(net, Before(chain, b, t), b.txs[t], k);
    assert t > 0;
    assert TxRule(net, main, Before(chain, b, t), Step(b.txs[t], |chain|));
    assert InputRule(net, Before(chain, b, t), Step(b.txs[t], |chain|), k);
    var r := Creator(Before(chain, b, t), b.txs[t].ins[k].prev.hash).value;
    assert ScriptRefuses(net, chain, b, t, k, r);
  }

  // ---------------------------------------------------------------- validated chains

  // Where a transaction of the chain stands.
  lemma {:induction false} StepPlace(chain: seq<Block>, a: nat) returns (j: nat, t: nat)
    requires a < |Steps(chain)|
    ensures j < |chain| && t < |chain[j].txs| && Steps(chain)[a] == Step(chain[j].txs[t], j)
    ensures Steps(chain)[..a] == Before(chain[..j], chain[j], t)
  {
    var n := |chain| - 1;
    var front, own := chain[..n], StepsAt(chain[n].txs, n);
    assert chain == front + [chain[n]];
    StepsSnoc(front, chain[n]);
    if a < |Steps(front)| {
      j, t := StepPlace(front, a);
      assert front[..j] == chain[..j];
      assert Steps(chain)[..a] == Steps(front)[..a];
    } else {
      j, t := n, a - |Steps(front)|;
      assert Steps(chain)[..a] == Steps(front) + own[..t];
    }
  }

  /** Every transaction of a validated chain, coinbases aside, keeps its rules on the transactions before it, with
      coin ages by the main chain of some moment, and its scripts accept where they are run. */
  lemma ChainKeepsRules(net: Network, chain: seq<Block>, a: nat)
    requires Validated(net, chain) && a < |Steps(chain)| && !IsCoinBase(Steps(chain)[a].tx)
    ensures var before, s := Steps(chain)[..a], Steps(chain)[a];
      && (exists main: seq<Block> :: TxRule(net, main, before, s))
      && (net.runScripts(s.height) ==> forall k :: 0 <= k < |s.tx.ins| ==> ScriptRule(net, before, s.tx, k))
  {
    hide TxRule, ScriptRule, Before, ConnectOk, Steps;
    var j, t := StepPlace(chain, a);
    var main := BlockKeepsRules(net, chain, j);
    assert TxRule(net, main, Before(chain[..j], chain[j], t), Step(chain[j].txs[t], j));
  }

  lemma BlockKeepsRules(net: Network, chain: seq<Block>, j: nat) returns (main: seq<Block>)
    requires Validated(net, chain) && 1 <= j < |chain|
    ensures Sane(chain[j]) && KeepsInputRules(net, main, chain[..j], chain[j])
    ensures RewardRule(net, chain[j]) && ScriptRules(net, chain[..j], chain[j])
  {
    hide CheckBlock, KeepsInputRules, RewardRule, ScriptRules, SaneTx, Distinct, StakeSane, Replays, Needed;
    var m :| Connectable(net, m, chain[..j], chain[j]);
    main := m;
    PassesIffRulesKept(net, main, chain[..j], chain[j]);
  }

  /** Where scripts are run they have passed: every input of a validated chain that is no null outpoint names an
      output of an earlier transaction, the newest with that hash, whose script accepts it. */
  lemma ScriptsHavePassed(net: Network, chain: seq<Block>, a: nat, k: nat)
    requires Validated(net, chain) && a < |Steps(chain)| && k < |Steps(chain)[a].tx.ins|
    requires net.runScripts(Steps(chain)[a].height) && !IsNullOutpoint(Steps(chain)[a].tx.ins[k].prev)
    ensures var steps := Steps(chain);
            var tx, prev := steps[a].tx, steps[a].tx.ins[k].prev;
            exists r :: 0 <= r < a && steps[r].tx.hash == prev.hash && prev.index < |steps[r].tx.outs|
                        && net.scriptOk(tx, k, steps[r].tx.outs[prev.index])
                        && forall i :: r < i < a ==> steps[i].tx.hash != prev.hash
  {
    hide Validated, SpentSince, InputSum, FeeRule;
    var steps := Steps(chain);
    ChainKeepsRules(net, chain, a);
    assert InputRule(net, steps[..a], steps[a], k) && ScriptRule(net, steps[..a], steps[a].tx, k);
    var r := Creator(steps[..a], steps[a].tx.ins[k].prev.hash).value;
    assert steps[r] == steps[..a][r];
    forall i | r < i < a ensures steps[i].tx.hash != steps[a].tx.ins[k].prev.hash {
      assert steps[i] == steps[..a][i];
    }
  }

  /** Every input of a validated chain, coinbases aside, keeps its distance from what it spends: if the origin is a
      coinbase it lies at least the maturity below, it is not later than the spender, the output exists and was not
      named since, and its value and the value of all inputs are in range. */
  lemma SpendsKeepRules(net: Network, chain: seq<Block>, a: nat, k: nat, r: nat)
    requires Validated(net, chain) && r < a < |Steps(chain)| && k < |Steps(chain)[a].tx.ins|
    requires !IsCoinBase(Steps(chain)[a].tx) && Steps(chain)[r].tx.hash == Steps(chain)[a].tx.ins[k].prev.hash
    requires forall i :: r < i < a ==> Steps(chain)[i].tx.hash != Steps(chain)[r].tx.hash
    ensures var steps := Steps(chain);
            var origin, spender, index := steps[r], steps[a], steps[a].tx.ins[k].prev.index;
            && (IsCoinBase(origin.tx) ==> spender.height - origin.height >= net.coinbaseMaturity)
            && origin.tx.time <= spender.tx.time
            && index < |origin.tx.outs| && 0 <= origin.tx.outs[index].value <= net.maxSatoshi
            && InputSum(steps[..a], spender.tx.ins) <= net.maxSatoshi
            && forall c, m :: r <= c < a && 0 <= m < |steps[c].tx.ins| ==>
                 steps[c].tx.ins[m].prev != spender.tx.ins[k].prev
  {
    hide Validated, InputSum, FeeRule;
    var steps := Steps(chain);
    var before, ins := steps[..a], steps[a].tx.ins;
    ChainKeepsRules(net, chain, a);
    assert InputRule(net, before, steps[a], k) && InputRule(net, before, steps[a], |ins| - 1);
    assert ins[..|ins|] == ins;
    NewestIsCreator(before, r);
    forall c, m | r <= c < a && 0 <= m < |steps[c].tx.ins| ensures steps[c].tx.ins[m].prev != ins[k].prev {
      assert before[c].tx.ins[m] == steps[c].tx.ins[m];
    }
  }

  lemma NewestIsCreator(before: seq<Step>, r: nat)
    requires r < |before| && forall i :: r < i < |before| ==> before[i].tx.hash != before[r].tx.hash
    ensures Creator(before, before[r].tx.hash) == Some(r)
  {
    var c := Creator(before, before[r].tx.hash);
    assert c.Some?;
    assert !(c.value < r) && !(r < c.value);
  }

  /** No block of a validated chain has more signature operations than allowed, those behind script hashes included. */
  lemma SigOpsWithinLimit(net: Network, chain: seq<Block>, j: nat)
    requires Validated(net, chain) && 1 <= j < |chain|
    ensures Ops(net, chain[..j], chain[j], |chain[j].txs|) <= net.maxSigOps
  {
    hide Validated, Ops;
    var main := BlockKeepsRules(net, chain, j);
  }
}
