/** Contextual block validation (validate.go and the Peercoin additions in ppc.go): the input checks, the
    check against overwriting unspent transactions (BIP 30) and the coinbase limit, as functions of a view
    and as methods that work on a TxStore in place. */
module Validate {
  import Arith
  import opened Ledger
  import opened TxLookup
  import opened Wrappers

  datatype RuleError =
    | ErrMissingTx | ErrImmatureSpend | ErrBadTxInput | ErrDoubleSpend | ErrBadTxOutValue
    | ErrEarlierTimestamp | ErrSpendTooHigh | ErrCoinAge | ErrBadCoinstakeValue | ErrInsufficientFee
    | ErrOverwriteTx | ErrTooManySigOps | ErrBadFees | ErrBadCoinbaseValue | ErrScript

  datatype Result<+T> = Ok(value: T) | Err(error: RuleError)

  // Amounts are kept small enough that adding two of them never wraps a 64-bit integer.
  type Satoshi = n: nat | n < 0x4000_0000_0000_0000

  /** A network: its parameters, the proof-of-work reward for the header bits, the verdict of the script engine and its
      counts of signature operations. */
  datatype Network = Network(
    coinbaseMaturity: int,
    maxSatoshi: Satoshi,
    stakeMinAge: int,
    bip16Activation: int,
    maxSigOps: nat,
    powReward: Arith.U32 -> int,
    scriptOk: (Tx, nat, TxOut) -> bool,
    runScripts: nat -> bool,
    sigOps: nat -> nat,
    isPayToScriptHash: nat -> bool,
    preciseSigOps: (nat, nat) -> nat)

  // What the checks of a block look up outside the block's own view: the network and the main chain's headers.
  datatype Params = Params(net: Network, main: seq<Block>)

  const MIN_TX_FEE := CENT

  type Store = map<Hash, TxData>

  ghost predicate Shaped(s: Store) {
    forall h :: h in s ==> WellShaped(s[h])
  }

  // ---------------------------------------------------------------- inputs of one transaction

  function SumOutputs(outs: seq<TxOut>): int {
    if outs == [] then 0 else SumOutputs(outs[..|outs| - 1]) + outs[|outs| - 1].value
  }

  // Coin ages are not negative, so the division rounds as the source's does.
  function ProofOfStakeReward(coinAge: int): int {
    coinAge * 33 / (365 * 33 + 8) * CENT
  }

  function MinFee(tx: Tx): nat {
    (1 + tx.size / 1000) * MIN_TX_FEE
  }

  // The first error the checks on one input report, if any; `total` is the value of the earlier inputs.
  function InputError(p: Params, s: Store, tx: Tx, height: nat, txIn: TxIn, total: int): Option<RuleError>
    requires Shaped(s)
  {
    var h, index := txIn.prev.hash, txIn.prev.index;
    if h !in s || s[h].Missing? then Some(ErrMissingTx)
    else
      var origin := s[h];
      if IsCoinBase(origin.tx) && height - origin.height < p.net.coinbaseMaturity then Some(ErrImmatureSpend)
      else if index >= |origin.spent| then Some(ErrBadTxInput)
      else if origin.spent[index] then Some(ErrDoubleSpend)
      else
        var value := origin.tx.outs[index].value;
        if value < 0 || value > p.net.maxSatoshi then Some(ErrBadTxOutValue)
        else if total + value < total || total + value > p.net.maxSatoshi then Some(ErrBadTxOutValue)
        else if origin.tx.time > tx.time then Some(ErrEarlierTimestamp)
        else None
  }

  function OriginValue(s: Store, txIn: TxIn): int
    requires Shaped(s)
  {
    var h, index := txIn.prev.hash, txIn.prev.index;
    if h in s && s[h].Present? && index < |s[h].tx.outs| then s[h].tx.outs[index].value else 0
  }

  function Spend(s: Store, txIn: TxIn): Store {
    var h := txIn.prev.hash;
    if h in s then s[h := MarkSpent(s[h], txIn.prev.index)] else s
  }

  lemma SpendShaped(s: Store, txIn: TxIn)
    requires Shaped(s)
    ensures Shaped(Spend(s, txIn)) && Spend(s, txIn).Keys == s.Keys
  {}

  /** The loop over the inputs from input `k` on: the total input value or the first error, and the store
      with the accepted inputs marked spent. */
  function CheckInputsFrom(p: Params, s: Store, tx: Tx, height: nat, k: nat, total: int): (r: (Result<int>, Store))
    requires Shaped(s) && k <= |tx.ins|
    ensures Shaped(r.1) && r.1.Keys == s.Keys
    decreases |tx.ins| - k
  {
    if k == |tx.ins| then (Ok(total), s)
    else
      match InputError(p, s, tx, height, tx.ins[k], total)
      case Some(e) => (Err(e), s)
      case None =>
        SpendShaped(s, tx.ins[k]);
        CheckInputsFrom(p, Spend(s, tx.ins[k]), tx, height, k + 1, total + OriginValue(s, tx.ins[k]))
  }

  // ---------------------------------------------------------------- what an accepted input is

  // The value of the outputs that a run of inputs names.
  function ValueIn(s: Store, ins: seq<TxIn>): int
    requires Shaped(s)
  {
    if ins == [] then 0 else ValueIn(s, ins[..|ins| - 1]) + OriginValue(s, ins[|ins| - 1])
  }

  // The order of the input errors: an input that several of them apply to reports the first one.
  function Rank(e: RuleError): nat {
    match e
    case ErrMissingTx => 0
    case ErrImmatureSpend => 1
    case ErrBadTxInput => 2
    case ErrDoubleSpend => 3
    case ErrBadTxOutValue => 4
    case _ => 5
  }

  // Whether an error applies to input `k`, given the store before the transaction.
  ghost predicate Applies(net: Network, s: Store, tx: Tx, height: nat, k: nat, e: RuleError)
    requires Shaped(s) && k < |tx.ins|
  {
    var h, index := tx.ins[k].prev.hash, tx.ins[k].prev.index;
    var known := h in s && s[h].Present?;
    match e
    case ErrMissingTx => !known
    case ErrImmatureSpend => known && IsCoinBase(s[h].tx) && s[h].height > height - net.coinbaseMaturity
    case ErrBadTxInput => known && |s[h].tx.outs| <= index
    case ErrDoubleSpend => known && index < |s[h].tx.outs| && s[h].spent[index]
    case ErrBadTxOutValue =>
      known && index < |s[h].tx.outs|
      && (!(0 <= s[h].tx.outs[index].value <= net.maxSatoshi) || net.maxSatoshi < ValueIn(s, tx.ins[..k + 1]))
    case ErrEarlierTimestamp => known && tx.time < s[h].tx.time
    case _ => false
  }

  /** Nothing is wrong with input `k`: its transaction is known, not later than the spender and mature if it is a
      coinbase, and the named output exists, is unspent and keeps the amounts in range. */
  ghost predicate InputOk(net: Network, s: Store, tx: Tx, height: nat, k: nat)
    requires Shaped(s) && k < |tx.ins|
  {
    forall e :: !Applies(net, s, tx, height, k, e)
  }

  // Input `k` is the first one with something wrong, and `e` is the first error that applies.
  ghost predicate FirstError(net: Network, s: Store, tx: Tx, height: nat, k: nat, e: RuleError)
    requires Shaped(s) && k < |tx.ins|
  {
    && (forall j :: 0 <= j < k ==> InputOk(net, s, tx, height, j))
    && Applies(net, s, tx, height, k, e)
    && forall other :: Rank(other) < Rank(e) ==> !Applies(net, s, tx, height, k, other)
  }

  // Stores that differ at most in what is spent, and not for the output `txIn` names.
  ghost predicate SameFor(a: Store, b: Store, txIn: TxIn)
    requires Shaped(a) && Shaped(b)
  {
    var h, index := txIn.prev.hash, txIn.prev.index;
    && (h in a <==> h in b)
    && (h in a ==> a[h].Present? == b[h].Present?)
    && (h in a && a[h].Present? ==>
          && a[h].tx == b[h].tx && a[h].height == b[h].height
          && (index < |a[h].spent| ==> a[h].spent[index] == b[h].spent[index]))
  }

  lemma SpendSameFor(a: Store, b: Store, txIn: TxIn, other: TxIn)
    requires Shaped(a) && Shaped(b) && SameFor(a, b, other) && txIn.prev != other.prev
    ensures Shaped(Spend(a, txIn)) && SameFor(Spend(a, txIn), b, other)
  {
  }

  // One input: `s0` is the store before the transaction, `s` the store once the earlier inputs are spent.
  lemma ErrorOfInput(p: Params, s: Store, s0: Store, tx: Tx, height: nat, k: nat, total: int)
    requires Shaped(s) && Shaped(s0) && k < |tx.ins| && SameFor(s, s0, tx.ins[k])
    requires total == ValueIn(s0, tx.ins[..k])
    requires forall j :: 0 <= j < k ==> InputOk(p.net, s0, tx, height, j)
    ensures var error := InputError(p, s, tx, height, tx.ins[k], total);
            && (error.None? <==> InputOk(p.net, s0, tx, height, k))
            && (error.Some? ==> FirstError(p.net, s0, tx, height, k, error.value))
    ensures OriginValue(s, tx.ins[k]) == OriginValue(s0, tx.ins[k])
    ensures ValueIn(s0, tx.ins[..k + 1]) == total + OriginValue(s0, tx.ins[k])
  {
    assert tx.ins[..k + 1][..k] == tx.ins[..k];
    var error := InputError(p, s, tx, height, tx.ins[k], total);
    if error.Some? {
      assert Applies(p.net, s0, tx, height, k, error.value);
    }
  }

  /** The input checks, input by input: a transaction that names no outpoint twice passes exactly when nothing is wrong
      with any of its inputs on the store before it, and otherwise the error is the first one. */
  lemma {:induction false} CheckedInputs(p: Params, s: Store, s0: Store, tx: Tx, height: nat, k: nat, total: int)
    requires Shaped(s) && Shaped(s0) && k <= |tx.ins| && DistinctInputs(tx.ins)
    requires forall i :: k <= i < |tx.ins| ==> SameFor(s, s0, tx.ins[i])
    requires total == ValueIn(s0, tx.ins[..k])
    requires forall j :: 0 <= j < k ==> InputOk(p.net, s0, tx, height, j)
    ensures var r := CheckInputsFrom(p, s, tx, height, k, total).0;
            && (r.Ok? <==> forall i :: 0 <= i < |tx.ins| ==> InputOk(p.net, s0, tx, height, i))
            && (r.Ok? ==> r.value == ValueIn(s0, tx.ins))
            && (r.Err? ==> exists i :: 0 <= i < |tx.ins| && FirstError(p.net, s0, tx, height, i, r.error))
    decreases |tx.ins| - k
  {
    hide InputError, InputOk, FirstError, SameFor, Shaped, Spend, ValueIn, OriginValue;
    if k == |tx.ins| {
      assert tx.ins[..k] == tx.ins;
    } else {
      ErrorOfInput(p, s, s0, tx, height, k, total);
      if InputError(p, s, tx, height, tx.ins[k], total).None? {
        SpendShaped(s, tx.ins[k]);
        forall i | k + 1 <= i < |tx.ins| ensures SameFor(Spend(s, tx.ins[k]), s0, tx.ins[i]) {
          SpendSameFor(s, s0, tx.ins[k], tx.ins[i]);
        }
        CheckedInputs(p, Spend(s, tx.ins[k]), s0, tx, height, k + 1, total + OriginValue(s, tx.ins[k]));
      }
    }
  }

  // ---------------------------------------------------------------- coin age

  // The time of the main chain's block at a height, as the database answers.
  function BlockTime(main: seq<Block>, height: nat): Option<int> {
    if height < |main| then Some(main[height].timestamp) else None
  }

  // What one input adds to the coin age, in cent-seconds; an error is None.
  function OriginAge(p: Params, s: Store, tx: Tx, txIn: TxIn): Option<int>
    requires Shaped(s)
  {
    var h := txIn.prev.hash;
    if h !in s || s[h].Missing? then Some(0)
    else if tx.time < s[h].tx.time then None
    else
      match BlockTime(p.main, s[h].height)
      case None => None
      case Some(time) =>
        if time + p.net.stakeMinAge > tx.time then Some(0)
        else Some(OriginValue(s, txIn) * (tx.time - s[h].tx.time) / CENT)
  }

  function CentSeconds(p: Params, s: Store, tx: Tx, k: nat, total: int): Option<int>
    requires Shaped(s) && k <= |tx.ins|
    decreases |tx.ins| - k
  {
    if k == |tx.ins| then Some(total)
    else
      match OriginAge(p, s, tx, tx.ins[k])
      case None => None
      case Some(age) => CentSeconds(p, s, tx, k + 1, total + age)
  }

  // The coin age of a transaction in coin-days.
  function CoinAge(p: Params, s: Store, tx: Tx): Option<int>
    requires Shaped(s)
  {
    if IsCoinBase(tx) then Some(0)
    else
      match CentSeconds(p, s, tx, 0, 0)
      case None => None
      case Some(total) => Some(total * CENT / (COIN * 24 * 60 * 60))
  }

  /** getCoinAgeTx: the coin age of a transaction's inputs, with block times read from the main chain. */
  method GetCoinAgeTx(p: Params, tx: Tx, store: TxStore) returns (age: Option<int>)
    requires Shaped(store.entries)
    ensures age == CoinAge(p, store.entries, tx)
  {
    hide OriginAge, Shaped;
    if IsCoinBase(tx) {
      return Some(0);
    }
    var centSeconds := 0;
    for k := 0 to |tx.ins|
      invariant CentSeconds(p, store.entries, tx, k, centSeconds) == CentSeconds(p, store.entries, tx, 0, 0)
    {
      var age := OriginAge(p, store.entries, tx, tx.ins[k]);
      if age.None? {
        return None;
      }
      centSeconds := centSeconds + age.value;
    }
    return Some(centSeconds * CENT / (COIN * 24 * 60 * 60));
  }

  // Two stores that know the same transactions at the same heights; what is spent may differ.
  ghost predicate SameOrigins(a: Store, b: Store) {
    && a.Keys == b.Keys
    && forall h :: h in a ==>
         a[h].Present? == b[h].Present? && (a[h].Present? ==> a[h].tx == b[h].tx && a[h].height == b[h].height)
  }

  // Checking inputs changes only what is spent.
  lemma {:induction false} CheckKeepsOrigins(p: Params, s: Store, tx: Tx, height: nat, k: nat, total: int)
    requires Shaped(s) && k <= |tx.ins|
    ensures SameOrigins(CheckInputsFrom(p, s, tx, height, k, total).1, s)
    decreases |tx.ins| - k
  {
    if k < |tx.ins| && InputError(p, s, tx, height, tx.ins[k], total).None? {
      SpendShaped(s, tx.ins[k]);
      CheckKeepsOrigins(p, Spend(s, tx.ins[k]), tx, height, k + 1, total + OriginValue(s, tx.ins[k]));
    }
  }

  // The heights of the transactions that an input of `tx` names have the same block times on both main chains.
  ghost predicate SameTimes(main: seq<Block>, other: seq<Block>, s: Store, tx: Tx) {
    forall k :: 0 <= k < |tx.ins| && tx.ins[k].prev.hash in s && s[tx.ins[k].prev.hash].Present? ==>
      var height := s[tx.ins[k].prev.hash].height; BlockTime(main, height) == BlockTime(other, height)
  }

  /** The coin age depends on the main chain only through the block times at the heights of the origins, and not on what
      is spent. */
  lemma {:induction false} AgeByOrigins(p: Params, q: Params, a: Store, b: Store, tx: Tx)
    requires Shaped(a) && Shaped(b) && p.net == q.net && SameOrigins(a, b) && SameTimes(p.main, q.main, a, tx)
    ensures CoinAge(p, a, tx) == CoinAge(q, b, tx)
  {
    hide CentSeconds, SameOrigins, SameTimes, Shaped;
    CentSecondsByOrigins(p, q, a, b, tx, 0, 0);
  }

  lemma {:induction false} CentSecondsByOrigins(p: Params, q: Params, a: Store, b: Store, tx: Tx, k: nat, total: int)
    requires Shaped(a) && Shaped(b) && k <= |tx.ins| && p.net == q.net
    requires SameOrigins(a, b) && SameTimes(p.main, q.main, a, tx)
    ensures CentSeconds(p, a, tx, k, total) == CentSeconds(q, b, tx, k, total)
    decreases |tx.ins| - k
  {
    hide BlockTime;
    if k < |tx.ins| {
      var age := OriginAge(p, a, tx, tx.ins[k]);
      assert OriginAge(q, b, tx, tx.ins[k]) == age;
      if age.Some? {
        CentSecondsByOrigins(p, q, a, b, tx, k + 1, total + age.value);
      }
    }
  }

  // What the fee and stake rules say once the input and output totals are known.
  function FeeVerdict(p: Params, s: Store, tx: Tx, totalIn: int, totalOut: int): Result<int>
    requires Shaped(s)
  {
    if !tx.coinStake && totalIn < totalOut then Err(ErrSpendTooHigh)
    else if tx.coinStake then
      match CoinAge(p, s, tx)
      case None => Err(ErrCoinAge)
      case Some(age) =>
        if totalOut - totalIn > ProofOfStakeReward(age) - MinFee(tx) + MIN_TX_FEE then Err(ErrBadCoinstakeValue)
        else Ok(if totalIn - totalOut < 0 then 0 else totalIn - totalOut)
    else if totalIn - totalOut < MinFee(tx) then Err(ErrInsufficientFee)
    else Ok(totalIn - totalOut)
  }

  function CheckTx(p: Params, s: Store, tx: Tx, height: nat): (r: (Result<int>, Store))
    requires Shaped(s)
    ensures Shaped(r.1) && r.1.Keys == s.Keys
  {
    if IsCoinBase(tx) then (Ok(0), s)
    else
      var (inputs, s') := CheckInputsFrom(p, s, tx, height, 0, 0);
      match inputs
      case Err(e) => (Err(e), s')
      case Ok(totalIn) => (FeeVerdict(p, s', tx, totalIn, SumOutputs(tx.outs)), s')
  }

  /** What the checks on one transaction decide on the store before it: with nothing wrong with any input it pays its
      fee, or is limited by its coin age; otherwise the result is the first input error. */
  ghost predicate DecidedByInputs(p: Params, s: Store, tx: Tx, height: nat, r: Result<int>)
    requires Shaped(s)
  {
    if forall k :: 0 <= k < |tx.ins| ==> InputOk(p.net, s, tx, height, k) then
      var paid := ValueIn(s, tx.ins) - SumOutputs(tx.outs);
      if tx.coinStake then
        match CoinAge(p, s, tx)
        case None => r == Err(ErrCoinAge)
        case Some(coinDays) =>
          r == if -paid > coinDays * 33 / 12_053 * 10_000 - tx.size / 1000 * 10_000 then Err(ErrBadCoinstakeValue)
               else Ok(if paid < 0 then 0 else paid)
      else
        r == if paid < 0 then Err(ErrSpendTooHigh)
             else if paid < (1 + tx.size / 1000) * 10_000 then Err(ErrInsufficientFee)
             else Ok(paid)
    else exists k :: 0 <= k < |tx.ins| && r.Err? && FirstError(p.net, s, tx, height, k, r.error)
  }

  lemma {:induction false} InputsDecide(p: Params, s: Store, tx: Tx, height: nat)
    requires Shaped(s) && !IsCoinBase(tx) && DistinctInputs(tx.ins)
    ensures DecidedByInputs(p, s, tx, height, CheckTx(p, s, tx, height).0)
  {
    hide CheckInputsFrom, InputOk, FirstError, Shaped, SumOutputs, CoinAge, DistinctInputs, SameOrigins;
    assert tx.ins[..0] == [];
    CheckedInputs(p, s, s, tx, height, 0, 0);
    var s' := CheckInputsFrom(p, s, tx, height, 0, 0).1;
    CheckKeepsOrigins(p, s, tx, height, 0, 0);
    AgeByOrigins(p, p, s', s, tx) by { SameChainSameTimes(p.main, s', tx); }
  }

  lemma SameChainSameTimes(main: seq<Block>, s: Store, tx: Tx)
    ensures SameTimes(main, main, s, tx)
  {
  }

  function CheckTxsFrom(p: Params, s: Store, txs: seq<Tx>, height: nat, t: nat, fees: int): (r: (Result<int>, Store))
    requires Shaped(s) && t <= |txs|
    ensures Shaped(r.1) && r.1.Keys == s.Keys
    decreases |txs| - t
  {
    if t == |txs| then (Ok(fees), s)
    else
      var (verdict, s') := CheckTx(p, s, txs[t], height);
      match verdict
      case Err(e) => (Err(e), s')
      case Ok(fee) =>
        if fees + fee < fees then (Err(ErrBadFees), s') else CheckTxsFrom(p, s', txs, height, t + 1, fees + fee)
  }

  // ---------------------------------------------------------------- whole blocks

  /** The part of the context-free sanity checks that later checks rely on: the first transaction, and no
      other, is a coinbase, no transaction hash occurs twice in the block, and coinstakes are in place. */
  predicate Sane(b: Block) {
    && |b.txs| > 0
    && IsCoinBase(b.txs[0])
    && (forall t :: 1 <= t < |b.txs| ==> !IsCoinBase(b.txs[t]))
    && (forall t :: 0 <= t < |b.txs| ==> SaneTx(b.txs[t]))
    && Distinct(b.txs)
    && StakeSane(b)
  }

  /** The part of CheckTransactionSanity that later checks rely on: inputs and outputs exist, no outpoint is named twice
      and only a coinbase names the null outpoint. */
  predicate SaneTx(tx: Tx) {
    && |tx.ins| > 0 && |tx.outs| > 0
    && DistinctInputs(tx.ins)
    && (IsCoinBase(tx) || forall k :: 0 <= k < |tx.ins| ==> !IsNullOutpoint(tx.ins[k].prev))
  }

  predicate DistinctInputs(ins: seq<TxIn>) {
    forall i, j :: 0 <= i < j < |ins| ==> ins[i].prev != ins[j].prev
  }

  // The checks of CheckTransactionSanity on inputs and outputs, amounts and sizes aside.
  method CheckTransactionSanity(tx: Tx) returns (ok: bool)
    ensures ok <==> SaneTx(tx)
  {
    if |tx.ins| == 0 || |tx.outs| == 0 {
      return false;
    }
    var existingTxOut: set<OutPoint> := {};
    for i := 0 to |tx.ins|
      invariant existingTxOut == set k | 0 <= k < i :: tx.ins[k].prev
      invariant DistinctInputs(tx.ins[..i])
    {
      var prev := tx.ins[i].prev;
      if prev in existingTxOut {
        return false;
      }
      existingTxOut := existingTxOut + {prev};
      assert tx.ins[..i + 1] == tx.ins[..i] + [tx.ins[i]];
    }
    assert tx.ins[..|tx.ins|] == tx.ins;
    if !IsCoinBase(tx) {
      for i := 0 to |tx.ins|
        invariant forall k :: 0 <= k < i ==> !IsNullOutpoint(tx.ins[k].prev)
      {
        if IsNullOutpoint(tx.ins[i].prev) {
          return false;
        }
      }
    }
    ok := true;
  }

  // The duplicate check of checkBlockSanity.
  method CheckDuplicates(txs: seq<Tx>) returns (ok: bool)
    ensures ok <==> Distinct(txs)
  {
    var existingTxHashes: set<Hash> := {};
    for t := 0 to |txs|
      invariant existingTxHashes == set k | 0 <= k < t :: txs[k].hash
      invariant Distinct(txs[..t])
    {
      if txs[t].hash in existingTxHashes {
        return false;
      }
      existingTxHashes := existingTxHashes + {txs[t].hash};
      assert txs[..t + 1] == txs[..t] + [txs[t]];
    }
    assert txs[..|txs|] == txs;
    ok := true;
  }

  /** The checks of checkBlockSanity and ppcCheckBlockSanity that the chain's guarantees rest on. */
  method CheckBlockSanity(b: Block) returns (ok: bool)
    ensures ok <==> Sane(b)
  {
    hide Distinct, SaneTx;
    if |b.txs| == 0 || !IsCoinBase(b.txs[0]) {
      return false;
    }
    for t := 1 to |b.txs|
      invariant forall u :: 1 <= u < t ==> !IsCoinBase(b.txs[u])
    {
      if IsCoinBase(b.txs[t]) {
        return false;
      }
    }
    for t := 0 to |b.txs|
      invariant forall u :: 0 <= u < t ==> SaneTx(b.txs[u])
    {
      ok := CheckTransactionSanity(b.txs[t]);
      if !ok {
        return;
      }
    }
    ok := CheckDuplicates(b.txs);
    if !ok || b.proofOfStake != (|b.txs| > 1 && b.txs[1].coinStake) {
      return false;
    }
    var i := 2;
    while i < |b.txs|
      invariant forall u :: 2 <= u < i && u < |b.txs| ==> !b.txs[u].coinStake
    {
      if b.txs[i].coinStake {
        return false;
      }
      i := i + 1;
    }
    return !b.proofOfStake || (|b.txs[0].outs| == 1 && b.txs[0].outs[0] == EMPTY_OUTPUT);
  }

  /** Only the second transaction may be a coinstake, it makes the block proof-of-stake, and then the coinbase
      has a single empty output. */
  predicate StakeSane(b: Block) {
    && (b.proofOfStake <==> |b.txs| > 1 && b.txs[1].coinStake)
    && (forall t :: 2 <= t < |b.txs| ==> !b.txs[t].coinStake)
    && (b.proofOfStake ==> |b.txs[0].outs| == 1 && b.txs[0].outs[0] == EMPTY_OUTPUT)
  }

  predicate Distinct(txs: seq<Tx>) {
    forall t, u :: 0 <= t < u < |txs| ==> txs[t].hash != txs[u].hash
  }

  function TxHashes(b: Block): set<Hash> {
    set tx | tx in b.txs :: tx.hash
  }

  predicate CreatedBefore(b: Block, t: nat, h: Hash)
    requires t <= |b.txs|
  {
    exists c :: 0 <= c < t && b.txs[c].hash == h
  }

  // The hashes named by the inputs of all transactions but the coinbase.
  function InputHashes(b: Block): set<Hash> {
    set t, k | 1 <= t < |b.txs| && 0 <= k < |b.txs[t].ins| :: b.txs[t].ins[k].prev.hash
  }

  // Those that some input names before (or without) an earlier transaction of the block creating them.
  function Needed(b: Block): set<Hash> {
    set t, k | 1 <= t < |b.txs| && 0 <= k < |b.txs[t].ins| && !CreatedBefore(b, t, b.txs[t].ins[k].prev.hash)
      :: b.txs[t].ins[k].prev.hash
  }

  // The block's own transaction with hash `h`, nothing spent.
  function InFlight(txs: seq<Tx>, h: Hash, height: nat): (e: TxData)
    ensures WellShaped(e)
  {
    if txs == [] then Missing
    else if txs[|txs| - 1].hash == h then Fresh(txs[|txs| - 1], height)
    else InFlight(txs[..|txs| - 1], h, height)
  }

  /** The store fetchInputTransactions builds: needed transactions come from the view, the others are
      transactions of the block itself with nothing spent. */
  function Merged(b: Block, height: nat, view: Store): (s: Store)
    requires view.Keys == Needed(b)
  {
    map h | h in InputHashes(b) :: if h in view then view[h] else InFlight(b.txs, h, height)
  }

  lemma MergedShaped(b: Block, height: nat, view: Store)
    requires view.Keys == Needed(b) && Shaped(view)
    ensures Shaped(Merged(b, height, view))
  {}

  predicate Overwrites(found: Store) {
    exists h :: h in found && !FullySpent(found[h])
  }

  // The script check of one input against the store; null outpoints are skipped.
  predicate ScriptPasses(p: Params, s: Store, tx: Tx, k: nat)
    requires k < |tx.ins|
  {
    var h, index := tx.ins[k].prev.hash, tx.ins[k].prev.index;
    index != NULL_INDEX ==>
      h in s && s[h].Present? && index < |s[h].tx.outs| && p.net.scriptOk(tx, k, s[h].tx.outs[index])
  }

  predicate ScriptsPass(p: Params, s: Store, b: Block) {
    forall t, k :: 0 <= t < |b.txs| && 0 <= k < |b.txs[t].ins| ==> ScriptPasses(p, s, b.txs[t], k)
  }

  // ---------------------------------------------------------------- signature operations

  function SumSigOps(count: nat -> nat, scripts: seq<nat>): nat {
    if scripts == [] then 0 else SumSigOps(count, scripts[..|scripts| - 1]) + count(scripts[|scripts| - 1])
  }

  function InScripts(ins: seq<TxIn>): (scripts: seq<nat>)
    ensures |scripts| == |ins| && forall i :: 0 <= i < |ins| ==> scripts[i] == ins[i].sigScript
  {
    seq(|ins|, i requires 0 <= i < |ins| => ins[i].sigScript)
  }

  function OutScripts(outs: seq<TxOut>): (scripts: seq<nat>)
    ensures |scripts| == |outs| && forall i :: 0 <= i < |outs| ==> scripts[i] == outs[i].pkScript
  {
    seq(|outs|, i requires 0 <= i < |outs| => outs[i].pkScript)
  }

  // The signature operations in all scripts of a transaction.
  function SigOps(net: Network, tx: Tx): nat {
    SumSigOps(net.sigOps, InScripts(tx.ins)) + SumSigOps(net.sigOps, OutScripts(tx.outs))
  }

  // The precise count for inputs that spend pay-to-script-hash outputs, from input `k` on.
  function HashSigOps(net: Network, s: Store, tx: Tx, k: nat, total: nat): Result<nat>
    requires k <= |tx.ins|
    decreases |tx.ins| - k
  {
    if k == |tx.ins| then Ok(total)
    else
      var h, index := tx.ins[k].prev.hash, tx.ins[k].prev.index;
      if h !in s || s[h].Missing? then Err(ErrMissingTx)
      else if index >= |s[h].tx.outs| then Err(ErrBadTxInput)
      else
        var pkScript := s[h].tx.outs[index].pkScript;
        var count := if net.isPayToScriptHash(pkScript) then net.preciseSigOps(tx.ins[k].sigScript, pkScript) else 0;
        HashSigOps(net, s, tx, k + 1, total + count)
  }

  // All signature operations of transaction `t`; those of script hashes count once their rule is active.
  function TxSigOps(net: Network, s: Store, b: Block, t: nat): Result<nat>
    requires t < |b.txs|
  {
    var own := SigOps(net, b.txs[t]);
    if b.timestamp <= net.bip16Activation || t == 0 then Ok(own)
    else
      match HashSigOps(net, s, b.txs[t], 0, 0)
      case Err(e) => Err(e)
      case Ok(count) => Ok(own + count)
  }

  // The count over the block from transaction `t` on, or the first error.
  function BlockSigOps(net: Network, s: Store, b: Block, t: nat, total: nat): Result<nat>
    requires t <= |b.txs|
    decreases |b.txs| - t
  {
    if t == |b.txs| then Ok(total)
    else
      match TxSigOps(net, s, b, t)
      case Err(e) => Err(e)
      case Ok(count) =>
        if total + count > net.maxSigOps then Err(ErrTooManySigOps) else BlockSigOps(net, s, b, t + 1, total + count)
  }

  /** checkConnectBlock as a function of the two views it fetches: `found` for the hashes of the block's own
      transactions and `view` for the inputs it needs.  A success carries the total fees. */
  function CheckBlock(p: Params, b: Block, height: nat, found: Store, view: Store): Result<int>
    requires |b.txs| > 0 && view.Keys == Needed(b) && Shaped(view)
  {
    MergedShaped(b, height, view);
    if Overwrites(found) then Err(ErrOverwriteTx)
    else
      var sigOps := BlockSigOps(p.net, Merged(b, height, view), b, 0, 0);
      var (verdict, s) := CheckTxsFrom(p, Merged(b, height, view), b.txs, height, 0, 0);
      if sigOps.Err? then Err(sigOps.error)
      else if verdict.Err? then verdict
      else if !b.proofOfStake && SumOutputs(b.txs[0].outs) > p.net.powReward(b.bits) then Err(ErrBadCoinbaseValue)
      else if p.net.runScripts(height) && !ScriptsPass(p, s, b) then Err(ErrScript)
      else verdict
  }

  function Replays(chain: seq<Block>, hashes: set<Hash>): (s: Store)
    ensures s.Keys == hashes && Shaped(s)
  {
    (assert forall h :: WellShaped(Replay(chain, h)) by {
       forall h ensures WellShaped(Replay(chain, h)) { ReplayPresent(chain, h); }
     }
     map h | h in hashes :: Replay(chain, h))
  }

  /** Whether a block may follow a chain: the checks evaluated on the replay of the chain itself.  This is
      the reference that checkConnectBlock, which looks through the current main chain, is compared with. */
  predicate ConnectOk(p: Params, chain: seq<Block>, b: Block) {
    |b.txs| > 0 && CheckBlock(p, b, |chain|, Replays(chain, TxHashes(b)), Replays(chain, Needed(b))).Ok?
  }

  // ---------------------------------------------------------------- fully spent or missing is the same

  /** What the database returns when fully spent transactions are not asked for. */
  function DropSpent(s: Store): (d: Store)
    ensures d.Keys == s.Keys && (Shaped(s) ==> Shaped(d))
  {
    map h | h in s :: if FullySpent(s[h]) then Missing else s[h]
  }

  // `d` is `s`, except that some fully spent transactions may appear as missing.
  ghost predicate Similar(d: Store, s: Store) {
    d.Keys == s.Keys && forall h :: h in s ==> d[h] == s[h] || (d[h].Missing? && FullySpent(s[h]))
  }

  lemma SimilarSpend(p: Params, d: Store, s: Store, tx: Tx, height: nat, txIn: TxIn, total: int)
    requires Shaped(d) && Shaped(s) && Similar(d, s)
    ensures InputError(p, d, tx, height, txIn, total).None? <==> InputError(p, s, tx, height, txIn, total).None?
    ensures InputError(p, s, tx, height, txIn, total).None? ==>
              Similar(Spend(d, txIn), Spend(s, txIn)) && OriginValue(d, txIn) == OriginValue(s, txIn)
  {
  }

  lemma {:induction false} SimilarInputs(p: Params, d: Store, s: Store, tx: Tx, height: nat, k: nat, total: int)
    requires Shaped(d) && Shaped(s) && Similar(d, s) && k <= |tx.ins|
    ensures var (rd, d') := CheckInputsFrom(p, d, tx, height, k, total);
            var (rs, s') := CheckInputsFrom(p, s, tx, height, k, total);
            (rd.Ok? <==> rs.Ok?) && (rs.Ok? ==> rd == rs && Similar(d', s'))
    decreases |tx.ins| - k
  {
    hide InputError, Spend, OriginValue, Similar, Shaped;
    if k < |tx.ins| {
      SimilarSpend(p, d, s, tx, height, tx.ins[k], total);
      if InputError(p, s, tx, height, tx.ins[k], total).None? {
        SpendShaped(d, tx.ins[k]);
        SpendShaped(s, tx.ins[k]);
        SimilarInputs(p, Spend(d, tx.ins[k]), Spend(s, tx.ins[k]), tx, height, k + 1,
                      total + OriginValue(s, tx.ins[k]));
      }
    }
  }

  lemma {:induction false} SimilarTxs(p: Params, d: Store, s: Store, txs: seq<Tx>, height: nat, t: nat, fees: int)
    requires Shaped(d) && Shaped(s) && Similar(d, s) && t <= |txs|
    ensures var (rd, d') := CheckTxsFrom(p, d, txs, height, t, fees);
            var (rs, s') := CheckTxsFrom(p, s, txs, height, t, fees);
            (rd.Ok? <==> rs.Ok?) && (rs.Ok? ==> rd == rs && Similar(d', s'))
    decreases |txs| - t
  {
    hide Similar, Shaped, CheckTx;
    if t < |txs| {
      SimilarTx(p, d, s, txs[t], height);
      var (rd, d') := CheckTx(p, d, txs[t], height);
      var (rs, s') := CheckTx(p, s, txs[t], height);
      if rs.Ok? {
        SimilarTxs(p, d', s', txs, height, t + 1, fees + rs.value);
      }
    }
  }

  // For a checked transaction it makes no difference that fully spent ones are missing.
  lemma {:induction false} SimilarTx(p: Params, d: Store, s: Store, tx: Tx, height: nat)
    requires Shaped(d) && Shaped(s) && Similar(d, s)
    ensures var (rd, d') := CheckTx(p, d, tx, height);
            var (rs, s') := CheckTx(p, s, tx, height);
            (rd.Ok? <==> rs.Ok?) && (rs.Ok? ==> rd == rs && Similar(d', s'))
  {
    hide Similar, Shaped, CheckInputsFrom, CoinAge, ProofOfStakeReward;
    SimilarInputs(p, d, s, tx, height, 0, 0);
    var (inputs, d') := CheckInputsFrom(p, d, tx, height, 0, 0);
    if !IsCoinBase(tx) && inputs.Ok? {
      InputsPresent(p, d, tx, height, 0, 0);
      SimilarAge(p, d', CheckInputsFrom(p, s, tx, height, 0, 0).1, tx);
    }
  }

  lemma {:induction false} SimilarAge(p: Params, d: Store, s: Store, tx: Tx)
    requires Shaped(d) && Shaped(s) && Similar(d, s)
    requires forall i :: 0 <= i < |tx.ins| ==> tx.ins[i].prev.hash in d && d[tx.ins[i].prev.hash].Present?
    ensures CoinAge(p, d, tx) == CoinAge(p, s, tx)
  {
    hide CentSeconds;
    SimilarCentSeconds(p, d, s, tx, 0, 0);
  }

  lemma {:induction false} SimilarCentSeconds(p: Params, d: Store, s: Store, tx: Tx, k: nat, total: int)
    requires Shaped(d) && Shaped(s) && Similar(d, s) && k <= |tx.ins|
    requires forall i :: 0 <= i < |tx.ins| ==> tx.ins[i].prev.hash in d && d[tx.ins[i].prev.hash].Present?
    ensures CentSeconds(p, d, tx, k, total) == CentSeconds(p, s, tx, k, total)
    decreases |tx.ins| - k
  {
    hide BlockTime;
    if k < |tx.ins| {
      var age := OriginAge(p, d, tx, tx.ins[k]);
      assert OriginAge(p, s, tx, tx.ins[k]) == age;
      if age.Some? {
        SimilarCentSeconds(p, d, s, tx, k + 1, total + age.value);
      }
    }
  }

  lemma {:induction false} SimilarHashSigOps(net: Network, d: Store, s: Store, tx: Tx, k: nat, total: nat)
    requires Similar(d, s) && k <= |tx.ins|
    requires forall i :: 0 <= i < |tx.ins| ==> tx.ins[i].prev.hash in d && d[tx.ins[i].prev.hash].Present?
    ensures HashSigOps(net, d, tx, k, total) == HashSigOps(net, s, tx, k, total)
    decreases |tx.ins| - k
  {
    if k < |tx.ins| {
      var h, index := tx.ins[k].prev.hash, tx.ins[k].prev.index;
      assert d[h] == s[h];
      if index < |s[h].tx.outs| {
        var pkScript := s[h].tx.outs[index].pkScript;
        var count := if net.isPayToScriptHash(pkScript) then net.preciseSigOps(tx.ins[k].sigScript, pkScript) else 0;
        SimilarHashSigOps(net, d, s, tx, k + 1, total + count);
      }
    }
  }

  // Nor for the signature operations of a block whose inputs are all accepted.
  lemma {:induction false} SimilarSigOps(net: Network, d: Store, s: Store, b: Block, t: nat, total: nat)
    requires Similar(d, s) && t <= |b.txs|
    requires forall u, i :: 1 <= u < |b.txs| && 0 <= i < |b.txs[u].ins| ==>
               b.txs[u].ins[i].prev.hash in d && d[b.txs[u].ins[i].prev.hash].Present?
    ensures BlockSigOps(net, d, b, t, total) == BlockSigOps(net, s, b, t, total)
    decreases |b.txs| - t
  {
    hide HashSigOps, SigOps, Similar;
    if t < |b.txs| {
      if t > 0 {
        SimilarHashSigOps(net, d, s, b.txs[t], 0, 0);
      }
      var count := TxSigOps(net, s, b, t);
      if count.Ok? && total + count.value <= net.maxSigOps {
        SimilarSigOps(net, d, s, b, t + 1, total + count.value);
      }
    }
  }

  // An input whose transaction the store does not know is never accepted.
  lemma {:induction false} AcceptedInputsKnown(p: Params, s: Store, tx: Tx, height: nat, k: nat, total: int)
    requires Shaped(s) && k <= |tx.ins|
    requires CheckInputsFrom(p, s, tx, height, k, total).0.Ok?
    ensures forall i :: k <= i < |tx.ins| ==> tx.ins[i].prev.hash in s && s[tx.ins[i].prev.hash].Present?
    decreases |tx.ins| - k
  {
    if k < |tx.ins| {
      SpendShaped(s, tx.ins[k]);
      AcceptedInputsKnown(p, Spend(s, tx.ins[k]), tx, height, k + 1, total + OriginValue(s, tx.ins[k]));
    }
  }

  lemma {:induction false} AcceptedTxsKnown(p: Params, s: Store, txs: seq<Tx>, height: nat, t: nat, fees: int)
    requires Shaped(s) && t <= |txs| && CheckTxsFrom(p, s, txs, height, t, fees).0.Ok?
    ensures forall u, k :: t <= u < |txs| && !IsCoinBase(txs[u]) && 0 <= k < |txs[u].ins| ==>
              txs[u].ins[k].prev.hash in s && s[txs[u].ins[k].prev.hash].Present?
    decreases |txs| - t
  {
    hide Shaped, CheckInputsFrom, FeeVerdict;
    if t < |txs| {
      var (r, s') := CheckTx(p, s, txs[t], height);
      AcceptedTxsKnown(p, s', txs, height, t + 1, fees + r.value);
      if !IsCoinBase(txs[t]) {
        AcceptedInputsKnown(p, s, txs[t], height, 0, 0);
        CheckKeepsOrigins(p, s, txs[t], height, 0, 0);
      }
    }
  }

  // Every transaction an accepted input names is present, and stays so.
  lemma {:induction false} InputsPresent(p: Params, s: Store, tx: Tx, height: nat, k: nat, total: int)
    requires Shaped(s) && k <= |tx.ins|
    ensures var (r, s') := CheckInputsFrom(p, s, tx, height, k, total);
      && (forall h :: h in s && s[h].Present? ==> s'[h].Present?)
      && (r.Ok? ==> forall i :: k <= i < |tx.ins| ==> tx.ins[i].prev.hash in s' && s'[tx.ins[i].prev.hash].Present?)
    decreases |tx.ins| - k
  {
    if k < |tx.ins| && InputError(p, s, tx, height, tx.ins[k], total).None? {
      SpendShaped(s, tx.ins[k]);
      InputsPresent(p, Spend(s, tx.ins[k]), tx, height, k + 1, total + OriginValue(s, tx.ins[k]));
    }
  }

  lemma {:induction false} TxsPresent(p: Params, s: Store, txs: seq<Tx>, height: nat, t: nat, fees: int)
    requires Shaped(s) && t <= |txs|
    ensures var (r, s') := CheckTxsFrom(p, s, txs, height, t, fees);
      && (forall h :: h in s && s[h].Present? ==> s'[h].Present?)
      && (r.Ok? ==> forall u, i :: t <= u < |txs| && !IsCoinBase(txs[u]) && 0 <= i < |txs[u].ins| ==>
                      txs[u].ins[i].prev.hash in s' && s'[txs[u].ins[i].prev.hash].Present?)
    decreases |txs| - t
  {
    hide Shaped, CheckInputsFrom, FeeVerdict;
    if t < |txs| {
      InputsPresent(p, s, txs[t], height, 0, 0);
      var (r, s') := CheckTx(p, s, txs[t], height);
      if r.Ok? {
        TxsPresent(p, s', txs, height, t + 1, fees + r.value);
      }
    }
  }

  // The errors that no check on a single transaction reports.
  predicate IsBlockError(e: RuleError) {
    e == ErrOverwriteTx || e == ErrBadCoinbaseValue || e == ErrScript
  }

  lemma {:induction false} InputsKeepToTheirErrors(p: Params, s: Store, tx: Tx, height: nat, k: nat, total: int)
    requires Shaped(s) && k <= |tx.ins|
    ensures var r := CheckInputsFrom(p, s, tx, height, k, total).0; r.Err? ==> !IsBlockError(r.error)
    decreases |tx.ins| - k
  {
    if k < |tx.ins| && InputError(p, s, tx, height, tx.ins[k], total).None? {
      SpendShaped(s, tx.ins[k]);
      InputsKeepToTheirErrors(p, Spend(s, tx.ins[k]), tx, height, k + 1, total + OriginValue(s, tx.ins[k]));
    }
  }

  lemma {:induction false} TxsKeepToTheirErrors(p: Params, s: Store, txs: seq<Tx>, height: nat, t: nat, fees: int)
    requires Shaped(s) && t <= |txs|
    ensures var r := CheckTxsFrom(p, s, txs, height, t, fees).0; r.Err? ==> !IsBlockError(r.error)
    decreases |txs| - t
  {
    hide CheckInputsFrom, CoinAge, ProofOfStakeReward, SumOutputs, Shaped;
    if t < |txs| {
      InputsKeepToTheirErrors(p, s, txs[t], height, 0, 0);
      var (verdict, s') := CheckTx(p, s, txs[t], height);
      if verdict.Ok? {
        TxsKeepToTheirErrors(p, s', txs, height, t + 1, fees + verdict.value);
      }
    }
  }

  lemma {:induction false} HashSigOpsErrors(net: Network, s: Store, tx: Tx, k: nat, total: nat)
    requires k <= |tx.ins|
    ensures var r := HashSigOps(net, s, tx, k, total); r.Err? ==> !IsBlockError(r.error)
    decreases |tx.ins| - k
  {
    if k < |tx.ins| {
      var h, index := tx.ins[k].prev.hash, tx.ins[k].prev.index;
      if h in s && s[h].Present? && index < |s[h].tx.outs| {
        var pkScript := s[h].tx.outs[index].pkScript;
        var count := if net.isPayToScriptHash(pkScript) then net.preciseSigOps(tx.ins[k].sigScript, pkScript) else 0;
        HashSigOpsErrors(net, s, tx, k + 1, total + count);
      }
    }
  }

  lemma {:induction false} SigOpsKeepToTheirErrors(net: Network, s: Store, b: Block, t: nat, total: nat)
    requires t <= |b.txs|
    ensures var r := BlockSigOps(net, s, b, t, total); r.Err? ==> !IsBlockError(r.error)
    decreases |b.txs| - t
  {
    hide HashSigOps, SigOps;
    if t < |b.txs| {
      HashSigOpsErrors(net, s, b.txs[t], 0, 0);
      var count := TxSigOps(net, s, b, t);
      if count.Ok? && total + count.value <= net.maxSigOps {
        SigOpsKeepToTheirErrors(net, s, b, t + 1, total + count.value);
      }
    }
  }

  // The errors of a whole block: each is reported exactly when its own check fails and those before it pass.
  lemma {:induction false} BlockErrors(p: Params, b: Block, height: nat, found: Store, view: Store)
    requires |b.txs| > 0 && view.Keys == Needed(b) && Shaped(view)
    ensures Shaped(Merged(b, height, view))
    ensures var r, store := CheckBlock(p, b, height, found, view), Merged(b, height, view);
            var (verdict, s') := CheckTxsFrom(p, store, b.txs, height, 0, 0);
            var counted := !Overwrites(found) && BlockSigOps(p.net, store, b, 0, 0).Ok? && verdict.Ok?;
            var paid := b.proofOfStake || SumOutputs(b.txs[0].outs) <= p.net.powReward(b.bits);
            && (r == Err(ErrOverwriteTx) <==> Overwrites(found))
            && (r == Err(ErrBadCoinbaseValue) <==> counted && !paid)
            && (r == Err(ErrScript) <==> counted && paid && p.net.runScripts(height) && !ScriptsPass(p, s', b))
  {
    hide Merged, Shaped, CheckTxsFrom, BlockSigOps, ScriptsPass, Overwrites, SumOutputs, Needed;
    MergedShaped(b, height, view);
    TxsKeepToTheirErrors(p, Merged(b, height, view), b.txs, height, 0, 0);
    SigOpsKeepToTheirErrors(p.net, Merged(b, height, view), b, 0, 0);
  }

  /** Leaving fully spent transactions out of the fetched views, as is done when a block extends the main
      chain, changes neither acceptance nor the fees, nor the errors that concern the block as a whole. */
  lemma DropSpentKeepsVerdict(p: Params, b: Block, height: nat, found: Store, view: Store)
    requires Sane(b) && view.Keys == Needed(b) && Shaped(view)
    ensures var full := CheckBlock(p, b, height, found, view);
            var dropped := CheckBlock(p, b, height, DropSpent(found), DropSpent(view));
            && (full.Ok? <==> dropped.Ok?) && (full.Ok? ==> full == dropped)
            && forall e :: IsBlockError(e) ==> (full == Err(e) <==> dropped == Err(e))
  {
    hide Overwrites, DropSpent, Merged, CheckTxsFrom, ScriptsPass, InFlight, Shaped, Needed, BlockSigOps, Similar;
    hide SumOutputs;
    DropSpentOverwrites(found);
    DropSpentShaped(view);
    BlockErrors(p, b, height, found, view);
    BlockErrors(p, b, height, DropSpent(found), DropSpent(view));
    MergedSimilar(b, height, view);
    var s, d := Merged(b, height, view), Merged(b, height, DropSpent(view));
    SimilarTxs(p, d, s, b.txs, height, 0, 0);
    var (rs, s') := CheckTxsFrom(p, s, b.txs, height, 0, 0);
    if rs.Ok? {
      AcceptedTxsKnown(p, d, b.txs, height, 0, 0);
      SimilarSigOps(p.net, d, s, b, 0, 0);
      SimilarScripts(p, b, height, d, s);
    }
  }

  lemma DropSpentShaped(s: Store)
    requires Shaped(s)
    ensures Shaped(DropSpent(s)) && DropSpent(s).Keys == s.Keys
  {}

  lemma MergedSimilar(b: Block, height: nat, view: Store)
    requires view.Keys == Needed(b) && Shaped(view)
    ensures Similar(Merged(b, height, DropSpent(view)), Merged(b, height, view))
  {}

  lemma DropSpentOverwrites(found: Store)
    ensures Overwrites(found) <==> Overwrites(DropSpent(found))
  {
    if Overwrites(found) {
      var h :| h in found && !FullySpent(found[h]);
      assert h in DropSpent(found) && !FullySpent(DropSpent(found)[h]);
    }
  }

  lemma SimilarScripts(p: Params, b: Block, height: nat, d: Store, s: Store)
    requires Sane(b) && Shaped(d) && Shaped(s) && Similar(d, s)
    requires CheckTxsFrom(p, s, b.txs, height, 0, 0).0.Ok?
    ensures ScriptsPass(p, CheckTxsFrom(p, d, b.txs, height, 0, 0).1, b)
       <==> ScriptsPass(p, CheckTxsFrom(p, s, b.txs, height, 0, 0).1, b)
  {
    hide CheckTxsFrom, Shaped;
    SimilarTxs(p, d, s, b.txs, height, 0, 0);
    TxsPresent(p, d, b.txs, height, 0, 0);
    var s' := CheckTxsFrom(p, s, b.txs, height, 0, 0).1;
    var d' := CheckTxsFrom(p, d, b.txs, height, 0, 0).1;
    forall t, k | 0 <= t < |b.txs| && 0 <= k < |b.txs[t].ins|
      ensures ScriptPasses(p, s', b.txs[t], k) <==> ScriptPasses(p, d', b.txs[t], k)
    {
      if t > 0 {
        assert d'[b.txs[t].ins[k].prev.hash] == s'[b.txs[t].ins[k].prev.hash];
      }
    }
  }

  // ---------------------------------------------------------------- the checks on a store, in place

  method SumOfOutputs(outs: seq<TxOut>) returns (sum: int)
    ensures sum == SumOutputs(outs)
  {
    sum := 0;
    for i := 0 to |outs|
      invariant sum == SumOutputs(outs[..i])
    {
      assert outs[..i + 1][..i] == outs[..i];
      sum := sum + outs[i].value;
    }
    assert outs[..|outs|] == outs;
  }

  /** CheckTransactionInputs: checks one transaction against the store, marks what it spends and returns its
      fee, exactly as the function CheckTx says, also when it stops at an error.  The verdict is the one the inputs
      decide on the store before the call. */
  method CheckTransactionInputs(p: Params, tx: Tx, height: nat, store: TxStore) returns (r: Result<int>)
    requires Shaped(store.entries)
    modifies store
    ensures (r, store.entries) == CheckTx(p, old(store.entries), tx, height)
    ensures Shaped(store.entries)
    ensures !IsCoinBase(tx) && DistinctInputs(tx.ins) ==> DecidedByInputs(p, old(store.entries), tx, height, r)
  {
    hide DistinctInputs, DecidedByInputs;
    if !IsCoinBase(tx) && DistinctInputs(tx.ins) {
      InputsDecide(p, store.entries, tx, height);
    }
    if IsCoinBase(tx) {
      return Ok(0);
    }
    var totalIn := 0;
    ghost var k := 0;
    for i := 0 to |tx.ins|
      invariant Shaped(store.entries)
      invariant CheckInputsFrom(p, store.entries, tx, height, i, totalIn)
             == CheckInputsFrom(p, old(store.entries), tx, height, 0, 0)
    {
      var error := InputError(p, store.entries, tx, height, tx.ins[i], totalIn);
      if error.Some? {
        return Err(error.value);
      }
      totalIn := totalIn + OriginValue(store.entries, tx.ins[i]);
      SpendShaped(store.entries, tx.ins[i]);
      store.entries := Spend(store.entries, tx.ins[i]);
    }
    var totalOut := SumOfOutputs(tx.outs);
    r := CheckFeeOrReward(p, tx, store, totalIn, totalOut);
  }

  // The end of CheckTransactionInputs with ppcCheckTransactionInputs: the fee, or the limit on a stake reward.
  method CheckFeeOrReward(p: Params, tx: Tx, store: TxStore, totalIn: int, totalOut: int) returns (r: Result<int>)
    requires Shaped(store.entries)
    ensures r == FeeVerdict(p, store.entries, tx, totalIn, totalOut)
  {
    hide CoinAge, ProofOfStakeReward, Shaped;
    if !tx.coinStake && totalIn < totalOut {
      return Err(ErrSpendTooHigh);
    }
    var txFee := totalIn - totalOut;
    if tx.coinStake {
      var age := GetCoinAgeTx(p, tx, store);
      if age.None? {
        return Err(ErrCoinAge);
      }
      if totalOut - totalIn > ProofOfStakeReward(age.value) - MinFee(tx) + MIN_TX_FEE {
        return Err(ErrBadCoinstakeValue);
      }
      return Ok(if txFee < 0 then 0 else txFee);
    }
    return if txFee < MinFee(tx) then Err(ErrInsufficientFee) else Ok(txFee);
  }

  // CountSigOps: the loops over the scripts of a transaction.
  method CountSigOps(net: Network, tx: Tx) returns (total: nat)
    ensures total == SigOps(net, tx)
  {
    total := 0;
    var ins, outs := InScripts(tx.ins), OutScripts(tx.outs);
    for i := 0 to |tx.ins|
      invariant total == SumSigOps(net.sigOps, ins[..i])
    {
      assert ins[..i + 1][..i] == ins[..i];
      total := total + net.sigOps(tx.ins[i].sigScript);
    }
    assert ins[..|tx.ins|] == ins && outs[..0] == [];
    for i := 0 to |tx.outs|
      invariant total == SumSigOps(net.sigOps, ins) + SumSigOps(net.sigOps, outs[..i])
    {
      assert outs[..i + 1][..i] == outs[..i];
      total := total + net.sigOps(tx.outs[i].pkScript);
    }
    assert outs[..|tx.outs|] == outs;
  }

  // CountP2SHSigOps for a transaction that is no coinbase.
  method CountP2SHSigOps(net: Network, tx: Tx, store: TxStore) returns (r: Result<nat>)
    ensures r == HashSigOps(net, store.entries, tx, 0, 0)
  {
    var total: nat := 0;
    for k := 0 to |tx.ins|
      invariant HashSigOps(net, store.entries, tx, k, total) == HashSigOps(net, store.entries, tx, 0, 0)
    {
      var h, index := tx.ins[k].prev.hash, tx.ins[k].prev.index;
      if h !in store.entries || store.entries[h].Missing? {
        return Err(ErrMissingTx);
      }
      var outs := store.entries[h].tx.outs;
      if index >= |outs| {
        return Err(ErrBadTxInput);
      }
      if !net.isPayToScriptHash(outs[index].pkScript) {
        continue;
      }
      total := total + net.preciseSigOps(tx.ins[k].sigScript, outs[index].pkScript);
    }
    return Ok(total);
  }

  // The loop of checkConnectBlock that counts signature operations.
  method CheckSigOps(net: Network, b: Block, store: TxStore) returns (r: Result<nat>)
    ensures r == BlockSigOps(net, store.entries, b, 0, 0)
  {
    hide SigOps, HashSigOps;
    var enforceBIP0016 := b.timestamp > net.bip16Activation;
    var totalSigOps: nat := 0;
    for t := 0 to |b.txs|
      invariant BlockSigOps(net, store.entries, b, t, totalSigOps) == BlockSigOps(net, store.entries, b, 0, 0)
    {
      var numSigOps := CountSigOps(net, b.txs[t]);
      if enforceBIP0016 && t != 0 {
        var numP2SHSigOps := CountP2SHSigOps(net, b.txs[t], store);
        if numP2SHSigOps.Err? {
          return numP2SHSigOps;
        }
        numSigOps := numSigOps + numP2SHSigOps.value;
      }
      totalSigOps := totalSigOps + numSigOps;
      if totalSigOps > net.maxSigOps {
        return Err(ErrTooManySigOps);
      }
    }
    return Ok(totalSigOps);
  }

  // The loop of checkConnectBlock over all transactions.
  method CheckAllInputs(p: Params, b: Block, height: nat, store: TxStore) returns (r: Result<int>)
    requires Shaped(store.entries)
    modifies store
    ensures (r, store.entries) == CheckTxsFrom(p, old(store.entries), b.txs, height, 0, 0)
  {
    hide CheckTx, Shaped;
    var totalFees := 0;
    for t := 0 to |b.txs|
      invariant Shaped(store.entries)
      invariant CheckTxsFrom(p, store.entries, b.txs, height, t, totalFees)
             == CheckTxsFrom(p, old(store.entries), b.txs, height, 0, 0)
    {
      var fee := CheckTransactionInputs(p, b.txs[t], height, store);
      if fee.Err? {
        return fee;
      }
      var lastTotalFees := totalFees;
      totalFees := totalFees + fee.value;
      if totalFees < lastTotalFees {
        return Err(ErrBadFees);
      }
    }
    return Ok(totalFees);
  }

  // checkBIP0030 once the records of the block's own transaction hashes are fetched.
  method CheckOverwrites(found: TxStore) returns (overwrites: bool)
    ensures overwrites == Overwrites(found.entries)
  {
    var rest := found.entries.Keys;
    while rest != {}
      invariant rest <= found.entries.Keys
      invariant forall h :: h in found.entries && h !in rest ==> FullySpent(found.entries[h])
    {
      var h :| h in rest;
      if !FullySpent(found.entries[h]) {
        return true;
      }
      rest := rest - {h};
    }
    return false;
  }

  // ---------------------------------------------------------------- collecting the inputs of a block

  lemma {:induction false} InFlightIs(txs: seq<Tx>, c: nat, height: nat)
    requires c < |txs| && Distinct(txs)
    ensures InFlight(txs, txs[c].hash, height) == Fresh(txs[c], height)
  {
    if c < |txs| - 1 {
      InFlightIs(txs[..|txs| - 1], c, height);
    }
  }

  method IndexInFlight(txs: seq<Tx>) returns (inFlight: map<Hash, nat>)
    requires Distinct(txs)
    ensures forall c :: 0 <= c < |txs| ==> txs[c].hash in inFlight && inFlight[txs[c].hash] == c
    ensures forall h :: h in inFlight ==> inFlight[h] < |txs| && txs[inFlight[h]].hash == h
  {
    inFlight := map[];
    for c := 0 to |txs|
      invariant forall d :: 0 <= d < c ==> txs[d].hash in inFlight && inFlight[txs[d].hash] == d
      invariant forall h :: h in inFlight ==> inFlight[h] < c && txs[inFlight[h]].hash == h
    {
      inFlight := inFlight[txs[c].hash := c];
    }
  }

  function InputHashesOf(ins: seq<TxIn>): set<Hash> {
    set k | 0 <= k < |ins| :: ins[k].prev.hash
  }

  // What one transaction adds to the set of hashes to look up.
  function NeededBy(b: Block, t: nat): set<Hash>
    requires t < |b.txs|
  {
    NotCreated(b, t, InputHashesOf(b.txs[t].ins))
  }

  // Those hashes that no transaction before number `t` creates.
  function NotCreated(b: Block, t: nat, hashes: set<Hash>): set<Hash>
    requires t <= |b.txs|
  {
    set h | h in hashes && !CreatedBefore(b, t, h)
  }

  ghost predicate Partial(b: Block, height: nat, needed: set<Hash>, entries: Store) {
    && needed <= entries.Keys
    && forall h :: h in entries && h !in needed ==> entries[h] == InFlight(b.txs, h, height)
  }

  // The inner loop of fetchInputTransactions, for transaction `i + 1`.
  method CollectTx(b: Block, height: nat, i: nat, inFlight: map<Hash, nat>, needed: set<Hash>, entries: Store)
    returns (needed': set<Hash>, entries': Store)
    requires i + 1 < |b.txs| && Distinct(b.txs) && Partial(b, height, needed, entries)
    requires forall c :: 0 <= c < |b.txs| ==> b.txs[c].hash in inFlight && inFlight[b.txs[c].hash] == c
    requires forall h :: h in inFlight ==> inFlight[h] < |b.txs| && b.txs[inFlight[h]].hash == h
    ensures Partial(b, height, needed', entries')
    ensures entries'.Keys == entries.Keys + InputHashesOf(b.txs[i + 1].ins)
    ensures needed' == needed + NeededBy(b, i + 1)
  {
    hide InputHashesOf, NotCreated, CreatedBefore, InFlight, Distinct, Partial;
    var ins := b.txs[i + 1].ins;
    NoneCollected(b, i + 1);
    needed', entries' := needed, entries;
    for k := 0 to |ins|
      invariant Partial(b, height, needed', entries')
      invariant entries'.Keys == entries.Keys + InputHashesOf(ins[..k])
      invariant needed' == needed + NotCreated(b, i + 1, InputHashesOf(ins[..k]))
    {
      var origin := ins[k].prev.hash;
      InputHashesSnoc(ins, k);
      OneMore(b, i + 1, InputHashesOf(ins[..k]), origin);
      IndexedBefore(b, i, inFlight, origin);
      if origin in inFlight && i >= inFlight[origin] {
        InFlightIs(b.txs, inFlight[origin], height);
        AddOwn(b, height, needed', entries', origin);
        entries' := entries'[origin := Fresh(b.txs[inFlight[origin]], height)];
      } else {
        AddNeeded(b, height, needed', entries', origin);
        entries' := entries'[origin := Missing];
        needed' := needed' + {origin};
      }
    }
    assert ins[..|ins|] == ins;
  }

  lemma NoneCollected(b: Block, t: nat)
    requires t <= |b.txs|
    ensures InputHashesOf([]) == {} && NotCreated(b, t, {}) == {}
  {
  }

  lemma OneMore(b: Block, t: nat, hashes: set<Hash>, h: Hash)
    requires t <= |b.txs|
    ensures NotCreated(b, t, hashes + {h}) == NotCreated(b, t, hashes) + if CreatedBefore(b, t, h) then {} else {h}
  {
  }

  // The index of the block's transactions tells which ones come early enough.
  lemma IndexedBefore(b: Block, i: nat, inFlight: map<Hash, nat>, h: Hash)
    requires i + 1 < |b.txs|
    requires forall c :: 0 <= c < |b.txs| ==> b.txs[c].hash in inFlight && inFlight[b.txs[c].hash] == c
    requires forall h :: h in inFlight ==> inFlight[h] < |b.txs| && b.txs[inFlight[h]].hash == h
    ensures CreatedBefore(b, i + 1, h) <==> h in inFlight && i >= inFlight[h]
  {
  }

  lemma AddOwn(b: Block, height: nat, needed: set<Hash>, entries: Store, h: Hash)
    requires Partial(b, height, needed, entries)
    ensures Partial(b, height, needed, entries[h := InFlight(b.txs, h, height)])
  {
  }

  lemma AddNeeded(b: Block, height: nat, needed: set<Hash>, entries: Store, h: Hash)
    requires Partial(b, height, needed, entries)
    ensures Partial(b, height, needed + {h}, entries[h := Missing])
  {
  }

  lemma InputHashesSnoc(ins: seq<TxIn>, k: nat)
    requires k < |ins|
    ensures InputHashesOf(ins[..k + 1]) == InputHashesOf(ins[..k]) + {ins[k].prev.hash}
  {
    var a, b := ins[..k + 1], ins[..k];
    assert a[k] == ins[k] && forall i :: 0 <= i < k ==> a[i] == b[i];
    forall h | h in InputHashesOf(b) ensures h in InputHashesOf(a) {
      var i :| 0 <= i < |b| && b[i].prev.hash == h;
      assert a[i].prev.hash == h;
    }
  }

  /** The first half of fetchInputTransactions: the hashes that must be looked up in the chain, and a store
      with the transactions of the block itself; the needed ones are overwritten later. */
  method CollectInputs(b: Block, height: nat) returns (needed: set<Hash>, entries: Store)
    requires |b.txs| > 0 && Distinct(b.txs)
    ensures needed == Needed(b) && entries.Keys == InputHashes(b)
    ensures forall h :: h in entries && h !in needed ==> entries[h] == InFlight(b.txs, h, height)
  {
    var inFlight := IndexInFlight(b.txs);
    needed, entries := {}, map[];
    for i := 0 to |b.txs| - 1
      invariant Partial(b, height, needed, entries)
      invariant forall h :: h in entries <==> exists u :: 1 <= u < i + 1 && h in InputHashesOf(b.txs[u].ins)
      invariant forall h :: h in needed <==> exists u :: 1 <= u < i + 1 && h in NeededBy(b, u)
    {
      needed, entries := CollectTx(b, height, i, inFlight, needed, entries);
    }
    InputsByTx(b);
  }

  lemma InputsByTx(b: Block)
    ensures forall h :: h in InputHashes(b) <==> exists u :: 1 <= u < |b.txs| && h in InputHashesOf(b.txs[u].ins)
    ensures forall h :: h in Needed(b) <==> exists u :: 1 <= u < |b.txs| && h in NeededBy(b, u)
  {
    forall h ensures h in Needed(b) <==> exists u :: 1 <= u < |b.txs| && h in NeededBy(b, u) {
      if h in Needed(b) {
        var u, k :| 1 <= u < |b.txs| && 0 <= k < |b.txs[u].ins| && b.txs[u].ins[k].prev.hash == h
                    && !CreatedBefore(b, u, b.txs[u].ins[k].prev.hash);
        assert h in NeededBy(b, u);
      }
      if u :| 1 <= u < |b.txs| && h in NeededBy(b, u) {
        var k :| 0 <= k < |b.txs[u].ins| && b.txs[u].ins[k].prev.hash == h;
        assert b.txs[u].ins[k].prev.hash in Needed(b);
      }
    }
  }
}
