/** A validated chain on which a transaction is created again, and what the views that undo its blocks then miss. */
module ReusedHash {
  import opened Ledger
  import opened TxLookup
  import opened Validate
  import opened Wrappers
  import opened Spending
  import opened Retarget
  import opened MedianTime
  import opened Accept
  import opened SmallBlocks

  const MINT := CoinBase(1, TxOut(2 * CENT, 0))
  const SPEND := Tx(2, [TxIn(OutPoint(1, 0), 0)], [TxOut(CENT, 0)], 0, 0, false)
  const FIRST := Block(10, 0, [MINT], BITS, 0, false)
  const SECOND := Block(11, 10, [CoinBase(3, TxOut(CENT, 0)), SPEND], BITS, 600, false)
  const THIRD := Block(12, 11, [MINT], BITS, 1200, false)

  // SECOND once more, as a side block.
  const SIDE := SECOND.(hash := 13)

  lemma SecondPasses(main: seq<Block>, b: Block)
    requires b == SECOND || b == SIDE
    ensures Connectable(NETWORK, main, [FIRST], b) && Replay([FIRST], 1) == Fresh(MINT, 0)
  {
    FirstCreates(FIRST, MINT);
    Unknown([FIRST], 2);
    Unknown([FIRST], 3);
    OneOutput(TxOut(CENT, 0));
    SpendBlockPasses(NETWORK, main, [FIRST], b, MINT);
  }

  // After SECOND the output of transaction 1 is spent.
  lemma SecondSpends()
    ensures Replay([FIRST, SECOND], 1) == Present(MINT, 0, [true])
  {
    FirstCreates(FIRST, MINT);
    hide Replay;
    ReplaySnoc([FIRST], SECOND, 1);
    assert [FIRST] + [SECOND] == [FIRST, SECOND];
    var steps := StepsAt(SECOND.txs, 1);
    assert steps[..1][..0] == [] && steps[..1] == [steps[0]];
    UnnamedInputs(Fresh(MINT, 0), 1, SECOND.txs[0].ins);
    assert ConnectSteps(Fresh(MINT, 0), 1, steps[..1]) == Fresh(MINT, 0);
    assert SPEND.ins[..0] == [];
  }

  lemma ThirdPasses(main: seq<Block>)
    ensures Connectable(NETWORK, main, [FIRST, SECOND], THIRD)
  {
    SecondSpends();
    OneOutput(TxOut(2 * CENT, 0));
    CoinBasePasses(NETWORK, main, [FIRST, SECOND], THIRD);
  }

  lemma AllPass()
    ensures Validated(NETWORK, [FIRST, SECOND, THIRD])
  {
    hide Connectable;
    var chain := [FIRST, SECOND, THIRD];
    SecondPasses([], SECOND);
    ThirdPasses([]);
    assert chain[..1] == [FIRST] && chain[..2] == [FIRST, SECOND];
    assert Passed(NETWORK, chain[..1], chain[1]) && Passed(NETWORK, chain[..2], chain[2]);
  }

  // The view from FIRST while the three blocks are the main chain.
  ghost function Undone(txSet: set<Hash>): (view: Store)
    ensures view.Keys == txSet
  {
    ViewStore([FIRST], [SECOND, THIRD], [], txSet)
  }

  lemma UndoneIsMissing(h: Hash)
    requires 1 <= h <= 3
    ensures View([FIRST], [SECOND, THIRD], [], h) == Missing
  {
    AllPass();
    var chain := [FIRST, SECOND, THIRD];
    assert chain == [FIRST] + [SECOND, THIRD];
    ValidatedIsLegal(NETWORK, chain, h);
    hide Validated, Legal, StepsFrom, Replay;
    UndoRestores([FIRST], [SECOND, THIRD], h);
    if h == 1 {
      ThirdCreates();
    } else {
      Unknown([FIRST], h);
    }
    NothingFrom();
  }

  lemma NothingFrom()
    ensures StepsFrom(1, []) == []
  {
  }

  lemma ThirdCreates()
    ensures Creates(StepsFrom(1, [SECOND, THIRD]), 1)
  {
    var rest, last := StepsFrom(1, [SECOND, THIRD][..1]), StepsAt(THIRD.txs, 2);
    assert last[0].tx.hash == 1;
    CreatesConcat(rest, last, 1);
  }

  lemma MissingIsRefused(p: Params, s: Store)
    requires Shaped(s) && 1 in s && s[1].Missing?
    ensures CheckTxsFrom(p, s, SIDE.txs, 1, 0, 0).0 == Err(ErrMissingTx)
  {
    assert InputError(p, s, SPEND, 1, SPEND.ins[0], 0) == Some(ErrMissingTx);
    assert CheckTx(p, s, SIDE.txs[0], 1) == (Ok(0), s);
    assert CheckTx(p, s, SIDE.txs[1], 1).0 == Err(ErrMissingTx);
  }

  lemma SideRefused(p: Params)
    requires p.net == NETWORK
    ensures Shaped(Undone(Needed(SIDE)))
    ensures CheckBlock(p, SIDE, 1, Undone(TxHashes(SIDE)), Undone(Needed(SIDE))) == Err(ErrMissingTx)
  {
    hide CheckTxsFrom, Needed, InputHashes, TxHashes, View, BlockSigOps;
    SpendNeeds(SIDE, MINT);
    UndoneIsMissing(1);
    UndoneIsMissing(2);
    UndoneIsMissing(3);
    var view := Undone(Needed(SIDE));
    MergedShaped(SIDE, 1, view);
    NoSigOps(NETWORK, Merged(SIDE, 1, view), SIDE, 0);
    MissingIsRefused(p, Merged(SIDE, 1, view));
  }

  // All four headers carry the required bits and a time after the median.
  lemma {:induction false} HeadersAreGood()
    ensures GoodHeader(LIMITS, [FIRST], SECOND) && GoodHeader(LIMITS, [FIRST], SIDE)
    ensures GoodHeader(LIMITS, [FIRST, SECOND], THIRD)
  {
    hide PastMedian, NextBits;
    MedianBelow(Times([FIRST]), 600);
    MedianBelow(Times([FIRST, SECOND]), 1200);
  }

  /** The condition of TxLookup.ViewIsReplay is needed.  FIRST creates transaction 1, SECOND spends its output and pays
      the fee, and THIRD creates it again, all within the rules.  SIDE may follow FIRST, but while the three blocks are
      the main chain undoing the last two reports transaction 1 as missing, and the checks refuse SIDE. */
  lemma {:induction false} ReuseBreaksView()
    ensures Validated(NETWORK, [FIRST, SECOND, THIRD])
    ensures GoodHeader(LIMITS, [FIRST], SECOND) && GoodHeader(LIMITS, [FIRST, SECOND], THIRD)
    ensures GoodHeader(LIMITS, [FIRST], SIDE)
    ensures View([FIRST], [SECOND, THIRD], [], 1) == Missing && Replay([FIRST], 1) == Fresh(MINT, 0)
    ensures Connectable(NETWORK, [FIRST, SECOND, THIRD], [FIRST], SIDE) && Shaped(Undone(Needed(SIDE)))
    ensures CheckBlock(Params(NETWORK, [FIRST, SECOND, THIRD]), SIDE, 1,
                       Undone(TxHashes(SIDE)), Undone(Needed(SIDE))) == Err(ErrMissingTx)
  {
    hide Connectable, Validated, CheckBlock, View, Replay, Undone, Shaped, GoodHeader;
    HeadersAreGood();
    AllPass();
    UndoneIsMissing(1);
    SecondPasses([FIRST, SECOND, THIRD], SIDE);
    SideRefused(Params(NETWORK, [FIRST, SECOND, THIRD]));
  }
}
