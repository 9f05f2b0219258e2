// Inputs on which the program does not do what its description says.
module Witnesses {
  import opened Base
  import opened Log
  import opened World
  import opened Protocol
  import opened Reconcile
  import opened Convergence
  import opened Curve
  import opened SilentPayments
  import opened Hex
  import opened Scan
  import opened Invariant
  import opened ScanRuns

  // --- a sidecar that is never removed ------------------------------------------------------

  /** t is a send, the only transaction in flight, with its sidecar still there, and o says
      that it has become final. */
  ghost predicate AboutToSettle(w: World, t: Txid, o: Oracle) {
    IsSent(w.log, t) && PendingOf(w.log) == [t] && t in w.sidecars && o.confs(t) >= 3
  }

  /** The pass writes the status first and removes the sidecar then. */
  lemma SettlingPass(w: World, t: Txid, o: Oracle)
    requires AboutToSettle(w, t, o)
    ensures InFlight(w, t)
    ensures var update := [Observe(t, o.confs(t))] + [Append(StatusUpdate(NextSeq(w.log), t, Final))];
            update + [RemoveSidecar(t)] <= PassEffects(w, o)
  {
    PendingIsTheWorkQueue(w.log);
    assert t in PendingOf(w.log);
    var ts := [t];
    assert ts[..0] == [] && LoopEffects(w, [], o) == [];
    assert LoopEffects(w, ts, o) == TxEffects(w, t, o);
  }

  /** A complete pass removes the sidecar of a payment that became final. If the process
      crashes just before, no later pass does, whatever it is told. */
  lemma CrashLeavesSidecarForGood(w: World, t: Txid, o: Oracle, runs: seq<CutShort>)
    requires AboutToSettle(w, t, o)
    ensures t !in Run(w, PassEffects(w, o)).sidecars
    ensures var w' := AfterCuts(w, [CutShort(o, 2)]);
            LatestStatus(w'.log, t) == Some(Final) && t in AfterCuts(w', runs).sidecars
  {
    var f, g := Observe(t, o.confs(t)), Append(StatusUpdate(NextSeq(w.log), t, Final));
    SettlingPass(w, t, o);
    CompletePassRemovesSidecar(w, t, o);
    var fs := PassEffects(w, o);
    var w' := AfterCuts(w, [CutShort(o, 2)]);
    assert fs[..2] == [f] + [g];
    OneCut(w, o, 2);
    RunSnoc(w, [], f);
    RunSnoc(w, [f], g);
    Snoc(w.log, g.entry);
    SettledSidecarStays(w', runs, t);
  }

  lemma OneCut(w: World, o: Oracle, k: nat)
    requires k <= |PassEffects(w, o)|
    ensures AfterCuts(w, [CutShort(o, k)]) == Run(w, PassEffects(w, o)[..k])
  {
    var runs, fs := [CutShort(o, k)], PassEffects(w, o);
    assert runs[1..] == [] && fs[..|fs|] == fs;
    assert AfterCuts(w, runs) == AfterCuts(Run(w, fs[..k]), runs[1..]);
  }

  lemma CompletePassRemovesSidecar(w: World, t: Txid, o: Oracle)
    requires AboutToSettle(w, t, o) && InFlight(w, t)
    ensures t !in Run(w, PassEffects(w, o)).sidecars
  {
    var ts := [t];
    var fs := LoopEffects(w, ts, o);
    LoopSidecars(w, ts, o);
    var w1 := Run(w, fs);
    SweepSidecars(w1, o.listing(w1.sidecars.Keys));
    RunConcat(w, fs, SweepEffects(w1, o));
  }

  /** One send, handed out and not yet seen in a block. */
  const SENT_ONCE: World :=
    World([Sent(0, "t", 1000, "a", Pending, 0)], map["t" := "00"], map["t" := "00"], {"t"}, {}, {}, [])

  /** The smallest such run: one send and three confirmations. */
  lemma SentOnceIsAboutToSettle(o: Oracle)
    requires o.confs("t") == 3
    ensures AboutToSettle(SENT_ONCE, "t", o)
  {
    var log := SENT_ONCE.log;
    assert log[0] in log;
    assert Front(log) == [];
    assert Firsts(log) == ["t"];
    assert ["t"][..0] == [];
  }

  // --- a payment that the receive check forgets ------------------------------------------------

  function Bytes32(b: Byte): (r: seq<Byte>)
    ensures |r| == 32
  {
    seq(31, _ => 0) + [b]
  }

  lemma {:induction false} NumZeros(k: nat)
    ensures Num(seq(k, _ => 0)) == 0
  {
    if k > 0 {
      NumZeros(k - 1);
      assert seq(k, _ => 0)[..k - 1] == seq(k - 1, _ => 0);
    }
  }

  lemma NumOfBytes32(b: Byte)
    ensures Num(Bytes32(b)) == b
  {
    NumZeros(31);
    assert Bytes32(b)[..31] == seq(31, _ => 0);
  }

  function RankHash(point: int, k: nat): (r: seq<Byte>)
    ensures |r| == 32
  {
    Bytes32(if point == 2 && k == 0 then 1 else 0)
  }

  /** Seven points; the hash of point 2 and rank 0 reads as 1, every other one as 0, which is
      not a scalar one can derive a key from. */
  const TINY: Group := Group(7, p => p % 2 == 0, (_, _) => Bytes32(1), (point, k) => RankHash(point, k))

  const OWNER: Viewer := Viewer(TINY, 1, 1)

  const COIN: SpInput := SpInput(RawOutpoint([], 0), 2)

  function Spending(vout: seq<Vout>): Tx {
    Tx("t", [Vin(Some(RawOutpoint([], 0)), false, Some(P2tr(2)), [Item(false, None)])], vout)
  }

  /** Pays the owner 1000 sats, alone or with another Taproot output beside it. */
  const PAYING: Tx := Spending([Vout(P2tr(2), 1000)])
  const PAYING_WITH_CHANGE: Tx := Spending([Vout(P2tr(2), 1000), Vout(P2tr(4), 500)])

  lemma TinyIsValid()
    ensures TINY.Valid()
  {
    forall p | 0 < p < 7 ensures TINY.even(p) != TINY.even(7 - p) {
      assert (7 - p) % 2 != p % 2;
    }
  }

  lemma CoinDerives()
    ensures SenderEcdh(TINY, [COIN], 1) == Some(2)
    ensures OutputAt(TINY, 2, 1, 0) == Some((2, Bytes32(1)))
    ensures forall k: nat :: k > 0 ==> OutputAt(TINY, 2, 1, k) == None
  {
    NumOfBytes32(1);
    NumOfBytes32(0);
    assert Keys([COIN]) == [2];
  }

  lemma OwnerWorksWithTwo(vout: seq<Vout>)
    requires TxOutputs(TINY, vout) != []
    ensures TxMatches(OWNER, Spending(vout))
            == match Greedy(TxOutputs(TINY, vout), 0, Ranks(TINY, 2, 1))
               case Some(found) => found
               case None => []
  {
    var tx := Spending(vout);
    CoinDerives();
    TinyIsValid();
    assert SpendsAs(TINY, tx.vin[0], COIN);
    MatchesAreGreedy(OWNER, [COIN], [COIN], tx);
    assert NoZeroPartialSum(TINY, Keys([COIN]));
  }

  /** Alone, the payment is found. With another Taproot output in the same transaction the
      loop goes on to rank 1, whose derivation fails, and the payment is forgotten. */
  lemma FailedRankForgetsPayment()
    ensures SendAddress(TINY, [COIN], 1, 1) == Some(2)
    ensures TxMatches(OWNER, PAYING) == [SpFound(0, 1000, Bytes32(1))]
    ensures TxMatches(OWNER, PAYING_WITH_CHANGE) == []
  {
    var mine, other := TxOutput(0, 2, 1000), TxOutput(1, 4, 500);
    var derive := Ranks(TINY, 2, 1);
    CoinDerives();
    assert [Vout(P2tr(2), 1000)][..0] == [];
    assert TxOutputs(TINY, [Vout(P2tr(2), 1000)]) == [mine];
    assert [Vout(P2tr(2), 1000), Vout(P2tr(4), 500)][..1] == [Vout(P2tr(2), 1000)];
    assert TxOutputs(TINY, PAYING_WITH_CHANGE.vout) == [mine, other];
    OwnerWorksWithTwo(PAYING.vout);
    OwnerWorksWithTwo(PAYING_WITH_CHANGE.vout);
    assert Without([mine], 0) == [] && Without([mine, other], 0) == [other];
    assert Greedy([other], 1, derive) == None;
  }

  // --- a payment that no scan ever books --------------------------------------------------------

  /** One block, at the given height, with one payment to the owner. */
  function OnePayment(h: nat): Blocks {
    at => if at == h then [PAYING] else []
  }

  const PAID: SpUtxo := SpUtxo("t", 0, 1000, HexLower(Bytes32(1)))

  lemma OnePaymentPays(h: nat, at: nat, u: SpUtxo)
    ensures PaidAt(BookerOf(OWNER), OnePayment(h), at, u) <==> at == h && u == PAID
  {
    var found := [SpFound(0, 1000, Bytes32(1))];
    FailedRankForgetsPayment();
    assert found[..0] == [] && BookForm("t", found[..0]) == [];
    assert BookForm("t", found) == [PAID];
    assert [PAYING][..0] == [];
    assert Payments(BookerOf(OWNER), [PAYING]) == [PAID];
  }

  /** Whenever the tip rises, above 144, between a cut first pass and a complete one, a chain
      exists on which a payment that the first pass would have booked is skipped for good. */
  lemma RisingStartSkips(tip1: nat, tip2: nat, es: seq<Event>)
    requires tip1 < tip2 && 144 < tip2 && NeverBelow(es, tip2)
    ensures var book, blocks := BookerOf(OWNER), OnePayment(if tip1 < 144 then 0 else tip1 - 144);
            var s0 := Progress(EMPTY, None, 0, 0);
            var s := After(book, blocks, After(book, blocks, s0, CutPass(tip1, 0)), FullPass(tip2, []));
            && SpEntryOf(After(book, blocks, s0, FullPass(tip1, [])).w.log, PAID)
            && !SpEntryOf(AfterAll(book, blocks, s, es).w.log, PAID)
  {
    var start := if tip1 < 144 then 0 else tip1 - 144;
    forall at: nat ensures PaidAt(BookerOf(OWNER), OnePayment(start), at, PAID) <==> at == start {
      OnePaymentPays(start, at, PAID);
    }
    ScannerIsUnambiguous(OWNER);
    PaidAtStartIsSkipped(BookerOf(OWNER), OnePayment(start), start, tip1, tip2, es, PAID);
  }

  lemma PaidAtStartIsSkipped(book: Booker, blocks: Blocks, start: nat, tip1: nat, tip2: nat, es: seq<Event>, u: SpUtxo)
    requires start <= tip1 <= start + 144 < tip2 && NeverBelow(es, tip2)
    requires Unambiguous(book) && IdsNameTransactions(blocks)
    requires forall at: nat :: PaidAt(book, blocks, at, u) <==> at == start
    ensures var s0 := Progress(EMPTY, None, 0, 0);
            var s := After(book, blocks, After(book, blocks, s0, CutPass(tip1, 0)), FullPass(tip2, []));
            && SpEntryOf(After(book, blocks, s0, FullPass(tip1, [])).w.log, u)
            && !SpEntryOf(AfterAll(book, blocks, s, es).w.log, u)
  {
    assert PaidAt(book, blocks, start, u) && InWindow(book, blocks, tip1, u);
    assert BookedArePaid(book, blocks, EMPTY.log);
    FirstFullPassBooksItsWindow(book, blocks, Progress(EMPTY, None, 0, 0), tip1, [], u);
    UnbookedBelowStartIsSkipped(book, blocks, EMPTY, tip1, tip2, es, u);
  }
}
