// Whole histories of the crash machine: operations start, effects happen one by one,
// the process crashes and restarts, and the chain moves and reorganises in between.
module Histories {
  import opened Base
  import opened Log
  import View
  import opened World
  import LedgerStore
  import opened PolicyGate
  import opened Invariant
  import opened Reconcile
  import opened Convergence
  import opened Machine

  /** The world, what the running operation still has to do, and the transactions that
      are in the chain right now. */
  datatype State = State(w: World, job: seq<Effect>, chain: set<Txid>)

  /** What the outside may answer: confirmations and blocks come from the chain, a hard
      rejection only hits what is not in it, and nobody else publishes what was signed here. */
  ghost predicate Answers(m: State, f: Effect) {
    match f
    case Observe(t, confs) => confs > 0 ==> t in m.chain
    case Broadcast(t, _, refused) => refused ==> t !in m.chain
    case Fetched(ts, mined) =>
      (mined ==> ts <= m.chain) && forall t :: t in ts && t in m.w.signed ==> t in m.w.relayed
    case _ => true
  }

  ghost predicate Starts(env: Env, m: State, m': State, op: Op) {
    m.job == [] && Allowed(env, m.w, op) && m' == m.(job := Plan(m.w, op))
  }

  ghost predicate Ticks(m: State, m': State) {
    m.job != [] && Answers(m, m.job[0]) && m' == m.(w := Apply(m.w, m.job[0]), job := m.job[1..])
  }

  ghost predicate Crashes(m: State, m': State) {
    m' == m.(job := [])
  }

  /** Blocks come and go, but what was hard-rejected never confirms. */
  ghost predicate ChainMoves(m: State, m': State) {
    m' == m.(chain := m'.chain) && m'.chain !! m.w.dead
  }

  ghost predicate Step(env: Env, m: State, m': State) {
    || (exists op :: Starts(env, m, m', op))
    || Ticks(m, m')
    || Crashes(m, m')
    || ChainMoves(m, m')
  }

  ghost predicate History(env: Env, ms: seq<State>) {
    && ms != [] && ms[0] == State(EMPTY, [], {})
    && forall i, next :: 0 <= i < next < |ms| && next == i + 1 ==> Step(env, ms[i], ms[next])
  }

  ghost predicate Good(env: Env, m: State) {
    Safe(env, m.w, m.job) && m.chain !! m.w.dead
  }

  lemma EmptyIsGood(env: Env)
    ensures Good(env, State(EMPTY, [], {}))
  {}

  lemma StepKeepsGood(env: Env, m: State, m': State)
    requires Good(env, m) && Step(env, m, m')
    ensures Good(env, m')
    ensures Ticks(m, m') ==> Honest(m.w, m.job[0]) && StepOk(env, m.w, m.job[0])
  {
    if Ticks(m, m') {
      assert Honest(m.w, m.job[0]);
    } else if Crashes(m, m') {
    } else if ChainMoves(m, m') {
    } else {
      var op :| Starts(env, m, m', op);
      PlanSafe(env, m.w, op);
    }
  }

  lemma {:induction false} HistoryIsGood(env: Env, ms: seq<State>, i: nat)
    requires History(env, ms) && i < |ms|
    ensures Good(env, ms[i])
  {
    if i == 0 {
      EmptyIsGood(env);
    } else {
      HistoryIsGood(env, ms, i - 1);
      StepKeepsGood(env, ms[i - 1], ms[i]);
    }
  }

  /** In every state of every history: whatever was broadcast has a durable Sent entry;
      every send that was never seen confirmed and has not failed still has exactly its
      signed bytes in its sidecar; nothing in the chain counts as failed; nothing is
      credited twice or at another amount than the chain's; address indices are never
      reused; and no 86,400-second window exceeds the cap. */
  lemma EveryStateIsSound(env: Env, ms: seq<State>, i: nat)
    requires History(env, ms) && i < |ms|
    ensures var w := ms[i].w;
            && (forall t :: t in w.relayed ==> IsSent(w.log, t))
            && (forall t :: IsSent(w.log, t) && t !in w.seen && LatestStatus(w.log, t) != Some(Failed) ==>
                  t in w.sidecars && t in w.signed && w.sidecars[t] == w.signed[t])
            && (forall t :: t in ms[i].chain ==> LatestStatus(w.log, t) != Some(Failed))
            && Once(w.log) && Exact(env, w.log)
            && (forall a, b :: 0 <= a < b < |w.answered| ==> w.answered[a] < w.answered[b])
            && (forall a :: 0 <= a < |w.answered| ==> IsIssued(w.log, w.answered[a]))
            && (forall lo: nat, hi: nat :: hi <= lo + 86_400 ==> SentBetween(w.log, lo, hi) <= env.cap)
  {
    HistoryIsGood(env, ms, i);
    forall lo: nat, hi: nat | hi <= lo + 86_400 ensures SentBetween(ms[i].w.log, lo, hi) <= env.cap {
      WindowNeverExceedsCap(ms[i].w.log, env.cap, lo, hi);
    }
  }

  /** Every step that is taken is one that may be: what is handed out is a durable send that
      has not failed, byte for byte as it was signed; what is appended never touches a
      failed transaction; an address goes out once, and only after its issuance is durable. */
  lemma EveryStepIsAllowed(env: Env, ms: seq<State>, i: nat)
    requires History(env, ms) && i + 1 < |ms| && Ticks(ms[i], ms[i + 1])
    ensures StepOk(env, ms[i].w, ms[i].job[0])
  {
    HistoryIsGood(env, ms, i);
    StepKeepsGood(env, ms[i], ms[i + 1]);
  }

  /** After any crash, a send that was recorded and never seen confirmed is handed out
      again, with the bytes that were signed, by the next complete pass that finds it
      unconfirmed. */
  lemma CrashLosesNoPayment(env: Env, ms: seq<State>, i: nat, o: Oracle, t: Txid)
    requires History(env, ms) && i < |ms| && IsSent(ms[i].w.log, t) && Open(ms[i].w.log, t)
    requires t !in ms[i].w.seen && o.confs(t) == 0
    ensures t in ms[i].w.signed
    ensures Broadcast(t, ms[i].w.signed[t], o.rejects(ms[i].w.signed[t])) in PassEffects(ms[i].w, o)
  {
    EveryStateIsSound(env, ms, i);
    var w := ms[i].w;
    var e :| e in w.log && e.Sent? && e.txid == t;
    assert HasTxid(w.log, t);
    PassRebroadcasts(w, o, t, w.signed[t], o.rejects(w.signed[t]));
  }

  /** The log only ever grows, whatever crashes. */
  lemma {:induction false} HistoryExtendsLog(env: Env, ms: seq<State>, i: nat, j: nat)
    requires History(env, ms) && i <= j < |ms|
    ensures ms[i].w.log <= ms[j].w.log && ms[i].w.answered <= ms[j].w.answered
    decreases j - i
  {
    if i < j {
      HistoryExtendsLog(env, ms, i, j - 1);
      assert Step(env, ms[j - 1], ms[j - 1 + 1]);
    }
  }

  /** The step from m to m' appends an entry that sets the status of t. */
  ghost predicate Restamps(m: State, m': State, t: Txid) {
    Ticks(m, m') && m.job[0].Append? && m.job[0].entry.Stamps(t)
  }

  /** It hands t out to the network. */
  ghost predicate HandsOut(m: State, m': State, t: Txid) {
    Ticks(m, m') && m.job[0].Broadcast? && m.job[0].txid == t
  }

  /** It books one more output of t. */
  ghost predicate BooksOutput(m: State, m': State, t: Txid) {
    Restamps(m, m', t) && m.job[0].entry.SpReceived?
  }

  /** Only an entry that stamps t changes the status of t. */
  lemma StatusChangesByStamp(env: Env, m: State, m': State, t: Txid)
    requires Step(env, m, m')
    ensures LatestStatus(m'.w.log, t)
            == if Restamps(m, m', t) then Some(m.job[0].entry.status) else LatestStatus(m.w.log, t)
  {
    if Ticks(m, m') && m.job[0].Append? {
      Snoc(m.w.log, m.job[0].entry);
    }
  }

  lemma FailedAtNext(env: Env, ms: seq<State>, i: nat, t: Txid)
    requires History(env, ms) && i + 1 < |ms| && LatestStatus(ms[i].w.log, t) == Some(Failed)
    ensures LatestStatus(ms[i + 1].w.log, t) == Some(Failed)
    ensures !Restamps(ms[i], ms[i + 1], t) && !HandsOut(ms[i], ms[i + 1], t)
  {
    HistoryIsGood(env, ms, i);
    StepKeepsGood(env, ms[i], ms[i + 1]);
    StatusChangesByStamp(env, ms[i], ms[i + 1], t);
  }

  lemma {:induction false} FailedStays(env: Env, ms: seq<State>, i: nat, j: nat, t: Txid)
    requires History(env, ms) && i <= j < |ms| && LatestStatus(ms[i].w.log, t) == Some(Failed)
    ensures LatestStatus(ms[j].w.log, t) == Some(Failed)
    decreases j - i
  {
    if i < j {
      FailedStays(env, ms, i, j - 1, t);
      FailedAtNext(env, ms, j - 1, t);
    }
  }

  /** Failed is terminal: once a transaction counts as failed it does in every later
      state, it is never in the chain, never on the work queue, never handed out again,
      and never gets another payment or status entry. */
  lemma FailedIsTerminal(env: Env, ms: seq<State>, i: nat, j: nat, t: Txid)
    requires History(env, ms) && i <= j < |ms| && LatestStatus(ms[i].w.log, t) == Some(Failed)
    ensures LatestStatus(ms[j].w.log, t) == Some(Failed)
    ensures t !in ms[j].chain && t !in PendingOf(ms[j].w.log)
    ensures j + 1 < |ms| ==> !HandsOut(ms[j], ms[j + 1], t) && !Restamps(ms[j], ms[j + 1], t)
  {
    FailedStays(env, ms, i, j, t);
    HistoryIsGood(env, ms, j);
    PendingIsTheWorkQueue(ms[j].w.log);
    if j + 1 < |ms| {
      FailedAtNext(env, ms, j, t);
    }
  }

  /** Failing gives back exactly what was sent, and in the log of a history that happens to
      a transaction at most once: after it, no step stamps the transaction. */
  lemma FailingUndebitsTheSend(env: Env, ms: seq<State>, i: nat, j: nat, t: Txid)
    requires History(env, ms) && i < j < |ms| && Restamps(ms[i], ms[i + 1], t)
    requires ms[i].job[0].entry.StatusUpdate? && ms[i].job[0].entry.status == Failed
    ensures RawBalance(ms[i + 1].w.log) == RawBalance(ms[i].w.log) + SentOf(ms[i].w.log, t)
    ensures j + 1 < |ms| ==> !Restamps(ms[j], ms[j + 1], t)
  {
    var log, e := ms[i].w.log, ms[i].job[0].entry;
    HistoryIsGood(env, ms, i);
    StepKeepsGood(env, ms[i], ms[i + 1]);
    View.StatusUpdateMovesOwnPart(log, e.no, t, Failed);
    StatusChangesByStamp(env, ms[i], ms[i + 1], t);
    FailedIsTerminal(env, ms, i + 1, j, t);
  }

  // --- how a transaction stops being final --------------------------------------------------

  /** A step takes a transaction off Final exactly if it books one more output of it. */
  lemma FinalIsLeftByLateOutput(env: Env, m: State, m': State, t: Txid)
    requires Good(env, m) && Step(env, m, m') && LatestStatus(m.w.log, t) == Some(Final)
    ensures LatestStatus(m'.w.log, t) != Some(Final) <==> BooksOutput(m, m', t)
    ensures BooksOutput(m, m', t) ==>
              LatestStatus(m'.w.log, t) == Some(Pending) && !HasSpOutput(m.w.log, (t, m.job[0].entry.vout))
  {
    StepKeepsGood(env, m, m');
    StatusChangesByStamp(env, m, m', t);
  }

  ghost predicate FinalThrough(ms: seq<State>, i: nat, j: nat, t: Txid) {
    forall k: nat :: i <= k <= j < |ms| ==> LatestStatus(ms[k].w.log, t) == Some(Final)
  }

  /** No step from the i-th state to the j-th books an output of t. */
  ghost predicate NoOutputBooked(ms: seq<State>, i: nat, j: nat, t: Txid) {
    forall k, next :: i <= k < next <= j < |ms| && next == k + 1 ==> !BooksOutput(ms[k], ms[next], t)
  }

  /** Final at a state, it is final at the next exactly if the step books no output. */
  ghost predicate LeftByOutput(m: State, m': State, t: Txid) {
    LatestStatus(m.w.log, t) == Some(Final) ==>
      (LatestStatus(m'.w.log, t) == Some(Final) <==> !BooksOutput(m, m', t))
  }

  lemma {:induction false} FinalWhileNoOutput(ms: seq<State>, i: nat, j: nat, t: Txid)
    requires i <= j < |ms| && LatestStatus(ms[i].w.log, t) == Some(Final)
    requires forall k, next :: i <= k < next <= j && next == k + 1 ==> LeftByOutput(ms[k], ms[next], t)
    ensures FinalThrough(ms, i, j, t) <==> NoOutputBooked(ms, i, j, t)
    decreases j - i
  {
    if i < j {
      FinalWhileNoOutput(ms, i, j - 1, t);
      assert LeftByOutput(ms[j - 1], ms[j], t);
    }
  }

  /** A transaction stays final exactly as long as no further output of it is booked. */
  lemma FinalUntilLateOutput(env: Env, ms: seq<State>, i: nat, j: nat, t: Txid)
    requires History(env, ms) && i <= j < |ms| && LatestStatus(ms[i].w.log, t) == Some(Final)
    ensures FinalThrough(ms, i, j, t) <==> NoOutputBooked(ms, i, j, t)
  {
    forall k, next | i <= k < next <= j && next == k + 1 ensures LeftByOutput(ms[k], ms[next], t) {
      HistoryIsGood(env, ms, k);
      if LatestStatus(ms[k].w.log, t) == Some(Final) {
        FinalIsLeftByLateOutput(env, ms[k], ms[next], t);
      }
    }
    FinalWhileNoOutput(ms, i, j, t);
  }

  /** What counts as spent never comes back as spendable. */
  lemma SpentStaysSpent(env: Env, ms: seq<State>, i: nat, j: nat, p: Outpoint)
    requires History(env, ms) && i <= j < |ms| && IsSpSpent(ms[i].w.log, p)
    ensures IsSpSpent(ms[j].w.log, p) && forall u :: u in SpUtxos(ms[j].w.log) ==> u.Point() != p
  {
    HistoryExtendsLog(env, ms, i, j);
    var log, log' := ms[i].w.log, ms[j].w.log;
    var e :| e in log && e.SpSpent? && (e.txid, e.vout) == p;
    assert log' == log + log'[|log|..];
    assert e in log';
    ListedAreUnspent(log', log', true);
  }

  lemma {:induction false} ListedAreUnspent(es: seq<Entry>, all: seq<Entry>, final: bool)
    ensures forall u :: u in SpListed(es, all, final) ==> !IsSpSpent(all, u.Point())
  {
    if es != [] {
      ListedAreUnspent(Front(es), all, final);
    }
  }

  /** In every state the spendable outputs are pairwise different and worth what the chain
      says, and each transaction is credited nothing or what the chain pays one index. */
  lemma NothingIsOverCredited(env: Env, ms: seq<State>, i: nat, t: Txid)
    requires History(env, ms) && i < |ms|
    ensures DistinctPoints(SpUtxos(ms[i].w.log)) && AtChainValue(env, SpUtxos(ms[i].w.log))
    ensures var log := ms[i].w.log;
            ReceivedOf(log, t) == 0
            || exists e :: e in log && e.Received? && e.txid == t && ReceivedOf(log, t) == env.paid(t, e.index)
  {
    HistoryIsGood(env, ms, i);
    ListedOnceAtChainValue(env, ms[i].w.log, ms[i].w.log, true);
    CreditIsChainAmount(env, ms[i].w.log, t);
  }

  // --- what does not hold -----------------------------------------------------------------------

  /** The log after one more output was booked. */
  function Booked(log: seq<Entry>, u: SpUtxo): seq<Entry> {
    if HasSpOutput(log, u.Point()) then log
    else log + [SpReceived(NextSeq(log), u.txid, u.vout, u.sats, u.tweak, Pending)]
  }

  /** Booking one more output of a transaction keeps its effective status exactly when the
      outpoint is already booked or the transaction is pending. */
  lemma LateOutputResetsStatus(log: seq<Entry>, u: SpUtxo)
    ensures Run(EMPTY.(log := log), LedgerStore.SpReceiveEffects(log, u)).log == Booked(log, u)
    ensures LatestStatus(Booked(log, u), u.txid) == LatestStatus(log, u.txid)
            <==> HasSpOutput(log, u.Point()) || LatestStatus(log, u.txid) == Some(Pending)
  {
    var fs := LedgerStore.SpReceiveEffects(log, u);
    if fs != [] {
      RunSnoc(EMPTY.(log := log), [], fs[0]);
      Snoc(log, fs[0].entry);
    }
  }

  /** So Final is not terminal: a second output of a final transaction takes the first one
      off the spendable list until a later pass confirms the transaction again. */
  lemma FinalIsNotTerminal()
    ensures var log := [SpReceived(0, "t", 0, 1000, "", Pending), StatusUpdate(1, "t", Final)];
            var log' := Booked(log, SpUtxo("t", 1, 2000, ""));
            && SpUtxos(log) == [SpUtxo("t", 0, 1000, "")]
            && SpUtxos(log') == [] && LatestStatus(log', "t") == Some(Pending)
  {
    var first, update := SpReceived(0, "t", 0, 1000, "", Pending), StatusUpdate(1, "t", Final);
    var late := SpReceived(2, "t", 1, 2000, "", Pending);
    var log := [first, update];
    assert log == [first] + [update];
    Snoc([first], update);
    Snoc(log, late);
    assert Front([first]) == [];
    assert forall p :: !IsSpSpent(log, p) && !HasSpOutput(log, ("t", 1));
    assert Booked(log, SpUtxo("t", 1, 2000, "")) == log + [late];
  }

  /** A transaction that pays two issued addresses is booked once: the second deposit is
      dropped, whatever it is worth. */
  lemma SecondDepositIsDropped(w: World, t: Txid, sats: nat, index: nat, sats': nat, index': nat)
    ensures var w1 := Run(w, LedgerStore.ReceiveEffects(w.log, t, sats, index));
            HasTxid(w1.log, t) && LedgerStore.ReceiveEffects(w1.log, t, sats', index') == []
  {
    var fs := LedgerStore.ReceiveEffects(w.log, t, sats, index);
    if fs != [] {
      RunSnoc(w, [], fs[0]);
      Snoc(w.log, fs[0].entry);
    }
  }
}
