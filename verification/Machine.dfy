// The crash machine: operations turn into effects, effects happen one at a time, and
// a crash at any point forgets what was still to be done.
module Machine {
  import opened Base
  import opened Log
  import opened World
  import opened LedgerStore
  import opened PolicyGate
  import opened Protocol
  import opened Reconcile
  import opened Convergence
  import opened Pay
  import opened Session
  import opened Scan
  import opened Invariant

  datatype Op =
    | OpSend(payment: Payment, answer: Answer, checked: nat)
    | OpReconcile(oracle: Oracle, calls: nat)
    | OpSession(inbox: seq<Message>, peer: Chain)
    | OpDeposit(deposit: Deposit, index: nat)
    | OpPage(viewer: Viewer, txs: seq<Tx>)
    | OpTrack(marked: seq<Outpoint>)

  /** Every output of tx has the value that the chain gives it. */
  ghost predicate OnChain(env: Env, tx: Tx) {
    forall o :: 0 <= o < |tx.vout| ==> tx.vout[o].value == env.value(tx.txid, o)
  }

  /** Transactions paid for are new to the log and passed the daily gate; what the chain
      source lists and the blocks it hands out are the chain's. */
  ghost predicate Allowed(env: Env, w: World, op: Op) {
    match op
    case OpSend(p, _, checked) =>
      && !HasTxid(w.log, p.txid) && checked <= p.at
      && SpentSince(w.log, Minus(checked, DAILY_WINDOW_SECS)) + p.sats <= env.cap
    case OpReconcile(_, _) => true
    case OpSession(_, c) => Truthful(env, c)
    case OpDeposit(d, index) => d.sats == env.paid(d.txid, index)
    case OpPage(v, txs) => v.g.n > 0 && forall tx :: tx in txs ==> OnChain(env, tx)
    case OpTrack(_) => true
  }

  ghost predicate Truthful(env: Env, c: Chain) {
    c.address == env.address &&
    forall t, sats, index :: ChainPays(c, t, sats, index) ==> sats == env.paid(t, index)
  }

  ghost function Plan(w: World, op: Op): seq<Effect>
    requires op.OpPage? ==> op.viewer.g.n > 0
  {
    match op
    case OpSend(p, answer, _) => SendEffects(w, p, answer)
    case OpReconcile(o, calls) => PassWithin(w, o, calls)
    case OpSession(inbox, c) => SessionEffects(w, NextAddressIndex(w.log), None, inbox, c)
    case OpDeposit(d, index) => [Fetched({d.txid}, false)] + ReceiveEffects(w.log, d.txid, d.sats, index)
    case OpPage(v, txs) => PageEffects(BookerOf(v), w, txs)
    case OpTrack(marked) => SpendAll(w, marked)
  }

  // --- safe plans ------------------------------------------------------------------------------

  /** The outside answers truthfully: what was hard-rejected is never seen in a block, and
      nobody else can put on the chain what was signed here and never handed out. */
  ghost predicate Honest(w: World, f: Effect) {
    match f
    case Observe(t, confs) => confs > 0 ==> t !in w.dead
    case Fetched(ts, mined) => (forall t :: t in ts && t in w.signed ==> t in w.relayed) && (mined ==> ts !! w.dead)
    case _ => true
  }

  /** What must never happen: a failed transaction gets a new status or is handed out
      again, a final one gets a new status otherwise than by booking one more output of it,
      other bytes than the signed ones are handed out, an address is sent before its
      issuance is durable, or is sent twice. */
  ghost predicate StepOk(env: Env, w: World, f: Effect) {
    match f
    case Append(e) =>
      && (e.Payment() || e.StatusUpdate? ==> LatestStatus(w.log, e.txid) != Some(Failed))
      && (e.Sent? || e.Received? || e.StatusUpdate? ==> LatestStatus(w.log, e.txid) != Some(Final))
      && (e.SpReceived? ==> !HasSpOutput(w.log, (e.txid, e.vout)))
      && (e.Payment() ==> e.status == Pending)
    case Broadcast(t, hex, _) =>
      IsSent(w.log, t) && LatestStatus(w.log, t) != Some(Failed) && t in w.signed && w.signed[t] == hex
    case Reply(a, index) =>
      && env.address(index) == Some(a) && IsIssued(w.log, index)
      && forall i :: 0 <= i < |w.answered| ==> w.answered[i] < index
    case _ => true
  }

  /** From w, the effects fs can be carried out and cut short anywhere. */
  ghost predicate Safe(env: Env, w: World, fs: seq<Effect>)
    decreases |fs|
  {
    Inv(env, w) &&
    (fs != [] && Honest(w, fs[0]) ==> StepOk(env, w, fs[0]) && Safe(env, Apply(w, fs[0]), fs[1..]))
  }

  ghost predicate HonestAll(w: World, fs: seq<Effect>)
    decreases |fs|
  {
    fs != [] ==> Honest(w, fs[0]) && HonestAll(Apply(w, fs[0]), fs[1..])
  }

  lemma SafeCons(env: Env, w: World, f: Effect, fs: seq<Effect>)
    requires Inv(env, w)
    requires Honest(w, f) ==> StepOk(env, w, f) && Safe(env, Apply(w, f), fs)
    ensures Safe(env, w, [f] + fs)
  {
    assert ([f] + fs)[1..] == fs;
  }

  lemma {:induction false} SafeConcat(env: Env, w: World, fs: seq<Effect>, gs: seq<Effect>)
    requires Safe(env, w, fs)
    requires HonestAll(w, fs) ==> Safe(env, Run(w, fs), gs)
    ensures Safe(env, w, fs + gs)
    decreases |fs|
  {
    if fs == [] {
      assert fs + gs == gs;
    } else if Honest(w, fs[0]) {
      SafeConcat(env, Apply(w, fs[0]), fs[1..], gs);
      assert (fs + gs)[1..] == fs[1..] + gs;
    }
  }

  lemma {:induction false} SafeEnd(env: Env, w: World, fs: seq<Effect>)
    requires Safe(env, w, fs) && HonestAll(w, fs)
    ensures Inv(env, Run(w, fs))
    decreases |fs|
  {
    if fs != [] {
      SafeEnd(env, Apply(w, fs[0]), fs[1..]);
    }
  }

  lemma SafeAppend(env: Env, w: World, e: Entry)
    requires Inv(env, w) && Admissible(env, w, e) && StepOk(env, w, Append(e))
    ensures Safe(env, w, [Append(e)]) && Inv(env, Run(w, [Append(e)]))
  {
    KeepAppend(env, w, e);
    RunSnoc(w, [], Append(e));
    SafeCons(env, w, Append(e), []);
    assert [Append(e)] == [Append(e)] + [];
  }

  // --- each operation is safe ---------------------------------------------------------------------

  lemma {:induction false} SpendAllSafe(env: Env, w: World, ps: seq<Outpoint>)
    requires Inv(env, w)
    ensures Safe(env, w, SpendAll(w, ps)) && Inv(env, Run(w, SpendAll(w, ps)))
  {
    if ps != [] {
      var front, p := ps[..|ps| - 1], ps[|ps| - 1];
      var fs := SpendAll(w, front);
      var w1 := Run(w, fs);
      SpendAllSafe(env, w, front);
      if !IsSpSpent(w1.log, p) {
        SafeAppend(env, w1, SpSpent(NextSeq(w1.log), p.0, p.1));
      }
      SafeConcat(env, w, fs, SpendEffects(w1.log, p));
      RunConcat(w, fs, SpendEffects(w1.log, p));
    }
  }

  lemma HandOutSafe(env: Env, w: World, p: Payment, answer: Answer)
    requires Inv(env, w) && IsSent(w.log, p.txid) && LatestStatus(w.log, p.txid) == Some(Pending)
    requires p.txid in w.signed && w.signed[p.txid] == p.hex
    ensures var f := Broadcast(p.txid, p.hex, answer == Refused(true));
            Safe(env, w, [f] + if answer == Taken then SpendAll(Apply(w, f), p.consumed) else [])
  {
    var f := Broadcast(p.txid, p.hex, answer == Refused(true));
    KeepBroadcast(env, w, p.txid, p.hex, answer == Refused(true));
    SpendAllSafe(env, Apply(w, f), p.consumed);
    SafeCons(env, w, f, if answer == Taken then SpendAll(Apply(w, f), p.consumed) else []);
  }

  lemma RecordSafe(env: Env, w: World, p: Payment, answer: Answer)
    requires Inv(env, w) && Admissible(env, w, SentEntry(w.log, p)) && LatestStatus(w.log, p.txid) == None
    requires p.txid in w.signed && w.signed[p.txid] == p.hex
    ensures var e, f := SentEntry(w.log, p), Broadcast(p.txid, p.hex, answer == Refused(true));
            var w2 := Apply(w, Append(e));
            Safe(env, w, [Append(e)] + ([f] + if answer == Taken then SpendAll(Apply(w2, f), p.consumed) else []))
  {
    var e, f := SentEntry(w.log, p), Broadcast(p.txid, p.hex, answer == Refused(true));
    var w2 := Apply(w, Append(e));
    KeepAppend(env, w, e);
    Snoc(w.log, e);
    HandOutSafe(env, w2, p, answer);
    SafeCons(env, w, Append(e), [f] + if answer == Taken then SpendAll(Apply(w2, f), p.consumed) else []);
  }

  lemma SendSafe(env: Env, w: World, p: Payment, answer: Answer, checked: nat)
    requires Inv(env, w) && Allowed(env, w, OpSend(p, answer, checked))
    ensures Safe(env, w, SendEffects(w, p, answer))
  {
    var fs := Announce(w.log, p, answer);
    var w1 := Apply(w, fs[0]);
    KeepWriteSidecar(env, w, p.txid, p.hex);
    SpentSinceMonotone(w.log, Minus(checked, DAILY_WINDOW_SECS), Minus(p.at, DAILY_WINDOW_SECS));
    UnbookedHasNoStatus(w.log, p.txid);
    RecordSafe(env, w1, p, answer);
    AnnounceRuns(w, p, answer);
    SafeCons(env, w, fs[0], [fs[1]] + ([fs[2]] + AfterBroadcast(w, p, answer)));
    SendIsAnnounceThenMarks(w, p, answer);
  }

  /** What follows a broadcast: the marks, if the network took it. */
  function AfterBroadcast(w: World, p: Payment, answer: Answer): seq<Effect> {
    if answer == Taken then SpendAll(Run(w, Announce(w.log, p, answer)), p.consumed) else []
  }

  lemma SendIsAnnounceThenMarks(w: World, p: Payment, answer: Answer)
    ensures var fs := Announce(w.log, p, answer);
            SendEffects(w, p, answer) == [fs[0]] + ([fs[1]] + ([fs[2]] + AfterBroadcast(w, p, answer)))
  {
    var fs := Announce(w.log, p, answer);
    assert fs == [fs[0]] + ([fs[1]] + [fs[2]]);
  }

  lemma {:induction false} UnbookedHasNoStatus(log: seq<Entry>, t: Txid)
    requires Named(log) && !HasTxid(log, t)
    ensures LatestStatus(log, t) == None
  {}

  lemma CondemnSafe(env: Env, w: World, t: Txid)
    requires Inv(env, w) && InFlight(w, t) && t in w.dead
    ensures Safe(env, w, Condemn(w, t))
  {
    var f := Append(StatusUpdate(NextSeq(w.log), t, Failed));
    KeepAppend(env, w, f.entry);
    Snoc(w.log, f.entry);
    KeepRemoveSidecar(env, Apply(w, f), t);
    SafeCons(env, Apply(w, f), RemoveSidecar(t), []);
    SafeCons(env, w, f, [RemoveSidecar(t)]);
    assert Condemn(w, t) == [f] + [RemoveSidecar(t)] && [RemoveSidecar(t)] == [RemoveSidecar(t)] + [];
  }

  lemma RemovalSafe(env: Env, w: World, t: Txid, confs: nat)
    requires Inv(env, w) && (confs >= 1 ==> t in w.seen)
    ensures Safe(env, w, if confs >= 1 then [RemoveSidecar(t)] else [])
  {
    if confs >= 1 {
      KeepRemoveSidecar(env, w, t);
      SafeCons(env, w, RemoveSidecar(t), []);
      assert [RemoveSidecar(t)] == [RemoveSidecar(t)] + [];
    }
  }

  lemma AdvanceSafe(env: Env, w: World, t: Txid, confs: nat)
    requires Inv(env, w) && InFlight(w, t) && (confs >= 1 ==> t in w.seen)
    ensures Safe(env, w, Advance(w, t, confs))
  {
    var removal := if confs >= 1 then [RemoveSidecar(t)] else [];
    var s := FromConfirmations(confs);
    var f := Append(StatusUpdate(NextSeq(w.log), t, s));
    if LatestStatus(w.log, t) != Some(s) {
      KeepAppend(env, w, f.entry);
      RemovalSafe(env, Apply(w, f), t, confs);
      SafeCons(env, w, f, removal);
      assert Advance(w, t, confs) == [f] + removal;
    } else {
      RemovalSafe(env, w, t, confs);
      assert Advance(w, t, confs) == removal;
    }
  }

  lemma RecoverSafe(env: Env, w: World, t: Txid, o: Oracle)
    requires Inv(env, w) && InFlight(w, t) && t in w.sidecars
    ensures Safe(env, w, Recover(w, t, o))
  {
    var hex := w.sidecars[t];
    var f := Broadcast(t, hex, o.rejects(hex));
    var w1 := Apply(w, f);
    KeepBroadcast(env, w, t, hex, o.rejects(hex));
    if o.rejects(hex) {
      CondemnSafe(env, w1, t);
      SafeCons(env, w, f, Condemn(w, t));
    } else {
      AdvanceSafe(env, w1, t, 0);
      SafeCons(env, w, f, Advance(w, t, 0));
    }
  }

  lemma OneSafe(env: Env, w: World, t: Txid, o: Oracle)
    requires Inv(env, w) && InFlight(w, t)
    ensures Safe(env, w, TxEffects(w, t, o))
  {
    var c := o.confs(t);
    var w1 := Apply(w, Observe(t, c));
    KeepObserve(env, w, t, c);
    if c == 0 && t in w.sidecars {
      RecoverSafe(env, w1, t, o);
      assert Recover(w1, t, o) == Recover(w, t, o);
      SafeCons(env, w, Observe(t, c), Recover(w, t, o));
    } else {
      AdvanceSafe(env, w1, t, c);
      SafeCons(env, w, Observe(t, c), Advance(w, t, c));
    }
  }

  lemma {:induction false} LoopSafe(env: Env, w: World, ts: seq<Txid>, o: Oracle)
    requires Inv(env, w) && Distinct(ts) && forall t :: t in ts ==> InFlight(w, t)
    ensures Safe(env, w, LoopEffects(w, ts, o))
  {
    if ts != [] {
      var front, t := ts[..|ts| - 1], ts[|ts| - 1];
      var fs := LoopEffects(w, front, o);
      assert ts == front + [t];
      LoopSafe(env, w, front, o);
      LoopHeadsForTargets(w, front, o);
      if HonestAll(w, fs) {
        SafeEnd(env, w, fs);
        assert t in ts && t !in front;
        OneSafe(env, Run(w, fs), t, o);
      }
      SafeConcat(env, w, fs, TxEffects(Run(w, fs), t, o));
    }
  }

  lemma {:induction false} SweepSafe(env: Env, w: World, listed: seq<Txid>)
    requires Inv(env, w)
    ensures Safe(env, w, Sweep(w.log, listed))
    decreases |listed|
  {
    if listed != [] {
      if IsSent(w.log, listed[0]) {
        SweepSafe(env, w, listed[1..]);
        assert Sweep(w.log, listed) == Sweep(w.log, listed[1..]);
      } else {
        KeepRemoveSidecar(env, w, listed[0]);
        SweepSafe(env, Apply(w, RemoveSidecar(listed[0])), listed[1..]);
        SafeCons(env, w, RemoveSidecar(listed[0]), Sweep(w.log, listed[1..]));
      }
    }
  }

  lemma ReconcileSafe(env: Env, w: World, o: Oracle, calls: nat)
    requires Inv(env, w)
    ensures Safe(env, w, PassWithin(w, o, calls))
  {
    var ts := PendingOf(w.log);
    PendingIsTheWorkQueue(w.log);
    if |ts| <= calls {
      var fs := LoopEffects(w, ts, o);
      LoopSafe(env, w, ts, o);
      if HonestAll(w, fs) {
        SafeEnd(env, w, fs);
        SweepSafe(env, Run(w, fs), o.listing(Run(w, fs).sidecars.Keys));
      }
      SafeConcat(env, w, fs, SweepEffects(Run(w, fs), o));
    } else {
      assert forall t :: t in ts[..calls] ==> t in ts;
      LoopSafe(env, w, ts[..calls], o);
    }
  }

  lemma ReceiveSafe(env: Env, w: World, d: Deposit, index: nat)
    requires Inv(env, w) && d.sats == env.paid(d.txid, index) && (d.txid in w.signed ==> d.txid in w.relayed)
    ensures Safe(env, w, ReceiveEffects(w.log, d.txid, d.sats, index))
  {
    if !HasTxid(w.log, d.txid) {
      UnbookedHasNoStatus(w.log, d.txid);
      SafeAppend(env, w, Received(NextSeq(w.log), d.txid, d.sats, index, Pending));
    }
  }

  lemma ReceiptSafe(env: Env, w: World, d: Deposit, index: nat, c: Chain)
    requires Inv(env, w) && d.sats == env.paid(d.txid, index) && (d.txid in w.signed ==> d.txid in w.relayed)
    ensures Safe(env, w, ReceiptEffects(w, d, index, c))
  {
    var fs := ReceiveEffects(w.log, d.txid, d.sats, index);
    ReceiveSafe(env, w, d, index);
    if HonestAll(w, fs) {
      SafeEnd(env, w, fs);
      ReconcileSafe(env, Run(w, fs), c.oracle, c.calls);
    }
    SafeConcat(env, w, fs, PassWithin(Run(w, fs), c.oracle, c.calls));
  }

  lemma NotifySafe(env: Env, w: World, issued: Option<nat>, t: Txid, c: Chain)
    requires Inv(env, w) && Truthful(env, c)
    ensures Safe(env, w, NotifyEffects(w, issued, t, c))
  {
    if issued.Some? && c.address(issued.value).Some? && c.deposits(c.address(issued.value).value).Some? {
      var ds := c.deposits(c.address(issued.value).value).value;
      var f := Fetched(TxidsOf(ds), false);
      var d := FindDeposit(ds, t);
      var rest := if d.None? then [] else ReceiptEffects(w, d.value, issued.value, c);
      if d.Some? && Honest(w, f) {
        assert Deposit(d.value.txid, d.value.sats) in ds;
        assert ChainPays(c, d.value.txid, d.value.sats, issued.value);
        assert d.value.txid in f.txids;
        ReceiptSafe(env, w, d.value, issued.value, c);
      }
      SafeCons(env, w, f, rest);
      assert NotifyEffects(w, issued, t, c) == [f] + rest;
    }
  }

  lemma AnswerSafe(env: Env, w: World, address: string, index: nat)
    requires Inv(env, w) && env.address(index) == Some(address) && IsIssued(w.log, index)
    requires forall i :: 0 <= i < |w.answered| ==> w.answered[i] < index
    ensures Safe(env, w, [Reply(address, index)])
  {
    KeepReply(env, w, address, index);
    SafeCons(env, w, Reply(address, index), []);
    assert [Reply(address, index)] == [Reply(address, index)] + [];
  }

  lemma AnsweredBelowNext(w: World, i: nat)
    requires Indexed(w) && i < |w.answered|
    ensures w.answered[i] < NextAddressIndex(w.log)
  {
    assert IsIssued(w.log, w.answered[i]);
    IssuedBelowNext(w.log);
  }

  lemma IssueSafe(env: Env, w: World, address: string)
    requires Inv(env, w) && env.address(NextAddressIndex(w.log)) == Some(address)
    ensures var fs := IssueEffects(w, NextAddressIndex(w.log), address);
            Safe(env, w, fs) && NextAddressIndex(Run(w, fs).log) == NextAddressIndex(w.log) + 1
  {
    var k := NextAddressIndex(w.log);
    var e := AddressIssued(NextSeq(w.log), k);
    var w1 := Apply(w, Append(e));
    KeepAppend(env, w, e);
    assert IsIssued(w1.log, k) by { assert e in w1.log; }
    forall i | 0 <= i < |w.answered| ensures w.answered[i] < k { AnsweredBelowNext(w, i); }
    AnswerSafe(env, w1, address, k);
    SafeCons(env, w, Append(e), [Reply(address, k)]);
    IssueRuns(w, k, address);
  }

  lemma IssueRuns(w: World, k: nat, address: string)
    requires k == NextAddressIndex(w.log)
    ensures var fs := IssueEffects(w, k, address);
            && fs == [Append(AddressIssued(NextSeq(w.log), k))] + [Reply(address, k)]
            && NextAddressIndex(Run(w, fs).log) == k + 1
  {
    var f, g := Append(AddressIssued(NextSeq(w.log), k)), Reply(address, k);
    assert IssueEffects(w, k, address) == [f] + [g];
    assert [] + [f] == [f];
    RunSnoc(w, [], f);
    RunSnoc(w, [f], g);
    NextAfterIssue(w.log, NextSeq(w.log), k);
  }

  lemma NextAfterIssue(log: seq<Entry>, no: nat, k: nat)
    requires k == NextAddressIndex(log)
    ensures NextAddressIndex(log + [AddressIssued(no, k)]) == k + 1
  {
    assert Front(log + [AddressIssued(no, k)]) == log;
  }

  lemma UnsentIssueSafe(env: Env, w: World)
    requires Inv(env, w)
    ensures var k := NextAddressIndex(w.log);
            var fs := [Append(AddressIssued(NextSeq(w.log), k))];
            Safe(env, w, fs) && NextAddressIndex(Run(w, fs).log) == k + 1
  {
    var k := NextAddressIndex(w.log);
    var e := AddressIssued(NextSeq(w.log), k);
    SafeAppend(env, w, e);
    assert [] + [Append(e)] == [Append(e)];
    RunSnoc(w, [], Append(e));
    NextAfterIssue(w.log, NextSeq(w.log), k);
  }

  /** Whether or not the wire takes the address, its index is used up. */
  lemma AskSafe(env: Env, w: World, c: Chain)
    requires Inv(env, w) && Truthful(env, c)
    ensures var k := NextAddressIndex(w.log);
            var fs := AskEffects(w, k, c);
            Safe(env, w, fs) && (c.address(k).Some? ==> NextAddressIndex(Run(w, fs).log) == k + 1)
  {
    var k := NextAddressIndex(w.log);
    if Answered(k, c) {
      IssueSafe(env, w, c.address(k).value);
    } else if c.address(k).Some? {
      UnsentIssueSafe(env, w);
      assert AskEffects(w, k, c) == [Append(AddressIssued(NextSeq(w.log), k))];
    }
  }

  lemma AskThenSafe(env: Env, w: World, c: Chain, rest: seq<Effect>)
    requires Inv(env, w) && Truthful(env, c)
    requires var w1 := Run(w, AskEffects(w, NextAddressIndex(w.log), c));
             Inv(env, w1) ==> Safe(env, w1, rest)
    ensures Safe(env, w, AskEffects(w, NextAddressIndex(w.log), c) + rest)
  {
    var fs := AskEffects(w, NextAddressIndex(w.log), c);
    AskSafe(env, w, c);
    if HonestAll(w, fs) {
      SafeEnd(env, w, fs);
    }
    SafeConcat(env, w, fs, rest);
  }

  lemma AskOnly(w: World, next: nat, issued: Option<nat>, inbox: seq<Message>, c: Chain)
    requires inbox != [] && inbox[0].AddrRequest?
    ensures var fs := AskEffects(w, next, c);
            SessionEffects(w, next, issued, inbox, c)
            == if Answered(next, c) then fs + SessionEffects(Run(w, fs), next + 1, Some(next), inbox[1..], c) else fs
  {}

  /** What a session does from an address request on, given that the rest of it is safe. */
  lemma AskSessionSafe(env: Env, w: World, c: Chain, rest: seq<Effect>, all: seq<Effect>)
    requires Inv(env, w) && Truthful(env, c)
    requires var fs := AskEffects(w, NextAddressIndex(w.log), c);
             && (all == if Answered(NextAddressIndex(w.log), c) then fs + rest else fs)
             && (Answered(NextAddressIndex(w.log), c) && Inv(env, Run(w, fs)) ==> Safe(env, Run(w, fs), rest))
    ensures Safe(env, w, all)
  {
    AskSafe(env, w, c);
    if Answered(NextAddressIndex(w.log), c) {
      AskThenSafe(env, w, c, rest);
    }
  }

  lemma AskCaseSafe(env: Env, w: World, issued: Option<nat>, inbox: seq<Message>, c: Chain)
    requires Inv(env, w) && Truthful(env, c) && inbox != [] && inbox[0].AddrRequest?
    requires var k := NextAddressIndex(w.log);
             var w1 := Run(w, AskEffects(w, k, c));
             Answered(k, c) && Inv(env, w1) ==> Safe(env, w1, SessionEffects(w1, k + 1, Some(k), inbox[1..], c))
    ensures Safe(env, w, SessionEffects(w, NextAddressIndex(w.log), issued, inbox, c))
  {
    var k := NextAddressIndex(w.log);
    var w1 := Run(w, AskEffects(w, k, c));
    AskOnly(w, k, issued, inbox, c);
    AskSessionSafe(env, w, c, SessionEffects(w1, k + 1, Some(k), inbox[1..], c),
                   SessionEffects(w, k, issued, inbox, c));
  }

  lemma {:induction false} SessionSafe(env: Env, w: World, issued: Option<nat>, inbox: seq<Message>, c: Chain)
    requires Inv(env, w) && Truthful(env, c)
    ensures Safe(env, w, SessionEffects(w, NextAddressIndex(w.log), issued, inbox, c))
    decreases |inbox|
  {
    var k := NextAddressIndex(w.log);
    if inbox == [] {
      assert SessionEffects(w, k, issued, inbox, c) == [];
    } else if inbox[0].AddrRequest? {
      var w1 := Run(w, AskEffects(w, k, c));
      AskSafe(env, w, c);
      if Answered(k, c) && Inv(env, w1) {
        SessionSafe(env, w1, Some(k), inbox[1..], c);
      }
      AskCaseSafe(env, w, issued, inbox, c);
    } else if inbox[0].Notify? {
      NotifySafe(env, w, issued, inbox[0].txid, c);
    } else {
      SessionSafe(env, w, issued, inbox[1..], c);
    }
  }

  /** The facts a page relies on, kept from its fetch to its last booking. */
  ghost predicate Bookable(env: Env, w: World, u: SpUtxo) {
    && u.sats == env.value(u.txid, u.vout)
    && LatestStatus(w.log, u.txid) != Some(Failed)
    && (u.txid in w.signed ==> IsSent(w.log, u.txid))
  }

  lemma BookOneSafe(env: Env, w: World, u: SpUtxo)
    requires Inv(env, w) && Bookable(env, w, u)
    ensures Safe(env, w, SpReceiveEffects(w.log, u)) && Inv(env, Run(w, SpReceiveEffects(w.log, u)))
  {
    if !HasSpOutput(w.log, u.Point()) {
      SafeAppend(env, w, SpReceived(NextSeq(w.log), u.txid, u.vout, u.sats, u.tweak, Pending));
    }
  }

  lemma BookOneKeepsBookable(env: Env, w: World, u: SpUtxo)
    ensures forall x :: Bookable(env, w, x) ==> Bookable(env, Run(w, SpReceiveEffects(w.log, u)), x)
  {
    if !HasSpOutput(w.log, u.Point()) {
      var e := SpReceived(NextSeq(w.log), u.txid, u.vout, u.sats, u.tweak, Pending);
      RunSnoc(w, [], Append(e));
      Snoc(w.log, e);
    }
  }

  lemma {:induction false} BookSafe(env: Env, w: World, us: seq<SpUtxo>)
    requires Inv(env, w) && forall u :: u in us ==> Bookable(env, w, u)
    ensures var w' := Run(w, BookEffects(w, us));
            && Safe(env, w, BookEffects(w, us)) && Inv(env, w')
            && forall x :: Bookable(env, w, x) ==> Bookable(env, w', x)
  {
    if us != [] {
      var front, u := us[..|us| - 1], us[|us| - 1];
      assert us == front + [u];
      var fs := BookEffects(w, front);
      var w1 := Run(w, fs);
      BookSafe(env, w, front);
      assert u in us;
      BookOneSafe(env, w1, u);
      BookOneKeepsBookable(env, w1, u);
      SafeConcat(env, w, fs, SpReceiveEffects(w1.log, u));
      RunConcat(w, fs, SpReceiveEffects(w1.log, u));
    }
  }

  /** What the scanner books from a page of the chain are outputs of its transactions,
      worth what the chain says. */
  lemma {:induction false} PaymentsAreOnChain(env: Env, v: Viewer, txs: seq<Tx>, u: SpUtxo)
    requires v.g.n > 0 && u in Payments(BookerOf(v), txs) && forall tx :: tx in txs ==> OnChain(env, tx)
    ensures u.txid in Ids(txs) && u.sats == env.value(u.txid, u.vout)
  {
    var front, tx := txs[..|txs| - 1], txs[|txs| - 1];
    assert tx in txs && forall x :: x in front ==> x in txs;
    if u in Payments(BookerOf(v), front) {
      PaymentsAreOnChain(env, v, front, u);
    } else {
      BookedIsOutput(v, tx, u);
      assert OnChain(env, tx);
    }
  }

  lemma PageSafe(env: Env, w: World, v: Viewer, txs: seq<Tx>)
    requires Inv(env, w) && Allowed(env, w, OpPage(v, txs))
    ensures Safe(env, w, PageEffects(BookerOf(v), w, txs))
  {
    var f := Fetched(Ids(txs), true);
    var us := Payments(BookerOf(v), txs);
    if Honest(w, f) {
      forall u | u in us ensures Bookable(env, w, u) {
        PaymentsAreOnChain(env, v, txs, u);
        assert u.txid in f.txids;
      }
      BookSafe(env, w, us);
    }
    SafeCons(env, w, f, BookEffects(w, us));
  }

  /** Every operation that is allowed can be started, carried out and cut short anywhere. */
  lemma PlanSafe(env: Env, w: World, op: Op)
    requires Inv(env, w) && Allowed(env, w, op)
    ensures Safe(env, w, Plan(w, op))
  {
    match op
    case OpSend(p, answer, checked) => SendSafe(env, w, p, answer, checked);
    case OpReconcile(o, calls) => ReconcileSafe(env, w, o, calls);
    case OpSession(inbox, c) => SessionSafe(env, w, None, inbox, c);
    case OpDeposit(d, index) =>
      var f := Fetched({d.txid}, false);
      if Honest(w, f) {
        assert d.txid in f.txids;
        ReceiveSafe(env, w, d, index);
      }
      SafeCons(env, w, f, ReceiveEffects(w.log, d.txid, d.sats, index));
    case OpPage(v, txs) => PageSafe(env, w, v, txs);
    case OpTrack(marked) => SpendAllSafe(env, w, marked);
  }
}
