// The send path: sidecar, then durable Sent entry, then broadcast, then the
// spent marks of the silent-payment outputs that funded it.
module Pay {
  import opened Base
  import opened Log
  import opened World
  import opened LedgerStore
  import opened PolicyGate
  import View

  /** The smallest silent-payment send. */
  const SP_MIN_SATS: nat := 330

  /** A signed transaction ready to be recorded: what it pays and what it consumes. */
  datatype Payment = Payment(txid: Txid, hex: string, to: string, sats: nat, at: nat, consumed: seq<Outpoint>)

  /** How the network answers the broadcast; a failed one may be a hard rejection. */
  datatype Answer = Taken | Refused(hard: bool)

  function SentEntry(log: seq<Entry>, p: Payment): Entry {
    Sent(NextSeq(log), p.txid, p.sats, p.to, Pending, p.at)
  }

  /** The steps up to and including the broadcast. */
  function Announce(log: seq<Entry>, p: Payment, answer: Answer): seq<Effect> {
    [WriteSidecar(p.txid, p.hex), Append(SentEntry(log, p)), Broadcast(p.txid, p.hex, answer == Refused(true))]
  }

  /** Marking each of ps spent, unless it already is. */
  function SpendAll(w: World, ps: seq<Outpoint>): seq<Effect> {
    if ps == [] then []
    else
      var before := SpendAll(w, ps[..|ps| - 1]);
      before + SpendEffects(Run(w, before).log, ps[|ps| - 1])
  }

  function SendEffects(w: World, p: Payment, answer: Answer): seq<Effect> {
    var fs := Announce(w.log, p, answer);
    fs + if answer == Taken then SpendAll(Run(w, fs), p.consumed) else []
  }

  // --- what a send leaves behind ---------------------------------------------------

  /** The steps of a send: the signed bytes are kept, the payment is recorded, the same
      bytes are handed out once; then, if the network took them, the consumed outpoints
      are marked, each at most once. */
  ghost predicate SendSteps(log: seq<Entry>, fs: seq<Effect>, p: Payment, answer: Answer) {
    && |fs| >= 3
    && fs[0] == WriteSidecar(p.txid, p.hex)
    && fs[1] == Append(Sent(NextSeq(log), p.txid, p.sats, p.to, Pending, p.at))
    && fs[2] == Broadcast(p.txid, p.hex, answer == Refused(true))
    && (answer != Taken ==> |fs| == 3)
    && forall i :: 3 <= i < |fs| ==>
         fs[i].Append? && fs[i].entry.SpSpent? && (fs[i].entry.txid, fs[i].entry.vout) in p.consumed
  }

  /** log' is log with the payment p on the books, at its amount, recipient and time. */
  ghost predicate Recorded(log: seq<Entry>, log': seq<Entry>, p: Payment) {
    && |log| < |log'| && log'[..|log|] == log
    && log'[|log|] == Sent(NextSeq(log), p.txid, p.sats, p.to, Pending, p.at)
    && (forall i :: |log| < i < |log'| ==> log'[i].SpSpent? && (log'[i].txid, log'[i].vout) in p.consumed)
  }

  /** What the record of p is worth: its amount leaves the balance and enters the sends of
      its own transaction and every window that its time lies in. */
  ghost predicate Debited(log: seq<Entry>, log': seq<Entry>, p: Payment) {
    && RawBalance(log') == RawBalance(log) - p.sats
    && SentOf(log', p.txid) == p.sats
    && (forall lo: nat, hi: nat ::
          SentBetween(log', lo, hi) == SentBetween(log, lo, hi) + if lo <= p.at <= hi then p.sats else 0)
    && (forall cutoff: nat ::
          SpentSince(log', cutoff) == SpentSince(log, cutoff) + if cutoff <= p.at then p.sats else 0)
  }

  /** From log to log', by the effects fs, the payment p was made and put on the books. */
  ghost predicate Paid(log: seq<Entry>, log': seq<Entry>, fs: seq<Effect>, p: Payment, answer: Answer) {
    && SendSteps(log, fs, p, answer) && Recorded(log, log', p)
    && (!HasTxid(log, p.txid) ==> Debited(log, log', p))
  }

  lemma SentEntryDebits(log: seq<Entry>, e: Entry, p: Payment)
    requires !HasTxid(log, p.txid) && e == Sent(e.no, p.txid, p.sats, p.to, Pending, p.at)
    ensures Debited(log, log + [e], p)
  {
    var log' := log + [e];
    Snoc(log, e);
    View.UnbookedHasNoPart(log, p.txid);
    View.RawDiffersByPart(log, log, log', p.txid);
    assert Front(log') == log;
  }

  /** Marks are worth nothing. */
  lemma {:induction false} MarksAreWorthless(log: seq<Entry>, log': seq<Entry>, all: seq<Entry>, t: Txid)
    requires log <= log' && forall i :: |log| <= i < |log'| ==> log'[i].SpSpent?
    ensures Raw(log', all) == Raw(log, all) && SentOf(log', t) == SentOf(log, t)
    ensures forall lo: nat, hi: nat :: SentBetween(log', lo, hi) == SentBetween(log, lo, hi)
    ensures forall cutoff: nat :: SpentSince(log', cutoff) == SpentSince(log, cutoff)
    decreases |log'|
  {
    if |log'| > |log| {
      MarksAreWorthless(log, Front(log'), all, t);
    } else {
      assert log == log';
    }
  }

  lemma RawByStatus(es: seq<Entry>, all: seq<Entry>, all': seq<Entry>)
    requires forall t :: LatestStatus(all, t) == LatestStatus(all', t)
    ensures Raw(es, all) == Raw(es, all')
  {
    View.RawDiffersByPart(es, all, all', "");
  }

  /** A send does those steps, and afterwards its payment is recorded and debited, whatever
      the network answered. */
  lemma SendIsRecorded(w: World, p: Payment, answer: Answer)
    ensures var fs := SendEffects(w, p, answer);
            Paid(w.log, Run(w, fs).log, fs, p, answer)
  {
    var first := Announce(w.log, p, answer);
    var w1 := Run(w, first);
    var marks := if answer == Taken then SpendAll(w1, p.consumed) else [];
    AnnounceRuns(w, p, answer);
    RunConcat(w, first, marks);
    SpendAllMarks(w1, p.consumed);
    SpendAllSpends(w1, p.consumed);
    var log1, log' := w1.log, Run(w, SendEffects(w, p, answer)).log;
    assert log1 == w.log + [Sent(NextSeq(w.log), p.txid, p.sats, p.to, Pending, p.at)];
    if !HasTxid(w.log, p.txid) {
      SentEntryDebits(w.log, log1[|w.log|], p);
      MarksAreWorthless(log1, log', log', p.txid);
      RawByStatus(log1, log1, log');
    }
  }

  lemma {:induction false} SpendAllMarks(w: World, ps: seq<Outpoint>)
    ensures forall f :: f in SpendAll(w, ps) ==>
              f.Append? && f.entry.SpSpent? && (f.entry.txid, f.entry.vout) in ps
  {
    if ps != [] {
      SpendAllMarks(w, ps[..|ps| - 1]);
      assert ps == ps[..|ps| - 1] + [ps[|ps| - 1]];
    }
  }

  lemma AnnounceRuns(w: World, p: Payment, answer: Answer)
    ensures var fs := Announce(w.log, p, answer);
            Run(w, fs) == Apply(Apply(Apply(w, fs[0]), fs[1]), fs[2])
  {
    var fs := Announce(w.log, p, answer);
    RunSnoc(w, [], fs[0]);
    RunSnoc(w, [fs[0]], fs[1]);
    RunSnoc(w, [fs[0], fs[1]], fs[2]);
    assert [fs[0], fs[1]] == [fs[0]] + [fs[1]] && fs == [fs[0], fs[1]] + [fs[2]];
  }

  /** Record, then broadcast, then mark what was consumed. */
  method RecordAndBroadcast(led: Ledger, p: Payment, answer: Answer) returns (r: Result<Txid>)
    requires led.Valid()
    modifies led
    ensures led.Valid()
    ensures led.trace == old(led.trace) + SendEffects(old(led.world), p, answer)
    ensures led.world == Run(old(led.world), SendEffects(old(led.world), p, answer))
    ensures Paid(old(led.entries), led.entries, led.trace[|old(led.trace)|..], p, answer)
    ensures r == if answer == Taken then Ok(p.txid) else Err
  {
    ghost var w0, t0 := led.world, led.trace;
    ghost var first := Announce(led.entries, p, answer);
    AnnounceRuns(w0, p, answer);
    SendIsRecorded(w0, p, answer);
    led.WriteSidecar(p.txid, p.hex);
    led.Append(Sent(NextSeq(led.entries), p.txid, p.sats, p.to, Pending, p.at));
    led.Act(Broadcast(p.txid, p.hex, answer == Refused(true)));
    assert led.trace == t0 + first && led.world == Run(w0, first);
    if answer != Taken {
      assert SendEffects(w0, p, answer) == first;
      return Err;
    }
    RunConcat(w0, first, SpendAll(led.world, p.consumed));
    MarkSpent(led, p.consumed);
    return Ok(p.txid);
  }

  method MarkSpent(led: Ledger, ps: seq<Outpoint>)
    requires led.Valid()
    modifies led
    ensures led.Valid()
    ensures led.trace == old(led.trace) + SpendAll(old(led.world), ps)
    ensures led.world == Run(old(led.world), SpendAll(old(led.world), ps))
  {
    ghost var w0, t0 := led.world, led.trace;
    ghost var done: seq<Effect> := [];
    for i := 0 to |ps|
      invariant led.Valid()
      invariant led.trace == t0 + done && led.world == Run(w0, done)
      invariant done == SpendAll(w0, ps[..i])
    {
      ghost var step := SpendEffects(led.entries, ps[i]);
      assert ps[..i + 1][..i] == ps[..i];
      RunConcat(w0, done, step);
      var _ := led.RecordSpSpent(ps[i].0, ps[i].1);
      done := done + step;
    }
    assert ps[..|ps|] == ps;
  }

  function Points(us: seq<SpUtxo>): seq<Outpoint> {
    if us == [] then [] else Points(us[..|us| - 1]) + [us[|us| - 1].Point()]
  }

  /** What building and signing yields; every silent-payment output handed in is consumed. */
  datatype Built = Built(txid: Txid, hex: string, address: string)

  /** A plain send; build is the outcome of building and signing. */
  method Send(led: Ledger, build: Result<Built>, to: string, sats: nat, now: nat, answer: Answer)
      returns (r: Result<Txid>)
    requires led.Valid()
    modifies led
    ensures led.Valid()
    ensures build.Err? ==> r == Err && led.trace == old(led.trace)
    ensures build.Ok? ==>
      var p := Payment(build.value.txid, build.value.hex, to, sats, now, []);
      && led.trace == old(led.trace) + SendEffects(old(led.world), p, answer)
      && Paid(old(led.entries), led.entries, led.trace[|old(led.trace)|..], p, answer)
    ensures r == if build.Ok? && answer == Taken then Ok(build.value.txid) else Err
  {
    if build.Err? {
      return Err;
    }
    r := RecordAndBroadcast(led, Payment(build.value.txid, build.value.hex, to, sats, now, []), answer);
  }

  /** A send to a normal address that also spends every received silent-payment output. */
  method SendSpendingSp(led: Ledger, build: seq<SpUtxo> -> Result<Built>,
                        to: string, sats: nat, now: nat, answer: Answer)
      returns (r: Result<Txid>)
    requires led.Valid()
    modifies led
    ensures led.Valid()
    ensures var us := SpUtxos(old(led.entries));
            var built := build(us);
            if built.Err? then r == Err && led.trace == old(led.trace)
            else
              var p := Payment(built.value.txid, built.value.hex, to, sats, now, Points(us));
              && led.trace == old(led.trace) + SendEffects(old(led.world), p, answer)
              && Paid(old(led.entries), led.entries, led.trace[|old(led.trace)|..], p, answer)
    ensures r.Ok? ==> answer == Taken
    ensures r.Ok? ==> forall q :: IsSpSpent(led.entries, q) <==>
              IsSpSpent(old(led.entries), q) || exists u :: u in SpUtxos(old(led.entries)) && u.Point() == q
    ensures r.Ok? ==> SpUtxos(led.entries) == []
  {
    var us := SpUtxos(led.entries);
    var built := build(us);
    if built.Err? {
      return Err;
    }
    ghost var log := led.entries;
    ghost var p := Payment(built.value.txid, built.value.hex, to, sats, now, Points(us));
    r := RecordAndBroadcast(led, Payment(built.value.txid, built.value.hex, to, sats, now, Points(us)), answer);
    if answer == Taken {
      SendSpendsEverything(old(led.world), p, us);
    }
  }

  /** A send to a silent-payment code. The floor, the code and the derived address are
      checked before anything is recorded. */
  method SpSend(led: Ledger, codeAccepted: bool, build: seq<SpUtxo> -> Result<Built>, policy: Policy,
                code: string, sats: nat, now: nat, answer: Answer) returns (r: Result<Txid>)
    requires led.Valid()
    modifies led
    ensures led.Valid()
    ensures var us := SpUtxos(old(led.entries));
            var built := build(us);
            if sats < 330 || !codeAccepted || built.Err? || built.value.address in policy.blocked
            then r == Err && led.trace == old(led.trace)
            else
              var p := Payment(built.value.txid, built.value.hex, code, sats, now, Points(us));
              && led.trace == old(led.trace) + SendEffects(old(led.world), p, answer)
              && Paid(old(led.entries), led.entries, led.trace[|old(led.trace)|..], p, answer)
    ensures r.Ok? ==> answer == Taken
    ensures r.Ok? ==> SpUtxos(led.entries) == []
  {
    if sats < SP_MIN_SATS || !codeAccepted {
      return Err;
    }
    var us := SpUtxos(led.entries);
    var built := build(us);
    if built.Err? || CheckAddress(policy, built.value.address) != None {
      return Err;
    }
    ghost var p := Payment(built.value.txid, built.value.hex, code, sats, now, Points(us));
    r := RecordAndBroadcast(led, Payment(built.value.txid, built.value.hex, code, sats, now, Points(us)), answer);
    if answer == Taken {
      SendSpendsEverything(old(led.world), p, us);
    }
  }

  // --- what a completed send leaves of the spendable outputs ----------------------

  /** es' is es followed by entries that mark outpoints spent, ps among them. */
  ghost predicate Spends(es: seq<Entry>, es': seq<Entry>, ps: seq<Outpoint>) {
    && es <= es'
    && (forall i :: |es| <= i < |es'| ==> es'[i].SpSpent? && (es'[i].txid, es'[i].vout) in ps)
    && (forall p :: IsSpSpent(es', p) <==> IsSpSpent(es, p) || p in ps)
    && (forall t :: LatestStatus(es', t) == LatestStatus(es, t))
  }

  lemma SpendsOneMore(es: seq<Entry>, log: seq<Entry>, front: seq<Outpoint>, p: Outpoint)
    requires Spends(es, log, front)
    ensures IsSpSpent(log, p) ==> Spends(es, log, front + [p])
    ensures Spends(es, log + [SpSpent(NextSeq(log), p.0, p.1)], front + [p])
  {
    Snoc(log, SpSpent(NextSeq(log), p.0, p.1));
    assert forall q :: q in front + [p] <==> q in front || q == p;
  }

  lemma {:induction false} SpendAllSpends(w: World, ps: seq<Outpoint>)
    ensures Spends(w.log, Run(w, SpendAll(w, ps)).log, ps)
  {
    if ps != [] {
      var front, p := ps[..|ps| - 1], ps[|ps| - 1];
      var w1 := Run(w, SpendAll(w, front));
      SpendAllSpends(w, front);
      SpendsOneMore(w.log, w1.log, front, p);
      RunConcat(w, SpendAll(w, front), SpendEffects(w1.log, p));
      RunSnoc(w1, [], Append(SpSpent(NextSeq(w1.log), p.0, p.1)));
      assert ps == front + [p];
    }
  }

  /** Marks and status-neutral entries only take outputs off the list. */
  lemma {:induction false} ListedAfterSpends(es: seq<Entry>, all: seq<Entry>, all': seq<Entry>, ps: seq<Outpoint>)
    requires forall t :: LatestStatus(all', t) == LatestStatus(all, t)
    requires forall p :: IsSpSpent(all', p) <==> IsSpSpent(all, p) || p in ps
    ensures SpListed(es, all', true) == Unspent(SpListed(es, all, true), ps)
  {
    if es != [] {
      ListedAfterSpends(Front(es), all, all', ps);
      var before, us := SpListed(Front(es), all, true), SpListed(es, all, true);
      if Lists(Last(es), all, true) {
        assert us[..|us| - 1] == before;
      }
    }
  }

  /** The outputs of us that are not in ps. */
  function Unspent(us: seq<SpUtxo>, ps: seq<Outpoint>): seq<SpUtxo> {
    if us == [] then []
    else
      var before := Unspent(us[..|us| - 1], ps);
      if us[|us| - 1].Point() in ps then before else before + [us[|us| - 1]]
  }

  lemma {:induction false} NoOutputsIn(es: seq<Entry>, es': seq<Entry>, all: seq<Entry>)
    requires es <= es' && forall i :: |es| <= i < |es'| ==> !es'[i].SpReceived?
    ensures SpListed(es', all, true) == SpListed(es, all, true)
    decreases |es'|
  {
    if |es'| > |es| {
      NoOutputsIn(es, Front(es'), all);
    } else {
      assert es == es';
    }
  }

  /** Appending marks for ps leaves exactly the listed outputs that are not in ps. */
  lemma SpendsFilterUtxos(es: seq<Entry>, es': seq<Entry>, ps: seq<Outpoint>)
    requires Spends(es, es', ps)
    ensures SpUtxos(es') == Unspent(SpUtxos(es), ps)
  {
    NoOutputsIn(es, es', es');
    ListedAfterSpends(es, es, es', ps);
  }

  lemma {:induction false} UnspentOfOwnPoints(us: seq<SpUtxo>, ps: seq<Outpoint>)
    requires forall u :: u in us ==> u.Point() in ps
    ensures Unspent(us, ps) == []
  {
    if us != [] {
      assert us[|us| - 1] in us;
      UnspentOfOwnPoints(us[..|us| - 1], ps);
    }
  }

  lemma {:induction false} PointsOf(us: seq<SpUtxo>)
    ensures forall p :: p in Points(us) <==> exists u :: u in us && u.Point() == p
  {
    if us != [] {
      PointsOf(us[..|us| - 1]);
      assert us == us[..|us| - 1] + [us[|us| - 1]];
    }
  }

  /** A completed send leaves no spendable silent-payment output behind. */
  lemma SendSpendsEverything(w: World, p: Payment, us: seq<SpUtxo>)
    requires us == SpUtxos(w.log) && p.consumed == Points(us)
    ensures var log' := Run(w, SendEffects(w, p, Taken)).log;
            && SpUtxos(log') == []
            && forall q :: IsSpSpent(log', q) <==> IsSpSpent(w.log, q) || exists u :: u in us && u.Point() == q
  {
    var first := Announce(w.log, p, Taken);
    var w1 := Run(w, first);
    AnnounceRuns(w, p, Taken);
    RunConcat(w, first, SpendAll(w1, p.consumed));
    SpendAllSpends(w1, p.consumed);
    SpendsFilterUtxos(w1.log, Run(w, SendEffects(w, p, Taken)).log, p.consumed);
    PointsOf(us);
    SentListsNothingNew(w.log, SentEntry(w.log, p));
    UnspentOfOwnPoints(SpUtxos(w1.log), p.consumed);
  }

  /** A fresh Sent entry can only take outputs of its own transaction off the list. */
  lemma SentListsNothingNew(es: seq<Entry>, e: Entry)
    requires e.Sent? && e.status != Final
    ensures forall u :: u in SpUtxos(es + [e]) ==> u in SpUtxos(es)
  {
    Snoc(es, e);
    assert Front(es + [e]) == es;
    SpListedShrinks(es, es, es + [e]);
  }

  lemma {:induction false} SpListedShrinks(es: seq<Entry>, all: seq<Entry>, all': seq<Entry>)
    requires forall e :: Lists(e, all', true) ==> Lists(e, all, true)
    ensures forall u :: u in SpListed(es, all', true) ==> u in SpListed(es, all, true)
  {
    if es != [] {
      SpListedShrinks(Front(es), all, all');
    }
  }
}
