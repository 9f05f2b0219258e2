// The log refines a mutable table: a few maps and sets, updated once per
// appended entry, answer every query that the ledger answers by folding over
// its whole history.
module View {
  import opened Base
  import opened Log

  datatype View = View(
    status: map<Txid, Status>,
    received: map<Txid, nat>,
    sent: map<Txid, nat>,
    raw: int,
    order: seq<Txid>,
    outs: seq<SpUtxo>,
    spent: set<Outpoint>,
    sends: seq<(nat, nat)>)

  const EMPTY: View := View(map[], map[], map[], 0, [], [], {}, [])

  function Lookup(m: map<Txid, Status>, t: Txid): Option<Status> {
    if t in m then Some(m[t]) else None
  }

  function Get(m: map<Txid, nat>, t: Txid): nat {
    if t in m then m[t] else 0
  }

  /** What transaction t is worth in all when its effective status is s. */
  function Part(v: View, t: Txid, s: Option<Status>): int {
    (if s == Some(Final) then Get(v.received, t) else 0) - (if s != Some(Failed) then Get(v.sent, t) else 0)
  }

  /** One append. Only the transaction named by the entry is looked at. */
  function Step(v: View, e: Entry): View {
    match e
    case AddressIssued(_, _) => v
    case SpSpent(_, t, vout) => v.(spent := v.spent + {(t, vout)})
    case StatusUpdate(_, t, s) => Settle(v, v, t, s)
    case Received(_, t, sats, _, s) =>
      Settle(v, Book(v, t).(received := v.received[t := Get(v.received, t) + sats]), t, s)
    case Sent(_, t, sats, _, s, at) =>
      Settle(v, Book(v, t).(sent := v.sent[t := Get(v.sent, t) + sats], sends := v.sends + [(at, sats)]), t, s)
    case SpReceived(_, t, vout, sats, tweak, s) =>
      Settle(v, Book(v, t).(outs := v.outs + [SpUtxo(t, vout, sats, tweak)]), t, s)
  }

  function Book(v: View, t: Txid): View {
    if t in v.order then v else v.(order := v.order + [t])
  }

  /** Moves t to status s: the running balance changes by t's own part only. */
  function Settle(before: View, v: View, t: Txid, s: Status): View {
    v.(status := v.status[t := s],
       raw := before.raw - Part(before, t, Lookup(before.status, t)) + Part(v, t, Some(s)))
  }

  function ViewOf(es: seq<Entry>): View {
    if es == [] then EMPTY else Step(ViewOf(Front(es)), Last(es))
  }

  // --- the same queries, answered from the table -----------------------------

  function ViewPending(v: View, order: seq<Txid>): seq<Txid> {
    if order == [] then []
    else
      var before := ViewPending(v, order[..|order| - 1]);
      var t := order[|order| - 1];
      if Lookup(v.status, t) != Some(Final) && Lookup(v.status, t) != Some(Failed) then before + [t] else before
  }

  function ViewListed(v: View, outs: seq<SpUtxo>, final: bool): seq<SpUtxo> {
    if outs == [] then []
    else
      var before := ViewListed(v, outs[..|outs| - 1], final);
      var u := outs[|outs| - 1];
      if (Lookup(v.status, u.txid) == Some(Final)) == final && u.Point() !in v.spent then before + [u] else before
  }

  function ViewSpentSince(sends: seq<(nat, nat)>, cutoff: nat): nat {
    if sends == [] then 0
    else
      var last := sends[|sends| - 1];
      ViewSpentSince(sends[..|sends| - 1], cutoff) + (if last.0 >= cutoff then last.1 else 0)
  }

  // --- proofs -----------------------------------------------------------------

  lemma {:induction false} StatusAgrees(es: seq<Entry>, t: Txid)
    ensures Lookup(ViewOf(es).status, t) == LatestStatus(es, t)
  {
    if es != [] {
      StatusAgrees(Front(es), t);
    }
  }

  lemma {:induction false} SpentAgrees(es: seq<Entry>, p: Outpoint)
    ensures p in ViewOf(es).spent <==> IsSpSpent(es, p)
  {
    if es != [] {
      SpentAgrees(Front(es), p);
      Snoc(Front(es), Last(es));
      assert es == Front(es) + [Last(es)];
    }
  }

  lemma {:induction false} OrderAgrees(es: seq<Entry>)
    ensures ViewOf(es).order == Firsts(es)
  {
    if es != [] {
      OrderAgrees(Front(es));
    }
  }

  lemma {:induction false} PartAgrees(es: seq<Entry>, t: Txid)
    ensures Get(ViewOf(es).received, t) == ReceivedOf(es, t)
    ensures Get(ViewOf(es).sent, t) == SentOf(es, t)
  {
    if es != [] {
      PartAgrees(Front(es), t);
    }
  }

  /** Two logs that agree on every status except t's give es a worth that differs by t's part. */
  lemma {:induction false} RawDiffersByPart(es: seq<Entry>, all: seq<Entry>, all': seq<Entry>, t: Txid)
    requires forall x :: x != t ==> LatestStatus(all, x) == LatestStatus(all', x)
    ensures Raw(es, all') - PartOf(es, t, LatestStatus(all', t)) == Raw(es, all) - PartOf(es, t, LatestStatus(all, t))
  {
    if es != [] {
      RawDiffersByPart(Front(es), all, all', t);
    }
  }

  /** The running balance is the unsaturated balance fold. */
  lemma {:induction false} RawAgrees(es: seq<Entry>)
    ensures ViewOf(es).raw == RawBalance(es)
  {
    if es != [] {
      var front, e := Front(es), Last(es);
      RawAgrees(front);
      Snoc(front, e);
      assert es == front + [e];
      if e.Payment() || e.StatusUpdate? {
        RawDiffersByPart(front, front, es, e.txid);
        StatusAgrees(front, e.txid);
        PartAgrees(front, e.txid);
        PartAgrees(es, e.txid);
      } else {
        RawDiffersByPart(front, front, es, "");
      }
    }
  }

  /** One appended entry adds at most one output and one send to the table. */
  lemma StepGrows(v: View, e: Entry)
    ensures Step(v, e).outs == if e.SpReceived? then v.outs + [SpUtxo(e.txid, e.vout, e.sats, e.tweak)] else v.outs
    ensures Step(v, e).sends == if e.Sent? then v.sends + [(e.at, e.sats)] else v.sends
  {}

  lemma ViewListedSnoc(v: View, outs: seq<SpUtxo>, u: SpUtxo, final: bool)
    ensures ViewListed(v, outs + [u], final)
            == ViewListed(v, outs, final)
               + if (Lookup(v.status, u.txid) == Some(Final)) == final && u.Point() !in v.spent then [u] else []
  {
    assert (outs + [u])[..|outs|] == outs;
  }

  lemma ViewSpentSinceSnoc(sends: seq<(nat, nat)>, send: (nat, nat), cutoff: nat)
    ensures ViewSpentSince(sends + [send], cutoff)
            == ViewSpentSince(sends, cutoff) + if send.0 >= cutoff then send.1 else 0
  {
    assert (sends + [send])[..|sends|] == sends;
  }

  // --- the balance, transaction by transaction -----------------------------------

  /** What the transactions ts are worth in es, judged by the statuses in all. */
  function Parts(ts: seq<Txid>, es: seq<Entry>, all: seq<Entry>): int {
    if ts == [] then 0
    else Parts(ts[..|ts| - 1], es, all) + PartOf(es, ts[|ts| - 1], LatestStatus(all, ts[|ts| - 1]))
  }

  /** One more payment changes the worth of its own transaction only. */
  lemma {:induction false} PartsSnoc(ts: seq<Txid>, es: seq<Entry>, e: Entry, all: seq<Entry>)
    requires forall i, j :: 0 <= i < j < |ts| ==> ts[i] != ts[j]
    ensures Parts(ts, es + [e], all)
            == Parts(ts, es, all)
               + if e.Payment() && e.txid in ts then Worth(e, LatestStatus(all, e.txid)) else 0
  {
    assert Front(es + [e]) == es;
    if ts != [] {
      var front, t := ts[..|ts| - 1], ts[|ts| - 1];
      assert ts == front + [t] && t !in front;
      PartsSnoc(front, es, e, all);
    }
  }

  lemma {:induction false} RawIsSumOfParts(es: seq<Entry>, all: seq<Entry>)
    ensures Raw(es, all) == Parts(Firsts(es), es, all)
  {
    if es != [] {
      var front, e := Front(es), Last(es);
      var ts := Firsts(front);
      RawIsSumOfParts(front, all);
      FirstsAreBooked(front);
      assert es == front + [e];
      PartsSnoc(ts, front, e, all);
      if e.Payment() && e.txid !in ts {
        UnbookedHasNoPart(front, e.txid);
        assert (ts + [e.txid])[..|ts|] == ts;
      }
    }
  }

  lemma {:induction false} UnbookedHasNoPart(es: seq<Entry>, t: Txid)
    requires !HasTxid(es, t)
    ensures SentOf(es, t) == 0 && ReceivedOf(es, t) == 0
  {
    if es != [] {
      assert es == Front(es) + [Last(es)];
      Snoc(Front(es), Last(es));
      UnbookedHasNoPart(Front(es), t);
    }
  }

  /** Conservation: the unsaturated balance is the sum, over the booked transactions, of what
      each was received, if it is final, less what it sent, unless it failed. */
  lemma BalanceIsSumOfParts(es: seq<Entry>)
    ensures RawBalance(es) == Parts(Firsts(es), es, es)
    ensures forall t :: t in Firsts(es) <==> HasTxid(es, t)
    ensures forall i, j :: 0 <= i < j < |Firsts(es)| ==> Firsts(es)[i] != Firsts(es)[j]
  {
    RawIsSumOfParts(es, es);
    FirstsAreBooked(es);
  }

  /** A new receipt is worth nothing while it is pending and its amount once it is final. */
  lemma ReceiptCountsWhenFinal(es: seq<Entry>, e: Entry, no: nat)
    requires e.Received? && e.status == Pending && !HasTxid(es, e.txid)
    ensures RawBalance(es + [e]) == RawBalance(es)
    ensures RawBalance(es + [e] + [StatusUpdate(no, e.txid, Final)]) == RawBalance(es) + e.sats
  {
    var es' := es + [e];
    Snoc(es, e);
    UnbookedHasNoPart(es, e.txid);
    RawDiffersByPart(es, es, es', e.txid);
    assert Front(es') == es;
    StatusUpdateMovesOwnPart(es', no, e.txid, Final);
  }

  lemma {:induction false} ListedAgrees(es: seq<Entry>, all: seq<Entry>, final: bool)
    ensures SpListed(es, all, final) == ViewListed(ViewOf(all), ViewOf(es).outs, final)
  {
    if es != [] {
      var front, e := Front(es), Last(es);
      ListedAgrees(front, all, final);
      StepGrows(ViewOf(front), e);
      if e.SpReceived? {
        ViewListedSnoc(ViewOf(all), ViewOf(front).outs, SpUtxo(e.txid, e.vout, e.sats, e.tweak), final);
        StatusAgrees(all, e.txid);
        SpentAgrees(all, (e.txid, e.vout));
      }
    }
  }

  lemma {:induction false} PendingAgrees(ts: seq<Txid>, es: seq<Entry>)
    ensures OpenOnly(ts, es) == ViewPending(ViewOf(es), ts)
  {
    if ts != [] {
      PendingAgrees(ts[..|ts| - 1], es);
      StatusAgrees(es, ts[|ts| - 1]);
    }
  }

  lemma {:induction false} SpentSinceAgrees(es: seq<Entry>, cutoff: nat)
    ensures SpentSince(es, cutoff) == ViewSpentSince(ViewOf(es).sends, cutoff)
  {
    if es != [] {
      var front, e := Front(es), Last(es);
      SpentSinceAgrees(front, cutoff);
      StepGrows(ViewOf(front), e);
      if e.Sent? {
        ViewSpentSinceSnoc(ViewOf(front).sends, (e.at, e.sats), cutoff);
      }
    }
  }

  /** Every query on the log is answered by the table that was updated once per append. */
  lemma LogRefinesTable(es: seq<Entry>)
    ensures forall t :: LatestStatus(es, t) == Lookup(ViewOf(es).status, t)
    ensures RawBalance(es) == ViewOf(es).raw
    ensures PendingOf(es) == ViewPending(ViewOf(es), ViewOf(es).order)
    ensures SpUtxos(es) == ViewListed(ViewOf(es), ViewOf(es).outs, true)
    ensures SpBalance(es) == Sats(ViewListed(ViewOf(es), ViewOf(es).outs, true))
    ensures SpIncoming(es) == Sats(ViewListed(ViewOf(es), ViewOf(es).outs, false))
    ensures forall cutoff :: SpentSince(es, cutoff) == ViewSpentSince(ViewOf(es).sends, cutoff)
    ensures forall p :: IsSpSpent(es, p) <==> p in ViewOf(es).spent
  {
    forall t ensures LatestStatus(es, t) == Lookup(ViewOf(es).status, t) { StatusAgrees(es, t); }
    forall p ensures IsSpSpent(es, p) <==> p in ViewOf(es).spent { SpentAgrees(es, p); }
    forall cutoff: nat ensures SpentSince(es, cutoff) == ViewSpentSince(ViewOf(es).sends, cutoff) {
      SpentSinceAgrees(es, cutoff);
    }
    RawAgrees(es);
    OrderAgrees(es);
    PendingAgrees(Firsts(es), es);
    ListedAgrees(es, es, true);
    ListedAgrees(es, es, false);
    TotalIsSumOfListed(es, es, true);
    TotalIsSumOfListed(es, es, false);
  }

  /** A status update on t moves the unsaturated balance by exactly what t's own
      Received and Sent entries are worth, and leaves every other status alone. */
  lemma StatusUpdateMovesOwnPart(es: seq<Entry>, no: nat, t: Txid, s: Status)
    ensures var es' := es + [StatusUpdate(no, t, s)];
            && RawBalance(es') - RawBalance(es) == PartOf(es, t, Some(s)) - PartOf(es, t, LatestStatus(es, t))
            && forall x :: x != t ==> LatestStatus(es', x) == LatestStatus(es, x)
  {
    var e := StatusUpdate(no, t, s);
    Snoc(es, e);
    RawDiffersByPart(es, es, es + [e], t);
  }
}
