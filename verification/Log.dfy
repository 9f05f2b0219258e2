// The append-only event log and every view that is folded from it.
module Log {
  import opened Base

  type Txid = string
  type Outpoint = (Txid, nat)

  /** Confirmation stage of a payment; Failed is off the confirmation ladder. */
  datatype Status = Pending | Soft | Final | Failed

  /** The locked thresholds. A count of confirmations never means Failed. */
  function FromConfirmations(confs: nat): (s: Status)
    ensures s != Failed
    ensures s == Pending <==> confs < 1
    ensures s == Final <==> confs >= 3
  {
    if confs == 0 then Pending else if confs <= 2 then Soft else Final
  }

  datatype Entry =
    | AddressIssued(no: nat, index: nat)
    | Sent(no: nat, txid: Txid, sats: nat, to: string, status: Status, at: nat)
    | Received(no: nat, txid: Txid, sats: nat, index: nat, status: Status)
    | StatusUpdate(no: nat, txid: Txid, status: Status)
    | SpReceived(no: nat, txid: Txid, vout: nat, sats: nat, tweak: string, status: Status)
    | SpSpent(no: nat, txid: Txid, vout: nat)
  {
    /** The entries that put a transaction on the books. */
    predicate Payment() {
      Sent? || Received? || SpReceived?
    }

    /** The entries that (re)set the effective status of transaction t. */
    predicate Stamps(t: Txid) {
      (Payment() || StatusUpdate?) && txid == t
    }
  }

  /** A spendable Silent Payments output. */
  datatype SpUtxo = SpUtxo(txid: Txid, vout: nat, sats: nat, tweak: string) {
    function Point(): Outpoint { (txid, vout) }
  }

  function Last(es: seq<Entry>): Entry
    requires es != []
  {
    es[|es| - 1]
  }

  function Front(es: seq<Entry>): seq<Entry>
    requires es != []
  {
    es[..|es| - 1]
  }

  // --- single-entry queries -------------------------------------------------

  function NextSeq(es: seq<Entry>): nat {
    if es == [] then 0 else Last(es).no + 1
  }

  function NextAddressIndex(es: seq<Entry>): nat {
    if es == [] then 0
    else
      var before := NextAddressIndex(Front(es));
      if Last(es).AddressIssued? && Last(es).index + 1 > before then Last(es).index + 1 else before
  }

  predicate HasTxid(es: seq<Entry>, t: Txid) {
    exists e :: e in es && e.Payment() && e.txid == t
  }

  predicate HasSpOutput(es: seq<Entry>, p: Outpoint) {
    exists e :: e in es && e.SpReceived? && (e.txid, e.vout) == p
  }

  predicate IsSpSpent(es: seq<Entry>, p: Outpoint) {
    exists e :: e in es && e.SpSpent? && (e.txid, e.vout) == p
  }

  predicate IsSent(es: seq<Entry>, t: Txid) {
    exists e :: e in es && e.Sent? && e.txid == t
  }

  // --- effective status -----------------------------------------------------

  /** The status set by the last entry that stamps t. */
  function LatestStatus(es: seq<Entry>, t: Txid): Option<Status> {
    if es == [] then None
    else if Last(es).Stamps(t) then Some(Last(es).status)
    else LatestStatus(Front(es), t)
  }

  /** In flight: on the books and neither Final nor Failed. */
  predicate Open(es: seq<Entry>, t: Txid) {
    LatestStatus(es, t) != Some(Final) && LatestStatus(es, t) != Some(Failed)
  }

  /** Booked transactions in order of first mention. */
  function Firsts(es: seq<Entry>): seq<Txid> {
    if es == [] then []
    else
      var before := Firsts(Front(es));
      if Last(es).Payment() && Last(es).txid !in before then before + [Last(es).txid] else before
  }

  function OpenOnly(ts: seq<Txid>, es: seq<Entry>): seq<Txid> {
    if ts == [] then []
    else
      var before := OpenOnly(ts[..|ts| - 1], es);
      if Open(es, ts[|ts| - 1]) then before + [ts[|ts| - 1]] else before
  }

  /** The work queue. */
  function PendingOf(es: seq<Entry>): seq<Txid> {
    OpenOnly(Firsts(es), es)
  }

  // --- money ----------------------------------------------------------------

  /** What one entry adds to the balance, given the effective status of its transaction. */
  function Worth(e: Entry, s: Option<Status>): int {
    if e.Received? && s == Some(Final) then e.sats
    else if e.Sent? && s != Some(Failed) then 0 - e.sats
    else 0
  }

  /** The worth of es, judged by the statuses in effect in the log all. */
  function Raw(es: seq<Entry>, all: seq<Entry>): int {
    if es == [] then 0
    else Raw(Front(es), all) + (if Last(es).Payment() then Worth(Last(es), LatestStatus(all, Last(es).txid)) else 0)
  }

  function RawBalance(es: seq<Entry>): int {
    Raw(es, es)
  }

  /** What is shown: never less than nothing. */
  function Balance(es: seq<Entry>): (b: nat)
    ensures b >= RawBalance(es) && (b == RawBalance(es) || b == 0)
  {
    if RawBalance(es) < 0 then 0 else RawBalance(es)
  }

  /** All that the log ever booked as received in t, and as sent in t. */
  function ReceivedOf(es: seq<Entry>, t: Txid): nat {
    if es == [] then 0
    else ReceivedOf(Front(es), t) + (if Last(es).Received? && Last(es).txid == t then Last(es).sats else 0)
  }

  function SentOf(es: seq<Entry>, t: Txid): nat {
    if es == [] then 0
    else SentOf(Front(es), t) + (if Last(es).Sent? && Last(es).txid == t then Last(es).sats else 0)
  }

  /** The part of the balance that is due to t when its effective status is s. */
  function PartOf(es: seq<Entry>, t: Txid, s: Option<Status>): int {
    (if s == Some(Final) then ReceivedOf(es, t) else 0) - (if s != Some(Failed) then SentOf(es, t) else 0)
  }

  function SpentSince(es: seq<Entry>, cutoff: nat): nat {
    if es == [] then 0
    else SpentSince(Front(es), cutoff) + (if Last(es).Sent? && Last(es).at >= cutoff then Last(es).sats else 0)
  }

  // --- silent payment outputs -----------------------------------------------

  /** e books an output whose transaction is final (or not, for final == false) in
      the log all and that all does not mark spent. */
  predicate Lists(e: Entry, all: seq<Entry>, final: bool) {
    e.SpReceived? && (LatestStatus(all, e.txid) == Some(Final)) == final && !IsSpSpent(all, (e.txid, e.vout))
  }

  function SpListed(es: seq<Entry>, all: seq<Entry>, final: bool): seq<SpUtxo> {
    if es == [] then []
    else
      var before := SpListed(Front(es), all, final);
      var e := Last(es);
      if Lists(e, all, final) then before + [SpUtxo(e.txid, e.vout, e.sats, e.tweak)] else before
  }

  function SpUtxos(es: seq<Entry>): seq<SpUtxo> {
    SpListed(es, es, true)
  }

  function Sats(us: seq<SpUtxo>): nat {
    if us == [] then 0 else Sats(us[..|us| - 1]) + us[|us| - 1].sats
  }

  function SpTotal(es: seq<Entry>, all: seq<Entry>, final: bool): nat {
    if es == [] then 0
    else SpTotal(Front(es), all, final) + (if Lists(Last(es), all, final) then Last(es).sats else 0)
  }

  function SpBalance(es: seq<Entry>): nat {
    SpTotal(es, es, true)
  }

  function SpIncoming(es: seq<Entry>): nat {
    SpTotal(es, es, false)
  }

  // --- facts about the folds ------------------------------------------------

  /** How every view changes when one entry is appended. */
  lemma Snoc(es: seq<Entry>, e: Entry)
    ensures Front(es + [e]) == es && Last(es + [e]) == e
    ensures forall t :: HasTxid(es + [e], t) <==> HasTxid(es, t) || (e.Payment() && e.txid == t)
    ensures forall t :: IsSent(es + [e], t) <==> IsSent(es, t) || (e.Sent? && e.txid == t)
    ensures forall p :: HasSpOutput(es + [e], p) <==> HasSpOutput(es, p) || (e.SpReceived? && (e.txid, e.vout) == p)
    ensures forall p :: IsSpSpent(es + [e], p) <==> IsSpSpent(es, p) || (e.SpSpent? && (e.txid, e.vout) == p)
    ensures forall t :: LatestStatus(es + [e], t) == if e.Stamps(t) then Some(e.status) else LatestStatus(es, t)
  {
    var es' := es + [e];
    assert Front(es') == es && Last(es') == e;
    assert forall x :: x in es' <==> x in es || x == e;
    assert e in es';
  }

  lemma {:induction false} FirstsAreBooked(es: seq<Entry>)
    ensures forall t :: t in Firsts(es) <==> HasTxid(es, t)
    ensures forall i, j :: 0 <= i < j < |Firsts(es)| ==> Firsts(es)[i] != Firsts(es)[j]
  {
    if es != [] {
      FirstsAreBooked(Front(es));
      Snoc(Front(es), Last(es));
      assert es == Front(es) + [Last(es)];
    }
  }

  /** The transactions come in the order of their first mention. */
  lemma {:induction false} FirstsInOrder(es: seq<Entry>, a: nat, b: nat)
    requires a < b < |Firsts(es)|
    ensures exists i :: 0 <= i < |es| && es[i].Payment() && es[i].txid == Firsts(es)[a]
                        && forall j :: 0 <= j <= i ==> !(es[j].Payment() && es[j].txid == Firsts(es)[b])
  {
    var front := Front(es);
    FirstsAreBooked(front);
    if b < |Firsts(front)| {
      FirstsInOrder(front, a, b);
      var i :| 0 <= i < |front| && front[i].Payment() && front[i].txid == Firsts(front)[a]
               && forall j :: 0 <= j <= i ==> !(front[j].Payment() && front[j].txid == Firsts(front)[b]);
      assert es[i] == front[i] && forall j :: 0 <= j <= i ==> es[j] == front[j];
    } else {
      assert Firsts(es)[a] == Firsts(front)[a] && Firsts(front)[a] in Firsts(front);
      var e :| e in front && e.Payment() && e.txid == Firsts(es)[a];
      var i :| 0 <= i < |front| && front[i] == e;
      assert forall j :: 0 <= j <= i ==> es[j] == front[j] && es[j] in front;
    }
  }

  /** A new pending payment makes the work queue one longer. */
  lemma OneMorePending(es: seq<Entry>, e: Entry)
    requires e.Payment() && e.status == Pending && !HasTxid(es, e.txid)
    ensures |PendingOf(es + [e])| == |PendingOf(es)| + 1
  {
    var es', ts := es + [e], Firsts(es);
    Snoc(es, e);
    FirstsAreBooked(es);
    assert Front(es') == es && Firsts(es') == ts + [e.txid];
    OpenOnlySnoc(ts, e.txid, es');
    SameOpen(ts, es, es');
  }

  lemma OpenOnlySnoc(ts: seq<Txid>, t: Txid, es: seq<Entry>)
    ensures OpenOnly(ts + [t], es) == OpenOnly(ts, es) + if Open(es, t) then [t] else []
  {
    assert (ts + [t])[..|ts|] == ts;
  }

  lemma {:induction false} SameOpen(ts: seq<Txid>, es: seq<Entry>, es': seq<Entry>)
    requires forall t :: t in ts ==> LatestStatus(es, t) == LatestStatus(es', t)
    ensures OpenOnly(ts, es) == OpenOnly(ts, es')
  {
    if ts != [] {
      assert ts[|ts| - 1] in ts && forall t :: t in ts[..|ts| - 1] ==> t in ts;
      SameOpen(ts[..|ts| - 1], es, es');
    }
  }

  lemma {:induction false} OpenOnlyFilters(ts: seq<Txid>, es: seq<Entry>)
    ensures forall t :: t in OpenOnly(ts, es) <==> t in ts && Open(es, t)
    ensures (forall i, j :: 0 <= i < j < |ts| ==> ts[i] != ts[j]) ==>
              forall i, j :: 0 <= i < j < |OpenOnly(ts, es)| ==> OpenOnly(ts, es)[i] != OpenOnly(ts, es)[j]
  {
    if ts != [] {
      var front := ts[..|ts| - 1];
      OpenOnlyFilters(front, es);
      assert ts == front + [ts[|ts| - 1]];
      assert forall i :: 0 <= i < |front| ==> front[i] == ts[i];
    }
  }

  /** The work queue holds exactly the booked transactions that are not settled, each once. */
  lemma PendingIsTheWorkQueue(es: seq<Entry>)
    ensures forall t :: t in PendingOf(es) <==> HasTxid(es, t) && Open(es, t)
    ensures forall i, j :: 0 <= i < j < |PendingOf(es)| ==> PendingOf(es)[i] != PendingOf(es)[j]
  {
    FirstsAreBooked(es);
    OpenOnlyFilters(Firsts(es), es);
  }

  function Amounts(us: seq<SpUtxo>): seq<int> {
    seq(|us|, i requires 0 <= i < |us| => us[i].sats)
  }

  lemma {:induction false} SatsIsSum(us: seq<SpUtxo>)
    ensures Sats(us) == Sum(Amounts(us))
  {
    if us != [] {
      SatsIsSum(us[..|us| - 1]);
      assert Amounts(us) == Amounts(us[..|us| - 1]) + [us[|us| - 1].sats];
      SumSnoc(Amounts(us[..|us| - 1]), us[|us| - 1].sats);
    }
  }

  lemma {:induction false} TotalIsSumOfListed(es: seq<Entry>, all: seq<Entry>, final: bool)
    ensures SpTotal(es, all, final) == Sats(SpListed(es, all, final))
  {
    if es != [] {
      TotalIsSumOfListed(Front(es), all, final);
      var before, us := SpListed(Front(es), all, final), SpListed(es, all, final);
      if Lists(Last(es), all, final) {
        assert us[..|us| - 1] == before;
      }
    }
  }

  /** Every address index ever issued lies below the next one, and the next one is the first
      that does: one more than some issued index, or zero if there is none. */
  lemma {:induction false} IssuedBelowNext(es: seq<Entry>)
    ensures forall e :: e in es && e.AddressIssued? ==> e.index < NextAddressIndex(es)
    ensures NextAddressIndex(es) == 0 || exists e :: e in es && e.AddressIssued? && e.index + 1 == NextAddressIndex(es)
  {
    if es != [] {
      IssuedBelowNext(Front(es));
      assert es == Front(es) + [Last(es)];
      assert Last(es) in es && forall e :: e in Front(es) ==> e in es;
    }
  }

  /** The effective status of t is that of the last entry that stamps it. */
  lemma {:induction false} LatestIsLastStamp(es: seq<Entry>, t: Txid)
    ensures LatestStatus(es, t) == None <==> forall i :: 0 <= i < |es| ==> !es[i].Stamps(t)
    ensures forall i :: 0 <= i < |es| && es[i].Stamps(t) && (forall j :: i < j < |es| ==> !es[j].Stamps(t)) ==>
              LatestStatus(es, t) == Some(es[i].status)
  {
    if es != [] {
      LatestIsLastStamp(Front(es), t);
      assert forall i :: 0 <= i < |es| - 1 ==> es[i] == Front(es)[i];
    }
  }

  /** Listed are exactly the booked outputs whose transaction is final (or is not) and that
      are not marked spent. */
  lemma {:induction false} ListedExactly(es: seq<Entry>, all: seq<Entry>, final: bool, u: SpUtxo)
    ensures u in SpListed(es, all, final) <==>
              && (LatestStatus(all, u.txid) == Some(Final)) == final && !IsSpSpent(all, (u.txid, u.vout))
              && exists e :: e in es && e.SpReceived? && SpUtxo(e.txid, e.vout, e.sats, e.tweak) == u
  {
    if es != [] {
      ListedExactly(Front(es), all, final, u);
      assert es == Front(es) + [Last(es)];
      assert Last(es) in es && forall e :: e in es <==> e in Front(es) || e == Last(es);
    }
  }
}
