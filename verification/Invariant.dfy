// What holds in every state of the crash machine, and that every single effect an
// operation may take keeps it.
module Invariant {
  import opened Base
  import opened Log
  import opened World
  import opened PolicyGate

  /** What the chain and the policy fix from outside: the daily cap, what a transaction
      pays to the address of an index, what an output is worth, the wallet's addresses. */
  datatype Env = Env(
    cap: nat,
    paid: (Txid, nat) -> nat,
    value: (Txid, nat) -> nat,
    address: nat -> Option<string>)

  /** seq numbers count up from zero without gaps. */
  ghost predicate Numbered(log: seq<Entry>) {
    forall i :: 0 <= i < |log| ==> log[i].no == i
  }

  /** Only booked transactions have a status. */
  ghost predicate Named(log: seq<Entry>) {
    forall t :: LatestStatus(log, t).Some? ==> HasTxid(log, t)
  }

  /** Nothing was ever broadcast without a durable Sent entry. */
  ghost predicate Backed(w: World) {
    forall t :: t in w.relayed ==> IsSent(w.log, t)
  }

  /** Every send that was neither seen confirmed nor has failed still has its sidecar. */
  ghost predicate Recoverable(w: World) {
    forall t :: IsSent(w.log, t) && t !in w.seen && LatestStatus(w.log, t) != Some(Failed) ==> t in w.sidecars
  }

  /** Failed means hard-rejected. */
  ghost predicate Buried(w: World) {
    forall t :: LatestStatus(w.log, t) == Some(Failed) ==> t in w.dead
  }

  /** Sidecars hold exactly the bytes that were signed, and a transaction signed here
      gets on the books only by being sent. */
  ghost predicate Owned(w: World) {
    && (forall t :: t in w.sidecars ==> t in w.signed && w.sidecars[t] == w.signed[t])
    && (forall t :: t in w.signed && HasTxid(w.log, t) ==> IsSent(w.log, t))
  }

  ghost predicate Clash(d: Entry, e: Entry) {
    || (d.Received? && e.Received? && d.txid == e.txid)
    || (d.Sent? && e.Sent? && d.txid == e.txid)
    || (d.SpReceived? && e.SpReceived? && (d.txid, d.vout) == (e.txid, e.vout))
  }

  /** One Received and one Sent per transaction, one SpReceived per outpoint. */
  ghost predicate Once(log: seq<Entry>) {
    forall i, j :: 0 <= i < j < |log| ==> !Clash(log[i], log[j])
  }

  ghost predicate TrueAmount(env: Env, e: Entry) {
    (e.Received? ==> e.sats == env.paid(e.txid, e.index)) && (e.SpReceived? ==> e.sats == env.value(e.txid, e.vout))
  }

  /** Every credited amount is the chain's own. */
  ghost predicate Exact(env: Env, log: seq<Entry>) {
    forall e :: e in log ==> TrueAmount(env, e)
  }

  ghost predicate IsIssued(log: seq<Entry>, index: nat) {
    exists e :: e in log && e.AddressIssued? && e.index == index
  }

  /** Issued indices strictly increase, and so do the ones sent to peers, which are
      all on the books. */
  ghost predicate Indexed(w: World) {
    && (forall i, j :: 0 <= i < j < |w.log| && w.log[i].AddressIssued? && w.log[j].AddressIssued? ==>
          w.log[i].index < w.log[j].index)
    && (forall i :: 0 <= i < |w.answered| ==> IsIssued(w.log, w.answered[i]))
    && (forall i, j :: 0 <= i < j < |w.answered| ==> w.answered[i] < w.answered[j])
  }

  ghost predicate Inv(env: Env, w: World) {
    && Numbered(w.log) && Named(w.log)
    && Backed(w) && Recoverable(w) && Buried(w) && Owned(w)
    && Once(w.log) && Exact(env, w.log) && Indexed(w)
    && Capped(w.log, env.cap)
  }

  // --- when an entry may be appended ------------------------------------------------------

  ghost predicate Admissible(env: Env, w: World, e: Entry) {
    && e.no == NextSeq(w.log)
    && TrueAmount(env, e)
    && match e
       case AddressIssued(_, index) => index == NextAddressIndex(w.log)
       case SpSpent(_, _, _) => true
       case StatusUpdate(_, t, s) =>
         HasTxid(w.log, t) && LatestStatus(w.log, t) != Some(Failed) && (s == Failed ==> t in w.dead)
       case Sent(_, t, sats, _, s, at) =>
         && !HasTxid(w.log, t) && s == Pending && t in w.sidecars
         && SpentSince(w.log, Minus(at, DAILY_WINDOW_SECS)) + sats <= env.cap
       case Received(_, t, _, _, s) => !HasTxid(w.log, t) && s == Pending && t !in w.signed
       case SpReceived(_, t, vout, _, _, s) =>
         && !HasSpOutput(w.log, (t, vout)) && s == Pending
         && LatestStatus(w.log, t) != Some(Failed) && (t in w.signed ==> IsSent(w.log, t))
  }

  lemma AppendKeepsBooks(env: Env, w: World, e: Entry)
    requires Inv(env, w) && Admissible(env, w, e)
    ensures var w' := Apply(w, Append(e));
            Named(w'.log) && Backed(w') && Owned(w')
  {
    Snoc(w.log, e);
  }

  lemma AppendKeepsStatuses(env: Env, w: World, e: Entry)
    requires Inv(env, w) && Admissible(env, w, e)
    ensures var w' := Apply(w, Append(e));
            Recoverable(w') && Buried(w')
  {
    Snoc(w.log, e);
  }

  lemma AppendKeepsAmounts(env: Env, w: World, e: Entry)
    requires Inv(env, w) && Admissible(env, w, e)
    ensures Once(w.log + [e]) && Exact(env, w.log + [e]) && Numbered(w.log + [e])
  {
    forall i | 0 <= i < |w.log| ensures !Clash(w.log[i], e) {
      assert w.log[i] in w.log;
    }
  }

  lemma AppendKeepsIndices(env: Env, w: World, e: Entry)
    requires Inv(env, w) && Admissible(env, w, e)
    ensures Indexed(w.(log := w.log + [e]))
  {
    IssuedBelowNext(w.log);
    var log' := w.log + [e];
    forall i | 0 <= i < |w.log| && w.log[i].AddressIssued? ensures w.log[i].index < NextAddressIndex(w.log) {
      assert w.log[i] in w.log;
    }
    forall i | 0 <= i < |w.answered| ensures IsIssued(log', w.answered[i]) {
      assert IsIssued(w.log, w.answered[i]);
      var x :| x in w.log && x.AddressIssued? && x.index == w.answered[i];
      assert x in log';
    }
  }

  lemma KeepAppend(env: Env, w: World, e: Entry)
    requires Inv(env, w) && Admissible(env, w, e)
    ensures Inv(env, Apply(w, Append(e)))
  {
    AppendKeepsBooks(env, w, e);
    AppendKeepsStatuses(env, w, e);
    AppendKeepsAmounts(env, w, e);
    AppendKeepsIndices(env, w, e);
    if e.Sent? {
      var policy := Policy(None, Some(env.cap), None, {});
      CheckedSendKeepsCap(w.log, env.cap, policy, e, e.at);
    } else {
      OtherEntryKeepsCap(w.log, env.cap, e);
    }
  }

  lemma KeepWriteSidecar(env: Env, w: World, t: Txid, hex: string)
    requires Inv(env, w) && !HasTxid(w.log, t)
    ensures Inv(env, Apply(w, WriteSidecar(t, hex)))
  {}

  lemma KeepRemoveSidecar(env: Env, w: World, t: Txid)
    requires Inv(env, w) && (!IsSent(w.log, t) || t in w.seen || LatestStatus(w.log, t) == Some(Failed))
    ensures Inv(env, Apply(w, RemoveSidecar(t)))
  {}

  lemma KeepBroadcast(env: Env, w: World, t: Txid, hex: string, refused: bool)
    requires Inv(env, w) && IsSent(w.log, t)
    ensures Inv(env, Apply(w, Broadcast(t, hex, refused)))
  {}

  lemma KeepObserve(env: Env, w: World, t: Txid, confs: nat)
    requires Inv(env, w)
    ensures Inv(env, Apply(w, Observe(t, confs)))
  {}

  lemma KeepReply(env: Env, w: World, address: string, index: nat)
    requires Inv(env, w) && IsIssued(w.log, index)
    requires forall i :: 0 <= i < |w.answered| ==> w.answered[i] < index
    ensures Inv(env, Apply(w, Reply(address, index)))
  {}

  // --- what the invariant means for money -----------------------------------------------------

  lemma {:induction false} NothingBooked(log: seq<Entry>, t: Txid)
    requires forall e :: e in log && e.Received? ==> e.txid != t
    ensures ReceivedOf(log, t) == 0
  {
    if log != [] {
      assert Last(log) in log;
      NothingBooked(Front(log), t);
    }
  }

  /** What is credited for a transaction is nothing, or what the chain pays for it to the
      address of one index, and never more than once. */
  lemma {:induction false} CreditIsChainAmount(env: Env, log: seq<Entry>, t: Txid)
    requires Once(log) && Exact(env, log)
    ensures ReceivedOf(log, t) == 0
            || exists e :: e in log && e.Received? && e.txid == t && ReceivedOf(log, t) == env.paid(t, e.index)
  {
    if log != [] {
      var front, e := Front(log), Last(log);
      assert e in log && forall x :: x in front ==> x in log;
      if e.Received? && e.txid == t {
        forall x | x in front && x.Received? ensures x.txid != t {
          var i :| 0 <= i < |front| && front[i] == x;
          assert !Clash(log[i], log[|log| - 1]);
        }
        NothingBooked(front, t);
      } else {
        CreditIsChainAmount(env, front, t);
      }
    }
  }

  lemma {:induction false} ListedAreBooked(es: seq<Entry>, all: seq<Entry>, final: bool)
    ensures forall u :: u in SpListed(es, all, final) ==> SpEntryOf(es, u)
  {
    if es != [] {
      ListedAreBooked(Front(es), all, final);
      assert es == Front(es) + [Last(es)];
      forall u | u in SpListed(es, all, final) ensures SpEntryOf(es, u) {
        if SpEntryOf(Front(es), u) {
          var e :| e in Front(es) && e.SpReceived? && SpUtxo(e.txid, e.vout, e.sats, e.tweak) == u;
          assert e in es;
        } else {
          assert Last(es) in es;
        }
      }
    }
  }

  ghost predicate SpEntryOf(es: seq<Entry>, u: SpUtxo) {
    exists e :: e in es && e.SpReceived? && SpUtxo(e.txid, e.vout, e.sats, e.tweak) == u
  }

  ghost predicate DistinctPoints(us: seq<SpUtxo>) {
    forall i, j :: 0 <= i < j < |us| ==> us[i].Point() != us[j].Point()
  }

  ghost predicate AtChainValue(env: Env, us: seq<SpUtxo>) {
    forall u :: u in us ==> u.sats == env.value(u.txid, u.vout)
  }

  lemma DistinctSnoc(us: seq<SpUtxo>, u: SpUtxo)
    requires DistinctPoints(us) && forall x :: x in us ==> x.Point() != u.Point()
    ensures DistinctPoints(us + [u])
  {
    assert forall i :: 0 <= i < |us| ==> us[i] in us;
  }

  /** An output booked before a clashless new entry is at another outpoint. */
  lemma NewOutputIsElsewhere(es: seq<Entry>, all: seq<Entry>, final: bool, u: SpUtxo)
    requires es != [] && Once(es) && Last(es).SpReceived? && u in SpListed(Front(es), all, final)
    ensures u.Point() != (Last(es).txid, Last(es).vout)
  {
    ListedAreBooked(Front(es), all, final);
    var x :| x in Front(es) && x.SpReceived? && SpUtxo(x.txid, x.vout, x.sats, x.tweak) == u;
    var i :| 0 <= i < |Front(es)| && Front(es)[i] == x;
    assert !Clash(es[i], es[|es| - 1]);
  }

  /** No outpoint is listed twice, and each listed output is worth what the chain says. */
  lemma {:induction false} ListedOnceAtChainValue(env: Env, es: seq<Entry>, all: seq<Entry>, final: bool)
    requires Once(es) && Exact(env, es)
    ensures DistinctPoints(SpListed(es, all, final)) && AtChainValue(env, SpListed(es, all, final))
  {
    if es != [] {
      var front, e := Front(es), Last(es);
      assert e in es && forall x :: x in front ==> x in es;
      ListedOnceAtChainValue(env, front, all, final);
      if e.SpReceived? {
        forall u | u in SpListed(front, all, final) ensures u.Point() != (e.txid, e.vout) {
          NewOutputIsElsewhere(es, all, final, u);
        }
        DistinctSnoc(SpListed(front, all, final), SpUtxo(e.txid, e.vout, e.sats, e.tweak));
      }
    }
  }
}
