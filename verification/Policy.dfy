// The gate every outgoing payment passes, and what the rolling daily cap
// guarantees over a whole log.
module PolicyGate {
  import opened Base
  import opened Log

  const DAILY_WINDOW_SECS: nat := 86_400

  datatype Network = Mainnet | OtherNetwork

  datatype Policy = Policy(
    maxPayment: Option<nat>,
    dailyLimit: Option<nat>,
    maxFee: Option<nat>,
    blocked: set<string>)

  datatype Refusal =
    | PaymentTooLarge(sats: nat, cap: nat)
    | DailyLimitExceeded(attempted: nat, spent: nat, cap: nat)
    | AddressBlocked(address: string)
    | MainnetUncapped
    | MainnetNoFeeCap

  /** sats exceeds neither cap, given what was spent in the window. */
  predicate WithinCaps(p: Policy, sats: nat, spentRecent: nat) {
    && (p.maxPayment.Some? ==> sats <= p.maxPayment.value)
    && (p.dailyLimit.Some? ==> spentRecent + sats <= p.dailyLimit.value)
  }

  /** The amount gates, checked before the peer is contacted. */
  function CheckAmount(p: Policy, sats: nat, spentRecent: nat): (r: Option<Refusal>)
    ensures r.None? <==> WithinCaps(p, sats, spentRecent)
    ensures match r
            case None => true
            case Some(PaymentTooLarge(s, cap)) => s == sats > cap && p.maxPayment == Some(cap)
            case Some(DailyLimitExceeded(attempted, spent, cap)) =>
              && attempted == sats && spent == spentRecent && p.dailyLimit == Some(cap)
              && WithinCaps(p.(dailyLimit := None), sats, spent)
            case Some(_) => false
  {
    if p.maxPayment.Some? && sats > p.maxPayment.value then Some(PaymentTooLarge(sats, p.maxPayment.value))
    else if p.dailyLimit.Some? && spentRecent + sats > p.dailyLimit.value
    then Some(DailyLimitExceeded(sats, spentRecent, p.dailyLimit.value))
    else None
  }

  /** The blocklist gate. */
  function CheckAddress(p: Policy, to: string): (r: Option<Refusal>)
    ensures to in p.blocked <==> r == Some(AddressBlocked(to))
    ensures to !in p.blocked <==> r == None
  {
    if to in p.blocked then Some(AddressBlocked(to)) else None
  }

  /** On mainnet a spend cap and a fee cap are both demanded. */
  function EnsureMainnetCapped(n: Network, p: Policy): (r: Option<Refusal>)
    ensures r.None? <==> n == Mainnet ==> p.maxFee.Some? && (p.maxPayment.Some? || p.dailyLimit.Some?)
    ensures r.Some? ==> r.value == if p.maxPayment.Some? || p.dailyLimit.Some? then MainnetNoFeeCap else MainnetUncapped
  {
    if n != Mainnet then None
    else if p.maxPayment.None? && p.dailyLimit.None? then Some(MainnetUncapped)
    else if p.maxFee.None? then Some(MainnetNoFeeCap)
    else None
  }

  /** Unsigned subtraction that stops at zero. */
  function Minus(a: nat, b: nat): (r: nat)
    ensures r >= a - b && (r == a - b || r == 0)
  {
    if a < b then 0 else a - b
  }

  // --- the rolling window -------------------------------------------------------

  /** Every Sent entry passed the daily gate when it was appended. */
  ghost predicate Capped(log: seq<Entry>, cap: nat) {
    forall i :: 0 <= i < |log| && log[i].Sent? ==>
      SpentSince(log[..i], Minus(log[i].at, DAILY_WINDOW_SECS)) + log[i].sats <= cap
  }

  /** What was sent in the closed interval from lo to hi. */
  function SentBetween(log: seq<Entry>, lo: nat, hi: nat): nat {
    if log == [] then 0
    else
      SentBetween(Front(log), lo, hi) + (if Last(log).Sent? && lo <= Last(log).at <= hi then Last(log).sats else 0)
  }

  lemma {:induction false} SpentSinceCovers(log: seq<Entry>, lo: nat, hi: nat, cutoff: nat)
    requires cutoff <= lo
    ensures SentBetween(log, lo, hi) <= SpentSince(log, cutoff)
  {
    if log != [] {
      SpentSinceCovers(Front(log), lo, hi, cutoff);
    }
  }

  /** The window fold counts exactly the sends from the cutoff on. */
  lemma {:induction false} SpentSinceIsWindow(log: seq<Entry>, cutoff: nat, hi: nat)
    requires forall e :: e in log && e.Sent? ==> e.at <= hi
    ensures SpentSince(log, cutoff) == SentBetween(log, cutoff, hi)
  {
    if log != [] {
      assert Last(log) in log && forall e :: e in Front(log) ==> e in log;
      SpentSinceIsWindow(Front(log), cutoff, hi);
    }
  }

  /** An earlier cutoff counts at least as much, so a gate passed at an earlier check
      time is also passed at the later stamp time. */
  lemma {:induction false} SpentSinceMonotone(log: seq<Entry>, early: nat, late: nat)
    requires early <= late
    ensures SpentSince(log, late) <= SpentSince(log, early)
  {
    if log != [] {
      SpentSinceMonotone(Front(log), early, late);
    }
  }

  /** A send that passes CheckAmount at a check time no later than its stamp keeps the log capped. */
  lemma CheckedSendKeepsCap(log: seq<Entry>, cap: nat, p: Policy, e: Entry, checked: nat)
    requires Capped(log, cap) && p.dailyLimit == Some(cap)
    requires e.Sent? && checked <= e.at
    requires CheckAmount(p, e.sats, SpentSince(log, Minus(checked, DAILY_WINDOW_SECS))) == None
    ensures Capped(log + [e], cap)
  {
    SpentSinceMonotone(log, Minus(checked, DAILY_WINDOW_SECS), Minus(e.at, DAILY_WINDOW_SECS));
    var log' := log + [e];
    forall i | 0 <= i < |log'| && log'[i].Sent?
      ensures SpentSince(log'[..i], Minus(log'[i].at, DAILY_WINDOW_SECS)) + log'[i].sats <= cap
    {
      assert log'[..i] == if i < |log| then log[..i] else log;
    }
  }

  lemma OtherEntryKeepsCap(log: seq<Entry>, cap: nat, e: Entry)
    requires Capped(log, cap) && !e.Sent?
    ensures Capped(log + [e], cap)
  {
    var log' := log + [e];
    forall i | 0 <= i < |log'| && log'[i].Sent?
      ensures SpentSince(log'[..i], Minus(log'[i].at, DAILY_WINDOW_SECS)) + log'[i].sats <= cap
    {
      assert log'[..i] == log[..i];
    }
  }

  /** However the clock moved between sends, no closed window of 86,400 seconds ever
      holds more than the cap. */
  lemma {:induction false} WindowNeverExceedsCap(log: seq<Entry>, cap: nat, lo: nat, hi: nat)
    requires Capped(log, cap) && hi <= lo + 86_400
    ensures SentBetween(log, lo, hi) <= cap
  {
    if log != [] {
      var e, front := Last(log), Front(log);
      assert forall i :: 0 <= i < |front| ==> front[..i] == log[..i];
      WindowNeverExceedsCap(front, cap, lo, hi);
      if e.Sent? && lo <= e.at <= hi {
        assert log[|log| - 1] == e;
        SpentSinceCovers(front, lo, hi, Minus(e.at, DAILY_WINDOW_SECS));
      }
    }
  }
}
