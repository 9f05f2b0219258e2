// What reconcile passes do to the effective statuses: one complete pass, a second
// one, and any number of interrupted ones before it.
module Convergence {
  import opened Base
  import opened Log
  import opened World
  import opened Reconcile

  /** Where a pass against o takes an in-flight transaction. */
  function Target(w: World, t: Txid, o: Oracle): Status {
    if o.confs(t) == 0 && t in w.sidecars && o.rejects(w.sidecars[t]) then Failed else FromConfirmations(o.confs(t))
  }

  ghost predicate InFlight(w: World, t: Txid) {
    HasTxid(w.log, t) && Open(w.log, t)
  }

  /** w lies between w0 and where a pass takes w0: each transaction has its old status
      or its target, and the targets of those still in flight have not moved. */
  ghost predicate Toward(w0: World, w: World, o: Oracle) {
    && (forall t :: HasTxid(w.log, t) <==> HasTxid(w0.log, t))
    && (forall t :: LatestStatus(w.log, t) == LatestStatus(w0.log, t)
                    || (InFlight(w0, t) && LatestStatus(w.log, t) == Some(Target(w0, t, o))))
    && (forall t :: InFlight(w, t) ==> Target(w, t, o) == Target(w0, t, o))
  }

  ghost predicate TowardAll(w: World, fs: seq<Effect>, o: Oracle)
    decreases |fs|
  {
    fs != [] ==> Toward(w, Apply(w, fs[0]), o) && TowardAll(Apply(w, fs[0]), fs[1..], o)
  }

  lemma TowardTransitive(w0: World, w1: World, w2: World, o: Oracle)
    requires Toward(w0, w1, o) && Toward(w1, w2, o)
    ensures Toward(w0, w2, o)
  {}

  lemma {:induction false} TowardAllConcat(w: World, fs: seq<Effect>, gs: seq<Effect>, o: Oracle)
    requires TowardAll(w, fs, o) && TowardAll(Run(w, fs), gs, o)
    ensures TowardAll(w, fs + gs, o)
    decreases |fs|
  {
    if fs == [] {
      assert fs + gs == gs;
    } else {
      TowardAllConcat(Apply(w, fs[0]), fs[1..], gs, o);
      assert (fs + gs)[1..] == fs[1..] + gs;
    }
  }

  lemma TowardCons(w: World, f: Effect, fs: seq<Effect>, o: Oracle)
    requires Toward(w, Apply(w, f), o) && TowardAll(Apply(w, f), fs, o)
    ensures TowardAll(w, [f] + fs, o) && Run(w, [f] + fs) == Run(Apply(w, f), fs)
  {
    assert ([f] + fs)[1..] == fs;
  }

  lemma {:induction false} TowardPrefix(w: World, fs: seq<Effect>, k: nat, o: Oracle)
    requires k <= |fs| && TowardAll(w, fs, o)
    ensures Toward(w, Run(w, fs[..k]), o)
    decreases k
  {
    if k > 0 {
      var w1 := Apply(w, fs[0]);
      assert fs[..k][1..] == fs[1..][..k - 1];
      TowardPrefix(w1, fs[1..], k - 1, o);
      TowardTransitive(w, w1, Run(w, fs[..k]), o);
    }
  }

  lemma TowardWhole(w: World, fs: seq<Effect>, o: Oracle)
    requires TowardAll(w, fs, o)
    ensures Toward(w, Run(w, fs), o)
  {
    assert fs[..|fs|] == fs;
    TowardPrefix(w, fs, |fs|, o);
  }

  lemma TowardStatus(w: World, t: Txid, s: Status, o: Oracle)
    requires InFlight(w, t) && s == Target(w, t, o)
    ensures var w' := Apply(w, Append(StatusUpdate(NextSeq(w.log), t, s)));
            Toward(w, w', o) && LatestStatus(w'.log, t) == Some(s)
  {
    Snoc(w.log, StatusUpdate(NextSeq(w.log), t, s));
  }

  /** w' gives t status s and every other transaction the status it has in w. */
  ghost predicate Moves(w: World, w': World, t: Txid, s: Status) {
    && LatestStatus(w'.log, t) == Some(s)
    && forall x :: x != t ==> LatestStatus(w'.log, x) == LatestStatus(w.log, x)
  }

  /** The steps taken for one in-flight transaction all head for its target. */
  lemma OneHeadsForTarget(w: World, t: Txid, o: Oracle)
    requires InFlight(w, t)
    ensures TowardAll(w, TxEffects(w, t, o), o)
    ensures Moves(w, Run(w, TxEffects(w, t, o)), t, Target(w, t, o))
  {
    var c := o.confs(t);
    var w1 := Apply(w, Observe(t, c));
    if c == 0 && t in w.sidecars {
      RecoverHeadsForTarget(w1, t, o);
      assert Recover(w1, t, o) == Recover(w, t, o);
      TowardCons(w, Observe(t, c), Recover(w, t, o), o);
    } else {
      AdvanceHeadsForTarget(w1, t, o);
      TowardCons(w, Observe(t, c), Advance(w, t, c), o);
    }
  }

  lemma RecoverHeadsForTarget(w: World, t: Txid, o: Oracle)
    requires InFlight(w, t) && t in w.sidecars && o.confs(t) == 0
    ensures TowardAll(w, Recover(w, t, o), o)
    ensures Moves(w, Run(w, Recover(w, t, o)), t, Target(w, t, o))
  {
    var f := Broadcast(t, w.sidecars[t], o.rejects(w.sidecars[t]));
    var w1 := Apply(w, f);
    if o.rejects(w.sidecars[t]) {
      CondemnHeadsForTarget(w1, t, o);
      TowardCons(w, f, Condemn(w, t), o);
    } else {
      AdvanceHeadsForTarget(w1, t, o);
      TowardCons(w, f, Advance(w, t, 0), o);
    }
  }

  lemma CondemnHeadsForTarget(w: World, t: Txid, o: Oracle)
    requires InFlight(w, t) && Target(w, t, o) == Failed
    ensures TowardAll(w, Condemn(w, t), o)
    ensures Moves(w, Run(w, Condemn(w, t)), t, Failed)
  {
    var f := Append(StatusUpdate(NextSeq(w.log), t, Failed));
    var w1 := Apply(w, f);
    TowardStatus(w, t, Failed, o);
    Snoc(w.log, f.entry);
    TowardCons(w1, RemoveSidecar(t), [], o);
    TowardCons(w, f, [RemoveSidecar(t)], o);
    assert Condemn(w, t) == [f] + [RemoveSidecar(t)];
  }

  lemma AdvanceHeadsForTarget(w: World, t: Txid, o: Oracle)
    requires InFlight(w, t) && Target(w, t, o) == FromConfirmations(o.confs(t))
    ensures TowardAll(w, Advance(w, t, o.confs(t)), o)
    ensures Moves(w, Run(w, Advance(w, t, o.confs(t))), t, Target(w, t, o))
  {
    var c := o.confs(t);
    var s, removal := FromConfirmations(c), if c >= 1 then [RemoveSidecar(t)] else [];
    var f := Append(StatusUpdate(NextSeq(w.log), t, s));
    if LatestStatus(w.log, t) != Some(s) {
      var w1 := Apply(w, f);
      TowardStatus(w, t, s, o);
      Snoc(w.log, f.entry);
      if c >= 1 {
        TowardCons(w1, RemoveSidecar(t), [], o);
      }
      TowardCons(w, f, removal, o);
      assert Advance(w, t, c) == [f] + removal;
    } else {
      if c >= 1 {
        TowardCons(w, RemoveSidecar(t), [], o);
      }
      assert Advance(w, t, c) == removal;
    }
  }

  ghost predicate Distinct(ts: seq<Txid>) {
    forall i, j :: 0 <= i < j < |ts| ==> ts[i] != ts[j]
  }

  lemma {:induction false} LoopHeadsForTargets(w: World, ts: seq<Txid>, o: Oracle)
    requires Distinct(ts) && forall t :: t in ts ==> InFlight(w, t)
    ensures TowardAll(w, LoopEffects(w, ts, o), o)
    ensures Toward(w, Run(w, LoopEffects(w, ts, o)), o)
    ensures forall t :: LatestStatus(Run(w, LoopEffects(w, ts, o)).log, t)
                        == if t in ts then Some(Target(w, t, o)) else LatestStatus(w.log, t)
  {
    if ts != [] {
      var front, t := ts[..|ts| - 1], ts[|ts| - 1];
      assert ts == front + [t];
      assert t !in front;
      LoopHeadsForTargets(w, front, o);
      var fs := LoopEffects(w, front, o);
      var w1 := Run(w, fs);
      assert InFlight(w1, t);
      OneHeadsForTarget(w1, t, o);
      TowardAllConcat(w, fs, TxEffects(w1, t, o), o);
      RunConcat(w, fs, TxEffects(w1, t, o));
      TowardWhole(w, LoopEffects(w, ts, o), o);
    }
  }

  /** Every in-flight status already is its target. */
  ghost predicate Settled(w: World, o: Oracle) {
    forall t :: InFlight(w, t) ==> LatestStatus(w.log, t) == Some(Target(w, t, o))
  }

  lemma {:induction false} SweepHarmless(w: World, listed: seq<Txid>, o: Oracle)
    requires Settled(w, o)
    ensures TowardAll(w, Sweep(w.log, listed), o)
    ensures Run(w, Sweep(w.log, listed)).log == w.log
    ensures forall t :: t in listed && !IsSent(w.log, t) ==> t !in Run(w, Sweep(w.log, listed)).sidecars
    ensures Run(w, Sweep(w.log, listed)).sidecars.Keys <= w.sidecars.Keys
    decreases |listed|
  {
    if listed != [] {
      var fs := Sweep(w.log, listed);
      if IsSent(w.log, listed[0]) {
        SweepHarmless(w, listed[1..], o);
        assert fs == Sweep(w.log, listed[1..]);
      } else {
        var w1 := Apply(w, RemoveSidecar(listed[0]));
        SweepHarmless(w1, listed[1..], o);
        TowardCons(w, RemoveSidecar(listed[0]), Sweep(w.log, listed[1..]), o);
      }
    }
  }

  /** One complete pass takes every in-flight transaction to its target and leaves
      every other status alone. */
  lemma PassReachesTargets(w: World, o: Oracle)
    ensures forall t :: LatestStatus(Run(w, PassEffects(w, o)).log, t)
                        == if InFlight(w, t) then Some(Target(w, t, o)) else LatestStatus(w.log, t)
    ensures TowardAll(w, PassEffects(w, o), o)
    ensures Toward(w, Run(w, PassEffects(w, o)), o) && Settled(Run(w, PassEffects(w, o)), o)
  {
    var ts := PendingOf(w.log);
    var fs := LoopEffects(w, ts, o);
    var w1 := Run(w, fs);
    PendingIsTheWorkQueue(w.log);
    LoopHeadsForTargets(w, ts, o);
    assert Settled(w1, o);
    SweepHarmless(w1, o.listing(w1.sidecars.Keys), o);
    var gs := SweepEffects(w1, o);
    TowardAllConcat(w, fs, gs, o);
    RunConcat(w, fs, gs);
    TowardWhole(w, PassEffects(w, o), o);
  }

  // --- the sidecars after a pass ------------------------------------------------------------

  /** A pass is done with t's signed bytes: t was seen in a block, or is provably dead. */
  predicate Drops(w: World, t: Txid, o: Oracle) {
    o.confs(t) >= 1 || Target(w, t, o) == Failed
  }

  lemma AdvanceSidecars(w: World, t: Txid, confs: nat)
    ensures Run(w, Advance(w, t, confs)).sidecars == if confs >= 1 then w.sidecars - {t} else w.sidecars
  {
    var f := Append(StatusUpdate(NextSeq(w.log), t, FromConfirmations(confs)));
    var first := if LatestStatus(w.log, t) != Some(FromConfirmations(confs)) then [f] else [];
    var removal := if confs >= 1 then [RemoveSidecar(t)] else [];
    assert Advance(w, t, confs) == first + removal;
    RunConcat(w, first, removal);
    RunSnoc(w, [], f);
    RunSnoc(Run(w, first), [], RemoveSidecar(t));
  }

  lemma RecoverSidecars(w: World, t: Txid, o: Oracle)
    requires t in w.sidecars
    ensures Run(w, Recover(w, t, o)).sidecars == if o.rejects(w.sidecars[t]) then w.sidecars - {t} else w.sidecars
  {
    var f := Broadcast(t, w.sidecars[t], o.rejects(w.sidecars[t]));
    var w1 := Apply(w, f);
    RunSnoc(w, [], f);
    if o.rejects(w.sidecars[t]) {
      var d := Condemn(w, t);
      RunSnoc(w1, [], d[0]);
      RunSnoc(w1, [d[0]], d[1]);
      assert d == [d[0]] + [d[1]];
      RunConcat(w, [f], d);
    } else {
      AdvanceSidecars(w1, t, 0);
      RunConcat(w, [f], Advance(w, t, 0));
    }
  }

  lemma OneSidecars(w: World, t: Txid, o: Oracle)
    ensures Run(w, TxEffects(w, t, o)).sidecars == if Drops(w, t, o) then w.sidecars - {t} else w.sidecars
  {
    var c := o.confs(t);
    var w1 := Apply(w, Observe(t, c));
    RunSnoc(w, [], Observe(t, c));
    if c == 0 && t in w.sidecars {
      RecoverSidecars(w1, t, o);
      RunConcat(w, [Observe(t, c)], Recover(w, t, o));
    } else {
      AdvanceSidecars(w1, t, c);
      RunConcat(w, [Observe(t, c)], Advance(w, t, c));
    }
  }

  lemma {:induction false} LoopSidecars(w: World, ts: seq<Txid>, o: Oracle)
    requires Distinct(ts) && forall t :: t in ts ==> InFlight(w, t)
    ensures var w' := Run(w, LoopEffects(w, ts, o));
            && (forall t :: t in w'.sidecars <==> t in w.sidecars && !(t in ts && Drops(w, t, o)))
            && (forall t :: t in w'.sidecars ==> w'.sidecars[t] == w.sidecars[t])
  {
    if ts != [] {
      var front, t := ts[..|ts| - 1], ts[|ts| - 1];
      assert ts == front + [t] && t !in front;
      LoopSidecars(w, front, o);
      LoopHeadsForTargets(w, front, o);
      var fs := LoopEffects(w, front, o);
      assert InFlight(w, t) && InFlight(Run(w, fs), t);
      OneSidecars(Run(w, fs), t, o);
      RunConcat(w, fs, TxEffects(Run(w, fs), t, o));
    }
  }

  lemma {:induction false} SweepSidecars(w: World, listed: seq<Txid>)
    ensures var w' := Run(w, Sweep(w.log, listed));
            && w'.log == w.log
            && (forall t :: t in w'.sidecars <==> t in w.sidecars && !(t in listed && !IsSent(w.log, t)))
            && (forall t :: t in w'.sidecars ==> w'.sidecars[t] == w.sidecars[t])
    decreases |listed|
  {
    if listed != [] {
      var fs := Sweep(w.log, listed[1..]);
      assert forall t :: t in listed <==> t == listed[0] || t in listed[1..];
      if IsSent(w.log, listed[0]) {
        SweepSidecars(w, listed[1..]);
        assert Sweep(w.log, listed) == fs;
      } else {
        SweepSidecars(Apply(w, RemoveSidecar(listed[0])), listed[1..]);
        RunSnoc(w, [], RemoveSidecar(listed[0]));
        RunConcat(w, [RemoveSidecar(listed[0])], fs);
      }
    }
  }

  /** Exactly which sidecars a complete pass leaves, with unchanged bytes: those of sends
      that are not in flight any more, and of sends in flight that are neither seen in a
      block nor provably dead. No sidecar without a Sent entry survives; but one whose
      payment settled before a crash could remove it is never cleaned up. */
  lemma PassKeepsSidecars(w: World, o: Oracle)
    requires forall s, t :: t in s ==> t in o.listing(s)
    ensures var w' := Run(w, PassEffects(w, o));
            && (forall t :: t in w'.sidecars <==>
                  t in w.sidecars && IsSent(w.log, t) && (InFlight(w, t) ==> !Drops(w, t, o)))
            && (forall t :: t in w'.sidecars ==> w'.sidecars[t] == w.sidecars[t])
            && (forall t :: IsSent(w'.log, t) <==> IsSent(w.log, t))
  {
    var ts := PendingOf(w.log);
    var fs := LoopEffects(w, ts, o);
    var w1 := Run(w, fs);
    PendingIsTheWorkQueue(w.log);
    LoopSidecars(w, ts, o);
    LoopSendsNothing(w, ts, o);
    SweepSidecars(w1, o.listing(w1.sidecars.Keys));
    RunConcat(w, fs, SweepEffects(w1, o));
  }

  /** t is unconfirmed, its signed bytes are hex, and refused is the network's answer to them. */
  ghost predicate HandsOut(w: World, t: Txid, o: Oracle, hex: string, refused: bool) {
    o.confs(t) == 0 && t in w.sidecars && w.sidecars[t] == hex && refused == o.rejects(hex)
  }

  lemma OneRebroadcasts(w: World, x: Txid, o: Oracle, t: Txid, hex: string, refused: bool)
    ensures Broadcast(t, hex, refused) in TxEffects(w, x, o) <==> x == t && HandsOut(w, t, o, hex, refused)
  {
    if x in w.sidecars {
      assert Recover(w, x, o)[0] == Broadcast(x, w.sidecars[x], o.rejects(w.sidecars[x]));
    }
  }

  lemma {:induction false} LoopRebroadcasts(w: World, ts: seq<Txid>, o: Oracle, t: Txid, hex: string, refused: bool)
    requires Distinct(ts) && forall x :: x in ts ==> InFlight(w, x)
    ensures Broadcast(t, hex, refused) in LoopEffects(w, ts, o) <==> t in ts && HandsOut(w, t, o, hex, refused)
  {
    if ts != [] {
      var front, last := ts[..|ts| - 1], ts[|ts| - 1];
      assert ts == front + [last] && last !in front;
      LoopRebroadcasts(w, front, o, t, hex, refused);
      LoopSidecars(w, front, o);
      OneRebroadcasts(Run(w, LoopEffects(w, front, o)), last, o, t, hex, refused);
    }
  }

  lemma {:induction false} SweepOnlyRemoves(log: seq<Entry>, listed: seq<Txid>)
    ensures forall f :: f in Sweep(log, listed) ==> f.RemoveSidecar?
  {
    if listed != [] {
      SweepOnlyRemoves(log, listed[1..]);
    }
  }

  /** What a crash left unsent is sent, and nothing else: a complete pass hands out, byte for
      byte, exactly the payments in flight that are unconfirmed and still have their sidecar. */
  lemma PassRebroadcasts(w: World, o: Oracle, t: Txid, hex: string, refused: bool)
    ensures Broadcast(t, hex, refused) in PassEffects(w, o) <==> InFlight(w, t) && HandsOut(w, t, o, hex, refused)
  {
    var ts := PendingOf(w.log);
    var w1 := Run(w, LoopEffects(w, ts, o));
    PendingIsTheWorkQueue(w.log);
    LoopRebroadcasts(w, ts, o, t, hex, refused);
    SweepOnlyRemoves(w1.log, o.listing(w1.sidecars.Keys));
  }

  lemma {:induction false} UpdatesSendNothing(w: World, fs: seq<Effect>)
    requires forall f :: f in fs && f.Append? ==> f.entry.StatusUpdate?
    ensures forall t :: IsSent(Run(w, fs).log, t) <==> IsSent(w.log, t)
    decreases |fs|
  {
    if fs != [] {
      if fs[0].Append? {
        Snoc(w.log, fs[0].entry);
      }
      UpdatesSendNothing(Apply(w, fs[0]), fs[1..]);
    }
  }

  lemma TxAppendsUpdates(w: World, t: Txid, o: Oracle)
    ensures forall f :: f in TxEffects(w, t, o) ==> !f.Reply? && (f.Append? ==> f.entry.StatusUpdate?)
  {}

  lemma {:induction false} LoopAppendsUpdates(w: World, ts: seq<Txid>, o: Oracle)
    ensures forall f :: f in LoopEffects(w, ts, o) ==> !f.Reply? && (f.Append? ==> f.entry.StatusUpdate?)
  {
    if ts != [] {
      var before := LoopEffects(w, ts[..|ts| - 1], o);
      LoopAppendsUpdates(w, ts[..|ts| - 1], o);
      TxAppendsUpdates(Run(w, before), ts[|ts| - 1], o);
    }
  }

  lemma LoopSendsNothing(w: World, ts: seq<Txid>, o: Oracle)
    ensures forall t :: IsSent(Run(w, LoopEffects(w, ts, o)).log, t) <==> IsSent(w.log, t)
  {
    LoopAppendsUpdates(w, ts, o);
    UpdatesSendNothing(w, LoopEffects(w, ts, o));
  }

  lemma SettledOneAppendsNothing(w: World, t: Txid, o: Oracle)
    requires InFlight(w, t) && LatestStatus(w.log, t) == Some(Target(w, t, o))
    ensures Run(w, TxEffects(w, t, o)).log == w.log && Appends(TxEffects(w, t, o)) == 0
  {
    var c := o.confs(t);
    var removal := if c >= 1 then [RemoveSidecar(t)] else [];
    assert Advance(w, t, c) == removal;
    if c == 0 && t in w.sidecars {
      var fs := [Observe(t, c)] + [Broadcast(t, w.sidecars[t], false)];
      assert TxEffects(w, t, o) == fs;
      RunSnoc(w, [Observe(t, c)], fs[1]);
      RunSnoc(w, [], fs[0]);
      AppendsConcat([fs[0]], [fs[1]]);
    } else {
      RunConcat(w, [Observe(t, c)], removal);
      RunSnoc(w, [], Observe(t, c));
      RunSnoc(Apply(w, Observe(t, c)), [], RemoveSidecar(t));
      AppendsConcat([Observe(t, c)], removal);
    }
  }

  lemma {:induction false} SettledLoopAppendsNothing(w: World, ts: seq<Txid>, o: Oracle)
    requires Settled(w, o) && forall t :: t in ts ==> InFlight(w, t)
    requires Distinct(ts)
    ensures Appends(LoopEffects(w, ts, o)) == 0 && Run(w, LoopEffects(w, ts, o)).log == w.log
  {
    if ts != [] {
      var front, t := ts[..|ts| - 1], ts[|ts| - 1];
      assert ts == front + [t];
      SettledLoopAppendsNothing(w, front, o);
      LoopHeadsForTargets(w, front, o);
      var fs := LoopEffects(w, front, o);
      var w1 := Run(w, fs);
      assert t in ts && InFlight(w, t) && w1.log == w.log;
      SettledOneAppendsNothing(w1, t, o);
      AppendsConcat(fs, TxEffects(w1, t, o));
      RunConcat(w, fs, TxEffects(w1, t, o));
    }
  }

  /** A second pass against the same oracle appends nothing. */
  lemma SecondPassAppendsNothing(w: World, o: Oracle)
    ensures var w' := Run(w, PassEffects(w, o)); Appends(PassEffects(w', o)) == 0
  {
    var w' := Run(w, PassEffects(w, o));
    PassReachesTargets(w, o);
    PendingIsTheWorkQueue(w'.log);
    var fs := LoopEffects(w', PendingOf(w'.log), o);
    SettledLoopAppendsNothing(w', PendingOf(w'.log), o);
    var w1 := Run(w', fs);
    SweepAppendsNothing(w1.log, o.listing(w1.sidecars.Keys));
    AppendsConcat(fs, SweepEffects(w1, o));
  }

  /** The number a pass returns is the number of entries it appended. */
  lemma {:induction false} AppendsGrowTheLog(w: World, fs: seq<Effect>)
    ensures |Run(w, fs).log| == |w.log| + Appends(fs)
    decreases |fs|
  {
    if fs != [] {
      AppendsGrowTheLog(Apply(w, fs[0]), fs[1..]);
    }
  }

  /** A pass that gets the oracle's answers and is cut after some effects. */
  datatype CutShort = CutShort(oracle: Oracle, cut: nat)

  /** Passes cut short one after the other, each followed by a restart. */
  ghost function AfterCuts(w: World, runs: seq<CutShort>): World
    decreases |runs|
  {
    if runs == [] then w
    else
      var fs := PassEffects(w, runs[0].oracle);
      AfterCuts(Run(w, if runs[0].cut < |fs| then fs[..runs[0].cut] else fs), runs[1..])
  }

  lemma {:induction false} InterruptedIsToward(w: World, o: Oracle, runs: seq<CutShort>)
    requires forall r :: r in runs ==> r.oracle == o
    ensures Toward(w, AfterCuts(w, runs), o)
    decreases |runs|
  {
    if runs != [] {
      var fs := PassEffects(w, o);
      var k := if runs[0].cut < |fs| then runs[0].cut else |fs|;
      assert runs[0] in runs && fs[..|fs|] == fs;
      PassReachesTargets(w, o);
      TowardPrefix(w, fs, k, o);
      InterruptedIsToward(Run(w, fs[..k]), o, runs[1..]);
      TowardTransitive(w, Run(w, fs[..k]), AfterCuts(w, runs), o);
    }
  }

  /** However many passes were interrupted, and wherever, a complete one then reaches
      the statuses that a single complete pass would have reached. */
  lemma InterruptedPassesConverge(w: World, o: Oracle, runs: seq<CutShort>)
    requires forall r :: r in runs ==> r.oracle == o
    ensures var v := AfterCuts(w, runs);
            forall t :: LatestStatus(Run(v, PassEffects(v, o)).log, t) == LatestStatus(Run(w, PassEffects(w, o)).log, t)
  {
    var v := AfterCuts(w, runs);
    InterruptedIsToward(w, o, runs);
    PassReachesTargets(w, o);
    PassReachesTargets(v, o);
  }

  // --- what no pass cleans up ---------------------------------------------------------------

  lemma {:induction false} LoopSparesOthers(w: World, ts: seq<Txid>, o: Oracle, t: Txid)
    requires t !in ts
    ensures RemoveSidecar(t) !in LoopEffects(w, ts, o)
  {
    if ts != [] {
      LoopSparesOthers(w, ts[..|ts| - 1], o, t);
    }
  }

  lemma {:induction false} SweepSparesSent(log: seq<Entry>, listed: seq<Txid>, t: Txid)
    requires IsSent(log, t)
    ensures RemoveSidecar(t) !in Sweep(log, listed)
  {
    if listed != [] {
      SweepSparesSent(log, listed[1..], t);
    }
  }

  lemma {:induction false} SidecarStays(w: World, fs: seq<Effect>, t: Txid)
    requires RemoveSidecar(t) !in fs && t in w.sidecars
    ensures t in Run(w, fs).sidecars
    decreases |fs|
  {
    if fs != [] {
      SidecarStays(Apply(w, fs[0]), fs[1..], t);
    }
  }

  lemma PassSparesSettled(w: World, o: Oracle, t: Txid)
    requires IsSent(w.log, t) && !Open(w.log, t)
    ensures RemoveSidecar(t) !in PassEffects(w, o)
  {
    var ts := PendingOf(w.log);
    PendingIsTheWorkQueue(w.log);
    LoopSparesOthers(w, ts, o, t);
    LoopSendsNothing(w, ts, o);
    var w1 := Run(w, LoopEffects(w, ts, o));
    SweepSparesSent(w1.log, o.listing(w1.sidecars.Keys), t);
  }

  /** A cut pass leaves a settled payment settled. */
  lemma SettledStaysSettled(w: World, o: Oracle, k: nat, t: Txid)
    requires k <= |PassEffects(w, o)| && IsSent(w.log, t) && !Open(w.log, t)
    ensures var w' := Run(w, PassEffects(w, o)[..k]); IsSent(w'.log, t) && !Open(w'.log, t)
  {
    var fs := PassEffects(w, o);
    PassReachesTargets(w, o);
    TowardPrefix(w, fs, k, o);
    RunExtendsLog(w, fs[..k]);
    var log' := Run(w, fs[..k]).log;
    assert log' == w.log + log'[|w.log|..];
  }

  /** The sidecar of a settled payment outlives all later passes, whatever they are told
      and wherever they are cut: the work queue no longer leads to it. */
  lemma {:induction false} SettledSidecarStays(w: World, runs: seq<CutShort>, t: Txid)
    requires IsSent(w.log, t) && !Open(w.log, t) && t in w.sidecars
    ensures t in AfterCuts(w, runs).sidecars
    decreases |runs|
  {
    if runs != [] {
      var fs := PassEffects(w, runs[0].oracle);
      var k := if runs[0].cut < |fs| then runs[0].cut else |fs|;
      assert fs[..|fs|] == fs;
      PassSparesSettled(w, runs[0].oracle, t);
      SidecarStays(w, fs[..k], t);
      SettledStaysSettled(w, runs[0].oracle, k, t);
      SettledSidecarStays(Run(w, fs[..k]), runs[1..], t);
    }
  }
}
