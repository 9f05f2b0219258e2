// Reconcile: one pass over the work queue against the chain, and what repeated,
// interrupted passes converge to.
module Reconcile {
  import opened Base
  import opened Log
  import opened World
  import opened LedgerStore

  /** What the outside answers during a pass: confirmation counts, whether signed
      bytes are hard-rejected, and the order in which a directory is listed. */
  datatype Oracle = Oracle(
    confs: Txid -> nat,
    rejects: string -> bool,
    listing: set<Txid> -> seq<Txid>)

  // --- the effects of a pass --------------------------------------------------

  function Condemn(w: World, t: Txid): seq<Effect> {
    [Append(StatusUpdate(NextSeq(w.log), t, Failed)), RemoveSidecar(t)]
  }

  function Advance(w: World, t: Txid, confs: nat): seq<Effect> {
    (if LatestStatus(w.log, t) != Some(FromConfirmations(confs))
     then [Append(StatusUpdate(NextSeq(w.log), t, FromConfirmations(confs)))] else []) +
    (if confs >= 1 then [RemoveSidecar(t)] else [])
  }

  /** An unconfirmed payment whose signed bytes are still held is handed out again. */
  function Recover(w: World, t: Txid, o: Oracle): seq<Effect>
    requires t in w.sidecars
  {
    var hex := w.sidecars[t];
    [Broadcast(t, hex, o.rejects(hex))] + if o.rejects(hex) then Condemn(w, t) else Advance(w, t, 0)
  }

  function TxEffects(w: World, t: Txid, o: Oracle): seq<Effect> {
    var c := o.confs(t);
    [Observe(t, c)] + if c == 0 && t in w.sidecars then Recover(w, t, o) else Advance(w, t, c)
  }

  function LoopEffects(w: World, ts: seq<Txid>, o: Oracle): seq<Effect> {
    if ts == [] then []
    else
      var before := LoopEffects(w, ts[..|ts| - 1], o);
      before + TxEffects(Run(w, before), ts[|ts| - 1], o)
  }

  /** Removes the listed sidecars that no Sent entry accounts for. */
  function Sweep(log: seq<Entry>, listed: seq<Txid>): seq<Effect> {
    if listed == [] then []
    else (if IsSent(log, listed[0]) then [] else [RemoveSidecar(listed[0])]) + Sweep(log, listed[1..])
  }

  function SweepEffects(w: World, o: Oracle): seq<Effect> {
    Sweep(w.log, o.listing(w.sidecars.Keys))
  }

  function PassEffects(w: World, o: Oracle): seq<Effect> {
    var fs := LoopEffects(w, PendingOf(w.log), o);
    fs + SweepEffects(Run(w, fs), o)
  }

  function Within(ts: seq<Txid>, calls: nat): seq<Txid> {
    if |ts| <= calls then ts else ts[..calls]
  }

  /** What is left of a pass when the chain source answers only `calls` queries. */
  function PassWithin(w: World, o: Oracle, calls: nat): seq<Effect> {
    var ts := PendingOf(w.log);
    if |ts| <= calls then PassEffects(w, o) else LoopEffects(w, ts[..calls], o)
  }

  lemma PassWithinIsPrefix(w: World, o: Oracle, calls: nat)
    ensures PassWithin(w, o, calls) <= PassEffects(w, o)
  {
    var ts := PendingOf(w.log);
    if |ts| > calls {
      LoopPrefix(w, ts, calls, o);
    }
  }

  function Appends(fs: seq<Effect>): nat {
    if fs == [] then 0 else (if fs[0].Append? then 1 else 0) + Appends(fs[1..])
  }

  lemma {:induction false} AppendsConcat(fs: seq<Effect>, gs: seq<Effect>)
    ensures Appends(fs + gs) == Appends(fs) + Appends(gs)
  {
    if fs == [] {
      assert fs + gs == gs;
    } else {
      assert (fs + gs)[1..] == fs[1..] + gs;
      AppendsConcat(fs[1..], gs);
    }
  }

  // --- the pass itself ----------------------------------------------------------

  /** One pass; the chain source answers the first `calls` confirmation queries and
      fails on the next, which ends the pass early. */
  method ReconcilePass(led: Ledger, o: Oracle, calls: nat) returns (r: Result<nat>, ghost done: seq<Effect>)
    requires led.Valid()
    modifies led
    ensures led.Valid()
    ensures led.trace == old(led.trace) + done && led.world == Run(old(led.world), done)
    ensures done == PassWithin(old(led.world), o, calls) <= PassEffects(old(led.world), o)
    ensures r.Ok? ==> done == PassEffects(old(led.world), o) && r.value == Appends(done)
    ensures r.Ok? <==> |PendingOf(old(led.entries))| <= calls
  {
    var ts := led.ComputePending();
    ghost var w0, t0 := led.world, led.trace;
    var ok, changed, first := ReconcileLoop(led, ts, o, calls);
    PassWithinIsPrefix(w0, o, calls);
    if !ok {
      return Err, first;
    }
    ghost var sweep := SweepEffects(led.world, o);
    PassComposes(t0, w0, o);
    SweepOrphans(led, o);
    return Ok(changed), first + sweep;
  }

  lemma PassComposes(t0: seq<Effect>, w: World, o: Oracle)
    ensures var fs := LoopEffects(w, PendingOf(w.log), o);
            var gs := SweepEffects(Run(w, fs), o);
            PassEffects(w, o) == fs + gs && Appends(fs + gs) == Appends(fs)
            && t0 + fs + gs == t0 + (fs + gs) && Run(w, fs + gs) == Run(Run(w, fs), gs)
  {
    var fs := LoopEffects(w, PendingOf(w.log), o);
    var swept := Run(w, fs);
    RunMore(w, t0, fs, SweepEffects(swept, o));
    AppendsConcat(fs, SweepEffects(swept, o));
    SweepAppendsNothing(swept.log, o.listing(swept.sidecars.Keys));
  }

  method ReconcileLoop(led: Ledger, ts: seq<Txid>, o: Oracle, calls: nat)
      returns (ok: bool, changed: nat, ghost done: seq<Effect>)
    requires led.Valid()
    modifies led
    ensures led.Valid()
    ensures led.trace == old(led.trace) + done && led.world == Run(old(led.world), done)
    ensures done == LoopEffects(old(led.world), Within(ts, calls), o)
    ensures changed == Appends(done)
    ensures ok <==> |ts| <= calls
  {
    ghost var w0, t0 := led.world, led.trace;
    changed, done := 0, [];
    for i := 0 to |ts|
      invariant led.Valid() && i <= calls
      invariant led.trace == t0 + done && led.world == Run(w0, done)
      invariant done == LoopEffects(w0, ts[..i], o)
      invariant changed == Appends(done)
    {
      if i == calls {
        return false, changed, done;
      }
      ghost var step := TxEffects(led.world, ts[i], o);
      LoopStep(w0, ts, i, o);
      var n := ReconcileOne(led, ts[i], o);
      RunMore(w0, t0, done, step);
      AppendsConcat(done, step);
      changed, done := changed + n, done + step;
    }
    assert ts[..|ts|] == ts;
    return true, changed, done;
  }

  lemma LoopStep(w: World, ts: seq<Txid>, i: nat, o: Oracle)
    requires i < |ts|
    ensures LoopEffects(w, ts[..i + 1], o)
            == LoopEffects(w, ts[..i], o) + TxEffects(Run(w, LoopEffects(w, ts[..i], o)), ts[i], o)
  {
    assert ts[..i + 1][..i] == ts[..i];
  }

  lemma {:induction false} LoopPrefix(w: World, ts: seq<Txid>, k: nat, o: Oracle)
    requires k <= |ts|
    ensures LoopEffects(w, ts[..k], o) <= LoopEffects(w, ts, o)
  {
    if k < |ts| {
      LoopPrefix(w, ts[..|ts| - 1], k, o);
      assert ts[..|ts| - 1][..k] == ts[..k];
    } else {
      assert ts[..k] == ts;
    }
  }

  /** The body of the pass for one in-flight transaction. */
  method ReconcileOne(led: Ledger, t: Txid, o: Oracle) returns (changed: nat)
    requires led.Valid()
    modifies led
    ensures led.Valid()
    ensures led.trace == old(led.trace) + TxEffects(old(led.world), t, o)
    ensures led.world == Run(old(led.world), TxEffects(old(led.world), t, o))
    ensures changed == Appends(TxEffects(old(led.world), t, o))
  {
    ghost var w0, t0 := led.world, led.trace;
    var confs := o.confs(t);
    ghost var first := [Observe(t, confs)];
    led.Act(Observe(t, confs));
    RunSnoc(w0, [], Observe(t, confs));
    if confs == 0 && t in led.sidecars {
      RunMore(w0, t0, first, Recover(led.world, t, o));
      AppendsConcat(first, Recover(led.world, t, o));
      changed := RecoverPending(led, t, o);
    } else {
      RunMore(w0, t0, first, Advance(led.world, t, confs));
      AppendsConcat(first, Advance(led.world, t, confs));
      changed := AdvanceLive(led, t, confs);
    }
  }

  /** Hands an unconfirmed payment out again and marks it Failed if it is provably dead. */
  method RecoverPending(led: Ledger, t: Txid, o: Oracle) returns (changed: nat)
    requires led.Valid() && t in led.sidecars
    modifies led
    ensures led.Valid()
    ensures led.trace == old(led.trace) + Recover(old(led.world), t, o)
    ensures led.world == Run(old(led.world), Recover(old(led.world), t, o))
    ensures changed == Appends(Recover(old(led.world), t, o))
  {
    ghost var w0, t0 := led.world, led.trace;
    var hex := led.sidecars[t];
    ghost var f := Broadcast(t, hex, o.rejects(hex));
    led.Act(f);
    RunSnoc(w0, [], f);
    if o.rejects(hex) {
      RunMore(w0, t0, [f], Condemn(led.world, t));
      AppendsConcat([f], Condemn(led.world, t));
      CondemnDead(led, t);
      changed := 1;
    } else {
      RunMore(w0, t0, [f], Advance(led.world, t, 0));
      AppendsConcat([f], Advance(led.world, t, 0));
      changed := AdvanceLive(led, t, 0);
    }
  }

  /** Marks a provably dead payment Failed and drops its sidecar. */
  method CondemnDead(led: Ledger, t: Txid)
    requires led.Valid()
    modifies led
    ensures led.Valid()
    ensures led.trace == old(led.trace) + Condemn(old(led.world), t)
    ensures led.world == Run(old(led.world), Condemn(old(led.world), t))
    ensures Appends(Condemn(old(led.world), t)) == 1
  {
    ghost var w0, fs := led.world, Condemn(led.world, t);
    led.UpdateStatus(t, Failed);
    led.RemoveSidecar(t);
    RunSnoc(w0, [], fs[0]);
    RunSnoc(w0, [fs[0]], fs[1]);
    AppendsConcat([fs[0]], [fs[1]]);
    assert fs == [fs[0]] + [fs[1]];
  }

  /** Moves a live payment to the status its confirmation count calls for. */
  method AdvanceLive(led: Ledger, t: Txid, confs: nat) returns (changed: nat)
    requires led.Valid()
    modifies led
    ensures led.Valid()
    ensures led.trace == old(led.trace) + Advance(old(led.world), t, confs)
    ensures led.world == Run(old(led.world), Advance(old(led.world), t, confs))
    ensures changed == Appends(Advance(old(led.world), t, confs))
  {
    ghost var w0 := led.world;
    ghost var done: seq<Effect> := [];
    changed := 0;
    var status := led.LatestStatusOf(t);
    if status != Some(FromConfirmations(confs)) {
      ghost var f := Append(StatusUpdate(NextSeq(w0.log), t, FromConfirmations(confs)));
      led.UpdateStatus(t, FromConfirmations(confs));
      RunSnoc(w0, done, f);
      done, changed := [f], 1;
    }
    ghost var removal := if confs >= 1 then [RemoveSidecar(t)] else [];
    AppendsConcat(done, removal);
    if confs >= 1 {
      led.RemoveSidecar(t);
      RunSnoc(w0, done, RemoveSidecar(t));
    }
    assert done + removal == Advance(w0, t, confs);
  }

  method SweepOrphans(led: Ledger, o: Oracle)
    requires led.Valid()
    modifies led
    ensures led.Valid() && led.entries == old(led.entries)
    ensures led.trace == old(led.trace) + SweepEffects(old(led.world), o)
    ensures led.world == Run(old(led.world), SweepEffects(old(led.world), o))
  {
    var listed := o.listing(led.sidecars.Keys);
    ghost var w0, t0 := led.world, led.trace;
    ghost var done: seq<Effect> := [];
    for i := 0 to |listed|
      invariant led.Valid() && led.entries == w0.log
      invariant led.trace == t0 + done && led.world == Run(w0, done)
      invariant Sweep(w0.log, listed) == done + Sweep(w0.log, listed[i..])
    {
      SweepUnfold(w0.log, listed, i, done);
      if !IsSent(led.entries, listed[i]) {
        led.RemoveSidecar(listed[i]);
        RunSnoc(w0, done, RemoveSidecar(listed[i]));
        done := done + [RemoveSidecar(listed[i])];
      }
    }
    assert listed[|listed|..] == [];
    assert done == SweepEffects(w0, o);
  }

  lemma SweepUnfold(log: seq<Entry>, listed: seq<Txid>, i: nat, done: seq<Effect>)
    requires i < |listed| && Sweep(log, listed) == done + Sweep(log, listed[i..])
    ensures Sweep(log, listed) ==
            (if IsSent(log, listed[i]) then done else done + [RemoveSidecar(listed[i])]) + Sweep(log, listed[i + 1..])
  {
    assert listed[i..][0] == listed[i] && listed[i..][1..] == listed[i + 1..];
  }

  lemma {:induction false} SweepAppendsNothing(log: seq<Entry>, listed: seq<Txid>)
    ensures Appends(Sweep(log, listed)) == 0
  {
    if listed != [] {
      SweepAppendsNothing(log, listed[1..]);
      AppendsConcat(if IsSent(log, listed[0]) then [] else [RemoveSidecar(listed[0])], Sweep(log, listed[1..]));
    }
  }
}
