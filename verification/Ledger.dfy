// The ledger object: in-memory entries mirrored line by line in a signed file,
// with the sidecars of not-yet-settled transactions beside it.
module LedgerStore {
  import opened Base
  import opened Log
  import opened World

  datatype Record = Record(entry: Entry, sig: string)

  /** A signing key, seen as what it signs and what it accepts. */
  datatype Identity = Identity(sign: Entry -> string, verify: (Entry, string) -> bool)

  function Sign(identity: Option<Identity>, e: Entry): string {
    if identity.Some? then identity.value.sign(e) else ""
  }

  predicate Accepts(identity: Option<Identity>, r: Record) {
    identity.Some? ==> identity.value.verify(r.entry, r.sig)
  }

  /** The key accepts what it signed. */
  ghost predicate SelfConsistent(identity: Option<Identity>) {
    forall e :: Accepts(identity, Record(e, Sign(identity, e)))
  }

  /** A line of the file: white space, a record, or neither. */
  datatype Line = Blank | Parsed(record: Record) | Garbled

  /** Blank lines are skipped; every other line must be a record that the key accepts. */
  predicate Readable(identity: Option<Identity>, line: Line) {
    line.Blank? || (line.Parsed? && Accepts(identity, line.record))
  }

  /** The entries of the records in file, in order. */
  function EntriesIn(file: seq<Line>): seq<Entry> {
    if file == [] then []
    else
      var before, line := EntriesIn(file[..|file| - 1]), file[|file| - 1];
      if line.Parsed? then before + [line.record.entry] else before
  }

  /** Reading the file back. */
  method Load(file: seq<Line>, identity: Option<Identity>) returns (r: Result<seq<Entry>>)
    ensures r.Ok? <==> forall line :: line in file ==> Readable(identity, line)
    ensures r.Ok? ==> r.value == EntriesIn(file)
  {
    var entries: seq<Entry> := [];
    for i := 0 to |file|
      invariant entries == EntriesIn(file[..i])
      invariant forall j :: 0 <= j < i ==> Readable(identity, file[j])
    {
      assert file[..i + 1][..i] == file[..i];
      if !file[i].Blank? {
        if file[i].Garbled? || !Accepts(identity, file[i].record) {
          assert !Readable(identity, file[i]);
          return Err;
        }
        entries := entries + [file[i].record.entry];
      }
    }
    assert file[..|file|] == file;
    return Ok(entries);
  }

  /** The file holds the entries of log in order, each signed by the key. */
  ghost predicate WrittenAs(identity: Option<Identity>, file: seq<Line>, log: seq<Entry>) {
    && |file| == |log|
    && forall i :: 0 <= i < |file| ==> file[i] == Parsed(Record(log[i], Sign(identity, log[i])))
  }

  lemma {:induction false} ReadBackIsLog(identity: Option<Identity>, file: seq<Line>, log: seq<Entry>)
    requires WrittenAs(identity, file, log)
    ensures EntriesIn(file) == log
  {
    if file != [] {
      var k := |file| - 1;
      ReadBackIsLog(identity, file[..k], log[..k]);
      assert log == log[..k] + [log[k]];
    }
  }

  /** A restart: the process's memory is gone, and a new ledger is built from the file
      and the sidecars that world w left on disk. */
  method Reopen(identity: Option<Identity>, file: seq<Line>, sidecars: map<Txid, string>, ghost w: World)
      returns (r: Result<Ledger>)
    requires WrittenAs(identity, file, w.log) && sidecars == w.sidecars
    ensures SelfConsistent(identity) ==> r.Ok?
    ensures r.Ok? ==> fresh(r.value) && r.value.Valid() && r.value.world == w && r.value.entries == w.log
  {
    ReadBackIsLog(identity, file, w.log);
    var entries := Load(file, identity);
    if entries.Err? {
      return Err;
    }
    assert entries.value == w.log;
    var led := new Ledger.FromDisk(identity, file, entries.value, sidecars, w);
    return Ok(led);
  }

  class Ledger {
    const identity: Option<Identity>
    var file: seq<Line>
    var entries: seq<Entry>
    var sidecars: map<Txid, string>
    // Everything done to the disk and the network since the ledger was opened,
    // in order, and where that has led.
    ghost var trace: seq<Effect>
    ghost var world: World

    ghost predicate Valid()
      reads this
    {
      && entries == world.log
      && sidecars == world.sidecars
      && WrittenAs(identity, file, entries)
    }

    /** Since world w0 and trace t0, exactly the effects fs have happened. */
    ghost predicate Since(w0: World, t0: seq<Effect>, fs: seq<Effect>)
      reads this
    {
      Valid() && trace == t0 + fs && world == Run(w0, fs)
    }

    constructor (identity: Option<Identity>)
      ensures Valid() && this.identity == identity
      ensures world == EMPTY && trace == []
    {
      this.identity := identity;
      file, entries, sidecars := [], [], map[];
      world, trace := EMPTY, [];
    }

    /** Takes over what was read back from disk. */
    constructor FromDisk(identity: Option<Identity>, file: seq<Line>, entries: seq<Entry>,
                         sidecars: map<Txid, string>, ghost w: World)
      requires WrittenAs(identity, file, w.log) && entries == w.log && sidecars == w.sidecars
      ensures Valid() && this.identity == identity && this.entries == entries && this.sidecars == sidecars
      ensures world == w && trace == []
    {
      this.identity := identity;
      this.file, this.entries, this.sidecars := file, entries, sidecars;
      world, trace := w, [];
    }

    // --- effects ------------------------------------------------------------

    method Append(e: Entry)
      requires Valid()
      modifies this
      ensures Valid()
      ensures trace == old(trace) + [Effect.Append(e)] && world == Apply(old(world), Effect.Append(e))
      ensures entries == old(entries) + [e] && sidecars == old(sidecars)
    {
      file := file + [Parsed(Record(e, Sign(identity, e)))];
      entries := entries + [e];
      world, trace := Apply(world, Effect.Append(e)), trace + [Effect.Append(e)];
    }

    method WriteSidecar(t: Txid, hex: string)
      requires Valid()
      modifies this
      ensures Valid()
      ensures trace == old(trace) + [Effect.WriteSidecar(t, hex)]
      ensures world == Apply(old(world), Effect.WriteSidecar(t, hex))
      ensures entries == old(entries) && sidecars == old(sidecars)[t := hex]
    {
      sidecars := sidecars[t := hex];
      world, trace := Apply(world, Effect.WriteSidecar(t, hex)), trace + [Effect.WriteSidecar(t, hex)];
    }

    /** Removing an absent sidecar is a success. */
    method RemoveSidecar(t: Txid)
      requires Valid()
      modifies this
      ensures Valid()
      ensures trace == old(trace) + [Effect.RemoveSidecar(t)]
      ensures world == Apply(old(world), Effect.RemoveSidecar(t))
      ensures entries == old(entries) && sidecars == old(sidecars) - {t}
    {
      if t in sidecars {
        sidecars := sidecars - {t};
      }
      world, trace := Apply(world, Effect.RemoveSidecar(t)), trace + [Effect.RemoveSidecar(t)];
    }

    /** Book-keeping for an exchange with the network, which changes no file. */
    ghost method Act(f: Effect)
      requires Valid() && (f.Broadcast? || f.Observe? || f.Fetched? || f.Reply?)
      modifies this`trace, this`world
      ensures Valid()
      ensures trace == old(trace) + [f] && world == Apply(old(world), f)
    {
      world, trace := Apply(world, f), trace + [f];
    }

    method UpdateStatus(t: Txid, s: Status)
      requires Valid()
      modifies this
      ensures Valid() && sidecars == old(sidecars)
      ensures entries == old(entries) + [StatusUpdate(NextSeq(old(entries)), t, s)]
      ensures trace == old(trace) + [Effect.Append(StatusUpdate(NextSeq(old(entries)), t, s))]
      ensures world == Apply(old(world), Effect.Append(StatusUpdate(NextSeq(old(entries)), t, s)))
    {
      Append(StatusUpdate(NextSeq(entries), t, s));
    }

    /** Books a deposit unless its transaction is already on the books. */
    method RecordReceived(t: Txid, sats: nat, index: nat) returns (booked: bool)
      requires Valid()
      modifies this
      ensures Valid() && sidecars == old(sidecars)
      ensures booked == !HasTxid(old(entries), t)
      ensures entries == old(entries)
                         + if booked then [Received(NextSeq(old(entries)), t, sats, index, Pending)] else []
      ensures trace == old(trace) + ReceiveEffects(old(entries), t, sats, index)
      ensures world == Run(old(world), ReceiveEffects(old(entries), t, sats, index))
    {
      if HasTxid(entries, t) {
        return false;
      }
      Append(Received(NextSeq(entries), t, sats, index, Pending));
      return true;
    }

    /** Books a scanned output unless its outpoint is already on the books. */
    method RecordSpReceived(t: Txid, vout: nat, sats: nat, tweak: string) returns (booked: bool)
      requires Valid()
      modifies this
      ensures Valid() && sidecars == old(sidecars)
      ensures booked == !HasSpOutput(old(entries), (t, vout))
      ensures entries == old(entries)
                         + if booked then [SpReceived(NextSeq(old(entries)), t, vout, sats, tweak, Pending)] else []
      ensures trace == old(trace) + SpReceiveEffects(old(entries), SpUtxo(t, vout, sats, tweak))
      ensures world == Run(old(world), SpReceiveEffects(old(entries), SpUtxo(t, vout, sats, tweak)))
    {
      if HasSpOutput(entries, (t, vout)) {
        return false;
      }
      Append(SpReceived(NextSeq(entries), t, vout, sats, tweak, Pending));
      return true;
    }

    /** Marks an outpoint spent; a second call is a no-op. */
    method RecordSpSpent(t: Txid, vout: nat) returns (booked: bool)
      requires Valid()
      modifies this
      ensures Valid() && sidecars == old(sidecars)
      ensures booked == !IsSpSpent(old(entries), (t, vout))
      ensures entries == old(entries) + if booked then [SpSpent(NextSeq(old(entries)), t, vout)] else []
      ensures trace == old(trace) + SpendEffects(old(entries), (t, vout))
      ensures world == Run(old(world), SpendEffects(old(entries), (t, vout)))
    {
      if IsSpSpent(entries, (t, vout)) {
        return false;
      }
      Append(SpSpent(NextSeq(entries), t, vout));
      return true;
    }

    // --- folds that the source computes with loops --------------------------

    method LatestStatusOf(t: Txid) returns (s: Option<Status>)
      requires Valid()
      ensures s == LatestStatus(entries, t)
    {
      s := None;
      for i := 0 to |entries|
        invariant s == LatestStatus(entries[..i], t)
      {
        assert entries[..i + 1] == entries[..i] + [entries[i]];
        Snoc(entries[..i], entries[i]);
        if entries[i].Stamps(t) {
          s := Some(entries[i].status);
        }
      }
      assert entries[..|entries|] == entries;
    }

    method ComputeBalance() returns (balance: nat)
      requires Valid()
      ensures balance == Balance(entries)
    {
      var bal: int := 0;
      for i := 0 to |entries|
        invariant bal == Raw(entries[..i], entries)
      {
        var e := entries[i];
        assert entries[..i + 1] == entries[..i] + [e];
        Snoc(entries[..i], e);
        if e.Received? {
          var s := LatestStatusOf(e.txid);
          if s == Some(Final) {
            bal := bal + e.sats;
          }
        } else if e.Sent? {
          var s := LatestStatusOf(e.txid);
          if s != Some(Failed) {
            bal := bal - e.sats;
          }
        }
      }
      assert entries[..|entries|] == entries;
      return if bal < 0 then 0 else bal;
    }

    method ComputePending() returns (out: seq<Txid>)
      requires Valid()
      ensures out == PendingOf(entries)
    {
      var seen: set<Txid> := {};
      out := [];
      for i := 0 to |entries|
        invariant forall t :: t in seen <==> t in Firsts(entries[..i])
        invariant out == OpenOnly(Firsts(entries[..i]), entries)
      {
        var e := entries[i];
        assert entries[..i + 1] == entries[..i] + [e];
        Snoc(entries[..i], e);
        if e.Payment() {
          var s := LatestStatusOf(e.txid);
          if e.txid !in seen {
            ghost var before := Firsts(entries[..i]);
            assert Firsts(entries[..i + 1]) == before + [e.txid];
            assert (before + [e.txid])[..|before|] == before;
            seen := seen + {e.txid};
            if s != Some(Final) && s != Some(Failed) {
              out := out + [e.txid];
            }
          }
        }
      }
      assert entries[..|entries|] == entries;
    }
  }

  // --- the effects of the idempotent bookings -------------------------------

  function ReceiveEffects(log: seq<Entry>, t: Txid, sats: nat, index: nat): seq<Effect> {
    if HasTxid(log, t) then [] else [Append(Received(NextSeq(log), t, sats, index, Pending))]
  }

  function SpReceiveEffects(log: seq<Entry>, u: SpUtxo): seq<Effect> {
    if HasSpOutput(log, u.Point()) then []
    else [Append(SpReceived(NextSeq(log), u.txid, u.vout, u.sats, u.tweak, Pending))]
  }

  function SpendEffects(log: seq<Entry>, p: Outpoint): seq<Effect> {
    if IsSpSpent(log, p) then [] else [Append(SpSpent(NextSeq(log), p.0, p.1))]
  }
}
