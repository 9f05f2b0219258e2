// What a process leaves behind: the durable log and sidecars, plus the outside
// world's memory of it. An operation is a sequence of effects; a crash keeps a
// prefix of that sequence.
module World {
  import opened Base
  import opened Log

  datatype Effect =
    | WriteSidecar(txid: Txid, hex: string)
    | RemoveSidecar(txid: Txid)
    | Append(entry: Entry)
      // The network was handed the signed bytes; refused means a hard rejection.
    | Broadcast(txid: Txid, hex: string, refused: bool)
      // The chain source answered a confirmation query.
    | Observe(txid: Txid, confs: nat)
      // The chain source listed transactions, out of a block if mined.
    | Fetched(txids: set<Txid>, mined: bool)
      // A receive address was sent to a peer.
    | Reply(address: string, index: nat)

  /** log and sidecars survive a crash; the other components only remember, for
      stating properties, what was signed, handed out, seen confirmed or refused. */
  datatype World = World(
    log: seq<Entry>,
    sidecars: map<Txid, string>,
    signed: map<Txid, string>,
    relayed: set<Txid>,
    seen: set<Txid>,
    dead: set<Txid>,
    answered: seq<nat>)

  const EMPTY: World := World([], map[], map[], {}, {}, {}, [])

  function Apply(w: World, f: Effect): World {
    match f
    case WriteSidecar(t, hex) => w.(sidecars := w.sidecars[t := hex], signed := w.signed[t := hex])
    case RemoveSidecar(t) => w.(sidecars := w.sidecars - {t})
    case Append(e) => w.(log := w.log + [e])
    case Broadcast(t, _, refused) => w.(relayed := w.relayed + {t}, dead := if refused then w.dead + {t} else w.dead)
    case Observe(t, confs) => w.(seen := if confs > 0 then w.seen + {t} else w.seen)
    case Fetched(_, _) => w
    case Reply(_, index) => w.(answered := w.answered + [index])
  }

  function Run(w: World, fs: seq<Effect>): World
    decreases |fs|
  {
    if fs == [] then w else Run(Apply(w, fs[0]), fs[1..])
  }

  lemma {:induction false} RunConcat(w: World, fs: seq<Effect>, gs: seq<Effect>)
    ensures Run(w, fs + gs) == Run(Run(w, fs), gs)
    decreases |fs|
  {
    if fs == [] {
      assert fs + gs == gs;
    } else {
      assert (fs + gs)[1..] == fs[1..] + gs;
      RunConcat(Apply(w, fs[0]), fs[1..], gs);
    }
  }

  /** One more batch of effects after those of fs. */
  lemma RunMore(w: World, t0: seq<Effect>, fs: seq<Effect>, gs: seq<Effect>)
    ensures t0 + fs + gs == t0 + (fs + gs)
    ensures Run(w, fs + gs) == Run(Run(w, fs), gs)
  {
    RunConcat(w, fs, gs);
  }

  lemma RunSnoc(w: World, fs: seq<Effect>, f: Effect)
    ensures Run(w, fs + [f]) == Apply(Run(w, fs), f)
  {
    RunConcat(w, fs, [f]);
    assert [f][1..] == [];
  }

  /** The log only ever grows. */
  lemma {:induction false} RunExtendsLog(w: World, fs: seq<Effect>)
    ensures w.log <= Run(w, fs).log
    decreases |fs|
  {
    if fs != [] {
      RunExtendsLog(Apply(w, fs[0]), fs[1..]);
    }
  }
}
