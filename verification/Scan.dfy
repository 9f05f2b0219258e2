// The chain scanner: which outputs of a transaction are ours, the walk over blocks
// and pages, and the tracking of outputs that have been spent.
module Scan {
  import opened Base
  import opened Log
  import opened World
  import opened LedgerStore
  import opened Protocol
  import opened Curve
  import opened SilentPayments
  import opened Hex
  import opened Pay
  import opened PolicyGate

  /** Smaller outputs are not worth the fee to ever spend. */
  const DUST_FLOOR: nat := 330
  const START_LOOKBACK: nat := 144
  const PAGE: nat := 25

  datatype Script = P2tr(key: int) | P2wpkh | OtherScript

  /** A witness item: whether it starts like an annex, and the public key it parses to, if any. */
  datatype Item = Item(annexTag: bool, point: Option<int>)

  datatype Vin = Vin(prev: Option<RawOutpoint>, coinbase: bool, prevout: Option<Script>, stack: seq<Item>)

  datatype Vout = Vout(script: Script, value: nat)

  datatype Tx = Tx(txid: Txid, vin: seq<Vin>, vout: seq<Vout>)

  /** The scanning wallet. */
  datatype Viewer = Viewer(g: Group, scanSk: int, spendSk: int)

  // --- matching one transaction ----------------------------------------------------------

  function DropAnnex(w: seq<Item>): seq<Item> {
    if |w| >= 2 && w[|w| - 1].annexTag then w[..|w| - 1] else w
  }

  /** The public key of an eligible input: key-path Taproot or P2WPKH. */
  function InputPubkey(g: Group, v: Vin): Option<int> {
    if v.coinbase || v.prevout.None? then None
    else match v.prevout.value
      case P2tr(key) => if |DropAnnex(v.stack)| == 1 && g.IsXOnly(key) then Some(key) else None
      case P2wpkh =>
        if v.stack == [] then None
        else
          var point := v.stack[|v.stack| - 1].point;
          if point.Some? && g.IsKey(point.value) then point else None
      case OtherScript => None
  }

  function Pubkeys(g: Group, vins: seq<Vin>): seq<int> {
    if vins == [] then []
    else
      var before := Pubkeys(g, vins[..|vins| - 1]);
      match InputPubkey(g, vins[|vins| - 1])
      case Some(p) => before + [p]
      case None => before
  }

  function Prevs(vins: seq<Vin>): seq<RawOutpoint> {
    if vins == [] then []
    else
      var before := Prevs(vins[..|vins| - 1]);
      match vins[|vins| - 1].prev
      case Some(o) => before + [o]
      case None => before
  }

  /** The Taproot outputs with their positions. */
  function TxOutputs(g: Group, vouts: seq<Vout>): seq<TxOutput> {
    if vouts == [] then []
    else
      var before, last := TxOutputs(g, vouts[..|vouts| - 1]), vouts[|vouts| - 1];
      if last.script.P2tr? && g.IsXOnly(last.script.key)
      then before + [TxOutput(|vouts| - 1, last.script.key, last.value)]
      else before
  }

  predicate Scannable(g: Group, tx: Tx) {
    && (forall v :: v in tx.vin ==> !v.coinbase)
    && Pubkeys(g, tx.vin) != [] && Prevs(tx.vin) != [] && TxOutputs(g, tx.vout) != []
  }

  function TxMatches(v: Viewer, tx: Tx): seq<SpFound>
    requires v.g.n > 0
  {
    if !Scannable(v.g, tx) then []
    else ReceiveCheck(v.g, Pubkeys(v.g, tx.vin), Smallest(Prevs(tx.vin)), TxOutputs(v.g, tx.vout), v.scanSk, v.spendSk)
  }

  /** TxOutputs lists exactly the Taproot outputs, in their order. */
  lemma {:induction false} OutputsInOrder(g: Group, vouts: seq<Vout>)
    ensures var outs := TxOutputs(g, vouts);
            && (forall o :: o in outs ==>
                  o.vout < |vouts| && vouts[o.vout] == Vout(P2tr(o.xonly), o.sats) && g.IsXOnly(o.xonly))
            && (forall i :: 0 <= i < |vouts| && vouts[i].script.P2tr? && g.IsXOnly(vouts[i].script.key) ==>
                  TxOutput(i, vouts[i].script.key, vouts[i].value) in outs)
            && (forall i, j :: 0 <= i < j < |outs| ==> outs[i].vout < outs[j].vout)
  {
    if vouts != [] {
      OutputsInOrder(g, vouts[..|vouts| - 1]);
    }
  }

  /** The witness of a Taproot key-path spend: one item, and perhaps an annex after it. */
  ghost predicate KeyPathStack(w: seq<Item>) {
    |w| == 1 || (|w| == 2 && w[1].annexTag)
  }

  /** Exactly which public key an input contributes: the output key, for a Taproot key-path
      spend; the key in the last witness item, as it is, for P2WPKH. Coinbase inputs,
      script-path spends and all other scripts contribute none. */
  lemma PubkeyIsExact(g: Group, v: Vin, key: int)
    ensures InputPubkey(g, v) == Some(key) <==>
              && !v.coinbase
              && ((v.prevout == Some(P2tr(key)) && g.IsXOnly(key) && KeyPathStack(v.stack))
                  || (v.prevout == Some(P2wpkh) && g.IsKey(key)
                      && v.stack != [] && v.stack[|v.stack| - 1].point == Some(key)))
  {}

  /** The input v of the transaction is the spend that the sender meant by i: a key-path
      spend of the Taproot output with i's even-Y key, or a P2WPKH spend with i's key. */
  ghost predicate SpendsAs(g: Group, v: Vin, i: SpInput) {
    && !v.coinbase && v.prev == Some(i.outpoint)
    && ((v.prevout == Some(P2tr(g.XOnly(i.key))) && g.IsXOnly(i.key) && KeyPathStack(v.stack))
        || (v.prevout == Some(P2wpkh) && g.IsKey(i.key)
            && v.stack != [] && v.stack[|v.stack| - 1].point == Some(i.key)))
  }

  lemma PubkeysSnoc(g: Group, vins: seq<Vin>, v: Vin)
    ensures Pubkeys(g, vins + [v])
            == Pubkeys(g, vins) + if InputPubkey(g, v).Some? then [InputPubkey(g, v).value] else []
    ensures Prevs(vins + [v]) == Prevs(vins) + if v.prev.Some? then [v.prev.value] else []
  {
    assert (vins + [v])[..|vins|] == vins;
  }

  lemma MapsSnoc(inputs: seq<SpInput>, i: SpInput)
    ensures Keys(inputs + [i]) == Keys(inputs) + [i.key]
    ensures OutpointsOf(inputs + [i]) == OutpointsOf(inputs) + [i.outpoint]
  {}

  lemma {:induction false} InputsRecovered(g: Group, vins: seq<Vin>, inputs: seq<SpInput>)
    requires |vins| == |inputs| && forall i :: 0 <= i < |vins| ==> SpendsAs(g, vins[i], inputs[i])
    ensures Pubkeys(g, vins) == Keys(inputs) && Prevs(vins) == OutpointsOf(inputs)
  {
    if vins != [] {
      var m := |vins| - 1;
      assert vins == vins[..m] + [vins[m]] && inputs == inputs[..m] + [inputs[m]];
      InputsRecovered(g, vins[..m], inputs[..m]);
      PubkeyIsExact(g, vins[m], inputs[m].key);
      PubkeysSnoc(g, vins[..m], vins[m]);
      MapsSnoc(inputs[..m], inputs[m]);
    }
  }

  /** The inputs among parts, in order. */
  function Present(parts: seq<Option<SpInput>>): seq<SpInput> {
    if parts == [] then []
    else
      var before, last := Present(parts[..|parts| - 1]), parts[|parts| - 1];
      if last.Some? then before + [last.value] else before
  }

  /** v contributes no key: a coinbase or unknown input, a script-path spend, a key that is
      not valid, or another kind of script. */
  ghost predicate Keyless(g: Group, v: Vin) {
    || v.coinbase || v.prevout.None? || v.prevout.value.OtherScript?
    || (v.prevout.value.P2tr? && (!KeyPathStack(v.stack) || !g.IsXOnly(v.prevout.value.key)))
    || (v.prevout.value.P2wpkh? &&
        (v.stack == [] || match v.stack[|v.stack| - 1].point case None => true case Some(p) => !g.IsKey(p)))
  }

  /** Whatever else a transaction spends, its public keys are those of the eligible inputs,
      in their order. */
  lemma {:induction false} OthersContributeNothing(g: Group, vins: seq<Vin>, parts: seq<Option<SpInput>>)
    requires |vins| == |parts|
    requires forall i :: 0 <= i < |vins| ==>
               if parts[i].Some? then SpendsAs(g, vins[i], parts[i].value) else Keyless(g, vins[i])
    ensures Pubkeys(g, vins) == Keys(Present(parts))
  {
    if vins != [] {
      var m := |vins| - 1;
      assert vins == vins[..m] + [vins[m]];
      OthersContributeNothing(g, vins[..m], parts[..m]);
      PubkeysSnoc(g, vins[..m], vins[m]);
      if parts[m].Some? {
        PubkeyIsExact(g, vins[m], parts[m].value.key);
        MapsSnoc(Present(parts[..m]), parts[m].value);
      } else {
        assert InputPubkey(g, vins[m]) == None;
      }
    }
  }

  /** The outpoints are those of all inputs, eligible or not. */
  lemma {:induction false} PrevsAreOfAllInputs(vins: seq<Vin>)
    requires forall v :: v in vins ==> v.prev.Some?
    ensures |Prevs(vins)| == |vins| && forall i :: 0 <= i < |vins| ==> Prevs(vins)[i] == vins[i].prev.value
  {
    if vins != [] {
      var front, last := vins[..|vins| - 1], vins[|vins| - 1];
      assert vins == front + [last] && last in vins && forall v :: v in front ==> v in vins;
      PrevsAreOfAllInputs(front);
    }
  }

  lemma {:induction false} PubkeysAreKeys(g: Group, vins: seq<Vin>)
    ensures forall p :: p in Pubkeys(g, vins) ==> g.IsKey(p)
  {
    if vins != [] {
      PubkeysAreKeys(g, vins[..|vins| - 1]);
    }
  }

  /** The k-th match of a transaction: its tweak is the hash of rank k and the shared point,
      which is the input hash times the sum of the input keys times the scan key; and it is
      an output that pays the spend key plus that tweak. The input hash is that of the least
      of all outpoints and the key sum. */
  lemma MatchValue(v: Viewer, tx: Tx, o: RawOutpoint, k: nat)
    requires v.g.n > 0 && k < |TxMatches(v, tx)| && IsLeast(o, Prevs(tx.vin))
    ensures var sum := Sum(Pubkeys(v.g, tx.vin));
            var hash := Num(v.g.inputHash(SerOutpoint(o), sum % v.g.n));
            var f := TxMatches(v, tx)[k];
            && f.tweak == v.g.sharedHash((hash * sum * v.scanSk) % v.g.n, k)
            && f.vout < |tx.vout|
            && tx.vout[f.vout] == Vout(P2tr(v.g.XOnly((v.spendSk + Num(f.tweak)) % v.g.n)), f.sats)
  {
    PubkeysAreKeys(v.g, tx.vin);
    FoundInTxValue(v.g, Pubkeys(v.g, tx.vin), Prevs(tx.vin), o, tx.vout, v.scanSk, v.spendSk, k);
  }

  lemma FoundInTxValue(g: Group, pubkeys: seq<int>, os: seq<RawOutpoint>, o: RawOutpoint, vouts: seq<Vout>,
                       scanSk: int, spend: int, k: nat)
    requires g.n > 0 && (forall p :: p in pubkeys ==> g.IsKey(p)) && IsLeast(o, os)
    requires k < |ReceiveCheck(g, pubkeys, Smallest(os), TxOutputs(g, vouts), scanSk, spend)|
    ensures var f := ReceiveCheck(g, pubkeys, Smallest(os), TxOutputs(g, vouts), scanSk, spend)[k];
            var hash := Num(g.inputHash(SerOutpoint(o), Sum(pubkeys) % g.n));
            && f.tweak == g.sharedHash((hash * Sum(pubkeys) * scanSk) % g.n, k)
            && f.vout < |vouts|
            && vouts[f.vout] == Vout(P2tr(g.XOnly((spend + Num(f.tweak)) % g.n)), f.sats)
  {
    var outs := TxOutputs(g, vouts);
    var f := ReceiveCheck(g, pubkeys, Smallest(os), outs, scanSk, spend)[k];
    FoundAtRankValue(g, pubkeys, os, o, outs, scanSk, spend, k);
    OutputStandsAt(g, vouts, TxOutput(f.vout, g.XOnly((spend + Num(f.tweak)) % g.n), f.sats));
  }

  lemma OutputStandsAt(g: Group, vouts: seq<Vout>, out: TxOutput)
    requires out in TxOutputs(g, vouts)
    ensures out.vout < |vouts| && vouts[out.vout] == Vout(P2tr(out.xonly), out.sats)
  {
    OutputsInOrder(g, vouts);
  }

  /** A transaction with a coinbase input, or without an eligible one, is never matched. */
  lemma NothingToMatch(v: Viewer, tx: Tx)
    requires v.g.n > 0
    requires (exists i :: i in tx.vin && i.coinbase) || forall i :: i in tx.vin ==> Keyless(v.g, i)
    ensures TxMatches(v, tx) == []
  {
    if forall i :: i in tx.vin ==> Keyless(v.g, i) {
      var parts := seq(|tx.vin|, _ => None);
      assert forall i :: 0 <= i < |tx.vin| ==> tx.vin[i] in tx.vin;
      OthersContributeNothing(v.g, tx.vin, parts);
      NonePresent(parts);
    }
  }

  lemma {:induction false} NonePresent(parts: seq<Option<SpInput>>)
    requires forall i :: 0 <= i < |parts| ==> parts[i] == None
    ensures Present(parts) == []
  {
    if parts != [] {
      NonePresent(parts[..|parts| - 1]);
    }
  }

  /** tx spends exactly the inputs listed, in that order. */
  ghost predicate SpendsInputs(g: Group, tx: Tx, listed: seq<SpInput>) {
    |tx.vin| == |listed| && forall i :: 0 <= i < |listed| ==> SpendsAs(g, tx.vin[i], listed[i])
  }

  /** Nothing stands in the way of the receive check: no partial sum of the input keys is
      zero in the order of the transaction, and no output key that the loop gets to fails
      to derive from the shared point ecdh. */
  ghost predicate NothingFails(v: Viewer, listed: seq<SpInput>, tx: Tx, ecdh: int)
    requires v.g.n > 0
  {
    NoZeroPartialSum(v.g, Keys(listed)) && NoRankFails(TxOutputs(v.g, tx.vout), 0, Ranks(v.g, ecdh, v.spendSk))
  }

  /** Agreement. For every mix of Taproot key-path inputs with even-Y keys and P2WPKH inputs,
      every order in which the transaction lists them and every arrangement of its outputs: the code's owner finds
      the first output that pays the address the sender derived, with its value and a
      tweak that recovers its key, exactly when no partial key sum is zero and no rank
      that the loop gets to fails to derive. */
  lemma OwnerFindsPayment(v: Viewer, inputs: seq<SpInput>, listed: seq<SpInput>, tx: Tx, x: int, o: nat)
    requires v.g.Valid() && inputs != [] && multiset(inputs) == multiset(listed)
    requires SpendsInputs(v.g, tx, listed)
    requires SendAddress(v.g, inputs, v.scanSk, v.spendSk) == Some(x)
    requires o < |tx.vout| && tx.vout[o].script == P2tr(x)
    requires forall j :: 0 <= j < o ==> tx.vout[j].script != P2tr(x)
    ensures var ecdh := SenderEcdh(v.g, inputs, v.scanSk).value;
            if !NothingFails(v, listed, tx, ecdh) then TxMatches(v, tx) == []
            else
              && TxMatches(v, tx) != []
              && var f := TxMatches(v, tx)[0];
              && f.vout == o && f.sats == tx.vout[o].value
              && SpendKey(v.g, v.spendSk, f.tweak).Some?
              && v.g.XOnly(SpendKey(v.g, v.spendSk, f.tweak).value) == x
  {
    var ecdh := SenderEcdh(v.g, inputs, v.scanSk).value;
    var outs := TxOutputs(v.g, tx.vout);
    OutputsInOrder(v.g, tx.vout);
    SentKeyIsXOnly(v.g, ecdh, v.spendSk);
    assert TxOutput(o, x, tx.vout[o].value) in outs;
    MatchesAreGreedy(v, inputs, listed, tx);
    GreedyFails(outs, 0, Ranks(v.g, ecdh, v.spendSk));
    if NothingFails(v, listed, tx, ecdh) {
      FirstIsFound(outs, Ranks(v.g, ecdh, v.spendSk), o, x, tx.vout[o].value);
    }
  }

  /** What is matched is what the loop finds with the sender's shared point, or nothing if
      some partial key sum is zero. */
  lemma MatchesAreGreedy(v: Viewer, inputs: seq<SpInput>, listed: seq<SpInput>, tx: Tx)
    requires v.g.Valid() && inputs != [] && multiset(inputs) == multiset(listed)
    requires SpendsInputs(v.g, tx, listed) && TxOutputs(v.g, tx.vout) != []
    requires SenderEcdh(v.g, inputs, v.scanSk).Some?
    ensures var ecdh := SenderEcdh(v.g, inputs, v.scanSk).value;
            var found := Greedy(TxOutputs(v.g, tx.vout), 0, Ranks(v.g, ecdh, v.spendSk));
            TxMatches(v, tx) == if NoZeroPartialSum(v.g, Keys(listed)) && found.Some? then found.value else []
  {
    InputsAreScannable(v.g, inputs, listed, tx);
    SumKeysSucceeds(v.g, Keys(listed));
    SumKeysSucceeds(v.g, Keys(inputs));
    if NoZeroPartialSum(v.g, Keys(listed)) {
      EcdhAgrees(v.g, inputs, listed, v.scanSk);
    }
  }

  lemma InputsAreScannable(g: Group, inputs: seq<SpInput>, listed: seq<SpInput>, tx: Tx)
    requires inputs != [] && multiset(inputs) == multiset(listed)
    requires SpendsInputs(g, tx, listed)
    ensures Pubkeys(g, tx.vin) == Keys(listed) != [] && Prevs(tx.vin) == OutpointsOf(listed) != []
    ensures forall w :: w in tx.vin ==> !w.coinbase
    ensures forall k :: k in Keys(listed) || k in Keys(inputs) ==> g.IsKey(k)
    ensures forall i :: i in inputs ==> g.IsKey(i.key)
  {
    assert forall i :: i in listed ==> g.IsKey(i.key);
    forall i | i in inputs ensures g.IsKey(i.key) { assert i in multiset(listed); }
    assert inputs[0] in multiset(listed);
    InputsRecovered(g, tx.vin, listed);
    assert |Keys(listed)| == |OutpointsOf(listed)| == |listed| > 0;
  }

  lemma SentKeyIsXOnly(g: Group, ecdh: int, spend: int)
    requires g.Valid() && OutputAt(g, ecdh, spend, 0).Some?
    ensures var out := OutputAt(g, ecdh, spend, 0).value;
            && g.IsXOnly(out.0)
            && SpendKey(g, spend, out.1).Some? && g.XOnly(SpendKey(g, spend, out.1).value) == out.0
  {}

  /** The first thing the loop finds is the first output with the key of rank 0. */
  lemma FirstIsFound(outs: seq<TxOutput>, derive: Derivation, o: nat, x: int, sats: nat)
    requires TxOutput(o, x, sats) in outs && derive(0).Some? && derive(0).value.0 == x
    requires forall i, j :: 0 <= i < j < |outs| ==> outs[i].vout < outs[j].vout
    requires forall u :: u in outs && u.xonly == x ==> u.vout >= o
    requires Greedy(outs, 0, derive).Some?
    ensures Greedy(outs, 0, derive).value != []
    ensures Greedy(outs, 0, derive).value[0] == SpFound(o, sats, derive(0).value.1)
  {
    var j :| 0 <= j < |outs| && outs[j] == TxOutput(o, x, sats);
    var p := Position(outs, x).value;
    assert outs[p] in outs && outs[p].xonly == x;
    assert p == j;
  }

  /** The block at each height. */
  type Blocks = nat -> seq<Tx>

  // --- what a transaction, a page and a block are worth booking ------------------------------

  function BookForm(txid: Txid, found: seq<SpFound>): seq<SpUtxo> {
    if found == [] then []
    else
      var before, f := BookForm(txid, found[..|found| - 1]), found[|found| - 1];
      if f.sats < DUST_FLOOR then before else before + [SpUtxo(txid, f.vout, f.sats, HexLower(f.tweak))]
  }

  lemma {:induction false} BookFormIsFound(txid: Txid, found: seq<SpFound>, u: SpUtxo)
    requires u in BookForm(txid, found)
    ensures exists f :: f in found && f.sats >= DUST_FLOOR && u == SpUtxo(txid, f.vout, f.sats, HexLower(f.tweak))
  {
    var front, f := found[..|found| - 1], found[|found| - 1];
    assert f in found;
    if u in BookForm(txid, front) {
      BookFormIsFound(txid, front, u);
    }
  }

  /** Every match of at least 330 sats is booked, in the order of the matches, with its
      tweak in hex, and no other one is. */
  lemma {:induction false} BookFormSplits(txid: Txid, a: seq<SpFound>, f: SpFound, b: seq<SpFound>)
    ensures BookForm(txid, a + [f] + b)
            == BookForm(txid, a)
               + (if f.sats >= 330 then [SpUtxo(txid, f.vout, f.sats, HexLower(f.tweak))] else [])
               + BookForm(txid, b)
  {
    if b == [] {
      assert a + [f] + b == a + [f] && (a + [f])[..|a|] == a;
    } else {
      var front, last := b[..|b| - 1], b[|b| - 1];
      var all := a + [f] + b;
      assert all[..|all| - 1] == a + [f] + front && all[|all| - 1] == last;
      BookFormSplits(txid, a, f, front);
    }
  }

  lemma MatchIsBooked(txid: Txid, found: seq<SpFound>, f: SpFound)
    requires f in found && f.sats >= 330
    ensures SpUtxo(txid, f.vout, f.sats, HexLower(f.tweak)) in BookForm(txid, found)
  {
    var i :| 0 <= i < |found| && found[i] == f;
    assert found == found[..i] + [f] + found[i + 1..];
    BookFormSplits(txid, found[..i], f, found[i + 1..]);
  }

  /** What is matched in a transaction is one of its outputs, at its value. */
  lemma MatchIsOutput(v: Viewer, tx: Tx, f: SpFound)
    requires v.g.n > 0 && f in TxMatches(v, tx)
    ensures f.vout < |tx.vout| && tx.vout[f.vout].value == f.sats
  {
    var outs := TxOutputs(v.g, tx.vout);
    var ecdh := ReceiverEcdh(v.g, Pubkeys(v.g, tx.vin), Smallest(Prevs(tx.vin)), v.scanSk).value;
    var derive := Ranks(v.g, ecdh, v.spendSk);
    GreedyFindsOutputs(outs, 0, derive);
    OutputsInOrder(v.g, tx.vout);
    var found := Greedy(outs, 0, derive).value;
    var i :| 0 <= i < |found| && found[i] == f;
    assert MatchesRank(f, outs, 0 + i, derive);
  }

  /** What is booked for a transaction carries its id and an output's position and value. */
  lemma BookedIsOutput(v: Viewer, tx: Tx, u: SpUtxo)
    requires v.g.n > 0 && u in BookForm(tx.txid, TxMatches(v, tx))
    ensures u.txid == tx.txid && u.vout < |tx.vout| && tx.vout[u.vout].value == u.sats
  {
    var found := TxMatches(v, tx);
    BookFormIsFound(tx.txid, found, u);
    var f :| f in found && f.sats >= DUST_FLOOR && u == SpUtxo(tx.txid, f.vout, f.sats, HexLower(f.tweak));
    MatchIsOutput(v, tx, f);
  }

  /** What a scanner books for a transaction. */
  type Booker = Tx -> seq<SpUtxo>

  function BookerOf(v: Viewer): Booker
    requires v.g.n > 0
  {
    (tx: Tx) => BookForm(tx.txid, TxMatches(v, tx))
  }

  function Payments(book: Booker, txs: seq<Tx>): seq<SpUtxo> {
    if txs == [] then [] else Payments(book, txs[..|txs| - 1]) + book(txs[|txs| - 1])
  }

  function BookEffects(w: World, us: seq<SpUtxo>): seq<Effect> {
    if us == [] then []
    else
      var before := BookEffects(w, us[..|us| - 1]);
      before + SpReceiveEffects(Run(w, before).log, us[|us| - 1])
  }

  lemma BookSnoc(w: World, us: seq<SpUtxo>, u: SpUtxo)
    ensures BookEffects(w, us + [u]) == BookEffects(w, us) + SpReceiveEffects(Run(w, BookEffects(w, us)).log, u)
  {
    assert (us + [u])[..|us|] == us;
  }

  function Ids(txs: seq<Tx>): set<Txid> {
    set tx | tx in txs :: tx.txid
  }

  /** One page: fetched, then its matches booked in order. */
  function PageEffects(book: Booker, w: World, txs: seq<Tx>): seq<Effect> {
    [Fetched(Ids(txs), true)] + BookEffects(w, Payments(book, txs))
  }

  function PagesEffects(book: Booker, w: World, pages: seq<seq<Tx>>): seq<Effect> {
    if pages == [] then []
    else
      var before := PagesEffects(book, w, pages[..|pages| - 1]);
      before + PageEffects(book, Run(w, before), pages[|pages| - 1])
  }

  lemma PagesSnoc(book: Booker, w: World, ps: seq<seq<Tx>>, page: seq<Tx>)
    ensures PagesEffects(book, w, ps + [page])
            == PagesEffects(book, w, ps) + PageEffects(book, Run(w, PagesEffects(book, w, ps)), page)
  {
    assert (ps + [page])[..|ps|] == ps;
  }

  /** The pages in which the chain source hands out a block's transactions. */
  function Pages(txs: seq<Tx>): seq<seq<Tx>> {
    if txs == [] then [] else if |txs| < PAGE then [txs] else [txs[..PAGE]] + Pages(txs[PAGE..])
  }

  function Joined(pages: seq<seq<Tx>>): seq<Tx> {
    if pages == [] then [] else pages[0] + Joined(pages[1..])
  }

  /** The pages hold every transaction of the block exactly once and in order; all of them
      are full but the last, and none is empty. */
  lemma {:induction false} PagesCoverBlock(txs: seq<Tx>)
    ensures Joined(Pages(txs)) == txs
    ensures forall i :: 0 <= i < |Pages(txs)| ==> 0 < |Pages(txs)[i]| <= 25
    ensures forall i :: 0 <= i < |Pages(txs)| - 1 ==> |Pages(txs)[i]| == 25
  {
    if |txs| >= PAGE {
      PagesCoverBlock(txs[PAGE..]);
      assert Pages(txs)[1..] == Pages(txs[PAGE..]);
      assert forall i :: 1 <= i < |Pages(txs)| ==> Pages(txs)[i] == Pages(txs[PAGE..])[i - 1];
    } else if txs != [] {
      assert Pages(txs)[1..] == [];
    }
  }

  /** The pages of the blocks from height start up to, not including, end. */
  function RangePages(blocks: Blocks, start: nat, end: nat): seq<seq<Tx>> {
    if end <= start then [] else RangePages(blocks, start, end - 1) + Pages(blocks(end - 1))
  }

  // --- the walk --------------------------------------------------------------------------------

  /** Books the matches of one transaction after those in us. */
  method BookTx(led: Ledger, txid: Txid, found: seq<SpFound>,
                ghost w0: World, ghost t0: seq<Effect>, ghost us: seq<SpUtxo>)
    requires led.Since(w0, t0, BookEffects(w0, us))
    modifies led
    ensures led.Since(w0, t0, BookEffects(w0, us + BookForm(txid, found)))
  {
    assert us + BookForm(txid, found[..0]) == us;
    for i := 0 to |found|
      invariant led.Since(w0, t0, BookEffects(w0, us + BookForm(txid, found[..i])))
    {
      assert found[..i + 1][..i] == found[..i];
      if found[i].sats >= DUST_FLOOR {
        var tweak := WriteHex(found[i].tweak);
        ghost var before, u := us + BookForm(txid, found[..i]), SpUtxo(txid, found[i].vout, found[i].sats, tweak);
        assert us + BookForm(txid, found[..i + 1]) == before + [u];
        BookSnoc(w0, before, u);
        RunMore(w0, t0, BookEffects(w0, before), SpReceiveEffects(led.entries, u));
        var _ := led.RecordSpReceived(txid, found[i].vout, found[i].sats, tweak);
      }
    }
    assert found[..|found|] == found;
  }

  /** Books the matches of every transaction of a page, after its fetch. */
  method BookPage(led: Ledger, v: Viewer, txs: seq<Tx>, ghost w0: World, ghost t0: seq<Effect>)
    requires v.g.n > 0 && led.Since(w0, t0, BookEffects(w0, []))
    modifies led
    ensures led.Since(w0, t0, BookEffects(w0, Payments(BookerOf(v), txs)))
  {
    for i := 0 to |txs|
      invariant led.Since(w0, t0, BookEffects(w0, Payments(BookerOf(v), txs[..i])))
    {
      assert txs[..i + 1][..i] == txs[..i];
      BookTx(led, txs[i].txid, TxMatches(v, txs[i]), w0, t0, Payments(BookerOf(v), txs[..i]));
    }
    assert txs[..|txs|] == txs;
  }

  method ScanPage(led: Ledger, v: Viewer, txs: seq<Tx>)
    requires led.Valid() && v.g.n > 0
    modifies led
    ensures led.Valid()
    ensures led.trace == old(led.trace) + PageEffects(BookerOf(v), old(led.world), txs)
    ensures led.world == Run(old(led.world), PageEffects(BookerOf(v), old(led.world), txs))
  {
    ghost var w0, t0 := led.world, led.trace;
    ghost var first := Fetched(Ids(txs), true);
    led.Act(first);
    RunSnoc(w0, [], first);
    RunMore(w0, t0, [first], BookEffects(w0, Payments(BookerOf(v), txs)));
    BookPage(led, v, txs, w0, t0 + [first]);
  }

  /** Fetches a block page by page until a short or an empty page, after the pages
      already walked; the chain source fails after `calls` answers. */
  method ScanBlock(led: Ledger, v: Viewer, block: seq<Tx>, calls: nat,
                   ghost w0: World, ghost t0: seq<Effect>, ghost walked: seq<seq<Tx>>)
      returns (ok: bool, left: nat, ghost pages: seq<seq<Tx>>)
    requires v.g.n > 0 && led.Since(w0, t0, PagesEffects(BookerOf(v), w0, walked))
    modifies led
    ensures led.Since(w0, t0, PagesEffects(BookerOf(v), w0, walked + pages))
    ensures pages <= Pages(block) && (ok ==> pages == Pages(block))
  {
    var pageStart := 0;
    left, pages := calls, [];
    assert walked + [] == walked;
    while true
      invariant pageStart <= |block|
      invariant led.Since(w0, t0, PagesEffects(BookerOf(v), w0, walked + pages))
      invariant Pages(block) == pages + Pages(block[pageStart..])
      decreases |block| - pageStart
    {
      if left == 0 {
        return false, left, pages;
      }
      left := left - 1;
      var end := if pageStart + PAGE <= |block| then pageStart + PAGE else |block|;
      var txs := block[pageStart..end];
      if txs == [] {
        return true, left, pages;
      }
      assert pageStart + |txs| == end;
      NextPage(block, pageStart, end, pages, walked);
      NextPageEffects(BookerOf(v), w0, t0, walked + pages, txs);
      ScanPage(led, v, txs);
      pages := pages + [txs];
      if |txs| < PAGE {
        return true, left, pages;
      }
      pageStart := pageStart + |txs|;
    }
  }

  lemma PagesUnfold(block: seq<Tx>, pageStart: nat, end: nat)
    requires pageStart < |block| && end == (if pageStart + PAGE <= |block| then pageStart + PAGE else |block|)
    ensures Pages(block[pageStart..]) == [block[pageStart..end]] + Pages(block[end..])
  {
    var rest := block[pageStart..];
    if |rest| < PAGE {
      assert block[pageStart..end] == rest && block[end..] == [];
    } else {
      assert rest[..PAGE] == block[pageStart..end] && rest[PAGE..] == block[end..];
    }
  }

  lemma NextPage(block: seq<Tx>, pageStart: nat, end: nat, pages: seq<seq<Tx>>, walked: seq<seq<Tx>>)
    requires pageStart < |block| && end == (if pageStart + PAGE <= |block| then pageStart + PAGE else |block|)
    requires Pages(block) == pages + Pages(block[pageStart..])
    ensures Pages(block) == pages + [block[pageStart..end]] + Pages(block[end..])
    ensures walked + pages + [block[pageStart..end]] == walked + (pages + [block[pageStart..end]])
  {
    PagesUnfold(block, pageStart, end);
    Assoc(pages, [block[pageStart..end]], Pages(block[end..]));
    Assoc(walked, pages, [block[pageStart..end]]);
  }

  lemma NextPageEffects(book: Booker, w: World, t0: seq<Effect>, pages: seq<seq<Tx>>, txs: seq<Tx>)
    ensures var fs := PagesEffects(book, w, pages);
            var gs := PageEffects(book, Run(w, fs), txs);
            && t0 + fs + gs == t0 + PagesEffects(book, w, pages + [txs])
            && Run(w, PagesEffects(book, w, pages + [txs])) == Run(Run(w, fs), gs)
  {
    var fs := PagesEffects(book, w, pages);
    PagesSnoc(book, w, pages, txs);
    RunMore(w, t0, fs, PageEffects(book, Run(w, fs), txs));
  }

  // --- passes ----------------------------------------------------------------------------------

  /** What happens between two looks at the wallet: a pass that sees a tip and is cut
      after some effects, or runs through and marks spends; or anything that books no
      silent-payment output. */
  datatype Event =
    | CutPass(tip: nat, cut: nat)
    | FullPass(tip: nat, marked: seq<Outpoint>)
    | Other(effects: seq<Effect>)

  /** low is the smallest checkpoint there ever was, high the highest tip ever seen. */
  datatype Progress = Progress(w: World, checkpoint: Option<nat>, low: nat, high: nat)

  function StartOf(checkpoint: Option<nat>, tip: nat): nat {
    if checkpoint.Some? then checkpoint.value + 1 else Minus(tip, START_LOOKBACK)
  }

  function Max(a: nat, b: nat): nat { if a < b then b else a }

  function Min(a: nat, b: nat): nat { if a < b then a else b }

  function Walk(book: Booker, blocks: Blocks, s: Progress, tip: nat): seq<Effect>
  {
    PagesEffects(book, s.w, RangePages(blocks, StartOf(s.checkpoint, tip), tip + 1))
  }

  function After(book: Booker, blocks: Blocks, s: Progress, e: Event): Progress
  {
    match e
    case CutPass(tip, cut) =>
      var fs := Walk(book, blocks, s, tip);
      s.(w := Run(s.w, if cut < |fs| then fs[..cut] else fs), high := Max(s.high, tip))
    case FullPass(tip, marked) =>
      var w1 := Run(s.w, Walk(book, blocks, s, tip));
      Progress(Run(w1, SpendAll(w1, marked)), Some(tip), Min(s.low, tip), Max(s.high, tip))
    case Other(fs) => s.(w := Run(s.w, fs))
  }

  /** A part of the pages leaves a part of the effects. */
  lemma {:induction false} PagesPrefix(book: Booker, w: World, ps: seq<seq<Tx>>, qs: seq<seq<Tx>>)
    requires ps <= qs
    ensures PagesEffects(book, w, ps) <= PagesEffects(book, w, qs)
  {
    if |ps| < |qs| {
      PagesPrefix(book, w, ps, qs[..|qs| - 1]);
    } else {
      assert ps == qs;
    }
  }

  /** A pass that ends early is a pass that is cut. */
  lemma EarlyEndIsCut(book: Booker, blocks: Blocks, s: Progress, tip: nat, pages: seq<seq<Tx>>)
    requires pages <= RangePages(blocks, StartOf(s.checkpoint, tip), tip + 1)
    ensures var fs := PagesEffects(book, s.w, pages);
            After(book, blocks, s, CutPass(tip, |fs|)).w == Run(s.w, fs)
  {
    var fs, walk := PagesEffects(book, s.w, pages), Walk(book, blocks, s, tip);
    PagesPrefix(book, s.w, pages, RangePages(blocks, StartOf(s.checkpoint, tip), tip + 1));
    assert if |fs| < |walk| then walk[..|fs|] == fs else walk == fs;
  }

  /** How far a pass got. */
  datatype Stage = Interrupted | SpendsPending | Complete

  class Scanner {
    var checkpoint: Option<nat>

    constructor (checkpoint: Option<nat>)
      ensures this.checkpoint == checkpoint
    {
      this.checkpoint := checkpoint;
    }

    /** Pins a fresh wallet's first scan to the tip; an existing checkpoint is kept. */
    method AnchorBirth(tip: nat)
      modifies this
      ensures checkpoint == if old(checkpoint).Some? then old(checkpoint) else Some(tip)
    {
      if checkpoint.None? {
        checkpoint := Some(tip);
      }
    }

    /** One pass to the tip. The checkpoint moves only when every block up to the tip
        has been walked; calls and answers bound what the chain source delivers. In the
        history of passes that led to s, this one is the event e. */
    method ScanToTip(led: Ledger, v: Viewer, blocks: Blocks, tip: nat, calls: nat,
                     spent: Outpoint -> bool, answers: nat, ghost s: Progress)
        returns (stage: Stage, ghost pages: seq<seq<Tx>>, ghost marked: seq<Outpoint>, ghost e: Event)
      requires led.Valid() && v.g.n > 0
      requires s.w == led.world && s.checkpoint == checkpoint
      modifies this, led
      ensures led.Valid()
      ensures pages <= RangePages(blocks, StartOf(s.checkpoint, tip), tip + 1)
      ensures stage == Interrupted ==> checkpoint == old(checkpoint) && marked == []
      ensures stage != Interrupted ==>
        checkpoint == Some(tip) && pages == RangePages(blocks, StartOf(s.checkpoint, tip), tip + 1)
      ensures e == if stage == Interrupted then CutPass(tip, |PagesEffects(BookerOf(v), s.w, pages)|)
                   else FullPass(tip, marked)
      ensures var s' := After(BookerOf(v), blocks, s, e);
              led.world == s'.w && checkpoint == s'.checkpoint
      ensures var fs := PagesEffects(BookerOf(v), old(led.world), pages);
              var w1 := Run(old(led.world), fs);
              && led.trace == old(led.trace) + fs + SpendAll(w1, marked)
              && led.world == Run(w1, SpendAll(w1, marked))
              && marked <= Reported(SpUtxos(w1.log), spent)
              && (stage == Complete ==> SpUtxos(led.entries) == StillUnspent(SpUtxos(w1.log), spent))
    {
      var start := StartOf(checkpoint, tip);
      ghost var w0, t0 := led.world, led.trace;
      var walked;
      walked, pages := WalkBlocks(led, v, blocks, start, tip, calls);
      marked := [];
      if !walked {
        EarlyEndIsCut(BookerOf(v), blocks, s, tip, pages);
        return Interrupted, pages, [], CutPass(tip, |PagesEffects(BookerOf(v), s.w, pages)|);
      }
      checkpoint := Some(tip);
      var all;
      all, marked := TrackSpends(led, spent, answers);
      return if all then Complete else SpendsPending, pages, marked, FullPass(tip, marked);
    }
  }

  /** Walks the blocks from start to the tip; false if the chain source failed on the way. */
  method WalkBlocks(led: Ledger, v: Viewer, blocks: Blocks, start: nat, tip: nat, calls: nat)
      returns (ok: bool, ghost pages: seq<seq<Tx>>)
    requires led.Valid() && v.g.n > 0
    modifies led
    ensures led.Since(old(led.world), old(led.trace), PagesEffects(BookerOf(v), old(led.world), pages))
    ensures pages <= RangePages(blocks, start, tip + 1)
    ensures ok ==> pages == RangePages(blocks, start, tip + 1)
  {
    var height, left := start, calls;
    ghost var w0, t0, whole := led.world, led.trace, RangePages(blocks, start, tip + 1);
    pages := [];
    RangeFrom(blocks, start, tip + 1);
    while height <= tip
      invariant led.Since(w0, t0, PagesEffects(BookerOf(v), w0, pages))
      invariant Ahead(blocks, start, height, tip + 1, pages, whole)
      decreases tip + 1 - height
    {
      RangeStep(blocks, start, height, tip + 1, pages, whole);
      ghost var more;
      ok, left, more := WalkBlock(led, v, blocks(height), left, w0, t0, pages);
      pages := pages + more;
      if !ok {
        return false, pages;
      }
      height := height + 1;
    }
    return true, pages;
  }

  /** pages are those of the heights from start up to height, all of them within whole. */
  ghost predicate Ahead(blocks: Blocks, start: nat, height: nat, end: nat, pages: seq<seq<Tx>>, whole: seq<seq<Tx>>) {
    && start <= height && whole == RangePages(blocks, start, end)
    && (if height < end then pages == RangePages(blocks, start, height) else pages == whole)
  }

  lemma RangeFrom(blocks: Blocks, start: nat, end: nat)
    ensures Ahead(blocks, start, start, end, [], RangePages(blocks, start, end))
  {}

  lemma RangeStep(blocks: Blocks, start: nat, height: nat, end: nat, pages: seq<seq<Tx>>, whole: seq<seq<Tx>>)
    requires height < end && Ahead(blocks, start, height, end, pages, whole)
    ensures forall more :: more <= Pages(blocks(height)) ==> pages + more <= whole
    ensures Ahead(blocks, start, height + 1, end, pages + Pages(blocks(height)), whole)
  {
    RangePrefix(blocks, start, height + 1, end);
  }

  /** One height: its block hash is asked for, then its pages. */
  method WalkBlock(led: Ledger, v: Viewer, block: seq<Tx>, calls: nat,
                   ghost w0: World, ghost t0: seq<Effect>, ghost walked: seq<seq<Tx>>)
      returns (ok: bool, left: nat, ghost pages: seq<seq<Tx>>)
    requires v.g.n > 0 && led.Since(w0, t0, PagesEffects(BookerOf(v), w0, walked))
    modifies led
    ensures led.Since(w0, t0, PagesEffects(BookerOf(v), w0, walked + pages))
    ensures pages <= Pages(block) && (ok ==> pages == Pages(block))
  {
    if calls == 0 {
      assert walked + [] == walked;
      return false, 0, [];
    }
    ok, left, pages := ScanBlock(led, v, block, calls - 1, w0, t0, walked);
  }

  lemma {:induction false} RangePrefix(blocks: Blocks, start: nat, mid: nat, end: nat)
    requires start <= mid <= end
    ensures RangePages(blocks, start, mid) <= RangePages(blocks, start, end)
    decreases end
  {
    if mid < end {
      RangePrefix(blocks, start, mid, end - 1);
    }
  }

  // --- tracking spends ---------------------------------------------------------------------------

  /** The outpoints of us that the chain reports spent. */
  function Reported(us: seq<SpUtxo>, spent: Outpoint -> bool): seq<Outpoint> {
    if us == [] then []
    else
      var before, p := Reported(us[..|us| - 1], spent), us[|us| - 1].Point();
      if spent(p) then before + [p] else before
  }

  /** The outputs of us that the chain does not report spent. */
  function StillUnspent(us: seq<SpUtxo>, spent: Outpoint -> bool): seq<SpUtxo> {
    if us == [] then []
    else
      var before, u := StillUnspent(us[..|us| - 1], spent), us[|us| - 1];
      if spent(u.Point()) then before else before + [u]
  }

  /** An output of the list stays exactly if it is not reported spent, in its place. */
  lemma {:induction false} StillUnspentSplits(a: seq<SpUtxo>, u: SpUtxo, b: seq<SpUtxo>, spent: Outpoint -> bool)
    ensures StillUnspent(a + [u] + b, spent)
            == StillUnspent(a, spent) + (if spent((u.txid, u.vout)) then [] else [u]) + StillUnspent(b, spent)
  {
    if b == [] {
      assert a + [u] + b == a + [u] && (a + [u])[..|a|] == a;
    } else {
      var front, last := b[..|b| - 1], b[|b| - 1];
      var all := a + [u] + b;
      assert all[..|all| - 1] == a + [u] + front && all[|all| - 1] == last;
      StillUnspentSplits(a, u, front, spent);
    }
  }

  lemma {:induction false} ReportedPrefix(us: seq<SpUtxo>, k: nat, spent: Outpoint -> bool)
    requires k <= |us|
    ensures Reported(us[..k], spent) <= Reported(us, spent)
  {
    if k < |us| {
      ReportedPrefix(us[..|us| - 1], k, spent);
      assert us[..|us| - 1][..k] == us[..k];
    } else {
      assert us[..k] == us;
    }
  }

  lemma {:induction false} ReportedAreSpent(us: seq<SpUtxo>, spent: Outpoint -> bool)
    ensures forall u :: u in us ==> (u.Point() in Reported(us, spent) <==> spent(u.Point()))
    ensures forall p :: p in Reported(us, spent) ==> spent(p)
  {
    if us != [] {
      ReportedAreSpent(us[..|us| - 1], spent);
      assert us == us[..|us| - 1] + [us[|us| - 1]];
    }
  }

  lemma {:induction false} UnspentIsStillUnspent(us: seq<SpUtxo>, ps: seq<Outpoint>, spent: Outpoint -> bool)
    requires forall u :: u in us ==> (u.Point() in ps <==> spent(u.Point()))
    ensures Unspent(us, ps) == StillUnspent(us, spent)
  {
    if us != [] {
      assert us[|us| - 1] in us;
      UnspentIsStillUnspent(us[..|us| - 1], ps, spent);
    }
  }

  /** Marks the listed outputs the chain reports spent. A complete round leaves exactly
      the previously listed outputs that the chain reports unspent. */
  method TrackSpends(led: Ledger, spent: Outpoint -> bool, answers: nat) returns (ok: bool, ghost marked: seq<Outpoint>)
    requires led.Valid()
    modifies led
    ensures led.Valid()
    ensures led.trace == old(led.trace) + SpendAll(old(led.world), marked)
    ensures led.world == Run(old(led.world), SpendAll(old(led.world), marked))
    ensures marked <= Reported(SpUtxos(old(led.entries)), spent)
    ensures ok <==> |SpUtxos(old(led.entries))| <= answers
    ensures ok ==> SpUtxos(led.entries) == StillUnspent(SpUtxos(old(led.entries)), spent)
  {
    var us := SpUtxos(led.entries);
    ghost var w0, t0 := led.world, led.trace;
    marked := [];
    for i := 0 to |us|
      invariant i <= answers && led.Since(w0, t0, SpendAll(w0, marked))
      invariant marked == Reported(us[..i], spent)
    {
      if i == answers {
        ReportedPrefix(us, i, spent);
        return false, marked;
      }
      assert us[..i + 1][..i] == us[..i];
      if spent(us[i].Point()) {
        MarkMore(w0, t0, marked, us[i].Point());
        var _ := led.RecordSpSpent(us[i].txid, us[i].vout);
        marked := marked + [us[i].Point()];
      }
    }
    assert us[..|us|] == us;
    TrackedLeavesUnspent(w0, us, spent);
    return true, marked;
  }

  lemma MarkMore(w: World, t0: seq<Effect>, ps: seq<Outpoint>, p: Outpoint)
    ensures var fs, w1 := SpendAll(w, ps), Run(w, SpendAll(w, ps));
            && t0 + fs + SpendEffects(w1.log, p) == t0 + SpendAll(w, ps + [p])
            && Run(w1, SpendEffects(w1.log, p)) == Run(w, SpendAll(w, ps + [p]))
  {
    assert (ps + [p])[..|ps|] == ps;
    RunMore(w, t0, SpendAll(w, ps), SpendEffects(Run(w, SpendAll(w, ps)).log, p));
  }

  lemma TrackedLeavesUnspent(w: World, us: seq<SpUtxo>, spent: Outpoint -> bool)
    requires us == SpUtxos(w.log)
    ensures SpUtxos(Run(w, SpendAll(w, Reported(us, spent))).log) == StillUnspent(us, spent)
  {
    var marked := Reported(us, spent);
    SpendAllSpends(w, marked);
    SpendsFilterUtxos(w.log, Run(w, SpendAll(w, marked)).log, marked);
    ReportedAreSpent(us, spent);
    UnspentIsStillUnspent(us, marked, spent);
  }
}
