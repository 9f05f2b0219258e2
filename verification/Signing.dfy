// Spending what was received: from a booked output to the key that signs for it.
module Signing {
  import opened Base
  import opened Log
  import opened Protocol
  import opened Curve
  import opened SilentPayments
  import opened Hex
  import opened Scan

  /** A silent-payment output prepared as an input: where it is, its tweak, and the
      even-Y key it contributes to the sender's sum. */
  datatype Prepared = Prepared(point: Outpoint, tweak: seq<Byte>, key: int)

  /** u is spendable: its tweak reads back and, with the spend key, gives a key. */
  predicate Spendable(g: Group, spendSk: int, u: SpUtxo)
    requires g.n > 0
  {
    |u.tweak| == 64 && ParsePairs(u.tweak).Some? && SpendKey(g, spendSk, ParsePairs(u.tweak).value).Some?
  }

  function KeyOf(g: Group, spendSk: int, u: SpUtxo): int
    requires g.n > 0 && Spendable(g, spendSk, u)
  {
    SpendKey(g, spendSk, ParsePairs(u.tweak).value).value
  }

  /** Everything the scanner books for a transaction is spendable: the tweak survives its
      way through the ledger, and spend key plus tweak has the x-only key of the very
      output that was booked, with the booked value. */
  lemma BookedIsSpendable(v: Viewer, tx: Tx, u: SpUtxo)
    requires v.g.Valid() && u in BookForm(tx.txid, TxMatches(v, tx))
    ensures Spendable(v.g, v.spendSk, u)
    ensures u.txid == tx.txid && u.vout < |tx.vout| && u.sats >= DUST_FLOOR
    ensures tx.vout[u.vout] == Vout(P2tr(v.g.XOnly(KeyOf(v.g, v.spendSk, u))), u.sats)
  {
    BookFormIsFound(tx.txid, TxMatches(v, tx), u);
    var f :| f in TxMatches(v, tx) && f.sats >= DUST_FLOOR && u == SpUtxo(tx.txid, f.vout, f.sats, HexLower(f.tweak));
    var outs := TxOutputs(v.g, tx.vout);
    FoundIsSpendable(v.g, Pubkeys(v.g, tx.vin), Smallest(Prevs(tx.vin)), outs, v.scanSk, v.spendSk, f);
    HexRoundTrip(f.tweak);
    OutputsInOrder(v.g, tx.vout);
  }

  /** p is u made ready to be spent and to contribute to a sender's key sum. */
  ghost predicate Readies(g: Group, spendSk: int, p: Prepared, u: SpUtxo)
    requires g.n > 0
  {
    && Spendable(g, spendSk, u)
    && p.point == u.Point()
    && SpendKey(g, spendSk, p.tweak) == Some(KeyOf(g, spendSk, u))
    && g.IsXOnly(p.key) && p.key == g.XOnly(KeyOf(g, spendSk, u))
  }

  ghost predicate AllReady(g: Group, spendSk: int, ps: seq<Prepared>, us: seq<SpUtxo>)
    requires g.n > 0
  {
    |ps| == |us| && forall i :: 0 <= i < |us| ==> Readies(g, spendSk, ps[i], us[i])
  }

  /** Prepares the outputs in order; one bad tweak or key fails the whole build. */
  method AssembleInputs(g: Group, spendSk: int, us: seq<SpUtxo>) returns (r: Option<seq<Prepared>>, total: nat)
    requires g.Valid()
    ensures r.Some? <==> forall i :: 0 <= i < |us| ==> Spendable(g, spendSk, us[i])
    ensures r.Some? ==> AllReady(g, spendSk, r.value, us) && total == Sats(us)
  {
    var ready: seq<Prepared> := [];
    total := 0;
    for i := 0 to |us|
      invariant AllReady(g, spendSk, ready, us[..i]) && total == Sats(us[..i])
    {
      var p := Prepare(g, spendSk, us[i]);
      if p.Err? {
        return None, total;
      }
      ReadyStep(g, spendSk, ready, p.value, us, i);
      ready := ready + [p.value];
      total := total + us[i].sats;
    }
    assert us[..|us|] == us;
    return Some(ready), total;
  }

  lemma ReadyStep(g: Group, spendSk: int, ps: seq<Prepared>, p: Prepared, us: seq<SpUtxo>, i: nat)
    requires g.n > 0 && i < |us| && AllReady(g, spendSk, ps, us[..i]) && Readies(g, spendSk, p, us[i])
    ensures AllReady(g, spendSk, ps + [p], us[..i + 1])
    ensures Sats(us[..i + 1]) == Sats(us[..i]) + us[i].sats
  {
    assert us[..i + 1][..i] == us[..i];
  }

  method Prepare(g: Group, spendSk: int, u: SpUtxo) returns (r: Result<Prepared>)
    requires g.Valid()
    ensures r.Ok? <==> Spendable(g, spendSk, u)
    ensures r.Ok? ==> Readies(g, spendSk, r.value, u)
  {
    var tweak := DecodeHex32(u.tweak);
    if tweak.Err? {
      return Err;
    }
    var sk := SpendKey(g, spendSk, tweak.value);
    if sk.None? {
      return Err;
    }
    TaprootInputKeyIsLift(g, sk.value);
    return Ok(Prepared(u.Point(), tweak.value, g.TaprootInputKey(sk.value)));
  }

  /** A key-path signature: made with a key for one input, or the wallet's own. */
  datatype Signature = ByKey(key: int, input: nat) | ByWallet(sig: string)

  /** The tweak of the first prepared output at p. */
  function FindTweak(sp: seq<Prepared>, p: Outpoint): (r: Option<seq<Byte>>)
    ensures r.None? <==> forall j :: 0 <= j < |sp| ==> sp[j].point != p
    ensures r.Some? ==> exists j :: 0 <= j < |sp| && sp[j].point == p && sp[j].tweak == r.value
                                    && forall k :: 0 <= k < j ==> sp[k].point != p
  {
    if sp == [] then None else if sp[0].point == p then Some(sp[0].tweak) else FindTweak(sp[1..], p)
  }

  /** With distinct outpoints, the tweak found for an outpoint is its own. */
  lemma {:induction false} FindsOwnTweak(sp: seq<Prepared>, i: nat)
    requires i < |sp| && forall a, b :: 0 <= a < b < |sp| ==> sp[a].point != sp[b].point
    ensures FindTweak(sp, sp[i].point) == Some(sp[i].tweak)
  {
    if i > 0 {
      FindsOwnTweak(sp[1..], i - 1);
    }
  }

  class Psbt {
    const inputs: seq<Outpoint>
    const prevoutKnown: seq<bool>
    const walletSigs: seq<Option<string>>
    const finalWitness: array<seq<Signature>>

    constructor (inputs: seq<Outpoint>, prevoutKnown: seq<bool>, walletSigs: seq<Option<string>>)
      requires |inputs| == |prevoutKnown| == |walletSigs|
      ensures Valid() && fresh(finalWitness)
      ensures this.inputs == inputs && this.prevoutKnown == prevoutKnown && this.walletSigs == walletSigs
    {
      this.inputs, this.prevoutKnown, this.walletSigs := inputs, prevoutKnown, walletSigs;
      finalWitness := new seq<Signature>[|inputs|](_ => []);
    }

    ghost predicate Valid() {
      |inputs| == |prevoutKnown| == |walletSigs| == finalWitness.Length
    }

    /** The one signature input i is to carry, if there is one. */
    function SignatureFor(g: Group, sp: seq<Prepared>, spendSk: int, i: nat): Option<Signature>
      requires g.n > 0 && i < |inputs| == |walletSigs|
    {
      match FindTweak(sp, inputs[i])
      case Some(tweak) =>
        (match SpendKey(g, spendSk, tweak)
         case Some(key) => Some(ByKey(key, i))
         case None => None)
      case None =>
        (match walletSigs[i]
         case Some(sig) => Some(ByWallet(sig))
         case None => None)
    }

    /** Input i carries one signature: that of the wallet if it spends no prepared output, and
        otherwise one under the spend key plus the tweak of the first such output. */
    ghost predicate SignedRight(sp: seq<Prepared>, spendSk: int, g: Group, i: nat)
      requires g.n > 0 && i < |inputs| == |walletSigs| == finalWitness.Length
      reads finalWitness
    {
      && ((forall j :: 0 <= j < |sp| ==> sp[j].point != inputs[i]) ==>
            walletSigs[i].Some? && finalWitness[i] == [ByWallet(walletSigs[i].value)])
      && (forall j :: 0 <= j < |sp| && sp[j].point == inputs[i]
                      && (forall k :: 0 <= k < j ==> sp[k].point != inputs[i]) ==>
            Num(sp[j].tweak) < g.n && finalWitness[i] == [ByKey((spendSk + Num(sp[j].tweak)) % g.n, i)])
    }

    lemma OneSignatureIsRight(g: Group, sp: seq<Prepared>, spendSk: int, i: nat)
      requires g.n > 0 && i < |inputs| == |walletSigs| == finalWitness.Length
      requires SignatureFor(g, sp, spendSk, i).Some?
      requires finalWitness[i] == [SignatureFor(g, sp, spendSk, i).value]
      ensures SignedRight(sp, spendSk, g, i)
    {
      forall j | 0 <= j < |sp| && sp[j].point == inputs[i] && (forall k :: 0 <= k < j ==> sp[k].point != inputs[i])
        ensures FindTweak(sp, inputs[i]) == Some(sp[j].tweak) {}
    }

    /** Finalizes every input with exactly one signature: silent-payment inputs under the
        spend key plus their own tweak, all others with the wallet's. */
    method FinalizeMixed(g: Group, sp: seq<Prepared>, spendSk: int) returns (ok: bool)
      requires Valid() && g.n > 0
      modifies finalWitness
      ensures ok <==> (forall i :: 0 <= i < |inputs| ==> prevoutKnown[i]) &&
                      forall i :: 0 <= i < |inputs| ==> SignatureFor(g, sp, spendSk, i).Some?
      ensures ok ==> forall i :: 0 <= i < |inputs| ==>
        SignatureFor(g, sp, spendSk, i).Some? && finalWitness[i] == [SignatureFor(g, sp, spendSk, i).value]
      ensures ok ==> forall i :: 0 <= i < |inputs| ==> SignedRight(sp, spendSk, g, i)
    {
      if exists i :: 0 <= i < |inputs| && !prevoutKnown[i] {
        return false;
      }
      for i := 0 to |inputs|
        invariant forall j :: 0 <= j < i ==>
          SignatureFor(g, sp, spendSk, j).Some? && finalWitness[j] == [SignatureFor(g, sp, spendSk, j).value]
      {
        var tweak := FindTweak(sp, inputs[i]);
        if tweak.Some? {
          var key := SpendKey(g, spendSk, tweak.value);
          if key.None? {
            assert SignatureFor(g, sp, spendSk, i) == None;
            return false;
          }
          finalWitness[i] := [ByKey(key.value, i)];
        } else {
          if walletSigs[i].None? {
            assert SignatureFor(g, sp, spendSk, i) == None;
            return false;
          }
          finalWitness[i] := [ByWallet(walletSigs[i].value)];
        }
      }
      forall i | 0 <= i < |inputs| ensures SignedRight(sp, spendSk, g, i) {
        OneSignatureIsRight(g, sp, spendSk, i);
      }
      return true;
    }
  }

  /** End to end: an input that spends a booked output is signed by the key whose x-only
      form is in the output it spends. */
  lemma SpInputSignedByOwnKey(v: Viewer, tx: Tx, us: seq<SpUtxo>, k: nat, sp: seq<Prepared>, p: Psbt, i: nat)
    requires v.g.Valid() && k < |us| == |sp| && us[k] in BookForm(tx.txid, TxMatches(v, tx))
    requires forall j :: 0 <= j < |us| ==> Readies(v.g, v.spendSk, sp[j], us[j])
    requires forall a, b :: 0 <= a < b < |us| ==> us[a].Point() != us[b].Point()
    requires p.Valid() && i < |p.inputs| && p.inputs[i] == us[k].Point()
    ensures var s := p.SignatureFor(v.g, sp, v.spendSk, i);
            && s.Some? && s.value.ByKey? && s.value.input == i
            && us[k].vout < |tx.vout|
            && tx.vout[us[k].vout] == Vout(P2tr(v.g.XOnly(s.value.key)), us[k].sats)
  {
    BookedIsSpendable(v, tx, us[k]);
    assert Readies(v.g, v.spendSk, sp[k], us[k]);
    forall a, b | 0 <= a < b < |sp| ensures sp[a].point != sp[b].point {
      assert Readies(v.g, v.spendSk, sp[a], us[a]) && Readies(v.g, v.spendSk, sp[b], us[b]);
    }
    FindsOwnTweak(sp, k);
  }
}
