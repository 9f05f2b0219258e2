// Coin selection for a silent-payment send: largest first, against a target that
// grows with the number of inputs.
module Coins {
  import opened Base

  const U64_MAX: nat := 0xFFFF_FFFF_FFFF_FFFF

  datatype Keychain = External | Internal

  datatype Utxo = Utxo(outpoint: (string, nat), value: nat, keychain: Keychain, index: nat)

  function SatAdd(a: nat, b: nat): nat {
    if a + b > U64_MAX then U64_MAX else a + b
  }

  function SatMul(a: nat, b: nat): nat {
    if a * b > U64_MAX then U64_MAX else a * b
  }

  /** About 58 vbytes per key-path input, recipient and change outputs, overhead. */
  function EstimatedVsize(inputs: nat): nat {
    11 + inputs * 58 + 43 + 43
  }

  /** What has to be paid and what already is: the amount, the fee rate, the value and
      the number of the inputs that are spent in any case. */
  datatype Need = Need(sats: nat, fr: nat, prefunded: nat, pinned: nat) {
    function Target(chosen: nat): nat {
      SatAdd(sats, SatMul(fr, EstimatedVsize(chosen + pinned)))
    }

    predicate Met(value: nat, chosen: nat) {
      prefunded + value >= Target(chosen)
    }
  }

  function Values(us: seq<Utxo>): seq<int> {
    seq(|us|, i requires 0 <= i < |us| => us[i].value)
  }

  function Total(us: seq<Utxo>): nat {
    SumIsNat(Values(us));
    Sum(Values(us))
  }

  /** The coins together with the prefunded value meet the target for their number. */
  predicate Covers(us: seq<Utxo>, need: Need) {
    need.Met(Total(us), |us|)
  }

  /** pick can be chosen from the wallet's coins. */
  ghost predicate From(pick: seq<Utxo>, wallet: seq<Utxo>) {
    multiset(pick) <= multiset(wallet)
  }

  /** No choice of n coins or fewer covers. */
  ghost predicate NoneUpTo(n: nat, wallet: seq<Utxo>, need: Need) {
    forall pick :: From(pick, wallet) && Covers(pick, need) ==> n < |pick|
  }

  // --- sorting ---------------------------------------------------------------------------

  predicate Descending(us: seq<Utxo>) {
    forall i, j :: 0 <= i < j < |us| ==> us[i].value >= us[j].value
  }

  /** How many coins at the front of us are worth at least v. */
  function Place(v: nat, us: seq<Utxo>): (p: nat)
    ensures p <= |us|
    ensures forall i :: 0 <= i < p ==> us[i].value >= v
    ensures p < |us| ==> us[p].value < v
  {
    if us == [] || us[0].value < v then 0 else Place(v, us[1..]) + 1
  }

  /** Stable insertion: after everything at least as large. */
  function Insert(u: Utxo, us: seq<Utxo>): seq<Utxo> {
    var p := Place(u.value, us);
    us[..p] + [u] + us[p..]
  }

  function Sorted(us: seq<Utxo>): seq<Utxo> {
    if us == [] then [] else Insert(us[|us| - 1], Sorted(us[..|us| - 1]))
  }

  lemma InsertKeepsCoins(u: Utxo, us: seq<Utxo>)
    ensures |Insert(u, us)| == |us| + 1 && multiset(Insert(u, us)) == multiset(us) + multiset{u}
  {
    var p := Place(u.value, us);
    assert us == us[..p] + us[p..];
  }

  lemma InsertKeepsOrder(u: Utxo, us: seq<Utxo>)
    requires Descending(us)
    ensures Descending(Insert(u, us))
  {
    var p, r := Place(u.value, us), Insert(u, us);
    assert forall i :: 0 <= i < p ==> r[i] == us[i];
    assert r[p] == u;
    assert forall i :: p < i < |r| ==> r[i] == us[i - 1];
  }

  /** Sorting keeps every coin and puts the values in descending order. */
  lemma {:induction false} SortedSorts(us: seq<Utxo>)
    ensures |Sorted(us)| == |us| && multiset(Sorted(us)) == multiset(us) && Descending(Sorted(us))
  {
    if us != [] {
      var front, last := us[..|us| - 1], us[|us| - 1];
      assert us == front + [last];
      SortedSorts(front);
      InsertKeepsCoins(last, Sorted(front));
      InsertKeepsOrder(last, Sorted(front));
    }
  }

  // --- the exchange argument --------------------------------------------------------------

  lemma TotalSnoc(us: seq<Utxo>, u: Utxo)
    ensures Total(us + [u]) == Total(us) + u.value
  {
    assert Values(us + [u]) == Values(us) + [u.value];
    SumSnoc(Values(us), u.value);
  }

  lemma TotalRemove(us: seq<Utxo>, i: nat)
    requires i < |us|
    ensures Total(us) == us[i].value + Total(us[..i] + us[i + 1..])
  {
    assert Values(us[..i] + us[i + 1..]) == Values(us)[..i] + Values(us)[i + 1..];
    SumRemove(Values(us), i);
  }

  /** Trading one picked coin for the most valuable one: drop the top coin if it was
      picked, otherwise drop any, and go on without the top coin. */
  lemma DropOne(sorted: seq<Utxo>, pick: seq<Utxo>) returns (rest: seq<Utxo>)
    requires Descending(sorted) && From(pick, sorted) && pick != []
    ensures sorted != [] && From(rest, sorted[1..]) && |rest| == |pick| - 1
    ensures Total(pick) <= sorted[0].value + Total(rest)
  {
    assert pick[0] in multiset(sorted);
    var top := sorted[0];
    assert sorted == [top] + sorted[1..];
    var i: nat := 0;
    if top in pick {
      i :| 0 <= i < |pick| && pick[i] == top;
    }
    rest := pick[..i] + pick[i + 1..];
    MultisetRemove(pick, i);
    TotalRemove(pick, i);
    assert pick[i] in multiset(sorted);
  }

  /** Any choice of coins from a descending list is worth at most the equally long prefix. */
  lemma {:induction false} PrefixIsWorthMost(sorted: seq<Utxo>, pick: seq<Utxo>)
    requires Descending(sorted) && From(pick, sorted)
    ensures |pick| <= |sorted| && Total(pick) <= Total(sorted[..|pick|])
    decreases |sorted|
  {
    if pick != [] {
      var rest := DropOne(sorted, pick);
      PrefixIsWorthMost(sorted[1..], rest);
      var prefix := sorted[..|pick|];
      assert prefix[..0] + prefix[1..] == sorted[1..][..|rest|];
      TotalRemove(prefix, 0);
    }
  }

  /** If no prefix of up to n coins covers, no choice of up to n coins covers. */
  lemma NothingShorterCovers(wallet: seq<Utxo>, n: nat, need: Need)
    requires n <= |Sorted(wallet)| && forall k :: 0 <= k <= n ==> !Covers(Sorted(wallet)[..k], need)
    ensures NoneUpTo(n, wallet, need)
  {
    var sorted := Sorted(wallet);
    SortedSorts(wallet);
    forall pick | From(pick, wallet) && Covers(pick, need)
      ensures n < |pick|
    {
      PrefixIsWorthMost(sorted, pick);
      assert Covers(sorted[..|pick|], need);
    }
  }

  lemma SortedPrefixIsFrom(wallet: seq<Utxo>, k: nat)
    requires k <= |Sorted(wallet)|
    ensures From(Sorted(wallet)[..k], wallet)
  {
    SortedSorts(wallet);
    assert Sorted(wallet) == Sorted(wallet)[..k] + Sorted(wallet)[k..];
  }

  lemma ChoicesAreNoLonger(wallet: seq<Utxo>, need: Need)
    requires NoneUpTo(|wallet|, wallet, need)
    ensures forall pick :: From(pick, wallet) ==> !Covers(pick, need)
  {
    SortedSorts(wallet);
    forall pick | From(pick, wallet) ensures |pick| <= |wallet| {
      PrefixIsWorthMost(Sorted(wallet), pick);
    }
  }

  // --- the selection ------------------------------------------------------------------------

  /** Selects largest first. The selection covers its own target, no smaller choice from
      the wallet does, and None means that no choice of any size does. */
  method SelectLargestFirst(utxos: seq<Utxo>, need: Need) returns (r: Option<seq<Utxo>>)
    ensures r.Some? ==> From(r.value, utxos) && Covers(r.value, need)
    ensures r.Some? ==> forall pick :: From(pick, utxos) && Covers(pick, need) ==> |r.value| <= |pick|
    ensures r.None? <==> forall pick :: From(pick, utxos) ==> !Covers(pick, need)
    ensures r.Some? ==> r.value <= Sorted(utxos)
  {
    if need.prefunded >= need.Target(0) {
      SortedPrefixIsFrom(utxos, 0);
      assert Sorted(utxos)[..0] == [];
      r := Some([]);
      assert Covers(r.value, need) && From(r.value, utxos);
      return;
    }
    r := Accumulate(Sorted(utxos), need);
    if r.Some? {
      NothingShorterCovers(utxos, |r.value| - 1, need);
      assert r.value == Sorted(utxos)[..|r.value|];
      SortedPrefixIsFrom(utxos, |r.value|);
    } else {
      SortedSorts(utxos);
      NothingShorterCovers(utxos, |utxos|, need);
      ChoicesAreNoLonger(utxos, need);
    }
  }

  /** The shortest covering prefix, or None. */
  method Accumulate(sorted: seq<Utxo>, need: Need) returns (r: Option<seq<Utxo>>)
    requires !Covers([], need)
    ensures match r
            case Some(prefix) =>
              && 0 < |prefix| && prefix <= sorted && Covers(prefix, need)
              && forall k :: 0 <= k < |prefix| ==> !Covers(sorted[..k], need)
            case None => forall k :: 0 <= k <= |sorted| ==> !Covers(sorted[..k], need)
  {
    var selected: seq<Utxo> := [];
    var running := need.prefunded;
    for i := 0 to |sorted|
      invariant selected == sorted[..i] && running == need.prefunded + Total(selected)
      invariant forall k :: 0 <= k <= i ==> !Covers(sorted[..k], need)
    {
      assert sorted[..i + 1] == selected + [sorted[i]];
      TotalSnoc(selected, sorted[i]);
      selected := selected + [sorted[i]];
      running := running + sorted[i].value;
      if running >= need.Target(|selected|) {
        return Some(selected);
      }
    }
    return None;
  }

  // --- solvency of the fee estimate -----------------------------------------------------------

  /** Bytes of the variable-length input count. */
  function CountBytes(n: nat): nat {
    if n < 253 then 1 else if n < 0x1_0000 then 3 else if n < 0x1_0000_0000 then 5 else 9
  }

  /** BIP-141 virtual size of n Taproot key-path inputs and `outs` P2TR outputs: version,
      counts, inputs, outputs and lock time weigh four units a byte; the marker, flag
      and one 66-byte witness per input weigh one. */
  function Vsize(n: nat, outs: nat): nat {
    (4 * (4 + CountBytes(n) + 41 * n + 1 + 43 * outs + 4) + 2 + 66 * n + 3) / 4
  }

  /** A covering selection pays for the recipient and for every real vbyte, whether or
      not there is a change output, as long as all the money fits in 64 bits. */
  lemma CoveringSelectionIsSolvent(us: seq<Utxo>, need: Need, outs: nat)
    requires Covers(us, need) && need.prefunded + Total(us) < U64_MAX
    requires outs <= 2 && |us| + need.pinned < 0x1_0000_0000
    ensures Vsize(|us| + need.pinned, outs) <= EstimatedVsize(|us| + need.pinned)
    ensures need.sats + need.fr * Vsize(|us| + need.pinned, outs) <= need.prefunded + Total(us)
  {
    var n := |us| + need.pinned;
    assert Vsize(n, outs) <= EstimatedVsize(n);
    ScaleMonotone(need.fr, Vsize(n, outs), EstimatedVsize(n));
  }

  /** Nor is the estimate generous: with two outputs and fewer than 253 inputs it is off by
      half a vbyte for each input, rounded up. */
  lemma EstimateIsTight(n: nat)
    requires n < 253
    ensures EstimatedVsize(n) == Vsize(n, 2) + (n + 1) / 2
  {}

  /** So with fewer than 253 inputs a selection covers exactly if it pays for the recipient,
      every vbyte of a transaction with two outputs, and half a vbyte more for each input. */
  lemma CoversExactly(us: seq<Utxo>, need: Need)
    requires need.prefunded + Total(us) < U64_MAX && |us| + need.pinned < 253
    ensures var n := |us| + need.pinned;
            Covers(us, need) <==> need.sats + need.fr * (Vsize(n, 2) + (n + 1) / 2) <= need.prefunded + Total(us)
  {
    EstimateIsTight(|us| + need.pinned);
  }

  lemma ScaleMonotone(k: nat, a: nat, b: nat)
    requires a <= b
    ensures k * a <= k * b
  {
    assert k * b == k * a + k * (b - a);
  }
}
