// BIP-352: deriving a one-time output from the inputs, finding it again, and
// recovering its key.
module SilentPayments {
  import opened Base
  import opened Protocol
  import opened Curve

  datatype RawOutpoint = RawOutpoint(txid: seq<Byte>, vout: nat)

  datatype SpInput = SpInput(outpoint: RawOutpoint, key: int)

  datatype TxOutput = TxOutput(vout: nat, xonly: int, sats: nat)

  datatype SpFound = SpFound(vout: nat, sats: nat, tweak: seq<Byte>)

  // --- the smallest outpoint ----------------------------------------------------------

  function Le32(n: nat): seq<Byte> {
    [n % 256, n / 256 % 256, n / 0x1_0000 % 256, n / 0x100_0000 % 256]
  }

  /** Consensus serialisation: the transaction id, then the index in little-endian order. */
  function SerOutpoint(o: RawOutpoint): seq<Byte> {
    o.txid + Le32(o.vout)
  }

  predicate LexLess(a: seq<Byte>, b: seq<Byte>) {
    b != [] && (a == [] || a[0] < b[0] || (a[0] == b[0] && LexLess(a[1..], b[1..])))
  }

  lemma {:induction false} LexTotal(a: seq<Byte>, b: seq<Byte>)
    ensures LexLess(a, b) || LexLess(b, a) || a == b
  {
    if a != [] && b != [] {
      LexTotal(a[1..], b[1..]);
      assert a == [a[0]] + a[1..] && b == [b[0]] + b[1..];
    }
  }

  lemma {:induction false} LexAsymmetric(a: seq<Byte>, b: seq<Byte>)
    requires LexLess(a, b)
    ensures !LexLess(b, a)
  {
    if a != [] && a[0] == b[0] {
      LexAsymmetric(a[1..], b[1..]);
    }
  }

  lemma {:induction false} LexTransitive(a: seq<Byte>, b: seq<Byte>, c: seq<Byte>)
    requires LexLess(a, b) && LexLess(b, c)
    ensures LexLess(a, c)
  {
    if a != [] && a[0] == b[0] == c[0] {
      LexTransitive(a[1..], b[1..], c[1..]);
    }
  }

  lemma SamePrefixSameHead(a: seq<Byte>, b: seq<Byte>, i: nat)
    requires 0 < i <= |a| && i <= |b| && a[..i] == b[..i]
    ensures a[0] == b[0]
  {
    assert a[..i][0] == a[0] && b[..i][0] == b[0];
  }

  /** Less means smaller at the first difference, or a proper prefix. */
  lemma {:induction false} LexLessAtFirstDifference(a: seq<Byte>, b: seq<Byte>)
    ensures LexLess(a, b) <==> exists i :: 0 <= i <= |a| && i < |b| && a[..i] == b[..i] && (i == |a| || a[i] < b[i])
    decreases |a|, 1
  {
    if a == [] || b == [] {
      assert b != [] ==> a[..0] == b[..0];
    } else {
      assert a[..0] == b[..0];
      forall i | 0 < i <= |a| && i < |b| && a[..i] == b[..i] ensures a[0] == b[0] { SamePrefixSameHead(a, b, i); }
      if a[0] == b[0] {
        LexLessOfTails(a, b);
      }
    }
  }

  lemma {:induction false} LexLessOfTails(a: seq<Byte>, b: seq<Byte>)
    requires a != [] && b != [] && a[0] == b[0]
    ensures LexLess(a, b) <==> exists i :: 0 <= i <= |a| && i < |b| && a[..i] == b[..i] && (i == |a| || a[i] < b[i])
    decreases |a|, 0
  {
    var s, t := a[1..], b[1..];
    LexLessAtFirstDifference(s, t);
    if LexLess(a, b) {
      var i :| 0 <= i <= |s| && i < |t| && s[..i] == t[..i] && (i == |s| || s[i] < t[i]);
      assert a[..i + 1] == [a[0]] + s[..i] && b[..i + 1] == [b[0]] + t[..i];
    }
    if i :| 0 <= i <= |a| && i < |b| && a[..i] == b[..i] && (i == |a| || a[i] < b[i]) {
      assert i > 0 && s[..i - 1] == a[..i][1..] && t[..i - 1] == b[..i][1..];
    }
  }

  /** The 36 bytes: the transaction id as it is, the index with its lowest byte first. */
  lemma SerLayout(o: RawOutpoint)
    requires |o.txid| == 32 && o.vout < 0x1_0000_0000
    ensures var s := SerOutpoint(o);
            && |s| == 36 && s[..32] == o.txid
            && s[32] as int + s[33] as int * 256 + s[34] as int * 0x1_0000 + s[35] as int * 0x100_0000 == o.vout
  {
    var n := o.vout;
    assert n / 256 == n / 0x1_0000 * 256 + n / 256 % 256;
    assert n / 0x1_0000 == n / 0x100_0000 * 256 + n / 0x1_0000 % 256;
  }

  /** The first of the outpoints whose serialisation is least. */
  function Smallest(os: seq<RawOutpoint>): RawOutpoint
    requires os != []
  {
    if |os| == 1 then os[0]
    else
      var before := Smallest(os[..|os| - 1]);
      var last := os[|os| - 1];
      if LexLess(SerOutpoint(last), SerOutpoint(before)) then last else before
  }

  lemma {:induction false} SmallestIsLeast(os: seq<RawOutpoint>)
    requires os != []
    ensures Smallest(os) in os
    ensures forall o :: o in os ==> !LexLess(SerOutpoint(o), SerOutpoint(Smallest(os)))
  {
    var last := os[|os| - 1];
    var front := os[..|os| - 1];
    assert os == front + [last];
    if |os| > 1 {
      SmallestIsLeast(front);
      var before := Smallest(front);
      forall o | o in os
        ensures !LexLess(SerOutpoint(o), SerOutpoint(Smallest(os)))
      {
        if LexLess(SerOutpoint(last), SerOutpoint(before)) && o in front && LexLess(SerOutpoint(o), SerOutpoint(last)) {
          LexTransitive(SerOutpoint(o), SerOutpoint(last), SerOutpoint(before));
        }
        if LexLess(SerOutpoint(o), SerOutpoint(o)) {
          LexAsymmetric(SerOutpoint(o), SerOutpoint(o));
        }
      }
    } else if LexLess(SerOutpoint(last), SerOutpoint(last)) {
      LexAsymmetric(SerOutpoint(last), SerOutpoint(last));
    }
  }

  /** The smallest outpoint serialises the same in whatever order the outpoints come. */
  lemma SmallestIgnoresOrder(os: seq<RawOutpoint>, os': seq<RawOutpoint>)
    requires os != [] && multiset(os) == multiset(os')
    ensures os' != [] && SerOutpoint(Smallest(os)) == SerOutpoint(Smallest(os'))
  {
    assert os[0] in multiset(os');
    SmallestIsLeast(os);
    SmallestIsLeast(os');
    assert Smallest(os) in multiset(os') && Smallest(os') in multiset(os);
    LexTotal(SerOutpoint(Smallest(os)), SerOutpoint(Smallest(os')));
  }

  // --- the key sum ------------------------------------------------------------------------

  /** Adding up keys one by one; a zero intermediate sum is an error. */
  function SumKeys(g: Group, keys: seq<int>): Option<int>
    requires g.n > 0
  {
    if keys == [] then None
    else if |keys| == 1 then Some(keys[0])
    else
      match SumKeys(g, keys[..|keys| - 1])
      case Some(acc) => g.Add(acc, keys[|keys| - 1])
      case None => None
  }

  lemma AddReduces(g: Group, x: int, y: int)
    requires g.n > 0
    ensures var r := g.Add(x % g.n, y); r.Some? ==> r.value == (x + y) % g.n && g.IsKey(r.value)
  {
    ModAddLeft(x, y, g.n);
  }

  lemma SumKeysStep(g: Group, front: seq<int>, last: int)
    requires g.n > 0 && front != []
    requires SumKeys(g, front).Some? ==> SumKeys(g, front).value == Sum(front) % g.n
    ensures var r := SumKeys(g, front + [last]);
            r.Some? ==> r.value == Sum(front + [last]) % g.n && g.IsKey(r.value)
  {
    SumSnoc(front, last);
    AddReduces(g, Sum(front), last);
    assert (front + [last])[..|front|] == front;
  }

  lemma {:induction false} SumKeysIsSum(g: Group, keys: seq<int>)
    requires g.n > 0 && forall k :: k in keys ==> g.IsKey(k)
    ensures SumKeys(g, keys).Some? ==> SumKeys(g, keys).value == Sum(keys) % g.n && g.IsKey(SumKeys(g, keys).value)
  {
    if |keys| == 1 {
      assert keys == [keys[0]] && keys[0] in keys;
      SmallMod(keys[0], g.n);
    } else if |keys| > 1 {
      var front, last := keys[..|keys| - 1], keys[|keys| - 1];
      assert keys == front + [last];
      SumKeysIsSum(g, front);
      SumKeysStep(g, front, last);
    }
  }

  lemma SmallMod(x: int, n: int)
    requires 0 <= x < n
    ensures x % n == x
  {}

  /** No partial sum of two or more of the keys, taken in order, is the point at infinity. */
  ghost predicate NoZeroPartialSum(g: Group, keys: seq<int>)
    requires g.n > 0
  {
    forall i :: 2 <= i <= |keys| ==> Sum(keys[..i]) % g.n != 0
  }

  /** When the key sum exists: there is a key, and no partial sum is zero. */
  lemma {:induction false} SumKeysSucceeds(g: Group, keys: seq<int>)
    requires g.n > 0 && forall k :: k in keys ==> g.IsKey(k)
    ensures SumKeys(g, keys).Some? <==> keys != [] && NoZeroPartialSum(g, keys)
  {
    if |keys| > 1 {
      var front, last := keys[..|keys| - 1], keys[|keys| - 1];
      assert keys == front + [last] && keys[..|keys|] == keys;
      assert forall i :: 0 <= i < |keys| ==> front[..i] == keys[..i];
      SumKeysSucceeds(g, front);
      if SumKeys(g, front).Some? {
        SumKeysIsSum(g, front);
        SumSnoc(front, last);
        ModAddLeft(Sum(front), last, g.n);
      }
    }
  }

  lemma SumKeysIgnoresOrder(g: Group, keys: seq<int>, keys': seq<int>)
    requires g.n > 0 && multiset(keys) == multiset(keys') && forall k :: k in keys ==> g.IsKey(k)
    requires SumKeys(g, keys).Some? && SumKeys(g, keys').Some?
    ensures SumKeys(g, keys) == SumKeys(g, keys')
  {
    forall k | k in keys' ensures g.IsKey(k) { assert k in multiset(keys); }
    SumKeysIsSum(g, keys);
    SumKeysIsSum(g, keys');
    SumPermutation(keys, keys');
  }

  // --- output keys ----------------------------------------------------------------------------

  /** The k-th output key and its tweak. */
  function OutputAt(g: Group, ecdh: int, spend: int, k: nat): Option<(int, seq<Byte>)>
    requires g.n > 0
  {
    var t := g.sharedHash(ecdh, k);
    if Num(t) == 0 || Num(t) >= g.n then None
    else match g.Add(spend, Num(t))
         case Some(p) => Some((g.XOnly(p), t))
         case None => None
  }

  /** The key that spends a found output. */
  function SpendKey(g: Group, spendSk: int, tweak: seq<Byte>): Option<int>
    requires g.n > 0
  {
    match g.Scalar(tweak)
    case Some(t) => g.Add(spendSk, t)
    case None => None
  }

  function Keys(inputs: seq<SpInput>): seq<int> {
    seq(|inputs|, i requires 0 <= i < |inputs| => inputs[i].key)
  }

  function OutpointsOf(inputs: seq<SpInput>): seq<RawOutpoint> {
    seq(|inputs|, i requires 0 <= i < |inputs| => inputs[i].outpoint)
  }

  /** hash · mine · theirs, with every step's failure. */
  function Ecdh(g: Group, hash: seq<Byte>, mine: int, theirs: int): Option<int>
    requires g.n > 0
  {
    match g.Scalar(hash)
    case None => None
    case Some(h) =>
      match g.Mul(mine, h)
      case None => None
      case Some(partial) => g.Mul(theirs, partial)
  }

  function SenderEcdh(g: Group, inputs: seq<SpInput>, scan: int): Option<int>
    requires g.n > 0
  {
    match SumKeys(g, Keys(inputs))
    case None => None
    case Some(a) => Ecdh(g, g.inputHash(SerOutpoint(Smallest(OutpointsOf(inputs))), a), a, scan)
  }

  /** The sender's loop: the key sum and the input hash over the smallest outpoint. */
  method SenderContext(g: Group, inputs: seq<SpInput>) returns (r: Option<(int, seq<Byte>)>)
    requires g.n > 0
    ensures match SumKeys(g, Keys(inputs))
            case None => r == None
            case Some(a) => r == Some((a, g.inputHash(SerOutpoint(Smallest(OutpointsOf(inputs))), a)))
  {
    if inputs == [] {
      return None;
    }
    var sum := inputs[0].key;
    for i := 1 to |inputs|
      invariant SumKeys(g, Keys(inputs)[..i]) == Some(sum)
    {
      var next := g.Add(sum, inputs[i].key);
      assert Keys(inputs)[..i + 1][..i] == Keys(inputs)[..i];
      if next.None? {
        SumKeysStuck(g, Keys(inputs), i + 1);
        return None;
      }
      sum := next.value;
    }
    assert Keys(inputs)[..|inputs|] == Keys(inputs);
    return Some((sum, g.inputHash(SerOutpoint(Smallest(OutpointsOf(inputs))), sum)));
  }

  lemma {:induction false} SumKeysStuck(g: Group, keys: seq<int>, i: nat)
    requires g.n > 0 && 0 < i <= |keys| && SumKeys(g, keys[..i]) == None
    ensures SumKeys(g, keys) == None
  {
    if i < |keys| {
      assert keys[..|keys| - 1][..i] == keys[..i];
      SumKeysStuck(g, keys[..|keys| - 1], i);
    } else {
      assert keys[..i] == keys;
    }
  }

  /** The x-only key of the one-time output for the given inputs. */
  function SendAddress(g: Group, inputs: seq<SpInput>, scan: int, spend: int): Option<int>
    requires g.n > 0
  {
    match SenderEcdh(g, inputs, scan)
    case None => None
    case Some(ecdh) =>
      match OutputAt(g, ecdh, spend, 0)
      case None => None
      case Some(out) => Some(out.0)
  }

  // --- scanning one transaction's outputs ---------------------------------------------------------

  function ReceiverEcdh(g: Group, pubkeys: seq<int>, smallest: RawOutpoint, scanSk: int): Option<int>
    requires g.n > 0
  {
    match SumKeys(g, pubkeys)
    case None => None
    case Some(a) => Ecdh(g, g.inputHash(SerOutpoint(smallest), a), scanSk, a)
  }

  /** The index of the first output paying x, if there is one. */
  function Position(outs: seq<TxOutput>, x: int): (r: Option<nat>)
    ensures r.Some? ==> r.value < |outs| && outs[r.value].xonly == x
    ensures r.Some? ==> forall i :: 0 <= i < r.value ==> outs[i].xonly != x
    ensures r.None? ==> forall i :: 0 <= i < |outs| ==> outs[i].xonly != x
  {
    if outs == [] then None
    else if outs[0].xonly == x then Some(0)
    else match Position(outs[1..], x)
         case Some(i) => Some(i + 1)
         case None => None
  }

  function Without(outs: seq<TxOutput>, i: nat): seq<TxOutput>
    requires i < |outs|
  {
    outs[..i] + outs[i + 1..]
  }

  type Derivation = nat -> Option<(int, seq<Byte>)>

  /** The greedy loop from rank k on: match the k-th derived key, remove it, go on. */
  function Greedy(outs: seq<TxOutput>, k: nat, derive: Derivation): Option<seq<SpFound>>
    decreases |outs|
  {
    if outs == [] then Some([])
    else
      match derive(k)
      case None => None
      case Some(out) =>
        match Position(outs, out.0)
        case None => Some([])
        case Some(i) =>
          match Greedy(Without(outs, i), k + 1, derive)
          case None => None
          case Some(rest) => Some([SpFound(outs[i].vout, outs[i].sats, out.1)] + rest)
  }

  /** The outputs that the greedy loop leaves over. */
  function Leftover(outs: seq<TxOutput>, k: nat, derive: Derivation): seq<TxOutput>
    requires Greedy(outs, k, derive).Some?
    decreases |outs|
  {
    if outs == [] then []
    else
      match Position(outs, derive(k).value.0)
      case None => outs
      case Some(i) => Leftover(Without(outs, i), k + 1, derive)
  }

  /** The source's loop: it shrinks the remaining outputs until a derived key is absent. */
  method ReceiveLoop(outs: seq<TxOutput>, derive: Derivation)
      returns (r: Option<seq<SpFound>>, remaining: seq<TxOutput>)
    ensures r == Greedy(outs, 0, derive)
    ensures r.Some? ==> remaining == Leftover(outs, 0, derive)
  {
    remaining := outs;
    var found: seq<SpFound> := [];
    var k: nat := 0;
    assert Greedy(outs, 0, derive).Some? ==> found + Greedy(outs, 0, derive).value == Greedy(outs, 0, derive).value;
    while remaining != []
      invariant match Greedy(remaining, k, derive)
                case None => Greedy(outs, 0, derive) == None
                case Some(rest) => Greedy(outs, 0, derive) == Some(found + rest)
                                   && Leftover(outs, 0, derive) == Leftover(remaining, k, derive)
      decreases |remaining|
    {
      var out := derive(k);
      if out.None? {
        return None, remaining;
      }
      var pos := Position(remaining, out.value.0);
      if pos.None? {
        assert found + [] == found;
        break;
      }
      var hit := remaining[pos.value];
      ghost var rest := Greedy(Without(remaining, pos.value), k + 1, derive);
      if rest.Some? {
        assert found + ([SpFound(hit.vout, hit.sats, out.value.1)] + rest.value)
            == (found + [SpFound(hit.vout, hit.sats, out.value.1)]) + rest.value;
      }
      remaining := remaining[..pos.value] + remaining[pos.value + 1..];
      found := found + [SpFound(hit.vout, hit.sats, out.value.1)];
      k := k + 1;
    }
    assert found + [] == found;
    return Some(found), remaining;
  }

  function XKeys(outs: seq<TxOutput>): seq<int> {
    seq(|outs|, i requires 0 <= i < |outs| => outs[i].xonly)
  }

  /** The derivation succeeds for the ranks k, ..., k + m - 1. */
  ghost predicate Derives(derive: Derivation, k: nat, m: nat) {
    forall i :: k <= i < k + m ==> derive(i).Some?
  }

  /** The keys of ranks k, ..., k + m - 1. */
  ghost function Derived(derive: Derivation, k: nat, m: nat): seq<int>
    requires Derives(derive, k, m)
  {
    seq(m, i requires 0 <= i < m => derive(k + i).value.0)
  }

  lemma WithoutKeys(outs: seq<TxOutput>, i: nat)
    requires i < |outs|
    ensures multiset(XKeys(Without(outs, i))) == multiset(XKeys(outs)) - multiset{outs[i].xonly}
  {
    var keys := XKeys(outs);
    assert XKeys(Without(outs, i)) == keys[..i] + keys[i + 1..];
    MultisetRemove(keys, i);
  }

  /** The keys of ranks k, ..., k + m - 1 are all derivable and occur in the outputs,
      counted with multiplicity. */
  ghost predicate Contained(outs: seq<TxOutput>, k: nat, derive: Derivation, m: nat) {
    Derives(derive, k, m) && multiset(Derived(derive, k, m)) <= multiset(XKeys(outs))
  }

  lemma ConsContained(x: int, d: seq<int>, all: multiset<int>)
    requires x in all
    ensures multiset([x] + d) <= all <==> multiset(d) <= all - multiset{x}
  {
    assert multiset([x] + d) == multiset{x} + multiset(d);
  }

  lemma DerivedCons(derive: Derivation, k: nat, m: nat)
    requires derive(k).Some?
    ensures Derives(derive, k, m + 1) <==> Derives(derive, k + 1, m)
    ensures Derives(derive, k, m + 1) ==>
              Derived(derive, k, m + 1) == [derive(k).value.0] + Derived(derive, k + 1, m)
  {
    if Derives(derive, k + 1, m) {
      forall i | k <= i < k + (m + 1) ensures derive(i).Some? {}
    }
  }

  /** Taking the output that pays the k-th key shifts containment by one rank. */
  lemma ContainedStep(outs: seq<TxOutput>, i: nat, k: nat, derive: Derivation, m: nat)
    requires i < |outs| && derive(k).Some? && outs[i].xonly == derive(k).value.0
    ensures Contained(outs, k, derive, m + 1) <==> Contained(Without(outs, i), k + 1, derive, m)
  {
    WithoutKeys(outs, i);
    DerivedCons(derive, k, m);
    assert XKeys(outs)[i] in multiset(XKeys(outs));
    if Derives(derive, k + 1, m) {
      ConsContained(outs[i].xonly, Derived(derive, k + 1, m), multiset(XKeys(outs)));
    }
  }

  /** A run that includes rank k needs an output that pays the k-th key. */
  lemma ContainedNeedsFirst(outs: seq<TxOutput>, k: nat, derive: Derivation, m: nat)
    requires m > 0 && Contained(outs, k, derive, m)
    ensures outs != [] && Position(outs, derive(k).value.0).Some?
  {
    var x := derive(k).value.0;
    assert Derived(derive, k, m)[0] == x && x in multiset(Derived(derive, k, m));
    assert x in XKeys(outs);
  }

  /** The loop finds the longest run of derived keys that the outputs contain as a
      multiset: the run found is contained, and no longer one is. */
  lemma {:induction false} GreedyIsContained(outs: seq<TxOutput>, k: nat, derive: Derivation)
    requires Greedy(outs, k, derive).Some?
    ensures Contained(outs, k, derive, |Greedy(outs, k, derive).value|)
    decreases |outs|
  {
    if outs == [] || Position(outs, derive(k).value.0).None? {
      assert Derived(derive, k, 0) == [];
    } else {
      var i := Position(outs, derive(k).value.0).value;
      GreedyIsContained(Without(outs, i), k + 1, derive);
      ContainedStep(outs, i, k, derive, |Greedy(Without(outs, i), k + 1, derive).value|);
    }
  }

  lemma {:induction false} NothingLongerContained(outs: seq<TxOutput>, k: nat, derive: Derivation, m: nat)
    requires Greedy(outs, k, derive).Some? && Contained(outs, k, derive, m)
    ensures m <= |Greedy(outs, k, derive).value|
    decreases |outs|
  {
    if m > 0 {
      ContainedNeedsFirst(outs, k, derive, m);
      var i := Position(outs, derive(k).value.0).value;
      ContainedStep(outs, i, k, derive, m - 1);
      NothingLongerContained(Without(outs, i), k + 1, derive, m - 1);
    }
  }

  /** The loop finds the longest run of derived keys that the outputs contain as a
      multiset: runs up to that length are all that is contained. */
  lemma GreedyIsMaximal(outs: seq<TxOutput>, k: nat, derive: Derivation)
    requires Greedy(outs, k, derive).Some?
    ensures Contained(outs, k, derive, |Greedy(outs, k, derive).value|)
    ensures forall m: nat :: Contained(outs, k, derive, m) ==> m <= |Greedy(outs, k, derive).value|
  {
    GreedyIsContained(outs, k, derive);
    forall m: nat | Contained(outs, k, derive, m) ensures m <= |Greedy(outs, k, derive).value| {
      NothingLongerContained(outs, k, derive, m);
    }
  }

  /** The derivation of no rank that the loop gets to fails: not of the first, and not of
      one whose predecessors' keys all occur in the outputs. */
  ghost predicate NoRankFails(outs: seq<TxOutput>, k: nat, derive: Derivation) {
    forall m: nat :: m < |outs| && Contained(outs, k, derive, m) ==> derive(k + m).Some?
  }

  /** When the whole receive loop fails. */
  lemma {:induction false} GreedyFails(outs: seq<TxOutput>, k: nat, derive: Derivation)
    ensures Greedy(outs, k, derive).Some? <==> NoRankFails(outs, k, derive)
    decreases |outs|
  {
    if outs != [] {
      assert Derived(derive, k, 0) == [] && Contained(outs, k, derive, 0);
      if derive(k).Some? {
        var pos := Position(outs, derive(k).value.0);
        if pos.None? {
          forall m: nat | Contained(outs, k, derive, m) ensures m == 0 {
            if m > 0 {
              ContainedNeedsFirst(outs, k, derive, m);
            }
          }
        } else {
          GreedyFails(Without(outs, pos.value), k + 1, derive);
          if NoRankFails(outs, k, derive) {
            NoRankFailsAfter(outs, pos.value, k, derive);
          }
          if NoRankFails(Without(outs, pos.value), k + 1, derive) {
            NoRankFailsBefore(outs, pos.value, k, derive);
          }
        }
      } else {
        assert derive(k + 0).None?;
      }
    }
  }

  lemma NoRankFailsAfter(outs: seq<TxOutput>, i: nat, k: nat, derive: Derivation)
    requires i < |outs| && derive(k).Some? && outs[i].xonly == derive(k).value.0
    requires NoRankFails(outs, k, derive)
    ensures NoRankFails(Without(outs, i), k + 1, derive)
  {
    var rest, next := Without(outs, i), k + 1;
    forall m: nat | m < |rest| && Contained(rest, next, derive, m) ensures derive(next + m).Some? {
      ContainedStep(outs, i, k, derive, m);
      assert derive(k + (m + 1)).Some?;
    }
  }

  lemma NoRankFailsBefore(outs: seq<TxOutput>, i: nat, k: nat, derive: Derivation)
    requires i < |outs| && derive(k).Some? && outs[i].xonly == derive(k).value.0
    requires NoRankFails(Without(outs, i), k + 1, derive)
    ensures NoRankFails(outs, k, derive)
  {
    var next := k + 1;
    forall m: nat | m < |outs| && Contained(outs, k, derive, m) ensures derive(k + m).Some? {
      if m > 0 {
        ContainedStep(outs, i, k, derive, m - 1);
        assert derive(next + (m - 1)).Some?;
      }
    }
  }

  /** f is one of the outputs, paying the key of rank k, with that rank's tweak. */
  ghost predicate MatchesRank(f: SpFound, outs: seq<TxOutput>, k: nat, derive: Derivation) {
    derive(k).Some? && f.tweak == derive(k).value.1 && TxOutput(f.vout, derive(k).value.0, f.sats) in outs
  }

  ghost predicate DistinctVouts(outs: seq<TxOutput>) {
    forall i, j :: 0 <= i < j < |outs| ==> outs[i].vout != outs[j].vout
  }

  lemma WithoutShrinks(outs: seq<TxOutput>, i: nat)
    requires i < |outs|
    ensures forall o :: o in Without(outs, i) ==> o in outs
    ensures DistinctVouts(outs) ==> DistinctVouts(Without(outs, i))
    ensures DistinctVouts(outs) ==> forall o :: o in Without(outs, i) ==> o.vout != outs[i].vout
  {}

  ghost predicate DistinctFound(found: seq<SpFound>) {
    forall i, j :: 0 <= i < j < |found| ==> found[i].vout != found[j].vout
  }

  ghost predicate MatchesRanks(found: seq<SpFound>, outs: seq<TxOutput>, k: nat, derive: Derivation) {
    forall i :: 0 <= i < |found| ==> MatchesRank(found[i], outs, k + i, derive)
  }

  lemma MatchesCons(f: SpFound, tail: seq<SpFound>, outs: seq<TxOutput>, i: nat, k: nat, derive: Derivation)
    requires i < |outs| && derive(k).Some? && outs[i] == TxOutput(f.vout, derive(k).value.0, f.sats)
    requires f.tweak == derive(k).value.1 && MatchesRanks(tail, Without(outs, i), k + 1, derive)
    ensures MatchesRanks([f] + tail, outs, k, derive)
    ensures DistinctVouts(outs) && DistinctFound(tail) ==> DistinctFound([f] + tail)
  {
    WithoutShrinks(outs, i);
    forall j | 0 <= j < |tail|
      ensures MatchesRank(tail[j], outs, k + 1 + j, derive) && (DistinctVouts(outs) ==> tail[j].vout != f.vout)
    {
      assert MatchesRank(tail[j], Without(outs, i), k + 1 + j, derive);
    }
    assert forall j :: 0 < j < |[f] + tail| ==> ([f] + tail)[j] == tail[j - 1] && k + j == k + 1 + (j - 1);
  }

  /** Every match is one of the outputs, at its own rank's key and with its own rank's
      tweak, and no output is matched twice. */
  lemma {:induction false} GreedyFindsOutputs(outs: seq<TxOutput>, k: nat, derive: Derivation)
    requires Greedy(outs, k, derive).Some?
    ensures MatchesRanks(Greedy(outs, k, derive).value, outs, k, derive)
    ensures DistinctVouts(outs) ==> DistinctFound(Greedy(outs, k, derive).value)
    decreases |outs|
  {
    if outs != [] && Position(outs, derive(k).value.0).Some? {
      var i := Position(outs, derive(k).value.0).value;
      var tail := Greedy(Without(outs, i), k + 1, derive).value;
      WithoutShrinks(outs, i);
      GreedyFindsOutputs(Without(outs, i), k + 1, derive);
      MatchesCons(SpFound(outs[i].vout, outs[i].sats, derive(k).value.1), tail, outs, i, k, derive);
    }
  }

  /** The outputs behind the matches of ranks k, k + 1, ... */
  ghost function Matched(found: seq<SpFound>, k: nat, derive: Derivation): seq<TxOutput>
    requires Derives(derive, k, |found|)
  {
    seq(|found|, i requires 0 <= i < |found| => TxOutput(found[i].vout, derive(k + i).value.0, found[i].sats))
  }

  lemma MatchedCons(f: SpFound, found: seq<SpFound>, k: nat, derive: Derivation)
    requires derive(k).Some? && Derives(derive, k + 1, |found|)
    ensures Derives(derive, k, |found| + 1)
    ensures Matched([f] + found, k, derive)
            == [TxOutput(f.vout, derive(k).value.0, f.sats)] + Matched(found, k + 1, derive)
  {
    DerivedCons(derive, k, |found|);
  }

  lemma PutBack(a: seq<TxOutput>, i: nat, m: seq<TxOutput>, rest: seq<TxOutput>)
    requires i < |a| && multiset(m) + multiset(rest) == multiset(Without(a, i))
    ensures multiset([a[i]] + m) + multiset(rest) == multiset(a)
  {
    assert a == a[..i] + [a[i]] + a[i + 1..];
    assert multiset(a) == multiset(Without(a, i)) + multiset{a[i]};
    assert multiset([a[i]] + m) == multiset{a[i]} + multiset(m);
  }

  /** What is found and what remains are together a permutation of the outputs. */
  ghost predicate Partitions(outs: seq<TxOutput>, found: seq<SpFound>, rest: seq<TxOutput>,
                             k: nat, derive: Derivation)
  {
    Derives(derive, k, |found|) && multiset(Matched(found, k, derive)) + multiset(rest) == multiset(outs)
  }

  /** No remaining output pays the key of rank k, which could be derived. */
  ghost predicate Stuck(rest: seq<TxOutput>, k: nat, derive: Derivation) {
    rest != [] ==> derive(k).Some? && derive(k).value.0 !in XKeys(rest)
  }

  lemma PartitionsCons(outs: seq<TxOutput>, i: nat, tail: seq<SpFound>, rest: seq<TxOutput>, k: nat, derive: Derivation)
    requires i < |outs| && derive(k).Some? && outs[i].xonly == derive(k).value.0
    requires Partitions(Without(outs, i), tail, rest, k + 1, derive)
    ensures Partitions(outs, [SpFound(outs[i].vout, outs[i].sats, derive(k).value.1)] + tail, rest, k, derive)
  {
    var f := SpFound(outs[i].vout, outs[i].sats, derive(k).value.1);
    MatchedCons(f, tail, k, derive);
    assert outs[i] == TxOutput(f.vout, derive(k).value.0, f.sats);
    PutBack(outs, i, Matched(tail, k + 1, derive), rest);
  }

  /** What the loop finds and what it leaves over partition the outputs, and no output that
      is left over pays the key at which it stopped. */
  lemma {:induction false} GreedyPartitions(outs: seq<TxOutput>, k: nat, derive: Derivation)
    requires Greedy(outs, k, derive).Some?
    ensures Partitions(outs, Greedy(outs, k, derive).value, Leftover(outs, k, derive), k, derive)
    ensures Stuck(Leftover(outs, k, derive), k + |Greedy(outs, k, derive).value|, derive)
    decreases |outs|
  {
    if outs == [] || Position(outs, derive(k).value.0).None? {
      assert Matched([], k, derive) == [];
    } else {
      var i := Position(outs, derive(k).value.0).value;
      var tail := Greedy(Without(outs, i), k + 1, derive).value;
      GreedyPartitions(Without(outs, i), k + 1, derive);
      PartitionsCons(outs, i, tail, Leftover(outs, k, derive), k, derive);
      assert k + 1 + |tail| == k + (1 + |tail|);
    }
  }

  lemma PositionIgnoresOrder(outs: seq<TxOutput>, outs': seq<TxOutput>, x: int)
    requires multiset(XKeys(outs)) == multiset(XKeys(outs'))
    ensures Position(outs, x).Some? == Position(outs', x).Some?
  {
    var pos, pos' := Position(outs, x), Position(outs', x);
    assert pos.Some? ==> XKeys(outs)[pos.value] in multiset(XKeys(outs'));
    assert pos'.Some? ==> XKeys(outs')[pos'.value] in multiset(XKeys(outs));
  }

  /** Nothing recovered depends on the order of the outputs: neither failure, nor how
      many are found, nor their tweaks. */
  lemma {:induction false} GreedyIgnoresOrder(outs: seq<TxOutput>, outs': seq<TxOutput>, k: nat, derive: Derivation)
    requires multiset(XKeys(outs)) == multiset(XKeys(outs'))
    ensures var r, r' := Greedy(outs, k, derive), Greedy(outs', k, derive);
            && r.Some? == r'.Some?
            && (r.Some? ==> |r.value| == |r'.value| &&
                            forall i :: 0 <= i < |r.value| ==> r.value[i].tweak == r'.value[i].tweak)
    decreases |outs|
  {
    assert |multiset(XKeys(outs))| == |outs| && |multiset(XKeys(outs'))| == |outs'|;
    if outs != [] && derive(k).Some? {
      var x := derive(k).value.0;
      var pos, pos' := Position(outs, x), Position(outs', x);
      PositionIgnoresOrder(outs, outs', x);
      if pos.Some? {
        WithoutKeys(outs, pos.value);
        WithoutKeys(outs', pos'.value);
        GreedyIgnoresOrder(Without(outs, pos.value), Without(outs', pos'.value), k + 1, derive);
      }
    }
  }

  /** The output keys and tweaks of all ranks. */
  function Ranks(g: Group, ecdh: int, spend: int): Derivation
    requires g.n > 0
  {
    (k: nat) => OutputAt(g, ecdh, spend, k)
  }

  function ReceiveInner(g: Group, pubkeys: seq<int>, smallest: RawOutpoint, outs: seq<TxOutput>,
                        scanSk: int, spend: int)
      : Option<seq<SpFound>>
    requires g.n > 0
  {
    match ReceiverEcdh(g, pubkeys, smallest, scanSk)
    case None => None
    case Some(ecdh) => Greedy(outs, 0, Ranks(g, ecdh, spend))
  }

  /** A transaction that cannot be made sense of simply yields no matches. */
  function ReceiveCheck(g: Group, pubkeys: seq<int>, smallest: RawOutpoint, outs: seq<TxOutput>,
                        scanSk: int, spend: int)
      : seq<SpFound>
    requires g.n > 0
  {
    match ReceiveInner(g, pubkeys, smallest, outs, scanSk, spend)
    case None => []
    case Some(found) => found
  }

  // --- agreement ---------------------------------------------------------------------------------------

  /** Multiplying twice gives the product, or fails if that is zero. */
  lemma TwoMuls(g: Group, mine: int, theirs: int, h: int)
    requires g.n > 0
    ensures var p := (theirs * ((mine * h) % g.n)) % g.n;
            (match g.Mul(mine, h)
             case None => None
             case Some(partial) => g.Mul(theirs, partial)) == if p == 0 then None else Some(p)
  {
    if (mine * h) % g.n == 0 {
      assert theirs * 0 == 0;
    }
  }

  /** It does not matter whose key is multiplied by the hash first. */
  lemma EcdhCommutes(g: Group, hash: seq<Byte>, a: int, b: int)
    requires g.n > 0
    ensures Ecdh(g, hash, a, b) == Ecdh(g, hash, b, a)
  {
    if g.Scalar(hash).Some? {
      var h := g.Scalar(hash).value;
      SharedSecretAgrees(a, b, h, g.n);
      TwoMuls(g, a, b, h);
      TwoMuls(g, b, a, h);
    }
  }

  /** Sender and receiver reach the same shared point, or both fail, whatever order the
      receiver sees the inputs in, as soon as both orders have a key sum. */
  lemma EcdhAgrees(g: Group, inputs: seq<SpInput>, inputs': seq<SpInput>, scanSk: int)
    requires g.Valid() && inputs != [] && multiset(inputs) == multiset(inputs')
    requires forall i :: i in inputs ==> g.IsKey(i.key)
    requires NoZeroPartialSum(g, Keys(inputs)) && NoZeroPartialSum(g, Keys(inputs'))
    ensures inputs' != []
    ensures ReceiverEcdh(g, Keys(inputs'), Smallest(OutpointsOf(inputs')), scanSk) == SenderEcdh(g, inputs, scanSk)
  {
    assert inputs[0] in multiset(inputs');
    forall i | i in inputs' ensures g.IsKey(i.key) { assert i in multiset(inputs); }
    MapsKeepPermutation(inputs, inputs');
    SmallestIgnoresOrder(OutpointsOf(inputs), OutpointsOf(inputs'));
    SumKeysSucceeds(g, Keys(inputs));
    SumKeysSucceeds(g, Keys(inputs'));
    SumKeysIgnoresOrder(g, Keys(inputs), Keys(inputs'));
    var a := SumKeys(g, Keys(inputs)).value;
    EcdhCommutes(g, g.inputHash(SerOutpoint(Smallest(OutpointsOf(inputs))), a), a, scanSk);
  }

  // --- what is derived, from sums and products alone ----------------------------------------------

  /** The key of rank k and its tweak, from keys that add up to sum, the hash of the inputs
      and the other side's key: the shared point is hash * sum * other, the tweak is the hash
      of that point and the rank. None if a step is zero or out of range. */
  ghost function DerivedKey(g: Group, sum: int, hash: seq<Byte>, other: int, spend: int, k: nat)
      : Option<(int, seq<Byte>)>
    requires g.n > 0
  {
    var point := (Num(hash) * sum * other) % g.n;
    var t := g.sharedHash(point, k);
    if Num(hash) < g.n && point != 0 && 0 < Num(t) < g.n && (spend + Num(t)) % g.n != 0
    then Some((g.XOnly((spend + Num(t)) % g.n), t))
    else None
  }

  /** hash * sum * other, however it is bracketed and reduced on the way. */
  lemma ProductValue(sum: int, hash: int, other: int, n: int)
    requires n > 0
    ensures (other * (((sum % n) * hash) % n)) % n == (hash * sum * other) % n
  {
    ModMulLeft(sum, hash, n);
    ModMulLeft(sum * hash, other, n);
    assert ((sum * hash) % n) * other == other * ((sum * hash) % n);
    assert sum * hash * other == hash * sum * other;
  }

  lemma EcdhValue(g: Group, hash: seq<Byte>, sum: int, other: int)
    requires g.n > 0
    ensures var point := (Num(hash) * sum * other) % g.n;
            Ecdh(g, hash, sum % g.n, other) == if Num(hash) < g.n && point != 0 then Some(point) else None
  {
    ProductValue(sum, Num(hash), other, g.n);
    TwoMuls(g, sum % g.n, other, Num(hash));
  }

  lemma OutputValue(g: Group, hash: seq<Byte>, sum: int, other: int, spend: int, k: nat)
    requires g.n > 0
    ensures var ecdh := Ecdh(g, hash, sum % g.n, other);
            DerivedKey(g, sum, hash, other, spend, k)
            == if ecdh.Some? then OutputAt(g, ecdh.value, spend, k) else None
  {
    EcdhValue(g, hash, sum, other);
  }

  /** o is among the outpoints, and no other serialises to less. */
  ghost predicate IsLeast(o: RawOutpoint, os: seq<RawOutpoint>) {
    o in os && forall p :: p in os ==> !LexLess(SerOutpoint(p), SerOutpoint(o))
  }

  lemma LeastSerialisesAlike(o: RawOutpoint, os: seq<RawOutpoint>)
    requires os != [] && IsLeast(o, os)
    ensures SerOutpoint(o) == SerOutpoint(Smallest(os))
  {
    SmallestIsLeast(os);
    LexTotal(SerOutpoint(o), SerOutpoint(Smallest(os)));
  }

  /** The address that is sent to: the x-only key of the spend key plus the hash of the
      shared point, which is the input hash times the sum of the input keys times the scan
      key; the input hash is that of the least outpoint and the sum. */
  lemma SendAddressValue(g: Group, inputs: seq<SpInput>, o: RawOutpoint, scan: int, spend: int)
    requires g.n > 0 && (forall i :: i in inputs ==> g.IsKey(i.key)) && IsLeast(o, OutpointsOf(inputs))
    requires NoZeroPartialSum(g, Keys(inputs))
    ensures var sum := Sum(Keys(inputs));
            var out := DerivedKey(g, sum, g.inputHash(SerOutpoint(o), sum % g.n), scan, spend, 0);
            SendAddress(g, inputs, scan, spend) == if out.Some? then Some(out.value.0) else None
  {
    var keys := Keys(inputs);
    assert |keys| == |OutpointsOf(inputs)| == |inputs| > 0;
    SumKeysSucceeds(g, keys);
    SumKeysIsSum(g, keys);
    LeastSerialisesAlike(o, OutpointsOf(inputs));
    OutputValue(g, g.inputHash(SerOutpoint(o), Sum(keys) % g.n), Sum(keys), scan, spend, 0);
  }

  /** What the receiver's loop derives at rank k. */
  lemma RankValue(g: Group, pubkeys: seq<int>, os: seq<RawOutpoint>, o: RawOutpoint, scanSk: int, spend: int, k: nat)
    requires g.n > 0 && (forall p :: p in pubkeys ==> g.IsKey(p)) && IsLeast(o, os)
    requires ReceiverEcdh(g, pubkeys, Smallest(os), scanSk).Some?
    ensures var sum := Sum(pubkeys);
            OutputAt(g, ReceiverEcdh(g, pubkeys, Smallest(os), scanSk).value, spend, k)
            == DerivedKey(g, sum, g.inputHash(SerOutpoint(o), sum % g.n), scanSk, spend, k)
  {
    SumKeysIsSum(g, pubkeys);
    LeastSerialisesAlike(o, os);
    var hash := g.inputHash(SerOutpoint(o), Sum(pubkeys) % g.n);
    EcdhCommutes(g, hash, Sum(pubkeys) % g.n, scanSk);
    OutputValue(g, hash, Sum(pubkeys), scanSk, spend, k);
  }

  /** The receiver finds at rank k an output that pays the key derived from the sum of the
      input keys, the input hash of the least outpoint, and its own scan key. */
  lemma FoundAtRankValue(g: Group, pubkeys: seq<int>, os: seq<RawOutpoint>, o: RawOutpoint, outs: seq<TxOutput>,
                         scanSk: int, spend: int, k: nat)
    requires g.n > 0 && (forall p :: p in pubkeys ==> g.IsKey(p)) && IsLeast(o, os)
    requires k < |ReceiveCheck(g, pubkeys, Smallest(os), outs, scanSk, spend)|
    ensures var f := ReceiveCheck(g, pubkeys, Smallest(os), outs, scanSk, spend)[k];
            var hash := Num(g.inputHash(SerOutpoint(o), Sum(pubkeys) % g.n));
            && f.tweak == g.sharedHash((hash * Sum(pubkeys) * scanSk) % g.n, k)
            && TxOutput(f.vout, g.XOnly((spend + Num(f.tweak)) % g.n), f.sats) in outs
  {
    RankIsMatched(g, pubkeys, os, outs, scanSk, spend, k);
    RankValue(g, pubkeys, os, o, scanSk, spend, k);
    DerivedKeyValue(g, Sum(pubkeys), g.inputHash(SerOutpoint(o), Sum(pubkeys) % g.n), scanSk, spend, k);
  }

  lemma DerivedKeyValue(g: Group, sum: int, hash: seq<Byte>, other: int, spend: int, k: nat)
    requires g.n > 0 && DerivedKey(g, sum, hash, other, spend, k).Some?
    ensures var out := DerivedKey(g, sum, hash, other, spend, k).value;
            && out.1 == g.sharedHash((Num(hash) * sum * other) % g.n, k)
            && out.0 == g.XOnly((spend + Num(out.1)) % g.n)
  {}

  lemma RankIsMatched(g: Group, pubkeys: seq<int>, os: seq<RawOutpoint>, outs: seq<TxOutput>,
                      scanSk: int, spend: int, k: nat)
    requires g.n > 0 && os != [] && k < |ReceiveCheck(g, pubkeys, Smallest(os), outs, scanSk, spend)|
    ensures var ecdh := ReceiverEcdh(g, pubkeys, Smallest(os), scanSk);
            var f := ReceiveCheck(g, pubkeys, Smallest(os), outs, scanSk, spend)[k];
            && ecdh.Some? && OutputAt(g, ecdh.value, spend, k).Some?
            && f.tweak == OutputAt(g, ecdh.value, spend, k).value.1
            && TxOutput(f.vout, OutputAt(g, ecdh.value, spend, k).value.0, f.sats) in outs
  {
    var derive := Ranks(g, ReceiverEcdh(g, pubkeys, Smallest(os), scanSk).value, spend);
    GreedyFindsOutputs(outs, 0, derive);
    assert MatchesRank(Greedy(outs, 0, derive).value[k], outs, 0 + k, derive);
  }

  lemma {:induction false} MapsKeepPermutation(a: seq<SpInput>, b: seq<SpInput>)
    requires multiset(a) == multiset(b)
    ensures multiset(Keys(a)) == multiset(Keys(b)) && multiset(OutpointsOf(a)) == multiset(OutpointsOf(b))
  {
    if a == [] {
      assert |multiset(b)| == 0;
      assert b == [];
    } else {
      assert a[0] in multiset(b);
      var i :| 0 <= i < |b| && b[i] == a[0];
      MultisetRemove(b, i);
      assert a == [a[0]] + a[1..];
      assert a[..0] + a[0 + 1..] == a[1..];
      MapsKeepPermutation(a[1..], b[..i] + b[i + 1..]);
      RemoveFromMaps(a, 0);
      RemoveFromMaps(b, i);
    }
  }

  lemma RemoveFromMaps(s: seq<SpInput>, i: nat)
    requires i < |s|
    ensures multiset(Keys(s)) == multiset(Keys(s[..i] + s[i + 1..])) + multiset{s[i].key}
    ensures multiset(OutpointsOf(s)) == multiset(OutpointsOf(s[..i] + s[i + 1..])) + multiset{s[i].outpoint}
  {
    var rest := s[..i] + s[i + 1..];
    assert Keys(rest) == Keys(s)[..i] + Keys(s)[i + 1..];
    assert OutpointsOf(rest) == OutpointsOf(s)[..i] + OutpointsOf(s)[i + 1..];
    assert Keys(s) == Keys(s)[..i] + [s[i].key] + Keys(s)[i + 1..];
    assert OutpointsOf(s) == OutpointsOf(s)[..i] + [s[i].outpoint] + OutpointsOf(s)[i + 1..];
  }

  /** Whatever the loop finds can be spent: spend key plus tweak has the x-only key of
      the matched output. */
  lemma FoundIsSpendable(g: Group, pubkeys: seq<int>, smallest: RawOutpoint, outs: seq<TxOutput>,
                         scanSk: int, spendSk: int, f: SpFound)
    requires g.Valid() && f in ReceiveCheck(g, pubkeys, smallest, outs, scanSk, spendSk)
    ensures SpendKey(g, spendSk, f.tweak).Some? && |f.tweak| == 32
    ensures TxOutput(f.vout, g.XOnly(SpendKey(g, spendSk, f.tweak).value), f.sats) in outs
  {
    var ecdh := ReceiverEcdh(g, pubkeys, smallest, scanSk).value;
    var derive := Ranks(g, ecdh, spendSk);
    GreedyFindsOutputs(outs, 0, derive);
    var found := Greedy(outs, 0, derive).value;
    var i :| 0 <= i < |found| && found[i] == f;
    assert MatchesRank(f, outs, 0 + i, derive);
  }
}
