// The algebra behind silent payments. Points are named by their discrete
// logarithm, so a public key is the same number as its secret key; hashes are
// arbitrary functions; parity is any predicate that flips under negation.
module Curve {
  import opened Base
  import opened Protocol

  datatype Group = Group(
    n: int,
    even: int -> bool,
    inputHash: (seq<Byte>, int) -> seq<Byte>,
    sharedHash: (int, nat) -> seq<Byte>)
  {
    ghost predicate Valid() {
      && n > 2
      && (forall p :: 0 < p < n ==> even(p) != even(n - p))
      && (forall s, p :: |inputHash(s, p)| == 32)
      && (forall p, k :: |sharedHash(p, k)| == 32)
    }

    /** Neither zero nor out of range. */
    predicate IsKey(x: int) {
      0 < x < n
    }

    function Add(x: int, y: int): Option<int>
      requires n > 0
    {
      if (x + y) % n == 0 then None else Some((x + y) % n)
    }

    function Mul(x: int, y: int): Option<int>
      requires n > 0
    {
      if (x * y) % n == 0 then None else Some((x * y) % n)
    }

    /** The x coordinate of a point, named by whichever of the two points has even y. */
    function XOnly(p: int): int {
      if even(p) then p else n - p
    }

    predicate IsXOnly(x: int) {
      IsKey(x) && even(x)
    }

    /** The even-Y form of a key, which a Taproot key-path input contributes. */
    function TaprootInputKey(sk: int): int {
      if even(sk) then sk else n - sk
    }

    /** A hash read as a scalar; out-of-range values are an error. */
    function Scalar(b: seq<Byte>): Option<int> {
      if Num(b) < n then Some(Num(b)) else None
    }
  }

  /** Big-endian value of a byte string. */
  function Num(b: seq<Byte>): nat {
    if b == [] then 0 else Num(b[..|b| - 1]) * 256 + b[|b| - 1]
  }

  function Pow256(k: nat): nat {
    if k == 0 then 1 else 256 * Pow256(k - 1)
  }

  lemma Shift(x: nat, p: nat)
    ensures (x * p) * 256 == x * (256 * p)
  {}

  /** The bytes further to the left weigh more. */
  lemma {:induction false} NumConcat(a: seq<Byte>, b: seq<Byte>)
    ensures Num(a + b) == Num(a) * Pow256(|b|) + Num(b)
  {
    if b == [] {
      assert a + b == a;
    } else {
      var front, last := b[..|b| - 1], b[|b| - 1];
      assert (a + b)[..|a + b| - 1] == a + front;
      NumConcat(a, front);
      Shift(Num(a), Pow256(|front|));
    }
  }

  // --- arithmetic modulo n ---------------------------------------------------------

  lemma MulAtLeast(d: nat, n: nat)
    requires d >= 1
    ensures d * n >= n
  {
    assert d * n == (d - 1) * n + n;
  }

  lemma QuotientUnique(n: int, q1: int, r1: int, q2: int, r2: int)
    requires 0 <= r1 < n && 0 <= r2 < n && q1 * n + r1 == q2 * n + r2
    ensures r1 == r2
  {
    if q1 > q2 {
      assert (q1 - q2) * n == q1 * n - q2 * n;
      MulAtLeast(q1 - q2, n);
    } else if q2 > q1 {
      assert (q2 - q1) * n == q2 * n - q1 * n;
      MulAtLeast(q2 - q1, n);
    }
  }

  /** Adding a multiple of n does not change the remainder. */
  lemma ModShift(x: int, k: int, n: int)
    requires n > 0
    ensures (x + k * n) % n == x % n
  {
    var y := x + k * n;
    assert x == (x / n) * n + x % n;
    assert y == (y / n) * n + y % n;
    assert (x / n + k) * n + x % n == (y / n) * n + y % n;
    QuotientUnique(n, x / n + k, x % n, y / n, y % n);
  }

  lemma ModAddLeft(x: int, y: int, n: int)
    requires n > 0
    ensures (x % n + y) % n == (x + y) % n
  {
    ModShift(x % n + y, x / n, n);
  }

  lemma ModMulLeft(x: int, y: int, n: int)
    requires n > 0
    ensures ((x % n) * y) % n == (x * y) % n
  {
    var k := (x / n) * y;
    assert x == (x / n) * n + x % n;
    assert x * y == ((x / n) * n + x % n) * y == k * n + (x % n) * y;
    ModShift((x % n) * y, k, n);
  }

  /** (a·h)·b and a·(b·h) name the same point. */
  lemma SharedSecretAgrees(a: int, b: int, h: int, n: int)
    requires n > 0
    ensures (b * ((a * h) % n)) % n == (a * ((b * h) % n)) % n
  {
    ModMulLeft(a * h, b, n);
    ModMulLeft(b * h, a, n);
    assert (a * h) * b == (b * h) * a;
    assert ((a * h) % n) * b == b * ((a * h) % n);
    assert ((b * h) % n) * a == a * ((b * h) % n);
  }

  /** The even-Y form is a valid key whose public point is the lift of its own x coordinate. */
  lemma TaprootInputKeyIsLift(g: Group, sk: int)
    requires g.Valid() && g.IsKey(sk)
    ensures g.IsXOnly(g.TaprootInputKey(sk)) && g.TaprootInputKey(sk) == g.XOnly(sk)
    ensures g.XOnly(g.TaprootInputKey(sk)) == g.XOnly(sk)
  {}
}
