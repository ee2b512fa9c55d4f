/**
 The two CRC16 computations of include/driver/crc.h: the byte-wise update `crc16` and the bit-wise long division
 `calculate_crc16`. The polynomial is the one of section 4.5 of the SD Physical Layer Simplified Specification.
 A machine word is the sequence of its bits, the most significant first, and shifts and masks are those of C.
 */
module Crc16 {

  type Bits = seq<bool>

  // ---------------------------------------------------------------- words

  function Zero(n: nat): (z: Bits)
    ensures |z| == n && forall i :: 0 <= i < n ==> !z[i]
  {
    seq(n, i => false)
  }

  function Xor(a: Bits, b: Bits): (r: Bits)
    requires |a| == |b|
    ensures |r| == |a| && forall i :: 0 <= i < |a| ==> r[i] == (a[i] != b[i])
  {
    seq(|a|, i requires 0 <= i < |a| => a[i] != b[i])
  }

  function Or(a: Bits, b: Bits): (r: Bits)
    requires |a| == |b|
    ensures |r| == |a| && forall i :: 0 <= i < |a| ==> r[i] == (a[i] || b[i])
  {
    seq(|a|, i requires 0 <= i < |a| => a[i] || b[i])
  }

  /** `a << k`, the bits shifted out being lost. */
  function Shl(a: Bits, k: nat): (r: Bits)
    requires k <= |a|
    ensures |r| == |a| && forall i :: 0 <= i < |a| ==> r[i] == if i < |a| - k then a[i + k] else false
  {
    a[k..] + Zero(k)
  }

  /** `a >> k`. */
  function Shr(a: Bits, k: nat): (r: Bits)
    requires k <= |a|
    ensures |r| == |a| && forall i :: 0 <= i < |a| ==> r[i] == if i >= k then a[i - k] else false
  {
    Zero(k) + a[..|a| - k]
  }

  /** `a & ((1 << k) - 1)`. */
  function Low(a: Bits, k: nat): (r: Bits)
    requires k <= |a|
    ensures |r| == |a| && forall i :: 0 <= i < |a| ==> r[i] == if i >= |a| - k then a[i] else false
  {
    Zero(|a| - k) + a[|a| - k..]
  }

  /** A byte promoted to `n` bits. */
  function Widen(a: Bits, n: nat): (r: Bits)
    requires |a| <= n
    ensures |r| == n
  {
    Zero(n - |a|) + a
  }

  // ---------------------------------------------------------------- crc16

  /** `crc16`: one byte enters the remainder. */
  function Update(crc: Bits, data: Bits): (r: Bits)
    requires |crc| == 16 && |data| == 8
    ensures |r| == 16
  {
    var swapped := Or(Shr(crc, 8), Shl(crc, 8));
    var mixed := Xor(swapped, Widen(data, 16));
    var low := Xor(mixed, Low(Shr(mixed, 4), 4));
    var high := Xor(low, Shl(low, 12));
    Xor(high, Shl(Low(high, 8), 5))
  }

  ghost predicate IsMessage(p: seq<Bits>)
  {
    forall i :: 0 <= i < |p| ==> |p[i]| == 8
  }

  /** The byte-wise CRC of a message: `crc16` folded over it from zero. */
  ghost function Fold(p: seq<Bits>): (r: Bits)
    requires IsMessage(p)
    ensures |r| == 16
  {
    if p == [] then Zero(16) else Update(Fold(p[..|p| - 1]), p[|p| - 1])
  }

  // ---------------------------------------------------------------- the long division

  /** x^16 + x^12 + x^5 + 1, which is 0x11021. */
  function Poly(): (p: Bits)
    ensures |p| == 17 && forall i :: 0 <= i < 17 ==> p[i] == (i == 0 || i == 4 || i == 11 || i == 16)
  {
    seq(17, i => i == 0 || i == 4 || i == 11 || i == 16)
  }

  /** One step: subtract the polynomial if the leading bit is set, then shift. */
  function Divide(temp: Bits): (r: Bits)
    requires |temp| == 32
    ensures |r| == 32
  {
    Shl(if temp[0] then Xor(temp, Shl(Widen(Poly(), 32), 15)) else temp, 1)
  }

  ghost function Steps(temp: Bits, n: nat): (r: Bits)
    requires |temp| == 32
    ensures |r| == 32
  {
    if n == 0 then temp else Divide(Steps(temp, n - 1))
  }

  // ---------------------------------------------------------------- closed forms

  /** The quotient bits of a leading byte: x^12 of the divisor comes back four places later. */
  function Quotient(h: Bits): (q: Bits)
    requires |h| == 8
    ensures |q| == 8 && forall i :: 0 <= i < 8 ==> q[i] == if i < 4 then h[i] else h[i] != h[i - 4]
  {
    seq(8, i requires 0 <= i < 8 => if i < 4 then h[i] else h[i] != h[i - 4])
  }

  predicate At(q: Bits, i: int)
  {
    0 <= i < |q| && q[i]
  }

  /** The lower 16 bits of quotient times divisor. */
  function Product(q: Bits): (r: Bits)
    requires |q| == 8
    ensures |r| == 16 && forall i :: 0 <= i < 16 ==> r[i] == ((At(q, i - 8) != At(q, i + 4)) != At(q, i - 3))
  {
    seq(16, i requires 0 <= i < 16 => (At(q, i - 8) != At(q, i + 4)) != At(q, i - 3))
  }

  /** `crc16` in closed form. */
  lemma UpdateClosed(crc: Bits, data: Bits)
    requires |crc| == 16 && |data| == 8
    ensures var q := Quotient(Xor(crc[..8], data));
            Update(crc, data) == Xor(crc[8..] + Zero(8), Product(q))
  {
    var swapped := Or(Shr(crc, 8), Shl(crc, 8));
    assert forall i :: 0 <= i < 16 ==> swapped[i] == if i < 8 then crc[i + 8] else crc[i - 8];
    var mixed := Xor(swapped, Widen(data, 16));
    var g := Xor(crc[..8], data);
    assert forall i :: 0 <= i < 16 ==> mixed[i] == if i < 8 then crc[i + 8] else g[i - 8];
    var low := Xor(mixed, Low(Shr(mixed, 4), 4));
    var q := Quotient(g);
    assert forall i :: 0 <= i < 16 ==> low[i] == if i < 8 then crc[i + 8] else q[i - 8];
    var high := Xor(low, Shl(low, 12));
    assert forall i :: 0 <= i < 16 ==> high[i] == if i < 4 then (crc[i + 8] != q[i + 4]) else low[i];
    var r := Xor(high, Shl(Low(high, 8), 5));
    var s := Xor(crc[8..] + Zero(8), Product(q));
    forall i | 0 <= i < 16
      ensures r[i] == s[i]
    {
    }
  }

  /** The register after `k` steps of a byte, at the place of the original bit `m`. */
  predicate Shown(t: Bits, q: Bits, k: nat, m: int)
    requires k <= |q|
  {
    ((At(t, m) != At(q[..k], m - 4)) != At(q[..k], m - 11)) != At(q[..k], m - 16)
  }

  ghost predicate Divided(s: Bits, t: Bits, q: Bits, k: nat)
    requires k <= |q|
  {
    |s| == 32 && forall i :: 0 <= i < 32 ==> s[i] == Shown(t, q, k, i + k)
  }

  lemma DivideAt(s: Bits, i: nat)
    requires |s| == 32 && i < 32
    ensures Divide(s)[i] == ((i < 31 && s[i + 1]) != (s[0] && (i == 3 || i == 10 || i == 15)))
  {
    var poly := Shl(Widen(Poly(), 32), 15);
    assert poly[0];
    if i < 31 {
      assert poly[i + 1] == (i == 3 || i == 10 || i == 15);
    }
  }

  lemma ShownNext(t: Bits, q: Bits, k: nat, m: int)
    requires k < |q|
    ensures Shown(t, q, k + 1, m) == (Shown(t, q, k, m) != (q[k] && (m == k + 4 || m == k + 11 || m == k + 16)))
  {
  }

  lemma DivideStep(s: Bits, t: Bits, k: nat)
    requires |t| == 32 && k < 8 && Divided(s, t, Quotient(t[..8]), k)
    ensures Divided(Divide(s), t, Quotient(t[..8]), k + 1)
  {
    hide Divide, Shown;
    var q := Quotient(t[..8]);
    assert s[0] == Shown(t, q, k, 0 + k);
    Leading(t, k);
    forall i | 0 <= i < 32
      ensures Divide(s)[i] == Shown(t, q, k + 1, i + (k + 1))
    {
      DivideAt(s, i);
      ShownNext(t, q, k, i + (k + 1));
      if i < 31 {
        assert s[i + 1] == Shown(t, q, k, (i + 1) + k);
      } else {
        Beyond(t, q, k);
      }
    }
  }

  /** The leading bit before step `k` is the k-th quotient bit. */
  lemma Leading(t: Bits, k: nat)
    requires |t| == 32 && k < 8
    ensures Shown(t, Quotient(t[..8]), k, k) == Quotient(t[..8])[k]
  {
  }

  lemma Beyond(t: Bits, q: Bits, k: nat)
    requires |t| == 32 && k < 8 && |q| == 8
    ensures !Shown(t, q, k, 32 + k)
  {
  }

  lemma {:induction false} DivideSteps(t: Bits, k: nat)
    requires |t| == 32 && k <= 8
    ensures Divided(Steps(t, k), t, Quotient(t[..8]), k)
  {
    if k > 0 {
      DivideSteps(t, k - 1);
      DivideStep(Steps(t, k - 1), t, k - 1);
    }
  }

  /** Eight steps move the register up a byte and add quotient times divisor. */
  lemma EightSteps(t: Bits)
    requires |t| == 32
    ensures Steps(t, 8) == Xor(t[8..24], Product(Quotient(t[..8]))) + t[24..] + Zero(8)
  {
    hide Steps, Divide, Product, Quotient, Zero, Xor;
    var q := Quotient(t[..8]);
    DivideSteps(t, 8);
    assert q[..8] == q;
    var s := Steps(t, 8);
    var x := Xor(t[8..24], Product(q));
    forall i | 0 <= i < 16
      ensures s[i] == x[i]
    {
      assert s[i] == Shown(t, q, 8, i + 8);
    }
    forall i | 16 <= i < 32
      ensures s[i] == (t[24..] + Zero(8))[i - 16]
    {
      assert s[i] == Shown(t, q, 8, i + 8);
    }
  }

  lemma XorSplit(a: Bits, b: Bits, c: Bits, d: Bits)
    requires |a| == |c| && |b| == |d|
    ensures Xor(a + b, c + d) == Xor(a, c) + Xor(b, d)
  {
  }

  lemma XorMove(a: Bits, b: Bits, c: Bits)
    requires |a| == |b| == |c|
    ensures Xor(Xor(a, b), c) == Xor(Xor(a, c), b) && Xor(a, b) == Xor(b, a) && Xor(Xor(a, b), b) == a
  {
  }

  lemma XorZero(a: Bits)
    ensures Xor(a, Zero(|a|)) == a
  {
  }

  /** Eight divisions take the leading byte into the remainder exactly as `crc16` does, and bring the next byte up. */
  lemma ByteStep(c: Bits, a: Bits, b: Bits, n: Bits, z: Bits)
    requires |c| == 16 && |a| == |b| == |n| == |z| == 8
    ensures Steps(Xor(c, a + b) + n + z, 8) == Xor(Update(c, a), b + n) + z + Zero(8)
  {
    hide Steps, Update, Product, Quotient;
    var t := Xor(c, a + b) + n + z;
    EightSteps(t);
    UpdateClosed(c, a);
    assert c == c[..8] + c[8..];
    XorSplit(c[..8], c[8..], a, b);
    assert t[..8] == Xor(c[..8], a);
    var p := Product(Quotient(Xor(c[..8], a)));
    assert t[8..24] == Xor(c[8..], b) + n;
    XorSplit(c[8..], Zero(8), b, n);
    XorMove(Zero(8), n, n);
    XorZero(n);
    assert Xor(c[8..] + Zero(8), b + n) == Xor(c[8..], b) + n;
    XorMove(c[8..] + Zero(8), p, b + n);
    assert t[24..] == z;
  }

  // ---------------------------------------------------------------- calculate_crc16

  /** The i-th byte of a message that goes on with zeroes. */
  function ByteAt(p: seq<Bits>, i: nat): (b: Bits)
    requires IsMessage(p)
    ensures |b| == 8
  {
    if i < |p| then p[i] else Zero(8)
  }

  /** What the register holds after `k` bytes. */
  ghost predicate Register(temp: Bits, p: seq<Bits>, q: seq<Bits>, k: nat)
    requires IsMessage(p) && IsMessage(q) && k <= |p|
  {
    temp == Xor(Fold(p[..k]), ByteAt(q, k) + ByteAt(q, k + 1)) + ByteAt(q, k + 2) + Zero(8)
  }

  lemma Loaded(a: Bits, b: Bits, c: Bits)
    requires |a| == |b| == |c| == 8
    ensures Or(Shl(Widen(a, 32), 24), Shl(Widen(b, 32), 16)) == a + b + Zero(8) + Zero(8)
    ensures Or(a + b + Zero(8) + Zero(8), Shl(Widen(c, 32), 8)) == a + b + c + Zero(8)
  {
  }

  lemma Filled(x: Bits, z: Bits)
    requires |x| == 24 && |z| == 8
    ensures Or(x + Zero(8), Widen(z, 32)) == x + z
  {
  }

  lemma Start(p: seq<Bits>, q: seq<Bits>, temp: Bits)
    requires IsMessage(p) && IsMessage(q) && temp == ByteAt(q, 0) + ByteAt(q, 1) + ByteAt(q, 2) + Zero(8)
    ensures Register(temp, p, q, 0)
  {
    assert p[..0] == [];
    XorMove(Zero(16), ByteAt(q, 0) + ByteAt(q, 1), Zero(16));
    XorZero(ByteAt(q, 0) + ByteAt(q, 1));
  }

  /** A byte added to a remainder shows unless it is zero. */
  lemma OverRead(f: Bits, beyond: Bits)
    requires |f| == 16 && |beyond| == 8
    ensures Xor(f, beyond + Zero(8)) == f <==> beyond == Zero(8)
  {
    var r := Xor(f, beyond + Zero(8));
    if beyond != Zero(8) {
      var i :| 0 <= i < 8 && beyond[i] != Zero(8)[i];
      assert r[i] != f[i];
    } else {
      assert beyond + Zero(8) == Zero(16);
      XorZero(f);
    }
  }

  /** The register of the start of the long division: the first three bytes of the message, as far as it goes. */
  method Load(p: seq<Bits>, beyond: Bits) returns (temp: Bits)
    requires IsMessage(p) && |beyond| == 8
    ensures |p| != 1 ==> temp == ByteAt(p, 0) + ByteAt(p, 1) + ByteAt(p, 2) + Zero(8)
    ensures |p| == 1 ==> temp == p[0] + beyond + Zero(8) + Zero(8)
  {
    var len := |p|;
    temp := Zero(32);
    if len != 0 {
      var second := if len > 1 then p[1] else beyond;
      temp := Or(Shl(Widen(p[0], 32), 24), Shl(Widen(second, 32), 16));
      Loaded(p[0], second, ByteAt(p, 2));
    } else {
      assert Zero(32) == Zero(8) + Zero(8) + Zero(8) + Zero(8);
    }
    if len > 2 {
      temp := Or(temp, Shl(Widen(p[2], 32), 8));
    }
  }

  /**
   `calculate_crc16`. A message of one byte is read past its end: `beyond` is what lies there, and the result is the
   byte-wise CRC exactly when that is zero.
   */
  method Calculate(p: seq<Bits>, beyond: Bits) returns (crc: Bits)
    requires IsMessage(p) && |beyond| == 8
    ensures |p| != 1 ==> crc == Fold(p)
    ensures |p| == 1 ==> (crc == Fold(p) <==> beyond == Zero(8))
  {
    hide Steps, Divide, Update, Or, Xor, Shl, Widen, Zero;
    var len := |p|;
    ghost var q := if len == 1 then p + [beyond] else p;
    var temp := Load(p, beyond);
    Start(p, q, temp);
    var i := 3;
    while i <= len + 2
      invariant 3 <= i <= len + 3 && |temp| == 32 && Register(temp, p, q, i - 3)
    {
      if i < len {
        Filled(temp[..24], p[i]);
        assert temp == temp[..24] + Zero(8);
        temp := Or(temp, Widen(p[i], 32));
      }
      ghost var t := temp;
      var j := 0;
      StepsAt(t, 0);
      while j < 8
        invariant 0 <= j <= 8 && |temp| == 32 && temp == Steps(t, j)
      {
        StepsAt(t, j + 1);
        temp := Divide(temp);
        j := j + 1;
      }
      Advance(p, q, i - 3, t);
      i := i + 1;
    }
    assert p[..len] == p;
    crc := temp[..16];
    assert crc == Xor(Fold(p), ByteAt(q, len) + ByteAt(q, len + 1));
    if len == 1 {
      OverRead(Fold(p), beyond);
    } else {
      OverRead(Fold(p), Zero(8));
    }
  }

  /** One byte, and a nonzero byte behind it: the two computations differ. */
  method OverReadShows() returns (crc: Bits)
    ensures crc != Fold([Zero(8)])
  {
    hide Fold, Zero;
    var beyond := [true] + Zero(7);
    assert beyond[0] != Zero(8)[0];
    crc := Calculate([Zero(8)], beyond);
  }

  lemma StepsAt(t: Bits, j: nat)
    requires |t| == 32
    ensures Steps(t, 0) == t
    ensures j > 0 ==> Steps(t, j) == Divide(Steps(t, j - 1))
  {
  }

  /** One turn of the outer loop. */
  lemma Advance(p: seq<Bits>, q: seq<Bits>, k: nat, t: Bits)
    requires IsMessage(p) && IsMessage(q) && k < |p| <= |q| && p[k] == q[k]
    requires t == Xor(Fold(p[..k]), ByteAt(q, k) + ByteAt(q, k + 1)) + ByteAt(q, k + 2) + ByteAt(q, k + 3)
    ensures Register(Steps(t, 8), p, q, k + 1)
  {
    hide Steps, Update;
    ByteStep(Fold(p[..k]), ByteAt(q, k), ByteAt(q, k + 1), ByteAt(q, k + 2), ByteAt(q, k + 3));
    assert p[..k + 1][..k] == p[..k];
  }

  // ---------------------------------------------------------------- what the CRC detects

  lemma QuotientLinear(a: Bits, b: Bits)
    requires |a| == |b| == 8
    ensures Quotient(Xor(a, b)) == Xor(Quotient(a), Quotient(b))
  {
  }

  lemma ProductLinear(a: Bits, b: Bits)
    requires |a| == |b| == 8
    ensures Product(Xor(a, b)) == Xor(Product(a), Product(b))
  {
    var x, y := Product(Xor(a, b)), Xor(Product(a), Product(b));
    forall i | 0 <= i < 16
      ensures x[i] == y[i]
    {
      AtXor(a, b, i - 8);
      AtXor(a, b, i + 4);
      AtXor(a, b, i - 3);
    }
  }

  lemma AtXor(a: Bits, b: Bits, i: int)
    requires |a| == |b|
    ensures At(Xor(a, b), i) == (At(a, i) != At(b, i))
  {
  }

  lemma XorFour(a: Bits, b: Bits, c: Bits, d: Bits)
    requires |a| == |b| == |c| == |d|
    ensures Xor(Xor(a, b), Xor(c, d)) == Xor(Xor(a, c), Xor(b, d))
  {
  }

  /** The update of a difference is the difference of the updates. */
  lemma UpdateLinear(c: Bits, d: Bits, a: Bits, b: Bits)
    requires |c| == |d| == 16 && |a| == |b| == 8
    ensures Update(Xor(c, d), Xor(a, b)) == Xor(Update(c, a), Update(d, b))
  {
    hide Update, Product, Quotient, Xor, Zero;
    UpdateClosed(c, a);
    UpdateClosed(d, b);
    UpdateClosed(Xor(c, d), Xor(a, b));
    var g, h := Xor(c[..8], a), Xor(d[..8], b);
    XorSlices(c, d);
    XorFour(c[..8], d[..8], a, b);
    QuotientLinear(g, h);
    ProductLinear(Quotient(g), Quotient(h));
    XorFour(c[8..] + Zero(8), d[8..] + Zero(8), Product(Quotient(g)), Product(Quotient(h)));
  }

  lemma XorSlices(c: Bits, d: Bits)
    requires |c| == |d| == 16
    ensures Xor(c, d)[..8] == Xor(c[..8], d[..8])
    ensures Xor(c, d)[8..] + Zero(8) == Xor(c[8..] + Zero(8), d[8..] + Zero(8))
  {
  }

  /** The lower byte of the product determines the quotient. */
  lemma ProductLow(q: Bits)
    requires |q| == 8 && forall i :: 8 <= i < 16 ==> !Product(q)[i]
    ensures q == Zero(8)
  {
    forall j | 3 <= j < 8
      ensures !q[j]
    {
      assert !Product(q)[j + 8];
    }
    forall j | 0 <= j < 3
      ensures !q[j]
    {
      assert !Product(q)[j + 8];
    }
  }

  lemma QuotientZero(h: Bits)
    requires |h| == 8
    ensures Quotient(h) == Zero(8) <==> h == Zero(8)
  {
    if Quotient(h) == Zero(8) {
      forall i | 0 <= i < 8
        ensures !h[i]
      {
        assert !Quotient(h)[i];
        if i >= 4 {
          assert !Quotient(h)[i - 4];
        }
      }
    }
  }

  /** When the lower byte of a remainder becomes zero, its upper byte was the message's, and the rest moved up. */
  lemma LowerByteZero(c: Bits, a: Bits)
    requires |c| == 16 && |a| == 8 && Update(c, a)[8..] == Zero(8)
    ensures c[..8] == a && Update(c, a) == c[8..] + Zero(8)
  {
    hide Update, Product, Quotient, Xor, Zero;
    UpdateClosed(c, a);
    var q := Quotient(Xor(c[..8], a));
    forall i | 8 <= i < 16
      ensures !Product(q)[i]
    {
      assert Update(c, a)[i] == Update(c, a)[8..][i - 8];
    }
    ProductLow(q);
    QuotientZero(Xor(c[..8], a));
    SameIfZero(c[..8], a);
    ProductZero();
    XorZero(c[8..] + Zero(8));
  }

  lemma ProductZero()
    ensures Product(Zero(8)) == Zero(16)
  {
  }

  lemma SameIfZero(a: Bits, b: Bits)
    requires |a| == |b|
    ensures Xor(a, b) == Zero(|a|) <==> a == b
  {
    if Xor(a, b) == Zero(|a|) {
      forall i | 0 <= i < |a|
        ensures a[i] == b[i]
      {
        assert !Xor(a, b)[i];
      }
    }
  }

  /** A remainder that becomes zero had the message's byte above and nothing below. */
  lemma BecomesZero(c: Bits, a: Bits)
    requires |c| == 16 && |a| == 8 && Update(c, a) == Zero(16)
    ensures c[..8] == a && c[8..] == Zero(8)
  {
    hide Update;
    assert Zero(16)[8..] == Zero(8);
    LowerByteZero(c, a);
    assert c[8..] == (c[8..] + Zero(8))[..8] == Zero(16)[..8];
    assert Zero(16)[..8] == Zero(8);
  }

  /** A nonzero byte leaves a nonzero lower byte. */
  lemma ByteShows(a: Bits)
    requires |a| == 8 && a != Zero(8)
    ensures Update(Zero(16), a) == Product(Quotient(a)) && Update(Zero(16), a)[8..] != Zero(8)
  {
    hide Update, Product, Quotient;
    UpdateClosed(Zero(16), a);
    assert Zero(16)[..8] == Zero(8) && Zero(16)[8..] + Zero(8) == Zero(16);
    XorMove(Zero(8), a, Zero(8));
    XorZero(a);
    XorMove(Zero(16), Product(Quotient(a)), Zero(16));
    XorZero(Product(Quotient(a)));
    if Update(Zero(16), a)[8..] == Zero(8) {
      LowerByteZero(Zero(16), a);
    }
  }

  /** Three bytes cancel only if the third is the lower byte that the first one left. */
  lemma Cancelled(a: Bits, b: Bits, d: Bits)
    requires |a| == |b| == |d| == 8 && a != Zero(8) && Update(Update(Update(Zero(16), a), b), d) == Zero(16)
    ensures forall k :: 8 <= k < 16 ==> Product(Quotient(a))[k] == d[k - 8]
  {
    hide Update, Product, Quotient;
    ByteShows(a);
    var c1 := Update(Zero(16), a);
    var c2 := Update(c1, b);
    BecomesZero(c2, d);
    LowerByteZero(c1, b);
    assert c1[8..] == (c1[8..] + Zero(8))[..8];
    forall k | 8 <= k < 16
      ensures Product(Quotient(a))[k] == d[k - 8]
    {
      assert c1[k] == c1[8..][k - 8];
    }
  }

  /** Three bytes whose bits span at most sixteen places never cancel. */
  lemma BurstShows(a: Bits, b: Bits, d: Bits, s: nat)
    requires |a| == |b| == |d| == 8 && s < 8 && a[s]
    requires (forall k :: 0 <= k < s ==> !a[k]) && (forall k :: s <= k < 8 ==> !d[k])
    ensures Update(Update(Update(Zero(16), a), b), d) != Zero(16)
  {
    hide Update, Product, Quotient;
    SparseQuotient(a, s);
    var j := LeadingShows(Quotient(a), s);
    if Update(Update(Update(Zero(16), a), b), d) == Zero(16) {
      Cancelled(a, b, d);
      assert false;
    }
  }

  lemma SparseQuotient(a: Bits, s: nat)
    requires |a| == 8 && s < 8 && a[s] && forall k :: 0 <= k < s ==> !a[k]
    ensures Quotient(a)[s]
  {
  }

  lemma LeadingShows(q: Bits, s: nat) returns (j: nat)
    requires |q| == 8 && s < 8 && q[s]
    ensures 8 + s <= j < 16 && Product(q)[j]
  {
    j := s + 8;
    if !Product(q)[j] {
      j := s + 13;
    }
  }

  // ---------------------------------------------------------------- whole messages

  /** The difference of the remainders of two messages after `k` bytes. */
  ghost function Gap(p: seq<Bits>, q: seq<Bits>, k: nat): (r: Bits)
    requires IsMessage(p) && IsMessage(q) && k <= |p| == |q|
    ensures |r| == 16
  {
    Xor(Fold(p[..k]), Fold(q[..k]))
  }

  lemma GapStep(p: seq<Bits>, q: seq<Bits>, k: nat)
    requires IsMessage(p) && IsMessage(q) && k < |p| == |q|
    ensures Gap(p, q, k + 1) == Update(Gap(p, q, k), Xor(p[k], q[k]))
  {
    hide Update;
    assert p[..k + 1][..k] == p[..k] && q[..k + 1][..k] == q[..k];
    UpdateLinear(Fold(p[..k]), Fold(q[..k]), p[k], q[k]);
  }

  /** Once two remainders differ, equal bytes never make them equal again. */
  lemma {:induction false} GapStays(p: seq<Bits>, q: seq<Bits>, k: nat, n: nat)
    requires IsMessage(p) && IsMessage(q) && k <= n <= |p| == |q| && p[k..n] == q[k..n] && Gap(p, q, k) != Zero(16)
    ensures Gap(p, q, n) != Zero(16)
  {
    hide Update, Gap;
    if k < n {
      assert p[k..n - 1] == p[k..n][..n - 1 - k] && q[k..n - 1] == q[k..n][..n - 1 - k];
      GapStays(p, q, k, n - 1);
      GapStep(p, q, n - 1);
      assert p[n - 1] == p[k..n][n - 1 - k] && q[n - 1] == q[k..n][n - 1 - k];
      SameIfZero(p[n - 1], q[n - 1]);
      var g := Gap(p, q, n - 1);
      if Update(g, Zero(8)) == Zero(16) {
        ZeroBefore(g);
        assert false;
      }
    }
  }

  lemma ZeroBefore(g: Bits)
    requires |g| == 16 && Update(g, Zero(8)) == Zero(16)
    ensures g == Zero(16)
  {
    hide Update;
    BecomesZero(g, Zero(8));
    assert g == g[..8] + g[8..];
    assert Zero(8) + Zero(8) == Zero(16);
  }

  lemma GapMeaning(p: seq<Bits>, q: seq<Bits>)
    requires IsMessage(p) && IsMessage(q) && |p| == |q|
    ensures Gap(p, q, |p|) == Zero(16) <==> Fold(p) == Fold(q)
  {
    assert p[..|p|] == p && q[..|q|] == q;
    SameIfZero(Fold(p), Fold(q));
  }

  /**
   Two messages of equal length whose differing bits lie in sixteen consecutive places, the first of them at bit `s`
   of byte `i`, never share a CRC.
   */
  lemma DetectsBursts(p: seq<Bits>, q: seq<Bits>, i: nat, s: nat)
    requires IsMessage(p) && IsMessage(q) && i < |p| == |q| && s < 8
    requires p[..i] == q[..i] && p[i][..s] == q[i][..s] && p[i][s] != q[i][s]
    requires i + 2 < |p| ==> p[i + 2][s..] == q[i + 2][s..] && p[i + 3..] == q[i + 3..]
    ensures Fold(p) != Fold(q)
  {
    hide Update, Gap, Fold, Xor, Zero;
    GapMeaning(p, q);
    var a := Xor(p[i], q[i]);
    NoGapYet(p, q, i);
    GapStep(p, q, i);
    assert a[s];
    SameBefore(p[i], q[i], s);
    ByteShows(a);
    assert Gap(p, q, i + 1) != Zero(16) by {
      assert Zero(16)[8..] == Zero(8);
    }
    if i + 1 < |p| {
      var b := Xor(p[i + 1], q[i + 1]);
      GapStep(p, q, i + 1);
      if Gap(p, q, i + 2) == Zero(16) {
        BecomesZero(Gap(p, q, i + 1), b);
        assert false;
      }
      if i + 2 < |p| {
        var d := Xor(p[i + 2], q[i + 2]);
        GapStep(p, q, i + 2);
        SameFrom(p[i + 2], q[i + 2], s);
        BurstShows(a, b, d, s);
        assert p[i + 3..|p|] == p[i + 3..] && q[i + 3..|p|] == q[i + 3..];
        GapStays(p, q, i + 3, |p|);
      }
    }
  }

  lemma SameBefore(a: Bits, b: Bits, s: nat)
    requires |a| == |b| && s <= |a| && a[..s] == b[..s]
    ensures forall k :: 0 <= k < s ==> !Xor(a, b)[k]
  {
    forall k | 0 <= k < s
      ensures a[k] == b[k]
    {
      assert a[..s][k] == b[..s][k];
    }
  }

  lemma SameFrom(a: Bits, b: Bits, s: nat)
    requires |a| == |b| && s <= |a| && a[s..] == b[s..]
    ensures forall k :: s <= k < |a| ==> !Xor(a, b)[k]
  {
    forall k | s <= k < |a|
      ensures a[k] == b[k]
    {
      assert a[s..][k - s] == b[s..][k - s];
    }
  }

  lemma NoGapYet(p: seq<Bits>, q: seq<Bits>, i: nat)
    requires IsMessage(p) && IsMessage(q) && i <= |p| == |q| && p[..i] == q[..i]
    ensures Gap(p, q, i) == Zero(16)
  {
    SameIfZero(Fold(p[..i]), Fold(q[..i]));
  }

  /** Flipping one bit always changes the CRC. */
  lemma DetectsSingleBit(p: seq<Bits>, i: nat, s: nat)
    requires IsMessage(p) && i < |p| && s < 8
    ensures var q := p[i := p[i][s := !p[i][s]]]; IsMessage(q) && Fold(q) != Fold(p)
  {
    hide Fold;
    var q := p[i := p[i][s := !p[i][s]]];
    assert q[..i] == p[..i] && q[i][..s] == p[i][..s];
    if i + 2 < |p| {
      assert q[i + 3..] == p[i + 3..];
    }
    DetectsBursts(q, p, i, s);
  }

  // ---------------------------------------------------------------- parity

  /** How many bits are set. */
  function Ones(a: Bits): nat
  {
    if a == [] then 0 else Ones(a[..|a| - 1]) + if a[|a| - 1] then 1 else 0
  }

  predicate Odd(a: Bits)
  {
    Ones(a) % 2 == 1
  }

  lemma {:induction false} OnesConcat(a: Bits, b: Bits)
    ensures Ones(a + b) == Ones(a) + Ones(b)
  {
    if b == [] {
      assert a + b == a;
    } else {
      var n := |b| - 1;
      OnesConcat(a, b[..n]);
      assert (a + b)[..|a + b| - 1] == a + b[..n];
    }
  }

  lemma {:induction false} OnesZero(n: nat)
    ensures Ones(Zero(n)) == 0
  {
    if n > 0 {
      OnesZero(n - 1);
      assert Zero(n)[..n - 1] == Zero(n - 1);
    }
  }

  /** The parity of a difference is the difference of the parities. */
  lemma {:induction false} OddXor(a: Bits, b: Bits)
    requires |a| == |b|
    ensures Odd(Xor(a, b)) == (Odd(a) != Odd(b))
  {
    if a != [] {
      var n := |a| - 1;
      OddXor(a[..n], b[..n]);
      assert Xor(a, b)[..n] == Xor(a[..n], b[..n]);
    }
  }

  lemma QuotientOdd(h: Bits)
    requires |h| == 8
    ensures Odd(Quotient(h)[4..]) == Odd(h)
  {
    hide Ones;
    assert Quotient(h)[4..] == Xor(h[4..], h[..4]);
    OddXor(h[4..], h[..4]);
    OnesConcat(h[..4], h[4..]);
    assert h == h[..4] + h[4..];
  }

  lemma ProductSum(q: Bits)
    requires |q| == 8
    ensures Product(q) == Xor(Xor(Zero(8) + q, q[4..] + Zero(12)), Zero(3) + q + Zero(5))
  {
  }

  lemma ProductOdd(q: Bits)
    requires |q| == 8
    ensures Odd(Product(q)) == Odd(q[4..])
  {
    hide Ones, Product, Xor, Zero;
    ProductSum(q);
    var a, b, c := Zero(8) + q, q[4..] + Zero(12), Zero(3) + q + Zero(5);
    OddXor(a, b);
    OddXor(Xor(a, b), c);
    OnesConcat(Zero(8), q);
    OnesConcat(q[4..], Zero(12));
    OnesConcat(Zero(3) + q, Zero(5));
    OnesConcat(Zero(3), q);
    OnesZero(8);
    OnesZero(12);
    OnesZero(3);
    OnesZero(5);
  }

  /** Since x + 1 divides the polynomial, the remainder carries the parity of what went in. */
  lemma UpdateOdd(c: Bits, a: Bits)
    requires |c| == 16 && |a| == 8
    ensures Odd(Update(c, a)) == (Odd(c) != Odd(a))
  {
    hide Ones, Update, Product, Quotient, Xor, Zero;
    UpdateClosed(c, a);
    var h := Xor(c[..8], a);
    var q := Quotient(h);
    OddXor(c[8..] + Zero(8), Product(q));
    ProductOdd(q);
    QuotientOdd(h);
    OddXor(c[..8], a);
    OnesConcat(c[8..], Zero(8));
    OnesZero(8);
    OnesConcat(c[..8], c[8..]);
    assert c == c[..8] + c[8..];
  }

  /** In how many bits two messages differ. */
  ghost function Distance(p: seq<Bits>, q: seq<Bits>): nat
    requires IsMessage(p) && IsMessage(q) && |p| == |q|
  {
    if p == [] then 0
    else
      var n := |p| - 1;
      Distance(p[..n], q[..n]) + Ones(Xor(p[n], q[n]))
  }

  lemma {:induction false} GapOdd(p: seq<Bits>, q: seq<Bits>, k: nat)
    requires IsMessage(p) && IsMessage(q) && k <= |p| == |q|
    ensures Odd(Gap(p, q, k)) == (Distance(p[..k], q[..k]) % 2 == 1)
  {
    hide Ones, Update, Gap, Xor;
    if k == 0 {
      NoGapYet(p, q, 0);
      OnesZero(16);
    } else {
      var n := k - 1;
      GapOdd(p, q, n);
      GapStep(p, q, n);
      UpdateOdd(Gap(p, q, n), Xor(p[n], q[n]));
      assert p[..k][..n] == p[..n] && q[..k][..n] == q[..n];
    }
  }

  /** Two messages of equal length that differ in an odd number of bits, wherever they are, never share a CRC. */
  lemma DetectsOddErrors(p: seq<Bits>, q: seq<Bits>)
    requires IsMessage(p) && IsMessage(q) && |p| == |q| && Distance(p, q) % 2 == 1
    ensures Fold(p) != Fold(q)
  {
    hide Update, Gap, Fold, Distance;
    GapMeaning(p, q);
    GapOdd(p, q, |p|);
    assert p[..|p|] == p && q[..|q|] == q;
    OnesZero(16);
  }
}
