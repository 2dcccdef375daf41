/** Bitwise operations on non-negative integers of a given width, defined
    bit by bit, and the bit-level facts the models rely on. */
module Bits {
  import Arith

  function Pow2(n: nat): (p: nat)
    ensures p >= 1
  {
    if n == 0 then 1 else 2 * Pow2(n - 1)
  }

  /** Bit `k` of `x`, counting from the least significant. */
  predicate Bit(x: nat, k: nat)
  {
    if k == 0 then x % 2 == 1 else Bit(x / 2, k - 1)
  }

  datatype BitOp = And | Or | Xor

  function ApplyBit(op: BitOp, a: bool, b: bool): bool
  {
    match op
    case And => a && b
    case Or => a || b
    case Xor => a != b
  }

  /** C's `&`, `|` and `^` on the low `n` bits of two values. */
  function Bitwise(op: BitOp, a: nat, b: nat, n: nat): (r: nat)
    ensures r < Pow2(n)
  {
    if n == 0 then 0
    else (if ApplyBit(op, a % 2 == 1, b % 2 == 1) then 1 else 0) + 2 * Bitwise(op, a / 2, b / 2, n - 1)
  }

  /** Each bit of the result is the operation on the operands' bits, and
      the result has no bits at or above the width. */
  lemma {:induction false} BitwiseBit(op: BitOp, a: nat, b: nat, n: nat, k: nat)
    ensures k < n ==> (Bit(Bitwise(op, a, b, n), k) <==> ApplyBit(op, Bit(a, k), Bit(b, k)))
    ensures k >= n ==> !Bit(Bitwise(op, a, b, n), k)
  {
    var r := Bitwise(op, a, b, n);
    if n == 0 {
      BitZero(k);
    } else {
      var c := if ApplyBit(op, a % 2 == 1, b % 2 == 1) then 1 else 0;
      var rest := Bitwise(op, a / 2, b / 2, n - 1);
      assert r == c + 2 * rest;
      assert r % 2 == c && r / 2 == rest;
      if k > 0 {
        BitwiseBit(op, a / 2, b / 2, n - 1, k - 1);
      }
    }
  }

  lemma {:induction false} BitZero(k: nat)
    ensures !Bit(0, k)
  {
    if k > 0 {
      BitZero(k - 1);
    }
  }

  /** A value of `n` bits is 0 exactly when none of its bits is set. */
  lemma {:induction false} ZeroIffNoBit(x: nat, n: nat)
    requires x < Pow2(n)
    ensures x == 0 ==> forall k :: 0 <= k < n ==> !Bit(x, k)
    ensures x != 0 ==> exists k :: 0 <= k < n && Bit(x, k)
  {
    if x == 0 {
      forall k | 0 <= k < n ensures !Bit(x, k) {
        BitZero(k);
      }
    } else if x % 2 == 1 {
      assert 0 < n && Bit(x, 0);
    } else {
      assert x / 2 != 0 && x / 2 < Pow2(n - 1);
      ZeroIffNoBit(x / 2, n - 1);
      var k :| 0 <= k < n - 1 && Bit(x / 2, k);
      assert Bit(x, k + 1);
    }
  }

  /** Two values of `n` bits with the same bits are equal. */
  lemma {:induction false} BitsEqual(x: nat, y: nat, n: nat)
    requires x < Pow2(n) && y < Pow2(n)
    requires forall k :: 0 <= k < n ==> (Bit(x, k) <==> Bit(y, k))
    ensures x == y
  {
    if n > 0 {
      assert Bit(x, 0) <==> Bit(y, 0);
      forall k | 0 <= k < n - 1 ensures Bit(x / 2, k) <==> Bit(y / 2, k) {
        assert Bit(x, k + 1) <==> Bit(y, k + 1);
      }
      BitsEqual(x / 2, y / 2, n - 1);
    }
  }

  /** Bits at or above `k` of a value below 2^k are clear. */
  lemma {:induction false} SmallNoHighBit(x: nat, n: nat, k: nat)
    requires x < Pow2(n) && n <= k
    ensures !Bit(x, k)
  {
    if n == 0 {
      assert x == 0;
      BitZero(k);
    } else {
      SmallNoHighBit(x / 2, n - 1, k - 1);
    }
  }

  /** For a value below 2^(n+1), bit `n` is set exactly when the value is
      at least 2^n. */
  lemma {:induction false} TopBit(x: nat, n: nat)
    requires x < Pow2(n + 1)
    ensures Bit(x, n) <==> x >= Pow2(n)
  {
    if n > 0 {
      TopBit(x / 2, n - 1);
    }
  }

  /** Reducing modulo 2^n keeps the low `n` bits and clears the rest. */
  lemma {:induction false} ModPow2Bit(x: nat, n: nat, k: nat)
    ensures k < n ==> (Bit(x % Pow2(n), k) <==> Bit(x, k))
    ensures k >= n ==> !Bit(x % Pow2(n), k)
  {
    var m := x % Pow2(n);
    if k >= n {
      SmallNoHighBit(m, n, k);
    } else {
      var p := Pow2(n - 1);
      var q, r := x / (2 * p), x % (2 * p);
      assert x == q * (2 * p) + r;
      assert m == r;
      var r2 := r / 2;
      assert r % 2 == x % 2 by {
        assert x == 2 * (q * p + r2) + r % 2;
        Arith.DivModUnique(q * p + r2, r % 2, 2);
      }
      if k > 0 {
        assert r2 < p;
        assert x / 2 == q * p + r2 by {
          assert x == 2 * (q * p + r2) + r % 2;
          Arith.DivModUnique(q * p + r2, r % 2, 2);
        }
        Arith.DivModUnique(q, r2, p);
        assert (x / 2) % p == r2;
        ModPow2Bit(x / 2, n - 1, k - 1);
      }
    }
  }

  /** Every bit below `n` of 2^n - 1 is set. */
  lemma {:induction false} AllOnesBit(n: nat, k: nat)
    requires k < n
    ensures Bit(Pow2(n) - 1, k)
  {
    var m := Pow2(n) - 1;
    assert Pow2(n) == 2 * Pow2(n - 1);
    assert m % 2 == 1 && m / 2 == Pow2(n - 1) - 1;
    if k > 0 {
      AllOnesBit(n - 1, k - 1);
    }
  }

  /** A byte has 2^8 values. */
  lemma Pow2Byte()
    ensures Pow2(8) == 0x100
  {
  }

  /** Every bit of the byte 0xFF is set. */
  lemma ByteOnes(k: nat)
    requires k < 8
    ensures Bit(0xFF, k)
  {
    Pow2Byte();
    AllOnesBit(8, k);
  }

  lemma {:induction false} Pow2Add(a: nat, b: nat)
    ensures Pow2(a + b) == Pow2(a) * Pow2(b)
  {
    if a > 0 {
      Pow2Add(a - 1, b);
    }
  }
}
