/** The sliding replay window of the secure channel: 64 bits of history behind the
    highest accepted sequence number (the scheme of section 3.4.3 of RFC 4303).
    Go's uint64 values are naturals below 2^64 here, and the machine operations on
    the bitmap are written out as what they do to such a natural. */
module ReplayWindows {

  const WINDOW_SIZE: nat := 64
  const TWO63: nat := 0x8000_0000_0000_0000
  const TWO64: nat := 0x1_0000_0000_0000_0000

  type uint64 = x: int | 0 <= x < TWO64

  function Pow2(n: nat): (p: nat)
    ensures p > 0
  {
    if n == 0 then 1 else 2 * Pow2(n - 1)
  }

  /** Bit `n` of `b`. */
  predicate Bit(b: nat, n: nat)
  {
    if n == 0 then b % 2 == 1 else Bit(b / 2, n - 1)
  }

  /** `b << 1` on 64 bits: the top bit is shifted out. */
  function Double(b: uint64): uint64
  {
    if b >= TWO63 then 2 * b - TWO64 else 2 * b
  }

  /** `b << n` on 64 bits. */
  function ShiftLeft(b: uint64, n: nat): uint64
  {
    if n == 0 then b else Double(ShiftLeft(b, n - 1))
  }

  /** `b | (1 << n)` on 64 bits. */
  function SetBit(b: uint64, n: nat): (r: uint64)
    requires n < WINDOW_SIZE
  {
    if Bit(b, n) then b
    else
      Pow2Of64();
      BelowPow2(b, n, 64);
      b + Pow2(n)
  }

  lemma Pow2Of64()
    ensures Pow2(64) == TWO64 && Pow2(63) == TWO63
  {
    assert Pow2(8) == 0x100;
    assert Pow2(16) == 0x1_0000;
    assert Pow2(24) == 0x100_0000;
    assert Pow2(32) == 0x1_0000_0000;
    assert Pow2(40) == 0x100_0000_0000;
    assert Pow2(48) == 0x1_0000_0000_0000;
    assert Pow2(56) == 0x100_0000_0000_0000;
  }

  lemma {:induction false} BelowPow2(b: nat, n: nat, k: nat)
    requires n < k && b < Pow2(k) && !Bit(b, n)
    ensures b + Pow2(n) < Pow2(k)
  {
    var half := Pow2(k - 1);
    assert Pow2(k) == 2 * half;
    if n == 0 {
      assert b == 2 * (b / 2);
    } else {
      BelowPow2(b / 2, n - 1, k - 1);
      assert b / 2 + Pow2(n - 1) < half && Pow2(n) == 2 * Pow2(n - 1);
    }
  }

  /** Adding 2^k leaves the bits below k alone. */
  lemma {:induction false} AddHigh(b: nat, k: nat, n: nat)
    requires n < k
    ensures Bit(b + Pow2(k), n) == Bit(b, n)
  {
    assert (b + Pow2(k)) / 2 == b / 2 + Pow2(k - 1);
    if n > 0 {
      AddHigh(b / 2, k - 1, n - 1);
    }
  }

  lemma {:induction false} DoubleBit(b: uint64, n: nat)
    requires n < WINDOW_SIZE
    ensures Bit(Double(b), n) <==> n > 0 && Bit(b, n - 1)
  {
    if n > 0 && b >= TWO63 {
      Pow2Of64();
      AddHigh(b - TWO63, 63, n - 1);
      assert Double(b) / 2 == b - TWO63;
    }
  }

  /** A left shift moves every bit up and brings in zeros. */
  lemma {:induction false} ShiftLeftBit(b: uint64, s: nat, n: nat)
    requires n < WINDOW_SIZE
    ensures Bit(ShiftLeft(b, s), n) <==> n >= s && Bit(b, n - s)
  {
    if s > 0 {
      DoubleBit(ShiftLeft(b, s - 1), n);
      if n > 0 {
        ShiftLeftBit(b, s - 1, n - 1);
      }
    }
  }

  lemma DoubleProduct(b: nat, p: nat)
    ensures b * (2 * p) == 2 * (b * p)
  {
  }

  /** The shift is multiplication by 2^s modulo 2^64: what is lost is a multiple of 2^64. */
  lemma {:induction false} ShiftLeftValue(b: uint64, s: nat) returns (lost: nat)
    ensures b * Pow2(s) == ShiftLeft(b, s) + lost * TWO64
  {
    if s == 0 {
      lost := 0;
    } else {
      var lost' := ShiftLeftValue(b, s - 1);
      DoubleProduct(b, Pow2(s - 1));
      lost := 2 * lost' + if ShiftLeft(b, s - 1) >= TWO63 then 1 else 0;
    }
  }

  /** Setting a bit sets that bit and no other. */
  lemma {:induction false} AddBit(b: nat, e: nat, n: nat)
    requires !Bit(b, e)
    ensures Bit(b + Pow2(e), n) <==> n == e || Bit(b, n)
  {
    if e == 0 {
      assert (b + 1) / 2 == b / 2;
    } else {
      assert (b + Pow2(e)) / 2 == b / 2 + Pow2(e - 1);
      if n > 0 {
        AddBit(b / 2, e - 1, n - 1);
      }
    }
  }

  lemma SetBitBit(b: uint64, e: nat, n: nat)
    requires e < WINDOW_SIZE
    ensures Bit(SetBit(b, e), n) <==> n == e || Bit(b, n)
  {
    if !Bit(b, e) {
      AddBit(b, e, n);
    }
  }

  lemma {:induction false} ZeroBit(n: nat)
    ensures !Bit(0, n)
  {
    if n > 0 {
      ZeroBit(n - 1);
    }
  }

  /** What the window must decide, given the numbers accepted so far: a number is
      admissible when it is non-zero, new, and above or within 63 of each of them. */
  ghost predicate Admissible(accepted: set<uint64>, s: uint64)
  {
    && s != 0
    && s !in accepted
    && forall a <- accepted :: a < s + WINDOW_SIZE
  }

  class ReplayWindow {
    var maxSeq: uint64
    var bitmap: uint64
    /** Every number accepted so far. */
    ghost var accepted: set<uint64>

    /** Bit `d` of the bitmap says whether `maxSeq - d` was accepted. */
    ghost predicate Valid()
      reads this
    {
      && (forall a <- accepted :: 0 < a <= maxSeq)
      && (maxSeq != 0 ==> maxSeq in accepted)
      && forall d: nat | d < WINDOW_SIZE :: Bit(bitmap, d) <==> d <= maxSeq && maxSeq - d in accepted
    }

    constructor ()
      ensures Valid() && accepted == {}
    {
      maxSeq, bitmap, accepted := 0, 0, {};
      new;
      forall d: nat | d < WINDOW_SIZE ensures !Bit(bitmap, d) {
        ZeroBit(d);
      }
    }

    method Check(s: uint64) returns (ok: bool)
      requires Valid()
      modifies this
      ensures Valid()
      ensures ok <==> Admissible(old(accepted), s)
      ensures accepted == if ok then old(accepted) + {s} else old(accepted)
    {
      if s == 0 {
        return false;
      }
      if s > maxSeq {
        var shift := s - maxSeq;
        ghost var before := bitmap;
        if shift >= WINDOW_SIZE {
          bitmap := 0;
          forall d: nat | d < WINDOW_SIZE ensures !Bit(bitmap, d) {
            ZeroBit(d);
          }
        } else {
          bitmap := ShiftLeft(bitmap, shift);
          forall d: nat | d < WINDOW_SIZE ensures Bit(bitmap, d) <==> d >= shift && Bit(before, d - shift) {
            ShiftLeftBit(before, shift, d);
          }
        }
        ghost var shifted := bitmap;
        maxSeq := s;
        bitmap := SetBit(bitmap, 0);
        forall d: nat | d < WINDOW_SIZE ensures Bit(bitmap, d) <==> d == 0 || Bit(shifted, d) {
          SetBitBit(shifted, 0, d);
        }
        accepted := accepted + {s};
        return true;
      }
      var diff := maxSeq - s;
      if diff >= WINDOW_SIZE {
        return false;
      }
      if Bit(bitmap, diff) {
        return false;
      }
      ghost var before := bitmap;
      bitmap := SetBit(bitmap, diff);
      forall d: nat | d < WINDOW_SIZE ensures Bit(bitmap, d) <==> d == diff || Bit(before, d) {
        SetBitBit(before, diff, d);
      }
      accepted := accepted + {s};
      return true;
    }
  }

  /** The numbers accepted after the calls `calls`, in order, on a fresh window. */
  ghost function AcceptedAfter(calls: seq<uint64>): set<uint64>
  {
    if calls == [] then {}
    else
      var before := AcceptedAfter(calls[..|calls| - 1]);
      var s := calls[|calls| - 1];
      if Admissible(before, s) then before + {s} else before
  }

  /** Call `k` of a run is accepted. */
  ghost predicate AcceptedAt(calls: seq<uint64>, k: nat)
    requires k < |calls|
  {
    Admissible(AcceptedAfter(calls[..k]), calls[k])
  }

  /** A number is in the accepted set exactly when some earlier call was accepted with it. */
  lemma {:induction false} AcceptedBefore(calls: seq<uint64>, k: nat, s: uint64)
    requires k <= |calls|
    ensures s in AcceptedAfter(calls[..k]) <==> exists j: nat :: j < k && calls[j] == s && AcceptedAt(calls, j)
  {
    if k > 0 {
      assert calls[..k][..k - 1] == calls[..k - 1];
      AcceptedBefore(calls, k - 1, s);
      if s in AcceptedAfter(calls[..k]) && s !in AcceptedAfter(calls[..k - 1]) {
        assert calls[k - 1] == s && AcceptedAt(calls, k - 1);
      }
      if j: nat :| j < k && calls[j] == s && AcceptedAt(calls, j) {
        if j < k - 1 {
          assert s in AcceptedAfter(calls[..k - 1]);
        }
      }
    }
  }

  /** Over any run of calls: call `k` is accepted exactly when its number is non-zero,
      no earlier call was accepted with that number, and the number is above or
      within 63 of every number accepted earlier. */
  lemma ReplayExactly(calls: seq<uint64>, k: nat)
    requires k < |calls|
    ensures AcceptedAt(calls, k) <==>
              && calls[k] != 0
              && forall j: nat :: j < k && AcceptedAt(calls, j) ==>
                                    calls[j] != calls[k] && calls[j] < calls[k] + WINDOW_SIZE
  {
    var before := AcceptedAfter(calls[..k]);
    forall s: uint64
      ensures s in before <==> exists j: nat :: j < k && calls[j] == s && AcceptedAt(calls, j)
    {
      AcceptedBefore(calls, k, s);
    }
    forall j: nat | j < k && AcceptedAt(calls, j)
      ensures calls[j] in before
    {
    }
  }
}
