/** The fixed difficulty bound, against the compact thresholds of sections 7.7.2 and 7.7.4 of
    the Zcash Protocol Specification. */
module Difficulty {
  import opened Bytes

  /** 2^243 for Mainnet, 2^251 for Testnet. */
  function FixedTarget(testnet: bool): nat
  {
    if testnet then 0x8 * Pow256(31) else 0x8 * Pow256(30)
  }

  /** Section 5.3: the largest threshold consensus allows. */
  function PoWLimit(testnet: bool): nat
  {
    FixedTarget(testnet) - 1
  }

  // ---- nBits conversion (section 7.7.4) ----

  /** x times 256^k. */
  function Left(x: nat, k: nat): nat
  {
    if k == 0 then x else 256 * Left(x, k - 1)
  }

  /** x divided by 256^k, rounded down. */
  function Right(x: nat, k: nat): nat
  {
    if k == 0 then x else Right(x / 256, k - 1)
  }

  /** The number of bytes of x. */
  function Size(x: nat): nat
  {
    if x == 0 then 0 else 1 + Size(x / 256)
  }

  function Mantissa(x: nat): nat
  {
    if Size(x) <= 3 then Left(x, 3 - Size(x)) else Right(x, Size(x) - 3)
  }

  function ToCompact(x: nat): nat
  {
    if Mantissa(x) < 0x80_0000
    then Mantissa(x) + 0x100_0000 * Size(x)
    else Mantissa(x) / 256 + 0x100_0000 * (Size(x) + 1)
  }

  function ToTarget(nBits: nat): nat
  {
    var exponent, mantissa := nBits / 0x100_0000, nBits % 0x80_0000;
    if (nBits / 0x80_0000) % 2 == 1 then 0
    else if exponent >= 3 then Left(mantissa, exponent - 3)
    else Right(mantissa, 3 - exponent)
  }

  // ---- Rounding ----

  lemma {:induction false} RightLeft(x: nat, k: nat)
    ensures Right(Left(x, k), k) == x
  {
    if k > 0 {
      RightLeft(x, k - 1);
    }
  }

  lemma {:induction false} LeftRight(x: nat, k: nat)
    ensures Left(Right(x, k), k) <= x < Left(Right(x, k) + 1, k)
  {
    if k > 0 {
      LeftRight(x / 256, k - 1);
    }
  }

  lemma {:induction false} LeftLinear(a: nat, b: nat, k: nat)
    ensures Left(a + b, k) == Left(a, k) + Left(b, k)
  {
    if k > 0 {
      LeftLinear(a, b, k - 1);
    }
  }

  lemma {:induction false} LeftMonotone(a: nat, b: nat, k: nat)
    requires a <= b
    ensures Left(a, k) <= Left(b, k)
  {
    if k > 0 {
      LeftMonotone(a, b, k - 1);
    }
  }

  lemma {:induction false} LeftCarry(x: nat, k: nat)
    ensures Left(256 * x, k) == Left(x, k + 1)
  {
    if k > 0 {
      LeftCarry(x, k - 1);
    }
  }

  lemma {:induction false} MantissaBound(x: nat)
    ensures Mantissa(x) < 0x100_0000
    decreases x
  {
    if Size(x) > 3 {
      MantissaBound(x / 256);
      assert Right(x, Size(x) - 3) == Right(x / 256, Size(x / 256) - 3);
    } else {
      SmallMantissa(x);
    }
  }

  lemma {:induction false} SmallMantissa(x: nat)
    requires Size(x) <= 3
    ensures x < 0x100_0000 && Mantissa(x) < 0x100_0000
    ensures Mantissa(x) == if Size(x) == 3 then x else if Size(x) == 2 then 256 * x
                           else if Size(x) == 1 then 0x1_0000 * x else 0
  {
    assert Size(x / 256) <= 2;
    assert Size(x / 256 / 256) <= 1;
    assert Size(x / 256 / 256 / 256) == 0;
    assert Left(x, 1) == 256 * x && Left(x, 2) == 256 * Left(x, 1) && Left(x, 3) == 256 * Left(x, 2);
    assert Size(x) == 2 ==> Size(x / 256 / 256) == 0;
    assert Size(x) == 1 ==> Size(x / 256) == 0;
  }

  /** Decoding what ToCompact assembles gives back its two fields. */
  lemma CompactFields(mantissa: nat, size: nat)
    requires mantissa < 0x80_0000
    ensures var nBits := mantissa + 0x100_0000 * size;
            nBits / 0x100_0000 == size && nBits % 0x80_0000 == mantissa && (nBits / 0x80_0000) % 2 == 0
  {
    var nBits := mantissa + 0x100_0000 * size;
    assert nBits / 0x80_0000 == 2 * size;
  }

  /** Dropping the lowest byte of a mantissa and shifting one byte further. */
  lemma CutMantissa(m: nat, k: nat)
    ensures Left(m / 256, k + 1) <= Left(m, k)
    ensures Left(m + 1, k) <= Left(m / 256, k + 1) + Left(1, k + 1)
  {
    LeftCarry(m / 256, k);
    LeftCarry(m / 256 + 1, k);
    LeftMonotone(256 * (m / 256), m, k);
    LeftMonotone(m + 1, 256 * (m / 256 + 1), k);
    LeftLinear(m / 256, 1, k + 1);
  }

  lemma {:induction false} TargetOfCompact(x: nat)
    requires Size(x) >= 3
    ensures ToTarget(ToCompact(x))
         == if Mantissa(x) < 0x80_0000 then Left(Mantissa(x), Size(x) - 3)
            else Left(Mantissa(x) / 256, Size(x) - 2)
  {
    MantissaBound(x);
    hide Left, Right, Size, Mantissa;
    if Mantissa(x) < 0x80_0000 {
      CompactFields(Mantissa(x), Size(x));
    } else {
      CompactFields(Mantissa(x) / 256, Size(x) + 1);
    }
  }

  lemma {:induction false} TargetNearMantissa(x: nat)
    requires Size(x) >= 3
    ensures ToTarget(ToCompact(x)) <= Left(Mantissa(x), Size(x) - 3)
    ensures Left(Mantissa(x) + 1, Size(x) - 3) <= ToTarget(ToCompact(x)) + Left(1, Size(x) - 2)
  {
    var m, k := Mantissa(x), Size(x) - 3;
    TargetOfCompact(x);
    assert Left(1, k + 1) == 256 * Left(1, k);
    hide ToTarget, ToCompact, Mantissa, Size, Left;
    if m < 0x80_0000 {
      LeftLinear(m, 1, k);
    } else {
      CutMantissa(m, k);
    }
  }

  lemma {:induction false} LargeRoundTrip(x: nat)
    requires Size(x) >= 3
    ensures ToTarget(ToCompact(x)) <= x < ToTarget(ToCompact(x)) + Left(1, Size(x) - 2)
  {
    assert Mantissa(x) == Right(x, Size(x) - 3);
    hide ToTarget, ToCompact, Mantissa, Size, Left, Right;
    TargetNearMantissa(x);
    LeftRight(x, Size(x) - 3);
  }

  lemma {:induction false} SmallRoundTrip(x: nat)
    requires Size(x) < 3
    ensures ToTarget(ToCompact(x)) == x
  {
    var m, s := Mantissa(x), Size(x);
    SmallMantissa(x);
    if m < 0x80_0000 {
      CompactFields(m, s);
      RightLeft(x, 3 - s);
    } else {
      CompactFields(m / 256, s + 1);
      RightLeft(x, 2 - s);
    }
  }

  /** A round trip through the compact form only rounds down, by less than one unit of its
      three-byte mantissa; a number of at most two bytes comes back unchanged. */
  lemma {:induction false} CompactRoundsDown(x: nat)
    ensures ToTarget(ToCompact(x)) <= x
    ensures if Size(x) >= 3 then x < ToTarget(ToCompact(x)) + Left(1, Size(x) - 2) else ToTarget(ToCompact(x)) == x
  {
    hide ToTarget, ToCompact, Size, Left;
    if Size(x) < 3 {
      SmallRoundTrip(x);
    } else {
      LargeRoundTrip(x);
    }
  }
}
