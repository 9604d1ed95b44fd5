/** The contract functionality: a lottery without branches on the winner. */
module Functionality {
  import opened Bytes
  import opened Options

  // ---- Memory: bytes and integers ----

  type Memory = seq<bv8>

  function Bit(set_: bool, weight: bv8): bv8
  {
    if set_ then weight else 0
  }

  function Pack(b0: bool, b1: bool, b2: bool, b3: bool, b4: bool, b5: bool, b6: bool, b7: bool): bv8
  {
    Bit(b0, 1) | Bit(b1, 2) | Bit(b2, 4) | Bit(b3, 8) | Bit(b4, 16) | Bit(b5, 32) | Bit(b6, 64) | Bit(b7, 128)
  }

  predicate Odd(x: nat)
  {
    x % 2 == 1
  }

  function Half(x: nat): nat
  {
    x / 2
  }

  /** A number below 256 as a byte, bit by bit. */
  function ToByte(x: nat): bv8
  {
    var x1, x2, x3 := Half(x), Half(Half(x)), Half(Half(Half(x)));
    var x4, x5, x6, x7 := Half(x3), Half(Half(x3)), Half(Half(Half(x3))), Half(Half(Half(Half(x3))));
    Pack(Odd(x), Odd(x1), Odd(x2), Odd(x3), Odd(x4), Odd(x5), Odd(x6), Odd(x7))
  }

  function Digit(set_: bool): nat
  {
    if set_ then 1 else 0
  }

  function Number(b0: bool, b1: bool, b2: bool, b3: bool, b4: bool, b5: bool, b6: bool, b7: bool): nat
  {
    Digit(b0) + 2 * Digit(b1) + 4 * Digit(b2) + 8 * Digit(b3)
    + 16 * Digit(b4) + 32 * Digit(b5) + 64 * Digit(b6) + 128 * Digit(b7)
  }

  function FromByte(b: bv8): nat
  {
    Number(b & 1 != 0, b & 2 != 0, b & 4 != 0, b & 8 != 0, b & 16 != 0, b & 32 != 0, b & 64 != 0, b & 128 != 0)
  }

  lemma PackedBits(b0: bool, b1: bool, b2: bool, b3: bool, b4: bool, b5: bool, b6: bool, b7: bool)
    ensures var b := Pack(b0, b1, b2, b3, b4, b5, b6, b7);
            && (b & 1 != 0 <==> b0) && (b & 2 != 0 <==> b1) && (b & 4 != 0 <==> b2) && (b & 8 != 0 <==> b3)
            && (b & 16 != 0 <==> b4) && (b & 32 != 0 <==> b5) && (b & 64 != 0 <==> b6) && (b & 128 != 0 <==> b7)
  {
  }

  lemma UnpackedBits(b0: bool, b1: bool, b2: bool, b3: bool, b4: bool, b5: bool, b6: bool, b7: bool)
    ensures FromByte(Pack(b0, b1, b2, b3, b4, b5, b6, b7)) == Number(b0, b1, b2, b3, b4, b5, b6, b7)
  {
    PackedBits(b0, b1, b2, b3, b4, b5, b6, b7);
    hide Pack, Number;
  }

  lemma LowDigit(x: nat)
    ensures x == Digit(Odd(x)) + 2 * Half(x)
  {
  }

  lemma BinaryDigits(x: nat, x1: nat, x2: nat, x3: nat, x4: nat, x5: nat, x6: nat, x7: nat)
    requires x < 256 && x1 == Half(x) && x2 == Half(x1) && x3 == Half(x2)
    requires x4 == Half(x3) && x5 == Half(x4) && x6 == Half(x5) && x7 == Half(x6)
    ensures Number(Odd(x), Odd(x1), Odd(x2), Odd(x3), Odd(x4), Odd(x5), Odd(x6), Odd(x7)) == x
  {
    assert x7 < 2;
    LowDigit(x);
    LowDigit(x1);
    LowDigit(x2);
    LowDigit(x3);
    LowDigit(x4);
    LowDigit(x5);
    LowDigit(x6);
    LowDigit(x7);
    hide Half, Odd;
  }

  lemma ByteValue(x: nat)
    requires x < 256
    ensures FromByte(ToByte(x)) == x
  {
    hide FromByte, Number, Pack, Odd, Half;
    var x1, x2, x3 := Half(x), Half(Half(x)), Half(Half(Half(x)));
    var x4, x5, x6, x7 := Half(x3), Half(Half(x3)), Half(Half(Half(x3))), Half(Half(Half(Half(x3))));
    BinaryDigits(x, x1, x2, x3, x4, x5, x6, x7);
    UnpackedBits(Odd(x), Odd(x1), Odd(x2), Odd(x3), Odd(x4), Odd(x5), Odd(x6), Odd(x7));
  }

  /** The bytes of an unsigned integer, lowest first. */
  function Store(x: nat, width: nat): (r: Memory)
    ensures |r| == width
  {
    if width == 0 then [] else [ToByte(x % 256)] + Store(x / 256, width - 1)
  }

  function Load(bytes: Memory): nat
  {
    if bytes == [] then 0 else FromByte(bytes[0]) + 256 * Load(bytes[1..])
  }

  lemma {:induction false} LoadStore(x: nat, width: nat)
    requires x < Pow256(width)
    ensures Load(Store(x, width)) == x
  {
    if width > 0 {
      LoadStore(x / 256, width - 1);
      ByteValue(x % 256);
      assert Store(x, width)[1..] == Store(x / 256, width - 1);
    }
  }

  lemma {:induction false} LoadZeros(bytes: Memory)
    requires forall i :: 0 <= i < |bytes| ==> bytes[i] == 0
    ensures Load(bytes) == 0
  {
    if bytes != [] {
      LoadZeros(bytes[1..]);
    }
  }

  lemma Pow256Eight()
    ensures Pow256(4) == U32_LIMIT && Pow256(8) == U64_LIMIT
  {
    assert Pow256(1) == 256 && Pow256(2) == 0x1_0000 && Pow256(3) == 0x100_0000 && Pow256(4) == 0x1_0000_0000;
    assert Pow256(5) == 0x100_0000_0000 && Pow256(6) == 0x1_0000_0000_0000 && Pow256(7) == 0x100_0000_0000_0000;
  }

  // ---- Selecting without branching ----

  /** Four bytes as a 32-bit vector. */
  function Join(m: Memory): bv32
    requires |m| == 4
  {
    ((m[3] as bv32) << 24) | ((m[2] as bv32) << 16) | ((m[1] as bv32) << 8) | (m[0] as bv32)
  }

  /** A uint32_t as a bit vector. */
  function Bits(x: nat): bv32
  {
    Join(Store(x, 4))
  }

  lemma JoinIsInjective(a: bv8, b: bv8, c: bv8, d: bv8, a': bv8, b': bv8, c': bv8, d': bv8)
    requires ((a as bv32) << 24) | ((b as bv32) << 16) | ((c as bv32) << 8) | (d as bv32)
          == ((a' as bv32) << 24) | ((b' as bv32) << 16) | ((c' as bv32) << 8) | (d' as bv32)
    ensures a == a' && b == b' && c == c' && d == d'
  {
  }

  lemma JoinDeterminesBytes(m: Memory, m': Memory)
    requires |m| == |m'| == 4 && Join(m) == Join(m')
    ensures m == m'
  {
    JoinIsInjective(m[3], m[2], m[1], m[0], m'[3], m'[2], m'[1], m'[0]);
  }

  lemma BitsAreInjective(x: nat, y: nat)
    requires x < U32_LIMIT && y < U32_LIMIT
    ensures Bits(x) == Bits(y) ==> x == y
  {
    Pow256Eight();
    hide Store, Load, Join, Pow256;
    if Join(Store(x, 4)) == Join(Store(y, 4)) {
      JoinDeterminesBytes(Store(x, 4), Store(y, 4));
      LoadStore(x, 4);
      LoadStore(y, 4);
    }
  }

  /** The shift-or fold. */
  function MoveFlag(i: bv32, winner: bv32): bv32
  {
    Lowest(Or1(Or2(Or4(Or8(Or16(i ^ winner))))))
  }

  function Or16(m: bv32): bv32 { m | (m >> 16) }
  function Or8(m: bv32): bv32 { m | (m >> 8) }
  function Or4(m: bv32): bv32 { m | (m >> 4) }
  function Or2(m: bv32): bv32 { m | (m >> 2) }
  function Or1(m: bv32): bv32 { m | (m >> 1) }
  function Lowest(m: bv32): bv32 { (m ^ 1) & 1 }

  lemma Fold16(m: bv32)
    ensures Or16(m) & 0xFFFF == 0 <==> m == 0
  {
  }

  lemma Fold8(m: bv32)
    ensures Or8(m) & 0xFF == 0 <==> m & 0xFFFF == 0
  {
  }

  lemma Fold4(m: bv32)
    ensures Or4(m) & 0xF == 0 <==> m & 0xFF == 0
  {
  }

  lemma Fold2(m: bv32)
    ensures Or2(m) & 0x3 == 0 <==> m & 0xF == 0
  {
  }

  lemma Fold1(m: bv32)
    ensures Lowest(Or1(m)) == if m & 0x3 == 0 then 1 else 0
  {
  }

  lemma XorIsZero(i: bv32, winner: bv32)
    ensures i ^ winner == 0 <==> i == winner
  {
  }

  /** The fold is 1 for the winner and 0 for every other number. */
  lemma MoveFlagIsEquality(i: nat, winner: nat)
    requires i < U32_LIMIT && winner < U32_LIMIT
    ensures MoveFlag(Bits(i), Bits(winner)) == if i == winner then 1 else 0
  {
    BitsAreInjective(i, winner);
    hide Bits, Or16, Or8, Or4, Or2, Or1, Lowest;
    var m := Bits(i) ^ Bits(winner);
    XorIsZero(Bits(i), Bits(winner));
    Fold16(m);
    Fold8(Or16(m));
    Fold4(Or8(Or16(m)));
    Fold2(Or4(Or8(Or16(m))));
    Fold1(Or2(Or4(Or8(Or16(m)))));
  }

  lemma MaskedByte(x: bv8, y: bv8, move: bv32, mask: bv8)
    requires move <= 1 && mask == 0 - (move as bv8)
    ensures (x & mask) ^ (y & !mask) == if move == 1 then x else y
  {
  }

  /** The byte-wise masked move. */
  method ConditionalMove(out: array<bv8>, input: Memory, move: bv32)
    requires |input| == out.Length && move <= 1
    modifies out
    ensures out[..] == if move == 1 then input else old(out[..])
  {
    var mask: bv8 := 0 - (move as bv8);
    var rmask: bv8 := !mask;
    for i := 0 to out.Length
      invariant forall k :: 0 <= k < i ==> out[k] == if move == 1 then input[k] else old(out[k])
      invariant forall k :: i <= k < out.Length ==> out[k] == old(out[k])
    {
      MaskedByte(input[i], out[i], move, mask);
      out[i] := (input[i] & mask) ^ (out[i] & rmask);
    }
  }

  // ---- The lottery ----

  const ZAT := 8
  const WINNER_MESSAGE: Memory := [0x59, 0x4F, 0x55, 0x20, 0x57, 0x49, 0x4E, 0x21, 0x00]
  const LOSER_MESSAGE: Memory := [0x59, 0x4F, 0x55, 0x20, 0x4C, 0x4F, 0x53, 0x45, 0x00]

  function Sum(xs: seq<nat>): nat
  {
    if xs == [] then 0 else Sum(xs[..|xs| - 1]) + xs[|xs| - 1]
  }

  method SumDeposits(deposits: seq<nat>) returns (sum: nat)
    ensures sum == Sum(deposits) % U64_LIMIT
  {
    sum := 0;
    for i := 0 to |deposits|
      invariant sum == Sum(deposits[..i]) % U64_LIMIT
    {
      assert deposits[..i + 1][..i] == deposits[..i];
      sum := (sum + deposits[i]) % U64_LIMIT;
    }
    assert deposits[..|deposits|] == deposits;
  }

  /** Buffers of different players do not overlap. */
  ghost predicate Separate(buffers: seq<array<bv8>>)
  {
    forall i, j :: 0 <= i < j < |buffers| ==> buffers[i] != buffers[j]
  }

  /** Gives everyone nothing and the loser's text; memory[i] is whether the i-th allocation succeeds. */
  method Prepare(memory: seq<bool>, payouts: seq<array<bv8>>) returns (ok: bool, outputs: seq<array<bv8>>)
    requires |memory| == |payouts| && forall i :: 0 <= i < |payouts| ==> payouts[i].Length == ZAT
    modifies payouts
    ensures ok <==> forall i :: 0 <= i < |memory| ==> memory[i]
    ensures ok ==> forall i, k :: 0 <= i < |payouts| && 0 <= k < ZAT ==> payouts[i][k] == 0
    ensures ok ==> |outputs| == |payouts| && Separate(outputs)
    ensures forall i :: 0 <= i < |outputs| ==> fresh(outputs[i]) && outputs[i][..] == LOSER_MESSAGE
  {
    outputs := [];
    for i := 0 to |memory|
      invariant forall k :: 0 <= k < i ==> memory[k]
      invariant forall j, k :: 0 <= j < i && 0 <= k < ZAT ==> payouts[j][k] == 0
      invariant |outputs| == i && Separate(outputs)
      invariant forall k :: 0 <= k < i ==> fresh(outputs[k]) && outputs[k][..] == LOSER_MESSAGE
    {
      forall k | 0 <= k < ZAT {
        payouts[i][k] := 0;
      }
      if !memory[i] {
        return false, outputs;
      }
      var text := new bv8[|LOSER_MESSAGE|](k requires 0 <= k < |LOSER_MESSAGE| => LOSER_MESSAGE[k]);
      assert text[..] == LOSER_MESSAGE;
      outputs := outputs + [text];
    }
    return true, outputs;
  }

  /** The last loop: masked moves on the payout and on the text of every player. */
  method MoveAll(winner: nat, sum: Memory, payouts: seq<array<bv8>>, outputs: seq<array<bv8>>)
    requires winner < |payouts| == |outputs| < U32_LIMIT && |sum| == ZAT
    requires Separate(payouts) && Separate(outputs)
    requires forall i :: 0 <= i < |payouts| ==> payouts[i].Length == ZAT && outputs[i].Length == |WINNER_MESSAGE|
    modifies payouts, outputs
    ensures forall i :: 0 <= i < |payouts| ==> payouts[i][..] == if i == winner then sum else old(payouts[i][..])
    ensures forall i :: 0 <= i < |payouts| ==>
        outputs[i][..] == if i == winner then WINNER_MESSAGE else old(outputs[i][..])
  {
    for i := 0 to |payouts|
      invariant forall k :: 0 <= k < |payouts| ==>
          payouts[k][..] == if k == winner && k < i then sum else old(payouts[k][..])
      invariant forall k :: 0 <= k < |payouts| ==>
          outputs[k][..] == if k == winner && k < i then WINNER_MESSAGE else old(outputs[k][..])
    {
      var move := MoveFlag(Bits(i), Bits(winner));
      MoveFlagIsEquality(i, winner);
      ConditionalMove(payouts[i], sum, move);
      ConditionalMove(outputs[i], WINNER_MESSAGE, move);
    }
  }

  /** On success exactly the winner has the whole sum and the winner's text, everyone else has nothing
      and the loser's text. random is what sgx_read_rand returns. */
  method EvaluateFunctionality(deposits: seq<nat>, random: Option<nat>, memory: seq<bool>, payouts: seq<array<bv8>>)
    returns (ok: bool, outputs: seq<array<bv8>>)
    requires 0 < |payouts| < U32_LIMIT && |deposits| == |memory| == |payouts| && Separate(payouts)
    requires forall i :: 0 <= i < |payouts| ==> payouts[i].Length == ZAT
    modifies payouts
    ensures ok <==> random.Some? && forall i :: 0 <= i < |memory| ==> memory[i]
    ensures ok ==> forall i :: 0 <= i < |payouts| ==>
        Load(payouts[i][..]) == if i == random.value % |payouts| then Sum(deposits) % U64_LIMIT else 0
    ensures ok ==> |outputs| == |payouts| && forall i :: 0 <= i < |outputs| ==>
        outputs[i][..] == if i == random.value % |payouts| then WINNER_MESSAGE else LOSER_MESSAGE
  {
    if random.None? {
      return false, [];
    }
    var winner := random.value % |payouts|;
    var sum := SumDeposits(deposits);
    ok, outputs := Prepare(memory, payouts);
    if !ok {
      return;
    }
    Pow256Eight();
    LoadStore(sum, ZAT);
    forall i | 0 <= i < |payouts|
      ensures Load(payouts[i][..]) == 0
    {
      LoadZeros(payouts[i][..]);
    }
    MoveAll(winner, Store(sum, ZAT), payouts, outputs);
  }
}
