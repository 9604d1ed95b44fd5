/** Byte strings, little-endian integers and concatenation of byte strings. */
module Bytes {

  type byte = b: int | 0 <= b < 256

  const U32_LIMIT: nat := 0x1_0000_0000
  const U64_LIMIT: nat := 0x1_0000_0000_0000_0000

  function Pow256(n: nat): (r: nat)
    ensures r > 0
  {
    if n == 0 then 1 else 256 * Pow256(n - 1)
  }

  /** The value of a little-endian byte string. */
  function LittleEndian(s: seq<byte>): (r: nat)
  {
    if s == [] then 0 else s[0] + 256 * LittleEndian(s[1..])
  }

  function Encode(x: nat, width: nat): (s: seq<byte>)
    ensures |s| == width
  {
    if width == 0 then [] else [x % 256] + Encode(x / 256, width - 1)
  }

  /** Encoding and decoding are inverse on the values that fit the width. */
  lemma {:induction false} EncodeDecode(x: nat, width: nat)
    requires x < Pow256(width)
    ensures LittleEndian(Encode(x, width)) == x
  {
    if width > 0 {
      EncodeDecode(x / 256, width - 1);
      assert Encode(x, width)[1..] == Encode(x / 256, width - 1);
    }
  }

  lemma DigitSplit(digit: byte, rest: nat)
    ensures (digit + 256 * rest) % 256 == digit && (digit + 256 * rest) / 256 == rest
  {
  }

  lemma {:induction false} DecodeEncode(s: seq<byte>)
    ensures Encode(LittleEndian(s), |s|) == s
  {
    if s != [] {
      DecodeEncode(s[1..]);
      DigitSplit(s[0], LittleEndian(s[1..]));
      assert Encode(LittleEndian(s), |s|) == [s[0]] + Encode(LittleEndian(s[1..]), |s| - 1);
      assert [s[0]] + s[1..] == s;
    }
  }

  /** Byte i counts 256^i. */
  lemma {:induction false} LittleEndianDigit(s: seq<byte>, i: nat)
    requires i < |s|
    ensures LittleEndian(s) == LittleEndian(s[..i]) + Pow256(i) * (s[i] + 256 * LittleEndian(s[i + 1..]))
    decreases i
  {
    if i == 0 {
      assert s[..0] == [];
    } else {
      LittleEndianDigit(s[1..], i - 1);
      assert s[1..][..i - 1] == s[..i][1..] && s[1..][i..] == s[i + 1..];
      Scaled(LittleEndian(s[1..][..i - 1]), Pow256(i - 1), s[i] + 256 * LittleEndian(s[i + 1..]));
    }
  }

  lemma Scaled(a: nat, p: nat, b: nat)
    ensures 256 * (a + p * b) == 256 * a + (256 * p) * b
  {
  }

  lemma {:induction false} LittleEndianBound(s: seq<byte>)
    ensures LittleEndian(s) < Pow256(|s|)
  {
    if s != [] {
      LittleEndianBound(s[1..]);
    }
  }

  lemma Pow256Four()
    ensures Pow256(4) == U32_LIMIT
  {
    assert Pow256(1) == 256 && Pow256(2) == 0x1_0000 && Pow256(3) == 0x100_0000;
  }

  function EncodeU32(x: nat): (s: seq<byte>)
    requires x < U32_LIMIT
    ensures |s| == 4 && LittleEndian(s) == x
  {
    Pow256Four();
    EncodeDecode(x, 4);
    Encode(x, 4)
  }

  function Concat(parts: seq<seq<byte>>): (r: seq<byte>)
  {
    if parts == [] then [] else parts[0] + Concat(parts[1..])
  }

  lemma {:induction false} ConcatSplit(a: seq<seq<byte>>, b: seq<seq<byte>>)
    ensures Concat(a + b) == Concat(a) + Concat(b)
  {
    if a == [] {
      assert a + b == b;
    } else {
      assert (a + b)[1..] == a[1..] + b;
      ConcatSplit(a[1..], b);
    }
  }

  /** The i-th part lies in the concatenation right after the parts before it. */
  lemma ConcatSlice(parts: seq<seq<byte>>, i: nat)
    requires i < |parts|
    ensures Concat(parts[..i + 1]) == Concat(parts[..i]) + parts[i]
    ensures |Concat(parts[..i + 1])| <= |Concat(parts)|
    ensures Concat(parts)[|Concat(parts[..i])|..|Concat(parts[..i + 1])|] == parts[i]
  {
    assert parts[..i + 1] == parts[..i] + [parts[i]];
    ConcatSplit(parts[..i], [parts[i]]);
    assert Concat([parts[i]]) == parts[i];
    assert parts == parts[..i + 1] + parts[i + 1..];
    ConcatSplit(parts[..i + 1], parts[i + 1..]);
  }

  lemma {:induction false} ConcatPrefix(parts: seq<seq<byte>>, i: nat)
    requires i <= |parts|
    ensures |Concat(parts[..i])| <= |Concat(parts)|
    ensures Concat(parts)[..|Concat(parts[..i])|] == Concat(parts[..i])
  {
    assert parts == parts[..i] + parts[i..];
    ConcatSplit(parts[..i], parts[i..]);
  }
}

module Options {
  datatype Option<+T> = None | Some(value: T)
}
