/** Verification of a stream of Zcash blocks built on a checkpoint: the length of a chain of
    headers, and how deep a transaction is buried. */
module Blocks {
  import opened Bytes
  import opened Merkle
  import opened Options
  import Difficulty

  const HEADER_LENGTH := 1487

  type Header = h: seq<byte> | |h| == HEADER_LENGTH witness seq(HEADER_LENGTH, _ => 0)

  /** The build-time choices, among them how many bytes the heap has for a list of transactions, and
      the two primitives that are not modelled. */
  datatype Network = Network(
    sha256d: HashFunction,
    equihash: (seq<byte>, seq<byte>, seq<byte>) -> bool,
    checkpoint: Hash,
    testnet: bool,
    heap: nat)

  // ---- One header ----

  function HashPrevBlock(block: Header): Hash
  {
    block[4..36]
  }

  function HashMerkleRoot(block: Header): Hash
  {
    block[36..68]
  }

  function HashThisBlock(net: Network, block: Header): Hash
  {
    net.sha256d(block)
  }

  predicate CorrectEquihashSolution(net: Network, block: Header)
  {
    net.equihash(block[..108], block[108..140], block[143..])
  }

  predicate PassesDifficultyFilter(net: Network, block: Header)
  {
    LittleEndian(HashThisBlock(net, block)) < Difficulty.FixedTarget(net.testnet)
  }

  // ---- The fields of a header ----

  /** A block header as section 7.6 of the Zcash Protocol Specification lays it out. */
  datatype Fields = Fields(
    version: seq<byte>, previous: Hash, merkleRoot: Hash, blockCommitments: seq<byte>, time: seq<byte>,
    bits: seq<byte>, nonce: seq<byte>, solutionSize: seq<byte>, solution: seq<byte>)

  predicate Sized(f: Fields)
  {
    && |f.version| == 4 && |f.blockCommitments| == 32 && |f.time| == 4 && |f.bits| == 4
    && |f.nonce| == 32 && |f.solutionSize| == 3 && |f.solution| == 1344
  }

  /** What the Equihash solution is for, besides the nonce. */
  function PowInput(f: Fields): seq<byte>
  {
    f.version + f.previous + f.merkleRoot + f.blockCommitments + f.time + f.bits
  }

  function WriteHeader(f: Fields): (h: Header)
    requires Sized(f)
  {
    PowInput(f) + f.nonce + f.solutionSize + f.solution
  }

  lemma WrittenFields(f: Fields)
    requires Sized(f)
    ensures var h := WriteHeader(f);
            && h[..108] == PowInput(f) && h[108..140] == f.nonce && h[143..] == f.solution
            && h[4..36] == f.previous && h[36..68] == f.merkleRoot
  {
    var h := WriteHeader(f);
    assert h[..108] == PowInput(f);
    assert h[4..36] == PowInput(f)[4..36] && h[36..68] == PowInput(f)[36..68];
  }

  /** Every 1487 bytes are a header of some fields. */
  lemma EveryHeaderHasFields(h: Header) returns (f: Fields)
    ensures Sized(f) && WriteHeader(f) == h
  {
    f := Fields(h[..4], h[4..36], h[36..68], h[68..100], h[100..104], h[104..108], h[108..140], h[140..143], h[143..]);
  }

  /** The most permissive bound on a digest, read as a little-endian number. */
  predicate BelowBound(testnet: bool, digest: Hash)
  {
    LittleEndian(digest) < if testnet then Pow2(251) else Pow2(243)
  }

  lemma {:induction false} Pow2Bytes(k: nat)
    ensures Pow2(8 * k) == Pow256(k)
  {
    if k > 0 {
      Pow2Bytes(k - 1);
      Pow2Eight(8 * (k - 1));
    }
  }

  lemma Pow2Eight(n: nat)
    ensures Pow2(n + 8) == 256 * Pow2(n)
  {
    assert Pow2(n + 4) == 16 * Pow2(n) by {
      assert Pow2(n + 2) == 4 * Pow2(n);
    }
    assert Pow2(n + 6) == 4 * Pow2(n + 4);
  }

  lemma BoundIsTarget(testnet: bool)
    ensures Difficulty.FixedTarget(testnet) == if testnet then Pow2(251) else Pow2(243)
  {
    Pow2Bytes(30);
    Pow2Bytes(31);
    assert Pow2(243) == 2 * Pow2(242) && Pow2(242) == 2 * Pow2(241) && Pow2(241) == 2 * Pow2(240);
    assert Pow2(251) == 2 * Pow2(250) && Pow2(250) == 2 * Pow2(249) && Pow2(249) == 2 * Pow2(248);
    hide Pow2, Pow256;
  }

  /** Header i solves Equihash, its digest is below the bound, and it names the digest of the one before it, or
      the checkpoint. */
  ghost predicate Proven(net: Network, fs: seq<Fields>, i: nat)
    requires i < |fs| && forall j :: 0 <= j < |fs| ==> Sized(fs[j])
  {
    && net.equihash(PowInput(fs[i]), fs[i].nonce, fs[i].solution)
    && BelowBound(net.testnet, net.sha256d(WriteHeader(fs[i])))
    && fs[i].previous == if i == 0 then net.checkpoint else net.sha256d(WriteHeader(fs[i - 1]))
  }

  /** Verification of one header, field by field. */
  lemma HeaderMeaning(net: Network, f: Fields, previous: Hash)
    requires Sized(f)
    ensures VerifyBlockHeader(net, WriteHeader(f), previous) ==
      (if && net.equihash(PowInput(f), f.nonce, f.solution)
          && BelowBound(net.testnet, net.sha256d(WriteHeader(f))) && f.previous == previous
       then Some(net.sha256d(WriteHeader(f))) else None)
    ensures HashMerkleRoot(WriteHeader(f)) == f.merkleRoot
  {
    WrittenFields(f);
    BoundIsTarget(net.testnet);
    hide WriteHeader, Pow2, Pow256, Difficulty.FixedTarget, PowInput;
  }

  /** Every header that meets the target its nBits encode, for a threshold consensus allows,
      passes the fixed bound. */
  lemma FilterIsComplete(net: Network, block: Header, threshold: nat)
    requires threshold <= (if net.testnet then Pow2(251) else Pow2(243)) - 1
    requires LittleEndian(HashThisBlock(net, block)) <= Difficulty.ToTarget(Difficulty.ToCompact(threshold))
    ensures PassesDifficultyFilter(net, block)
  {
    BoundIsTarget(net.testnet);
    Difficulty.CompactRoundsDown(threshold);
    hide Pow2, Difficulty.ToCompact, Difficulty.ToTarget, LittleEndian;
  }

  function VerifyBlockHeader(net: Network, block: Header, previousBlockHash: Hash): Option<Hash>
  {
    if CorrectEquihashSolution(net, block) && PassesDifficultyFilter(net, block)
       && HashPrevBlock(block) == previousBlockHash
    then Some(HashThisBlock(net, block))
    else None
  }

  // ---- A chain of headers ----

  /** The number of leading headers of a byte string that link up from a given hash. */
  function ChainFrom(net: Network, blocks: seq<byte>, previous: Hash): nat
    decreases |blocks|
  {
    if |blocks| < HEADER_LENGTH then 0
    else
      match VerifyBlockHeader(net, blocks[..HEADER_LENGTH], previous)
      case None => 0
      case Some(digest) => 1 + ChainFrom(net, blocks[HEADER_LENGTH..], digest)
  }

  function ChainLength(net: Network, blocks: seq<byte>): nat
  {
    ChainFrom(net, blocks, net.checkpoint)
  }

  method BlocksSinceCheckpoint(net: Network, blocks: seq<byte>) returns (count: nat)
    ensures count == ChainLength(net, blocks)
  {
    var previousBlockHash := net.checkpoint;
    var next := 0;
    count := 0;
    while next + HEADER_LENGTH <= |blocks|
      invariant next <= |blocks|
      invariant count + ChainFrom(net, blocks[next..], previousBlockHash) == ChainLength(net, blocks)
      decreases |blocks| - next
    {
      var block: Header := blocks[next..next + HEADER_LENGTH];
      ghost var rest := blocks[next..];
      assert rest[..HEADER_LENGTH] == block && rest[HEADER_LENGTH..] == blocks[next + HEADER_LENGTH..];
      match VerifyBlockHeader(net, block, previousBlockHash) {
        case None => return;
        case Some(digest) => previousBlockHash := digest;
      }
      count := count + 1;
      next := next + HEADER_LENGTH;
    }
  }

  function HeaderAt(blocks: seq<byte>, i: nat): Header
    requires HEADER_LENGTH * (i + 1) <= |blocks|
  {
    blocks[HEADER_LENGTH * i..HEADER_LENGTH * (i + 1)]
  }

  /** Header i carries proof of work and extends what comes before it. */
  ghost predicate LinkedAt(net: Network, blocks: seq<byte>, start: Hash, i: nat)
    requires HEADER_LENGTH * (i + 1) <= |blocks|
  {
    VerifyBlockHeader(net, HeaderAt(blocks, i),
      if i == 0 then start else HashThisBlock(net, HeaderAt(blocks, i - 1))).Some?
  }

  /** The first n whole headers carry proof of work and link up from a given hash. */
  ghost predicate LinkedFrom(net: Network, blocks: seq<byte>, start: Hash, n: nat)
  {
    && HEADER_LENGTH * n <= |blocks|
    && forall i :: 0 <= i < n ==> LinkedAt(net, blocks, start, i)
  }

  lemma HeaderAtShift(blocks: seq<byte>, i: nat)
    requires HEADER_LENGTH * (i + 2) <= |blocks|
    ensures HeaderAt(blocks[HEADER_LENGTH..], i) == HeaderAt(blocks, i + 1)
  {
  }

  lemma LinkedStep(net: Network, blocks: seq<byte>, start: Hash, n: nat)
    requires HEADER_LENGTH <= |blocks|
    ensures LinkedFrom(net, blocks, start, n + 1) <==>
            VerifyBlockHeader(net, blocks[..HEADER_LENGTH], start).Some?
            && LinkedFrom(net, blocks[HEADER_LENGTH..], HashThisBlock(net, blocks[..HEADER_LENGTH]), n)
  {
    var next, rest := HashThisBlock(net, blocks[..HEADER_LENGTH]), blocks[HEADER_LENGTH..];
    if HEADER_LENGTH * (n + 1) <= |blocks| {
      assert LinkedAt(net, blocks, start, 0) == VerifyBlockHeader(net, blocks[..HEADER_LENGTH], start).Some?;
      forall i: nat | i < n
        ensures LinkedAt(net, rest, next, i) == LinkedAt(net, blocks, start, i + 1)
      {
        HeaderAtShift(blocks, i);
        if i > 0 {
          HeaderAtShift(blocks, i - 1);
        }
      }
      hide LinkedAt;
      if LinkedFrom(net, rest, next, n) && LinkedAt(net, blocks, start, 0) {
        forall i | 0 <= i < n + 1
          ensures LinkedAt(net, blocks, start, i)
        {
          assert i > 0 ==> LinkedAt(net, rest, next, i - 1);
        }
      }
    }
  }

  /** The result is the length of the longest valid prefix: n headers link up exactly when n is at most it. */
  lemma {:induction false} ChainFromIsLongest(net: Network, blocks: seq<byte>, start: Hash, n: nat)
    ensures LinkedFrom(net, blocks, start, n) <==> n <= ChainFrom(net, blocks, start)
    decreases |blocks|
  {
    if n == 0 {
    } else if |blocks| < HEADER_LENGTH {
    } else {
      LinkedStep(net, blocks, start, n - 1);
      var digest := HashThisBlock(net, blocks[..HEADER_LENGTH]);
      ChainFromIsLongest(net, blocks[HEADER_LENGTH..], digest, n - 1);
    }
  }

  function WriteHeaders(fs: seq<Fields>): (r: seq<byte>)
    requires forall i :: 0 <= i < |fs| ==> Sized(fs[i])
    ensures |r| == HEADER_LENGTH * |fs|
  {
    if fs == [] then [] else WriteHeader(fs[0]) + WriteHeaders(fs[1..])
  }

  lemma {:induction false} WrittenHeader(fs: seq<Fields>, rest: seq<byte>, i: nat)
    requires i < |fs| && forall j :: 0 <= j < |fs| ==> Sized(fs[j])
    ensures HeaderAt(WriteHeaders(fs) + rest, i) == WriteHeader(fs[i])
    decreases i
  {
    var blocks := WriteHeaders(fs) + rest;
    if i == 0 {
      assert blocks[..HEADER_LENGTH] == WriteHeader(fs[0]);
    } else {
      WrittenHeader(fs[1..], rest, i - 1);
      assert blocks[HEADER_LENGTH..] == WriteHeaders(fs[1..]) + rest;
      HeaderAtShift(blocks, i - 1);
    }
  }

  /** At least n headers count exactly when the first n solve Equihash, have digests below the bound, and each
      names the one before it, the first the checkpoint; whatever comes after them. */
  lemma {:induction false} ChainMeaning(net: Network, fs: seq<Fields>, rest: seq<byte>, n: nat)
    requires n <= |fs| && forall i :: 0 <= i < |fs| ==> Sized(fs[i])
    ensures n <= ChainLength(net, WriteHeaders(fs) + rest) <==> forall i :: 0 <= i < n ==> Proven(net, fs, i)
  {
    var blocks := WriteHeaders(fs) + rest;
    ChainFromIsLongest(net, blocks, net.checkpoint, n);
    forall i | 0 <= i < n
      ensures LinkedAt(net, blocks, net.checkpoint, i) == Proven(net, fs, i)
    {
      WrittenHeader(fs, rest, i);
      if i > 0 {
        WrittenHeader(fs, rest, i - 1);
      }
      HeaderMeaning(net, fs[i], if i == 0 then net.checkpoint else net.sha256d(WriteHeader(fs[i - 1])));
      hide WriteHeader, WriteHeaders, HeaderAt, VerifyBlockHeader, BelowBound, PowInput;
    }
    hide LinkedAt, Proven, WriteHeaders, ChainLength;
  }

  /** The same for every n: there are as many headers, and they are proven. */
  lemma {:induction false} LongEnough(net: Network, fs: seq<Fields>, rest: seq<byte>, n: nat)
    requires (forall i :: 0 <= i < |fs| ==> Sized(fs[i])) && |rest| < HEADER_LENGTH
    ensures n <= ChainLength(net, WriteHeaders(fs) + rest)
       <==> n <= |fs| && forall i :: 0 <= i < n ==> Proven(net, fs, i)
  {
    if n <= |fs| {
      ChainMeaning(net, fs, rest, n);
    } else {
      ChainLengthMonotone(net, WriteHeaders(fs) + rest, []);
    }
    hide Proven, ChainLength;
  }

  /** And every byte string is headers with a rest shorter than one. */
  lemma {:induction false} EveryStreamHasHeaders(blocks: seq<byte>) returns (fs: seq<Fields>, rest: seq<byte>)
    ensures (forall i :: 0 <= i < |fs| ==> Sized(fs[i])) && |rest| < HEADER_LENGTH
    ensures blocks == WriteHeaders(fs) + rest
    decreases |blocks|
  {
    if |blocks| < HEADER_LENGTH {
      fs, rest := [], blocks;
    } else {
      var f := EveryHeaderHasFields(blocks[..HEADER_LENGTH]);
      var fs', rest' := EveryStreamHasHeaders(blocks[HEADER_LENGTH..]);
      hide Sized, WriteHeader;
      fs, rest := [f] + fs', rest';
      assert fs[1..] == fs';
      assert WriteHeaders(fs) == WriteHeader(f) + WriteHeaders(fs');
      assert blocks == blocks[..HEADER_LENGTH] + blocks[HEADER_LENGTH..];
    }
  }

  /** More bytes never shorten the chain, and a chain has at most one header per 1487 bytes. */
  lemma ChainLengthMonotone(net: Network, blocks: seq<byte>, more: seq<byte>)
    ensures ChainLength(net, blocks) <= ChainLength(net, blocks + more)
    ensures ChainLength(net, blocks) <= |blocks| / HEADER_LENGTH
  {
    var n := ChainLength(net, blocks);
    ChainFromIsLongest(net, blocks, net.checkpoint, n);
    forall i: nat | i < n
      ensures LinkedAt(net, blocks + more, net.checkpoint, i)
    {
      assert LinkedAt(net, blocks, net.checkpoint, i);
      assert HeaderAt(blocks + more, i) == HeaderAt(blocks, i);
      assert i > 0 ==> HeaderAt(blocks + more, i - 1) == HeaderAt(blocks, i - 1);
    }
    assert LinkedFrom(net, blocks + more, net.checkpoint, n);
    ChainFromIsLongest(net, blocks + more, net.checkpoint, n);
  }

  /** Searches two chains of n headers, from the tip down, for a hash collision. */
  function ChainCollision(net: Network, a: seq<byte>, b: seq<byte>, n: nat): (r: Option<(seq<byte>, seq<byte>)>)
    requires HEADER_LENGTH * n <= |a| && HEADER_LENGTH * n <= |b|
    ensures r.Some? ==> Collides(net.sha256d, r.value.0, r.value.1)
  {
    if n == 0 then None
    else
      var x, y := HeaderAt(a, n - 1), HeaderAt(b, n - 1);
      if Collides(net.sha256d, x, y) then Some((x, y)) else ChainCollision(net, a, b, n - 1)
  }

  lemma LastHeader(blocks: seq<byte>, n: nat)
    requires 0 < n && HEADER_LENGTH * n <= |blocks|
    ensures blocks[..HEADER_LENGTH * n] == blocks[..HEADER_LENGTH * (n - 1)] + HeaderAt(blocks, n - 1)
  {
  }

  lemma {:induction false} TipBindsLinks(net: Network, a: seq<byte>, b: seq<byte>, start: Hash, n: nat)
    requires n > 0 && LinkedFrom(net, a, start, n) && LinkedFrom(net, b, start, n)
    requires HashThisBlock(net, HeaderAt(a, n - 1)) == HashThisBlock(net, HeaderAt(b, n - 1))
    ensures ChainCollision(net, a, b, n).Some? || a[..HEADER_LENGTH * n] == b[..HEADER_LENGTH * n]
    decreases n
  {
    LastHeader(a, n);
    LastHeader(b, n);
    if n > 1 && HeaderAt(a, n - 1) == HeaderAt(b, n - 1) {
      assert LinkedAt(net, a, start, n - 1) && LinkedAt(net, b, start, n - 1);
      TipBindsLinks(net, a, b, start, n - 1);
    }
  }

  /** Equally long chains with the same tip hash are the same chain, or the search returns a collision. */
  lemma {:induction false} TipBindsChain(net: Network, a: seq<byte>, b: seq<byte>, n: nat)
    requires 0 < n <= ChainLength(net, a) && n <= ChainLength(net, b)
    requires HEADER_LENGTH * n <= |a| && HEADER_LENGTH * n <= |b|
    requires HashThisBlock(net, HeaderAt(a, n - 1)) == HashThisBlock(net, HeaderAt(b, n - 1))
    ensures ChainCollision(net, a, b, n).Some? || a[..HEADER_LENGTH * n] == b[..HEADER_LENGTH * n]
  {
    ChainFromIsLongest(net, a, net.checkpoint, n);
    ChainFromIsLongest(net, b, net.checkpoint, n);
    TipBindsLinks(net, a, b, net.checkpoint, n);
  }

  // ---- Burial of a transaction ----

  /** count is the number of transactions the stream announces. */
  datatype Block = Block(header: Header, count: nat, txids: seq<Hash>)

  /** A list of that many transactions is not empty, and fits the heap. */
  predicate Listable(net: Network, count: nat)
  {
    0 < 32 * count <= net.heap
  }

  /** The transactions are those announced, and missing when there are none or no memory for them. */
  predicate WellRead(net: Network, block: Block)
  {
    |block.txids| == if Listable(net, block.count) then block.count else 0
  }

  function Txids(raw: seq<byte>, count: nat): (r: seq<Hash>)
    requires |raw| == 32 * count
    ensures |r| == count
  {
    seq<Hash>(count, i requires 0 <= i < count => raw[32 * i..32 * (i + 1)])
  }

  /** The leading block of a stream, when all of it is there: header, u32 count, that many 32-byte ids.
      The memory for the ids is taken before they are read: when there is too little, nothing more is. */
  function ReadBlock(net: Network, stream: seq<byte>): (r: Option<(Block, seq<byte>)>)
    ensures r.Some? ==> |r.value.1| < |stream| && WellRead(net, r.value.0)
  {
    if |stream| < HEADER_LENGTH + 4 then None
    else
      var count := LittleEndian(stream[HEADER_LENGTH..HEADER_LENGTH + 4]);
      var end := HEADER_LENGTH + 4 + 32 * count;
      if 32 * count > net.heap then Some((Block(stream[..HEADER_LENGTH], count, []), []))
      else if |stream| < end then None
      else Some((Block(stream[..HEADER_LENGTH], count, Txids(stream[HEADER_LENGTH + 4..end], count)), stream[end..]))
  }

  function Parse(net: Network, stream: seq<byte>): (bs: seq<Block>)
    ensures forall i :: 0 <= i < |bs| ==> WellRead(net, bs[i])
    decreases |stream|
  {
    match ReadBlock(net, stream)
    case None => []
    case Some((block, rest)) => [block] + Parse(net, rest)
  }

  /** Panic is the end of the enclave: an index out of bounds on a block with an empty transaction list,
      or no memory for a list. */
  datatype Verdict = Count(depth: nat) | Panic

  // ---- What is read ----

  /** The stream a host writes: headers and lists of transactions. */
  function Serialize(bs: seq<Block>): seq<byte>
    requires forall i :: 0 <= i < |bs| ==> |bs[i].txids| < U32_LIMIT
  {
    if bs == [] then [] else SerializeBlock(bs[0]) + Serialize(bs[1..])
  }

  function SerializeBlock(block: Block): seq<byte>
    requires |block.txids| < U32_LIMIT
  {
    block.header + EncodeU32(|block.txids|) + Concat(block.txids)
  }

  /** A block with its list, which fits the heap; an empty list does. */
  predicate Intact(net: Network, block: Block)
  {
    block.count == |block.txids| < U32_LIMIT && 32 * block.count <= net.heap
  }

  predicate AllIntact(net: Network, bs: seq<Block>): (all: bool)
    ensures all ==> forall i :: 0 <= i < |bs| ==> |bs[i].txids| < U32_LIMIT
  {
    forall i :: 0 <= i < |bs| ==> Intact(net, bs[i])
  }

  lemma {:induction false} TxidsOfConcat(txids: seq<Hash>)
    ensures |Concat(txids)| == 32 * |txids| && Txids(Concat(txids), |txids|) == txids
  {
    if txids != [] {
      var rest := txids[1..];
      TxidsOfConcat(rest);
      var raw := Concat(txids);
      assert raw == txids[0] + Concat(rest);
      forall i | 0 <= i < |txids|
        ensures raw[32 * i..32 * (i + 1)] == txids[i]
      {
        if i > 0 {
          assert raw[32 * i..32 * (i + 1)] == Concat(rest)[32 * (i - 1)..32 * i] == rest[i - 1];
        }
      }
    }
  }

  lemma {:induction false} ConcatOfTxids(raw: seq<byte>, count: nat)
    requires |raw| == 32 * count
    ensures Concat(Txids(raw, count)) == raw
  {
    if count > 0 {
      var rest := raw[32..];
      ConcatOfTxids(rest, count - 1);
      var all := Txids(raw, count);
      forall i | 0 < i < count
        ensures all[i] == Txids(rest, count - 1)[i - 1]
      {
        assert raw[32 * i..32 * (i + 1)] == rest[32 * (i - 1)..32 * i];
      }
      assert all[1..] == Txids(rest, count - 1) && all[0] == raw[..32];
    }
  }

  lemma {:induction false} ReadsSerialized(net: Network, block: Block, rest: seq<byte>)
    requires Intact(net, block)
    ensures ReadBlock(net, SerializeBlock(block) + rest) == Some((block, rest))
  {
    var stream := SerializeBlock(block) + rest;
    var head, raw := EncodeU32(|block.txids|), Concat(block.txids);
    TxidsOfConcat(block.txids);
    assert stream[..HEADER_LENGTH] == block.header;
    assert stream[HEADER_LENGTH..HEADER_LENGTH + 4] == head;
    assert stream[HEADER_LENGTH + 4..HEADER_LENGTH + 4 + |raw|] == raw;
    assert stream[HEADER_LENGTH + 4 + |raw|..] == rest;
    hide Concat, Txids, EncodeU32;
  }

  lemma {:induction false} ParseNext(net: Network, stream: seq<byte>, block: Block, rest: seq<byte>)
    requires ReadBlock(net, stream) == Some((block, rest))
    ensures Parse(net, stream) == [block] + Parse(net, rest)
  {
    hide ReadBlock;
  }

  lemma {:induction false} SerializeNext(bs: seq<Block>, rest: seq<byte>)
    requires bs != [] && forall i :: 0 <= i < |bs| ==> |bs[i].txids| < U32_LIMIT
    ensures Serialize(bs) + rest == SerializeBlock(bs[0]) + (Serialize(bs[1..]) + rest)
  {
    hide SerializeBlock;
  }

  lemma {:induction false} SerializeNone(net: Network, bs: seq<Block>, rest: seq<byte>)
    requires bs == []
    ensures Serialize(bs) + rest == rest && bs + Parse(net, rest) == Parse(net, rest)
  {
    hide Parse;
  }

  /** Reading what was written gives the blocks back, and goes on with what follows. */
  lemma {:induction false} ParseSerialize(net: Network, bs: seq<Block>, rest: seq<byte>)
    requires AllIntact(net, bs)
    ensures Parse(net, Serialize(bs) + rest) == bs + Parse(net, rest)
    decreases |bs|
  {
    hide Parse, Serialize, ReadBlock, SerializeBlock;
    if bs == [] {
      SerializeNone(net, bs, rest);
    } else {
      SerializeNext(bs, rest);
      ReadsSerialized(net, bs[0], Serialize(bs[1..]) + rest);
      ParseNext(net, Serialize(bs) + rest, bs[0], Serialize(bs[1..]) + rest);
      assert AllIntact(net, bs[1..]);
      ParseSerialize(net, bs[1..], rest);
      var more := Parse(net, rest);
      assert [bs[0]] + (bs[1..] + more) == bs + more;
    }
  }

  /** Nothing more can be read: too short, or the list is announced to be longer than what is left. */
  predicate Unreadable(net: Network, stream: seq<byte>)
  {
    || |stream| < HEADER_LENGTH + 4
    || var announced := LittleEndian(stream[HEADER_LENGTH..HEADER_LENGTH + 4]);
       |stream| < HEADER_LENGTH + 4 + 32 * announced && 32 * announced <= net.heap
  }

  /** The list announced next does not fit the heap. */
  predicate TooLarge(net: Network, stream: seq<byte>)
  {
    |stream| >= HEADER_LENGTH + 4 && 32 * LittleEndian(stream[HEADER_LENGTH..HEADER_LENGTH + 4]) > net.heap
  }

  lemma {:induction false} BlockWritten(net: Network, stream: seq<byte>)
    requires !Unreadable(net, stream) && !TooLarge(net, stream)
    ensures ReadBlock(net, stream).Some?
    ensures var (block, rest) := ReadBlock(net, stream).value;
            Intact(net, block) && stream == SerializeBlock(block) + rest
  {
    var head := stream[HEADER_LENGTH..HEADER_LENGTH + 4];
    var announced := LittleEndian(head);
    var end := HEADER_LENGTH + 4 + 32 * announced;
    LittleEndianBound(head);
    Pow256Four();
    DecodeEncode(head);
    ConcatOfTxids(stream[HEADER_LENGTH + 4..end], announced);
    hide Concat, Txids, Encode, LittleEndian;
    assert stream == stream[..HEADER_LENGTH] + head + stream[HEADER_LENGTH + 4..end] + stream[end..];
  }

  /** Conversely every stream is the writing of the blocks read from it and a rest from which nothing can be
      read, or whose list is too large: that block is read last, without a list. */
  lemma {:induction false} SerializeParse(net: Network, stream: seq<byte>) returns (bs: seq<Block>, rest: seq<byte>)
    ensures AllIntact(net, bs)
    ensures stream == Serialize(bs) + rest && (Unreadable(net, rest) || TooLarge(net, rest))
    ensures Parse(net, stream) == bs +
      if Unreadable(net, rest) then []
      else [Block(rest[..HEADER_LENGTH], LittleEndian(rest[HEADER_LENGTH..HEADER_LENGTH + 4]), [])]
    decreases |stream|
  {
    if Unreadable(net, stream) {
      bs, rest := [], stream;
    } else if TooLarge(net, stream) {
      bs, rest := [], stream;
      ShortStream(net, []);
    } else {
      BlockWritten(net, stream);
      var (block, after) := ReadBlock(net, stream).value;
      var bs', rest' := SerializeParse(net, after);
      hide Unreadable, TooLarge, SerializeBlock, ReadBlock, Intact;
      bs, rest := [block] + bs', rest';
      assert bs[1..] == bs';
      assert Serialize(bs) == SerializeBlock(block) + Serialize(bs');
    }
  }

  /** One pass over the blocks: what the loop computes from the state it has reached. */
  function BuryFrom(net: Network, txid: Hash, bs: seq<Block>, previous: Hash, found: bool, count: nat): Verdict
  {
    if bs == [] then Count(count)
    else
      match VerifyBlockHeader(net, bs[0].header, previous)
      case None => Count(count)
      case Some(digest) =>
        var count' := if found then count + 1 else count;
        if bs[0].txids == [] then Panic
        else if Root(net.sha256d, bs[0].txids) != HashMerkleRoot(bs[0].header) then Count(count')
        else BuryFrom(net, txid, bs[1..], digest, found || txid in bs[0].txids, count')
  }

  function Bury(net: Network, txid: Hash, stream: seq<byte>): Verdict
  {
    BuryFrom(net, txid, Parse(net, stream), net.checkpoint, false, 0)
  }

  lemma {:induction false} ReadInParts(
    net: Network, stream: seq<byte>, header: Header, count: nat, raw: seq<byte>, rest: seq<byte>)
    requires |stream| >= HEADER_LENGTH + 4 && header == stream[..HEADER_LENGTH]
    requires count == LittleEndian(stream[HEADER_LENGTH..][..4]) && 32 * count <= net.heap
    requires |raw| == 32 * count && stream[HEADER_LENGTH..][4..] == raw + rest
    ensures ReadBlock(net, stream) == Some((Block(header, count, Txids(raw, count)), rest))
    ensures Parse(net, stream) == [Block(header, count, Txids(raw, count))] + Parse(net, rest)
  {
    assert stream[HEADER_LENGTH..][..4] == stream[HEADER_LENGTH..HEADER_LENGTH + 4];
    var end := HEADER_LENGTH + 4 + 32 * count;
    assert stream[HEADER_LENGTH + 4..] == raw + rest;
    assert stream[HEADER_LENGTH + 4..end] == raw && stream[end..] == rest;
  }

  lemma {:induction false} ReadTooLarge(net: Network, stream: seq<byte>)
    requires |stream| >= HEADER_LENGTH + 4
    requires 32 * LittleEndian(stream[HEADER_LENGTH..][..4]) > net.heap
    ensures Parse(net, stream) == [Block(stream[..HEADER_LENGTH], LittleEndian(stream[HEADER_LENGTH..][..4]), [])]
  {
    assert stream[HEADER_LENGTH..][..4] == stream[HEADER_LENGTH..HEADER_LENGTH + 4];
    ShortStream(net, []);
  }

  lemma {:induction false} ReadFails(net: Network, stream: seq<byte>)
    requires |stream| >= HEADER_LENGTH
    requires |stream[HEADER_LENGTH..]| < 4
          || |stream[HEADER_LENGTH..][4..]| < 32 * LittleEndian(stream[HEADER_LENGTH..][..4]) <= net.heap
    ensures Parse(net, stream) == []
  {
    if |stream[HEADER_LENGTH..]| >= 4 {
      assert stream[HEADER_LENGTH..][..4] == stream[HEADER_LENGTH..HEADER_LENGTH + 4];
    }
  }

  method AuthorizedAndBuried(net: Network, txid: Hash, blocks: seq<byte>) returns (v: Verdict)
    ensures v == Bury(net, txid, blocks)
  {
    hide ReadBlock, HashMerkleRoot, VerifyBlockHeader, Txids;
    var previousBlockHash := net.checkpoint;
    var countSinceSettlement := 0;
    var settlementFound := false;
    var stream := blocks;
    while true
      invariant BuryFrom(net, txid, Parse(net, stream), previousBlockHash, settlementFound, countSinceSettlement)
             == Bury(net, txid, blocks)
      decreases |stream|
    {
      if |stream| < HEADER_LENGTH {
        ShortStream(net, stream);
        return Count(countSinceSettlement);
      }
      var block: Header, afterHeader := stream[..HEADER_LENGTH], stream[HEADER_LENGTH..];
      var verified := VerifyBlockHeader(net, block, previousBlockHash);
      if verified.None? {
        FirstHeader(net, stream);
        return Count(countSinceSettlement);
      }
      if |afterHeader| < 4 {
        ReadFails(net, stream);
        return Count(countSinceSettlement);
      }
      var transactionsInBlock := LittleEndian(afterHeader[..4]);
      var afterCount := afterHeader[4..];
      if 32 * transactionsInBlock > net.heap {
        ReadTooLarge(net, stream);
        return Panic;
      }
      if |afterCount| < 32 * transactionsInBlock {
        ReadFails(net, stream);
        return Count(countSinceSettlement);
      }
      var raw, rest := afterCount[..32 * transactionsInBlock], afterCount[32 * transactionsInBlock..];
      var transactions := Txids(raw, transactionsInBlock);
      ReadInParts(net, stream, block, transactionsInBlock, raw, rest);
      ghost var bs := Parse(net, stream);
      assert bs[0] == Block(block, transactionsInBlock, transactions) && bs[1..] == Parse(net, rest);
      previousBlockHash, stream := verified.value, rest;
      if settlementFound {
        countSinceSettlement := countSinceSettlement + 1;
      }
      if txid in transactions {
        settlementFound := true;
      }
      var root := TransactionsMerkleRoot(net.sha256d, transactions);
      if root.None? {
        return Panic;
      }
      if root.value != HashMerkleRoot(block) {
        return Count(countSinceSettlement);
      }
    }
  }

  lemma {:induction false} ShortStream(net: Network, stream: seq<byte>)
    requires |stream| < HEADER_LENGTH
    ensures Parse(net, stream) == []
  {
  }

  lemma {:induction false} FirstHeader(net: Network, stream: seq<byte>)
    requires |stream| >= HEADER_LENGTH
    ensures Parse(net, stream) != [] ==> Parse(net, stream)[0].header == stream[..HEADER_LENGTH]
  {
  }

  // ---- What the verdict means, block by block ----

  /** What matters of one block: does it extend the chain with proof of work, does it list any
      transactions, does the list match the header, and is the wanted transaction in it. */
  datatype Mark = Mark(linked: bool, filled: bool, matching: bool, containing: bool)

  predicate Linked(net: Network, bs: seq<Block>, start: Hash, i: nat)
    requires i < |bs|
  {
    VerifyBlockHeader(net, bs[i].header, if i == 0 then start else HashThisBlock(net, bs[i - 1].header)).Some?
  }

  predicate Matching(net: Network, block: Block)
  {
    block.txids != [] && Root(net.sha256d, block.txids) == HashMerkleRoot(block.header)
  }

  function Marks(net: Network, txid: Hash, bs: seq<Block>, start: Hash): (r: seq<Mark>)
    ensures |r| == |bs|
    ensures forall i :: 0 <= i < |bs| ==>
        r[i] == Mark(Linked(net, bs, start, i), bs[i].txids != [], Matching(net, bs[i]), txid in bs[i].txids)
  {
    seq(|bs|, i requires 0 <= i < |bs| =>
      Mark(Linked(net, bs, start, i), bs[i].txids != [], Matching(net, bs[i]), txid in bs[i].txids))
  }

  function Tally(ms: seq<Mark>, found: bool, count: nat): Verdict
  {
    if ms == [] || !ms[0].linked then Count(count)
    else if !ms[0].filled then Panic
    else
      var count' := if found then count + 1 else count;
      if !ms[0].matching then Count(count') else Tally(ms[1..], found || ms[0].containing, count')
  }

  lemma {:induction false} BuryIsTally(
    net: Network, txid: Hash, bs: seq<Block>, start: Hash, found: bool, count: nat)
    ensures BuryFrom(net, txid, bs, start, found, count) == Tally(Marks(net, txid, bs, start), found, count)
    decreases |bs|
  {
    if bs != [] && Linked(net, bs, start, 0) {
      var next := HashThisBlock(net, bs[0].header);
      assert Marks(net, txid, bs, start)[1..] == Marks(net, txid, bs[1..], next);
      BuryIsTally(net, txid, bs[1..], next, found || txid in bs[0].txids, if found then count + 1 else count);
    }
  }

  /** The loop goes through blocks 0..m-1 and then stops without a panic. */
  ghost predicate StopsAfter(ms: seq<Mark>, m: nat)
  {
    && m <= |ms|
    && (forall i :: 0 <= i < m ==> ms[i].linked && ms[i].filled)
    && (forall i :: 0 <= i < m - 1 ==> ms[i].matching)
    && (m == |ms| || !ms[m].linked || (m > 0 && !ms[m - 1].matching))
  }

  /** The loop reaches block m through good blocks and finds no transactions in it. */
  ghost predicate PanicsAt(ms: seq<Mark>, m: nat)
  {
    && m < |ms|
    && (forall i :: 0 <= i < m ==> ms[i].linked && ms[i].filled && ms[i].matching)
    && ms[m].linked && !ms[m].filled
  }

  predicate FirstContaining(ms: seq<Mark>, k: nat)
  {
    && k < |ms| && ms[k].containing
    && forall i :: 0 <= i < k ==> !ms[i].containing
  }

  /** The number of blocks gone through; for a panic, the number before it. */
  function Scanned(ms: seq<Mark>): (m: nat)
    ensures m <= |ms|
  {
    if ms == [] || !ms[0].linked || !ms[0].filled then 0
    else if !ms[0].matching then 1
    else 1 + Scanned(ms[1..])
  }

  lemma ShiftedMarks(ms: seq<Mark>, m: nat)
    requires ms != [] && ms[0].linked && ms[0].filled && ms[0].matching
    ensures StopsAfter(ms[1..], m) ==> StopsAfter(ms, m + 1)
    ensures PanicsAt(ms[1..], m) ==> PanicsAt(ms, m + 1)
  {
    assert forall i :: 0 < i < |ms| ==> ms[i] == ms[1..][i - 1];
  }

  lemma {:induction false} ScannedStops(ms: seq<Mark>, found: bool, count: nat)
    ensures match Tally(ms, found, count)
            case Panic => PanicsAt(ms, Scanned(ms))
            case Count(_) => StopsAfter(ms, Scanned(ms))
    decreases |ms|
  {
    if ms != [] && ms[0].linked && ms[0].filled && ms[0].matching {
      ScannedStops(ms[1..], found || ms[0].containing, if found then count + 1 else count);
      ShiftedMarks(ms, Scanned(ms[1..]));
    }
  }

  lemma {:induction false} TallyCounts(ms: seq<Mark>, found: bool, count: nat)
    ensures var m, v := Scanned(ms), Tally(ms, found, count);
            v.Count? ==>
              && (found ==> v.depth == count + m)
              && (!found && (forall i :: 0 <= i < m ==> !ms[i].containing) ==> v.depth == count)
              && (forall k: nat :: !found && FirstContaining(ms, k) && k < m ==> v.depth == count + m - 1 - k)
    decreases |ms|
  {
    if ms != [] && ms[0].linked && ms[0].filled && ms[0].matching {
      var rest := ms[1..];
      TallyCounts(rest, found || ms[0].containing, if found then count + 1 else count);
      forall k: nat | FirstContaining(ms, k) && k > 0
        ensures FirstContaining(rest, k - 1) && !ms[0].containing
      {
      }
    }
  }

  lemma {:induction false} TallyStops(ms: seq<Mark>, found: bool, count: nat)
    ensures var m := Scanned(ms);
            match Tally(ms, found, count)
            case Panic => PanicsAt(ms, m)
            case Count(c) =>
              && StopsAfter(ms, m)
              && (found ==> c == count + m)
              && (!found && (forall i :: 0 <= i < m ==> !ms[i].containing) ==> c == count)
              && (forall k: nat :: !found && FirstContaining(ms, k) && k < m ==> c == count + m - 1 - k)
  {
    ScannedStops(ms, found, count);
    TallyCounts(ms, found, count);
  }

  lemma StopIsUnique(ms: seq<Mark>, m: nat, m': nat)
    requires StopsAfter(ms, m)
    ensures StopsAfter(ms, m') ==> m == m'
    ensures !PanicsAt(ms, m')
  {
  }

  lemma FirstExists(ms: seq<Mark>, m: nat)
    requires m < |ms| && ms[m].containing
    ensures exists k: nat :: k <= m && FirstContaining(ms, k)
    decreases m
  {
    if !FirstContaining(ms, m) {
      var i: nat :| i < m && ms[i].containing;
      FirstExists(ms, i);
    }
  }

  lemma {:induction false} TallyMeaning(ms: seq<Mark>, depth: nat)
    requires depth > 0
    ensures Tally(ms, false, 0) == Count(depth)
       <==> exists k: nat :: FirstContaining(ms, k) && StopsAfter(ms, k + depth + 1)
  {
    TallyStops(ms, false, 0);
    var m := Scanned(ms);
    if k: nat :| FirstContaining(ms, k) && StopsAfter(ms, k + depth + 1) {
      StopIsUnique(ms, k + depth + 1, m);
    }
    if Tally(ms, false, 0) == Count(depth) {
      var i :| 0 <= i < m && ms[i].containing;
      FirstExists(ms, i);
      var k: nat :| k <= i && FirstContaining(ms, k);
      assert StopsAfter(ms, k + depth + 1);
    }
  }

  lemma {:induction false} PanicTally(ms: seq<Mark>)
    ensures Tally(ms, false, 0) == Panic <==> exists m: nat :: PanicsAt(ms, m)
  {
    TallyStops(ms, false, 0);
    if m: nat :| PanicsAt(ms, m) {
      if Tally(ms, false, 0).Count? {
        StopIsUnique(ms, Scanned(ms), m);
      }
    }
  }

  /** A transaction is buried at a depth when blocks 0..k+depth are linked from the checkpoint with
      proof of work, k is the first to contain the transaction, and the transaction lists of
      blocks 0..k+depth-1 match their headers. The last two clauses say that the loop takes in
      the last block, and why it goes no further. */
  ghost predicate Buried(net: Network, txid: Hash, bs: seq<Block>, k: nat, depth: nat)
  {
    var last := k + depth;
    && last < |bs|
    && txid in bs[k].txids && (forall i :: 0 <= i < k ==> txid !in bs[i].txids)
    && (forall i :: 0 <= i <= last ==> Linked(net, bs, net.checkpoint, i))
    && (forall i :: 0 <= i < last ==> Matching(net, bs[i]))
    && bs[last].txids != []
    && (last + 1 < |bs| && Matching(net, bs[last]) ==> !Linked(net, bs, net.checkpoint, last + 1))
  }

  ghost predicate IsBuried(net: Network, txid: Hash, bs: seq<Block>, depth: nat)
  {
    exists k: nat :: Buried(net, txid, bs, k, depth)
  }

  ghost predicate UnlistableAt(net: Network, bs: seq<Block>, m: nat)
  {
    && m < |bs| && !Listable(net, bs[m].count) && Linked(net, bs, net.checkpoint, m)
    && forall i :: 0 <= i < m ==> Linked(net, bs, net.checkpoint, i) && Matching(net, bs[i])
  }

  /** Good blocks lead to a linked block that announces no transactions, or more than the heap takes. */
  ghost predicate ReachesUnlistable(net: Network, bs: seq<Block>)
  {
    exists m: nat :: UnlistableAt(net, bs, m)
  }

  lemma BuriedMarks(net: Network, txid: Hash, bs: seq<Block>, k: nat, depth: nat)
    ensures var ms := Marks(net, txid, bs, net.checkpoint);
            Buried(net, txid, bs, k, depth) <==> FirstContaining(ms, k) && StopsAfter(ms, k + depth + 1)
  {
    hide Linked;
  }

  lemma {:induction false} BurialOnBlocks(net: Network, txid: Hash, bs: seq<Block>, depth: nat)
    requires depth > 0
    ensures BuryFrom(net, txid, bs, net.checkpoint, false, 0) == Count(depth)
       <==> IsBuried(net, txid, bs, depth)
  {
    BuryIsTally(net, txid, bs, net.checkpoint, false, 0);
    hide BuryFrom, Tally, Marks, Linked, Matching, Buried, FirstContaining, StopsAfter;
    TallyMeaning(Marks(net, txid, bs, net.checkpoint), depth);
    forall k: nat {
      BuriedMarks(net, txid, bs, k, depth);
    }
  }

  /** Exactly when a positive depth is returned. */
  lemma {:induction false} BurialMeaning(net: Network, txid: Hash, stream: seq<byte>, depth: nat)
    requires depth > 0
    ensures Bury(net, txid, stream) == Count(depth) <==> IsBuried(net, txid, Parse(net, stream), depth)
  {
    hide BuryFrom, IsBuried;
    BurialOnBlocks(net, txid, Parse(net, stream), depth);
  }

  lemma UnlistableMarks(net: Network, txid: Hash, bs: seq<Block>, m: nat)
    requires forall i :: 0 <= i < |bs| ==> WellRead(net, bs[i])
    ensures PanicsAt(Marks(net, txid, bs, net.checkpoint), m) <==> UnlistableAt(net, bs, m)
  {
    hide Linked;
    assert m < |bs| ==> WellRead(net, bs[m]);
  }

  lemma {:induction false} PanicOnBlocks(net: Network, txid: Hash, bs: seq<Block>)
    requires forall i :: 0 <= i < |bs| ==> WellRead(net, bs[i])
    ensures BuryFrom(net, txid, bs, net.checkpoint, false, 0) == Panic <==> ReachesUnlistable(net, bs)
  {
    var ms := Marks(net, txid, bs, net.checkpoint);
    BuryIsTally(net, txid, bs, net.checkpoint, false, 0);
    hide BuryFrom, Tally, Marks, PanicsAt, UnlistableAt;
    PanicTally(ms);
    forall m: nat {
      UnlistableMarks(net, txid, bs, m);
    }
  }

  /** Exactly when the enclave ends inside the call. */
  lemma {:induction false} PanicMeaning(net: Network, txid: Hash, stream: seq<byte>)
    ensures Bury(net, txid, stream) == Panic <==> ReachesUnlistable(net, Parse(net, stream))
  {
    hide BuryFrom, ReachesUnlistable;
    PanicOnBlocks(net, txid, Parse(net, stream));
  }

  // ---- More bytes ----

  lemma {:induction false} ParsePrefix(net: Network, stream: seq<byte>, more: seq<byte>)
    ensures Parse(net, stream) <= Parse(net, stream + more)
    decreases |stream|
  {
    match ReadBlock(net, stream) {
      case None =>
      case Some((block, rest)) =>
        ReadBlockPrefix(net, stream, more);
        ParsePrefix(net, rest, more);
    }
  }

  lemma ReadBlockPrefix(net: Network, stream: seq<byte>, more: seq<byte>)
    requires ReadBlock(net, stream).Some?
    ensures var (block, rest) := ReadBlock(net, stream).value;
            ReadBlock(net, stream + more) == Some((block, if 32 * block.count > net.heap then [] else rest + more))
  {
    var count := LittleEndian(stream[HEADER_LENGTH..HEADER_LENGTH + 4]);
    var end := HEADER_LENGTH + 4 + 32 * count;
    var longer := stream + more;
    assert longer[..HEADER_LENGTH] == stream[..HEADER_LENGTH];
    assert longer[HEADER_LENGTH..HEADER_LENGTH + 4] == stream[HEADER_LENGTH..HEADER_LENGTH + 4];
    if 32 * count <= net.heap {
      assert longer[HEADER_LENGTH + 4..end] == stream[HEADER_LENGTH + 4..end];
      assert longer[end..] == stream[end..] + more;
    }
  }

  lemma {:induction false} TallyMonotone(ms: seq<Mark>, more: seq<Mark>, found: bool, count: nat)
    ensures var v, v' := Tally(ms, found, count), Tally(ms + more, found, count);
            && (v'.Count? ==> count <= v'.depth)
            && (v.Panic? ==> v'.Panic?)
            && (v'.Count? && v.Count? ==> v.depth <= v'.depth)
    decreases |ms| + |more|
  {
    if ms != [] {
      assert (ms + more)[1..] == ms[1..] + more;
      TallyMonotone(ms[1..], more, found || ms[0].containing, if found then count + 1 else count);
    } else if more != [] {
      assert ms + more == more && [] + more[1..] == more[1..];
      TallyMonotone([], more[1..], found || more[0].containing, if found then count + 1 else count);
    }
  }

  lemma MarksPrefix(net: Network, txid: Hash, bs: seq<Block>, more: seq<Block>, start: Hash)
    ensures Marks(net, txid, bs, start) <= Marks(net, txid, bs + more, start)
  {
    hide Matching;
    forall i | 0 <= i < |bs|
      ensures Linked(net, bs + more, start, i) == Linked(net, bs, start, i)
    {
    }
  }

  lemma {:induction false} BuryFromMonotone(net: Network, txid: Hash, bs: seq<Block>, more: seq<Block>)
    ensures var v, v' := BuryFrom(net, txid, bs, net.checkpoint, false, 0),
                         BuryFrom(net, txid, bs + more, net.checkpoint, false, 0);
            && (v.Panic? ==> v'.Panic?)
            && (v'.Count? ==> v.Count? && v.depth <= v'.depth)
  {
    BuryIsTally(net, txid, bs, net.checkpoint, false, 0);
    BuryIsTally(net, txid, bs + more, net.checkpoint, false, 0);
    MarksPrefix(net, txid, bs, more, net.checkpoint);
    hide BuryFrom, Tally, Marks;
    var ms, ms' := Marks(net, txid, bs, net.checkpoint), Marks(net, txid, bs + more, net.checkpoint);
    assert ms' == ms + ms'[|ms|..];
    TallyMonotone(ms, ms'[|ms|..], false, 0);
  }

  /** Appending bytes never lowers the depth, and never brings back an enclave that ended. */
  lemma BuryMonotone(net: Network, txid: Hash, stream: seq<byte>, more: seq<byte>)
    ensures var v, v' := Bury(net, txid, stream), Bury(net, txid, stream + more);
            && (v.Panic? ==> v'.Panic?)
            && (v'.Count? ==> v.Count? && v.depth <= v'.depth)
  {
    hide BuryFrom;
    ParsePrefix(net, stream, more);
    var bs, bs' := Parse(net, stream), Parse(net, stream + more);
    assert bs' == bs + bs'[|bs|..];
    BuryFromMonotone(net, txid, bs, bs'[|bs|..]);
  }

  // ---- Evidence for settling is evidence for a refund ----

  /** The stream without its transaction lists. */
  function Headers(bs: seq<Block>): seq<byte>
  {
    if bs == [] then [] else bs[0].header + Headers(bs[1..])
  }

  lemma {:induction false} HeadersChain(net: Network, txid: Hash, bs: seq<Block>, start: Hash)
    ensures Scanned(Marks(net, txid, bs, start)) <= ChainFrom(net, Headers(bs), start)
    decreases |bs|
  {
    if bs != [] && Linked(net, bs, start, 0) {
      var stream := Headers(bs);
      assert stream[..HEADER_LENGTH] == bs[0].header && stream[HEADER_LENGTH..] == Headers(bs[1..]);
      var next := HashThisBlock(net, bs[0].header);
      assert Marks(net, txid, bs, start)[1..] == Marks(net, txid, bs[1..], next);
      HeadersChain(net, txid, bs[1..], next);
    }
  }

  /** A transaction buried depth deep comes with a header chain longer than depth. */
  lemma {:induction false} SettleEvidenceDominates(net: Network, txid: Hash, stream: seq<byte>)
    ensures var v := Bury(net, txid, stream);
            v.Count? && v.depth > 0 ==> ChainLength(net, Headers(Parse(net, stream))) >= v.depth + 1
  {
    var ms := Marks(net, txid, Parse(net, stream), net.checkpoint);
    BuryIsTally(net, txid, Parse(net, stream), net.checkpoint, false, 0);
    HeadersChain(net, txid, Parse(net, stream), net.checkpoint);
    hide BuryFrom, Tally, Marks, ChainFrom;
    TallyStops(ms, false, 0);
    var v := Bury(net, txid, stream);
    if v.Count? && v.depth > 0 {
      TallyMeaning(ms, v.depth);
    }
  }
}
