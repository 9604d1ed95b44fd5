/** Merkle paths for the spends, and the pairing of paths with the deposited notes. */
module Transactions {
  import opened Bytes
  import opened Options

  // ---- The Merkle paths file ----

  const DEPTH := 32
  const NODE_SIZE := 32
  const PATH_SIZE := 1028

  datatype MerklePath = MerklePath(position: nat, nodes: seq<seq<byte>>)

  datatype PathsFile = PathsFile(anchor: seq<byte>, paths: seq<MerklePath>)

  /** Canonical encodings of field elements are a parameter. */
  type Canonical = seq<byte> -> bool

  predicate WellFormedPath(canonical: Canonical, path: MerklePath)
  {
    && path.position < U32_LIMIT && |path.nodes| == DEPTH
    && forall j :: 0 <= j < DEPTH ==> |path.nodes[j]| == NODE_SIZE && canonical(path.nodes[j])
  }

  predicate WellFormed(canonical: Canonical, file: PathsFile)
  {
    && |file.anchor| == NODE_SIZE && canonical(file.anchor)
    && forall i :: 0 <= i < |file.paths| ==> WellFormedPath(canonical, file.paths[i])
  }

  function EncodePath(path: MerklePath): seq<byte>
  {
    Encode(path.position, 4) + Concat(path.nodes)
  }

  function EncodePaths(paths: seq<MerklePath>): seq<byte>
  {
    if paths == [] then [] else EncodePath(paths[0]) + EncodePaths(paths[1..])
  }

  /** [anchor][pos0 as u32][path0]...[posN as u32][pathN] */
  function EncodeFile(file: PathsFile): seq<byte>
  {
    file.anchor + EncodePaths(file.paths)
  }

  // ---- Decoding ----

  function Pieces(s: seq<byte>, n: nat): (r: seq<seq<byte>>)
    requires |s| == NODE_SIZE * n
    ensures |r| == n && forall j :: 0 <= j < n ==> r[j] == s[NODE_SIZE * j..NODE_SIZE * (j + 1)]
  {
    seq(n, j requires 0 <= j < n => s[NODE_SIZE * j..NODE_SIZE * (j + 1)])
  }

  lemma PiecesShift(s: seq<byte>, n: nat)
    requires |s| == NODE_SIZE * n && n > 0
    ensures Pieces(s, n) == [s[..NODE_SIZE]] + Pieces(s[NODE_SIZE..], n - 1)
  {
    var all, rest := Pieces(s, n), Pieces(s[NODE_SIZE..], n - 1);
    forall j | 0 < j < n
      ensures all[j] == rest[j - 1]
    {
      assert s[NODE_SIZE..][NODE_SIZE * (j - 1)..NODE_SIZE * j] == s[NODE_SIZE * j..NODE_SIZE * (j + 1)];
    }
  }

  lemma {:induction false} PiecesConcat(s: seq<byte>, n: nat)
    requires |s| == NODE_SIZE * n
    ensures Concat(Pieces(s, n)) == s
  {
    if n > 0 {
      PiecesShift(s, n);
      PiecesConcat(s[NODE_SIZE..], n - 1);
    }
  }

  lemma {:induction false} ConcatPieces(nodes: seq<seq<byte>>)
    requires forall j :: 0 <= j < |nodes| ==> |nodes[j]| == NODE_SIZE
    ensures |Concat(nodes)| == NODE_SIZE * |nodes| && Pieces(Concat(nodes), |nodes|) == nodes
  {
    if nodes != [] {
      ConcatPieces(nodes[1..]);
      var s := Concat(nodes);
      assert s[NODE_SIZE..] == Concat(nodes[1..]);
      PiecesShift(s, |nodes|);
    }
  }

  function DecodePath(chunk: seq<byte>): MerklePath
    requires |chunk| == PATH_SIZE
  {
    MerklePath(LittleEndian(chunk[..4]), Pieces(chunk[4..], DEPTH))
  }

  lemma DecodedPath(chunk: seq<byte>)
    requires |chunk| == PATH_SIZE
    ensures EncodePath(DecodePath(chunk)) == chunk && DecodePath(chunk).position < U32_LIMIT
  {
    DecodeEncode(chunk[..4]);
    PiecesConcat(chunk[4..], DEPTH);
    LittleEndianBound(chunk[..4]);
    Pow256Four();
  }

  lemma EncodedPath(canonical: Canonical, path: MerklePath)
    requires WellFormedPath(canonical, path)
    ensures |EncodePath(path)| == PATH_SIZE && DecodePath(EncodePath(path)) == path
  {
    ConcatPieces(path.nodes);
    var chunk := EncodePath(path);
    assert chunk[..4] == EncodeU32(path.position) && chunk[4..] == Concat(path.nodes);
  }

  lemma {:induction false} EncodedLength(canonical: Canonical, paths: seq<MerklePath>)
    requires forall i :: 0 <= i < |paths| ==> WellFormedPath(canonical, paths[i])
    ensures |EncodePaths(paths)| == PATH_SIZE * |paths|
  {
    if paths != [] {
      EncodedPath(canonical, paths[0]);
      EncodedLength(canonical, paths[1..]);
    }
  }

  lemma {:induction false} EncodedChunk(canonical: Canonical, paths: seq<MerklePath>, i: nat)
    requires forall k :: 0 <= k < |paths| ==> WellFormedPath(canonical, paths[k])
    requires i < |paths|
    ensures |EncodePaths(paths)| == PATH_SIZE * |paths|
    ensures EncodePaths(paths)[PATH_SIZE * i..PATH_SIZE * (i + 1)] == EncodePath(paths[i])
    decreases i
  {
    EncodedLength(canonical, paths);
    EncodedPath(canonical, paths[0]);
    if i > 0 {
      EncodedChunk(canonical, paths[1..], i - 1);
      assert EncodePaths(paths)[PATH_SIZE..] == EncodePaths(paths[1..]);
      assert EncodePaths(paths)[PATH_SIZE * i..PATH_SIZE * (i + 1)]
          == EncodePaths(paths)[PATH_SIZE..][PATH_SIZE * (i - 1)..PATH_SIZE * i];
    }
  }

  lemma {:induction false} EncodeAppend(a: seq<MerklePath>, path: MerklePath)
    ensures EncodePaths(a + [path]) == EncodePaths(a) + EncodePath(path)
  {
    if a == [] {
      assert a + [path] == [path] && EncodePaths([path]) == EncodePath(path) + [];
    } else {
      assert (a + [path])[1..] == a[1..] + [path];
      EncodeAppend(a[1..], path);
    }
  }

  /** A file parses exactly when it is the encoding of an anchor and paths with canonical field
      elements, and then to those. */
  method ParseMerklePaths(canonical: Canonical, buffer: seq<byte>) returns (r: Option<PathsFile>)
    ensures r.Some? ==> WellFormed(canonical, r.value) && EncodeFile(r.value) == buffer
    ensures r.None? ==> forall file :: WellFormed(canonical, file) ==> EncodeFile(file) != buffer
  {
    if |buffer| < NODE_SIZE || (|buffer| - NODE_SIZE) % PATH_SIZE != 0 {
      forall file | WellFormed(canonical, file)
        ensures EncodeFile(file) != buffer
      {
        EncodedLength(canonical, file.paths);
      }
      return None;
    }
    var anchor, pathsBytes := buffer[..NODE_SIZE], buffer[NODE_SIZE..];
    if !canonical(anchor) {
      forall file | WellFormed(canonical, file)
        ensures EncodeFile(file) != buffer
      {
        assert EncodeFile(file)[..NODE_SIZE] == file.anchor;
      }
      return None;
    }
    var paths := [];
    for i := 0 to |pathsBytes| / PATH_SIZE
      invariant |paths| == i && forall k :: 0 <= k < i ==> WellFormedPath(canonical, paths[k])
      invariant EncodePaths(paths) == pathsBytes[..PATH_SIZE * i]
    {
      var chunk := pathsBytes[PATH_SIZE * i..PATH_SIZE * (i + 1)];
      var path := DecodePath(chunk);
      DecodedPath(chunk);
      if j :| 0 <= j < DEPTH && !canonical(path.nodes[j]) {
        forall file | WellFormed(canonical, file)
          ensures EncodeFile(file) != buffer
        {
          NotEncoded(canonical, file, pathsBytes, i, j);
          assert EncodeFile(file)[NODE_SIZE..] == EncodePaths(file.paths);
        }
        return None;
      }
      EncodeAppend(paths, path);
      paths := paths + [path];
      assert pathsBytes[..PATH_SIZE * (i + 1)] == pathsBytes[..PATH_SIZE * i] + chunk;
    }
    assert pathsBytes[..PATH_SIZE * (|pathsBytes| / PATH_SIZE)] == pathsBytes;
    return Some(PathsFile(anchor, paths));
  }

  lemma NotEncoded(canonical: Canonical, file: PathsFile, pathsBytes: seq<byte>, i: nat, j: nat)
    requires WellFormed(canonical, file) && PATH_SIZE * (i + 1) <= |pathsBytes| && j < DEPTH
    requires !canonical(DecodePath(pathsBytes[PATH_SIZE * i..PATH_SIZE * (i + 1)]).nodes[j])
    ensures EncodePaths(file.paths) != pathsBytes
  {
    EncodedLength(canonical, file.paths);
    if i < |file.paths| {
      EncodedChunk(canonical, file.paths, i);
      EncodedPath(canonical, file.paths[i]);
    }
  }

  // ---- Notes ----

  type Zat = x: nat | x < U64_LIMIT

  datatype Note = Note(value: Zat)

  type Key = nat
  type Action = nat

  /** Trial decryption is a parameter. */
  type Decryption = (Key, Action) -> Option<Note>

  type Bundle = seq<Action>

  /** zcash_deposited_amount: the sum, on u64, over all actions that decrypt. */
  function DepositedAmount(decrypt: Decryption, bundle: Bundle, key: Key): Zat
  {
    if bundle == [] then 0
    else
      var note := decrypt(key, bundle[0]);
      ((if note.Some? then note.value.value else 0) + DepositedAmount(decrypt, bundle[1..], key)) % U64_LIMIT
  }

  /** The (note, path) pairs of a zip with trial decryption as the filter. */
  function Matches(decrypt: Decryption, bundle: Bundle, paths: seq<MerklePath>, key: Key): seq<(Note, MerklePath)>
  {
    if bundle == [] || paths == [] then []
    else
      var note := decrypt(key, bundle[0]);
      (if note.Some? then [(note.value, paths[0])] else []) + Matches(decrypt, bundle[1..], paths[1..], key)
  }

  function ExtractUniqueNote(decrypt: Decryption, bundle: Bundle, paths: seq<MerklePath>, key: Key)
    : Option<(Note, MerklePath)>
  {
    var pairs := Matches(decrypt, bundle, paths, key);
    if |pairs| == 1 then Some(pairs[0]) else None
  }

  /** Action j is the only one among the first n that decrypts. */
  ghost predicate OnlyNote(decrypt: Decryption, bundle: Bundle, key: Key, n: nat, j: nat)
  {
    && j < n <= |bundle| && decrypt(key, bundle[j]).Some?
    && forall k :: 0 <= k < n && k != j ==> decrypt(key, bundle[k]).None?
  }

  function Min(a: nat, b: nat): nat
  {
    if a < b then a else b
  }

  lemma {:induction false} MatchesNone(decrypt: Decryption, bundle: Bundle, paths: seq<MerklePath>, key: Key)
    ensures Matches(decrypt, bundle, paths, key) == []
       <==> forall k :: 0 <= k < Min(|bundle|, |paths|) ==> decrypt(key, bundle[k]).None?
  {
    if bundle != [] && paths != [] {
      MatchesNone(decrypt, bundle[1..], paths[1..], key);
      var n := Min(|bundle|, |paths|);
      assert forall k :: 1 <= k < n ==> bundle[k] == bundle[1..][k - 1];
      assert (forall k :: 0 <= k < n - 1 ==> decrypt(key, bundle[1..][k]).None?)
          == (forall k :: 1 <= k < n ==> decrypt(key, bundle[k]).None?) by {
        assert forall k :: 0 <= k < n - 1 ==> bundle[1..][k] == bundle[k + 1];
      }
    }
  }

  /** Extraction succeeds exactly when one action that has a path decrypts, with its note and path. */
  lemma {:induction false} ExtractionMeaning(
    decrypt: Decryption, bundle: Bundle, paths: seq<MerklePath>, key: Key, j: nat)
    ensures OnlyNote(decrypt, bundle, key, Min(|bundle|, |paths|), j) ==>
        ExtractUniqueNote(decrypt, bundle, paths, key) == Some((decrypt(key, bundle[j]).value, paths[j]))
    ensures ExtractUniqueNote(decrypt, bundle, paths, key).Some? ==>
        exists k: nat :: OnlyNote(decrypt, bundle, key, Min(|bundle|, |paths|), k)
    decreases |bundle|
  {
    if bundle != [] && paths != [] {
      var n := Min(|bundle|, |paths|);
      var rest, tail := bundle[1..], paths[1..];
      MatchesNone(decrypt, rest, tail, key);
      if decrypt(key, bundle[0]).Some? {
        if ExtractUniqueNote(decrypt, bundle, paths, key).Some? {
          forall k | 0 < k < n
            ensures decrypt(key, bundle[k]).None?
          {
            assert bundle[k] == rest[k - 1];
          }
          assert OnlyNote(decrypt, bundle, key, n, 0);
        }
      } else {
        ExtractionMeaning(decrypt, rest, tail, key, if j > 0 then j - 1 else 0);
        if OnlyNote(decrypt, bundle, key, n, j) {
          assert OnlyNote(decrypt, rest, key, n - 1, j - 1);
        }
        if ExtractUniqueNote(decrypt, bundle, paths, key).Some? {
          var k: nat :| OnlyNote(decrypt, rest, key, n - 1, k);
          forall i | 0 < i < n && i != k + 1
            ensures decrypt(key, bundle[i]).None?
          {
            assert bundle[i] == rest[i - 1];
          }
          assert OnlyNote(decrypt, bundle, key, n, k + 1);
        }
      }
    }
  }

  lemma {:induction false} NothingDeposited(decrypt: Decryption, bundle: Bundle, key: Key)
    requires forall k :: 0 <= k < |bundle| ==> decrypt(key, bundle[k]).None?
    ensures DepositedAmount(decrypt, bundle, key) == 0
  {
    if bundle != [] {
      NothingDeposited(decrypt, bundle[1..], key);
    }
  }

  /** With a path for every action, the extracted note is worth what the key's deposit is worth. */
  lemma {:induction false} NoteIsDeposit(decrypt: Decryption, bundle: Bundle, key: Key, j: nat)
    requires OnlyNote(decrypt, bundle, key, |bundle|, j)
    ensures DepositedAmount(decrypt, bundle, key) == decrypt(key, bundle[j]).value.value
    decreases j
  {
    if j == 0 {
      forall k | 0 <= k < |bundle| - 1
        ensures decrypt(key, bundle[1..][k]).None?
      {
        assert bundle[1..][k] == bundle[k + 1];
      }
      NothingDeposited(decrypt, bundle[1..], key);
    } else {
      assert OnlyNote(decrypt, bundle[1..], key, |bundle| - 1, j - 1);
      NoteIsDeposit(decrypt, bundle[1..], key, j - 1);
    }
  }

  // ---- Pairing bundles with paths ----

  /** The number of actions before bundle i. */
  function Offset(bundles: seq<Bundle>, i: nat): (r: nat)
    requires i <= |bundles|
  {
    if i == 0 then 0 else Offset(bundles, i - 1) + |bundles[i - 1]|
  }

  lemma {:induction false} OffsetMonotone(bundles: seq<Bundle>, i: nat, j: nat)
    requires i <= j <= |bundles|
    ensures Offset(bundles, i) <= Offset(bundles, j)
    decreases j
  {
    if i < j {
      OffsetMonotone(bundles, i, j - 1);
    }
  }

  /** The actions of all bundles in their order. */
  function Flat(bundles: seq<Bundle>): Bundle
  {
    if bundles == [] then [] else Flat(bundles[..|bundles| - 1]) + bundles[|bundles| - 1]
  }

  lemma {:induction false} OffsetOfFirst(bundles: seq<Bundle>, n: nat, i: nat)
    requires i <= n <= |bundles|
    ensures Offset(bundles[..n], i) == Offset(bundles, i)
    decreases i
  {
    if i > 0 {
      OffsetOfFirst(bundles, n, i - 1);
    }
  }

  /** The offset of a bundle and an index in it are the flat index of the action. */
  lemma {:induction false} FlatIndex(bundles: seq<Bundle>, i: nat, j: nat)
    requires i < |bundles| && j < |bundles[i]|
    ensures |Flat(bundles)| == Offset(bundles, |bundles|)
    ensures Offset(bundles, i) + j < |Flat(bundles)| && Flat(bundles)[Offset(bundles, i) + j] == bundles[i][j]
    decreases |bundles|
  {
    var n := |bundles| - 1;
    var first := bundles[..n];
    FlatLength(first);
    OffsetOfFirst(bundles, n, n);
    if i < n {
      FlatIndex(first, i, j);
      OffsetOfFirst(bundles, n, i);
    }
  }

  lemma {:induction false} FlatLength(bundles: seq<Bundle>)
    ensures |Flat(bundles)| == Offset(bundles, |bundles|)
  {
    if bundles != [] {
      var n := |bundles| - 1;
      FlatLength(bundles[..n]);
      OffsetOfFirst(bundles, n, n);
    }
  }

  /** How many actions of bundle i get a path when there are `available` paths in all. */
  function Covered(bundles: seq<Bundle>, i: nat, available: nat): nat
    requires i < |bundles|
  {
    Min(|bundles[i]|, available - Min(Offset(bundles, i), available))
  }

  /** The covered actions are those whose flat index is that of a path. */
  lemma {:induction false} CoveredMeaning(bundles: seq<Bundle>, i: nat, available: nat, j: nat)
    requires i < |bundles|
    ensures j < Covered(bundles, i, available) <==> j < |bundles[i]| && Offset(bundles, i) + j < available
  {
    hide Offset;
  }

  /** Bundle i has exactly one covered action that decrypts; it is paired with the path at the flat
      index of that action. */
  ghost predicate PairedAt(
    decrypt: Decryption, bundles: seq<Bundle>, keys: seq<Key>, paths: seq<MerklePath>, i: nat, pair: (Note, MerklePath))
    requires i < |bundles| == |keys|
  {
    exists j: nat ::
      && OnlyNote(decrypt, bundles[i], keys[i], Covered(bundles, i, |paths|), j)
      && Offset(bundles, i) + j < |paths|
      && pair == (decrypt(keys[i], bundles[i][j]).value, paths[Offset(bundles, i) + j])
  }

  ghost predicate NoneAt(decrypt: Decryption, bundles: seq<Bundle>, keys: seq<Key>, paths: seq<MerklePath>, i: nat)
    requires i < |bundles| == |keys|
  {
    forall j: nat :: !OnlyNote(decrypt, bundles[i], keys[i], Covered(bundles, i, |paths|), j)
  }

  lemma Extracted(decrypt: Decryption, bundle: Bundle, paths: seq<MerklePath>, key: Key) returns (j: nat)
    requires ExtractUniqueNote(decrypt, bundle, paths, key).Some?
    ensures OnlyNote(decrypt, bundle, key, Min(|bundle|, |paths|), j) && j < |bundle| && j < |paths|
    ensures decrypt(key, bundle[j]).Some?
    ensures ExtractUniqueNote(decrypt, bundle, paths, key) == Some((decrypt(key, bundle[j]).value, paths[j]))
  {
    ExtractionMeaning(decrypt, bundle, paths, key, 0);
    j :| OnlyNote(decrypt, bundle, key, Min(|bundle|, |paths|), j);
    ExtractionMeaning(decrypt, bundle, paths, key, j);
  }

  lemma NotExtracted(decrypt: Decryption, bundle: Bundle, paths: seq<MerklePath>, key: Key, n: nat)
    requires ExtractUniqueNote(decrypt, bundle, paths, key).None? && n == Min(|bundle|, |paths|)
    ensures forall j: nat :: !OnlyNote(decrypt, bundle, key, n, j)
  {
    forall j: nat
      ensures !OnlyNote(decrypt, bundle, key, n, j)
    {
      ExtractionMeaning(decrypt, bundle, paths, key, j);
    }
  }

  lemma IntroducePaired(
    decrypt: Decryption, bundles: seq<Bundle>, keys: seq<Key>, paths: seq<MerklePath>, i: nat, j: nat)
    requires i < |bundles| == |keys| && j < |bundles[i]| && decrypt(keys[i], bundles[i][j]).Some?
    requires OnlyNote(decrypt, bundles[i], keys[i], Covered(bundles, i, |paths|), j)
    requires Offset(bundles, i) + j < |paths|
    ensures PairedAt(decrypt, bundles, keys, paths, i,
      (decrypt(keys[i], bundles[i][j]).value, paths[Offset(bundles, i) + j]))
  {
    hide OnlyNote;
  }

  /** What one bundle takes from the shared iterator, and what becomes of it. */
  lemma {:induction false} TakenPaths(
    decrypt: Decryption, bundles: seq<Bundle>, keys: seq<Key>, paths: seq<MerklePath>, i: nat, taken: seq<MerklePath>)
    requires i < |bundles| == |keys|
    requires var next := Min(Offset(bundles, i), |paths|);
             taken == paths[next..next + Covered(bundles, i, |paths|)]
    ensures var note := ExtractUniqueNote(decrypt, bundles[i], taken, keys[i]);
            if note.Some? then PairedAt(decrypt, bundles, keys, paths, i, note.value)
            else NoneAt(decrypt, bundles, keys, paths, i)
  {
    hide Offset;
    var n := Covered(bundles, i, |paths|);
    assert Min(|bundles[i]|, |taken|) == n == |taken|;
    hide ExtractUniqueNote, OnlyNote, Covered, PairedAt;
    if ExtractUniqueNote(decrypt, bundles[i], taken, keys[i]).Some? {
      var j := Extracted(decrypt, bundles[i], taken, keys[i]);
      assert taken[j] == paths[Offset(bundles, i) + j];
      IntroducePaired(decrypt, bundles, keys, paths, i, j);
    } else {
      NotExtracted(decrypt, bundles[i], taken, keys[i], n);
    }
  }

  /** The shared iterator: it is drained bundle by bundle, up to the first bundle without a unique note. */
  method PairNotes(decrypt: Decryption, bundles: seq<Bundle>, keys: seq<Key>, paths: seq<MerklePath>)
    returns (r: Option<seq<(Note, MerklePath)>>)
    requires |keys| == |bundles|
    ensures r.Some? ==> |r.value| == |bundles|
    ensures r.Some? ==> forall i :: 0 <= i < |bundles| ==> PairedAt(decrypt, bundles, keys, paths, i, r.value[i])
    ensures r.None? ==> exists i :: 0 <= i < |bundles| && NoneAt(decrypt, bundles, keys, paths, i)
  {
    hide PairedAt, NoneAt, ExtractUniqueNote;
    var notes := [];
    var next := 0;
    for i := 0 to |bundles|
      invariant next == Min(Offset(bundles, i), |paths|) && |notes| == i
      invariant forall k :: 0 <= k < i ==> PairedAt(decrypt, bundles, keys, paths, k, notes[k])
    {
      var take := Min(|bundles[i]|, |paths| - next);
      var taken := paths[next..next + take];
      TakenPaths(decrypt, bundles, keys, paths, i, taken);
      next := next + take;
      var note := ExtractUniqueNote(decrypt, bundles[i], taken, keys[i]);
      if note.None? {
        return None;
      }
      notes := notes + [note.value];
    }
    return Some(notes);
  }

  /** With a full set of paths every spent note is worth the deposit of its bundle. */
  lemma {:induction false} PairedNotesAreDeposits(
    decrypt: Decryption, bundles: seq<Bundle>, keys: seq<Key>, paths: seq<MerklePath>, i: nat, pair: (Note, MerklePath))
    requires i < |bundles| == |keys| && Offset(bundles, |bundles|) <= |paths|
    requires PairedAt(decrypt, bundles, keys, paths, i, pair)
    ensures pair.0.value == DepositedAmount(decrypt, bundles[i], keys[i])
  {
    OffsetMonotone(bundles, i + 1, |bundles|);
    assert Covered(bundles, i, |paths|) == |bundles[i]|;
    var j: nat :| OnlyNote(decrypt, bundles[i], keys[i], Covered(bundles, i, |paths|), j)
               && Offset(bundles, i) + j < |paths|
               && pair == (decrypt(keys[i], bundles[i][j]).value, paths[Offset(bundles, i) + j]);
    NoteIsDeposit(decrypt, bundles[i], keys[i], j);
  }
}
