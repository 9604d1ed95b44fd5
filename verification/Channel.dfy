/** The record layer: an encrypted channel over a connection that the host controls. */
module RecordLayer {
  import opened Bytes
  import opened Options

  // ---- The host ----

  /** What happens next on the host's side of a connection. NoMemory makes an allocation fail. */
  datatype Event = Data(bytes: seq<byte>) | Failure | NoMemory

  datatype Error = EIO | ECONNRESET | ENOMEM | EFAULT | HostError

  datatype Read = Read(answer: Result, rest: seq<Event>)
  datatype Result = Got(bytes: seq<byte>) | Negative

  /** ocall_ingress behaves like recv: at most size bytes, none once the peer is gone. */
  function OcallIngress(events: seq<Event>, size: nat): (r: Read)
    ensures r.answer.Got? ==> |r.answer.bytes| <= size
    ensures Weight(r.rest) <= Weight(events)
    ensures r.answer.Got? && r.answer.bytes != [] ==> Weight(r.rest) < Weight(events)
  {
    if events == [] then Read(Got([]), [])
    else
      match events[0]
      case Data(bytes) =>
        if |bytes| <= size then Read(Got(bytes), events[1..])
        else
          var rest := [Data(bytes[size..])] + events[1..];
          assert rest[1..] == events[1..];
          Read(Got(bytes[..size]), rest)
      case _ => Read(Negative, events[1..])
  }

  function Weight(events: seq<Event>): nat
  {
    if events == [] then 0
    else 1 + (if events[0].Data? then |events[0].bytes| else 0) + Weight(events[1..])
  }

  predicate AllocationFails(events: seq<Event>)
  {
    events != [] && events[0].NoMemory?
  }

  function AfterAllocation(events: seq<Event>): seq<Event>
  {
    if AllocationFails(events) then events[1..] else events
  }

  // ---- Records and the ideal cipher ----

  /** Addition on uint64_t. */
  function Add64(a: nat, b: nat): (r: nat)
    ensures a + b < U64_LIMIT ==> r == a + b
  {
    (a + b) % U64_LIMIT
  }

  const NONCE_SIZE := 12
  const TAG_SIZE := 16
  const ENVELOPE_SIZE := 32

  /** One call of the cipher: what it was given and what it returned. */
  datatype Sealed = Sealed(sequence: nat, plaintext: seq<byte>, nonce: seq<byte>, tag: seq<byte>, ciphertext: seq<byte>)

  predicate WellSealed(s: Sealed)
  {
    |s.nonce| == NONCE_SIZE && |s.tag| == TAG_SIZE && |s.ciphertext| == |s.plaintext|
  }

  /** An ideal cipher opens only what was sealed, under the same sequence number. */
  function Open(log: seq<Sealed>, sequence: nat, nonce: seq<byte>, tag: seq<byte>, ciphertext: seq<byte>)
    : (r: Option<seq<byte>>)
    ensures r.Some? ==> exists i :: 0 <= i < |log| && log[i].sequence == sequence
                                 && log[i].plaintext == r.value && log[i].ciphertext == ciphertext
    ensures r.Some? ==> |r.value| == |ciphertext|
  {
    if log == [] then None
    else if && log[0].sequence == sequence && log[0].nonce == nonce && log[0].tag == tag
            && log[0].ciphertext == ciphertext && |log[0].plaintext| == |ciphertext|
    then Some(log[0].plaintext)
    else Open(log[1..], sequence, nonce, tag, ciphertext)
  }

  function EnvelopeHeader(s: Sealed): (r: seq<byte>)
    ensures WellSealed(s) ==> |r| == ENVELOPE_SIZE
  {
    EncodeU32(|s.plaintext| % U32_LIMIT) + s.nonce + s.tag
  }

  // ---- What ingress computes ----

  /** The receiving half of a channel: the host's future events, the sequence number, and what is
      left of the current record. */
  datatype Receiver = Receiver(events: seq<Event>, sequence: nat, record: Option<seq<byte>>)

  datatype Outcome = Moved(bytes: seq<byte>) | Failed(error: Error)

  datatype Filled = Filled(bytes: seq<byte>, rest: seq<Event>, error: Option<Error>)

  /** Reads until need bytes are there. */
  function Fill(events: seq<Event>, need: nat, got: seq<byte>): (r: Filled)
    requires |got| <= need
    ensures |r.bytes| <= need && (r.error.None? ==> |r.bytes| == need)
    ensures Weight(r.rest) <= Weight(events)
    decreases need - |got|
  {
    if |got| == need then Filled(got, events, None)
    else
      var read := OcallIngress(events, need - |got|);
      if read.answer.Negative? then Filled(got, read.rest, Some(HostError))
      else if read.answer.bytes == [] then Filled(got, read.rest, Some(ECONNRESET))
      else Fill(read.rest, need, got + read.answer.bytes)
  }

  /** Fetches and decrypts a record. After an error the buffer stays the current record: as far as it is filled, or
      as it was before decryption, which is a choice, as the library may leave anything there. */
  function NextRecord(r: Receiver, log: seq<Sealed>): (Receiver, Option<Error>)
  {
    var read := OcallIngress(r.events, ENVELOPE_SIZE);
    if read.answer.Negative? then (r.(events := read.rest), Some(HostError))
    else
      var header := read.answer.bytes;
      if |header| != ENVELOPE_SIZE then
        (r.(events := read.rest), Some(if header == [] then ECONNRESET else EIO))
      else if AllocationFails(read.rest) then
        (r.(events := AfterAllocation(read.rest)), Some(ENOMEM))
      else
        var length := LittleEndian(header[..4]);
        var filled := Fill(read.rest, length, []);
        if filled.error.Some? then
          (r.(events := filled.rest, record := Some(filled.bytes)), filled.error)
        else
          match Open(log, r.sequence, header[4..16], header[16..32], filled.bytes)
          case None => (r.(events := filled.rest, record := Some(filled.bytes)), Some(EFAULT))
          case Some(plaintext) =>
            (Receiver(filled.rest, Add64(r.sequence, length), Some(plaintext)), None)
  }

  /** Copies from the current record and drops it once it is empty. */
  function Move(r: Receiver, size: nat): (Receiver, Outcome)
    requires r.record.Some?
  {
    var record := r.record.value;
    var moved := if |record| > size then size else |record|;
    (r.(record := if moved == |record| then None else Some(record[moved..])), Moved(record[..moved]))
  }

  function Ingress(r: Receiver, size: nat, log: seq<Sealed>): (Receiver, Outcome)
  {
    if r.record.Some? then Move(r, size)
    else
      var (next, error) := NextRecord(r, log);
      if error.Some? then (next, Failed(error.value)) else Move(next, size)
  }

  // ---- What can be received ----

  function Plaintexts(log: seq<Sealed>): (r: seq<seq<byte>>)
    ensures |r| == |log|
    ensures forall i :: 0 <= i < |log| ==> r[i] == log[i].plaintext
  {
    seq(|log|, i requires 0 <= i < |log| => log[i].plaintext)
  }

  /** All bytes given to egress. */
  function Stream(log: seq<Sealed>): seq<byte>
  {
    Concat(Plaintexts(log))
  }

  /** The number of bytes in the first k records. */
  function Boundary(log: seq<Sealed>, k: nat): nat
    requires k <= |log|
  {
    |Concat(Plaintexts(log)[..k])|
  }

  /** A log in which every send went through: each record is numbered with the bytes before it. */
  ghost predicate InSequence(log: seq<Sealed>)
  {
    && |Stream(log)| < U64_LIMIT
    && forall i :: 0 <= i < |log| ==> WellSealed(log[i]) && log[i].sequence == Boundary(log, i)
  }

  /** All that opens under the session key, which both ends use in both directions, once this end has sealed
      `made` records and the peer `sent`. */
  function Shared(own: seq<Sealed>, peer: seq<Sealed>, made: nat, sent: nat): seq<Sealed>
    requires made <= |own| && sent <= |peer|
  {
    own[..made] + peer[..sent]
  }

  datatype Call = Call(size: nat, made: nat, sent: nat)

  predicate Possible(calls: seq<Call>, own: seq<Sealed>, peer: seq<Sealed>)
  {
    forall i :: 0 <= i < |calls| ==> calls[i].made <= |own| && calls[i].sent <= |peer|
  }

  /** The bytes a sequence of calls returns, up to the first error. */
  function Received(r: Receiver, calls: seq<Call>, own: seq<Sealed>, peer: seq<Sealed>): seq<byte>
    requires Possible(calls, own, peer)
    decreases |calls|
  {
    if calls == [] then []
    else
      var (next, outcome) := Ingress(r, calls[0].size, Shared(own, peer, calls[0].made, calls[0].sent));
      if outcome.Failed? then [] else outcome.bytes + Received(next, calls[1..], own, peer)
  }

  /** Records, of either end, that open one after the other from a sequence number on. */
  ghost predicate Chain(own: seq<Sealed>, peer: seq<Sealed>, xs: seq<Sealed>, sequence: nat)
    decreases |xs|
  {
    xs != [] ==>
      && (xs[0] in own || xs[0] in peer) && xs[0].sequence == sequence
      && Chain(own, peer, xs[1..], Add64(sequence, |xs[0].plaintext|))
  }

  function Remaining(r: Receiver): seq<byte>
  {
    if r.record.Some? then r.record.value else []
  }

  /** A fetched record is one that was sealed, by whichever end, under the current sequence number. */
  lemma {:induction false} FetchedRecord(r: Receiver, log: seq<Sealed>) returns (x: Sealed)
    requires NextRecord(r, log).1.None?
    ensures x in log && x.sequence == r.sequence
    ensures NextRecord(r, log).0.record == Some(x.plaintext)
    ensures NextRecord(r, log).0.sequence == Add64(r.sequence, |x.plaintext|)
  {
    hide Open;
    var read := OcallIngress(r.events, ENVELOPE_SIZE);
    var header := read.answer.bytes;
    var ciphertext := Fill(read.rest, LittleEndian(header[..4]), []).bytes;
    var text := Open(log, r.sequence, header[4..16], header[16..32], ciphertext);
    var i :| 0 <= i < |log| && log[i].sequence == r.sequence && log[i].plaintext == text.value;
    x := log[i];
  }

  /** One call takes bytes from the current record, or from one that opens next. */
  lemma {:induction false} IngressTakes(r: Receiver, size: nat, log: seq<Sealed>) returns (xs: seq<Sealed>)
    requires Ingress(r, size, log).1.Moved?
    ensures var (next, outcome) := Ingress(r, size, log);
            if r.record.Some? then
              xs == [] && next.sequence == r.sequence && Remaining(r) == outcome.bytes + Remaining(next)
            else
              && |xs| == 1 && xs[0] in log && xs[0].sequence == r.sequence
              && xs[0].plaintext == outcome.bytes + Remaining(next)
              && next.sequence == Add64(r.sequence, |xs[0].plaintext|)
  {
    xs := [];
    hide NextRecord, Add64;
    if r.record.None? {
      var x := FetchedRecord(r, log);
      xs := [x];
    }
  }

  lemma {:induction false} StreamOf(x: Sealed, xs: seq<Sealed>)
    ensures Stream([x] + xs) == x.plaintext + Stream(xs)
  {
    assert Plaintexts([x] + xs)[1..] == Plaintexts(xs);
  }

  /** Whatever the host does and whatever sizes are asked for, the bytes received before the first error are
      the beginning of the texts of some chain of records. */
  lemma {:induction false} ReceivedIsChain(r: Receiver, calls: seq<Call>, own: seq<Sealed>, peer: seq<Sealed>)
    returns (xs: seq<Sealed>)
    requires Possible(calls, own, peer)
    ensures Chain(own, peer, xs, r.sequence)
    ensures Received(r, calls, own, peer) <= Remaining(r) + Stream(xs)
    decreases |calls|
  {
    hide Ingress, Stream, Remaining, Add64;
    xs := [];
    if calls != [] {
      var log := Shared(own, peer, calls[0].made, calls[0].sent);
      var (next, outcome) := Ingress(r, calls[0].size, log);
      if outcome.Moved? {
        var taken := IngressTakes(r, calls[0].size, log);
        var ys := ReceivedIsChain(next, calls[1..], own, peer);
        ChainContinues(own, peer, taken, ys, r, next);
        xs := taken + ys;
        TakenStream(taken, ys, r, next, outcome.bytes);
      }
    }
  }

  lemma {:induction false} ChainContinues(
    own: seq<Sealed>, peer: seq<Sealed>, taken: seq<Sealed>, ys: seq<Sealed>, r: Receiver, next: Receiver)
    requires |taken| <= 1 && Chain(own, peer, ys, next.sequence)
    requires taken == [] ==> next.sequence == r.sequence
    requires taken != [] ==>
        (taken[0] in own || taken[0] in peer) && taken[0].sequence == r.sequence
        && next.sequence == Add64(r.sequence, |taken[0].plaintext|)
    ensures Chain(own, peer, taken + ys, r.sequence)
  {
    if taken == [] {
      assert taken + ys == ys;
    } else {
      assert (taken + ys)[1..] == ys;
    }
  }

  lemma {:induction false} TakenStream(
    taken: seq<Sealed>, ys: seq<Sealed>, r: Receiver, next: Receiver, bytes: seq<byte>)
    requires |taken| <= 1
    requires taken == [] ==> Remaining(r) == bytes + Remaining(next)
    requires taken != [] ==> r.record.None? && taken[0].plaintext == bytes + Remaining(next)
    ensures Remaining(r) + Stream(taken + ys) == bytes + (Remaining(next) + Stream(ys))
  {
    if taken == [] {
      assert taken + ys == ys;
    } else {
      assert taken == [taken[0]];
      StreamOf(taken[0], ys);
    }
    hide Stream;
  }

  // ---- The peer's stream ----

  predicate Unused(log: seq<Sealed>, sequence: nat)
  {
    forall j :: 0 <= j < |log| ==> log[j].sequence != sequence
  }

  /** Whenever a record is fetched, none that the reader has sealed so far has the number it stands at. */
  ghost predicate Clear(r: Receiver, calls: seq<Call>, own: seq<Sealed>, peer: seq<Sealed>)
    requires Possible(calls, own, peer)
    decreases |calls|
  {
    calls != [] ==>
      var (next, outcome) := Ingress(r, calls[0].size, Shared(own, peer, calls[0].made, calls[0].sent));
      && (r.record.None? ==> Unused(own[..calls[0].made], r.sequence))
      && (outcome.Moved? ==> Clear(next, calls[1..], own, peer))
  }

  /** As long as that is so, the bytes received are the beginning of the texts of a chain of the peer's
      records, for any host. */
  lemma {:induction false} ReceivedIsPeerChain(r: Receiver, calls: seq<Call>, own: seq<Sealed>, peer: seq<Sealed>)
    returns (xs: seq<Sealed>)
    requires Possible(calls, own, peer) && Clear(r, calls, own, peer)
    ensures Chain([], peer, xs, r.sequence)
    ensures Received(r, calls, own, peer) <= Remaining(r) + Stream(xs)
    decreases |calls|
  {
    hide Ingress, Stream, Remaining, Add64;
    xs := [];
    if calls != [] {
      var log := Shared(own, peer, calls[0].made, calls[0].sent);
      var (next, outcome) := Ingress(r, calls[0].size, log);
      if outcome.Moved? {
        var taken := IngressTakes(r, calls[0].size, log);
        var ys := ReceivedIsPeerChain(next, calls[1..], own, peer);
        ChainContinues([], peer, taken, ys, r, next);
        xs := taken + ys;
        TakenStream(taken, ys, r, next, outcome.bytes);
      }
    }
  }

  lemma {:induction false} PeerRecord(peer: seq<Sealed>, i: nat)
    requires InSequence(peer) && i < |peer|
    ensures peer[i].sequence == Boundary(peer, i)
    ensures Add64(Boundary(peer, i), |peer[i].plaintext|) == Boundary(peer, i + 1)
    ensures Boundary(peer, i) <= Boundary(peer, i + 1) <= |Stream(peer)|
    ensures Stream(peer)[Boundary(peer, i)..Boundary(peer, i + 1)] == peer[i].plaintext
  {
    ConcatSlice(Plaintexts(peer), i);
  }

  lemma {:induction false} BoundaryBound(peer: seq<Sealed>, k: nat)
    requires k <= |peer|
    ensures Boundary(peer, k) <= |Stream(peer)|
    ensures Boundary(peer, 0) == 0
  {
    if k == |peer| {
      assert Plaintexts(peer)[..k] == Plaintexts(peer);
    } else {
      ConcatSlice(Plaintexts(peer), k);
    }
  }

  lemma {:induction false} PrefixStep(stream: seq<byte>, here: nat, there: nat, text: seq<byte>, rest: seq<byte>)
    requires here <= there <= |stream| && stream[here..there] == text && rest <= stream[there..]
    ensures text + rest <= stream[here..]
  {
    assert stream[here..] == stream[here..there] + stream[there..];
  }

  lemma {:induction false} ChainOnPeer(peer: seq<Sealed>, xs: seq<Sealed>, k: nat)
    requires InSequence(peer) && k <= |peer| && Chain([], peer, xs, Boundary(peer, k))
    ensures Boundary(peer, k) <= |Stream(peer)| && Stream(xs) <= Stream(peer)[Boundary(peer, k)..]
    decreases |xs|
  {
    hide Stream, Boundary, InSequence, Add64;
    BoundaryBound(peer, k);
    if xs == [] {
      assert Stream(xs) == [] by {
        NoStream(xs);
      }
    } else {
      var i: nat :| i < |peer| && peer[i] == xs[0];
      PeerRecord(peer, i);
      ChainOnPeer(peer, xs[1..], i + 1);
      assert xs == [xs[0]] + xs[1..];
      StreamOf(xs[0], xs[1..]);
      PrefixStep(Stream(peer), Boundary(peer, i), Boundary(peer, i + 1), xs[0].plaintext, Stream(xs[1..]));
    }
  }

  lemma {:induction false} NoStream(xs: seq<Sealed>)
    requires xs == []
    ensures Stream(xs) == []
  {
  }

  lemma {:induction false} ReceivedContinues(
    r: Receiver, calls: seq<Call>, own: seq<Sealed>, peer: seq<Sealed>, k: nat)
    requires Possible(calls, own, peer) && InSequence(peer) && Clear(r, calls, own, peer)
    requires k <= |peer| && r.sequence == Boundary(peer, k)
    ensures Boundary(peer, k) <= |Stream(peer)|
    ensures Received(r, calls, own, peer) <= Remaining(r) + Stream(peer)[Boundary(peer, k)..]
  {
    hide Stream, Chain, InSequence, Clear, Boundary, Received, Remaining;
    var xs := ReceivedIsPeerChain(r, calls, own, peer);
    ChainOnPeer(peer, xs, k);
  }

  /** As long as the reader's numbers are clear, the bytes read before the first error are a prefix of the
      bytes the peer sent, whatever the host does. */
  lemma {:induction false} ReceivedIsPrefix(events: seq<Event>, calls: seq<Call>, own: seq<Sealed>, peer: seq<Sealed>)
    requires Possible(calls, own, peer) && InSequence(peer)
    requires Clear(Receiver(events, 0, None), calls, own, peer)
    ensures Received(Receiver(events, 0, None), calls, own, peer) <= Stream(peer)
  {
    hide Stream, Chain, InSequence, Clear, Boundary, Received;
    BoundaryBound(peer, 0);
    ReceivedContinues(Receiver(events, 0, None), calls, own, peer, 0);
  }

  // ---- A host that delivers records ----

  function Chunks(parts: seq<seq<byte>>): seq<Event>
  {
    if parts == [] then [] else [Data(parts[0])] + Chunks(parts[1..])
  }

  /** One record: its header in one piece, then its ciphertext in parts. */
  function Arriving(s: Sealed, parts: seq<seq<byte>>, rest: seq<Event>): seq<Event>
  {
    [Data(EnvelopeHeader(s))] + (Chunks(parts) + rest)
  }

  /** Records one after the other, each header in one piece and each ciphertext cut into non-empty parts. */
  function Delivery(log: seq<Sealed>, cuts: seq<seq<seq<byte>>>): seq<Event>
    requires |cuts| == |log|
  {
    if log == [] then []
    else Arriving(log[0], cuts[0], Delivery(log[1..], cuts[1..]))
  }

  predicate CutsOf(parts: seq<seq<byte>>, text: seq<byte>)
  {
    Concat(parts) == text && forall i :: 0 <= i < |parts| ==> parts[i] != []
  }

  lemma {:induction false} FillFromChunks(parts: seq<seq<byte>>, rest: seq<Event>, need: nat, got: seq<byte>)
    requires |got| + |Concat(parts)| == need && forall i :: 0 <= i < |parts| ==> parts[i] != []
    ensures Fill(Chunks(parts) + rest, need, got) == Filled(got + Concat(parts), rest, None)
    decreases |parts|
  {
    var events := Chunks(parts) + rest;
    if parts == [] {
      assert events == rest && got + [] == got;
    } else {
      assert Concat(parts) == parts[0] + Concat(parts[1..]);
      assert events[0] == Data(parts[0]) && events[1..] == Chunks(parts[1..]) + rest;
      FillFromChunks(parts[1..], rest, need, got + parts[0]);
      assert got + parts[0] + Concat(parts[1..]) == got + Concat(parts);
    }
  }

  lemma {:induction false} OpensSomething(log: seq<Sealed>, i: nat)
    requires i < |log| && WellSealed(log[i])
    ensures Open(log, log[i].sequence, log[i].nonce, log[i].tag, log[i].ciphertext).Some?
    decreases i
  {
    if i > 0 {
      OpensSomething(log[1..], i - 1);
    }
  }

  lemma {:induction false} HeaderFields(s: Sealed)
    requires WellSealed(s) && |s.plaintext| < U32_LIMIT
    ensures var header := EnvelopeHeader(s);
            LittleEndian(header[..4]) == |s.plaintext| && header[4..16] == s.nonce && header[16..32] == s.tag
  {
    assert EnvelopeHeader(s)[..4] == EncodeU32(|s.plaintext|);
  }

  lemma {:induction false} NoAllocationFailure(parts: seq<seq<byte>>, log: seq<Sealed>, cuts: seq<seq<seq<byte>>>)
    requires |cuts| == |log|
    ensures !AllocationFails(Chunks(parts) + Delivery(log, cuts))
    ensures !AllocationFails(Delivery(log, cuts))
  {
  }

  lemma {:induction false} RecordDelivered(
    s: Sealed, parts: seq<seq<byte>>, rest: seq<Event>, sequence: nat, log: seq<Sealed>, text: seq<byte>)
    requires WellSealed(s) && |s.plaintext| < U32_LIMIT && CutsOf(parts, s.ciphertext)
    requires !AllocationFails(Chunks(parts) + rest)
    requires Open(log, sequence, s.nonce, s.tag, s.ciphertext) == Some(text)
    ensures NextRecord(Receiver(Arriving(s, parts, rest), sequence, None), log)
         == (Receiver(rest, Add64(sequence, |s.plaintext|), Some(text)), None)
  {
    var header, tail := EnvelopeHeader(s), Chunks(parts) + rest;
    var events := [Data(header)] + tail;
    HeaderFields(s);
    FillFromChunks(parts, rest, |s.plaintext|, []);
    assert [] + s.ciphertext == s.ciphertext;
    assert events[1..] == tail && events[0] == Data(header);
    assert OcallIngress(events, ENVELOPE_SIZE) == Read(Got(header), tail);
    hide Fill, Open, Chunks, OcallIngress, EnvelopeHeader, LittleEndian, WellSealed, Add64;
  }

  /** The cipher is correct: what was sealed opens to what it was. */
  ghost predicate Unambiguous(log: seq<Sealed>)
  {
    forall i, j :: 0 <= i < |log| && 0 <= j < |log|
      && log[i].sequence == log[j].sequence && log[i].nonce == log[j].nonce
      && log[i].tag == log[j].tag && log[i].ciphertext == log[j].ciphertext
      ==> log[i].plaintext == log[j].plaintext
  }

  ghost predicate Deliverable(own: seq<Sealed>, peer: seq<Sealed>)
  {
    && Unambiguous(own + peer)
    && forall i :: 0 <= i < |own + peer| ==> WellSealed((own + peer)[i]) && |(own + peer)[i].plaintext| < U32_LIMIT
  }

  lemma {:induction false} RecordArrives(
    own: seq<Sealed>, peer: seq<Sealed>, made: nat, sent: nat, x: Sealed, parts: seq<seq<byte>>, rest: seq<Event>)
    requires Deliverable(own, peer) && made <= |own| && sent <= |peer|
    requires (x in own[..made] || x in peer[..sent]) && CutsOf(parts, x.ciphertext)
    requires !AllocationFails(Chunks(parts) + rest)
    ensures NextRecord(Receiver(Arriving(x, parts, rest), x.sequence, None), Shared(own, peer, made, sent))
         == (Receiver(rest, Add64(x.sequence, |x.plaintext|), Some(x.plaintext)), None)
  {
    var log := Shared(own, peer, made, sent);
    SharedIsDeliverable(own, peer, made, sent);
    assert x in log;
    var i: nat :| i < |log| && log[i] == x;
    OpensSomething(log, i);
    var text := Open(log, x.sequence, x.nonce, x.tag, x.ciphertext);
    var j := OpenedFields(log, x.sequence, x.nonce, x.tag, x.ciphertext);
    assert log[i].plaintext == log[j].plaintext;
    hide Open, NextRecord, Chunks, CutsOf, Unambiguous;
    RecordDelivered(x, parts, rest, x.sequence, log, x.plaintext);
  }

  lemma {:induction false} SharedIsDeliverable(own: seq<Sealed>, peer: seq<Sealed>, made: nat, sent: nat)
    requires Deliverable(own, peer) && made <= |own| && sent <= |peer|
    ensures Unambiguous(Shared(own, peer, made, sent))
    ensures forall x :: x in Shared(own, peer, made, sent) ==> WellSealed(x) && |x.plaintext| < U32_LIMIT
  {
    var log, all := Shared(own, peer, made, sent), own + peer;
    assert forall i :: 0 <= i < |log| ==> log[i] == all[if i < made then i else i - made + |own|];
  }

  lemma {:induction false} OpenedFields(
    log: seq<Sealed>, sequence: nat, nonce: seq<byte>, tag: seq<byte>, ciphertext: seq<byte>) returns (j: nat)
    requires Open(log, sequence, nonce, tag, ciphertext).Some?
    ensures j < |log|
    ensures log[j] == Sealed(sequence, Open(log, sequence, nonce, tag, ciphertext).value, nonce, tag, ciphertext)
  {
    var x := log[0];
    j := 0;
    if !(&& x.sequence == sequence && x.nonce == nonce && x.tag == tag
         && x.ciphertext == ciphertext && |x.plaintext| == |ciphertext|) {
      var i := OpenedFields(log[1..], sequence, nonce, tag, ciphertext);
      j := i + 1;
    }
  }

  /** Reads that ask for a record each. */
  function WholeReads(xs: seq<Sealed>, made: nat, sent: nat): (calls: seq<Call>)
    ensures |calls| == |xs| && forall i :: 0 <= i < |xs| ==> calls[i] == Call(|xs[i].plaintext|, made, sent)
  {
    seq(|xs|, i requires 0 <= i < |xs| => Call(|xs[i].plaintext|, made, sent))
  }

  /** Conversely a host can deliver every chain, however it fragments the records. */
  lemma {:induction false} EveryChainIsReceived(
    own: seq<Sealed>, peer: seq<Sealed>, xs: seq<Sealed>, cuts: seq<seq<seq<byte>>>, sequence: nat)
    requires Deliverable(own, peer) && Chain(own, peer, xs, sequence) && |cuts| == |xs|
    requires forall i :: 0 <= i < |xs| ==> CutsOf(cuts[i], xs[i].ciphertext)
    ensures Received(Receiver(Delivery(xs, cuts), sequence, None), WholeReads(xs, |own|, |peer|), own, peer)
         == Stream(xs)
    decreases |xs|
  {
    hide NextRecord, Ingress, Stream, Deliverable, CutsOf, Add64, Received;
    if xs == [] {
      NoStream(xs);
      NothingReceived(Receiver(Delivery(xs, cuts), sequence, None), own, peer);
    } else {
      var next := Receiver(Delivery(xs[1..], cuts[1..]), Add64(sequence, |xs[0].plaintext|), None);
      DeliversFirst(own, peer, xs, cuts, sequence, next);
      EveryChainIsReceived(own, peer, xs[1..], cuts[1..], next.sequence);
      assert xs == [xs[0]] + xs[1..];
      StreamOf(xs[0], xs[1..]);
      ReadsFirst(Receiver(Delivery(xs, cuts), sequence, None), next, xs, own, peer);
    }
  }

  lemma {:induction false} NothingReceived(r: Receiver, own: seq<Sealed>, peer: seq<Sealed>)
    ensures Received(r, [], own, peer) == []
  {
  }

  lemma {:induction false} DeliversFirst(
    own: seq<Sealed>, peer: seq<Sealed>, xs: seq<Sealed>, cuts: seq<seq<seq<byte>>>, sequence: nat, next: Receiver)
    requires Deliverable(own, peer) && Chain(own, peer, xs, sequence) && |cuts| == |xs| > 0
    requires CutsOf(cuts[0], xs[0].ciphertext)
    requires next == Receiver(Delivery(xs[1..], cuts[1..]), Add64(sequence, |xs[0].plaintext|), None)
    ensures Ingress(Receiver(Delivery(xs, cuts), sequence, None), |xs[0].plaintext|, Shared(own, peer, |own|, |peer|))
         == (next, Moved(xs[0].plaintext))
  {
    NoAllocationFailure(cuts[0], xs[1..], cuts[1..]);
    assert own[..|own|] == own && peer[..|peer|] == peer;
    RecordArrives(own, peer, |own|, |peer|, xs[0], cuts[0], next.events);
    WholeRead(Receiver(Delivery(xs, cuts), sequence, None), next, xs[0].plaintext, Shared(own, peer, |own|, |peer|));
    hide NextRecord, Ingress, Deliverable, CutsOf, Add64, Chunks, Arriving;
  }

  lemma {:induction false} ReadsFirst(r: Receiver, next: Receiver, xs: seq<Sealed>, own: seq<Sealed>, peer: seq<Sealed>)
    requires xs != []
    requires Ingress(r, |xs[0].plaintext|, Shared(own, peer, |own|, |peer|)) == (next, Moved(xs[0].plaintext))
    ensures Received(r, WholeReads(xs, |own|, |peer|), own, peer)
         == xs[0].plaintext + Received(next, WholeReads(xs[1..], |own|, |peer|), own, peer)
  {
    hide Ingress;
    assert WholeReads(xs, |own|, |peer|)[1..] == WholeReads(xs[1..], |own|, |peer|);
  }

  lemma {:induction false} WholeRead(r: Receiver, next: Receiver, text: seq<byte>, log: seq<Sealed>)
    requires r.record.None? && next.record.None?
    requires NextRecord(r, log) == (Receiver(next.events, next.sequence, Some(text)), None)
    ensures Ingress(r, |text|, log) == (next, Moved(text))
  {
    hide NextRecord;
    assert text[..|text|] == text;
  }

  function Whole(text: seq<byte>): (parts: seq<seq<byte>>)
    ensures CutsOf(parts, text)
  {
    assert Concat([text]) == text + Concat([]);
    if text == [] then [] else [text]
  }

  /** One part for a ciphertext, none for an empty one. */
  function Uncut(xs: seq<Sealed>): (cuts: seq<seq<seq<byte>>>)
    ensures |cuts| == |xs| && forall i :: 0 <= i < |xs| ==> CutsOf(cuts[i], xs[i].ciphertext)
  {
    seq(|xs|, i requires 0 <= i < |xs| => Whole(xs[i].ciphertext))
  }

  // ---- Exactly when the stream is kept ----

  ghost predicate AlwaysPrefix(own: seq<Sealed>, peer: seq<Sealed>)
  {
    forall events, calls :: Possible(calls, own, peer) ==>
      Received(Receiver(events, 0, None), calls, own, peer) <= Stream(peer)
  }

  ghost predicate ChainsArePrefixes(own: seq<Sealed>, peer: seq<Sealed>)
  {
    forall xs :: Chain(own, peer, xs, 0) ==> Stream(xs) <= Stream(peer)
  }

  /** Every host only gets prefixes of the peer's stream through exactly when all chains of records are. */
  lemma {:induction false} PrefixExactly(own: seq<Sealed>, peer: seq<Sealed>)
    requires Deliverable(own, peer)
    ensures AlwaysPrefix(own, peer) <==> ChainsArePrefixes(own, peer)
  {
    hide Chain, Stream, Received, Deliverable, Delivery;
    if ChainsArePrefixes(own, peer) {
      forall events, calls | Possible(calls, own, peer)
        ensures Received(Receiver(events, 0, None), calls, own, peer) <= Stream(peer)
      {
        var xs := ReceivedIsChain(Receiver(events, 0, None), calls, own, peer);
      }
    }
    if AlwaysPrefix(own, peer) {
      forall xs | Chain(own, peer, xs, 0)
        ensures Stream(xs) <= Stream(peer)
      {
        EveryChainIsReceived(own, peer, xs, Uncut(xs), 0);
        assert Possible(WholeReads(xs, |own|, |peer|), own, peer);
      }
    }
  }

  lemma {:induction false} PeerIsChain(own: seq<Sealed>, peer: seq<Sealed>, i: nat, k: nat, last: seq<Sealed>)
    requires InSequence(peer) && i <= k <= |peer| && Chain(own, peer, last, Boundary(peer, k))
    ensures Chain(own, peer, peer[i..k] + last, Boundary(peer, i))
    decreases k - i
  {
    hide Boundary, InSequence, Add64;
    if i == k {
      assert peer[i..k] + last == last;
    } else {
      PeerIsChain(own, peer, i + 1, k, last);
      PeerRecord(peer, i);
      assert (peer[i..k] + last)[1..] == peer[i + 1..k] + last;
    }
  }

  /** A record of the receiver's own with the number at which the peer's first k records end can follow them. */
  lemma {:induction false} OwnRecordComesBack(own: seq<Sealed>, peer: seq<Sealed>, j: nat, k: nat)
    requires InSequence(peer) && j < |own| && k <= |peer| && own[j].sequence == Boundary(peer, k)
    ensures Chain(own, peer, peer[..k] + [own[j]], 0)
  {
    assert Chain(own, peer, [own[j]], Boundary(peer, k));
    PeerIsChain(own, peer, 0, k, [own[j]]);
    assert Plaintexts(peer)[..0] == [] && peer[0..k] == peer[..k];
  }

  /** No record is empty, and none of the receiver's own begins like one of the peer's. */
  ghost predicate Distinguishable(own: seq<Sealed>, peer: seq<Sealed>)
  {
    && (forall j :: 0 <= j < |own| ==> own[j].plaintext != [])
    && (forall i :: 0 <= i < |peer| ==> peer[i].plaintext != [])
    && forall j, i :: 0 <= j < |own| && 0 <= i < |peer| ==> own[j].plaintext[0] != peer[i].plaintext[0]
  }

  lemma {:induction false} Differs(own: seq<Sealed>, peer: seq<Sealed>, j: nat, k: nat, bytes: seq<byte>)
    requires InSequence(peer) && Distinguishable(own, peer) && j < |own| && k <= |peer|
    requires bytes != [] && bytes[0] == own[j].plaintext[0]
    ensures Boundary(peer, k) <= |Stream(peer)| && !(bytes <= Stream(peer)[Boundary(peer, k)..])
  {
    BoundaryBound(peer, k);
    if k < |peer| {
      PeerRecord(peer, k);
      assert Stream(peer)[Boundary(peer, k)] == Stream(peer)[Boundary(peer, k)..Boundary(peer, k + 1)][0];
    } else {
      assert Plaintexts(peer)[..k] == Plaintexts(peer);
    }
  }

  /** What the host gave out for the record that is fetched, in one piece. */
  function Refetch(r: Receiver): seq<Event>
  {
    var read := OcallIngress(r.events, ENVELOPE_SIZE);
    if read.answer.Got? && |read.answer.bytes| == ENVELOPE_SIZE then
      Repeated(read.answer.bytes, Fill(read.rest, LittleEndian(read.answer.bytes[..4]), []).bytes)
    else []
  }

  function Repeated(header: seq<byte>, text: seq<byte>): seq<Event>
  {
    [Data(header)] + Chunks(Whole(text))
  }

  lemma {:induction false} RepeatedReads(header: seq<byte>, text: seq<byte>, tail: seq<Event>)
    requires |header| == ENVELOPE_SIZE && !AllocationFails(tail)
    ensures !AllocationFails(Repeated(header, text) + tail)
    ensures var read := OcallIngress(Repeated(header, text) + tail, ENVELOPE_SIZE);
            && read.answer == Got(header) && !AllocationFails(read.rest)
            && Fill(read.rest, |text|, []) == Filled(text, tail, None)
  {
    var parts := Whole(text);
    FillFromChunks(parts, tail, |text|, []);
    assert [] + text == text;
    var events, after := Repeated(header, text) + tail, Chunks(parts) + tail;
    assert events[0] == Data(header) && events[1..] == after;
    assert OcallIngress(events, ENVELOPE_SIZE) == Read(Got(header), after) by {
      hide Fill, Chunks, Whole, AllocationFails;
    }
    hide OcallIngress, Fill;
  }

  /** A host can give a record out again and then go on as it likes. */
  lemma {:induction false} Refetched(r: Receiver, log: seq<Sealed>, tail: seq<Event>)
    requires NextRecord(r, log).1.None? && !AllocationFails(tail)
    ensures NextRecord(r.(events := Refetch(r) + tail), log) == (NextRecord(r, log).0.(events := tail), None)
    ensures !AllocationFails(Refetch(r) + tail)
  {
    var read := OcallIngress(r.events, ENVELOPE_SIZE);
    var header := read.answer.bytes;
    RepeatedReads(header, Fill(read.rest, LittleEndian(header[..4]), []).bytes, tail);
    hide OcallIngress, Fill, Open, Repeated, LittleEndian, AllocationFails, Add64;
  }

  /** When one's own record comes in where the peer's next one is due, the first byte tells. */
  lemma {:induction false} OwnIsRead(
    r: Receiver, calls: seq<Call>, own: seq<Sealed>, peer: seq<Sealed>, k: nat, j: nat) returns (events: seq<Event>)
    requires Possible(calls, own, peer) && InSequence(peer) && Deliverable(own, peer) && Distinguishable(own, peer)
    requires calls != [] && calls[0].size > 0 && r.record.None? && k <= |peer|
    requires j < calls[0].made && own[j].sequence == r.sequence
    ensures !AllocationFails(events) && Boundary(peer, k) <= |Stream(peer)|
    ensures !(Received(r.(events := events), calls, own, peer) <= Remaining(r) + Stream(peer)[Boundary(peer, k)..])
  {
    BoundaryBound(peer, k);
    assert Remaining(r) + Stream(peer)[Boundary(peer, k)..] == Stream(peer)[Boundary(peer, k)..];
    var x, c := own[j], calls[0];
    var parts := Whole(x.ciphertext);
    events := Arriving(x, parts, []);
    assert x in own[..c.made];
    NoAllocationFailure(parts, [], []);
    RecordArrives(own, peer, c.made, c.sent, x, parts, []);
    var (next, outcome) := Ingress(r.(events := events), c.size, Shared(own, peer, c.made, c.sent));
    assert outcome.Moved? && outcome.bytes != [] && outcome.bytes[0] == x.plaintext[0];
    hide Ingress, NextRecord, InSequence, Deliverable, Distinguishable, Boundary, Stream;
    var received := Received(r.(events := events), calls, own, peer);
    assert received == outcome.bytes + Received(next, calls[1..], own, peer);
    Differs(own, peer, j, k, received);
    hide Received, Remaining;
  }

  lemma {:induction false} PrefixLater(bytes: seq<byte>, more: seq<byte>, rest: seq<byte>)
    ensures bytes + more <= bytes + rest <==> more <= rest
  {
    assert (bytes + more)[|bytes|..] == more && (bytes + rest)[|bytes|..] == rest;
    if bytes + more <= bytes + rest {
      assert (bytes + rest)[..|bytes| + |more|][|bytes|..] == rest[..|more|];
    }
  }

  /** The record of the peer at whose beginning a reader stands. */
  lemma {:induction false} StandsAt(peer: seq<Sealed>, x: Sealed, k: nat)
    requires InSequence(peer) && (forall i :: 0 <= i < |peer| ==> peer[i].plaintext != [])
    requires k <= |peer| && x in peer && x.sequence == Boundary(peer, k)
    ensures k < |peer| && x == peer[k]
  {
    hide Boundary, InSequence;
    var i: nat :| i < |peer| && peer[i] == x;
    PeerRecord(peer, i);
    SameBoundary(peer, i, k);
  }

  lemma {:induction false} StreamFrom(peer: seq<Sealed>, k: nat)
    requires InSequence(peer) && k < |peer|
    ensures Boundary(peer, k) <= Boundary(peer, k + 1) <= |Stream(peer)|
    ensures Stream(peer)[Boundary(peer, k)..] == peer[k].plaintext + Stream(peer)[Boundary(peer, k + 1)..]
  {
    PeerRecord(peer, k);
    hide Stream, Boundary, InSequence;
    var here, there := Boundary(peer, k), Boundary(peer, k + 1);
    assert Stream(peer)[here..] == Stream(peer)[here..there] + Stream(peer)[there..];
  }

  /** Reading record k of the peer, a reader that stands at it moves on to the next. */
  lemma {:induction false} ReadsPeerRecord(r: Receiver, c: Call, own: seq<Sealed>, peer: seq<Sealed>, k: nat)
    requires c.made <= |own| && c.sent <= |peer| && InSequence(peer) && k <= |peer| && r.sequence == Boundary(peer, k)
    requires forall i :: 0 <= i < |peer| ==> peer[i].plaintext != []
    requires r.record.None? && Unused(own[..c.made], r.sequence)
    requires Ingress(r, c.size, Shared(own, peer, c.made, c.sent)).1.Moved?
    ensures var (next, outcome) := Ingress(r, c.size, Shared(own, peer, c.made, c.sent));
            && k < |peer| && next.sequence == Boundary(peer, k + 1)
            && peer[k].plaintext == outcome.bytes + Remaining(next)
  {
    var (next, outcome) := Ingress(r, c.size, Shared(own, peer, c.made, c.sent));
    var xs := IngressTakes(r, c.size, Shared(own, peer, c.made, c.sent));
    var x := xs[0];
    assert x in own[..c.made] || x in peer[..c.sent];
    hide Ingress, InSequence, Boundary, Remaining, Add64;
    assert x in peer;
    StandsAt(peer, x, k);
    PeerRecord(peer, k);
  }

  lemma {:induction false} ReceivedFirst(
    r: Receiver, calls: seq<Call>, own: seq<Sealed>, peer: seq<Sealed>, next: Receiver, bytes: seq<byte>)
    requires Possible(calls, own, peer) && calls != []
    requires Ingress(r, calls[0].size, Shared(own, peer, calls[0].made, calls[0].sent)) == (next, Moved(bytes))
    ensures Received(r, calls, own, peer) == bytes + Received(next, calls[1..], own, peer)
  {
    hide Ingress;
  }

  lemma {:induction false} MovesOn(r: Receiver, size: nat, log: seq<Sealed>, later: seq<Event>)
    requires r.record.Some?
    ensures var (next, outcome) := Ingress(r, size, log);
            && outcome.Moved? && next.sequence == r.sequence
            && Remaining(r) == outcome.bytes + Remaining(next)
            && Ingress(r.(events := later), size, log) == (next.(events := later), outcome)
  {
  }

  lemma {:induction false} FetchesAgain(r: Receiver, size: nat, log: seq<Sealed>, later: seq<Event>)
    requires r.record.None? && Ingress(r, size, log).1.Moved? && !AllocationFails(later)
    ensures var (next, outcome) := Ingress(r, size, log);
            Ingress(r.(events := Refetch(r) + later), size, log) == (next.(events := later), outcome)
    ensures !AllocationFails(Refetch(r) + later)
  {
    Refetched(r, log, later);
    hide NextRecord, Refetch, AllocationFails;
  }

  lemma {:induction false} NotClear(r: Receiver, calls: seq<Call>, own: seq<Sealed>, peer: seq<Sealed>)
    requires Possible(calls, own, peer) && !Clear(r, calls, own, peer)
    ensures calls != []
    ensures var (next, outcome) := Ingress(r, calls[0].size, Shared(own, peer, calls[0].made, calls[0].sent));
            || (r.record.None? && !Unused(own[..calls[0].made], r.sequence))
            || (outcome.Moved? && !Clear(next, calls[1..], own, peer))
  {
    hide Ingress;
  }

  lemma {:induction false} ShownBytes(
    bytes: seq<byte>, more: seq<byte>, remaining: seq<byte>, text: seq<byte>, rest: seq<byte>)
    requires text == bytes + remaining && !(more <= remaining + rest)
    ensures !(bytes + more <= text + rest)
  {
    PrefixLater(bytes, more, remaining + rest);
    assert text + rest == bytes + (remaining + rest);
  }

  /** What the later calls show after one that takes bytes of a record that is there already. */
  lemma {:induction false} ShownAfterMove(
    r: Receiver, calls: seq<Call>, own: seq<Sealed>, peer: seq<Sealed>, later: seq<Event>, rest: seq<byte>)
    requires Possible(calls, own, peer) && calls != [] && r.record.Some?
    requires var next := Ingress(r, calls[0].size, Shared(own, peer, calls[0].made, calls[0].sent)).0;
             !(Received(next.(events := later), calls[1..], own, peer) <= Remaining(next) + rest)
    ensures !(Received(r.(events := later), calls, own, peer) <= Remaining(r) + rest)
  {
    var log := Shared(own, peer, calls[0].made, calls[0].sent);
    var (next, outcome) := Ingress(r, calls[0].size, log);
    MovesOn(r, calls[0].size, log, later);
    hide Received, Ingress, Remaining;
    ReceivedFirst(r.(events := later), calls, own, peer, next.(events := later), outcome.bytes);
    var more := Received(next.(events := later), calls[1..], own, peer);
    ShownBytes(outcome.bytes, more, Remaining(next), Remaining(r), rest);
  }

  /** And after one that fetches a record with this text. */
  lemma {:induction false} ShownAfterFetch(
    r: Receiver, calls: seq<Call>, own: seq<Sealed>, peer: seq<Sealed>, later: seq<Event>, text: seq<byte>,
    rest: seq<byte>, whole: seq<byte>)
    requires Possible(calls, own, peer) && calls != [] && r.record.None? && !AllocationFails(later)
    requires var (next, outcome) := Ingress(r, calls[0].size, Shared(own, peer, calls[0].made, calls[0].sent));
             && outcome.Moved? && text == outcome.bytes + Remaining(next)
             && !(Received(next.(events := later), calls[1..], own, peer) <= Remaining(next) + rest)
    requires whole == text + rest
    ensures !AllocationFails(Refetch(r) + later)
    ensures !(Received(r.(events := Refetch(r) + later), calls, own, peer) <= Remaining(r) + whole)
  {
    assert Remaining(r) + whole == whole;
    hide Received, Ingress, Remaining, Refetch, AllocationFails;
    var log := Shared(own, peer, calls[0].made, calls[0].sent);
    var (next, outcome) := Ingress(r, calls[0].size, log);
    FetchesAgain(r, calls[0].size, log, later);
    var again := r.(events := Refetch(r) + later);
    ReceivedFirst(again, calls, own, peer, next.(events := later), outcome.bytes);
    var more := Received(next.(events := later), calls[1..], own, peer);
    ShownBytes(outcome.bytes, more, Remaining(next), text, rest);
  }

  /** Every call asks for something. */
  predicate Asking(calls: seq<Call>)
  {
    forall i :: 0 <= i < |calls| ==> calls[i].size > 0
  }

  lemma {:induction false} LaterCalls(calls: seq<Call>, own: seq<Sealed>, peer: seq<Sealed>)
    requires Possible(calls, own, peer) && Asking(calls) && calls != []
    ensures Possible(calls[1..], own, peer) && Asking(calls[1..])
    ensures calls[0].made <= |own| && calls[0].sent <= |peer| && calls[0].size > 0
  {
  }

  /** If some fetch is not clear, some host makes the reader see it. */
  lemma {:induction false} OwnShows(
    r: Receiver, calls: seq<Call>, own: seq<Sealed>, peer: seq<Sealed>, k: nat) returns (events: seq<Event>)
    requires Possible(calls, own, peer) && InSequence(peer) && Deliverable(own, peer) && Distinguishable(own, peer)
    requires Asking(calls) && !Clear(r, calls, own, peer)
    requires k <= |peer| && r.sequence == Boundary(peer, k)
    ensures !AllocationFails(events) && Boundary(peer, k) <= |Stream(peer)|
    ensures !(Received(r.(events := events), calls, own, peer) <= Remaining(r) + Stream(peer)[Boundary(peer, k)..])
    decreases |calls|
  {
    BoundaryBound(peer, k);
    NotClear(r, calls, own, peer);
    assert forall i :: 0 <= i < |peer| ==> peer[i].plaintext != [];
    hide InSequence, Deliverable, Distinguishable, Boundary, Stream, Received, AllocationFails, Ingress, Clear, Shared;
    LaterCalls(calls, own, peer);
    hide Remaining, Possible, Asking;
    var c := calls[0];
    var next := Ingress(r, c.size, Shared(own, peer, c.made, c.sent)).0;
    if r.record.None? && !Unused(own[..c.made], r.sequence) {
      var j: nat :| j < c.made && own[j].sequence == r.sequence;
      events := OwnIsRead(r, calls, own, peer, k, j);
    } else if r.record.Some? {
      MovesOn(r, c.size, Shared(own, peer, c.made, c.sent), []);
      events := OwnShows(next, calls[1..], own, peer, k);
      ShownAfterMove(r, calls, own, peer, events, Stream(peer)[Boundary(peer, k)..]);
    } else {
      ReadsPeerRecord(r, c, own, peer, k);
      StreamFrom(peer, k);
      var later := OwnShows(next, calls[1..], own, peer, k + 1);
      hide Unused, Refetch;
      events := Refetch(r) + later;
      ShownAfterFetch(r, calls, own, peer, later, peer[k].plaintext,
        Stream(peer)[Boundary(peer, k + 1)..], Stream(peer)[Boundary(peer, k)..]);
    }
  }

  ghost predicate KeepsStream(calls: seq<Call>, own: seq<Sealed>, peer: seq<Sealed>)
    requires Possible(calls, own, peer)
  {
    forall events :: Received(Receiver(events, 0, None), calls, own, peer) <= Stream(peer)
  }

  ghost predicate AlwaysClear(calls: seq<Call>, own: seq<Sealed>, peer: seq<Sealed>)
    requires Possible(calls, own, peer)
  {
    forall events :: Clear(Receiver(events, 0, None), calls, own, peer)
  }

  /** When the two ends' records cannot be taken for each other: for reads of at least a byte, made at given
      times, every host gets only prefixes of the peer's stream through exactly when the reader's numbers are
      clear whenever a record is fetched. */
  lemma {:induction false} StreamKeptExactly(calls: seq<Call>, own: seq<Sealed>, peer: seq<Sealed>)
    requires Possible(calls, own, peer) && Asking(calls)
    requires Deliverable(own, peer) && InSequence(peer) && Distinguishable(own, peer)
    ensures KeepsStream(calls, own, peer) <==> AlwaysClear(calls, own, peer)
  {
    hide Stream, Boundary, Received, Clear, InSequence, Deliverable, Distinguishable;
    if AlwaysClear(calls, own, peer) {
      forall events
        ensures Received(Receiver(events, 0, None), calls, own, peer) <= Stream(peer)
      {
        ReceivedIsPrefix(events, calls, own, peer);
      }
    }
    if KeepsStream(calls, own, peer) {
      BoundaryBound(peer, 0);
      forall events
        ensures Clear(Receiver(events, 0, None), calls, own, peer)
      {
        if !Clear(Receiver(events, 0, None), calls, own, peer) {
          var others := OwnShows(Receiver(events, 0, None), calls, own, peer, 0);
          assert !(Received(Receiver(others, 0, None), calls, own, peer) <= Stream(peer));
        }
      }
    }
  }

  /** Fetching gives this text. */
  predicate Fetches(events: seq<Event>, sequence: nat, log: seq<Sealed>, text: seq<byte>)
  {
    var (next, error) := NextRecord(Receiver(events, sequence, None), log);
    error.None? && next.record == Some(text)
  }

  lemma {:induction false} NotThePeers(own: seq<Sealed>, peer: seq<Sealed>, j: nat, x: Sealed)
    requires Distinguishable(own, peer) && j < |own| && x.plaintext == own[j].plaintext
    ensures x !in peer
  {
    assert forall i :: 0 <= i < |peer| ==> own[j].plaintext[0] != peer[i].plaintext[0];
  }

  /** One fetch: some host makes a record of the reader's own open exactly when one that it has sealed so far
      has the number it stands at. */
  lemma {:induction false} OwnOpensExactly(own: seq<Sealed>, peer: seq<Sealed>, made: nat, sent: nat, sequence: nat)
    requires Deliverable(own, peer) && Distinguishable(own, peer) && made <= |own| && sent <= |peer|
    ensures (exists events, j :: 0 <= j < made
               && Fetches(events, sequence, Shared(own, peer, made, sent), own[j].plaintext))
       <==> !Unused(own[..made], sequence)
  {
    var log := Shared(own, peer, made, sent);
    if events, j :| 0 <= j < made && Fetches(events, sequence, log, own[j].plaintext) {
      var x := FetchedRecord(Receiver(events, sequence, None), log);
      NotThePeers(own, peer, j, x);
      assert x in own[..made];
    }
    if !Unused(own[..made], sequence) {
      var j: nat :| j < made && own[j].sequence == sequence;
      var parts := Whole(own[j].ciphertext);
      assert own[j] in own[..made];
      NoAllocationFailure(parts, [], []);
      RecordArrives(own, peer, made, sent, own[j], parts, []);
      assert Fetches(Arriving(own[j], parts, []), sequence, log, own[j].plaintext);
    }
  }

  // ---- Egress ----

  /** A send: what the cipher returned for the payload, and whether the host took the whole record. */
  datatype Send = Send(payload: seq<byte>, nonce: seq<byte>, tag: seq<byte>, ciphertext: seq<byte>, accepted: bool)

  /** The sequence number of each record: only accepted sends advance it. */
  function SealedBy(sends: seq<Send>, sequence: nat): (log: seq<Sealed>)
    ensures |log| == |sends|
  {
    if sends == [] then []
    else
      var s := sends[0];
      [Sealed(sequence, s.payload, s.nonce, s.tag, s.ciphertext)]
      + SealedBy(sends[1..], if s.accepted then Add64(sequence, |s.payload|) else sequence)
  }

  /** The egress sequence number after a run of sends. */
  function SequenceAfter(sends: seq<Send>, sequence: nat): nat
  {
    if sends == [] then sequence
    else SequenceAfter(sends[1..], if sends[0].accepted then Add64(sequence, |sends[0].payload|) else sequence)
  }

  /** One more send: the step that EncryptedEgress makes. */
  lemma {:induction false} SendAppends(sends: seq<Send>, s: Send, sequence: nat)
    ensures SealedBy(sends + [s], sequence) == SealedBy(sends, sequence)
         + [Sealed(SequenceAfter(sends, sequence), s.payload, s.nonce, s.tag, s.ciphertext)]
    ensures SequenceAfter(sends + [s], sequence)
         == if s.accepted then Add64(SequenceAfter(sends, sequence), |s.payload|) else SequenceAfter(sends, sequence)
    decreases |sends|
  {
    if sends == [] {
      assert sends + [s] == [s];
    } else {
      assert (sends + [s])[1..] == sends[1..] + [s];
      SendAppends(sends[1..], s, if sends[0].accepted then Add64(sequence, |sends[0].payload|) else sequence);
    }
  }

  function AcceptedBytes(sends: seq<Send>): nat
  {
    if sends == [] then 0 else (if sends[0].accepted then |sends[0].payload| else 0) + AcceptedBytes(sends[1..])
  }

  lemma {:induction false} SequenceIsAcceptedBytes(sends: seq<Send>, sequence: nat, i: nat)
    requires i < |sends| && sequence + AcceptedBytes(sends) < U64_LIMIT
    ensures SealedBy(sends, sequence)[i].sequence == sequence + AcceptedBytes(sends[..i])
    ensures SealedBy(sends, sequence)[i].plaintext == sends[i].payload
    decreases i
  {
    if i > 0 {
      var s := sends[0];
      var advanced := if s.accepted then sequence + |s.payload| else sequence;
      SequenceIsAcceptedBytes(sends[1..], advanced, i - 1);
      assert sends[..i][1..] == sends[1..][..i - 1];
    }
  }

  lemma {:induction false} AcceptedSplit(sends: seq<Send>, i: nat, j: nat)
    requires i <= j <= |sends|
    ensures AcceptedBytes(sends[..j]) == AcceptedBytes(sends[..i]) + AcceptedBytes(sends[i..j])
    decreases i
  {
    if i == 0 {
    } else {
      AcceptedSplit(sends[1..], i - 1, j - 1);
      assert sends[1..][..j - 1] == sends[..j][1..] && sends[1..][..i - 1] == sends[..i][1..];
      assert sends[1..][i - 1..j - 1] == sends[i..j];
    }
  }

  lemma {:induction false} NothingAccepted(sends: seq<Send>)
    ensures AcceptedBytes(sends) == 0 <==> forall s :: s in sends && s.accepted ==> s.payload == []
  {
    if sends != [] {
      NothingAccepted(sends[1..]);
      assert forall s :: s in sends <==> s == sends[0] || s in sends[1..];
    }
  }

  /** Two records share a sequence number exactly when every non-empty record from the first up to
      the second was refused by the host; so once sends succeed, non-empty records never share one. */
  lemma {:induction false} SharedSequence(sends: seq<Send>, i: nat, j: nat)
    requires i < j < |sends| && AcceptedBytes(sends) < U64_LIMIT
    ensures var log := SealedBy(sends, 0);
            log[i].sequence == log[j].sequence
            <==> forall s :: s in sends[i..j] && s.accepted ==> s.payload == []
  {
    SequenceIsAcceptedBytes(sends, 0, i);
    SequenceIsAcceptedBytes(sends, 0, j);
    AcceptedSplit(sends, i, j);
    NothingAccepted(sends[i..j]);
  }

  /** Two sends of one byte, the first of them refused: both records have number 0. */
  lemma {:induction false} RefusedSendReusesNumber(first: Send, second: Send)
    requires first.payload == second.payload == [0] && !first.accepted
    ensures SealedBy([first, second], 0)[0].sequence == SealedBy([first, second], 0)[1].sequence
  {
    assert [first, second][1..] == [second];
  }

  function PayloadBytes(sends: seq<Send>): nat
  {
    if sends == [] then 0 else |sends[0].payload| + PayloadBytes(sends[1..])
  }

  /** Sends that are refused, other than empty ones, are missing from the sequence numbers. */
  lemma {:induction false} RefusedBytes(sends: seq<Send>)
    ensures AcceptedBytes(sends) <= PayloadBytes(sends)
    ensures AcceptedBytes(sends) == PayloadBytes(sends)
       <==> forall i :: 0 <= i < |sends| ==> sends[i].accepted || sends[i].payload == []
  {
    if sends != [] {
      RefusedBytes(sends[1..]);
      assert forall i :: 0 < i < |sends| ==> sends[i] == sends[1..][i - 1];
    }
  }

  lemma {:induction false} PayloadBoundary(sends: seq<Send>, sequence: nat, i: nat)
    requires i <= |sends|
    ensures Boundary(SealedBy(sends, sequence), i) == PayloadBytes(sends[..i])
    decreases i
  {
    var log := SealedBy(sends, sequence);
    if i > 0 {
      var next := if sends[0].accepted then Add64(sequence, |sends[0].payload|) else sequence;
      PayloadBoundary(sends[1..], next, i - 1);
      assert Plaintexts(log)[..i][1..] == Plaintexts(SealedBy(sends[1..], next))[..i - 1];
      assert sends[..i][1..] == sends[1..][..i - 1];
    }
  }

  predicate WellFormedSend(s: Send)
  {
    |s.nonce| == NONCE_SIZE && |s.tag| == TAG_SIZE && |s.ciphertext| == |s.payload|
  }

  lemma {:induction false} SealedFields(sends: seq<Send>, sequence: nat, i: nat)
    requires i < |sends|
    ensures var sealed_, s := SealedBy(sends, sequence)[i], sends[i];
            sealed_ == Sealed(sealed_.sequence, s.payload, s.nonce, s.tag, s.ciphertext)
    decreases i
  {
    if i > 0 {
      var s := sends[0];
      SealedFields(sends[1..], if s.accepted then Add64(sequence, |s.payload|) else sequence, i - 1);
    }
  }

  lemma {:induction false} NumberedRight(sends: seq<Send>, i: nat)
    requires i < |sends| && PayloadBytes(sends) < U64_LIMIT
    ensures SealedBy(sends, 0)[i].sequence == Boundary(SealedBy(sends, 0), i)
       <==> forall k :: 0 <= k < i ==> sends[k].accepted || sends[k].payload == []
  {
    RefusedBytes(sends);
    SequenceIsAcceptedBytes(sends, 0, i);
    PayloadBoundary(sends, 0, i);
    RefusedBytes(sends[..i]);
  }

  /** A sender's records are numbered with the bytes before them exactly when none is refused, but for empty
      ones and the last. */
  lemma {:induction false} InSequenceExactly(sends: seq<Send>)
    requires forall i :: 0 <= i < |sends| ==> WellFormedSend(sends[i])
    requires PayloadBytes(sends) < U64_LIMIT
    ensures InSequence(SealedBy(sends, 0))
       <==> forall k :: 0 <= k < |sends| - 1 ==> sends[k].accepted || sends[k].payload == []
  {
    var log := SealedBy(sends, 0);
    PayloadBoundary(sends, 0, |sends|);
    assert sends[..|sends|] == sends && Plaintexts(log)[..|log|] == Plaintexts(log);
    forall i | 0 <= i < |log|
      ensures WellSealed(log[i])
      ensures log[i].sequence == Boundary(log, i)
         <==> forall k :: 0 <= k < i ==> sends[k].accepted || sends[k].payload == []
    {
      SealedFields(sends, 0, i);
      NumberedRight(sends, i);
    }
    hide SealedBy, PayloadBytes, Boundary;
    if |sends| > 0 {
      assert log[|sends| - 1].sequence == Boundary(log, |sends| - 1)
        <==> forall k :: 0 <= k < |sends| - 1 ==> sends[k].accepted || sends[k].payload == [];
    }
  }

  // ---- After a refused send ----

  lemma {:induction false} SealedSplit(a: seq<Send>, b: seq<Send>, sequence: nat)
    ensures SealedBy(a + b, sequence) == SealedBy(a, sequence) + SealedBy(b, SequenceAfter(a, sequence))
    decreases |a|
  {
    if a == [] {
      assert a + b == b;
    } else {
      assert (a + b)[1..] == a[1..] + b;
      SealedSplit(a[1..], b, if a[0].accepted then Add64(sequence, |a[0].payload|) else sequence);
    }
  }

  lemma {:induction false} AcceptedNumber(a: seq<Send>, sequence: nat)
    requires sequence + PayloadBytes(a) < U64_LIMIT && forall i :: 0 <= i < |a| ==> a[i].accepted
    ensures SequenceAfter(a, sequence) == sequence + PayloadBytes(a)
    decreases |a|
  {
    if a != [] {
      AcceptedNumber(a[1..], sequence + |a[0].payload|);
    }
  }

  lemma {:induction false} BoundaryGrows(stream: seq<Sealed>, m: nat, k: nat)
    requires m < k <= |stream| && forall i :: 0 <= i < |stream| ==> stream[i].plaintext != []
    ensures Boundary(stream, m) < Boundary(stream, k)
    decreases k
  {
    ConcatSlice(Plaintexts(stream), k - 1);
    if m < k - 1 {
      BoundaryGrows(stream, m, k - 1);
    }
  }

  lemma {:induction false} SameBoundary(stream: seq<Sealed>, m: nat, k: nat)
    requires m <= |stream| && k <= |stream| && forall i :: 0 <= i < |stream| ==> stream[i].plaintext != []
    requires Boundary(stream, m) == Boundary(stream, k)
    ensures m == k
  {
    hide Boundary;
    if m < k {
      BoundaryGrows(stream, m, k);
    } else if k < m {
      BoundaryGrows(stream, k, m);
    }
  }

  lemma {:induction false} AcceptedGrows(sends: seq<Send>, i: nat, j: nat)
    requires i <= j <= |sends|
    ensures AcceptedBytes(sends[..i]) <= AcceptedBytes(sends[..j])
  {
    AcceptedSplit(sends, i, j);
  }

  lemma {:induction false} RoomFor(sends: seq<Send>, i: nat)
    requires i < |sends|
    ensures AcceptedBytes(sends[..i]) + |sends[i].payload| <= PayloadBytes(sends)
    decreases i
  {
    if i == 0 {
    } else {
      RoomFor(sends[1..], i - 1);
      assert sends[..i][1..] == sends[1..][..i - 1];
    }
  }

  /** Sends in their order, each of which begins, by the count of accepted bytes, where the one before ends. */
  ghost predicate Picked(sends: seq<Send>, picks: seq<nat>, start: nat)
    decreases |picks|
  {
    picks != [] ==>
      && picks[0] < |sends| && AcceptedBytes(sends[..picks[0]]) == start
      && (|picks| > 1 ==> picks[0] < picks[1])
      && Picked(sends, picks[1..], start + |sends[picks[0]].payload|)
  }

  ghost predicate InRange(sends: seq<Send>, picks: seq<nat>)
  {
    forall m :: 0 <= m < |picks| ==> picks[m] < |sends|
  }

  lemma {:induction false} PickedInRange(sends: seq<Send>, picks: seq<nat>, start: nat)
    requires Picked(sends, picks, start)
    ensures InRange(sends, picks)
    decreases |picks|
  {
    if picks != [] {
      PickedInRange(sends, picks[1..], start + |sends[picks[0]].payload|);
      assert forall m :: 0 < m < |picks| ==> picks[m] == picks[1..][m - 1];
    }
  }

  function Payloads(sends: seq<Send>, picks: seq<nat>): (r: seq<seq<byte>>)
    requires InRange(sends, picks)
    ensures |r| == |picks| && forall m :: 0 <= m < |picks| ==> r[m] == sends[picks[m]].payload
  {
    seq(|picks|, m requires 0 <= m < |picks| => sends[picks[m]].payload)
  }

  /** A sealed record among the sends: its number and what follows it. */
  lemma {:induction false} SendOf(sends: seq<Send>, x: Sealed) returns (i: nat)
    requires PayloadBytes(sends) < U64_LIMIT && x in SealedBy(sends, 0)
    ensures i < |sends| && x == SealedBy(sends, 0)[i] && x.plaintext == sends[i].payload
    ensures x.sequence == AcceptedBytes(sends[..i])
    ensures Add64(x.sequence, |x.plaintext|) == x.sequence + |x.plaintext|
  {
    i :| i < |sends| && SealedBy(sends, 0)[i] == x;
    RefusedBytes(sends);
    SequenceIsAcceptedBytes(sends, 0, i);
    RoomFor(sends, i);
  }

  lemma {:induction false} PickOneMore(sends: seq<Send>, i: nat, rest: seq<nat>, start: nat)
    requires i < |sends| && AcceptedBytes(sends[..i]) == start && sends[i].payload != []
    requires Picked(sends, rest, start + |sends[i].payload|)
    ensures Picked(sends, [i] + rest, start)
  {
    var picks := [i] + rest;
    assert picks[1..] == rest;
    if rest != [] && rest[0] <= i {
      AcceptedGrows(sends, rest[0], i);
    }
    hide AcceptedBytes;
  }

  lemma {:induction false} ChainIsPicked(sends: seq<Send>, xs: seq<Sealed>, start: nat) returns (picks: seq<nat>)
    requires PayloadBytes(sends) < U64_LIMIT && Chain([], SealedBy(sends, 0), xs, start)
    requires forall i :: 0 <= i < |sends| ==> sends[i].payload != []
    ensures Picked(sends, picks, start) && InRange(sends, picks) && Payloads(sends, picks) == Plaintexts(xs)
    decreases |xs|
  {
    hide SealedBy, AcceptedBytes, PayloadBytes, Picked, Add64;
    picks := [];
    if xs == [] {
      PickedNone(sends, start);
    } else {
      var i := SendOf(sends, xs[0]);
      var rest := ChainIsPicked(sends, xs[1..], start + |xs[0].plaintext|);
      picks := [i] + rest;
      PickOneMore(sends, i, rest, start);
      PickedInRange(sends, picks, start);
      hide Chain;
      assert forall m :: 0 < m < |picks| ==> picks[m] == rest[m - 1] && xs[m] == xs[1..][m - 1];
    }
  }

  lemma {:induction false} PickedNone(sends: seq<Send>, start: nat)
    ensures Picked(sends, [], start)
  {
  }

  /** Conversely sends picked like this are a chain of records. */
  lemma {:induction false} PickedIsChain(sends: seq<Send>, picks: seq<nat>, start: nat) returns (xs: seq<Sealed>)
    requires PayloadBytes(sends) < U64_LIMIT && Picked(sends, picks, start)
    ensures Chain([], SealedBy(sends, 0), xs, start)
    ensures InRange(sends, picks) && Payloads(sends, picks) == Plaintexts(xs)
    decreases |picks|
  {
    PickedInRange(sends, picks, start);
    xs := [];
    if picks != [] {
      var log, i := SealedBy(sends, 0), picks[0];
      RefusedBytes(sends);
      SequenceIsAcceptedBytes(sends, 0, i);
      RoomFor(sends, i);
      var rest := PickedIsChain(sends, picks[1..], start + |sends[i].payload|);
      xs := [log[i]] + rest;
      assert xs[1..] == rest;
      hide SealedBy, AcceptedBytes, PayloadBytes, Picked;
      assert forall m :: 0 < m < |picks| ==> picks[m] == picks[1..][m - 1] && xs[m] == rest[m - 1];
    }
  }

  /** Whichever sends the host refuses, a host that nevertheless has the records can only go from one to one
      that is numbered where it ends: what is received is the beginning of the payloads of sends picked in
      their order, each of which begins, by the count of accepted bytes, where the one before ends. */
  lemma {:induction false} AfterRefusals(
    sends: seq<Send>, own: seq<Sealed>, events: seq<Event>, calls: seq<Call>) returns (picks: seq<nat>)
    requires PayloadBytes(sends) < U64_LIMIT && forall i :: 0 <= i < |sends| ==> sends[i].payload != []
    requires Possible(calls, own, SealedBy(sends, 0))
    requires Clear(Receiver(events, 0, None), calls, own, SealedBy(sends, 0))
    ensures Picked(sends, picks, 0) && InRange(sends, picks)
    ensures Received(Receiver(events, 0, None), calls, own, SealedBy(sends, 0)) <= Concat(Payloads(sends, picks))
  {
    var xs := ReceivedIsPeerChain(Receiver(events, 0, None), calls, own, SealedBy(sends, 0));
    picks := ChainIsPicked(sends, xs, 0);
    hide Received, Clear, Chain, Picked, SealedBy;
  }

  /** And for every such choice there is a host that makes all of it arrive. */
  lemma {:induction false} EveryPickArrives(sends: seq<Send>, picks: seq<nat>)
    returns (events: seq<Event>, calls: seq<Call>)
    requires PayloadBytes(sends) < U64_LIMIT && Picked(sends, picks, 0) && Deliverable([], SealedBy(sends, 0))
    ensures Possible(calls, [], SealedBy(sends, 0)) && InRange(sends, picks)
    ensures Received(Receiver(events, 0, None), calls, [], SealedBy(sends, 0)) == Concat(Payloads(sends, picks))
  {
    var log := SealedBy(sends, 0);
    var xs := PickedIsChain(sends, picks, 0);
    events, calls := Delivery(xs, Uncut(xs)), WholeReads(xs, 0, |log|);
    EveryChainIsReceived([], log, xs, Uncut(xs), 0);
    hide Received, Chain, Picked, SealedBy, Deliverable;
  }

  // ---- Reads that fail ----

  /** The next read gets nothing: the host reports an error, or the peer is gone. */
  predicate Stops(events: seq<Event>)
  {
    events == [] || !events[0].Data? || events[0].bytes == []
  }

  function StopError(events: seq<Event>): Error
  {
    if events != [] && !events[0].Data? then HostError else ECONNRESET
  }

  function AfterStop(events: seq<Event>): seq<Event>
  {
    if events == [] then [] else events[1..]
  }

  lemma {:induction false} FillNext(parts: seq<seq<byte>>, rest: seq<Event>, need: nat, got: seq<byte>)
    requires parts != [] && parts[0] != [] && |got| + |parts[0]| <= need
    ensures Fill(Chunks(parts) + rest, need, got) == Fill(Chunks(parts[1..]) + rest, need, got + parts[0])
  {
    var events := Chunks(parts) + rest;
    assert events[0] == Data(parts[0]) && events[1..] == Chunks(parts[1..]) + rest;
  }

  lemma {:induction false} FillCut(parts: seq<seq<byte>>, rest: seq<Event>, need: nat, got: seq<byte>)
    requires |got| + |Concat(parts)| < need && Stops(rest) && forall i :: 0 <= i < |parts| ==> parts[i] != []
    ensures Fill(Chunks(parts) + rest, need, got)
         == Filled(got + Concat(parts), AfterStop(rest), Some(StopError(rest)))
    decreases |parts|
  {
    var events := Chunks(parts) + rest;
    if parts == [] {
      assert events == rest && got + [] == got;
    } else {
      assert Concat(parts) == parts[0] + Concat(parts[1..]);
      FillNext(parts, rest, need, got);
      hide Fill, Chunks, Concat;
      FillCut(parts[1..], rest, need, got + parts[0]);
      assert got + parts[0] + Concat(parts[1..]) == got + Concat(parts);
    }
  }

  /** A header that does not come, comes in part, or for whose record there is no memory: the error, and that
      nothing else changes. */
  lemma {:induction false} HeaderFailures(
    sequence: nat, record: Option<seq<byte>>, log: seq<Sealed>, header: seq<byte>, rest: seq<Event>)
    ensures Stops(rest) ==>
        NextRecord(Receiver(rest, sequence, record), log)
        == (Receiver(AfterStop(rest), sequence, record), Some(StopError(rest)))
    ensures 0 < |header| < ENVELOPE_SIZE ==>
        NextRecord(Receiver([Data(header)] + rest, sequence, record), log)
        == (Receiver(rest, sequence, record), Some(EIO))
    ensures |header| == ENVELOPE_SIZE ==>
        NextRecord(Receiver([Data(header), NoMemory] + rest, sequence, record), log)
        == (Receiver(rest, sequence, record), Some(ENOMEM))
  {
    assert ([Data(header)] + rest)[1..] == rest;
    assert ([Data(header), NoMemory] + rest)[1..] == [NoMemory] + rest && ([NoMemory] + rest)[1..] == rest;
    hide Fill, Open, LittleEndian, Add64;
  }

  lemma {:induction false} HeaderComes(header: seq<byte>, rest: seq<Event>)
    requires |header| == ENVELOPE_SIZE
    ensures OcallIngress([Data(header)] + rest, ENVELOPE_SIZE) == Read(Got(header), rest)
  {
    assert ([Data(header)] + rest)[1..] == rest;
  }

  /** A record that is cut short, or that does not open: the error says how, the number stays, and the bytes that
      came are kept as the current record. */
  lemma {:induction false} RecordFailures(
    sequence: nat, log: seq<Sealed>, header: seq<byte>, parts: seq<seq<byte>>, rest: seq<Event>)
    requires |header| == ENVELOPE_SIZE && forall i :: 0 <= i < |parts| ==> parts[i] != []
    requires !AllocationFails(Chunks(parts) + rest)
    ensures var raw, announced := Concat(parts), LittleEndian(header[..4]);
            var (next, error) :=
              NextRecord(Receiver([Data(header)] + (Chunks(parts) + rest), sequence, None), log);
            && (|raw| < announced && Stops(rest) ==>
                  next == Receiver(AfterStop(rest), sequence, Some(raw)) && error == Some(StopError(rest)))
            && (|raw| == announced && Open(log, sequence, header[4..16], header[16..32], raw).None? ==>
                  next == Receiver(rest, sequence, Some(raw)) && error == Some(EFAULT))
  {
    var raw, announced := Concat(parts), LittleEndian(header[..4]);
    HeaderComes(header, Chunks(parts) + rest);
    assert [] + raw == raw;
    if |raw| < announced && Stops(rest) {
      FillCut(parts, rest, announced, []);
    } else if |raw| == announced {
      FillFromChunks(parts, rest, announced, []);
    }
    hide OcallIngress, Fill, Open, Chunks, Concat, LittleEndian, Add64, AllocationFails, Stops, StopError, AfterStop;
  }

  /** After a record that was cut short or did not open, the next call hands out the bytes that came, as they
      are, and goes on from the same number. */
  lemma {:induction false} LeftoverIsRead(
    sequence: nat, log: seq<Sealed>, header: seq<byte>, parts: seq<seq<byte>>, rest: seq<Event>, size: nat,
    later: seq<Sealed>)
    requires |header| == ENVELOPE_SIZE && forall i :: 0 <= i < |parts| ==> parts[i] != []
    requires !AllocationFails(Chunks(parts) + rest)
    requires var raw, announced := Concat(parts), LittleEndian(header[..4]);
             || (|raw| < announced && Stops(rest))
             || (|raw| == announced && Open(log, sequence, header[4..16], header[16..32], raw).None?)
    ensures var raw := Concat(parts);
            var start := Receiver([Data(header)] + (Chunks(parts) + rest), sequence, None);
            var (broken, outcome) := Ingress(start, size, log);
            && outcome.Failed? && broken.sequence == sequence
            && Ingress(broken, size, later)
            == (Receiver(broken.events, sequence, if size < |raw| then Some(raw[size..]) else None),
                Moved(if size < |raw| then raw[..size] else raw))
  {
    RecordFailures(sequence, log, header, parts, rest);
    assert Concat(parts)[..|Concat(parts)|] == Concat(parts);
    hide NextRecord, Open, Chunks, Concat, LittleEndian, AllocationFails, Stops, StopError, AfterStop;
  }

  // ---- The channel object ----

  datatype Return = Bytes(count: nat) | Code(error: Error)

  class Channel {
    // The connection, as the host runs it
    var events: seq<Event>
    var outgoing: seq<byte>
    // The current record: `present` is whether there is one, `cursor` how far it has been read
    var buffer: array<byte>
    var present: bool
    var cursor: nat
    var messageLength: nat
    var ingressSequence: nat
    var egressSequence: nat
    // What this end has sealed
    var sealedRecords: seq<Sealed>

    ghost predicate Valid()
      reads this, buffer
    {
      present ==> cursor + messageLength <= buffer.Length
    }

    ghost function View(): Receiver
      requires Valid()
      reads this, buffer
    {
      Receiver(events, ingressSequence, if present then Some(buffer[cursor..cursor + messageLength]) else None)
    }

    constructor (events: seq<Event>)
      ensures Valid() && View() == Receiver(events, 0, None)
      ensures egressSequence == 0 && outgoing == [] && sealedRecords == []
      ensures fresh(buffer)
    {
      this.events, outgoing, sealedRecords := events, [], [];
      ingressSequence, egressSequence := 0, 0;
      buffer := new byte[0];
      present, cursor, messageLength := false, 0, 0;
    }

    /** The fill loop: reads the payload of a record into the new buffer. */
    method FillBuffer() returns (error: Option<Error>)
      requires messageLength == 0
      modifies `events, `messageLength, buffer
      ensures messageLength <= buffer.Length
      ensures Filled(buffer[..messageLength], events, error) == Fill(old(events), buffer.Length, [])
    {
      hide OcallIngress;
      assert buffer[..0] == [];
      while messageLength < buffer.Length
        invariant messageLength <= buffer.Length
        invariant Fill(events, buffer.Length, buffer[..messageLength]) == Fill(old(events), buffer.Length, [])
      {
        var chunk := OcallIngress(events, buffer.Length - messageLength);
        events := chunk.rest;
        if chunk.answer.Negative? {
          return Some(HostError);
        }
        if chunk.answer.bytes == [] {
          return Some(ECONNRESET);
        }
        ghost var got := buffer[..messageLength];
        Copy(chunk.answer.bytes, buffer, messageLength);
        messageLength := messageLength + |chunk.answer.bytes|;
        assert buffer[..messageLength] == got + chunk.answer.bytes;
      }
      return None;
    }

    /** Decrypts the filled buffer in place, or says why it cannot and leaves it as it was. */
    method Decrypt(header: seq<byte>, log: seq<Sealed>) returns (error: Option<Error>)
      requires |header| == ENVELOPE_SIZE && messageLength == buffer.Length
      modifies `ingressSequence, buffer
      ensures var plaintext := Open(log, old(ingressSequence), header[4..16], header[16..32], old(buffer[..]));
              if plaintext.None? then
                error == Some(EFAULT) && buffer[..] == old(buffer[..]) && unchanged(`ingressSequence)
              else error == None && buffer[..] == plaintext.value
                   && ingressSequence == Add64(old(ingressSequence), buffer.Length)
    {
      hide Open;
      var plaintext := Open(log, ingressSequence, header[4..16], header[16..32], buffer[..]);
      if plaintext.None? {
        return Some(EFAULT);
      }
      Copy(plaintext.value, buffer, 0);
      ingressSequence := Add64(ingressSequence, messageLength);
      return None;
    }

    /** Fetches the next record and decrypts it. */
    method FetchRecord(log: seq<Sealed>) returns (error: Option<Error>)
      requires Valid() && !present
      modifies this
      ensures Valid() && (View(), error) == NextRecord(old(View()), log)
      ensures buffer == old(buffer) || fresh(buffer)
      ensures error.None? ==> present
      ensures unchanged(`outgoing, `egressSequence, `sealedRecords)
    {
      hide OcallIngress, Open, Fill, LittleEndian, Add64;
      var read := OcallIngress(events, ENVELOPE_SIZE);
      events := read.rest;
      if read.answer.Negative? {
        return Some(HostError);
      }
      var header := read.answer.bytes;
      if |header| != ENVELOPE_SIZE {
        return Some(if header == [] then ECONNRESET else EIO);
      }
      if AllocationFails(events) {
        events := AfterAllocation(events);
        return Some(ENOMEM);
      }
      buffer := new byte[LittleEndian(header[..4])];
      present, cursor, messageLength := true, 0, 0;
      error := FillBuffer();
      if error.Some? {
        return;
      }
      assert buffer[..messageLength] == buffer[..];
      error := Decrypt(header, log);
      assert buffer[cursor..cursor + messageLength] == buffer[..];
    }

    /** Copies from the current record. */
    method MoveOut(dst: array<byte>, at: nat, size: nat) returns (moved: nat)
      requires Valid() && present && dst != buffer && at + size <= dst.Length
      modifies `cursor, `messageLength, `present, dst
      ensures moved <= size
      ensures Valid() && (View(), Moved(dst[at..at + moved])) == Move(old(View()), size)
      ensures dst[..at] == old(dst[..at]) && dst[at + moved..] == old(dst[at + moved..])
    {
      moved := if messageLength > size then size else messageLength;
      ghost var record := buffer[cursor..cursor + messageLength];
      assert buffer[cursor..cursor + moved] == record[..moved];
      assert buffer[cursor + moved..cursor + messageLength] == record[moved..];
      Copy(buffer[cursor..cursor + moved], dst, at);
      cursor, messageLength := cursor + moved, messageLength - moved;
      if messageLength == 0 {
        present := false;
      }
    }

    /** What opens is whatever has been sealed under the key, by the peer or by this end. */
    method EncryptedIngress(dst: array<byte>, at: nat, size: nat, peerLog: seq<Sealed>) returns (ret: Return)
      requires Valid() && dst != buffer && at + size <= dst.Length
      modifies this, dst
      ensures Valid() && View() == Ingress(old(View()), size, sealedRecords + peerLog).0
      ensures buffer == old(buffer) || fresh(buffer)
      ensures unchanged(`outgoing, `egressSequence, `sealedRecords)
      ensures var n := if ret.Bytes? then ret.count else 0;
              n <= size && dst[..at] == old(dst[..at]) && dst[at + n..] == old(dst[at + n..])
      ensures match Ingress(old(View()), size, sealedRecords + peerLog).1
              case Failed(e) => ret == Code(e)
              case Moved(bytes) => ret == Bytes(|bytes|) && dst[at..at + |bytes|] == bytes
    {
      hide NextRecord, Move;
      if !present {
        var error := FetchRecord(sealedRecords + peerLog);
        if error.Some? {
          return Code(error.value);
        }
      }
      var moved := MoveOut(dst, at, size);
      return Bytes(moved);
    }

    /** Seals a payload and hands the record to the host; `taken` is what ocall_egress returns.
        Only a record that the host took whole advances the sequence number. */
    method EncryptedEgress(payload: seq<byte>, cipher: Option<Sealed>, memory: bool, taken: int) returns (ret: Return)
      requires cipher.Some? ==> WellSealed(cipher.value)
      requires cipher.Some? ==> cipher.value.plaintext == payload && cipher.value.sequence == egressSequence
      modifies `egressSequence, `sealedRecords, `outgoing
      ensures ret == if !memory then Code(ENOMEM) else if cipher.None? then Code(EFAULT)
                     else if taken != |payload| + ENVELOPE_SIZE then Code(EIO) else Bytes(|payload|)
      ensures sealedRecords == old(sealedRecords) + if memory && cipher.Some? then [cipher.value] else []
      ensures ret.Bytes? ==> egressSequence == Add64(old(egressSequence), |payload|)
      ensures ret.Bytes? ==> outgoing == old(outgoing) + EnvelopeHeader(cipher.value) + cipher.value.ciphertext
      ensures ret.Code? ==> egressSequence == old(egressSequence) && outgoing == old(outgoing)
    {
      if !memory {
        return Code(ENOMEM);
      }
      if cipher.None? {
        return Code(EFAULT);
      }
      sealedRecords := sealedRecords + [cipher.value];
      if taken != |payload| + ENVELOPE_SIZE {
        return Code(EIO);
      }
      outgoing := outgoing + EnvelopeHeader(cipher.value) + cipher.value.ciphertext;
      egressSequence := Add64(egressSequence, |payload|);
      return Bytes(|payload|);
    }
  }

  /** memcpy. */
  method Copy(src: seq<byte>, dst: array<byte>, at: nat)
    requires at + |src| <= dst.Length
    modifies dst
    ensures dst[..] == old(dst[..at]) + src + old(dst[at + |src|..])
  {
    forall i | 0 <= i < |src| {
      dst[at + i] := src[i];
    }
  }
}
