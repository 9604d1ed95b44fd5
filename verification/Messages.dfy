/** Message framing: a header with type and length, then the payload, one message per record. */
module Messages {
  import opened Bytes
  import opened Options
  import opened RecordLayer

  const HEADER_SIZE := 8
  const MESSAGE_TYPES := 9

  datatype Message = Message(kind: nat, payload: seq<byte>)

  /** The two header fields are u32. */
  predicate Representable(m: Message)
  {
    m.kind < U32_LIMIT && |m.payload| < U32_LIMIT
  }

  function Frame(m: Message): (r: seq<byte>)
    requires Representable(m)
    ensures |r| == HEADER_SIZE + |m.payload|
  {
    EncodeU32(m.kind) + EncodeU32(|m.payload|) + m.payload
  }

  lemma {:induction false} FrameFields(m: Message)
    requires Representable(m)
    ensures LittleEndian(Frame(m)[..4]) == m.kind
    ensures LittleEndian(Frame(m)[4..8]) == |m.payload|
    ensures Frame(m)[8..] == m.payload
  {
    assert Frame(m)[..4] == EncodeU32(m.kind);
    assert Frame(m)[4..8] == EncodeU32(|m.payload|);
  }

  // ---- What receive computes ----

  /** How much a receiver can still do without moving bytes. */
  function Budget(r: Receiver): nat
  {
    2 * Weight(r.events) + if r.record.Some? then 1 else 0
  }

  lemma {:induction false} IngressSpends(r: Receiver, size: nat, log: seq<Sealed>)
    requires size > 0
    ensures var (next, outcome) := Ingress(r, size, log);
            outcome.Moved? ==> |outcome.bytes| <= size && (outcome.bytes == [] ==> Budget(next) < Budget(r))
  {
    if r.record.None? {
      var (next, error) := NextRecord(r, log);
      if error.None? {
        var read := OcallIngress(r.events, ENVELOPE_SIZE);
        assert Weight(next.events) <= Weight(read.rest) < Weight(r.events);
      }
    }
  }

  /** The payload loop. */
  function ReceivePayload(r: Receiver, need: nat, got: seq<byte>, log: seq<Sealed>): (Receiver, Option<seq<byte>>)
    requires |got| <= need
    decreases need - |got|, Budget(r)
  {
    if |got| == need then (r, Some(got))
    else
      IngressSpends(r, need - |got|, log);
      var (next, outcome) := Ingress(r, need - |got|, log);
      if outcome.Failed? then (next, None) else ReceivePayload(next, need, got + outcome.bytes, log)
  }

  function Receive(r: Receiver, log: seq<Sealed>): (Receiver, Option<Message>)
  {
    var (r1, outcome) := Ingress(r, HEADER_SIZE, log);
    if outcome.Failed? || |outcome.bytes| != HEADER_SIZE then (r1, None)
    else
      var kind, size := LittleEndian(outcome.bytes[..4]), LittleEndian(outcome.bytes[4..]);
      if kind >= MESSAGE_TYPES then (r1, None)
      else if AllocationFails(r1.events) then (r1.(events := AfterAllocation(r1.events)), None)
      else
        var (r2, payload) := ReceivePayload(r1, size, [], log);
        (r2, if payload.None? then None else Some(Message(kind, payload.value)))
  }

  // ---- What is received ----

  /** The text of a record that holds one message. */
  predicate IsFramed(text: seq<byte>)
  {
    |text| >= HEADER_SIZE && LittleEndian(text[4..8]) == |text| - HEADER_SIZE
  }

  function MessageIn(text: seq<byte>): Message
    requires IsFramed(text)
  {
    Message(LittleEndian(text[..4]), text[8..])
  }

  lemma {:induction false} FramedText(text: seq<byte>)
    requires IsFramed(text)
    ensures Representable(MessageIn(text)) && Frame(MessageIn(text)) == text
  {
    LittleEndianBound(text[..4]);
    LittleEndianBound(text[4..8]);
    Pow256Four();
    EncodedU32(text[..4]);
    EncodedU32(text[4..8]);
    assert text == text[..4] + text[4..8] + text[8..];
  }

  lemma {:induction false} EncodedU32(s: seq<byte>)
    requires |s| == 4 && LittleEndian(s) < U32_LIMIT
    ensures EncodeU32(LittleEndian(s)) == s
  {
    DecodeEncode(s);
  }

  /** What a sender puts into a record is framed, and holds the message. */
  lemma {:induction false} FrameIsFramed(m: Message)
    requires Representable(m)
    ensures IsFramed(Frame(m)) && MessageIn(Frame(m)) == m
  {
    FrameFields(m);
  }

  predicate AllFramed(log: seq<Sealed>)
  {
    forall i :: 0 <= i < |log| ==> IsFramed(log[i].plaintext)
  }

  function MessagesIn(log: seq<Sealed>): (ms: seq<Message>)
    requires AllFramed(log)
    ensures |ms| == |log| && forall i :: 0 <= i < |log| ==> ms[i] == MessageIn(log[i].plaintext)
  {
    seq(|log|, i requires 0 <= i < |log| => MessageIn(log[i].plaintext))
  }

  /** The payload loop takes what is left of a record in one go. */
  lemma {:induction false} PayloadInRecord(r: Receiver, payload: seq<byte>, log: seq<Sealed>)
    requires r.record == if payload == [] then None else Some(payload)
    ensures ReceivePayload(r, |payload|, [], log) == (r.(record := None), Some(payload))
  {
    if payload != [] {
      var (next, outcome) := Ingress(r, |payload|, log);
      assert outcome == Moved(payload) && next == r.(record := None);
      assert [] + payload == payload;
    }
  }

  lemma {:induction false} HeaderThenPayload(r: Receiver, m: Message)
    requires Representable(m) && r.record == Some(Frame(m))
    ensures var (r1, outcome) := Move(r, HEADER_SIZE);
            && outcome == Moved(Frame(m)[..HEADER_SIZE])
            && r1 == r.(record := if m.payload == [] then None else Some(m.payload))
  {
    FrameFields(m);
  }

  /** Once a record with one message is fetched, the message is received whole, unless its type is none of the
      nine or memory runs out; then the payload stays behind. */
  lemma {:induction false} ReceiveFrame(r: Receiver, next: Receiver, m: Message, log: seq<Sealed>)
    requires r.record.None? && NextRecord(r, log) == (next, None)
    requires Representable(m) && next.record == Some(Frame(m))
    ensures var (r', got) := Receive(r, log);
            && (got.Some? <==> m.kind < 9 && !AllocationFails(next.events))
            && (got.Some? ==> got.value == m && r' == next.(record := None))
            && (got.None? ==> r'.record == (if m.payload == [] then None else Some(m.payload))
                              && r'.sequence == next.sequence)
  {
    HeaderThenPayload(next, m);
    FrameFields(m);
    hide NextRecord, ReceivePayload, Frame, LittleEndian;
    var (r1, outcome) := Ingress(r, HEADER_SIZE, log);
    PayloadInRecord(r1, m.payload, log);
    assert outcome.bytes[4..] == Frame(m)[4..8];
    assert outcome.bytes[..4] == Frame(m)[..4];
  }

  /** One receive: a message, if there is one, is that of one record, numbered as expected; nothing is left
      behind. */
  lemma {:induction false} ReceiveTakesRecord(r: Receiver, log: seq<Sealed>) returns (x: Sealed)
    requires AllFramed(log) && r.record.None? && Receive(r, log).1.Some?
    ensures x in log && x.sequence == r.sequence && IsFramed(x.plaintext)
    ensures Receive(r, log).1 == Some(MessageIn(x.plaintext))
    ensures Receive(r, log).0.record.None? && Receive(r, log).0.sequence == Add64(r.sequence, |x.plaintext|)
  {
    var (next, error) := NextRecord(r, log);
    assert error.None? by {
      hide NextRecord, ReceivePayload;
    }
    x := FetchedRecord(r, log);
    FramedText(x.plaintext);
    hide NextRecord, Receive, Frame, IsFramed, Add64;
    ReceiveFrame(r, next, MessageIn(x.plaintext), log);
  }

  /** What can be opened when a message is awaited. */
  datatype Seen = Seen(made: nat, sent: nat)

  predicate PossibleSeen(seens: seq<Seen>, own: seq<Sealed>, peer: seq<Sealed>)
  {
    forall i :: 0 <= i < |seens| ==> seens[i].made <= |own| && seens[i].sent <= |peer|
  }

  /** The messages received until one fails. */
  function ReceiveAll(r: Receiver, seens: seq<Seen>, own: seq<Sealed>, peer: seq<Sealed>): seq<Message>
    requires PossibleSeen(seens, own, peer)
    decreases |seens|
  {
    if seens == [] then []
    else
      var (next, m) := Receive(r, Shared(own, peer, seens[0].made, seens[0].sent));
      if m.None? then [] else [m.value] + ReceiveAll(next, seens[1..], own, peer)
  }

  lemma {:induction false} OneMessageMore(
    own: seq<Sealed>, peer: seq<Sealed>, x: Sealed, ys: seq<Sealed>, sequence: nat)
    requires (x in own || x in peer) && x.sequence == sequence && IsFramed(x.plaintext) && AllFramed(ys)
    requires Chain(own, peer, ys, Add64(sequence, |x.plaintext|))
    ensures Chain(own, peer, [x] + ys, sequence) && AllFramed([x] + ys)
    ensures MessagesIn([x] + ys) == [MessageIn(x.plaintext)] + MessagesIn(ys)
  {
    hide IsFramed, Add64, MessageIn;
    var xs := [x] + ys;
    assert xs[0] == x && xs[1..] == ys;
    assert AllFramed(xs);
  }

  /** Each of these records is sealed by the time the message of its turn is awaited. */
  ghost predicate Available(seens: seq<Seen>, own: seq<Sealed>, peer: seq<Sealed>, xs: seq<Sealed>)
    requires PossibleSeen(seens, own, peer)
  {
    && |xs| <= |seens|
    && forall i :: 0 <= i < |xs| ==> xs[i] in own[..seens[i].made] || xs[i] in peer[..seens[i].sent]
  }

  lemma {:induction false} OneMoreAvailable(
    seens: seq<Seen>, own: seq<Sealed>, peer: seq<Sealed>, x: Sealed, ys: seq<Sealed>)
    requires seens != [] && PossibleSeen(seens, own, peer) && Available(seens[1..], own, peer, ys)
    requires x in own[..seens[0].made] || x in peer[..seens[0].sent]
    ensures Available(seens, own, peer, [x] + ys)
  {
    assert forall i :: 0 < i < |seens| ==> seens[i] == seens[1..][i - 1];
    assert forall i :: 0 < i <= |ys| ==> ([x] + ys)[i] == ys[i - 1];
  }

  /** For any host, the messages received are those of a chain of records that are sealed in time. */
  lemma {:induction false} ReceivedMessagesAreChain(r: Receiver, seens: seq<Seen>, own: seq<Sealed>, peer: seq<Sealed>)
    returns (xs: seq<Sealed>)
    requires AllFramed(own) && AllFramed(peer) && r.record.None? && PossibleSeen(seens, own, peer)
    ensures Chain(own, peer, xs, r.sequence) && AllFramed(xs) && ReceiveAll(r, seens, own, peer) == MessagesIn(xs)
    ensures Available(seens, own, peer, xs)
    decreases |seens|
  {
    hide Receive, IsFramed, Add64;
    xs := [];
    if seens != [] {
      var log := Shared(own, peer, seens[0].made, seens[0].sent);
      var (next, m) := Receive(r, log);
      if m.Some? {
        var x := ReceiveTakesRecord(r, log);
        var ys := ReceivedMessagesAreChain(next, seens[1..], own, peer);
        hide Chain, Available;
        OneMessageMore(own, peer, x, ys, r.sequence);
        OneMoreAvailable(seens, own, peer, x, ys);
        xs := [x] + ys;
      }
    }
  }

  // ---- The peer's messages, and one's own ----

  /** The operator sends odd types, players even ones. */
  predicate Kinds(log: seq<Sealed>, parity: nat)
    requires AllFramed(log)
  {
    forall i :: 0 <= i < |log| ==> MessageIn(log[i].plaintext).kind % 2 == parity
  }

  /** Along a chain, the records of the peer come in order, up to the first that is not the peer's. */
  lemma {:induction false} ChainFollows(own: seq<Sealed>, peer: seq<Sealed>, xs: seq<Sealed>, n: nat, k: nat)
    requires InSequence(peer) && AllFramed(peer) && k <= |peer| && n <= |xs|
    requires Chain(own, peer, xs, Boundary(peer, k)) && forall i :: 0 <= i < n ==> xs[i] !in own
    ensures k + n <= |peer| && xs[..n] == peer[k..k + n]
    ensures Chain(own, peer, xs[n..], Boundary(peer, k + n))
    decreases n
  {
    hide Boundary, InSequence, Add64, IsFramed;
    if n == 0 {
      assert xs[n..] == xs;
    } else {
      assert xs[0] in peer;
      var m: nat :| m < |peer| && peer[m] == xs[0];
      PeerRecord(peer, m);
      FramedIsNotEmpty(peer);
      SameBoundary(peer, m, k);
      ChainFollows(own, peer, xs[1..], n - 1, k + 1);
      FollowsFirst(peer, xs, n, k);
    }
  }

  lemma {:induction false} FollowsFirst(peer: seq<Sealed>, xs: seq<Sealed>, n: nat, k: nat)
    requires 0 < n <= |xs| && k + n <= |peer| && xs[0] == peer[k] && xs[1..][..n - 1] == peer[k + 1..k + n]
    ensures xs[..n] == peer[k..k + n] && xs[1..][n - 1..] == xs[n..]
  {
    assert xs[..n] == [xs[0]] + xs[1..][..n - 1];
  }

  lemma {:induction false} FramedIsNotEmpty(log: seq<Sealed>)
    requires AllFramed(log)
    ensures forall i :: 0 <= i < |log| ==> log[i].plaintext != []
  {
    forall i | 0 <= i < |log|
      ensures log[i].plaintext != []
    {
      assert IsFramed(log[i].plaintext);
    }
  }

  lemma {:induction false} OwnKind(own: seq<Sealed>, parity: nat, x: Sealed)
    requires AllFramed(own) && Kinds(own, parity)
    ensures x in own ==> IsFramed(x.plaintext) && MessageIn(x.plaintext).kind % 2 == parity
  {
    if x in own {
      var i: nat :| i < |own| && own[i] == x;
      assert IsFramed(own[i].plaintext);
    }
  }

  lemma {:induction false} FirstMessages(xs: seq<Sealed>, peer: seq<Sealed>, n: nat)
    requires AllFramed(xs) && AllFramed(peer) && n <= |xs| && n <= |peer| && xs[..n] == peer[..n]
    ensures MessagesIn(xs)[..n] <= MessagesIn(peer)
  {
    forall i | 0 <= i < n
      ensures MessagesIn(xs)[i] == MessagesIn(peer)[i]
    {
      assert xs[..n][i] == peer[..n][i];
    }
    hide IsFramed;
  }

  /** For any host: as long as the messages received are of types that the peer sends, they are a prefix of the
      messages it has sent. So a message that is not the peer's next one is of a type that its receiver never
      waits for. */
  lemma {:induction false} ReceivedMessagesArePrefix(
    events: seq<Event>, seens: seq<Seen>, own: seq<Sealed>, peer: seq<Sealed>, parity: nat, n: nat)
    requires AllFramed(own) && AllFramed(peer) && InSequence(peer) && Kinds(own, parity)
    requires PossibleSeen(seens, own, peer)
    requires n <= |ReceiveAll(Receiver(events, 0, None), seens, own, peer)|
    requires forall i :: 0 <= i < n ==> ReceiveAll(Receiver(events, 0, None), seens, own, peer)[i].kind % 2 != parity
    ensures ReceiveAll(Receiver(events, 0, None), seens, own, peer)[..n] <= MessagesIn(peer)
  {
    var received := ReceiveAll(Receiver(events, 0, None), seens, own, peer);
    hide ReceiveAll, Boundary, Chain, InSequence, IsFramed;
    BoundaryBound(peer, 0);
    var xs := ReceivedMessagesAreChain(Receiver(events, 0, None), seens, own, peer);
    forall i | 0 <= i < n
      ensures xs[i] !in own
    {
      assert received[i] == MessageIn(xs[i].plaintext);
      OwnKind(own, parity, xs[i]);
    }
    ChainFollows(own, peer, xs, n, 0);
    assert xs[..n] == peer[..n];
    FirstMessages(xs, peer, n);
    hide *;
  }

  /** Every message received is one that either end has sent. */
  lemma {:induction false} ReceivedMessagesWereSent(
    events: seq<Event>, seens: seq<Seen>, own: seq<Sealed>, peer: seq<Sealed>, m: Message)
    requires AllFramed(own) && AllFramed(peer) && PossibleSeen(seens, own, peer)
    requires m in ReceiveAll(Receiver(events, 0, None), seens, own, peer)
    ensures m in MessagesIn(own) || m in MessagesIn(peer)
  {
    hide ReceiveAll, IsFramed;
    var xs := ReceivedMessagesAreChain(Receiver(events, 0, None), seens, own, peer);
    var i: nat :| i < |xs| && MessagesIn(xs)[i] == m;
    ChainMember(own, peer, xs, 0, i);
    if xs[i] in own {
      var j: nat :| j < |own| && own[j] == xs[i];
      assert MessagesIn(own)[j] == m;
    } else {
      var j: nat :| j < |peer| && peer[j] == xs[i];
      assert MessagesIn(peer)[j] == m;
    }
  }

  lemma {:induction false} ChainMember(own: seq<Sealed>, peer: seq<Sealed>, xs: seq<Sealed>, sequence: nat, i: nat)
    requires Chain(own, peer, xs, sequence) && i < |xs|
    ensures xs[i] in own || xs[i] in peer
    decreases i
  {
    if i > 0 {
      ChainMember(own, peer, xs[1..], Add64(sequence, |xs[0].plaintext|), i - 1);
    }
  }

  // ---- A host that delivers everything ----

  predicate KnownKinds(log: seq<Sealed>)
    requires AllFramed(log)
  {
    forall i :: 0 <= i < |log| ==> MessageIn(log[i].plaintext).kind < MESSAGE_TYPES
  }

  function Always(made: nat, sent: nat, times: nat): (r: seq<Seen>)
    ensures |r| == times && forall i :: 0 <= i < times ==> r[i] == Seen(made, sent)
  {
    seq(times, _ => Seen(made, sent))
  }

  lemma {:induction false} DeliversMessage(
    own: seq<Sealed>, peer: seq<Sealed>, seen: Seen, xs: seq<Sealed>, cuts: seq<seq<seq<byte>>>, sequence: nat,
    next: Receiver)
    requires Deliverable(own, peer) && seen.made <= |own| && seen.sent <= |peer| && |cuts| == |xs| > 0
    requires (xs[0] in own[..seen.made] || xs[0] in peer[..seen.sent]) && xs[0].sequence == sequence
    requires CutsOf(cuts[0], xs[0].ciphertext) && IsFramed(xs[0].plaintext)
    requires MessageIn(xs[0].plaintext).kind < MESSAGE_TYPES
    requires next == Receiver(Delivery(xs[1..], cuts[1..]), Add64(sequence, |xs[0].plaintext|), None)
    ensures Receive(Receiver(Delivery(xs, cuts), sequence, None), Shared(own, peer, seen.made, seen.sent))
         == (next, Some(MessageIn(xs[0].plaintext)))
  {
    var x, r := xs[0], Receiver(Delivery(xs, cuts), sequence, None);
    var log := Shared(own, peer, seen.made, seen.sent);
    NoAllocationFailure(cuts[0], xs[1..], cuts[1..]);
    RecordArrives(own, peer, seen.made, seen.sent, x, cuts[0], next.events);
    FramedText(x.plaintext);
    hide NextRecord, Receive, Deliverable, CutsOf, Add64, Chunks, Arriving, Frame, IsFramed;
    ReceiveFrame(r, next.(record := Some(x.plaintext)), MessageIn(x.plaintext), log);
  }

  lemma {:induction false} LaterAvailable(seens: seq<Seen>, own: seq<Sealed>, peer: seq<Sealed>, xs: seq<Sealed>)
    requires PossibleSeen(seens, own, peer) && Available(seens, own, peer, xs) && xs != []
    ensures PossibleSeen(seens[1..], own, peer) && Available(seens[1..], own, peer, xs[1..])
    ensures xs[0] in own[..seens[0].made] || xs[0] in peer[..seens[0].sent]
  {
  }

  /** A host can make any chain of records arrive that are sealed in time, however it fragments them. */
  lemma {:induction false} EveryChainArrives(
    own: seq<Sealed>, peer: seq<Sealed>, seens: seq<Seen>, xs: seq<Sealed>, cuts: seq<seq<seq<byte>>>, sequence: nat)
    requires Deliverable(own, peer) && Chain(own, peer, xs, sequence) && |cuts| == |xs| == |seens|
    requires PossibleSeen(seens, own, peer) && Available(seens, own, peer, xs)
    requires AllFramed(xs) && KnownKinds(xs) && forall i :: 0 <= i < |xs| ==> CutsOf(cuts[i], xs[i].ciphertext)
    ensures ReceiveAll(Receiver(Delivery(xs, cuts), sequence, None), seens, own, peer) == MessagesIn(xs)
    decreases |xs|
  {
    hide Receive, Deliverable, CutsOf, Add64, IsFramed, Available, Delivery;
    if xs != [] {
      LaterAvailable(seens, own, peer, xs);
      var next := Receiver(Delivery(xs[1..], cuts[1..]), Add64(sequence, |xs[0].plaintext|), None);
      DeliversMessage(own, peer, seens[0], xs, cuts, sequence, next);
      EveryChainArrives(own, peer, seens[1..], xs[1..], cuts[1..], next.sequence);
      assert MessagesIn(xs) == [MessageIn(xs[0].plaintext)] + MessagesIn(xs[1..]);
    }
  }

  lemma {:induction false} PeerAvailable(seens: seq<Seen>, own: seq<Sealed>, peer: seq<Sealed>, n: nat)
    requires PossibleSeen(seens, own, peer) && n <= |seens| && n <= |peer|
    requires forall m :: 0 <= m < n ==> m < seens[m].sent
    ensures Available(seens, own, peer, peer[..n])
  {
    forall i | 0 <= i < n
      ensures peer[..n][i] in peer[..seens[i].sent]
    {
      assert peer[..seens[i].sent][i] == peer[i];
    }
  }

  /** However the ciphertexts are fragmented, a host that delivers every record in order lets every message
      through unchanged. */
  lemma {:induction false} AllMessagesArrive(own: seq<Sealed>, peer: seq<Sealed>, cuts: seq<seq<seq<byte>>>)
    requires Deliverable(own, peer) && InSequence(peer) && AllFramed(peer) && KnownKinds(peer) && |cuts| == |peer|
    requires forall i :: 0 <= i < |peer| ==> CutsOf(cuts[i], peer[i].ciphertext)
    ensures ReceiveAll(Receiver(Delivery(peer, cuts), 0, None), Always(|own|, |peer|, |peer|), own, peer)
         == MessagesIn(peer)
  {
    PeerIsChain(own, peer, 0, |peer|, []);
    assert peer[0..|peer|] + [] == peer;
    BoundaryBound(peer, 0);
    PeerAvailable(Always(|own|, |peer|, |peer|), own, peer, |peer|);
    assert peer[..|peer|] == peer;
    hide Chain, Boundary, InSequence, Deliverable, CutsOf, IsFramed, ReceiveAll, Available;
    EveryChainArrives(own, peer, Always(|own|, |peer|, |peer|), peer, cuts, 0);
  }

  // ---- Exactly when only the peer is heard ----

  /** Messages awaited at given times: all that any host makes arrive are those of the peer, in order. */
  ghost predicate OnlyPeerHeard(seens: seq<Seen>, own: seq<Sealed>, peer: seq<Sealed>)
    requires PossibleSeen(seens, own, peer) && AllFramed(peer)
  {
    forall events :: ReceiveAll(Receiver(events, 0, None), seens, own, peer) <= MessagesIn(peer)
  }

  /** The peer's first n records are sealed each by the time its turn comes. */
  predicate InTime(seens: seq<Seen>, n: nat)
  {
    n <= |seens| && forall m :: 0 <= m < n ==> m < seens[m].sent
  }

  /** When a message is awaited after n of the peer's, none that the receiver has sealed until then is numbered
      like the end of those. */
  ghost predicate Timely(seens: seq<Seen>, own: seq<Sealed>, peer: seq<Sealed>)
    requires PossibleSeen(seens, own, peer)
  {
    forall n: nat :: n < |seens| && n <= |peer| && InTime(seens, n) ==>
      Unused(own[..seens[n].made], Boundary(peer, n))
  }

  lemma {:induction false} FirstBytes(log: seq<Sealed>, parity: nat)
    requires AllFramed(log) && Kinds(log, parity)
    ensures forall i :: 0 <= i < |log| ==> log[i].plaintext != [] && log[i].plaintext[0] % 2 == parity
  {
    forall i | 0 <= i < |log|
      ensures log[i].plaintext != [] && log[i].plaintext[0] % 2 == parity
    {
      var text := log[i].plaintext;
      assert IsFramed(text) && MessageIn(text).kind % 2 == parity;
      assert LittleEndian(text[..4]) == text[0] + 256 * LittleEndian(text[..4][1..]);
    }
  }

  /** Frames of the operator and of a player differ in their first byte. */
  lemma {:induction false} FramesAreDistinguishable(own: seq<Sealed>, peer: seq<Sealed>, parity: nat)
    requires AllFramed(own) && AllFramed(peer) && parity <= 1 && Kinds(own, parity) && Kinds(peer, 1 - parity)
    ensures Distinguishable(own, peer)
  {
    FirstBytes(own, parity);
    FirstBytes(peer, 1 - parity);
    hide IsFramed;
  }

  lemma {:induction false} TimelyChain(
    seens: seq<Seen>, own: seq<Sealed>, peer: seq<Sealed>, xs: seq<Sealed>, n: nat)
    requires InSequence(peer) && AllFramed(peer) && PossibleSeen(seens, own, peer) && Timely(seens, own, peer)
    requires n <= |peer| && InTime(seens, n) && Chain(own, peer, xs, Boundary(peer, n))
    requires Available(seens[n..], own, peer, xs)
    ensures xs <= peer[n..]
    decreases |xs|
  {
    hide Boundary, InSequence, Add64, IsFramed;
    if xs != [] {
      var later := seens[n..];
      LaterAvailable(later, own, peer, xs);
      assert later[0] == seens[n] && later[1..] == seens[n + 1..];
      assert xs[0] !in own[..seens[n].made];
      var m: nat :| m < seens[n].sent && peer[m] == xs[0];
      PeerRecord(peer, m);
      FramedIsNotEmpty(peer);
      SameBoundary(peer, m, n);
      TimelyChain(seens, own, peer, xs[1..], n + 1);
      assert xs == [xs[0]] + xs[1..] && peer[n..] == [peer[n]] + peer[n + 1..];
    }
  }

  lemma {:induction false} TimelyIsHeard(
    events: seq<Event>, seens: seq<Seen>, own: seq<Sealed>, peer: seq<Sealed>)
    requires AllFramed(own) && AllFramed(peer) && InSequence(peer)
    requires PossibleSeen(seens, own, peer) && Timely(seens, own, peer)
    ensures ReceiveAll(Receiver(events, 0, None), seens, own, peer) <= MessagesIn(peer)
  {
    hide ReceiveAll, Boundary, Chain, InSequence, Timely, Available, IsFramed;
    BoundaryBound(peer, 0);
    var xs := ReceivedMessagesAreChain(Receiver(events, 0, None), seens, own, peer);
    assert seens[0..] == seens && peer[0..] == peer;
    TimelyChain(seens, own, peer, xs, 0);
    assert MessagesIn(xs) == MessagesIn(peer)[..|xs|];
  }

  lemma {:induction false} EndsWithOwn(own: seq<Sealed>, peer: seq<Sealed>, j: nat, k: nat)
    requires AllFramed(own) && AllFramed(peer) && KnownKinds(own) && KnownKinds(peer) && j < |own| && k <= |peer|
    ensures var xs := peer[..k] + [own[j]];
            && AllFramed(xs) && KnownKinds(xs)
            && MessagesIn(xs) == MessagesIn(peer)[..k] + [MessageIn(own[j].plaintext)]
  {
    var xs := peer[..k] + [own[j]];
    assert forall i :: 0 <= i < |xs| ==> xs[i] == if i < k then peer[i] else own[j];
    hide IsFramed;
  }

  /** A host that gives an enclave one of its own records, numbered like the end of the peer's first n, makes
      it receive its own message after theirs. */
  lemma {:induction false} OwnMessageComesBack(
    seens: seq<Seen>, own: seq<Sealed>, peer: seq<Sealed>, j: nat, n: nat) returns (events: seq<Event>)
    requires Deliverable(own, peer) && InSequence(peer) && AllFramed(own) && AllFramed(peer)
    requires KnownKinds(own) && KnownKinds(peer) && PossibleSeen(seens, own, peer)
    requires n <= |peer| && |seens| == n + 1 && InTime(seens, n)
    requires j < seens[n].made && own[j].sequence == Boundary(peer, n)
    ensures ReceiveAll(Receiver(events, 0, None), seens, own, peer)
         == MessagesIn(peer)[..n] + [MessageIn(own[j].plaintext)]
  {
    var xs := peer[..n] + [own[j]];
    PeerAvailable(seens, own, peer, n);
    assert own[..seens[n].made][j] == own[j];
    assert Available(seens, own, peer, xs) by {
      assert forall i :: 0 <= i < n ==> xs[i] == peer[..n][i];
    }
    hide Chain, Boundary, InSequence, Deliverable, CutsOf, IsFramed, ReceiveAll, Delivery, Uncut, Available;
    OwnRecordComesBack(own, peer, j, n);
    EndsWithOwn(own, peer, j, n);
    events := Delivery(xs, Uncut(xs));
    EveryChainArrives(own, peer, seens, xs, Uncut(xs), 0);
  }

  lemma {:induction false} HeardSoFar(r: Receiver, seens: seq<Seen>, own: seq<Sealed>, peer: seq<Sealed>, n: nat)
    requires PossibleSeen(seens, own, peer) && n <= |seens|
    ensures ReceiveAll(r, seens[..n], own, peer) <= ReceiveAll(r, seens, own, peer)
    decreases n
  {
    hide Receive;
    if n > 0 {
      var (next, m) := Receive(r, Shared(own, peer, seens[0].made, seens[0].sent));
      if m.Some? {
        HeardSoFar(next, seens[1..], own, peer, n - 1);
        assert seens[..n][1..] == seens[1..][..n - 1];
      }
    }
  }

  /** For messages awaited at given times, all that any host can make an enclave receive are messages of its
      peer, in order, exactly when no record that the enclave has sealed until then is numbered like the end of
      those before. */
  lemma {:induction false} OnlyPeerHeardExactly(
    seens: seq<Seen>, own: seq<Sealed>, peer: seq<Sealed>, parity: nat)
    requires Deliverable(own, peer) && InSequence(peer) && AllFramed(own) && AllFramed(peer)
    requires parity <= 1 && Kinds(own, parity) && Kinds(peer, 1 - parity)
    requires KnownKinds(own) && KnownKinds(peer) && PossibleSeen(seens, own, peer)
    ensures OnlyPeerHeard(seens, own, peer) <==> Timely(seens, own, peer)
  {
    hide Boundary, InSequence, Deliverable, IsFramed, ReceiveAll;
    if Timely(seens, own, peer) {
      forall events
        ensures ReceiveAll(Receiver(events, 0, None), seens, own, peer) <= MessagesIn(peer)
      {
        TimelyIsHeard(events, seens, own, peer);
      }
    } else {
      var n: nat :| n < |seens| && n <= |peer| && InTime(seens, n) && !Unused(own[..seens[n].made], Boundary(peer, n));
      var j: nat :| j < seens[n].made && own[j].sequence == Boundary(peer, n);
      var events := OwnMessageComesBack(seens[..n + 1], own, peer, j, n);
      HeardSoFar(Receiver(events, 0, None), seens, own, peer, n + 1);
      var received := ReceiveAll(Receiver(events, 0, None), seens, own, peer);
      assert received[n].kind % 2 == parity;
      assert n < |peer| ==> MessagesIn(peer)[n].kind % 2 == 1 - parity;
      assert !(received <= MessagesIn(peer));
    }
  }

  const ACK := 2

  lemma {:induction false} NotFirst(peer: seq<Sealed>, m: Message)
    requires AllFramed(peer) && Kinds(peer, 1) && m.kind % 2 == 0
    ensures !([m] <= MessagesIn(peer))
  {
    if |peer| > 0 {
      assert MessagesIn(peer)[0].kind % 2 == 1;
    }
  }

  /** A player's first record, the ACK, is numbered 0 like the operator's first: before anything else, a host
      can hand it back to the player, which receives its own ACK. */
  lemma {:induction false} AckComesBack(ack: Sealed, peer: seq<Sealed>) returns (events: seq<Event>, seens: seq<Seen>)
    requires ack.sequence == 0 && IsFramed(ack.plaintext) && MessageIn(ack.plaintext).kind == ACK
    requires Deliverable([ack], peer) && InSequence(peer) && AllFramed(peer) && Kinds(peer, 1) && KnownKinds(peer)
    ensures PossibleSeen(seens, [ack], peer)
    ensures ReceiveAll(Receiver(events, 0, None), seens, [ack], peer) == [MessageIn(ack.plaintext)]
    ensures !(ReceiveAll(Receiver(events, 0, None), seens, [ack], peer) <= MessagesIn(peer))
  {
    hide Boundary, InSequence, Deliverable, IsFramed, ReceiveAll;
    BoundaryBound(peer, 0);
    NotFirst(peer, MessageIn(ack.plaintext));
    seens := [Seen(1, 0)];
    events := OwnMessageComesBack(seens, [ack], peer, 0, 0);
    hide *;
    assert MessagesIn(peer)[..0] + [MessageIn(ack.plaintext)] == [MessageIn(ack.plaintext)];
  }

  // ---- The operations on a channel ----

  /** ret < 0 ? ret : 0. */
  method Send(channel: Channel, m: Message, cipher: Option<Sealed>, memory: bool, taken: int)
    returns (error: Option<Error>)
    requires Representable(m)
    requires cipher.Some? ==> WellSealed(cipher.value)
    requires cipher.Some? ==> cipher.value.plaintext == Frame(m) && cipher.value.sequence == channel.egressSequence
    modifies channel`egressSequence, channel`sealedRecords, channel`outgoing
    ensures channel.sealedRecords == old(channel.sealedRecords) + if memory && cipher.Some? then [cipher.value] else []
    ensures error.None? <==> memory && cipher.Some? && taken == |Frame(m)| + ENVELOPE_SIZE
    ensures error.None? ==> channel.egressSequence == Add64(old(channel.egressSequence), |Frame(m)|)
    ensures error.None? ==>
        channel.outgoing == old(channel.outgoing) + EnvelopeHeader(cipher.value) + cipher.value.ciphertext
    ensures error.Some? ==> channel.egressSequence == old(channel.egressSequence)
    ensures error.Some? ==> channel.outgoing == old(channel.outgoing)
  {
    var ret := channel.EncryptedEgress(Frame(m), cipher, memory, taken);
    return if ret.Code? then Some(ret.error) else None;
  }

  method ReceiveMessage(channel: Channel, peerLog: seq<Sealed>) returns (m: Option<Message>)
    requires channel.Valid()
    modifies channel
    ensures unchanged(channel`sealedRecords)
    ensures channel.Valid() && (channel.View(), m) == Receive(old(channel.View()), old(channel.sealedRecords) + peerLog)
  {
    hide Ingress, ReceivePayload, LittleEndian;
    var hdr := new byte[HEADER_SIZE];
    var ret := channel.EncryptedIngress(hdr, 0, HEADER_SIZE, peerLog);
    if ret != Bytes(HEADER_SIZE) {
      return None;
    }
    var header := hdr[..];
    assert header == hdr[0..HEADER_SIZE];
    var kind, payloadSize := LittleEndian(header[..4]), LittleEndian(header[4..]);
    if kind >= MESSAGE_TYPES {
      return None;
    }
    if AllocationFails(channel.events) {
      channel.events := AfterAllocation(channel.events);
      return None;
    }
    var payload := ReceivePayloadLoop(channel, payloadSize, peerLog);
    return if payload.None? then None else Some(Message(kind, payload.value));
  }

  method ReceivePayloadLoop(channel: Channel, size: nat, peerLog: seq<Sealed>) returns (r: Option<seq<byte>>)
    requires channel.Valid()
    modifies channel
    ensures unchanged(channel`sealedRecords)
    ensures channel.Valid()
    ensures (channel.View(), r)
         == ReceivePayload(old(channel.View()), size, [], old(channel.sealedRecords) + peerLog)
  {
    hide Ingress, Budget;
    var payload := new byte[size];
    var received := 0;
    assert payload[..0] == [];
    while received < size
      invariant channel.Valid() && received <= size && payload != channel.buffer && fresh(payload)
      invariant unchanged(channel`sealedRecords)
      invariant ReceivePayload(channel.View(), size, payload[..received], channel.sealedRecords + peerLog)
             == ReceivePayload(old(channel.View()), size, [], old(channel.sealedRecords) + peerLog)
      decreases size - received, Budget(channel.View())
    {
      ghost var before, got := channel.View(), payload[..received];
      IngressSpends(before, size - received, channel.sealedRecords + peerLog);
      var ret := channel.EncryptedIngress(payload, received, size - received, peerLog);
      if ret.Code? {
        return None;
      }
      received := received + ret.count;
      assert payload[..received] == got + Ingress(before, size - |got|, channel.sealedRecords + peerLog).1.bytes;
    }
    assert payload[..] == payload[..received];
    return Some(payload[..]);
  }
}
