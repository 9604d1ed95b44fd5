/** Mutual attestation: SYN, SYN/ACK and ACK, and the switch to an encrypted channel. */
module Attestation {
  import opened Bytes
  import opened Options
  import opened Layouts
  import opened Merkle
  import opened Messages
  import opened Players
  import opened RecordLayer

  const SYN := 0
  const SYNACK := 1
  const ACK := 2
  const POINT_SIZE := 64
  const ATTESTATION_NONCE_SIZE := 32

  type Point = p: seq<byte> | |p| == POINT_SIZE witness seq(POINT_SIZE, _ => 0)
  type Nonce = n: seq<byte> | |n| == ATTESTATION_NONCE_SIZE witness seq(ATTESTATION_NONCE_SIZE, _ => 0)

  /** The primitives: g^a, the shared point (which fails off the curve), CMAC and SHA-256. */
  datatype Crypto = Crypto(
    power: nat -> Point,
    shared: (nat, Point) -> Option<seq<byte>>,
    cmac: (seq<byte>, seq<byte>) -> seq<byte>,
    sha256: HashFunction)

  /** All that is assumed of them. */
  ghost predicate DiffieHellman(c: Crypto)
  {
    forall a: nat, b: nat :: c.shared(a, c.power(b)).Some? && c.shared(a, c.power(b)) == c.shared(b, c.power(a))
  }

  const ZEROES: seq<byte> := seq(32, _ => 0)

  /** "auntiecontract", a one, and the terminating zero. */
  const SEPARATOR: seq<byte> := [97, 117, 110, 116, 105, 101, 99, 111, 110, 116, 114, 97, 99, 116, 1, 0]

  function SessionKey(c: Crypto, ga: Point, gb: Point, gab: seq<byte>): seq<byte>
  {
    c.cmac(DerivationKey(c, gab), SEPARATOR + ga + gb)
  }

  function DerivationKey(c: Crypto, gab: seq<byte>): seq<byte>
  {
    c.cmac(ZEROES[..16], gab)
  }

  function Transcript(nonce: Nonce, ga: Point, gb: Point): seq<byte>
  {
    nonce + ga + gb
  }

  function ReportData(c: Crypto, nonce: Nonce, ga: Point, gb: Point): Report
  {
    c.sha256(Transcript(nonce, ga, gb)) + ZEROES
  }

  // ---- The messages ----

  function Syn(ga: Point, id: nat, nonce: Nonce): Message
    requires id < U32_LIMIT
  {
    Message(SYN, ga + EncodeU32(id) + nonce)
  }

  function SynAck(gb: Point, nonce: Nonce, quote: Part): Message
  {
    Message(SYNACK, gb + nonce + quote)
  }

  // ---- What each side computes from the message it gets ----

  datatype OperatorSession = OperatorSession(id: nat, key: seq<byte>, ownReport: Report, playerReport: Report)

  function OperatorHandshake(c: Crypto, b: nat, nonce: Nonce, syn: Message): Option<OperatorSession>
  {
    if syn.kind != SYN || |syn.payload| != POINT_SIZE + 4 + ATTESTATION_NONCE_SIZE then None
    else
      var ga: Point, playerNonce: Nonce := syn.payload[..64], syn.payload[68..];
      var gb, gab := c.power(b), c.shared(b, ga);
      if gab.None? then None
      else Some(OperatorSession(
        LittleEndian(syn.payload[64..68]), SessionKey(c, ga, gb, gab.value),
        ReportData(c, playerNonce, ga, gb), ReportData(c, nonce, ga, gb)))
  }

  datatype PlayerSession = PlayerSession(key: seq<byte>, ownReport: Report, operatorReport: Report, quote: Part)

  function PlayerHandshake(c: Crypto, a: nat, nonce: Nonce, synack: Message): Option<PlayerSession>
  {
    if synack.kind != SYNACK || |synack.payload| < POINT_SIZE + ATTESTATION_NONCE_SIZE then None
    else
      var gb: Point, operatorNonce: Nonce := synack.payload[..64], synack.payload[64..96];
      var ga, gab := c.power(a), c.shared(a, gb);
      if gab.None? then None
      else Some(PlayerSession(
        SessionKey(c, ga, gb, gab.value),
        ReportData(c, operatorNonce, ga, gb), ReportData(c, nonce, ga, gb), synack.payload[96..]))
  }

  lemma SynFields(ga: Point, id: nat, nonce: Nonce)
    requires id < U32_LIMIT
    ensures var p := Syn(ga, id, nonce).payload;
            |p| == 100 && p[..64] == ga && LittleEndian(p[64..68]) == id && p[68..] == nonce
  {
    assert Syn(ga, id, nonce).payload[64..68] == EncodeU32(id);
  }

  lemma SynAckFields(gb: Point, nonce: Nonce, quote: Part)
    ensures var p := SynAck(gb, nonce, quote).payload;
            |p| >= 96 && p[..64] == gb && p[64..96] == nonce && p[96..] == quote
  {
  }

  /** Undisturbed, both sides end up with the same key, and each expects the report the other one makes. */
  lemma HandshakeAgrees(c: Crypto, a: nat, b: nat, id: nat, nonceP: Nonce, nonceO: Nonce, quote: Part)
    requires DiffieHellman(c) && id < U32_LIMIT
    ensures var op := OperatorHandshake(c, b, nonceO, Syn(c.power(a), id, nonceP));
            var pl := PlayerHandshake(c, a, nonceP, SynAck(c.power(b), nonceO, quote));
            && op.Some? && pl.Some? && op.value.id == id && pl.value.quote == quote
            && op.value.key == pl.value.key
            && op.value.ownReport == pl.value.operatorReport && op.value.playerReport == pl.value.ownReport
  {
    SynFields(c.power(a), id, nonceP);
    SynAckFields(c.power(b), nonceO, quote);
    hide SessionKey, ReportData, Syn, SynAck;
  }

  /** The id of a SYN goes into nothing but the registry: with another id on arrival, key and both reports are
      the same, so neither side's quote shows a difference. */
  lemma IdIsNotCovered(c: Crypto, b: nat, ga: Point, id: nat, id': nat, nonceP: Nonce, nonceO: Nonce)
    requires id < U32_LIMIT && id' < U32_LIMIT && c.shared(b, ga).Some?
    ensures var sent := OperatorHandshake(c, b, nonceO, Syn(ga, id, nonceP));
            var arrived := OperatorHandshake(c, b, nonceO, Syn(ga, id', nonceP));
            && sent.Some? && arrived.Some? && arrived.value.id == id'
            && arrived.value.key == sent.value.key
            && arrived.value.ownReport == sent.value.ownReport && arrived.value.playerReport == sent.value.playerReport
  {
    SynFields(ga, id, nonceP);
    SynFields(ga, id', nonceP);
    hide SessionKey, ReportData, Syn;
  }

  /** Nor does the session key cover the nonce for the player's report: with another nonce in the SYN/ACK on
      arrival, key and expected report are the same, and the player attests itself with that nonce. */
  lemma NonceIsNotCovered(c: Crypto, a: nat, gb: Point, nonce: Nonce, nonce': Nonce, nonceP: Nonce, quote: Part)
    requires c.shared(a, gb).Some?
    ensures var sent := PlayerHandshake(c, a, nonceP, SynAck(gb, nonce, quote));
            var arrived := PlayerHandshake(c, a, nonceP, SynAck(gb, nonce', quote));
            && sent.Some? && arrived.Some?
            && arrived.value.key == sent.value.key && arrived.value.operatorReport == sent.value.operatorReport
            && sent.value.ownReport == ReportData(c, nonce, c.power(a), gb)
            && arrived.value.ownReport == ReportData(c, nonce', c.power(a), gb)
  {
    SynAckFields(gb, nonce, quote);
    SynAckFields(gb, nonce', quote);
    hide SessionKey, ReportData;
  }

  /** Equal report data for different transcripts is a collision. */
  lemma ReportBinds(c: Crypto, n: Nonce, ga: Point, gb: Point, n': Nonce, ga': Point, gb': Point)
    requires ReportData(c, n, ga, gb) == ReportData(c, n', ga', gb')
    ensures (n == n' && ga == ga' && gb == gb')
         || Collides(c.sha256, Transcript(n, ga, gb), Transcript(n', ga', gb'))
  {
    var x, y := Transcript(n, ga, gb), Transcript(n', ga', gb');
    assert c.sha256(x) == ReportData(c, n, ga, gb)[..32];
    assert c.sha256(y) == ReportData(c, n', ga', gb')[..32];
    if x == y {
      assert x[..32] == n && x[32..96] == ga && x[96..] == gb;
      assert y[..32] == n' && y[32..96] == ga' && y[96..] == gb';
    }
  }

  /** Whatever was done to the two plaintext messages on the way: when the report the operator's quote
      vouches for is the one the player expects, both hold the same key, or SHA-256 collides. */
  lemma QuotedReportFixesSession(
    c: Crypto, a: nat, b: nat, nonceP: Nonce, nonceO: Nonce, syn: Message, synack: Message)
    requires DiffieHellman(c)
    requires OperatorHandshake(c, b, nonceO, syn).Some? && PlayerHandshake(c, a, nonceP, synack).Some?
    requires OperatorHandshake(c, b, nonceO, syn).value.ownReport
          == PlayerHandshake(c, a, nonceP, synack).value.operatorReport
    ensures OperatorHandshake(c, b, nonceO, syn).value.key == PlayerHandshake(c, a, nonceP, synack).value.key
         || Collides(c.sha256,
              Transcript(syn.payload[68..], syn.payload[..64], c.power(b)),
              Transcript(nonceP, c.power(a), synack.payload[..64]))
  {
    ReportBinds(c, syn.payload[68..], syn.payload[..64], c.power(b), nonceP, c.power(a), synack.payload[..64]);
    hide SessionKey, ReportData, Transcript;
  }

  /** The same from the operator's end, for the report of the player. */
  lemma PlayerReportFixesSession(
    c: Crypto, a: nat, b: nat, nonceP: Nonce, nonceO: Nonce, syn: Message, synack: Message)
    requires DiffieHellman(c)
    requires OperatorHandshake(c, b, nonceO, syn).Some? && PlayerHandshake(c, a, nonceP, synack).Some?
    requires OperatorHandshake(c, b, nonceO, syn).value.playerReport
          == PlayerHandshake(c, a, nonceP, synack).value.ownReport
    ensures OperatorHandshake(c, b, nonceO, syn).value.key == PlayerHandshake(c, a, nonceP, synack).value.key
         || Collides(c.sha256,
              Transcript(nonceO, syn.payload[..64], c.power(b)),
              Transcript(synack.payload[64..96], c.power(a), synack.payload[..64]))
  {
    ReportBinds(c, nonceO, syn.payload[..64], c.power(b), synack.payload[64..96], c.power(a), synack.payload[..64]);
    hide SessionKey, ReportData, Transcript;
  }

  // ---- The quote of the enclave itself ----

  /** While it handles the request the host may hand back quotes, any number of them; an entry is None
      when the copy cannot be allocated. */
  datatype QuoteReply = QuoteReply(callbacks: seq<Option<Part>>, ok: bool)

  function StashAfter(stashed: Option<Part>, callbacks: seq<Option<Part>>): Option<Part>
  {
    if callbacks == [] then stashed else callbacks[|callbacks| - 1]
  }

  function UsableQuote(stashed: Option<Part>, reply: QuoteReply): Option<Part>
  {
    var after := StashAfter(stashed, reply.callbacks);
    if reply.ok && after.Some? && after.value != [] then after else None
  }

  /** What was stashed before matters exactly when the host claims success without handing back a quote. */
  lemma StaleQuote(reply: QuoteReply)
    ensures (forall x: Option<Part>, y: Option<Part> :: UsableQuote(x, reply) == UsableQuote(y, reply))
       <==> !reply.ok || reply.callbacks != []
  {
    if reply.ok && reply.callbacks == [] {
      assert UsableQuote(Some([0]), reply) != UsableQuote(None, reply);
    }
  }

  class QuoteStash {
    var stashed: Option<Part>

    constructor ()
      ensures stashed == None
    {
      stashed := None;
    }

    method QuoteMeCallback(quote: Part, memory: bool)
      modifies this
      ensures stashed == if memory then Some(quote) else None
    {
      stashed := if memory then Some(quote) else None;
    }

    method DropStashedQuote()
      modifies this
      ensures stashed == None
    {
      stashed := None;
    }

    /** The OCALL, which may re-enter the enclave. */
    method QuoteMe(reply: QuoteReply) returns (quote: Option<Part>)
      modifies this
      ensures stashed == StashAfter(old(stashed), reply.callbacks)
      ensures quote == UsableQuote(old(stashed), reply)
    {
      for i := 0 to |reply.callbacks|
        invariant stashed == StashAfter(old(stashed), reply.callbacks[..i])
      {
        var callback := reply.callbacks[i];
        QuoteMeCallback(if callback.Some? then callback.value else [], callback.Some?);
      }
      assert reply.callbacks[..|reply.callbacks|] == reply.callbacks;
      if !reply.ok || stashed.None? || stashed.value == [] {
        return None;
      }
      return stashed;
    }
  }

  // ---- The operator's side ----

  /** What the platform and the host decide: whether all SGX calls succeed, how the request for a quote
      goes, whether messages can be allocated and sent, and whether the result can be allocated. */
  datatype Environment = Environment(sgx: bool, reply: QuoteReply, memory: bool, sendOk: bool, room: bool)

  function OperatorAnswer(c: Crypto, slots: Slots, b: nat, nonce: Nonce, syn: Option<Message>, env: Environment):
      (r: Option<OperatorSession>)
    ensures r.Some? ==> syn.Some? && |syn.value.payload| == POINT_SIZE + 4 + ATTESTATION_NONCE_SIZE
  {
    if syn.None? || !env.sgx then None
    else
      var session := OperatorHandshake(c, b, nonce, syn.value);
      if session.Some? && IdOk(slots, session.value.id) then session else None
  }

  /** The player who comes out of the exchange; stashed is the quote left from before. */
  function AttestedPlayer(
    c: Crypto, slots: Slots, stashed: Option<Part>, b: nat, nonce: Nonce,
    syn: Option<Message>, env: Environment, ack: Option<Message>): (player: Option<Player>)
    ensures player.Some? ==> IdOk(slots, player.value.id)
  {
    var session := OperatorAnswer(c, slots, b, nonce, syn, env);
    if session.None? || UsableQuote(stashed, env.reply).None? || !env.memory || !env.sendOk then None
    else if ack.None? || ack.value.kind != ACK || !env.room then None
    else Some(Player(session.value.id, session.value.key, ack.value.payload, session.value.playerReport))
  }

  /** A player is registered exactly when the SYN has its type and size, names an empty slot and a point of the
      curve, a quote comes back, everything succeeds and an ACK arrives. */
  lemma RegistrationExactly(
    c: Crypto, slots: Slots, stashed: Option<Part>, b: nat, nonce: Nonce,
    syn: Option<Message>, env: Environment, ack: Option<Message>)
    ensures AttestedPlayer(c, slots, stashed, b, nonce, syn, env, ack).Some? <==>
        && syn.Some? && syn.value.kind == 0 && |syn.value.payload| == 100
        && c.shared(b, syn.value.payload[..64]).Some?
        && (var id := LittleEndian(syn.value.payload[64..68]); 1 <= id <= |slots| && slots[id - 1].None?)
        && UsableQuote(stashed, env.reply).Some? && env.sgx && env.memory && env.sendOk && env.room
        && ack.Some? && ack.value.kind == 2
    ensures var player := AttestedPlayer(c, slots, stashed, b, nonce, syn, env, ack);
            player.Some? ==>
              && player.value.id == LittleEndian(syn.value.payload[64..68])
              && player.value.quote == ack.value.payload
              && player.value.report == c.sha256(nonce + syn.value.payload[..64] + c.power(b)) + seq(32, _ => 0)
  {
    hide UsableQuote, SessionKey;
  }

  /** Which quote is used: the last that was handed back, or an old one if none was; never an empty one. */
  lemma UsableQuoteExactly(stashed: Option<Part>, reply: QuoteReply, quote: Part)
    ensures UsableQuote(stashed, reply) == Some(quote) <==>
        && reply.ok && quote != []
        && Some(quote) == if |reply.callbacks| > 0 then reply.callbacks[|reply.callbacks| - 1] else stashed
  {
  }

  method OperatorAttestation(
    c: Crypto, registry: Registry, stash: QuoteStash, b: nat, nonce: Nonce,
    syn: Option<Message>, env: Environment, ack: Option<Message>)
    returns (sent: Option<Message>, player: Option<Player>)
    requires registry.Valid()
    modifies stash
    ensures var session := OperatorAnswer(c, registry.players[..], b, nonce, syn, env);
            var quote := UsableQuote(old(stash.stashed), env.reply);
            && (sent == if session.Some? && quote.Some? && env.memory && env.sendOk
                        then Some(SynAck(c.power(b), nonce, quote.value)) else None)
            && (stash.stashed == if session.None? then old(stash.stashed)
                                 else if quote.None? then StashAfter(old(stash.stashed), env.reply.callbacks)
                                 else None)
    ensures player == AttestedPlayer(c, registry.players[..], old(stash.stashed), b, nonce, syn, env, ack)
  {
    sent, player := None, None;
    if syn.None? || !env.sgx {
      return;
    }
    var handshake := OperatorHandshake(c, b, nonce, syn.value);
    if handshake.None? {
      return;
    }
    var session := handshake.value;
    var idOk := registry.PlayerIdOk(session.id);
    if !idOk {
      return;
    }
    var quote := stash.QuoteMe(env.reply);
    if quote.None? {
      return;
    }
    stash.DropStashedQuote();
    if !env.memory || !env.sendOk {
      return;
    }
    sent := Some(SynAck(c.power(b), nonce, quote.value));
    // From here on the channel is encrypted under session.key
    if ack.None? || ack.value.kind != ACK || !env.room {
      return;
    }
    player := Some(Player(session.id, session.key, ack.value.payload, session.playerReport));
  }

  // ---- The player's side ----

  datatype OperatorLink = OperatorLink(key: seq<byte>, quote: Part, report: Report)

  /** start is whether everything up to the SYN succeeds, session whether the SGX calls and the allocation do
      that come between the SYN/ACK and the request for a quote; the rest as for the operator. */
  datatype PlayerEnvironment = PlayerEnvironment(
    start: bool, session: bool, reply: QuoteReply, memory: bool, sendOk: bool, room: bool)

  function PlayerAnswer(c: Crypto, a: nat, nonce: Nonce, synack: Option<Message>, env: PlayerEnvironment):
      (r: Option<PlayerSession>)
    ensures r.Some? ==> synack.Some? && |synack.value.payload| >= POINT_SIZE + ATTESTATION_NONCE_SIZE
  {
    if !env.start || synack.None? || !env.session then None else PlayerHandshake(c, a, nonce, synack.value)
  }

  /** The ACK that goes out; stashed is the quote left from before. */
  function PlayerAck(
    c: Crypto, stashed: Option<Part>, a: nat, nonce: Nonce, synack: Option<Message>, env: PlayerEnvironment):
      Option<Message>
  {
    var quote := UsableQuote(stashed, env.reply);
    if PlayerAnswer(c, a, nonce, synack, env).Some? && quote.Some? && env.memory && env.sendOk
    then Some(Message(ACK, quote.value)) else None
  }

  /** An ACK goes out exactly when the SYN/ACK has its type, is long enough and holds a point of the curve, a quote
      comes back and everything succeeds; then the channel goes on under the key for both shares. */
  lemma AckExactly(
    c: Crypto, stashed: Option<Part>, a: nat, nonce: Nonce, synack: Option<Message>, env: PlayerEnvironment)
    ensures PlayerAck(c, stashed, a, nonce, synack, env).Some? <==>
        && env.start && synack.Some? && env.session && synack.value.kind == 1 && |synack.value.payload| >= 96
        && c.shared(a, synack.value.payload[..64]).Some?
        && UsableQuote(stashed, env.reply).Some? && env.memory && env.sendOk
    ensures var session := PlayerAnswer(c, a, nonce, synack, env);
            session.Some? ==>
              && session.value.quote == synack.value.payload[96..]
              && session.value.ownReport
                 == c.sha256(synack.value.payload[64..96] + c.power(a) + synack.value.payload[..64]) + seq(32, _ => 0)
              && session.value.operatorReport
                 == c.sha256(nonce + c.power(a) + synack.value.payload[..64]) + seq(32, _ => 0)
  {
    hide UsableQuote, SessionKey;
  }

  method PlayerAttestation(
    c: Crypto, stash: QuoteStash, id: nat, a: nat, nonce: Nonce, synack: Option<Message>, env: PlayerEnvironment)
    returns (syn: Option<Message>, ack: Option<Message>, operator: Option<OperatorLink>)
    requires id < U32_LIMIT
    modifies stash
    ensures syn == if env.start then Some(Syn(c.power(a), id, nonce)) else None
    ensures ack == PlayerAck(c, old(stash.stashed), a, nonce, synack, env)
    ensures var session := PlayerAnswer(c, a, nonce, synack, env);
            var quote := UsableQuote(old(stash.stashed), env.reply);
            && (operator ==
                if ack.Some? && env.room
                then Some(OperatorLink(session.value.key, session.value.quote, session.value.operatorReport))
                else None)
            && (stash.stashed == if session.None? then old(stash.stashed)
                                 else if quote.None? then StashAfter(old(stash.stashed), env.reply.callbacks)
                                 else None)
  {
    syn, ack, operator := None, None, None;
    if !env.start {
      return;
    }
    syn := Some(Syn(c.power(a), id, nonce));
    if synack.None? || !env.session {
      return;
    }
    var handshake := PlayerHandshake(c, a, nonce, synack.value);
    if handshake.None? {
      return;
    }
    // From here on the channel is encrypted under the session key
    var quote := stash.QuoteMe(env.reply);
    if quote.None? {
      return;
    }
    stash.DropStashedQuote();
    if !env.memory || !env.sendOk {
      return;
    }
    ack := Some(Message(ACK, quote.value));
    if !env.room {
      return;
    }
    var session := handshake.value;
    operator := Some(OperatorLink(session.key, session.quote, session.operatorReport));
  }

  // ---- Whom the operator registers ----

  /** What opens under one key of records that were sealed under another. */
  function UnderKey(log: seq<Sealed>, sealing: seq<byte>, opening: seq<byte>): seq<Sealed>
  {
    if sealing == opening then log else []
  }

  /** An enclave sends its ACK first, and nothing more when that fails. */
  predicate BeginsWithAck(sends: seq<Send>, ack: Message)
    requires Representable(ack)
  {
    sends != [] && sends[0].payload == Frame(ack) && (sends[0].accepted || |sends| == 1)
  }

  lemma {:induction false} FirstCounts(sends: seq<Send>, i: nat)
    requires i <= |sends|
    ensures i > 0 && sends[0].accepted ==> AcceptedBytes(sends[..i]) >= |sends[0].payload|
  {
  }

  lemma {:induction false} FirstRecord(sends: seq<Send>, ack: Message, x: Sealed)
    requires Representable(ack) && BeginsWithAck(sends, ack) && PayloadBytes(sends) < U64_LIMIT
    requires x in SealedBy(sends, 0) && x.sequence == 0
    ensures x.plaintext == Frame(ack)
  {
    var i: nat :| i < |sends| && SealedBy(sends, 0)[i] == x;
    RefusedBytes(sends);
    SequenceIsAcceptedBytes(sends, 0, i);
    FirstCounts(sends, i);
  }

  /** The operator has sealed nothing yet when it waits for the ACK, so for any host what it receives is the
      ACK of the one enclave whose records open under its session key. */
  lemma {:induction false} AckIsOwn(
    sends: seq<Send>, ack: Message, sealing: seq<byte>, opening: seq<byte>, sent: nat, events: seq<Event>)
    requires Representable(ack) && BeginsWithAck(sends, ack) && PayloadBytes(sends) < U64_LIMIT
    requires AllFramed(SealedBy(sends, 0)) && sent <= |UnderKey(SealedBy(sends, 0), sealing, opening)|
    requires var log := Shared([], UnderKey(SealedBy(sends, 0), sealing, opening), 0, sent);
             Receive(Receiver(events, 0, None), log).1.Some?
    ensures sealing == opening
    ensures var log := Shared([], UnderKey(SealedBy(sends, 0), sealing, opening), 0, sent);
            Receive(Receiver(events, 0, None), log).1 == Some(ack)
  {
    hide Receive, IsFramed, PayloadBytes, SealedBy;
    var log := Shared([], UnderKey(SealedBy(sends, 0), sealing, opening), 0, sent);
    var x := ReceiveTakesRecord(Receiver(events, 0, None), log);
    FirstRecord(sends, ack, x);
    FrameIsFramed(ack);
  }

  predicate MacCollides(c: Crypto, key: seq<byte>, text: seq<byte>, key': seq<byte>, text': seq<byte>)
  {
    (key != key' || text != text') && c.cmac(key, text) == c.cmac(key', text')
  }

  /** Equal session keys come from the same shares and the same shared secret, or CMAC collides: under the zero
      key on the two secrets, or on the texts with the shares under what it makes of the secrets. */
  lemma KeyBinds(c: Crypto, ga: Point, gb: Point, gab: seq<byte>, ga': Point, gb': Point, gab': seq<byte>)
    requires SessionKey(c, ga, gb, gab) == SessionKey(c, ga', gb', gab')
    ensures (ga == ga' && gb == gb' && gab == gab')
         || MacCollides(c, ZEROES[..16], gab, ZEROES[..16], gab')
         || MacCollides(c, c.cmac(ZEROES[..16], gab), SEPARATOR + ga + gb,
              c.cmac(ZEROES[..16], gab'), SEPARATOR + ga' + gb')
  {
    var x, y := SEPARATOR + ga + gb, SEPARATOR + ga' + gb';
    if x == y {
      assert x[16..80] == ga && x[80..] == gb;
      assert y[16..80] == ga' && y[80..] == gb';
    }
  }

  /** One exchange: what both ends drew and got, and what the player's enclave sent under its session key. */
  datatype Exchange = Exchange(
    b: nat, nonceO: Nonce, stashedO: Option<Part>, syn: Message, envO: Environment,
    a: nat, nonceP: Nonce, stashedP: Option<Part>, synack: Message, envP: PlayerEnvironment,
    sends: seq<Send>, sent: nat, events: seq<Event>)

  /** Both ends get as far as their session keys, the player's enclave sends its ACK, and the operator registers
      a player on what it receives. The host does what it likes with the messages. */
  ghost predicate Completed(c: Crypto, slots: Slots, x: Exchange)
  {
    var op := OperatorAnswer(c, slots, x.b, x.nonceO, Some(x.syn), x.envO);
    var pl := PlayerAnswer(c, x.a, x.nonceP, Some(x.synack), x.envP);
    var ack := PlayerAck(c, x.stashedP, x.a, x.nonceP, Some(x.synack), x.envP);
    && op.Some? && pl.Some? && ack.Some? && Representable(ack.value)
    && BeginsWithAck(x.sends, ack.value) && PayloadBytes(x.sends) < U64_LIMIT && AllFramed(SealedBy(x.sends, 0))
    && x.sent <= |UnderKey(SealedBy(x.sends, 0), pl.value.key, op.value.key)|
    && Registers(c, slots, x, op.value, pl.value).Some?
  }

  function Registers(c: Crypto, slots: Slots, x: Exchange, op: OperatorSession, pl: PlayerSession): Option<Player>
    requires x.sent <= |UnderKey(SealedBy(x.sends, 0), pl.key, op.key)|
  {
    var log := Shared([], UnderKey(SealedBy(x.sends, 0), pl.key, op.key), 0, x.sent);
    AttestedPlayer(c, slots, x.stashedO, x.b, x.nonceO, Some(x.syn), x.envO,
      Receive(Receiver(x.events, 0, None), log).1)
  }

  /** The operator registers the very quote that the enclave sent, under the enclave's own session key. Both
      shares have arrived as they were sent and both ends have the same shared secret, or CMAC collides on what
      the two ends derived the key from. When they have, the report the operator keeps is the enclave's own
      exactly when the nonce in the SYN/ACK arrived as it was sent, or SHA-256 collides on the two transcripts. */
  lemma RegistersOwnQuote(c: Crypto, slots: Slots, x: Exchange)
    requires Completed(c, slots, x)
    ensures var op := OperatorAnswer(c, slots, x.b, x.nonceO, Some(x.syn), x.envO).value;
            var pl := PlayerAnswer(c, x.a, x.nonceP, Some(x.synack), x.envP).value;
            var player := Registers(c, slots, x, op, pl).value;
            var ga: Point, gb: Point := x.syn.payload[..64], c.power(x.b);
            var ga': Point, gb': Point := c.power(x.a), x.synack.payload[..64];
            var nonce: Nonce, gab, gab' := x.synack.payload[64..96], c.shared(x.b, ga), c.shared(x.a, gb');
            && Some(player.quote) == UsableQuote(x.stashedP, x.envP.reply) && player.key == pl.key
            && gab.Some? && gab'.Some?
            && (|| MacCollides(c, ZEROES[..16], gab.value, ZEROES[..16], gab'.value)
                || MacCollides(c, c.cmac(ZEROES[..16], gab.value), SEPARATOR + ga + gb,
                     c.cmac(ZEROES[..16], gab'.value), SEPARATOR + ga' + gb')
                || (&& ga == ga' && gb == gb' && gab == gab'
                    && (nonce == x.nonceO ==> player.report == pl.ownReport)
                    && (player.report == pl.ownReport ==>
                          nonce == x.nonceO
                          || Collides(c.sha256, Transcript(x.nonceO, ga, gb), Transcript(nonce, ga', gb')))))
  {
    var op := OperatorAnswer(c, slots, x.b, x.nonceO, Some(x.syn), x.envO).value;
    var pl := PlayerAnswer(c, x.a, x.nonceP, Some(x.synack), x.envP).value;
    var ack := PlayerAck(c, x.stashedP, x.a, x.nonceP, Some(x.synack), x.envP).value;
    var ga: Point, gb: Point := x.syn.payload[..64], c.power(x.b);
    var ga': Point, gb': Point := c.power(x.a), x.synack.payload[..64];
    AckIsOwn(x.sends, ack, pl.key, op.key, x.sent, x.events);
    KeyBinds(c, ga, gb, c.shared(x.b, ga).value, ga', gb', c.shared(x.a, gb').value);
    hide SessionKey, Receive, SealedBy, Transcript, ReportData, UnderKey, UsableQuote, Collides, Frame, AllFramed;
    hide BeginsWithAck, PayloadBytes, MacCollides;
    if player: Player :| Registers(c, slots, x, op, pl) == Some(player) && player.report == pl.ownReport {
      ReportBinds(c, x.nonceO, ga, gb, x.synack.payload[64..96], ga', gb');
    }
  }

  /** A record that holds the ACK; what the cipher makes of it is of no importance. */
  function AckSent(ack: Message): Send
    requires Representable(ack)
  {
    Send(Frame(ack), seq(12, _ => 0), seq(16, _ => 0), Frame(ack), true)
  }

  lemma {:induction false} AckArrives(ack: Message) returns (events: seq<Event>)
    requires Representable(ack) && ack.kind == ACK && |ack.payload| < U32_LIMIT - HEADER_SIZE
    ensures PayloadBytes([AckSent(ack)]) < U64_LIMIT && BeginsWithAck([AckSent(ack)], ack)
    ensures AllFramed(SealedBy([AckSent(ack)], 0)) && |SealedBy([AckSent(ack)], 0)| == 1
    ensures Receive(Receiver(events, 0, None), Shared([], SealedBy([AckSent(ack)], 0), 0, 1)).1 == Some(ack)
  {
    var log := SealedBy([AckSent(ack)], 0);
    var x := Sealed(0, Frame(ack), seq(12, _ => 0), seq(16, _ => 0), Frame(ack));
    assert log == [x];
    FrameIsFramed(ack);
    assert PayloadBytes([AckSent(ack)]) == |Frame(ack)| == HEADER_SIZE + |ack.payload|;
    assert Chain([], log, log, 0) by {
      assert log[1..] == [];
    }
    assert log[..1] == log;
    events := Delivery(log, Uncut(log));
    EveryChainArrives([], log, [Seen(0, 1)], log, Uncut(log), 0);
    hide Receive, Delivery, Uncut, Frame, IsFramed, SealedBy;
    assert ReceiveAll(Receiver(events, 0, None), [Seen(0, 1)], [], log) == [ack];
  }

  /** Everything succeeds, and the quote comes back. */
  function Smooth(quote: Part): Environment
  {
    Environment(true, QuoteReply([Some(quote)], true), true, true, true)
  }

  function SmoothPlayer(quote: Part): PlayerEnvironment
  {
    PlayerEnvironment(true, true, QuoteReply([Some(quote)], true), true, true, true)
  }

  lemma UndisturbedAnswers(
    c: Crypto, slots: Slots, a: nat, b: nat, id: nat, nonceP: Nonce, nonceO: Nonce, quoteO: Part, quoteP: Part)
    requires DiffieHellman(c) && IdOk(slots, id) && id < U32_LIMIT && quoteO != [] && quoteP != []
    ensures var syn, synack := Syn(c.power(a), id, nonceP), SynAck(c.power(b), nonceO, quoteO);
            var op := OperatorAnswer(c, slots, b, nonceO, Some(syn), Smooth(quoteO));
            var pl := PlayerAnswer(c, a, nonceP, Some(synack), SmoothPlayer(quoteP));
            && op.Some? && pl.Some? && op.value.id == id
            && op.value.key == pl.value.key && op.value.playerReport == pl.value.ownReport
            && PlayerAck(c, None, a, nonceP, Some(synack), SmoothPlayer(quoteP)) == Some(Message(ACK, quoteP))
            && AttestedPlayer(c, slots, None, b, nonceO, Some(syn), Smooth(quoteO), Some(Message(ACK, quoteP)))
               == Some(Player(id, pl.value.key, quoteP, pl.value.ownReport))
  {
    HandshakeAgrees(c, a, b, id, nonceP, nonceO, quoteO);
    hide OperatorHandshake, PlayerHandshake, Syn, SynAck, DiffieHellman;
  }

  /** Undisturbed, an exchange completes, and the operator registers the player under its id, with its quote and
      the report that it attested itself with. */
  lemma UndisturbedExchange(
    c: Crypto, slots: Slots, a: nat, b: nat, id: nat, nonceP: Nonce, nonceO: Nonce, quoteO: Part, quoteP: Part)
    returns (x: Exchange)
    requires DiffieHellman(c) && IdOk(slots, id) && id < U32_LIMIT
    requires quoteO != [] && 0 < |quoteP| < U32_LIMIT - HEADER_SIZE
    ensures Completed(c, slots, x)
    ensures var op := OperatorAnswer(c, slots, x.b, x.nonceO, Some(x.syn), x.envO).value;
            var pl := PlayerAnswer(c, x.a, x.nonceP, Some(x.synack), x.envP).value;
            Registers(c, slots, x, op, pl) == Some(Player(id, pl.key, quoteP, pl.ownReport))
  {
    var ack := Message(ACK, quoteP);
    var events := AckArrives(ack);
    UndisturbedAnswers(c, slots, a, b, id, nonceP, nonceO, quoteO, quoteP);
    hide OperatorAnswer, PlayerAnswer, PlayerAck, AttestedPlayer, Receive, SealedBy, AllFramed, PayloadBytes, Frame;
    hide BeginsWithAck, AckSent, Syn, SynAck, DiffieHellman, Smooth, SmoothPlayer, UsableQuote, Shared, IdOk;
    x := Exchange(b, nonceO, None, Syn(c.power(a), id, nonceP), Smooth(quoteO),
      a, nonceP, None, SynAck(c.power(b), nonceO, quoteO), SmoothPlayer(quoteP), [AckSent(ack)], 1, events);
  }

  lemma {:induction false} FirstBoundaries(peer: seq<Sealed>)
    ensures Boundary(peer, 0) == 0
    ensures |peer| > 0 ==> Boundary(peer, 1) == |peer[0].plaintext|
    ensures |peer| > 1 ==> Boundary(peer, 2) == |peer[0].plaintext| + |peer[1].plaintext|
  {
    var texts := Plaintexts(peer);
    if |peer| > 0 {
      assert texts[..1] == texts[..0] + [texts[0]];
      ConcatSlice(texts, 0);
    }
    if |peer| > 1 {
      ConcatSlice(texts, 1);
    }
  }

  /** The operator waits for the ACK before it has sealed anything, for the acknowledgement after the broadcast
      and for the deposit after the live notice: it cannot take a record of its own for one of these, as the
      broadcast holds the player's quote and is longer than the two messages before the deposit. */
  lemma {:induction false} OperatorIsTimely(
    seens: seq<Seen>, own: seq<Sealed>, peer: seq<Sealed>, quotes: seq<Part>, i: nat)
    requires |seens| <= 3 && (forall n :: 0 <= n < |seens| ==> seens[n].made <= n) && PossibleSeen(seens, own, peer)
    requires i < |quotes| && Representable(Message(ACK, quotes[i]))
    requires |own| > 0 ==> own[0].sequence == 0
    requires |own| > 0 ==> |own[0].plaintext| == HEADER_SIZE + QuotesHeader(|quotes|) + |Concat(quotes)|
    requires |own| > 1 ==> own[1].sequence == |own[0].plaintext|
    requires |peer| > 0 ==> peer[0].plaintext == Frame(Message(ACK, quotes[i]))
    requires |peer| > 1 ==> |peer[1].plaintext| == HEADER_SIZE
    ensures Timely(seens, own, peer)
  {
    FirstBoundaries(peer);
    PackedEnds(quotes, i);
    hide Boundary, Concat;
    forall n: nat | n < |seens| && n <= |peer| && InTime(seens, n)
      ensures Unused(own[..seens[n].made], Boundary(peer, n))
    {
      assert forall j :: 0 <= j < seens[n].made ==> own[..seens[n].made][j] == own[j];
    }
  }

  // ---- Connecting a player ----

  class OperatorEntry {
    const registry: Registry
    const stash: QuoteStash
    var quotingEnclaveKnown: bool

    ghost predicate Valid()
      reads this, registry, registry.players
    {
      registry.Valid()
    }

    constructor (numPlayers: nat)
      ensures Valid() && fresh(registry) && fresh(registry.players) && fresh(stash)
      ensures !quotingEnclaveKnown && stash.stashed == None && registry.players.Length == numPlayers
    {
      registry := new Registry(numPlayers);
      stash := new QuoteStash();
      quotingEnclaveKnown := false;
    }

    /** One attempt. busy says that it was turned down at once, complete that everybody is connected now.
        A player who gets through passes the registry's assertion: nothing runs in between. */
    method ConnectToPlayer(
      c: Crypto, quotingEnclaveOk: bool, b: nat, nonce: Nonce,
      syn: Option<Message>, env: Environment, ack: Option<Message>)
      returns (busy: bool, player: Option<Player>, complete: bool)
      requires Valid()
      modifies this, stash, registry`playersConnected, registry.players
      ensures Valid()
      ensures registry.players == old(registry.players)
      ensures busy <==> forall j :: 0 <= j < registry.players.Length ==> old(registry.players[j]).Some?
      ensures player == if busy || (!old(quotingEnclaveKnown) && !quotingEnclaveOk) then None
                        else AttestedPlayer(c, old(registry.players[..]), old(stash.stashed), b, nonce, syn, env, ack)
      ensures forall j :: 0 <= j < registry.players.Length ==>
          registry.players[j] == if player.Some? && j + 1 == player.value.id then player else old(registry.players[j])
      ensures complete <==> player.Some? && forall j :: 0 <= j < registry.players.Length ==> registry.players[j].Some?
    {
      player, complete := None, false;
      busy := registry.AllPlayersConnected();
      if busy {
        return;
      }
      if !quotingEnclaveKnown {
        if !quotingEnclaveOk {
          return;
        }
        quotingEnclaveKnown := true;
      }
      var sent;
      sent, player := OperatorAttestation(c, registry, stash, b, nonce, syn, env, ack);
      if player.None? {
        return;
      }
      registry.AddPlayer(player.value);
      complete := registry.AllPlayersConnected();
    }
  }
}
