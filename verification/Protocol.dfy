/** The operator, the players and their channels as one transition system, and what holds in every run:
    any schedule, any answers of the hosts, any network. */
module Protocol {
  import opened Bytes
  import Layouts
  import opened Merkle
  import opened Options
  import Players
  import opened Wire
  import O = Operator
  import P = Player

  /** What is at the other end of one of the operator's slots. player is the enclave that attested itself
      there, None for a stranger: quotes are judged outside the operator's enclave. number is the id that
      enclave was given, less one; nothing makes it the number of the slot. up are the letters the player put
      on the channel, leftover the letters that read out of what failed receives left in the buffer. */
  datatype Seat = Seat(
    player: Option<nat>, number: nat, up: seq<Letter>, leftover: seq<Letter>, upRead: nat, downRead: nat)

  datatype System = System(op: O.State, players: seq<P.State>, seats: seq<Seat>)

  /** There are any number of players' enclaves; `me` tells them apart. */
  function Initial(cfg: Config, enclaves: nat): System
  {
    System(O.Initial(cfg), seq(enclaves, i requires 0 <= i < enclaves => P.Initial(i)),
      seq(cfg.numPlayers, _ => Seat(None, 0, [], [], 0, 0)))
  }

  function SentTo(sent: seq<O.Broadcast>, i: nat): seq<Letter>
  {
    if sent == [] then []
    else
      var last := sent[|sent| - 1];
      SentTo(sent[..|sent| - 1], i) + if last.reached > i then [last.letter] else []
  }

  /** A broadcast is on the way to the players it reached, and to no others. */
  lemma {:induction false} SentToMeaning(sent: seq<O.Broadcast>, i: nat, letter: Letter)
    ensures letter in SentTo(sent, i)
       <==> exists k :: 0 <= k < |sent| && sent[k].letter == letter && i < sent[k].reached
    ensures |SentTo(sent, i)| <= |sent|
    ensures |SentTo(sent, i)| == |sent| <==> forall k :: 0 <= k < |sent| ==> i < sent[k].reached
  {
    if sent != [] {
      var n := |sent| - 1;
      SentToMeaning(sent[..n], i, letter);
      assert forall k :: 0 <= k < n ==> sent[..n][k] == sent[k];
    }
  }

  /** A step of one party, and the attestation by which an enclave gets into a slot. leftover is what stays
      readable when the operator's receive fails. */
  datatype Move =
    | OperatorMove(e: O.Event, leftover: seq<Letter>)
    | PlayerMove(p: nat, event: P.Event)
    | Attest(connect: O.Event, p: nat, join: P.Event)

  // ---- Which message a step takes ----

  /** The slot whose channel the operator reads in this step. */
  function OperatorReads(op: O.State, e: O.Event): Option<nat>
  {
    if op.crashed then None
    else if op.control.AwaitAck? && e.Acknowledge? then Some(op.control.i)
    else if op.control.AwaitDeposit? && e.Deposit? && !NoOneAt(op, op.control.i) then Some(op.control.i)
    else if op.control.AwaitConfirm? && e.Confirm? then Some(op.control.i)
    else None
  }

  /** An empty slot: reading from it crashes. */
  predicate NoOneAt(op: O.State, i: nat)
  {
    i >= |op.slots| || op.slots[i].None?
  }

  function Incoming(e: O.Event): Option<Letter>
  {
    match e
    case Acknowledge(letter, _, _) => letter
    case Deposit(letter, _, _, _, _, _) => letter
    case Confirm(letter, _, _, _) => letter
    case _ => None
  }

  /** The letter a player takes from the operator's channel; a stranger may say anything. */
  function PlayerTakes(p: P.State, e: P.Event): Option<Letter>
  {
    if p.crashed || !p.connection.link.Genuine? then None
    else if p.control.AwaitQuotes? && e.Quotes? then e.letter
    else if p.control.AwaitComplete? && e.Complete? then e.letter
    else if p.control.Idle? && e.GetDeposits? && p.phase == P.DEPOSITED then e.letter
    else None
  }

  /** What can come out of a slot's channel. Nothing is said about order: both directions share a key, so
      even the operator's own letters can come back, and after a failed receive there is the leftover. */
  predicate CanReach(s: System, i: nat, letter: Letter)
    requires i < |s.seats|
  {
    || s.seats[i].player.None?
    || letter in s.seats[i].up
    || letter in SentTo(s.op.sent, i)
    || letter in s.seats[i].leftover
  }

  predicate CanReachPlayer(s: System, p: P.State, letter: Letter)
    requires p.connection.link.Genuine?
  {
    letter in SentTo(s.op.sent, p.connection.link.slot) || letter in p.connection.sent
  }

  predicate Sized(cfg: Config, s: System)
  {
    |s.seats| == |s.op.slots| == cfg.numPlayers
  }

  /** Report data hash a nonce that the operator has just drawn. */
  predicate FreshReport(slots: Players.Slots, player: Players.Player)
  {
    NotAmong(slots, player.report)
  }

  predicate NotAmong(slots: Players.Slots, report: Layouts.Report)
  {
    forall i :: 0 <= i < |slots| ==> slots[i].Some? ==> slots[i].value.report != report
  }

  /** No enclave that has the operator's channel has attested itself with this report. */
  predicate Unattested(players: seq<P.State>, report: Layouts.Report)
  {
    forall p :: 0 <= p < |players| && players[p].connection.link.Genuine? ==> players[p].connection.report != report
  }

  /** The settlement is randomized by the operator's enclave, so nothing that lay in a buffer before signs it. Nor
      does a record opened later that makes such a letter complete: after a failed receive the operator has given
      up or the contract never goes live, and an enclave that has not seen the live notice never signs. */
  ghost predicate FreshSighash(seats: seq<Seat>, h: Hash)
  {
    forall i, signature :: 0 <= i < |seats| ==>
      ConfirmDeposits(signature) in seats[i].leftover ==> signature.sighash != h
  }

  ghost predicate LegalConnect(s: System, e: O.Event)
  {
    e.Connect? && e.player.Some? ==>
      FreshReport(s.op.slots, e.player.value) && Unattested(s.players, e.player.value.report)
  }

  ghost predicate LegalOperator(s: System, e: O.Event)
  {
    && LegalConnect(s, e)
    && (OperatorReads(s.op, e).Some? && Incoming(e).Some? ==>
          OperatorReads(s.op, e).value < |s.seats| && CanReach(s, OperatorReads(s.op, e).value, Incoming(e).value))
    && (e.Deposit? && e.settlement.Some? ==> FreshSighash(s.seats, e.settlement.value.0))
  }

  /** An enclave has attested itself to the operator, under whatever number the message said when it got
      there. What the operator registers is this enclave's quote, as Attestation.RegistersOwnQuote shows; the
      report it keeps need not be the one the enclave attested itself with, whose share is new. The enclave has
      the channel, or has failed at the very end. */
  ghost predicate LegalAttest(s: System, e: O.Event, p: nat, join: P.Event)
  {
    && p < |s.players| && e.Connect? && e.player.Some? && join.Connect?
    && !s.op.crashed && s.op.control.Idle? && Players.IdOk(s.op.slots, e.player.value.id) && LegalConnect(s, e)
    && !s.players[p].crashed && s.players[p].control.Idle? && s.players[p].connection.link == P.NotConnected
    && join.quote == e.player.value.quote && NotAmong(s.op.slots, join.report)
    && (join.link == P.NotConnected || join.link == P.Genuine(e.player.value.id - 1))
  }

  ghost predicate Legal(cfg: Config, s: System, m: Move)
  {
    && Sized(cfg, s)
    && match m
       case OperatorMove(e, _) => LegalOperator(s, e)
       case PlayerMove(p, e) =>
         && p < |s.players|
         && (e.Connect? ==> !e.link.Genuine?)
         && (PlayerTakes(s.players[p], e).Some? ==> CanReachPlayer(s, s.players[p], PlayerTakes(s.players[p], e).value))
       case Attest(e, p, join) => LegalAttest(s, e, p, join)
  }

  // ---- The effect of a move ----

  function SeatRead(seat: Seat, letter: Option<Letter>, leftover: seq<Letter>): Seat
  {
    if letter.Some? then seat.(upRead := seat.upRead + 1) else seat.(leftover := seat.leftover + leftover)
  }

  function SeatsRead(seats: seq<Seat>, op: O.State, e: O.Event, leftover: seq<Letter>): (r: seq<Seat>)
    ensures |r| == |seats|
  {
    var i := OperatorReads(op, e);
    if i.Some? && i.value < |seats| then seats[i.value := SeatRead(seats[i.value], Incoming(e), leftover)] else seats
  }

  /** The player's letters are on the channel it holds before the step. */
  function SeatsPosted(seats: seq<Seat>, before: P.State, after: P.State, took: bool): (r: seq<Seat>)
    ensures |r| == |seats|
  {
    var link := before.connection.link;
    if link.Genuine? && link.slot < |seats| then
      var seat := seats[link.slot];
      seats[link.slot := seat.(up := after.connection.sent, downRead := seat.downRead + if took then 1 else 0)]
    else seats
  }

  function Apply(cfg: Config, s: System, m: Move): System
    requires m.PlayerMove? ==> m.p < |s.players|
    requires m.Attest? ==> m.p < |s.players| && m.connect.Connect? && m.connect.player.Some? && m.join.Connect?
    requires m.Attest? ==> 0 < m.connect.player.value.id <= |s.seats|
  {
    match m
    case OperatorMove(e, leftover) =>
      System(O.Step(cfg, s.op, e), s.players, SeatsRead(s.seats, s.op, e, leftover))
    case PlayerMove(p, e) =>
      var next := P.Step(cfg, s.players[p], e);
      System(s.op, s.players[p := next],
        SeatsPosted(s.seats, s.players[p], next, PlayerTakes(s.players[p], e).Some?))
    case Attest(e, p, join) =>
      System(O.Step(cfg, s.op, e), s.players[p := P.Step(cfg, s.players[p], join)],
        s.seats[e.player.value.id - 1 := Seat(Some(p), join.number, [], [], 0, 0)])
  }

  /** The states of a run, one move after the other. */
  ghost predicate Run(cfg: Config, enclaves: nat, states: seq<System>, moves: seq<Move>)
  {
    && cfg.numPlayers > 0
    && |states| == |moves| + 1 && states[0] == Initial(cfg, enclaves)
    && forall k :: 0 <= k < |moves| ==>
         Legal(cfg, states[k], moves[k]) && states[k + 1] == Apply(cfg, states[k], moves[k])
  }

  // ---- The invariant ----

  function Letters(sent: seq<O.Broadcast>): (r: seq<Letter>)
    ensures |r| == |sent|
  {
    seq(|sent|, k requires 0 <= k < |sent| => sent[k].letter)
  }

  /** The contract has been announced to be live. */
  ghost predicate Live(op: O.State)
  {
    SetupComplete in Letters(op.sent)
  }

  /** What a player with this number is shown. */
  function ShownTo(slots: Players.Slots, number: nat): seq<Layouts.Shown>
    requires O.AllFilled(slots)
  {
    Layouts.Others(Players.QuotesOf(slots), Players.ReportsOf(slots), number, |slots|)
  }

  /** The player's host has been shown exactly the quotes of all slots but the one of that number. */
  ghost predicate HasShown(op: O.State, p: P.State, number: nat)
  {
    O.AllFilled(op.slots) && P.Presented(number, ShownTo(op.slots, number)) in p.log
  }

  ghost predicate Confirmed(op: O.State, p: P.State, signature: Signature)
  {
    && signature.signer == p.me + 1
    && op.cleared == [signature.sighash]
    && ClearContract(signature.sighash, p.txid) in Letters(op.sent)
    && P.Signed(signature.sighash) in p.log
  }

  /** What the letters in a seat say about the player that put them there, under this number. */
  ghost predicate SeatTied(op: O.State, up: seq<Letter>, number: nat, p: P.State)
  {
    && (QuotesOk in up ==> HasShown(op, p, number))
    && (forall key :: DepositAndInput(key) in up ==> Live(op))
    && (forall signature :: ConfirmDeposits(signature) in up ==>
          Confirmed(op, p, signature) && Live(op) && DepositAndInput(p.me + 1) in up)
    && (forall letter :: letter in up ==> !FromOperator(letter))
  }

  ghost predicate SeatsTied(op: O.State, seats: seq<Seat>, players: seq<P.State>)
  {
    |seats| == |op.slots| && forall i :: 0 <= i < |seats| && seats[i].player.Some? ==>
      && seats[i].player.value < |players| && op.slots[i].Some?
      && SeatTied(op, seats[i].up, seats[i].number, players[seats[i].player.value])
  }

  /** If the operator keeps this report at all, it is in this slot. */
  ghost predicate OnlyAt(slots: Players.Slots, i: nat, report: Layouts.Report)
  {
    forall j :: 0 <= j < |slots| && j != i && slots[j].Some? ==> slots[j].value.report != report
  }

  /** What the present connection of a player says about the operator. */
  ghost predicate Joined(op: O.State, seats: seq<Seat>, p: P.State)
  {
    var c := p.connection;
    c.link.Genuine? ==>
      && c.link.slot < |seats| == |op.slots|
      && seats[c.link.slot].player == Some(p.me) && seats[c.link.slot].number == c.number
      && seats[c.link.slot].up == c.sent
      && op.slots[c.link.slot].Some?
      && op.slots[c.link.slot].value.quote == c.quote && OnlyAt(op.slots, c.link.slot, c.report)
      && (p.control.Idle? ==> Live(op))
      && (p.phase == P.DEPOSITED || p.phase == P.GOT_DEPOSITS ==> DepositAndInput(p.me + 1) in c.sent)
      && (p.phase == P.GOT_DEPOSITS ==> ClearContract(p.sighash, p.txid) in Letters(op.sent))
  }

  ghost predicate PlayersJoined(cfg: Config, op: O.State, seats: seq<Seat>, players: seq<P.State>)
  {
    forall p :: 0 <= p < |players| ==>
      players[p].me == p && P.Inv(cfg, players[p]) && Joined(op, seats, players[p])
  }

  ghost predicate Acked(seat: Seat)
  {
    seat.player.None? || QuotesOk in seat.up || seat.leftover != []
  }

  /** A signature the operator has taken is the player's, or useless. */
  ghost predicate Vouched(op: O.State, seat: Seat, signature: Signature)
  {
    seat.player.None? || ConfirmDeposits(signature) in seat.up || op.settlement != Some(signature.sighash)
  }

  ghost predicate DistinctReports(slots: Players.Slots)
  {
    forall i, j :: 0 <= i < j < |slots| && slots[i].Some? && slots[j].Some? ==>
      slots[i].value.report != slots[j].value.report
  }

  /** What the operator has sent. */
  ghost predicate Spoken(op: O.State)
  {
    && (forall k :: 0 <= k < |op.sent| ==> FromOperator(op.sent[k].letter))
    && (forall k :: 0 <= k < |op.sent| ==> op.sent[k].letter.PlayersQuotes? ==>
          O.AllFilled(op.slots) && op.sent[k].letter == O.QuotesLetter(op.slots))
    && (Live(op) ==> O.AllFilled(op.slots))
    && (op.control.AwaitAck? ==> !Live(op))
    && DistinctReports(op.slots)
  }

  /** What the operator has taken. */
  ghost predicate Heard(op: O.State, seats: seq<Seat>)
  {
    && |seats| == |op.slots|
    && (op.control.AwaitAck? ==> op.control.i < |seats|)
    && (op.control.AwaitAck? ==> forall i :: 0 <= i < op.control.i ==> Acked(seats[i]))
    && (Live(op) ==> forall i :: 0 <= i < |seats| ==> Acked(seats[i]))
    && (op.control.AwaitConfirm? ==> |op.signatures| == op.control.i < |seats|)
    && (op.control.AwaitConfirm? ==> forall i :: 0 <= i < op.control.i ==> Vouched(op, seats[i], op.signatures[i]))
    && (op.phase == O.CLEARED_CONTRACT && op.settlement.Some? ==> FreshSighash(seats, op.settlement.value))
    && (forall i :: 0 <= i < |seats| && seats[i].leftover != [] ==> Unspoiled(op))
  }

  predicate GivenUp(phase: O.Phase)
  {
    phase == O.ABORTED || phase == O.REFUNDED
  }

  /** A failed receive does no harm: the contract is aborted, or cannot go live any more. */
  ghost predicate Unspoiled(op: O.State)
  {
    GivenUp(op.phase) || (O.AllFilled(op.slots) && !op.control.AwaitAck? && !Live(op))
  }

  /** Whoever sits in a slot when a settlement is out has confirmed it. */
  ghost predicate Settled(op: O.State, seats: seq<Seat>)
  {
    forall k, i :: 0 <= k < |op.outputs| && 0 <= i < |seats| ==>
      op.outputs[k].Settlement? && seats[i].player.Some? ==>
        ConfirmDeposits(Signature(seats[i].player.value + 1, op.outputs[k].sighash)) in seats[i].up
  }

  /** Why a slot with a failed receive cannot have let the contract go live unacknowledged: a stranger sits
      there, or it has acknowledged, or the contract cannot go live any more; or else the receive was that of a
      deposit while a later slot was empty, and only strangers sit in the slots before. */
  ghost predicate Excused(op: O.State, seats: seq<Seat>, i: nat)
    requires i < |seats| == |op.slots|
  {
    || seats[i].player.None? || QuotesOk in seats[i].up
    || (O.AllFilled(op.slots) && !op.control.AwaitAck? && !Live(op))
    || (i + 1 < |seats| && forall j :: 0 <= j < i ==> seats[j].player.None? && op.slots[j].Some?)
  }

  ghost predicate AllExcused(op: O.State, seats: seq<Seat>)
  {
    && |seats| == |op.slots|
    && (op.control.AwaitDeposit? ==> forall j :: 0 <= j < op.control.i && j < |seats| ==>
          seats[j].player.None? || Live(op) || seats[j].leftover != [])
    && forall i :: 0 <= i < |seats| && seats[i].leftover != [] ==> Excused(op, seats, i)
  }

  ghost predicate Inv(cfg: Config, s: System)
  {
    && cfg.numPlayers > 0 && Sized(cfg, s)
    && O.Inv(cfg, s.op) && Spoken(s.op) && Heard(s.op, s.seats)
    && SeatsTied(s.op, s.seats, s.players) && PlayersJoined(cfg, s.op, s.seats, s.players)
    && Settled(s.op, s.seats) && AllExcused(s.op, s.seats)
  }

  // ---- Letters ----

  lemma LettersGrow(sent: seq<O.Broadcast>, more: seq<O.Broadcast>, letter: Letter)
    requires sent <= more
    ensures letter in Letters(sent) ==> letter in Letters(more)
  {
    if letter in Letters(sent) {
      var k: nat :| k < |sent| && Letters(sent)[k] == letter;
      assert Letters(more)[k] == letter;
    }
  }

  lemma LettersAppend(sent: seq<O.Broadcast>, b: O.Broadcast, letter: Letter)
    ensures letter in Letters(sent + [b]) <==> letter in Letters(sent) || letter == b.letter
  {
    assert Letters(sent + [b]) == Letters(sent) + [b.letter];
  }

  lemma {:induction false} SentToIsSent(sent: seq<O.Broadcast>, i: nat, letter: Letter)
    requires letter in SentTo(sent, i)
    ensures letter in Letters(sent)
  {
    var last := |sent| - 1;
    assert sent == sent[..last] + [sent[last]];
    LettersAppend(sent[..last], sent[last], letter);
    if letter in SentTo(sent[..last], i) {
      SentToIsSent(sent[..last], i, letter);
    }
  }

  lemma SpokenLetters(op: O.State, letter: Letter)
    requires Spoken(op) && letter in Letters(op.sent)
    ensures FromOperator(letter)
    ensures letter.PlayersQuotes? ==> O.AllFilled(op.slots) && letter == O.QuotesLetter(op.slots)
  {
    var k: nat :| k < |op.sent| && Letters(op.sent)[k] == letter;
    assert op.sent[k].letter == letter;
  }

  /** The two sides never send letters of the same type. */
  lemma KindsAreDisjoint(letter: Letter)
    ensures FromOperator(letter) <==> Kind(letter) % 2 == 1
  {
  }

  /** A letter of its own that comes back to an enclave is never the one it waits for: it is taken like a
      failed receive. */
  lemma OwnLettersAreRefused(cfg: Config, op: O.State, e: O.Event, p: P.State, f: P.Event, letter: Letter)
    requires e.Acknowledge? || e.Deposit? || e.Confirm?
    requires f.Quotes? || f.Complete? || f.GetDeposits?
    ensures FromOperator(letter) ==>
        O.Step(cfg, op, e.(letter := Some(letter))) == O.Step(cfg, op, e.(letter := None))
    ensures !FromOperator(letter) ==>
        P.Step(cfg, p, f.(letter := Some(letter))) == P.Step(cfg, p, f.(letter := None))
  {
    hide Layouts.Others, P.FirstSucceed;
  }

  // ---- Steps of the operator ----

  /** The histories grow, and a slot that is filled stays as it is. */
  ghost predicate OperatorGrows(op: O.State, next: O.State)
  {
    && op.sent <= next.sent && op.cleared <= next.cleared && |next.cleared| <= 1
    && |op.slots| == |next.slots|
    && forall i :: 0 <= i < |op.slots| && op.slots[i].Some? ==> next.slots[i] == op.slots[i]
  }

  lemma OperatorStepGrows(cfg: Config, op: O.State, e: O.Event)
    requires O.Inv(cfg, op)
    ensures OperatorGrows(op, O.Step(cfg, op, e))
  {
    O.StepKeeps(cfg, op, e);
    hide O.OutputOk;
  }

  lemma FilledStays(op: O.State, next: O.State)
    requires OperatorGrows(op, next) && O.AllFilled(op.slots)
    ensures next.slots == op.slots
  {
  }

  lemma SeatTieHolds(op: O.State, next: O.State, up: seq<Letter>, number: nat, p: P.State)
    requires SeatTied(op, up, number, p) && OperatorGrows(op, next)
    ensures SeatTied(next, up, number, p)
  {
    forall letter: Letter
      ensures letter in Letters(op.sent) ==> letter in Letters(next.sent)
    {
      LettersGrow(op.sent, next.sent, letter);
    }
    if O.AllFilled(op.slots) {
      FilledStays(op, next);
    }
    assert forall h: Hash :: op.cleared == [h] ==> next.cleared == [h];
    hide Letters, ShownTo, FromOperator;
  }

  /** Whoever is new in a slot, its report is not that of a connected enclave. */
  ghost predicate NewReports(op: O.State, next: O.State, p: P.State)
  {
    p.connection.link.Genuine? ==> forall j :: 0 <= j < |op.slots| == |next.slots| ==>
      op.slots[j].None? && next.slots[j].Some? ==> next.slots[j].value.report != p.connection.report
  }

  lemma ReportIsNew(cfg: Config, s: System, e: O.Event, p: nat)
    requires LegalConnect(s, e) && p < |s.players|
    ensures NewReports(s.op, O.Step(cfg, s.op, e), s.players[p])
  {
    hide O.OnAck, O.OnDeposit, O.OnConfirm, O.OnRefund;
    var next := O.Step(cfg, s.op, e);
    assert next.slots == s.op.slots || (e.Connect? && next == O.OnConnect(cfg, s.op, e)) by {
      OtherSlotsStay(cfg, s.op, e);
    }
  }

  lemma OtherSlotsStay(cfg: Config, op: O.State, e: O.Event)
    ensures O.Step(cfg, op, e).slots == op.slots
         || (e.Connect? && O.Step(cfg, op, e) == O.OnConnect(cfg, op, e))
  {
  }

  lemma JoinHolds(op: O.State, next: O.State, seats: seq<Seat>, p: P.State)
    requires Joined(op, seats, p) && OperatorGrows(op, next) && NewReports(op, next, p)
    ensures Joined(next, seats, p)
  {
    forall letter: Letter
      ensures letter in Letters(op.sent) ==> letter in Letters(next.sent)
    {
      LettersGrow(op.sent, next.sent, letter);
    }
    hide Letters;
  }

  /** The letter the operator takes: from a stranger, from the player in the slot, one of its own, or from a
      failed receive. */
  ghost predicate Source(op: O.State, seats: seq<Seat>, e: O.Event)
  {
    OperatorReads(op, e).Some? && Incoming(e).Some? ==>
      && OperatorReads(op, e).value < |seats|
      && var (seat, letter) := (seats[OperatorReads(op, e).value], Incoming(e).value);
      seat.player.None? || letter in seat.up || FromOperator(letter) || letter in seat.leftover
  }

  ghost predicate OperatorReady(cfg: Config, op: O.State, seats: seq<Seat>, e: O.Event)
  {
    && cfg.numPlayers > 0 && |seats| == cfg.numPlayers && O.Inv(cfg, op) && !op.crashed
    && Spoken(op) && Heard(op, seats) && Source(op, seats, e)
  }

  lemma ConnectHeard(cfg: Config, op: O.State, seats: seq<Seat>, e: O.Event)
    requires OperatorReady(cfg, op, seats, e) && e.Connect? && op.control.Idle?
    requires e.player.Some? ==> FreshReport(op.slots, e.player.value)
    ensures Spoken(O.OnConnect(cfg, op, e)) && Heard(O.OnConnect(cfg, op, e), seats)
  {
    var next := O.OnConnect(cfg, op, e);
    if |next.sent| > |op.sent| {
      LettersAppend(op.sent, next.sent[|op.sent|], SetupComplete);
      assert next.sent == op.sent + [next.sent[|op.sent|]];
    }
    hide Letters, O.OutputOk;
  }

  lemma AckHeard(cfg: Config, op: O.State, seats: seq<Seat>, e: O.Event, leftover: seq<Letter>)
    requires OperatorReady(cfg, op, seats, e) && e.Acknowledge? && op.control.AwaitAck?
    ensures Spoken(O.OnAck(cfg, op, op.control.i, e))
    ensures Heard(O.OnAck(cfg, op, op.control.i, e), SeatsRead(seats, op, e, leftover))
  {
    LettersAppend(op.sent, O.Broadcast(SetupComplete, Reached(e.sending, cfg.numPlayers)), SetupComplete);
    hide Letters, O.OutputOk;
  }

  lemma DepositHeard(cfg: Config, op: O.State, seats: seq<Seat>, e: O.Event, leftover: seq<Letter>)
    requires OperatorReady(cfg, op, seats, e) && e.Deposit? && op.control.AwaitDeposit?
    requires e.settlement.Some? ==> FreshSighash(seats, e.settlement.value.0)
    ensures Spoken(O.OnDeposit(cfg, op, op.control.i, e))
    ensures Heard(O.OnDeposit(cfg, op, op.control.i, e), SeatsRead(seats, op, e, leftover))
  {
    if e.settlement.Some? {
      var (sighash, txid) := e.settlement.value;
      var told := O.Broadcast(ClearContract(sighash, txid), Reached(e.sending, cfg.numPlayers));
      LettersAppend(op.sent, told, SetupComplete);
    }
    hide Letters, O.OutputOk;
  }

  lemma ConfirmHeard(cfg: Config, op: O.State, seats: seq<Seat>, e: O.Event, leftover: seq<Letter>)
    requires OperatorReady(cfg, op, seats, e) && e.Confirm? && op.control.AwaitConfirm?
    ensures Spoken(O.OnConfirm(cfg, op, op.control.i, e))
    ensures Heard(O.OnConfirm(cfg, op, op.control.i, e), SeatsRead(seats, op, e, leftover))
  {
    hide Letters, O.OutputOk;
  }

  /** With all signatures in, every player in a slot is vouched for. */
  lemma LastVouched(cfg: Config, op: O.State, seats: seq<Seat>, e: O.Event, k: nat)
    requires OperatorReady(cfg, op, seats, e) && e.Confirm? && op.control.AwaitConfirm?
    requires e.letter.Some? && e.letter.value.ConfirmDeposits? && k <= op.control.i
    ensures Vouched(op, seats[k], (op.signatures + [e.letter.value.signature])[k])
  {
    hide Letters, O.OutputOk, Spoken;
  }

  lemma ConfirmSettled(
    cfg: Config, op: O.State, seats: seq<Seat>, players: seq<P.State>, e: O.Event, leftover: seq<Letter>)
    requires OperatorReady(cfg, op, seats, e) && e.Confirm? && op.control.AwaitConfirm?
    requires SeatsTied(op, seats, players) && Settled(op, seats)
    requires forall p :: 0 <= p < |players| ==> players[p].me == p
    ensures Settled(O.OnConfirm(cfg, op, op.control.i, e), SeatsRead(seats, op, e, leftover))
  {
    var next := O.OnConfirm(cfg, op, op.control.i, e);
    hide Letters, O.OutputOk, Spoken, HasShown, Source, Heard, FreshSighash, O.Signers;
    if |next.outputs| > |op.outputs| {
      var signatures := op.signatures + [e.letter.value.signature];
      forall i | 0 <= i < |seats| && seats[i].player.Some?
        ensures ConfirmDeposits(Signature(seats[i].player.value + 1, op.settlement.value)) in seats[i].up
      {
        LastVouched(cfg, op, seats, e, i);
        assert signatures[i].sighash == op.settlement.value;
        assert SeatTied(op, seats[i].up, seats[i].number, players[seats[i].player.value]);
        assert Confirmed(op, players[seats[i].player.value], signatures[i]);
        assert signatures[i] == Signature(seats[i].player.value + 1, op.settlement.value);
      }
    }
  }

  /** The steps that give out no settlement. */
  lemma OthersSettled(cfg: Config, op: O.State, seats: seq<Seat>, e: O.Event, leftover: seq<Letter>)
    requires Settled(op, seats) && O.Inv(cfg, op) && |seats| == |op.slots|
    requires !(op.control.AwaitConfirm? && e.Confirm?)
    ensures Settled(O.Step(cfg, op, e), SeatsRead(seats, op, e, leftover))
  {
    hide O.OutputOk;
    var next := O.Step(cfg, op, e);
    assert forall k :: 0 <= k < |next.outputs| && next.outputs[k].Settlement? ==>
        k < |op.outputs| && next.outputs[k] == op.outputs[k];
    hide O.Step;
  }

  // ---- Failed receives ----

  ghost predicate OperatorTied(
    cfg: Config, op: O.State, seats: seq<Seat>, players: seq<P.State>, e: O.Event)
  {
    OperatorReady(cfg, op, seats, e) && SeatsTied(op, seats, players) && AllExcused(op, seats)
  }

  lemma AckExcused(
    cfg: Config, op: O.State, seats: seq<Seat>, players: seq<P.State>, e: O.Event, leftover: seq<Letter>)
    requires OperatorTied(cfg, op, seats, players, e) && e.Acknowledge? && op.control.AwaitAck?
    ensures AllExcused(O.OnAck(cfg, op, op.control.i, e), SeatsRead(seats, op, e, leftover))
  {
    hide Letters, O.OutputOk, SeatTied, FreshSighash;
  }

  /** A deposit taken while the contract is not live is a stranger's, or was read out of a leftover. */
  lemma EarlyDeposit(
    cfg: Config, op: O.State, seats: seq<Seat>, players: seq<P.State>, e: O.Event)
    requires OperatorTied(cfg, op, seats, players, e) && e.Deposit? && op.control.AwaitDeposit?
    requires OperatorReads(op, e).Some? && e.letter.Some? && e.letter.value.DepositAndInput?
    ensures var i := op.control.i;
            i < |seats| && (seats[i].player.None? || Live(op) || seats[i].leftover != [])
  {
    var i := op.control.i;
    hide Letters, O.Inv, Spoken, Heard, HasShown, Confirmed, AllExcused;
    if seats[i].player.Some? {
      assert SeatTied(op, seats[i].up, seats[i].number, players[seats[i].player.value]);
    }
  }

  /** Why the receive of a deposit may fail. */
  lemma FailedDepositExcused(
    cfg: Config, op: O.State, seats: seq<Seat>, players: seq<P.State>, e: O.Event)
    requires OperatorTied(cfg, op, seats, players, e) && e.Deposit? && op.control.AwaitDeposit?
    requires OperatorReads(op, e).Some? && op.control.i < |seats|
    ensures Excused(O.Abort(op), seats, op.control.i)
  {
    var i := op.control.i;
    if Live(op) {
      assert Acked(seats[i]);
    } else if !O.AllFilled(op.slots) {
      forall j | 0 <= j < i
        ensures seats[j].player.None? && op.slots[j].Some?
      {
        assert op.slots[..i][j].Some?;
      }
      var k :| 0 <= k < |op.slots| && op.slots[k].None?;
      assert k != i && !(k < i);
    }
    hide Letters, O.OutputOk, SeatTied, FreshSighash;
  }

  lemma DepositExcused(
    cfg: Config, op: O.State, seats: seq<Seat>, players: seq<P.State>, e: O.Event, leftover: seq<Letter>)
    requires OperatorTied(cfg, op, seats, players, e) && e.Deposit? && op.control.AwaitDeposit?
    ensures AllExcused(O.OnDeposit(cfg, op, op.control.i, e), SeatsRead(seats, op, e, leftover))
  {
    var next := O.OnDeposit(cfg, op, op.control.i, e);
    if OperatorReads(op, e).Some? {
      if e.letter.Some? && e.letter.value.DepositAndInput? {
        EarlyDeposit(cfg, op, seats, players, e);
      }
      FailedDepositExcused(cfg, op, seats, players, e);
    }
    if e.settlement.Some? {
      var (sighash, txid) := e.settlement.value;
      var told := O.Broadcast(ClearContract(sighash, txid), Reached(e.sending, cfg.numPlayers));
      LettersAppend(op.sent, told, SetupComplete);
    }
    hide Letters, O.Inv, Spoken, Heard, SeatsTied, Source;
  }

  lemma ConfirmExcused(
    cfg: Config, op: O.State, seats: seq<Seat>, players: seq<P.State>, e: O.Event, leftover: seq<Letter>)
    requires OperatorTied(cfg, op, seats, players, e) && e.Confirm? && op.control.AwaitConfirm?
    ensures AllExcused(O.OnConfirm(cfg, op, op.control.i, e), SeatsRead(seats, op, e, leftover))
  {
    var i := op.control.i;
    assert Live(op) ==> Acked(seats[i]);
    hide Letters, O.OutputOk, SeatTied, FreshSighash;
  }

  lemma QuietExcused(cfg: Config, op: O.State, seats: seq<Seat>, players: seq<P.State>, e: O.Event)
    requires OperatorTied(cfg, op, seats, players, e) && OperatorReads(op, e).None?
    ensures AllExcused(O.Step(cfg, op, e), seats)
  {
    var next := O.Step(cfg, op, e);
    if |next.sent| > |op.sent| {
      LettersAppend(op.sent, next.sent[|op.sent|], SetupComplete);
      assert next.sent == op.sent + [next.sent[|op.sent|]];
    }
    hide Letters, O.OutputOk, SeatTied, FreshSighash;
  }

  lemma OperatorStepExcused(
    cfg: Config, op: O.State, seats: seq<Seat>, players: seq<P.State>, e: O.Event, leftover: seq<Letter>)
    requires OperatorTied(cfg, op, seats, players, e)
    ensures AllExcused(O.Step(cfg, op, e), SeatsRead(seats, op, e, leftover))
  {
    hide O.OnConnect, O.OnAck, O.OnDeposit, O.OnConfirm, AllExcused, SeatsTied, Spoken, Heard, Source, O.Inv;
    if op.control.AwaitAck? && e.Acknowledge? {
      AckExcused(cfg, op, seats, players, e, leftover);
    } else if op.control.AwaitDeposit? && e.Deposit? {
      DepositExcused(cfg, op, seats, players, e, leftover);
    } else if op.control.AwaitConfirm? && e.Confirm? {
      ConfirmExcused(cfg, op, seats, players, e, leftover);
    } else {
      QuietExcused(cfg, op, seats, players, e);
    }
  }

  /** What the operator has heard and said stays in order, whatever it takes next. */
  lemma OperatorStepHeard(cfg: Config, op: O.State, seats: seq<Seat>, e: O.Event, leftover: seq<Letter>)
    requires OperatorReady(cfg, op, seats, e)
    requires e.Connect? && e.player.Some? ==> FreshReport(op.slots, e.player.value)
    requires e.Deposit? && e.settlement.Some? ==> FreshSighash(seats, e.settlement.value.0)
    ensures Spoken(O.Step(cfg, op, e)) && Heard(O.Step(cfg, op, e), SeatsRead(seats, op, e, leftover))
  {
    if op.control.AwaitAck? && e.Acknowledge? {
      AckHeard(cfg, op, seats, e, leftover);
    } else if op.control.AwaitDeposit? && e.Deposit? {
      DepositHeard(cfg, op, seats, e, leftover);
    } else if op.control.AwaitConfirm? && e.Confirm? {
      ConfirmHeard(cfg, op, seats, e, leftover);
    } else if op.control.Idle? && e.Connect? {
      ConnectHeard(cfg, op, seats, e);
    } else {
      QuietHeard(cfg, op, seats, e);
    }
    hide O.OnConnect, O.OnAck, O.OnDeposit, O.OnConfirm, Spoken, Heard, O.Inv, FreshSighash;
  }

  lemma QuietHeard(cfg: Config, op: O.State, seats: seq<Seat>, e: O.Event)
    requires OperatorReady(cfg, op, seats, e) && OperatorReads(op, e).None?
    requires !(op.control.Idle? && e.Connect?)
    ensures Spoken(O.Step(cfg, op, e)) && Heard(O.Step(cfg, op, e), seats)
  {
    hide Letters, O.OutputOk;
  }

  // ---- Steps of a player ----

  /** A letter taken from the operator's channel is one the operator has sent, or one of the player's own. */
  ghost predicate PlayerSource(op: O.State, p: P.State, e: P.Event)
  {
    PlayerTakes(p, e).Some? ==>
      PlayerTakes(p, e).value in Letters(op.sent) || PlayerTakes(p, e).value in p.connection.sent
  }

  lemma SignedIsPast(cfg: Config, p: P.State, sighash: Hash)
    requires P.Inv(cfg, p)
    ensures P.Signed(sighash) in p.log ==> p.phase != P.DEPOSITED
  {
    if P.Signed(sighash) in p.log {
      var k: nat :| k < |p.log| && p.log[k] == P.Signed(sighash);
      assert P.Founded(cfg, p, k);
    }
  }

  /** What a player's step keeps of it; the txid only changes before anything is signed. */
  ghost predicate PlayerGrows(p: P.State, next: P.State)
  {
    && p.log <= next.log && next.me == p.me
    && (p.phase != P.DEPOSITED ==> next.txid == p.txid)
  }

  lemma PlayerStepGrows(cfg: Config, p: P.State, e: P.Event)
    ensures PlayerGrows(p, P.Step(cfg, p, e))
  {
    hide Layouts.Others, P.FirstSucceed;
  }

  /** Letters put on a channel earlier still say the same about the player. */
  lemma EarlierTieHolds(cfg: Config, op: O.State, up: seq<Letter>, number: nat, p: P.State, next: P.State)
    requires SeatTied(op, up, number, p) && P.Inv(cfg, p) && PlayerGrows(p, next)
    ensures SeatTied(op, up, number, next)
  {
    forall signature: Signature
      ensures ConfirmDeposits(signature) in up ==> Confirmed(op, next, signature)
    {
      if ConfirmDeposits(signature) in up {
        assert Confirmed(op, p, signature);
        SignedIsPast(cfg, p, signature.sighash);
      }
    }
    hide Letters, ShownTo, P.Inv;
  }

  lemma TieAppends(op: O.State, up: seq<Letter>, letter: Letter, number: nat, p: P.State)
    requires SeatTied(op, up, number, p) && !FromOperator(letter)
    requires letter == QuotesOk ==> HasShown(op, p, number)
    requires letter.DepositAndInput? ==> Live(op)
    requires letter.ConfirmDeposits? ==>
        Confirmed(op, p, letter.signature) && Live(op) && DepositAndInput(p.me + 1) in up
    ensures SeatTied(op, up + [letter], number, p)
  {
    hide HasShown, Live, Confirmed, FromOperator;
  }

  /** A player that has the operator's channel, taking this step. */
  ghost predicate PlayerReady(cfg: Config, op: O.State, p: P.State, e: P.Event)
  {
    && O.Inv(cfg, op) && Spoken(op) && P.Inv(cfg, p) && PlayerSource(op, p, e) && !p.crashed
    && p.connection.link.Genuine? && |op.slots| == cfg.numPlayers && Bound(op, p)
  }

  /** What holds of the player's letters and phase. */
  ghost predicate Bound(op: O.State, p: P.State)
  {
    && SeatTied(op, p.connection.sent, p.connection.number, p)
    && (p.connection.link.Genuine? && p.control.Idle? ==> Live(op))
    && (p.connection.link.Genuine? && p.phase == P.GOT_DEPOSITS ==>
          ClearContract(p.sighash, p.txid) in Letters(op.sent))
    && (p.connection.link.Genuine? && (p.phase == P.DEPOSITED || p.phase == P.GOT_DEPOSITS) ==>
          DepositAndInput(p.me + 1) in p.connection.sent)
  }

  lemma AnnouncedIsCleared(cfg: Config, op: O.State, sighash: Hash, txid: Hash)
    requires O.Inv(cfg, op) && ClearContract(sighash, txid) in Letters(op.sent)
    ensures op.cleared == [sighash]
  {
    var k: nat :| k < |op.sent| && Letters(op.sent)[k] == ClearContract(sighash, txid);
    assert op.sent[k].letter.ClearContract?;
  }

  /** A letter of the type the operator sends is one the operator has sent. */
  lemma TakenIsSpoken(cfg: Config, op: O.State, p: P.State, e: P.Event)
    requires PlayerReady(cfg, op, p, e) && PlayerTakes(p, e).Some? && FromOperator(PlayerTakes(p, e).value)
    ensures PlayerTakes(p, e).value in Letters(op.sent)
    ensures PlayerTakes(p, e).value.PlayersQuotes? ==>
        O.AllFilled(op.slots) && PlayerTakes(p, e).value == O.QuotesLetter(op.slots)
  {
    hide Letters, P.Inv, O.Inv, HasShown, Confirmed;
    SpokenLetters(op, PlayerTakes(p, e).value);
  }

  lemma QuotesBound(cfg: Config, op: O.State, p: P.State, e: P.Event)
    requires PlayerReady(cfg, op, p, e) && e.Quotes? && p.control.AwaitQuotes?
    ensures Bound(op, P.OnQuotes(cfg, p, e))
  {
    var next := P.OnQuotes(cfg, p, e);
    PlayerStepGrows(cfg, p, e);
    EarlierTieHolds(cfg, op, p.connection.sent, p.connection.number, p, next);
    if P.IsBroadcast(cfg, e.letter) {
      TakenIsSpoken(cfg, op, p, e);
    }
    if next.connection.sent != p.connection.sent {
      assert next.log == p.log + [P.Presented(p.connection.number, ShownTo(op.slots, p.connection.number))];
      TieAppends(op, p.connection.sent, QuotesOk, p.connection.number, next);
    }
    hide Layouts.Others, SeatTied, Letters, Spoken, P.Inv, O.Inv;
  }

  lemma CompleteBound(cfg: Config, op: O.State, p: P.State, e: P.Event)
    requires PlayerReady(cfg, op, p, e) && e.Complete? && p.control.AwaitComplete?
    ensures Bound(op, P.OnComplete(p, e))
  {
    PlayerStepGrows(cfg, p, e);
    EarlierTieHolds(cfg, op, p.connection.sent, p.connection.number, p, P.OnComplete(p, e));
    if e.letter == Some(SetupComplete) {
      TakenIsSpoken(cfg, op, p, e);
    }
    hide SeatTied, Letters, Spoken, O.Inv, P.Founded, P.Orderly;
  }

  lemma DepositBound(cfg: Config, op: O.State, p: P.State, e: P.Event)
    requires PlayerReady(cfg, op, p, e) && e.Deposit? && p.control.Idle?
    ensures Bound(op, P.OnDeposit(p, e.prepared, e.sending))
  {
    var next := P.OnDeposit(p, e.prepared, e.sending);
    PlayerStepGrows(cfg, p, e);
    EarlierTieHolds(cfg, op, p.connection.sent, p.connection.number, p, next);
    if next.connection.sent != p.connection.sent {
      TieAppends(op, p.connection.sent, DepositAndInput(p.me + 1), p.connection.number, next);
    }
    hide SeatTied, Letters, Spoken, O.Inv, P.Inv;
  }

  lemma GetDepositsBound(cfg: Config, op: O.State, p: P.State, e: P.Event)
    requires PlayerReady(cfg, op, p, e) && e.GetDeposits? && p.control.Idle?
    ensures Bound(op, P.OnGetDeposits(cfg, p, e))
  {
    PlayerStepGrows(cfg, p, e);
    EarlierTieHolds(cfg, op, p.connection.sent, p.connection.number, p, P.OnGetDeposits(cfg, p, e));
    if PlayerTakes(p, e).Some? && PlayerTakes(p, e).value.ClearContract? {
      TakenIsSpoken(cfg, op, p, e);
    }
    hide SeatTied, Letters, Spoken, O.Inv, P.Founded, P.Orderly, P.FirstSucceed;
  }

  lemma ConfirmSends(p: P.State, e: P.Event)
    requires e.Confirm? && !p.crashed
    ensures var next := P.OnConfirm(p, e.signed, e.exported, e.sending);
            && next.me == p.me && next.control == p.control && next.sighash == p.sighash && next.txid == p.txid
            && (next.phase != P.DEPOSITED || next == p) && (next.phase == P.GOT_DEPOSITS ==> p.phase == P.GOT_DEPOSITS)
            && next.connection.link == p.connection.link && next.connection.number == p.connection.number
            && (next.connection.sent == p.connection.sent
                || (&& p.phase == P.GOT_DEPOSITS && p.connection.link.Genuine? && P.Signed(p.sighash) in next.log
                    && next.connection.sent
                       == p.connection.sent + [ConfirmDeposits(Signature(p.me + 1, p.sighash))]))
  {
  }

  lemma ConfirmBound(cfg: Config, op: O.State, p: P.State, e: P.Event)
    requires PlayerReady(cfg, op, p, e) && e.Confirm? && p.control.Idle?
    ensures Bound(op, P.OnConfirm(p, e.signed, e.exported, e.sending))
  {
    var next := P.OnConfirm(p, e.signed, e.exported, e.sending);
    PlayerStepGrows(cfg, p, e);
    assert P.Step(cfg, p, e) == next;
    EarlierTieHolds(cfg, op, p.connection.sent, p.connection.number, p, next);
    ConfirmSends(p, e);
    hide HasShown, Live, FromOperator, SeatTied, Letters, Spoken, O.Inv, P.Inv, P.OnConfirm, P.Step;
    if next.connection.sent != p.connection.sent {
      AnnouncedIsCleared(cfg, op, p.sighash, p.txid);
      TieAppends(op, p.connection.sent, ConfirmDeposits(Signature(p.me + 1, p.sighash)), p.connection.number, next);
    }
  }

  lemma RestBound(cfg: Config, op: O.State, p: P.State, e: P.Event)
    requires PlayerReady(cfg, op, p, e)
    requires p.control.AwaitQuotes? ==> !e.Quotes?
    requires p.control.AwaitComplete? ==> !e.Complete?
    requires p.control.Idle? ==> !e.Deposit? && !e.GetDeposits? && !e.Confirm?
    ensures Bound(op, P.Step(cfg, p, e))
  {
    PlayerStepGrows(cfg, p, e);
    EarlierTieHolds(cfg, op, p.connection.sent, p.connection.number, p, P.Step(cfg, p, e));
    hide SeatTied, Letters, Spoken, O.Inv, P.Founded, P.Orderly;
  }

  /** Whatever a player does next, its letters and its connection still say what they must. */
  lemma PlayerStepBound(cfg: Config, op: O.State, p: P.State, e: P.Event)
    requires PlayerReady(cfg, op, p, e)
    ensures Bound(op, P.Step(cfg, p, e))
  {
    hide P.OnQuotes, P.OnComplete, P.OnDeposit, P.OnGetDeposits, P.OnConfirm, Bound, P.Inv, O.Inv, Spoken;
    if p.control.AwaitQuotes? && e.Quotes? {
      QuotesBound(cfg, op, p, e);
      assert P.Step(cfg, p, e) == P.OnQuotes(cfg, p, e);
    } else if p.control.AwaitComplete? && e.Complete? {
      CompleteBound(cfg, op, p, e);
      assert P.Step(cfg, p, e) == P.OnComplete(p, e);
    } else if p.control.Idle? && e.Deposit? {
      DepositBound(cfg, op, p, e);
      assert P.Step(cfg, p, e) == P.OnDeposit(p, e.prepared, e.sending);
    } else if p.control.Idle? && e.GetDeposits? {
      GetDepositsBound(cfg, op, p, e);
      assert P.Step(cfg, p, e) == P.OnGetDeposits(cfg, p, e);
    } else if p.control.Idle? && e.Confirm? {
      ConfirmBound(cfg, op, p, e);
      assert P.Step(cfg, p, e) == P.OnConfirm(p, e.signed, e.exported, e.sending);
    } else {
      RestBound(cfg, op, p, e);
    }
  }

  /** The connection afterwards is the one before, or that one dropped; letters may have been added. */
  ghost predicate SameConnection(c: P.Connection, d: P.Connection)
  {
    && (d.link == c.link || d.link == P.NotConnected)
    && d.number == c.number && d.quote == c.quote && d.report == c.report && c.sent <= d.sent
  }

  lemma IdleConnectionStays(cfg: Config, p: P.State, e: P.Event)
    requires p.connection.link.Genuine? && p.control.Idle?
    ensures SameConnection(p.connection, P.Step(cfg, p, e).connection)
  {
    hide P.FirstSucceed, P.OnQuotes, P.OnComplete;
  }

  lemma ConnectionStays(cfg: Config, p: P.State, e: P.Event)
    requires p.connection.link.Genuine?
    ensures SameConnection(p.connection, P.Step(cfg, p, e).connection)
  {
    if p.control.Idle? {
      IdleConnectionStays(cfg, p, e);
    }
    hide Layouts.Others, P.OnDeposit, P.OnGetDeposits, P.OnConfirm, P.OnSettle, P.OnRefund;
  }

  /** A player without the operator's channel does not get it by itself. */
  lemma NoChannelStays(cfg: Config, p: P.State, e: P.Event)
    requires !p.connection.link.Genuine? && (e.Connect? ==> !e.link.Genuine?)
    ensures !P.Step(cfg, p, e).connection.link.Genuine?
  {
    hide Layouts.Others, P.FirstSucceed;
  }

  // ---- Every move ----

  lemma JoinedBySeat(op: O.State, seats: seq<Seat>, more: seq<Seat>, p: P.State)
    requires Joined(op, seats, p) && |more| == |seats|
    requires p.connection.link.Genuine? ==>
        && more[p.connection.link.slot].player == seats[p.connection.link.slot].player
        && more[p.connection.link.slot].number == seats[p.connection.link.slot].number
        && more[p.connection.link.slot].up == seats[p.connection.link.slot].up
    ensures Joined(op, more, p)
  {
  }

  lemma CanReachIsSource(s: System, e: O.Event)
    requires LegalOperator(s, e) && Spoken(s.op)
    ensures Source(s.op, s.seats, e)
  {
    var i := OperatorReads(s.op, e);
    hide Letters, SentTo, Live;
    if i.Some? && Incoming(e).Some? {
      var letter := Incoming(e).value;
      if letter in SentTo(s.op.sent, i.value) {
        SentToIsSent(s.op.sent, i.value, letter);
        SpokenLetters(s.op, letter);
      }
    }
  }

  lemma OperatorStepSettled(cfg: Config, s: System, e: O.Event, leftover: seq<Letter>)
    requires Inv(cfg, s) && OperatorReady(cfg, s.op, s.seats, e)
    ensures Settled(O.Step(cfg, s.op, e), SeatsRead(s.seats, s.op, e, leftover))
  {
    hide O.OnConfirm, Settled, SeatsTied, Joined, P.Inv, Spoken, Heard, Source, O.Inv, AllExcused;
    if s.op.control.AwaitConfirm? && e.Confirm? {
      ConfirmSettled(cfg, s.op, s.seats, s.players, e, leftover);
    } else {
      OthersSettled(cfg, s.op, s.seats, e, leftover);
    }
  }

  lemma OperatorMoveTies(cfg: Config, s: System, e: O.Event, leftover: seq<Letter>)
    requires Inv(cfg, s) && LegalConnect(s, e)
    ensures SeatsTied(O.Step(cfg, s.op, e), SeatsRead(s.seats, s.op, e, leftover), s.players)
    ensures PlayersJoined(cfg, O.Step(cfg, s.op, e), SeatsRead(s.seats, s.op, e, leftover), s.players)
  {
    hide O.Step, O.Inv, P.Inv, SeatTied, Joined, Spoken, Heard, Settled, AllExcused, LegalConnect;
    var next, seats := O.Step(cfg, s.op, e), SeatsRead(s.seats, s.op, e, leftover);
    OperatorStepGrows(cfg, s.op, e);
    forall i | 0 <= i < |seats| && seats[i].player.Some?
      ensures SeatTied(next, seats[i].up, seats[i].number, s.players[seats[i].player.value])
    {
      SeatTieHolds(s.op, next, seats[i].up, seats[i].number, s.players[seats[i].player.value]);
    }
    forall p | 0 <= p < |s.players|
      ensures Joined(next, seats, s.players[p])
    {
      ReportIsNew(cfg, s, e, p);
      JoinHolds(s.op, next, s.seats, s.players[p]);
      JoinedRead(s, next, e, leftover, s.players[p]);
    }
  }

  lemma JoinedRead(s: System, next: O.State, e: O.Event, leftover: seq<Letter>, p: P.State)
    requires Joined(next, s.seats, p)
    ensures Joined(next, SeatsRead(s.seats, s.op, e, leftover), p)
  {
    var seats := SeatsRead(s.seats, s.op, e, leftover);
    assert forall i :: 0 <= i < |seats| ==>
        seats[i].player == s.seats[i].player && seats[i].number == s.seats[i].number && seats[i].up == s.seats[i].up;
    hide SeatsRead, OperatorReads;
    JoinedBySeat(next, s.seats, seats, p);
  }

  lemma OperatorMoveKeeps(cfg: Config, s: System, e: O.Event, leftover: seq<Letter>)
    requires Inv(cfg, s) && LegalOperator(s, e)
    ensures Inv(cfg, System(O.Step(cfg, s.op, e), s.players, SeatsRead(s.seats, s.op, e, leftover)))
  {
    O.StepKeeps(cfg, s.op, e);
    OperatorStepGrows(cfg, s.op, e);
    OperatorMoveTies(cfg, s, e, leftover);
    CanReachIsSource(s, e);
    if s.op.crashed {
      assert O.Step(cfg, s.op, e) == s.op && SeatsRead(s.seats, s.op, e, leftover) == s.seats;
    } else {
      OperatorStepHeard(cfg, s.op, s.seats, e, leftover);
      OperatorStepSettled(cfg, s, e, leftover);
      OperatorStepExcused(cfg, s.op, s.seats, s.players, e, leftover);
    }
    hide O.Step, O.Inv, P.Inv, SeatsTied, PlayersJoined, Spoken, Heard, Settled, AllExcused, Source, SeatsRead;
  }

  // Moves of a player

  lemma HeardHolds(op: O.State, seats: seq<Seat>, more: seq<Seat>)
    requires Heard(op, seats) && |more| == |seats|
    requires forall i :: 0 <= i < |seats| ==>
        more[i].player == seats[i].player && seats[i].up <= more[i].up && more[i].leftover == seats[i].leftover
    ensures Heard(op, more)
  {
    forall i | 0 <= i < |seats|
      ensures Acked(seats[i]) ==> Acked(more[i])
    {
    }
    forall i, signature: Signature | 0 <= i < |seats|
      ensures Vouched(op, seats[i], signature) ==> Vouched(op, more[i], signature)
    {
    }
    hide Live, Acked, Vouched;
  }

  lemma SettledHolds(op: O.State, seats: seq<Seat>, more: seq<Seat>)
    requires Settled(op, seats) && |more| == |seats|
    requires forall i :: 0 <= i < |seats| ==> more[i].player == seats[i].player && seats[i].up <= more[i].up
    ensures Settled(op, more)
  {
  }

  lemma ExcusedHolds(op: O.State, seats: seq<Seat>, more: seq<Seat>)
    requires AllExcused(op, seats) && |more| == |seats|
    requires forall i :: 0 <= i < |seats| ==>
        more[i].player == seats[i].player && seats[i].up <= more[i].up && more[i].leftover == seats[i].leftover
    ensures AllExcused(op, more)
  {
    forall i | 0 <= i < |seats| && seats[i].leftover != []
      ensures Excused(op, more, i)
    {
      assert Excused(op, seats, i);
    }
    hide Live;
  }

  ghost predicate PlayerLegal(s: System, p: nat, e: P.Event)
  {
    && p < |s.players|
    && (e.Connect? ==> !e.link.Genuine?)
    && (PlayerTakes(s.players[p], e).Some? ==> CanReachPlayer(s, s.players[p], PlayerTakes(s.players[p], e).value))
  }

  /** The player taking the step: its letters, and the ties of its new state. */
  lemma MoverTied(cfg: Config, s: System, p: nat, e: P.Event)
    requires Inv(cfg, s) && PlayerLegal(s, p, e)
    ensures var next := P.Step(cfg, s.players[p], e);
            next.connection.link.Genuine? ==> s.players[p].connection.link.Genuine? && Bound(s.op, next)
    ensures s.players[p].connection.link.Genuine? ==> var next := P.Step(cfg, s.players[p], e);
            SeatTied(s.op, next.connection.sent, next.connection.number, next)
  {
    var q := s.players[p];
    if q.connection.link.Genuine? {
      var taken := PlayerTakes(q, e);
      if taken.Some? && taken.value in SentTo(s.op.sent, q.connection.link.slot) {
        SentToIsSent(s.op.sent, q.connection.link.slot, taken.value);
      }
      assert Joined(s.op, s.seats, q);
      assert Bound(s.op, q);
      if q.crashed {
        assert P.Step(cfg, q, e) == q;
      } else {
        assert PlayerReady(cfg, s.op, q, e);
        PlayerStepBound(cfg, s.op, q, e);
      }
    } else {
      NoChannelStays(cfg, q, e);
    }
    hide P.Step, SentTo, SeatTied, O.Inv, P.Inv, Spoken, Heard, Settled, Letters;
  }

  /** Where the letters of the step go. */
  lemma PostedSeats(cfg: Config, s: System, p: nat, e: P.Event, j: nat)
    requires Inv(cfg, s) && p < |s.players| && j < |s.seats|
    ensures var next := P.Step(cfg, s.players[p], e);
            var seat := SeatsPosted(s.seats, s.players[p], next, PlayerTakes(s.players[p], e).Some?)[j];
            && seat.player == s.seats[j].player && seat.number == s.seats[j].number
            && seat.leftover == s.seats[j].leftover && s.seats[j].up <= seat.up
            && (s.players[p].connection.link == P.Genuine(j) ==>
                  seat.player == Some(p) && seat.up == next.connection.sent && seat.number == next.connection.number)
            && (s.players[p].connection.link != P.Genuine(j) ==> seat == s.seats[j])
  {
    assert Joined(s.op, s.seats, s.players[p]) && s.players[p].me == p;
    if s.players[p].connection.link.Genuine? {
      ConnectionStays(cfg, s.players[p], e);
    }
    hide P.Step, P.Inv, O.Inv, Spoken, Heard, Settled, SeatsTied, PlayersJoined;
  }

  lemma PlayerMoveSeats(cfg: Config, s: System, p: nat, e: P.Event)
    requires Inv(cfg, s) && PlayerLegal(s, p, e)
    ensures var next := P.Step(cfg, s.players[p], e);
            SeatsTied(s.op, SeatsPosted(s.seats, s.players[p], next, PlayerTakes(s.players[p], e).Some?),
              s.players[p := next])
  {
    var next := P.Step(cfg, s.players[p], e);
    var seats := SeatsPosted(s.seats, s.players[p], next, PlayerTakes(s.players[p], e).Some?);
    MoverTied(cfg, s, p, e);
    PlayerStepGrows(cfg, s.players[p], e);
    forall j | 0 <= j < |seats| && seats[j].player.Some?
      ensures s.op.slots[j].Some? && seats[j].player.value < |s.players|
      ensures SeatTied(s.op, seats[j].up, seats[j].number, s.players[p := next][seats[j].player.value])
    {
      PostedSeats(cfg, s, p, e, j);
      if seats[j].player.value == p && s.players[p].connection.link != P.Genuine(j) {
        EarlierTieHolds(cfg, s.op, s.seats[j].up, s.seats[j].number, s.players[p], next);
      }
    }
    hide P.Step, SeatTied, SeatsPosted, Joined, Bound, O.Inv, P.Inv, Spoken, Heard, Settled, PlayerLegal, PlayerTakes;
  }

  lemma PlayerMoveJoins(cfg: Config, s: System, p: nat, e: P.Event)
    requires Inv(cfg, s) && PlayerLegal(s, p, e)
    ensures var next := P.Step(cfg, s.players[p], e);
            PlayersJoined(cfg, s.op, SeatsPosted(s.seats, s.players[p], next, PlayerTakes(s.players[p], e).Some?),
              s.players[p := next])
  {
    var next := P.Step(cfg, s.players[p], e);
    var seats := SeatsPosted(s.seats, s.players[p], next, PlayerTakes(s.players[p], e).Some?);
    var players := s.players[p := next];
    P.StepKeeps(cfg, s.players[p], e);
    PlayerStepGrows(cfg, s.players[p], e);
    forall q | 0 <= q < |players|
      ensures Joined(s.op, seats, players[q])
    {
      if q == p {
        MoverJoined(cfg, s, p, e);
      } else {
        var link := s.players[q].connection.link;
        assert Joined(s.op, s.seats, s.players[q]);
        if link.Genuine? {
          PostedSeats(cfg, s, p, e, link.slot);
        }
        JoinedBySeat(s.op, s.seats, seats, s.players[q]);
      }
    }
    hide P.Step, SeatsPosted, O.Inv, P.Inv, Spoken, Heard, Settled, SeatsTied, PlayerLegal, PlayerTakes;
  }

  lemma MoverJoined(cfg: Config, s: System, p: nat, e: P.Event)
    requires Inv(cfg, s) && PlayerLegal(s, p, e)
    ensures var next := P.Step(cfg, s.players[p], e);
            Joined(s.op, SeatsPosted(s.seats, s.players[p], next, PlayerTakes(s.players[p], e).Some?), next)
  {
    var next := P.Step(cfg, s.players[p], e);
    MoverTied(cfg, s, p, e);
    PlayerStepGrows(cfg, s.players[p], e);
    if next.connection.link.Genuine? {
      ConnectionStays(cfg, s.players[p], e);
      assert Joined(s.op, s.seats, s.players[p]);
      PostedSeats(cfg, s, p, e, next.connection.link.slot);
    }
    hide P.Step, SeatsPosted, SeatTied, O.Inv, P.Inv, Spoken, Heard, Settled, SeatsTied, PlayerLegal, PlayerTakes;
    hide Letters;
  }

  lemma PlayerMoveKeeps(cfg: Config, s: System, p: nat, e: P.Event)
    requires Inv(cfg, s) && PlayerLegal(s, p, e)
    ensures var next := P.Step(cfg, s.players[p], e);
            Inv(cfg, System(s.op, s.players[p := next],
              SeatsPosted(s.seats, s.players[p], next, PlayerTakes(s.players[p], e).Some?)))
  {
    var next := P.Step(cfg, s.players[p], e);
    var seats := SeatsPosted(s.seats, s.players[p], next, PlayerTakes(s.players[p], e).Some?);
    PlayerStepGrows(cfg, s.players[p], e);
    PlayerMoveSeats(cfg, s, p, e);
    PlayerMoveJoins(cfg, s, p, e);
    forall j | 0 <= j < |seats|
      ensures seats[j].player == s.seats[j].player && s.seats[j].up <= seats[j].up
      ensures seats[j].leftover == s.seats[j].leftover
    {
      PostedSeats(cfg, s, p, e, j);
    }
    hide P.Step, SeatsPosted, O.Inv, P.Inv, Spoken, Heard, Settled, AllExcused, SeatsTied, PlayersJoined, PlayerLegal;
    hide PlayerTakes;
    HeardHolds(s.op, s.seats, seats);
    SettledHolds(s.op, s.seats, seats);
    ExcusedHolds(s.op, s.seats, seats);
  }

  // An attestation

  /** While a slot is empty, the contract is not live, nothing is cleared and no settlement is out. */
  lemma NothingBegun(cfg: Config, op: O.State, i: nat)
    requires O.Inv(cfg, op) && Spoken(op) && i < |op.slots| && op.slots[i].None?
    ensures !Live(op) && op.phase != O.CLEARED_CONTRACT
    ensures forall k :: 0 <= k < |op.outputs| ==> !op.outputs[k].Settlement?
  {
    assert forall k :: 0 <= k < |op.outputs| ==> O.OutputOk(cfg, op, op.outputs[k]);
    hide Live;
  }

  lemma ConnectedSoon(cfg: Config, op: O.State, e: O.Event)
    requires O.Inv(cfg, op) && op.control.Idle? && !op.crashed && e.Connect? && e.player.Some?
    requires Players.IdOk(op.slots, e.player.value.id)
    ensures var next := O.Step(cfg, op, e);
            && next.slots == op.slots[e.player.value.id - 1 := e.player]
            && next.phase == op.phase && next.outputs == op.outputs
            && (next.control.Idle? || next.control == O.AwaitAck(0))
            && (Live(next) ==> Live(op))
  {
    var next := O.Step(cfg, op, e);
    if |next.sent| > |op.sent| {
      LettersAppend(op.sent, next.sent[|op.sent|], SetupComplete);
      assert next.sent == op.sent + [next.sent[|op.sent|]];
    }
    hide Letters, O.Inv;
  }

  lemma SeatTaken(cfg: Config, s: System, op: O.State, players: seq<P.State>, e: O.Event, p: nat, join: P.Event, j: nat)
    requires LegalAttest(s, e, p, join) && |s.seats| == |s.op.slots| && j < |s.seats|
    requires players == s.players[p := P.Step(cfg, s.players[p], join)] && P.Inv(cfg, s.players[p])
    requires |op.slots| == |s.seats| && op.slots[e.player.value.id - 1].Some?
    requires SeatsTied(op, s.seats, s.players)
    ensures var seat := s.seats[e.player.value.id - 1 := Seat(Some(p), join.number, [], [], 0, 0)][j];
            seat.player.Some? ==>
              && seat.player.value < |players| && op.slots[j].Some?
              && SeatTied(op, seat.up, seat.number, players[seat.player.value])
  {
    var seats := s.seats[e.player.value.id - 1 := Seat(Some(p), join.number, [], [], 0, 0)];
    PlayerStepGrows(cfg, s.players[p], join);
    if seats[j].player.Some? && j != e.player.value.id - 1 && seats[j].player.value == p {
      EarlierTieHolds(cfg, op, seats[j].up, seats[j].number, s.players[p], players[p]);
    }
    hide P.Step, P.Inv, HasShown, Confirmed, Live;
  }

  lemma JoinerJoined(cfg: Config, s: System, op: O.State, e: O.Event, p: nat, join: P.Event)
    requires LegalAttest(s, e, p, join) && |s.seats| == |s.op.slots| == |op.slots|
    requires s.players[p].me == p && P.Inv(cfg, s.players[p])
    requires op.slots == s.op.slots[e.player.value.id - 1 := e.player]
    ensures Joined(op, s.seats[e.player.value.id - 1 := Seat(Some(p), join.number, [], [], 0, 0)],
              P.Step(cfg, s.players[p], join))
  {
    hide Live, Letters, P.Founded, P.Orderly;
  }

  lemma AttestTies(cfg: Config, s: System, op: O.State, e: O.Event, p: nat, join: P.Event)
    requires LegalAttest(s, e, p, join) && |s.seats| == |s.op.slots| == |op.slots|
    requires SeatsTied(s.op, s.seats, s.players)
    requires SeatsTied(op, s.seats, s.players) && PlayersJoined(cfg, op, s.seats, s.players)
    requires op.slots == s.op.slots[e.player.value.id - 1 := e.player]
    ensures var seats := s.seats[e.player.value.id - 1 := Seat(Some(p), join.number, [], [], 0, 0)];
            var players := s.players[p := P.Step(cfg, s.players[p], join)];
            SeatsTied(op, seats, players) && PlayersJoined(cfg, op, seats, players)
  {
    var i := e.player.value.id - 1;
    var seats := s.seats[i := Seat(Some(p), join.number, [], [], 0, 0)];
    var players := s.players[p := P.Step(cfg, s.players[p], join)];
    assert s.seats[i].player.None?;
    P.StepKeeps(cfg, s.players[p], join);
    PlayerStepGrows(cfg, s.players[p], join);
    forall j | 0 <= j < |seats| && seats[j].player.Some?
      ensures seats[j].player.value < |players| && op.slots[j].Some?
      ensures SeatTied(op, seats[j].up, seats[j].number, players[seats[j].player.value])
    {
      SeatTaken(cfg, s, op, players, e, p, join, j);
    }
    forall q | 0 <= q < |players|
      ensures Joined(op, seats, players[q])
    {
      if q == p {
        JoinerJoined(cfg, s, op, e, p, join);
      } else {
        assert Joined(op, s.seats, s.players[q]);
        JoinedBySeat(op, s.seats, seats, s.players[q]);
      }
    }
    hide P.Step, P.Inv, SeatTied, Live, Letters, LegalConnect;
  }

  /** An empty seat is taken while nothing has begun. */
  lemma SeatTakenHeard(op: O.State, seats: seq<Seat>, i: nat, seat: Seat)
    requires Heard(op, seats) && Settled(op, seats) && i < |seats| && seat.up == [] && seat.leftover == []
    requires op.phase != O.CLEARED_CONTRACT && !Live(op)
    requires op.control.Idle? || op.control == O.AwaitAck(0)
    requires forall o :: 0 <= o < |op.outputs| ==> !op.outputs[o].Settlement?
    ensures Heard(op, seats[i := seat]) && Settled(op, seats[i := seat])
  {
    hide Live, FreshSighash;
  }

  lemma SeatTakenExcused(op: O.State, next: O.State, seats: seq<Seat>, i: nat, seat: Seat)
    requires AllExcused(op, seats) && i < |seats| && op.slots[i].None? && seat.leftover == []
    requires |next.slots| == |op.slots| && forall j :: 0 <= j < |seats| && j != i ==> next.slots[j] == op.slots[j]
    requires next.control.Idle? || next.control == O.AwaitAck(0)
    ensures AllExcused(next, seats[i := seat])
  {
    hide Live;
    forall j | 0 <= j < |seats| && j != i && seats[j].leftover != []
      ensures Excused(next, seats[i := seat], j)
    {
      assert Excused(op, seats, j);
    }
  }

  lemma AttestKeeps(cfg: Config, s: System, e: O.Event, p: nat, join: P.Event)
    requires Inv(cfg, s) && LegalAttest(s, e, p, join)
    ensures Inv(cfg, Apply(cfg, s, Attest(e, p, join)))
  {
    var i, next := e.player.value.id - 1, O.Step(cfg, s.op, e);
    var t := Apply(cfg, s, Attest(e, p, join));
    assert SeatsRead(s.seats, s.op, e, []) == s.seats;
    OperatorMoveKeeps(cfg, s, e, []);
    ConnectedSoon(cfg, s.op, e);
    NothingBegun(cfg, s.op, i);
    AttestTies(cfg, s, next, e, p, join);
    hide O.Step, P.Step, O.Inv, P.Inv, SeatsTied, PlayersJoined, Spoken, Live, FreshSighash, LegalConnect;
    hide Heard, Settled, AllExcused;
    SeatTakenHeard(next, s.seats, i, Seat(Some(p), join.number, [], [], 0, 0));
    SeatTakenExcused(s.op, next, s.seats, i, Seat(Some(p), join.number, [], [], 0, 0));
  }

  lemma MoveKeeps(cfg: Config, s: System, m: Move)
    requires Inv(cfg, s) && Legal(cfg, s, m)
    ensures Inv(cfg, Apply(cfg, s, m))
  {
    hide Inv, O.Step, P.Step, LegalOperator, SeatsRead, SeatsPosted;
    match m
    case OperatorMove(e, leftover) => OperatorMoveKeeps(cfg, s, e, leftover);
    case PlayerMove(p, e) =>
      assert PlayerLegal(s, p, e);
      PlayerMoveKeeps(cfg, s, p, e);
    case Attest(e, p, join) => AttestKeeps(cfg, s, e, p, join);
  }

  lemma InitialInv(cfg: Config, enclaves: nat)
    requires cfg.numPlayers > 0
    ensures Inv(cfg, Initial(cfg, enclaves))
  {
  }

  lemma {:induction false} RunKeeps(cfg: Config, enclaves: nat, states: seq<System>, moves: seq<Move>, k: nat)
    requires Run(cfg, enclaves, states, moves) && k < |states|
    ensures Inv(cfg, states[k])
  {
    hide Inv, Apply, Legal;
    if k == 0 {
      InitialInv(cfg, enclaves);
    } else {
      RunKeeps(cfg, enclaves, states, moves, k - 1);
      MoveKeeps(cfg, states[k - 1], moves[k - 1]);
    }
  }

  // ---- Over all runs ----

  lemma OneSignature(cfg: Config, p: P.State, h: Hash, h': Hash)
    requires P.Inv(cfg, p) && P.Signed(h) in p.log && P.Signed(h') in p.log
    ensures h == h'
  {
    var j: nat :| j < |p.log| && p.log[j] == P.Signed(h);
    var k: nat :| k < |p.log| && p.log[k] == P.Signed(h');
    assert P.Founded(cfg, p, j) && P.Founded(cfg, p, k);
  }

  // A receive that goes wrong

  /** The letter that a step takes is the one awaited. */
  predicate Expected(e: O.Event)
  {
    match e
    case Acknowledge(letter, _, _) => letter == Some(QuotesOk)
    case Deposit(letter, _, _, _, _, _) => letter.Some? && letter.value.DepositAndInput?
    case Confirm(letter, _, _, _) => letter.Some? && letter.value.ConfirmDeposits?
    case _ => true
  }

  /** A receive of the operator fails, or brings something else than the letter awaited. */
  predicate GoesWrong(s: System, m: Move)
  {
    m.OperatorMove? && OperatorReads(s.op, m.e).Some? && !Expected(m.e)
  }

  lemma GoingWrongSpoils(cfg: Config, s: System, m: Move)
    requires O.Inv(cfg, s.op) && Spoken(s.op) && GoesWrong(s, m)
    ensures Unspoiled(O.Step(cfg, s.op, m.e))
  {
    hide Letters, O.OutputOk;
  }

  lemma UnspoiledStays(cfg: Config, op: O.State, e: O.Event)
    requires O.Inv(cfg, op) && Unspoiled(op)
    ensures Unspoiled(O.Step(cfg, op, e))
  {
    var next := O.Step(cfg, op, e);
    if |next.sent| > |op.sent| {
      LettersAppend(op.sent, next.sent[|op.sent|], SetupComplete);
      assert next.sent == op.sent + [next.sent[|op.sent|]];
    }
    hide Letters, O.OutputOk;
  }

  lemma MoveUnspoiled(cfg: Config, s: System, m: Move)
    requires Inv(cfg, s) && Legal(cfg, s, m) && (Unspoiled(s.op) || GoesWrong(s, m))
    ensures Unspoiled(Apply(cfg, s, m).op)
  {
    hide O.Inv, Spoken, Unspoiled, O.Step, P.Step, Heard, SeatsTied, PlayersJoined, Settled, AllExcused;
    hide LegalOperator, LegalAttest, SeatsRead, SeatsPosted;
    if GoesWrong(s, m) {
      GoingWrongSpoils(cfg, s, m);
    } else {
      match m
      case OperatorMove(e, _) => UnspoiledStays(cfg, s.op, e);
      case PlayerMove(_, _) =>
      case Attest(e, _, _) => UnspoiledStays(cfg, s.op, e);
    }
  }

  /** Once a receive has gone wrong, the contract is given up, or does not go live any more. */
  lemma {:induction false} GoneWrong(
    cfg: Config, enclaves: nat, states: seq<System>, moves: seq<Move>, m: nat, k: nat)
    requires Run(cfg, enclaves, states, moves) && m < k < |states| && GoesWrong(states[m], moves[m])
    ensures Unspoiled(states[k].op)
    decreases k
  {
    hide Inv, Unspoiled, GoesWrong, Legal, Apply, Initial;
    RunKeeps(cfg, enclaves, states, moves, k - 1);
    if m < k - 1 {
      GoneWrong(cfg, enclaves, states, moves, m, k - 1);
    }
    MoveUnspoiled(cfg, states[k - 1], moves[k - 1]);
  }

  lemma SettlementOut(cfg: Config, op: O.State, sighash: Hash)
    requires O.Inv(cfg, op) && O.Settlement(sighash) in op.outputs
    ensures op.cleared == [sighash] && op.phase == O.FINALIZED
  {
    var o: nat :| o < |op.outputs| && op.outputs[o] == O.Settlement(sighash);
    assert O.OutputOk(cfg, op, op.outputs[o]);
  }

  lemma SettledSeat(op: O.State, seats: seq<Seat>, sighash: Hash, i: nat)
    requires Settled(op, seats) && O.Settlement(sighash) in op.outputs && i < |seats| && seats[i].player.Some?
    ensures ConfirmDeposits(Signature(seats[i].player.value + 1, sighash)) in seats[i].up
  {
    var o: nat :| o < |op.outputs| && op.outputs[o] == O.Settlement(sighash);
    assert op.outputs[o].Settlement?;
  }

  /** What a settlement says about an enclave in a slot. */
  lemma SettledPlayer(cfg: Config, s: System, sighash: Hash, i: nat, p: nat)
    requires Inv(cfg, s) && O.Settlement(sighash) in s.op.outputs && i < |s.seats| && s.seats[i].player == Some(p)
    ensures p < |s.players| && P.Inv(cfg, s.players[p]) && s.op.phase == O.FINALIZED && Live(s.op)
    ensures ConfirmDeposits(Signature(p + 1, sighash)) in s.seats[i].up && DepositAndInput(p + 1) in s.seats[i].up
    ensures Confirmed(s.op, s.players[p], Signature(p + 1, sighash))
  {
    hide O.Inv, P.Inv, Spoken, Heard, Settled, AllExcused, HasShown, Confirmed, Live, Joined;
    SettlementOut(cfg, s.op, sighash);
    SettledSeat(s.op, s.seats, sighash, i);
    assert SeatTied(s.op, s.seats[i].up, s.seats[i].number, s.players[p]) && s.players[p].me == p;
  }

  /** When a settlement has been given out, it is the one that clear_contract computed, and every player's
      enclave that sits in a slot has signed it and has signed nothing else. */
  lemma SettlementNeedsEverySignature(
    cfg: Config, enclaves: nat, states: seq<System>, moves: seq<Move>, k: nat, sighash: Hash, i: nat, signed: Hash)
    requires Run(cfg, enclaves, states, moves) && k < |states| && i < |states[k].seats|
    requires O.Settlement(sighash) in states[k].op.outputs
    ensures states[k].op.cleared == [sighash]
    ensures states[k].seats[i].player.Some? ==>
        && states[k].seats[i].player.value < |states[k].players|
        && (P.Signed(signed) in states[k].players[states[k].seats[i].player.value].log <==> signed == sighash)
  {
    RunKeeps(cfg, enclaves, states, moves, k);
    var s := states[k];
    SettlementOut(cfg, s.op, sighash);
    hide Run, Inv, P.Inv, Letters;
    if s.seats[i].player.Some? {
      SettledPlayer(cfg, s, sighash, i, s.seats[i].player.value);
      if P.Signed(signed) in s.players[s.seats[i].player.value].log {
        OneSignature(cfg, s.players[s.seats[i].player.value], sighash, signed);
      }
    }
  }

  lemma NothingWentWrong(
    cfg: Config, enclaves: nat, states: seq<System>, moves: seq<Move>, k: nat, sighash: Hash, i: nat)
    requires Run(cfg, enclaves, states, moves) && k < |states| && i < |states[k].seats|
    requires O.Settlement(sighash) in states[k].op.outputs && states[k].seats[i].player.Some?
    ensures forall m :: 0 <= m < k ==> !GoesWrong(states[m], moves[m])
  {
    RunKeeps(cfg, enclaves, states, moves, k);
    SettledPlayer(cfg, states[k], sighash, i, states[k].seats[i].player.value);
    hide Run, Inv, GoesWrong, Live, Confirmed;
    forall m | 0 <= m < k
      ensures !GoesWrong(states[m], moves[m])
    {
      if GoesWrong(states[m], moves[m]) {
        GoneWrong(cfg, enclaves, states, moves, m, k);
      }
    }
  }

  /** A settlement comes at the end of the whole exchange with every player's enclave that sits in a slot: it
      has shown its host the quotes of all slots but its own number and acknowledged, the contract has gone live,
      it has sent its deposit and its confirmation of this settlement, which was announced to it along with the
      transaction that it asks to be buried. Until then no receive of the operator has failed or brought anything
      but the letter awaited. */
  lemma SettlementEndsExchange(
    cfg: Config, enclaves: nat, states: seq<System>, moves: seq<Move>, k: nat, sighash: Hash, i: nat, p: nat)
    requires Run(cfg, enclaves, states, moves) && k < |states| && i < |states[k].seats|
    requires O.Settlement(sighash) in states[k].op.outputs && states[k].seats[i].player == Some(p)
    ensures Live(states[k].op) && p < |states[k].players|
    ensures QuotesOk in states[k].seats[i].up
    ensures HasShown(states[k].op, states[k].players[p], states[k].seats[i].number)
    ensures DepositAndInput(p + 1) in states[k].seats[i].up
    ensures ConfirmDeposits(Signature(p + 1, sighash)) in states[k].seats[i].up
    ensures ClearContract(sighash, states[k].players[p].txid) in Letters(states[k].op.sent)
    ensures forall j :: 0 <= j < |states[k].seats| ==> states[k].seats[j].leftover == []
    ensures forall m :: 0 <= m < k ==> !GoesWrong(states[m], moves[m])
  {
    RunKeeps(cfg, enclaves, states, moves, k);
    var s := states[k];
    NothingWentWrong(cfg, enclaves, states, moves, k, sighash, i);
    SettledPlayer(cfg, s, sighash, i, p);
    SetupBarrier(cfg, enclaves, states, moves, k, i, 0);
    hide Run, O.Inv, P.Inv, Spoken, SeatsTied, PlayersJoined, AllExcused, Settled, HasShown, Letters;
  }

  /** No enclave in a slot sends its deposit before the operator has announced that the contract is live. That
      is not announced before it has acknowledged the quotes, having shown its host exactly the quotes of all
      slots but the one of the number it was given; at least as long as the operator has not given up the
      contract, or no receive on the enclave's channel has failed and left something to read. */
  lemma SetupBarrier(
    cfg: Config, enclaves: nat, states: seq<System>, moves: seq<Move>, k: nat, i: nat, key: nat)
    requires Run(cfg, enclaves, states, moves) && k < |states|
    requires i < |states[k].seats| && states[k].seats[i].player.Some?
    ensures states[k].seats[i].player.value < |states[k].players|
    ensures DepositAndInput(key) in states[k].seats[i].up ==> Live(states[k].op)
    ensures Live(states[k].op) && (!GivenUp(states[k].op.phase) || states[k].seats[i].leftover == []) ==>
        && QuotesOk in states[k].seats[i].up
        && HasShown(states[k].op, states[k].players[states[k].seats[i].player.value], states[k].seats[i].number)
  {
    RunKeeps(cfg, enclaves, states, moves, k);
    var s := states[k];
    assert SeatTied(s.op, s.seats[i].up, s.seats[i].number, s.players[s.seats[i].player.value]);
    assert Live(s.op) ==> Acked(s.seats[i]);
    hide Run, O.Inv, P.Inv, Spoken, PlayersJoined, Settled, AllExcused, HasShown, Live, Confirmed;
  }

  /** Where the contract can be live without an acknowledgement: in one slot at most, not the last one, with
      only strangers in the slots before it, after a failed receive on its channel and with the operator having
      given up. With one player there is none. */
  lemma UnacknowledgedSlot(
    cfg: Config, enclaves: nat, states: seq<System>, moves: seq<Move>, k: nat, i: nat, j: nat)
    requires Run(cfg, enclaves, states, moves) && k < |states| && Live(states[k].op)
    requires i < |states[k].seats| && states[k].seats[i].player.Some? && QuotesOk !in states[k].seats[i].up
    ensures GivenUp(states[k].op.phase) && states[k].seats[i].leftover != [] && i + 1 < |states[k].seats|
    ensures j < i ==> states[k].seats[j].player.None?
    ensures i < j < |states[k].seats| && states[k].seats[j].player.Some? ==> QuotesOk in states[k].seats[j].up
  {
    RunKeeps(cfg, enclaves, states, moves, k);
    var s := states[k];
    assert Acked(s.seats[i]) && Excused(s.op, s.seats, i);
    if i < j < |s.seats| && s.seats[j].player.Some? && s.seats[j].leftover != [] {
      assert Excused(s.op, s.seats, j);
    }
    hide Run, O.Inv, P.Inv, Spoken, SeatsTied, PlayersJoined, Settled, Live;
  }

  lemma ReportsDiffer(slots: Players.Slots)
    requires O.AllFilled(slots) && DistinctReports(slots)
    ensures Layouts.Distinct(Players.ReportsOf(slots))
  {
  }

  /** What an enclave's host has been shown includes the quote and report of every other slot exactly when the
      report kept for its own slot is not among it, or an entry was shown for every slot; that is, when the number
      it was given is that of its slot, or of none. */
  lemma EveryCounterpartyShown(
    cfg: Config, enclaves: nat, states: seq<System>, moves: seq<Move>, k: nat, i: nat)
    requires Run(cfg, enclaves, states, moves) && k < |states|
    requires i < |states[k].seats| && O.AllFilled(states[k].op.slots)
    ensures |states[k].op.slots| == |states[k].seats|
    ensures var slots, number := states[k].op.slots, states[k].seats[i].number;
            var quotes, reports, shown := Players.QuotesOf(slots), Players.ReportsOf(slots), ShownTo(slots, number);
            && (Layouts.CounterpartiesShown(quotes, reports, i, shown)
                <==> !Layouts.ReportInSight(shown, reports[i]) || |shown| == |slots|)
            && (Layouts.CounterpartiesShown(quotes, reports, i, shown) <==> number == i || number >= |slots|)
  {
    RunKeeps(cfg, enclaves, states, moves, k);
    var s := states[k];
    hide Run, O.Inv, P.Inv, Heard, SeatsTied, PlayersJoined, Settled, AllExcused;
    ReportsDiffer(s.op.slots);
    Layouts.CounterpartiesShownExactly(
      Players.QuotesOf(s.op.slots), Players.ReportsOf(s.op.slots), i, s.seats[i].number);
  }

  /** What the operator keeps in the slot of an enclave that has its channel is that enclave's own quote; the
      report the enclave attested itself with is in no other slot. */
  lemma SlotHoldsOwnQuote(
    cfg: Config, enclaves: nat, states: seq<System>, moves: seq<Move>, k: nat, p: nat, i: nat)
    requires Run(cfg, enclaves, states, moves) && k < |states| && p < |states[k].players|
    requires states[k].players[p].connection.link == P.Genuine(i)
    ensures i < |states[k].seats| == |states[k].op.slots| && states[k].seats[i].player == Some(p)
    ensures states[k].seats[i].number == states[k].players[p].connection.number
    ensures states[k].op.slots[i].Some?
    ensures states[k].op.slots[i].value.quote == states[k].players[p].connection.quote
    ensures OnlyAt(states[k].op.slots, i, states[k].players[p].connection.report)
  {
    RunKeeps(cfg, enclaves, states, moves, k);
    hide Run, O.Inv, P.Inv, Spoken, Heard, SeatsTied, Settled, AllExcused;
    assert Joined(states[k].op, states[k].seats, states[k].players[p]);
  }

  /** Every quote shown vouches for the report data shown with it; how quotes are verified is the host's
      business. */
  ghost predicate Verified(shown: seq<Layouts.Shown>, vouched: Layouts.Part -> Layouts.Report)
  {
    forall j :: 0 <= j < |shown| ==> vouched(shown[j].quote) == shown[j].report
  }

  lemma {:induction false} EntryShown(
    slots: Players.Slots, i: nat, number: nat, vouched: Layouts.Part -> Layouts.Report)
    requires O.AllFilled(slots) && i < |slots| && number != i && Verified(ShownTo(slots, number), vouched)
    ensures vouched(slots[i].value.quote) == slots[i].value.report
    ensures Layouts.ReportInSight(ShownTo(slots, number), slots[i].value.report)
  {
    var shown := ShownTo(slots, number);
    Layouts.EntryInSight(Players.QuotesOf(slots), Players.ReportsOf(slots), number, i);
    var k :| 0 <= k < |shown| && shown[k].quote == slots[i].value.quote && shown[k].report == slots[i].value.report;
  }

  lemma {:induction false} OwnReportHidden(slots: Players.Slots, i: nat, report: Layouts.Report)
    requires O.AllFilled(slots) && i < |slots| && OnlyAt(slots, i, report)
    ensures !Layouts.ReportInSight(ShownTo(slots, i), report)
  {
    var shown := ShownTo(slots, i);
    forall k | 0 <= k < |shown|
      ensures shown[k].report != report
    {
      Layouts.OthersMeaning(Players.QuotesOf(slots), Players.ReportsOf(slots), i, |slots|, shown[k]);
      assert shown[k] in shown;
    }
  }

  /** How the host of a player's enclave can tell: when it has verified every quote it was shown, and its own
      enclave's quote vouches for the report data of that enclave, then it has seen every counterparty exactly
      when that report is not among those it was shown, or it was shown an entry for every player. */
  lemma HostCanTell(
    cfg: Config, enclaves: nat, states: seq<System>, moves: seq<Move>, k: nat, p: nat, i: nat,
    vouched: Layouts.Part -> Layouts.Report)
    requires Run(cfg, enclaves, states, moves) && k < |states| && p < |states[k].players|
    requires states[k].players[p].connection.link == P.Genuine(i) && O.AllFilled(states[k].op.slots)
    requires var c := states[k].players[p].connection;
             vouched(c.quote) == c.report && Verified(ShownTo(states[k].op.slots, c.number), vouched)
    ensures i < |states[k].op.slots|
    ensures var slots, c := states[k].op.slots, states[k].players[p].connection;
            var shown := ShownTo(slots, c.number);
            Layouts.CounterpartiesShown(Players.QuotesOf(slots), Players.ReportsOf(slots), i, shown)
            <==> !Layouts.ReportInSight(shown, c.report) || |shown| == |slots|
  {
    var slots, c := states[k].op.slots, states[k].players[p].connection;
    SlotHoldsOwnQuote(cfg, enclaves, states, moves, k, p, i);
    EveryCounterpartyShown(cfg, enclaves, states, moves, k, i);
    if c.number == i {
      OwnReportHidden(slots, i, c.report);
    } else {
      EntryShown(slots, i, c.number, vouched);
    }
    hide Run, Verified, ShownTo, OnlyAt;
  }

  /** Once its confirmation has gone out, an enclave gives the payout key only on the burial of the transaction
      that the operator announced along with the signed settlement. */
  lemma PayoutIsForTheSettlement(
    cfg: Config, enclaves: nat, states: seq<System>, moves: seq<Move>, k: nat, i: nat, signature: Signature,
    blocks: seq<byte>, txid: Hash, output: Option<Layouts.Part>)
    requires Run(cfg, enclaves, states, moves) && k < |states| && i < |states[k].seats|
    requires states[k].seats[i].player.Some? && states[k].seats[i].player.value < |states[k].players|
    requires ConfirmDeposits(signature) in states[k].seats[i].up
    requires P.PayoutKey(blocks, txid, output) in states[k].players[states[k].seats[i].player.value].log
    ensures ClearContract(signature.sighash, txid) in Letters(states[k].op.sent)
    ensures P.Evidence(cfg, blocks, txid)
  {
    RunKeeps(cfg, enclaves, states, moves, k);
    var s := states[k];
    var p := s.players[s.seats[i].player.value];
    assert SeatTied(s.op, s.seats[i].up, s.seats[i].number, p) && Confirmed(s.op, p, signature);
    var j: nat :| j < |p.log| && p.log[j] == P.PayoutKey(blocks, txid, output);
    assert P.Founded(cfg, p, j);
    hide Run, P.Evidence, O.Inv, Spoken, Heard;
  }

  /** In every run the operator's enclave gives out a settlement or its deposit key, never both. */
  lemma NeverBoth(
    cfg: Config, enclaves: nat, states: seq<System>, moves: seq<Move>, k: nat, sighash: Hash, blocks: seq<byte>)
    requires Run(cfg, enclaves, states, moves) && k < |states|
    ensures !(O.Settlement(sighash) in states[k].op.outputs && O.DepositKey(blocks) in states[k].op.outputs)
  {
    RunKeeps(cfg, enclaves, states, moves, k);
    var s := states[k];
    assert forall j :: 0 <= j < |s.op.outputs| ==> O.OutputOk(cfg, s.op, s.op.outputs[j]);
    hide Run;
  }

  // ---- Two runs ----

  /** One more move. */
  lemma RunExtends(cfg: Config, enclaves: nat, states: seq<System>, moves: seq<Move>, m: Move)
    requires Run(cfg, enclaves, states, moves) && Legal(cfg, states[|moves|], m)
    ensures Run(cfg, enclaves, states + [Apply(cfg, states[|moves|], m)], moves + [m])
  {
    hide LegalOperator, CanReachPlayer, Apply, Initial;
    var longer, more := states + [Apply(cfg, states[|moves|], m)], moves + [m];
    forall k | 0 <= k < |more|
      ensures Legal(cfg, longer[k], more[k]) && longer[k + 1] == Apply(cfg, longer[k], more[k])
    {
      if k < |moves| {
        assert longer[k] == states[k] && longer[k + 1] == states[k + 1] && more[k] == moves[k];
      }
    }
  }

  /** Player n as the operator registers it under some id. */
  function Registered(id: nat, n: nat): Players.Player
  {
    Players.Player(id, [], if n == 0 then [0] else [1], if n == 0 then [0] else [1])
  }

  function Joins(id: nat, n: nat): Move
    requires id > 0
  {
    var player := Registered(id, n);
    Attest(O.Connect(Some(player), true, Sent), n, P.Connect(P.Genuine(id - 1), n, player.quote, player.report))
  }

  lemma Extended(cfg: Config, states: seq<System>, moves: seq<Move>, m: Move)
    returns (longer: seq<System>, more: seq<Move>)
    requires Run(cfg, 2, states, moves) && Legal(cfg, states[|moves|], m)
    ensures Run(cfg, 2, longer, more)
    ensures |more| == |moves| + 1 && longer[|more|] == Apply(cfg, states[|moves|], m)
  {
    RunExtends(cfg, 2, states, moves, m);
    longer, more := states + [Apply(cfg, states[|moves|], m)], moves + [m];
  }

  // Numbers that are not those of the slots

  lemma FirstJoined(cfg: Config) returns (states: seq<System>, moves: seq<Move>)
    requires cfg.numPlayers == 2
    ensures Run(cfg, 2, states, moves)
    ensures var s := states[|moves|];
            && s.op == O.Initial(cfg).(slots := [None, Some(Registered(2, 0))])
            && |s.seats| == 2
            && s.seats[1] == Seat(Some(0), 0, [], [], 0, 0) && s.seats[0] == Seat(None, 0, [], [], 0, 0)
            && |s.players| == 2 && s.players[1] == P.Initial(1)
            && s.players[0].control.AwaitQuotes? && !s.players[0].crashed
            && s.players[0].connection == P.Connection(P.Genuine(1), 0, [0], [0], [])
  {
    var s := Initial(cfg, 2);
    assert s.op.slots == [None, None];
    assert Run(cfg, 2, [s], []);
    states, moves := Extended(cfg, [s], [], Joins(2, 0));
    var slots := [None, Some(Registered(2, 0))];
    assert s.op.slots[1 := Some(Registered(2, 0))] == slots;
    assert !O.AllFilled(slots) by {
      assert slots[0].None?;
    }
  }

  /** Both enclaves have joined, each in the slot of the other, and those below n have acknowledged. */
  ghost predicate Swapped(s: System, n: nat)
  {
    && s.op.slots == [Some(Registered(1, 1)), Some(Registered(2, 0))]
    && s.op.control == O.AwaitAck(0) && !s.op.crashed && |s.seats| == 2 && |s.players| == 2
    && s.op.sent == [O.Broadcast(PlayersQuotes([[1], [0]], [[1], [0]]), 2)]
    && s.seats[1].player == Some(0) && s.seats[1].number == 0 && s.seats[0].leftover == s.seats[1].leftover == []
    && (forall p :: 0 <= p < 2 ==>
          && s.players[p].connection.link == P.Genuine(1 - p) && !s.players[p].crashed
          && (if p < n then s.seats[1 - p].up == [QuotesOk]
              else s.players[p].control.AwaitQuotes? && s.players[p].connection.sent == []))
  }

  lemma SecondJoined(cfg: Config) returns (states: seq<System>, moves: seq<Move>)
    requires cfg.numPlayers == 2
    ensures Run(cfg, 2, states, moves) && Swapped(states[|moves|], 0)
  {
    states, moves := FirstJoined(cfg);
    var s := states[|moves|];
    states, moves := Extended(cfg, states, moves, Joins(1, 1));
    var slots := [Some(Registered(1, 1)), Some(Registered(2, 0))];
    assert s.op.slots[0 := Some(Registered(1, 1))] == slots;
    assert Players.QuotesOf(slots) == [[1], [0]] && Players.ReportsOf(slots) == [[1], [0]];
  }

  lemma PlayerAcknowledges(cfg: Config, p: P.State, letter: Letter)
    requires P.IsBroadcast(cfg, Some(letter)) && p.control == P.AwaitQuotes && !p.crashed
    ensures P.Step(cfg, p, P.Quotes(Some(letter), true, true, Sent)) == p.(
              control := P.AwaitComplete,
              connection := P.Posted(p.connection, QuotesOk, Sent),
              log := p.log + [P.Presented(p.connection.number,
                Layouts.Others(letter.quotes, letter.reports, p.connection.number, cfg.numPlayers))])
  {
    hide Layouts.Others, P.Posted;
  }

  lemma AcknowledgesNext(cfg: Config, states: seq<System>, moves: seq<Move>, n: nat)
    returns (longer: seq<System>, more: seq<Move>)
    requires cfg.numPlayers == 2 && Run(cfg, 2, states, moves) && n < 2 && Swapped(states[|moves|], n)
    ensures Run(cfg, 2, longer, more) && Swapped(longer[|more|], n + 1)
  {
    var s := states[|moves|];
    var letter := PlayersQuotes([[1], [0]], [[1], [0]]);
    assert SentTo(s.op.sent[..0], 1 - n) == [] && SentTo(s.op.sent, 1 - n) == [letter];
    var m := PlayerMove(n, P.Quotes(Some(letter), true, true, Sent));
    assert Legal(cfg, s, m) by {
      assert CanReachPlayer(s, s.players[n], letter);
      hide CanReachPlayer, SentTo;
    }
    PlayerAcknowledges(cfg, s.players[n], letter);
    hide Run, Legal, SentTo, CanReachPlayer, Layouts.Others, P.Step;
    longer, more := Extended(cfg, states, moves, m);
    var t := longer[|more|];
    assert t.players[1 - n] == s.players[1 - n] && t.seats[n] == s.seats[n];
    assert t.players[n].connection.sent == [QuotesOk] == t.seats[1 - n].up;
  }

  lemma BothAcknowledged(cfg: Config, states: seq<System>, moves: seq<Move>)
    returns (longer: seq<System>, more: seq<Move>)
    requires cfg.numPlayers == 2 && Run(cfg, 2, states, moves) && Swapped(states[|moves|], 2)
    ensures Run(cfg, 2, longer, more)
    ensures var s := longer[|more|];
            && Live(s.op) && O.AllFilled(s.op.slots) && |s.seats| == |s.op.slots| == 2
            && s.seats[1].player == Some(0) && s.seats[1].leftover == [] && s.seats[1].number == 0
  {
    var ack := OperatorMove(O.Acknowledge(Some(QuotesOk), true, Sent), []);
    assert !states[|moves|].players[0].crashed && !states[|moves|].players[1].crashed;
    longer, more := Extended(cfg, states, moves, ack);
    var s := longer[|more|];
    assert s.op.control == O.AwaitAck(1) && s.op.sent == states[|moves|].op.sent && s.seats[1].up == [QuotesOk];
    longer, more := Extended(cfg, longer, more, ack);
    LettersAppend(s.op.sent, O.Broadcast(SetupComplete, 2), SetupComplete);
  }

  /** The ids in the two SYN messages are exchanged on the way: report data do not cover them. Both attest
      themselves, the contract goes live, and the host of the player in slot 1 has been shown its own quote
      and not its counterparty's. */
  lemma SwappedNumbers(cfg: Config) returns (states: seq<System>, moves: seq<Move>)
    requires cfg.numPlayers == 2
    ensures Run(cfg, 2, states, moves)
    ensures var s := states[|moves|];
            && Live(s.op) && O.AllFilled(s.op.slots) && |s.seats| == 2
            && s.seats[1].player == Some(0) && s.seats[1].leftover == []
            && !Layouts.CounterpartiesShown(
                 Players.QuotesOf(s.op.slots), Players.ReportsOf(s.op.slots), 1, ShownTo(s.op.slots, s.seats[1].number))
  {
    states, moves := SecondJoined(cfg);
    states, moves := AcknowledgesNext(cfg, states, moves, 0);
    states, moves := AcknowledgesNext(cfg, states, moves, 1);
    states, moves := BothAcknowledged(cfg, states, moves);
    EveryCounterpartyShown(cfg, 2, states, moves, |moves|, 1);
    hide Run;
  }

  // An acknowledgement that nobody sent

  /** The player that the operator registers in slot j; its report is one nobody else has. */
  function Guest(j: nat): Players.Player
  {
    Players.Player(j + 1, [], [], seq(j + 1, _ => 0))
  }

  function Guests(n: nat, k: nat): (slots: Players.Slots)
    ensures |slots| == n
  {
    seq(n, j requires 0 <= j < n => if j < k then Some(Guest(j)) else None)
  }

  /** The first k slots are taken, slot i by the enclave and the others by strangers. */
  ghost predicate Taken(cfg: Config, s: System, i: nat, k: nat)
  {
    && Sized(cfg, s) && s.op.slots == Guests(cfg.numPlayers, k) && !s.op.crashed && |s.players| == 1
    && (k <= i ==> s.players == [P.Initial(0)])
    && (k > i ==> s.players[0].log == [] && s.players[0].connection.report == Guest(i).report)
    && forall j :: 0 <= j < |s.seats| ==>
         && s.seats[j].player == (if j == i && k > i then Some(0) else None)
         && (j == i ==> s.seats[j].up == [])
  }

  /** What the operator is doing. */
  ghost predicate Doing(s: System, phase: O.Phase, control: O.Control, sent: seq<O.Broadcast>)
  {
    s.op.phase == phase && s.op.control == control && s.op.sent == sent
  }

  function Quoted(n: nat): O.Broadcast
  {
    O.Broadcast(O.QuotesLetter(Guests(n, n)), n)
  }

  /** The next one joins; the last one starts the broadcast. */
  function NextJoins(i: nat, k: nat): Move
  {
    var connect := O.Connect(Some(Guest(k)), true, Sent);
    if k == i then Attest(connect, 0, P.Connect(P.Genuine(i), i, [], Guest(i).report))
    else OperatorMove(connect, [])
  }

  lemma GuestsGrow(n: nat, k: nat)
    requires k < n
    ensures Guests(n, k)[k := Some(Guest(k))] == Guests(n, k + 1)
    ensures O.AllFilled(Guests(n, k + 1)) <==> k + 1 == n
    ensures NotAmong(Guests(n, k), Guest(k).report)
  {
    assert k + 1 < n ==> Guests(n, k + 1)[k + 1].None?;
    assert forall j :: 0 <= j < k ==> |Guest(j).report| == j + 1;
  }

  lemma JoinsNext(cfg: Config, states: seq<System>, moves: seq<Move>, i: nat, k: nat, phase: O.Phase)
    returns (longer: seq<System>, more: seq<Move>)
    requires Run(cfg, 1, states, moves) && i < cfg.numPlayers && k < cfg.numPlayers
    requires Taken(cfg, states[|moves|], i, k) && Doing(states[|moves|], phase, O.Idle, [])
    ensures Run(cfg, 1, longer, more) && Taken(cfg, longer[|more|], i, k + 1)
    ensures Doing(longer[|more|], phase, if k + 1 < cfg.numPlayers then O.Idle else O.AwaitAck(0),
              if k + 1 < cfg.numPlayers then [] else [Quoted(cfg.numPlayers)])
    ensures k != i ==> forall j :: 0 <= j < cfg.numPlayers ==>
        longer[|more|].seats[j].leftover == states[|moves|].seats[j].leftover
    ensures k == i ==> longer[|more|].seats[i].leftover == []
  {
    var s, m := states[|moves|], NextJoins(i, k);
    GuestsGrow(cfg.numPlayers, k);
    assert k > i ==> |Guest(i).report| != |Guest(k).report|;
    RunExtends(cfg, 1, states, moves, m);
    longer, more := states + [Apply(cfg, s, m)], moves + [m];
    hide Run, Guests, Guest;
  }

  lemma {:induction false} Joining(
    cfg: Config, states: seq<System>, moves: seq<Move>, i: nat, k: nat, n: nat, phase: O.Phase)
    returns (longer: seq<System>, more: seq<Move>)
    requires Run(cfg, 1, states, moves) && i < n && k <= n < cfg.numPlayers
    requires Taken(cfg, states[|moves|], i, k) && Doing(states[|moves|], phase, O.Idle, [])
    ensures Run(cfg, 1, longer, more) && Taken(cfg, longer[|more|], i, n)
    ensures Doing(longer[|more|], phase, O.Idle, [])
    ensures longer[|more|].seats[i].leftover == if k > i then states[|moves|].seats[i].leftover else []
    decreases n - k
  {
    longer, more := states, moves;
    if k < n {
      longer, more := JoinsNext(cfg, states, moves, i, k, phase);
      hide Run, Taken, Doing;
      longer, more := Joining(cfg, longer, more, i, k + 1, n, phase);
    }
  }

  /** Only the enclave has joined so far, and slots up to its own are taken. */
  lemma EnclaveJoins(cfg: Config, i: nat) returns (states: seq<System>, moves: seq<Move>)
    requires i + 1 < cfg.numPlayers
    ensures Run(cfg, 1, states, moves) && Taken(cfg, states[|moves|], i, i + 1)
    ensures Doing(states[|moves|], O.INITIALIZED, O.Idle, []) && states[|moves|].seats[i].leftover == []
  {
    var s := Initial(cfg, 1);
    assert s.op.slots == Guests(cfg.numPlayers, 0);
    var m := OperatorMove(O.Initialize(true), []);
    assert Run(cfg, 1, [s], []);
    RunExtends(cfg, 1, [s], [], m);
    states, moves := [s] + [Apply(cfg, s, m)], [] + [m];
    hide Run, Guests;
    states, moves := Joining(cfg, states, moves, i, 0, i + 1, O.INITIALIZED);
  }

  /** A stranger's deposit is taken, or the enclave's receive fails and leaves an acknowledgement behind. */
  function NextDeposits(i: nat, j: nat): Move
  {
    if j < i then OperatorMove(O.Deposit(Some(DepositAndInput(0)), true, None, Sent, true, true), [])
    else OperatorMove(O.Deposit(None, true, None, Sent, true, true), [QuotesOk])
  }

  lemma DepositsNext(cfg: Config, states: seq<System>, moves: seq<Move>, i: nat, j: nat)
    returns (longer: seq<System>, more: seq<Move>)
    requires Run(cfg, 1, states, moves) && j <= i && i + 1 < cfg.numPlayers && Taken(cfg, states[|moves|], i, i + 1)
    requires Doing(states[|moves|], O.INITIALIZED, O.AwaitDeposit(j), []) && states[|moves|].seats[i].leftover == []
    ensures Run(cfg, 1, longer, more) && Taken(cfg, longer[|more|], i, i + 1)
    ensures Doing(longer[|more|], if j < i then O.INITIALIZED else O.ABORTED,
              if j < i then O.AwaitDeposit(j + 1) else O.Idle, [])
    ensures longer[|more|].seats[i].leftover == if j < i then [] else [QuotesOk]
  {
    var s, m := states[|moves|], NextDeposits(i, j);
    assert s.op.slots[j].Some?;
    RunExtends(cfg, 1, states, moves, m);
    longer, more := states + [Apply(cfg, s, m)], moves + [m];
    hide Run, Guests;
  }

  lemma {:induction false} Depositing(cfg: Config, states: seq<System>, moves: seq<Move>, i: nat, j: nat)
    returns (longer: seq<System>, more: seq<Move>)
    requires Run(cfg, 1, states, moves) && j <= i && i + 1 < cfg.numPlayers && Taken(cfg, states[|moves|], i, i + 1)
    requires Doing(states[|moves|], O.INITIALIZED, O.AwaitDeposit(j), []) && states[|moves|].seats[i].leftover == []
    ensures Run(cfg, 1, longer, more) && Taken(cfg, longer[|more|], i, i + 1)
    ensures Doing(longer[|more|], O.ABORTED, O.Idle, []) && longer[|more|].seats[i].leftover == [QuotesOk]
    decreases i - j
  {
    longer, more := DepositsNext(cfg, states, moves, i, j);
    if j < i {
      hide Run, Taken, Doing;
      longer, more := Depositing(cfg, longer, more, i, j + 1);
    }
  }

  /** clear_contract is called while later slots are empty, and fails at the enclave. */
  lemma ReceiveFailed(cfg: Config, i: nat) returns (states: seq<System>, moves: seq<Move>)
    requires i + 1 < cfg.numPlayers
    ensures Run(cfg, 1, states, moves) && Taken(cfg, states[|moves|], i, i + 1)
    ensures Doing(states[|moves|], O.ABORTED, O.Idle, []) && states[|moves|].seats[i].leftover == [QuotesOk]
  {
    states, moves := EnclaveJoins(cfg, i);
    var s, m := states[|moves|], OperatorMove(O.Clear(true), []);
    RunExtends(cfg, 1, states, moves, m);
    states, moves := states + [Apply(cfg, s, m)], moves + [m];
    hide Run, Guests;
    states, moves := Depositing(cfg, states, moves, i, 0);
  }

  /** All slots are taken, and j acknowledgements are in. */
  ghost predicate Acknowledging(cfg: Config, s: System, i: nat, j: nat)
  {
    && Taken(cfg, s, i, cfg.numPlayers) && i < |s.seats| && s.seats[i].leftover == [QuotesOk]
    && if j < cfg.numPlayers then Doing(s, O.ABORTED, O.AwaitAck(j), [Quoted(cfg.numPlayers)])
       else Doing(s, O.ABORTED, O.Idle, [Quoted(cfg.numPlayers), O.Broadcast(SetupComplete, cfg.numPlayers)])
  }

  lemma AcksNext(cfg: Config, states: seq<System>, moves: seq<Move>, i: nat, j: nat)
    returns (longer: seq<System>, more: seq<Move>)
    requires Run(cfg, 1, states, moves) && j < cfg.numPlayers && Acknowledging(cfg, states[|moves|], i, j)
    ensures Run(cfg, 1, longer, more) && Acknowledging(cfg, longer[|more|], i, j + 1)
  {
    var s, m := states[|moves|], OperatorMove(O.Acknowledge(Some(QuotesOk), true, Sent), []);
    assert CanReach(s, j, QuotesOk);
    hide SentTo, Guests, Quoted;
    RunExtends(cfg, 1, states, moves, m);
    longer, more := states + [Apply(cfg, s, m)], moves + [m];
    hide Run;
  }

  lemma {:induction false} Acking(cfg: Config, states: seq<System>, moves: seq<Move>, i: nat, j: nat)
    returns (longer: seq<System>, more: seq<Move>)
    requires Run(cfg, 1, states, moves) && j <= cfg.numPlayers && Acknowledging(cfg, states[|moves|], i, j)
    ensures Run(cfg, 1, longer, more) && Acknowledging(cfg, longer[|more|], i, cfg.numPlayers)
    decreases cfg.numPlayers - j
  {
    hide Run, Acknowledging;
    longer, more := states, moves;
    if j < cfg.numPlayers {
      longer, more := AcksNext(cfg, states, moves, i, j);
      longer, more := Acking(cfg, longer, more, i, j + 1);
    }
  }

  /** For every number of players and every slot but the last: the contract goes live although the enclave in
      that slot has shown nothing and acknowledged nothing, since its acknowledgement is read out of the leftover.
      The operator has aborted by then. */
  lemma LeftoverAcknowledges(cfg: Config, i: nat) returns (states: seq<System>, moves: seq<Move>)
    requires i + 1 < cfg.numPlayers
    ensures Run(cfg, 1, states, moves)
    ensures var s := states[|moves|];
            && Live(s.op) && |s.seats| == cfg.numPlayers && |s.players| == 1
            && s.seats[i].player == Some(0) && s.seats[i].up == [] && s.players[0].log == []
  {
    var last := cfg.numPlayers - 1;
    states, moves := ReceiveFailed(cfg, i);
    states, moves := Joining(cfg, states, moves, i, i + 1, last, O.ABORTED);
    states, moves := JoinsNext(cfg, states, moves, i, last, O.ABORTED);
    states, moves := Acking(cfg, states, moves, i, 0);
    hide Run, Guests, Guest, Quoted;
    assert Letters(states[|moves|].op.sent)[1] == SetupComplete;
  }
}
