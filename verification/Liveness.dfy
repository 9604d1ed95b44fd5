/** Runs in which everyone is honest, channels keep their order and every call to a host or library succeeds:
    no message is unexpected, nothing gets stuck, and every run that cannot go on has finished the contract. */
module Liveness {
  import opened Bytes
  import Layouts
  import opened Merkle
  import opened Options
  import Players
  import opened Wire
  import opened Protocol
  import O = Operator
  import P = Player

  /** A move an honest party makes: a host makes each call once, when the calls before it have succeeded; an
      enclave waits for its next message, whatever it is, and the network delivers that one. Enclave p joins
      under number p, unaltered on the way. The order of moves is free. */
  ghost predicate Honest(cfg: Config, s: System, m: Move)
  {
    && Legal(cfg, s, m) && |s.players| == cfg.numPlayers
    && match m
       case OperatorMove(e, _) => HonestOperator(s.op, e) && InOrderUp(s, e)
       case PlayerMove(p, e) => HonestPlayer(cfg, s.players[p], e) && InOrderDown(s, s.players[p], e)
       case Attest(e, p, join) =>
         e.player.value.id == p + 1 && join.number == p && join.link == P.Genuine(p) && e.shown && e.sending.Sent?
  }

  predicate InOrderUp(s: System, e: O.Event)
  {
    var i := OperatorReads(s.op, e);
    i.Some? ==> && i.value < |s.seats| && s.seats[i.value].upRead < |s.seats[i.value].up|
                && Incoming(e) == Some(s.seats[i.value].up[s.seats[i.value].upRead])
  }

  predicate InOrderDown(s: System, p: P.State, e: P.Event)
  {
    PlayerTakes(p, e).Some? ==>
      && p.connection.link.slot < |s.seats|
      && var channel, read := SentTo(s.op.sent, p.connection.link.slot), s.seats[p.connection.link.slot].downRead;
      read < |channel| && PlayerTakes(p, e).value == channel[read]
  }

  predicate HonestOperator(op: O.State, e: O.Event)
  {
    match e
    case Initialize(ok) => op.control.Idle? && op.phase == O.UNINITIALIZED && ok
    case Acknowledge(letter, memory, sending) => op.control.AwaitAck? && letter.Some? && memory && sending.Sent?
    case Clear(ok) => op.control.Idle? && op.phase == O.INITIALIZED && |op.sent| == 2 && ok
    case Deposit(letter, ok, settlement, sending, host, signed) =>
      op.control.AwaitDeposit? && letter.Some? && ok && settlement.Some? && sending.Sent? && host && signed
    case Finalize => op.control.Idle? && op.phase == O.CLEARED_CONTRACT
    case Confirm(letter, imported, authorized, exported) =>
      op.control.AwaitConfirm? && letter.Some? && imported && authorized && exported
    case _ => false
  }

  predicate HonestPlayer(cfg: Config, p: P.State, e: P.Event)
  {
    match e
    case Initialize(ok) => p.control.Idle? && p.phase == P.UNINITIALIZED && ok
    case Quotes(letter, shown, memory, sending) =>
      p.control.AwaitQuotes? && letter.Some? && shown && memory && sending.Sent?
    case Complete(letter) => p.control.AwaitComplete? && letter.Some?
    case Deposit(prepared, sending) =>
      p.control.Idle? && p.phase == P.INITIALIZED && p.connection.link.Genuine? && prepared && sending.Sent?
    case GetDeposits(letter, _, memory, replies) =>
      && p.control.Idle? && p.phase == P.DEPOSITED && letter.Some? && memory
      && |replies| == cfg.numPlayers + 1 && P.FirstSucceed(replies, cfg.numPlayers + 1)
    case Confirm(signed, exported, sending) =>
      p.control.Idle? && p.phase == P.GOT_DEPOSITS && signed && exported && sending.Sent?
    case _ => false
  }

  predicate Final(s: System)
  {
    s.op.phase == O.FINALIZED && forall i :: 0 <= i < |s.players| ==> s.players[i].phase == P.CONFIRMED_DEPOSITS
  }

  // ---- Where everyone is ----

  /** The three broadcasts, each to everybody. */
  ghost predicate Scripted(cfg: Config, sent: seq<O.Broadcast>)
  {
    && |sent| <= 3
    && (forall k :: 0 <= k < |sent| ==> sent[k].reached == cfg.numPlayers)
    && (|sent| > 0 ==> P.IsBroadcast(cfg, Some(sent[0].letter)))
    && (|sent| > 1 ==> sent[1].letter == SetupComplete)
    && (|sent| > 2 ==> sent[2].letter.ClearContract?)
  }

  ghost predicate SignedFor(signatures: seq<Signature>, h: Hash)
  {
    forall k :: 0 <= k < |signatures| ==> signatures[k] == Signature(k + 1, h)
  }

  predicate InTurn(keys: seq<nat>)
  {
    forall k :: 0 <= k < |keys| ==> keys[k] == k + 1
  }

  ghost predicate OperatorOk(cfg: Config, op: O.State)
  {
    && !op.crashed && |op.slots| == cfg.numPlayers && Scripted(cfg, op.sent)
    && (O.AllFilled(op.slots) <==> op.sent != [])
    && (op.phase == O.UNINITIALIZED || op.phase == O.INITIALIZED ==> |op.sent| <= 2)
    && (op.phase == O.CLEARED_CONTRACT || op.phase == O.FINALIZED ==> |op.sent| == 3)
    && (op.phase == O.CLEARED_CONTRACT ==> op.settlement == Some(op.sent[2].letter.sighash))
    && (op.phase == O.CLEARED_CONTRACT ==> op.signature == Some(Signature(0, op.sent[2].letter.sighash)))
    && (op.phase == O.CLEARED_CONTRACT ==> |op.keys| == cfg.numPlayers && InTurn(op.keys))
    && (op.phase == O.FINALIZED ==> op.outputs == [O.Settlement(op.sent[2].letter.sighash)])
    && op.phase != O.REFUNDED && op.phase != O.ABORTED
    && (op.phase != O.FINALIZED ==> op.outputs == [])
    && match op.control
       case Idle => |op.sent| != 1
       case AwaitAck(k) => k < cfg.numPlayers && |op.sent| == 1
       case AwaitDeposit(k) =>
         k == |op.keys| < cfg.numPlayers && |op.sent| == 2 && op.phase == O.INITIALIZED && InTurn(op.keys)
       case AwaitConfirm(k) =>
         && k == |op.signatures| < cfg.numPlayers && op.phase == O.CLEARED_CONTRACT && |op.sent| == 3
         && SignedFor(op.signatures, op.sent[2].letter.sighash)
  }

  /** How many letters the operator has taken from player i. */
  function Taken(op: O.State, i: nat): nat
  {
    match op.control
    case AwaitAck(k) => if i < k then 1 else 0
    case AwaitDeposit(k) => if i < k then 2 else 1
    case AwaitConfirm(k) => if i < k then 3 else 2
    case Idle => if op.phase == O.FINALIZED then 3 else if op.sent == [] then 0 else |op.sent| - 1
  }

  predicate Early(phase: P.Phase)
  {
    phase == P.UNINITIALIZED || phase == P.INITIALIZED
  }

  ghost predicate PlayerOk(op: O.State, p: P.State, down: nat)
  {
    var sent := p.connection.sent;
    && !p.crashed && p.connection.link != P.Stranger && |sent| <= 3 && down <= |op.sent| <= 3
    && (|sent| > 0 ==> sent[0] == QuotesOk)
    && (|sent| > 1 ==> sent[1] == DepositAndInput(p.me + 1))
    && (down == 3 ==> op.sent[2].letter == ClearContract(p.sighash, p.txid) && p.output.Some?)
    && (|sent| > 2 ==> down == 3 && sent[2] == ConfirmDeposits(Signature(p.me + 1, p.sighash)))
    && match p.control
       case AwaitQuotes => p.connection.link.Genuine? && Early(p.phase) && |sent| == 0 && down == 0
       case AwaitComplete => p.connection.link.Genuine? && Early(p.phase) && |sent| == 1 && down == 1
       case Idle =>
         if p.connection.link == P.NotConnected then Early(p.phase) && |sent| == 0 && down == 0
         else if Early(p.phase) then |sent| == 1 && down == 2
         else if p.phase == P.DEPOSITED then |sent| == 2 && down == 2
         else if p.phase == P.GOT_DEPOSITS then |sent| == 2 && down == 3
         else p.phase == P.CONFIRMED_DEPOSITS && |sent| == 3 && down == 3
  }

  ghost predicate PairOk(s: System, i: nat)
    requires i < |s.players| == |s.seats| == |s.op.slots|
  {
    var p, seat := s.players[i], s.seats[i];
    && p.me == i && PlayerOk(s.op, p, seat.downRead)
    && seat.up == p.connection.sent && seat.upRead == Taken(s.op, i) <= |seat.up| && seat.leftover == []
    && (s.op.slots[i].Some? <==> p.connection.link == P.Genuine(i))
    && (p.connection.link.Genuine? ==> p.connection.link.slot == i && seat.player == Some(i) && seat.number == i)
  }

  ghost predicate AllOk(cfg: Config, s: System)
  {
    && cfg.numPlayers > 0 && Sized(cfg, s) && |s.players| == cfg.numPlayers && OperatorOk(cfg, s.op)
    && forall i :: 0 <= i < cfg.numPlayers ==> PairOk(s, i)
  }

  // ---- No message is unexpected ----

  lemma {:induction false} SentToEverybody(cfg: Config, sent: seq<O.Broadcast>, i: nat)
    requires i < cfg.numPlayers && forall k :: 0 <= k < |sent| ==> sent[k].reached == cfg.numPlayers
    ensures SentTo(sent, i) == Letters(sent)
  {
    if sent != [] {
      SentToEverybody(cfg, sent[..|sent| - 1], i);
      assert Letters(sent) == Letters(sent[..|sent| - 1]) + [sent[|sent| - 1].letter];
    }
  }

  /** What the operator's enclave takes is what it waits for. */
  lemma OperatorExpects(cfg: Config, s: System, e: O.Event, leftover: seq<Letter>)
    requires AllOk(cfg, s) && Honest(cfg, s, OperatorMove(e, leftover))
    ensures e.Acknowledge? ==> e.letter == Some(QuotesOk)
    ensures e.Deposit? ==> e.letter == Some(DepositAndInput(s.op.control.i + 1))
    ensures e.Confirm? ==> e.letter == Some(ConfirmDeposits(Signature(s.op.control.i + 1, s.op.sent[2].letter.sighash)))
  {
    if e.Acknowledge? || e.Deposit? || e.Confirm? {
      assert PairOk(s, s.op.control.i);
    }
  }

  /** What a player's enclave takes is what it waits for. */
  lemma PlayerExpects(cfg: Config, s: System, i: nat, e: P.Event)
    requires AllOk(cfg, s) && Honest(cfg, s, PlayerMove(i, e))
    ensures e.Quotes? ==> P.IsBroadcast(cfg, e.letter)
    ensures e.Complete? ==> e.letter == Some(SetupComplete)
    ensures e.GetDeposits? ==> |s.op.sent| == 3 && e.letter == Some(s.op.sent[2].letter)
  {
    assert PairOk(s, i);
    SentToEverybody(cfg, s.op.sent, i);
  }

  // ---- Every honest move ----

  /** What an honest step of the operator changes for player i. */
  ghost predicate Advanced(op: O.State, next: O.State, e: O.Event, i: nat)
  {
    && op.sent <= next.sent && next.slots == op.slots
    && Taken(next, i) == Taken(op, i) + if OperatorReads(op, e) == Some(i) then 1 else 0
  }

  lemma AckOk(cfg: Config, s: System, e: O.Event, leftover: seq<Letter>, i: nat)
    requires AllOk(cfg, s) && Honest(cfg, s, OperatorMove(e, leftover)) && e.Acknowledge? && i < cfg.numPlayers
    ensures OperatorOk(cfg, O.Step(cfg, s.op, e)) && Advanced(s.op, O.Step(cfg, s.op, e), e, i)
  {
    OperatorExpects(cfg, s, e, leftover);
    hide PairOk;
  }

  lemma DepositOk(cfg: Config, s: System, e: O.Event, leftover: seq<Letter>, i: nat)
    requires AllOk(cfg, s) && Honest(cfg, s, OperatorMove(e, leftover)) && e.Deposit? && i < cfg.numPlayers
    ensures OperatorOk(cfg, O.Step(cfg, s.op, e)) && Advanced(s.op, O.Step(cfg, s.op, e), e, i)
  {
    OperatorExpects(cfg, s, e, leftover);
    hide PairOk;
  }

  /** Signatures and keys in the players' order authorize the settlement. */
  lemma InTurnAuthorizes(signatures: seq<Signature>, keys: seq<nat>, h: Hash)
    requires SignedFor(signatures, h) && InTurn(keys) && |signatures| == |keys|
    ensures O.Authorizes(Some(Signature(0, h)), signatures, keys, Some(h))
  {
    assert O.Signers(signatures) == keys;
  }

  lemma SignaturesAuthorize(cfg: Config, s: System, e: O.Event, leftover: seq<Letter>)
    requires AllOk(cfg, s) && Honest(cfg, s, OperatorMove(e, leftover)) && e.Confirm?
    ensures s.op.control.AwaitConfirm? && e.letter.Some? && e.letter.value.ConfirmDeposits?
    ensures s.op.control.i + 1 == cfg.numPlayers ==>
        O.Authorizes(s.op.signature, s.op.signatures + [e.letter.value.signature], s.op.keys, s.op.settlement)
  {
    OperatorExpects(cfg, s, e, leftover);
    hide PairOk, O.Authorizes;
    if s.op.control.i + 1 == cfg.numPlayers {
      InTurnAuthorizes(s.op.signatures + [e.letter.value.signature], s.op.keys, s.op.sent[2].letter.sighash);
    }
  }

  lemma ConfirmOk(cfg: Config, s: System, e: O.Event, leftover: seq<Letter>, i: nat)
    requires AllOk(cfg, s) && Honest(cfg, s, OperatorMove(e, leftover)) && e.Confirm? && i < cfg.numPlayers
    ensures OperatorOk(cfg, O.Step(cfg, s.op, e)) && Advanced(s.op, O.Step(cfg, s.op, e), e, i)
  {
    OperatorExpects(cfg, s, e, leftover);
    SignaturesAuthorize(cfg, s, e, leftover);
    hide PairOk, O.Authorizes;
  }

  lemma CallOk(cfg: Config, s: System, e: O.Event, leftover: seq<Letter>, i: nat)
    requires AllOk(cfg, s) && Honest(cfg, s, OperatorMove(e, leftover)) && i < cfg.numPlayers
    requires !e.Acknowledge? && !e.Deposit? && !e.Confirm?
    ensures OperatorOk(cfg, O.Step(cfg, s.op, e)) && Advanced(s.op, O.Step(cfg, s.op, e), e, i)
  {
    hide PairOk;
  }

  lemma OperatorStepOk(cfg: Config, s: System, e: O.Event, leftover: seq<Letter>, i: nat)
    requires AllOk(cfg, s) && Honest(cfg, s, OperatorMove(e, leftover)) && i < cfg.numPlayers
    ensures OperatorOk(cfg, O.Step(cfg, s.op, e)) && Advanced(s.op, O.Step(cfg, s.op, e), e, i)
  {
    if e.Acknowledge? {
      AckOk(cfg, s, e, leftover, i);
    } else if e.Deposit? {
      DepositOk(cfg, s, e, leftover, i);
    } else if e.Confirm? {
      ConfirmOk(cfg, s, e, leftover, i);
    } else {
      CallOk(cfg, s, e, leftover, i);
    }
  }

  /** What a step of the operator leaves as it is. */
  lemma SeatAfterRead(s: System, e: O.Event, leftover: seq<Letter>, i: nat)
    requires i < |s.seats| && s.seats[i].upRead <= |s.seats[i].up| && InOrderUp(s, e)
    ensures var seat := SeatsRead(s.seats, s.op, e, leftover)[i];
            && seat.player == s.seats[i].player && seat.number == s.seats[i].number && seat.up == s.seats[i].up
            && seat.leftover == s.seats[i].leftover && seat.downRead == s.seats[i].downRead
            && seat.upRead == s.seats[i].upRead + (if OperatorReads(s.op, e) == Some(i) then 1 else 0) <= |seat.up|
  {
    hide OperatorReads, Incoming;
  }

  lemma PairStays(op: O.State, next: O.State, p: P.State, down: nat)
    requires PlayerOk(op, p, down) && op.sent <= next.sent && |next.sent| <= 3
    ensures PlayerOk(next, p, down)
  {
  }

  lemma OperatorMoveOk(cfg: Config, s: System, e: O.Event, leftover: seq<Letter>)
    requires AllOk(cfg, s) && Honest(cfg, s, OperatorMove(e, leftover))
    ensures AllOk(cfg, Apply(cfg, s, OperatorMove(e, leftover)))
  {
    var t := Apply(cfg, s, OperatorMove(e, leftover));
    OperatorStepOk(cfg, s, e, leftover, 0);
    hide O.Step, HonestOperator, Taken, PlayerOk, LegalOperator;
    forall i | 0 <= i < cfg.numPlayers
      ensures PairOk(t, i)
    {
      OperatorStepOk(cfg, s, e, leftover, i);
      assert PairOk(s, i);
      SeatAfterRead(s, e, leftover, i);
      PairStays(s.op, t.op, s.players[i], s.seats[i].downRead);
      hide SeatsRead, InOrderUp, OperatorReads, OperatorOk;
    }
  }

  /** An honest step of a player, given that the letter it takes is the right one. */
  lemma PlayerAdvances(cfg: Config, op: O.State, p: P.State, down: nat, e: P.Event)
    requires PlayerOk(op, p, down) && HonestPlayer(cfg, p, e)
    requires PlayerTakes(p, e).Some? ==> down < |op.sent|
    requires e.Quotes? ==> P.IsBroadcast(cfg, e.letter)
    requires e.Complete? ==> e.letter == Some(SetupComplete)
    requires e.GetDeposits? ==>
        |op.sent| == 3 && op.sent[2].letter.ClearContract? && e.letter == Some(op.sent[2].letter)
    ensures PlayerOk(op, P.Step(cfg, p, e), down + if PlayerTakes(p, e).Some? then 1 else 0)
    ensures var next := P.Step(cfg, p, e);
            && SameConnection(p.connection, next.connection)
            && next.connection.link == p.connection.link && next.me == p.me
  {
    hide Layouts.Others;
  }

  lemma PlayerStepOk(cfg: Config, s: System, i: nat, e: P.Event)
    requires AllOk(cfg, s) && Honest(cfg, s, PlayerMove(i, e))
    ensures PairOk(Apply(cfg, s, PlayerMove(i, e)), i)
  {
    assert PairOk(s, i);
    PlayerExpects(cfg, s, i, e);
    SentToEverybody(cfg, s.op.sent, i);
    PlayerAdvances(cfg, s.op, s.players[i], s.seats[i].downRead, e);
    hide P.Step, Taken, PlayerOk, HonestPlayer, SentTo, OperatorOk;
  }

  lemma OthersStay(cfg: Config, s: System, i: nat, e: P.Event, k: nat)
    requires AllOk(cfg, s) && Honest(cfg, s, PlayerMove(i, e)) && k < cfg.numPlayers && k != i
    ensures var t := Apply(cfg, s, PlayerMove(i, e));
            && t.op == s.op && |t.players| == |t.seats| == cfg.numPlayers
            && t.players[k] == s.players[k] && t.seats[k] == s.seats[k]
  {
    assert PairOk(s, i);
    hide P.Step, PlayerOk, OperatorOk, Taken, HonestPlayer, SentTo;
  }

  lemma PlayerMoveOk(cfg: Config, s: System, i: nat, e: P.Event)
    requires AllOk(cfg, s) && Honest(cfg, s, PlayerMove(i, e))
    ensures AllOk(cfg, Apply(cfg, s, PlayerMove(i, e)))
  {
    PlayerStepOk(cfg, s, i, e);
    var t := Apply(cfg, s, PlayerMove(i, e));
    assert t.op == s.op && |t.players| == |t.seats| == cfg.numPlayers;
    hide Apply, Legal, Honest, OperatorOk, Taken, PlayerOk;
    forall k | 0 <= k < cfg.numPlayers && k != i
      ensures PairOk(t, k)
    {
      OthersStay(cfg, s, i, e, k);
      assert PairOk(s, k);
    }
  }

  /** A slot nobody is in belongs to an enclave that has not joined. */
  lemma NotJoined(s: System, i: nat)
    requires i < |s.players| == |s.seats| == |s.op.slots| && PairOk(s, i) && s.op.slots[i].None?
    ensures s.players[i].connection.link == P.NotConnected && s.players[i].control.Idle?
    ensures s.players[i].connection.sent == [] && s.seats[i].downRead == 0 && Early(s.players[i].phase)
  {
  }

  lemma AttestOperator(cfg: Config, s: System, e: O.Event, p: nat, join: P.Event)
    requires AllOk(cfg, s) && Honest(cfg, s, Attest(e, p, join))
    ensures var next := O.Step(cfg, s.op, e);
            && OperatorOk(cfg, next) && next.slots == s.op.slots[p := e.player]
            && s.op.sent == [] && |next.sent| <= 1 && next.phase == s.op.phase
            && (forall k :: 0 <= k < cfg.numPlayers ==> Taken(next, k) == Taken(s.op, k) == 0)
  {
    assert s.op.sent == [] by {
      assert s.op.slots[p].None?;
    }
    hide PairOk;
  }

  lemma AttestOk(cfg: Config, s: System, e: O.Event, p: nat, join: P.Event)
    requires AllOk(cfg, s) && Honest(cfg, s, Attest(e, p, join))
    ensures AllOk(cfg, Apply(cfg, s, Attest(e, p, join)))
  {
    var t := Apply(cfg, s, Attest(e, p, join));
    AttestOperator(cfg, s, e, p, join);
    NotJoined(s, p);
    forall k | 0 <= k < cfg.numPlayers
      ensures PairOk(t, k)
    {
      assert PairOk(s, k);
    }
    hide PairOk, O.Step, OperatorOk, Taken;
  }

  lemma MoveOk(cfg: Config, s: System, m: Move)
    requires AllOk(cfg, s) && Honest(cfg, s, m)
    ensures AllOk(cfg, Apply(cfg, s, m))
  {
    match m
    case OperatorMove(e, leftover) => OperatorMoveOk(cfg, s, e, leftover);
    case PlayerMove(i, e) => PlayerMoveOk(cfg, s, i, e);
    case Attest(e, p, join) => AttestOk(cfg, s, e, p, join);
  }

  // ---- Every honest run ends ----

  /** How far the operator has come, from 0 to 3N + 4. */
  function OperatorProgress(cfg: Config, op: O.State): nat
  {
    (if op.phase == O.UNINITIALIZED then 0 else 1)
    + match op.control
      case AwaitAck(k) => 1 + k
      case AwaitDeposit(k) => cfg.numPlayers + 2 + k
      case AwaitConfirm(k) => 2 * cfg.numPlayers + 3 + k
      case Idle =>
        if op.phase == O.FINALIZED then 3 * cfg.numPlayers + 3
        else if |op.sent| == 3 then 2 * cfg.numPlayers + 2
        else if |op.sent| == 2 then cfg.numPlayers + 1
        else 0
  }

  /** How far a player has come, from 0 to 8. */
  function PlayerProgress(p: P.State, down: nat): nat
  {
    (if p.phase == P.UNINITIALIZED then 0 else 1) + (if p.connection.link == P.NotConnected then 0 else 1)
    + |p.connection.sent| + down
  }

  function PlayersProgress(players: seq<P.State>, seats: seq<Seat>): nat
    requires |players| == |seats|
  {
    if players == [] then 0
    else
      var last := |players| - 1;
      PlayersProgress(players[..last], seats[..last]) + PlayerProgress(players[last], seats[last].downRead)
  }

  function Progress(cfg: Config, s: System): nat
    requires |s.players| == |s.seats|
  {
    OperatorProgress(cfg, s.op) + PlayersProgress(s.players, s.seats)
  }

  lemma {:induction false} OnePlayerMoves(players: seq<P.State>, seats: seq<Seat>, i: nat, p: P.State, seat: Seat)
    requires i < |players| == |seats|
    ensures PlayersProgress(players[i := p], seats[i := seat])
         == PlayersProgress(players, seats)
          - PlayerProgress(players[i], seats[i].downRead) + PlayerProgress(p, seat.downRead)
  {
    var last := |players| - 1;
    if i < last {
      OnePlayerMoves(players[..last], seats[..last], i, p, seat);
      assert players[i := p][..last] == players[..last][i := p] && seats[i := seat][..last] == seats[..last][i := seat];
    } else {
      assert players[i := p][..last] == players[..last] && seats[i := seat][..last] == seats[..last];
    }
  }

  lemma {:induction false} PlayersBounded(op: O.State, players: seq<P.State>, seats: seq<Seat>)
    requires |players| == |seats| && forall i :: 0 <= i < |players| ==> PlayerOk(op, players[i], seats[i].downRead)
    ensures PlayersProgress(players, seats) <= 8 * |players|
  {
    if players != [] {
      var last := |players| - 1;
      assert PlayerOk(op, players[last], seats[last].downRead);
      hide PlayerOk;
      PlayersBounded(op, players[..last], seats[..last]);
    }
  }

  lemma ProgressBounded(cfg: Config, s: System)
    requires AllOk(cfg, s)
    ensures Progress(cfg, s) <= 11 * cfg.numPlayers + 4
  {
    forall i | 0 <= i < cfg.numPlayers
      ensures PlayerOk(s.op, s.players[i], s.seats[i].downRead)
    {
      assert PairOk(s, i);
    }
    PlayersBounded(s.op, s.players, s.seats);
    hide PlayersProgress, PlayerOk;
  }

  lemma OperatorAdvances(cfg: Config, s: System, e: O.Event, leftover: seq<Letter>)
    requires AllOk(cfg, s) && Honest(cfg, s, OperatorMove(e, leftover))
    ensures OperatorProgress(cfg, O.Step(cfg, s.op, e)) > OperatorProgress(cfg, s.op)
  {
    OperatorExpects(cfg, s, e, leftover);
    if e.Confirm? {
      SignaturesAuthorize(cfg, s, e, leftover);
    }
    hide PairOk, O.Authorizes;
  }

  lemma PlayerProgresses(cfg: Config, s: System, i: nat, e: P.Event)
    requires AllOk(cfg, s) && Honest(cfg, s, PlayerMove(i, e))
    ensures PlayerProgress(s.players[i], s.seats[i].downRead)
          < PlayerProgress(P.Step(cfg, s.players[i], e),
              s.seats[i].downRead + if PlayerTakes(s.players[i], e).Some? then 1 else 0)
  {
    assert PairOk(s, i);
    PlayerExpects(cfg, s, i, e);
    hide Layouts.Others, Taken;
  }

  lemma EveryMoveAdvances(cfg: Config, s: System, m: Move)
    requires AllOk(cfg, s) && Honest(cfg, s, m)
    ensures AllOk(cfg, Apply(cfg, s, m)) && Progress(cfg, Apply(cfg, s, m)) > Progress(cfg, s)
  {
    MoveOk(cfg, s, m);
    match m
    case OperatorMove(e, leftover) =>
      OperatorAdvances(cfg, s, e, leftover);
      ReadingMovesNoPlayer(s, e, leftover);
    case PlayerMove(i, e) => PlayerMoveAdvances(cfg, s, i, e);
    case Attest(e, p, join) => AttestAdvances(cfg, s, e, p, join);
  }

  lemma ReadingMovesNoPlayer(s: System, e: O.Event, leftover: seq<Letter>)
    requires |s.players| == |s.seats|
    ensures PlayersProgress(s.players, SeatsRead(s.seats, s.op, e, leftover)) == PlayersProgress(s.players, s.seats)
  {
    var i := OperatorReads(s.op, e);
    if i.Some? && i.value < |s.seats| {
      var seat := SeatRead(s.seats[i.value], Incoming(e), leftover);
      OnePlayerMoves(s.players, s.seats, i.value, s.players[i.value], seat);
      assert s.players[i.value := s.players[i.value]] == s.players;
    }
    hide PlayersProgress, PlayerProgress;
  }

  lemma PlayerMoveAdvances(cfg: Config, s: System, i: nat, e: P.Event)
    requires AllOk(cfg, s) && Honest(cfg, s, PlayerMove(i, e))
    ensures Progress(cfg, Apply(cfg, s, PlayerMove(i, e))) > Progress(cfg, s)
  {
    var t := Apply(cfg, s, PlayerMove(i, e));
    assert PairOk(s, i);
    PlayerProgresses(cfg, s, i, e);
    OnePlayerMoves(s.players, s.seats, i, t.players[i], t.seats[i]);
    hide PlayersProgress, PlayerProgress, P.Step, PlayerOk, Taken;
    assert t.seats == s.seats[i := t.seats[i]];
  }

  lemma AttestAdvances(cfg: Config, s: System, e: O.Event, p: nat, join: P.Event)
    requires AllOk(cfg, s) && Honest(cfg, s, Attest(e, p, join))
    ensures Progress(cfg, Apply(cfg, s, Attest(e, p, join))) > Progress(cfg, s)
  {
    var t := Apply(cfg, s, Attest(e, p, join));
    NotJoined(s, p);
    OnePlayerMoves(s.players, s.seats, p, t.players[p], t.seats[p]);
    AttestOperator(cfg, s, e, p, join);
    hide PlayersProgress, O.Step, PairOk, Taken;
  }

  // ---- Nothing gets stuck ----

  /** A player from whom the operator has everything it sent, and who is not done, can move. */
  lemma PlayerCanMove(cfg: Config, s: System, i: nat) returns (m: Move)
    requires AllOk(cfg, s) && i < cfg.numPlayers
    requires s.players[i].connection.link.Genuine? && s.seats[i].upRead == |s.seats[i].up| < |s.op.sent|
    ensures Honest(cfg, s, m)
  {
    assert PairOk(s, i);
    SentToEverybody(cfg, s.op.sent, i);
    var p, down := s.players[i], s.seats[i].downRead;
    var next := if down < |s.op.sent| then Some(Letters(s.op.sent)[down]) else None;
    if p.control.AwaitQuotes? {
      return PlayerMove(i, P.Quotes(next, true, true, Sent));
    } else if p.control.AwaitComplete? {
      return PlayerMove(i, P.Complete(next));
    } else if p.phase == P.UNINITIALIZED {
      return PlayerMove(i, P.Initialize(true));
    } else if p.phase == P.INITIALIZED {
      return PlayerMove(i, P.Deposit(true, Sent));
    } else if p.phase == P.DEPOSITED {
      return PlayerMove(i, P.GetDeposits(next, [], true, seq(cfg.numPlayers + 1, _ => true)));
    } else {
      return PlayerMove(i, P.Confirm(true, true, Sent));
    }
  }

  /** While it waits for player k, the operator takes the next letter, or the player can move. */
  lemma WaitingCanMove(cfg: Config, s: System) returns (m: Move)
    requires AllOk(cfg, s) && !s.op.control.Idle?
    ensures Honest(cfg, s, m)
  {
    var k := s.op.control.i;
    assert PairOk(s, k);
    if s.seats[k].upRead == |s.seats[k].up| {
      m := PlayerCanMove(cfg, s, k);
      return;
    }
    var next := Some(s.seats[k].up[s.seats[k].upRead]);
    var issued: Option<(Hash, Hash)> := Some((P.ZeroHash(), P.ZeroHash()));
    if s.op.control.AwaitAck? {
      return OperatorMove(O.Acknowledge(next, true, Sent), []);
    } else if s.op.control.AwaitDeposit? {
      forall i | 0 <= i < |s.seats|
        ensures s.seats[i].leftover == []
      {
        assert PairOk(s, i);
      }
      return OperatorMove(O.Deposit(next, true, issued, Sent, true, true), []);
    } else {
      return OperatorMove(O.Confirm(next, true, true, true), []);
    }
  }

  /** Report data that nobody has had yet. */
  function NewReport(slots: Players.Slots): (r: Layouts.Report)
    ensures forall i :: 0 <= i < |slots| && slots[i].Some? ==> |slots[i].value.report| < |r|
  {
    if slots == [] then [0]
    else
      var last := slots[|slots| - 1];
      var others := NewReport(slots[..|slots| - 1]);
      if last.Some? && |last.value.report| >= |others| then last.value.report + [0] else others
  }

  function NewerReport(players: seq<P.State>, report: Layouts.Report): (r: Layouts.Report)
    ensures |report| <= |r| && forall p :: 0 <= p < |players| ==> |players[p].connection.report| < |r|
  {
    if players == [] then report
    else
      var last := players[|players| - 1].connection.report;
      var others := NewerReport(players[..|players| - 1], report);
      if |last| >= |others| then last + [0] else others
  }

  /** Somebody is not connected yet, and can be. */
  lemma ConnectingCanMove(cfg: Config, s: System) returns (m: Move)
    requires AllOk(cfg, s) && s.op.control.Idle? && s.op.sent == []
    ensures Honest(cfg, s, m)
  {
    var i: nat :| i < |s.op.slots| && s.op.slots[i].None?;
    NotJoined(s, i);
    var report := NewerReport(s.players, NewReport(s.op.slots));
    var player := Players.Player(i + 1, [], [], report);
    assert PairOk(s, i);
    assert FreshReport(s.op.slots, player) && Unattested(s.players, report);
    hide PairOk, NewReport, NewerReport;
    return Attest(O.Connect(Some(player), true, Sent), i, P.Connect(P.Genuine(i), i, [], report));
  }

  lemma FinishedIsFinal(cfg: Config, s: System)
    requires AllOk(cfg, s) && s.op.control.Idle? && s.op.phase == O.FINALIZED
    ensures Final(s)
  {
    forall i | 0 <= i < |s.players|
      ensures s.players[i].phase == P.CONFIRMED_DEPOSITS
    {
      assert PairOk(s, i);
    }
  }

  /** There is an honest move in every state but a final one. */
  lemma NothingGetsStuck(cfg: Config, s: System) returns (m: Move)
    requires AllOk(cfg, s) && !Final(s)
    ensures Honest(cfg, s, m)
  {
    if !s.op.control.Idle? {
      m := WaitingCanMove(cfg, s);
    } else if s.op.sent == [] {
      m := ConnectingCanMove(cfg, s);
    } else if s.op.phase == O.UNINITIALIZED {
      return OperatorMove(O.Initialize(true), []);
    } else if s.op.phase == O.INITIALIZED {
      return OperatorMove(O.Clear(true), []);
    } else if s.op.phase == O.CLEARED_CONTRACT {
      return OperatorMove(O.Finalize, []);
    } else {
      FinishedIsFinal(cfg, s);
      assert false;
    }
  }

  // ---- Over all honest runs ----

  ghost predicate HonestRun(cfg: Config, states: seq<System>, moves: seq<Move>)
  {
    && Run(cfg, cfg.numPlayers, states, moves)
    && forall k :: 0 <= k < |moves| ==> Honest(cfg, states[k], moves[k])
  }

  lemma InitialOk(cfg: Config)
    requires cfg.numPlayers > 0
    ensures AllOk(cfg, Initial(cfg, cfg.numPlayers))
  {
    var s := Initial(cfg, cfg.numPlayers);
    forall i | 0 <= i < cfg.numPlayers
      ensures PairOk(s, i)
    {
    }
    assert s.op.slots[0].None?;
  }

  lemma {:induction false} HonestRunOk(cfg: Config, states: seq<System>, moves: seq<Move>, k: nat)
    requires HonestRun(cfg, states, moves) && k < |states|
    ensures AllOk(cfg, states[k]) && Progress(cfg, states[k]) >= k
  {
    hide AllOk, Progress, Honest, Apply, Legal;
    if k == 0 {
      InitialOk(cfg);
    } else {
      HonestRunOk(cfg, states, moves, k - 1);
      assert Honest(cfg, states[k - 1], moves[k - 1]);
      EveryMoveAdvances(cfg, states[k - 1], moves[k - 1]);
    }
  }

  /** An honest run has at most 11N + 4 moves, and one that nobody can prolong has ended with the settlement
      given out, the operator finalized and every player's deposits confirmed. */
  lemma HonestRunsFinish(cfg: Config, states: seq<System>, moves: seq<Move>)
    requires HonestRun(cfg, states, moves)
    ensures |moves| <= 11 * cfg.numPlayers + 4
    ensures (forall m :: !Honest(cfg, states[|moves|], m)) ==> Final(states[|moves|])
    ensures Final(states[|moves|]) ==>
        |states[|moves|].op.sent| == 3 && states[|moves|].op.sent[2].letter.ClearContract?
        && states[|moves|].op.outputs == [O.Settlement(states[|moves|].op.sent[2].letter.sighash)]
  {
    var s := states[|moves|];
    HonestRunOk(cfg, states, moves, |moves|);
    ProgressBounded(cfg, s);
    if !Final(s) {
      var m := NothingGetsStuck(cfg, s);
      assert Honest(cfg, s, m);
    }
    hide Progress, Honest, Run, PairOk;
  }

  /** When an honest run has ended, bytes in which the announced transaction is buried deep enough get every player
      the payout key and an output, and no others do. */
  lemma ContractPaysOut(cfg: Config, states: seq<System>, moves: seq<Move>, i: nat, blocks: seq<byte>)
    requires HonestRun(cfg, states, moves) && Final(states[|moves|]) && i < |states[|moves|].players|
    ensures |states[|moves|].op.sent| == 3 && states[|moves|].op.sent[2].letter.ClearContract?
    ensures var p, announced := states[|moves|].players[i], states[|moves|].op.sent[2].letter;
            var t := P.Step(cfg, p, P.Settle(blocks, true));
            && p.output.Some?
            && (P.DeepEnough(cfg, announced.txid, blocks) ==>
                  t.phase == P.SETTLED && t.log == p.log + [P.PayoutKey(blocks, announced.txid, p.output)])
            && (!P.DeepEnough(cfg, announced.txid, blocks) ==> t.phase == p.phase && t.log == p.log)
  {
    var s := states[|moves|];
    HonestRunOk(cfg, states, moves, |moves|);
    assert PairOk(s, i);
    hide HonestRun, P.DeepEnough, P.Step;
    PlayerPaysOut(cfg, s.players[i], blocks);
  }

  lemma PlayerPaysOut(cfg: Config, p: P.State, blocks: seq<byte>)
    requires p.control.Idle? && !p.crashed && p.phase == P.CONFIRMED_DEPOSITS
    ensures var t := P.Step(cfg, p, P.Settle(blocks, true));
            if P.DeepEnough(cfg, p.txid, blocks)
            then t.phase == P.SETTLED && t.log == p.log + [P.PayoutKey(blocks, p.txid, p.output)]
            else t.phase == p.phase && t.log == p.log
  {
    hide *;
    P.SettleMeaning(cfg, p, blocks, true);
    P.DeepEnoughGetsThrough(cfg, p.txid, blocks);
  }

  predicate NobodyFailed(s: System)
  {
    && s.op.phase != O.ABORTED && !s.op.crashed
    && forall p :: 0 <= p < |s.players| ==> s.players[p].phase != P.ABORTED && !s.players[p].crashed
  }

  lemma OkHasNotFailed(cfg: Config, s: System)
    requires AllOk(cfg, s)
    ensures NobodyFailed(s)
  {
    forall p | 0 <= p < |s.players|
      ensures s.players[p].phase != P.ABORTED && !s.players[p].crashed
    {
      assert PairOk(s, p);
    }
  }

  /** In an honest run every message is the one its receiver waits for, and no enclave aborts or crashes. */
  lemma NoUnexpectedMessage(cfg: Config, states: seq<System>, moves: seq<Move>, k: nat)
    requires HonestRun(cfg, states, moves) && k < |moves|
    ensures match moves[k]
            case OperatorMove(e, _) =>
              && (e.Acknowledge? ==> e.letter == Some(QuotesOk))
              && (e.Deposit? ==> e.letter == Some(DepositAndInput(states[k].op.control.i + 1)))
              && (e.Confirm? ==> e.letter.Some? && e.letter.value.ConfirmDeposits?)
            case PlayerMove(i, e) =>
              && (e.Quotes? ==> P.IsBroadcast(cfg, e.letter))
              && (e.Complete? ==> e.letter == Some(SetupComplete))
              && (e.GetDeposits? ==> e.letter.Some? && e.letter.value.ClearContract?)
            case Attest(_, _, _) => true
    ensures NobodyFailed(states[k + 1])
  {
    HonestRunOk(cfg, states, moves, k);
    HonestRunOk(cfg, states, moves, k + 1);
    hide Progress, Run;
    assert Honest(cfg, states[k], moves[k]);
    OkHasNotFailed(cfg, states[k + 1]);
    match moves[k]
    case OperatorMove(e, leftover) => OperatorExpects(cfg, states[k], e, leftover);
    case PlayerMove(i, e) => PlayerExpects(cfg, states[k], i, e);
    case Attest(_, _, _) =>
  }

  /** In an honest run every player is shown all counterparties' quotes, and not its own. */
  lemma HonestPlayersSeeEveryone(cfg: Config, states: seq<System>, moves: seq<Move>, k: nat, i: nat)
    requires HonestRun(cfg, states, moves) && k < |states| && i < cfg.numPlayers && O.AllFilled(states[k].op.slots)
    ensures |states[k].seats| == |states[k].op.slots| == cfg.numPlayers
    ensures var slots, shown := states[k].op.slots, ShownTo(states[k].op.slots, states[k].seats[i].number);
            && Layouts.CounterpartiesShown(Players.QuotesOf(slots), Players.ReportsOf(slots), i, shown)
            && !Layouts.ReportInSight(shown, slots[i].value.report)
  {
    HonestRunOk(cfg, states, moves, k);
    assert PairOk(states[k], i);
    var slots := states[k].op.slots;
    Layouts.OthersMeaning(
      Players.QuotesOf(slots), Players.ReportsOf(slots), i, |slots|, Layouts.Shown(0, [], []));
    EveryCounterpartyShown(cfg, cfg.numPlayers, states, moves, k, i);
    hide Run, Progress, OperatorOk, PlayerOk, Taken;
  }
}
