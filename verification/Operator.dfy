/** The operator's enclave: its state machine and what every ECALL does. */
module Operator {
  import opened Blocks
  import opened Bytes
  import opened Merkle
  import opened Options
  import opened Players
  import opened Wire

  datatype Phase = UNINITIALIZED | INITIALIZED | CLEARED_CONTRACT | FINALIZED | REFUNDED | ABORTED

  /** Where the enclave is: between ECALLs, or inside one and waiting for a message of player i (from 0). */
  datatype Control = Idle | AwaitAck(i: nat) | AwaitDeposit(i: nat) | AwaitConfirm(i: nat)

  /** A letter sent to the players 0, 1, ... one after the other; it reached the first few of them. */
  datatype Broadcast = Broadcast(letter: Letter, reached: nat)

  datatype Output = Settlement(sighash: Hash) | DepositKey(blocks: seq<byte>)

  /** sent, cleared and outputs are histories: letters, computed settlements, releases to the host. */
  datatype State = State(
    phase: Phase,
    wallet: bool,
    slots: Slots,
    control: Control,
    settlement: Option<Hash>,
    keys: seq<nat>,
    signature: Option<Signature>,
    signatures: seq<Signature>,
    crashed: bool,
    sent: seq<Broadcast>,
    cleared: seq<Hash>,
    outputs: seq<Output>)

  function Initial(cfg: Config): State
  {
    State(UNINITIALIZED, false, seq(cfg.numPlayers, _ => None), Idle, None, [], None, [], false, [], [], [])
  }

  /** One ECALL up to its first message, or the handling of one message inside an ECALL. Flags tell how
      calls to the library, to the allocator and to the host go; None is a failed receive. */
  datatype Event =
    | Initialize(ok: bool)
    | Connect(player: Option<Player>, shown: bool, sending: Sending)
    | Acknowledge(letter: Option<Letter>, memory: bool, sending: Sending)
    | Clear(ok: bool)
    | Deposit(
        letter: Option<Letter>, ok: bool, settlement: Option<(Hash, Hash)>, sending: Sending, host: bool, signed: bool)
    | Finalize
    | Confirm(letter: Option<Letter>, imported: bool, authorized: bool, exported: bool)
    | Refund(blocks: seq<byte>, exported: bool)

  predicate AllFilled(slots: Slots)
  {
    forall i :: 0 <= i < |slots| ==> slots[i].Some?
  }

  /** The broadcast: every player's quote with the report data it has to vouch for. */
  function QuotesLetter(slots: Slots): Letter
    requires AllFilled(slots)
  {
    PlayersQuotes(QuotesOf(slots), ReportsOf(slots))
  }

  function Signers(signatures: seq<Signature>): (r: seq<nat>)
    ensures |r| == |signatures|
  {
    seq(|signatures|, k requires 0 <= k < |signatures| => signatures[k].signer)
  }

  /** Authorization succeeds only with one signature on the settlement under every deposit's key, the
      operator's own among them. The library finds out which is whose. */
  predicate Authorizes(
    signature: Option<Signature>, signatures: seq<Signature>, keys: seq<nat>, settlement: Option<Hash>)
  {
    && settlement.Some? && signature.Some? && signature.value.sighash == settlement.value
    && multiset([signature.value.signer] + Signers(signatures)) == multiset([0] + keys)
    && forall k :: 0 <= k < |signatures| ==> signatures[k].sighash == settlement.value
  }

  // ---- One step ----

  function Step(cfg: Config, s: State, e: Event): State
  {
    if s.crashed then s
    else match s.control
      case AwaitAck(i) => if e.Acknowledge? then OnAck(cfg, s, i, e) else s
      case AwaitDeposit(i) => if e.Deposit? then OnDeposit(cfg, s, i, e) else s
      case AwaitConfirm(i) => if e.Confirm? then OnConfirm(cfg, s, i, e) else s
      case Idle =>
        match e
        case Initialize(ok) =>
          if s.phase == UNINITIALIZED && ok then s.(phase := INITIALIZED, wallet := true) else s
        case Connect(_, _, _) => OnConnect(cfg, s, e)
        case Clear(ok) =>
          if s.phase != INITIALIZED then s
          else if !ok then s.(phase := ABORTED)
          else s.(control := AwaitDeposit(0), keys := [])
        case Finalize =>
          if s.phase != CLEARED_CONTRACT then s else s.(control := AwaitConfirm(0), signatures := [])
        case Refund(blocks, exported) => OnRefund(cfg, s, blocks, exported)
        case _ => s
  }

  /** A player who gets through attestation is registered; the last one starts the broadcast of quotes. */
  function OnConnect(cfg: Config, s: State, e: Event): State
    requires e.Connect?
  {
    if e.player.None? || !IdOk(s.slots, e.player.value.id) then s
    else
      var joined := s.(slots := s.slots[e.player.value.id - 1 := e.player]);
      if !AllFilled(joined.slots) || !e.shown then joined
      else
        var reached := Reached(e.sending, cfg.numPlayers);
        var asked := joined.(sent := s.sent + [Broadcast(QuotesLetter(joined.slots), reached)]);
        if e.sending.Sent? then asked.(control := AwaitAck(0)) else asked
  }

  function OnAck(cfg: Config, s: State, i: nat, e: Event): State
    requires e.Acknowledge?
  {
    if e.letter != Some(QuotesOk) then s.(control := Idle)
    else if i + 1 < cfg.numPlayers then s.(control := AwaitAck(i + 1))
    else Complete(cfg, s, e)
  }

  /** With all acknowledgements in, everyone is told that the contract is live. */
  function Complete(cfg: Config, s: State, e: Event): State
    requires e.Acknowledge?
  {
    if !e.memory then s.(control := Idle)
    else s.(control := Idle, sent := s.sent + [Broadcast(SetupComplete, Reached(e.sending, cfg.numPlayers))])
  }

  function Abort(s: State): State
  {
    s.(control := Idle, phase := ABORTED, settlement := None)
  }

  function OnDeposit(cfg: Config, s: State, i: nat, e: Event): State
    requires e.Deposit?
  {
    if i >= |s.slots| || s.slots[i].None? then s.(crashed := true)
    else if e.letter.None? || !e.letter.value.DepositAndInput? || !e.ok then Abort(s)
    else
      var got := s.(keys := s.keys + [e.letter.value.key]);
      if i + 1 < cfg.numPlayers then got.(control := AwaitDeposit(i + 1)) else Issue(cfg, got, e)
  }

  /** With all deposits in, the settlement is computed, its hashes are sent out, and it is signed. */
  function Issue(cfg: Config, s: State, e: Event): State
    requires e.Deposit?
  {
    if e.settlement.None? then Abort(s)
    else
      var (sighash, txid) := e.settlement.value;
      var told := s.(
        cleared := s.cleared + [sighash],
        sent := s.sent + [Broadcast(ClearContract(sighash, txid), Reached(e.sending, cfg.numPlayers))]);
      if !e.sending.Sent? || !e.host || !e.signed then Abort(told)
      else told.(
        control := Idle, phase := CLEARED_CONTRACT,
        settlement := Some(sighash), signature := Some(Signature(0, sighash)))
  }

  function OnConfirm(cfg: Config, s: State, i: nat, e: Event): State
    requires e.Confirm?
  {
    if e.letter.None? || !e.letter.value.ConfirmDeposits? || !e.imported then s.(control := Idle, phase := ABORTED)
    else
      var got := s.(signatures := s.signatures + [e.letter.value.signature]);
      if i + 1 < cfg.numPlayers then got.(control := AwaitConfirm(i + 1)) else Authorize(cfg, got, e)
  }

  /** With all signatures in, the authorized settlement goes to the host, whose answer is ignored. */
  function Authorize(cfg: Config, s: State, e: Event): State
    requires e.Confirm?
  {
    if !e.authorized || !e.exported || !Authorizes(s.signature, s.signatures, s.keys, s.settlement)
    then s.(control := Idle, phase := ABORTED, settlement := None)
    else s.(
      control := Idle, phase := FINALIZED, settlement := None,
      outputs := s.outputs + [Settlement(s.settlement.value)])
  }

  /** Nothing but the evidence is asked for; without a wallet there is no key to read. */
  function OnRefund(cfg: Config, s: State, blocks: seq<byte>, exported: bool): State
  {
    if s.phase == FINALIZED || ChainLength(cfg.net, blocks) < cfg.refundDelay then s
    else if !s.wallet then s.(crashed := true)
    else if !exported then s
    else s.(phase := REFUNDED, outputs := s.outputs + [DepositKey(blocks)])
  }

  function Replay(cfg: Config, s: State, events: seq<Event>): State
  {
    if events == [] then s else Step(cfg, Replay(cfg, s, events[..|events| - 1]), events[|events| - 1])
  }

  // ---- Over all runs ----

  /** What every step keeps. */
  ghost predicate Inv(cfg: Config, s: State)
  {
    && |s.slots| == cfg.numPlayers
    && s.wallet == (s.phase != UNINITIALIZED)
    && (s.control.AwaitDeposit? ==> s.phase == INITIALIZED)
    && (s.control.AwaitDeposit? ==> s.control.i <= |s.slots| && AllFilled(s.slots[..s.control.i]))
    && (s.control.AwaitConfirm? ==> s.phase == CLEARED_CONTRACT)
    && (s.control.AwaitAck? ==> AllFilled(s.slots) && s.phase != CLEARED_CONTRACT)
    && (s.phase == CLEARED_CONTRACT || s.phase == FINALIZED ==> AllFilled(s.slots))
    && |s.cleared| <= 1
    && (s.phase == UNINITIALIZED || s.phase == INITIALIZED ==> s.cleared == [])
    && (s.settlement.Some? ==> s.cleared == [s.settlement.value])
    && (s.phase == CLEARED_CONTRACT ==> s.settlement.Some?)
    && (s.phase == FINALIZED ==> |s.outputs| == 1)
    && (forall k :: 0 <= k < |s.outputs| ==> OutputOk(cfg, s, s.outputs[k]))
    && (forall k :: 0 <= k < |s.sent| ==> s.sent[k].letter.ClearContract? ==> s.cleared == [s.sent[k].letter.sighash])
  }

  predicate OutputOk(cfg: Config, s: State, output: Output)
  {
    match output
    case Settlement(h) => s.phase == FINALIZED && s.cleared == [h]
    case DepositKey(blocks) => s.phase == REFUNDED && ChainLength(cfg.net, blocks) >= cfg.refundDelay
  }

  lemma ConnectKeeps(cfg: Config, s: State, e: Event)
    requires Inv(cfg, s) && s.control.Idle? && e.Connect?
    ensures Inv(cfg, OnConnect(cfg, s, e))
  {
    hide ChainLength;
  }

  lemma AckKeeps(cfg: Config, s: State, i: nat, e: Event)
    requires Inv(cfg, s) && s.control == AwaitAck(i) && e.Acknowledge?
    ensures Inv(cfg, OnAck(cfg, s, i, e))
  {
    hide ChainLength;
  }

  lemma DepositKeeps(cfg: Config, s: State, i: nat, e: Event)
    requires Inv(cfg, s) && s.control == AwaitDeposit(i) && e.Deposit?
    ensures Inv(cfg, OnDeposit(cfg, s, i, e))
  {
    hide ChainLength;
  }

  lemma ConfirmKeeps(cfg: Config, s: State, i: nat, e: Event)
    requires Inv(cfg, s) && s.control == AwaitConfirm(i) && e.Confirm?
    ensures Inv(cfg, OnConfirm(cfg, s, i, e))
  {
    assert |s.outputs| > 0 ==> OutputOk(cfg, s, s.outputs[0]);
    hide ChainLength;
  }

  lemma RefundKeeps(cfg: Config, s: State, blocks: seq<byte>, exported: bool)
    requires Inv(cfg, s) && s.control.Idle?
    ensures Inv(cfg, OnRefund(cfg, s, blocks, exported))
  {
    hide ChainLength;
  }

  lemma StepKeeps(cfg: Config, s: State, e: Event)
    requires Inv(cfg, s)
    ensures Inv(cfg, Step(cfg, s, e))
  {
    hide OnConnect, OnAck, OnDeposit, OnConfirm, OnRefund;
    if s.crashed {
    } else if s.control.AwaitAck? {
      if e.Acknowledge? { AckKeeps(cfg, s, s.control.i, e); }
    } else if s.control.AwaitDeposit? {
      if e.Deposit? { DepositKeeps(cfg, s, s.control.i, e); }
    } else if s.control.AwaitConfirm? {
      if e.Confirm? { ConfirmKeeps(cfg, s, s.control.i, e); }
    } else if e.Connect? {
      ConnectKeeps(cfg, s, e);
    } else if e.Refund? {
      RefundKeeps(cfg, s, e.blocks, e.exported);
    }
  }

  lemma {:induction false} ReplayKeeps(cfg: Config, s: State, events: seq<Event>)
    requires Inv(cfg, s)
    ensures Inv(cfg, Replay(cfg, s, events))
  {
    if events != [] {
      ReplayKeeps(cfg, s, events[..|events| - 1]);
      StepKeeps(cfg, Replay(cfg, s, events[..|events| - 1]), events[|events| - 1]);
    }
  }

  /** Whatever the players, the network and the host do: the operator's enclave never gives out both a
      settlement and its deposit key, computes at most one settlement, releases no other and that one
      once, and gives out the key only on a long enough chain. */
  lemma {:induction false} SettlementExcludesRefund(cfg: Config, events: seq<Event>)
    ensures var s := Replay(cfg, Initial(cfg), events);
            && |s.cleared| <= 1
            && forall j :: 0 <= j < |s.outputs| ==>
                 if s.outputs[j].Settlement? then s.cleared == [s.outputs[j].sighash] && |s.outputs| == 1
                 else ChainLength(cfg.net, s.outputs[j].blocks) >= cfg.refundDelay
    ensures var outputs := Replay(cfg, Initial(cfg), events).outputs;
            forall j, k :: 0 <= j < |outputs| && 0 <= k < |outputs| ==>
              !(outputs[j].Settlement? && outputs[k].DepositKey?)
  {
    ReplayKeeps(cfg, Initial(cfg), events);
    var s := Replay(cfg, Initial(cfg), events);
    assert forall j :: 0 <= j < |s.outputs| ==> OutputOk(cfg, s, s.outputs[j]);
    hide Replay, ChainLength;
  }

  ghost predicate InitializesAt(cfg: Config, events: seq<Event>, k: nat)
    requires k < |events|
  {
    var before := Replay(cfg, Initial(cfg), events[..k]);
    events[k] == Initialize(true) && before.control.Idle? && !before.crashed
  }

  lemma LeavesTheStart(cfg: Config, s: State, e: Event)
    requires Inv(cfg, s)
    ensures Step(cfg, s, e).phase == UNINITIALIZED
       <==> s.phase == UNINITIALIZED && !(e == Initialize(true) && s.control.Idle? && !s.crashed)
  {
    hide ChainLength, OutputOk, Authorizes;
  }

  /** The enclave has left its first phase exactly when an initialization outside the other ECALLs has succeeded. */
  lemma {:induction false} InitializedExactly(cfg: Config, events: seq<Event>)
    ensures Replay(cfg, Initial(cfg), events).phase != UNINITIALIZED
       <==> exists k: nat :: k < |events| && InitializesAt(cfg, events, k)
  {
    if events != [] {
      var n := |events| - 1;
      var first := events[..n];
      ReplayKeeps(cfg, Initial(cfg), first);
      LeavesTheStart(cfg, Replay(cfg, Initial(cfg), first), events[n]);
      InitializedExactly(cfg, first);
      forall k: nat | k < n
        ensures InitializesAt(cfg, events, k) == InitializesAt(cfg, first, k)
      {
        assert first[..k] == events[..k];
      }
      assert InitializesAt(cfg, events, n) <==>
        events[n] == Initialize(true)
        && Replay(cfg, Initial(cfg), first).control.Idle? && !Replay(cfg, Initial(cfg), first).crashed;
      hide Step, Inv, InitializesAt;
      if k: nat :| k < n && InitializesAt(cfg, first, k) {
        assert InitializesAt(cfg, events, k);
      }
      if k: nat :| k < n + 1 && InitializesAt(cfg, events, k) {
        assert k < n ==> InitializesAt(cfg, first, k);
      }
    }
  }

  // ---- When the settlement goes out ----

  /** The signatures on a hash that the holders of the keys make. */
  function Stamped(keys: seq<nat>, sighash: Hash): (r: seq<Signature>)
    ensures |r| == |keys|
  {
    seq(|keys|, k requires 0 <= k < |keys| => Signature(keys[k], sighash))
  }

  lemma {:induction false} StampedCount(keys: seq<nat>, sighash: Hash, x: Signature)
    ensures multiset(Stamped(keys, sighash))[x] == if x.sighash == sighash then multiset(keys)[x.signer] else 0
  {
    if keys != [] {
      var first, stamps := keys[..|keys| - 1], Stamped(keys, sighash);
      StampedCount(first, sighash, x);
      assert keys == first + [keys[|keys| - 1]];
      assert stamps == Stamped(first, sighash) + [Signature(keys[|keys| - 1], sighash)];
    }
  }

  predicate AllOn(signatures: seq<Signature>, sighash: Hash)
  {
    forall k :: 0 <= k < |signatures| ==> signatures[k].sighash == sighash
  }

  /** Signatures are those of the keys, each as often as the key occurs, exactly when they are on the same hash
      and their signers are the keys. */
  lemma {:induction false} SignersAreKeys(signatures: seq<Signature>, keys: seq<nat>, sighash: Hash)
    ensures multiset(signatures) == multiset(Stamped(keys, sighash))
       <==> multiset(Signers(signatures)) == multiset(keys) && AllOn(signatures, sighash)
  {
    var signers: seq<nat> := Signers(signatures);
    if AllOn(signatures, sighash) {
      assert signatures == Stamped(signers, sighash);
      forall x: Signature
        ensures multiset(Stamped(keys, sighash))[x] == if x.sighash == sighash then multiset(keys)[x.signer] else 0
        ensures multiset(signatures)[x] == if x.sighash == sighash then multiset(signers)[x.signer] else 0
      {
        StampedCount(keys, sighash, x);
        StampedCount(signers, sighash, x);
      }
      if multiset(signatures) == multiset(Stamped(keys, sighash)) {
        forall k: nat
          ensures multiset(signers)[k] == multiset(keys)[k]
        {
          assert multiset(signatures)[Signature(k, sighash)] == multiset(signers)[k];
        }
      }
    } else {
      var k :| 0 <= k < |signatures| && signatures[k].sighash != sighash;
      StampedCount(keys, sighash, signatures[k]);
      assert signatures[k] in multiset(signatures);
    }
  }

  lemma SignersOfMore(signature: Signature, signatures: seq<Signature>)
    ensures Signers([signature] + signatures) == [signature.signer] + Signers(signatures)
  {
  }

  lemma AllOnMore(signature: Signature, signatures: seq<Signature>, sighash: Hash)
    ensures AllOn([signature] + signatures, sighash) == (signature.sighash == sighash && AllOn(signatures, sighash))
  {
    var all := [signature] + signatures;
    assert all[0] == signature && forall k :: 0 <= k < |signatures| ==> all[k + 1] == signatures[k];
  }

  lemma AuthorizesInParts(signature: Signature, signatures: seq<Signature>, keys: seq<nat>, sighash: Hash)
    ensures Authorizes(Some(signature), signatures, keys, Some(sighash))
       <==> && signature.sighash == sighash && AllOn(signatures, sighash)
            && multiset([signature.signer] + Signers(signatures)) == multiset([0] + keys)
  {
    hide Signers;
  }

  /** What authorization asks for, in terms of the signatures alone. */
  lemma {:induction false} AuthorizesExactly(
    signature: Signature, signatures: seq<Signature>, keys: seq<nat>, sighash: Hash)
    ensures Authorizes(Some(signature), signatures, keys, Some(sighash))
       <==> multiset([signature] + signatures) == multiset(Stamped([0] + keys, sighash))
  {
    AuthorizesInParts(signature, signatures, keys, sighash);
    SignersOfMore(signature, signatures);
    AllOnMore(signature, signatures, sighash);
    SignersAreKeys([signature] + signatures, [0] + keys, sighash);
    hide *;
  }

  lemma {:induction false} AuthorizeReleases(cfg: Config, s: State, e: Event, sighash: Hash)
    requires e.Confirm?
    ensures Authorize(cfg, s, e).outputs == s.outputs + [Settlement(sighash)]
       <==> && e.authorized && e.exported && s.settlement == Some(sighash) && s.signature.Some?
            && multiset([s.signature.value] + s.signatures) == multiset(Stamped([0] + s.keys, sighash))
  {
    if s.signature.Some? && s.settlement.Some? {
      AuthorizesExactly(s.signature.value, s.signatures, s.keys, s.settlement.value);
    } else {
      NothingAuthorized(s, s.signatures);
    }
    hide Stamped, Authorizes;
    var released := s.outputs + [Settlement(sighash)];
    assert |released| == |s.outputs| + 1 && released[|s.outputs|] == Settlement(sighash);
  }

  /** Without an authorization there is at most a deposit key. */
  lemma OthersRelease(cfg: Config, s: State, e: Event)
    requires !(s.control.AwaitConfirm? && e.Confirm?)
    ensures var t := Step(cfg, s, e);
            t.outputs == s.outputs || (e.Refund? && t.outputs == s.outputs + [DepositKey(e.blocks)])
  {
    hide ChainLength;
  }

  /** A step puts a settlement out exactly when it takes the last confirmation, the library authorizes and
      exports, the settlement is the one kept, and the operator's signature and those taken are the signatures
      on it of key 0 and of every deposit's key, each as often as the key occurs, and no others. */
  lemma {:induction false} SettlementReleased(cfg: Config, s: State, e: Event, sighash: Hash)
    ensures Step(cfg, s, e).outputs == s.outputs + [Settlement(sighash)]
       <==> && !s.crashed && s.control.AwaitConfirm? && s.control.i + 1 >= cfg.numPlayers
            && e.Confirm? && e.letter.Some? && e.letter.value.ConfirmDeposits?
            && e.imported && e.authorized && e.exported
            && s.settlement == Some(sighash) && s.signature.Some?
            && multiset([s.signature.value] + (s.signatures + [e.letter.value.signature]))
            == multiset(Stamped([0] + s.keys, sighash))
  {
    var released := s.outputs + [Settlement(sighash)];
    assert |released| == |s.outputs| + 1 && released[|s.outputs|] == Settlement(sighash);
    hide Stamped, Authorize;
    if s.control.AwaitConfirm? && e.Confirm? {
      if e.letter.Some? && e.letter.value.ConfirmDeposits? {
        AuthorizeReleases(cfg, s.(signatures := s.signatures + [e.letter.value.signature]), e, sighash);
      }
    } else {
      OthersRelease(cfg, s, e);
      hide Step;
      if e.Refund? {
        assert (s.outputs + [DepositKey(e.blocks)])[|s.outputs|] == DepositKey(e.blocks);
      }
    }
  }

  lemma NothingAuthorized(s: State, signatures: seq<Signature>)
    requires s.signature.None? || s.settlement.None?
    ensures !Authorizes(s.signature, signatures, s.keys, s.settlement)
  {
  }

  /** Over every run: a settlement that is out was put out by one event, and at that point the signatures on it
      of key 0 and of every deposit's key had been taken, each as often as the key occurs, and no others. */
  lemma {:induction false} SettlementIsFullySigned(cfg: Config, events: seq<Event>, j: nat) returns (k: nat)
    requires j < |Replay(cfg, Initial(cfg), events).outputs|
    requires Replay(cfg, Initial(cfg), events).outputs[j].Settlement?
    ensures k < |events| && events[k].Confirm? && events[k].letter.Some? && events[k].letter.value.ConfirmDeposits?
    ensures var before := Replay(cfg, Initial(cfg), events[..k]);
            && before.signature.Some?
            && multiset([before.signature.value] + (before.signatures + [events[k].letter.value.signature]))
            == multiset(Stamped([0] + before.keys, Replay(cfg, Initial(cfg), events).outputs[j].sighash))
  {
    var n := |events| - 1;
    var before, e := Replay(cfg, Initial(cfg), events[..n]), events[n];
    var after := Replay(cfg, Initial(cfg), events);
    assert after == Step(cfg, before, e);
    OutputsGrow(cfg, before, e);
    hide Replay, Step, Stamped;
    if j < |before.outputs| {
      k := SettlementIsFullySigned(cfg, events[..n], j);
      assert events[..n][..k] == events[..k];
    } else {
      k := n;
      assert after.outputs == after.outputs[..j] + [after.outputs[j]];
      SettlementReleased(cfg, before, e, after.outputs[j].sighash);
    }
  }

  lemma OutputsGrow(cfg: Config, s: State, e: Event)
    ensures var t := Step(cfg, s, e);
            t.outputs == s.outputs || (|t.outputs| == |s.outputs| + 1 && t.outputs[..|s.outputs|] == s.outputs)
  {
    hide Authorizes, ChainLength;
  }

  // ---- The enclave ----

  predicate Continues(e: Event)
  {
    e.Acknowledge? || e.Deposit? || e.Confirm?
  }

  /** When an ECALL has returned or crashed, later messages change nothing. */
  lemma {:induction false} ReturnedEarly(cfg: Config, s: State, events: seq<Event>, k: nat)
    requires k <= |events| && forall j :: k <= j < |events| ==> Continues(events[j])
    requires Replay(cfg, s, events[..k]).control.Idle? || Replay(cfg, s, events[..k]).crashed
    ensures Replay(cfg, s, events) == Replay(cfg, s, events[..k])
    decreases |events|
  {
    if k == |events| {
      assert events[..k] == events;
    } else {
      var before := events[..|events| - 1];
      assert before[..k] == events[..k];
      ReturnedEarly(cfg, s, before, k);
    }
  }

  lemma {:induction false} ReplayNext(cfg: Config, s: State, events: seq<Event>, k: nat)
    requires k < |events|
    ensures Replay(cfg, s, events[..k + 1]) == Step(cfg, Replay(cfg, s, events[..k]), events[k])
  {
    assert events[..k + 1][..k] == events[..k];
  }

  lemma {:induction false} ReplayFirst(cfg: Config, s: State, events: seq<Event>)
    requires events != []
    ensures Replay(cfg, s, events[..1]) == Step(cfg, s, events[0])
  {
    ReplayNext(cfg, s, events, 0);
    assert events[..0] == [];
  }

  /** The ECALLs as a function of the messages that come in: the first event is the call. */
  function ConnectEvents(cfg: Config, call: Event, letters: seq<Option<Letter>>, memory: bool, sending: Sending):
      (r: seq<Event>)
    requires |letters| == cfg.numPlayers
    ensures |r| == cfg.numPlayers + 1
  {
    [call] + seq(cfg.numPlayers, k requires 0 <= k < cfg.numPlayers => Acknowledge(letters[k], memory, sending))
  }

  function ClearEvents(
    cfg: Config, ok: bool, letters: seq<Option<Letter>>, oks: seq<bool>,
    settlement: Option<(Hash, Hash)>, sending: Sending, host: bool, signed: bool): (r: seq<Event>)
    requires |letters| == |oks| == cfg.numPlayers
    ensures |r| == cfg.numPlayers + 1
  {
    [Clear(ok)] + seq(cfg.numPlayers, k requires 0 <= k < cfg.numPlayers =>
                      Deposit(letters[k], oks[k], settlement, sending, host, signed))
  }

  function FinalizeEvents(
    cfg: Config, letters: seq<Option<Letter>>, imported: seq<bool>, authorized: bool, exported: bool): (r: seq<Event>)
    requires |letters| == |imported| == cfg.numPlayers
    ensures |r| == cfg.numPlayers + 1
  {
    [Finalize] + seq(cfg.numPlayers, k requires 0 <= k < cfg.numPlayers =>
                     Confirm(letters[k], imported[k], authorized, exported))
  }

  // ---- Whole ECALLs ----

  predicate GoodDeposit(s: State, letters: seq<Option<Letter>>, oks: seq<bool>, i: nat)
    requires i < |letters| && i < |oks|
  {
    i < |s.slots| && s.slots[i].Some? && letters[i].Some? && letters[i].value.DepositAndInput? && oks[i]
  }

  /** The deposit keys named by the first n letters, as far as they are deposits. */
  function KeysOf(letters: seq<Option<Letter>>, n: nat): (r: seq<nat>)
    requires n <= |letters|
    ensures |r| == n
    ensures forall k :: 0 <= k < n && letters[k].Some? && letters[k].value.DepositAndInput? ==>
        r[k] == letters[k].value.key
  {
    seq(n, k requires 0 <= k < n =>
      if letters[k].Some? && letters[k].value.DepositAndInput? then letters[k].value.key else 0)
  }

  lemma KeysOfNext(letters: seq<Option<Letter>>, i: nat)
    requires i < |letters| && letters[i].Some? && letters[i].value.DepositAndInput?
    ensures KeysOf(letters, i + 1) == KeysOf(letters, i) + [letters[i].value.key]
  {
  }

  /** The enclave inside clearing the contract, waiting for deposit i. */
  function AtDeposit(s: State, letters: seq<Option<Letter>>, i: nat): State
    requires i <= |letters|
  {
    s.(control := AwaitDeposit(i), keys := KeysOf(letters, i))
  }

  lemma OneDeposit(cfg: Config, s: State, letters: seq<Option<Letter>>, oks: seq<bool>, i: nat, e: Event)
    requires i < |letters| == |oks| && !s.crashed && e.Deposit? && e.letter == letters[i] && e.ok == oks[i]
    ensures var got := AtDeposit(s, letters, i);
            var t := Step(cfg, got, e);
            if !GoodDeposit(s, letters, oks, i) then
              && (t.crashed || t.control.Idle?)
              && t == if i >= |s.slots| || s.slots[i].None? then got.(crashed := true) else Abort(got)
            else if i + 1 < cfg.numPlayers then t == AtDeposit(s, letters, i + 1)
            else t == Issue(cfg, got.(keys := KeysOf(letters, i + 1)), e)
  {
    if GoodDeposit(s, letters, oks, i) {
      KeysOfNext(letters, i);
    }
    hide KeysOf, Issue;
  }

  lemma ClearingStarts(cfg: Config, s: State, letters: seq<Option<Letter>>)
    requires s.control.Idle? && !s.crashed && s.phase == INITIALIZED
    ensures Step(cfg, s, Clear(true)) == AtDeposit(s, letters, 0)
  {
    assert KeysOf(letters, 0) == [];
  }

  lemma ClearEventsAt(
    cfg: Config, letters: seq<Option<Letter>>, oks: seq<bool>,
    issued: Option<(Hash, Hash)>, sending: Sending, host: bool, signed: bool, i: nat)
    requires i < cfg.numPlayers == |letters| == |oks|
    ensures var events := ClearEvents(cfg, true, letters, oks, issued, sending, host, signed);
            && events[0] == Clear(true)
            && (i > 0 ==> events[i] == Deposit(letters[i - 1], oks[i - 1], issued, sending, host, signed))
            && events[i + 1] == Deposit(letters[i], oks[i], issued, sending, host, signed)
            && forall k :: i + 2 <= k < |events| ==> Continues(events[k])
  {
  }

  lemma {:induction false} DepositsTaken(
    cfg: Config, s: State, letters: seq<Option<Letter>>, oks: seq<bool>,
    issued: Option<(Hash, Hash)>, sending: Sending, host: bool, signed: bool, i: nat)
    requires i < cfg.numPlayers == |letters| == |oks|
    requires s.control.Idle? && !s.crashed && s.phase == INITIALIZED
    requires forall j :: 0 <= j < i ==> GoodDeposit(s, letters, oks, j)
    ensures var events := ClearEvents(cfg, true, letters, oks, issued, sending, host, signed);
            Replay(cfg, s, events[..i + 1]) == AtDeposit(s, letters, i)
  {
    hide *;
    var events := ClearEvents(cfg, true, letters, oks, issued, sending, host, signed);
    ClearEventsAt(cfg, letters, oks, issued, sending, host, signed, i);
    if i == 0 {
      ReplayFirst(cfg, s, events);
      ClearingStarts(cfg, s, letters);
    } else {
      DepositsTaken(cfg, s, letters, oks, issued, sending, host, signed, i - 1);
      ReplayNext(cfg, s, events, i);
      OneDeposit(cfg, s, letters, oks, i - 1, events[i]);
    }
  }

  /** The loop gets to an empty slot. */
  predicate LooksIntoEmpty(s: State, letters: seq<Option<Letter>>, oks: seq<bool>, i: nat)
    requires i < |letters| && i < |oks|
  {
    (i >= |s.slots| || s.slots[i].None?) && forall j :: 0 <= j < i ==> GoodDeposit(s, letters, oks, j)
  }

  /** The end of clearing the contract: every effect as a condition on what comes in. */
  ghost predicate Cleared(
    cfg: Config, s: State, t: State, letters: seq<Option<Letter>>, oks: seq<bool>,
    issued: Option<(Hash, Hash)>, sending: Sending, host: bool, signed: bool)
    requires cfg.numPlayers == |letters| == |oks|
  {
    var n := cfg.numPlayers;
    var good := forall i :: 0 <= i < n ==> GoodDeposit(s, letters, oks, i);
    var done := good && issued.Some? && sending.Sent? && host && signed;
    && t.wallet == s.wallet && t.slots == s.slots && t.outputs == s.outputs && t.signatures == s.signatures
    && (t.crashed <==> exists i: nat :: i < n && LooksIntoEmpty(s, letters, oks, i))
    && (!t.crashed ==> t.control == Idle && t.phase == if done then CLEARED_CONTRACT else ABORTED)
    && (t.crashed ==> t.phase == INITIALIZED)
    // The settlement's hashes go out to as many as sending reaches
    && (t.cleared == if good && issued.Some? then s.cleared + [issued.value.0] else s.cleared)
    && (t.sent == if good && issued.Some?
        then s.sent + [Broadcast(ClearContract(issued.value.0, issued.value.1), Reached(sending, n))] else s.sent)
    && (done ==> t.settlement == Some(issued.value.0) && t.signature == Some(Signature(0, issued.value.0)))
    && (!done ==> t.signature == s.signature && (t.crashed || t.settlement == None))
    && (good ==> t.keys == KeysOf(letters, n))
  }

  lemma {:induction false} ClearedEarly(
    cfg: Config, s: State, t: State, letters: seq<Option<Letter>>, oks: seq<bool>,
    issued: Option<(Hash, Hash)>, sending: Sending, host: bool, signed: bool, i: nat)
    requires i < cfg.numPlayers == |letters| == |oks| && !GoodDeposit(s, letters, oks, i)
    requires !s.crashed && s.phase == INITIALIZED && forall j :: 0 <= j < i ==> GoodDeposit(s, letters, oks, j)
    requires var got := AtDeposit(s, letters, i);
             t == if i >= |s.slots| || s.slots[i].None? then got.(crashed := true) else Abort(got)
    ensures Cleared(cfg, s, t, letters, oks, issued, sending, host, signed)
  {
    hide KeysOf, Reached;
    forall k: nat | k < cfg.numPlayers && LooksIntoEmpty(s, letters, oks, k)
      ensures k == i
    {
      assert k < i ==> GoodDeposit(s, letters, oks, k);
    }
    assert t.crashed ==> LooksIntoEmpty(s, letters, oks, i);
  }

  lemma {:induction false} ClearedLast(
    cfg: Config, s: State, t: State, letters: seq<Option<Letter>>, oks: seq<bool>, issued: Option<(Hash, Hash)>,
    sending: Sending, host: bool, signed: bool, e: Event)
    requires 0 < cfg.numPlayers == |letters| == |oks|
    requires !s.crashed && s.phase == INITIALIZED
    requires forall j :: 0 <= j < cfg.numPlayers ==> GoodDeposit(s, letters, oks, j)
    requires e.Deposit? && e.settlement == issued && e.sending == sending && e.host == host && e.signed == signed
    requires t == Issue(cfg, AtDeposit(s, letters, cfg.numPlayers - 1).(keys := KeysOf(letters, cfg.numPlayers)), e)
    ensures Cleared(cfg, s, t, letters, oks, issued, sending, host, signed)
  {
    hide KeysOf, Reached;
    forall k: nat | k < cfg.numPlayers
      ensures !LooksIntoEmpty(s, letters, oks, k)
    {
      assert GoodDeposit(s, letters, oks, k);
    }
  }

  lemma {:induction false} DepositStep(
    cfg: Config, s: State, letters: seq<Option<Letter>>, oks: seq<bool>,
    issued: Option<(Hash, Hash)>, sending: Sending, host: bool, signed: bool, i: nat)
    requires i < cfg.numPlayers == |letters| == |oks|
    requires s.control.Idle? && !s.crashed && s.phase == INITIALIZED
    requires forall j :: 0 <= j < i ==> GoodDeposit(s, letters, oks, j)
    ensures var events := ClearEvents(cfg, true, letters, oks, issued, sending, host, signed);
            Replay(cfg, s, events[..i + 2])
            == Step(cfg, AtDeposit(s, letters, i), Deposit(letters[i], oks[i], issued, sending, host, signed))
    ensures var events := ClearEvents(cfg, true, letters, oks, issued, sending, host, signed);
            forall k :: i + 2 <= k < |events| ==> Continues(events[k])
  {
    hide *;
    var events := ClearEvents(cfg, true, letters, oks, issued, sending, host, signed);
    ClearEventsAt(cfg, letters, oks, issued, sending, host, signed, i);
    DepositsTaken(cfg, s, letters, oks, issued, sending, host, signed, i);
    ReplayNext(cfg, s, events, i + 1);
  }

  lemma {:induction false} ReplayAll(cfg: Config, s: State, events: seq<Event>, n: nat)
    requires n == |events|
    ensures Replay(cfg, s, events[..n]) == Replay(cfg, s, events)
  {
    hide Replay;
    assert events[..n] == events;
  }

  lemma {:induction false} ClearedAtBad(
    cfg: Config, s: State, letters: seq<Option<Letter>>, oks: seq<bool>,
    issued: Option<(Hash, Hash)>, sending: Sending, host: bool, signed: bool, i: nat)
    requires i < cfg.numPlayers == |letters| == |oks| && !GoodDeposit(s, letters, oks, i)
    requires s.control.Idle? && !s.crashed && s.phase == INITIALIZED
    requires forall j :: 0 <= j < i ==> GoodDeposit(s, letters, oks, j)
    ensures var events := ClearEvents(cfg, true, letters, oks, issued, sending, host, signed);
            Cleared(cfg, s, Replay(cfg, s, events), letters, oks, issued, sending, host, signed)
  {
    hide *;
    var events := ClearEvents(cfg, true, letters, oks, issued, sending, host, signed);
    DepositStep(cfg, s, letters, oks, issued, sending, host, signed, i);
    OneDeposit(cfg, s, letters, oks, i, Deposit(letters[i], oks[i], issued, sending, host, signed));
    ReturnedEarly(cfg, s, events, i + 2);
    ClearedEarly(cfg, s, Replay(cfg, s, events), letters, oks, issued, sending, host, signed, i);
  }

  lemma {:induction false} ClearedAtEnd(
    cfg: Config, s: State, letters: seq<Option<Letter>>, oks: seq<bool>,
    issued: Option<(Hash, Hash)>, sending: Sending, host: bool, signed: bool)
    requires 0 < cfg.numPlayers == |letters| == |oks|
    requires s.control.Idle? && !s.crashed && s.phase == INITIALIZED
    requires forall j :: 0 <= j < cfg.numPlayers ==> GoodDeposit(s, letters, oks, j)
    ensures var events := ClearEvents(cfg, true, letters, oks, issued, sending, host, signed);
            Cleared(cfg, s, Replay(cfg, s, events), letters, oks, issued, sending, host, signed)
  {
    hide *;
    var events := ClearEvents(cfg, true, letters, oks, issued, sending, host, signed);
    var i := cfg.numPlayers - 1;
    var e := Deposit(letters[i], oks[i], issued, sending, host, signed);
    DepositStep(cfg, s, letters, oks, issued, sending, host, signed, i);
    OneDeposit(cfg, s, letters, oks, i, e);
    assert GoodDeposit(s, letters, oks, i);
    ReplayAll(cfg, s, events, i + 2);
    ClearedLast(cfg, s, Replay(cfg, s, events), letters, oks, issued, sending, host, signed, e);
  }

  lemma {:induction false} FirstBadDeposit(s: State, letters: seq<Option<Letter>>, oks: seq<bool>, i: nat)
    returns (k: nat)
    requires i < |letters| == |oks| && !GoodDeposit(s, letters, oks, i)
    ensures k <= i && !GoodDeposit(s, letters, oks, k) && forall j :: 0 <= j < k ==> GoodDeposit(s, letters, oks, j)
  {
    hide GoodDeposit;
    if j: nat :| j < i && !GoodDeposit(s, letters, oks, j) {
      k := FirstBadDeposit(s, letters, oks, j);
    } else {
      k := i;
    }
  }

  /** Clearing the contract: nothing happens outside INITIALIZED, and a first part that fails aborts. */
  lemma {:induction false} ClearMeaning(
    cfg: Config, s: State, ok: bool, letters: seq<Option<Letter>>, oks: seq<bool>,
    issued: Option<(Hash, Hash)>, sending: Sending, host: bool, signed: bool)
    requires 0 < cfg.numPlayers == |letters| == |oks| && s.control.Idle? && !s.crashed
    ensures var t := Replay(cfg, s, ClearEvents(cfg, ok, letters, oks, issued, sending, host, signed));
            if s.phase != INITIALIZED then t == s
            else if !ok then t == s.(phase := ABORTED)
            else Cleared(cfg, s, t, letters, oks, issued, sending, host, signed)
  {
    var events := ClearEvents(cfg, ok, letters, oks, issued, sending, host, signed);
    if s.phase == INITIALIZED && ok {
      hide GoodDeposit, Replay, Cleared, ClearEvents;
      if i: nat :| i < cfg.numPlayers && !GoodDeposit(s, letters, oks, i) {
        var k := FirstBadDeposit(s, letters, oks, i);
        ClearedAtBad(cfg, s, letters, oks, issued, sending, host, signed, k);
      } else {
        ClearedAtEnd(cfg, s, letters, oks, issued, sending, host, signed);
      }
    } else {
      ReplayFirst(cfg, s, events);
      ReturnedEarly(cfg, s, events, 1);
    }
  }

  predicate GoodConfirmation(letters: seq<Option<Letter>>, imported: seq<bool>, i: nat)
    requires i < |letters| && i < |imported|
  {
    letters[i].Some? && letters[i].value.ConfirmDeposits? && imported[i]
  }

  /** The signatures in the first n letters, as far as they are confirmations. */
  function SignaturesOf(letters: seq<Option<Letter>>, n: nat): (r: seq<Signature>)
    requires n <= |letters|
    ensures |r| == n
    ensures forall k :: 0 <= k < n && letters[k].Some? && letters[k].value.ConfirmDeposits? ==>
        r[k] == letters[k].value.signature
  {
    seq(n, k requires 0 <= k < n =>
      if letters[k].Some? && letters[k].value.ConfirmDeposits? then letters[k].value.signature
      else Signature(0, seq(32, _ => 0)))
  }

  lemma SignaturesOfNext(letters: seq<Option<Letter>>, i: nat)
    requires i < |letters| && letters[i].Some? && letters[i].value.ConfirmDeposits?
    ensures SignaturesOf(letters, i + 1) == SignaturesOf(letters, i) + [letters[i].value.signature]
  {
  }

  /** The enclave inside finalizing, waiting for confirmation i. */
  function AtConfirmation(s: State, letters: seq<Option<Letter>>, i: nat): State
    requires i <= |letters|
  {
    s.(control := AwaitConfirm(i), signatures := SignaturesOf(letters, i))
  }

  lemma OneConfirmation(
    cfg: Config, s: State, letters: seq<Option<Letter>>, imported: seq<bool>, i: nat, e: Event)
    requires i < |letters| == |imported| && !s.crashed
    requires e.Confirm? && e.letter == letters[i] && e.imported == imported[i]
    ensures var got := AtConfirmation(s, letters, i);
            Step(cfg, got, e) ==
              if !GoodConfirmation(letters, imported, i) then got.(control := Idle, phase := ABORTED)
              else if i + 1 < cfg.numPlayers then AtConfirmation(s, letters, i + 1)
              else Authorize(cfg, got.(signatures := SignaturesOf(letters, i + 1)), e)
  {
    if GoodConfirmation(letters, imported, i) {
      SignaturesOfNext(letters, i);
    }
    hide SignaturesOf, Authorize;
  }

  lemma FinalizingStarts(cfg: Config, s: State, letters: seq<Option<Letter>>)
    requires s.control.Idle? && !s.crashed && s.phase == CLEARED_CONTRACT
    ensures Step(cfg, s, Finalize) == AtConfirmation(s, letters, 0)
  {
    assert SignaturesOf(letters, 0) == [];
  }

  lemma FinalizeEventsAt(
    cfg: Config, letters: seq<Option<Letter>>, imported: seq<bool>, authorized: bool, exported: bool, i: nat)
    requires i < cfg.numPlayers == |letters| == |imported|
    ensures var events := FinalizeEvents(cfg, letters, imported, authorized, exported);
            && events[0] == Finalize
            && (i > 0 ==> events[i] == Confirm(letters[i - 1], imported[i - 1], authorized, exported))
            && events[i + 1] == Confirm(letters[i], imported[i], authorized, exported)
            && forall k :: i + 2 <= k < |events| ==> Continues(events[k])
  {
  }

  lemma {:induction false} SignaturesTaken(
    cfg: Config, s: State, letters: seq<Option<Letter>>, imported: seq<bool>, authorized: bool, exported: bool, i: nat)
    requires i < cfg.numPlayers == |letters| == |imported|
    requires s.control.Idle? && !s.crashed && s.phase == CLEARED_CONTRACT
    requires forall j :: 0 <= j < i ==> GoodConfirmation(letters, imported, j)
    ensures var events := FinalizeEvents(cfg, letters, imported, authorized, exported);
            Replay(cfg, s, events[..i + 1]) == AtConfirmation(s, letters, i)
  {
    hide *;
    var events := FinalizeEvents(cfg, letters, imported, authorized, exported);
    FinalizeEventsAt(cfg, letters, imported, authorized, exported, i);
    if i == 0 {
      ReplayFirst(cfg, s, events);
      FinalizingStarts(cfg, s, letters);
    } else {
      SignaturesTaken(cfg, s, letters, imported, authorized, exported, i - 1);
      ReplayNext(cfg, s, events, i);
      OneConfirmation(cfg, s, letters, imported, i - 1, events[i]);
    }
  }

  /** The settlement is authorized: every confirmation is good, the library agrees, and the signatures are those
      of key 0 and of every deposit's key on the settlement kept. */
  ghost predicate FullySigned(
    cfg: Config, s: State, letters: seq<Option<Letter>>, imported: seq<bool>, authorized: bool, exported: bool)
    requires cfg.numPlayers == |letters| == |imported|
  {
    && (forall i :: 0 <= i < cfg.numPlayers ==> GoodConfirmation(letters, imported, i))
    && authorized && exported && s.settlement.Some? && s.signature.Some?
    && multiset([s.signature.value] + SignaturesOf(letters, cfg.numPlayers))
    == multiset(Stamped([0] + s.keys, s.settlement.value))
  }

  ghost predicate Finalized(
    cfg: Config, s: State, t: State, letters: seq<Option<Letter>>, imported: seq<bool>,
    authorized: bool, exported: bool)
    requires cfg.numPlayers == |letters| == |imported|
  {
    var good := forall i :: 0 <= i < cfg.numPlayers ==> GoodConfirmation(letters, imported, i);
    var done := FullySigned(cfg, s, letters, imported, authorized, exported);
    && !t.crashed && t.control == Idle
    && t.wallet == s.wallet && t.slots == s.slots && t.keys == s.keys && t.signature == s.signature
    && t.sent == s.sent && t.cleared == s.cleared
    && (t.phase == if done then FINALIZED else ABORTED)
    && (t.outputs == if done then s.outputs + [Settlement(s.settlement.value)] else s.outputs)
    && (t.settlement == if good then None else s.settlement)
    && (good ==> t.signatures == SignaturesOf(letters, cfg.numPlayers))
  }

  lemma {:induction false} FinalizedLast(
    cfg: Config, s: State, t: State, letters: seq<Option<Letter>>, imported: seq<bool>,
    authorized: bool, exported: bool, e: Event)
    requires 0 < cfg.numPlayers == |letters| == |imported| && !s.crashed
    requires forall j :: 0 <= j < cfg.numPlayers ==> GoodConfirmation(letters, imported, j)
    requires e.Confirm? && e.authorized == authorized && e.exported == exported
    requires t == Authorize(cfg,
               AtConfirmation(s, letters, cfg.numPlayers - 1).(signatures := SignaturesOf(letters, cfg.numPlayers)), e)
    ensures Finalized(cfg, s, t, letters, imported, authorized, exported)
  {
    var signatures := SignaturesOf(letters, cfg.numPlayers);
    if s.signature.Some? && s.settlement.Some? {
      AuthorizesExactly(s.signature.value, signatures, s.keys, s.settlement.value);
    } else {
      NothingAuthorized(s, signatures);
    }
    hide Authorizes, Stamped, SignaturesOf, GoodConfirmation;
  }

  lemma {:induction false} ConfirmationStep(
    cfg: Config, s: State, letters: seq<Option<Letter>>, imported: seq<bool>, authorized: bool, exported: bool, i: nat)
    requires i < cfg.numPlayers == |letters| == |imported|
    requires s.control.Idle? && !s.crashed && s.phase == CLEARED_CONTRACT
    requires forall j :: 0 <= j < i ==> GoodConfirmation(letters, imported, j)
    ensures var events := FinalizeEvents(cfg, letters, imported, authorized, exported);
            Replay(cfg, s, events[..i + 2])
            == Step(cfg, AtConfirmation(s, letters, i), Confirm(letters[i], imported[i], authorized, exported))
    ensures var events := FinalizeEvents(cfg, letters, imported, authorized, exported);
            forall k :: i + 2 <= k < |events| ==> Continues(events[k])
  {
    hide *;
    var events := FinalizeEvents(cfg, letters, imported, authorized, exported);
    FinalizeEventsAt(cfg, letters, imported, authorized, exported, i);
    SignaturesTaken(cfg, s, letters, imported, authorized, exported, i);
    ReplayNext(cfg, s, events, i + 1);
  }

  lemma FinalizedEarly(
    cfg: Config, s: State, letters: seq<Option<Letter>>, imported: seq<bool>, authorized: bool, exported: bool, i: nat)
    requires i < cfg.numPlayers == |letters| == |imported| && !GoodConfirmation(letters, imported, i) && !s.crashed
    ensures Finalized(cfg, s, AtConfirmation(s, letters, i).(control := Idle, phase := ABORTED),
              letters, imported, authorized, exported)
  {
    hide GoodConfirmation, SignaturesOf, Stamped;
  }

  lemma {:induction false} FinalizedAtBad(
    cfg: Config, s: State, letters: seq<Option<Letter>>, imported: seq<bool>, authorized: bool, exported: bool, i: nat)
    requires i < cfg.numPlayers == |letters| == |imported| && !GoodConfirmation(letters, imported, i)
    requires s.control.Idle? && !s.crashed && s.phase == CLEARED_CONTRACT
    requires forall j :: 0 <= j < i ==> GoodConfirmation(letters, imported, j)
    ensures var events := FinalizeEvents(cfg, letters, imported, authorized, exported);
            Finalized(cfg, s, Replay(cfg, s, events), letters, imported, authorized, exported)
  {
    hide *;
    var events := FinalizeEvents(cfg, letters, imported, authorized, exported);
    ConfirmationStep(cfg, s, letters, imported, authorized, exported, i);
    OneConfirmation(cfg, s, letters, imported, i, Confirm(letters[i], imported[i], authorized, exported));
    FinalizedEarly(cfg, s, letters, imported, authorized, exported, i);
    ReturnedEarly(cfg, s, events, i + 2);
  }

  lemma {:induction false} FinalizedAtEnd(
    cfg: Config, s: State, letters: seq<Option<Letter>>, imported: seq<bool>, authorized: bool, exported: bool)
    requires 0 < cfg.numPlayers == |letters| == |imported|
    requires s.control.Idle? && !s.crashed && s.phase == CLEARED_CONTRACT
    requires forall j :: 0 <= j < cfg.numPlayers ==> GoodConfirmation(letters, imported, j)
    ensures var events := FinalizeEvents(cfg, letters, imported, authorized, exported);
            Finalized(cfg, s, Replay(cfg, s, events), letters, imported, authorized, exported)
  {
    hide *;
    var events := FinalizeEvents(cfg, letters, imported, authorized, exported);
    var i := cfg.numPlayers - 1;
    var e := Confirm(letters[i], imported[i], authorized, exported);
    ConfirmationStep(cfg, s, letters, imported, authorized, exported, i);
    OneConfirmation(cfg, s, letters, imported, i, e);
    assert GoodConfirmation(letters, imported, i);
    ReplayAll(cfg, s, events, i + 2);
    FinalizedLast(cfg, s, Replay(cfg, s, events), letters, imported, authorized, exported, e);
  }

  lemma {:induction false} FirstBadConfirmation(letters: seq<Option<Letter>>, imported: seq<bool>, i: nat)
    returns (k: nat)
    requires i < |letters| == |imported| && !GoodConfirmation(letters, imported, i)
    ensures k <= i && !GoodConfirmation(letters, imported, k)
    ensures forall j :: 0 <= j < k ==> GoodConfirmation(letters, imported, j)
  {
    hide GoodConfirmation;
    if j: nat :| j < i && !GoodConfirmation(letters, imported, j) {
      k := FirstBadConfirmation(letters, imported, j);
    } else {
      k := i;
    }
  }

  /** Finalizing: nothing happens outside CLEARED_CONTRACT; in it the settlement goes out when it is fully signed,
      and the contract aborts otherwise. */
  lemma {:induction false} FinalizeMeaning(
    cfg: Config, s: State, letters: seq<Option<Letter>>, imported: seq<bool>, authorized: bool, exported: bool)
    requires 0 < cfg.numPlayers == |letters| == |imported| && s.control.Idle? && !s.crashed
    ensures var t := Replay(cfg, s, FinalizeEvents(cfg, letters, imported, authorized, exported));
            if s.phase != CLEARED_CONTRACT then t == s
            else Finalized(cfg, s, t, letters, imported, authorized, exported)
  {
    var events := FinalizeEvents(cfg, letters, imported, authorized, exported);
    if s.phase == CLEARED_CONTRACT {
      hide GoodConfirmation, Replay, Finalized, FinalizeEvents;
      if i: nat :| i < cfg.numPlayers && !GoodConfirmation(letters, imported, i) {
        var k := FirstBadConfirmation(letters, imported, i);
        FinalizedAtBad(cfg, s, letters, imported, authorized, exported, k);
      } else {
        FinalizedAtEnd(cfg, s, letters, imported, authorized, exported);
      }
    } else {
      ReplayFirst(cfg, s, events);
      ReturnedEarly(cfg, s, events, 1);
    }
  }

  /** What connecting sends: the broadcast once every slot is filled and shown, and the notice that the contract
      is live once every player has acknowledged it. */
  ghost predicate Connected(
    cfg: Config, s: State, t: State, call: Event, letters: seq<Option<Letter>>, memory: bool, completion: Sending)
    requires call.Connect? && cfg.numPlayers == |letters|
  {
    var n := cfg.numPlayers;
    var full := forall j :: 0 <= j < |t.slots| ==> t.slots[j].Some?;
    var live := call.sending.Sent? && memory && forall j :: 0 <= j < n ==> letters[j] == Some(QuotesOk);
    && t == s.(slots := t.slots, sent := t.sent)
    && |t.sent| == |s.sent| + (if !full || !call.shown then 0 else if !live then 1 else 2)
    && t.sent[..|s.sent|] == s.sent
    && (full && call.shown ==>
        var broadcast := t.sent[|s.sent|];
        && broadcast.reached == Reached(call.sending, n) && broadcast.letter.PlayersQuotes?
        && |broadcast.letter.quotes| == |broadcast.letter.reports| == |t.slots|
        && forall j :: 0 <= j < |t.slots| ==>
             && broadcast.letter.quotes[j] == t.slots[j].value.quote
             && broadcast.letter.reports[j] == t.slots[j].value.report)
    && (full && call.shown && live ==> t.sent[|s.sent| + 1] == Broadcast(SetupComplete, Reached(completion, n)))
  }

  lemma OneAcknowledgement(cfg: Config, s: State, i: nat, letter: Option<Letter>, memory: bool, completion: Sending)
    requires !s.crashed && s.control == AwaitAck(i)
    ensures var next := if i + 1 < cfg.numPlayers then AwaitAck(i + 1) else Idle;
            Step(cfg, s, Acknowledge(letter, memory, completion)) ==
              if letter != Some(QuotesOk) then s.(control := Idle)
              else if i + 1 < cfg.numPlayers || !memory then s.(control := next)
              else s.(control := Idle, sent := s.sent + [Broadcast(SetupComplete, Reached(completion, cfg.numPlayers))])
  {
    hide Reached;
  }

  lemma ConnectEventsAt(
    cfg: Config, call: Event, letters: seq<Option<Letter>>, memory: bool, completion: Sending, i: nat)
    requires i < cfg.numPlayers == |letters|
    ensures var events := ConnectEvents(cfg, call, letters, memory, completion);
            && events[0] == call
            && (i > 0 ==> events[i] == Acknowledge(letters[i - 1], memory, completion))
            && events[i + 1] == Acknowledge(letters[i], memory, completion)
            && forall k :: i + 2 <= k < |events| ==> Continues(events[k])
  {
  }

  lemma {:induction false} AcknowledgementsTaken(
    cfg: Config, s: State, call: Event, letters: seq<Option<Letter>>, memory: bool, completion: Sending, i: nat)
    requires i < cfg.numPlayers == |letters|
    requires Step(cfg, s, call).control == AwaitAck(0) && !Step(cfg, s, call).crashed
    requires forall j :: 0 <= j < i ==> letters[j] == Some(QuotesOk)
    ensures var events := ConnectEvents(cfg, call, letters, memory, completion);
            Replay(cfg, s, events[..i + 1]) == Step(cfg, s, call).(control := AwaitAck(i))
  {
    hide *;
    var events := ConnectEvents(cfg, call, letters, memory, completion);
    ConnectEventsAt(cfg, call, letters, memory, completion, i);
    if i == 0 {
      ReplayFirst(cfg, s, events);
    } else {
      AcknowledgementsTaken(cfg, s, call, letters, memory, completion, i - 1);
      ReplayNext(cfg, s, events, i);
      var before := Step(cfg, s, call).(control := AwaitAck(i - 1));
      OneAcknowledgement(cfg, before, i - 1, letters[i - 1], memory, completion);
    }
  }

  lemma {:induction false} AcknowledgementStep(
    cfg: Config, s: State, call: Event, letters: seq<Option<Letter>>, memory: bool, completion: Sending, i: nat)
    requires i < cfg.numPlayers == |letters|
    requires Step(cfg, s, call).control == AwaitAck(0) && !Step(cfg, s, call).crashed
    requires forall j :: 0 <= j < i ==> letters[j] == Some(QuotesOk)
    ensures var events := ConnectEvents(cfg, call, letters, memory, completion);
            Replay(cfg, s, events[..i + 2])
            == Step(cfg, Step(cfg, s, call).(control := AwaitAck(i)), Acknowledge(letters[i], memory, completion))
    ensures var events := ConnectEvents(cfg, call, letters, memory, completion);
            forall k :: i + 2 <= k < |events| ==> Continues(events[k])
  {
    hide *;
    var events := ConnectEvents(cfg, call, letters, memory, completion);
    ConnectEventsAt(cfg, call, letters, memory, completion, i);
    AcknowledgementsTaken(cfg, s, call, letters, memory, completion, i);
    ReplayNext(cfg, s, events, i + 1);
  }

  lemma {:induction false} AcknowledgedUntil(
    cfg: Config, s: State, call: Event, letters: seq<Option<Letter>>, memory: bool, completion: Sending, i: nat)
    requires i < cfg.numPlayers == |letters| && letters[i] != Some(QuotesOk)
    requires Step(cfg, s, call).control == AwaitAck(0) && !Step(cfg, s, call).crashed
    requires forall j :: 0 <= j < i ==> letters[j] == Some(QuotesOk)
    ensures var events := ConnectEvents(cfg, call, letters, memory, completion);
            Replay(cfg, s, events) == Step(cfg, s, call).(control := Idle)
  {
    hide *;
    AcknowledgementStep(cfg, s, call, letters, memory, completion, i);
    OneAcknowledgement(cfg, Step(cfg, s, call).(control := AwaitAck(i)), i, letters[i], memory, completion);
    ReturnedEarly(cfg, s, ConnectEvents(cfg, call, letters, memory, completion), i + 2);
  }

  lemma {:induction false} AcknowledgedAll(
    cfg: Config, s: State, call: Event, letters: seq<Option<Letter>>, memory: bool, completion: Sending)
    requires 0 < cfg.numPlayers == |letters|
    requires Step(cfg, s, call).control == AwaitAck(0) && !Step(cfg, s, call).crashed
    requires forall j :: 0 <= j < cfg.numPlayers ==> letters[j] == Some(QuotesOk)
    ensures var events := ConnectEvents(cfg, call, letters, memory, completion);
            var asked := Step(cfg, s, call);
            Replay(cfg, s, events) == asked.(control := Idle, sent := asked.sent +
              if memory then [Broadcast(SetupComplete, Reached(completion, cfg.numPlayers))] else [])
  {
    hide *;
    var i := cfg.numPlayers - 1;
    AcknowledgementStep(cfg, s, call, letters, memory, completion, i);
    OneAcknowledgement(cfg, Step(cfg, s, call).(control := AwaitAck(i)), i, letters[i], memory, completion);
    ReplayAll(cfg, s, ConnectEvents(cfg, call, letters, memory, completion), i + 2);
  }

  lemma {:induction false} FirstRefusal(letters: seq<Option<Letter>>, i: nat) returns (k: nat)
    requires i < |letters| && letters[i] != Some(QuotesOk)
    ensures k <= i && letters[k] != Some(QuotesOk) && forall j :: 0 <= j < k ==> letters[j] == Some(QuotesOk)
  {
    if j: nat :| j < i && letters[j] != Some(QuotesOk) {
      k := FirstRefusal(letters, j);
    } else {
      k := i;
    }
  }

  /** Who gets through attestation has the id of an empty slot. */
  predicate Admitted(s: State, call: Event)
    requires call.Connect?
  {
    call.player.Some? && 1 <= call.player.value.id <= |s.slots| && s.slots[call.player.value.id - 1].None?
  }

  lemma ConnectStarts(cfg: Config, s: State, call: Event)
    requires s.control.Idle? && !s.crashed && call.Connect?
    ensures var t := Step(cfg, s, call);
            if !Admitted(s, call) then t == s
            else
              var joined := s.slots[call.player.value.id - 1 := call.player];
              if !AllFilled(joined) || !call.shown then t == s.(slots := joined)
              else t == s.(
                slots := joined,
                sent := s.sent + [Broadcast(QuotesLetter(joined), Reached(call.sending, cfg.numPlayers))],
                control := if call.sending.Sent? then AwaitAck(0) else Idle)
  {
    hide QuotesLetter, Reached;
  }

  lemma {:induction false} ConnectEnds(
    cfg: Config, s: State, t: State, call: Event, letters: seq<Option<Letter>>, memory: bool, completion: Sending)
    requires 0 < cfg.numPlayers == |letters| && s.control.Idle? && !s.crashed && call.Connect? && Admitted(s, call)
    requires var asked := Step(cfg, s, call);
             t == if asked.control.Idle? || exists j :: 0 <= j < cfg.numPlayers && letters[j] != Some(QuotesOk)
                  then asked.(control := Idle)
                  else asked.(control := Idle, sent := asked.sent +
                    if memory then [Broadcast(SetupComplete, Reached(completion, cfg.numPlayers))] else [])
    ensures Connected(cfg, s, t, call, letters, memory, completion)
  {
    ConnectStarts(cfg, s, call);
    hide Step, Reached;
  }

  /** Connecting a player: who gets through attestation with the id of an empty slot is put there and nobody else
      is moved; others change nothing. */
  lemma {:induction false} ConnectMeaning(
    cfg: Config, s: State, call: Event, letters: seq<Option<Letter>>, memory: bool, completion: Sending)
    requires 0 < cfg.numPlayers == |letters| && s.control.Idle? && !s.crashed && call.Connect?
    ensures var t := Replay(cfg, s, ConnectEvents(cfg, call, letters, memory, completion));
            if !Admitted(s, call) then t == s
            else
              && |t.slots| == |s.slots| && t.slots[call.player.value.id - 1] == call.player
              && (forall j :: 0 <= j < |s.slots| && j != call.player.value.id - 1 ==> t.slots[j] == s.slots[j])
              && Connected(cfg, s, t, call, letters, memory, completion)
  {
    var events := ConnectEvents(cfg, call, letters, memory, completion);
    ReplayFirst(cfg, s, events);
    ConnectStarts(cfg, s, call);
    hide Step, Replay, Connected;
    if Step(cfg, s, call).control.Idle? {
      ReturnedEarly(cfg, s, events, 1);
    } else {
      hide ConnectEvents;
      if i: nat :| i < cfg.numPlayers && letters[i] != Some(QuotesOk) {
        var k := FirstRefusal(letters, i);
        AcknowledgedUntil(cfg, s, call, letters, memory, completion, k);
      } else {
        AcknowledgedAll(cfg, s, call, letters, memory, completion);
      }
    }
    if Admitted(s, call) {
      ConnectEnds(cfg, s, Replay(cfg, s, events), call, letters, memory, completion);
    }
  }

  /** The deposit key goes out exactly when the bytes begin with as many proven headers as the refund takes, the
      settlement is not out, and there is a wallet whose key can be exported; without a wallet the enclave ends. */
  lemma {:induction false} RefundMeaning(cfg: Config, s: State, fs: seq<Fields>, rest: seq<byte>, exported: bool)
    requires s.control.Idle? && !s.crashed
    requires (forall i :: 0 <= i < |fs| ==> Sized(fs[i])) && |rest| < HEADER_LENGTH
    ensures var blocks := WriteHeaders(fs) + rest;
            var t := Step(cfg, s, Refund(blocks, exported));
            var due := s.phase != FINALIZED && cfg.refundDelay <= |fs|
                       && forall i :: 0 <= i < cfg.refundDelay ==> Proven(cfg.net, fs, i);
            t == if due && !s.wallet then s.(crashed := true)
                 else if due && exported then s.(phase := REFUNDED, outputs := s.outputs + [DepositKey(blocks)])
                 else s
  {
    LongEnough(cfg.net, fs, rest, cfg.refundDelay);
    hide ChainLength, Proven, WriteHeaders, Sized;
  }

  class Enclave {
    const cfg: Config
    var phase: Phase
    var wallet: bool
    // The registry: see Players.Registry
    var slots: Slots
    var settlement: Option<Hash>
    var keys: seq<nat>
    var signature: Option<Signature>
    var signatures: seq<Signature>
    // A null pointer was followed: no further ECALL gets in
    var crashed: bool
    // What left the enclave, and the settlements computed in it
    var sent: seq<Broadcast>
    var cleared: seq<Hash>
    var outputs: seq<Output>
    // The message waited for
    ghost var control: Control

    ghost function View(): State
      reads this
    {
      State(phase, wallet, slots, control, settlement, keys, signature, signatures, crashed, sent, cleared, outputs)
    }

    /** No ECALL is running: there is one thread. */
    ghost predicate Ready()
      reads this
    {
      cfg.numPlayers > 0 && control.Idle? && !crashed && |slots| == cfg.numPlayers
    }

    constructor (cfg: Config)
      ensures this.cfg == cfg && View() == Initial(cfg)
    {
      this.cfg := cfg;
      phase, wallet, slots, control := UNINITIALIZED, false, seq(cfg.numPlayers, _ => None), Idle;
      settlement, keys, signature, signatures, crashed := None, [], None, [], false;
      sent, cleared, outputs := [], [], [];
    }

    method EcallInitialize(ok: bool) returns (done: bool)
      requires Ready()
      modifies this
      ensures View() == Step(cfg, old(View()), Initialize(ok))
      ensures done <==> old(phase) == UNINITIALIZED && phase == INITIALIZED
    {
      if phase != UNINITIALIZED {
        return false;
      }
      if !ok {
        return false;
      }
      wallet := true;
      phase := INITIALIZED;
      return true;
    }

    method EcallConnectToPlayer(
      call: Event, letters: seq<Option<Letter>>, memory: bool, completion: Sending) returns (done: bool)
      requires Ready() && call.Connect? && |letters| == cfg.numPlayers
      modifies this
      ensures View() == Replay(cfg, old(View()), ConnectEvents(cfg, call, letters, memory, completion))
      ensures done <==> && slots != old(slots)
                        && (AllFilled(slots) ==> |sent| == |old(sent)| + 2 && completion.Sent?)
    {
      ghost var events := ConnectEvents(cfg, call, letters, memory, completion);
      ghost var before := View();
      ReplayFirst(cfg, before, events);
      hide Replay, Step;
      var complete;
      done, complete := RegisterPlayer(call);
      assert View() == Replay(cfg, before, events[..1]);
      if !complete {
        ReturnedEarly(cfg, before, events, 1);
        return;
      }
      done := CollectAcks(letters, before, events);
      if !done {
        return;
      }
      done := CompleteSetup(memory, completion);
    }

    /** The loop that receives the acknowledgements; when it fails the ECALL is over. */
    method CollectAcks(letters: seq<Option<Letter>>, ghost before: State, ghost events: seq<Event>)
      returns (done: bool)
      requires cfg.numPlayers == |letters| > 0 && |events| == cfg.numPlayers + 1
      requires !crashed && control == AwaitAck(0) && View() == Replay(cfg, before, events[..1])
      requires forall k :: 1 <= k < |events| ==> events[k].Acknowledge? && events[k].letter == letters[k - 1]
      modifies `control
      ensures done ==> Replay(cfg, before, events) == Complete(cfg, View(), events[cfg.numPlayers])
      ensures !done ==> View() == Replay(cfg, before, events)
    {
      hide Replay;
      for i := 0 to cfg.numPlayers
        invariant i < cfg.numPlayers ==> control == AwaitAck(i) && View() == Replay(cfg, before, events[..i + 1])
        invariant i == cfg.numPlayers ==>
            events[i].Acknowledge? && Replay(cfg, before, events[..i + 1]) == Complete(cfg, View(), events[i])
      {
        ReplayNext(cfg, before, events, i + 1);
        if letters[i] != Some(QuotesOk) {
          control := Idle;
          ReturnedEarly(cfg, before, events, i + 2);
          return false;
        }
        if i + 1 < cfg.numPlayers {
          control := AwaitAck(i + 1);
        }
      }
      assert events[..cfg.numPlayers + 1] == events;
      return true;
    }

    method CompleteSetup(memory: bool, completion: Sending) returns (done: bool)
      modifies `control, `sent
      ensures forall letter :: View() == Complete(cfg, old(View()), Acknowledge(letter, memory, completion))
      ensures done <==> |sent| == |old(sent)| + 1 && completion.Sent?
    {
      control := Idle;
      if !memory {
        return false;
      }
      sent := sent + [Broadcast(SetupComplete, Reached(completion, cfg.numPlayers))];
      return completion.Sent?;
    }

    /** The part of connecting up to the wait for acknowledgements. */
    method RegisterPlayer(call: Event) returns (done: bool, complete: bool)
      requires Ready() && call.Connect?
      modifies this
      ensures View() == Step(cfg, old(View()), call)
      ensures control == if complete then AwaitAck(0) else Idle
      ensures done <==> slots != old(slots) && (AllFilled(slots) ==> complete)
      ensures complete ==> done && AllFilled(slots) && |sent| == |old(sent)| + 1
      ensures !complete ==> |sent| <= |old(sent)| + 1
      ensures !crashed
    {
      if call.player.None? || !IdOk(slots, call.player.value.id) {
        return false, false;
      }
      slots := slots[call.player.value.id - 1 := call.player];
      var all := true;
      for k := 0 to cfg.numPlayers
        invariant all <==> forall j :: 0 <= j < k ==> slots[j].Some?
      {
        all := all && slots[k].Some?;
      }
      if !all {
        return true, false;
      }
      if !call.shown {
        return false, false;
      }
      sent := sent + [Broadcast(QuotesLetter(slots), Reached(call.sending, cfg.numPlayers))];
      if !call.sending.Sent? {
        return false, false;
      }
      control := AwaitAck(0);
      return true, true;
    }

    method EcallClearContract(
      ok: bool, letters: seq<Option<Letter>>, oks: seq<bool>,
      issued: Option<(Hash, Hash)>, sending: Sending, host: bool, signed: bool) returns (done: bool)
      requires Ready() && |letters| == |oks| == cfg.numPlayers
      modifies this
      ensures View() == Replay(cfg, old(View()), ClearEvents(cfg, ok, letters, oks, issued, sending, host, signed))
      ensures done <==> old(phase) == INITIALIZED && phase == CLEARED_CONTRACT
    {
      hide Step, Issue;
      ghost var events := ClearEvents(cfg, ok, letters, oks, issued, sending, host, signed);
      ghost var before := View();
      ReplayFirst(cfg, before, events);
      hide Replay;
      done := StartClearing(ok);
      assert View() == Replay(cfg, before, events[..1]);
      if !done {
        ReturnedEarly(cfg, before, events, 1);
        return;
      }
      done := CollectDeposits(letters, oks, before, events);
      if !done {
        return;
      }
      done := IssueSettlement(issued, sending, host, signed);
    }

    method StartClearing(ok: bool) returns (started: bool)
      requires Ready()
      modifies `phase, `keys, `control
      ensures View() == Step(cfg, old(View()), Clear(ok))
      ensures control == if started then AwaitDeposit(0) else Idle
      ensures started ==> phase == old(phase) == INITIALIZED
      ensures !started ==> !(old(phase) == INITIALIZED && phase == CLEARED_CONTRACT)
    {
      if phase != INITIALIZED {
        return false;
      }
      if !ok {
        phase := ABORTED;
        return false;
      }
      control, keys := AwaitDeposit(0), [];
      return true;
    }

    method IssueSettlement(issued: Option<(Hash, Hash)>, sending: Sending, host: bool, signed: bool)
      returns (done: bool)
      modifies this
      ensures forall letter, ok ::
          View() == Issue(cfg, old(View()), Deposit(letter, ok, issued, sending, host, signed))
      ensures phase == if done then CLEARED_CONTRACT else ABORTED
    {
      control := Idle;
      if issued.None? {
        phase, settlement := ABORTED, None;
        return false;
      }
      var (sighash, txid) := issued.value;
      cleared := cleared + [sighash];
      sent := sent + [Broadcast(ClearContract(sighash, txid), Reached(sending, cfg.numPlayers))];
      if !sending.Sent? || !host || !signed {
        phase, settlement := ABORTED, None;
        return false;
      }
      settlement, signature := Some(sighash), Some(Signature(0, sighash));
      phase := CLEARED_CONTRACT;
      return true;
    }

    /** The loop that receives the deposits; when it fails the ECALL is over. */
    method CollectDeposits(letters: seq<Option<Letter>>, oks: seq<bool>, ghost before: State, ghost events: seq<Event>)
      returns (done: bool)
      requires cfg.numPlayers == |letters| == |oks| == |slots| > 0 && |events| == cfg.numPlayers + 1
      requires !crashed && phase == INITIALIZED && control == AwaitDeposit(0)
      requires View() == Replay(cfg, before, events[..1])
      requires forall k :: 1 <= k < |events| ==>
          events[k].Deposit? && events[k].letter == letters[k - 1] && events[k].ok == oks[k - 1]
      modifies `crashed, `phase, `settlement, `keys, `control
      ensures done ==> Replay(cfg, before, events) == Issue(cfg, View(), events[cfg.numPlayers])
      ensures !done ==> View() == Replay(cfg, before, events) && phase != CLEARED_CONTRACT
    {
      hide Replay, Issue, Step;
      for i := 0 to cfg.numPlayers
        invariant !crashed && phase == INITIALIZED && |slots| == cfg.numPlayers
        invariant i < cfg.numPlayers ==> control == AwaitDeposit(i) && View() == Replay(cfg, before, events[..i + 1])
        invariant i == cfg.numPlayers ==>
            events[i].Deposit? && Replay(cfg, before, events[..i + 1]) == Issue(cfg, View(), events[i])
      {
        ReplayNext(cfg, before, events, i + 1);
        var taken := TakeDeposit(i, letters[i], oks[i]);
        if !taken {
          ReturnedEarly(cfg, before, events, i + 2);
          return false;
        }
      }
      assert events[..cfg.numPlayers + 1] == events;
      return true;
    }

    /** One turn of the loop. */
    method TakeDeposit(i: nat, letter: Option<Letter>, ok: bool) returns (taken: bool)
      requires i < |slots| == cfg.numPlayers && !crashed && phase == INITIALIZED && control == AwaitDeposit(i)
      modifies `crashed, `phase, `settlement, `keys, `control
      ensures taken ==> !crashed && phase == INITIALIZED && (i + 1 < cfg.numPlayers ==> control == AwaitDeposit(i + 1))
      ensures !taken ==> (crashed || control.Idle?) && phase != CLEARED_CONTRACT
      ensures forall e: Event :: e.Deposit? && e.letter == letter && e.ok == ok ==>
          Step(cfg, old(View()), e) == if taken && i + 1 == cfg.numPlayers then Issue(cfg, View(), e) else View()
    {
      hide Issue;
      if slots[i].None? {
        crashed := true;
        return false;
      }
      if letter.None? || !letter.value.DepositAndInput? || !ok {
        phase, settlement, control := ABORTED, None, Idle;
        return false;
      }
      keys := keys + [letter.value.key];
      if i + 1 < cfg.numPlayers {
        control := AwaitDeposit(i + 1);
      }
      return true;
    }

    method EcallFinalize(letters: seq<Option<Letter>>, imported: seq<bool>, authorized: bool, exported: bool)
      returns (done: bool)
      requires Ready() && |letters| == |imported| == cfg.numPlayers
      modifies this
      ensures View() == Replay(cfg, old(View()), FinalizeEvents(cfg, letters, imported, authorized, exported))
      ensures done <==> old(phase) == CLEARED_CONTRACT && phase == FINALIZED
    {
      hide OnConnect, OnAck, OnDeposit, OnConfirm, OnRefund, Authorize;
      ghost var events := FinalizeEvents(cfg, letters, imported, authorized, exported);
      ghost var before := View();
      ReplayFirst(cfg, before, events);
      if phase != CLEARED_CONTRACT {
        ReturnedEarly(cfg, before, events, 1);
        return false;
      }
      control, signatures := AwaitConfirm(0), [];
      hide Replay;
      done := CollectSignatures(letters, imported, before, events);
      if !done {
        return;
      }
      done := AuthorizeSettlement(authorized, exported);
    }

    /** The loop that receives the signatures; when it fails the ECALL is over. */
    method CollectSignatures(
      letters: seq<Option<Letter>>, imported: seq<bool>, ghost before: State, ghost events: seq<Event>)
      returns (done: bool)
      requires cfg.numPlayers == |letters| == |imported| > 0 && |events| == cfg.numPlayers + 1
      requires !crashed && phase == CLEARED_CONTRACT && control == AwaitConfirm(0)
      requires View() == Replay(cfg, before, events[..1])
      requires forall k :: 1 <= k < |events| ==>
          events[k].Confirm? && events[k].letter == letters[k - 1] && events[k].imported == imported[k - 1]
      modifies `phase, `control, `signatures
      ensures done ==> Replay(cfg, before, events) == Authorize(cfg, View(), events[cfg.numPlayers])
      ensures !done ==> View() == Replay(cfg, before, events) && phase != FINALIZED
    {
      hide Replay;
      for i := 0 to cfg.numPlayers
        invariant phase == CLEARED_CONTRACT
        invariant i < cfg.numPlayers ==> control == AwaitConfirm(i) && View() == Replay(cfg, before, events[..i + 1])
        invariant i == cfg.numPlayers ==>
            events[i].Confirm? && Replay(cfg, before, events[..i + 1]) == Authorize(cfg, View(), events[i])
      {
        ReplayNext(cfg, before, events, i + 1);
        if letters[i].None? || !letters[i].value.ConfirmDeposits? || !imported[i] {
          phase, control := ABORTED, Idle;
          ReturnedEarly(cfg, before, events, i + 2);
          return false;
        }
        signatures := signatures + [letters[i].value.signature];
        if i + 1 < cfg.numPlayers {
          control := AwaitConfirm(i + 1);
        }
      }
      assert events[..cfg.numPlayers + 1] == events;
      return true;
    }

    method AuthorizeSettlement(authorized: bool, exported: bool) returns (done: bool)
      modifies this
      ensures forall letter, ok ::
          View() == Authorize(cfg, old(View()), Confirm(letter, ok, authorized, exported))
      ensures phase == if done then FINALIZED else ABORTED
    {
      control := Idle;
      var unauthorized := settlement;
      settlement := None;
      if !authorized || !exported || !Authorizes(signature, signatures, keys, unauthorized) {
        phase := ABORTED;
        return false;
      }
      outputs := outputs + [Settlement(unauthorized.value)];
      phase := FINALIZED;
      return true;
    }

    method EcallRefund(blocks: seq<byte>, exported: bool) returns (done: bool)
      requires Ready()
      modifies this
      ensures View() == Step(cfg, old(View()), Refund(blocks, exported))
      ensures done <==> outputs != old(outputs)
    {
      if phase == FINALIZED {
        return false;
      }
      var count := BlocksSinceCheckpoint(cfg.net, blocks);
      if count < cfg.refundDelay {
        return false;
      }
      if !wallet {
        crashed := true;
        return false;
      }
      if !exported {
        return false;
      }
      outputs := outputs + [DepositKey(blocks)];
      phase := REFUNDED;
      return true;
    }
  }
}
