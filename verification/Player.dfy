/** A player's enclave: its state machine and what every ECALL does. */
module Player {
  import opened Blocks
  import opened Bytes
  import Layouts
  import opened Merkle
  import opened Options
  import opened Wire

  datatype Phase =
    | UNINITIALIZED | INITIALIZED | DEPOSITED | GOT_DEPOSITS | CONFIRMED_DEPOSITS | SETTLED | REFUNDED | ABORTED

  /** Whom the enclave holds a channel with: nobody, the operator, which keeps the channel in one of its
      slots, or a stranger who answers in the operator's place, as quotes are judged outside the enclave. */
  datatype Link = NotConnected | Genuine(slot: nat) | Stranger

  datatype Control = Idle | AwaitQuotes | AwaitComplete

  /** The history of the enclave, as far as the contract depends on it. */
  datatype Entry =
    | Presented(number: nat, shown: seq<Layouts.Shown>)
    | GotComplete
    | Deposited
    | Signed(sighash: Hash)
    | DepositKey(blocks: seq<byte>)
    | PayoutKey(blocks: seq<byte>, txid: Hash, output: Option<Layouts.Part>)

  /** number is the id the host gave for the connection, less one; quote and report are what the enclave
      attested itself with, and sent are the letters it handed over. */
  datatype Connection = Connection(
    link: Link, number: nat, quote: Layouts.Part, report: Layouts.Report, sent: seq<Letter>)

  /** me tells enclaves, and with them deposit keys, apart. */
  datatype State = State(
    me: nat,
    connection: Connection,
    phase: Phase,
    wallets: bool,
    control: Control,
    sighash: Hash,
    txid: Hash,
    output: Option<Layouts.Part>,
    advice: bool,
    crashed: bool,
    log: seq<Entry>)

  function ZeroHash(): Hash
  {
    seq(32, _ => 0)
  }

  function Initial(me: nat): State
  {
    State(me, Connection(NotConnected, 0, [], [], []), UNINITIALIZED, false, Idle,
      ZeroHash(), ZeroHash(), None, false, false, [])
  }

  /** One ECALL up to its first message, or the handling of one message inside an ECALL. */
  datatype Event =
    | Initialize(ok: bool)
    | Connect(link: Link, number: nat, quote: Layouts.Part, report: Layouts.Report)
    | Quotes(letter: Option<Letter>, shown: bool, memory: bool, sending: Sending)
    | Complete(letter: Option<Letter>)
    | Deposit(prepared: bool, sending: Sending)
    | GetDeposits(letter: Option<Letter>, output: Layouts.Part, memory: bool, replies: seq<bool>)
    | Confirm(signed: bool, exported: bool, sending: Sending)
    | Settle(blocks: seq<byte>, exported: bool)
    | Refund(blocks: seq<byte>, exported: bool)

  // ---- One step ----

  function Step(cfg: Config, s: State, e: Event): State
  {
    if s.crashed then s
    else match s.control
      case AwaitQuotes => if e.Quotes? then OnQuotes(cfg, s, e) else s
      case AwaitComplete => if e.Complete? then OnComplete(s, e) else s
      case Idle =>
        match e
        case Initialize(ok) =>
          if s.phase == UNINITIALIZED && ok then s.(phase := INITIALIZED, wallets := true) else s
        case Connect(link, number, quote, report) =>
          if s.connection.link != NotConnected || link == NotConnected then s
          else s.(connection := Connection(link, number, quote, report, []), control := AwaitQuotes)
        case Deposit(prepared, sending) => OnDeposit(s, prepared, sending)
        case GetDeposits(_, _, _, _) => OnGetDeposits(cfg, s, e)
        case Confirm(signed, exported, sending) => OnConfirm(s, signed, exported, sending)
        case Settle(blocks, exported) => OnSettle(cfg, s, blocks, exported)
        case Refund(blocks, exported) => OnRefund(cfg, s, blocks, exported)
        case _ => s
  }

  /** What is on the channel to the operator after sending a letter; a stranger's channel leads nowhere. */
  function Posted(c: Connection, letter: Letter, sending: Sending): Connection
  {
    if c.link.Genuine? && Reached(sending, 1) == 1
    then Connection(c.link, c.number, c.quote, c.report, c.sent + [letter]) else c
  }

  function Unlinked(c: Connection): Connection
  {
    Connection(NotConnected, c.number, c.quote, c.report, c.sent)
  }

  function Disconnect(s: State): State
  {
    s.(connection := Unlinked(s.connection), control := Idle)
  }

  /** A broadcast has one entry per player by its layout. */
  predicate IsBroadcast(cfg: Config, letter: Option<Letter>)
  {
    letter.Some? && letter.value.PlayersQuotes? && |letter.value.quotes| == |letter.value.reports| == cfg.numPlayers
  }

  function OnQuotes(cfg: Config, s: State, e: Event): State
    requires e.Quotes?
  {
    if !IsBroadcast(cfg, e.letter) || !e.shown then Disconnect(s)
    else
      var shown := Layouts.Others(e.letter.value.quotes, e.letter.value.reports, s.connection.number, cfg.numPlayers);
      var presented := s.(log := s.log + [Presented(s.connection.number, shown)]);
      if !e.memory then Disconnect(presented)
      else
        var acknowledged := presented.(connection := Posted(s.connection, QuotesOk, e.sending));
        if e.sending.Sent? then acknowledged.(control := AwaitComplete) else Disconnect(acknowledged)
  }

  function OnComplete(s: State, e: Event): State
    requires e.Complete?
  {
    if e.letter == Some(SetupComplete) then s.(control := Idle, log := s.log + [GotComplete]) else Disconnect(s)
  }

  /** Sending without a channel follows a null pointer. */
  function OnDeposit(s: State, prepared: bool, sending: Sending): State
  {
    if s.phase != INITIALIZED then s
    else if !prepared then s.(phase := ABORTED)
    else if s.connection.link == NotConnected then s.(crashed := true)
    else s.(
      phase := if sending.Sent? then DEPOSITED else ABORTED,
      advice := sending.Sent?,
      connection := Posted(s.connection, DepositAndInput(s.me + 1), sending),
      log := s.log + [Deposited])
  }

  predicate FirstSucceed(replies: seq<bool>, n: nat)
  {
    forall k :: 0 <= k < n && k < |replies| ==> replies[k]
  }

  /** The host is shown N + 1 deposits. When only the last callback fails the output is dropped, and yet
      the call succeeds. */
  function OnGetDeposits(cfg: Config, s: State, e: Event): State
    requires e.GetDeposits?
  {
    if s.phase != DEPOSITED then s
    else if s.connection.link == NotConnected then s.(crashed := true)
    else if e.letter.None? || !e.letter.value.ClearContract? then s.(phase := ABORTED)
    else
      var saved := s.(sighash := e.letter.value.sighash, txid := e.letter.value.txid);
      if !e.memory || !FirstSucceed(e.replies, cfg.numPlayers) then saved.(phase := ABORTED, output := None)
      else saved.(
        phase := GOT_DEPOSITS,
        output := if FirstSucceed(e.replies, cfg.numPlayers + 1) then Some(e.output) else None)
  }

  function OnConfirm(s: State, signed: bool, exported: bool, sending: Sending): State
  {
    if s.phase != GOT_DEPOSITS then s
    else if !signed then s.(phase := ABORTED, advice := false)
    else
      var after := s.(advice := false, log := s.log + [Signed(s.sighash)]);
      if !exported then after.(phase := ABORTED)
      else if s.connection.link == NotConnected then after.(crashed := true)
      else after.(
        phase := if sending.Sent? then CONFIRMED_DEPOSITS else ABORTED,
        connection := Posted(s.connection, ConfirmDeposits(Signature(s.me + 1, s.sighash)), sending))
  }

  function OnSettle(cfg: Config, s: State, blocks: seq<byte>, exported: bool): State
  {
    if s.phase != CONFIRMED_DEPOSITS && s.phase != REFUNDED then s
    else
      match Bury(cfg.net, s.txid, blocks)
      case Panic => s.(crashed := true)
      case Count(depth) =>
        if depth < cfg.settleDelay || !exported then s
        else s.(phase := SETTLED, log := s.log + [PayoutKey(blocks, s.txid, s.output)])
  }

  function OnRefund(cfg: Config, s: State, blocks: seq<byte>, exported: bool): State
  {
    if s.phase == SETTLED || ChainLength(cfg.net, blocks) < cfg.refundDelay then s
    else if !s.wallets then s.(crashed := true)
    else if !exported then s
    else s.(phase := REFUNDED, log := s.log + [DepositKey(blocks)])
  }

  function Replay(cfg: Config, s: State, events: seq<Event>): State
  {
    if events == [] then s else Step(cfg, Replay(cfg, s, events[..|events| - 1]), events[|events| - 1])
  }

  // ---- Over all runs ----

  predicate IsRelease(x: Entry)
  {
    x.DepositKey? || x.PayoutKey?
  }

  /** Which entries may come in this order. */
  predicate InOrder(x: Entry, y: Entry)
  {
    && !(x.PayoutKey? && IsRelease(y))
    && !(y.Signed? && (IsRelease(x) || x.Signed?))
    && !(x.Deposited? && y.Deposited?)
  }

  ghost predicate Orderly(log: seq<Entry>)
  {
    forall j, k :: 0 <= j < k < |log| ==> InOrder(log[j], log[k])
  }

  /** What an entry rests on, and which phases it leaves possible. */
  ghost predicate Founded(cfg: Config, s: State, k: nat)
    requires k < |s.log|
  {
    match s.log[k]
    case Presented(_, _) => true
    case GotComplete => true
    case Deposited => GotComplete in s.log[..k] && s.phase != UNINITIALIZED && s.phase != INITIALIZED
    case Signed(sighash) =>
      && sighash == s.sighash
      && s.phase != UNINITIALIZED && s.phase != INITIALIZED && s.phase != DEPOSITED && s.phase != GOT_DEPOSITS
    case DepositKey(blocks) =>
      ChainLength(cfg.net, blocks) >= cfg.refundDelay && (s.phase == REFUNDED || s.phase == SETTLED)
    case PayoutKey(blocks, txid, output) =>
      txid == s.txid && output == s.output && Evidence(cfg, blocks, txid) && s.phase == SETTLED
  }

  predicate Evidence(cfg: Config, blocks: seq<byte>, txid: Hash)
  {
    var v := Bury(cfg.net, txid, blocks);
    v.Count? && v.depth >= cfg.settleDelay
  }

  predicate Underway(phase: Phase)
  {
    phase == DEPOSITED || phase == GOT_DEPOSITS || phase == CONFIRMED_DEPOSITS
  }

  ghost predicate Inv(cfg: Config, s: State)
  {
    && s.wallets == (s.phase != UNINITIALIZED)
    && (s.control.Idle? ==> s.connection.link == NotConnected || GotComplete in s.log)
    && (!s.control.Idle? ==> s.connection.link != NotConnected)
    && (Underway(s.phase) ==> s.control.Idle? && s.connection.link != NotConnected)
    && Orderly(s.log)
    && forall k :: 0 <= k < |s.log| ==> Founded(cfg, s, k)
  }

  /** An entry stays founded and comes before a new one in order. */
  ghost predicate Stands(cfg: Config, s: State, t: State, k: nat)
    requires k < |s.log| <= |t.log|
  {
    && t.log[k] == s.log[k] && t.log[..k] == s.log[..k]
    && Founded(cfg, t, k)
    && (|t.log| > |s.log| ==> InOrder(s.log[k], t.log[|s.log|]))
  }

  /** Enough for the part of the invariant that is about the log. */
  lemma LogKeeps(cfg: Config, s: State, t: State)
    requires Orderly(s.log) && |s.log| <= |t.log| <= |s.log| + 1
    requires forall k :: 0 <= k < |s.log| ==> Stands(cfg, s, t, k)
    requires |t.log| > |s.log| ==> Founded(cfg, t, |s.log|)
    ensures Orderly(t.log)
    ensures forall k :: 0 <= k < |t.log| ==> Founded(cfg, t, k)
  {
    hide Founded, InOrder;
    forall j, k | 0 <= j < k < |t.log|
      ensures InOrder(t.log[j], t.log[k])
    {
      assert Stands(cfg, s, t, j);
      if k < |s.log| {
        assert Stands(cfg, s, t, k);
      }
    }
    forall k | 0 <= k < |t.log|
      ensures Founded(cfg, t, k)
    {
      if k < |s.log| {
        assert Stands(cfg, s, t, k);
      }
    }
  }

  lemma SamePrefix(log: seq<Entry>, longer: seq<Entry>, k: nat)
    requires log <= longer && k <= |log|
    ensures longer[..k] == log[..k]
  {
  }

  lemma QuotesKeep(cfg: Config, s: State, e: Event)
    requires Inv(cfg, s) && s.control == AwaitQuotes && e.Quotes?
    ensures Inv(cfg, OnQuotes(cfg, s, e))
  {
    hide Evidence, ChainLength, Bury, Layouts.Others, Orderly;
    var t := OnQuotes(cfg, s, e);
    assert s.log <= t.log;
    forall k | 0 <= k < |s.log|
      ensures Stands(cfg, s, t, k)
    {
      assert Founded(cfg, s, k);
      SamePrefix(s.log, t.log, k);
    }
    LogKeeps(cfg, s, t);
  }

  lemma CompleteKeeps(cfg: Config, s: State, e: Event)
    requires Inv(cfg, s) && s.control == AwaitComplete && e.Complete?
    ensures Inv(cfg, OnComplete(s, e))
  {
    hide Evidence, ChainLength, Bury, Layouts.Others, Orderly;
    var t := OnComplete(s, e);
    assert s.log <= t.log;
    forall k | 0 <= k < |s.log|
      ensures Stands(cfg, s, t, k)
    {
      assert Founded(cfg, s, k);
      SamePrefix(s.log, t.log, k);
    }
    LogKeeps(cfg, s, t);
  }

  lemma DepositKeeps(cfg: Config, s: State, prepared: bool, sending: Sending)
    requires Inv(cfg, s) && s.control.Idle?
    ensures Inv(cfg, OnDeposit(s, prepared, sending))
  {
    hide Evidence, ChainLength, Bury, Layouts.Others, Orderly;
    var t := OnDeposit(s, prepared, sending);
    assert s.log <= t.log;
    forall k | 0 <= k < |s.log|
      ensures Stands(cfg, s, t, k)
    {
      assert Founded(cfg, s, k);
      SamePrefix(s.log, t.log, k);
    }
    LogKeeps(cfg, s, t);
  }

  lemma GetDepositsKeeps(cfg: Config, s: State, e: Event)
    requires Inv(cfg, s) && s.control.Idle? && e.GetDeposits?
    ensures Inv(cfg, OnGetDeposits(cfg, s, e))
  {
    hide Evidence, ChainLength, Bury, Layouts.Others, Orderly;
    var t := OnGetDeposits(cfg, s, e);
    assert s.log <= t.log;
    forall k | 0 <= k < |s.log|
      ensures Stands(cfg, s, t, k)
    {
      assert Founded(cfg, s, k);
      SamePrefix(s.log, t.log, k);
    }
    LogKeeps(cfg, s, t);
  }

  lemma ConfirmKeeps(cfg: Config, s: State, signed: bool, exported: bool, sending: Sending)
    requires Inv(cfg, s) && s.control.Idle?
    ensures Inv(cfg, OnConfirm(s, signed, exported, sending))
  {
    hide Evidence, ChainLength, Bury, Layouts.Others, Orderly;
    var t := OnConfirm(s, signed, exported, sending);
    assert s.log <= t.log;
    forall k | 0 <= k < |s.log|
      ensures Stands(cfg, s, t, k)
    {
      assert Founded(cfg, s, k);
      SamePrefix(s.log, t.log, k);
    }
    LogKeeps(cfg, s, t);
  }

  lemma SettleKeeps(cfg: Config, s: State, blocks: seq<byte>, exported: bool)
    requires Inv(cfg, s) && s.control.Idle?
    ensures Inv(cfg, OnSettle(cfg, s, blocks, exported))
  {
    hide ChainLength, Bury, Layouts.Others, Orderly;
    var t := OnSettle(cfg, s, blocks, exported);
    assert s.log <= t.log;
    forall k | 0 <= k < |s.log|
      ensures Stands(cfg, s, t, k)
    {
      assert Founded(cfg, s, k);
      SamePrefix(s.log, t.log, k);
    }
    LogKeeps(cfg, s, t);
  }

  lemma RefundKeeps(cfg: Config, s: State, blocks: seq<byte>, exported: bool)
    requires Inv(cfg, s) && s.control.Idle?
    ensures Inv(cfg, OnRefund(cfg, s, blocks, exported))
  {
    hide Evidence, ChainLength, Bury, Layouts.Others, Orderly;
    var t := OnRefund(cfg, s, blocks, exported);
    assert s.log <= t.log;
    forall k | 0 <= k < |s.log|
      ensures Stands(cfg, s, t, k)
    {
      assert Founded(cfg, s, k);
      SamePrefix(s.log, t.log, k);
    }
    LogKeeps(cfg, s, t);
  }

  lemma CallKeeps(cfg: Config, s: State, e: Event)
    requires Inv(cfg, s) && s.control.Idle? && (e.Initialize? || e.Connect? || e.Quotes? || e.Complete?)
    ensures Inv(cfg, Step(cfg, s, e))
  {
    hide Evidence, ChainLength, Bury, Layouts.Others, Orderly;
    var t := Step(cfg, s, e);
    assert s.log <= t.log;
    forall k | 0 <= k < |s.log|
      ensures Stands(cfg, s, t, k)
    {
      assert Founded(cfg, s, k);
      SamePrefix(s.log, t.log, k);
    }
    LogKeeps(cfg, s, t);
  }

  lemma StepKeeps(cfg: Config, s: State, e: Event)
    requires Inv(cfg, s)
    ensures Inv(cfg, Step(cfg, s, e))
  {
    hide OnQuotes, OnComplete, OnDeposit, OnGetDeposits, OnConfirm, OnSettle, OnRefund, Founded, Orderly;
    if s.crashed {
    } else if s.control.AwaitQuotes? {
      if e.Quotes? { QuotesKeep(cfg, s, e); }
    } else if s.control.AwaitComplete? {
      if e.Complete? { CompleteKeeps(cfg, s, e); }
    } else {
      match e
      case Deposit(prepared, sending) => DepositKeeps(cfg, s, prepared, sending);
      case GetDeposits(_, _, _, _) => GetDepositsKeeps(cfg, s, e);
      case Confirm(signed, exported, sending) => ConfirmKeeps(cfg, s, signed, exported, sending);
      case Settle(blocks, exported) => SettleKeeps(cfg, s, blocks, exported);
      case Refund(blocks, exported) => RefundKeeps(cfg, s, blocks, exported);
      case _ => CallKeeps(cfg, s, e);
    }
  }

  lemma {:induction false} ReplayKeeps(cfg: Config, s: State, events: seq<Event>)
    requires Inv(cfg, s)
    ensures Inv(cfg, Replay(cfg, s, events))
  {
    if events != [] {
      ReplayKeeps(cfg, s, events[..|events| - 1]);
      StepKeeps(cfg, Replay(cfg, s, events[..|events| - 1]), events[|events| - 1]);
    }
  }

  // ---- The order of what a player's enclave releases ----

  /** Whoever the player talks to and whatever the host does: deposit keys come first, then at most one
      payout key and no key after it; at most one signature is made, and none after a refund; a deposit
      follows the notice that the contract is live, and there is at most one. */
  lemma {:induction false} ReleaseOrder(cfg: Config, me: nat, events: seq<Event>, j: nat, k: nat)
    requires j < k < |Replay(cfg, Initial(me), events).log|
    ensures var log := Replay(cfg, Initial(me), events).log;
            && (IsRelease(log[j]) && IsRelease(log[k]) ==> log[j].DepositKey?)
            && (log[k].Signed? ==> !log[j].Signed? && !IsRelease(log[j]))
            && (log[k].Deposited? ==> !log[j].Deposited?)
  {
    ReplayKeeps(cfg, Initial(me), events);
    hide Replay;
  }

  /** Every key goes out on evidence, for the settlement the operator announced; every deposit is
      preceded by the notice that the contract is live. */
  lemma {:induction false} ReleasesHaveEvidence(cfg: Config, me: nat, events: seq<Event>, k: nat)
    requires k < |Replay(cfg, Initial(me), events).log|
    ensures var s := Replay(cfg, Initial(me), events);
            match s.log[k]
            case DepositKey(blocks) => ChainLength(cfg.net, blocks) >= cfg.refundDelay
            case PayoutKey(blocks, txid, output) => txid == s.txid && output == s.output && Evidence(cfg, blocks, txid)
            case Signed(sighash) => sighash == s.sighash
            case Deposited => GotComplete in s.log[..k]
            case _ => true
  {
    ReplayKeeps(cfg, Initial(me), events);
    assert Founded(cfg, Replay(cfg, Initial(me), events), k);
    hide Replay, ChainLength, Evidence;
  }

  /** When settling takes at least as many blocks as a refund but one, evidence for the payout also is
      evidence for a refund. */
  lemma {:induction false} PayoutEvidenceRefunds(cfg: Config, blocks: seq<byte>, txid: Hash)
    requires Evidence(cfg, blocks, txid) && cfg.settleDelay > 0 && cfg.settleDelay + 1 >= cfg.refundDelay
    ensures ChainLength(cfg.net, Headers(Parse(cfg.net, blocks))) >= cfg.refundDelay
  {
    SettleEvidenceDominates(cfg.net, txid, blocks);
    hide Bury, ChainLength;
  }

  /** Over every run: an output that is kept, and goes out with the payout key, came with the announcement the
      kept hashes are from. */
  lemma {:induction false} OutputIsAnnounced(cfg: Config, me: nat, events: seq<Event>) returns (k: nat)
    requires Replay(cfg, Initial(me), events).output.Some?
    ensures k < |events| && events[k].GetDeposits?
    ensures var s := Replay(cfg, Initial(me), events);
            events[k].letter == Some(ClearContract(s.sighash, s.txid)) && s.output == Some(events[k].output)
  {
    if events == [] {
      assert false;
    } else {
      var n := |events| - 1;
      var before := Replay(cfg, Initial(me), events[..n]);
      var after := Step(cfg, before, events[n]);
      OutputStays(cfg, before, events[n]);
      hide Replay, Step;
      if before.output == after.output && before.sighash == after.sighash && before.txid == after.txid {
        k := OutputIsAnnounced(cfg, me, events[..n]);
      } else {
        k := n;
      }
    }
  }

  /** Output and hashes change together, with an announcement. */
  lemma OutputStays(cfg: Config, s: State, e: Event)
    ensures var t := Step(cfg, s, e);
            || (t.output == s.output && t.sighash == s.sighash && t.txid == s.txid)
            || t.output.None?
            || (e.GetDeposits? && e.letter == Some(ClearContract(t.sighash, t.txid)) && t.output == Some(e.output))
  {
    hide ChainLength, Bury, Layouts.Others;
  }

  /** The output can be gone although the deposits were got: exactly when the last callback fails. */
  lemma OutputMayBeMissing(cfg: Config, s: State, e: Event)
    requires e.GetDeposits? && |e.replies| == cfg.numPlayers + 1
    requires s.phase == DEPOSITED && s.connection.link != NotConnected
    requires OnGetDeposits(cfg, s, e).phase == GOT_DEPOSITS
    ensures OnGetDeposits(cfg, s, e).output == None <==> !e.replies[cfg.numPlayers]
  {
  }

  /** A run from the start in which the last of the N + 1 callbacks fails: the deposits count as got, and
      there is no output to confirm. */
  lemma {:induction false} LostOutput(cfg: Config, me: nat) returns (events: seq<Event>)
    requires cfg.numPlayers > 0
    ensures var s := Replay(cfg, Initial(me), events);
            !s.crashed && s.phase == GOT_DEPOSITS && s.output == None
  {
    var n := cfg.numPlayers;
    var broadcast := PlayersQuotes(seq<Layouts.Part>(n, _ => []), seq<Layouts.Report>(n, _ => []));
    var announcement := ClearContract(ZeroHash(), ZeroHash());
    events := [];
    events := AddEvent(cfg, me, events, Initialize(true));
    events := AddEvent(cfg, me, events, Connect(Genuine(0), 0, [], []));
    events := AddEvent(cfg, me, events, Quotes(Some(broadcast), true, true, Sent));
    events := AddEvent(cfg, me, events, Complete(Some(SetupComplete)));
    events := AddEvent(cfg, me, events, Deposit(true, Sent));
    hide Replay, Layouts.Others;
    var s := Replay(cfg, Initial(me), events);
    assert s.phase == DEPOSITED && s.connection.link == Genuine(0) && s.control == Idle && !s.crashed;
    hide OnQuotes, OnDeposit, OnComplete;
    var replies := seq(n, _ => true) + [false];
    assert !replies[n] && !FirstSucceed(replies, n + 1);
    events := AddEvent(cfg, me, events, GetDeposits(Some(announcement), [], true, replies));
  }

  lemma {:induction false} AddEvent(cfg: Config, me: nat, events: seq<Event>, e: Event) returns (longer: seq<Event>)
    ensures longer == events + [e]
    ensures Replay(cfg, Initial(me), longer) == Step(cfg, Replay(cfg, Initial(me), events), e)
  {
    longer := events + [e];
    assert longer[..|events|] == events;
  }

  ghost predicate InitializesAt(cfg: Config, me: nat, events: seq<Event>, k: nat)
    requires k < |events|
  {
    var before := Replay(cfg, Initial(me), events[..k]);
    events[k] == Initialize(true) && before.control.Idle? && !before.crashed
  }

  lemma LeavesTheStart(cfg: Config, s: State, e: Event)
    requires Inv(cfg, s)
    ensures Step(cfg, s, e).phase == UNINITIALIZED
       <==> s.phase == UNINITIALIZED && !(e == Initialize(true) && s.control.Idle? && !s.crashed)
  {
    hide ChainLength, Bury, Layouts.Others, Founded, Orderly;
  }

  /** The enclave has left its first phase exactly when an initialization outside connecting has succeeded. */
  lemma {:induction false} InitializedExactly(cfg: Config, me: nat, events: seq<Event>)
    ensures Replay(cfg, Initial(me), events).phase != UNINITIALIZED
       <==> exists k: nat :: k < |events| && InitializesAt(cfg, me, events, k)
  {
    if events != [] {
      var n := |events| - 1;
      var first := events[..n];
      ReplayKeeps(cfg, Initial(me), first);
      LeavesTheStart(cfg, Replay(cfg, Initial(me), first), events[n]);
      InitializedExactly(cfg, me, first);
      forall k: nat | k < n
        ensures InitializesAt(cfg, me, events, k) == InitializesAt(cfg, me, first, k)
      {
        assert first[..k] == events[..k];
      }
      assert InitializesAt(cfg, me, events, n) <==>
        events[n] == Initialize(true)
        && Replay(cfg, Initial(me), first).control.Idle? && !Replay(cfg, Initial(me), first).crashed;
      hide Step, Inv, InitializesAt;
      if k: nat :| k < n && InitializesAt(cfg, me, first, k) {
        assert InitializesAt(cfg, me, events, k);
      }
      if k: nat :| k < n + 1 && InitializesAt(cfg, me, events, k) {
        assert k < n ==> InitializesAt(cfg, me, first, k);
      }
    }
  }

  // ---- When keys go out ----

  /** The settlement is deep enough: the scan gets through without meeting an unlistable block, and when the delay
      is positive it finds the transaction buried that deep. */
  ghost predicate DeepEnough(cfg: Config, txid: Hash, blocks: seq<byte>)
  {
    if cfg.settleDelay == 0 then !ReachesUnlistable(cfg.net, Parse(cfg.net, blocks))
    else exists depth: nat :: depth >= cfg.settleDelay && IsBuried(cfg.net, txid, Parse(cfg.net, blocks), depth)
  }

  lemma {:induction false} EvidenceIsDepth(cfg: Config, txid: Hash, blocks: seq<byte>)
    ensures Evidence(cfg, blocks, txid) <==> DeepEnough(cfg, txid, blocks)
  {
    PanicMeaning(cfg.net, txid, blocks);
    hide Bury, Parse, ReachesUnlistable, IsBuried;
    forall depth: nat | depth > 0
      ensures IsBuried(cfg.net, txid, Parse(cfg.net, blocks), depth) <==> Bury(cfg.net, txid, blocks) == Count(depth)
    {
      BurialMeaning(cfg.net, txid, blocks, depth);
    }
  }

  lemma {:induction false} DeepEnoughGetsThrough(cfg: Config, txid: Hash, blocks: seq<byte>)
    ensures DeepEnough(cfg, txid, blocks) ==> !ReachesUnlistable(cfg.net, Parse(cfg.net, blocks))
  {
    EvidenceIsDepth(cfg, txid, blocks);
    PanicMeaning(cfg.net, txid, blocks);
    hide Bury, Parse, ReachesUnlistable, DeepEnough;
  }

  /** The payout key goes out with the output exactly when the deposits are confirmed or refunded, the settlement
      is deep enough and the key can be exported; the enclave ends exactly when the scan meets an unlistable
      block; otherwise nothing happens. */
  lemma {:induction false} SettleMeaning(cfg: Config, s: State, blocks: seq<byte>, exported: bool)
    requires s.control.Idle? && !s.crashed
    ensures var t := Step(cfg, s, Settle(blocks, exported));
            var asked := s.phase == CONFIRMED_DEPOSITS || s.phase == REFUNDED;
            t == if asked && ReachesUnlistable(cfg.net, Parse(cfg.net, blocks)) then s.(crashed := true)
                 else if asked && exported && DeepEnough(cfg, s.txid, blocks)
                 then s.(phase := SETTLED, log := s.log + [PayoutKey(blocks, s.txid, s.output)])
                 else s
  {
    PanicMeaning(cfg.net, s.txid, blocks);
    EvidenceIsDepth(cfg, s.txid, blocks);
    hide Bury, Parse, ReachesUnlistable, DeepEnough;
  }

  /** The deposit key goes out exactly when the bytes begin with as many proven headers as the refund takes, the
      payout key is not out, and there is a wallet whose key can be exported; without one the enclave ends. */
  lemma {:induction false} RefundMeaning(cfg: Config, s: State, fs: seq<Fields>, rest: seq<byte>, exported: bool)
    requires s.control.Idle? && !s.crashed
    requires (forall i :: 0 <= i < |fs| ==> Sized(fs[i])) && |rest| < HEADER_LENGTH
    ensures var blocks := WriteHeaders(fs) + rest;
            var t := Step(cfg, s, Refund(blocks, exported));
            var due := s.phase != SETTLED && cfg.refundDelay <= |fs|
                       && forall i :: 0 <= i < cfg.refundDelay ==> Proven(cfg.net, fs, i);
            t == if due && !s.wallets then s.(crashed := true)
                 else if due && exported then s.(phase := REFUNDED, log := s.log + [DepositKey(blocks)])
                 else s
  {
    LongEnough(cfg.net, fs, rest, cfg.refundDelay);
    hide ChainLength, Proven, WriteHeaders, Sized;
  }

  // ---- What the other calls come to ----

  /** A letter is on the operator's channel when it is the operator's and sending got as far as it. */
  predicate Arrives(s: State, sending: Sending)
  {
    s.connection.link.Genuine? && (sending.Sent? || sending.reached > 0)
  }

  /** Connecting: the channel stays open exactly when the broadcast has an entry per player and was shown, there
      was memory, the acknowledgement was sent, and the notice came; the log says how far it got. */
  lemma {:induction false} ConnectMeaning(
    cfg: Config, s: State, call: Event, broadcast: Option<Letter>, shown: bool, memory: bool, sending: Sending,
    completion: Option<Letter>)
    requires s.control.Idle? && !s.crashed && call.Connect?
    ensures var t := Replay(cfg, s, [call, Quotes(broadcast, shown, memory, sending), Complete(completion)]);
            if s.connection.link != NotConnected || call.link == NotConnected then t == s
            else
              var readable := shown && broadcast.Some? && broadcast.value.PlayersQuotes?
                && |broadcast.value.quotes| == cfg.numPlayers && |broadcast.value.reports| == cfg.numPlayers;
              var done := readable && memory && sending.Sent? && completion == Some(SetupComplete);
              && t == s.(connection := t.connection, log := t.log)
              && t.connection.link == (if done then call.link else NotConnected)
              && t.connection.number == call.number && t.connection.quote == call.quote
              && t.connection.report == call.report
              && t.connection.sent == (if readable && memory && call.link.Genuine?
                   && (sending.Sent? || sending.reached > 0) then [QuotesOk] else [])
              && t.log == s.log
                   + (if readable then [Presented(call.number, Layouts.Others(
                        broadcast.value.quotes, broadcast.value.reports, call.number, cfg.numPlayers))] else [])
                   + (if done then [GotComplete] else [])
  {
    ReplayThree(cfg, s, call, Quotes(broadcast, shown, memory, sending), Complete(completion));
    hide Layouts.Others, Replay, ChainLength, Bury;
  }

  /** A deposit: without a channel the enclave ends; otherwise it counts exactly when it could be prepared and
      was sent, and a failure aborts. The operator gets the own deposit key. */
  lemma DepositMeaning(cfg: Config, s: State, prepared: bool, sending: Sending)
    requires s.control.Idle? && !s.crashed
    ensures var t := Step(cfg, s, Deposit(prepared, sending));
            if s.phase != INITIALIZED then t == s
            else if !prepared then t == s.(phase := ABORTED)
            else if s.connection.link == NotConnected then t == s.(crashed := true)
            else
              && t == s.(phase := t.phase, advice := t.advice, connection := t.connection, log := s.log + [Deposited])
              && t.phase == (if sending.Sent? then DEPOSITED else ABORTED) && (t.advice <==> sending.Sent?)
              && t.connection == s.connection.(sent := t.connection.sent)
              && t.connection.sent == s.connection.sent +
                   (if Arrives(s, sending) then [DepositAndInput(s.me + 1)] else [])
  {
    hide ChainLength, Bury;
  }

  /** The announcement: a letter of another type, no memory or a failure among the first N callbacks abort; the
      announced hashes are kept once there is one, and its output when all N + 1 callbacks succeed. */
  lemma GetDepositsMeaning(cfg: Config, s: State, e: Event)
    requires s.control.Idle? && !s.crashed && e.GetDeposits? && |e.replies| == cfg.numPlayers + 1
    ensures var t := Step(cfg, s, e);
            if s.phase != DEPOSITED then t == s
            else if s.connection.link == NotConnected then t == s.(crashed := true)
            else if e.letter.None? || !e.letter.value.ClearContract? then t == s.(phase := ABORTED)
            else
              var got := e.memory && forall k :: 0 <= k < cfg.numPlayers ==> e.replies[k];
              && t == s.(phase := t.phase, output := t.output, sighash := t.sighash, txid := t.txid)
              && e.letter.value == ClearContract(t.sighash, t.txid)
              && t.phase == (if got then GOT_DEPOSITS else ABORTED)
              && t.output == (if got && e.replies[cfg.numPlayers] then Some(e.output) else None)
  {
    hide ChainLength, Bury;
  }

  /** Confirming: the kept hash is signed with the own key once signing works, and the signature is sent when it
      can be exported and there is a channel; without one the enclave ends. */
  lemma ConfirmMeaning(cfg: Config, s: State, signed: bool, exported: bool, sending: Sending)
    requires s.control.Idle? && !s.crashed
    ensures var t := Step(cfg, s, Confirm(signed, exported, sending));
            if s.phase != GOT_DEPOSITS then t == s
            else if !signed then t == s.(phase := ABORTED, advice := false)
            else
              var posted := exported && s.connection.link != NotConnected;
              && t == s.(phase := t.phase, advice := false, connection := t.connection, crashed := t.crashed,
                         log := s.log + [Signed(s.sighash)])
              && (t.crashed <==> exported && s.connection.link == NotConnected)
              && t.phase == (if posted && sending.Sent? then CONFIRMED_DEPOSITS
                             else if t.crashed then GOT_DEPOSITS else ABORTED)
              && t.connection == s.connection.(sent := t.connection.sent)
              && t.connection.sent == s.connection.sent +
                   (if posted && Arrives(s, sending) then [ConfirmDeposits(Signature(s.me + 1, s.sighash))] else [])
  {
    hide ChainLength, Bury;
  }

  // ---- The enclave ----

  lemma {:induction false} ReplayThree(cfg: Config, s: State, a: Event, b: Event, c: Event)
    ensures Replay(cfg, s, [a, b, c]) == Step(cfg, Step(cfg, Step(cfg, s, a), b), c)
  {
    assert [a, b, c][..2] == [a, b] && [a, b][..1] == [a] && [a][..0] == [];
    assert Replay(cfg, s, [a]) == Step(cfg, s, a);
    assert Replay(cfg, s, [a, b]) == Step(cfg, Step(cfg, s, a), b);
    hide Step;
  }

  /** Between ECALLs a message is not looked at. */
  lemma StillIdle(cfg: Config, s: State, e: Event)
    requires e.Quotes? || e.Complete?
    ensures s.control.Idle? ==> Step(cfg, s, e) == s
  {
  }

  class Enclave {
    const cfg: Config
    const me: nat
    var connection: Connection
    var phase: Phase
    var wallets: bool
    var sighash: Hash
    var txid: Hash
    var output: Option<Layouts.Part>
    var advice: bool
    // A null pointer was followed or a panic crossed the boundary: no further ECALL gets in
    var crashed: bool
    // The enclave's history
    var log: seq<Entry>
    // The message waited for
    ghost var control: Control

    ghost function View(): State
      reads this
    {
      State(me, connection, phase, wallets, control, sighash, txid, output, advice, crashed, log)
    }

    /** No ECALL is running: there is one thread. */
    ghost predicate Ready()
      reads this
    {
      control.Idle? && !crashed
    }

    constructor (cfg: Config, me: nat)
      ensures this.cfg == cfg && View() == Initial(me)
    {
      this.cfg, this.me, connection := cfg, me, Connection(NotConnected, 0, [], [], []);
      phase, wallets, control := UNINITIALIZED, false, Idle;
      sighash, txid, output, advice := ZeroHash(), ZeroHash(), None, false;
      crashed, log := false, [];
    }

    method EcallInitialize(ok: bool) returns (done: bool)
      requires Ready()
      modifies this
      ensures View() == Step(cfg, old(View()), Initialize(ok))
      ensures done <==> old(phase) == UNINITIALIZED && phase == INITIALIZED
    {
      if phase != UNINITIALIZED {
        return false;
      }
      if !ok {
        return false;
      }
      wallets := true;
      phase := INITIALIZED;
      return true;
    }

    /** A letter goes out; only the operator's own channel is kept track of. */
    method Post(letter: Letter, sending: Sending)
      requires connection.link != NotConnected
      modifies `connection
      ensures connection == Posted(old(connection), letter, sending)
    {
      if connection.link.Genuine? && Reached(sending, 1) == 1 {
        connection := connection.(sent := connection.sent + [letter]);
      }
    }

    method EcallConnectToOperator(
      call: Event, broadcast: Option<Letter>, shown: bool, memory: bool, sending: Sending, completion: Option<Letter>)
      returns (done: bool)
      requires Ready() && call.Connect?
      modifies this
      ensures View() == Replay(cfg, old(View()),
          [call, Quotes(broadcast, shown, memory, sending), Complete(completion)])
      ensures done <==> old(connection.link) == NotConnected && connection.link != NotConnected
    {
      ReplayThree(cfg, View(), call, Quotes(broadcast, shown, memory, sending), Complete(completion));
      done := OpenChannel(call);
      StillIdle(cfg, View(), Quotes(broadcast, shown, memory, sending));
      StillIdle(cfg, View(), Complete(completion));
      hide Step, Replay;
      if !done {
        return;
      }
      done := PresentQuotes(broadcast, shown, memory, sending);
      StillIdle(cfg, View(), Complete(completion));
      if !done {
        return;
      }
      done := AwaitCompletion(completion);
    }

    method OpenChannel(call: Event) returns (done: bool)
      requires Ready() && call.Connect?
      modifies `connection, `control
      ensures View() == Step(cfg, old(View()), call)
      ensures control == if done then AwaitQuotes else Idle
      ensures done <==> old(connection.link) == NotConnected && connection.link != NotConnected
    {
      hide OnQuotes, OnComplete, OnDeposit, OnGetDeposits, OnConfirm, OnSettle, OnRefund;
      if connection.link != NotConnected {
        return false;
      }
      if call.link == NotConnected {
        return false;
      }
      connection := Connection(call.link, call.number, call.quote, call.report, []);
      control := AwaitQuotes;
      return true;
    }

    method TearDown()
      modifies `connection, `control
      ensures View() == Disconnect(old(View()))
    {
      connection := connection.(link := NotConnected);
      control := Idle;
    }

    /** Up to the wait for the notice that the contract is live. */
    method PresentQuotes(broadcast: Option<Letter>, shown: bool, memory: bool, sending: Sending) returns (done: bool)
      requires control == AwaitQuotes && !crashed && connection.link != NotConnected
      modifies `control, `connection, `log
      ensures View() == Step(cfg, old(View()), Quotes(broadcast, shown, memory, sending))
      ensures control == if done then AwaitComplete else Idle
      ensures connection.link == if done then old(connection.link) else NotConnected
    {
      hide Layouts.Others;
      if !IsBroadcast(cfg, broadcast) || !shown {
        TearDown();
        return false;
      }
      log := log + [Presented(
        connection.number,
        Layouts.Others(broadcast.value.quotes, broadcast.value.reports, connection.number, cfg.numPlayers))];
      if !memory {
        TearDown();
        return false;
      }
      Post(QuotesOk, sending);
      if !sending.Sent? {
        TearDown();
        return false;
      }
      control := AwaitComplete;
      return true;
    }

    method AwaitCompletion(completion: Option<Letter>) returns (done: bool)
      requires control == AwaitComplete && !crashed
      modifies `control, `connection, `log
      ensures View() == Step(cfg, old(View()), Complete(completion))
      ensures connection.link == if done then old(connection.link) else NotConnected
    {
      if completion != Some(SetupComplete) {
        TearDown();
        return false;
      }
      control := Idle;
      log := log + [GotComplete];
      return true;
    }

    method EcallDepositAndInput(prepared: bool, sending: Sending) returns (done: bool)
      requires Ready()
      modifies this
      ensures View() == Step(cfg, old(View()), Deposit(prepared, sending))
      ensures done <==> old(phase) == INITIALIZED && phase == DEPOSITED
    {
      hide OnQuotes, OnComplete, OnGetDeposits, OnConfirm, OnSettle, OnRefund;
      if phase != INITIALIZED {
        return false;
      }
      if !prepared {
        phase := ABORTED;
        return false;
      }
      if connection.link == NotConnected {
        crashed := true;
        return false;
      }
      Post(DepositAndInput(me + 1), sending);
      log := log + [Deposited];
      advice := sending.Sent?;
      phase := if sending.Sent? then DEPOSITED else ABORTED;
      return sending.Sent?;
    }

    method EcallGetDeposits(letter: Option<Letter>, result: Layouts.Part, memory: bool, replies: seq<bool>)
      returns (done: bool)
      requires Ready() && |replies| == cfg.numPlayers + 1
      modifies this
      ensures View() == Step(cfg, old(View()), GetDeposits(letter, result, memory, replies))
      ensures done <==> old(phase) == DEPOSITED && phase == GOT_DEPOSITS
    {
      hide OnQuotes, OnComplete, OnDeposit, OnConfirm, OnSettle, OnRefund;
      if phase != DEPOSITED {
        return false;
      }
      if connection.link == NotConnected {
        crashed := true;
        return false;
      }
      if letter.None? || !letter.value.ClearContract? {
        phase := ABORTED;
        return false;
      }
      sighash, txid := letter.value.sighash, letter.value.txid;
      if !memory {
        phase, output := ABORTED, None;
        return false;
      }
      output := Some(result);
      for i := 0 to cfg.numPlayers
        invariant phase == DEPOSITED && output == Some(result)
        invariant FirstSucceed(replies, i)
      {
        if !replies[i] {
          phase, output := ABORTED, None;
          return false;
        }
      }
      if !replies[cfg.numPlayers] {
        output := None;
      }
      phase := GOT_DEPOSITS;
      return true;
    }

    method EcallConfirmDeposits(signed: bool, exported: bool, sending: Sending) returns (done: bool)
      requires Ready()
      modifies this
      ensures View() == Step(cfg, old(View()), Confirm(signed, exported, sending))
      ensures done <==> old(phase) == GOT_DEPOSITS && phase == CONFIRMED_DEPOSITS
    {
      hide OnQuotes, OnComplete, OnDeposit, OnGetDeposits, OnSettle, OnRefund;
      if phase != GOT_DEPOSITS {
        return false;
      }
      advice := false;
      if !signed {
        phase := ABORTED;
        return false;
      }
      log := log + [Signed(sighash)];
      if !exported {
        phase := ABORTED;
        return false;
      }
      if connection.link == NotConnected {
        crashed := true;
        return false;
      }
      Post(ConfirmDeposits(Signature(me + 1, sighash)), sending);
      phase := if sending.Sent? then CONFIRMED_DEPOSITS else ABORTED;
      return sending.Sent?;
    }

    method EcallSettle(blocks: seq<byte>, exported: bool) returns (done: bool)
      requires Ready()
      modifies this
      ensures View() == Step(cfg, old(View()), Settle(blocks, exported))
      ensures done <==> log != old(log)
    {
      hide Bury, ChainLength, OnQuotes, OnComplete, OnDeposit, OnGetDeposits, OnConfirm, OnRefund;
      if phase != CONFIRMED_DEPOSITS && phase != REFUNDED {
        return false;
      }
      var v := AuthorizedAndBuried(cfg.net, txid, blocks);
      if v.Panic? {
        crashed := true;
        return false;
      }
      if v.depth < cfg.settleDelay {
        return false;
      }
      if !exported {
        return false;
      }
      log := log + [PayoutKey(blocks, txid, output)];
      phase := SETTLED;
      return true;
    }

    method EcallRefund(blocks: seq<byte>, exported: bool) returns (done: bool)
      requires Ready()
      modifies this
      ensures View() == Step(cfg, old(View()), Refund(blocks, exported))
      ensures done <==> log != old(log)
    {
      hide OnQuotes, OnComplete, OnDeposit, OnGetDeposits, OnConfirm, OnSettle;
      if phase == SETTLED {
        return false;
      }
      var count := BlocksSinceCheckpoint(cfg.net, blocks);
      if count < cfg.refundDelay {
        return false;
      }
      if !wallets {
        crashed := true;
        return false;
      }
      if !exported {
        return false;
      }
      log := log + [DepositKey(blocks)];
      phase := REFUNDED;
      return true;
    }
  }
}
