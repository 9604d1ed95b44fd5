/** What operator and players say to each other once their channels are encrypted. */
module Wire {
  import opened Blocks
  import Layouts
  import opened Merkle

  /** The build-time constants; ids of players are 1 to numPlayers. */
  datatype Config = Config(net: Network, numPlayers: nat, settleDelay: nat, refundDelay: nat)

  /** Signatures are ideal: the deposit key `signer` signed `sighash`. Key 0 is the operator's. */
  datatype Signature = Signature(signer: nat, sighash: Hash)

  datatype Letter =
    | PlayersQuotes(quotes: seq<Layouts.Part>, reports: seq<Layouts.Report>)
    | QuotesOk
    | SetupComplete
    | DepositAndInput(key: nat)
    | ClearContract(sighash: Hash, txid: Hash)
    | ConfirmDeposits(signature: Signature)

  /** The message types of messages.h. */
  function Kind(letter: Letter): nat
  {
    match letter
    case PlayersQuotes(_, _) => 3
    case QuotesOk => 4
    case SetupComplete => 5
    case DepositAndInput(_) => 6
    case ClearContract(_, _) => 7
    case ConfirmDeposits(_) => 8
  }

  /** Which letters only the operator sends; players send the others. */
  predicate FromOperator(letter: Letter)
  {
    letter.PlayersQuotes? || letter.SetupComplete? || letter.ClearContract?
  }

  /** How sending ends. The host may deliver a message and still report an error. */
  datatype Sending = Sent | Failed(reached: nat)

  /** How many of n receivers a message reaches that is sent to one after the other. */
  function Reached(sending: Sending, n: nat): (r: nat)
    ensures r <= n && (sending.Sent? ==> r == n)
  {
    if sending.Sent? || sending.reached > n then n else sending.reached
  }
}
