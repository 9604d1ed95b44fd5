/** The operator's registry of connected players. */
module Players {
  import opened Bytes
  import opened Options
  import opened Layouts

  /** A player as the operator keeps it: the channel is known by its session key. */
  datatype Player = Player(id: nat, key: seq<byte>, quote: Part, report: Report)

  type Slots = seq<Option<Player>>

  function Filled(slots: Slots): (n: nat)
    ensures n <= |slots|
  {
    if slots == [] then 0
    else Filled(slots[..|slots| - 1]) + if slots[|slots| - 1].Some? then 1 else 0
  }

  predicate IdOk(slots: Slots, id: nat)
  {
    0 < id <= |slots| && slots[id - 1].None?
  }

  /** Slot j holds the player with id j + 1, if any. */
  predicate InPlace(slots: Slots)
  {
    forall j :: 0 <= j < |slots| ==> slots[j].Some? ==> slots[j].value.id == j + 1
  }

  lemma {:induction false} FillingCounts(slots: Slots, j: nat, player: Player)
    requires j < |slots| && slots[j].None?
    ensures Filled(slots[j := Some(player)]) == Filled(slots) + 1
  {
    var last := |slots| - 1;
    if j < last {
      FillingCounts(slots[..last], j, player);
      assert slots[j := Some(player)][..last] == slots[..last][j := Some(player)];
    } else {
      assert slots[j := Some(player)][..last] == slots[..last];
    }
  }

  /** The count is the number of slots exactly when there is no empty slot. */
  lemma {:induction false} FilledMeaning(slots: Slots)
    ensures Filled(slots) == |slots| <==> forall j :: 0 <= j < |slots| ==> slots[j].Some?
    ensures Filled(slots) == 0 <==> forall j :: 0 <= j < |slots| ==> slots[j].None?
  {
    if slots != [] {
      FilledMeaning(slots[..|slots| - 1]);
      assert forall j :: 0 <= j < |slots| - 1 ==> slots[..|slots| - 1][j] == slots[j];
    }
  }

  class Registry {
    var players: array<Option<Player>>
    var playersConnected: nat

    /** The counter is the number of filled slots, and everyone is in their own slot. */
    ghost predicate Valid()
      reads this, players
    {
      InPlace(players[..]) && playersConnected == Filled(players[..])
    }

    constructor (numPlayers: nat)
      ensures Valid() && fresh(players) && players.Length == numPlayers
      ensures forall j :: 0 <= j < numPlayers ==> players[j].None?
    {
      players := new Option<Player>[numPlayers](_ => None);
      playersConnected := 0;
      new;
      FilledMeaning(players[..]);
    }

    method PlayerIdOk(id: nat) returns (ok: bool)
      ensures ok <==> IdOk(players[..], id)
    {
      ok := id != 0 && id <= players.Length && players[id - 1].None?;
    }

    /** The assertion in the source is the precondition. */
    method AddPlayer(player: Player)
      requires Valid() && IdOk(players[..], player.id)
      modifies players, `playersConnected
      ensures Valid() && players[..] == old(players[..])[player.id - 1 := Some(player)]
    {
      FillingCounts(players[..], player.id - 1, player);
      players[player.id - 1] := Some(player);
      playersConnected := playersConnected + 1;
      assert players[..] == old(players[..])[player.id - 1 := Some(player)];
    }

    /** The counter tells whether a slot is empty. */
    method AllPlayersConnected() returns (all: bool)
      requires Valid()
      ensures all <==> forall j :: 0 <= j < players.Length ==> players[j].Some?
    {
      FilledMeaning(players[..]);
      all := playersConnected == players.Length;
    }

    /** Shows the host every quote and packs the broadcast; replies are the host's answers. With everyone
        connected no slot it looks into is empty. */
    method PresentQuotes(replies: seq<bool>, memory: bool) returns (payload: Outcome<Quotes>)
      requires Valid() && |replies| == players.Length
      requires forall j :: 0 <= j < players.Length ==> players[j].Some?
      ensures payload.Failed? <==> !memory || exists j :: 0 <= j < |replies| && !replies[j]
      ensures payload.Outside? ==> QuotesHeader(players.Length) + |Concat(QuotesOf(players[..]))| >= U32_LIMIT
      ensures payload.Done? ==> QuotesHeader(players.Length) + |Concat(QuotesOf(players[..]))| < U32_LIMIT
      ensures payload.Done? ==> payload.value == Quotes(ReportsOf(players[..]), Packed(QuotesOf(players[..])))
    {
      var quotes: seq<Part>, reports: seq<Report> := [], [];
      for i := 0 to players.Length
        invariant forall k :: 0 <= k < i ==> replies[k]
        invariant |quotes| == |reports| == i
        invariant forall k :: 0 <= k < i ==>
            quotes[k] == players[k].value.quote && reports[k] == players[k].value.report
      {
        if !replies[i] {
          return Failed;
        }
        quotes := quotes + [players[i].value.quote];
        reports := reports + [players[i].value.report];
      }
      if !memory {
        return Failed;
      }
      assert quotes == QuotesOf(players[..]) && reports == ReportsOf(players[..]);
      payload := PackQuotes(reports, quotes);
    }
  }

  function QuotesOf(slots: Slots): (r: seq<Part>)
    requires forall j :: 0 <= j < |slots| ==> slots[j].Some?
    ensures |r| == |slots|
  {
    seq(|slots|, j requires 0 <= j < |slots| => slots[j].value.quote)
  }

  function ReportsOf(slots: Slots): (r: seq<Report>)
    requires forall j :: 0 <= j < |slots| ==> slots[j].Some?
    ensures |r| == |slots|
  {
    seq(|slots|, j requires 0 <= j < |slots| => slots[j].value.report)
  }
}
