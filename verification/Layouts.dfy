/** The offset tables inside payloads: packed by one party, sliced by the other. */
module Layouts {
  import opened Bytes
  import opened Options

  type Part = seq<byte>

  /** Subtraction on uint32_t. */
  function Sub32(a: nat, b: nat): (r: nat)
    requires a < U32_LIMIT && b < U32_LIMIT
    ensures r < U32_LIMIT && r == if b <= a then a - b else a - b + U32_LIMIT
  {
    (a - b) % U32_LIMIT
  }

  /** How packing or slicing ends. Outside stands for a copy that leaves the message: what it reads or
      writes there is not part of the model. */
  datatype Outcome<+T> = Done(value: T) | Failed | Outside

  /** Reading a number of bytes of a data area. */
  function ReadAt(data: seq<byte>, start: nat, length: nat): Option<Part>
  {
    if start + length <= |data| then Some(data[start..start + length]) else None
  }

  /** Reading from one offset to another: the length is a difference on uint32_t. */
  function ReadRange(data: seq<byte>, start: nat, end: nat): (part: Option<Part>)
    requires start < U32_LIMIT && end < U32_LIMIT && |data| < U32_LIMIT
    ensures part == if start <= end <= |data| then Some(data[start..end]) else None
  {
    ReadAt(data, start, Sub32(end, start))
  }

  // ---- Tables ----

  /** A data area and where each part of it starts; a part reaches to the next one, the last to the end. */
  datatype Table = Table(starts: seq<nat>, data: seq<byte>)

  function Start(parts: seq<Part>, i: nat): nat
    requires i <= |parts|
  {
    |Concat(parts[..i])|
  }

  function Packed(parts: seq<Part>): (t: Table)
    ensures |t.starts| == |parts|
  {
    Table(seq(|parts|, i requires 0 <= i < |parts| => Start(parts, i)), Concat(parts))
  }

  function End(t: Table, i: nat): nat
    requires i < |t.starts|
  {
    if i + 1 < |t.starts| then t.starts[i + 1] else |t.data|
  }

  /** Offsets and sizes of a message are uint32_t. */
  predicate OnUint32(t: Table)
  {
    |t.data| < U32_LIMIT && forall i :: 0 <= i < |t.starts| ==> t.starts[i] < U32_LIMIT
  }

  /** Part i lies in the data area. */
  predicate Within(t: Table, i: nat)
  {
    i < |t.starts| && t.starts[i] <= End(t, i) <= |t.data|
  }

  /** The parts cover the data area from its first byte to its last, without gap or overlap. */
  predicate Tiling(t: Table)
  {
    |t.starts| > 0 && t.starts[0] == 0 && forall i :: 0 <= i < |t.starts| ==> Within(t, i)
  }

  function Slice(t: Table, i: nat): Part
    requires Within(t, i)
  {
    t.data[t.starts[i]..End(t, i)]
  }

  /** All parts; those that do not lie in the data area are left empty. */
  function Slices(t: Table): (parts: seq<Part>)
    ensures |parts| == |t.starts|
    ensures forall i :: 0 <= i < |parts| && Within(t, i) ==> parts[i] == Slice(t, i)
  {
    seq(|t.starts|, i requires 0 <= i < |t.starts| => if Within(t, i) then Slice(t, i) else [])
  }

  lemma {:induction false} PackedEnds(parts: seq<Part>, i: nat)
    requires i < |parts|
    ensures Packed(parts).starts[i] == Start(parts, i)
    ensures End(Packed(parts), i) == Start(parts, i + 1) == Start(parts, i) + |parts[i]| <= |Concat(parts)|
    ensures Concat(parts)[Start(parts, i)..Start(parts, i + 1)] == parts[i]
  {
    ConcatSlice(parts, i);
    var t := Packed(parts);
    assert t.starts[i] == Start(parts, i);
    if i + 1 < |parts| {
      assert t.starts[i + 1] == Start(parts, i + 1);
    } else {
      assert parts[..i + 1] == parts;
    }
    hide Concat, Packed;
  }

  /** Slicing undoes packing. */
  lemma SlicesOfPacked(parts: seq<Part>)
    requires parts != []
    ensures Tiling(Packed(parts)) && Slices(Packed(parts)) == parts
  {
    forall i | 0 <= i < |parts|
      ensures Packed(parts).starts[i] <= End(Packed(parts), i) <= |Concat(parts)|
      ensures Concat(parts)[Packed(parts).starts[i]..End(Packed(parts), i)] == parts[i]
    {
      PackedEnds(parts, i);
    }
  }

  lemma {:induction false} SlicesBefore(t: Table, i: nat)
    requires Tiling(t) && i < |t.starts|
    ensures Within(t, i) && Concat(Slices(t)[..i + 1]) == t.data[..End(t, i)]
  {
    var parts := Slices(t);
    assert Within(t, i);
    assert parts[..i + 1] == parts[..i] + [parts[i]];
    ConcatSplit(parts[..i], [parts[i]]);
    assert Concat([parts[i]]) == Slice(t, i);
    if i > 0 {
      SlicesBefore(t, i - 1);
    }
  }

  lemma SliceStart(t: Table, i: nat)
    requires Tiling(t) && i < |t.starts|
    ensures Start(Slices(t), i) == t.starts[i]
  {
    if i > 0 {
      SlicesBefore(t, i - 1);
    }
  }

  /** Packing undoes slicing, so every tiling table is the table of its slices. */
  lemma PackedOfSlices(t: Table)
    requires Tiling(t)
    ensures Packed(Slices(t)) == t
  {
    var parts := Slices(t);
    forall i | 0 <= i < |parts|
      ensures Packed(parts).starts[i] == t.starts[i]
    {
      SliceStart(t, i);
    }
    SlicesBefore(t, |parts| - 1);
    assert parts[..|parts|] == parts;
    hide Slices, Concat;
  }

  /** Reading a part back, given where it ends. */
  function ReadPart(t: Table, i: nat, end: nat): (part: Option<Part>)
    requires OnUint32(t) && i < |t.starts| && end == End(t, i)
    ensures part.Some? <==> Within(t, i)
    ensures part.Some? ==> part.value == Slices(t)[i]
  {
    ReadRange(t.data, t.starts[i], end)
  }

  // ---- Writing a data area ----

  /** memcpy into a data area of which the first `at` bytes are written. */
  method Append(data: array<byte>, at: nat, part: Part)
    requires at + |part| <= data.Length
    modifies data
    ensures data[..at + |part|] == old(data[..at]) + part
  {
    for i := 0 to |part|
      invariant data[..at] == old(data[..at])
      invariant data[at..at + i] == part[..i]
    {
      data[at + i] := part[i];
    }
  }

  method TotalLength(parts: seq<Part>) returns (total: nat)
    ensures total == |Concat(parts)|
  {
    total := 0;
    for i := 0 to |parts|
      invariant total == Start(parts, i)
    {
      PackedEnds(parts, i);
      total := total + |parts[i]|;
    }
    assert parts[..|parts|] == parts;
  }

  /** The first n parts are in place. */
  ghost predicate Written(parts: seq<Part>, n: nat, data: seq<byte>, starts: seq<nat>)
  {
    && n <= |parts| == |starts| && Start(parts, n) <= |data|
    && data[..Start(parts, n)] == Concat(parts[..n])
    && starts[..n] == Packed(parts).starts[..n]
  }

  lemma {:induction false} AllWritten(parts: seq<Part>, data: seq<byte>, starts: seq<nat>)
    requires Written(parts, |parts|, data, starts) && |data| <= |Concat(parts)|
    ensures Table(starts, data) == Packed(parts)
  {
    assert parts[..|parts|] == parts;
    assert starts[..|parts|] == starts && data[..|data|] == data;
    assert Packed(parts).starts[..|parts|] == Packed(parts).starts;
  }

  /** Notes where the next part starts, copies it there and moves the running offset past it, unless the
      copy would run past the data area. */
  method AppendPart(ghost parts: seq<Part>, n: nat, part: Part, offset: nat, data: array<byte>, starts: array<nat>)
    returns (next: nat, ok: bool)
    requires n < |parts| && part == parts[n] && offset == Start(parts, n)
    requires Written(parts, n, data[..], starts[..])
    modifies data, starts
    ensures ok <==> Start(parts, n + 1) <= data.Length
    ensures ok ==> next == Start(parts, n + 1) && Written(parts, n + 1, data[..], starts[..])
  {
    PackedEnds(parts, n);
    ConcatSlice(parts, n);
    if offset + |part| > data.Length {
      return offset, false;
    }
    starts[n] := offset;
    Append(data, offset, part);
    next, ok := offset + |part|, true;
    assert data[..][..next] == data[..next] == Concat(parts[..n + 1]);
    assert starts[..][..n + 1] == Packed(parts).starts[..n + 1];
  }

  /** The size of a message on uint32_t. */
  function Size32(header: nat, total: nat): (r: nat)
    ensures r < U32_LIMIT
    ensures header + total < U32_LIMIT ==> r == header + total
    ensures header + total >= U32_LIMIT ==> r < header + total
  {
    (header + total) % U32_LIMIT
  }

  lemma {:induction false} StartsGrow(parts: seq<Part>, n: nat)
    requires n <= |parts|
    ensures Start(parts, n) <= |Concat(parts)| == Start(parts, |parts|)
  {
    assert parts[..|parts|] == parts;
    ConcatPrefix(parts, n);
  }

  /** The length of the data area behind a header. */
  function PayloadEnd(size: nat, header: nat): (r: nat)
    requires header <= size < U32_LIMIT
    ensures r == size - header
  {
    Sub32(size, header)
  }

  // ---- The clear-contract payload ----

  /** table.starts holds output_offset and then deposit_transactions_offsets. */
  datatype ClearContract = ClearContract(sighash: seq<byte>, txid: seq<byte>, table: Table)

  function ClearHeader(players: nat): nat
  {
    64 + 4 + 4 * (players + 1)
  }

  /** What a player is sent: their output, the collateral transaction, everyone's deposit transactions. */
  function ClearParts(output: Part, collateral: Part, deposits: seq<Part>): seq<Part>
  {
    [output, collateral] + deposits
  }

  method PackClearContract(sighash: seq<byte>, txid: seq<byte>, output: Part, collateral: Part, deposits: seq<Part>)
    returns (payload: Outcome<ClearContract>)
    ensures payload ==
      if 32 + 32 + 4 + 4 * (|deposits| + 1) + |Concat([output, collateral] + deposits)| < U32_LIMIT
      then Done(ClearContract(sighash, txid, Packed(ClearParts(output, collateral, deposits))))
      else Outside
  {
    ghost var parts := ClearParts(output, collateral, deposits);
    var header := ClearHeader(|deposits|);
    var total := TotalLength(ClearParts(output, collateral, deposits));
    var size := Size32(header, total);
    if size < header {
      return Outside;
    }
    var data := new byte[size - header];
    var starts := new nat[2 + |deposits|];
    StartsGrow(parts, 1);
    StartsGrow(parts, 2);
    var offset, ok := AppendPart(parts, 0, output, 0, data, starts);
    if !ok {
      return Outside;
    }
    offset, ok := AppendPart(parts, 1, collateral, offset, data, starts);
    if !ok {
      return Outside;
    }
    for i := 0 to |deposits|
      invariant offset == Start(parts, i + 2) && Written(parts, i + 2, data[..], starts[..])
    {
      StartsGrow(parts, i + 3);
      offset, ok := AppendPart(parts, i + 2, deposits[i], offset, data, starts);
      if !ok {
        return Outside;
      }
    }
    StartsGrow(parts, |parts|);
    AllWritten(parts, data[..], starts[..]);
    return Done(ClearContract(sighash, txid, Table(starts[..], data[..])));
  }

  /** The output is saved and the deposits before the j-th are shown, and the j-th part is not in the message. */
  ghost predicate LeavesAt(t: Table, replies: seq<bool>, j: nat)
  {
    && j < |t.starts| <= |replies| + 1 && !Within(t, j)
    && (forall k :: 0 <= k < j ==> Within(t, k))
    && (forall k :: 0 <= k < j - 1 ==> replies[k])
  }

  /** The player's side: saves the output and shows the host one deposit after the other. replies are the
      host's answers. A failure on the last answer drops the output but is not reported. */
  method UnpackClearContract(payload: ClearContract, payloadSize: nat, memory: bool, replies: seq<bool>)
    returns (output: Option<Part>, shown: seq<Part>, outcome: Outcome<()>)
    requires OnUint32(payload.table) && |payload.table.starts| == |replies| + 1 > 1
    requires payloadSize == ClearHeader(|replies| - 1) + |payload.table.data| < U32_LIMIT
    ensures |shown| <= |replies| && forall i :: 0 <= i < |shown| ==> shown[i] == Slices(payload.table)[i + 1]
    ensures outcome.Done? <==>
            && memory && (forall i :: 0 <= i <= |replies| ==> Within(payload.table, i))
            && forall i :: 0 <= i < |replies| - 1 ==> replies[i]
    ensures outcome.Outside? <==> memory && exists j :: LeavesAt(payload.table, replies, j)
    ensures outcome.Done? ==> |shown| == |replies|
    ensures output == if outcome.Done? && replies[|replies| - 1] then Some(Slices(payload.table)[0]) else None
  {
    hide Slices, ReadPart, Sub32;
    var table, players := payload.table, |replies| - 1;
    shown := [];
    if !memory {
      return None, [], Failed;
    }
    var saved := ReadPart(table, 0, table.starts[1]);
    if saved.None? {
      assert LeavesAt(table, replies, 0);
      return None, [], Outside;
    }
    for i := 0 to players
      invariant forall k :: 0 <= k < i ==> replies[k]
      invariant forall k :: 0 <= k <= i ==> Within(table, k)
      invariant |shown| == i && forall k :: 0 <= k < i ==> shown[k] == Slices(table)[k + 1]
    {
      var deposit := ReadPart(table, i + 1, table.starts[i + 2]);
      if deposit.None? {
        assert LeavesAt(table, replies, i + 1);
        return None, shown, Outside;
      }
      shown := shown + [deposit.value];
      if !replies[i] {
        return None, shown, Failed;
      }
    }
    var last := ReadPart(table, players + 1, PayloadEnd(payloadSize, ClearHeader(players)));
    if last.None? {
      assert LeavesAt(table, replies, players + 1);
      return None, shown, Outside;
    }
    shown := shown + [last.value];
    if !replies[players] {
      return None, shown, Done(());
    }
    return saved, shown, Done(());
  }

  /** What the operator packs is what the player slices: the output first, then every deposit in order. */
  lemma ClearContractRoundTrip(output: Part, collateral: Part, deposits: seq<Part>)
    ensures var table := Packed(ClearParts(output, collateral, deposits));
            && Tiling(table) && |table.starts| == |deposits| + 2
            && Slices(table)[0] == output && Slices(table)[1..] == [collateral] + deposits
  {
    SlicesOfPacked(ClearParts(output, collateral, deposits));
  }

  // ---- The broadcast of the players' quotes ----

  type Report = seq<byte>

  datatype Quotes = Quotes(reports: seq<Report>, table: Table)

  function QuotesHeader(players: nat): nat
  {
    64 * players + 4 * players
  }

  method PackQuotes(reports: seq<Report>, quotes: seq<Part>) returns (payload: Outcome<Quotes>)
    requires |reports| == |quotes|
    ensures payload ==
      if (64 + 4) * |quotes| + |Concat(quotes)| < U32_LIMIT then Done(Quotes(reports, Packed(quotes))) else Outside
  {
    var header := QuotesHeader(|quotes|);
    var total := TotalLength(quotes);
    var size := Size32(header, total);
    if size < header {
      return Outside;
    }
    var data := new byte[size - header];
    var starts := new nat[|quotes|];
    var offset, ok := 0, true;
    for i := 0 to |quotes|
      invariant offset == Start(quotes, i) && Written(quotes, i, data[..], starts[..])
    {
      StartsGrow(quotes, i + 1);
      offset, ok := AppendPart(quotes, i, quotes[i], offset, data, starts);
      if !ok {
        return Outside;
      }
    }
    StartsGrow(quotes, |quotes|);
    AllWritten(quotes, data[..], starts[..]);
    return Done(Quotes(reports, Table(starts[..], data[..])));
  }

  /** The position of a player's own quote; id 0 has none. */
  function Predecessor(id: nat): (r: nat)
    requires id < U32_LIMIT
    ensures r == if id == 0 then U32_LIMIT - 1 else id - 1
  {
    Sub32(id, 1)
  }

  datatype Shown = Shown(player: nat, quote: Part, report: Report)

  /** The quotes of the first n players except number `own`, in order. */
  function Others(quotes: seq<Part>, reports: seq<Report>, own: nat, n: nat): seq<Shown>
    requires n <= |quotes| == |reports|
  {
    if n == 0 then []
    else if n - 1 == own then Others(quotes, reports, own, n - 1)
    else Others(quotes, reports, own, n - 1) + [Shown(n, quotes[n - 1], reports[n - 1])]
  }

  /** The quotes before the j-th are shown, but for the own one, and the j-th is not in the message. */
  ghost predicate QuoteLeavesAt(t: Table, own: nat, replies: seq<bool>, j: nat)
  {
    && j < |t.starts| <= |replies| && j != own && !Within(t, j)
    && forall k :: 0 <= k < j && k != own ==> Within(t, k) && replies[k]
  }

  /** The player's side: shows the host every counterparty's quote. */
  method UnpackQuotes(payload: Quotes, payloadSize: nat, playerId: nat, replies: seq<bool>)
    returns (shown: seq<Shown>, outcome: Outcome<()>)
    requires playerId < U32_LIMIT && OnUint32(payload.table)
    requires |payload.reports| == |payload.table.starts| == |replies|
    requires payloadSize == QuotesHeader(|replies|) + |payload.table.data| < U32_LIMIT
    ensures outcome.Done? <==>
            forall i :: 0 <= i < |replies| && i != Predecessor(playerId) ==> Within(payload.table, i) && replies[i]
    ensures outcome.Outside? <==> exists j :: QuoteLeavesAt(payload.table, Predecessor(playerId), replies, j)
    ensures outcome.Done? ==> shown == Others(Slices(payload.table), payload.reports, Predecessor(playerId), |replies|)
  {
    hide Slices, ReadPart, Sub32;
    var table := payload.table;
    var own := Predecessor(playerId);
    shown := [];
    for i := 0 to |replies|
      invariant forall k :: 0 <= k < i && k != own ==> Within(table, k) && replies[k]
      invariant shown == Others(Slices(table), payload.reports, own, i)
    {
      if i == own {
        continue;
      }
      var end := if i < |replies| - 1 then table.starts[i + 1] else PayloadEnd(payloadSize, QuotesHeader(|replies|));
      var quote := ReadPart(table, i, end);
      if quote.None? {
        assert QuoteLeavesAt(table, own, replies, i);
        return shown, Outside;
      }
      shown := shown + [Shown(i + 1, quote.value, payload.reports[i])];
      if !replies[i] {
        return shown, Failed;
      }
    }
    return shown, Done(());
  }

  /** Every counterparty's quote with its own report data, once, and never the player's own. */
  lemma {:induction false} OthersMeaning(quotes: seq<Part>, reports: seq<Report>, own: nat, n: nat, s: Shown)
    requires n <= |quotes| == |reports|
    ensures s in Others(quotes, reports, own, n) <==>
            0 < s.player <= n && s.player - 1 != own
            && s.quote == quotes[s.player - 1] && s.report == reports[s.player - 1]
    ensures |Others(quotes, reports, own, n)| == if own < n then n - 1 else n
  {
    if n > 0 {
      OthersMeaning(quotes, reports, own, n - 1, s);
    }
  }

  /** They come in the order of the players' numbers. */
  lemma {:induction false} OthersInOrder(quotes: seq<Part>, reports: seq<Report>, own: nat, n: nat, k: nat)
    requires n <= |quotes| == |reports| && k < |Others(quotes, reports, own, n)|
    ensures var number := if k < own then k else k + 1;
            number < n && Others(quotes, reports, own, n)[k] == Shown(number + 1, quotes[number], reports[number])
    decreases n
  {
    if n > 0 {
      OthersMeaning(quotes, reports, own, n - 1, Shown(0, [], []));
      if k < |Others(quotes, reports, own, n - 1)| {
        OthersInOrder(quotes, reports, own, n - 1, k);
      }
    }
  }

  /** A player who accepts a broadcast has been shown exactly the quotes the operator put into it. */
  lemma {:induction false} QuotesRoundTrip(quotes: seq<Part>, reports: seq<Report>, own: nat, s: Shown)
    requires |quotes| == |reports| > 0
    ensures Tiling(Packed(quotes))
    ensures s in Others(Slices(Packed(quotes)), reports, own, |quotes|) <==>
            0 < s.player <= |quotes| && s.player - 1 != own
            && s.quote == quotes[s.player - 1] && s.report == reports[s.player - 1]
  {
    SlicesOfPacked(quotes);
    OthersMeaning(quotes, reports, own, |quotes|, s);
  }

  /** The host is not told which player an entry belongs to: it sees a quote and the report data. */
  predicate InSight(shown: seq<Shown>, quote: Part, report: Report)
  {
    exists k :: 0 <= k < |shown| && shown[k].quote == quote && shown[k].report == report
  }

  predicate ReportInSight(shown: seq<Shown>, report: Report)
  {
    exists k :: 0 <= k < |shown| && shown[k].report == report
  }

  /** Everybody's entry but that of slot i has been shown. */
  predicate CounterpartiesShown(quotes: seq<Part>, reports: seq<Report>, i: nat, shown: seq<Shown>)
    requires |quotes| == |reports|
  {
    forall j :: 0 <= j < |quotes| && j != i ==> InSight(shown, quotes[j], reports[j])
  }

  predicate Distinct(reports: seq<Report>)
  {
    forall j, k :: 0 <= j < k < |reports| ==> reports[j] != reports[k]
  }

  lemma {:induction false} EntryInSight(quotes: seq<Part>, reports: seq<Report>, own: nat, j: nat)
    requires j < |quotes| == |reports| && j != own
    ensures InSight(Others(quotes, reports, own, |quotes|), quotes[j], reports[j])
    ensures ReportInSight(Others(quotes, reports, own, |quotes|), reports[j])
  {
    var entry := Shown(j + 1, quotes[j], reports[j]);
    OthersMeaning(quotes, reports, own, |quotes|, entry);
    var shown := Others(quotes, reports, own, |quotes|);
    var k :| 0 <= k < |shown| && shown[k] == entry;
  }

  lemma {:induction false} EntryOutOfSight(quotes: seq<Part>, reports: seq<Report>, own: nat)
    requires own < |quotes| == |reports| && Distinct(reports)
    ensures !ReportInSight(Others(quotes, reports, own, |quotes|), reports[own])
  {
    var shown := Others(quotes, reports, own, |quotes|);
    forall k | 0 <= k < |shown|
      ensures shown[k].report != reports[own]
    {
      OthersMeaning(quotes, reports, own, |quotes|, shown[k]);
      assert shown[k] in shown;
    }
  }

  lemma QuoteMeansReport(shown: seq<Shown>, quote: Part, report: Report)
    ensures InSight(shown, quote, report) ==> ReportInSight(shown, report)
  {
  }

  /** A player in slot i who skips entry number `own` has been shown every counterparty exactly when its own
      report is not among those it was shown, or when it was shown an entry for every player. */
  lemma {:induction false} CounterpartiesShownExactly(quotes: seq<Part>, reports: seq<Report>, i: nat, own: nat)
    requires i < |quotes| == |reports| && Distinct(reports)
    ensures var shown := Others(quotes, reports, own, |quotes|);
            CounterpartiesShown(quotes, reports, i, shown)
            <==> !ReportInSight(shown, reports[i]) || |shown| == |quotes|
    ensures CounterpartiesShown(quotes, reports, i, Others(quotes, reports, own, |quotes|))
       <==> own == i || own >= |quotes|
  {
    var shown := Others(quotes, reports, own, |quotes|);
    OthersMeaning(quotes, reports, own, |quotes|, Shown(0, [], []));
    forall j | 0 <= j < |quotes| && j != own
      ensures InSight(shown, quotes[j], reports[j]) && ReportInSight(shown, reports[j])
    {
      EntryInSight(quotes, reports, own, j);
    }
    if own < |quotes| {
      EntryOutOfSight(quotes, reports, own);
      QuoteMeansReport(shown, quotes[own], reports[own]);
    }
    hide Others, InSight, ReportInSight;
  }

  // ---- The deposit-and-input payload ----

  datatype DepositAndInput = DepositAndInput(
    amount: nat, transactionOffset: nat, inputOffset: nat, payoutOffset: nat, adviceOffset: nat, data: seq<byte>)

  const DEPOSIT_HEADER := 8 + 4 * 4

  method PackDeposit(amount: nat, transaction: Part, input: Part, payout: Part, advice: Part)
    returns (payload: Outcome<DepositAndInput>)
    ensures payload ==
      if 8 + 4 * 4 + |transaction| + |input| + |payout| + |advice| < U32_LIMIT
      then Done(PackedDeposit(amount, transaction, input, payout, advice))
      else Outside
  {
    var size := Size32(DEPOSIT_HEADER, |transaction| + |input| + |payout| + |advice|);
    if size < DEPOSIT_HEADER {
      return Outside;
    }
    var data := new byte[size - DEPOSIT_HEADER];
    var inputOffset := 0 + |transaction|;
    var payoutOffset := inputOffset + |input|;
    var adviceOffset := payoutOffset + |payout|;
    if adviceOffset + |advice| > data.Length {
      // One of the four copies runs past the message
      return Outside;
    }
    assert data.Length == |transaction| + |input| + |payout| + |advice|;
    Append(data, 0, transaction);
    Append(data, inputOffset, input);
    Append(data, payoutOffset, payout);
    Append(data, adviceOffset, advice);
    assert data[..] == data[..adviceOffset + |advice|] == transaction + input + payout + advice;
    return Done(DepositAndInput(amount, 0, inputOffset, payoutOffset, adviceOffset, data[..]));
  }

  function PackedDeposit(amount: nat, transaction: Part, input: Part, payout: Part, advice: Part): DepositAndInput
  {
    DepositAndInput(amount, 0, |transaction|, |transaction| + |input|, |transaction| + |input| + |payout|,
      transaction + input + payout + advice)
  }

  /** What the operator reads; None for a read that runs past the end of the message. */
  datatype Deposit = Deposit(
    amount: nat, transaction: Option<Part>, input: Option<Part>, payout: Option<Part>, advice: Option<Part>)

  /** The operator's side. The input is copied from where the payout address starts. */
  function UnpackDeposit(p: DepositAndInput, payloadSize: nat): (r: Deposit)
    requires p.transactionOffset < U32_LIMIT && p.inputOffset < U32_LIMIT
    requires p.payoutOffset < U32_LIMIT && p.adviceOffset < U32_LIMIT
    requires payloadSize == DEPOSIT_HEADER + |p.data| < U32_LIMIT
  {
    Deposit(
      p.amount,
      ReadRange(p.data, p.transactionOffset, p.inputOffset),
      ReadAt(p.data, p.payoutOffset, Sub32(p.payoutOffset, p.inputOffset)),
      ReadRange(p.data, p.payoutOffset, p.adviceOffset),
      ReadRange(p.data, p.adviceOffset, PayloadEnd(payloadSize, DEPOSIT_HEADER)))
  }

  lemma FourParts(a: Part, b: Part, c: Part, d: Part)
    ensures var data := a + b + c + d;
            && data[..|a|] == a && data[|a| + |b|..|a| + |b| + |c|] == c
            && data[|a| + |b| + |c|..] == d && data[|a| + |b|..] == c + d
  {
  }

  lemma PackedLength(amount: nat, transaction: Part, input: Part, payout: Part, advice: Part)
    ensures |PackedDeposit(amount, transaction, input, payout, advice).data|
         == |transaction| + |input| + |payout| + |advice|
  {
  }

  /** Amount, transaction, payout address and advice arrive. */
  lemma DepositRoundTrip(
    amount: nat, transaction: Part, input: Part, payout: Part, advice: Part, p: DepositAndInput, size: nat)
    requires p == PackedDeposit(amount, transaction, input, payout, advice)
    requires size == DEPOSIT_HEADER + |p.data| < U32_LIMIT
    ensures UnpackDeposit(p, size).amount == amount && UnpackDeposit(p, size).transaction == Some(transaction)
    ensures UnpackDeposit(p, size).payout == Some(payout) && UnpackDeposit(p, size).advice == Some(advice)
  {
    PackedLength(amount, transaction, input, payout, advice);
    FourParts(transaction, input, payout, advice);
    assert p.data[p.adviceOffset..|p.data|] == p.data[p.adviceOffset..] == advice;
    hide Sub32, PayloadEnd;
  }

  lemma TailRead(data: seq<byte>, start: nat, rest: seq<byte>, input: Part)
    requires start <= |data| && data[start..] == rest && |input| <= |rest|
    ensures data[start..start + |input|] == input <==> input <= rest
  {
    assert data[start..start + |input|] == rest[..|input|];
  }

  /** The input arrives exactly when it happens to be the beginning of the payout address and the advice. */
  lemma DepositInputMeaning(
    amount: nat, transaction: Part, input: Part, payout: Part, advice: Part, p: DepositAndInput, size: nat)
    requires p == PackedDeposit(amount, transaction, input, payout, advice)
    requires size == DEPOSIT_HEADER + |p.data| < U32_LIMIT
    ensures UnpackDeposit(p, size).input == Some(input) <==> input <= payout + advice
  {
    PackedLength(amount, transaction, input, payout, advice);
    FourParts(transaction, input, payout, advice);
    if |input| <= |payout + advice| {
      TailRead(p.data, p.payoutOffset, payout + advice, input);
    }
    hide Sub32, PayloadEnd;
  }

  /** A one-byte input that the operator does not get: it reads the payout address instead. */
  lemma DepositInputLost(p: DepositAndInput, size: nat)
    requires p == PackedDeposit(0, [], [1], [2], []) && size == DEPOSIT_HEADER + |p.data|
    ensures size < U32_LIMIT
    ensures UnpackDeposit(p, size).input != Some([1])
  {
    PackedLength(0, [], [1], [2], []);
    DepositInputMeaning(0, [], [1], [2], [], p, size);
    var input: Part, other: Part := [1], [2] + [];
    assert input[0] != other[0];
  }
}
