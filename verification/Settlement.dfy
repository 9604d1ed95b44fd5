/** The money side of clearing a contract: fees, collateral, payouts. */
module Settlement {
  import opened Bytes
  import opened Options
  import opened Functionality
  import opened Transactions

  /** The build-time amounts, in zatoshis. */
  datatype Terms = Terms(collateral: nat, minerFee: nat, operatorFee: nat)

  /** A sum on uint64_t. */
  function Wrap64(x: nat): (r: nat)
    ensures r <= x && r < U64_LIMIT && (r == x <==> x < U64_LIMIT)
  {
    x % U64_LIMIT
  }

  /** What a player's deposit contributes to the functionality. */
  function Net(terms: Terms, amounts: seq<nat>): (r: seq<nat>)
    requires forall i :: 0 <= i < |amounts| ==> amounts[i] >= terms.minerFee + terms.operatorFee
    ensures |r| == |amounts|
  {
    seq(|amounts|, i requires 0 <= i < |amounts| => amounts[i] - terms.minerFee - terms.operatorFee)
  }

  /** What the operator is owed: the collateral deposit less the miner's fee, plus a fee per player. */
  function OperatorDue(terms: Terms, deposit: nat, players: nat): nat
    requires deposit >= terms.minerFee
  {
    deposit - terms.minerFee + players * terms.operatorFee
  }

  predicate Covering(terms: Terms, deposit: nat, amounts: seq<nat>)
  {
    && deposit >= terms.collateral + terms.minerFee
    && forall i :: 0 <= i < |amounts| ==> amounts[i] >= terms.minerFee + terms.operatorFee
  }

  /** All payouts, the operator's first, on u64. */
  function Payouts(terms: Terms, deposit: nat, amounts: seq<nat>, winner: nat): (r: seq<nat>)
    requires Covering(terms, deposit, amounts)
    ensures |r| == |amounts| + 1
  {
    [Wrap64(OperatorDue(terms, deposit, |amounts|))]
    + seq(|amounts|, i => if i == winner then Wrap64(Sum(Net(terms, amounts))) else 0)
  }

  /** Checks the deposits, takes off the fees and runs the functionality; None when it fails. */
  method ClearAccounts(terms: Terms, deposit: nat, amounts: seq<nat>, random: Option<nat>, memory: seq<bool>)
    returns (payouts: Option<seq<nat>>)
    requires 0 < |amounts| == |memory| < U32_LIMIT
    ensures payouts.Some? <==>
        && deposit >= terms.collateral + terms.minerFee
        && (forall i :: 0 <= i < |amounts| ==> amounts[i] >= terms.minerFee + terms.operatorFee)
        && random.Some? && forall i :: 0 <= i < |memory| ==> memory[i]
    ensures payouts.Some? ==> payouts.value == Payouts(terms, deposit, amounts, random.value % |amounts|)
  {
    if deposit < terms.collateral + terms.minerFee {
      return None;
    }
    var net: seq<nat> := [];
    for i := 0 to |amounts|
      invariant |net| == i
      invariant forall k :: 0 <= k < i ==> amounts[k] >= terms.minerFee + terms.operatorFee
      invariant forall k :: 0 <= k < i ==> net[k] == amounts[k] - terms.minerFee - terms.operatorFee
    {
      if amounts[i] < terms.minerFee + terms.operatorFee {
        return None;
      }
      net := net + [amounts[i] - terms.minerFee - terms.operatorFee];
    }
    assert net == Net(terms, amounts);
    var buffers := NewBuffers(|amounts|);
    var ok, outputs := EvaluateFunctionality(net, random, memory, buffers);
    if !ok {
      return None;
    }
    var operator := Wrap64(OperatorDue(terms, deposit, |amounts|));
    var all := [operator] + seq(|buffers|, i requires 0 <= i < |buffers| reads buffers => Load(buffers[i][..]));
    assert all == Payouts(terms, deposit, amounts, random.value % |amounts|);
    return Some(all);
  }

  method NewBuffers(n: nat) returns (buffers: seq<array<bv8>>)
    ensures |buffers| == n && Separate(buffers)
    ensures forall i :: 0 <= i < n ==> fresh(buffers[i]) && buffers[i].Length == ZAT
  {
    buffers := [];
    for i := 0 to n
      invariant |buffers| == i && Separate(buffers)
      invariant forall k :: 0 <= k < i ==> fresh(buffers[k]) && buffers[k].Length == ZAT
    {
      var buffer := new bv8[ZAT];
      buffers := buffers + [buffer];
    }
  }

  // ---- What is paid out ----

  /** Every payout in terms of the deposits: the operator's, the winner's and the others'. */
  lemma {:induction false} PayoutsMeaning(terms: Terms, deposit: nat, amounts: seq<nat>, winner: nat, i: nat)
    requires deposit >= terms.collateral + terms.minerFee && i < |amounts|
    requires forall k :: 0 <= k < |amounts| ==> amounts[k] >= terms.minerFee + terms.operatorFee
    ensures Sum(amounts) >= |amounts| * terms.minerFee + |amounts| * terms.operatorFee
    ensures var payouts := Payouts(terms, deposit, amounts, winner);
            && payouts[0] == (deposit - terms.minerFee + |amounts| * terms.operatorFee) % U64_LIMIT
            && payouts[i + 1] == if i != winner then 0
               else (Sum(amounts) - |amounts| * terms.minerFee - |amounts| * terms.operatorFee) % U64_LIMIT
  {
    SumNet(terms, amounts);
    hide Sum, Net;
  }

  function ValueOf(note: Option<Note>): nat
  {
    if note.Some? then note.value.value else 0
  }

  /** The value of the note in action i, when it decrypts. */
  function DepositedValues(decrypt: Decryption, bundle: Bundle, key: Key): (r: seq<nat>)
    ensures |r| == |bundle|
    ensures forall i :: 0 <= i < |bundle| ==> r[i] == ValueOf(decrypt(key, bundle[i]))
  {
    seq<nat>(|bundle|, i requires 0 <= i < |bundle| => ValueOf(decrypt(key, bundle[i])))
  }

  /** The deposited amount is the sum of all notes that decrypt, on u64. */
  lemma {:induction false} DepositIsSum(decrypt: Decryption, bundle: Bundle, key: Key)
    ensures DepositedAmount(decrypt, bundle, key) == Sum(DepositedValues(decrypt, bundle, key)) % U64_LIMIT
  {
    if bundle != [] {
      var rest := bundle[1..];
      DepositIsSum(decrypt, rest, key);
      var values := DepositedValues(decrypt, bundle, key);
      assert values == [values[0]] + DepositedValues(decrypt, rest, key);
      SumPrepend(values[0], DepositedValues(decrypt, rest, key));
      AddWrapped(values[0], Sum(DepositedValues(decrypt, rest, key)));
      hide DepositedValues, Sum;
    }
  }

  lemma AddWrapped(x: nat, y: nat)
    ensures (x + y % U64_LIMIT) % U64_LIMIT == (x + y) % U64_LIMIT
  {
    assert y == y % U64_LIMIT + U64_LIMIT * (y / U64_LIMIT);
    Turns(x + y % U64_LIMIT, y / U64_LIMIT);
  }

  lemma {:induction false} Turns(x: nat, k: nat)
    ensures (x + U64_LIMIT * k) % U64_LIMIT == x % U64_LIMIT
    decreases k
  {
    if k > 0 {
      Turns(x, k - 1);
    }
  }

  // ---- Conservation ----

  lemma {:induction false} SumAppend(xs: seq<nat>, x: nat)
    ensures Sum(xs + [x]) == Sum(xs) + x
  {
    assert (xs + [x])[..|xs|] == xs;
  }

  lemma {:induction false} SumPrepend(x: nat, xs: seq<nat>)
    ensures Sum([x] + xs) == x + Sum(xs)
    decreases |xs|
  {
    if xs == [] {
      assert [x] + xs == [] + [x];
      SumAppend([], x);
    } else {
      var last := |xs| - 1;
      assert [x] + xs == ([x] + xs[..last]) + [xs[last]];
      SumAppend([x] + xs[..last], xs[last]);
      SumPrepend(x, xs[..last]);
    }
  }

  lemma {:induction false} SumSingle(n: nat, winner: nat, value: nat)
    ensures Sum(seq(n, i => if i == winner then value else 0)) == if winner < n then value else 0
    decreases n
  {
    var xs := seq(n, i => if i == winner then value else 0);
    if n > 0 {
      assert xs[..n - 1] == seq(n - 1, i => if i == winner then value else 0);
      SumSingle(n - 1, winner, value);
    }
  }

  lemma {:induction false} SumNet(terms: Terms, amounts: seq<nat>)
    requires forall i :: 0 <= i < |amounts| ==> amounts[i] >= terms.minerFee + terms.operatorFee
    ensures Sum(amounts)
         == Sum(Net(terms, amounts)) + |amounts| * terms.minerFee + |amounts| * terms.operatorFee
    decreases |amounts|
  {
    if amounts != [] {
      var n := |amounts| - 1;
      assert Net(terms, amounts)[..n] == Net(terms, amounts[..n]);
      SumNet(terms, amounts[..n]);
      OneMore(n, terms.minerFee);
      OneMore(n, terms.operatorFee);
    }
  }

  lemma OneMore(n: nat, fee: nat)
    ensures (n + 1) * fee == n * fee + fee
  {
  }

  /** Neither of the two u64 sums wraps. */
  predicate NoWrap(terms: Terms, deposit: nat, amounts: seq<nat>)
    requires Covering(terms, deposit, amounts)
  {
    OperatorDue(terms, deposit, |amounts|) < U64_LIMIT && Sum(Net(terms, amounts)) < U64_LIMIT
  }

  lemma SumPayouts(terms: Terms, deposit: nat, amounts: seq<nat>, winner: nat)
    requires Covering(terms, deposit, amounts) && winner < |amounts|
    ensures Sum(Payouts(terms, deposit, amounts, winner))
         == Wrap64(OperatorDue(terms, deposit, |amounts|)) + Wrap64(Sum(Net(terms, amounts)))
  {
    var pot := Wrap64(Sum(Net(terms, amounts)));
    var others := seq(|amounts|, i => if i == winner then pot else 0);
    assert Payouts(terms, deposit, amounts, winner) == [Wrap64(OperatorDue(terms, deposit, |amounts|))] + others;
    SumPrepend(Wrap64(OperatorDue(terms, deposit, |amounts|)), others);
    SumSingle(|amounts|, winner, pot);
  }

  /** The deposits exceed the payouts by one miner's fee per party exactly when no sum wraps. */
  lemma {:induction false} ValueConserved(terms: Terms, deposit: nat, amounts: seq<nat>, winner: nat)
    requires Covering(terms, deposit, amounts) && winner < |amounts|
    ensures deposit + Sum(amounts) == Sum(Payouts(terms, deposit, amounts, winner)) + (|amounts| + 1) * terms.minerFee
       <==> NoWrap(terms, deposit, amounts)
  {
    SumPayouts(terms, deposit, amounts, winner);
    SumNet(terms, amounts);
    OneMore(|amounts|, terms.minerFee);
    hide Wrap64, Net, Sum, Payouts;
  }

  /** Two players' deposits of 2^63 each, less the miner's fee, add up to nothing for the winner. */
  lemma WrapLosesValue()
    ensures var terms, amounts := Terms(0, 5000, 0), [U64_LIMIT / 2 + 5000, U64_LIMIT / 2 + 5000];
            Covering(terms, 5000, amounts) && !NoWrap(terms, 5000, amounts)
            && Payouts(terms, 5000, amounts, 0) == [0, 0, 0]
  {
    var terms, amounts := Terms(0, 5000, 0), [U64_LIMIT / 2 + 5000, U64_LIMIT / 2 + 5000];
    var half := U64_LIMIT / 2;
    assert Net(terms, amounts) == [half, half];
    assert [half, half][..1] == [half];
    assert Sum([half, half]) == Sum([half]) + half;
    assert Sum([half]) == half;
    assert Sum(Net(terms, amounts)) == U64_LIMIT;
  }

  lemma PayoutsAt(terms: Terms, deposit: nat, amounts: seq<nat>, winner: nat)
    requires Covering(terms, deposit, amounts) && winner < |amounts|
    ensures Payouts(terms, deposit, amounts, winner)[0] == Wrap64(OperatorDue(terms, deposit, |amounts|))
    ensures Payouts(terms, deposit, amounts, winner)[winner + 1] == Wrap64(Sum(Net(terms, amounts)))
  {
    hide Wrap64, Net, Sum;
  }

  /** Without wrap-around the operator gets at least the collateral back and a fee from every player,
      and the winner the whole pot. */
  lemma {:induction false} PayoutsOwed(terms: Terms, deposit: nat, amounts: seq<nat>, winner: nat)
    requires Covering(terms, deposit, amounts) && winner < |amounts| && NoWrap(terms, deposit, amounts)
    ensures Payouts(terms, deposit, amounts, winner)[0] >= terms.collateral + |amounts| * terms.operatorFee
    ensures Payouts(terms, deposit, amounts, winner)[winner + 1]
          + |amounts| * terms.minerFee + |amounts| * terms.operatorFee == Sum(amounts)
  {
    SumNet(terms, amounts);
    PayoutsAt(terms, deposit, amounts, winner);
    hide Wrap64, Net, Sum, Payouts;
  }

  // ---- The miner's fee ----

  /** ZIP 317, section "Fee calculation": marginal fee times the larger of the grace actions and the
      logical actions; an Orchard-style bundle has as many actions as the larger of spends and outputs. */
  function ConventionalFee(spends: nat, outputs: nat): nat
  {
    var actions := if spends < outputs then outputs else spends;
    5000 * if actions < 2 then 2 else actions
  }

  lemma {:induction false} NotesAreDeposits(
    decrypt: Decryption, bundles: seq<Bundle>, keys: seq<Key>, paths: seq<MerklePath>,
    notes: seq<(Note, MerklePath)>)
    requires |bundles| == |keys| == |notes| && Offset(bundles, |bundles|) <= |paths|
    requires forall i :: 0 <= i < |bundles| ==> PairedAt(decrypt, bundles, keys, paths, i, notes[i])
    ensures NoteValues(notes) == DepositedAmounts(decrypt, bundles, keys)
  {
    hide DepositedAmount, PairedAt;
    forall i | 0 <= i < |notes|
      ensures NoteValues(notes)[i] == DepositedAmounts(decrypt, bundles, keys)[i]
    {
      PairedNotesAreDeposits(decrypt, bundles, keys, paths, i, notes[i]);
    }
  }

  /** The notes spent and the payouts made: what is left over is the conventional fee. */
  lemma {:induction false} SettlementPaysConventionalFee(
    terms: Terms, decrypt: Decryption, bundles: seq<Bundle>, keys: seq<Key>, paths: seq<MerklePath>,
    notes: seq<(Note, MerklePath)>, winner: nat)
    requires |bundles| == |keys| == |notes| && 0 < winner + 1 < |bundles|
    requires Offset(bundles, |bundles|) <= |paths|
    requires forall i :: 0 <= i < |bundles| ==> PairedAt(decrypt, bundles, keys, paths, i, notes[i])
    requires terms.minerFee == 5000
    requires var amounts := DepositedAmounts(decrypt, bundles, keys);
             Covering(terms, amounts[0], amounts[1..]) && NoWrap(terms, amounts[0], amounts[1..])
    ensures var amounts := DepositedAmounts(decrypt, bundles, keys);
            var payouts := Payouts(terms, amounts[0], amounts[1..], winner);
            Sum(NoteValues(notes)) == Sum(payouts) + ConventionalFee(|notes|, |payouts|)
  {
    var amounts := DepositedAmounts(decrypt, bundles, keys);
    assert NoteValues(notes) == [amounts[0]] + amounts[1..] by {
      NotesAreDeposits(decrypt, bundles, keys, paths, notes);
    }
    hide NoteValues, DepositedAmounts, DepositedAmount, PairedAt, Sum, Offset, NoWrap;
    SumPrepend(amounts[0], amounts[1..]);
    ValueConserved(terms, amounts[0], amounts[1..], winner);
  }

  function DepositedAmounts(decrypt: Decryption, bundles: seq<Bundle>, keys: seq<Key>): (r: seq<nat>)
    requires |bundles| == |keys|
    ensures |r| == |bundles|
    ensures forall i :: 0 <= i < |bundles| ==> r[i] == DepositedAmount(decrypt, bundles[i], keys[i])
  {
    seq(|bundles|, i requires 0 <= i < |bundles| => DepositedAmount(decrypt, bundles[i], keys[i]))
  }

  function NoteValues(notes: seq<(Note, MerklePath)>): (r: seq<nat>)
    ensures |r| == |notes| && forall i :: 0 <= i < |notes| ==> r[i] == notes[i].0.value
  {
    seq(|notes|, i requires 0 <= i < |notes| => notes[i].0.value)
  }
}
