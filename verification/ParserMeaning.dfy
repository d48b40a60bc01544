/**
 Which transfers the parse of a transaction has, and when it refuses: instruction by instruction,
 in terms of the envelope's keys, data and balances.
 */
module ParserMeaning {
  import opened Wrappers
  import opened Powers
  import opened Texts
  import opened Transactions
  import opened TokenInstruction
  import opened TransferParser
  import Envelope

  // ------------------------------------------------------------------ one instruction

  /** The instruction runs the program of this address. */
  predicate Runs(e: Evidence, at: Location, program: Text) {
    at.programIdIndex < |e.keys| && e.keys[at.programIdIndex].address == program
  }

  predicate RunsToken(e: Evidence, at: Location) { Runs(e, at, Ascii("TokenkegQfeZyiNwAJbNbGKPFXCWuBvf9Ss623VQ5DA")) }

  predicate RunsToken2022(e: Evidence, at: Location) {
    Runs(e, at, Ascii("TokenzQdBNbLqP5VEhdkAS6EPFLC1PHnBqCXEpPxuEb"))
  }

  /** The watched address is one of the instruction's accounts; without one every instruction counts. */
  predicate Touches(e: Evidence, at: Location, watched: Option<Text>) {
    watched.Some? ==> exists p :: 0 <= p < |at.accounts| && at.accounts[p] < |e.keys| && e.keys[at.accounts[p]].address == watched.value
  }

  predicate AsksPlain(data: Option<seq<Byte>>, amount: nat) {
    amount < Pow2(64) && data == Some([3] + EncodeLittleEndian(amount, 8))
  }

  predicate AsksChecked(data: Option<seq<Byte>>, amount: nat, decimals: nat) {
    amount < Pow2(64) && decimals < 0x100 && data == Some([12] + EncodeLittleEndian(amount, 8) + [decimals])
  }

  /** The data is not that of a transfer. */
  ghost predicate AsksNothing(data: Option<seq<Byte>>) {
    && (forall amount :: !AsksPlain(data, amount))
    && (forall amount, decimals :: !AsksChecked(data, amount, decimals))
  }

  /** The first accounts are given, and their keys are known. */
  predicate Named(e: Evidence, at: Location, count: nat) {
    count <= |at.accounts| && forall p :: 0 <= p < count ==> at.accounts[p] < |e.keys|
  }

  predicate IsOf(b: Balance, source: nat, destination: nat) {
    b.accountIndex == source || b.accountIndex == destination
  }

  predicate HasBalance(balances: seq<Balance>, index: nat) {
    exists i :: 0 <= i < |balances| && balances[i].accountIndex == index
  }

  /** Both accounts have balances, and all they have are of this mint, with these decimals, under the token program. */
  predicate Attested(balances: seq<Balance>, source: nat, destination: nat, mint: Text, decimals: nat) {
    && HasBalance(balances, source) && HasBalance(balances, destination)
    && forall i :: 0 <= i < |balances| && IsOf(balances[i], source, destination) ==>
         && balances[i].mint == mint && balances[i].decimals == decimals
         && balances[i].programId == Some(Ascii("TokenkegQfeZyiNwAJbNbGKPFXCWuBvf9Ss623VQ5DA"))
  }

  predicate Unattested(balances: seq<Balance>, source: nat, destination: nat) {
    !HasBalance(balances, source) && !HasBalance(balances, destination)
  }

  lemma {:induction false} ConcerningIs(balances: seq<Balance>, source: nat, destination: nat)
    ensures var found := Concerning(balances, source, destination);
      && (forall b :: b in found <==> b in balances && IsOf(b, source, destination))
      && (found == [] <==> Unattested(balances, source, destination))
      && (Covers(found, source) <==> HasBalance(balances, source))
      && (Covers(found, destination) <==> HasBalance(balances, destination))
  {
    Members(balances, source, destination);
    var found := Concerning(balances, source, destination);
    CoversIs(found, source);
    CoversIs(found, destination);
    CoversIs(balances, source);
    CoversIs(balances, destination);
    if found != [] { assert found[0] in found; }
  }

  lemma {:induction false} Members(balances: seq<Balance>, source: nat, destination: nat)
    ensures forall b :: b in Concerning(balances, source, destination) <==> b in balances && IsOf(b, source, destination)
  {
    if balances != [] { Members(balances[1..], source, destination); }
  }

  lemma CoversIs(balances: seq<Balance>, index: nat)
    ensures Covers(balances, index) <==> HasBalance(balances, index)
    ensures HasBalance(balances, index) <==> exists b :: b in balances && b.accountIndex == index
  {
    if HasBalance(balances, index) {
      var i :| 0 <= i < |balances| && balances[i].accountIndex == index;
      assert balances[i] in balances;
    }
  }

  /** The asset the balances agree on, if they agree on one. */
  lemma AttestedIs(balances: seq<Balance>, source: nat, destination: nat, mint: Text, decimals: nat)
    ensures ResolveAssetEvidence(balances, source, destination) == Ok(AssetEvidence(mint, decimals))
      <==> Attested(balances, source, destination, mint, decimals)
  {
    var found := Concerning(balances, source, destination);
    ConcerningIs(balances, source, destination);
    if found != [] {
      assert found[0] in found;
      if Attested(balances, source, destination, mint, decimals) {
        forall i | 0 <= i < |found| ensures Matches(found[i], found[0]) {
          assert found[i] in found;
        }
      }
      if Uniform(found) {
        forall b | b in found ensures Matches(b, found[0]) {
        }
      }
    }
  }

  /** Who moves what where, at which place of which transaction, and which further accounts it names. */
  predicate Carries(t: ParsedTransfer, e: Evidence, at: Location, destination: nat, authority: nat, named: nat)
    requires Named(e, at, named) && 0 < destination < authority < named
  {
    && t.signature == e.signature && t.slot == e.slot && t.programId == Ascii("TokenkegQfeZyiNwAJbNbGKPFXCWuBvf9Ss623VQ5DA")
    && t.outerInstructionIndex == at.outer && t.innerInstructionIndex == at.inner
    && t.eventId == EventId(e.cluster, e.signature, at.outer, at.inner)
    && t.sourceAccountIndex == at.accounts[0] && t.sourceTokenAccount == e.keys[at.accounts[0]].address
    && t.destinationAccountIndex == at.accounts[destination] && t.destinationTokenAccount == e.keys[at.accounts[destination]].address
    && t.authority == e.keys[at.accounts[authority]].address
    && t.references == References(e.keys, at.accounts[named..])
    && t.unsupportedExtraAccounts == UnsupportedExtras(e.keys, at.accounts[named..])
  }

  /** The mint is named, and the balances of the two accounts are of that mint and these decimals, if there are any. */
  predicate CheckedHolds(e: Evidence, at: Location, decimals: nat) {
    && Named(e, at, 4)
    && (|| Unattested(e.balances, at.accounts[0], at.accounts[2])
        || Attested(e.balances, at.accounts[0], at.accounts[2], e.keys[at.accounts[1]].address, decimals))
  }

  predicate PlainHolds(e: Evidence, at: Location, mint: Text, decimals: nat) {
    Named(e, at, 3) && Attested(e.balances, at.accounts[0], at.accounts[1], mint, decimals)
  }

  /** The instruction is a checked transfer, and this is what it moves. */
  predicate IsChecked(t: ParsedTransfer, e: Evidence, at: Location, base58: Base58) {
    && RunsToken(e, at) && AsksChecked(base58(at.data), t.amountBaseUnits, t.decimals)
    && CheckedHolds(e, at, t.decimals) && t.mint == e.keys[at.accounts[1]].address && Carries(t, e, at, 2, 3, 4)
  }

  /** The instruction is a plain transfer of an asset the balances agree on, and this is what it moves. */
  predicate IsPlain(t: ParsedTransfer, e: Evidence, at: Location, base58: Base58) {
    && RunsToken(e, at) && AsksPlain(base58(at.data), t.amountBaseUnits)
    && PlainHolds(e, at, t.mint, t.decimals) && Carries(t, e, at, 1, 2, 3)
  }

  predicate IsTransfer(t: ParsedTransfer, e: Evidence, at: Location, base58: Base58) {
    IsChecked(t, e, at, base58) || IsPlain(t, e, at, base58)
  }

  /**
   The transfer the instruction asks for lacks accounts or contradicts the balances; this is fatal
   whoever is watched.
   */
  ghost predicate Unfounded(e: Evidence, at: Location, data: Option<seq<Byte>>) {
    || (exists amount, decimals :: AsksChecked(data, amount, decimals) && !CheckedHolds(e, at, decimals))
    || ((exists amount :: AsksPlain(data, amount)) && forall mint, decimals :: !PlainHolds(e, at, mint, decimals))
  }

  /**
   The instruction is one the parser refuses: a token instruction it does not know that touches the
   watched address, or a transfer without its evidence.
   */
  ghost predicate Refuses(e: Evidence, at: Location, base58: Base58, watched: Option<Text>) {
    || (Touches(e, at, watched) && (RunsToken2022(e, at) || (RunsToken(e, at) && AsksNothing(base58(at.data)))))
    || (RunsToken(e, at) && Unfounded(e, at, base58(at.data)))
  }

  lemma DecodesChecked(data: Option<seq<Byte>>, amount: nat, decimals: nat)
    ensures AsksChecked(data, amount, decimals)
      <==> decimals < 0x100 && Decode(data) == TransferChecked(amount, decimals)
  {
    if data.Some? && decimals < 0x100 { TransferCheckedDecodesExactly(data.value, amount, decimals); }
  }

  lemma DecodesPlain(data: Option<seq<Byte>>, amount: nat)
    ensures AsksPlain(data, amount) <==> Decode(data) == Transfer(amount)
  {
    if data.Some? { TransferDecodesExactly(data.value, amount); }
  }

  lemma DecodesNothing(data: Option<seq<Byte>>)
    ensures AsksNothing(data) <==> Decode(data).Unsupported? || Decode(data).Malformed?
  {
    forall amount: nat ensures AsksPlain(data, amount) <==> Decode(data) == Transfer(amount) { DecodesPlain(data, amount); }
    forall amount: nat, decimals: nat ensures AsksChecked(data, amount, decimals) <==> decimals < 0x100 && Decode(data) == TransferChecked(amount, decimals) {
      DecodesChecked(data, amount, decimals);
    }
    match Decode(data)
    case Transfer(amount) => assert AsksPlain(data, amount);
    case TransferChecked(amount, decimals) => assert AsksChecked(data, amount, decimals);
    case _ =>
  }

  lemma CheckedMeans(e: Evidence, at: Location, amount: nat, decimals: nat)
    ensures var r := ParseChecked(e, at, amount, decimals);
      && (r.Ok? <==> CheckedHolds(e, at, decimals))
      && (r.Ok? ==> r == Ok([MakeTransfer(e, at, 2, 3, 4, e.keys[at.accounts[1]].address, amount, decimals)]))
  {
    if Named(e, at, 4) {
      ConcerningIs(e.balances, at.accounts[0], at.accounts[2]);
      AttestedIs(e.balances, at.accounts[0], at.accounts[2], e.keys[at.accounts[1]].address, decimals);
    }
  }

  lemma PlainMeans(e: Evidence, at: Location, amount: nat)
    ensures var r := ParseLegacy(e, at, amount);
      && (r.Err? <==> forall mint, decimals :: !PlainHolds(e, at, mint, decimals))
      && forall mint, decimals :: PlainHolds(e, at, mint, decimals) ==> r == Ok([MakeTransfer(e, at, 1, 2, 3, mint, amount, decimals)])
  {
    if Named(e, at, 3) {
      forall mint, decimals
        ensures PlainHolds(e, at, mint, decimals)
          <==> ResolveAssetEvidence(e.balances, at.accounts[0], at.accounts[1]) == Ok(AssetEvidence(mint, decimals))
      {
        AttestedIs(e.balances, at.accounts[0], at.accounts[1], mint, decimals);
      }
      var evidence := ResolveAssetEvidence(e.balances, at.accounts[0], at.accounts[1]);
      if evidence.Ok? { assert PlainHolds(e, at, evidence.value.mint, evidence.value.decimals); }
    }
  }

  /** A transfer is made up of what the instruction names. */
  lemma MadeCarries(t: ParsedTransfer, e: Evidence, at: Location, destination: nat, authority: nat, named: nat,
      mint: Text, amount: nat, decimals: nat)
    requires Named(e, at, named) && 0 < destination < authority < named && RunsToken(e, at)
    ensures t == MakeTransfer(e, at, destination, authority, named, mint, amount, decimals) <==>
      t.mint == mint && t.amountBaseUnits == amount && t.decimals == decimals && Carries(t, e, at, destination, authority, named)
  {
  }

  lemma CheckedInstruction(e: Evidence, at: Location, base58: Base58, watched: Option<Text>, amount: nat, decimals: nat)
    requires RunsToken(e, at) && AsksChecked(base58(at.data), amount, decimals)
    ensures var r := ParseLocation(e, at, base58, watched);
      && (r.Err? <==> Refuses(e, at, base58, watched)) && (r.Ok? ==> |r.value| == 1)
      && forall t :: r == Ok([t]) <==> IsTransfer(t, e, at, base58)
  {
    Envelope.DistinctPrograms();
    var data := base58(at.data);
    DecodesChecked(data, amount, decimals);
    DecodesNothing(data);
    forall n ensures !AsksPlain(data, n) { DecodesPlain(data, n); }
    forall n, d ensures AsksChecked(data, n, d) <==> n == amount && d == decimals { DecodesChecked(data, n, d); }
    CheckedMeans(e, at, amount, decimals);
    if CheckedHolds(e, at, decimals) {
      var mint := e.keys[at.accounts[1]].address;
      forall t ensures t == MakeTransfer(e, at, 2, 3, 4, mint, amount, decimals) <==> IsChecked(t, e, at, base58) {
        MadeCarries(t, e, at, 2, 3, 4, mint, amount, decimals);
      }
    }
  }

  lemma PlainInstruction(e: Evidence, at: Location, base58: Base58, watched: Option<Text>, amount: nat)
    requires RunsToken(e, at) && AsksPlain(base58(at.data), amount)
    ensures var r := ParseLocation(e, at, base58, watched);
      && (r.Err? <==> Refuses(e, at, base58, watched)) && (r.Ok? ==> |r.value| == 1)
      && forall t :: r == Ok([t]) <==> IsTransfer(t, e, at, base58)
  {
    Envelope.DistinctPrograms();
    var data := base58(at.data);
    DecodesNothing(data);
    forall n ensures AsksPlain(data, n) <==> n == amount { DecodesPlain(data, n); DecodesPlain(data, amount); }
    forall n, d ensures !AsksChecked(data, n, d) { DecodesChecked(data, n, d); DecodesPlain(data, amount); }
    PlainMeans(e, at, amount);
    DecodesPlain(data, amount);
    assert ParseLocation(e, at, base58, watched) == ParseLegacy(e, at, amount);
    if mint, decimals :| PlainHolds(e, at, mint, decimals) {
      forall t ensures t == MakeTransfer(e, at, 1, 2, 3, mint, amount, decimals) <==> IsPlain(t, e, at, base58) {
        MadeCarries(t, e, at, 1, 2, 3, mint, amount, decimals);
        if IsPlain(t, e, at, base58) {
          assert PlainHolds(e, at, t.mint, t.decimals);
          AttestedIs(e.balances, at.accounts[0], at.accounts[1], t.mint, t.decimals);
          AttestedIs(e.balances, at.accounts[0], at.accounts[1], mint, decimals);
        }
      }
    }
  }

  lemma OtherInstruction(e: Evidence, at: Location, base58: Base58, watched: Option<Text>)
    requires RunsToken(e, at) ==> AsksNothing(base58(at.data))
    ensures var r := ParseLocation(e, at, base58, watched);
      && (r.Err? <==> Refuses(e, at, base58, watched)) && (r.Ok? ==> r.value == [])
      && forall t :: !IsTransfer(t, e, at, base58)
  {
    DecodesNothing(base58(at.data));
    assert Affects(e.keys, at.accounts, watched) <==> Touches(e, at, watched);
  }

  /** An instruction is refused, or it is a transfer, which is found just as it is, or it is passed over. */
  lemma InstructionMeans(e: Evidence, at: Location, base58: Base58, watched: Option<Text>)
    ensures var r := ParseLocation(e, at, base58, watched);
      && (r.Err? <==> Refuses(e, at, base58, watched)) && (r.Ok? ==> |r.value| <= 1)
      && (r.Ok? && r.value == [] ==> forall t :: !IsTransfer(t, e, at, base58))
      && forall t :: r == Ok([t]) <==> IsTransfer(t, e, at, base58)
  {
    var data := base58(at.data);
    if RunsToken(e, at) && !AsksNothing(data) {
      if amount :| AsksPlain(data, amount) {
        PlainInstruction(e, at, base58, watched, amount);
      } else {
        var amount, decimals :| AsksChecked(data, amount, decimals);
        CheckedInstruction(e, at, base58, watched, amount, decimals);
      }
    } else {
      OtherInstruction(e, at, base58, watched);
    }
  }

  // ------------------------------------------------------------------ keys and extra accounts

  /** The address of a key: static ones first, then loaded writable ones, then loaded read-only ones. */
  lemma KeysMean(tx: Transaction, i: nat)
    requires i < |AccountKeys(tx)|
    ensures var statics, loaded := |tx.message.accountKeys|, Loaded(tx);
      && |AccountKeys(tx)| == statics + |loaded.writable| + |loaded.readonly|
      && (i < statics ==> AccountKeys(tx)[i].address == tx.message.accountKeys[i])
      && (statics <= i < statics + |loaded.writable| ==> AccountKeys(tx)[i].address == loaded.writable[i - statics])
      && (statics + |loaded.writable| <= i ==> AccountKeys(tx)[i].address == loaded.readonly[i - statics - |loaded.writable|])
  {
  }

  /** The account is known, and neither signs nor may be written. */
  predicate OnlyRead(keys: seq<AccountKey>, index: nat) {
    index < |keys| && !keys[index].signer && !keys[index].writable
  }

  /** What an extra account is listed as. */
  function Listed(keys: seq<AccountKey>, index: nat): Text {
    if index < |keys| then keys[index].address else Ascii("unresolved")
  }

  /** The list has, in order, the extra accounts at these places. */
  predicate ListsAt(list: seq<Text>, places: seq<nat>, keys: seq<AccountKey>, extras: seq<nat>) {
    && |places| == |list| && Increasing(places, |extras|)
    && forall k :: 0 <= k < |list| ==> list[k] == Listed(keys, extras[places[k]])
  }

  lemma ListsLater(list: seq<Text>, places: seq<nat>, keys: seq<AccountKey>, extras: seq<nat>)
    requires extras != [] && ListsAt(list, places, keys, extras[1..])
    ensures ListsAt(list, Later(places), keys, extras)
  {
    LaterOneMore(places, |extras| - 1);
    forall k | 0 <= k < |list| ensures list[k] == Listed(keys, extras[Later(places)[k]]) {
      assert extras[1..][places[k]] == extras[places[k] + 1];
    }
  }

  lemma ListsHere(list: seq<Text>, places: seq<nat>, keys: seq<AccountKey>, extras: seq<nat>)
    requires extras != [] && ListsAt(list, places, keys, extras[1..])
    ensures ListsAt([Listed(keys, extras[0])] + list, [0] + Later(places), keys, extras)
  {
    ListsLater(list, places, keys, extras);
    LaterOneMore(places, |extras| - 1);
  }

  function WithHere(places: seq<nat>, here: bool): seq<nat> { if here then [0] + Later(places) else Later(places) }

  lemma WithHereIs(places: seq<nat>, here: bool, bound: nat)
    requires Increasing(places, bound)
    ensures forall p :: p in WithHere(places, here) <==> if p == 0 then here else p > 0 && p - 1 in places
  {
    LaterOneMore(places, bound);
    if here { assert ([0] + Later(places))[0] == 0; }
  }

  /** References are exactly the extra accounts that are only read, in order. */
  lemma {:induction false} ReferencesMean(keys: seq<AccountKey>, extras: seq<nat>) returns (places: seq<nat>)
    ensures ListsAt(References(keys, extras), places, keys, extras)
    ensures forall p :: 0 <= p < |extras| ==> (p in places <==> OnlyRead(keys, extras[p]))
  {
    places := [];
    if extras != [] {
      var rest := ReferencesMean(keys, extras[1..]);
      var here := OnlyRead(keys, extras[0]);
      ListsLater(References(keys, extras[1..]), rest, keys, extras);
      ListsHere(References(keys, extras[1..]), rest, keys, extras);
      WithHereIs(rest, here, |extras| - 1);
      places := WithHere(rest, here);
      assert forall p :: 0 < p < |extras| ==> extras[1..][p - 1] == extras[p];
    }
  }

  /** Unsupported extras are exactly the other ones, in order. */
  lemma {:induction false} ExtrasMean(keys: seq<AccountKey>, extras: seq<nat>) returns (places: seq<nat>)
    ensures ListsAt(UnsupportedExtras(keys, extras), places, keys, extras)
    ensures forall p :: 0 <= p < |extras| ==> (p in places <==> !OnlyRead(keys, extras[p]))
  {
    places := [];
    if extras != [] {
      var rest := ExtrasMean(keys, extras[1..]);
      var here := !OnlyRead(keys, extras[0]);
      ListsLater(UnsupportedExtras(keys, extras[1..]), rest, keys, extras);
      ListsHere(UnsupportedExtras(keys, extras[1..]), rest, keys, extras);
      WithHereIs(rest, here, |extras| - 1);
      places := WithHere(rest, here);
      assert forall p :: 0 < p < |extras| ==> extras[1..][p - 1] == extras[p];
    }
  }

  // ------------------------------------------------------------------ all instructions

  predicate Increasing(places: seq<nat>, bound: nat) {
    && (forall k :: 0 <= k < |places| ==> places[k] < bound)
    && forall k, l :: 0 <= k < l < |places| ==> places[k] < places[l]
  }

  predicate TransfersAt(ts: seq<ParsedTransfer>, places: seq<nat>, e: Evidence, at: seq<Location>, base58: Base58)
    requires |places| == |ts| && Increasing(places, |at|)
  {
    forall k :: 0 <= k < |ts| ==> IsTransfer(ts[k], e, at[places[k]], base58)
  }

  ghost predicate NoTransfer(e: Evidence, at: Location, base58: Base58) { forall t :: !IsTransfer(t, e, at, base58) }

  ghost predicate NoOthers(places: seq<nat>, e: Evidence, at: seq<Location>, base58: Base58) {
    forall i :: 0 <= i < |at| && i !in places ==> NoTransfer(e, at[i], base58)
  }

  /** The transfers are those of the instructions at these places, and no other instruction is one. */
  ghost predicate FoundAt(ts: seq<ParsedTransfer>, places: seq<nat>, e: Evidence, at: seq<Location>, base58: Base58) {
    |places| == |ts| && Increasing(places, |at|) && TransfersAt(ts, places, e, at, base58) && NoOthers(places, e, at, base58)
  }

  function Later(places: seq<nat>): (later: seq<nat>)
    ensures |later| == |places| && forall k :: 0 <= k < |places| ==> later[k] == places[k] + 1
  {
    seq(|places|, k requires 0 <= k < |places| => places[k] + 1)
  }

  lemma LaterOneMore(places: seq<nat>, bound: nat)
    requires Increasing(places, bound)
    ensures Increasing(Later(places), bound + 1) && Increasing([0] + Later(places), bound + 1)
    ensures forall i :: i in Later(places) <==> i > 0 && i - 1 in places
  {
    forall i | i > 0 && i - 1 in places ensures i in Later(places) {
      var k :| 0 <= k < |places| && places[k] == i - 1;
      assert Later(places)[k] == i;
    }
  }

  lemma TransfersLater(rest: seq<ParsedTransfer>, places: seq<nat>, e: Evidence, at: seq<Location>, base58: Base58)
    requires at != [] && |places| == |rest| && Increasing(places, |at| - 1)
    requires TransfersAt(rest, places, e, at[1..], base58)
    ensures Increasing(Later(places), |at|) && TransfersAt(rest, Later(places), e, at, base58)
  {
    forall k | 0 <= k < |rest| ensures IsTransfer(rest[k], e, at[Later(places)[k]], base58) {
      assert at[1..][places[k]] == at[places[k] + 1];
    }
  }

  lemma TransfersFirst(first: ParsedTransfer, rest: seq<ParsedTransfer>, places: seq<nat>, e: Evidence,
      at: seq<Location>,
      base58: Base58)
    requires at != [] && |places| == |rest| && Increasing([0] + places, |at|)
    requires Increasing(places, |at|) && TransfersAt(rest, places, e, at, base58) && IsTransfer(first, e, at[0], base58)
    ensures TransfersAt([first] + rest, [0] + places, e, at, base58)
  {
    forall k | 0 <= k < |rest| + 1 ensures IsTransfer(([first] + rest)[k], e, at[([0] + places)[k]], base58) {
      if k > 0 { assert IsTransfer(rest[k - 1], e, at[places[k - 1]], base58); }
    }
  }

  lemma NoOthersLater(places: seq<nat>, e: Evidence, at: seq<Location>, base58: Base58)
    requires at != [] && Increasing(places, |at| - 1) && NoOthers(places, e, at[1..], base58)
    ensures forall i :: 0 < i < |at| && i !in Later(places) ==> NoTransfer(e, at[i], base58)
  {
    LaterOneMore(places, |at| - 1);
    forall i | 0 < i < |at| && i !in Later(places) ensures NoTransfer(e, at[i], base58) {
      assert at[1..][i - 1] == at[i];
    }
  }

  lemma FoundLater(rest: seq<ParsedTransfer>, places: seq<nat>, e: Evidence, at: seq<Location>, base58: Base58)
    requires at != [] && FoundAt(rest, places, e, at[1..], base58) && NoTransfer(e, at[0], base58)
    ensures FoundAt(rest, Later(places), e, at, base58)
  {
    TransfersLater(rest, places, e, at, base58);
    NoOthersLater(places, e, at, base58);
  }

  lemma FoundFirst(first: ParsedTransfer, rest: seq<ParsedTransfer>, places: seq<nat>, e: Evidence, at: seq<Location>,
      base58: Base58)
    requires at != [] && FoundAt(rest, places, e, at[1..], base58) && IsTransfer(first, e, at[0], base58)
    ensures FoundAt([first] + rest, [0] + Later(places), e, at, base58)
  {
    LaterOneMore(places, |at| - 1);
    TransfersLater(rest, places, e, at, base58);
    TransfersFirst(first, rest, Later(places), e, at, base58);
    NoOthersLater(places, e, at, base58);
    assert ([0] + Later(places))[0] == 0;
  }

  ghost predicate RefusesOne(e: Evidence, at: seq<Location>, base58: Base58, watched: Option<Text>) {
    exists i :: 0 <= i < |at| && Refuses(e, at[i], base58, watched)
  }

  lemma RefusesSplits(e: Evidence, at: seq<Location>, base58: Base58, watched: Option<Text>)
    requires at != []
    ensures RefusesOne(e, at, base58, watched)
      <==> Refuses(e, at[0], base58, watched) || RefusesOne(e, at[1..], base58, watched)
  {
    if RefusesOne(e, at[1..], base58, watched) {
      var i :| 0 <= i < |at[1..]| && Refuses(e, at[1..][i], base58, watched);
      assert at[i + 1] == at[1..][i];
    }
    if RefusesOne(e, at, base58, watched) {
      var i :| 0 <= i < |at| && Refuses(e, at[i], base58, watched);
      if i > 0 { assert at[1..][i - 1] == at[i]; }
    }
  }

  lemma OneRefuses(e: Evidence, at: seq<Location>, base58: Base58, watched: Option<Text>)
    requires at != []
    requires ParseLocations(e, at[1..], base58, watched).Err? <==> RefusesOne(e, at[1..], base58, watched)
    ensures ParseLocations(e, at, base58, watched).Err? <==> RefusesOne(e, at, base58, watched)
  {
    InstructionMeans(e, at[0], base58, watched);
    RefusesSplits(e, at, base58, watched);
  }

  lemma OneFinds(e: Evidence, at: seq<Location>, base58: Base58, watched: Option<Text>, rest: seq<nat>)
    returns (places: seq<nat>)
    requires at != [] && ParseLocations(e, at, base58, watched).Ok? && ParseLocations(e, at[1..], base58, watched).Ok?
    requires FoundAt(ParseLocations(e, at[1..], base58, watched).value, rest, e, at[1..], base58)
    ensures FoundAt(ParseLocations(e, at, base58, watched).value, places, e, at, base58)
  {
    Envelope.ParsedInTurn(e, at, base58, watched);
    InstructionMeans(e, at[0], base58, watched);
    var first, others := ParseLocation(e, at[0], base58, watched).value, ParseLocations(e, at[1..], base58, watched).value;
    if first == [] {
      places := Later(rest);
      FoundLater(others, rest, e, at, base58);
      assert first + others == others;
    } else {
      places := [0] + Later(rest);
      assert first == [first[0]];
      FoundFirst(first[0], others, rest, e, at, base58);
    }
  }

  lemma {:induction false} LocationsMean(e: Evidence, at: seq<Location>, base58: Base58, watched: Option<Text>)
    returns (places: seq<nat>)
    ensures ParseLocations(e, at, base58, watched).Err? <==> RefusesOne(e, at, base58, watched)
    ensures ParseLocations(e, at, base58, watched).Ok? ==>
      FoundAt(ParseLocations(e, at, base58, watched).value, places, e, at, base58)
  {
    places := [];
    if at != [] {
      var rest := LocationsMean(e, at[1..], base58, watched);
      OneRefuses(e, at, base58, watched);
      if ParseLocations(e, at, base58, watched).Ok? {
        Envelope.ParsedInTurn(e, at, base58, watched);
        places := OneFinds(e, at, base58, watched, rest);
      }
    }
  }

  /** The outer instruction is at this place of the transaction. */
  predicate OuterAt(tx: Transaction, at: Location) {
    && at.outer < |tx.message.instructions| && at.inner.None?
    && var i := tx.message.instructions[at.outer]; at.programIdIndex == i.programIdIndex && at.accounts == i.accounts && at.data == i.data
  }

  /** The inner instruction is at this place of some group. */
  predicate InnerAt(groups: seq<InnerGroup>, at: Location) {
    exists g :: 0 <= g < |groups| && groups[g].index == at.outer
      && at.inner.Some? && at.inner.value < |groups[g].instructions|
      && var i := groups[g].instructions[at.inner.value]; at.programIdIndex == i.programIdIndex && at.accounts == i.accounts && at.data == i.data
  }

  predicate InGroup(group: InnerGroup, at: Location) {
    && group.index == at.outer && at.inner.Some? && at.inner.value < |group.instructions|
    && var i := group.instructions[at.inner.value]; at.programIdIndex == i.programIdIndex && at.accounts == i.accounts && at.data == i.data
  }

  lemma GroupIs(group: InnerGroup, at: Location)
    ensures at in GroupLocations(group) <==> InGroup(group, at)
  {
    if InGroup(group, at) { assert GroupLocations(group)[at.inner.value] == at; }
  }

  lemma {:induction false} InnerIs(groups: seq<InnerGroup>, at: Location)
    ensures at in InnerLocations(groups) <==> InnerAt(groups, at)
  {
    if groups != [] {
      InnerIs(groups[1..], at);
      GroupIs(groups[0], at);
      if InnerAt(groups[1..], at) {
        var g :| 0 <= g < |groups[1..]| && InGroup(groups[1..][g], at);
        assert InGroup(groups[g + 1], at);
      }
      if InnerAt(groups, at) {
        var g :| 0 <= g < |groups| && InGroup(groups[g], at);
        if g > 0 { assert InGroup(groups[1..][g - 1], at); }
      }
    }
  }

  /** The parser looks at the outer instructions in order, and then at exactly the inner ones. */
  lemma PlacesMean(tx: Transaction, at: Location)
    ensures |tx.message.instructions| <= |Locations(tx)|
    ensures forall i ::
      0 <= i < |tx.message.instructions| ==> OuterAt(tx, Locations(tx)[i]) && Locations(tx)[i].outer == i
    ensures at in Locations(tx)[|tx.message.instructions|..] <==> InnerAt(InnerGroups(tx), at)
  {
    InnerIs(InnerGroups(tx), at);
    assert Locations(tx)[|tx.message.instructions|..] == InnerLocations(InnerGroups(tx));
  }

  /**
   The parse of a transaction refuses exactly when one of its instructions is refused. Otherwise
   it has exactly the transfers among the instructions, each once, in their order.
   */
  lemma ParseMeans(tx: Transaction, base58: Base58, watched: Option<Text>) returns (places: seq<nat>)
    ensures ParseTransactionTransfers(tx, base58, watched).Err?
      <==> RefusesOne(EvidenceOf(tx), Locations(tx), base58, watched)
    ensures ParseTransactionTransfers(tx, base58, watched).Ok? ==>
      FoundAt(ParseTransactionTransfers(tx, base58, watched).value, places, EvidenceOf(tx), Locations(tx), base58)
  {
    places := LocationsMean(EvidenceOf(tx), Locations(tx), base58, watched);
  }

  /** The balances looked at are those before and after, as the envelope states them. */
  lemma BalancesMean(tx: Transaction, b: Balance)
    ensures b in EvidenceOf(tx).balances <==>
      exists s :: (s in tx.meta.preTokenBalances || s in tx.meta.postTokenBalances)
        && b == Balance(s.accountIndex, s.mint, s.programId, s.decimals)
  {
    var pre, post := tx.meta.preTokenBalances, tx.meta.postTokenBalances;
    forall s | s in pre ensures BalanceOf(s) in Balances(tx) {
      var i :| 0 <= i < |pre| && pre[i] == s;
      assert BalancesOf(pre)[i] == BalanceOf(s);
    }
    forall s | s in post ensures BalanceOf(s) in Balances(tx) {
      var i :| 0 <= i < |post| && post[i] == s;
      assert BalancesOf(post)[i] == BalanceOf(s);
    }
    if b in Balances(tx) {
      if b in BalancesOf(pre) {
        var i :| 0 <= i < |pre| && BalancesOf(pre)[i] == b;
        assert pre[i] in pre;
      } else {
        var i :| 0 <= i < |post| && BalancesOf(post)[i] == b;
        assert post[i] in post;
      }
    }
  }

  /** What touches the watched address without being understood refuses the whole transaction. */
  lemma UnknownRefuses(tx: Transaction, base58: Base58, watched: Option<Text>, i: nat)
    requires i < |Locations(tx)| && Touches(EvidenceOf(tx), Locations(tx)[i], watched)
    requires RunsToken2022(EvidenceOf(tx), Locations(tx)[i])
      || (RunsToken(EvidenceOf(tx), Locations(tx)[i]) && AsksNothing(base58(Locations(tx)[i].data)))
    ensures ParseTransactionTransfers(tx, base58, watched).Err?
  {
    var places := ParseMeans(tx, base58, watched);
  }
}
