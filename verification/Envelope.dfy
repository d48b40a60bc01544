/**
 `validateEnvelope`, and what an accepted envelope guarantees about the transfers
 parsed from it.
 */
module Envelope {
  import opened Wrappers
  import opened Powers
  import opened Texts
  import opened Transactions
  import opened TransferParser
  import opened TokenInstruction
  import CanonicalJson

  datatype Issue =
    | SignatureMismatch
    | SignatureCount
    | SignersNotStatic
    | ReadonlyCounts
    | LoadedCounts
    | LegacyLoaded
    | ProgramOutOfRange(group: Option<nat>, instruction: nat)
    | AccountOutOfRange(group: Option<nat>, instruction: nat, position: nat)
    | DuplicateParent(index: nat)
    | ParentOutOfRange(index: nat)
    | BalanceOutOfRange(pre: bool, position: nat)

  function ResolvedCount(tx: Transaction): nat {
    |tx.message.accountKeys| + |Loaded(tx).writable| + |Loaded(tx).readonly|
  }

  function LookupCounts(lookups: seq<Lookup>): (nat, nat) {
    if lookups == [] then (0, 0)
    else
      var last := |lookups| - 1;
      var (w, r) := LookupCounts(lookups[..last]);
      (w + |lookups[last].writableIndexes|, r + |lookups[last].readonlyIndexes|)
  }

  predicate InstructionInRange(instruction: Instruction, count: nat) {
    instruction.programIdIndex < count
    && forall p :: 0 <= p < |instruction.accounts| ==> instruction.accounts[p] < count
  }

  predicate InstructionsInRange(instructions: seq<Instruction>, count: nat) {
    forall i :: 0 <= i < |instructions| ==> InstructionInRange(instructions[i], count)
  }

  predicate HeaderAccepted(tx: Transaction) {
    var h := tx.message.header;
    && tx.signatures != [] && tx.signatures[0] == tx.signature
    && |tx.signatures| == h.numRequiredSignatures
    && h.numRequiredSignatures <= |tx.message.accountKeys|
    && h.numReadonlySignedAccounts < h.numRequiredSignatures
    && h.numReadonlyUnsignedAccounts <= |tx.message.accountKeys| - h.numRequiredSignatures
  }

  predicate LoadedAccepted(tx: Transaction) {
    && LookupCounts(tx.message.addressTableLookups) == (|Loaded(tx).writable|, |Loaded(tx).readonly|)
    && (tx.version.Legacy? ==> tx.message.addressTableLookups == [] && Loaded(tx).writable == [] && Loaded(tx).readonly == [])
  }

  predicate GroupsAccepted(groups: seq<InnerGroup>, outer: nat, count: nat) {
    && (forall i, j :: 0 <= i < j < |groups| ==> groups[i].index != groups[j].index)
    && (forall i :: 0 <= i < |groups| ==> groups[i].index < outer && InstructionsInRange(groups[i].instructions, count))
  }

  predicate BalancesInRange(balances: seq<TokenBalance>, count: nat) {
    forall i :: 0 <= i < |balances| ==> balances[i].accountIndex < count
  }

  /** What the schema promises about an envelope it lets through. */
  predicate Accepted(tx: Transaction) {
    && HeaderAccepted(tx)
    && LoadedAccepted(tx)
    && InstructionsInRange(tx.message.instructions, ResolvedCount(tx))
    && GroupsAccepted(InnerGroups(tx), |tx.message.instructions|, ResolvedCount(tx))
    && BalancesInRange(tx.meta.preTokenBalances, ResolvedCount(tx))
    && BalancesInRange(tx.meta.postTokenBalances, ResolvedCount(tx))
  }

  method ValidateInstructions(instructions: seq<Instruction>, group: Option<nat>,
      count: nat) returns (issues: seq<Issue>)
    ensures issues == [] <==> InstructionsInRange(instructions, count)
  {
    issues := [];
    for i := 0 to |instructions|
      invariant issues == [] <==> InstructionsInRange(instructions[..i], count)
    {
      var instruction := instructions[i];
      if instruction.programIdIndex >= count { issues := issues + [ProgramOutOfRange(group, i)]; }
      for p := 0 to |instruction.accounts|
        invariant issues == [] <==>
          && InstructionsInRange(instructions[..i], count)
          && instruction.programIdIndex < count
          && forall q :: 0 <= q < p ==> instruction.accounts[q] < count
      {
        if instruction.accounts[p] >= count { issues := issues + [AccountOutOfRange(group, i, p)]; }
      }
      assert instructions[..i + 1] == instructions[..i] + [instruction];
    }
    assert instructions[..|instructions|] == instructions;
  }

  method ValidateBalances(balances: seq<TokenBalance>, pre: bool, count: nat) returns (issues: seq<Issue>)
    ensures issues == [] <==> BalancesInRange(balances, count)
  {
    issues := [];
    for i := 0 to |balances|
      invariant issues == [] <==> forall j :: 0 <= j < i ==> balances[j].accountIndex < count
    {
      if balances[i].accountIndex >= count { issues := issues + [BalanceOutOfRange(pre, i)]; }
    }
  }

  method ValidateGroups(groups: seq<InnerGroup>, outer: nat, count: nat) returns (issues: seq<Issue>)
    ensures issues == [] <==> GroupsAccepted(groups, outer, count)
  {
    issues := [];
    var parents: set<nat> := {};
    for g := 0 to |groups|
      invariant forall n :: n in parents <==> exists i :: 0 <= i < g && groups[i].index == n
      invariant issues == [] <==> GroupsAccepted(groups[..g], outer, count)
    {
      ghost var before := groups[..g];
      assert groups[..g + 1] == before + [groups[g]];
      if groups[g].index in parents { issues := issues + [DuplicateParent(g)]; }
      parents := parents + {groups[g].index};
      if groups[g].index >= outer { issues := issues + [ParentOutOfRange(g)]; }
      var more := ValidateInstructions(groups[g].instructions, Some(g), count);
      issues := issues + more;
    }
    assert groups[..|groups|] == groups;
  }

  /** No issue is raised exactly for accepted envelopes. */
  method ValidateEnvelope(tx: Transaction) returns (issues: seq<Issue>)
    ensures issues == [] <==> Accepted(tx)
  {
    var h := tx.message.header;
    issues := [];
    if tx.signatures == [] || tx.signatures[0] != tx.signature { issues := issues + [SignatureMismatch]; }
    if |tx.signatures| != h.numRequiredSignatures { issues := issues + [SignatureCount]; }
    if h.numRequiredSignatures > |tx.message.accountKeys| { issues := issues + [SignersNotStatic]; }
    if h.numReadonlySignedAccounts >= h.numRequiredSignatures
       || h.numReadonlyUnsignedAccounts > |tx.message.accountKeys| - h.numRequiredSignatures
    {
      issues := issues + [ReadonlyCounts];
    }
    assert issues == [] <==> HeaderAccepted(tx);

    var lookups, loaded := tx.message.addressTableLookups, Loaded(tx);
    var writable: nat, readonly: nat := 0, 0;
    for i := 0 to |lookups|
      invariant (writable, readonly) == LookupCounts(lookups[..i])
    {
      assert lookups[..i + 1][..i] == lookups[..i];
      writable := writable + |lookups[i].writableIndexes|;
      readonly := readonly + |lookups[i].readonlyIndexes|;
    }
    assert lookups[..|lookups|] == lookups;
    if writable != |loaded.writable| || readonly != |loaded.readonly| { issues := issues + [LoadedCounts]; }
    if tx.version.Legacy? && (|lookups| > 0 || |loaded.writable| > 0 || |loaded.readonly| > 0) {
      issues := issues + [LegacyLoaded];
    }
    assert issues == [] <==> HeaderAccepted(tx) && LoadedAccepted(tx);

    var count := ResolvedCount(tx);
    var outer := ValidateInstructions(tx.message.instructions, None, count);
    var inner := ValidateGroups(InnerGroups(tx), |tx.message.instructions|, count);
    var pre := ValidateBalances(tx.meta.preTokenBalances, true, count);
    var post := ValidateBalances(tx.meta.postTokenBalances, false, count);
    issues := issues + outer + inner + pre + post;
  }

  // ------------------------------------------------------------- account key blocks

  datatype Flags = Flags(signer: bool, writable: bool)

  function FlagsOf(keys: seq<AccountKey>): (r: seq<Flags>)
    ensures |r| == |keys|
  {
    seq(|keys|, i requires 0 <= i < |keys| => Flags(keys[i].signer, keys[i].writable))
  }

  function Block(n: nat, signer: bool, writable: bool): (r: seq<Flags>)
    ensures |r| == n
  {
    seq(n, _ => Flags(signer, writable))
  }

  /** The resolved keys are six contiguous blocks whose sizes are exactly the header's and the loaded counts. */
  lemma KeysFormBlocks(tx: Transaction)
    requires Accepted(tx)
    ensures var h := tx.message.header;
      FlagsOf(AccountKeys(tx))
      == Block(h.numRequiredSignatures - h.numReadonlySignedAccounts, true, true)
       + Block(h.numReadonlySignedAccounts, true, false)
       + Block(|tx.message.accountKeys| - h.numRequiredSignatures - h.numReadonlyUnsignedAccounts, false, true)
       + Block(h.numReadonlyUnsignedAccounts, false, false)
       + Block(|Loaded(tx).writable|, false, true)
       + Block(|Loaded(tx).readonly|, false, false)
  {}

  // ------------------------------------------------------------- extra accounts

  function AddressesOf(keys: seq<AccountKey>, indexes: seq<nat>): seq<Text>
    requires forall i :: 0 <= i < |indexes| ==> indexes[i] < |keys|
  {
    if indexes == [] then [] else [keys[indexes[0]].address] + AddressesOf(keys, indexes[1..])
  }

  /** With every index defined, references and unsupported extras split the extra accounts; none is "unresolved". */
  lemma {:induction false} ExtrasPartition(keys: seq<AccountKey>, extras: seq<nat>)
    requires forall i :: 0 <= i < |extras| ==> extras[i] < |keys|
    ensures multiset(References(keys, extras)) + multiset(UnsupportedExtras(keys, extras))
      == multiset(AddressesOf(keys, extras))
  {
    if extras != [] {
      var key, rest := keys[extras[0]], extras[1..];
      ExtrasPartition(keys, rest);
      if key.signer || key.writable {
        assert References(keys, extras) == [] + References(keys, rest) == References(keys, rest);
        assert UnsupportedExtras(keys, extras) == [key.address] + UnsupportedExtras(keys, rest);
      } else {
        assert References(keys, extras) == [key.address] + References(keys, rest);
        assert UnsupportedExtras(keys, extras) == [] + UnsupportedExtras(keys, rest) == UnsupportedExtras(keys, rest);
      }
    }
  }

  predicate LocationInRange(at: Location, count: nat) {
    at.programIdIndex < count && forall p :: 0 <= p < |at.accounts| ==> at.accounts[p] < count
  }

  lemma {:induction false} InnerLocationsInRange(groups: seq<InnerGroup>, outer: nat, count: nat)
    requires GroupsAccepted(groups, outer, count)
    ensures forall i :: 0 <= i < |InnerLocations(groups)| ==> LocationInRange(InnerLocations(groups)[i], count)
  {
    if groups != [] {
      InnerLocationsInRange(groups[1..], outer, count);
      var first, rest := GroupLocations(groups[0]), InnerLocations(groups[1..]);
      forall i | 0 <= i < |first| ensures LocationInRange(first[i], count) {
        assert InstructionInRange(groups[0].instructions[i], count);
      }
    }
  }

  /** Every index the parser follows in an accepted envelope is defined. */
  lemma LocationsInRange(tx: Transaction)
    requires Accepted(tx)
    ensures |AccountKeys(tx)| == ResolvedCount(tx)
    ensures forall i :: 0 <= i < |Locations(tx)| ==> LocationInRange(Locations(tx)[i], |AccountKeys(tx)|)
  {
    var outer := OuterLocations(tx.message.instructions);
    forall i | 0 <= i < |outer| ensures LocationInRange(outer[i], ResolvedCount(tx)) {
      assert InstructionInRange(tx.message.instructions[i], ResolvedCount(tx));
    }
    InnerLocationsInRange(InnerGroups(tx), |tx.message.instructions|, ResolvedCount(tx));
  }

  // ------------------------------------------------------------- event identities

  lemma EventIdInjective(cluster: Text, signature: Text, m: nat, i: Option<nat>, n: nat, j: Option<nat>)
    requires EventId(cluster, signature, m, i) == EventId(cluster, signature, n, j)
    ensures m == n && i == j
  {
    var prefix := cluster + [COLON] + signature + [COLON];
    var x := if i.Some? then Decimal(i.value) else Ascii("outer");
    var y := if j.Some? then Decimal(j.value) else Ascii("outer");
    CanonicalJson.Assoc(prefix, Decimal(m), [COLON], x);
    CanonicalJson.Assoc(prefix, Decimal(n), [COLON], y);
    CanonicalJson.Strip(prefix, Decimal(m) + ([COLON] + x), Decimal(n) + ([COLON] + y));
    CanonicalJson.NumberDecodes(Decimal(m), Decimal(n), [COLON] + x, [COLON] + y);
    CanonicalJson.Strip([COLON], x, y);
    DecimalInjective(m, n);
    assert Ascii("outer")[0] == 0x6F;
    if i.Some? && j.Some? { DecimalInjective(i.value, j.value); }
  }

  ghost predicate DistinctPlaces(at: seq<Location>) {
    forall i, j :: 0 <= i < j < |at| ==> at[i].outer != at[j].outer || at[i].inner != at[j].inner
  }

  lemma {:induction false} InnerPlacesDistinct(groups: seq<InnerGroup>)
    requires forall i, j :: 0 <= i < j < |groups| ==> groups[i].index != groups[j].index
    ensures DistinctPlaces(InnerLocations(groups))
    ensures forall k :: 0 <= k < |InnerLocations(groups)| ==>
              InnerLocations(groups)[k].inner.Some? && exists i :: 0 <= i < |groups| && groups[i].index == InnerLocations(groups)[k].outer
  {
    if groups != [] {
      var first, rest := GroupLocations(groups[0]), InnerLocations(groups[1..]);
      InnerPlacesDistinct(groups[1..]);
      forall k | 0 <= k < |rest|
        ensures rest[k].outer != groups[0].index && exists i :: 0 <= i < |groups| && groups[i].index == rest[k].outer
      {
        var i :| 0 <= i < |groups[1..]| && groups[1..][i].index == rest[k].outer;
        assert groups[i + 1].index == rest[k].outer;
      }
      forall k | 0 <= k < |first| ensures first[k].outer == groups[0].index {}
    }
  }

  lemma PlacesDistinct(tx: Transaction)
    requires Accepted(tx)
    ensures DistinctPlaces(Locations(tx))
  {
    InnerPlacesDistinct(InnerGroups(tx));
  }

  /** The transfer was parsed at one of the locations. */
  ghost predicate ComesFrom(t: ParsedTransfer, e: Evidence, at: seq<Location>) {
    && t.signature == e.signature
    && t.eventId == EventId(e.cluster, e.signature, t.outerInstructionIndex, t.innerInstructionIndex)
    && exists i :: 0 <= i < |at| && at[i].outer == t.outerInstructionIndex && at[i].inner == t.innerInstructionIndex
  }

  lemma ComesLater(t: ParsedTransfer, e: Evidence, at: seq<Location>)
    requires at != [] && ComesFrom(t, e, at[1..]) && DistinctPlaces(at)
    ensures ComesFrom(t, e, at) && t.eventId != EventId(e.cluster, e.signature, at[0].outer, at[0].inner)
  {
    var i :| 0 <= i < |at[1..]| && at[1..][i].outer == t.outerInstructionIndex && at[1..][i].inner == t.innerInstructionIndex;
    assert at[i + 1] == at[1..][i];
    if t.eventId == EventId(e.cluster, e.signature, at[0].outer, at[0].inner) {
      EventIdInjective(e.cluster, e.signature, at[0].outer, at[0].inner, t.outerInstructionIndex,
        t.innerInstructionIndex);
    }
  }

  /** A location yields at most one transfer, and that is of its own place. */
  lemma LocationYields(e: Evidence, at: Location, base58: Base58, watched: Option<Text>)
    requires ParseLocation(e, at, base58, watched).Ok?
    ensures var ts := ParseLocation(e, at, base58, watched).value;
      |ts| <= 1 && (ts != [] ==>
        && ts[0].signature == e.signature && ts[0].outerInstructionIndex == at.outer && ts[0].innerInstructionIndex == at.inner
        && ts[0].eventId == EventId(e.cluster, e.signature, at.outer, at.inner))
  {
  }

  /** A parse that succeeds yields at most one transfer per location, so no event id twice. */
  lemma {:induction false} TransfersComeFromPlaces(e: Evidence, at: seq<Location>, base58: Base58,
      watched: Option<Text>)
    requires ParseLocations(e, at, base58, watched).Ok? && DistinctPlaces(at)
    ensures var ts := ParseLocations(e, at, base58, watched).value;
      && (forall k :: 0 <= k < |ts| ==> ComesFrom(ts[k], e, at))
      && (forall k, l :: 0 <= k < l < |ts| ==> ts[k].eventId != ts[l].eventId)
  {
    if at != [] {
      TransfersComeFromPlaces(e, at[1..], base58, watched);
      LocationYields(e, at[0], base58, watched);
      var rest := ParseLocations(e, at[1..], base58, watched).value;
      forall l | 0 <= l < |rest|
        ensures ComesFrom(rest[l], e, at)
        ensures rest[l].eventId != EventId(e.cluster, e.signature, at[0].outer, at[0].inner)
      {
        ComesLater(rest[l], e, at);
      }
    }
  }

  /** Event ids of an accepted envelope are pairwise distinct. */
  lemma EventIdsDistinct(tx: Transaction, base58: Base58, watched: Option<Text>)
    requires Accepted(tx) && ParseTransactionTransfers(tx, base58, watched).Ok?
    ensures var ts := ParseTransactionTransfers(tx, base58, watched).value;
      forall i, j :: 0 <= i < j < |ts| ==> ts[i].eventId != ts[j].eventId
  {
    PlacesDistinct(tx);
    TransfersComeFromPlaces(EvidenceOf(tx), Locations(tx), base58, watched);
  }

  /** Every transfer carries the signature and the event id of its own transaction. */
  lemma TransfersAreOwn(tx: Transaction, base58: Base58, watched: Option<Text>)
    requires Accepted(tx) && ParseTransactionTransfers(tx, base58, watched).Ok?
    ensures var ts := ParseTransactionTransfers(tx, base58, watched).value;
      forall i :: 0 <= i < |ts| ==>
        ts[i].signature == tx.signature && ts[i].eventId == EventId(tx.cluster, tx.signature, ts[i].outerInstructionIndex, ts[i].innerInstructionIndex)
  {
    PlacesDistinct(tx);
    TransfersComeFromPlaces(EvidenceOf(tx), Locations(tx), base58, watched);
  }

  // ------------------------------------------------------------- extra accounts of a transfer

  /** How many accounts the instruction itself names. */
  function NamedAccounts(at: Location, base58: Base58): nat {
    if Decode(base58(at.data)).TransferChecked? then 4 else 3
  }

  /** References and unsupported extras of the transfer are the addresses of its instruction's other accounts. */
  predicate SplitsExtras(t: ParsedTransfer, e: Evidence, at: Location, base58: Base58) {
    && LocationInRange(at, |e.keys|)
    && at.outer == t.outerInstructionIndex && at.inner == t.innerInstructionIndex && NamedAccounts(at, base58) <= |at.accounts|
    && multiset(t.references) + multiset(t.unsupportedExtraAccounts) == multiset(AddressesOf(e.keys, at.accounts[NamedAccounts(at, base58)..]))
  }

  lemma MadeSplits(e: Evidence, at: Location, base58: Base58, destination: nat, authority: nat, mint: Text, amount: nat,
      decimals: nat)
    requires LocationInRange(at, |e.keys|) && NamedAccounts(at, base58) <= |at.accounts|
    requires AccountsResolve(e.keys, at.accounts, 0, destination, authority)
    ensures SplitsExtras(MakeTransfer(e, at, destination, authority, NamedAccounts(at, base58), mint, amount, decimals), e, at, base58)
  {
    ExtrasPartition(e.keys, at.accounts[NamedAccounts(at, base58)..]);
  }

  lemma CheckedSplits(e: Evidence, at: Location, base58: Base58, amount: nat, decimals: nat)
    requires LocationInRange(at, |e.keys|) && NamedAccounts(at, base58) == 4
    requires ParseChecked(e, at, amount, decimals).Ok?
    ensures var ts := ParseChecked(e, at, amount, decimals).value; |ts| == 1 && SplitsExtras(ts[0], e, at, base58)
  {
    MadeSplits(e, at, base58, 2, 3, e.keys[at.accounts[1]].address, amount, decimals);
  }

  lemma LegacySplits(e: Evidence, at: Location, base58: Base58, amount: nat)
    requires LocationInRange(at, |e.keys|) && NamedAccounts(at, base58) == 3 && ParseLegacy(e, at, amount).Ok?
    ensures var ts := ParseLegacy(e, at, amount).value; |ts| == 1 && SplitsExtras(ts[0], e, at, base58)
  {
    var evidence := ResolveAssetEvidence(e.balances, at.accounts[0], at.accounts[1]).value;
    MadeSplits(e, at, base58, 1, 2, evidence.mint, amount, evidence.decimals);
  }

  lemma LocationSplits(e: Evidence, at: Location, base58: Base58, watched: Option<Text>)
    requires LocationInRange(at, |e.keys|) && ParseLocation(e, at, base58, watched).Ok?
    ensures forall k :: 0 <= k < |ParseLocation(e, at, base58, watched).value| ==> SplitsExtras(ParseLocation(e, at, base58, watched).value[k], e, at, base58)
  {
    if ParseLocation(e, at, base58, watched).value != [] {
      match Decode(base58(at.data))
      case TransferChecked(amount, decimals) => CheckedSplits(e, at, base58, amount, decimals);
      case Transfer(amount) => LegacySplits(e, at, base58, amount);
      case _ =>
    }
  }

  lemma ParsedInTurn(e: Evidence, at: seq<Location>, base58: Base58, watched: Option<Text>)
    requires at != [] && ParseLocations(e, at, base58, watched).Ok?
    ensures ParseLocation(e, at[0], base58, watched).Ok? && ParseLocations(e, at[1..], base58, watched).Ok?
    ensures ParseLocations(e, at, base58, watched).value
      == ParseLocation(e, at[0], base58, watched).value + ParseLocations(e, at[1..], base58, watched).value
  {
  }

  /** Every transfer of a parse is one that some location yields. */
  lemma {:induction false} YieldedBy(e: Evidence, at: seq<Location>, base58: Base58, watched: Option<Text>,
      k: nat) returns (i: nat, j: nat)
    requires ParseLocations(e, at, base58, watched).Ok? && k < |ParseLocations(e, at, base58, watched).value|
    ensures i < |at| && ParseLocation(e, at[i], base58, watched).Ok?
    ensures j < |ParseLocation(e, at[i], base58, watched).value|
    ensures ParseLocations(e, at, base58, watched).value[k] == ParseLocation(e, at[i], base58, watched).value[j]
  {
    assert at != [];
    ParsedInTurn(e, at, base58, watched);
    var first := |ParseLocation(e, at[0], base58, watched).value|;
    if k < first {
      i, j := 0, k;
    } else {
      i, j := YieldedBy(e, at[1..], base58, watched, k - first);
      i := i + 1;
    }
  }

  /** No extra account of a transfer of an accepted envelope is lost, made up or unresolved. */
  lemma TransferExtrasSplit(tx: Transaction, base58: Base58, watched: Option<Text>, k: nat)
    requires Accepted(tx) && ParseTransactionTransfers(tx, base58, watched).Ok?
    requires k < |ParseTransactionTransfers(tx, base58, watched).value|
    ensures exists i ::
      0 <= i < |Locations(tx)| && SplitsExtras(ParseTransactionTransfers(tx, base58, watched).value[k], EvidenceOf(tx), Locations(tx)[i], base58)
  {
    LocationsInRange(tx);
    var i, j := YieldedBy(EvidenceOf(tx), Locations(tx), base58, watched, k);
    LocationSplits(EvidenceOf(tx), Locations(tx)[i], base58, watched);
  }

  // ------------------------------------------------------------- what a transfer means

  /** A TransferChecked instruction, as a client encodes it, parses to the transfer it asks for. */
  lemma CheckedTransferParses(e: Evidence, at: Location, base58: Base58, watched: Option<Text>,
      source: nat, mint: nat, destination: nat, authority: nat, extras: seq<nat>, amount: nat, decimals: Byte)
    requires source < |e.keys| && mint < |e.keys| && destination < |e.keys| && authority < |e.keys|
    requires at.programIdIndex < |e.keys| && e.keys[at.programIdIndex].address == LegacyTokenProgram()
    requires at.accounts == [source, mint, destination, authority] + extras && amount < Pow2(64)
    requires base58(at.data) == Some([TRANSFER_CHECKED_DISCRIMINATOR] + EncodeLittleEndian(amount, 8) + [decimals])
    requires Concerning(e.balances, source, destination) == []
      || ResolveAssetEvidence(e.balances, source, destination) == Ok(AssetEvidence(e.keys[mint].address, decimals))
    ensures ParseLocation(e, at, base58, watched) == Ok([ParsedTransfer(
      EventId(e.cluster, e.signature, at.outer, at.inner), e.signature, e.slot, at.outer, at.inner, LegacyTokenProgram(),
      e.keys[source].address, source, e.keys[mint].address, e.keys[destination].address, destination,
      e.keys[authority].address, amount, decimals, References(e.keys, extras), UnsupportedExtras(e.keys, extras))])
  {
    TransferCheckedDecodesExactly(base58(at.data).value, amount, decimals);
    DistinctPrograms();
    assert ParseLocation(e, at, base58, watched) == ParseChecked(e, at, amount, decimals);
    CheckedAccounts(at.accounts, source, mint, destination, authority, extras);
  }

  lemma CheckedAccounts(accounts: seq<nat>, source: nat, mint: nat, destination: nat, authority: nat, extras: seq<nat>)
    requires accounts == [source, mint, destination, authority] + extras
    ensures accounts[0] == source && accounts[1] == mint && accounts[2] == destination && accounts[3] == authority
    ensures accounts[4..] == extras
  {}

  /** A plain Transfer takes its mint and decimals from the balances of its two accounts. */
  lemma LegacyTransferParses(e: Evidence, at: Location, base58: Base58, watched: Option<Text>,
      source: nat, destination: nat, authority: nat, extras: seq<nat>, amount: nat, asset: AssetEvidence)
    requires source < |e.keys| && destination < |e.keys| && authority < |e.keys|
    requires at.programIdIndex < |e.keys| && e.keys[at.programIdIndex].address == LegacyTokenProgram()
    requires at.accounts == [source, destination, authority] + extras && amount < Pow2(64)
    requires base58(at.data) == Some([TRANSFER_DISCRIMINATOR] + EncodeLittleEndian(amount, 8))
    requires ResolveAssetEvidence(e.balances, source, destination) == Ok(asset)
    ensures ParseLocation(e, at, base58, watched) == Ok([ParsedTransfer(
      EventId(e.cluster, e.signature, at.outer, at.inner), e.signature, e.slot, at.outer, at.inner, LegacyTokenProgram(),
      e.keys[source].address, source, asset.mint, e.keys[destination].address, destination,
      e.keys[authority].address, amount, asset.decimals, References(e.keys, extras), UnsupportedExtras(e.keys, extras))])
  {
    assert at.accounts[0] == source && at.accounts[1] == destination && at.accounts[2] == authority;
    TransferDecodesExactly(base58(at.data).value, amount);
    DistinctPrograms();
    assert at.accounts[3..] == extras;
  }

  lemma DistinctPrograms()
    ensures LegacyTokenProgram() != Token2022Program()
  {
    assert LegacyTokenProgram()[5] != Token2022Program()[5];
  }

  /** Watching an address only decides whether unsupported evidence is fatal, never which transfers are found. */
  lemma {:induction false} WatchingOnlyRefuses(e: Evidence, at: seq<Location>, base58: Base58, v: Option<Text>,
      w: Option<Text>)
    requires ParseLocations(e, at, base58, v).Ok? && ParseLocations(e, at, base58, w).Ok?
    ensures ParseLocations(e, at, base58, v) == ParseLocations(e, at, base58, w)
  {
    if at != [] {
      WatchingOnlyRefuses(e, at[1..], base58, v, w);
    }
  }
}
