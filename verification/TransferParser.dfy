/** Token transfers of a transaction: `resolveAccountKeys` and `parseTransactionTransfers`. */
module TransferParser {
  import opened Wrappers
  import opened Texts
  import opened Transactions
  import opened TokenInstruction

  datatype AccountKey = AccountKey(address: Text, signer: bool, writable: bool)

  function StaticKeys(message: Message): (keys: seq<AccountKey>)
    ensures |keys| == |message.accountKeys|
  {
    var h := message.header;
    var writableSigners := h.numRequiredSignatures - h.numReadonlySignedAccounts;
    var writableUnsignedEnd := |message.accountKeys| - h.numReadonlyUnsignedAccounts;
    seq(|message.accountKeys|, i requires 0 <= i < |message.accountKeys| =>
      var signer := i < h.numRequiredSignatures;
      AccountKey(message.accountKeys[i], signer, if signer then i < writableSigners else i < writableUnsignedEnd))
  }

  function UnsignedKeys(addresses: seq<Text>, writable: bool): (keys: seq<AccountKey>)
    ensures |keys| == |addresses|
  {
    seq(|addresses|, i requires 0 <= i < |addresses| => AccountKey(addresses[i], false, writable))
  }

  /** Static keys, then loaded writable keys, then loaded read-only keys. */
  function ResolveAccountKeys(message: Message, loaded: LoadedAddresses): seq<AccountKey> {
    StaticKeys(message) + UnsignedKeys(loaded.writable, true) + UnsignedKeys(loaded.readonly, false)
  }

  function AccountKeys(tx: Transaction): seq<AccountKey> {
    ResolveAccountKeys(tx.message, Loaded(tx))
  }

  function KeyAt(keys: seq<AccountKey>, index: nat): Option<AccountKey> {
    if index < |keys| then Some(keys[index]) else None
  }

  /** An instruction with its place; `inner` is `None` for an outer instruction. */
  datatype Location = Location(programIdIndex: nat, accounts: seq<nat>, data: Text, outer: nat, inner: Option<nat>)

  function OuterLocations(instructions: seq<Instruction>): (r: seq<Location>)
    ensures |r| == |instructions|
  {
    seq(|instructions|, i requires 0 <= i < |instructions| =>
      Location(instructions[i].programIdIndex, instructions[i].accounts, instructions[i].data, i, None))
  }

  function GroupLocations(group: InnerGroup): (r: seq<Location>)
    ensures |r| == |group.instructions|
  {
    seq(|group.instructions|, i requires 0 <= i < |group.instructions| =>
      Location(group.instructions[i].programIdIndex, group.instructions[i].accounts, group.instructions[i].data, group.index, Some(i)))
  }

  function InnerLocations(groups: seq<InnerGroup>): seq<Location> {
    if groups == [] then [] else GroupLocations(groups[0]) + InnerLocations(groups[1..])
  }

  function Locations(tx: Transaction): seq<Location> {
    OuterLocations(tx.message.instructions) + InnerLocations(InnerGroups(tx))
  }

  /** What the parser, and the parsing fingerprint, keep of a token balance. */
  datatype Balance = Balance(accountIndex: nat, mint: Text, programId: Option<Text>, decimals: nat)

  function BalanceOf(b: TokenBalance): Balance {
    Balance(b.accountIndex, b.mint, b.programId, b.decimals)
  }

  function BalancesOf(bs: seq<TokenBalance>): (r: seq<Balance>)
    ensures |r| == |bs|
  {
    seq(|bs|, i requires 0 <= i < |bs| => BalanceOf(bs[i]))
  }

  function Balances(tx: Transaction): seq<Balance> {
    BalancesOf(tx.meta.preTokenBalances) + BalancesOf(tx.meta.postTokenBalances)
  }

  /** The evidence that cannot be supported, one value per error message. */
  datatype Unsupported =
    | Token2022Instruction
    | UnsupportedTokenInstruction
    | MalformedTokenInstruction
    | CheckedAccountsIncomplete
    | LegacyAccountsIncomplete
    | BalancesIncomplete
    | BalancesContradictory
    | TransferAccountsIncomplete
    | CheckedBalancesContradictory

  datatype AssetEvidence = AssetEvidence(mint: Text, decimals: nat)

  function LegacyTokenProgram(): Text { Ascii("TokenkegQfeZyiNwAJbNbGKPFXCWuBvf9Ss623VQ5DA") }

  function Token2022Program(): Text { Ascii("TokenzQdBNbLqP5VEhdkAS6EPFLC1PHnBqCXEpPxuEb") }

  predicate Concerns(b: Balance, source: nat, destination: nat) {
    b.accountIndex == source || b.accountIndex == destination
  }

  function Concerning(balances: seq<Balance>, source: nat, destination: nat): seq<Balance> {
    if balances == [] then []
    else (if Concerns(balances[0], source, destination) then [balances[0]] else []) + Concerning(balances[1..], source, destination)
  }

  predicate Covers(balances: seq<Balance>, index: nat) {
    exists i :: 0 <= i < |balances| && balances[i].accountIndex == index
  }

  predicate Matches(b: Balance, first: Balance) {
    b.mint == first.mint && b.decimals == first.decimals && b.programId == Some(LegacyTokenProgram())
  }

  predicate Uniform(balances: seq<Balance>)
    requires balances != []
  {
    forall i :: 0 <= i < |balances| ==> Matches(balances[i], balances[0])
  }

  function ResolveAssetEvidence(balances: seq<Balance>, source: nat,
      destination: nat): Result<AssetEvidence, Unsupported> {
    var relevant := Concerning(balances, source, destination);
    if !Covers(relevant, source) || !Covers(relevant, destination) then Err(BalancesIncomplete)
    else if Uniform(relevant) then Ok(AssetEvidence(relevant[0].mint, relevant[0].decimals))
    else Err(BalancesContradictory)
  }

  datatype ParsedTransfer = ParsedTransfer(
    eventId: Text,
    signature: Text,
    slot: nat,
    outerInstructionIndex: nat,
    innerInstructionIndex: Option<nat>,
    programId: Text,
    sourceTokenAccount: Text,
    sourceAccountIndex: nat,
    mint: Text,
    destinationTokenAccount: Text,
    destinationAccountIndex: nat,
    authority: Text,
    amountBaseUnits: nat,
    decimals: nat,
    references: seq<Text>,
    unsupportedExtraAccounts: seq<Text>)

  const COLON: CodeUnit := 0x3A

  function EventId(cluster: Text, signature: Text, outer: nat, inner: Option<nat>): Text {
    cluster + [COLON] + signature + [COLON] + Decimal(outer) + [COLON] + (if inner.Some? then Decimal(inner.value) else Ascii("outer"))
  }

  /** Read-only unsigned extra accounts, in order. */
  function References(keys: seq<AccountKey>, extras: seq<nat>): seq<Text> {
    if extras == [] then []
    else
      var key := KeyAt(keys, extras[0]);
      (if key.Some? && !key.value.signer && !key.value.writable then [key.value.address] else []) + References(keys, extras[1..])
  }

  /** Every other extra account, in order. */
  function UnsupportedExtras(keys: seq<AccountKey>, extras: seq<nat>): seq<Text> {
    if extras == [] then []
    else
      var key := KeyAt(keys, extras[0]);
      (if key.None? then [Ascii("unresolved")]
       else if key.value.signer || key.value.writable then [key.value.address]
       else []) + UnsupportedExtras(keys, extras[1..])
  }

  /** The instruction mentions the watched address, or no address is watched. */
  predicate Affects(keys: seq<AccountKey>, accounts: seq<nat>, watched: Option<Text>) {
    watched.None? || exists i :: 0 <= i < |accounts| && accounts[i] < |keys| && keys[accounts[i]].address == watched.value
  }

  /** What `parseTransactionTransfers` reads of a transaction. */
  datatype Evidence = Evidence(cluster: Text, signature: Text, slot: nat, keys: seq<AccountKey>, balances: seq<Balance>)

  function EvidenceOf(tx: Transaction): Evidence {
    Evidence(tx.cluster, tx.signature, tx.slot, AccountKeys(tx), Balances(tx))
  }

  type Base58 = Text -> Option<seq<Byte>>

  function Skip(affects: bool, error: Unsupported): Result<seq<ParsedTransfer>, Unsupported> {
    if affects then Err(error) else Ok([])
  }

  function ParseLocation(e: Evidence, at: Location, base58: Base58, watched: Option<Text>)
    : Result<seq<ParsedTransfer>, Unsupported>
  {
    var program := KeyAt(e.keys, at.programIdIndex);
    var affects := Affects(e.keys, at.accounts, watched);
    if program.Some? && program.value.address == Token2022Program() then Skip(affects, Token2022Instruction)
    else if program.None? || program.value.address != LegacyTokenProgram() then Ok([])
    else
      match Decode(base58(at.data))
      case Unsupported => Skip(affects, UnsupportedTokenInstruction)
      case Malformed => Skip(affects, MalformedTokenInstruction)
      case TransferChecked(amount, decimals) => ParseChecked(e, at, amount, decimals)
      case Transfer(amount) => ParseLegacy(e, at, amount)
  }

  function ParseChecked(e: Evidence, at: Location, amount: nat,
      decimals: nat): Result<seq<ParsedTransfer>, Unsupported> {
    if |at.accounts| < 2 || KeyAt(e.keys, at.accounts[1]).None? then Err(CheckedAccountsIncomplete)
    else if !AccountsResolve(e.keys, at.accounts, 0, 2, 3) then Err(TransferAccountsIncomplete)
    else
      var mint := e.keys[at.accounts[1]].address;
      var evidence := ResolveAssetEvidence(e.balances, at.accounts[0], at.accounts[2]);
      if Concerning(e.balances, at.accounts[0], at.accounts[2]) == [] then Ok([MakeTransfer(e, at, 2, 3, 4, mint, amount, decimals)])
      else if evidence.Err? then Err(evidence.error)
      else if evidence.value != AssetEvidence(mint, decimals) then Err(CheckedBalancesContradictory)
      else Ok([MakeTransfer(e, at, 2, 3, 4, mint, amount, decimals)])
  }

  function ParseLegacy(e: Evidence, at: Location, amount: nat): Result<seq<ParsedTransfer>, Unsupported> {
    if |at.accounts| < 2 then Err(LegacyAccountsIncomplete)
    else
      var evidence := ResolveAssetEvidence(e.balances, at.accounts[0], at.accounts[1]);
      if evidence.Err? then Err(evidence.error)
      else if !AccountsResolve(e.keys, at.accounts, 0, 1, 2) then Err(TransferAccountsIncomplete)
      else Ok([MakeTransfer(e, at, 1, 2, 3, evidence.value.mint, amount, evidence.value.decimals)])
  }

  predicate AccountsResolve(keys: seq<AccountKey>, accounts: seq<nat>, source: nat, destination: nat, authority: nat) {
    && source < |accounts| && accounts[source] < |keys|
    && destination < |accounts| && accounts[destination] < |keys|
    && authority < |accounts| && accounts[authority] < |keys|
  }

  function MakeTransfer(e: Evidence, at: Location, destination: nat, authority: nat, extrasStart: nat,
      mint: Text, amount: nat, decimals: nat): ParsedTransfer
    requires AccountsResolve(e.keys, at.accounts, 0, destination, authority)
    requires extrasStart <= |at.accounts|
  {
    var extras := at.accounts[extrasStart..];
    ParsedTransfer(
      EventId(e.cluster, e.signature, at.outer, at.inner), e.signature, e.slot, at.outer, at.inner,
      LegacyTokenProgram(), e.keys[at.accounts[0]].address, at.accounts[0], mint,
      e.keys[at.accounts[destination]].address, at.accounts[destination],
      e.keys[at.accounts[authority]].address, amount, decimals,
      References(e.keys, extras), UnsupportedExtras(e.keys, extras))
  }

  /** `flatMap` over the locations; the first location that throws ends the parse. */
  function ParseLocations(e: Evidence, at: seq<Location>, base58: Base58, watched: Option<Text>)
    : Result<seq<ParsedTransfer>, Unsupported>
  {
    if at == [] then Ok([])
    else
      var first := ParseLocation(e, at[0], base58, watched);
      if first.Err? then first
      else
        var rest := ParseLocations(e, at[1..], base58, watched);
        if rest.Err? then rest else Ok(first.value + rest.value)
  }

  function ParseTransactionTransfers(tx: Transaction, base58: Base58, watched: Option<Text>)
    : Result<seq<ParsedTransfer>, Unsupported>
  {
    ParseLocations(EvidenceOf(tx), Locations(tx), base58, watched)
  }
}
