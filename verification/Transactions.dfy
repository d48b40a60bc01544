/** RPC transaction envelopes, with the fields the evidence pipeline reads or must ignore. */
module Transactions {
  import opened Wrappers
  import opened Texts
  import CanonicalJson

  datatype Commitment = Confirmed | Finalized

  datatype Version = Legacy | V0

  datatype Header = Header(
    numRequiredSignatures: nat,
    numReadonlySignedAccounts: nat,
    numReadonlyUnsignedAccounts: nat)

  datatype Instruction = Instruction(programIdIndex: nat, accounts: seq<nat>, data: Text, stackHeight: Option<nat>)

  datatype InnerGroup = InnerGroup(index: nat, instructions: seq<Instruction>)

  datatype Lookup = Lookup(accountKey: Text, writableIndexes: seq<nat>, readonlyIndexes: seq<nat>)

  datatype Message = Message(
    header: Header,
    accountKeys: seq<Text>,
    addressTableLookups: seq<Lookup>,
    instructions: seq<Instruction>)

  datatype LoadedAddresses = LoadedAddresses(writable: seq<Text>, readonly: seq<Text>)

  datatype TokenBalance = TokenBalance(
    accountIndex: nat,
    mint: Text,
    owner: Option<Text>,
    programId: Option<Text>,
    amount: Text,
    decimals: nat)

  /** `err` is JSON null for a transaction that succeeded. */
  datatype Meta = Meta(
    err: CanonicalJson.Json,
    loadedAddresses: Option<LoadedAddresses>,
    innerInstructions: Option<seq<InnerGroup>>,
    preTokenBalances: seq<TokenBalance>,
    postTokenBalances: seq<TokenBalance>)

  datatype Transaction = Transaction(
    cluster: Text,
    commitment: Commitment,
    signature: Text,
    slot: nat,
    blockTime: Option<int>,
    version: Version,
    signatures: seq<Text>,
    message: Message,
    meta: Meta)

  function Loaded(tx: Transaction): LoadedAddresses {
    if tx.meta.loadedAddresses.Some? then tx.meta.loadedAddresses.value else LoadedAddresses([], [])
  }

  function InnerGroups(tx: Transaction): seq<InnerGroup> {
    if tx.meta.innerInstructions.Some? then tx.meta.innerInstructions.value else []
  }
}
