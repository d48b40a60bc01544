/** Verifying one payment against an expectation, and what its balance arithmetic means. */
module PaymentVerifier {
  import opened Wrappers
  import opened Texts
  import opened Transactions
  import opened TransferParser
  import CanonicalJson

  // ------------------------------------------------------------------ aggregateDestinationDelta

  function Credit(t: ParsedTransfer, index: nat): int {
    if t.destinationAccountIndex == index then t.amountBaseUnits else 0
  }

  function Debit(t: ParsedTransfer, index: nat): int { if t.sourceAccountIndex == index then t.amountBaseUnits else 0 }

  /** What one transfer does to one account, as far as one mint is concerned. */
  function Effect(t: ParsedTransfer, index: nat, mint: Text): int {
    if t.mint != mint then 0 else Credit(t, index) - Debit(t, index)
  }

  /** The net change of one account over all transfers of one mint. */
  function Delta(transfers: seq<ParsedTransfer>, index: nat, mint: Text): int {
    if transfers == [] then 0
    else Delta(transfers[..|transfers| - 1], index, mint) + Effect(transfers[|transfers| - 1], index, mint)
  }

  /** Balances by account index. */
  type Ledger = map<nat, int>

  function Balance(ledger: Ledger, index: nat): int { if index in ledger then ledger[index] else 0 }

  /** One transfer on the ledger: out of the source, then into the destination. */
  function Move(ledger: Ledger, t: ParsedTransfer): Ledger {
    var out := ledger[t.sourceAccountIndex := Balance(ledger, t.sourceAccountIndex) - t.amountBaseUnits];
    out[t.destinationAccountIndex := Balance(out, t.destinationAccountIndex) + t.amountBaseUnits]
  }

  function Replay(ledger: Ledger, transfers: seq<ParsedTransfer>, mint: Text): Ledger {
    if transfers == [] then ledger
    else
      var last := transfers[|transfers| - 1];
      var before := Replay(ledger, transfers[..|transfers| - 1], mint);
      if last.mint == mint then Move(before, last) else before
  }

  /** The delta is what replaying the transfers of the mint does to the account, self-transfers included. */
  lemma {:induction false} DeltaIsReplay(ledger: Ledger, transfers: seq<ParsedTransfer>, index: nat, mint: Text)
    ensures Delta(transfers, index, mint) == Balance(Replay(ledger, transfers, mint), index) - Balance(ledger, index)
  {
    if transfers != [] { DeltaIsReplay(ledger, transfers[..|transfers| - 1], index, mint); }
  }

  function Without(transfers: seq<ParsedTransfer>, k: nat): (rest: seq<ParsedTransfer>)
    requires k < |transfers|
    ensures |rest| == |transfers| - 1 && forall i :: 0 <= i < |rest| ==> rest[i] == transfers[if i < k then i else i + 1]
  {
    transfers[..k] + transfers[k + 1..]
  }

  lemma WithoutLast(transfers: seq<ParsedTransfer>, k: nat)
    requires k < |transfers|
    ensures k == |transfers| - 1 ==> Without(transfers, k) == transfers[..k]
    ensures k < |transfers| - 1 ==>
      var last := |transfers| - 1;
      Without(transfers, k)[..last - 1] == Without(transfers[..last], k) && Without(transfers, k)[last - 1] == transfers[last]
  {
  }

  lemma {:induction false} DeltaWithout(transfers: seq<ParsedTransfer>, k: nat, index: nat, mint: Text)
    requires k < |transfers|
    ensures Delta(transfers, index, mint)
      == Delta(Without(transfers, k), index, mint) + Effect(transfers[k], index, mint)
    decreases |transfers|
  {
    WithoutLast(transfers, k);
    if k < |transfers| - 1 { DeltaWithout(transfers[..|transfers| - 1], k, index, mint); }
  }

  /** The place of the last transfer in another order, and what the order is without it. */
  lemma LastAmong(transfers: seq<ParsedTransfer>, others: seq<ParsedTransfer>) returns (k: nat)
    requires transfers != [] && multiset(transfers) == multiset(others)
    ensures k < |others| && others[k] == transfers[|transfers| - 1]
    ensures multiset(Without(others, k)) == multiset(transfers[..|transfers| - 1])
  {
    var last := |transfers| - 1;
    assert transfers == transfers[..last] + [transfers[last]];
    assert transfers[last] in multiset(others);
    k :| 0 <= k < |others| && others[k] == transfers[last];
    assert others == others[..k] + [others[k]] + others[k + 1..];
    assert multiset(others) == multiset(Without(others, k)) + multiset{others[k]};
    assert multiset(transfers) == multiset(transfers[..last]) + multiset{transfers[last]};
    assert multiset(Without(others, k)) == multiset(others) - multiset{others[k]};
  }

  /** The order of the transfers does not matter. */
  lemma {:induction false} DeltaPermutes(transfers: seq<ParsedTransfer>, others: seq<ParsedTransfer>, index: nat,
      mint: Text)
    requires multiset(transfers) == multiset(others)
    ensures Delta(transfers, index, mint) == Delta(others, index, mint)
    decreases |transfers|
  {
    if transfers == [] {
      assert |multiset(others)| == 0;
    } else {
      var k := LastAmong(transfers, others);
      DeltaPermutes(transfers[..|transfers| - 1], Without(others, k), index, mint);
      DeltaWithout(others, k, index, mint);
    }
  }

  function Total(transfers: seq<ParsedTransfer>, mint: Text, indexes: nat): int {
    if indexes == 0 then 0 else Total(transfers, mint, indexes - 1) + Delta(transfers, indexes - 1, mint)
  }

  /** What one transfer adds to the total over the first indexes. */
  lemma {:induction false} OneTransferTotal(transfers: seq<ParsedTransfer>, t: ParsedTransfer, mint: Text, indexes: nat)
    ensures Total(transfers + [t], mint, indexes) == Total(transfers, mint, indexes)
      + (if t.mint != mint then 0
         else (if t.destinationAccountIndex < indexes then t.amountBaseUnits else 0) - (if t.sourceAccountIndex < indexes then t.amountBaseUnits else 0))
  {
    if indexes > 0 {
      OneTransferTotal(transfers, t, mint, indexes - 1);
      assert (transfers + [t])[..|transfers|] == transfers;
    }
  }

  /** Over all account indexes nothing is created or lost. */
  lemma {:induction false} DeltasCancel(transfers: seq<ParsedTransfer>, mint: Text, indexes: nat)
    requires forall i :: 0 <= i < |transfers| ==> transfers[i].sourceAccountIndex < indexes && transfers[i].destinationAccountIndex < indexes
    ensures Total(transfers, mint, indexes) == 0
    decreases |transfers|
  {
    if transfers == [] {
      NoTransfers(mint, indexes);
    } else {
      var last := |transfers| - 1;
      DeltasCancel(transfers[..last], mint, indexes);
      OneTransferTotal(transfers[..last], transfers[last], mint, indexes);
      assert transfers[..last] + [transfers[last]] == transfers;
    }
  }

  lemma {:induction false} NoTransfers(mint: Text, indexes: nat)
    ensures Total([], mint, indexes) == 0
  {
    if indexes > 0 { NoTransfers(mint, indexes - 1); }
  }

  // ------------------------------------------------------------------ verifyPayment

  datatype Asset = Asset(mint: Text, tokenProgram: Text, decimals: nat)

  datatype Expectation = Expectation(
    cluster: Text, requiredCommitment: Commitment, tokenProgram: Text, mint: Text, destinationTokenAccount: Text,
    recipientOwner: Text, amountBaseUnits: nat, decimals: nat, reference: Text)

  datatype Code =
    | TransactionSuccess | ClusterCheck | CommitmentCheck | TokenProgram | Mint | Destination | DestinationOwner
    | DestinationTokenProgram | DestinationBalanceMint | AmountCheck | Decimals | Reference
    | UnambiguousReferenceAccounts | NonSelfTransfer | DestinationBalanceDelta

  datatype Check = Check(code: Code, passed: bool)

  function Rank(c: Commitment): nat { if c.Finalized? then 2 else 1 }

  function TokenBalanceOf(balances: seq<TokenBalance>, index: nat): Option<TokenBalance> {
    if balances == [] then None
    else if balances[0].accountIndex == index then Some(balances[0])
    else TokenBalanceOf(balances[1..], index)
  }

  function Supported(assets: seq<Asset>, mint: Text): Option<Asset> {
    if assets == [] then None else if assets[0].mint == mint then Some(assets[0]) else Supported(assets[1..], mint)
  }

  predicate IsAmount(t: Text) { t != [] && forall i :: 0 <= i < |t| ==> IsDigit(t[i]) }

  /** As the envelope schema has them, token amounts are strings of digits. */
  predicate AmountsAreDigits(balances: seq<TokenBalance>) {
    forall i :: 0 <= i < |balances| ==> IsAmount(balances[i].amount)
  }

  lemma {:induction false} FoundBalance(balances: seq<TokenBalance>, index: nat)
    requires AmountsAreDigits(balances) && TokenBalanceOf(balances, index).Some?
    ensures IsAmount(TokenBalanceOf(balances, index).value.amount)
  {
    if balances[0].accountIndex != index { FoundBalance(balances[1..], index); }
  }

  /** The stated balance of an account, zero if there is none. */
  function Stated(balances: seq<TokenBalance>, index: nat): nat
    requires AmountsAreDigits(balances)
  {
    var found := TokenBalanceOf(balances, index);
    if found.None? then 0
    else
      FoundBalance(balances, index);
      Value(found.value.amount)
  }

  /** By how much the stated balance of an account changed over the transaction. */
  function StatedDelta(meta: Meta, index: nat): int
    requires AmountsAreDigits(meta.preTokenBalances) && AmountsAreDigits(meta.postTokenBalances)
  {
    Stated(meta.postTokenBalances, index) - Stated(meta.preTokenBalances, index)
  }

  function Checks(assets: seq<Asset>, e: Expectation, tx: Transaction, t: ParsedTransfer,
      all: seq<ParsedTransfer>): seq<Check>
    requires AmountsAreDigits(tx.meta.preTokenBalances) && AmountsAreDigits(tx.meta.postTokenBalances)
  {
    var post := TokenBalanceOf(tx.meta.postTokenBalances, t.destinationAccountIndex);
    var asset := Supported(assets, e.mint);
    [ Check(TransactionSuccess, tx.meta.err == CanonicalJson.Null),
      Check(ClusterCheck, tx.cluster == e.cluster),
      Check(CommitmentCheck, Rank(tx.commitment) >= Rank(e.requiredCommitment)),
      Check(TokenProgram, t.programId == e.tokenProgram && asset.Some? && asset.value.tokenProgram == e.tokenProgram),
      Check(Mint, t.mint == e.mint && asset.Some?),
      Check(Destination, t.destinationTokenAccount == e.destinationTokenAccount),
      Check(DestinationOwner, post.Some? && post.value.owner == Some(e.recipientOwner)),
      Check(DestinationTokenProgram, post.Some? && post.value.programId == Some(e.tokenProgram)),
      Check(DestinationBalanceMint, post.Some? && post.value.mint == e.mint),
      Check(AmountCheck, t.amountBaseUnits == e.amountBaseUnits),
      Check(Decimals, t.decimals == e.decimals && asset.Some? && asset.value.decimals == e.decimals),
      Check(Reference, e.reference in t.references),
      Check(UnambiguousReferenceAccounts, t.unsupportedExtraAccounts == []),
      Check(NonSelfTransfer, t.sourceAccountIndex != t.destinationAccountIndex),
      Check(DestinationBalanceDelta, StatedDelta(tx.meta, t.destinationAccountIndex) == Delta(all, t.destinationAccountIndex, t.mint)) ]
  }

  predicate Verified(assets: seq<Asset>, e: Expectation, tx: Transaction, t: ParsedTransfer, all: seq<ParsedTransfer>)
    requires AmountsAreDigits(tx.meta.preTokenBalances) && AmountsAreDigits(tx.meta.postTokenBalances)
  {
    forall i :: 0 <= i < |Checks(assets, e, tx, t, all)| ==> Checks(assets, e, tx, t, all)[i].passed
  }

  /** The first stated balance of the account is this one. */
  predicate FirstStated(balances: seq<TokenBalance>, index: nat, i: nat) {
    && i < |balances| && balances[i].accountIndex == index
    && forall j :: 0 <= j < i ==> balances[j].accountIndex != index
  }

  lemma {:induction false} TokenBalanceIs(balances: seq<TokenBalance>, index: nat)
    ensures forall i ::
      0 <= i < |balances| && FirstStated(balances, index, i) ==> TokenBalanceOf(balances, index) == Some(balances[i])
    ensures TokenBalanceOf(balances, index).Some? ==>
      exists i :: 0 <= i < |balances| && FirstStated(balances, index, i)
  {
    if balances != [] {
      TokenBalanceIs(balances[1..], index);
      if balances[0].accountIndex == index {
        assert FirstStated(balances, index, 0);
      } else {
        forall i | 0 < i < |balances| && FirstStated(balances, index, i)
          ensures TokenBalanceOf(balances, index) == Some(balances[i])
        {
          assert forall j :: 0 <= j < i - 1 ==> balances[1..][j] == balances[j + 1];
          assert balances[1..][i - 1] == balances[i] && FirstStated(balances[1..], index, i - 1);
        }
        if TokenBalanceOf(balances[1..], index).Some? {
          var i :| 0 <= i < |balances[1..]| && FirstStated(balances[1..], index, i);
          assert forall j :: 0 < j < i + 1 ==> balances[j] == balances[1..][j - 1];
          assert FirstStated(balances, index, i + 1);
        }
      }
    }
  }

  /** The stated balance is that of the account's first entry, and zero if it has none. */
  lemma StatedIs(balances: seq<TokenBalance>, index: nat)
    requires AmountsAreDigits(balances)
    ensures forall i ::
      0 <= i < |balances| && FirstStated(balances, index, i) ==> Stated(balances, index) == Value(balances[i].amount)
    ensures (forall i :: 0 <= i < |balances| ==> balances[i].accountIndex != index) ==> Stated(balances, index) == 0
  {
    TokenBalanceIs(balances, index);
  }

  /** Whose the account is after the transaction, under which program, and in which mint. */
  predicate StatedAs(balances: seq<TokenBalance>, index: nat, owner: Text, program: Text, mint: Text) {
    exists i :: 0 <= i < |balances| && FirstStated(balances, index, i)
      && balances[i].owner == Some(owner) && balances[i].programId == Some(program) && balances[i].mint == mint
  }

  lemma StatedAsIs(balances: seq<TokenBalance>, index: nat, owner: Text, program: Text, mint: Text)
    ensures StatedAs(balances, index, owner, program, mint) <==>
      var found := TokenBalanceOf(balances, index);
      found.Some? && found.value.owner == Some(owner) && found.value.programId == Some(program) && found.value.mint == mint
  {
    TokenBalanceIs(balances, index);
  }

  /** The mint is that of a supported asset, the first of its mint, with this program and these decimals. */
  predicate SupportedAs(assets: seq<Asset>, mint: Text, program: Text, decimals: nat) {
    exists i :: 0 <= i < |assets| && assets[i] == Asset(mint, program, decimals) && forall j :: 0 <= j < i ==> assets[j].mint != mint
  }

  lemma {:induction false} SupportedIs(assets: seq<Asset>, mint: Text, program: Text, decimals: nat)
    ensures SupportedAs(assets, mint, program, decimals)
      <==> Supported(assets, mint) == Some(Asset(mint, program, decimals))
  {
    if assets != [] {
      SupportedIs(assets[1..], mint, program, decimals);
      if assets[0].mint != mint {
        if SupportedAs(assets, mint, program, decimals) {
          var i :| 0 <= i < |assets| && assets[i] == Asset(mint, program, decimals) && forall j :: 0 <= j < i ==> assets[j].mint != mint;
          assert assets[1..][i - 1] == assets[i] && forall j :: 0 <= j < i - 1 ==> assets[1..][j] == assets[j + 1];
        }
        if SupportedAs(assets[1..], mint, program, decimals) {
          var i :| 0 <= i < |assets[1..]| && assets[1..][i] == Asset(mint, program, decimals) && forall j :: 0 <= j < i ==> assets[1..][j].mint != mint;
          assert assets[i + 1] == assets[1..][i] && forall j :: 0 < j < i + 1 ==> assets[j] == assets[1..][j - 1];
        }
      }
    }
  }

  lemma {:induction false} SupportedMint(assets: seq<Asset>, mint: Text)
    requires Supported(assets, mint).Some?
    ensures Supported(assets, mint).value.mint == mint
  {
    if assets[0].mint != mint { SupportedMint(assets[1..], mint); }
  }

  /** The transaction succeeded, on the expected cluster, and is as final as required. */
  predicate SettledAs(e: Expectation, tx: Transaction) {
    && tx.meta.err == CanonicalJson.Null && tx.cluster == e.cluster
    && (e.requiredCommitment == Finalized ==> tx.commitment == Finalized)
  }

  /** The transfer is the expected one, tagged by the reference, and by nothing that is not understood. */
  predicate TransfersAs(e: Expectation, t: ParsedTransfer) {
    && t.programId == e.tokenProgram && t.mint == e.mint && t.decimals == e.decimals
    && t.amountBaseUnits == e.amountBaseUnits && t.destinationTokenAccount == e.destinationTokenAccount
    && t.sourceAccountIndex != t.destinationAccountIndex
    && e.reference in t.references && t.unsupportedExtraAccounts == []
  }

  /**
   A payment is verified exactly when its transaction is settled as required, its transfer is the
   expected one in a supported asset, the destination is the recipient's token account in that
   mint, and the destination's balance changed by all that the transfers bring it or take from it:
   replayed on any ledger that starts at its stated balance, they end at its stated balance.
   */
  lemma VerifiedIff(assets: seq<Asset>, e: Expectation, tx: Transaction, t: ParsedTransfer, all: seq<ParsedTransfer>,
      ledger: Ledger)
    requires AmountsAreDigits(tx.meta.preTokenBalances) && AmountsAreDigits(tx.meta.postTokenBalances)
    requires Balance(ledger, t.destinationAccountIndex) == Stated(tx.meta.preTokenBalances, t.destinationAccountIndex)
    ensures Verified(assets, e, tx, t, all) <==>
      && SettledAs(e, tx) && TransfersAs(e, t)
      && SupportedAs(assets, e.mint, e.tokenProgram, e.decimals)
      && StatedAs(tx.meta.postTokenBalances, t.destinationAccountIndex, e.recipientOwner, e.tokenProgram, e.mint)
      && Balance(Replay(ledger, all, t.mint), t.destinationAccountIndex) == Stated(tx.meta.postTokenBalances, t.destinationAccountIndex)
  {
    var c := Checks(assets, e, tx, t, all);
    assert Verified(assets, e, tx, t, all) <==>
      && c[0].passed && c[1].passed && c[2].passed && c[3].passed && c[4].passed && c[5].passed && c[6].passed && c[7].passed
      && c[8].passed && c[9].passed && c[10].passed && c[11].passed && c[12].passed && c[13].passed && c[14].passed;
    StatedAsIs(tx.meta.postTokenBalances, t.destinationAccountIndex, e.recipientOwner, e.tokenProgram, e.mint);
    SupportedIs(assets, e.mint, e.tokenProgram, e.decimals);
    if Supported(assets, e.mint).Some? { SupportedMint(assets, e.mint); }
    DeltaIsReplay(ledger, all, t.destinationAccountIndex, t.mint);
  }

  /** The transfer is not among those that touch the account in its mint. */
  predicate Aside(other: ParsedTransfer, t: ParsedTransfer) {
    other.mint != t.mint || (other.sourceAccountIndex != t.destinationAccountIndex && other.destinationAccountIndex != t.destinationAccountIndex)
  }

  lemma {:induction false} AsideDelta(all: seq<ParsedTransfer>, t: ParsedTransfer)
    requires forall i :: 0 <= i < |all| ==> Aside(all[i], t)
    ensures Delta(all, t.destinationAccountIndex, t.mint) == 0
  {
    if all != [] { AsideDelta(all[..|all| - 1], t); }
  }

  /** Over a successful transaction the destination's balance changes by what all transfers of the mint bring it. */
  lemma VerifiedMatchesLedger(assets: seq<Asset>, e: Expectation, tx: Transaction, t: ParsedTransfer,
      all: seq<ParsedTransfer>, ledger: Ledger)
    requires AmountsAreDigits(tx.meta.preTokenBalances) && AmountsAreDigits(tx.meta.postTokenBalances)
    requires Verified(assets, e, tx, t, all)
    requires Balance(ledger, t.destinationAccountIndex) == Stated(tx.meta.preTokenBalances, t.destinationAccountIndex)
    ensures Balance(Replay(ledger, all, t.mint), t.destinationAccountIndex)
      == Stated(tx.meta.postTokenBalances, t.destinationAccountIndex)
  {
    assert Checks(assets, e, tx, t, all)[14].passed;
    DeltaIsReplay(ledger, all, t.destinationAccountIndex, t.mint);
  }

  /** A verified payment that is the only one touching the destination left it richer by exactly the expected amount. */
  lemma VerifiedMeansPaid(assets: seq<Asset>, e: Expectation, tx: Transaction, all: seq<ParsedTransfer>, k: nat)
    requires AmountsAreDigits(tx.meta.preTokenBalances) && AmountsAreDigits(tx.meta.postTokenBalances)
    requires k < |all| && Verified(assets, e, tx, all[k], all)
    requires forall i :: 0 <= i < |all| && i != k ==> Aside(all[i], all[k])
    ensures StatedDelta(tx.meta, all[k].destinationAccountIndex) == e.amountBaseUnits
    ensures tx.meta.err == CanonicalJson.Null && all[k].mint == e.mint
    ensures all[k].destinationTokenAccount == e.destinationTokenAccount
  {
    var t := all[k];
    var checks := Checks(assets, e, tx, t, all);
    assert checks[0].passed && checks[4].passed && checks[5].passed;
    assert checks[9].passed && checks[13].passed && checks[14].passed;
    DeltaWithout(all, k, t.destinationAccountIndex, t.mint);
    AsideDelta(Without(all, k), t);
  }
}
