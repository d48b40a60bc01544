/** Exactly which envelopes are accepted. */
module EnvelopeMeaning {
  import opened Wrappers
  import opened Texts
  import opened Transactions
  import opened TransferParser
  import opened Envelope

  /** All writable addresses looked up, one table after another. */
  function LookedUpWritable(lookups: seq<Lookup>): seq<nat> {
    if lookups == [] then [] else lookups[0].writableIndexes + LookedUpWritable(lookups[1..])
  }

  function LookedUpReadonly(lookups: seq<Lookup>): seq<nat> {
    if lookups == [] then [] else lookups[0].readonlyIndexes + LookedUpReadonly(lookups[1..])
  }

  lemma {:induction false} LookupsAdd(lookups: seq<Lookup>, more: Lookup)
    ensures |LookedUpWritable(lookups + [more])| == |LookedUpWritable(lookups)| + |more.writableIndexes|
    ensures |LookedUpReadonly(lookups + [more])| == |LookedUpReadonly(lookups)| + |more.readonlyIndexes|
  {
    if lookups == [] {
      assert lookups + [more] == [more] && [more][1..] == [];
    } else {
      LookupsAdd(lookups[1..], more);
      assert (lookups + [more])[1..] == lookups[1..] + [more];
    }
  }

  lemma {:induction false} LookupTotals(lookups: seq<Lookup>)
    ensures LookupCounts(lookups) == (|LookedUpWritable(lookups)|, |LookedUpReadonly(lookups)|)
  {
    if lookups != [] {
      var last := |lookups| - 1;
      LookupTotals(lookups[..last]);
      LookupsAdd(lookups[..last], lookups[last]);
      assert lookups == lookups[..last] + [lookups[last]];
    }
  }

  predicate AllInRange(at: seq<Location>, count: nat) {
    forall i :: 0 <= i < |at| ==> LocationInRange(at[i], count)
  }

  lemma OuterInRange(instructions: seq<Instruction>, count: nat)
    ensures AllInRange(OuterLocations(instructions), count) <==> InstructionsInRange(instructions, count)
  {
    var at := OuterLocations(instructions);
    assert forall i :: 0 <= i < |at| ==> (LocationInRange(at[i], count) <==> InstructionInRange(instructions[i], count));
  }

  lemma GroupInRange(group: InnerGroup, count: nat)
    ensures AllInRange(GroupLocations(group), count) <==> InstructionsInRange(group.instructions, count)
  {
    var at := GroupLocations(group);
    assert forall i :: 0 <= i < |at| ==> (LocationInRange(at[i], count) <==> InstructionInRange(group.instructions[i], count));
  }

  lemma BothInRange(a: seq<Location>, b: seq<Location>, count: nat)
    ensures AllInRange(a + b, count) <==> AllInRange(a, count) && AllInRange(b, count)
  {
    if AllInRange(a + b, count) {
      forall i | 0 <= i < |a| ensures LocationInRange(a[i], count) { assert (a + b)[i] == a[i]; }
      forall i | 0 <= i < |b| ensures LocationInRange(b[i], count) { assert (a + b)[|a| + i] == b[i]; }
    }
  }

  predicate GroupsInRange(groups: seq<InnerGroup>, count: nat) {
    forall g :: 0 <= g < |groups| ==> InstructionsInRange(groups[g].instructions, count)
  }

  lemma {:induction false} InnerInRange(groups: seq<InnerGroup>, count: nat)
    ensures AllInRange(InnerLocations(groups), count) <==> GroupsInRange(groups, count)
  {
    if groups != [] {
      InnerInRange(groups[1..], count);
      GroupInRange(groups[0], count);
      BothInRange(GroupLocations(groups[0]), InnerLocations(groups[1..]), count);
      assert forall g :: 0 < g < |groups| ==> groups[1..][g - 1] == groups[g];
    }
  }

  /**
   An envelope is accepted exactly when its signatures and header fit its keys, the loaded
   addresses are as many as are looked up, and none in a legacy transaction, no index followed is
   past the last key, and inner groups have distinct outer instructions as parents.
   */
  lemma AcceptedIff(tx: Transaction)
    ensures Accepted(tx) <==>
      var keys, h, loaded := |tx.message.accountKeys|, tx.message.header, Loaded(tx);
      var count := keys + |loaded.writable| + |loaded.readonly|;
      && tx.signatures != [] && tx.signatures[0] == tx.signature && |tx.signatures| == h.numRequiredSignatures
      && h.numReadonlySignedAccounts < h.numRequiredSignatures
      && h.numRequiredSignatures + h.numReadonlyUnsignedAccounts <= keys
      && |LookedUpWritable(tx.message.addressTableLookups)| == |loaded.writable|
      && |LookedUpReadonly(tx.message.addressTableLookups)| == |loaded.readonly|
      && (tx.version == Legacy ==> tx.message.addressTableLookups == [] && loaded == LoadedAddresses([], []))
      && AllInRange(Locations(tx), count)
      && (forall g :: 0 <= g < |InnerGroups(tx)| ==> InnerGroups(tx)[g].index < |tx.message.instructions|)
      && (forall g, k :: 0 <= g < k < |InnerGroups(tx)| ==> InnerGroups(tx)[g].index != InnerGroups(tx)[k].index)
      && (forall b :: b in tx.meta.preTokenBalances || b in tx.meta.postTokenBalances ==> b.accountIndex < count)
  {
    var count := ResolvedCount(tx);
    LookupTotals(tx.message.addressTableLookups);
    OuterInRange(tx.message.instructions, count);
    InnerInRange(InnerGroups(tx), count);
    BothInRange(OuterLocations(tx.message.instructions), InnerLocations(InnerGroups(tx)), count);
    var pre, post := tx.meta.preTokenBalances, tx.meta.postTokenBalances;
    assert BalancesInRange(pre, count) <==> forall b :: b in pre ==> b.accountIndex < count;
    assert BalancesInRange(post, count) <==> forall b :: b in post ==> b.accountIndex < count;
    var groups := InnerGroups(tx);
    assert GroupsAccepted(groups, |tx.message.instructions|, count) <==>
      && GroupsInRange(groups, count)
      && (forall g :: 0 <= g < |groups| ==> groups[g].index < |tx.message.instructions|)
      && (forall g, k :: 0 <= g < k < |groups| ==> groups[g].index != groups[k].index);
  }
}
