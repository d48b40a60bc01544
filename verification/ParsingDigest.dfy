/**
 The parsing digest of a transaction, and why it may stand for the transaction when
 transfers are parsed: transactions with one fingerprint parse alike.
 */
module ParsingDigest {
  import opened Wrappers
  import opened Texts
  import opened Sorting
  import opened CanonicalJson
  import opened Transactions
  import opened TransferParser
  import opened TokenInstruction

  // ------------------------------------------------------------- createParsingDigest

  function NatJson(n: nat): Json { Num(Decimal(n)) }

  function NatsJson(ns: seq<nat>): Json {
    Arr(seq(|ns|, i requires 0 <= i < |ns| => NatJson(ns[i])))
  }

  function TextsJson(ts: seq<Text>): Json {
    Arr(seq(|ts|, i requires 0 <= i < |ts| => Str(ts[i])))
  }

  function HeaderJson(h: Header): Json {
    Obj([
      Entry(Ascii("numRequiredSignatures"), NatJson(h.numRequiredSignatures)),
      Entry(Ascii("numReadonlySignedAccounts"), NatJson(h.numReadonlySignedAccounts)),
      Entry(Ascii("numReadonlyUnsignedAccounts"), NatJson(h.numReadonlyUnsignedAccounts))])
  }

  function LookupJson(l: Lookup): Json {
    Obj([
      Entry(Ascii("accountKey"), Str(l.accountKey)),
      Entry(Ascii("writableIndexes"), NatsJson(l.writableIndexes)),
      Entry(Ascii("readonlyIndexes"), NatsJson(l.readonlyIndexes))])
  }

  /** `parsingInstruction`: everything but the stack height. */
  function InstructionJson(instruction: Instruction): Json {
    Obj([
      Entry(Ascii("programIdIndex"), NatJson(instruction.programIdIndex)),
      Entry(Ascii("accounts"), NatsJson(instruction.accounts)),
      Entry(Ascii("data"), Str(instruction.data))])
  }

  function InstructionsJson(instructions: seq<Instruction>): Json {
    Arr(seq(|instructions|, i requires 0 <= i < |instructions| => InstructionJson(instructions[i])))
  }

  function GroupJson(group: InnerGroup): Json {
    Obj([
      Entry(Ascii("index"), NatJson(group.index)),
      Entry(Ascii("instructions"), InstructionsJson(group.instructions))])
  }

  /** `parsingBalance`: neither the owner nor the amount. */
  function BalanceJson(b: Balance): Json {
    Obj([
      Entry(Ascii("accountIndex"), NatJson(b.accountIndex)),
      Entry(Ascii("mint"), Str(b.mint)),
      Entry(Ascii("programId"), if b.programId.Some? then Str(b.programId.value) else Null),
      Entry(Ascii("decimals"), NatJson(b.decimals))])
  }

  function MessageJson(m: Message): Json {
    Obj([
      Entry(Ascii("header"), HeaderJson(m.header)),
      Entry(Ascii("accountKeys"), TextsJson(m.accountKeys)),
      Entry(Ascii("addressTableLookups"), Arr(seq(|m.addressTableLookups|, i requires 0 <= i < |m.addressTableLookups| => LookupJson(m.addressTableLookups[i])))),
      Entry(Ascii("instructions"), InstructionsJson(m.instructions))])
  }

  function LoadedJson(l: LoadedAddresses): Json {
    Obj([Entry(Ascii("writable"), TextsJson(l.writable)), Entry(Ascii("readonly"), TextsJson(l.readonly))])
  }

  function GroupsJson(groups: seq<InnerGroup>): Json {
    Arr(seq(|groups|, i requires 0 <= i < |groups| => GroupJson(groups[i])))
  }

  function SortedBalancesJson(balances: seq<Balance>): Json {
    Arr(seq(|balances|, i requires 0 <= i < |balances| => BalanceJson(balances[i])))
  }

  /** How the locale of the runtime orders two serialized balances. */
  type Collation = (Balance, Balance) -> bool

  function MetaJson(tx: Transaction, collation: Collation): Json {
    Obj([
      Entry(Ascii("err"), tx.meta.err),
      Entry(Ascii("loadedAddresses"), LoadedJson(Loaded(tx))),
      Entry(Ascii("innerInstructions"), GroupsJson(InnerGroups(tx))),
      Entry(Ascii("tokenBalances"), SortedBalancesJson(Sort(Balances(tx), collation)))])
  }

  /** The value `createParsingDigest` hashes. */
  function Fingerprint(tx: Transaction, collation: Collation): Json {
    Obj([
      Entry(Ascii("digestVersion"), NatJson(1)),
      Entry(Ascii("cluster"), Str(tx.cluster)),
      Entry(Ascii("signature"), Str(tx.signature)),
      Entry(Ascii("slot"), NatJson(tx.slot)),
      Entry(Ascii("version"), if tx.version.Legacy? then Str(Ascii("legacy")) else NatJson(0)),
      Entry(Ascii("message"), MessageJson(tx.message)),
      Entry(Ascii("meta"), MetaJson(tx, collation))])
  }

  type Hash = Text -> Text

  /** `createCanonicalSnapshot(value).digest`. */
  function Digest(v: Json, sha256: Hash): Text {
    sha256(CanonicalText(v))
  }

  function CreateParsingDigest(tx: Transaction, collation: Collation, sha256: Hash): Text {
    Digest(Fingerprint(tx, collation), sha256)
  }

  /** Digests, decoders and the locale, as the runtime provides them. */
  datatype Runtime = Runtime(sha256: Hash, base58: Base58, collation: Collation, identity: seq<ParsedTransfer> -> Json)

  /** Two different texts with one digest. */
  ghost predicate Collision(sha256: Hash, s: Text, t: Text) {
    s != t && sha256(s) == sha256(t)
  }

  // ----------------------------------------------- fingerprints are well-formed values

  lemma LeavesWellFormed()
    ensures forall n :: WellFormed(NatJson(n))
    ensures forall ns: seq<nat> :: WellFormed(NatsJson(ns))
    ensures forall ts: seq<Text> :: WellFormed(TextsJson(ts))
  {}

  lemma LookupWellFormed(l: Lookup)
    ensures WellFormed(LookupJson(l))
  {
    LeavesWellFormed();
    assert Ascii("writableIndexes")[0] != Ascii("readonlyIndexes")[0];
  }

  lemma InstructionsWellFormed(instructions: seq<Instruction>)
    ensures WellFormed(InstructionsJson(instructions))
  {
    forall i | 0 <= i < |instructions| ensures WellFormed(InstructionJson(instructions[i])) {
    }
  }

  lemma GroupsWellFormed(groups: seq<InnerGroup>)
    ensures WellFormed(GroupsJson(groups))
  {
    forall i | 0 <= i < |groups| ensures WellFormed(GroupJson(groups[i])) {
      InstructionsWellFormed(groups[i].instructions);
    }
  }

  lemma BalancesWellFormed(balances: seq<Balance>)
    ensures WellFormed(SortedBalancesJson(balances))
  {
    forall i | 0 <= i < |balances| ensures WellFormed(BalanceJson(balances[i])) {
    }
  }

  lemma MessageWellFormed(m: Message)
    ensures WellFormed(MessageJson(m))
  {
    LeavesWellFormed();
    InstructionsWellFormed(m.instructions);
    forall i | 0 <= i < |m.addressTableLookups| ensures WellFormed(LookupJson(m.addressTableLookups[i])) {
      LookupWellFormed(m.addressTableLookups[i]);
    }
  }

  lemma MetaWellFormed(tx: Transaction, collation: Collation)
    requires WellFormed(tx.meta.err)
    ensures WellFormed(MetaJson(tx, collation))
  {
    LeavesWellFormed();
    GroupsWellFormed(InnerGroups(tx));
    BalancesWellFormed(Sort(Balances(tx), collation));
    assert Ascii("writable")[0] != Ascii("readonly")[0];
  }

  lemma FingerprintWellFormed(tx: Transaction, collation: Collation)
    requires WellFormed(tx.meta.err)
    ensures WellFormed(Fingerprint(tx, collation))
  {
    MessageWellFormed(tx.message);
    MetaWellFormed(tx, collation);
    assert Ascii("cluster")[0] != Ascii("version")[0] && Ascii("version")[0] != Ascii("message")[0];
    assert Ascii("cluster")[0] != Ascii("message")[0] && Ascii("slot")[0] != Ascii("meta")[0];
  }

  // ----------------------------------------------- equal fingerprints, equal evidence

  lemma SameField(es: seq<Entry>, fs: seq<Entry>, i: nat)
    requires i < |es| && i < |fs| && es[i].key == fs[i].key && Same(Obj(es), Obj(fs))
    ensures Same(es[i].value, fs[i].value)
  {}

  lemma SameNat(m: nat, n: nat)
    requires Same(NatJson(m), NatJson(n))
    ensures m == n
  {
    DecimalInjective(m, n);
  }

  lemma SameNats(ms: seq<nat>, ns: seq<nat>)
    requires Same(NatsJson(ms), NatsJson(ns))
    ensures ms == ns
  {
    forall i | 0 <= i < |ms| ensures ms[i] == ns[i] {
      assert Same(NatsJson(ms).items[i], NatsJson(ns).items[i]);
      SameNat(ms[i], ns[i]);
    }
  }

  lemma SameTexts(ss: seq<Text>, ts: seq<Text>)
    requires Same(TextsJson(ss), TextsJson(ts))
    ensures ss == ts
  {
    forall i | 0 <= i < |ss| ensures ss[i] == ts[i] {
      assert Same(TextsJson(ss).items[i], TextsJson(ts).items[i]);
    }
  }

  lemma SameHeader(g: Header, h: Header)
    requires Same(HeaderJson(g), HeaderJson(h))
    ensures g == h
  {
    var es, fs := HeaderJson(g).entries, HeaderJson(h).entries;
    SameField(es, fs, 0);
    SameField(es, fs, 1);
    SameField(es, fs, 2);
    SameNat(g.numRequiredSignatures, h.numRequiredSignatures);
    SameNat(g.numReadonlySignedAccounts, h.numReadonlySignedAccounts);
    SameNat(g.numReadonlyUnsignedAccounts, h.numReadonlyUnsignedAccounts);
  }

  /** Instructions that differ at most in the stack height. */
  predicate InstructionsAlike(xs: seq<Instruction>, ys: seq<Instruction>) {
    |xs| == |ys| && forall i :: 0 <= i < |xs| ==> xs[i].(stackHeight := None) == ys[i].(stackHeight := None)
  }

  lemma SameInstruction(x: Instruction, y: Instruction)
    requires Same(InstructionJson(x), InstructionJson(y))
    ensures x.(stackHeight := None) == y.(stackHeight := None)
  {
    var es, fs := InstructionJson(x).entries, InstructionJson(y).entries;
    SameField(es, fs, 0);
    SameField(es, fs, 1);
    SameField(es, fs, 2);
    SameNat(x.programIdIndex, y.programIdIndex);
    SameNats(x.accounts, y.accounts);
  }

  lemma SameInstructions(xs: seq<Instruction>, ys: seq<Instruction>)
    requires Same(InstructionsJson(xs), InstructionsJson(ys))
    ensures InstructionsAlike(xs, ys)
  {
    forall i | 0 <= i < |xs| ensures xs[i].(stackHeight := None) == ys[i].(stackHeight := None) {
      assert Same(InstructionsJson(xs).items[i], InstructionsJson(ys).items[i]);
      SameInstruction(xs[i], ys[i]);
    }
  }

  predicate GroupsAlike(xs: seq<InnerGroup>, ys: seq<InnerGroup>) {
    |xs| == |ys| && forall i :: 0 <= i < |xs| ==> xs[i].index == ys[i].index && InstructionsAlike(xs[i].instructions, ys[i].instructions)
  }

  lemma SameGroups(xs: seq<InnerGroup>, ys: seq<InnerGroup>)
    requires Same(GroupsJson(xs), GroupsJson(ys))
    ensures GroupsAlike(xs, ys)
  {
    forall i | 0 <= i < |xs|
      ensures xs[i].index == ys[i].index && InstructionsAlike(xs[i].instructions, ys[i].instructions)
    {
      assert Same(GroupsJson(xs).items[i], GroupsJson(ys).items[i]);
      SameField(GroupJson(xs[i]).entries, GroupJson(ys[i]).entries, 0);
      SameField(GroupJson(xs[i]).entries, GroupJson(ys[i]).entries, 1);
      SameNat(xs[i].index, ys[i].index);
      SameInstructions(xs[i].instructions, ys[i].instructions);
    }
  }

  lemma SameBalance(a: Balance, b: Balance)
    requires Same(BalanceJson(a), BalanceJson(b))
    ensures a == b
  {
    var es, fs := BalanceJson(a).entries, BalanceJson(b).entries;
    SameField(es, fs, 0);
    SameField(es, fs, 1);
    SameField(es, fs, 2);
    SameField(es, fs, 3);
    SameNat(a.accountIndex, b.accountIndex);
    SameNat(a.decimals, b.decimals);
  }

  lemma SameBalances(xs: seq<Balance>, ys: seq<Balance>)
    requires Same(SortedBalancesJson(xs), SortedBalancesJson(ys))
    ensures xs == ys
  {
    forall i | 0 <= i < |xs| ensures xs[i] == ys[i] {
      assert Same(SortedBalancesJson(xs).items[i], SortedBalancesJson(ys).items[i]);
      SameBalance(xs[i], ys[i]);
    }
  }

  /** The two transactions offer the parser the same evidence, balances in whatever order. */
  predicate Alike(t: Transaction, u: Transaction) {
    && t.cluster == u.cluster && t.signature == u.signature && t.slot == u.slot
    && t.message.header == u.message.header && t.message.accountKeys == u.message.accountKeys
    && Loaded(t) == Loaded(u)
    && InstructionsAlike(t.message.instructions, u.message.instructions)
    && GroupsAlike(InnerGroups(t), InnerGroups(u))
    && multiset(Balances(t)) == multiset(Balances(u))
  }

  lemma SameMessage(m: Message, n: Message)
    requires Same(MessageJson(m), MessageJson(n))
    ensures m.header == n.header && m.accountKeys == n.accountKeys && InstructionsAlike(m.instructions, n.instructions)
  {
    var es, fs := MessageJson(m).entries, MessageJson(n).entries;
    SameField(es, fs, 0);
    SameField(es, fs, 1);
    SameField(es, fs, 3);
    SameHeader(m.header, n.header);
    SameTexts(m.accountKeys, n.accountKeys);
    SameInstructions(m.instructions, n.instructions);
  }

  lemma SameMeta(t: Transaction, u: Transaction, collation: Collation)
    requires Same(MetaJson(t, collation), MetaJson(u, collation))
    ensures Loaded(t) == Loaded(u) && GroupsAlike(InnerGroups(t), InnerGroups(u))
    ensures multiset(Balances(t)) == multiset(Balances(u))
  {
    var es, fs := MetaJson(t, collation).entries, MetaJson(u, collation).entries;
    SameField(es, fs, 1);
    SameField(es, fs, 2);
    SameField(es, fs, 3);
    SameField(LoadedJson(Loaded(t)).entries, LoadedJson(Loaded(u)).entries, 0);
    SameField(LoadedJson(Loaded(t)).entries, LoadedJson(Loaded(u)).entries, 1);
    SameTexts(Loaded(t).writable, Loaded(u).writable);
    SameTexts(Loaded(t).readonly, Loaded(u).readonly);
    SameGroups(InnerGroups(t), InnerGroups(u));
    SameBalances(Sort(Balances(t), collation), Sort(Balances(u), collation));
    SortPermutes(Balances(t), collation);
    SortPermutes(Balances(u), collation);
  }

  lemma FingerprintField(t: Transaction, u: Transaction, collation: Collation, i: nat)
    requires i < 7 && Same(Fingerprint(t, collation), Fingerprint(u, collation))
    ensures Same(Fingerprint(t, collation).entries[i].value, Fingerprint(u, collation).entries[i].value)
  {
    SameField(Fingerprint(t, collation).entries, Fingerprint(u, collation).entries, i);
  }

  lemma SameFingerprint(t: Transaction, u: Transaction, collation: Collation)
    requires Same(Fingerprint(t, collation), Fingerprint(u, collation))
    ensures Alike(t, u)
  {
    FingerprintField(t, u, collation, 1);
    FingerprintField(t, u, collation, 2);
    FingerprintField(t, u, collation, 3);
    FingerprintField(t, u, collation, 5);
    FingerprintField(t, u, collation, 6);
    SameNat(t.slot, u.slot);
    SameMessage(t.message, u.message);
    SameMeta(t, u, collation);
  }

  // ----------------------------------------------- the parser reads no more than that

  lemma {:induction false} ConcerningCounts(balances: seq<Balance>, source: nat, destination: nat)
    ensures forall b :: multiset(Concerning(balances, source, destination))[b]
              == if Concerns(b, source, destination) then multiset(balances)[b] else 0
  {
    if balances != [] {
      ConcerningCounts(balances[1..], source, destination);
      assert balances == [balances[0]] + balances[1..];
    }
  }

  /** Asset evidence depends on which balances there are, not on their order. */
  lemma AssetEvidenceUnordered(a: seq<Balance>, b: seq<Balance>, source: nat, destination: nat)
    requires multiset(a) == multiset(b)
    ensures ResolveAssetEvidence(a, source, destination) == ResolveAssetEvidence(b, source, destination)
    ensures Concerning(a, source, destination) == [] <==> Concerning(b, source, destination) == []
  {
    var x, y := Concerning(a, source, destination), Concerning(b, source, destination);
    ConcerningMembers(a, b, source, destination);
    CoversAgree(x, y, source);
    CoversAgree(x, y, destination);
    assert x != [] ==> x[0] in y;
    assert y != [] ==> y[0] in x;
    if x != [] && y != [] {
      UniformAgree(x, y);
      UniformAgree(y, x);
    }
  }

  lemma ConcerningMembers(a: seq<Balance>, b: seq<Balance>, source: nat, destination: nat)
    requires multiset(a) == multiset(b)
    ensures forall c :: c in Concerning(a, source, destination) <==> c in Concerning(b, source, destination)
  {
    var x, y := Concerning(a, source, destination), Concerning(b, source, destination);
    ConcerningCounts(a, source, destination);
    ConcerningCounts(b, source, destination);
    assert multiset(x) == multiset(y);
    CanonicalJson.MembersOf(x, y);
  }

  lemma CoversAgree(x: seq<Balance>, y: seq<Balance>, index: nat)
    requires forall b :: b in x <==> b in y
    ensures Covers(x, index) == Covers(y, index)
  {
    if Covers(x, index) {
      var i :| 0 <= i < |x| && x[i].accountIndex == index;
      assert x[i] in y;
    }
    if Covers(y, index) {
      var i :| 0 <= i < |y| && y[i].accountIndex == index;
      assert y[i] in x;
    }
  }

  lemma UniformAgree(x: seq<Balance>, y: seq<Balance>)
    requires x != [] && y != [] && forall b :: b in x <==> b in y
    ensures Uniform(x) ==> Uniform(y) && y[0].mint == x[0].mint && y[0].decimals == x[0].decimals
  {
    if Uniform(x) {
      forall i | 0 <= i < |y| ensures Matches(y[i], x[0]) { assert y[i] in x; }
    }
  }

  lemma {:induction false} InnerLocationsAgree(xs: seq<InnerGroup>, ys: seq<InnerGroup>)
    requires GroupsAlike(xs, ys)
    ensures InnerLocations(xs) == InnerLocations(ys)
  {
    if xs != [] {
      InnerLocationsAgree(xs[1..], ys[1..]);
      assert InstructionsAlike(xs[0].instructions, ys[0].instructions);
      assert GroupLocations(xs[0]) == GroupLocations(ys[0]);
    }
  }

  lemma LocationParsesAlike(e: Evidence, f: Evidence, at: Location, base58: Base58, watched: Option<Text>)
    requires e.(balances := []) == f.(balances := []) && multiset(e.balances) == multiset(f.balances)
    ensures ParseLocation(e, at, base58, watched) == ParseLocation(f, at, base58, watched)
  {
    if |at.accounts| >= 2 {
      AssetEvidenceUnordered(e.balances, f.balances, at.accounts[0], at.accounts[1]);
      if |at.accounts| >= 3 { AssetEvidenceUnordered(e.balances, f.balances, at.accounts[0], at.accounts[2]); }
      forall amount ensures ParseLegacy(e, at, amount) == ParseLegacy(f, at, amount) {}
      forall amount, decimals ensures ParseChecked(e, at, amount, decimals) == ParseChecked(f, at, amount, decimals) {}
    }
  }

  lemma {:induction false} LocationsParseAlike(e: Evidence, f: Evidence, at: seq<Location>, base58: Base58,
      watched: Option<Text>)
    requires e.(balances := []) == f.(balances := []) && multiset(e.balances) == multiset(f.balances)
    ensures ParseLocations(e, at, base58, watched) == ParseLocations(f, at, base58, watched)
  {
    if at != [] {
      LocationParsesAlike(e, f, at[0], base58, watched);
      LocationsParseAlike(e, f, at[1..], base58, watched);
    }
  }

  /** Same transfers, or the same refusal, whatever address is watched. */
  lemma AlikeParseAlike(t: Transaction, u: Transaction, base58: Base58, watched: Option<Text>)
    requires Alike(t, u)
    ensures ParseTransactionTransfers(t, base58, watched) == ParseTransactionTransfers(u, base58, watched)
  {
    assert OuterLocations(t.message.instructions) == OuterLocations(u.message.instructions);
    InnerLocationsAgree(InnerGroups(t), InnerGroups(u));
    assert StaticKeys(t.message) == StaticKeys(u.message);
    LocationsParseAlike(EvidenceOf(t), EvidenceOf(u), Locations(t), base58, watched);
  }

  lemma EqualFingerprintsParseAlike(t: Transaction, u: Transaction, collation: Collation, base58: Base58,
      watched: Option<Text>)
    requires WellFormed(t.meta.err) && WellFormed(u.meta.err)
    requires CanonicalText(Fingerprint(t, collation)) == CanonicalText(Fingerprint(u, collation))
    ensures ParseTransactionTransfers(t, base58, watched) == ParseTransactionTransfers(u, base58, watched)
    ensures t.cluster == u.cluster && t.signature == u.signature && t.slot == u.slot
  {
    FingerprintWellFormed(t, collation);
    FingerprintWellFormed(u, collation);
    CanonicalTextDecides(Fingerprint(t, collation), Fingerprint(u, collation));
    SameFingerprint(t, u, collation);
    AlikeParseAlike(t, u, base58, watched);
  }

  /** One parsing digest for two transactions: they parse alike, or SHA-256 collides on their fingerprints. */
  lemma EqualDigestsParseAlike(t: Transaction, u: Transaction, collation: Collation, sha256: Hash, base58: Base58,
      watched: Option<Text>)
    requires WellFormed(t.meta.err) && WellFormed(u.meta.err)
    requires CreateParsingDigest(t, collation, sha256) == CreateParsingDigest(u, collation, sha256)
    ensures || ParseTransactionTransfers(t, base58, watched) == ParseTransactionTransfers(u, base58, watched)
            || Collision(sha256, CanonicalText(Fingerprint(t, collation)), CanonicalText(Fingerprint(u, collation)))
  {
    if CanonicalText(Fingerprint(t, collation)) == CanonicalText(Fingerprint(u, collation)) {
      EqualFingerprintsParseAlike(t, u, collation, base58, watched);
    }
  }
}
