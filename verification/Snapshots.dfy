/**
 The JSON body a transaction envelope is read from, and snapshotted as. The schemas let unknown
 fields through, so a body carries at least the fields of its transaction.
 */
module Snapshots {
  import opened Wrappers
  import opened Texts
  import opened CanonicalJson
  import opened Transactions
  import opened TransferParser
  import opened ParsingDigest

  /** No entry of the key, or only a null one. */
  predicate Absent(entries: seq<Entry>, key: Text) {
    forall i :: 0 <= i < |entries| && entries[i].key == key ==> entries[i].value == Null
  }

  predicate CarriesField(entries: seq<Entry>, field: Entry)
    decreases field, 0
  {
    if field.value == Null then Absent(entries, field.key)
    else
      && HasKey(entries, field.key)
      && forall i :: 0 <= i < |entries| && entries[i].key == field.key ==> Carries(entries[i].value, field.value)
  }

  /**
   At every depth the value has the fields of the pattern, and maybe more; null stands for a missing
   field as well.
   */
  predicate Carries(v: Json, pattern: Json)
    decreases pattern
  {
    match (v, pattern)
    case (Arr(xs), Arr(ys)) => |xs| == |ys| && forall i :: 0 <= i < |ys| ==> Carries(xs[i], ys[i])
    case (Obj(es), Obj(fs)) => forall j :: 0 <= j < |fs| ==> CarriesField(es, fs[j])
    case _ => v == pattern
  }

  // ------------------------------------------------------------------ the fields of an envelope

  function IntJson(n: int): Json { if n < 0 then Num([0x2D] + Decimal(-n)) else NatJson(n) }

  function TextOrNull(t: Option<Text>): Json { if t.Some? then Str(t.value) else Null }

  function CompiledJson(x: Instruction): Json {
    Obj([
      Entry(Ascii("programIdIndex"), NatJson(x.programIdIndex)),
      Entry(Ascii("accounts"), NatsJson(x.accounts)),
      Entry(Ascii("data"), Str(x.data)),
      Entry(Ascii("stackHeight"), if x.stackHeight.Some? then NatJson(x.stackHeight.value) else Null)])
  }

  function CompiledsJson(xs: seq<Instruction>): Json {
    Arr(seq(|xs|, i requires 0 <= i < |xs| => CompiledJson(xs[i])))
  }

  function InnerJson(group: InnerGroup): Json {
    Obj([Entry(Ascii("index"), NatJson(group.index)), Entry(Ascii("instructions"), CompiledsJson(group.instructions))])
  }

  function InnersJson(groups: seq<InnerGroup>): Json {
    Arr(seq(|groups|, i requires 0 <= i < |groups| => InnerJson(groups[i])))
  }

  function LookupsJson(lookups: seq<Lookup>): Json {
    Arr(seq(|lookups|, i requires 0 <= i < |lookups| => LookupJson(lookups[i])))
  }

  function AmountJson(b: TokenBalance): Json {
    Obj([Entry(Ascii("amount"), Str(b.amount)), Entry(Ascii("decimals"), NatJson(b.decimals))])
  }

  function TokenBalanceJson(b: TokenBalance): Json {
    Obj([
      Entry(Ascii("accountIndex"), NatJson(b.accountIndex)),
      Entry(Ascii("mint"), Str(b.mint)),
      Entry(Ascii("owner"), TextOrNull(b.owner)),
      Entry(Ascii("programId"), TextOrNull(b.programId)),
      Entry(Ascii("uiTokenAmount"), AmountJson(b))])
  }

  function TokenBalancesJson(bs: seq<TokenBalance>): Json {
    Arr(seq(|bs|, i requires 0 <= i < |bs| => TokenBalanceJson(bs[i])))
  }

  function CompiledMessageJson(m: Message): Json {
    Obj([
      Entry(Ascii("header"), HeaderJson(m.header)),
      Entry(Ascii("accountKeys"), TextsJson(m.accountKeys)),
      Entry(Ascii("addressTableLookups"), LookupsJson(m.addressTableLookups)),
      Entry(Ascii("instructions"), CompiledsJson(m.instructions))])
  }

  /** Everything of the metadata but the execution error, which is kept as it is. */
  function EvidenceJson(meta: Meta): Json {
    Obj([
      Entry(Ascii("loadedAddresses"), if meta.loadedAddresses.Some? then LoadedJson(meta.loadedAddresses.value) else Null),
      Entry(Ascii("innerInstructions"), if meta.innerInstructions.Some? then InnersJson(meta.innerInstructions.value) else Null),
      Entry(Ascii("preTokenBalances"), TokenBalancesJson(meta.preTokenBalances)),
      Entry(Ascii("postTokenBalances"), TokenBalancesJson(meta.postTokenBalances))])
  }

  function SignedJson(tx: Transaction): Json {
    Obj([Entry(Ascii("signatures"), TextsJson(tx.signatures)), Entry(Ascii("message"), CompiledMessageJson(tx.message))])
  }

  function EnvelopeJson(tx: Transaction): Json {
    Obj([
      Entry(Ascii("cluster"), Str(tx.cluster)),
      Entry(Ascii("commitment"), Str(if tx.commitment.Confirmed? then Ascii("confirmed") else Ascii("finalized"))),
      Entry(Ascii("signature"), Str(tx.signature)),
      Entry(Ascii("slot"), NatJson(tx.slot)),
      Entry(Ascii("blockTime"), if tx.blockTime.Some? then IntJson(tx.blockTime.value) else Null),
      Entry(Ascii("version"), if tx.version.Legacy? then Str(Ascii("legacy")) else NatJson(0)),
      Entry(Ascii("transaction"), SignedJson(tx)),
      Entry(Ascii("meta"), EvidenceJson(tx.meta))])
  }

  /** The field of an object, if there is one. */
  predicate IsField(v: Json, key: Text, field: Json) {
    v.Obj? && exists i :: 0 <= i < |v.entries| && v.entries[i] == Entry(key, field)
  }

  /** The error is the `err` field of the body's metadata, whatever JSON that is. */
  ghost predicate HasError(body: Json, err: Json) {
    exists meta :: IsField(body, Ascii("meta"), meta) && IsField(meta, Ascii("err"), err)
  }

  /** The transaction is what the schema reads from the body. */
  ghost predicate ReadsAs(body: Json, tx: Transaction) {
    WellFormed(body) && WellFormed(tx.meta.err) && Carries(body, EnvelopeJson(tx)) && HasError(body, tx.meta.err)
  }

  // ------------------------------------------------------------------ one body, one transaction

  /** Patterns built in one way: the same keys at the same places, a null anywhere. */
  predicate Shaped(p: Json, q: Json) {
    match (p, q)
    case (Obj(es), Obj(fs)) =>
      |es| == |fs| && DistinctKeys(es) && forall i :: 0 <= i < |es| ==> es[i].key == fs[i].key && Shaped(es[i].value, fs[i].value)
    case (Arr(xs), Arr(ys)) => forall i, j :: 0 <= i < |xs| && 0 <= j < |ys| ==> Shaped(xs[i], ys[j])
    case _ => true
  }

  /** Patterns of one shape that one value carries, up to the order of keys, are one pattern. */
  lemma {:induction false} CarriedOnce(v: Json, w: Json, p: Json, q: Json)
    requires Same(v, w) && Carries(v, p) && Carries(w, q) && Shaped(p, q)
    ensures Same(p, q)
    decreases p
  {
    match (p, q)
    case (Obj(ps), Obj(qs)) =>
      forall k | 0 <= k < |ps| ensures Same(ps[k].value, qs[k].value) {
        CarriedField(v.entries, w.entries, ps[k], qs[k]);
      }
    case (Arr(xs), Arr(ys)) =>
      forall i | 0 <= i < |xs| ensures Same(xs[i], ys[i]) {
        assert Same(v.items[i], w.items[i]) && Carries(v.items[i], xs[i]) && Carries(w.items[i], ys[i]);
        CarriedOnce(v.items[i], w.items[i], xs[i], ys[i]);
      }
    case _ =>
  }

  lemma {:induction false} CarriedField(es: seq<Entry>, fs: seq<Entry>, f: Entry, g: Entry)
    requires Same(Obj(es), Obj(fs)) && CarriesField(es, f) && CarriesField(fs, g) && f.key == g.key
    requires Shaped(f.value, g.value)
    ensures Same(f.value, g.value)
    decreases f, 0
  {
    if f.value != Null {
      var i :| 0 <= i < |es| && es[i].key == f.key;
      var j :| 0 <= j < |fs| && fs[j].key == es[i].key;
      assert Same(es[i].value, fs[j].value) && Carries(es[i].value, f.value);
      assert g.value != Null;
      CarriedOnce(es[i].value, fs[j].value, f.value, g.value);
    } else if g.value != Null {
      var j :| 0 <= j < |fs| && fs[j].key == g.key;
      var i :| 0 <= i < |es| && es[i].key == fs[j].key;
      assert Same(es[i].value, fs[j].value) && Carries(fs[j].value, g.value);
    }
  }

  // The patterns of one kind of value have one shape.

  lemma CompiledShape(x: Instruction, y: Instruction)
    ensures Shaped(CompiledJson(x), CompiledJson(y))
  {
    assert Ascii("programIdIndex")[0] != Ascii("accounts")[0] && Ascii("data")[0] != Ascii("stackHeight")[0];
    assert |Ascii("accounts")| == 8 && |Ascii("data")| == 4 && |Ascii("stackHeight")| == 11 && |Ascii("programIdIndex")| == 14;
  }

  lemma CompiledsShape(xs: seq<Instruction>, ys: seq<Instruction>)
    ensures Shaped(CompiledsJson(xs), CompiledsJson(ys))
  {
    forall i, j | 0 <= i < |xs| && 0 <= j < |ys| ensures Shaped(CompiledJson(xs[i]), CompiledJson(ys[j])) {
      CompiledShape(xs[i], ys[j]);
    }
  }

  lemma InnersShape(xs: seq<InnerGroup>, ys: seq<InnerGroup>)
    ensures Shaped(InnersJson(xs), InnersJson(ys))
  {
    assert |Ascii("index")| == 5 && |Ascii("instructions")| == 12;
    forall i, j | 0 <= i < |xs| && 0 <= j < |ys| ensures Shaped(InnerJson(xs[i]), InnerJson(ys[j])) {
      CompiledsShape(xs[i].instructions, ys[j].instructions);
    }
  }

  lemma LookupsShape(ls: seq<Lookup>, ks: seq<Lookup>)
    ensures Shaped(LookupsJson(ls), LookupsJson(ks))
  {
    assert |Ascii("accountKey")| == 10 && |Ascii("writableIndexes")| == |Ascii("readonlyIndexes")| == 15;
    assert Ascii("writableIndexes")[0] != Ascii("readonlyIndexes")[0];
    forall i, j | 0 <= i < |ls| && 0 <= j < |ks| ensures Shaped(LookupJson(ls[i]), LookupJson(ks[j])) {
    }
  }

  lemma TokenBalancesShape(xs: seq<TokenBalance>, ys: seq<TokenBalance>)
    ensures Shaped(TokenBalancesJson(xs), TokenBalancesJson(ys))
  {
    assert |Ascii("amount")| == 6 && |Ascii("decimals")| == 8;
    forall i, j | 0 <= i < |xs| && 0 <= j < |ys| ensures Shaped(TokenBalanceJson(xs[i]), TokenBalanceJson(ys[j])) {
      assert Shaped(AmountJson(xs[i]), AmountJson(ys[j]));
      assert |Ascii("accountIndex")| == 12 && |Ascii("mint")| == 4 && |Ascii("owner")| == 5 && |Ascii("programId")| == 9 && |Ascii("uiTokenAmount")| == 13;
    }
  }

  lemma HeaderShape(g: Header, h: Header)
    ensures Shaped(HeaderJson(g), HeaderJson(h))
  {
    assert |Ascii("numRequiredSignatures")| == 21 && |Ascii("numReadonlySignedAccounts")| == 25 && |Ascii("numReadonlyUnsignedAccounts")| == 27;
  }

  lemma MessageShape(m: Message, n: Message)
    ensures Shaped(CompiledMessageJson(m), CompiledMessageJson(n))
  {
    HeaderShape(m.header, n.header);
    LookupsShape(m.addressTableLookups, n.addressTableLookups);
    CompiledsShape(m.instructions, n.instructions);
    assert |Ascii("header")| == 6 && |Ascii("accountKeys")| == 11 && |Ascii("addressTableLookups")| == 19 && |Ascii("instructions")| == 12;
  }

  lemma LoadedShape(l: LoadedAddresses, k: LoadedAddresses)
    ensures Shaped(LoadedJson(l), LoadedJson(k))
  {
    assert Ascii("writable")[0] != Ascii("readonly")[0];
  }

  lemma EvidenceShape(m: Meta, n: Meta)
    ensures Shaped(EvidenceJson(m), EvidenceJson(n))
  {
    if m.loadedAddresses.Some? && n.loadedAddresses.Some? {
      LoadedShape(m.loadedAddresses.value, n.loadedAddresses.value);
    }
    if m.innerInstructions.Some? && n.innerInstructions.Some? {
      InnersShape(m.innerInstructions.value, n.innerInstructions.value);
    }
    TokenBalancesShape(m.preTokenBalances, n.preTokenBalances);
    TokenBalancesShape(m.postTokenBalances, n.postTokenBalances);
    assert |Ascii("loadedAddresses")| == 15 && |Ascii("preTokenBalances")| == 16 && |Ascii("postTokenBalances")| == |Ascii("innerInstructions")| == 17;
    assert Ascii("postTokenBalances")[0] != Ascii("innerInstructions")[0];
  }

  lemma SignedShape(t: Transaction, u: Transaction)
    ensures Shaped(SignedJson(t), SignedJson(u))
  {
    MessageShape(t.message, u.message);
    assert |Ascii("signatures")| == 10 && |Ascii("message")| == 7;
  }

  lemma EnvelopeKeys(t: Transaction)
    ensures DistinctKeys(EnvelopeJson(t).entries)
  {
    assert |Ascii("cluster")| == |Ascii("version")| == 7 && |Ascii("commitment")| == 10 && |Ascii("signature")| == |Ascii("blockTime")| == 9;
    assert |Ascii("slot")| == |Ascii("meta")| == 4 && |Ascii("transaction")| == 11;
    assert Ascii("cluster")[0] != Ascii("version")[0] && Ascii("signature")[0] != Ascii("blockTime")[0] && Ascii("slot")[0] != Ascii("meta")[0];
  }

  lemma EnvelopeShape(t: Transaction, u: Transaction)
    ensures Shaped(EnvelopeJson(t), EnvelopeJson(u))
  {
    EnvelopeKeys(t);
    SignedShape(t, u);
    EvidenceShape(t.meta, u.meta);
  }

  // And a pattern determines its value.

  lemma SameLookups(ls: seq<Lookup>, ks: seq<Lookup>)
    requires Same(LookupsJson(ls), LookupsJson(ks))
    ensures ls == ks
  {
    forall i | 0 <= i < |ls| ensures ls[i] == ks[i] {
      assert Same(LookupsJson(ls).items[i], LookupsJson(ks).items[i]);
      var es, fs := LookupJson(ls[i]).entries, LookupJson(ks[i]).entries;
      SameField(es, fs, 0);
      SameField(es, fs, 1);
      SameField(es, fs, 2);
      SameNats(ls[i].writableIndexes, ks[i].writableIndexes);
      SameNats(ls[i].readonlyIndexes, ks[i].readonlyIndexes);
    }
  }

  lemma SameCompiled(x: Instruction, y: Instruction)
    requires Same(CompiledJson(x), CompiledJson(y))
    ensures x == y
  {
    var es, fs := CompiledJson(x).entries, CompiledJson(y).entries;
    SameField(es, fs, 0);
    SameField(es, fs, 1);
    SameField(es, fs, 2);
    SameField(es, fs, 3);
    SameNat(x.programIdIndex, y.programIdIndex);
    SameNats(x.accounts, y.accounts);
    if x.stackHeight.Some? { SameNat(x.stackHeight.value, y.stackHeight.value); }
  }

  lemma SameCompileds(xs: seq<Instruction>, ys: seq<Instruction>)
    requires Same(CompiledsJson(xs), CompiledsJson(ys))
    ensures xs == ys
  {
    forall i | 0 <= i < |xs| ensures xs[i] == ys[i] {
      assert Same(CompiledsJson(xs).items[i], CompiledsJson(ys).items[i]);
      SameCompiled(xs[i], ys[i]);
    }
  }

  lemma SameInners(xs: seq<InnerGroup>, ys: seq<InnerGroup>)
    requires Same(InnersJson(xs), InnersJson(ys))
    ensures xs == ys
  {
    forall i | 0 <= i < |xs| ensures xs[i] == ys[i] {
      assert Same(InnersJson(xs).items[i], InnersJson(ys).items[i]);
      SameField(InnerJson(xs[i]).entries, InnerJson(ys[i]).entries, 0);
      SameField(InnerJson(xs[i]).entries, InnerJson(ys[i]).entries, 1);
      SameNat(xs[i].index, ys[i].index);
      SameCompileds(xs[i].instructions, ys[i].instructions);
    }
  }

  lemma SameAmount(b: TokenBalance, c: TokenBalance)
    requires Same(AmountJson(b), AmountJson(c))
    ensures b.amount == c.amount && b.decimals == c.decimals
  {
    SameField(AmountJson(b).entries, AmountJson(c).entries, 0);
    SameField(AmountJson(b).entries, AmountJson(c).entries, 1);
    SameNat(b.decimals, c.decimals);
  }

  lemma SameTokenBalance(b: TokenBalance, c: TokenBalance)
    requires Same(TokenBalanceJson(b), TokenBalanceJson(c))
    ensures b == c
  {
    var es, fs := TokenBalanceJson(b).entries, TokenBalanceJson(c).entries;
    SameField(es, fs, 0);
    SameField(es, fs, 1);
    SameField(es, fs, 2);
    SameField(es, fs, 3);
    SameField(es, fs, 4);
    SameNat(b.accountIndex, c.accountIndex);
    SameAmount(b, c);
  }

  lemma SameTokenBalances(xs: seq<TokenBalance>, ys: seq<TokenBalance>)
    requires Same(TokenBalancesJson(xs), TokenBalancesJson(ys))
    ensures xs == ys
  {
    forall i | 0 <= i < |xs| ensures xs[i] == ys[i] {
      assert Same(TokenBalancesJson(xs).items[i], TokenBalancesJson(ys).items[i]);
      SameTokenBalance(xs[i], ys[i]);
    }
  }

  lemma SameCompiledMessage(m: Message, n: Message)
    requires Same(CompiledMessageJson(m), CompiledMessageJson(n))
    ensures m == n
  {
    var es, fs := CompiledMessageJson(m).entries, CompiledMessageJson(n).entries;
    SameField(es, fs, 0);
    SameField(es, fs, 1);
    SameField(es, fs, 2);
    SameField(es, fs, 3);
    SameHeader(m.header, n.header);
    SameTexts(m.accountKeys, n.accountKeys);
    SameLookups(m.addressTableLookups, n.addressTableLookups);
    SameCompileds(m.instructions, n.instructions);
  }

  lemma SameLoaded(l: LoadedAddresses, k: LoadedAddresses)
    requires Same(LoadedJson(l), LoadedJson(k))
    ensures l == k
  {
    SameField(LoadedJson(l).entries, LoadedJson(k).entries, 0);
    SameField(LoadedJson(l).entries, LoadedJson(k).entries, 1);
    SameTexts(l.writable, k.writable);
    SameTexts(l.readonly, k.readonly);
  }

  lemma SameEvidence(m: Meta, n: Meta)
    requires Same(EvidenceJson(m), EvidenceJson(n))
    ensures m.(err := Null) == n.(err := Null)
  {
    var es, fs := EvidenceJson(m).entries, EvidenceJson(n).entries;
    SameField(es, fs, 0);
    SameField(es, fs, 1);
    SameField(es, fs, 2);
    SameField(es, fs, 3);
    if m.loadedAddresses.Some? { SameLoaded(m.loadedAddresses.value, n.loadedAddresses.value); }
    if m.innerInstructions.Some? { SameInners(m.innerInstructions.value, n.innerInstructions.value); }
    SameTokenBalances(m.preTokenBalances, n.preTokenBalances);
    SameTokenBalances(m.postTokenBalances, n.postTokenBalances);
  }

  lemma SameInt(m: int, n: int)
    requires Same(IntJson(m), IntJson(n))
    ensures m == n
  {
    if m < 0 && n < 0 {
      assert IntJson(m).token[1..] == Decimal(-m) && IntJson(n).token[1..] == Decimal(-n);
      DecimalInjective(-m, -n);
    } else if m >= 0 && n >= 0 {
      DecimalInjective(m, n);
    }
  }

  lemma EnvelopeField(t: Transaction, u: Transaction, k: nat)
    requires Same(EnvelopeJson(t), EnvelopeJson(u)) && k < 8
    ensures Same(EnvelopeJson(t).entries[k].value, EnvelopeJson(u).entries[k].value)
  {
    SameField(EnvelopeJson(t).entries, EnvelopeJson(u).entries, k);
  }

  lemma SameSigned(t: Transaction, u: Transaction)
    requires Same(SignedJson(t), SignedJson(u))
    ensures t.signatures == u.signatures && t.message == u.message
  {
    SameField(SignedJson(t).entries, SignedJson(u).entries, 0);
    SameField(SignedJson(t).entries, SignedJson(u).entries, 1);
    SameTexts(t.signatures, u.signatures);
    SameCompiledMessage(t.message, u.message);
  }

  lemma SameTimes(t: Transaction, u: Transaction)
    requires Same(EnvelopeJson(t), EnvelopeJson(u))
    ensures t.slot == u.slot && t.blockTime == u.blockTime
  {
    EnvelopeField(t, u, 3);
    EnvelopeField(t, u, 4);
    SameNat(t.slot, u.slot);
    if t.blockTime.Some? { SameInt(t.blockTime.value, u.blockTime.value); }
  }

  lemma SameNames(t: Transaction, u: Transaction)
    requires Same(EnvelopeJson(t), EnvelopeJson(u))
    ensures t.cluster == u.cluster && t.signature == u.signature
  {
    EnvelopeField(t, u, 0);
    EnvelopeField(t, u, 2);
  }

  lemma SameKinds(t: Transaction, u: Transaction)
    requires Same(EnvelopeJson(t), EnvelopeJson(u))
    ensures t.commitment == u.commitment && t.version == u.version
  {
    EnvelopeField(t, u, 1);
    EnvelopeField(t, u, 5);
    assert Ascii("confirmed")[0] != Ascii("finalized")[0];
  }

  lemma SameParts(t: Transaction, u: Transaction)
    requires Same(EnvelopeJson(t), EnvelopeJson(u))
    ensures Same(SignedJson(t), SignedJson(u)) && Same(EvidenceJson(t.meta), EvidenceJson(u.meta))
  {
    EnvelopeField(t, u, 6);
    EnvelopeField(t, u, 7);
  }

  lemma SameEnvelope(t: Transaction, u: Transaction)
    requires Same(EnvelopeJson(t), EnvelopeJson(u))
    ensures t.(meta := t.meta.(err := Null)) == u.(meta := u.meta.(err := Null))
  {
    SameTimes(t, u);
    SameNames(t, u);
    SameKinds(t, u);
    SameParts(t, u);
    SameSigned(t, u);
    SameEvidence(t.meta, u.meta);
  }

  /** Two transactions but for the order of keys in their execution errors. */
  predicate Equivalent(t: Transaction, u: Transaction) {
    t.(meta := t.meta.(err := Null)) == u.(meta := u.meta.(err := Null)) && Same(t.meta.err, u.meta.err)
  }

  /** Fields of one key in one value, up to the order of keys. */
  lemma SameFields(v: Json, w: Json, key: Text, field: Json, other: Json)
    requires Same(v, w) && IsField(v, key, field) && IsField(w, key, other)
    ensures Same(field, other)
  {
    var i :| 0 <= i < |v.entries| && v.entries[i] == Entry(key, field);
    var j :| 0 <= j < |w.entries| && w.entries[j] == Entry(key, other);
    assert Same(v.entries[i].value, w.entries[j].value);
  }

  lemma SameErrors(v: Json, w: Json, err: Json, other: Json)
    requires Same(v, w) && HasError(v, err) && HasError(w, other)
    ensures Same(err, other)
  {
    var m :| IsField(v, Ascii("meta"), m) && IsField(m, Ascii("err"), err);
    var n :| IsField(w, Ascii("meta"), n) && IsField(n, Ascii("err"), other);
    SameFields(v, w, Ascii("meta"), m, n);
    SameFields(m, n, Ascii("err"), err, other);
  }

  /** A body, in whatever order its keys are, is that of one transaction only. */
  lemma BodyDecides(v: Json, w: Json, t: Transaction, u: Transaction)
    requires ReadsAs(v, t) && ReadsAs(w, u) && Same(v, w)
    ensures Equivalent(t, u)
  {
    EnvelopeShape(t, u);
    CarriedOnce(v, w, EnvelopeJson(t), EnvelopeJson(u));
    SameEnvelope(t, u);
    SameErrors(v, w, t.meta.err, u.meta.err);
  }

  lemma EquivalentIsAlike(t: Transaction, u: Transaction)
    requires Equivalent(t, u)
    ensures Alike(t, u)
  {
    assert t.meta.(err := Null).preTokenBalances == u.meta.(err := Null).preTokenBalances;
    assert t.meta == u.meta.(err := t.meta.err) && t == u.(meta := u.meta.(err := t.meta.err));
  }

  /** One snapshot digest for two bodies: their transactions are one, or SHA-256 collides on the canonical bodies. */
  lemma EqualSnapshots(v: Json, w: Json, t: Transaction, u: Transaction, sha256: Hash)
    requires ReadsAs(v, t) && ReadsAs(w, u) && Digest(v, sha256) == Digest(w, sha256)
    ensures Equivalent(t, u) || Collision(sha256, CanonicalText(v), CanonicalText(w))
  {
    if CanonicalText(v) == CanonicalText(w) {
      CanonicalTextDecides(v, w);
      BodyDecides(v, w, t, u);
    }
  }

  // ------------------------------------------------------------------ every transaction has a body

  function BodyOf(tx: Transaction): Json {
    var meta := Obj(EvidenceJson(tx.meta).entries + [Entry(Ascii("err"), tx.meta.err)]);
    Obj(EnvelopeJson(tx).entries[..7] + [Entry(Ascii("meta"), meta)])
  }

  lemma {:induction false} ShapedCarries(p: Json)
    requires Shaped(p, p)
    ensures WellFormed(p) && Carries(p, p)
    decreases p
  {
    match p
    case Obj(es) =>
      forall j | 0 <= j < |es| ensures WellFormed(es[j].value) && CarriesField(es, es[j]) { ShapedCarries(es[j].value); }
    case Arr(xs) =>
      forall i | 0 <= i < |xs| ensures WellFormed(xs[i]) && Carries(xs[i], xs[i]) { ShapedCarries(xs[i]); }
    case _ =>
  }

  /** A field of another key does not matter. */
  lemma OneMoreField(es: seq<Entry>, f: Entry, field: Entry)
    requires CarriesField(es, field) && f.key != field.key
    ensures CarriesField(es + [f], field)
  {
    if field.value != Null {
      var i :| 0 <= i < |es| && es[i].key == field.key;
      assert (es + [f])[i].key == field.key;
    }
  }

  lemma MetaReads(meta: Meta)
    requires WellFormed(meta.err)
    ensures var v := Obj(EvidenceJson(meta).entries + [Entry(Ascii("err"), meta.err)]);
      WellFormed(v) && Carries(v, EvidenceJson(meta)) && IsField(v, Ascii("err"), meta.err)
  {
    EvidenceShape(meta, meta);
    ShapedCarries(EvidenceJson(meta));
    var es, err := EvidenceJson(meta).entries, Entry(Ascii("err"), meta.err);
    assert |Ascii("loadedAddresses")| == 15 && |Ascii("preTokenBalances")| == 16 && |Ascii("postTokenBalances")| == |Ascii("innerInstructions")| == 17;
    assert |err.key| == 3;
    forall j | 0 <= j < |es| ensures CarriesField(es + [err], es[j]) { OneMoreField(es, err, es[j]); }
    assert (es + [err])[|es|] == err;
  }

  /** The last field may give way to one that carries it. */
  lemma LastReplaced(es: seq<Entry>, f: Entry)
    requires es != [] && Shaped(Obj(es), Obj(es)) && f.key == es[|es| - 1].key
    requires WellFormed(f.value) && Carries(f.value, es[|es| - 1].value)
    ensures var v := Obj(es[..|es| - 1] + [f]); WellFormed(v) && Carries(v, Obj(es))
  {
    var fs := es[..|es| - 1] + [f];
    assert DistinctKeys(fs);
    forall j | 0 <= j < |es| ensures CarriesField(fs, es[j]) && WellFormed(fs[j].value) {
      if j < |es| - 1 {
        ShapedCarries(es[j].value);
        assert fs[j] == es[j];
      } else {
        assert fs[j] == f;
      }
    }
  }

  /** Whatever the transaction, there is a body that reads as it. */
  lemma BodyReads(tx: Transaction)
    requires WellFormed(tx.meta.err)
    ensures ReadsAs(BodyOf(tx), tx)
  {
    MetaReads(tx.meta);
    EnvelopeShape(tx, tx);
    LastReplaced(EnvelopeJson(tx).entries, BodyOf(tx).entries[7]);
    assert IsField(BodyOf(tx), Ascii("meta"), BodyOf(tx).entries[7].value);
  }
}
