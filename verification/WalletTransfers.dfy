/** The transfers a complete wallet analysis reports: exactly the due ones, each once. */
module WalletTransfers {
  import opened Wrappers
  import opened Texts
  import opened Transactions
  import opened TransferParser
  import opened Envelope
  import opened WalletAnalysis
  import opened WalletCoverage

  predicate Reports(reported: seq<Reported>, t: ParsedTransfer) {
    exists i :: 0 <= i < |reported| && reported[i].transfer == t
  }

  predicate DistinctIds(transfers: seq<ParsedTransfer>) {
    forall i, j :: 0 <= i < j < |transfers| ==> transfers[i].eventId != transfers[j].eventId
  }

  /** Nothing is reported twice, and `seen` holds exactly the reported event ids, all of `transfers`. */
  ghost predicate HarvestSound(h: Harvest, transfers: seq<ParsedTransfer>) {
    && (forall i, j :: 0 <= i < j < |h.reported| ==> h.reported[i].transfer.eventId != h.reported[j].transfer.eventId)
    && (forall id :: id in h.seen <==> exists i :: 0 <= i < |h.reported| && h.reported[i].transfer.eventId == id)
    && (forall i :: 0 <= i < |h.reported| ==> h.reported[i].transfer in transfers)
  }

  lemma ReportsOneMore(reported: seq<Reported>, more: Reported, t: ParsedTransfer)
    ensures Reports(reported + [more], t) <==> Reports(reported, t) || more.transfer == t
  {
    if Reports(reported, t) {
      var i :| 0 <= i < |reported| && reported[i].transfer == t;
      assert (reported + [more])[i] == reported[i];
    }
    assert (reported + [more])[|reported|] == more;
  }

  lemma HarvestOneMore(h: Harvest, transfers: seq<ParsedTransfer>, t: ParsedTransfer, blockTime: int)
    requires HarvestSound(h, transfers) && t in transfers && t.eventId !in h.seen && AssetOf(t).Some?
    ensures HarvestSound(Harvest(h.reported + [ReportOf(t, blockTime)], h.seen + {t.eventId}, h.partial || |t.references| > REFERENCE_LIMIT), transfers)
  {
    var more := h.reported + [ReportOf(t, blockTime)];
    assert more[|h.reported|].transfer == t;
    forall id ensures id in h.seen + {t.eventId} <==> exists i :: 0 <= i < |more| && more[i].transfer.eventId == id {
      if i :| 0 <= i < |h.reported| && h.reported[i].transfer.eventId == id { assert more[i] == h.reported[i]; }
    }
  }

  /** Going through the transfers from the n-th on for one address adds the ones the address takes part in. */
  lemma {:induction false} GatherAdds(h: Harvest, transfers: seq<ParsedTransfer>, n: nat, accounts: seq<Account>,
      address: Text, blockTime: int)
    requires HarvestSound(h, transfers) && DistinctIds(transfers) && n <= |transfers|
    ensures var g := Gather(h, transfers[n..], accounts, address, blockTime);
      && HarvestSound(g, transfers)
      && forall t :: Reports(g.reported, t) <==> Reports(h.reported, t) || (t in transfers[n..] && TakesPart(accounts, address, t))
    decreases |transfers| - n
  {
    if n < |transfers| {
      var t := transfers[n];
      assert transfers[n..][1..] == transfers[n + 1..] && transfers[n..] == [t] + transfers[n + 1..];
      if t.eventId in h.seen || !TakesPart(accounts, address, t) {
        GatherAdds(h, transfers, n + 1, accounts, address, blockTime);
      } else {
        HarvestOneMore(h, transfers, t, blockTime);
        forall x ensures Reports(h.reported + [ReportOf(t, blockTime)], x) <==> Reports(h.reported, x) || x == t {
          ReportsOneMore(h.reported, ReportOf(t, blockTime), x);
        }
        GatherAdds(Harvest(h.reported + [ReportOf(t, blockTime)], h.seen + {t.eventId}, h.partial || |t.references| > REFERENCE_LIMIT),
          transfers, n + 1, accounts, address, blockTime);
      }
    }
  }

  /** One of the addresses takes part. */
  predicate AnyTakesPart(accounts: seq<Account>, addresses: seq<Text>, t: ParsedTransfer) {
    exists i :: 0 <= i < |addresses| && TakesPart(accounts, addresses[i], t)
  }

  /** A harvest over all addresses went through, so every parse did. */
  lemma {:induction false} AllParsed(h: Harvest, watched: seq<Text>, parsed: seq<Parsed>, accounts: seq<Account>,
      blockTime: int)
    requires |parsed| == |watched| && GatherAll(h, watched, parsed, accounts, blockTime).Some?
    ensures forall i :: 0 <= i < |watched| ==> parsed[i].Ok?
    decreases |watched|
  {
    if watched != [] {
      AllParsed(Gather(h, parsed[0].value, accounts, watched[0], blockTime), watched[1..], parsed[1..], accounts,
        blockTime);
      forall i | 0 <= i < |watched| ensures parsed[i].Ok? {
        assert i > 0 ==> parsed[1..][i - 1] == parsed[i];
      }
    }
  }

  predicate AllAre(parsed: seq<Parsed>, transfers: seq<ParsedTransfer>) {
    forall i :: 0 <= i < |parsed| ==> parsed[i] == Ok(transfers)
  }

  lemma {:induction false} GatherAllAdds(h: Harvest, watched: seq<Text>, parsed: seq<Parsed>, accounts: seq<Account>,
      blockTime: int,
      transfers: seq<ParsedTransfer>, g: Harvest)
    requires |parsed| == |watched| && HarvestSound(h, transfers) && DistinctIds(transfers) && AllAre(parsed, transfers)
    requires GatherAll(h, watched, parsed, accounts, blockTime) == Some(g)
    ensures HarvestSound(g, transfers)
    ensures forall t :: Reports(g.reported, t) <==> Reports(h.reported, t) || (t in transfers && AnyTakesPart(accounts, watched, t))
    decreases |watched|
  {
    if watched != [] {
      assert transfers[0..] == transfers;
      GatherAdds(h, transfers, 0, accounts, watched[0], blockTime);
      GatherAllAdds(Gather(h, transfers, accounts, watched[0], blockTime), watched[1..], parsed[1..], accounts,
        blockTime, transfers, g);
      forall t ensures Reports(g.reported, t) <==> Reports(h.reported, t) || (t in transfers && AnyTakesPart(accounts, watched, t)) {
      }
    }
  }

  // ------------------------------------------------------------------ one candidate

  /** The provider's transactions are the ones asked for, and well formed as the schema checks them. */
  ghost predicate HonestFetch(fetch: Text -> TransactionReply) {
    forall signature :: fetch(signature).Found? ==> fetch(signature).tx.signature == signature && Accepted(fetch(signature).tx)
  }

  /** A transfer of the transaction under this signature, in which one of the addresses takes part. */
  predicate DueFrom(r: Request, base58: Base58, fetch: Text -> TransactionReply, signature: Text, addresses: seq<Text>,
      t: ParsedTransfer) {
    && fetch(signature).Found?
    && exists i :: 0 <= i < |addresses| && TakesPart(r.accounts, addresses[i], t)
         && var parsed := ParseTransactionTransfers(fetch(signature).tx, base58, Some(addresses[i]));
            parsed.Ok? && t in parsed.value
  }

  /** Whichever address is watched, a transaction parsed for all of them has one list of transfers. */
  lemma OneParse(tx: Transaction, base58: Base58, watched: seq<Text>) returns (transfers: seq<ParsedTransfer>)
    requires Accepted(tx) && watched != [] && forall i :: 0 <= i < |watched| ==> ParseFor(tx, base58, watched)[i].Ok?
    ensures AllAre(ParseFor(tx, base58, watched), transfers) && DistinctIds(transfers)
    ensures forall i :: 0 <= i < |transfers| ==> transfers[i].signature == tx.signature
  {
    var parsed := ParseFor(tx, base58, watched);
    transfers := parsed[0].value;
    forall i | 0 <= i < |watched| ensures parsed[i] == Ok(transfers) {
      WatchingOnlyRefuses(EvidenceOf(tx), Locations(tx), base58, Some(watched[i]), Some(watched[0]));
    }
    EventIdsDistinct(tx, base58, Some(watched[0]));
    SignedBy(EvidenceOf(tx), Locations(tx), base58, Some(watched[0]));
  }

  /** The harvest of a candidate whose transaction was examined with nothing unknown. */
  lemma Examined(r: Request, base58: Base58, c: Candidate, reply: TransactionReply,
      reported: seq<Reported>) returns (g: Harvest, time: int)
    requires Examine(r, base58, c, reply) == Some((reported, false))
    ensures reply.Found? && g.reported == reported
    ensures GatherAll(Harvest([], {}, false), c.watched, ParseFor(reply.tx, base58, c.watched), r.accounts, time)
      == Some(g)
  {
    time := TimeOf(reply.tx, c.entry).value;
    g := GatherAll(Harvest([], {}, false), c.watched, ParseFor(reply.tx, base58, c.watched), r.accounts, time).value;
  }

  lemma ExamineReports(r: Request, base58: Base58, c: Candidate, fetch: Text -> TransactionReply,
      reported: seq<Reported>)
    requires HonestFetch(fetch)
    requires Examine(r, base58, c, fetch(c.entry.signature)) == Some((reported, false))
    ensures forall t :: Reports(reported, t) <==> DueFrom(r, base58, fetch, c.entry.signature, c.watched, t)
    ensures forall i :: 0 <= i < |reported| ==> reported[i].transfer.signature == c.entry.signature
    ensures forall i, j :: 0 <= i < j < |reported| ==> reported[i].transfer.eventId != reported[j].transfer.eventId
  {
    var reply := fetch(c.entry.signature);
    var g, time := Examined(r, base58, c, reply, reported);
    var parsed := ParseFor(reply.tx, base58, c.watched);
    AllParsed(Harvest([], {}, false), c.watched, parsed, r.accounts, time);
    if c.watched != [] {
      var transfers := OneParse(reply.tx, base58, c.watched);
      GatherAllAdds(Harvest([], {}, false), c.watched, parsed, r.accounts, time, transfers, g);
      forall t ensures Reports(reported, t) <==> DueFrom(r, base58, fetch, c.entry.signature, c.watched, t) {
      }
    }
  }

  lemma {:induction false} SignedBy(e: Evidence, at: seq<Location>, base58: Base58, watched: Option<Text>)
    requires ParseLocations(e, at, base58, watched).Ok?
    ensures var ts := ParseLocations(e, at, base58, watched).value; forall i :: 0 <= i < |ts| ==> ts[i].signature == e.signature
  {
    if at != [] {
      SignedBy(e, at[1..], base58, watched);
    }
  }

  // ------------------------------------------------------------------ all candidates

  predicate DueFromAny(r: Request, base58: Base58, fetch: Text -> TransactionReply, candidates: seq<Candidate>,
      t: ParsedTransfer) {
    exists k :: 0 <= k < |candidates| && DueFrom(r, base58, fetch, candidates[k].entry.signature, candidates[k].watched, t)
  }

  /** No event is reported twice. */
  predicate NoRepeats(reported: seq<Reported>) {
    forall i, j :: 0 <= i < j < |reported| ==>
      reported[i].transfer.signature != reported[j].transfer.signature || reported[i].transfer.eventId != reported[j].transfer.eventId
  }

  lemma ReportsEither(a: seq<Reported>, b: seq<Reported>, t: ParsedTransfer)
    ensures Reports(a + b, t) <==> Reports(a, t) || Reports(b, t)
  {
    if Reports(a, t) {
      var i :| 0 <= i < |a| && a[i].transfer == t;
      assert (a + b)[i] == a[i];
    }
    if Reports(b, t) {
      var i :| 0 <= i < |b| && b[i].transfer == t;
      assert (a + b)[|a| + i] == b[i];
    }
  }

  lemma DueFromOneMore(r: Request, base58: Base58, fetch: Text -> TransactionReply, init: seq<Candidate>, c: Candidate,
      t: ParsedTransfer)
    ensures DueFromAny(r, base58, fetch, init + [c], t) <==>
      DueFromAny(r, base58, fetch, init, t) || DueFrom(r, base58, fetch, c.entry.signature, c.watched, t)
  {
    var all := init + [c];
    assert all[|init|] == c && forall k :: 0 <= k < |init| ==> all[k] == init[k];
  }

  /** Everything reported of these candidates is signed by one of them. */
  predicate SignedByOne(reported: seq<Reported>, candidates: seq<Candidate>) {
    forall i :: 0 <= i < |reported| ==> HasSignature(candidates, reported[i].transfer.signature)
  }

  /** What examining some candidates comes to. */
  ghost predicate ReportsDue(r: Request, base58: Base58, fetch: Text -> TransactionReply, candidates: seq<Candidate>,
      reported: seq<Reported>) {
    && (forall t :: Reports(reported, t) <==> DueFromAny(r, base58, fetch, candidates, t))
    && NoRepeats(reported) && SignedByOne(reported, candidates)
    && forall k :: 0 <= k < |candidates| ==> fetch(candidates[k].entry.signature).Found?
  }

  lemma ReportsDueOneMore(r: Request, base58: Base58, fetch: Text -> TransactionReply, init: seq<Candidate>,
      c: Candidate, before: seq<Reported>, own: seq<Reported>)
    requires HonestFetch(fetch) && ReportsDue(r, base58, fetch, init, before) && !HasSignature(init, c.entry.signature)
    requires Examine(r, base58, c, fetch(c.entry.signature)) == Some((own, false))
    ensures ReportsDue(r, base58, fetch, init + [c], before + own)
  {
    var candidates := init + [c];
    ExamineReports(r, base58, c, fetch, own);
    forall t ensures Reports(before + own, t) <==> DueFromAny(r, base58, fetch, candidates, t) {
      ReportsEither(before, own, t);
      DueFromOneMore(r, base58, fetch, init, c, t);
    }
    SignedByMore(before, own, init, c);
  }

  lemma SignedByMore(before: seq<Reported>, own: seq<Reported>, init: seq<Candidate>, c: Candidate)
    requires SignedByOne(before, init) && forall i :: 0 <= i < |own| ==> own[i].transfer.signature == c.entry.signature
    ensures SignedByOne(before + own, init + [c])
  {
    var candidates := init + [c];
    assert candidates[|init|] == c;
    forall signature | HasSignature(init, signature) ensures HasSignature(candidates, signature) {
      var i :| 0 <= i < |init| && init[i].entry.signature == signature;
      assert candidates[i] == init[i];
    }
  }

  /** All candidates were examined with nothing unknown. */
  predicate Examines(r: Request, base58: Base58, candidates: seq<Candidate>, fetch: Text -> TransactionReply,
      reported: seq<Reported>) {
    ExamineAll(r, base58, candidates, fetch) == Some((reported, false))
  }

  lemma ExaminesSplits(r: Request, base58: Base58, candidates: seq<Candidate>, fetch: Text -> TransactionReply,
      reported: seq<Reported>)
      returns (before: seq<Reported>, own: seq<Reported>)
    requires candidates != [] && Examines(r, base58, candidates, fetch, reported)
    ensures var last := |candidates| - 1;
      && Examines(r, base58, candidates[..last], fetch, before)
      && Examine(r, base58, candidates[last], fetch(candidates[last].entry.signature)) == Some((own, false))
      && reported == before + own
  {
    var last := |candidates| - 1;
    before := ExamineAll(r, base58, candidates[..last], fetch).value.0;
    own := Examine(r, base58, candidates[last], fetch(candidates[last].entry.signature)).value.0;
  }

  lemma OneBefore(candidates: seq<Candidate>)
    requires candidates != [] && OnePerSignature(candidates)
    ensures var last := |candidates| - 1;
      && OnePerSignature(candidates[..last]) && !HasSignature(candidates[..last], candidates[last].entry.signature)
      && candidates == candidates[..last] + [candidates[last]]
  {
  }

  lemma {:induction false} ExamineAllReports(r: Request, base58: Base58, candidates: seq<Candidate>,
      fetch: Text -> TransactionReply, reported: seq<Reported>)
    requires HonestFetch(fetch) && OnePerSignature(candidates) && Examines(r, base58, candidates, fetch, reported)
    ensures ReportsDue(r, base58, fetch, candidates, reported)
  {
    if candidates != [] {
      var last := |candidates| - 1;
      OneBefore(candidates);
      var before, own := ExaminesSplits(r, base58, candidates, fetch, reported);
      ExamineAllReports(r, base58, candidates[..last], fetch, before);
      ReportsDueOneMore(r, base58, fetch, candidates[..last], candidates[last], before, own);
    }
  }

  // ------------------------------------------------------------------ complete coverage

  /**
   A transfer that is due: of a stablecoin, in a finalized and successful transaction of the
   range in the history of a watched account, that this account takes part in.
   */
  ghost predicate Due(r: Request, histories: Histories, base58: Base58, fetch: Text -> TransactionReply,
      t: ParsedTransfer) {
    exists signature, k :: 0 <= k < |r.accounts| && InRange(r, histories(r.accounts[k].address), signature)
      && DueFrom(r, base58, fetch, signature, [r.accounts[k].address], t)
  }

  lemma DueFromAddress(r: Request, base58: Base58, fetch: Text -> TransactionReply, signature: Text,
      addresses: seq<Text>, t: ParsedTransfer)
    ensures DueFrom(r, base58, fetch, signature, addresses, t) <==>
      exists i :: 0 <= i < |addresses| && DueFrom(r, base58, fetch, signature, [addresses[i]], t)
  {
    if DueFrom(r, base58, fetch, signature, addresses, t) {
      var i :| 0 <= i < |addresses| && TakesPart(r.accounts, addresses[i], t)
        && ParseTransactionTransfers(fetch(signature).tx, base58, Some(addresses[i])).Ok?
        && t in ParseTransactionTransfers(fetch(signature).tx, base58, Some(addresses[i])).value;
      assert [addresses[i]][0] == addresses[i];
    }
    if i :| 0 <= i < |addresses| && DueFrom(r, base58, fetch, signature, [addresses[i]], t) {
      assert [addresses[i]][0] == addresses[i];
    }
  }

  /** The candidates are exactly the signatures of the range, each with its accounts. */
  ghost predicate Exact(r: Request, histories: Histories, candidates: seq<Candidate>) {
    forall signature, a :: Watched(candidates, signature, a) <==> DueFor(r, r.accounts, histories, signature, a)
  }

  lemma OwedIsDue(r: Request, histories: Histories, base58: Base58, fetch: Text -> TransactionReply,
      candidates: seq<Candidate>, k: nat, t: ParsedTransfer)
    requires Exact(r, histories, candidates) && k < |candidates|
    requires DueFrom(r, base58, fetch, candidates[k].entry.signature, candidates[k].watched, t)
    ensures Due(r, histories, base58, fetch, t)
  {
    var c := candidates[k];
    DueFromAddress(r, base58, fetch, c.entry.signature, c.watched, t);
    var i :| 0 <= i < |c.watched| && DueFrom(r, base58, fetch, c.entry.signature, [c.watched[i]], t);
    assert Watched(candidates, c.entry.signature, c.watched[i]);
    assert DueFor(r, r.accounts, histories, c.entry.signature, c.watched[i]);
    var l :| 0 <= l < |r.accounts| && r.accounts[l].address == c.watched[i];
    assert InRange(r, histories(r.accounts[l].address), c.entry.signature);
  }

  lemma DueIsOwed(r: Request, histories: Histories, base58: Base58, fetch: Text -> TransactionReply,
      candidates: seq<Candidate>, signature: Text, k: nat, t: ParsedTransfer)
    requires Exact(r, histories, candidates) && k < |r.accounts|
    requires InRange(r, histories(r.accounts[k].address), signature)
    requires DueFrom(r, base58, fetch, signature, [r.accounts[k].address], t)
    ensures DueFromAny(r, base58, fetch, candidates, t)
  {
    assert DueFor(r, r.accounts, histories, signature, r.accounts[k].address);
    assert Watched(candidates, signature, r.accounts[k].address);
    var l :| 0 <= l < |candidates| && candidates[l].entry.signature == signature && r.accounts[k].address in candidates[l].watched;
    var i :| 0 <= i < |candidates[l].watched| && candidates[l].watched[i] == r.accounts[k].address;
    DueFromAddress(r, base58, fetch, signature, candidates[l].watched, t);
  }

  lemma CandidatesOwe(r: Request, histories: Histories, base58: Base58, fetch: Text -> TransactionReply,
      candidates: seq<Candidate>, t: ParsedTransfer)
    requires Exact(r, histories, candidates)
    ensures DueFromAny(r, base58, fetch, candidates, t) <==> Due(r, histories, base58, fetch, t)
  {
    if DueFromAny(r, base58, fetch, candidates, t) {
      var k :| 0 <= k < |candidates| && DueFrom(r, base58, fetch, candidates[k].entry.signature, candidates[k].watched, t);
      OwedIsDue(r, histories, base58, fetch, candidates, k, t);
    }
    if Due(r, histories, base58, fetch, t) {
      var signature, k :| 0 <= k < |r.accounts| && InRange(r, histories(r.accounts[k].address), signature)
        && DueFrom(r, base58, fetch, signature, [r.accounts[k].address], t);
      DueIsOwed(r, histories, base58, fetch, candidates, signature, k, t);
    }
  }

  /** A discovery that leaves nothing unknown has one candidate per due signature, with exactly its accounts. */
  lemma CompleteDiscovery(r: Request, provider: Provider, histories: Histories, candidates: seq<Candidate>)
    requires Honest(provider, histories) && forall k :: 0 <= k < |r.accounts| ==> NewestFirst(histories(r.accounts[k].address))
    requires DiscoveryOf(r, provider) == Some(Discovered(candidates, false))
    ensures OnePerSignature(candidates) && Exact(r, histories, candidates)
  {
    var s := SearchAll(Empty(), r.accounts, r, provider).value;
    assert candidates == s.found;
    SearchAllCovers(Empty(), r.accounts, r, provider, histories, s);
    AllKeepOne(Empty(), r.accounts, r, provider);
    assert forall signature, a :: !Watched([], signature, a);
  }

  /**
   Complete coverage: the reported transfers are exactly the due ones, each event once, and no
   transaction of the range was left out.
   */
  lemma CompleteMeansExact(r: Request, provider: Provider, histories: Histories, base58: Base58,
      fetch: Text -> TransactionReply, a: Analysis)
    requires Honest(provider, histories) && forall k :: 0 <= k < |r.accounts| ==> NewestFirst(histories(r.accounts[k].address))
    requires HonestFetch(fetch) && AnalysisOf(r, provider, base58, fetch) == Some(a) && a.complete
    ensures forall t :: Reports(a.transfers, t) <==> Due(r, histories, base58, fetch, t)
    ensures NoRepeats(a.transfers)
    ensures forall k, signature ::
      0 <= k < |r.accounts| && InRange(r, histories(r.accounts[k].address), signature) ==> fetch(signature).Found?
  {
    var candidates := DiscoveryOf(r, provider).value.candidates;
    CompleteDiscovery(r, provider, histories, candidates);
    ExamineAllReports(r, base58, candidates, fetch, a.transfers);
    forall t ensures Reports(a.transfers, t) <==> Due(r, histories, base58, fetch, t) {
      CandidatesOwe(r, histories, base58, fetch, candidates, t);
    }
    forall k, signature | 0 <= k < |r.accounts| && InRange(r, histories(r.accounts[k].address), signature)
      ensures fetch(signature).Found?
    {
      assert DueFor(r, r.accounts, histories, signature, r.accounts[k].address);
      assert Watched(candidates, signature, r.accounts[k].address);
    }
  }
}
