/**
 What a wallet analysis reports, transfer by transfer, and when it is complete: the asset, the
 time and the references of everything reported, and small histories that leave nothing unknown.
 */
module WalletMeaning {
  import opened Wrappers
  import opened Texts
  import opened Transactions
  import opened TransferParser
  import opened Envelope
  import opened WalletAnalysis
  import opened WalletCoverage
  import opened WalletTransfers
  import CanonicalJson

  // ------------------------------------------------------------------ one reported transfer

  /** The mint of the asset on the main network. */
  predicate IsMint(asset: Asset, mint: Text) {
    match asset
    case Usdc => mint == Ascii("EPjFWdd5AufqSSqeM2qN1xzybapC8G4wEGGkZwyTDt1v")
    case Usdt => mint == Ascii("Es9vMFrzaCERmJfrF4H2FYD4KCoNkY11McCe8BenwNYB")
  }

  /** The transfer is of the account's asset, out of it or into it. */
  predicate Involves(account: Account, t: ParsedTransfer) {
    && IsMint(account.asset, t.mint)
    && (t.sourceTokenAccount == account.address || t.destinationTokenAccount == account.address)
  }

  lemma TwoMints(mint: Text)
    ensures !(IsMint(Usdc, mint) && IsMint(Usdt, mint))
  {
    assert |UsdcMint()| == |UsdtMint()| == 44;
    assert UsdcMint()[43] != UsdtMint()[43];
  }

  lemma AssetIs(t: ParsedTransfer, asset: Asset)
    ensures AssetOf(t) == Some(asset) <==> IsMint(asset, t.mint)
  {
    TwoMints(t.mint);
  }

  lemma TakesPartIs(accounts: seq<Account>, address: Text, t: ParsedTransfer)
    ensures TakesPart(accounts, address, t) <==>
      exists k :: 0 <= k < |accounts| && accounts[k].address == address && Involves(accounts[k], t)
  {
    AssetIs(t, Usdc);
    AssetIs(t, Usdt);
    if TakesPart(accounts, address, t) {
      var k :| 0 <= k < |accounts| && accounts[k] == Account(AssetOf(t).value, address);
    }
  }

  /** At most sixteen references are reported, the first ones. */
  predicate FirstSixteen(reported: seq<Text>, references: seq<Text>) {
    if |references| <= 16 then reported == references else |reported| == 16 && reported <= references
  }

  /** What is reported of a transfer: the asset of its mint, the time, and its references. */
  predicate ReportedAs(x: Reported, transfers: seq<ParsedTransfer>, accounts: seq<Account>, address: Text, time: int) {
    && x.transfer in transfers && x.blockTime == time && FirstSixteen(x.references, x.transfer.references)
    && IsMint(x.asset, x.transfer.mint)
    && exists k :: 0 <= k < |accounts| && accounts[k] == Account(x.asset, address) && Involves(accounts[k], x.transfer)
  }

  lemma ReportIs(t: ParsedTransfer, transfers: seq<ParsedTransfer>, accounts: seq<Account>, address: Text, time: int)
    requires t in transfers && TakesPart(accounts, address, t)
    ensures ReportedAs(ReportOf(t, time), transfers, accounts, address, time)
  {
    AssetIs(t, AssetOf(t).value);
    var k :| 0 <= k < |accounts| && accounts[k] == Account(AssetOf(t).value, address);
  }

  /** None of the references of what was reported are left out. */
  predicate Whole(reported: seq<Reported>) {
    forall i :: 0 <= i < |reported| ==> reported[i].references == reported[i].transfer.references
  }

  /** One address adds only reports of its own, and leaves out references only where it says so. */
  lemma {:induction false} GatherMeans(h: Harvest, transfers: seq<ParsedTransfer>, n: nat, accounts: seq<Account>,
      address: Text, time: int)
    requires n <= |transfers| && (!h.partial ==> Whole(h.reported))
    ensures var g := Gather(h, transfers[n..], accounts, address, time);
      && h.reported <= g.reported && (!g.partial ==> Whole(g.reported))
      && forall i :: |h.reported| <= i < |g.reported| ==> ReportedAs(g.reported[i], transfers, accounts, address, time)
    decreases |transfers| - n
  {
    if n < |transfers| {
      var t := transfers[n];
      assert transfers[n..][1..] == transfers[n + 1..];
      if t.eventId in h.seen || !TakesPart(accounts, address, t) {
        GatherMeans(h, transfers, n + 1, accounts, address, time);
      } else {
        ReportIs(t, transfers, accounts, address, time);
        GatherMeans(Harvest(h.reported + [ReportOf(t, time)], h.seen + {t.eventId}, h.partial || |t.references| > REFERENCE_LIMIT),
          transfers, n + 1, accounts, address, time);
      }
    }
  }

  /** A transfer parsed for one of the watched addresses, reported for that address. */
  ghost predicate ReportedFor(x: Reported, watched: seq<Text>, parsed: seq<Parsed>, accounts: seq<Account>, time: int) {
    exists i :: 0 <= i < |watched| && i < |parsed| && parsed[i].Ok? && ReportedAs(x, parsed[i].value, accounts, watched[i], time)
  }

  lemma ReportedForLater(x: Reported, watched: seq<Text>, parsed: seq<Parsed>, accounts: seq<Account>, time: int)
    requires watched != [] && parsed != [] && ReportedFor(x, watched[1..], parsed[1..], accounts, time)
    ensures ReportedFor(x, watched, parsed, accounts, time)
  {
    var i :| 0 <= i < |watched[1..]| && i < |parsed[1..]| && parsed[1..][i].Ok?
      && ReportedAs(x, parsed[1..][i].value, accounts, watched[1..][i], time);
    assert parsed[i + 1] == parsed[1..][i] && watched[i + 1] == watched[1..][i];
  }

  lemma {:induction false} GatherAllMeans(h: Harvest, watched: seq<Text>, parsed: seq<Parsed>, accounts: seq<Account>,
      time: int)
    requires |parsed| == |watched| && GatherAll(h, watched, parsed, accounts, time).Some?
    requires !h.partial ==> Whole(h.reported)
    ensures var g := GatherAll(h, watched, parsed, accounts, time).value;
      && h.reported <= g.reported && (!g.partial ==> Whole(g.reported))
      && forall i :: |h.reported| <= i < |g.reported| ==> ReportedFor(g.reported[i], watched, parsed, accounts, time)
    decreases |watched|
  {
    if watched != [] {
      var transfers := parsed[0].value;
      var m := Gather(h, transfers, accounts, watched[0], time);
      assert transfers[0..] == transfers;
      GatherMeans(h, transfers, 0, accounts, watched[0], time);
      GatherAllMeans(m, watched[1..], parsed[1..], accounts, time);
      var g := GatherAll(h, watched, parsed, accounts, time).value;
      forall i | |h.reported| <= i < |g.reported| ensures ReportedFor(g.reported[i], watched, parsed, accounts, time) {
        if i < |m.reported| {
          assert g.reported[i] == m.reported[i];
        } else {
          ReportedForLater(g.reported[i], watched, parsed, accounts, time);
        }
      }
    }
  }

  /**
   The report of a transfer of the candidate's transaction: parsed for a watched account it
   involves, at the transaction's time or else the history entry's, which lies in the range.
   */
  predicate ReportedOf(x: Reported, r: Request, base58: Base58, c: Candidate, reply: TransactionReply) {
    && reply.Found?
    && (if reply.tx.blockTime.Some? then reply.tx.blockTime else c.entry.blockTime) == Some(x.blockTime)
    && r.from <= x.blockTime <= r.through
    && IsMint(x.asset, x.transfer.mint) && FirstSixteen(x.references, x.transfer.references)
    && exists k :: 0 <= k < |r.accounts| && r.accounts[k].asset == x.asset && r.accounts[k].address in c.watched
         && Involves(r.accounts[k], x.transfer)
         && var parsed := ParseTransactionTransfers(reply.tx, base58, Some(r.accounts[k].address));
            parsed.Ok? && x.transfer in parsed.value
  }

  lemma ExamineMeans(r: Request, base58: Base58, c: Candidate, reply: TransactionReply)
    requires Examine(r, base58, c, reply).Some?
    ensures var (reported, partial) := Examine(r, base58, c, reply).value;
      && (forall i :: 0 <= i < |reported| ==> ReportedOf(reported[i], r, base58, c, reply))
      && (!partial ==> reply.Found? && Whole(reported))
  {
    if reply.Found? && Within(r, TimeOf(reply.tx, c.entry)) {
      var time := TimeOf(reply.tx, c.entry).value;
      var parsed := ParseFor(reply.tx, base58, c.watched);
      GatherAllMeans(Harvest([], {}, false), c.watched, parsed, r.accounts, time);
      var g := GatherAll(Harvest([], {}, false), c.watched, parsed, r.accounts, time).value;
      forall i | 0 <= i < |g.reported| ensures ReportedOf(g.reported[i], r, base58, c, reply) {
        var j :| 0 <= j < |c.watched| && j < |parsed| && parsed[j].Ok?
          && ReportedAs(g.reported[i], parsed[j].value, r.accounts, c.watched[j], time);
      }
    }
  }

  predicate ReportedOfOne(x: Reported, r: Request, base58: Base58, candidates: seq<Candidate>,
      fetch: Text -> TransactionReply) {
    exists k :: 0 <= k < |candidates| && ReportedOf(x, r, base58, candidates[k], fetch(candidates[k].entry.signature))
  }

  lemma {:induction false} ExamineAllMeans(r: Request, base58: Base58, candidates: seq<Candidate>,
      fetch: Text -> TransactionReply)
    requires ExamineAll(r, base58, candidates, fetch).Some?
    ensures var (reported, partial) := ExamineAll(r, base58, candidates, fetch).value;
      && (forall i :: 0 <= i < |reported| ==> ReportedOfOne(reported[i], r, base58, candidates, fetch))
      && (!partial ==> Whole(reported))
  {
    if candidates != [] {
      var last := |candidates| - 1;
      var init := candidates[..last];
      ExamineAllMeans(r, base58, init, fetch);
      ExamineMeans(r, base58, candidates[last], fetch(candidates[last].entry.signature));
      var before := ExamineAll(r, base58, init, fetch).value.0;
      var reported := ExamineAll(r, base58, candidates, fetch).value.0;
      forall i | 0 <= i < |reported| ensures ReportedOfOne(reported[i], r, base58, candidates, fetch) {
        if i < |before| {
          assert reported[i] == before[i];
          var k :| 0 <= k < |init| && ReportedOf(before[i], r, base58, init[k], fetch(init[k].entry.signature));
          assert candidates[k] == init[k];
        }
      }
    }
  }

  /**
   Everything an analysis reports, complete or not, is what a candidate's transaction says; a
   complete one leaves out no reference.
   */
  lemma AnalysisReports(r: Request, provider: Provider, base58: Base58, fetch: Text -> TransactionReply, a: Analysis)
    requires AnalysisOf(r, provider, base58, fetch) == Some(a)
    ensures |a.transfers| <= r.maxTransactions
    ensures DiscoveryOf(r, provider).Some?
    ensures forall i :: 0 <= i < |a.transfers| ==>
      ReportedOfOne(a.transfers[i], r, base58, DiscoveryOf(r, provider).value.candidates, fetch)
    ensures a.complete ==> Whole(a.transfers)
  {
    ExamineAllMeans(r, base58, DiscoveryOf(r, provider).value.candidates, fetch);
  }

  // ------------------------------------------------------------------ what is due

  /** A finalized, successful entry of this signature, at a time of the range. */
  predicate HasEntry(r: Request, h: seq<Entry>, signature: Text) {
    exists i :: 0 <= i < |h| && h[i].signature == signature && h[i].err == CanonicalJson.Null && h[i].finalized
      && h[i].blockTime.Some? && r.from <= h[i].blockTime.value <= r.through
  }

  /** A transfer of the account's asset, out of it or into it, in a transaction of its history in the range. */
  predicate Owes(r: Request, histories: Histories, base58: Base58, fetch: Text -> TransactionReply, account: Account,
      signature: Text, t: ParsedTransfer) {
    && HasEntry(r, histories(account.address), signature)
    && fetch(signature).Found? && Involves(account, t)
    && var parsed := ParseTransactionTransfers(fetch(signature).tx, base58, Some(account.address));
       parsed.Ok? && t in parsed.value
  }

  ghost predicate OwedToOne(r: Request, histories: Histories, base58: Base58, fetch: Text -> TransactionReply,
      t: ParsedTransfer) {
    exists k, signature :: 0 <= k < |r.accounts| && Owes(r, histories, base58, fetch, r.accounts[k], signature, t)
  }

  /** The report has the asset of the mint, a time of the range, and all references. */
  predicate SaysAll(r: Request, x: Reported) {
    && IsMint(x.asset, x.transfer.mint) && r.from <= x.blockTime <= r.through
    && x.references == x.transfer.references
  }

  lemma CompleteSays(r: Request, provider: Provider, base58: Base58, fetch: Text -> TransactionReply, a: Analysis)
    requires AnalysisOf(r, provider, base58, fetch) == Some(a) && a.complete
    ensures forall i :: 0 <= i < |a.transfers| ==> SaysAll(r, a.transfers[i])
  {
    AnalysisReports(r, provider, base58, fetch, a);
    var candidates := DiscoveryOf(r, provider).value.candidates;
    forall i | 0 <= i < |a.transfers| ensures SaysAll(r, a.transfers[i]) {
      assert ReportedOfOne(a.transfers[i], r, base58, candidates, fetch);
    }
  }

  /** What is due for one account: a parsed transfer the account takes part in. */
  lemma DueFromOne(r: Request, base58: Base58, fetch: Text -> TransactionReply, signature: Text, address: Text,
      t: ParsedTransfer)
    ensures DueFrom(r, base58, fetch, signature, [address], t) <==>
      && fetch(signature).Found? && TakesPart(r.accounts, address, t)
      && var parsed := ParseTransactionTransfers(fetch(signature).tx, base58, Some(address));
         parsed.Ok? && t in parsed.value
  {
    assert [address][0] == address;
  }

  lemma DueIsOwed(r: Request, histories: Histories, base58: Base58, fetch: Text -> TransactionReply, t: ParsedTransfer)
    requires WalletTransfers.Due(r, histories, base58, fetch, t)
    ensures OwedToOne(r, histories, base58, fetch, t)
  {
    var signature, k :| 0 <= k < |r.accounts| && InRange(r, histories(r.accounts[k].address), signature)
      && DueFrom(r, base58, fetch, signature, [r.accounts[k].address], t);
    DueFromOne(r, base58, fetch, signature, r.accounts[k].address, t);
    TakesPartIs(r.accounts, r.accounts[k].address, t);
    var l :| 0 <= l < |r.accounts| && r.accounts[l].address == r.accounts[k].address && Involves(r.accounts[l], t);
    assert Owes(r, histories, base58, fetch, r.accounts[l], signature, t);
  }

  lemma OwedIsDue(r: Request, histories: Histories, base58: Base58, fetch: Text -> TransactionReply, t: ParsedTransfer,
      k: nat,
      signature: Text)
    requires k < |r.accounts| && Owes(r, histories, base58, fetch, r.accounts[k], signature, t)
    ensures WalletTransfers.Due(r, histories, base58, fetch, t)
  {
    TakesPartIs(r.accounts, r.accounts[k].address, t);
    DueFromOne(r, base58, fetch, signature, r.accounts[k].address, t);
    assert InRange(r, histories(r.accounts[k].address), signature);
  }

  lemma DueIs(r: Request, histories: Histories, base58: Base58, fetch: Text -> TransactionReply, t: ParsedTransfer)
    ensures WalletTransfers.Due(r, histories, base58, fetch, t) <==> OwedToOne(r, histories, base58, fetch, t)
  {
    if WalletTransfers.Due(r, histories, base58, fetch, t) { DueIsOwed(r, histories, base58, fetch, t); }
    if k, signature :| 0 <= k < |r.accounts| && Owes(r, histories, base58, fetch, r.accounts[k], signature, t) {
      OwedIsDue(r, histories, base58, fetch, t, k, signature);
    }
  }

  /**
   A complete analysis reports exactly the transfers owed to the watched accounts, each with its
   asset and all of its references.
   */
  lemma CompleteReports(r: Request, provider: Provider, histories: Histories, base58: Base58,
      fetch: Text -> TransactionReply, a: Analysis)
    requires Honest(provider, histories) && forall k :: 0 <= k < |r.accounts| ==> NewestFirst(histories(r.accounts[k].address))
    requires HonestFetch(fetch) && AnalysisOf(r, provider, base58, fetch) == Some(a) && a.complete
    ensures forall t :: Reports(a.transfers, t) <==> OwedToOne(r, histories, base58, fetch, t)
    ensures NoRepeats(a.transfers)
    ensures forall i :: 0 <= i < |a.transfers| ==> SaysAll(r, a.transfers[i])
  {
    CompleteMeansExact(r, provider, histories, base58, fetch, a);
    CompleteSays(r, provider, base58, fetch, a);
    forall t ensures Reports(a.transfers, t) <==> OwedToOne(r, histories, base58, fetch, t) {
      DueIs(r, histories, base58, fetch, t);
    }
  }

  // ------------------------------------------------------------------ what the provider is asked

  /**
   One page is asked for of an account, of a hundred entries or of as many as the budget leaves:
   only that reply counts.
   */
  lemma AsksOnePage(s: Search, before: Option<Text>, r: Request, address: Text, provider: Provider, other: Provider)
    requires s.inspected <= r.maxSignatures
    requires var rest := r.maxSignatures - s.inspected; var limit := if rest < 100 then rest else 100;
      provider(s.requests, address, before, limit) == other(s.requests, address, before, limit)
    ensures AskPage(s, before, r, address, provider) == AskPage(s, before, r, address, other)
  {
  }

  // ------------------------------------------------------------------ when nothing stays unknown

  predicate AllTimed(h: seq<Entry>) { forall i :: 0 <= i < |h| ==> h[i].blockTime.Some? }

  predicate AllDifferent(h: seq<Entry>) { forall i, j :: 0 <= i < j < |h| ==> h[i].signature != h[j].signature }

  /** Every page of the history is answered. */
  ghost predicate Answers(provider: Provider, h: seq<Entry>, address: Text) {
    forall n: nat, p: nat, limit: nat {:trigger provider(n, address, Boundary(h, p), limit)} ::
      p <= |h| && limit > 0 ==> provider(n, address, Boundary(h, p), limit) == Page(Cut(h[p..], limit))
  }

  lemma {:induction false} ScanKnown(s: Scan, entries: seq<Entry>, r: Request, address: Text)
    requires AllTimed(entries)
    ensures ScanPage(s, entries, r, address).partial == s.partial
    decreases |entries|
  {
    if entries != [] {
      var e := entries[0];
      if e.blockTime.value >= r.from {
        var inRange := e.blockTime.value <= r.through;
        ScanKnown(if inRange && Counts(e) then s.(found := Watching(s.found, e, address)) else s, entries[1..], r,
          address);
      }
    }
  }

  /** The page ends that many entries further down. */
  predicate GoesTo(h: seq<Entry>, p: nat, before: Text, count: int)
    requires p <= |h|
  {
    0 < count <= |h| - p && Boundary(h, p + count) == Some(before)
  }

  /** What taking a page that is not empty leads to, when nothing of it is unknown and budget remains. */
  lemma TakenFits(s: Search, h: seq<Entry>, p: nat, r: Request, address: Text, limit: nat)
    requires AllTimed(h) && AllDifferent(h) && p < |h| && 0 < limit
    requires s.inspected + (|h| - p) < r.maxSignatures && s.inspected + limit <= r.maxSignatures
    ensures var turn := TakePage(s, Boundary(h, p), r, address, Cut(h[p..], limit), limit);
      && turn.search.partial == s.partial && turn.search.inspected <= s.inspected + (|h| - p)
      && (turn.Onward? ==> GoesTo(h, p, turn.before, turn.search.inspected - s.inspected))
  {
    var entries := Cut(h[p..], limit);
    assert Cut(entries, limit) == entries;
    ScanKnown(Scan(s.found, s.partial || |entries| > limit, false), entries, r, address);
    assert entries[|entries| - 1] == h[p + |entries| - 1];
    assert p > 0 ==> h[p - 1].signature != h[p + |entries| - 1].signature;
  }

  /** One page of a history that fits the budget: nothing becomes unknown, and there is budget for the next one. */
  lemma PageFits(s: Search, h: seq<Entry>, p: nat, r: Request, address: Text, provider: Provider)
    requires Answers(provider, h, address) && AllTimed(h) && AllDifferent(h) && p <= |h|
    requires s.inspected + (|h| - p) < r.maxSignatures
    ensures var turn := AskPage(s, Boundary(h, p), r, address, provider);
      && !turn.Refused? && turn.search.partial == s.partial && turn.search.inspected <= s.inspected + (|h| - p)
      && (turn.Onward? ==> GoesTo(h, p, turn.before, turn.search.inspected - s.inspected))
  {
    var limit := Least(PAGE_LIMIT, r.maxSignatures - s.inspected);
    assert provider(s.requests, address, Boundary(h, p), limit) == Page(Cut(h[p..], limit));
    if p < |h| { TakenFits(s.(requests := s.requests + 1), h, p, r, address, limit); }
  }

  lemma {:induction false} AccountFits(s: Search, h: seq<Entry>, p: nat, r: Request, address: Text, provider: Provider)
    requires Answers(provider, h, address) && AllTimed(h) && AllDifferent(h) && p <= |h|
    requires s.inspected + (|h| - p) < r.maxSignatures
    ensures var after := SearchAccount(s, Boundary(h, p), r, address, provider);
      after.Some? && after.value.partial == s.partial && after.value.inspected <= s.inspected + (|h| - p)
    decreases |h| - p
  {
    PageFits(s, h, p, r, address, provider);
    var turn := AskPage(s, Boundary(h, p), r, address, provider);
    if turn.Onward? {
      AccountFits(turn.search, h, p + (turn.search.inspected - s.inspected), r, address, provider);
    }
  }

  /** How many entries the histories of the accounts have. */
  function EntriesOf(histories: Histories, accounts: seq<Account>): nat {
    if accounts == [] then 0 else |histories(accounts[0].address)| + EntriesOf(histories, accounts[1..])
  }

  /** The history is answered, with known times and different signatures. */
  ghost predicate Plain(provider: Provider, histories: Histories, address: Text) {
    Answers(provider, histories(address), address) && AllTimed(histories(address)) && AllDifferent(histories(address))
  }

  lemma {:induction false} AllFit(s: Search, accounts: seq<Account>, r: Request, provider: Provider,
      histories: Histories)
    requires forall k :: 0 <= k < |accounts| ==> Plain(provider, histories, accounts[k].address)
    requires s.inspected + EntriesOf(histories, accounts) < r.maxSignatures
    ensures var after := SearchAll(s, accounts, r, provider); after.Some? && after.value.partial == s.partial
    decreases |accounts|
  {
    if accounts != [] {
      var address := accounts[0].address;
      assert Plain(provider, histories, address);
      AccountFits(s, histories(address), 0, r, address, provider);
      AllFit(SearchAccount(s, None, r, address, provider).value, accounts[1..], r, provider, histories);
    }
  }

  /** Histories that fit the budget are searched to the end: discovery is partial exactly when it is cut. */
  lemma DiscoveryFits(r: Request, provider: Provider, histories: Histories)
    requires forall k :: 0 <= k < |r.accounts| ==> Plain(provider, histories, r.accounts[k].address)
    requires EntriesOf(histories, r.accounts) < r.maxSignatures
    ensures var s, d := SearchAll(Empty(), r.accounts, r, provider), DiscoveryOf(r, provider);
      && s.Some? && d.Some?
      && (d.value.partial <==> |s.value.found| > r.maxTransactions)
      && (!d.value.partial ==> d.value.candidates == s.value.found)
  {
    AllFit(Empty(), r.accounts, r, provider, histories);
  }

  /**
   The transaction is there, at a time of the range, parsed for all addresses, with at most sixteen
   references each.
   */
  predicate Clear(r: Request, base58: Base58, watched: seq<Text>, reply: TransactionReply) {
    && reply.Found? && reply.tx.blockTime.Some? && r.from <= reply.tx.blockTime.value <= r.through
    && forall i :: 0 <= i < |watched| ==>
         var parsed := ParseTransactionTransfers(reply.tx, base58, Some(watched[i]));
         parsed.Ok? && forall t :: t in parsed.value ==> |t.references| <= 16
  }

  lemma {:induction false} GatherClear(h: Harvest, transfers: seq<ParsedTransfer>, accounts: seq<Account>,
      address: Text, time: int)
    requires forall t :: t in transfers ==> |t.references| <= 16
    ensures Gather(h, transfers, accounts, address, time).partial == h.partial
    decreases |transfers|
  {
    if transfers != [] {
      var t := transfers[0];
      assert t in transfers;
      GatherClear(
        if t.eventId in h.seen || !TakesPart(accounts, address, t) then h
        else Harvest(h.reported + [ReportOf(t, time)], h.seen + {t.eventId}, h.partial || |t.references| > REFERENCE_LIMIT),
        transfers[1..], accounts, address, time);
    }
  }

  lemma {:induction false} GatherAllClear(h: Harvest, watched: seq<Text>, parsed: seq<Parsed>, accounts: seq<Account>,
      time: int)
    requires |parsed| == |watched|
    requires forall i ::
      0 <= i < |parsed| ==> parsed[i].Ok? && forall t :: t in parsed[i].value ==> |t.references| <= 16
    ensures var g := GatherAll(h, watched, parsed, accounts, time); g.Some? && g.value.partial == h.partial
    decreases |watched|
  {
    if watched != [] {
      GatherClear(h, parsed[0].value, accounts, watched[0], time);
      GatherAllClear(Gather(h, parsed[0].value, accounts, watched[0], time), watched[1..], parsed[1..], accounts, time);
    }
  }

  lemma {:induction false} ExamineAllClear(r: Request, base58: Base58, candidates: seq<Candidate>,
      fetch: Text -> TransactionReply)
    requires forall k :: 0 <= k < |candidates| ==>
      Clear(r, base58, candidates[k].watched, fetch(candidates[k].entry.signature))
    ensures var examined := ExamineAll(r, base58, candidates, fetch); examined.Some? && !examined.value.1
  {
    if candidates != [] {
      var last := |candidates| - 1;
      var c := candidates[last];
      ExamineAllClear(r, base58, candidates[..last], fetch);
      var tx := fetch(c.entry.signature).tx;
      GatherAllClear(Harvest([], {}, false), c.watched, ParseFor(tx, base58, c.watched), r.accounts,
        tx.blockTime.value);
    }
  }

  /** Every transaction of the range is clear for every account whose history has it. */
  ghost predicate AllClear(r: Request, histories: Histories, base58: Base58, fetch: Text -> TransactionReply) {
    forall k, signature :: 0 <= k < |r.accounts| && InRange(r, histories(r.accounts[k].address), signature) ==>
      Clear(r, base58, [r.accounts[k].address], fetch(signature))
  }

  lemma CandidateClear(r: Request, histories: Histories, base58: Base58, fetch: Text -> TransactionReply,
      candidates: seq<Candidate>, k: nat)
    requires AllClear(r, histories, base58, fetch) && Exact(r, histories, candidates) && k < |candidates|
    requires candidates[k].watched != []
    ensures Clear(r, base58, candidates[k].watched, fetch(candidates[k].entry.signature))
  {
    var c := candidates[k];
    forall i | 0 <= i < |c.watched| ensures Clear(r, base58, [c.watched[i]], fetch(c.entry.signature)) {
      assert Watched(candidates, c.entry.signature, c.watched[i]);
      assert DueFor(r, r.accounts, histories, c.entry.signature, c.watched[i]);
    }
    assert Clear(r, base58, [c.watched[0]], fetch(c.entry.signature));
    forall i | 0 <= i < |c.watched|
      ensures var parsed := ParseTransactionTransfers(fetch(c.entry.signature).tx, base58, Some(c.watched[i]));
        parsed.Ok? && forall t :: t in parsed.value ==> |t.references| <= 16
    {
      assert Clear(r, base58, [c.watched[i]], fetch(c.entry.signature));
      assert [c.watched[i]][0] == c.watched[i];
    }
  }

  // every candidate was found for some address

  predicate AllWatched(found: seq<Candidate>) { forall i :: 0 <= i < |found| ==> found[i].watched != [] }

  lemma {:induction false} WatchingKeepsAll(found: seq<Candidate>, e: Entry, address: Text)
    requires AllWatched(found)
    ensures AllWatched(Watching(found, e, address))
  {
    if found != [] && found[0].entry.signature != e.signature { WatchingKeepsAll(found[1..], e, address); }
  }

  lemma {:induction false} ScanKeepsAll(s: Scan, entries: seq<Entry>, r: Request, address: Text)
    requires AllWatched(s.found)
    ensures AllWatched(ScanPage(s, entries, r, address).found)
    decreases |entries|
  {
    if entries != [] {
      var e := entries[0];
      if !(e.blockTime.Some? && e.blockTime.value < r.from) {
        var t := if e.blockTime.None? then s.(partial := true) else s;
        var inRange := e.blockTime.None? || e.blockTime.value <= r.through;
        WatchingKeepsAll(t.found, e, address);
        ScanKeepsAll(if inRange && Counts(e) then t.(found := Watching(t.found, e, address)) else t, entries[1..], r,
          address);
      }
    }
  }

  lemma {:induction false} AccountKeepsAll(s: Search, before: Option<Text>, r: Request, address: Text,
      provider: Provider)
    requires s.inspected <= r.maxSignatures && AllWatched(s.found)
    ensures var after := SearchAccount(s, before, r, address, provider); after.Some? ==> AllWatched(after.value.found)
    decreases r.maxSignatures - s.inspected
  {
    var turn := AskPage(s, before, r, address, provider);
    var limit := Least(PAGE_LIMIT, r.maxSignatures - s.inspected);
    if limit > 0 {
      var reply := provider(s.requests, address, before, limit);
      if reply.Page? && reply.entries != [] {
        var page := Cut(reply.entries, limit);
        ScanKeepsAll(Scan(s.found, s.partial || |reply.entries| > limit, false), page, r, address);
      }
    }
    if turn.Onward? { AccountKeepsAll(turn.search, Some(turn.before), r, address, provider); }
  }

  lemma {:induction false} SearchKeepsAll(s: Search, accounts: seq<Account>, r: Request, provider: Provider)
    requires s.inspected <= r.maxSignatures && AllWatched(s.found)
    ensures var after := SearchAll(s, accounts, r, provider); after.Some? ==> AllWatched(after.value.found)
    decreases |accounts|
  {
    if accounts != [] {
      AccountKeepsAll(s, None, r, accounts[0].address, provider);
      var next := SearchAccount(s, None, r, accounts[0].address, provider);
      if next.Some? { SearchKeepsAll(next.value, accounts[1..], r, provider); }
    }
  }

  /**
   Histories that fit the budget and transactions that are clear are reported completely, exactly
   when there are no more candidates and no more transfers than may be reported.
   */
  lemma SmallIsComplete(r: Request, provider: Provider, histories: Histories, base58: Base58,
      fetch: Text -> TransactionReply)
    requires Honest(provider, histories) && forall k :: 0 <= k < |r.accounts| ==>
      NewestFirst(histories(r.accounts[k].address)) && Plain(provider, histories, r.accounts[k].address)
    requires EntriesOf(histories, r.accounts) < r.maxSignatures && AllClear(r, histories, base58, fetch)
    ensures var s := SearchAll(Empty(), r.accounts, r, provider);
      && s.Some?
      && (|s.value.found| <= r.maxTransactions ==>
            var a, examined := AnalysisOf(r, provider, base58, fetch), ExamineAll(r, base58, s.value.found, fetch);
            a.Some? && examined.Some? && (a.value.complete <==> |examined.value.0| <= r.maxTransactions))
      && (|s.value.found| > r.maxTransactions ==>
            var a := AnalysisOf(r, provider, base58, fetch); a.Some? ==> !a.value.complete)
  {
    DiscoveryFits(r, provider, histories);
    var d := DiscoveryOf(r, provider).value;
    if !d.partial {
      assert d == Discovered(d.candidates, false);
      CompleteDiscovery(r, provider, histories, d.candidates);
      SearchKeepsAll(Empty(), r.accounts, r, provider);
      forall k | 0 <= k < |d.candidates|
        ensures Clear(r, base58, d.candidates[k].watched, fetch(d.candidates[k].entry.signature))
      {
        CandidateClear(r, histories, base58, fetch, d.candidates, k);
      }
      ExamineAllClear(r, base58, d.candidates, fetch);
    }
  }
}
