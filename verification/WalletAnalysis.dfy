/**
 Bounded analysis of a public wallet: candidate signatures found within a budget, their
 finalized transactions, and the stablecoin transfers the watched accounts take part in.
 */
module WalletAnalysis {
  import opened Wrappers
  import opened Texts
  import opened Transactions
  import opened TransferParser
  import CanonicalJson

  datatype Asset = Usdc | Usdt

  datatype Account = Account(asset: Asset, address: Text)

  /** Seconds since the epoch, and the bounds of the analysis. */
  datatype Request = Request(accounts: seq<Account>, from: int, through: int, maxSignatures: nat, maxTransactions: nat)

  datatype Entry = Entry(signature: Text, blockTime: Option<int>, err: CanonicalJson.Json, finalized: bool)

  datatype Candidate = Candidate(entry: Entry, watched: seq<Text>)

  datatype PageReply = RateLimited | Failed | Page(entries: seq<Entry>)

  /** Any provider at all: its reply to the n-th request for a page. */
  type Provider = (nat, Text, Option<Text>, nat) -> PageReply

  const PAGE_LIMIT := 100

  // ------------------------------------------------------------------ discoverCandidates

  function Watching(found: seq<Candidate>, entry: Entry, address: Text): seq<Candidate> {
    if found == [] then [Candidate(entry, [address])]
    else if found[0].entry.signature == entry.signature then
      [if address in found[0].watched then found[0] else found[0].(watched := found[0].watched + [address])] + found[1..]
    else [found[0]] + Watching(found[1..], entry, address)
  }

  predicate Counts(entry: Entry) { entry.err == CanonicalJson.Null && entry.finalized }

  /** One page's worth of entries: what is found, what is unknown, and whether the range is left behind. */
  datatype Scan = Scan(found: seq<Candidate>, partial: bool, boundary: bool)

  function ScanPage(s: Scan, entries: seq<Entry>, r: Request, address: Text): Scan
    decreases |entries|
  {
    if entries == [] then s
    else
      var e := entries[0];
      if e.blockTime.Some? && e.blockTime.value < r.from then s.(boundary := true)
      else
        var t := if e.blockTime.None? then s.(partial := true) else s;
        var inRange := e.blockTime.None? || e.blockTime.value <= r.through;
        ScanPage(if inRange && Counts(e) then t.(found := Watching(t.found, e, address)) else t, entries[1..], r, address)
  }

  datatype Search = Search(found: seq<Candidate>, inspected: nat, partial: bool, requests: nat)

  function Least(a: nat, b: nat): nat { if a < b then a else b }

  function Cut<T>(s: seq<T>, n: nat): (c: seq<T>)
    ensures |c| == Least(n, |s|) && c == s[..|c|]
  {
    if |s| <= n then s else s[..n]
  }

  /** One page request: the account is done with, the request failed, or there is a next boundary. */
  datatype Turn = Done(search: Search) | Refused | Onward(search: Search, before: Text)

  function TakePage(s: Search, before: Option<Text>, r: Request, address: Text, entries: seq<Entry>,
      limit: nat): (turn: Turn)
    requires entries != [] && 0 < limit && s.inspected + limit <= r.maxSignatures
    ensures turn.Done? || (turn.Onward? && s.inspected < turn.search.inspected < r.maxSignatures)
    ensures turn.search.inspected <= r.maxSignatures
  {
    var page := Cut(entries, limit);
    var scan := ScanPage(Scan(s.found, s.partial || |entries| > limit, false), page, r, address);
    var next := Search(scan.found, s.inspected + |page|, scan.partial, s.requests);
    var last := entries[|entries| - 1].signature;
    if scan.boundary || |entries| < limit then Done(next)
    else if next.inspected >= r.maxSignatures || before == Some(last) then Done(next.(partial := true))
    else Onward(next, last)
  }

  function AskPage(s: Search, before: Option<Text>, r: Request, address: Text, provider: Provider): (turn: Turn)
    requires s.inspected <= r.maxSignatures
    ensures turn.Onward? ==> s.inspected < turn.search.inspected < r.maxSignatures
    ensures turn.Done? ==> turn.search.inspected <= r.maxSignatures
  {
    var limit := Least(PAGE_LIMIT, r.maxSignatures - s.inspected);
    if limit == 0 then Done(s.(partial := true))
    else
      var reply := provider(s.requests, address, before, limit);
      var asked := s.(requests := s.requests + 1);
      match reply
      case Failed => Refused
      case RateLimited => Done(asked.(partial := true))
      case Page(entries) => if entries == [] then Done(asked) else TakePage(asked, before, r, address, entries, limit)
  }

  /** The paging of one account, whatever the provider replies: every further page spends budget. */
  function SearchAccount(s: Search, before: Option<Text>, r: Request, address: Text,
      provider: Provider): (after: Option<Search>)
    requires s.inspected <= r.maxSignatures
    ensures after.Some? ==> after.value.inspected <= r.maxSignatures
    decreases r.maxSignatures - s.inspected
  {
    var turn := AskPage(s, before, r, address, provider);
    match turn
    case Refused => None
    case Done(after) => Some(after)
    case Onward(next, last) => SearchAccount(next, Some(last), r, address, provider)
  }

  function SearchAll(s: Search, accounts: seq<Account>, r: Request, provider: Provider): Option<Search>
    requires s.inspected <= r.maxSignatures
    ensures var after := SearchAll(s, accounts, r, provider); after.Some? ==> after.value.inspected <= r.maxSignatures
    decreases |accounts|
  {
    if accounts == [] then Some(s)
    else
      var next := SearchAccount(s, None, r, accounts[0].address, provider);
      if next.None? then None else SearchAll(next.value, accounts[1..], r, provider)
  }

  method InspectPage(known: seq<Candidate>, unknown: bool, page: seq<Entry>, r: Request, address: Text)
    returns (found: seq<Candidate>, partial: bool, boundary: bool)
    ensures Scan(found, partial, boundary) == ScanPage(Scan(known, unknown, false), page, r, address)
  {
    found, partial, boundary := known, unknown, false;
    for i := 0 to |page|
      invariant !boundary
      invariant ScanPage(Scan(known, unknown, false), page, r, address) == ScanPage(Scan(found, partial, false), page[i..], r, address)
    {
      var entry := page[i];
      assert page[i..][1..] == page[i + 1..];
      if entry.blockTime.None? {
        partial := true;
      } else if entry.blockTime.value < r.from {
        boundary := true;
        return;
      }
      if (entry.blockTime.None? || entry.blockTime.value <= r.through) && Counts(entry) {
        found := Watching(found, entry, address);
      }
    }
  }

  method InspectReply(s: Search, before: Option<Text>, r: Request, address: Text, entries: seq<Entry>,
      limit: nat) returns (turn: Turn)
    requires entries != [] && 0 < limit && s.inspected + limit <= r.maxSignatures
    ensures turn == TakePage(s, before, r, address, entries, limit)
  {
    var partial := s.partial;
    if |entries| > limit { partial := true; }
    var page := Cut(entries, limit);
    var found, unknown, reached := InspectPage(s.found, partial, page, r, address);
    var next := Search(found, s.inspected + |page|, unknown, s.requests);
    if reached || |entries| < limit { return Done(next); }
    var last := entries[|entries| - 1].signature;
    if next.inspected >= r.maxSignatures || before == Some(last) { return Done(next.(partial := true)); }
    turn := Onward(next, last);
  }

  /** The loop of one account: it ends against any provider, because each page it goes on after spends budget. */
  method PageThrough(start: Search, r: Request, address: Text, provider: Provider) returns (after: Option<Search>)
    requires start.inspected <= r.maxSignatures
    ensures after == SearchAccount(start, None, r, address, provider)
    ensures after.Some? ==> after.value.inspected <= r.maxSignatures
  {
    var s, before: Option<Text> := start, None;
    while true
      invariant s.inspected <= r.maxSignatures
      invariant SearchAccount(start, None, r, address, provider) == SearchAccount(s, before, r, address, provider)
      decreases r.maxSignatures - s.inspected
    {
      var limit := Least(PAGE_LIMIT, r.maxSignatures - s.inspected);
      if limit == 0 { return Some(s.(partial := true)); }
      var reply := provider(s.requests, address, before, limit);
      var asked := s.(requests := s.requests + 1);
      if reply.Failed? { return None; }
      if reply.RateLimited? { return Some(asked.(partial := true)); }
      if reply.entries == [] { return Some(asked); }
      var turn := InspectReply(asked, before, r, address, reply.entries, limit);
      if turn.Done? { return Some(turn.search); }
      s, before := turn.search, Some(turn.before);
    }
  }

  datatype Discovered = Discovered(candidates: seq<Candidate>, partial: bool)

  function Empty(): Search { Search([], 0, false, 0) }

  function DiscoveryOf(r: Request, provider: Provider): Option<Discovered> {
    var s := SearchAll(Empty(), r.accounts, r, provider);
    if s.None? then None
    else Some(Discovered(Cut(s.value.found, r.maxTransactions), s.value.partial || |s.value.found| > r.maxTransactions))
  }

  /** Discovery inspects at most the budget of signatures, over all accounts, against any provider. */
  method DiscoverCandidates(r: Request, provider: Provider) returns (d: Option<Discovered>, inspected: nat)
    ensures d == DiscoveryOf(r, provider)
    ensures inspected <= r.maxSignatures
  {
    var s := Empty();
    for i := 0 to |r.accounts|
      invariant s.inspected <= r.maxSignatures
      invariant SearchAll(Empty(), r.accounts, r, provider) == SearchAll(s, r.accounts[i..], r, provider)
    {
      assert r.accounts[i..][1..] == r.accounts[i + 1..];
      var next := PageThrough(s, r, r.accounts[i].address, provider);
      if next.None? { return None, s.inspected; }
      s := next.value;
    }
    inspected := s.inspected;
    d := Some(Discovered(Cut(s.found, r.maxTransactions), s.partial || |s.found| > r.maxTransactions));
  }

  // ------------------------------------------------------------------ analyzePublicWallet

  datatype TransactionReply = Limited | Unavailable | Missing | Found(tx: Transaction)

  function UsdcMint(): Text { Ascii("EPjFWdd5AufqSSqeM2qN1xzybapC8G4wEGGkZwyTDt1v") }

  function UsdtMint(): Text { Ascii("Es9vMFrzaCERmJfrF4H2FYD4KCoNkY11McCe8BenwNYB") }

  function AssetOf(transfer: ParsedTransfer): Option<Asset> {
    if transfer.mint == UsdcMint() then Some(Usdc)
    else if transfer.mint == UsdtMint() then Some(Usdt)
    else None
  }

  const REFERENCE_LIMIT := 16

  datatype Reported = Reported(transfer: ParsedTransfer, asset: Asset, blockTime: int, references: seq<Text>)

  /** The watched account takes part in a transfer of the asset it is watched for. */
  predicate TakesPart(accounts: seq<Account>, address: Text, transfer: ParsedTransfer) {
    && AssetOf(transfer).Some?
    && Account(AssetOf(transfer).value, address) in accounts
    && (transfer.sourceTokenAccount == address || transfer.destinationTokenAccount == address)
  }

  datatype Harvest = Harvest(reported: seq<Reported>, seen: set<Text>, partial: bool)

  function ReportOf(transfer: ParsedTransfer, blockTime: int): Reported
    requires AssetOf(transfer).Some?
  {
    Reported(transfer, AssetOf(transfer).value, blockTime, Cut(transfer.references, REFERENCE_LIMIT))
  }

  function Gather(h: Harvest, transfers: seq<ParsedTransfer>, accounts: seq<Account>, address: Text,
      blockTime: int): Harvest
    decreases |transfers|
  {
    if transfers == [] then h
    else
      var t := transfers[0];
      Gather(
        if t.eventId in h.seen || !TakesPart(accounts, address, t) then h
        else Harvest(h.reported + [ReportOf(t, blockTime)], h.seen + {t.eventId}, h.partial || |t.references| > REFERENCE_LIMIT),
        transfers[1..], accounts, address, blockTime)
  }

  type Parsed = Result<seq<ParsedTransfer>, Unsupported>

  /** What the parser makes of the transaction for each watched address. */
  function ParseFor(tx: Transaction, base58: Base58, watched: seq<Text>): (parsed: seq<Parsed>)
    ensures |parsed| == |watched|
    ensures forall i :: 0 <= i < |watched| ==> parsed[i] == ParseTransactionTransfers(tx, base58, Some(watched[i]))
  {
    seq(|watched|, i requires 0 <= i < |watched| => ParseTransactionTransfers(tx, base58, Some(watched[i])))
  }

  /** Every watched address of a candidate in turn; evidence the parser refuses for one of them fails the analysis. */
  function GatherAll(h: Harvest, watched: seq<Text>, parsed: seq<Parsed>, accounts: seq<Account>,
      blockTime: int): Option<Harvest>
    requires |parsed| == |watched|
    decreases |watched|
  {
    if watched == [] then Some(h)
    else if parsed[0].Err? then None
    else GatherAll(Gather(h, parsed[0].value, accounts, watched[0], blockTime), watched[1..], parsed[1..], accounts, blockTime)
  }

  /** The time of a transaction: its own, or else the one its history entry gave. */
  function TimeOf(tx: Transaction, entry: Entry): Option<int> {
    if tx.blockTime.Some? then tx.blockTime else entry.blockTime
  }

  predicate Within(r: Request, time: Option<int>) { time.Some? && r.from <= time.value <= r.through }

  /** One candidate's transfers, and whether something about it stays unknown. */
  function Examine(r: Request, base58: Base58, c: Candidate, reply: TransactionReply): Option<(seq<Reported>, bool)> {
    match reply
    case Unavailable => None
    case Limited => Some(([], true))
    case Missing => Some(([], true))
    case Found(tx) =>
      if !Within(r, TimeOf(tx, c.entry)) then Some(([], true))
      else
        var h := GatherAll(Harvest([], {}, false), c.watched, ParseFor(tx, base58, c.watched), r.accounts,
          TimeOf(tx, c.entry).value);
        if h.None? then None else Some((h.value.reported, h.value.partial))
  }

  function ExamineAll(r: Request, base58: Base58, candidates: seq<Candidate>,
      fetch: Text -> TransactionReply): Option<(seq<Reported>, bool)> {
    if candidates == [] then Some(([], false))
    else
      var last := |candidates| - 1;
      var init := ExamineAll(r, base58, candidates[..last], fetch);
      var one := Examine(r, base58, candidates[last], fetch(candidates[last].entry.signature));
      if init.None? || one.None? then None else Some((init.value.0 + one.value.0, init.value.1 || one.value.1))
  }

  datatype Analysis = Analysis(complete: bool, transfers: seq<Reported>)

  function AnalysisOf(r: Request, provider: Provider, base58: Base58,
      fetch: Text -> TransactionReply): Option<Analysis> {
    var d := DiscoveryOf(r, provider);
    if d.None? then None
    else
      var examined := ExamineAll(r, base58, d.value.candidates, fetch);
      if examined.None? then None
      else
        var (transfers, partial) := examined.value;
        Some(Analysis(!d.value.partial && !partial && |transfers| <= r.maxTransactions, Cut(transfers, r.maxTransactions)))
  }

  lemma {:induction false} ExamineFails(r: Request, base58: Base58, candidates: seq<Candidate>,
      fetch: Text -> TransactionReply, n: nat)
    requires n <= |candidates| && ExamineAll(r, base58, candidates[..n], fetch).None?
    ensures ExamineAll(r, base58, candidates, fetch).None?
    decreases |candidates|
  {
    if n == |candidates| {
      assert candidates[..n] == candidates;
    } else {
      var init := candidates[..|candidates| - 1];
      assert init[..n] == candidates[..n];
      ExamineFails(r, base58, init, fetch, n);
    }
  }

  method ExamineCandidates(r: Request, base58: Base58, candidates: seq<Candidate>, fetch: Text -> TransactionReply)
    returns (examined: Option<(seq<Reported>, bool)>)
    ensures examined == ExamineAll(r, base58, candidates, fetch)
  {
    var transfers: seq<Reported>, unknown := [], false;
    for i := 0 to |candidates|
      invariant ExamineAll(r, base58, candidates[..i], fetch) == Some((transfers, unknown))
    {
      var one := Examine(r, base58, candidates[i], fetch(candidates[i].entry.signature));
      assert candidates[..i + 1][..i] == candidates[..i];
      if one.None? {
        ExamineFails(r, base58, candidates, fetch, i + 1);
        return None;
      }
      transfers, unknown := transfers + one.value.0, unknown || one.value.1;
    }
    assert candidates[..|candidates|] == candidates;
    examined := Some((transfers, unknown));
  }

  method AnalyzePublicWallet(r: Request, provider: Provider, base58: Base58,
      fetch: Text -> TransactionReply) returns (a: Option<Analysis>)
    ensures a == AnalysisOf(r, provider, base58, fetch)
  {
    var d, inspected := DiscoverCandidates(r, provider);
    if d.None? { return None; }
    var examined := ExamineCandidates(r, base58, d.value.candidates, fetch);
    if examined.None? { return None; }
    var partial := d.value.partial || examined.value.1;
    var bounded := Cut(examined.value.0, r.maxTransactions);
    if |bounded| != |examined.value.0| { partial := true; }
    a := Some(Analysis(!partial, bounded));
  }
}
