/** What complete coverage of a wallet analysis means, when the provider serves the real histories. */
module WalletCoverage {
  import opened Wrappers
  import opened Texts
  import opened Transactions
  import opened TransferParser
  import opened Envelope
  import opened WalletAnalysis

  type Histories = Text -> seq<Entry>

  /** Newest first by block time, where the time is known. */
  predicate NewestFirst(h: seq<Entry>) {
    forall i, j :: 0 <= i < j < |h| && h[i].blockTime.Some? && h[j].blockTime.Some? ==> h[j].blockTime.value <= h[i].blockTime.value
  }

  /** The request boundary in front of the p-th entry. */
  function Boundary(h: seq<Entry>, p: nat): Option<Text>
    requires p <= |h|
  {
    if p == 0 then None else Some(h[p - 1].signature)
  }

  /** A provider that pages through the history of each account, or does not answer. */
  ghost predicate Honest(provider: Provider, histories: Histories) {
    forall n: nat, address, p: nat, limit: nat {:trigger provider(n, address, Boundary(histories(address), p), limit)} ::
      p <= |histories(address)| && limit > 0 ==>
        var reply := provider(n, address, Boundary(histories(address), p), limit);
        reply.Page? ==> reply.entries == Cut(histories(address)[p..], limit)
  }

  /** A finalized, successful entry of the range. */
  predicate Eligible(r: Request, e: Entry) {
    Counts(e) && e.blockTime.Some? && r.from <= e.blockTime.value <= r.through
  }

  predicate InRange(r: Request, h: seq<Entry>, signature: Text) {
    exists i :: 0 <= i < |h| && h[i].signature == signature && Eligible(r, h[i])
  }

  predicate Watched(found: seq<Candidate>, signature: Text, address: Text) {
    exists i :: 0 <= i < |found| && found[i].entry.signature == signature && address in found[i].watched
  }

  // ------------------------------------------------------------------ one entry, one page

  lemma {:induction false} WatchingWatches(found: seq<Candidate>, e: Entry, address: Text, signature: Text, a: Text)
    ensures Watched(Watching(found, e, address), signature, a)
      <==> Watched(found, signature, a) || (signature == e.signature && a == address)
  {
    var next := Watching(found, e, address);
    if found == [] {
      assert next == [Candidate(e, [address])];
      assert next[0].watched == [address];
    } else {
      var rest, more := found[1..], next[1..];
      WatchedSplits(found, signature, a);
      WatchedSplits(next, signature, a);
      if found[0].entry.signature != e.signature {
        WatchingWatches(rest, e, address, signature, a);
      }
    }
  }

  lemma WatchedSplits(found: seq<Candidate>, signature: Text, a: Text)
    requires found != []
    ensures Watched(found, signature, a) <==>
      (found[0].entry.signature == signature && a in found[0].watched) || Watched(found[1..], signature, a)
  {
    if Watched(found[1..], signature, a) {
      var i :| 0 <= i < |found| - 1 && found[1..][i].entry.signature == signature && a in found[1..][i].watched;
      assert found[i + 1] == found[1..][i];
    }
    if Watched(found, signature, a) {
      var i :| 0 <= i < |found| && found[i].entry.signature == signature && a in found[i].watched;
      assert i > 0 ==> found[1..][i - 1] == found[i];
    }
  }

  /** The later list watches what the earlier one did, and the address on every entry of the range. */
  ghost predicate Extends(f: seq<Candidate>, g: seq<Candidate>, r: Request, address: Text, entries: seq<Entry>) {
    forall signature, a :: Watched(g, signature, a) <==> Watched(f, signature, a) || (a == address && InRange(r, entries, signature))
  }

  lemma ExtendsBoth(f: seq<Candidate>, g: seq<Candidate>, k: seq<Candidate>, r: Request, address: Text,
      entries: seq<Entry>, n: nat)
    requires n <= |entries| && Extends(f, g, r, address, entries[..n]) && Extends(g, k, r, address, entries[n..])
    ensures Extends(f, k, r, address, entries)
  {
    forall signature, a
      ensures Watched(k, signature, a) <==> Watched(f, signature, a) || (a == address && InRange(r, entries, signature))
    {
      assert Watched(g, signature, a) <==> Watched(f, signature, a) || (a == address && InRange(r, entries[..n], signature));
    }
  }

  lemma ExtendsOne(f: seq<Candidate>, e: Entry, r: Request, address: Text)
    ensures Extends(f, if Eligible(r, e) then Watching(f, e, address) else f, r, address, [e])
  {
    forall signature, a
      ensures var g := if Eligible(r, e) then Watching(f, e, address) else f;
        Watched(g, signature, a) <==> Watched(f, signature, a) || (a == address && InRange(r, [e], signature))
    {
      WatchingWatches(f, e, address, signature, a);
      assert InRange(r, [e], signature) <==> [e][0].signature == signature && Eligible(r, [e][0]);
    }
  }

  /**
   A page that leaves nothing unknown adds exactly its entries of the range; past the range there
   are none behind it.
   */
  lemma {:induction false} ScanCovers(s: Scan, h: seq<Entry>, p: nat, q: nat, r: Request, address: Text)
    requires NewestFirst(h) && p <= q <= |h| && !s.boundary
    requires !ScanPage(s, h[p..q], r, address).partial
    ensures var t := ScanPage(s, h[p..q], r, address);
      !s.partial && Extends(s.found, t.found, r, address, if t.boundary then h[p..] else h[p..q])
    decreases q - p
  {
    if p == q {
      assert h[p..q] == [];
      assert forall signature :: !InRange(r, [], signature);
    } else {
      var e := h[p];
      assert h[p..q][0] == e && h[p..q][1..] == h[p + 1..q];
      if e.blockTime.Some? && e.blockTime.value < r.from {
      } else {
        var next := if Eligible(r, e) then s.(found := Watching(s.found, e, address)) else s;
        StaysPartial(Scan(if (e.blockTime.None? || e.blockTime.value <= r.through) && Counts(e) then Watching(s.found, e, address) else s.found, true, false), h[p + 1..q], r, address);
        ScanCovers(next, h, p + 1, q, r, address);
        ExtendsOne(s.found, e, r, address);
        var t := ScanPage(next, h[p + 1..q], r, address);
        if t.boundary {
          assert h[p..][..1] == [e] && h[p..][1..] == h[p + 1..];
          ExtendsBoth(s.found, next.found, t.found, r, address, h[p..], 1);
        } else {
          assert h[p..q][..1] == [e];
          ExtendsBoth(s.found, next.found, t.found, r, address, h[p..q], 1);
        }
      }
    }
  }

  lemma {:induction false} StaysPartial(s: Scan, entries: seq<Entry>, r: Request, address: Text)
    requires s.partial
    ensures ScanPage(s, entries, r, address).partial
    decreases |entries|
  {
    if entries != [] && !(entries[0].blockTime.Some? && entries[0].blockTime.value < r.from) {
      var e := entries[0];
      var inRange := e.blockTime.None? || e.blockTime.value <= r.through;
      StaysPartial(if inRange && Counts(e) then s.(found := Watching(s.found, e, address)) else s, entries[1..], r,
        address);
    }
  }

  // ------------------------------------------------------------------ one account, all accounts

  lemma {:induction false} SearchStaysPartial(s: Search, before: Option<Text>, r: Request, address: Text,
      provider: Provider)
    requires s.inspected <= r.maxSignatures && s.partial && SearchAccount(s, before, r, address, provider).Some?
    ensures SearchAccount(s, before, r, address, provider).value.partial
    decreases r.maxSignatures - s.inspected
  {
    TurnStaysPartial(s, before, r, address, provider);
    var turn := AskPage(s, before, r, address, provider);
    if turn.Onward? { SearchStaysPartial(turn.search, Some(turn.before), r, address, provider); }
  }

  lemma TurnStaysPartial(s: Search, before: Option<Text>, r: Request, address: Text, provider: Provider)
    requires s.inspected <= r.maxSignatures && s.partial
    ensures var turn := AskPage(s, before, r, address, provider); !turn.Refused? ==> turn.search.partial
  {
    var limit := Least(PAGE_LIMIT, r.maxSignatures - s.inspected);
    if limit > 0 {
      var reply := provider(s.requests, address, before, limit);
      if reply.Page? { StaysPartial(Scan(s.found, true, false), Cut(reply.entries, limit), r, address); }
    }
  }

  /** A page taken from the history at `p`, when nothing about it stays unknown. */
  lemma PageCovers(s: Search, h: seq<Entry>, p: nat, r: Request, address: Text, limit: nat, entries: seq<Entry>)
    requires NewestFirst(h) && p <= |h| && entries == Cut(h[p..], limit) && entries != []
    requires 0 < limit && s.inspected + limit <= r.maxSignatures
    requires !TakePage(s, Boundary(h, p), r, address, entries, limit).search.partial
    ensures var turn := TakePage(s, Boundary(h, p), r, address, entries, limit);
      var q := p + |entries|;
      && !s.partial && q <= |h|
      && (turn.Done? ==> Extends(s.found, turn.search.found, r, address, h[p..]))
      && (turn.Onward? ==> Extends(s.found, turn.search.found, r, address, h[p..q]) && Some(turn.before) == Boundary(h, q))
  {
    var q := p + |entries|;
    assert entries == h[p..q] && Cut(entries, limit) == entries;
    ScanCovers(Scan(s.found, s.partial, false), h, p, q, r, address);
    if |entries| < limit { assert h[p..q] == h[p..]; }
    assert entries[|entries| - 1] == h[q - 1];
  }

  /**
   One request, answered honestly with nothing left unknown: the account is covered, or covered up
   to the next boundary.
   */
  lemma TurnCovers(s: Search, p: nat, r: Request, address: Text, provider: Provider,
      histories: Histories) returns (q: nat)
    requires Honest(provider, histories) && NewestFirst(histories(address)) && p <= |histories(address)|
    requires s.inspected <= r.maxSignatures
    requires var turn := AskPage(s, Boundary(histories(address), p), r, address, provider); !turn.Refused? && !turn.search.partial
    ensures var turn := AskPage(s, Boundary(histories(address), p), r, address, provider);
      var h := histories(address);
      && !s.partial && p <= q <= |h|
      && (turn.Done? ==> Extends(s.found, turn.search.found, r, address, h[p..]))
      && (turn.Onward? ==> Extends(s.found, turn.search.found, r, address, h[p..q]) && Some(turn.before) == Boundary(h, q))
  {
    var h := histories(address);
    var limit := Least(PAGE_LIMIT, r.maxSignatures - s.inspected);
    var reply := provider(s.requests, address, Boundary(h, p), limit);
    q := p;
    if reply.entries == [] {
      assert h[p..] == [] && forall signature :: !InRange(r, [], signature);
    } else {
      q := p + |reply.entries|;
      PageCovers(s.(requests := s.requests + 1), h, p, r, address, limit, reply.entries);
    }
  }

  /** The search of one account ends like this. */
  predicate Leads(s: Search, before: Option<Text>, r: Request, address: Text, provider: Provider, after: Search)
    requires s.inspected <= r.maxSignatures
  {
    SearchAccount(s, before, r, address, provider) == Some(after)
  }

  lemma TurnLeads(s: Search, before: Option<Text>, r: Request, address: Text, provider: Provider, after: Search)
    requires s.inspected <= r.maxSignatures && Leads(s, before, r, address, provider, after)
    ensures var turn := AskPage(s, before, r, address, provider);
      && !turn.Refused?
      && (turn.Done? ==> turn.search == after)
      && (turn.Onward? ==> Leads(turn.search, Some(turn.before), r, address, provider, after))
      && (!after.partial ==> !turn.search.partial)
  {
    var turn := AskPage(s, before, r, address, provider);
    if turn.Onward? && turn.search.partial { SearchStaysPartial(turn.search, Some(turn.before), r, address, provider); }
  }

  lemma SliceSplits(h: seq<Entry>, p: nat, q: nat)
    requires p <= q <= |h|
    ensures h[p..][..q - p] == h[p..q] && h[p..][q - p..] == h[q..]
  {
  }

  /** An account searched to its end without anything unknown has every entry of the range watched. */
  lemma {:induction false} SearchCovers(s: Search, p: nat, r: Request, address: Text, provider: Provider,
      histories: Histories, after: Search)
    requires Honest(provider, histories) && NewestFirst(histories(address)) && p <= |histories(address)|
    requires s.inspected <= r.maxSignatures
    requires Leads(s, Boundary(histories(address), p), r, address, provider, after) && !after.partial
    ensures !s.partial && Extends(s.found, after.found, r, address, histories(address)[p..])
    decreases r.maxSignatures - s.inspected
  {
    var h := histories(address);
    TurnLeads(s, Boundary(h, p), r, address, provider, after);
    var q := TurnCovers(s, p, r, address, provider, histories);
    var turn := AskPage(s, Boundary(h, p), r, address, provider);
    if turn.Onward? {
      SearchCovers(turn.search, q, r, address, provider, histories, after);
      SliceSplits(h, p, q);
      ExtendsBoth(s.found, turn.search.found, after.found, r, address, h[p..], q - p);
    }
  }

  /** A signature of the range in the history of one of the accounts. */
  predicate DueFor(r: Request, accounts: seq<Account>, histories: Histories, signature: Text, a: Text) {
    (exists k :: 0 <= k < |accounts| && accounts[k].address == a) && InRange(r, histories(a), signature)
  }

  ghost predicate CoversAccounts(f: seq<Candidate>, g: seq<Candidate>, r: Request, accounts: seq<Account>,
      histories: Histories) {
    forall signature, a :: Watched(g, signature, a) <==> Watched(f, signature, a) || DueFor(r, accounts, histories, signature, a)
  }

  lemma {:induction false} AllStaysPartial(s: Search, accounts: seq<Account>, r: Request, provider: Provider)
    requires s.inspected <= r.maxSignatures && s.partial && SearchAll(s, accounts, r, provider).Some?
    ensures SearchAll(s, accounts, r, provider).value.partial
    decreases |accounts|
  {
    if accounts != [] {
      SearchStaysPartial(s, None, r, accounts[0].address, provider);
      AllStaysPartial(SearchAccount(s, None, r, accounts[0].address, provider).value, accounts[1..], r, provider);
    }
  }

  lemma {:induction false} SearchAllCovers(s: Search, accounts: seq<Account>, r: Request, provider: Provider,
      histories: Histories, after: Search)
    requires Honest(provider, histories)
    requires forall k :: 0 <= k < |accounts| ==> NewestFirst(histories(accounts[k].address))
    requires s.inspected <= r.maxSignatures && SearchAll(s, accounts, r, provider) == Some(after) && !after.partial
    ensures CoversAccounts(s.found, after.found, r, accounts, histories)
    decreases |accounts|
  {
    if accounts != [] {
      var address := accounts[0].address;
      var next := SearchAccount(s, None, r, address, provider).value;
      if next.partial { AllStaysPartial(next, accounts[1..], r, provider); }
      assert histories(address)[0..] == histories(address);
      SearchCovers(s, 0, r, address, provider, histories, next);
      SearchAllCovers(next, accounts[1..], r, provider, histories, after);
    }
  }

  // ------------------------------------------------------------------ one candidate per signature

  predicate OnePerSignature(found: seq<Candidate>) {
    forall i, j :: 0 <= i < j < |found| ==> found[i].entry.signature != found[j].entry.signature
  }

  predicate HasSignature(found: seq<Candidate>, signature: Text) {
    exists i :: 0 <= i < |found| && found[i].entry.signature == signature
  }

  lemma {:induction false} WatchingKeepsOne(found: seq<Candidate>, e: Entry, address: Text)
    requires OnePerSignature(found)
    ensures OnePerSignature(Watching(found, e, address))
    ensures forall signature :: HasSignature(Watching(found, e, address), signature) ==> HasSignature(found, signature) || signature == e.signature
  {
    if found != [] && found[0].entry.signature != e.signature {
      var rest, next := found[1..], Watching(found, e, address);
      WatchingKeepsOne(rest, e, address);
      assert forall i :: 0 <= i < |rest| ==> rest[i] == found[i + 1];
      assert next[1..] == Watching(rest, e, address);
      assert forall signature :: HasSignature(rest, signature) ==> HasSignature(found, signature);
      forall j | 0 < j < |next| ensures next[j].entry.signature != found[0].entry.signature {
        assert next[j] == next[1..][j - 1];
        assert HasSignature(Watching(rest, e, address), next[j].entry.signature);
      }
      forall i, j | 0 <= i < j < |next| ensures next[i].entry.signature != next[j].entry.signature {
        if i > 0 { assert next[i] == next[1..][i - 1] && next[j] == next[1..][j - 1]; }
      }
      forall signature | HasSignature(next, signature)
        ensures HasSignature(found, signature) || signature == e.signature
      {
        var i :| 0 <= i < |next| && next[i].entry.signature == signature;
        if i > 0 {
          assert next[1..][i - 1] == next[i];
          assert HasSignature(Watching(rest, e, address), signature);
        } else {
          assert found[0].entry.signature == signature;
        }
      }
    }
  }

  lemma {:induction false} ScanKeepsOne(s: Scan, entries: seq<Entry>, r: Request, address: Text)
    requires OnePerSignature(s.found)
    ensures OnePerSignature(ScanPage(s, entries, r, address).found)
    decreases |entries|
  {
    if entries != [] && !(entries[0].blockTime.Some? && entries[0].blockTime.value < r.from) {
      var e := entries[0];
      var t := if e.blockTime.None? then s.(partial := true) else s;
      var inRange := e.blockTime.None? || e.blockTime.value <= r.through;
      WatchingKeepsOne(s.found, e, address);
      ScanKeepsOne(if inRange && Counts(e) then t.(found := Watching(t.found, e, address)) else t, entries[1..], r,
        address);
    }
  }

  lemma {:induction false} SearchKeepsOne(s: Search, before: Option<Text>, r: Request, address: Text,
      provider: Provider)
    requires s.inspected <= r.maxSignatures && OnePerSignature(s.found)
    requires SearchAccount(s, before, r, address, provider).Some?
    ensures OnePerSignature(SearchAccount(s, before, r, address, provider).value.found)
    decreases r.maxSignatures - s.inspected
  {
    TurnKeepsOne(s, before, r, address, provider);
    var turn := AskPage(s, before, r, address, provider);
    if turn.Onward? { SearchKeepsOne(turn.search, Some(turn.before), r, address, provider); }
  }

  lemma TurnKeepsOne(s: Search, before: Option<Text>, r: Request, address: Text, provider: Provider)
    requires s.inspected <= r.maxSignatures && OnePerSignature(s.found)
    ensures var turn := AskPage(s, before, r, address, provider); !turn.Refused? ==> OnePerSignature(turn.search.found)
  {
    var limit := Least(PAGE_LIMIT, r.maxSignatures - s.inspected);
    if limit > 0 {
      var reply := provider(s.requests, address, before, limit);
      if reply.Page? {
        ScanKeepsOne(Scan(s.found, s.partial || |reply.entries| > limit, false), Cut(reply.entries, limit), r, address);
      }
    }
  }

  lemma {:induction false} AllKeepOne(s: Search, accounts: seq<Account>, r: Request, provider: Provider)
    requires s.inspected <= r.maxSignatures && OnePerSignature(s.found) && SearchAll(s, accounts, r, provider).Some?
    ensures OnePerSignature(SearchAll(s, accounts, r, provider).value.found)
    decreases |accounts|
  {
    if accounts != [] {
      SearchKeepsOne(s, None, r, accounts[0].address, provider);
      AllKeepOne(SearchAccount(s, None, r, accounts[0].address, provider).value, accounts[1..], r, provider);
    }
  }
}
