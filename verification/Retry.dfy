/**
 The retry of `sync_now`: items that did not open are asked for again by id, a
 chunk at a time, each chunk until everything in it is answered. `Retried` says
 what the loops compute against arbitrary answers; what they guarantee, against an
 honest server that may change between requests, is proved of it.
 */
module Retry {
  import opened Wrappers
  import opened Changes
  import opened Vault
  import opened Server
  import opened Agreement
  import opened SyncLoop

  // ---------------------------------------------------------------- one answer

  /** The transport's own check: every id was asked for, and none comes twice. */
  predicate Plausible(ask: seq<ItemId>, a: FetchAnswer) {
    a.FetchedItems? ==>
      && (forall c <- a.changes :: c.id in ask)
      && (forall id <- a.unanswered :: id in ask)
      && (forall i, j :: 0 <= i < j < |a.changes| ==> a.changes[i].id != a.changes[j].id)
      && (forall i, j :: 0 <= i < j < |a.unanswered| ==> a.unanswered[i] != a.unanswered[j])
      && (forall c <- a.changes :: c.id !in a.unanswered)
  }

  function Checked(ask: seq<ItemId>, a: FetchAnswer): (b: FetchAnswer)
    ensures Plausible(ask, b) && (b == a || b.FetchFailed?)
    ensures b.FetchedItems? <==>
              && a.FetchedItems? && Distinct(a.unanswered) && (forall id <- a.unanswered :: id in ask)
              && (forall c <- a.changes :: c.id in ask && c.id !in a.unanswered)
              && (forall i, j :: 0 <= i < j < |a.changes| ==> a.changes[i].id != a.changes[j].id)
  {
    if Plausible(ask, a) then a else FetchFailed
  }

  function Minus(ids: seq<ItemId>, out: seq<ItemId>): (rest: seq<ItemId>)
    ensures forall id :: id in rest <==> id in ids && id !in out
    ensures |rest| <= |ids|
  {
    if ids == [] then []
    else
      var front := Minus(ids[..|ids| - 1], out);
      var id := ids[|ids| - 1];
      assert ids == ids[..|ids| - 1] + [id];
      if id in out then front else front + [id]
  }

  /** Distinct ids that are part of an asked list and not all of it are fewer. */
  lemma {:induction false} FewerUnanswered(ask: seq<ItemId>, out: seq<ItemId>)
    requires Distinct(out) && (forall id <- out :: id in ask) && Minus(ask, out) != []
    ensures |out| < |ask|
  {
    var x := Minus(ask, out)[0];
    assert x in Minus(ask, out);
    DistinctCount(out);
    ListCount(ask);
    assert AsSet(out) <= AsSet(ask) - {x};
    SubsetCount(AsSet(out), AsSet(ask) - {x});
  }

  lemma SubsetCount(a: set<ItemId>, b: set<ItemId>)
    requires a <= b
    ensures |a| <= |b|
  {
    assert b == a + (b - a);
  }

  lemma {:induction false} DistinctCount(ids: seq<ItemId>)
    requires Distinct(ids)
    ensures |AsSet(ids)| == |ids|
  {
    if ids != [] {
      var n := |ids| - 1;
      DistinctCount(ids[..n]);
      AsSetStep(ids, n);
      assert ids[..n + 1] == ids;
    }
  }

  lemma {:induction false} ListCount(ids: seq<ItemId>)
    ensures |AsSet(ids)| <= |ids|
  {
    if ids != [] {
      var n := |ids| - 1;
      ListCount(ids[..n]);
      AsSetStep(ids, n);
      assert ids[..n + 1] == ids;
    }
  }

  lemma AscendingIsDistinct(ids: seq<ItemId>)
    requires Ascending(ids)
    ensures Distinct(ids)
  {
  }

  /** The ids an answer speaks for. */
  function AnsweredIds(ask: seq<ItemId>, a: FetchAnswer): seq<ItemId>
    requires a.FetchedItems?
  {
    Minus(ask, a.unanswered)
  }

  function PlanFor(t: Tables, ask: seq<ItemId>, a: FetchAnswer): map<ItemId, RemoteChange>
    requires a.FetchedItems?
  {
    RefetchPlan(t.unreadable, AsSet(AnsweredIds(ask, a)), a.changes)
  }

  /** Whether the retry goes on after asking for `ask` as the k-th request. */
  predicate GoesOn(env: Env, ask: seq<ItemId>, k: nat) {
    var a := Checked(ask, env.world.fetch(k, ask));
    a.FetchedItems? && AnsweredIds(ask, a) != [] && env.Writable()
  }

  /** The replica and the report after an answer that lets it go on. */
  function AfterAnswer(env: Env, t: Tables, ask: seq<ItemId>, k: nat): Tables
    requires GoesOn(env, ask, k)
  {
    Applied(env.cipher, t, PlanFor(t, ask, Checked(ask, env.world.fetch(k, ask))), None)
  }

  function ReportAfter(env: Env, t: Tables, ask: seq<ItemId>, k: nat, report: Report): Report
    requires GoesOn(env, ask, k)
  {
    Plus(report, Counted(env.cipher, t, PlanFor(t, ask, Checked(ask, env.world.fetch(k, ask)))).(skipped := 0))
  }

  method ApplyAnswer(vault: VaultService, ask: seq<ItemId>, a: FetchAnswer, report: Report, now: int)
    returns (r: Option<Report>)
    requires a.FetchedItems?
    modifies vault, vault.store
    ensures vault.unlocked == old(vault.unlocked) && vault.epoch == old(vault.epoch)
            && vault.store.linked == old(vault.store.linked)
    ensures r.Some? <==> vault.store.linked && vault.unlocked
    ensures r.None? ==> vault.Tables() == old(vault.Tables())
    ensures r.Some? ==> vault.Tables() == Applied(vault.cipher, old(vault.Tables()),
                                                  old(PlanFor(vault.Tables(), ask, a)), None)
    ensures r.Some? ==>
              r.value == Plus(report, Counted(vault.cipher, old(vault.Tables()),
                                              old(PlanFor(vault.Tables(), ask, a))).(skipped := 0))
  {
    var applied := vault.ApplyRefetched(Minus(ask, a.unanswered), a.changes, now);
    r := if applied.Ok? then Some(Plus(report, applied.value.(skipped := 0))) else None;
  }

  method AskOnce(vault: VaultService, world: World, ask: seq<ItemId>, k: nat, report: Report, now: int)
    returns (r: Option<(seq<ItemId>, Report)>)
    modifies vault, vault.store
    ensures EnvOf(vault, world, now) == old(EnvOf(vault, world, now))
    ensures r.Some? <==> GoesOn(EnvOf(vault, world, now), ask, k)
    ensures r.Some? ==> vault.Tables() == AfterAnswer(EnvOf(vault, world, now), old(vault.Tables()), ask, k)
    ensures r.Some? ==> r.value.0 == Checked(ask, world.fetch(k, ask)).unanswered
    ensures r.Some? ==> r.value.1 == ReportAfter(EnvOf(vault, world, now), old(vault.Tables()), ask, k, report)
    ensures r.None? ==> vault.Tables() == old(vault.Tables())
  {
    var fetched := Checked(ask, world.fetch(k, ask));
    if fetched.FetchFailed? || Minus(ask, fetched.unanswered) == [] {
      r := None;
    } else {
      var applied := ApplyAnswer(vault, ask, fetched, report, now);
      r := if applied.Some? then Some((fetched.unanswered, applied.value)) else None;
    }
  }

  // ---------------------------------------------------------------- the loops

  datatype Retrying = Retrying(tables: Tables, report: Report, requests: nat, complete: bool)

  function ChunkEnd(pending: seq<ItemId>, at: nat): (end: nat)
    requires at < |pending|
    ensures at < end <= |pending| && end - at <= MAX_BATCH && (end < |pending| ==> end - at == MAX_BATCH)
  {
    if |pending| - at < MAX_BATCH then |pending| else at + MAX_BATCH
  }

  /** `ask` is what is left of the chunk before `at`; `k` numbers the next request. */
  function Retried(env: Env, t: Tables, pending: seq<ItemId>, at: nat, ask: seq<ItemId>, k: nat,
                   report: Report): Retrying
    requires at <= |pending|
    decreases |pending| - at, |ask|
  {
    if ask == [] then
      if at == |pending| then Retrying(t, report, k, true)
      else Retried(env, t, pending, ChunkEnd(pending, at), pending[at..ChunkEnd(pending, at)], k, report)
    else if !GoesOn(env, ask, k) then Retrying(t, report, k + 1, false)
    else
      var left := Checked(ask, env.world.fetch(k, ask)).unanswered;
      FewerUnanswered(ask, left);
      Retried(env, AfterAnswer(env, t, ask, k), pending, at, left, k + 1, ReportAfter(env, t, ask, k, report))
  }

  method RetryUnreadable(vault: VaultService, world: World, now: int) returns (report: Report, requests: nat)
    modifies vault, vault.store
    ensures EnvOf(vault, world, now) == old(EnvOf(vault, world, now))
    ensures var r := old(Retried(EnvOf(vault, world, now), vault.Tables(), SortedIds(vault.store.unreadable.Keys), 0,
                                 [], 0, NO_CHANGES));
            vault.Tables() == r.tables && report == r.report && requests == r.requests
  {
    report, requests := NO_CHANGES, 0;
    var pending := vault.store.UnreadableItemIds();
    ghost var env := EnvOf(vault, world, now);
    ghost var r := Retried(env, vault.Tables(), pending, 0, [], 0, NO_CHANGES);
    var at := 0;
    while at < |pending|
      invariant at <= |pending| && EnvOf(vault, world, now) == env
      invariant r == Retried(env, vault.Tables(), pending, at, [], requests, report)
    {
      var end := ChunkEnd(pending, at);
      var ask := pending[at..end];
      at := end;
      while ask != []
        invariant EnvOf(vault, world, now) == env
        invariant r == Retried(env, vault.Tables(), pending, at, ask, requests, report)
        decreases |ask|
      {
        var asked := AskOnce(vault, world, ask, requests, report, now);
        requests := requests + 1;
        if asked.None? {
          return;
        }
        FewerUnanswered(ask, asked.value.0);
        ask, report := asked.value.0, asked.value.1;
      }
    }
  }

  // ---------------------------------------------------------------- whatever is answered

  /** How many ids are left to ask for. */
  function Left(pending: seq<ItemId>, at: nat, ask: seq<ItemId>): nat
    requires at <= |pending|
  {
    |ask| + (|pending| - at)
  }

  /** One request at most per id that is left to ask for. */
  lemma {:induction false} RetryEnds(env: Env, t: Tables, pending: seq<ItemId>, at: nat, ask: seq<ItemId>, k: nat,
                                     report: Report)
    requires at <= |pending|
    ensures Retried(env, t, pending, at, ask, k, report).requests <= k + Left(pending, at, ask)
    decreases |pending| - at, |ask|
  {
    if ask == [] {
      if at < |pending| {
        var end := ChunkEnd(pending, at);
        RetryEnds(env, t, pending, end, pending[at..end], k, report);
        assert Left(pending, end, pending[at..end]) == Left(pending, at, ask);
      }
    } else if GoesOn(env, ask, k) {
      var left := Checked(ask, env.world.fetch(k, ask)).unanswered;
      FewerUnanswered(ask, left);
      RetryEnds(env, AfterAnswer(env, t, ask, k), pending, at, left, k + 1, ReportAfter(env, t, ask, k, report));
      assert 1 + Left(pending, at, left) <= Left(pending, at, ask);
    } else {
      assert 1 <= Left(pending, at, ask);
    }
  }

  /** Items that were not recorded unreadable are exactly as they were. */
  ghost predicate ReadableUntouched(t: Tables, u: Tables) {
    && u.cursor == t.cursor
    && forall id :: id !in t.unreadable ==>
         && id !in u.unreadable
         && (id in t.items <==> id in u.items) && (id in t.items ==> t.items[id] == u.items[id])
  }

  lemma ReadableUntouchedTransitive(t: Tables, u: Tables, v: Tables)
    requires ReadableUntouched(t, u) && ReadableUntouched(u, v)
    ensures ReadableUntouched(t, v)
  {
    forall id | id !in t.unreadable
      ensures id !in v.unreadable && (id in t.items <==> id in v.items)
              && (id in t.items ==> t.items[id] == v.items[id])
    {
      assert id !in u.unreadable;
    }
  }

  lemma RefetchTouchesOnlyUnreadable(cipher: Cipher, t: Tables, requested: set<ItemId>, changes: seq<RemoteChange>)
    ensures ReadableUntouched(t, Applied(cipher, t, RefetchPlan(t.unreadable, requested, changes), None))
  {
    var wanted := requested * t.unreadable.Keys;
    assert LastChanges(Fresh(t.unreadable, wanted, changes)).Keys <= wanted;
  }

  lemma {:induction false} RetryTouchesOnlyUnreadable(env: Env, t: Tables, pending: seq<ItemId>, at: nat,
                                                      ask: seq<ItemId>, k: nat, report: Report)
    requires at <= |pending|
    ensures ReadableUntouched(t, Retried(env, t, pending, at, ask, k, report).tables)
    decreases |pending| - at, |ask|
  {
    if ask == [] {
      if at < |pending| {
        var end := ChunkEnd(pending, at);
        RetryTouchesOnlyUnreadable(env, t, pending, end, pending[at..end], k, report);
      }
    } else if GoesOn(env, ask, k) {
      var a := Checked(ask, env.world.fetch(k, ask));
      var (u, r) := (AfterAnswer(env, t, ask, k), ReportAfter(env, t, ask, k, report));
      FewerUnanswered(ask, a.unanswered);
      RefetchTouchesOnlyUnreadable(env.cipher, t, AsSet(AnsweredIds(ask, a)), a.changes);
      RetryTouchesOnlyUnreadable(env, u, pending, at, a.unanswered, k + 1, r);
      ReadableUntouchedTransitive(t, u, Retried(env, u, pending, at, a.unanswered, k + 1, r).tables);
    }
  }

  lemma AnswerBalances(env: Env, t: Tables, ask: seq<ItemId>, k: nat, report: Report)
    requires ListsMatch(t) && GoesOn(env, ask, k)
    ensures Balanced(report, t, ReportAfter(env, t, ask, k, report), AfterAnswer(env, t, ask, k), 0)
  {
    var plan := PlanFor(t, ask, Checked(ask, env.world.fetch(k, ask)));
    ItemCountFollowsReport(env.cipher, t, plan, None);
    AppliedKeepsLists(env.cipher, t, plan, None);
  }

  lemma {:induction false} RetryBalances(env: Env, t: Tables, pending: seq<ItemId>, at: nat, ask: seq<ItemId>, k: nat,
                                         report: Report)
    requires at <= |pending| && ListsMatch(t)
    ensures var r := Retried(env, t, pending, at, ask, k, report); Balanced(report, t, r.report, r.tables, 0)
    decreases |pending| - at, |ask|
  {
    if ask == [] {
      if at < |pending| {
        var end := ChunkEnd(pending, at);
        RetryBalances(env, t, pending, end, pending[at..end], k, report);
      }
    } else if GoesOn(env, ask, k) {
      var left := Checked(ask, env.world.fetch(k, ask)).unanswered;
      FewerUnanswered(ask, left);
      AnswerBalances(env, t, ask, k, report);
      RetryBalances(env, AfterAnswer(env, t, ask, k), pending, at, left, k + 1, ReportAfter(env, t, ask, k, report));
    }
  }

  /** The k-th request gets somewhere: a plausible answer that speaks for one of the ids
      asked for at least, and a vault that takes it. */
  predicate Advances(env: Env, ask: seq<ItemId>, k: nat) {
    var a := env.world.fetch(k, ask);
    && a.FetchedItems? && Plausible(ask, a) && (exists id <- ask :: id !in a.unanswered)
    && env.linked && env.unlocked
  }

  /** What is asked for, request by request. */
  function Asks(env: Env, pending: seq<ItemId>, at: nat, ask: seq<ItemId>, k: nat): seq<seq<ItemId>>
    requires at <= |pending|
    decreases |pending| - at, |ask|
  {
    if ask == [] then
      if at == |pending| then []
      else Asks(env, pending, ChunkEnd(pending, at), pending[at..ChunkEnd(pending, at)], k)
    else if !GoesOn(env, ask, k) then [ask]
    else
      var left := Checked(ask, env.world.fetch(k, ask)).unanswered;
      FewerUnanswered(ask, left);
      [ask] + Asks(env, pending, at, left, k + 1)
  }

  lemma GoesOnExactly(env: Env, ask: seq<ItemId>, k: nat)
    ensures GoesOn(env, ask, k) <==> Advances(env, ask, k)
  {
    var a := Checked(ask, env.world.fetch(k, ask));
    if a.FetchedItems? && AnsweredIds(ask, a) != [] {
      assert AnsweredIds(ask, a)[0] in AnsweredIds(ask, a);
    }
  }

  /** All requests from the k-th on get somewhere, but the last of an incomplete retry. */
  ghost predicate AdvancesEach(env: Env, asks: seq<seq<ItemId>>, k: nat, complete: bool) {
    && (complete <==> forall i :: 0 <= i < |asks| ==> Advances(env, asks[i], k + i))
    && forall i :: 0 <= i < |asks| - 1 ==> Advances(env, asks[i], k + i)
  }

  lemma OneMoreAdvance(env: Env, ask: seq<ItemId>, rest: seq<seq<ItemId>>, k: nat, complete: bool)
    requires Advances(env, ask, k) && AdvancesEach(env, rest, k + 1, complete)
    ensures AdvancesEach(env, [ask] + rest, k, complete)
  {
    var asks := [ask] + rest;
    assert forall i :: 0 < i < |asks| ==> asks[i] == rest[i - 1] && k + i == k + 1 + (i - 1);
    if j :| 0 <= j < |rest| && !Advances(env, rest[j], k + 1 + j) {
      assert asks[j + 1] == rest[j] && !Advances(env, asks[j + 1], k + (j + 1));
    }
  }

  /** The retry makes just these requests, and gets through to its end exactly if every one
      of them gets somewhere; only its last request can be one that does not. */
  lemma {:induction false} RetryCompletesExactly(env: Env, t: Tables, pending: seq<ItemId>, at: nat, ask: seq<ItemId>,
                                                 k: nat, report: Report)
    requires at <= |pending|
    ensures var (r, asks) := (Retried(env, t, pending, at, ask, k, report), Asks(env, pending, at, ask, k));
            r.requests == k + |asks| && AdvancesEach(env, asks, k, r.complete)
    decreases |pending| - at, |ask|
  {
    if ask == [] {
      if at < |pending| {
        var end := ChunkEnd(pending, at);
        RetryCompletesExactly(env, t, pending, end, pending[at..end], k, report);
      }
    } else {
      GoesOnExactly(env, ask, k);
      if GoesOn(env, ask, k) {
        var left := Checked(ask, env.world.fetch(k, ask)).unanswered;
        FewerUnanswered(ask, left);
        RetryCompletesExactly(env, AfterAnswer(env, t, ask, k), pending, at, left, k + 1,
                              ReportAfter(env, t, ask, k, report));
        OneMoreAdvance(env, ask, Asks(env, pending, at, left, k + 1), k,
                       Retried(env, t, pending, at, ask, k, report).complete);
      } else {
        assert Asks(env, pending, at, ask, k) == [ask] && !Advances(env, [ask][0], k + 0);
      }
    }
  }

  /** What each answer did, request by request. */
  function AnswerCounts(env: Env, t: Tables, pending: seq<ItemId>, at: nat, ask: seq<ItemId>, k: nat): seq<Report>
    requires at <= |pending|
    decreases |pending| - at, |ask|
  {
    if ask == [] then
      if at == |pending| then []
      else AnswerCounts(env, t, pending, ChunkEnd(pending, at), pending[at..ChunkEnd(pending, at)], k)
    else if !GoesOn(env, ask, k) then []
    else
      var a := Checked(ask, env.world.fetch(k, ask));
      FewerUnanswered(ask, a.unanswered);
      [Counted(env.cipher, t, PlanFor(t, ask, a))]
      + AnswerCounts(env, AfterAnswer(env, t, ask, k), pending, at, a.unanswered, k + 1)
  }

  /** The report adds up what the answers did, but that still unreadable items are not
      counted as skipped again. */
  lemma {:induction false} RetryReportIsTheSum(env: Env, t: Tables, pending: seq<ItemId>, at: nat, ask: seq<ItemId>,
                                               k: nat, report: Report)
    requires at <= |pending|
    ensures var (r, total) := (Retried(env, t, pending, at, ask, k, report).report,
                               Total(AnswerCounts(env, t, pending, at, ask, k)));
            && r.added == report.added + total.added && r.updated == report.updated + total.updated
            && r.deleted == report.deleted + total.deleted && r.skipped == report.skipped
    decreases |pending| - at, |ask|
  {
    if ask == [] {
      if at < |pending| {
        var end := ChunkEnd(pending, at);
        RetryReportIsTheSum(env, t, pending, end, pending[at..end], k, report);
      }
    } else if GoesOn(env, ask, k) {
      var a := Checked(ask, env.world.fetch(k, ask));
      var u := AfterAnswer(env, t, ask, k);
      FewerUnanswered(ask, a.unanswered);
      RetryReportIsTheSum(env, u, pending, at, a.unanswered, k + 1, ReportAfter(env, t, ask, k, report));
      TotalOn(Counted(env.cipher, t, PlanFor(t, ask, a)), AnswerCounts(env, u, pending, at, a.unanswered, k + 1));
    }
  }

  // ---------------------------------------------------------------- an honest server over time

  /** The k-th request is answered by the server as it is at `history(k)`; between
      requests the server may accept batches, from anyone. */
  ghost predicate HonestFetches(world: World, history: nat -> Server) {
    && (forall k: nat :: ServerOk(history(k)))
    && (forall j: nat, k: nat :: j <= k ==> Evolves(history(j), history(k)))
    && (forall k: nat, ask: seq<ItemId> :: var a := Checked(ask, world.fetch(k, ask));
          a.FetchedItems? ==> HonestFetch(history(k), Fetched(AnsweredIds(ask, a), a.changes)))
  }

  lemma AnswerKeepsAgreement(env: Env, history: nat -> Server, t: Tables, ask: seq<ItemId>, k: nat)
    requires HonestFetches(env.world, history) && GoesOn(env, ask, k)
    requires TablesOk(env.cipher, history(k), t) && forall id <- ask :: id in history(k).rows
    ensures TablesOk(env.cipher, history(k + 1), AfterAnswer(env, t, ask, k))
  {
    var a := Checked(ask, env.world.fetch(k, ask));
    var f := Fetched(AnsweredIds(ask, a), a.changes);
    assert HonestFetch(history(k), f) && ServerOk(history(k)) && Evolves(history(k), history(k + 1));
    HonestFetchFits(history(k), f);
    RefetchKeepsAgreement(env.cipher, history(k), t, f);
    AgreementSurvivesWrites(env.cipher, history(k), history(k + 1), AfterAnswer(env, t, ask, k));
  }

  lemma RowsStay(world: World, history: nat -> Server, k: nat, ids: seq<ItemId>)
    requires HonestFetches(world, history) && forall id <- ids :: id in history(k).rows
    ensures forall id <- ids :: id in history(k + 1).rows
  {
    assert Evolves(history(k), history(k + 1));
  }

  /** A replica that agrees with the server still does after the retry, with the
      server as it is by then. */
  lemma {:induction false} RetryKeepsAgreement(env: Env, history: nat -> Server, t: Tables, pending: seq<ItemId>,
                                               at: nat,
                                               ask: seq<ItemId>, k: nat, report: Report)
    requires at <= |pending| && HonestFetches(env.world, history) && TablesOk(env.cipher, history(k), t)
    requires (forall id <- ask :: id in history(k).rows) && (forall id <- pending :: id in history(k).rows)
    ensures var r := Retried(env, t, pending, at, ask, k, report); TablesOk(env.cipher, history(r.requests), r.tables)
    decreases |pending| - at, |ask|
  {
    if ask == [] {
      if at < |pending| {
        var end := ChunkEnd(pending, at);
        assert forall id <- pending[at..end] :: id in pending;
        RetryKeepsAgreement(env, history, t, pending, end, pending[at..end], k, report);
      }
    } else if GoesOn(env, ask, k) {
      var left := Checked(ask, env.world.fetch(k, ask)).unanswered;
      FewerUnanswered(ask, left);
      AnswerKeepsAgreement(env, history, t, ask, k);
      RowsStay(env.world, history, k, left);
      RowsStay(env.world, history, k, pending);
      RetryKeepsAgreement(env, history, AfterAnswer(env, t, ask, k), pending, at, left, k + 1,
                          ReportAfter(env, t, ask, k, report));
    } else {
      assert ServerOk(history(k)) && Evolves(history(k), history(k + 1));
      AgreementSurvivesWrites(env.cipher, history(k), history(k + 1), t);
    }
  }

  // ---------------------------------------------------------------- what is asked for is settled

  /** The item is here as the server has it, or in neither table. */
  predicate Caught(cipher: Cipher, s: Server, t: Tables, id: ItemId) {
    if id in s.rows then AgreesOn(cipher, s, t, id) else id !in t.items && id !in t.unreadable
  }

  /** No recorded revision is one the server has not reached, for the item or, of
      an item it does not have, at all. */
  predicate RecordedFits(s: Server, t: Tables) {
    forall id <- t.unreadable :: RecordFits(s, t, id)
  }

  predicate RecordFits(s: Server, t: Tables, id: ItemId)
    requires id in t.unreadable
  {
    t.unreadable[id] <= if id in s.rows then s.rows[id].revision else s.revision
  }

  lemma {:induction false} FreshHas(recorded: map<ItemId, int>, wanted: set<ItemId>, changes: seq<RemoteChange>,
                                    c: RemoteChange)
    requires wanted <= recorded.Keys && c in changes && c.id in wanted && c.revision >= recorded[c.id]
    ensures c in Fresh(recorded, wanted, changes)
  {
    var front := changes[..|changes| - 1];
    assert changes == front + [changes[|changes| - 1]];
    if c in front {
      FreshHas(recorded, wanted, front, c);
    }
  }

  lemma {:induction false} InLastChanges(cs: seq<RemoteChange>, c: RemoteChange)
    requires c in cs
    ensures c.id in LastChanges(cs)
  {
    var i :| 0 <= i < |cs| && cs[i] == c;
    LastChangesMeaning(cs, i);
  }

  /** The plan of an honest answer: the server's row for each id asked for and
      recorded, a deletion where it has none, and nothing else. */
  lemma PlanOf(s: Server, t: Tables, f: Fetched, id: ItemId)
    requires HonestFetch(s, f) && RecordedFits(s, t)
    ensures var plan := RefetchPlan(t.unreadable, AsSet(f.requested), f.changes);
            && (id in plan <==> id in f.requested && id in t.unreadable)
            && (id in plan ==> plan[id] == if id in s.rows then ChangeOf(id, s.rows[id]) else Tombstone(id))
  {
    var (recorded, wanted) := (t.unreadable, AsSet(f.requested) * t.unreadable.Keys);
    var last := LastChanges(Fresh(recorded, wanted, f.changes));
    if id in wanted && id in s.rows {
      FreshHas(recorded, wanted, f.changes, ChangeOf(id, s.rows[id]));
      InLastChanges(Fresh(recorded, wanted, f.changes), ChangeOf(id, s.rows[id]));
      assert ChangeOf(id, s.rows[id]) in f.changes && ChangeOf(id, s.rows[id]).id in wanted;
    }
    if id in last {
      assert last[id] in Fresh(recorded, wanted, f.changes);
    }
  }

  lemma PlannedItem(cipher: Cipher, s: Server, t: Tables, plan: map<ItemId, RemoteChange>, id: ItemId)
    requires id in plan ==> plan[id] == if id in s.rows then ChangeOf(id, s.rows[id]) else Tombstone(id)
    ensures var u := Applied(cipher, t, plan, None);
            && (id in plan ==> Caught(cipher, s, u, id))
            && (id !in plan ==> (Caught(cipher, s, u, id) <==> Caught(cipher, s, t, id))
                                && (id in u.unreadable <==> id in t.unreadable)
                                && (id in t.unreadable ==> u.unreadable[id] == t.unreadable[id]))
  {
    if id in s.rows && id in plan {
      MentionedAgrees(cipher, s, t, plan, None, id);
    } else if id in s.rows {
      UnmentionedAgrees(cipher, s, t, plan, None, id);
    }
  }

  /** The item is here as the server had it at some request so far. */
  ghost predicate SettledBefore(cipher: Cipher, history: nat -> Server, t: Tables, id: ItemId, k: nat) {
    exists j: nat :: j < k && Caught(cipher, history(j), t, id)
  }

  /** Of the ids to ask for, those asked and answered are settled, the others are
      still recorded. */
  ghost predicate Underway(cipher: Cipher, history: nat -> Server, t: Tables, pending: seq<ItemId>, at: nat,
                           ask: seq<ItemId>, k: nat)
    requires at <= |pending|
  {
    && RecordedFits(history(k), t)
    && (forall id <- ask :: id in t.unreadable && id in pending[..at])
    && (forall id <- pending[..at] :: id in ask || SettledBefore(cipher, history, t, id, k))
    && (forall id <- pending[at..] :: id in t.unreadable)
  }

  lemma RecordStays(s: Server, later: Server, t: Tables, id: ItemId)
    requires ServerOk(s) && Evolves(s, later)
    ensures id in t.unreadable && RecordFits(s, t, id) ==> RecordFits(later, t, id)
  {
  }

  lemma AnswerSettles(env: Env, history: nat -> Server, t: Tables, ask: seq<ItemId>, k: nat, id: ItemId)
    requires HonestFetches(env.world, history) && GoesOn(env, ask, k) && RecordedFits(history(k), t)
    ensures var (u, a) := (AfterAnswer(env, t, ask, k), Checked(ask, env.world.fetch(k, ask)));
            && (id in ask && id !in a.unanswered && id in t.unreadable ==> Caught(env.cipher, history(k), u, id))
            && (id !in ask || id in a.unanswered ==>
                  && (id in t.unreadable ==> id in u.unreadable)
                  && forall j: nat :: Caught(env.cipher, history(j), t, id) ==> Caught(env.cipher, history(j), u, id))
            && (id in u.unreadable ==> RecordFits(history(k + 1), u, id))
  {
    var a := Checked(ask, env.world.fetch(k, ask));
    var f := Fetched(AnsweredIds(ask, a), a.changes);
    assert HonestFetch(history(k), f) && Evolves(history(k), history(k + 1));
    var plan := PlanFor(t, ask, a);
    PlanOf(history(k), t, f, id);
    PlannedItem(env.cipher, history(k), t, plan, id);
    assert id in t.unreadable ==> RecordFits(history(k), t, id);
    RecordStays(history(k), history(k + 1), AfterAnswer(env, t, ask, k), id);
    if id !in plan {
      forall j: nat | Caught(env.cipher, history(j), t, id)
        ensures Caught(env.cipher, history(j), AfterAnswer(env, t, ask, k), id)
      {
        PlannedItem(env.cipher, history(j), t, plan, id);
      }
    }
  }

  lemma AnswerGoesOn(env: Env, history: nat -> Server, t: Tables, pending: seq<ItemId>, at: nat, ask: seq<ItemId>,
                     k: nat)
    requires at <= |pending| && HonestFetches(env.world, history) && GoesOn(env, ask, k) && Distinct(pending)
    requires Underway(env.cipher, history, t, pending, at, ask, k)
    ensures Underway(env.cipher, history, AfterAnswer(env, t, ask, k), pending, at,
                     Checked(ask, env.world.fetch(k, ask)).unanswered, k + 1)
  {
    var (u, left) := (AfterAnswer(env, t, ask, k), Checked(ask, env.world.fetch(k, ask)).unanswered);
    forall id ensures id in u.unreadable ==> RecordFits(history(k + 1), u, id) {
      AnswerSettles(env, history, t, ask, k, id);
    }
    forall id | id in left ensures id in u.unreadable && id in pending[..at] {
      AnswerSettles(env, history, t, ask, k, id);
    }
    forall id | id in pending[..at] ensures id in left || SettledBefore(env.cipher, history, u, id, k + 1) {
      AnswerSettles(env, history, t, ask, k, id);
      if id !in ask {
        var j: nat :| j < k && Caught(env.cipher, history(j), t, id);
        assert Caught(env.cipher, history(j), u, id);
      }
    }
    forall id | id in pending[at..] ensures id in u.unreadable {
      AnswerSettles(env, history, t, ask, k, id);
      AfterIsNotBefore(pending, at, id);
    }
  }

  lemma AfterIsNotBefore(pending: seq<ItemId>, at: nat, id: ItemId)
    requires at <= |pending| && Distinct(pending) && id in pending[at..]
    ensures id !in pending[..at]
  {
    var i :| 0 <= i < |pending[at..]| && pending[at..][i] == id;
    assert pending[at + i] == id;
  }

  lemma NextChunk(cipher: Cipher, history: nat -> Server, t: Tables, pending: seq<ItemId>, at: nat, end: nat, k: nat)
    requires at < end <= |pending| && Underway(cipher, history, t, pending, at, [], k)
    ensures Underway(cipher, history, t, pending, end, pending[at..end], k)
  {
    assert pending[..end] == pending[..at] + pending[at..end] && pending[at..] == pending[at..end] + pending[end..];
  }

  /** Every request is answered, if not for all it asks then for some. */
  ghost predicate AnswersSome(world: World) {
    forall k: nat, ask: seq<ItemId> :: ask != [] ==>
      var a := Checked(ask, world.fetch(k, ask)); a.FetchedItems? && AnsweredIds(ask, a) != []
  }

  lemma {:induction false} RetrySettles(env: Env, history: nat -> Server, t: Tables, pending: seq<ItemId>, at: nat,
                                        ask: seq<ItemId>,
                                        k: nat, report: Report)
    requires at <= |pending| && Distinct(pending) && HonestFetches(env.world, history) && env.Writable()
             && AnswersSome(env.world)
    requires Underway(env.cipher, history, t, pending, at, ask, k)
    ensures var r := Retried(env, t, pending, at, ask, k, report);
            r.complete && Underway(env.cipher, history, r.tables, pending, |pending|, [], r.requests)
    decreases |pending| - at, |ask|
  {
    if ask == [] {
      if at < |pending| {
        var end := ChunkEnd(pending, at);
        assert Retried(env, t, pending, at, ask, k, report) ==
               Retried(env, t, pending, end, pending[at..end], k, report);
        NextChunk(env.cipher, history, t, pending, at, end, k);
        RetrySettles(env, history, t, pending, end, pending[at..end], k, report);
      }
    } else {
      assert GoesOn(env, ask, k);
      var left := Checked(ask, env.world.fetch(k, ask)).unanswered;
      var (u, more) := (AfterAnswer(env, t, ask, k), ReportAfter(env, t, ask, k, report));
      FewerUnanswered(ask, left);
      assert Retried(env, t, pending, at, ask, k, report) == Retried(env, u, pending, at, left, k + 1, more);
      AnswerGoesOn(env, history, t, pending, at, ask, k);
      RetrySettles(env, history, u, pending, at, left, k + 1, more);
    }
  }

  /** If an honest server, changing as it likes, keeps answering, then every item
      that was recorded ends up here as the server had it at one of the requests. */
  lemma {:induction false} RetrySettlesAll(env: Env, history: nat -> Server, t: Tables)
    requires HonestFetches(env.world, history) && env.Writable() && AnswersSome(env.world)
             && RecordedFits(history(0), t)
    ensures var r := Retried(env, t, SortedIds(t.unreadable.Keys), 0, [], 0, NO_CHANGES);
            r.complete && forall id <- t.unreadable :: SettledBefore(env.cipher, history, r.tables, id, r.requests)
  {
    var pending := SortedIds(t.unreadable.Keys);
    var r := Retried(env, t, pending, 0, [], 0, NO_CHANGES);
    AscendingIsDistinct(pending);
    assert pending[0..] == pending && pending[..|pending|] == pending;
    assert forall id :: id in pending <==> id in AsSet(pending);
    RetrySettles(env, history, t, pending, 0, [], 0, NO_CHANGES);
  }

  /** The replica of any orderly run may be retried so: it records no revision its
      server has not reached; and once retried it agrees with the server as it then is. */
  lemma {:induction false} RetrySettlesAfterRun(env: Env, run: seq<System>, steps: seq<Step>, n: nat,
                                                history: nat -> Server)
    requires Agreement.Run(env.cipher, run, steps) && n < |run|
    requires forall i :: 0 <= i < |steps| ==> Orderly(env.cipher, run[i], steps[i])
    requires HonestFetches(env.world, history) && history(0) == run[n].server
    requires env.Writable() && AnswersSome(env.world)
    ensures RecordedFits(run[n].server, run[n].tables)
    ensures var t := run[n].tables;
            var r := Retried(env, t, SortedIds(t.unreadable.Keys), 0, [], 0, NO_CHANGES);
            && r.complete && Agrees(env.cipher, history(r.requests), r.tables)
            && forall id <- t.unreadable :: SettledBefore(env.cipher, history, r.tables, id, r.requests)
  {
    var t := run[n].tables;
    AgreementOverRuns(env.cipher, run, steps, n);
    assert KeysFit(run[n].server, t);
    RetrySettlesAll(env, history, t);
    RetryKeepsAgreement(env, history, t, SortedIds(t.unreadable.Keys), 0, [], 0, NO_CHANGES);
  }
}
