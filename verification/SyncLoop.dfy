/**
 The page loop of `sync_now`, with its restart from 0 and the ghost drop. The
 server is whatever answers: `World` gives an arbitrary answer to every request,
 and the local commits that land while it is in flight. `Pull` says what the loop
 computes from those; what it guarantees is proved of `Pull`, against an honest
 server by a history of that server.
 */
module SyncLoop {
  import opened Wrappers
  import opened Changes
  import opened Vault
  import opened Server
  import opened Agreement

  const MAX_BATCH: nat := 500
  const MAX_CURSOR: int := 0x7FFF_FFFF_FFFF_FFFF

  /** A cursor as it travels: not negative, and a 64-bit signed integer. */
  type Cursor = c: int | 0 <= c <= MAX_CURSOR

  datatype PullAnswer = Pulled(next: Cursor, hasMore: bool, changes: seq<RemoteChange>) | NoAnswer

  datatype FetchAnswer = FetchedItems(changes: seq<RemoteChange>, unanswered: seq<ItemId>) | FetchFailed

  /** The outside, request by request. */
  datatype World = World(
    pull: (nat, Cursor) -> PullAnswer,
    commits: nat -> seq<Commit>,
    fetch: (nat, seq<ItemId>) -> FetchAnswer)

  datatype SyncError = ServerFailed | VaultRefused(e: VaultError) | WentBackwardsAgain

  function Plus(a: Report, b: Report): Report {
    Report(a.added + b.added, a.updated + b.updated, a.deleted + b.deleted, a.skipped + b.skipped)
  }

  // ---------------------------------------------------------------- an honest server over time

  function PageOf(since: Cursor, a: PullAnswer): Page
    requires a.Pulled?
  {
    Page(since, a.next, a.hasMore, a.changes)
  }

  /** The server at the two reads of one request. */
  datatype Reads = Reads(before: Server, after: Server)

  /** The in-memory server reads at once, the database server twice. */
  ghost predicate Served(r: Reads, p: Page) {
    HonestPage(r.after, p) || PulledPage(r.before, r.after, p.since, p)
  }

  /** The first read found nothing newer, the second would have: the answer moves
      the cursor past rows it does not carry. */
  ghost predicate SkipsRows(r: Reads, p: Page) {
    !Newer(r.before, p.since) && Newer(r.after, p.since) && p.changes == [] && !p.hasMore
  }

  /** Request `k` is answered from the server as it is at its two reads; between
      them, and between requests, the server may accept batches, from anyone. */
  ghost predicate HonestWorld(world: World, history: nat -> Reads) {
    && (forall k: nat :: ServerOk(history(k).before) && ServerOk(history(k).after))
    && (forall k: nat :: Evolves(history(k).before, history(k).after))
    && (forall j: nat, k: nat :: j < k ==> Evolves(history(j).after, history(k).before))
    && (forall k: nat, since: Cursor :: world.pull(k, since).Pulled? ==>
        Served(history(k), PageOf(since, world.pull(k, since))))
  }

  /** Agreement on every item up to `cursor`, but for the ids of `except`. */
  ghost predicate Settled(cipher: Cipher, s: Server, t: Tables, cursor: int, except: set<ItemId>) {
    forall id <- s.rows :: s.rows[id].revision <= cursor && id !in except ==> AgreesOn(cipher, s, t, id)
  }

  /** A page holding every row of its range extends agreement to its end. */
  lemma {:induction false} SettledLanded(cipher: Cipher, s: Server, t: Tables, p: Page, now: int, except: set<ItemId>)
    requires PageHolds(s, p) && p.since <= p.next && Settled(cipher, s, t, p.since, except)
    ensures Settled(cipher, s, Landed(cipher, t, p, now), p.next, except)
  {
    forall id | id in s.rows && s.rows[id].revision <= p.next && id !in except
      ensures AgreesOn(cipher, s, Landed(cipher, t, p, now), id)
    {
      LandedOn(cipher, s, t, p, now, id);
    }
  }

  /** How far a served page brings a replica that had got to its start. */
  ghost function Reached(r: Reads, p: Page): int {
    if SkipsRows(r, p) then p.since else p.next
  }

  lemma {:induction false} ServedHolds(r: Reads, p: Page)
    requires ServerOk(r.before) && Evolves(r.before, r.after) && Served(r, p) && p.since <= p.next
    ensures PageHolds(r.after, p) || SkipsRows(r, p)
    ensures p.hasMore ==> !SkipsRows(r, p) && p.next <= r.after.revision
    ensures !p.hasMore ==> forall id <- r.after.rows :: r.after.rows[id].revision <= r.before.revision ==>
              r.after.rows[id].revision <= Reached(r, p)
  {
    forall id | id in r.after.rows && r.after.rows[id].revision <= r.before.revision ensures id in r.before.rows {
    }
  }

  lemma ReachedLanded(cipher: Cipher, r: Reads, t: Tables, p: Page, now: int, except: set<ItemId>)
    requires ServerOk(r.before) && Evolves(r.before, r.after) && Served(r, p) && p.since <= p.next
    requires Settled(cipher, r.after, t, p.since, except)
    ensures Settled(cipher, r.after, Landed(cipher, t, p, now), Reached(r, p), except)
  {
    ServedHolds(r, p);
    if SkipsRows(r, p) {
      assert LastChanges(p.changes) == map[];
      forall id | id in r.after.rows && r.after.rows[id].revision <= p.since && id !in except
        ensures AgreesOn(cipher, r.after, Landed(cipher, t, p, now), id)
      {
        UnmentionedAgrees(cipher, r.after, t, map[], Some((p.next, now)), id);
      }
    } else {
      SettledLanded(cipher, r.after, t, p, now, except);
    }
  }

  lemma ReachedSeen(r: Reads, p: Page, seen: set<ItemId>)
    requires ServerOk(r.before) && Evolves(r.before, r.after) && Served(r, p) && p.since <= p.next
    requires SawAll(r.after, p.since, seen)
    ensures SawAll(r.after, Reached(r, p), seen + Named(p.changes))
  {
    ServedHolds(r, p);
    if SkipsRows(r, p) {
      assert Named(p.changes) == {};
    } else {
      SawPage(r.after, p, seen);
    }
  }

  lemma SettledLater(cipher: Cipher, s: Server, later: Server, t: Tables, cursor: int, except: set<ItemId>)
    requires ServerOk(s) && Evolves(s, later) && cursor <= s.revision && Settled(cipher, s, t, cursor, except)
    ensures Settled(cipher, later, t, cursor, except)
  {
    forall id | id in later.rows && later.rows[id].revision <= cursor && id !in except
      ensures AgreesOn(cipher, later, t, id)
    {
      assert id in s.rows && later.rows[id] == s.rows[id];
      assert AgreesOn(cipher, s, t, id);
    }
  }

  // ---------------------------------------------------------------- the vault during a sync

  /** Everything a sync depends on but the replica itself. Nothing of it changes
      while the loop runs. */
  datatype Env = Env(world: World, cipher: Cipher, linked: bool, unlocked: bool, epoch: nat, now: int)
  {
    predicate Writable() {
      linked && unlocked
    }

    function Refusal(): SyncError {
      VaultRefused(if linked then VaultLocked else NotLinked)
    }
  }

  function EnvOf(vault: VaultService, world: World, now: int): Env
    reads vault, vault.store
  {
    Env(world, vault.cipher, vault.store.linked, vault.unlocked, vault.epoch, now)
  }

  // ---------------------------------------------------------------- local commits

  function Touched(commits: seq<Commit>): set<ItemId> {
    set c | c in commits :: c.write.id
  }

  /** The replica after the commits, those refused left out. */
  function Recorded(env: Env, t: Tables, commits: seq<Commit>): Tables {
    if commits == [] then t
    else
      var (u, c) := (Recorded(env, t, commits[..|commits| - 1]), commits[|commits| - 1]);
      if Recordable(env.unlocked, env.epoch, c.write) then Committed(env.cipher, u, c.write, c.revision) else u
  }

  /** Nothing but the named items' rows and list entries differs. */
  ghost predicate SameBut(t: Tables, u: Tables, ids: set<ItemId>) {
    && t.cursor == u.cursor && t.unreadable == u.unreadable
    && forall id :: id !in ids ==> (id in t.items <==> id in u.items) && (id in t.items ==> t.items[id] == u.items[id])
  }

  lemma {:induction false} RecordedTouches(env: Env, t: Tables, commits: seq<Commit>)
    ensures SameBut(t, Recorded(env, t, commits), Touched(commits))
  {
    if commits != [] {
      var front := commits[..|commits| - 1];
      RecordedTouches(env, t, front);
      assert commits == front + [commits[|commits| - 1]];
      assert commits[|commits| - 1].write.id in Touched(commits);
    }
  }

  lemma {:induction false} RecordedKeepsLists(env: Env, t: Tables, commits: seq<Commit>)
    requires ListsMatch(t)
    ensures ListsMatch(Recorded(env, t, commits))
  {
    if commits != [] {
      var (front, c) := (commits[..|commits| - 1], commits[|commits| - 1]);
      RecordedKeepsLists(env, t, front);
      if Recordable(env.unlocked, env.epoch, c.write) {
        CommitKeepsLists(env.cipher, Recorded(env, t, front), c.write, c.revision);
      }
    }
  }

  /** The vault as it is records the commit. */
  predicate Lands(env: Env, c: Commit) {
    env.unlocked && c.write.epoch == env.epoch
    && c.write.overview.Some? == c.write.details.Some? == c.write.plain.Some?
  }

  /** The last commit of its item that the vault records. */
  predicate LastLanding(env: Env, commits: seq<Commit>, i: nat) {
    && i < |commits| && Lands(env, commits[i])
    && forall j :: i < j < |commits| && commits[j].write.id == commits[i].write.id ==> !Lands(env, commits[j])
  }

  /** The item is as its last recorded commit left it. */
  ghost predicate StandsAs(cipher: Cipher, t: Tables, c: Commit) {
    var (w, id) := (c.write, c.write.id);
    if w.plain.Some? then
      && w.overview.Some? && w.details.Some? && id in t.items
      && t.items[id] == ItemRow(w.overview.value, w.details.value, c.revision)
      && ListedByStamp(cipher, t, id, w.plain.value)
    else id !in t.items && id !in t.live && id !in t.trash
  }

  /** After the commits each item is as its last recorded commit left it, and an item of
      which none was recorded is as it was. */
  lemma {:induction false} LastCommitStands(env: Env, t: Tables, commits: seq<Commit>)
    ensures forall i: nat :: LastLanding(env, commits, i) ==>
                               StandsAs(env.cipher, Recorded(env, t, commits), commits[i])
    ensures forall id :: (forall c <- commits :: c.write.id == id ==> !Lands(env, c)) ==>
                           SameItem(t, Recorded(env, t, commits), id)
  {
    if commits != [] {
      var n := |commits| - 1;
      var (front, c) := (commits[..n], commits[n]);
      var (u, v) := (Recorded(env, t, front), Recorded(env, t, commits));
      LastCommitStands(env, t, front);
      assert commits == front + [c];
      forall id ensures id != c.write.id || !Lands(env, c) ==> SameItem(u, v, id) {
        if Lands(env, c) {
          CommittedItem(env.cipher, u, c.write, c.revision, id);
        }
      }
      forall i: nat | LastLanding(env, commits, i) ensures StandsAs(env.cipher, v, commits[i]) {
        if i == n {
          CommittedItem(env.cipher, u, c.write, c.revision, c.write.id);
        } else {
          assert LastLanding(env, front, i) && StandsAs(env.cipher, u, commits[i]);
          assert SameItem(u, v, commits[i].write.id);
        }
      }
      forall id | forall d <- commits :: d.write.id == id ==> !Lands(env, d) ensures SameItem(t, v, id) {
        assert SameItem(t, u, id) && SameItem(u, v, id);
      }
    }
  }

  method LandCommits(vault: VaultService, world: World, now: int, commits: seq<Commit>)
    modifies vault, vault.store
    ensures EnvOf(vault, world, now) == old(EnvOf(vault, world, now))
    ensures vault.Tables() == Recorded(old(EnvOf(vault, world, now)), old(vault.Tables()), commits)
  {
    ghost var env, t := EnvOf(vault, world, now), vault.Tables();
    assert commits[..0] == [];
    for i := 0 to |commits|
      invariant EnvOf(vault, world, now) == env
      invariant vault.Tables() == Recorded(env, t, commits[..i])
    {
      assert commits[..i + 1][..i] == commits[..i];
      var _ := vault.CommitWrite(commits[i].write, commits[i].revision);
    }
    assert commits[..|commits|] == commits;
  }

  lemma SettledBut(cipher: Cipher, s: Server, t: Tables, u: Tables, cursor: int, except: set<ItemId>, ids: set<ItemId>)
    requires Settled(cipher, s, t, cursor, except) && SameBut(t, u, ids)
    ensures Settled(cipher, s, u, cursor, except + ids)
  {
    forall id | id in s.rows && s.rows[id].revision <= cursor && id !in except + ids
      ensures AgreesOn(cipher, s, u, id)
    {
      assert AgreesOn(cipher, s, t, id);
    }
  }

  // ---------------------------------------------------------------- one request

  /** The loop's own variables. `requests` numbers the next request. */
  datatype Pulling = Pulling(
    cursor: Cursor, fromZero: bool, seen: set<ItemId>, held: seq<ItemId>, report: Report, requests: nat)

  datatype Outcome =
    | Continue(next: Pulling)
    | Finished(report: Report, moreAtEnd: bool)
    | Failed(error: SyncError)

  /** One request: where it leads, the replica after it, and the ids dropped. */
  datatype Stepped = Stepped(outcome: Outcome, tables: Tables, dropped: set<ItemId>)

  function AfterPage(env: Env, t: Tables, p: Pulling, pulled: PullAnswer): (q: Pulling)
    requires pulled.Pulled?
    ensures q.cursor == pulled.next && q.fromZero == p.fromZero && q.held == p.held && q.requests == p.requests
  {
    p.(cursor := pulled.next,
       seen := if p.fromZero then p.seen + Named(pulled.changes) else p.seen,
       report := Plus(p.report, Counted(env.cipher, t, LastChanges(pulled.changes))))
  }

  function Emptied(env: Env, t: Tables): Tables {
    t.(cursor := 0, unreadable := map[], syncedAt := Some(env.now))
  }

  /** The last page has landed: from 0, with nothing more to come, what was held
      at the start and never mentioned is dropped. */
  function Ended(t: Tables, p: Pulling, hasMore: bool): Stepped {
    var dropped := if p.fromZero && !hasMore then AsSet(p.held) - p.seen else {};
    Stepped(Finished(p.report.(deleted := p.report.deleted + |dropped * t.items.Keys|), hasMore), Without(t, dropped),
            dropped)
  }

  /** `p` is the loop's place and `t` the replica once the request was answered
      and the commits that came meanwhile were recorded. */
  ghost function Answered(env: Env, t: Tables, p: Pulling, pulled: PullAnswer): Stepped
    requires pulled.Pulled?
  {
    if pulled.next < p.cursor then
      if p.fromZero then Stepped(Failed(WentBackwardsAgain), t, {})
      else if !env.linked then Stepped(Failed(env.Refusal()), t, {})
      else Stepped(Continue(Pulling(0, true, {}, SortedIds(t.items.Keys), p.report, p.requests + 1)), Emptied(env, t),
                   {})
    else if !env.Writable() then Stepped(Failed(env.Refusal()), t, {})
    else
      var (u, q) := (Landed(env.cipher, t, PageOf(p.cursor, pulled), env.now), AfterPage(env, t, p, pulled));
      if pulled.hasMore && p.cursor < pulled.next then Stepped(Continue(q.(requests := p.requests + 1)), u, {})
      else Ended(u, q, pulled.hasMore)
  }

  /** What was committed here while this request was in flight. */
  function Landing(world: World, p: Pulling): seq<Commit> {
    if world.pull(p.requests, p.cursor).Pulled? then world.commits(p.requests) else []
  }

  ghost function OneStep(env: Env, t: Tables, p: Pulling): (s: Stepped)
    ensures s.outcome.Continue? ==> s.outcome.next.requests == p.requests + 1
    ensures s.outcome.Continue? ==>
              var q := s.outcome.next;
              if q.fromZero == p.fromZero then p.cursor < q.cursor && q.held == p.held else !p.fromZero && q.cursor == 0
  {
    var pulled := env.world.pull(p.requests, p.cursor);
    if pulled.NoAnswer? then Stepped(Failed(ServerFailed), t, {})
    else Answered(env, Recorded(env, t, Landing(env.world, p)), p, pulled)
  }

  /** The server is behind what this device already pulled: start over, once. */
  method BackInTime(vault: VaultService, p: Pulling, pulled: PullAnswer, world: World, now: int) returns (o: Outcome)
    requires pulled.Pulled? && pulled.next < p.cursor
    modifies vault.store
    ensures EnvOf(vault, world, now) == old(EnvOf(vault, world, now))
    ensures var s := Answered(old(EnvOf(vault, world, now)), old(vault.Tables()), p, pulled);
            o == s.outcome && vault.Tables() == s.tables
  {
    if p.fromZero {
      return Failed(WentBackwardsAgain);
    }
    var reset := vault.ResetSyncCursor(now);
    if reset.Err? {
      return Failed(VaultRefused(reset.error));
    }
    var all := vault.ReplicaItemIds();
    o := Continue(Pulling(0, true, {}, all.value, p.report, p.requests + 1));
  }

  method ApplyPage(vault: VaultService, p: Pulling, pulled: PullAnswer, world: World, now: int)
    returns (r: Result<Pulling, SyncError>)
    requires pulled.Pulled?
    modifies vault, vault.store
    ensures EnvOf(vault, world, now) == old(EnvOf(vault, world, now))
    ensures var (env, t) := old((EnvOf(vault, world, now), vault.Tables()));
            if env.Writable() then
              r == Ok(AfterPage(env, t, p, pulled)) && vault.Tables() ==
                  Landed(env.cipher, t, PageOf(p.cursor, pulled), now)
            else
              r == Err(env.Refusal()) && vault.Tables() == t
  {
    var applied := vault.ApplyRemoteChanges(pulled.next, pulled.changes, now);
    if applied.Err? {
      return Err(VaultRefused(applied.error));
    }
    r := Ok(p.(cursor := pulled.next, seen := if p.fromZero then p.seen + Named(pulled.changes) else p.seen,
               report := Plus(p.report, applied.value)));
  }

  method Finish(vault: VaultService, p: Pulling, hasMore: bool, world: World, now: int) returns (o: Outcome)
    requires EnvOf(vault, world, now).Writable()
    modifies vault, vault.store
    ensures EnvOf(vault, world, now) == old(EnvOf(vault, world, now))
    ensures var s := Ended(old(vault.Tables()), p, hasMore); o == s.outcome && vault.Tables() == s.tables
  {
    if p.fromZero && !hasMore {
      var dropped := vault.DropItemsTheServerLacks(p.held, p.seen, now);
      o := Finished(p.report.(deleted := p.report.deleted + dropped.value.deleted), hasMore);
    } else {
      WithoutNothing(vault.Tables());
      assert {} * vault.store.items.Keys == {};
      o := Finished(p.report, hasMore);
    }
  }

  /** Apply the page, then go on or end. */
  method Forward(vault: VaultService, p: Pulling, pulled: PullAnswer, world: World, now: int) returns (o: Outcome)
    requires pulled.Pulled? && p.cursor <= pulled.next
    modifies vault, vault.store
    ensures EnvOf(vault, world, now) == old(EnvOf(vault, world, now))
    ensures var s := Answered(old(EnvOf(vault, world, now)), old(vault.Tables()), p, pulled);
            o == s.outcome && vault.Tables() == s.tables
  {
    ghost var (env, t) := (EnvOf(vault, world, now), vault.Tables());
    var applied := ApplyPage(vault, p, pulled, world, now);
    match applied {
      case Err(e) =>
        o := Failed(e);
      case Ok(q) =>
        if !pulled.hasMore || pulled.next <= p.cursor {
          o := Finish(vault, q, pulled.hasMore, world, now);
        } else {
          o := Continue(q.(requests := p.requests + 1));
        }
    }
    assert (o, vault.Tables()) == (Answered(env, t, p, pulled).outcome, Answered(env, t, p, pulled).tables);
  }

  method OneRequest(vault: VaultService, world: World, p: Pulling, now: int) returns (o: Outcome)
    modifies vault, vault.store
    ensures EnvOf(vault, world, now) == old(EnvOf(vault, world, now))
    ensures var s := OneStep(old(EnvOf(vault, world, now)), old(vault.Tables()), p);
            o == s.outcome && vault.Tables() == s.tables
  {
    var pulled := world.pull(p.requests, p.cursor);
    if pulled.NoAnswer? {
      return Failed(ServerFailed);
    }
    LandCommits(vault, world, now, world.commits(p.requests));
    if pulled.next < p.cursor {
      o := BackInTime(vault, p, pulled, world, now);
    } else {
      o := Forward(vault, p, pulled, world, now);
    }
  }

  // ---------------------------------------------------------------- the loop

  /** A whole loop: its place at the last request, how that ended, the replica
      then, what was dropped; and over all requests the restarts, the ids committed
      here, and by how many items those commits changed the replica. */
  datatype PullRun = PullRun(
    last: Pulling, outcome: Outcome, tables: Tables, dropped: set<ItemId>,
    resets: nat, committed: set<ItemId>, net: int)

  ghost function Pull(env: Env, t: Tables, p: Pulling): (run: PullRun)
    ensures !run.outcome.Continue?
    decreases if p.fromZero then 0 else 1, MAX_CURSOR - p.cursor
  {
    var s := OneStep(env, t, p);
    var landing := Landing(env.world, p);
    var (committed, net) := (Touched(landing), |Recorded(env, t, landing).items| - |t.items|);
    match s.outcome
    case Continue(q) =>
      var run := Pull(env, s.tables, q);
      run.(resets := run.resets + (if q.fromZero != p.fromZero then 1 else 0),
           committed := committed + run.committed, net := net + run.net)
    case _ => PullRun(p, s.outcome, s.tables, s.dropped, 0, committed, net)
  }

  /** Where a loop starts: from 0 it remembers what the replica holds. */
  ghost function StartOf(t: Tables): Pulling
    requires 0 <= t.cursor <= MAX_CURSOR
  {
    Pulling(t.cursor, t.cursor == 0, {}, if t.cursor == 0 then SortedIds(t.items.Keys) else [], NO_CHANGES, 0)
  }

  method Begin(vault: VaultService) returns (r: Result<Pulling, SyncError>)
    requires 0 <= vault.store.cursor <= MAX_CURSOR
    ensures r == if vault.store.linked then Ok(StartOf(vault.Tables())) else Err(VaultRefused(NotLinked))
  {
    var cursor: Cursor := if vault.store.linked then vault.store.cursor else 0;
    var held := [];
    if cursor == 0 {
      var ids := vault.ReplicaItemIds();
      if ids.Err? {
        return Err(VaultRefused(ids.error));
      }
      held := ids.value;
    }
    r := Ok(Pulling(cursor, cursor == 0, {}, held, NO_CHANGES, 0));
  }

  /** Pull until the replica has caught up: exactly the loop `Pull`. */
  method PullPages(vault: VaultService, world: World, now: int) returns (r: Result<Report, SyncError>)
    requires 0 <= vault.store.cursor <= MAX_CURSOR
    modifies vault, vault.store
    ensures EnvOf(vault, world, now) == old(EnvOf(vault, world, now))
    ensures !vault.store.linked ==> r == Err(VaultRefused(NotLinked)) && vault.Tables() == old(vault.Tables())
    ensures vault.store.linked ==>
              var run := old(Pull(EnvOf(vault, world, now), vault.Tables(), StartOf(vault.Tables())));
              && vault.Tables() == run.tables
              && r == if run.outcome.Finished? then Ok(run.outcome.report) else Err(run.outcome.error)
  {
    var begun := Begin(vault);
    if begun.Err? {
      return Err(begun.error);
    }
    var p := begun.value;
    ghost var env := EnvOf(vault, world, now);
    ghost var run := Pull(env, vault.Tables(), p);
    while true
      invariant EnvOf(vault, world, now) == env
      invariant SameEnd(run, Pull(env, vault.Tables(), p))
      decreases if p.fromZero then 0 else 1, MAX_CURSOR - p.cursor
    {
      var o := OneRequest(vault, world, p, now);
      match o
      case Continue(q) => p := q;
      case Finished(report, _) => return Ok(report);
      case Failed(error) => return Err(error);
    }
  }

  predicate SameEnd(a: PullRun, b: PullRun) {
    a.outcome == b.outcome && a.tables == b.tables
  }

  // ---------------------------------------------------------------- what the loop keeps, whatever is answered

  lemma {:induction false} PullRestartsAtMostOnce(env: Env, t: Tables, p: Pulling)
    ensures var run := Pull(env, t, p);
            && run.resets <= 1 && (run.last.fromZero <==> p.fromZero || run.resets == 1)
                && (p.fromZero ==> run.resets == 0)
            && (run.resets == 0 ==> run.last.held == p.held)
    decreases if p.fromZero then 0 else 1, MAX_CURSOR - p.cursor
  {
    var s := OneStep(env, t, p);
    if s.outcome.Continue? {
      PullRestartsAtMostOnce(env, s.tables, s.outcome.next);
    }
  }

  /** The ids in the answer to one request. */
  function MentionedAt(env: Env, p: Pulling): set<ItemId> {
    var pulled := env.world.pull(p.requests, p.cursor);
    if pulled.Pulled? then Named(pulled.changes) else {}
  }

  /** What an end drops: held from the start of a pull from 0 and never mentioned,
      when no more is to come; and it is gone. */
  ghost predicate DropsGhosts(o: Outcome, p: Pulling, mentioned: set<ItemId>, dropped: set<ItemId>, t: Tables) {
    && dropped == (if o.Finished? && p.fromZero && !o.moreAtEnd then AsSet(p.held) - p.seen - mentioned else {})
    && forall id <- dropped :: id !in t.items && id !in t.unreadable
  }

  lemma StepDrops(env: Env, t: Tables, p: Pulling)
    ensures var s := OneStep(env, t, p); DropsGhosts(s.outcome, p, MentionedAt(env, p), s.dropped, s.tables)
  {
  }

  /** Only ids remembered at the start of a pull from 0 are dropped, only when it
      ends well and no more is to come, and exactly those never mentioned since. */
  lemma {:induction false} PullDropsOnlyGhosts(env: Env, t: Tables, p: Pulling)
    ensures var run := Pull(env, t, p); DropsGhosts(run.outcome, run.last, MentionedAt(env, run.last), run.dropped,
                                                    run.tables)
    decreases if p.fromZero then 0 else 1, MAX_CURSOR - p.cursor
  {
    var s := OneStep(env, t, p);
    StepDrops(env, t, p);
    if s.outcome.Continue? {
      PullDropsOnlyGhosts(env, s.tables, s.outcome.next);
      assert Pull(env, t, p).dropped == Pull(env, s.tables, s.outcome.next).dropped;
    }
  }

  /** Every request is answered, and no answer lies behind the cursor asked from. */
  ghost predicate AnswersForward(world: World) {
    forall k: nat, since: Cursor :: world.pull(k, since).Pulled? && since <= world.pull(k, since).next
  }

  lemma {:induction false} PullSucceeds(env: Env, t: Tables, p: Pulling)
    requires AnswersForward(env.world) && env.Writable()
    ensures Pull(env, t, p).outcome.Finished?
    decreases if p.fromZero then 0 else 1, MAX_CURSOR - p.cursor
  {
    var s := OneStep(env, t, p);
    assert env.world.pull(p.requests, p.cursor).Pulled?;
    if s.outcome.Continue? {
      PullSucceeds(env, s.tables, s.outcome.next);
    }
  }

  function LastAnswer(env: Env, run: PullRun): PullAnswer {
    env.world.pull(run.last.requests, run.last.cursor)
  }

  /** How a loop ends is told by the answer to its last request: well exactly if that lies
      at or past the cursor asked from and the vault takes it, with nothing more to come or
      no way forward; otherwise for want of an answer, of a vault that takes it, or because
      it lies behind once more. Whatever ended it, no request before it could have. */
  lemma {:induction false} PullEndsExactly(env: Env, t: Tables, p: Pulling)
    ensures var run := Pull(env, t, p);
            var a := LastAnswer(env, run);
            match run.outcome
            case Finished(_, more) =>
              && a.Pulled? && env.linked && env.unlocked && more == a.hasMore
              && if a.hasMore then a.next == run.last.cursor else run.last.cursor <= a.next
            case Failed(ServerFailed) => a.NoAnswer?
            case Failed(WentBackwardsAgain) => a.Pulled? && a.next < run.last.cursor && run.last.fromZero
            case Failed(VaultRefused(e)) =>
              && a.Pulled? && e == (if env.linked then VaultLocked else NotLinked)
              && if a.next < run.last.cursor then !run.last.fromZero && !env.linked else !(env.linked && env.unlocked)
            case Continue(_) => false
    decreases if p.fromZero then 0 else 1, MAX_CURSOR - p.cursor
  {
    var s := OneStep(env, t, p);
    if s.outcome.Continue? {
      PullEndsExactly(env, s.tables, s.outcome.next);
    }
  }

  // ---------------------------------------------------------------- the report

  /** The number of stored items changed by what the report added since `given`
      and deleted, and by the commits that landed. */
  ghost predicate Balanced(given: Report, t: Tables, report: Report, u: Tables, net: int) {
    ListsMatch(u) && |u.items| == |t.items| + (report.added - given.added) - (report.deleted - given.deleted) + net
  }

  lemma WithoutCount(t: Tables, gone: set<ItemId>)
    ensures |Without(t, gone).items| == |t.items| - |gone * t.items.Keys|
  {
    CountAfter(t.items.Keys, {}, gone);
    assert Without(t, gone).items.Keys == (t.items.Keys + {}) - gone;
    assert {} - t.items.Keys == {};
  }

  lemma EndedBalances(t: Tables, p: Pulling, hasMore: bool)
    requires ListsMatch(t)
    ensures var s := Ended(t, p, hasMore); Balanced(p.report, t, s.outcome.report, s.tables, 0)
  {
    var s := Ended(t, p, hasMore);
    WithoutListed(t, s.dropped);
    WithoutCount(t, s.dropped);
  }

  lemma LandedBalances(env: Env, t: Tables, p: Pulling, pulled: PullAnswer)
    requires ListsMatch(t) && pulled.Pulled?
    ensures Balanced(p.report, t, AfterPage(env, t, p, pulled).report,
                     Landed(env.cipher, t, PageOf(p.cursor, pulled), env.now), 0)
  {
    ItemCountFollowsReport(env.cipher, t, LastChanges(pulled.changes), Some((pulled.next as int, env.now)));
    AppliedKeepsLists(env.cipher, t, LastChanges(pulled.changes), Some((pulled.next as int, env.now)));
  }

  lemma BalancedOn(given: Report, t: Tables, r: Report, u: Tables, report: Report, v: Tables)
    requires Balanced(given, t, r, u, 0) && Balanced(r, u, report, v, 0)
    ensures Balanced(given, t, report, v, 0)
  {
  }

  /** The page lands, and if it was the last one the pull ends. */
  lemma ForwardBalances(env: Env, t: Tables, p: Pulling, pulled: PullAnswer, u: Tables, q: Pulling)
    requires ListsMatch(t) && pulled.Pulled?
    requires u == Landed(env.cipher, t, PageOf(p.cursor, pulled), env.now) && q == AfterPage(env, t, p, pulled)
    ensures Balanced(p.report, t, q.report, u, 0)
    ensures var e := Ended(u, q, pulled.hasMore); Balanced(p.report, t, e.outcome.report, e.tables, 0)
  {
    var e := Ended(u, q, pulled.hasMore);
    LandedBalances(env, t, p, pulled);
    EndedBalances(u, q, pulled.hasMore);
    BalancedOn(p.report, t, q.report, u, e.outcome.report, e.tables);
  }

  lemma AnsweredBalances(env: Env, t: Tables, p: Pulling, pulled: PullAnswer)
    requires ListsMatch(t) && pulled.Pulled?
    ensures var s := Answered(env, t, p, pulled);
            && (s.outcome.Continue? ==> Balanced(p.report, t, s.outcome.next.report, s.tables, 0))
            && (s.outcome.Finished? ==> Balanced(p.report, t, s.outcome.report, s.tables, 0))
  {
    if p.cursor <= pulled.next {
      if env.Writable() {
        var (u, q) := (Landed(env.cipher, t, PageOf(p.cursor, pulled), env.now), AfterPage(env, t, p, pulled));
        var s := Answered(env, t, p, pulled);
        ForwardBalances(env, t, p, pulled, u, q);
        if pulled.hasMore && p.cursor < pulled.next {
          assert s.outcome.Continue? && s.outcome.next.report == q.report && s.tables == u;
        } else {
          assert s == Ended(u, q, pulled.hasMore);
        }
      }
    } else {
      assert ListsMatch(Emptied(env, t));
    }
  }

  lemma StepBalances(env: Env, t: Tables, p: Pulling)
    requires ListsMatch(t)
    ensures var (s, net) := (OneStep(env, t, p), |Recorded(env, t, Landing(env.world, p)).items| - |t.items|);
            && (s.outcome.Continue? ==> Balanced(p.report, t, s.outcome.next.report, s.tables, net))
            && (s.outcome.Finished? ==> Balanced(p.report, t, s.outcome.report, s.tables, net))
  {
    var pulled := env.world.pull(p.requests, p.cursor);
    RecordedKeepsLists(env, t, Landing(env.world, p));
    if pulled.Pulled? {
      AnsweredBalances(env, Recorded(env, t, Landing(env.world, p)), p, pulled);
    }
  }

  /** The final report accounts for every item that came or went, beside the
      commits made here meanwhile; a restart loses nothing of it. */
  lemma {:induction false} PullBalances(env: Env, t: Tables, p: Pulling)
    requires ListsMatch(t)
    ensures var run := Pull(env, t, p);
            run.outcome.Finished? ==> Balanced(p.report, t, run.outcome.report, run.tables, run.net)
    decreases if p.fromZero then 0 else 1, MAX_CURSOR - p.cursor
  {
    var s := OneStep(env, t, p);
    StepBalances(env, t, p);
    if s.outcome.Continue? {
      PullBalances(env, s.tables, s.outcome.next);
    }
  }

  /** What the page of one request did; nothing if it did not land. */
  function PageCount(env: Env, t: Tables, p: Pulling, a: PullAnswer): Report {
    if a.Pulled? && p.cursor <= a.next && env.Writable() then Counted(env.cipher, t, LastChanges(a.changes))
    else NO_CHANGES
  }

  /** The same of the whole loop, page by page. */
  ghost function PageCounts(env: Env, t: Tables, p: Pulling): seq<Report>
    decreases if p.fromZero then 0 else 1, MAX_CURSOR - p.cursor
  {
    var s := OneStep(env, t, p);
    var count := PageCount(env, Recorded(env, t, Landing(env.world, p)), p, env.world.pull(p.requests, p.cursor));
    [count] + if s.outcome.Continue? then PageCounts(env, s.tables, s.outcome.next) else []
  }

  function Total(counts: seq<Report>): Report {
    if counts == [] then NO_CHANGES
    else
      var (c, rest) := (counts[0], Total(counts[1..]));
      Report(c.added + rest.added, c.updated + rest.updated, c.deleted + rest.deleted, c.skipped + rest.skipped)
  }

  /** `report` is `given` with the count added to it, the deletions left out. */
  predicate Adds(given: Report, count: Report, report: Report) {
    && report.added == given.added + count.added && report.updated == given.updated + count.updated
    && report.skipped == given.skipped + count.skipped
  }

  lemma TotalOn(count: Report, rest: seq<Report>)
    ensures var (all, total) := (Total([count] + rest), Total(rest));
            && Adds(total, count, all) && all.deleted == count.deleted + total.deleted
  {
    assert ([count] + rest)[1..] == rest;
  }

  lemma AnswerAddsUp(env: Env, t: Tables, p: Pulling, a: PullAnswer)
    requires a.Pulled?
    ensures var (s, count) := (Answered(env, t, p, a), PageCount(env, t, p, a));
            && (s.outcome.Continue? ==> Adds(p.report, count, s.outcome.next.report))
            && (s.outcome.Finished? ==> Adds(p.report, count, s.outcome.report))
  {
  }

  /** The final report is the sum of what the pages did, a restart included. */
  lemma {:induction false} PullReportIsTheSum(env: Env, t: Tables, p: Pulling)
    ensures var run := Pull(env, t, p);
            run.outcome.Finished? ==> Adds(p.report, Total(PageCounts(env, t, p)), run.outcome.report)
    decreases if p.fromZero then 0 else 1, MAX_CURSOR - p.cursor
  {
    var (s, a, u) := (OneStep(env, t, p), env.world.pull(p.requests, p.cursor),
                      Recorded(env, t, Landing(env.world, p)));
    if a.Pulled? {
      AnswerAddsUp(env, u, p, a);
      if s.outcome.Continue? {
        PullReportIsTheSum(env, s.tables, s.outcome.next);
        TotalOn(PageCount(env, u, p, a), PageCounts(env, s.tables, s.outcome.next));
      } else {
        TotalOn(PageCount(env, u, p, a), []);
      }
    }
  }

  // ---------------------------------------------------------------- against an honest server

  /** The loop's place against the server `s`. `based` says the replica agreed
      with the server when the loop started. */
  ghost predicate Tracks(cipher: Cipher, s: Server, t: Tables, p: Pulling, cursor: int, committed: set<ItemId>,
                         based: bool)
  {
    && (p.fromZero || based ==> Settled(cipher, s, t, cursor, committed))
    && (p.fromZero ==> SawAll(s, cursor, p.seen))
    && (p.fromZero ==> forall id <- t.items :: id in p.held || id in p.seen || id in committed)
  }

  /** The loop's place against the honest server as it is at the next request. */
  ghost predicate OnTrack(env: Env, history: nat -> Reads, t: Tables, p: Pulling, committed: set<ItemId>, based: bool) {
    && Tracks(env.cipher, history(p.requests).before, t, p, p.cursor, committed, based)
    && (p.fromZero || p.requests > 0 ==> p.cursor <= history(p.requests).before.revision)
    && (based ==> InReach(history(p.requests), p.cursor))
  }

  /** The server is not behind the cursor, unless it is read at once. */
  predicate InReach(r: Reads, cursor: int) {
    cursor <= r.before.revision || r.before == r.after
  }

  /** What a pull that ended well against an honest server leaves behind. `p` is its
      place at the last request and `page` the answer to it. Every row that was not
      written between the two reads of that request agrees, and so, if the answer
      does not skip any, does every row up to the stored cursor. A pull from 0 has
      dropped what the server lacks, and of what it has, only items written between
      those two reads. */
  ghost predicate CaughtUp(cipher: Cipher, r: Reads, t: Tables, p: Pulling, page: Page, moreAtEnd: bool,
                           dropped: set<ItemId>, committed: set<ItemId>)
  {
    && !moreAtEnd && t.cursor == page.next
    && (forall id <- r.after.rows :: r.after.rows[id].revision <= r.before.revision && id !in committed ==>
          AgreesOn(cipher, r.after, t, id))
    && (!SkipsRows(r, page) ==> Settled(cipher, r.after, t, t.cursor, committed))
    && (p.fromZero ==>
          && (forall id <- t.items :: id in r.after.rows || id in committed)
          && (forall id <- dropped :: id in r.after.rows ==> r.before.revision < r.after.rows[id].revision)
          && (forall id <- p.held :: id !in r.after.rows ==> id !in t.items && id !in t.unreadable))
  }

  lemma HonestAt(world: World, history: nat -> Reads, k: nat, since: Cursor)
    requires HonestWorld(world, history)
    ensures var (r, next) := (history(k), history(k + 1).before);
            && ServerOk(r.before) && ServerOk(r.after) && ServerOk(next) && Evolves(r.before, r.after)
                && Evolves(r.after, next)
            && (world.pull(k, since).Pulled? ==> Served(r, PageOf(since, world.pull(k, since))))
  {
  }

  lemma CommitsKeepTrack(cipher: Cipher, s: Server, t: Tables, u: Tables, p: Pulling, committed: set<ItemId>,
                         based: bool, ids: set<ItemId>)
    requires Tracks(cipher, s, t, p, p.cursor, committed, based) && SameBut(t, u, ids)
    ensures Tracks(cipher, s, u, p, p.cursor, committed + ids, based)
  {
    if p.fromZero || based {
      SettledBut(cipher, s, t, u, p.cursor, committed, ids);
    }
  }

  lemma LaterKeepsTrack(cipher: Cipher, s: Server, later: Server, t: Tables, p: Pulling, cursor: int,
                        committed: set<ItemId>, based: bool)
    requires ServerOk(s) && Evolves(s, later) && Tracks(cipher, s, t, p, cursor, committed, based)
    requires p.fromZero || based ==> cursor <= s.revision || later == s
    ensures Tracks(cipher, later, t, p, cursor, committed, based)
  {
    if later != s {
      if p.fromZero || based {
        SettledLater(cipher, s, later, t, cursor, committed);
      }
      if p.fromZero {
        SawLater(s, later, cursor, p.seen);
      }
    }
  }

  /** At cursor 0 there is nothing to agree on yet. */
  lemma TracksFromZero(cipher: Cipher, s: Server, t: Tables, p: Pulling, committed: set<ItemId>, based: bool)
    requires ServerOk(s) && p.cursor == 0 && p.fromZero && p.seen == {} && AsSet(p.held) == t.items.Keys
    ensures Tracks(cipher, s, t, p, 0, committed, based)
  {
  }

  lemma PageKeepsTrack(env: Env, r: Reads, t: Tables, p: Pulling, pulled: PullAnswer, committed: set<ItemId>,
                       based: bool)
    requires pulled.Pulled? && p.cursor <= pulled.next && ServerOk(r.before) && Evolves(r.before, r.after)
    requires Served(r, PageOf(p.cursor, pulled)) && Tracks(env.cipher, r.after, t, p, p.cursor, committed, based)
    ensures var page := PageOf(p.cursor, pulled);
            Tracks(env.cipher, r.after, Landed(env.cipher, t, page, env.now), AfterPage(env, t, p, pulled),
                   Reached(r, page), committed, based)
  {
    var page := PageOf(p.cursor, pulled);
    if p.fromZero || based {
      ReachedLanded(env.cipher, r, t, page, env.now, committed);
    }
    if p.fromZero {
      ReachedSeen(r, page, p.seen);
      var last := LastChanges(pulled.changes);
      forall id | id in last ensures id in AfterPage(env, t, p, pulled).seen {
        assert last[id] in pulled.changes;
      }
    }
  }

  lemma EndedCatchesUp(cipher: Cipher, r: Reads, t: Tables, p: Pulling, q: Pulling, page: Page, committed: set<ItemId>,
                       based: bool)
    requires Tracks(cipher, r.after, t, q, Reached(r, page), committed, based) && (q.fromZero || based)
    requires q.fromZero == p.fromZero && q.held == p.held && t.cursor == page.next
    requires forall id <- r.after.rows :: r.after.rows[id].revision <= r.before.revision ==>
             r.after.rows[id].revision <= Reached(r, page)
    ensures var e := Ended(t, q, false); CaughtUp(cipher, r, e.tables, p, page, false, e.dropped, committed)
  {
    var e := Ended(t, q, false);
    forall id | id in r.after.rows && r.after.rows[id].revision <= Reached(r, page) && id !in committed
      ensures AgreesOn(cipher, r.after, e.tables, id)
    {
      assert AgreesOn(cipher, r.after, t, id) && (q.fromZero ==> id in q.seen);
      WithoutOthers(cipher, r.after, t, e.dropped, id);
    }
  }

  /** An answer of an honest server, once the commits that came meanwhile are
      recorded, keeps the loop on track or ends it well. */
  ghost predicate WellAnswered(env: Env, history: nat -> Reads, p: Pulling, pulled: PullAnswer, s: Stepped,
                               more: set<ItemId>, based: bool)
    requires pulled.Pulled?
  {
    && s.outcome != Failed(WentBackwardsAgain)
    && (s.outcome.Continue? ==> OnTrack(env, history, s.tables, s.outcome.next, more, based))
    && (s.outcome.Finished? && (p.fromZero || based) ==>
          CaughtUp(env.cipher, history(p.requests), s.tables, p, PageOf(p.cursor, pulled), s.outcome.moreAtEnd,
                   s.dropped, more))
  }

  lemma RestartIsWell(env: Env, history: nat -> Reads, t: Tables, p: Pulling, pulled: PullAnswer, more: set<ItemId>,
                      based: bool)
    requires pulled.Pulled? && pulled.next < p.cursor && !p.fromZero && ServerOk(history(p.requests + 1).before)
    ensures WellAnswered(env, history, p, pulled, Answered(env, t, p, pulled), more, based)
  {
    if env.linked {
      var q := Pulling(0, true, {}, SortedIds(t.items.Keys), p.report, p.requests + 1);
      TracksFromZero(env.cipher, history(p.requests + 1).before, Emptied(env, t), q, more, based);
    }
  }

  /** What is known of one request to an honest server, the commits recorded. */
  ghost predicate InRequest(env: Env, history: nat -> Reads, t: Tables, p: Pulling, pulled: PullAnswer,
                            more: set<ItemId>, based: bool)
  {
    var (r, next) := (history(p.requests), history(p.requests + 1).before);
    && pulled.Pulled? && p.cursor <= pulled.next
    && ServerOk(r.before) && ServerOk(r.after) && Evolves(r.before, r.after) && Evolves(r.after, next)
    && Served(r, PageOf(p.cursor, pulled))
    && Tracks(env.cipher, r.after, t, p, p.cursor, more, based)
  }

  lemma NextOnTrack(env: Env, history: nat -> Reads, s: Server, t: Tables, p: Pulling, k: nat, committed: set<ItemId>,
                    based: bool)
    requires ServerOk(s) && Evolves(s, history(k).before) && p.cursor <= s.revision
    requires Tracks(env.cipher, s, t, p, p.cursor, committed, based)
    ensures OnTrack(env, history, t, p.(requests := k), committed, based)
  {
    var q := p.(requests := k);
    assert Tracks(env.cipher, s, t, q, q.cursor, committed, based);
    LaterKeepsTrack(env.cipher, s, history(k).before, t, q, q.cursor, committed, based);
  }

  lemma MoreToCome(env: Env, r: Reads, t: Tables, p: Pulling, pulled: PullAnswer, u: Tables, q: Pulling,
                   more: set<ItemId>, based: bool)
    requires pulled.Pulled? && p.cursor <= pulled.next && ServerOk(r.before) && Evolves(r.before, r.after)
    requires Served(r, PageOf(p.cursor, pulled)) && Tracks(env.cipher, r.after, t, p, p.cursor, more, based)
    requires pulled.hasMore
    requires u == Landed(env.cipher, t, PageOf(p.cursor, pulled), env.now) && q == AfterPage(env, t, p, pulled)
    ensures q.requests == p.requests && q.cursor <= r.after.revision
    ensures Tracks(env.cipher, r.after, u, q, q.cursor, more, based)
  {
    var page := PageOf(p.cursor, pulled);
    ServedHolds(r, page);
    assert Reached(r, page) == pulled.next;
    PageKeepsTrack(env, r, t, p, pulled, more, based);
  }

  lemma PageGoesOn(env: Env, history: nat -> Reads, t: Tables, p: Pulling, pulled: PullAnswer, u: Tables, q: Pulling,
                   more: set<ItemId>, based: bool)
    requires InRequest(env, history, t, p, pulled, more, based) && pulled.hasMore
    requires u == Landed(env.cipher, t, PageOf(p.cursor, pulled), env.now) && q == AfterPage(env, t, p, pulled)
    ensures OnTrack(env, history, u, q.(requests := p.requests + 1), more, based)
  {
    var r := history(p.requests);
    MoreToCome(env, r, t, p, pulled, u, q, more, based);
    NextOnTrack(env, history, r.after, u, q, p.requests + 1, more, based);
  }

  lemma PageEnds(env: Env, history: nat -> Reads, t: Tables, p: Pulling, pulled: PullAnswer, more: set<ItemId>,
                 based: bool)
    requires InRequest(env, history, t, p, pulled, more, based) && (p.fromZero || based)
    requires !(pulled.hasMore && p.cursor < pulled.next)
    ensures !pulled.hasMore
    ensures var page := PageOf(p.cursor, pulled);
            var e := Ended(Landed(env.cipher, t, page, env.now), AfterPage(env, t, p, pulled), false);
            CaughtUp(env.cipher, history(p.requests), e.tables, p, page, false, e.dropped, more)
  {
    var (page, r) := (PageOf(p.cursor, pulled), history(p.requests));
    PageKeepsTrack(env, r, t, p, pulled, more, based);
    ServedHolds(r, page);
    EndedCatchesUp(env.cipher, r, Landed(env.cipher, t, page, env.now), p, AfterPage(env, t, p, pulled), page, more,
                   based);
  }

  lemma GoingOnIsWell(env: Env, history: nat -> Reads, t: Tables, p: Pulling, pulled: PullAnswer, more: set<ItemId>,
                      based: bool)
    requires InRequest(env, history, t, p, pulled, more, based) && env.Writable() && pulled.hasMore
             && p.cursor < pulled.next
    ensures WellAnswered(env, history, p, pulled, Answered(env, t, p, pulled), more, based)
  {
    var (u, q) := (Landed(env.cipher, t, PageOf(p.cursor, pulled), env.now), AfterPage(env, t, p, pulled));
    var s := Answered(env, t, p, pulled);
    assert s.outcome == Continue(q.(requests := p.requests + 1)) && s.tables == u;
    PageGoesOn(env, history, t, p, pulled, u, q, more, based);
  }

  lemma EndingIsWell(env: Env, history: nat -> Reads, t: Tables, p: Pulling, pulled: PullAnswer, more: set<ItemId>,
                     based: bool)
    requires InRequest(env, history, t, p, pulled, more, based) && env.Writable()
             && !(pulled.hasMore && p.cursor < pulled.next)
    ensures WellAnswered(env, history, p, pulled, Answered(env, t, p, pulled), more, based)
  {
    var (u, q) := (Landed(env.cipher, t, PageOf(p.cursor, pulled), env.now), AfterPage(env, t, p, pulled));
    var s := Answered(env, t, p, pulled);
    assert s == Ended(u, q, pulled.hasMore) && s.outcome.Finished? && s.outcome.moreAtEnd == pulled.hasMore;
    if p.fromZero || based {
      PageEnds(env, history, t, p, pulled, more, based);
    }
  }

  lemma PageIsWell(env: Env, history: nat -> Reads, t: Tables, p: Pulling, pulled: PullAnswer, more: set<ItemId>,
                   based: bool)
    requires InRequest(env, history, t, p, pulled, more, based) && env.Writable()
    ensures WellAnswered(env, history, p, pulled, Answered(env, t, p, pulled), more, based)
  {
    if pulled.hasMore && p.cursor < pulled.next {
      GoingOnIsWell(env, history, t, p, pulled, more, based);
    } else {
      EndingIsWell(env, history, t, p, pulled, more, based);
    }
  }

  /** An answer behind the cursor never comes to a pull from 0. */
  lemma NeverBehindFromZero(env: Env, history: nat -> Reads, p: Pulling, pulled: PullAnswer)
    requires HonestWorld(env.world, history) && p.fromZero && p.cursor <= history(p.requests).before.revision
    requires pulled == env.world.pull(p.requests, p.cursor) && pulled.Pulled?
    ensures p.cursor <= pulled.next
  {
    HonestAt(env.world, history, p.requests, p.cursor);
  }

  /** One request to an honest server keeps the loop on track, or ends it well. */
  lemma {:induction false} StepStaysOnTrack(env: Env, history: nat -> Reads, t: Tables, p: Pulling,
                                            committed: set<ItemId>, based: bool)
    requires HonestWorld(env.world, history) && OnTrack(env, history, t, p, committed, based)
    ensures var pulled := env.world.pull(p.requests, p.cursor);
            if pulled.Pulled? then
              WellAnswered(env, history, p, pulled, OneStep(env, t, p), committed + Touched(Landing(env.world, p)),
                           based)
            else OneStep(env, t, p).outcome == Failed(ServerFailed)
  {
    var pulled := env.world.pull(p.requests, p.cursor);
    if pulled.Pulled? {
      var (landing, r) := (Landing(env.world, p), history(p.requests));
      var (u, more) := (Recorded(env, t, landing), committed + Touched(landing));
      HonestAt(env.world, history, p.requests, p.cursor);
      RecordedTouches(env, t, landing);
      CommitsKeepTrack(env.cipher, r.before, t, u, p, committed, based, Touched(landing));
      LaterKeepsTrack(env.cipher, r.before, r.after, u, p, p.cursor, more, based);
      if pulled.next < p.cursor {
        if p.fromZero {
          NeverBehindFromZero(env, history, p, pulled);
          assert false;
        }
        RestartIsWell(env, history, u, p, pulled, more, based);
      } else if env.Writable() {
        PageIsWell(env, history, u, p, pulled, more, based);
      }
    }
  }

  lemma {:induction false} PullStaysOnTrack(env: Env, history: nat -> Reads, t: Tables, p: Pulling,
                                            committed: set<ItemId>, based: bool)
    requires HonestWorld(env.world, history) && OnTrack(env, history, t, p, committed, based)
    ensures var run := Pull(env, t, p);
            && run.outcome != Failed(WentBackwardsAgain)
            && (run.outcome.Finished? ==> LastAnswer(env, run).Pulled?)
            && (run.outcome.Finished? && (run.last.fromZero || based) ==>
                  CaughtUp(env.cipher, history(run.last.requests), run.tables, run.last, LastPage(env, run),
                           run.outcome.moreAtEnd,
                           run.dropped, committed + run.committed))
    decreases if p.fromZero then 0 else 1, MAX_CURSOR - p.cursor
  {
    var s := OneStep(env, t, p);
    var more := committed + Touched(Landing(env.world, p));
    StepStaysOnTrack(env, history, t, p, committed, based);
    if s.outcome.Continue? {
      PullStaysOnTrack(env, history, s.tables, s.outcome.next, more, based);
      assert more + Pull(env, s.tables, s.outcome.next).committed == committed + Pull(env, t, p).committed;
    }
  }

  function LastPage(env: Env, run: PullRun): Page
    requires LastAnswer(env, run).Pulled?
  {
    PageOf(run.last.cursor, LastAnswer(env, run))
  }

  /** Against an honest server, changing as it likes, the loop is never refused for
      going backwards; and when it ends, from 0 or from a replica that agreed, it has
      caught up with the server as it was at the first of its last two reads. */
  lemma {:induction false} PullCatchesUp(env: Env, history: nat -> Reads, t: Tables)
    requires HonestWorld(env.world, history) && 0 <= t.cursor <= MAX_CURSOR
    ensures var run := Pull(env, t, StartOf(t));
            && run.outcome != Failed(WentBackwardsAgain)
            && (run.outcome.Finished? ==> LastAnswer(env, run).Pulled?)
            && (run.outcome.Finished?
                && (run.last.fromZero || (Agrees(env.cipher, history(0).before, t)
                                          && InReach(history(0), t.cursor))) ==>
                  CaughtUp(env.cipher, history(run.last.requests), run.tables, run.last, LastPage(env, run),
                           run.outcome.moreAtEnd,
                           run.dropped, run.committed))
  {
    var based := Agrees(env.cipher, history(0).before, t) && InReach(history(0), t.cursor);
    PullStaysOnTrack(env, history, t, StartOf(t), {}, based);
    assert {} + Pull(env, t, StartOf(t)).committed == Pull(env, t, StartOf(t)).committed;
  }

  /** The ghost drop takes nothing the server has exactly when no item held at the
      start and never mentioned was written between the last two reads. */
  lemma {:induction false} DropTakesOnlyGhostsExactly(env: Env, history: nat -> Reads, t: Tables)
    requires HonestWorld(env.world, history) && 0 <= t.cursor <= MAX_CURSOR
    requires var run := Pull(env, t, StartOf(t)); run.outcome.Finished? && run.last.fromZero && !run.outcome.moreAtEnd
    ensures var run := Pull(env, t, StartOf(t));
            var r := history(run.last.requests);
            run.dropped !! r.after.rows.Keys <==>
            forall id <- run.last.held :: id in r.after.rows && r.before.revision < r.after.rows[id].revision ==>
              id in run.last.seen + MentionedAt(env, run.last)
  {
    PullCatchesUp(env, history, t);
    PullDropsOnlyGhosts(env, t, StartOf(t));
    var run := Pull(env, t, StartOf(t));
    var r := history(run.last.requests);
    if id :| id in run.dropped && id in r.after.rows {
      assert id in run.last.held && r.before.revision < r.after.rows[id].revision;
    }
    if id :| id in run.last.held && id in r.after.rows && r.before.revision < r.after.rows[id].revision
             && id !in run.last.seen + MentionedAt(env, run.last) {
      assert id in AsSet(run.last.held) && id in run.dropped;
    }
  }

  // ---------------------------------------------------------------- a live row dropped

  // An item is edited between the two reads of a first pull: the page ends below its
  // new revision and does not mention it.

  const EDITED_BEFORE := ServerState(1, map[7 := Row(1, Some(([], [])))])
  const EDITED_AFTER := ServerState(2, map[7 := Row(2, Some(([], [])))])

  lemma EditBetweenReads()
    ensures ServerStep(EDITED_BEFORE, EDITED_AFTER) && PulledPage(EDITED_BEFORE, EDITED_AFTER, 0, Page(0, 1, false, []))
    ensures PageFits(EDITED_AFTER, Page(0, 1, false, []))
  {
    var batch := [Change(7, Some(1), Some(([], [])))];
    assert batch[..0] == [] && Stamped(batch, 2) == map[7 := Row(2, Some(([], [])))];
    assert Accepted(EDITED_BEFORE, batch) && Written(EDITED_BEFORE, batch) == EDITED_AFTER;
    assert 7 in EDITED_BEFORE.rows && Newer(EDITED_BEFORE, 0) && !Newer(EDITED_BEFORE, 1);
  }

  /** From 0, an answer that names nothing and ends the pull drops all that was held. */
  lemma EmptyAnswerDropsAll(env: Env, t: Tables, p: Pulling, next: Cursor)
    requires env.Writable() && p.fromZero && p.seen == {} && AsSet(p.held) == t.items.Keys && p.cursor <= next
    ensures var s := Answered(env, t, p, Pulled(next, false, []));
            && s.outcome.Finished? && !s.outcome.moreAtEnd && s.dropped == t.items.Keys
            && s.tables == Without(Landed(env.cipher, t, Page(p.cursor, next, false, []), env.now), s.dropped)
  {
    var (u, q) := (Landed(env.cipher, t, Page(p.cursor, next, false, []), env.now),
                   AfterPage(env, t, p, Pulled(next, false, [])));
    SawNothing(q.held, q.seen, t.items.Keys);
    LastPageEnds(env, t, p, Pulled(next, false, []), u, q);
    EndedDropsAll(u, q, t.items.Keys);
  }

  lemma SawNothing(held: seq<ItemId>, seen: set<ItemId>, items: set<ItemId>)
    requires AsSet(held) == items && seen == {} + Named([])
    ensures AsSet(held) - seen == items
  {
  }

  lemma LastPageEnds(env: Env, t: Tables, p: Pulling, pulled: PullAnswer, u: Tables, q: Pulling)
    requires env.Writable() && pulled.Pulled? && p.cursor <= pulled.next && !pulled.hasMore
    requires u == Landed(env.cipher, t, PageOf(p.cursor, pulled), env.now) && q == AfterPage(env, t, p, pulled)
    ensures Answered(env, t, p, pulled) == Ended(u, q, false)
  {
  }

  lemma EndedDropsAll(t: Tables, q: Pulling, held: set<ItemId>)
    requires q.fromZero && AsSet(q.held) - q.seen == held
    ensures var s := Ended(t, q, false);
            s.outcome.Finished? && !s.outcome.moreAtEnd && s.dropped == held && s.tables == Without(t, held)
  {
  }

  lemma EmptyAnswerEndsPull(env: Env, t: Tables, p: Pulling, next: Cursor)
    requires env.Writable() && p.fromZero && p.seen == {} && AsSet(p.held) == t.items.Keys && p.cursor <= next
    requires env.world.pull(p.requests, p.cursor) == Pulled(next, false, []) && env.world.commits(p.requests) == []
    ensures var run := Pull(env, t, p);
            && run.outcome.Finished? && !run.outcome.moreAtEnd && run.dropped == t.items.Keys
            && run.tables == Without(Landed(env.cipher, t, Page(p.cursor, next, false, []), env.now), run.dropped)
  {
    assert Landing(env.world, p) == [] && Recorded(env, t, []) == t;
    var s := Answered(env, t, p, Pulled(next, false, []));
    assert OneStep(env, t, p) == s;
    EmptyAnswerDropsAll(env, t, p, next);
  }

  lemma ItemIsGone(cipher: Cipher, t: Tables, now: int, gone: set<ItemId>)
    requires 7 in gone
    ensures var u := Without(Landed(cipher, t, Page(0, 1, false, []), now), gone);
            && 7 !in u.items && 7 !in u.unreadable
            && u.cursor < EDITED_AFTER.rows[7].revision && Agrees(cipher, EDITED_AFTER, u)
  {
  }

  lemma HeldFromZero(t: Tables)
    requires t.cursor == 0
    ensures var p := StartOf(t);
            && p.fromZero && p.seen == {} && p.requests == 0 && p.cursor == 0
            && AsSet(p.held) == t.items.Keys
  {
  }

  /** The page keeps its promise, and yet a replica at cursor 0 that holds the item
      ends the pull without it, though it is live on the server at both reads. The
      stored cursor stays below the item, so agreement holds and the next pull is
      owed its row. */
  lemma {:induction false} DropCanTakeALiveItem(env: Env, t: Tables)
    requires env.Writable() && t.cursor == 0 && 7 in t.items
    requires env.world.pull(0, 0) == Pulled(1, false, []) && env.world.commits(0) == []
    ensures ServerStep(EDITED_BEFORE, EDITED_AFTER) && PulledPage(EDITED_BEFORE, EDITED_AFTER, 0, Page(0, 1, false, []))
    ensures PageFits(EDITED_AFTER, Page(0, 1, false, []))
    ensures var run := Pull(env, t, StartOf(t));
            && run.outcome.Finished? && !run.outcome.moreAtEnd && 7 in run.dropped
            && 7 !in run.tables.items && 7 !in run.tables.unreadable
            && run.tables.cursor < EDITED_AFTER.rows[7].revision && Agrees(env.cipher, EDITED_AFTER, run.tables)
  {
    EditBetweenReads();
    HeldFromZero(t);
    EmptyAnswerEndsPull(env, t, StartOf(t), 1);
    ItemIsGone(env.cipher, t, env.now, t.items.Keys);
  }

  /** What was committed here while requests `from` to `to` were in flight. */
  function CommittedDuring(world: World, from: nat, to: nat): set<ItemId>
    decreases to - from
  {
    Touched(world.commits(from)) + if from < to then CommittedDuring(world, from + 1, to) else {}
  }

  lemma {:induction false} CommittedAre(env: Env, t: Tables, p: Pulling)
    ensures var run := Pull(env, t, p);
            run.outcome.Finished? ==> run.committed == CommittedDuring(env.world, p.requests, run.last.requests)
    decreases if p.fromZero then 0 else 1, MAX_CURSOR - p.cursor
  {
    var s := OneStep(env, t, p);
    var run := Pull(env, t, p);
    if run.outcome.Finished? {
      assert Landing(env.world, p) == env.world.commits(p.requests);
      if s.outcome.Continue? {
        var rest := Pull(env, s.tables, s.outcome.next);
        var next := p.requests + 1;
        RequestsGoOn(env, s.tables, s.outcome.next);
        CommittedAre(env, s.tables, s.outcome.next);
        assert s.outcome.next.requests == next && rest.last == run.last && rest.outcome.Finished?;
        assert rest.committed == CommittedDuring(env.world, next, run.last.requests);
        assert next <= run.last.requests;
        OneMoreDuring(env.world, p.requests, next, run.last.requests, rest.committed);
      } else {
        assert run.last == p && run.committed == Touched(env.world.commits(p.requests));
      }
    }
  }

  lemma {:induction false} RequestsGoOn(env: Env, t: Tables, p: Pulling)
    ensures p.requests <= Pull(env, t, p).last.requests
    decreases if p.fromZero then 0 else 1, MAX_CURSOR - p.cursor
  {
    var s := OneStep(env, t, p);
    if s.outcome.Continue? {
      RequestsGoOn(env, s.tables, s.outcome.next);
    }
  }

  lemma OneMoreDuring(world: World, from: nat, next: nat, to: nat, rest: set<ItemId>)
    requires next == from + 1
    requires next <= to
    requires rest == CommittedDuring(world, next, to)
    ensures Touched(world.commits(from)) + rest == CommittedDuring(world, from, to)
  {
  }
}
