/**
 Whole-run agreement of one replica with the server.

 The system is the server, the replica, the pull loops in flight on this device
 (each with its own cursor, or a page on its way back), the fetch-by-id requests
 and answers in flight, and the writes of this device that the server has accepted
 and this device has not recorded yet. Steps interleave freely: a page, an answer
 or a record may land arbitrarily late, and several loops may run at once.

 Agreement: every item whose server revision the stored cursor has reached is
 recorded here exactly as the server has it. Which steps can break it, and
 exactly when, is stated with each of them.
 */
module Agreement {
  import opened Wrappers
  import opened Changes
  import opened Vault
  import opened Server

  // ---------------------------------------------------------------- what agreement means

  /** A live row that opens is stored identically and not marked unreadable; one
      that does not open is recorded unreadable at its revision; a tombstone is in
      neither table. */
  predicate AgreesOn(cipher: Cipher, s: Server, t: Tables, id: ItemId)
    requires id in s.rows
  {
    var row := s.rows[id];
    match row.blobs
    case None => id !in t.items && id !in t.unreadable
    case Some((ov, det)) =>
      if cipher.open(id, ov, det).Some? then
        id in t.items && t.items[id] == ItemRow(ov, det, row.revision) && id !in t.unreadable
      else
        id in t.unreadable && t.unreadable[id] == row.revision
  }

  ghost predicate Agrees(cipher: Cipher, s: Server, t: Tables) {
    forall id <- s.rows :: s.rows[id].revision <= t.cursor ==> AgreesOn(cipher, s, t, id)
  }

  /** What a page in flight still guarantees, however late: its rows are current
      unless rewritten past the page's end, and it holds every row of its range. */
  ghost predicate PageFits(s: Server, p: Page) {
    0 <= p.since <= p.next <= s.revision && PageHolds(s, p)
  }

  ghost predicate PageHolds(s: Server, p: Page) {
    && (forall c <- p.changes ::
          c.id in s.rows && p.since < c.revision <= p.next &&
          (s.rows[c.id].revision <= p.next ==> c == ChangeOf(c.id, s.rows[c.id])))
    && (forall id <- s.rows :: p.since < s.rows[id].revision <= p.next ==> ChangeOf(id, s.rows[id]) in p.changes)
    && (forall i, j :: 0 <= i < j < |p.changes| ==> p.changes[i].id != p.changes[j].id)
  }

  /** With no batch accepted between the two reads, the page is honest. */
  lemma {:induction false} AtomicPullIsHonest(s: Server, since: int, p: Page)
    requires PulledPage(s, s, since, p)
    ensures HonestPage(s, p)
  {
  }

  /** The page keeps its promise to the client except in one case: the first read
      found nothing and a batch was accepted before the second, whose answer then
      moves the client's cursor past rows it was never sent. */
  lemma {:induction false} PullFitsExactly(before: Server, after: Server, since: int, p: Page)
    requires ServerOk(before) && ServerOk(after) && Evolves(before, after)
    requires 0 <= since <= before.revision && PulledPage(before, after, since, p)
    ensures PageFits(after, p) <==> (Newer(before, since) || !Newer(after, since))
  {
    if !Newer(before, since) && Newer(after, since) {
      var id :| id in after.rows && since < after.rows[id].revision;
      assert ChangeOf(id, after.rows[id]) !in p.changes;
    }
  }

  function Landed(cipher: Cipher, t: Tables, p: Page, now: int): Tables {
    Applied(cipher, t, LastChanges(p.changes), Some((p.next, now)))
  }

  // ---------------------------------------------------------------- what a pull from 0 has seen

  function Named(cs: seq<RemoteChange>): set<ItemId> {
    set c | c in cs :: c.id
  }

  /** Every item up to `cursor` has been mentioned, and nothing the server does
      not have. */
  ghost predicate SawAll(s: Server, cursor: int, seen: set<ItemId>) {
    && (forall id <- s.rows :: s.rows[id].revision <= cursor ==> id in seen)
    && (forall id <- seen :: id in s.rows)
  }

  lemma SawPage(s: Server, p: Page, seen: set<ItemId>)
    requires PageHolds(s, p) && SawAll(s, p.since, seen)
    ensures SawAll(s, p.next, seen + Named(p.changes))
  {
    forall id | id in s.rows && s.rows[id].revision <= p.next ensures id in seen + Named(p.changes) {
      if p.since < s.rows[id].revision {
        assert ChangeOf(id, s.rows[id]) in p.changes;
      }
    }
  }

  lemma SawLater(s: Server, later: Server, cursor: int, seen: set<ItemId>)
    requires ServerOk(s) && Evolves(s, later) && cursor <= s.revision && SawAll(s, cursor, seen)
    ensures SawAll(later, cursor, seen)
  {
  }

  // ---------------------------------------------------------------- fetch by id

  datatype Fetched = Fetched(requested: seq<ItemId>, changes: seq<RemoteChange>)

  /** The server's rows for the ids it answered. */
  ghost predicate HonestFetch(s: Server, f: Fetched) {
    && (forall c <- f.changes :: c.id in f.requested && c.id in s.rows && c == ChangeOf(c.id, s.rows[c.id]))
    && (forall id <- f.requested :: id in s.rows ==> ChangeOf(id, s.rows[id]) in f.changes)
  }

  /** What a fetch answer in flight still guarantees: every asked id is on the
      server and in the answer, at a revision it once had. */
  ghost predicate FetchFits(s: Server, f: Fetched) {
    && (forall c <- f.changes ::
          c.id in s.rows && c.revision <= s.rows[c.id].revision &&
          (c.revision == s.rows[c.id].revision ==> c == ChangeOf(c.id, s.rows[c.id])))
    && (forall id <- f.requested :: id in s.rows && exists c <- f.changes :: c.id == id)
  }

  // ---------------------------------------------------------------- the system

  /** What a pull from 0 remembers: the items held when it started, and those
      mentioned since. */
  datatype Trail = Trail(held: set<ItemId>, seen: set<ItemId>)

  /** A pull about to ask from its own cursor, one whose answer the server has half
      read, one whose page is on its way back, and a pull from 0 whose last page has
      landed and which is about to drop what it has not seen. */
  datatype Loop =
    | Asking(local: int, trail: Option<Trail>)
    | Reading(local: int, before: Server, trail: Option<Trail>)
    | Waiting(page: Page, trail: Option<Trail>)
    | Dropping(end: int, trail: Option<Trail>)

  datatype System = System(
    server: Server, tables: Tables, loops: map<nat, Loop>, asks: set<seq<ItemId>>, answers: set<Fetched>,
    commits: set<Commit>)

  datatype Step =
    | OtherDevice(batch: seq<Change>)
    | SendWrites(writes: seq<StagedWrite>)
    | RecordWrite(commit: Commit)
    | ForgetWrite(commit: Commit)
    | StartPull(loop: nat)
    | AnswerPull(loop: nat, page: Page)
    | ReadSizes(loop: nat)
    | ReadRows(loop: nat, page: Page)
    | LandPage(loop: nat, now: int)
    | DropGhosts(loop: nat)
    | StopPull(loop: nat)
    | ResetCursor(now: int)
    | AskUnreadable(ids: seq<ItemId>)
    | AnswerFetch(ids: seq<ItemId>, answer: Fetched)
    | LandFetch(answer: Fetched)

  function ToChange(w: StagedWrite): Change {
    Change(w.id, w.base,
           if w.overview.Some? && w.details.Some? then Some((w.overview.value, w.details.value)) else None)
  }

  function ToChanges(ws: seq<StagedWrite>): seq<Change> {
    if ws == [] then [] else ToChanges(ws[..|ws| - 1]) + [ToChange(ws[|ws| - 1])]
  }

  function AcceptedAt(ws: seq<StagedWrite>, revision: int): set<Commit> {
    set w | w in ws :: Commit(w, revision)
  }

  /** A batch names each item once. */
  predicate OnceEach(ws: seq<StagedWrite>) {
    forall i, j :: 0 <= i < j < |ws| ==> ws[i].id != ws[j].id
  }

  /** Sealed on this device: the blobs open to the overview they were made from. */
  predicate Sealed(cipher: Cipher, w: StagedWrite) {
    WellFormed(w) && (w.plain.Some? ==> cipher.open(w.id, w.overview.value, w.details.value) == w.plain)
  }

  /** The revision a pull has got to. */
  function LocalCursor(l: Loop): int {
    match l
    case Waiting(page, _) => page.since
    case Dropping(end, _) => end
    case _ => l.local
  }

  function StartTrail(t: Tables): Option<Trail> {
    if t.cursor == 0 then Some(Trail(t.items.Keys, {})) else None
  }

  function Followed(trail: Option<Trail>, p: Page): Option<Trail> {
    if trail.Some? then Some(trail.value.(seen := trail.value.seen + Named(p.changes))) else None
  }

  /** The pulls in flight once a page of pull `l` has landed. */
  function AfterLanding(loops: map<nat, Loop>, l: nat): map<nat, Loop>
    requires l in loops && loops[l].Waiting?
  {
    var (p, trail) := (loops[l].page, Followed(loops[l].trail, loops[l].page));
    if p.hasMore && p.since < p.next then loops[l := Asking(p.next, trail)]
    else if trail.Some? && !p.hasMore then loops[l := Dropping(p.next, trail)]
    else loops - {l}
  }

  ghost predicate Next(cipher: Cipher, s: System, step: Step, t: System) {
    match step
    case OtherDevice(batch) =>
      Accepted(s.server, batch) && t == s.(server := Written(s.server, batch))
    case SendWrites(ws) =>
      && OnceEach(ws) && (forall w <- ws :: Sealed(cipher, w))
      && Accepted(s.server, ToChanges(ws))
      && t == s.(server := Written(s.server, ToChanges(ws)),
                 commits := s.commits + AcceptedAt(ws, s.server.revision + 1))
    case RecordWrite(c) =>
      && c in s.commits
      && t == s.(tables := Committed(cipher, s.tables, c.write, c.revision), commits := s.commits - {c})
    case ForgetWrite(c) =>
      t == s.(commits := s.commits - {c})
    case StartPull(l) =>
      l !in s.loops && t == s.(loops := s.loops[l := Asking(s.tables.cursor, StartTrail(s.tables))])
    case AnswerPull(l, page) =>
      && l in s.loops && s.loops[l].Asking? && s.loops[l].local == page.since
      && HonestPage(s.server, page)
      && t == s.(loops := s.loops[l := Waiting(page, s.loops[l].trail)])
    case ReadSizes(l) =>
      && l in s.loops && s.loops[l].Asking?
      && t == s.(loops := s.loops[l := Reading(s.loops[l].local, s.server, s.loops[l].trail)])
    case ReadRows(l, page) =>
      && l in s.loops && s.loops[l].Reading?
      && PulledPage(s.loops[l].before, s.server, s.loops[l].local, page)
      && t == s.(loops := s.loops[l := Waiting(page, s.loops[l].trail)])
    case LandPage(l, now) =>
      && l in s.loops && s.loops[l].Waiting? && s.loops[l].page.since <= s.loops[l].page.next
      && t == s.(tables := Landed(cipher, s.tables, s.loops[l].page, now), loops := AfterLanding(s.loops, l))
    case DropGhosts(l) =>
      && l in s.loops && s.loops[l].Dropping? && s.loops[l].trail.Some?
      && var trail := s.loops[l].trail.value;
         t == s.(tables := Without(s.tables, trail.held - trail.seen), loops := s.loops - {l})
    case StopPull(l) =>
      t == s.(loops := s.loops - {l})
    case ResetCursor(now) =>
      t == s.(tables := s.tables.(cursor := 0, unreadable := map[], syncedAt := Some(now)))
    case AskUnreadable(ids) =>
      (forall id <- ids :: id in s.tables.unreadable) && t == s.(asks := s.asks + {ids})
    case AnswerFetch(ids, answer) =>
      && ids in s.asks && (forall id <- answer.requested :: id in ids)
      && HonestFetch(s.server, answer)
      && t == s.(answers := s.answers + {answer})
    case LandFetch(answer) =>
      && answer in s.answers
      && t == s.(tables := Applied(cipher, s.tables,
                                   RefetchPlan(s.tables.unreadable, AsSet(answer.requested), answer.changes), None))
  }

  /** The page was asked for from a cursor the replica still has. */
  predicate LandsInOrder(s: System, step: Step) {
    step.LandPage? && step.loop in s.loops && s.loops[step.loop].Waiting? ==>
      s.loops[step.loop].page.since <= s.tables.cursor
  }

  /** The first read found rows, or there still are none at the second. */
  ghost predicate ReadsWhole(s: System, step: Step) {
    step.ReadRows? && step.loop in s.loops && s.loops[step.loop].Reading? ==>
      Newer(s.loops[step.loop].before, s.loops[step.loop].local) || !Newer(s.server, s.loops[step.loop].local)
  }

  /** The stored cursor has not been moved past what the pull has got to. */
  predicate DropsInOrder(s: System, step: Step) {
    step.DropGhosts? && step.loop in s.loops && s.loops[step.loop].Dropping? ==>
        s.tables.cursor <= s.loops[step.loop].end
  }

  /** Recording the write cannot put an older state of its item over a newer one that a
      pull has brought: the server still has what was written, or the stored cursor is
      not past what it has instead, or what it has leaves no trace the write could undo. */
  predicate RecordsInTime(cipher: Cipher, row: Row, cursor: int, c: Commit) {
    || row.revision == c.revision
    || cursor < row.revision
    || (match row.blobs
        case None => c.write.overview.None?
        case Some((ov, det)) => cipher.open(c.write.id, ov, det).None?)
  }

  predicate RecordsInOrder(cipher: Cipher, s: System, step: Step) {
    step.RecordWrite? && step.commit.write.id in s.server.rows ==>
      RecordsInTime(cipher, s.server.rows[step.commit.write.id], s.tables.cursor, step.commit)
  }

  ghost predicate Orderly(cipher: Cipher, s: System, step: Step) {
    LandsInOrder(s, step) && DropsInOrder(s, step) && ReadsWhole(s, step) && RecordsInOrder(cipher, s, step)
  }

  const START := System(ServerState(0, map[]), Tables(map[], map[], 0, None, map[], map[]), map[], {}, {}, {})

  ghost predicate Run(cipher: Cipher, run: seq<System>, steps: seq<Step>) {
    && |run| == |steps| + 1 && run[0] == START
    && forall i :: 0 <= i < |steps| ==> Next(cipher, run[i], steps[i], run[i + 1])
  }

  // ---------------------------------------------------------------- the invariant

  /** Every item a table names is on the server, recorded unreadable at no later
      revision than the server's. */
  ghost predicate KeysFit(s: Server, t: Tables) {
    && (forall id <- t.items :: id in s.rows)
    && (forall id <- t.unreadable :: id in s.rows && t.unreadable[id] <= s.rows[id].revision)
  }

  ghost predicate TablesOk(cipher: Cipher, s: Server, t: Tables) {
    && 0 <= t.cursor <= s.revision
    && KeysFit(s, t)
    && Agrees(cipher, s, t)
  }

  ghost predicate LoopOk(s: Server, l: Loop) {
    && (l.trail.Some? ==> SawAll(s, LocalCursor(l), l.trail.value.seen))
    && match l
       case Asking(local, _) => 0 <= local <= s.revision
       case Reading(local, before, _) => 0 <= local <= before.revision && ServerOk(before) && Evolves(before, s)
       case Waiting(page, _) => PageFits(s, page)
       case Dropping(end, _) => 0 <= end <= s.revision
  }

  ghost predicate Inv(cipher: Cipher, s: System) {
    && ServerOk(s.server)
    && TablesOk(cipher, s.server, s.tables)
    && (forall l <- s.loops :: LoopOk(s.server, s.loops[l]))
    && (forall ids <- s.asks :: forall id <- ids :: id in s.server.rows)
    && (forall f <- s.answers :: FetchFits(s.server, f))
    && (forall c <- s.commits :: CommitFits(cipher, s.server, c))
  }

  /** What a write says of the item: its blobs, or none. */
  function BlobsOf(w: StagedWrite): Option<(Blob, Blob)> {
    ToChange(w).blobs
  }

  /** The server has what was written, or something newer. */
  ghost predicate CommitFits(cipher: Cipher, s: Server, c: Commit) {
    && Sealed(cipher, c.write) && c.write.id in s.rows && c.revision <= s.rows[c.write.id].revision
    && (s.rows[c.write.id].revision == c.revision ==> s.rows[c.write.id].blobs == BlobsOf(c.write))
  }

  // ---------------------------------------------------------------- server writes

  lemma PageSurvivesWrites(s: Server, t: Server, p: Page)
    requires ServerOk(s) && Evolves(s, t) && PageFits(s, p)
    ensures PageFits(t, p)
  {
    forall c | c in p.changes
      ensures c.id in t.rows && (t.rows[c.id].revision <= p.next ==> c == ChangeOf(c.id, t.rows[c.id]))
    {
      assert c.id in s.rows;
    }
  }

  lemma FetchSurvivesWrites(s: Server, t: Server, f: Fetched)
    requires ServerOk(s) && Evolves(s, t) && FetchFits(s, f)
    ensures FetchFits(t, f)
  {
    forall c | c in f.changes
      ensures c.id in t.rows && c.revision <= t.rows[c.id].revision
      ensures c.revision == t.rows[c.id].revision ==> c == ChangeOf(c.id, t.rows[c.id])
    {
      assert c.id in s.rows;
    }
  }

  lemma AgreementSurvivesWrites(cipher: Cipher, s: Server, t: Server, tables: Tables)
    requires ServerOk(s) && Evolves(s, t) && TablesOk(cipher, s, tables)
    ensures TablesOk(cipher, t, tables)
  {
    forall id | id in t.rows && t.rows[id].revision <= tables.cursor
      ensures AgreesOn(cipher, t, tables, id)
    {
      assert id in s.rows && t.rows[id] == s.rows[id];
      assert AgreesOn(cipher, s, tables, id);
    }
  }

  lemma LoopSurvivesWrites(s: Server, server: Server, l: Loop)
    requires ServerOk(s) && Evolves(s, server) && LoopOk(s, l)
    ensures LoopOk(server, l)
  {
    if l.trail.Some? {
      SawLater(s, server, LocalCursor(l), l.trail.value.seen);
    }
    match l
    case Reading(_, before, _) => EvolvesTransitive(before, s, server);
    case Waiting(page, _) => PageSurvivesWrites(s, server, page);
    case _ =>
  }

  lemma ServerWriteKeepsInv(cipher: Cipher, s: System, server: Server)
    requires Inv(cipher, s) && ServerOk(server) && Evolves(s.server, server)
    ensures Inv(cipher, s.(server := server))
  {
    AgreementSurvivesWrites(cipher, s.server, server, s.tables);
    forall l | l in s.loops ensures LoopOk(server, s.loops[l]) {
      LoopSurvivesWrites(s.server, server, s.loops[l]);
    }
    forall f | f in s.answers ensures FetchFits(server, f) {
      FetchSurvivesWrites(s.server, server, f);
    }
    forall c | c in s.commits ensures CommitFits(cipher, server, c) {
      CommitSurvivesWrites(cipher, s.server, server, c);
    }
  }

  lemma CommitSurvivesWrites(cipher: Cipher, s: Server, t: Server, c: Commit)
    requires ServerOk(s) && Evolves(s, t) && CommitFits(cipher, s, c)
    ensures CommitFits(cipher, t, c)
  {
    assert s.rows[c.write.id].revision <= s.revision;
  }

  lemma {:induction false} ToChangesOf(ws: seq<StagedWrite>)
    ensures forall w <- ws :: ToChange(w) in ToChanges(ws)
    ensures forall c <- ToChanges(ws) :: exists w <- ws :: c == ToChange(w)
  {
    if ws != [] {
      var front, last := ws[..|ws| - 1], ws[|ws| - 1];
      ToChangesOf(front);
      assert ws == front + [last];
    }
  }

  /** What the server accepts of this device fits until it is recorded. */
  lemma AcceptedFits(cipher: Cipher, s: Server, ws: seq<StagedWrite>, w: StagedWrite)
    requires ServerOk(s) && OnceEach(ws) && w in ws && Sealed(cipher, w)
    ensures CommitFits(cipher, Written(s, ToChanges(ws)), Commit(w, s.revision + 1))
  {
    StampedAs(ws, w, s.revision + 1);
  }

  lemma StampedAs(ws: seq<StagedWrite>, w: StagedWrite, revision: int)
    requires OnceEach(ws) && w in ws
    ensures var rows := Stamped(ToChanges(ws), revision); w.id in rows && rows[w.id] == Row(revision, BlobsOf(w))
  {
    var rows := Stamped(ToChanges(ws), revision);
    ToChangesOf(ws);
    StampedNames(ToChanges(ws), revision);
    assert ToChange(w) in ToChanges(ws) && w.id in rows;
    var c :| c in ToChanges(ws) && c.id == w.id && c.blobs == rows[w.id].blobs;
    var v :| v in ws && c == ToChange(v);
    assert v == w;
  }

  // ---------------------------------------------------------------- recording an accepted write

  lemma CommittedOthers(cipher: Cipher, s: Server, t: Tables, c: Commit, id: ItemId)
    requires id in s.rows && id != c.write.id
    ensures AgreesOn(cipher, s, Committed(cipher, t, c.write, c.revision), id) <==> AgreesOn(cipher, s, t, id)
  {
  }

  /** Recording an accepted write keeps agreement unless it comes too late. */
  lemma {:induction false} RecordKeepsAgreement(cipher: Cipher, s: Server, t: Tables, c: Commit)
    requires TablesOk(cipher, s, t) && CommitFits(cipher, s, c)
    requires RecordsInTime(cipher, s.rows[c.write.id], t.cursor, c)
    ensures TablesOk(cipher, s, Committed(cipher, t, c.write, c.revision))
  {
    var u := Committed(cipher, t, c.write, c.revision);
    forall id | id in s.rows && s.rows[id].revision <= t.cursor ensures AgreesOn(cipher, s, u, id) {
      assert AgreesOn(cipher, s, t, id);
      if id != c.write.id {
        CommittedOthers(cipher, s, t, c, id);
      }
    }
  }

  /** It may be recorded over every agreeing replica whose stored cursor is `cursor`,
      while the server has `row`. */
  ghost predicate AlwaysRecords(cipher: Cipher, row: Row, cursor: int, c: Commit) {
    forall s: Server, t: Tables ::
      ServerOk(s) && CommitFits(cipher, s, c) && s.rows[c.write.id] == row && TablesOk(cipher, s, t)
          && t.cursor == cursor ==>
        TablesOk(cipher, s, Committed(cipher, t, c.write, c.revision))
  }

  /** The one item of `row` as an agreeing replica has it. */
  function OnlyItem(cipher: Cipher, id: ItemId, row: Row, cursor: int): Tables {
    match row.blobs
    case None => Tables(map[], map[], cursor, None, map[], map[])
    case Some((ov, det)) =>
      if cipher.open(id, ov, det).Some? then
        Tables(map[id := ItemRow(ov, det, row.revision)], map[], cursor, None, map[], map[])
      else Tables(map[], map[id := row.revision], cursor, None, map[], map[])
  }

  lemma TooLate(cipher: Cipher, row: Row, cursor: int, c: Commit)
    requires Sealed(cipher, c.write) && c.revision < row.revision <= cursor && 0 < row.revision
    requires !RecordsInTime(cipher, row, cursor, c)
    ensures !AlwaysRecords(cipher, row, cursor, c)
  {
    var (s, t) := (ServerState(cursor, map[c.write.id := row]), OnlyItem(cipher, c.write.id, row, cursor));
    assert ServerOk(s) && CommitFits(cipher, s, c) && s.rows[c.write.id] == row;
    assert AgreesOn(cipher, s, t, c.write.id) && TablesOk(cipher, s, t);
    var u := Committed(cipher, t, c.write, c.revision);
    assert !AgreesOn(cipher, s, u, c.write.id);
    assert !TablesOk(cipher, s, Committed(cipher, t, c.write, c.revision));
  }

  /** Recording a write is safe exactly when it is in time. */
  lemma {:induction false} RecordIsSafeExactly(cipher: Cipher, row: Row, cursor: int, c: Commit)
    requires Sealed(cipher, c.write) && 0 < c.revision <= row.revision
    requires row.revision == c.revision ==> row.blobs == BlobsOf(c.write)
    ensures AlwaysRecords(cipher, row, cursor, c) <==> RecordsInTime(cipher, row, cursor, c)
  {
    if RecordsInTime(cipher, row, cursor, c) {
      forall s: Server, t: Tables | ServerOk(s) && CommitFits(cipher, s, c) && s.rows[c.write.id] == row
                                    && TablesOk(cipher, s, t) && t.cursor == cursor
        ensures TablesOk(cipher, s, Committed(cipher, t, c.write, c.revision))
      {
        RecordKeepsAgreement(cipher, s, t, c);
      }
    } else {
      TooLate(cipher, row, cursor, c);
    }
  }

  // ---------------------------------------------------------------- pages

  lemma HonestPageFits(s: Server, p: Page)
    requires ServerOk(s) && 0 <= p.since <= s.revision && HonestPage(s, p)
    ensures PageFits(s, p)
  {
  }

  /** An item whose last mention is the server's row agrees after the batch. */
  lemma MentionedAgrees(cipher: Cipher, s: Server, t: Tables, last: map<ItemId, RemoteChange>,
                        stamp: Option<(int, int)>, id: ItemId)
    requires id in s.rows && id in last && last[id] == ChangeOf(id, s.rows[id])
    ensures AgreesOn(cipher, s, Applied(cipher, t, last, stamp), id)
  {
    var u := Applied(cipher, t, last, stamp);
    var v := Judge(cipher, last[id]);
    assert v.Store? <==> id in StoredRows(cipher, last);
    assert v.Drop? <==> id in DroppedIds(cipher, last);
    assert v.Unreadable? <==> id in Changes.UnreadableIds(cipher, last);
  }

  /** An item the batch does not mention is as it was. */
  lemma UnmentionedAgrees(cipher: Cipher, s: Server, t: Tables, last: map<ItemId, RemoteChange>,
                          stamp: Option<(int, int)>, id: ItemId)
    requires id in s.rows && id !in last
    ensures AgreesOn(cipher, s, Applied(cipher, t, last, stamp), id) <==> AgreesOn(cipher, s, t, id)
  {
    OutcomesAreExclusive(cipher, t, last, stamp, id);
  }

  lemma LandedOn(cipher: Cipher, s: Server, t: Tables, p: Page, now: int, id: ItemId)
    requires PageHolds(s, p) && id in s.rows && s.rows[id].revision <= p.next
    ensures p.since < s.rows[id].revision || AgreesOn(cipher, s, t, id) ==>
            AgreesOn(cipher, s, Landed(cipher, t, p, now), id)
  {
    var last := LastChanges(p.changes);
    DistinctBatch(p.changes);
    if p.since < s.rows[id].revision {
      var i :| 0 <= i < |p.changes| && p.changes[i] == ChangeOf(id, s.rows[id]);
      MentionedAgrees(cipher, s, t, last, Some((p.next, now)), id);
    } else {
      if id in last {
        assert false;
      }
      UnmentionedAgrees(cipher, s, t, last, Some((p.next, now)), id);
    }
  }

  lemma AppliedKeys(cipher: Cipher, s: Server, t: Tables, last: map<ItemId, RemoteChange>, stamp: Option<(int, int)>)
    requires KeysFit(s, t) && forall id <- last ::
               last[id].id == id && id in s.rows && last[id].revision <= s.rows[id].revision
    ensures KeysFit(s, Applied(cipher, t, last, stamp))
  {
  }

  lemma LandedKeys(cipher: Cipher, s: Server, t: Tables, p: Page, now: int)
    requires PageHolds(s, p) && KeysFit(s, t)
    ensures KeysFit(s, Landed(cipher, t, p, now)) && Landed(cipher, t, p, now).cursor == p.next
  {
    var last := LastChanges(p.changes);
    forall id | id in last ensures id in s.rows && last[id].revision <= s.rows[id].revision {
      assert last[id] in p.changes;
    }
    AppliedKeys(cipher, s, t, last, Some((p.next, now)));
  }

  /** A page asked for from a cursor the replica still has keeps agreement, even
      when it is stale and moves the cursor back. */
  lemma {:induction false} PageKeepsAgreement(cipher: Cipher, s: Server, t: Tables, p: Page, now: int)
    requires ServerOk(s) && PageFits(s, p) && TablesOk(cipher, s, t) && p.since <= t.cursor
    ensures TablesOk(cipher, s, Landed(cipher, t, p, now))
  {
    LandedKeys(cipher, s, t, p, now);
    forall id | id in s.rows && s.rows[id].revision <= p.next
      ensures AgreesOn(cipher, s, Landed(cipher, t, p, now), id)
    {
      LandedOn(cipher, s, t, p, now, id);
    }
  }

  // ---------------------------------------------------------------- fetch answers

  lemma HonestFetchFits(s: Server, f: Fetched)
    requires ServerOk(s) && HonestFetch(s, f) && forall id <- f.requested :: id in s.rows
    ensures FetchFits(s, f)
  {
    forall id | id in f.requested ensures exists c <- f.changes :: c.id == id {
      assert ChangeOf(id, s.rows[id]) in f.changes;
    }
  }

  /** Every id the answer may still speak for is dropped only if it is stale; no
      id is deleted for not being mentioned. */
  lemma {:induction false} RefetchPlanFits(s: Server, t: Tables, f: Fetched)
    requires FetchFits(s, f)
    ensures var plan := RefetchPlan(t.unreadable, AsSet(f.requested), f.changes);
            forall id <- plan :: plan[id] in f.changes && plan[id].id == id && id in t.unreadable
                                 && plan[id].revision >= t.unreadable[id]
  {
    var wanted := AsSet(f.requested) * t.unreadable.Keys;
    var returned := set c | c in f.changes && c.id in wanted :: c.id;
    assert wanted - returned == {};
    var kept := Fresh(t.unreadable, wanted, f.changes);
    var plan := RefetchPlan(t.unreadable, AsSet(f.requested), f.changes);
    assert plan.Keys == LastChanges(kept).Keys;
    forall id | id in plan
      ensures plan[id] in f.changes && plan[id].id == id && id in t.unreadable && plan[id].revision >= t.unreadable[id]
    {
      assert plan[id] == LastChanges(kept)[id] && LastChanges(kept)[id] in kept;
    }
  }

  lemma {:induction false} RefetchKeepsAgreement(cipher: Cipher, s: Server, t: Tables, f: Fetched)
    requires ServerOk(s) && FetchFits(s, f) && TablesOk(cipher, s, t)
    ensures TablesOk(cipher, s, Applied(cipher, t, RefetchPlan(t.unreadable, AsSet(f.requested), f.changes), None))
  {
    var plan := RefetchPlan(t.unreadable, AsSet(f.requested), f.changes);
    var u := Applied(cipher, t, plan, None);
    RefetchPlanFits(s, t, f);
    AppliedKeys(cipher, s, t, plan, None);
    forall id | id in s.rows && s.rows[id].revision <= t.cursor
      ensures AgreesOn(cipher, s, u, id)
    {
      assert AgreesOn(cipher, s, t, id);
      if id in plan {
        MentionedAgrees(cipher, s, t, plan, None, id);
      } else {
        UnmentionedAgrees(cipher, s, t, plan, None, id);
      }
    }
  }

  // ---------------------------------------------------------------- the ghost drop

  lemma WithoutOthers(cipher: Cipher, s: Server, t: Tables, gone: set<ItemId>, id: ItemId)
    requires id in s.rows && id !in gone
    ensures AgreesOn(cipher, s, Without(t, gone), id) <==> AgreesOn(cipher, s, t, id)
  {
  }

  /** What a pull from 0 has not seen up to its end may go, as long as the stored
      cursor has not been moved past that end. */
  lemma {:induction false} DropKeepsAgreement(cipher: Cipher, s: Server, t: Tables, end: int, held: set<ItemId>,
                                              seen: set<ItemId>)
    requires TablesOk(cipher, s, t) && SawAll(s, end, seen) && t.cursor <= end
    ensures TablesOk(cipher, s, Without(t, held - seen))
  {
    forall id | id in s.rows && s.rows[id].revision <= t.cursor ensures AgreesOn(cipher, s, Without(t, held - seen), id)
    {
      WithoutOthers(cipher, s, t, held - seen, id);
    }
  }

  ghost predicate AlwaysDrops(cipher: Cipher, cursor: int, end: int) {
    forall s: Server, t: Tables, held: set<ItemId>, seen: set<ItemId> ::
      ServerOk(s) && end <= s.revision && SawAll(s, end, seen) && TablesOk(cipher, s, t) && t.cursor == cursor ==>
        TablesOk(cipher, s, Without(t, held - seen))
  }

  /** The drop keeps agreement on every replica and server exactly when the stored
      cursor is not past the pull's end, as another pull can move it. */
  lemma {:induction false} DropIsSafeExactly(cipher: Cipher, cursor: int, end: int)
    requires 0 <= cursor && 0 <= end
    ensures AlwaysDrops(cipher, cursor, end) <==> cursor <= end
  {
    if cursor <= end {
      forall s: Server, t: Tables, held: set<ItemId>, seen: set<ItemId> |
        ServerOk(s) && end <= s.revision && SawAll(s, end, seen) && TablesOk(cipher, s, t) && t.cursor == cursor
        ensures TablesOk(cipher, s, Without(t, held - seen))
      {
        DropKeepsAgreement(cipher, s, t, end, held, seen);
      }
    } else {
      // An item written past the pull's end, and brought by another pull.
      var s := ServerState(cursor, map[0 := Row(cursor, Some(([], [])))]);
      var opens := cipher.open(0, [], []).Some?;
      var t := Tables(if opens then map[0 := ItemRow([], [], cursor)] else map[],
                      if opens then map[] else map[0 := cursor],
                      cursor, None, map[], map[]);
      assert ServerOk(s) && SawAll(s, end, {}) && TablesOk(cipher, s, t);
      var u := Without(t, {0} - {});
      assert 0 in s.rows && 0 !in u.items && 0 !in u.unreadable && !AgreesOn(cipher, s, u, 0);
      assert !TablesOk(cipher, s, Without(t, {0} - {}));
    }
  }

  // ---------------------------------------------------------------- every step, every run

  lemma LandingKeepsLoops(s: Server, loops: map<nat, Loop>, l: nat)
    requires l in loops && loops[l].Waiting? && forall m <- loops :: LoopOk(s, loops[m])
    ensures forall m <- AfterLanding(loops, l) :: LoopOk(s, AfterLanding(loops, l)[m])
  {
    assert LoopOk(s, loops[l]);
    if loops[l].trail.Some? {
      SawPage(s, loops[l].page, loops[l].trail.value.seen);
    }
  }

  lemma AskingKeepsInv(cipher: Cipher, s: System, step: Step, t: System)
    requires Inv(cipher, s) && Next(cipher, s, step, t) && ReadsWhole(s, step)
    requires step.AnswerPull? || step.ReadRows? || step.ReadSizes?
    ensures Inv(cipher, t)
  {
    var l := step.loop;
    assert LoopOk(s.server, s.loops[l]);
    if step.AnswerPull? {
      HonestPageFits(s.server, step.page);
    } else if step.ReadRows? {
      PullFitsExactly(s.loops[l].before, s.server, s.loops[l].local, step.page);
    }
    assert LoopOk(t.server, t.loops[l]);
  }

  lemma SendKeepsInv(cipher: Cipher, s: System, ws: seq<StagedWrite>, t: System)
    requires Inv(cipher, s) && Next(cipher, s, SendWrites(ws), t)
    ensures Inv(cipher, t)
  {
    WriteEvolves(s.server, ToChanges(ws));
    ServerWriteKeepsInv(cipher, s, t.server);
    forall c | c in AcceptedAt(ws, s.server.revision + 1) ensures CommitFits(cipher, t.server, c) {
      AcceptedFits(cipher, s.server, ws, c.write);
    }
  }

  lemma {:induction false} NextKeepsInv(cipher: Cipher, s: System, step: Step, t: System)
    requires Inv(cipher, s) && Next(cipher, s, step, t) && Orderly(cipher, s, step)
    ensures Inv(cipher, t)
  {
    match step
    case OtherDevice(batch) =>
      WriteEvolves(s.server, batch);
      ServerWriteKeepsInv(cipher, s, t.server);
    case SendWrites(ws) =>
      SendKeepsInv(cipher, s, ws, t);
    case RecordWrite(c) =>
      RecordKeepsAgreement(cipher, s.server, s.tables, c);
    case AnswerPull(_, _) =>
      AskingKeepsInv(cipher, s, step, t);
    case ReadRows(_, _) =>
      AskingKeepsInv(cipher, s, step, t);
    case ReadSizes(_) =>
      AskingKeepsInv(cipher, s, step, t);
    case LandPage(l, now) =>
      assert LoopOk(s.server, s.loops[l]);
      PageKeepsAgreement(cipher, s.server, s.tables, s.loops[l].page, now);
      LandingKeepsLoops(s.server, s.loops, l);
    case DropGhosts(l) =>
      assert LoopOk(s.server, s.loops[l]);
      var trail := s.loops[l].trail.value;
      DropKeepsAgreement(cipher, s.server, s.tables, s.loops[l].end, trail.held, trail.seen);
    case AnswerFetch(ids, answer) =>
      HonestFetchFits(s.server, answer);
    case LandFetch(answer) =>
      RefetchKeepsAgreement(cipher, s.server, s.tables, answer);
    case _ =>
  }

  /** Agreement holds in every state of every run whose pages land and whose writes are
      recorded in order and whose two-read answers are whole. */
  lemma {:induction false} AgreementOverRuns(cipher: Cipher, run: seq<System>, steps: seq<Step>, n: nat)
    requires Run(cipher, run, steps) && n < |run|
    requires forall i :: 0 <= i < |steps| ==> Orderly(cipher, run[i], steps[i])
    ensures Inv(cipher, run[n]) && Agrees(cipher, run[n].server, run[n].tables)
  {
    if n > 0 {
      AgreementOverRuns(cipher, run, steps, n - 1);
      NextKeepsInv(cipher, run[n - 1], steps[n - 1], run[n]);
    }
  }

  // ---------------------------------------------------------------- one pull at a time

  predicate Alone(s: System) {
    forall l, m :: l in s.loops && m in s.loops ==> l == m
  }

  /** The whole vault is asked for again only while no pull is in flight. */
  predicate ResetsAlone(s: System, step: Step) {
    step.ResetCursor? ==> s.loops == map[]
  }

  /** With one pull in flight at a time, its cursor is always the stored one. */
  ghost predicate InStep(s: System) {
    forall l <- s.loops :: LocalCursor(s.loops[l]) == s.tables.cursor
  }

  lemma {:induction false} SoloPullsStayInStep(cipher: Cipher, run: seq<System>, steps: seq<Step>, n: nat)
    requires Run(cipher, run, steps) && n < |run|
    requires forall i :: 0 <= i < |run| ==> Alone(run[i])
    requires forall i :: 0 <= i < |steps| ==> ResetsAlone(run[i], steps[i])
    ensures InStep(run[n])
  {
    if n > 0 {
      SoloPullsStayInStep(cipher, run, steps, n - 1);
      var s, t := run[n - 1], run[n];
      assert Next(cipher, s, steps[n - 1], t) && Alone(s) && Alone(t);
    }
  }

  /** A device that never runs two pulls at once, nor starts over while one runs,
      agrees with the server at every moment, however its own writes, other devices'
      writes, pages, drops and fetch answers interleave, as long as no two-read answer
      misses rows and no accepted write is recorded after a pull has brought something
      newer. */
  lemma {:induction false} SoloDeviceAgrees(cipher: Cipher, run: seq<System>, steps: seq<Step>, n: nat)
    requires Run(cipher, run, steps) && n < |run|
    requires forall i :: 0 <= i < |run| ==> Alone(run[i])
    requires forall i :: 0 <= i < |steps| ==> ResetsAlone(run[i], steps[i])
    requires forall i :: 0 <= i < |steps| ==> ReadsWhole(run[i], steps[i]) && RecordsInOrder(cipher, run[i], steps[i])
    ensures Agrees(cipher, run[n].server, run[n].tables)
  {
    forall i | 0 <= i < |steps| ensures Orderly(cipher, run[i], steps[i]) {
      SoloPullsStayInStep(cipher, run, steps, i);
    }
    AgreementOverRuns(cipher, run, steps, n);
  }

  // ---------------------------------------------------------------- exactly when a page is safe

  /** Every page asked for from `since` may land on every agreeing replica whose
      stored cursor is `cursor`. */
  ghost predicate AlwaysSafe(cipher: Cipher, cursor: int, since: int) {
    forall s: Server, t: Tables, p: Page, now: int ::
      ServerOk(s) && PageFits(s, p) && TablesOk(cipher, s, t) && t.cursor == cursor && p.since == since ==>
        TablesOk(cipher, s, Landed(cipher, t, p, now))
  }

  /** Landing a page is safe exactly when it was asked for from no further than
      the stored cursor. */
  lemma {:induction false} SafeExactlyInOrder(cipher: Cipher, cursor: int, since: int)
    requires 0 <= cursor && 0 <= since
    ensures AlwaysSafe(cipher, cursor, since) <==> since <= cursor
  {
    if since <= cursor {
      forall s: Server, t: Tables, p: Page, now: int |
        ServerOk(s) && PageFits(s, p) && TablesOk(cipher, s, t) && t.cursor == cursor && p.since == since
        ensures TablesOk(cipher, s, Landed(cipher, t, p, now))
      {
        PageKeepsAgreement(cipher, s, t, p, now);
      }
    } else {
      // A tombstone stamped at `since` that the replica, back at `cursor`, has not seen.
      var s := ServerState(since, map[0 := Row(since, None)]);
      var t := Tables(map[0 := ItemRow([], [], 0)], map[], cursor, None, map[], map[]);
      var p := Page(since, since, false, []);
      assert ServerOk(s) && PageFits(s, p) && TablesOk(cipher, s, t);
      var u := Landed(cipher, t, p, 0);
      assert LastChanges(p.changes) == map[];
      assert 0 in u.items && !AgreesOn(cipher, s, u, 0);
      assert !TablesOk(cipher, s, Landed(cipher, t, p, 0));
    }
  }

  // ---------------------------------------------------------------- the lists

  lemma WithoutKeepsMirror(cipher: Cipher, t: Tables, gone: set<ItemId>)
    requires Mirrored(cipher, t)
    ensures Mirrored(cipher, Without(t, gone))
  {
    var u := Without(t, gone);
    forall id <- u.live ensures Mirrors(cipher, u.items, u.live, id, false) {
      assert Mirrors(cipher, t.items, t.live, id, false);
    }
    forall id <- u.trash ensures Mirrors(cipher, u.items, u.trash, id, true) {
      assert Mirrors(cipher, t.items, t.trash, id, true);
    }
    WithoutListed(t, gone);
  }

  lemma WithoutListed(t: Tables, gone: set<ItemId>)
    requires ListsMatch(t)
    ensures ListsMatch(Without(t, gone))
  {
    assert Listed(Without(t, gone)) == Listed(t) - gone;
  }

  lemma RefetchPlanIds(recorded: map<ItemId, int>, requested: set<ItemId>, changes: seq<RemoteChange>)
    ensures var plan := RefetchPlan(recorded, requested, changes); forall id <- plan :: plan[id].id == id
  {
  }

  /** In every state of every run, in order or not, the in-memory lists hold
      exactly what the stored rows decrypt to. */
  lemma {:induction false} ListsMirrorOverRuns(cipher: Cipher, run: seq<System>, steps: seq<Step>, n: nat)
    requires Run(cipher, run, steps) && n < |run|
    ensures Mirrored(cipher, run[n].tables) && forall c <- run[n].commits :: Sealed(cipher, c.write)
  {
    if n > 0 {
      ListsMirrorOverRuns(cipher, run, steps, n - 1);
      var s, step := run[n - 1], steps[n - 1];
      assert Next(cipher, s, step, run[n]);
      match step
      case RecordWrite(c) => CommitKeepsMirror(cipher, s.tables, c.write, c.revision);
      case LandPage(l, now) =>
        AppliedKeepsMirror(cipher, s.tables, LastChanges(s.loops[l].page.changes), Some((s.loops[l].page.next, now)));
      case DropGhosts(l) => WithoutKeepsMirror(cipher, s.tables,
                                               s.loops[l].trail.value.held - s.loops[l].trail.value.seen);
      case LandFetch(f) =>
        RefetchPlanIds(s.tables.unreadable, AsSet(f.requested), f.changes);
        AppliedKeepsMirror(cipher, s.tables, RefetchPlan(s.tables.unreadable, AsSet(f.requested), f.changes), None);
      case _ =>
    }
  }

  // ---------------------------------------------------------------- two pulls at once

  // An item is created (1) and deleted (2), then another is created (3). The
  // first pull's page is produced before the deletion and lands after the second
  // pull has seen it.

  const CREATED := Row(1, Some(([], [])))
  const DELETED := Row(2, None)
  const LATER := Row(3, Some(([], [])))

  const SERVER_1 := ServerState(1, map[7 := CREATED])
  const SERVER_2 := ServerState(2, map[7 := DELETED])
  const SERVER_3 := ServerState(3, map[7 := DELETED, 8 := LATER])

  const CREATE := [Change(7, None, Some(([], [])))]
  const DELETE := [Change(7, Some(1), None)]
  const CREATE_LATER := [Change(8, None, Some(([], [])))]

  const STALE_PAGE := Page(0, 1, false, [ChangeOf(7, CREATED)])
  const FRESH_PAGE := Page(0, 2, false, [ChangeOf(7, DELETED)])
  const LAST_PAGE := Page(2, 3, false, [ChangeOf(8, LATER)])

  lemma StaleServer()
    ensures Accepted(START.server, CREATE) && Written(START.server, CREATE) == SERVER_1
    ensures Accepted(SERVER_1, DELETE) && Written(SERVER_1, DELETE) == SERVER_2
    ensures Accepted(SERVER_2, CREATE_LATER) && Written(SERVER_2, CREATE_LATER) == SERVER_3
  {
    assert Stamped(CREATE, 1) == map[7 := CREATED];
    assert Stamped(DELETE, 2) == map[7 := DELETED];
    assert Stamped(CREATE_LATER, 3) == map[8 := LATER];
  }

  lemma StalePagesAreHonest()
    ensures HonestPage(SERVER_1, STALE_PAGE) && HonestPage(SERVER_2, FRESH_PAGE) && HonestPage(SERVER_3, LAST_PAGE)
  {
    assert 7 in SERVER_1.rows && Newer(SERVER_1, 0) && !Newer(SERVER_1, 1);
    assert 7 in SERVER_2.rows && Newer(SERVER_2, 0) && !Newer(SERVER_2, 2);
    assert 8 in SERVER_3.rows && Newer(SERVER_3, 2) && !Newer(SERVER_3, 3);
    assert STALE_PAGE.changes[0] in STALE_PAGE.changes && FRESH_PAGE.changes[0] in FRESH_PAGE.changes
           && LAST_PAGE.changes[0] in LAST_PAGE.changes;
  }

  const EMPTY_TRAIL := Some(Trail({}, {}))
  const SAW_7 := Some(Trail({}, {7}))

  function StaleStep(i: nat): Step {
    if i == 0 then OtherDevice(CREATE)
    else if i == 1 then StartPull(1)
    else if i == 2 then AnswerPull(1, STALE_PAGE)
    else if i == 3 then OtherDevice(DELETE)
    else if i == 4 then StartPull(2)
    else if i == 5 then AnswerPull(2, FRESH_PAGE)
    else if i == 6 then LandPage(2, 0)
    else if i == 7 then DropGhosts(2)
    else if i == 8 then StartPull(2)
    else if i == 9 then OtherDevice(CREATE_LATER)
    else if i == 10 then AnswerPull(2, LAST_PAGE)
    else if i == 11 then LandPage(1, 0)
    else LandPage(2, 0)
  }

  function AfterFresh(cipher: Cipher): Tables {
    Landed(cipher, START.tables, FRESH_PAGE, 0)
  }

  function AfterStale(cipher: Cipher): Tables {
    Landed(cipher, AfterFresh(cipher), STALE_PAGE, 0)
  }

  function StaleState(cipher: Cipher, i: nat): System {
    var (first, after) := (Waiting(STALE_PAGE, EMPTY_TRAIL), AfterFresh(cipher));
    if i == 0 then START
    else if i == 1 then System(SERVER_1, START.tables, map[], {}, {}, {})
    else if i == 2 then System(SERVER_1, START.tables, map[1 := Asking(0, EMPTY_TRAIL)], {}, {}, {})
    else if i == 3 then System(SERVER_1, START.tables, map[1 := first], {}, {}, {})
    else if i == 4 then System(SERVER_2, START.tables, map[1 := first], {}, {}, {})
    else if i == 5 then System(SERVER_2, START.tables, map[1 := first, 2 := Asking(0, EMPTY_TRAIL)], {}, {}, {})
    else if i == 6 then System(SERVER_2, START.tables, map[1 := first, 2 := Waiting(FRESH_PAGE, EMPTY_TRAIL)], {}, {},
                               {})
    else if i == 7 then System(SERVER_2, after, map[1 := first, 2 := Dropping(2, SAW_7)], {}, {}, {})
    else if i == 8 then System(SERVER_2, after, map[1 := first], {}, {}, {})
    else if i == 9 then System(SERVER_2, after, map[1 := first, 2 := Asking(2, None)], {}, {}, {})
    else if i == 10 then System(SERVER_3, after, map[1 := first, 2 := Asking(2, None)], {}, {}, {})
    else if i == 11 then System(SERVER_3, after, map[1 := first, 2 := Waiting(LAST_PAGE, None)], {}, {}, {})
    else if i == 12 then
      System(SERVER_3, AfterStale(cipher), map[1 := Dropping(1, SAW_7), 2 := Waiting(LAST_PAGE, None)], {}, {}, {})
    else System(SERVER_3, Landed(cipher, AfterStale(cipher), LAST_PAGE, 0), map[1 := Dropping(1, SAW_7)], {}, {}, {})
  }

  lemma StaleServerSteps(cipher: Cipher, i: nat)
    requires i == 0 || i == 3 || i == 9
    ensures Next(cipher, StaleState(cipher, i), StaleStep(i), StaleState(cipher, i + 1))
  {
    StaleServer();
  }

  lemma StaleAnswers(cipher: Cipher, i: nat)
    requires i == 2 || i == 5 || i == 10
    ensures Next(cipher, StaleState(cipher, i), StaleStep(i), StaleState(cipher, i + 1))
  {
    StalePagesAreHonest();
  }

  lemma StaleStarts(cipher: Cipher, i: nat)
    requires i == 1 || i == 4 || i == 8
    ensures Next(cipher, StaleState(cipher, i), StaleStep(i), StaleState(cipher, i + 1))
  {
    assert START.tables.items.Keys == {};
  }

  lemma LandingIsAStep(cipher: Cipher, s: System, l: nat, now: int, t: System)
    requires l in s.loops && s.loops[l].Waiting? && s.loops[l].page.since <= s.loops[l].page.next
    requires t == s.(tables := Landed(cipher, s.tables, s.loops[l].page, now), loops := t.loops)
    requires t.loops == AfterLanding(s.loops, l)
    ensures Next(cipher, s, LandPage(l, now), t)
  {
  }

  lemma PagesName7()
    ensures Followed(EMPTY_TRAIL, FRESH_PAGE) == SAW_7 && Followed(EMPTY_TRAIL, STALE_PAGE) == SAW_7
  {
    assert FRESH_PAGE.changes[0].id == 7 && STALE_PAGE.changes[0].id == 7;
    assert {} + Named(FRESH_PAGE.changes) == {7} && {} + Named(STALE_PAGE.changes) == {7};
  }

  lemma StaleLandings(cipher: Cipher, i: nat)
    requires i == 6 || i == 11 || i == 12
    ensures Next(cipher, StaleState(cipher, i), StaleStep(i), StaleState(cipher, i + 1))
  {
    PagesName7();
    if i == 12 {
      assert StaleState(cipher, 12).loops - {2} == StaleState(cipher, 13).loops;
    }
    LandingIsAStep(cipher, StaleState(cipher, i), StaleStep(i).loop, 0, StaleState(cipher, i + 1));
  }

  lemma StaleDrop(cipher: Cipher)
    ensures Next(cipher, StaleState(cipher, 7), StaleStep(7), StaleState(cipher, 8))
  {
    WithoutNothing(AfterFresh(cipher));
    assert {} - SAW_7.value.seen == {};
    assert StaleState(cipher, 7).loops - {2} == StaleState(cipher, 8).loops;
  }

  function StaleRun(cipher: Cipher): seq<System> {
    seq(14, i requires 0 <= i => StaleState(cipher, i))
  }

  function StaleSteps(): seq<Step> {
    seq(13, i requires 0 <= i => StaleStep(i))
  }

  lemma StaleRunIsARun(cipher: Cipher)
    ensures Run(cipher, StaleRun(cipher), StaleSteps())
  {
    forall i | 0 <= i < 13 ensures Next(cipher, StaleState(cipher, i), StaleStep(i), StaleState(cipher, i + 1)) {
      if i == 0 || i == 3 || i == 9 { StaleServerSteps(cipher, i); }
      else if i == 2 || i == 5 || i == 10 { StaleAnswers(cipher, i); }
      else if i == 1 || i == 4 || i == 8 { StaleStarts(cipher, i); }
      else if i == 7 { StaleDrop(cipher); }
      else { StaleLandings(cipher, i); }
    }
  }

  lemma StaleOrder(cipher: Cipher, i: nat)
    requires i < 13
    ensures Orderly(cipher, StaleState(cipher, i), StaleStep(i)) <==> i < 12
  {
    if i == 12 {
      assert AfterStale(cipher).cursor == 1;
    } else if i == 11 || i == 6 || i == 7 {
    } else {
      assert !StaleStep(i).LandPage? && !StaleStep(i).DropGhosts? && !StaleStep(i).ReadRows?
             && !StaleStep(i).RecordWrite?;
    }
  }

  lemma StaleRunOrder(cipher: Cipher)
    ensures forall i :: 0 <= i < 13 ==> (Orderly(cipher, StaleRun(cipher)[i], StaleSteps()[i]) <==> i < 12)
  {
    forall i | 0 <= i < 13 ensures Orderly(cipher, StaleRun(cipher)[i], StaleSteps()[i]) <==> i < 12 {
      StaleOrder(cipher, i);
      assert StaleRun(cipher)[i] == StaleState(cipher, i) && StaleSteps()[i] == StaleStep(i);
    }
  }

  lemma StaleRunEnd(cipher: Cipher)
    ensures !Agrees(cipher, StaleRun(cipher)[13].server, StaleRun(cipher)[13].tables)
  {
    StaleRunLast(cipher);
    DeletionStaysLost(cipher);
  }

  lemma StaleRunLast(cipher: Cipher)
    ensures StaleRun(cipher)[13].server == SERVER_3
    ensures StaleRun(cipher)[13].tables == Landed(cipher, AfterStale(cipher), LAST_PAGE, 0)
  {
    assert StaleRun(cipher)[13] == StaleState(cipher, 13);
  }

  /** With two pulls in flight, a stale page moves the cursor back and the other
      pull's next page moves it forward again: the deletion in between is lost.
      Only the last landing is out of order. */
  lemma {:induction false} TwoPullsLoseADeletion(cipher: Cipher) returns (run: seq<System>, steps: seq<Step>)
    ensures Run(cipher, run, steps) && |run| == 14
    ensures forall i :: 0 <= i < |steps| ==> (Orderly(cipher, run[i], steps[i]) <==> i < 12)
    ensures !Agrees(cipher, run[13].server, run[13].tables)
  {
    run, steps := StaleRun(cipher), StaleSteps();
    StaleRunEnd(cipher);
    StaleRunOrder(cipher);
    StaleRunIsARun(cipher);
  }

  lemma DeletionStaysLost(cipher: Cipher)
    ensures !Agrees(cipher, SERVER_3, Landed(cipher, AfterStale(cipher), LAST_PAGE, 0))
  {
    StaleItemIsBack(cipher, AfterFresh(cipher));
    OutsideTheBatch(LAST_PAGE.changes, 7);
    UnmentionedAgrees(cipher, SERVER_3, AfterStale(cipher), LastChanges(LAST_PAGE.changes), Some((3, 0)), 7);
    assert 7 in SERVER_3.rows;
  }

  lemma StaleItemIsBack(cipher: Cipher, t: Tables)
    ensures var u := Landed(cipher, t, STALE_PAGE, 0); 7 in u.items || 7 in u.unreadable
  {
    assert LastChanges(STALE_PAGE.changes[..0]) == map[];
    assert LastChanges(STALE_PAGE.changes) == map[7 := ChangeOf(7, CREATED)];
    MentionedAgrees(cipher, SERVER_1, t, LastChanges(STALE_PAGE.changes), Some((1, 0)), 7);
  }

  // ---------------------------------------------------------------- an empty pull

  // The first read of a pull finds nothing; an item is created before the second,
  // whose answer then carries the new revision and no rows.

  const HALF_EMPTY := Page(0, 1, false, [])

  function SkipStep(i: nat): Step {
    if i == 0 then StartPull(1)
    else if i == 1 then ReadSizes(1)
    else if i == 2 then OtherDevice(CREATE)
    else if i == 3 then ReadRows(1, HALF_EMPTY)
    else LandPage(1, 0)
  }

  function SkipState(cipher: Cipher, i: nat): System {
    if i == 0 then START
    else if i == 1 then System(START.server, START.tables, map[1 := Asking(0, EMPTY_TRAIL)], {}, {}, {})
    else if i == 2 then System(START.server, START.tables, map[1 := Reading(0, START.server, EMPTY_TRAIL)], {}, {}, {})
    else if i == 3 then System(SERVER_1, START.tables, map[1 := Reading(0, START.server, EMPTY_TRAIL)], {}, {}, {})
    else if i == 4 then System(SERVER_1, START.tables, map[1 := Waiting(HALF_EMPTY, EMPTY_TRAIL)], {}, {}, {})
    else System(SERVER_1, Landed(cipher, START.tables, HALF_EMPTY, 0), map[1 := Dropping(1, EMPTY_TRAIL)], {}, {}, {})
  }

  lemma SkipRunSteps(cipher: Cipher, i: nat)
    requires i < 5
    ensures Next(cipher, SkipState(cipher, i), SkipStep(i), SkipState(cipher, i + 1))
    ensures Orderly(cipher, SkipState(cipher, i), SkipStep(i)) <==> i != 3
  {
    StaleServer();
    assert START.tables.items.Keys == {} && {} + Named(HALF_EMPTY.changes) == {};
    if i == 3 {
      assert 7 in SERVER_1.rows && !Newer(START.server, 0) && Newer(SERVER_1, 0);
      assert PulledPage(START.server, SERVER_1, 0, HALF_EMPTY);
    }
  }

  /** One pull at a time, every step in order but the second read, and the item created
      between the two reads is never seen, though the cursor has passed it. */
  lemma {:induction false} EmptyPullSkipsARow(cipher: Cipher) returns (run: seq<System>, steps: seq<Step>)
    ensures Run(cipher, run, steps) && |run| == 6
    ensures (forall i :: 0 <= i < 6 ==> Alone(run[i])) && forall i :: 0 <= i < 5 ==> !steps[i].ResetCursor?
    ensures forall i :: 0 <= i < 5 ==> (Orderly(cipher, run[i], steps[i]) <==> i != 3)
    ensures !Agrees(cipher, run[5].server, run[5].tables)
  {
    run, steps := seq(6, i requires 0 <= i => SkipState(cipher, i)), seq(5, i requires 0 <= i => SkipStep(i));
    forall i | 0 <= i < 5
      ensures Next(cipher, run[i], steps[i], run[i + 1])
      ensures Orderly(cipher, run[i], steps[i]) <==> i != 3
    {
      SkipRunSteps(cipher, i);
    }
    SkippedIsMissing(cipher);
  }

  lemma SkippedIsMissing(cipher: Cipher)
    ensures !Agrees(cipher, SERVER_1, Landed(cipher, START.tables, HALF_EMPTY, 0))
  {
    var t := Landed(cipher, START.tables, HALF_EMPTY, 0);
    assert LastChanges([]) == map[];
    assert 7 in SERVER_1.rows && SERVER_1.rows[7].revision <= t.cursor && 7 !in t.items && 7 !in t.unreadable;
    assert !AgreesOn(cipher, SERVER_1, t, 7);
  }

  // ---------------------------------------------------------------- a write recorded too late

  // This device's new item is accepted (1); another device edits it (2), and a pull
  // brings the edit before the accepted write is recorded here.

  const EDITED := Row(2, Some(([], [0])))
  const SERVER_EDITED := ServerState(2, map[7 := EDITED])
  const EDIT := [Change(7, Some(1), Some(([], [0])))]
  const EDIT_PAGE := Page(0, 2, false, [ChangeOf(7, EDITED)])

  function Typed(cipher: Cipher): Commit {
    Commit(StagedWrite(7, None, Some([]), Some([]), cipher.open(7, [], []), 0), 1)
  }

  function LateStep(cipher: Cipher, i: nat): Step {
    if i == 0 then SendWrites([Typed(cipher).write])
    else if i == 1 then OtherDevice(EDIT)
    else if i == 2 then StartPull(1)
    else if i == 3 then AnswerPull(1, EDIT_PAGE)
    else if i == 4 then LandPage(1, 0)
    else if i == 5 then DropGhosts(1)
    else RecordWrite(Typed(cipher))
  }

  function AfterEdit(cipher: Cipher): Tables {
    Landed(cipher, START.tables, EDIT_PAGE, 0)
  }

  function LateState(cipher: Cipher, i: nat): System {
    var (typed, after) := (Typed(cipher), AfterEdit(cipher));
    if i == 0 then START
    else if i == 1 then System(SERVER_1, START.tables, map[], {}, {}, {typed})
    else if i == 2 then System(SERVER_EDITED, START.tables, map[], {}, {}, {typed})
    else if i == 3 then System(SERVER_EDITED, START.tables, map[1 := Asking(0, EMPTY_TRAIL)], {}, {}, {typed})
    else if i == 4 then System(SERVER_EDITED, START.tables, map[1 := Waiting(EDIT_PAGE, EMPTY_TRAIL)], {}, {}, {typed})
    else if i == 5 then System(SERVER_EDITED, after, map[1 := Dropping(2, SAW_7)], {}, {}, {typed})
    else if i == 6 then System(SERVER_EDITED, after, map[], {}, {}, {typed})
    else System(SERVER_EDITED, Committed(cipher, after, typed.write, 1), map[], {}, {}, {})
  }

  lemma TypedIsSent(cipher: Cipher)
    requires cipher.open(7, [], []).Some?
    ensures Next(cipher, LateState(cipher, 0), LateStep(cipher, 0), LateState(cipher, 1))
  {
    var w := Typed(cipher).write;
    StaleServer();
    assert [w][..0] == [] && ToChanges([w]) == [ToChange(w)] == CREATE;
    assert AcceptedAt([w], 1) == {Typed(cipher)} && {} + {Typed(cipher)} == {Typed(cipher)};
    assert Sealed(cipher, w) && OnceEach([w]);
  }

  lemma EditIsAccepted()
    ensures Accepted(SERVER_1, EDIT) && Written(SERVER_1, EDIT) == SERVER_EDITED
  {
    assert EDIT[..0] == [] && Stamped(EDIT, 2) == map[7 := EDITED];
  }

  lemma LatePull(cipher: Cipher, i: nat)
    requires i == 2 || i == 3
    ensures Next(cipher, LateState(cipher, i), LateStep(cipher, i), LateState(cipher, i + 1))
  {
    assert START.tables.items.Keys == {};
    assert 7 in SERVER_EDITED.rows && Newer(SERVER_EDITED, 0) && !Newer(SERVER_EDITED, 2);
    assert EDIT_PAGE.changes[0] in EDIT_PAGE.changes;
  }

  lemma LateLanding(cipher: Cipher)
    ensures Next(cipher, LateState(cipher, 4), LateStep(cipher, 4), LateState(cipher, 5))
  {
    assert EDIT_PAGE.changes[0].id == 7 && {} + Named(EDIT_PAGE.changes) == {7};
    LandingIsAStep(cipher, LateState(cipher, 4), 1, 0, LateState(cipher, 5));
  }

  lemma LateEnd(cipher: Cipher, i: nat)
    requires i == 5 || i == 6
    ensures Next(cipher, LateState(cipher, i), LateStep(cipher, i), LateState(cipher, i + 1))
  {
    WithoutNothing(AfterEdit(cipher));
    assert {} - SAW_7.value.seen == {};
    assert LateState(cipher, 5).loops - {1} == map[] && {Typed(cipher)} - {Typed(cipher)} == {};
  }

  lemma LateOrder(cipher: Cipher, i: nat)
    requires cipher.open(7, [], [0]).Some? && i < 7
    ensures Orderly(cipher, LateState(cipher, i), LateStep(cipher, i)) <==> i < 6
  {
    assert AfterEdit(cipher).cursor == 2;
  }

  lemma EditIsUndone(cipher: Cipher)
    requires cipher.open(7, [], []).Some? && cipher.open(7, [], [0]).Some?
    ensures var s := LateState(cipher, 7);
            && s.server == SERVER_EDITED && EDITED.revision <= s.tables.cursor
            && 7 in s.tables.items && s.tables.items[7] == ItemRow([], [], 1)
            && !Agrees(cipher, s.server, s.tables)
  {
    var s := LateState(cipher, 7);
    assert AfterEdit(cipher).cursor == 2;
    assert 7 in SERVER_EDITED.rows && !AgreesOn(cipher, SERVER_EDITED, s.tables, 7);
  }

  function LateRun(cipher: Cipher): seq<System> {
    seq(8, i requires 0 <= i => LateState(cipher, i))
  }

  function LateSteps(cipher: Cipher): seq<Step> {
    seq(7, i requires 0 <= i => LateStep(cipher, i))
  }

  lemma LateRunSteps(cipher: Cipher, i: nat)
    requires cipher.open(7, [], []).Some? && cipher.open(7, [], [0]).Some? && i < 7
    ensures Next(cipher, LateState(cipher, i), LateStep(cipher, i), LateState(cipher, i + 1))
    ensures (Orderly(cipher, LateState(cipher, i), LateStep(cipher, i)) <==> i < 6) && !LateStep(cipher, i).ResetCursor?
  {
    LateOrder(cipher, i);
    if i == 0 { TypedIsSent(cipher); }
    else if i == 1 { EditIsAccepted(); }
    else if i < 4 { LatePull(cipher, i); }
    else if i == 4 { LateLanding(cipher); }
    else { LateEnd(cipher, i); }
  }

  /** One pull at a time: recording an accepted write after a pull has brought a later
      edit of its item puts the old state back, though the cursor has passed the edit. */
  lemma {:induction false} LateRecordUndoesAnEdit(cipher: Cipher) returns (run: seq<System>, steps: seq<Step>)
    requires cipher.open(7, [], []).Some? && cipher.open(7, [], [0]).Some?
    ensures Run(cipher, run, steps) && |run| == 8
    ensures (forall i :: 0 <= i < 8 ==> Alone(run[i])) && forall i :: 0 <= i < 7 ==> !steps[i].ResetCursor?
    ensures forall i :: 0 <= i < 7 ==> (Orderly(cipher, run[i], steps[i]) <==> i < 6)
    ensures run[7].server == SERVER_EDITED && EDITED.revision <= run[7].tables.cursor
    ensures 7 in run[7].tables.items && run[7].tables.items[7] == ItemRow([], [], 1)
    ensures !Agrees(cipher, run[7].server, run[7].tables)
  {
    run, steps := LateRun(cipher), LateSteps(cipher);
    forall i | 0 <= i < 7
      ensures Next(cipher, run[i], steps[i], run[i + 1])
      ensures (Orderly(cipher, run[i], steps[i]) <==> i < 6) && !steps[i].ResetCursor?
    {
      LateRunSteps(cipher, i);
    }
    EditIsUndone(cipher);
    assert run[7] == LateState(cipher, 7);
  }
}
