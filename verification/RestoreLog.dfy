/**
 What a restore shows on the wire. The log `RestoreOf` keeps is proved to be what
 was sent and answered; who was recorded, revived or left alone, and why, is read
 off that log, for any answers.
 */
module RestoreLog {
  import opened Wrappers
  import opened Changes
  import opened Vault
  import opened SyncLoop
  import opened Retry
  import opened Restore

  // ---------------------------------------------------------------- the log is what was sent

  function Writes(log: seq<Exchange>): nat {
    if log == [] then 0 else Writes(log[..|log| - 1]) + (if log[|log| - 1].WriteTry? then 1 else 0)
  }

  function Fetches(log: seq<Exchange>): nat {
    if log == [] then 0 else Fetches(log[..|log| - 1]) + (if log[|log| - 1].FetchTry? then 1 else 0)
  }

  /** The exchange is the next request of its kind, with the answer it got. */
  predicate Fits(answers: Answers, log: seq<Exchange>, e: Exchange) {
    match e
    case WriteTry(batch, answer) => answer == CheckedWrite(batch, answers.write(Writes(log), batch))
    case FetchTry(ask, found) => ask != [] && found == Checked(ask, answers.fetch(Fetches(log), ask))
  }

  ghost predicate LogFits(answers: Answers, log: seq<Exchange>) {
    forall i :: 0 <= i < |log| ==> Fits(answers, log[..i], log[i])
  }

  function CommitsOfOne(s: Setting, e: Exchange): seq<Commit> {
    if e.WriteTry? && e.answer.Acked? then Recording(s.unlocked, s.epoch, e.batch, e.answer.applied).0 else []
  }

  /** What the accepted writes of a log recorded. */
  function CommitsOf(s: Setting, log: seq<Exchange>): seq<Commit> {
    if log == [] then [] else CommitsOf(s, log[..|log| - 1]) + CommitsOfOne(s, log[|log| - 1])
  }

  /** The log is what was sent and answered, and the commits are those of its
      accepted writes. */
  ghost predicate TrueTo(s: Setting, p: Progress) {
    && LogFits(s.answers, p.log)
    && p.writes == Writes(p.log) && p.fetches == Fetches(p.log)
    && p.committed == CommitsOf(s, p.log)
  }

  lemma LogStep(s: Setting, log: seq<Exchange>, e: Exchange)
    requires LogFits(s.answers, log) && Fits(s.answers, log, e)
    ensures LogFits(s.answers, log + [e])
    ensures Writes(log + [e]) == Writes(log) + (if e.WriteTry? then 1 else 0)
    ensures Fetches(log + [e]) == Fetches(log) + (if e.FetchTry? then 1 else 0)
    ensures CommitsOf(s, log + [e]) == CommitsOf(s, log) + CommitsOfOne(s, e)
  {
    var l := log + [e];
    assert l[..|log|] == log;
    forall i | 0 <= i < |l| ensures Fits(s.answers, l[..i], l[i]) {
      assert l[..i] == if i < |log| then log[..i] else log;
    }
  }

  lemma RoundIsTrue(s: Setting, b: Batch, p: Progress)
    requires TrueTo(s, p)
    ensures TrueTo(s, RoundOf(s, b, p).progress)
  {
    var answer := CheckedWrite(b.ws, s.answers.write(p.writes, b.ws));
    var q := p.(writes := p.writes + 1, log := p.log + [WriteTry(b.ws, answer)]);
    LogStep(s, p.log, WriteTry(b.ws, answer));
    if answer.Conflicted? {
      assert TrueTo(s, q);
      ConflictIsTrue(s, b, q, answer.names);
    }
  }

  lemma ConflictIsTrue(s: Setting, b: Batch, p: Progress, named: seq<ItemId>)
    requires TrueTo(s, p)
    ensures TrueTo(s, AfterConflict(s.answers, b, p, named).progress)
  {
    var ask := NotRevived(named, b.revived);
    if ask != [] {
      LogStep(s, p.log, FetchTry(ask, Checked(ask, s.answers.fetch(p.fetches, ask))));
    }
  }

  // ---------------------------------------------------------------- why a base, why left alone

  /** The `j`-th exchange reported the item deleted. */
  predicate Tombstoned(log: seq<Exchange>, j: nat, id: ItemId) {
    j < |log| && log[j].FetchTry? && log[j].found.FetchedItems? && exists c <- log[j].found.changes ::
          c.id == id && c.deleted
  }

  /** The `j`-th exchange asked for the item and did not report it deleted. */
  predicate NotDeleted(log: seq<Exchange>, j: nat, id: ItemId) {
    && j < |log| && log[j].FetchTry? && log[j].found.FetchedItems? && id in log[j].ask
    && forall c <- log[j].found.changes :: c.id == id ==> !c.deleted
  }

  /** The write is as it was staged, or its base is the revision of a tombstone
      some earlier answer reported for this very item. */
  ghost predicate BaseAllowed(log: seq<Exchange>, staged: seq<StagedWrite>, w: StagedWrite) {
    w in staged ||
    exists j, c :: 0 <= j < |log| && log[j].FetchTry? && log[j].found.FetchedItems? && c in log[j].found.changes
                   && c.id == w.id && c.deleted && w.base == Some(c.revision)
  }

  /** Every write ever sent was allowed by what came before it. */
  ghost predicate Disciplined(log: seq<Exchange>, staged: seq<StagedWrite>) {
    forall i :: 0 <= i < |log| && log[i].WriteTry? ==> forall w <- log[i].batch :: BaseAllowed(log[..i], staged, w)
  }

  predicate SentIn(batch: seq<StagedWrite>, w: StagedWrite) {
    exists v <- batch :: Payload(v) == Payload(w)
  }

  /** The `i`-th exchange sent the write and was refused for it, and there was no
      tombstone left to revive: the server was asked and reported none, or had
      reported it before, or the refusal named the item more than once. */
  ghost predicate LeftAlone(log: seq<Exchange>, i: nat, w: StagedWrite) {
    && i < |log| && log[i].WriteTry? && SentIn(log[i].batch, w)
    && log[i].answer.Conflicted? && w.id in log[i].answer.names
    && (|| NotDeleted(log, i + 1, w.id)
        || (exists j: nat :: j < i && Tombstoned(log, j, w.id))
        || multiset(log[i].answer.names)[w.id] > 1)
  }

  ghost predicate Explained(log: seq<Exchange>, w: StagedWrite) {
    exists i: nat :: LeftAlone(log, i, w)
  }

  /** Where a batch stands, told from the log alone. */
  ghost predicate Accountable(staged: seq<StagedWrite>, b: Batch, log: seq<Exchange>) {
    && Disciplined(log, staged)
    && (forall w <- b.ws :: BaseAllowed(log, staged, w))
    && (forall w <- b.skipped :: Explained(log, w))
    && (forall id <- b.revived :: exists j: nat :: Tombstoned(log, j, id))
  }

  lemma BaseStaysAllowed(log: seq<Exchange>, e: Exchange, staged: seq<StagedWrite>, w: StagedWrite)
    requires BaseAllowed(log, staged, w)
    ensures BaseAllowed(log + [e], staged, w)
  {
    if w !in staged {
      var j, c :| 0 <= j < |log| && log[j].FetchTry? && log[j].found.FetchedItems? && c in log[j].found.changes
                  && c.id == w.id && c.deleted && w.base == Some(c.revision);
      assert (log + [e])[j] == log[j];
    }
  }

  lemma DisciplineGrows(log: seq<Exchange>, e: Exchange, staged: seq<StagedWrite>)
    requires Disciplined(log, staged)
    requires e.WriteTry? ==> forall w <- e.batch :: BaseAllowed(log, staged, w)
    ensures Disciplined(log + [e], staged)
  {
    var l := log + [e];
    forall i | 0 <= i < |l| && l[i].WriteTry? ensures forall w <- l[i].batch :: BaseAllowed(l[..i], staged, w) {
      assert l[..i] == if i < |log| then log[..i] else log;
    }
  }

  lemma TombstonedStays(log: seq<Exchange>, e: Exchange, j: nat, id: ItemId)
    ensures Tombstoned(log, j, id) ==> Tombstoned(log + [e], j, id)
  {
  }

  lemma ExplainedStays(log: seq<Exchange>, e: Exchange, w: StagedWrite)
    requires Explained(log, w)
    ensures Explained(log + [e], w)
  {
    var i: nat :| LeftAlone(log, i, w);
    if exists j: nat :: j < i && Tombstoned(log, j, w.id) {
      var j: nat :| j < i && Tombstoned(log, j, w.id);
      TombstonedStays(log, e, j, w.id);
    }
    assert NotDeleted(log, i + 1, w.id) ==> NotDeleted(log + [e], i + 1, w.id);
    assert LeftAlone(log + [e], i, w);
  }

  lemma StaysAccountable(staged: seq<StagedWrite>, b: Batch, log: seq<Exchange>, e: Exchange)
    requires Accountable(staged, b, log)
    requires e.WriteTry? ==> forall w <- e.batch :: BaseAllowed(log, staged, w)
    ensures Accountable(staged, b, log + [e])
  {
    DisciplineGrows(log, e, staged);
    forall w | w in b.ws ensures BaseAllowed(log + [e], staged, w) {
      BaseStaysAllowed(log, e, staged, w);
    }
    forall w | w in b.skipped ensures Explained(log + [e], w) {
      ExplainedStays(log, e, w);
    }
    forall id | id in b.revived ensures exists j: nat :: Tombstoned(log + [e], j, id) {
      var j: nat :| Tombstoned(log, j, id);
      TombstonedStays(log, e, j, id);
    }
  }

  // ---------------------------------------------------------------- one conflict answer

  /** What is left over is what was named without a tombstone, or named again. */
  ghost predicate WhyOut(b: Batch, named: seq<ItemId>, tombstones: seq<(ItemId, int)>, w: StagedWrite) {
    w.id in named && SentIn(b.ws, w) && (!Revivable(b.revived, tombstones, w.id) || multiset(named)[w.id] > 1)
  }

  lemma {:induction false} ResolvedSent(kind: Overview -> ItemType, b: Batch, named: seq<ItemId>,
                                        tombstones: seq<(ItemId, int)>)
    ensures forall w <- Resolved(kind, b, named, tombstones).ws :: SentIn(b.ws, w)
  {
    if named != [] {
      var d := Resolved(kind, b, named[..|named| - 1], tombstones);
      var last := named[|named| - 1];
      ResolvedSent(kind, b, named[..|named| - 1], tombstones);
      if Revivable(d.revived, tombstones, last) {
        RebasedSame(d.ws, last, TombstoneOf(tombstones, last).value);
      } else {
        TakenFacts(d.ws, last, d.revived);
      }
    }
  }

  lemma {:induction false} ResolvedRevives(kind: Overview -> ItemType, b: Batch, named: seq<ItemId>,
                                           tombstones: seq<(ItemId, int)>)
    ensures Resolved(kind, b, named, tombstones).revived == b.revived + RevivedBy(named, b.revived, tombstones)
  {
    if named != [] {
      var (front, last) := (named[..|named| - 1], named[|named| - 1]);
      assert named == front + [last];
      ResolvedRevives(kind, b, front, tombstones);
      assert forall x :: x in named <==> x in front || x == last;
    }
  }

  lemma {:induction false} ResolvedSkips(kind: Overview -> ItemType, b: Batch, named: seq<ItemId>,
                                         tombstones: seq<(ItemId, int)>)
    ensures forall w <- Resolved(kind, b, named, tombstones).skipped ::
              w in b.skipped || WhyOut(b, named, tombstones, w)
  {
    if named != [] {
      var (front, last) := (named[..|named| - 1], named[|named| - 1]);
      var d := Resolved(kind, b, front, tombstones);
      assert named == front + [last];
      ResolvedSkips(kind, b, front, tombstones);
      ResolvedSent(kind, b, front, tombstones);
      ResolvedRevives(kind, b, front, tombstones);
      forall w | w in Resolve(kind, d, tombstones, last).skipped
        ensures w in b.skipped || WhyOut(b, named, tombstones, w)
      {
        if w in d.skipped {
          OneMoreName(front, last, w.id);
        } else {
          OutForAReason(b, front, tombstones, d, last, w);
        }
      }
    }
  }

  lemma RebasedSame(ws: seq<StagedWrite>, id: ItemId, revision: int)
    ensures forall w <- Rebased(ws, id, revision) :: SentIn(ws, w)
  {
    var b := Rebased(ws, id, revision);
    forall w | w in b ensures SentIn(ws, w) {
      var k :| 0 <= k < |b| && b[k] == w;
      assert ws[k] in ws && Payload(ws[k]) == Payload(w);
    }
  }

  lemma OutForAReason(b: Batch, front: seq<ItemId>, tombstones: seq<(ItemId, int)>, d: Batch, last: ItemId,
                      w: StagedWrite)
    requires (forall v <- d.ws :: SentIn(b.ws, v)) && d.revived == b.revived + RevivedBy(front, b.revived, tombstones)
    requires !Revivable(d.revived, tombstones, last) && w in Taken(d.ws, last).1
    ensures WhyOut(b, front + [last], tombstones, w)
  {
    assert w in d.ws && w.id == last;
    OneMoreName(front, last, last);
    if Revivable(b.revived, tombstones, last) {
      assert last in front;
    }
  }

  /** The exchanges of a refused write, settled. */
  lemma SettledAccountable(kind: Overview -> ItemType, staged: seq<StagedWrite>, b: Batch, before: seq<Exchange>,
                           named: seq<ItemId>,
                           ask: seq<ItemId>, found: FetchAnswer)
    requires ask == NotRevived(named, b.revived)
             && (if ask == [] then found == FetchedItems([], []) else found.FetchedItems?)
    requires Plausible(ask, found)
    requires var log := before + [WriteTry(b.ws, Conflicted(named))];
             && Accountable(staged, b, before)
             && Accountable(staged, b, if ask == [] then log else log + [FetchTry(ask, found)])
    ensures var log := before + [WriteTry(b.ws, Conflicted(named))];
            var c := Resolved(kind, b, named, Tombs(found.changes));
            Accountable(staged, c, if ask == [] then log else log + [FetchTry(ask, found)])
  {
    var log := before + [WriteTry(b.ws, Conflicted(named))];
    var all := if ask == [] then log else log + [FetchTry(ask, found)];
    var (ts, c) := (Tombs(found.changes), Resolved(kind, b, named, Tombs(found.changes)));
    ResolvedSkips(kind, b, named, ts);
    ResolvedRevives(kind, b, named, ts);
    NotRevivedMeaning(named, b.revived);
    forall w | w in c.ws ensures BaseAllowed(all, staged, w) {
      ResolvedBases(kind, b, named, ts, w);
      if w !in b.ws {
        var r: int :| (w.id, r) in ts && w.base == Some(r);
        var x :| x in found.changes && x.deleted && x.id == w.id && x.revision == r;
        assert all[|log|] == FetchTry(ask, found) && x in all[|log|].found.changes;
      }
    }
    forall w | w in c.skipped ensures Explained(all, w) {
      if w !in b.skipped {
        OutIsExplained(b, before, named, ask, found, w);
      }
    }
    forall id | id in c.revived ensures exists j: nat :: Tombstoned(all, j, id) {
      if id !in b.revived {
        assert (id, TombstoneOf(ts, id).value) in ts;
        assert Tombstoned(all, |log|, id);
      }
    }
  }

  lemma {:induction false} ResolvedBases(kind: Overview -> ItemType, b: Batch, named: seq<ItemId>,
                                         tombstones: seq<(ItemId, int)>, w: StagedWrite)
    requires w in Resolved(kind, b, named, tombstones).ws
    ensures w in b.ws || exists r: int :: (w.id, r) in tombstones && w.base == Some(r)
  {
    if named != [] {
      var d := Resolved(kind, b, named[..|named| - 1], tombstones);
      ResolveFacts(kind, d, tombstones, named[|named| - 1]);
      if w in d.ws {
        ResolvedBases(kind, b, named[..|named| - 1], tombstones, w);
      }
    }
  }

  lemma TombstoneMeans(changes: seq<RemoteChange>, id: ItemId)
    ensures TombstoneOf(Tombs(changes), id).Some? <==> exists c <- changes :: c.id == id && c.deleted
  {
    NoTombstone(Tombs(changes), id);
    if c :| c in changes && c.id == id && c.deleted {
      assert (c.id, c.revision) in Tombs(changes);
    }
  }

  lemma OutIsExplained(b: Batch, before: seq<Exchange>, named: seq<ItemId>, ask: seq<ItemId>, found: FetchAnswer,
                       w: StagedWrite)
    requires ask == NotRevived(named, b.revived) && found.FetchedItems? && Plausible(ask, found)
    requires forall id <- b.revived :: exists j: nat :: Tombstoned(before, j, id)
    requires WhyOut(b, named, Tombs(found.changes), w)
    ensures var log := before + [WriteTry(b.ws, Conflicted(named))];
            Explained(if ask == [] then log else log + [FetchTry(ask, found)], w)
  {
    var log := before + [WriteTry(b.ws, Conflicted(named))];
    var all := if ask == [] then log else log + [FetchTry(ask, found)];
    var i := |before|;
    NotRevivedMeaning(named, b.revived);
    if w.id in b.revived {
      var j: nat :| Tombstoned(before, j, w.id);
      assert Tombstoned(all, j, w.id);
    } else if multiset(named)[w.id] <= 1 {
      TombstoneMeans(found.changes, w.id);
      assert NotDeleted(all, i + 1, w.id);
    }
    assert all[i] == WriteTry(b.ws, Conflicted(named));
    assert LeftAlone(all, i, w);
  }

  // ---------------------------------------------------------------- over a whole restore

  lemma RoundIsAccountable(s: Setting, staged: seq<StagedWrite>, b: Batch, p: Progress)
    requires Accountable(staged, b, p.log)
    ensures var r := RoundOf(s, b, p); Accountable(staged, r.batch, r.progress.log)
  {
    var answer := CheckedWrite(b.ws, s.answers.write(p.writes, b.ws));
    var log := p.log + [WriteTry(b.ws, answer)];
    StaysAccountable(staged, b, p.log, WriteTry(b.ws, answer));
    if answer.Conflicted? && forall id <- answer.names :: id in Ids(b.ws) {
      var ask := NotRevived(answer.names, b.revived);
      if ask == [] {
        SettledAccountable(s.answers.kind, staged, b, p.log, answer.names, [], FetchedItems([], []));
      } else {
        var found := Checked(ask, s.answers.fetch(p.fetches, ask));
        StaysAccountable(staged, b, log, FetchTry(ask, found));
        if found.FetchedItems? {
          SettledAccountable(s.answers.kind, staged, b, p.log, answer.names, ask, found);
        }
      }
    }
  }

  lemma {:induction false} BatchIsAccountable(s: Setting, staged: seq<StagedWrite>, b: Batch, p: Progress)
    requires TrueTo(s, p) && Accountable(staged, b, p.log)
    ensures var r := BatchOf(s, b, p); TrueTo(s, r.progress) && Accountable(staged, r.batch, r.progress.log)
    decreases Rounds(b.ws, b.revived)
  {
    if b.ws != [] {
      var r := RoundOf(s, b, p);
      RoundIsTrue(s, b, p);
      RoundIsAccountable(s, staged, b, p);
      if r.error.None? {
        RoundShrinks(s, b, p);
        BatchIsAccountable(s, staged, r.batch, r.progress);
      }
    }
  }

  lemma {:induction false} RunIsAccountable(s: Setting, staged: seq<StagedWrite>, queue: seq<StagedWrite>, p: Progress)
    requires TrueTo(s, p) && (forall w <- queue :: w in staged) && Accountable(staged, NewBatch([], p), p.log)
    ensures var q := RestoreOf(s, queue, p).progress; TrueTo(s, q) && Accountable(staged, NewBatch([], q), q.log)
    decreases |queue|
  {
    if queue != [] {
      var n := ChunkSize(queue);
      var r := BatchOf(s, NewBatch(queue[..n], p), p);
      BatchIsAccountable(s, staged, NewBatch(queue[..n], p), p);
      if r.error.None? {
        RunIsAccountable(s, staged, queue[n..], BatchDone(r));
      }
    }
  }

  /** Whatever is answered: the log is what was sent, in order, with the answer each
      request got; the commits are those of the accepted writes; every base sent was
      staged or reported as that item's tombstone before; and every write left to the
      server was refused by name with nothing left to revive. */
  lemma {:induction false} RestoreIsAccountable(s: Setting, staged: seq<StagedWrite>)
    ensures var p := RestoreOf(s, staged, NOTHING_SENT).progress;
            && TrueTo(s, p)
            && Disciplined(p.log, staged)
            && forall w <- p.skipped :: Explained(p.log, w)
  {
    RunIsAccountable(s, staged, staged, NOTHING_SENT);
  }

  /** A commit lies in a batch the server accepted, at a revision it acknowledged
      for that item. */
  lemma {:induction false} CommitsAreAcknowledged(s: Setting, log: seq<Exchange>, c: Commit)
    requires c in CommitsOf(s, log)
    ensures exists i :: 0 <= i < |log| && log[i].WriteTry? && log[i].answer.Acked? && c.write in log[i].batch
                        && (c.write.id, c.revision) in log[i].answer.applied
  {
    var (front, e) := (log[..|log| - 1], log[|log| - 1]);
    if c in CommitsOf(s, front) {
      CommitsAreAcknowledged(s, front, c);
      var i :| 0 <= i < |front| && front[i].WriteTry? && front[i].answer.Acked? && c.write in front[i].batch
               && (c.write.id, c.revision) in front[i].answer.applied;
      assert log[i] == front[i];
    } else {
      var one := CommitsOfOne(s, e);
      var k :| 0 <= k < |one| && one[k] == c;
      assert CommittedWrites(one)[k] == c.write && CommittedWrites(one) <= e.batch;
      assert log[|log| - 1] == e && e.batch[k] == c.write;
    }
  }

  // ---------------------------------------------------------------- when a restore goes on

  /** The exchange lets the restore go on: a write is acknowledged, each item by id, and
      the vault can record them all, or is refused for items of its own batch; a fetch is
      answered. */
  predicate Fine(s: Setting, e: Exchange) {
    match e
    case WriteTry(_, WriteFailed) => false
    case WriteTry(batch, Conflicted(names)) => forall id <- names :: exists w <- batch :: w.id == id
    case WriteTry(batch, Acked(applied)) =>
      forall w <- batch :: (exists a <- applied :: a.0 == w.id) && s.unlocked && w.epoch == s.epoch && WellFormed(w)
    case FetchTry(_, found) => found.FetchedItems?
  }

  /** What ends it otherwise. */
  predicate EndsWith(s: Setting, e: Exchange, error: RestoreError) {
    match e
    case WriteTry(_, WriteFailed) => error == RequestFailed
    case WriteTry(_, Conflicted(_)) => error == UnknownConflict
    case WriteTry(batch, Acked(applied)) =>
      exists n :: 0 <= n < |batch| && StopsAt(s, batch, applied, n)
                  && error == if exists a <- applied :: a.0 == batch[n].id then NotRecorded else NotAcknowledged
    case FetchTry(_, _) => error == RequestFailed
  }

  /** The `n`-th write is the first that cannot be recorded. */
  predicate StopsAt(s: Setting, batch: seq<StagedWrite>, applied: seq<(ItemId, int)>, n: nat)
    requires n < |batch|
  {
    && Fine(s, WriteTry(batch[..n], Acked(applied))) && !Fine(s, WriteTry([batch[n]], Acked(applied)))
  }

  /** From `from` on, every exchange but the last is fine, and the last is exactly when
      there is no error; an error is the one of the last. */
  ghost predicate EndsAt(s: Setting, from: nat, log: seq<Exchange>, error: Option<RestoreError>) {
    && from <= |log|
    && (forall i :: from <= i < |log| - 1 ==> Fine(s, log[i]))
    && (error.None? <==> forall i :: from <= i < |log| ==> Fine(s, log[i]))
    && (error.Some? ==> from < |log| && EndsWith(s, log[|log| - 1], error.value))
  }

  lemma EndsLater(s: Setting, from: nat, log: seq<Exchange>, later: seq<Exchange>, error: Option<RestoreError>)
    requires EndsAt(s, from, log, None) && log <= later && EndsAt(s, |log|, later, error)
    ensures EndsAt(s, from, later, error)
  {
    forall i | from <= i < |log| ensures Fine(s, later[i]) {
      assert later[i] == log[i];
    }
  }

  predicate Takes(s: Setting, applied: seq<(ItemId, int)>, w: StagedWrite) {
    Fine(s, WriteTry([w], Acked(applied)))
  }

  lemma FineEach(s: Setting, ws: seq<StagedWrite>, applied: seq<(ItemId, int)>)
    ensures Fine(s, WriteTry(ws, Acked(applied))) <==> forall w <- ws :: Takes(s, applied, w)
  {
    forall w | w in ws
      ensures Takes(s, applied, w) <==>
                (exists a <- applied :: a.0 == w.id) && s.unlocked && w.epoch == s.epoch && WellFormed(w)
    {
      assert w in [w];
    }
  }

  lemma {:induction false} RecordingFails(s: Setting, ws: seq<StagedWrite>, applied: seq<(ItemId, int)>)
    returns (n: nat)
    requires Recording(s.unlocked, s.epoch, ws, applied).1.Some?
    ensures n < |ws| && (forall i :: 0 <= i < n ==> Takes(s, applied, ws[i])) && !Takes(s, applied, ws[n])
    ensures Recording(s.unlocked, s.epoch, ws, applied).1.value ==
            if exists a <- applied :: a.0 == ws[n].id then NotRecorded else NotAcknowledged
  {
    RevisionListed(applied, ws[0].id);
    assert ws[0] in [ws[0]];
    if !Takes(s, applied, ws[0]) {
      n := 0;
    } else {
      n := RecordingFails(s, ws[1..], applied);
      n := n + 1;
    }
  }

  lemma {:induction false} RecordingGoes(s: Setting, ws: seq<StagedWrite>, applied: seq<(ItemId, int)>)
    requires Recording(s.unlocked, s.epoch, ws, applied).1.None?
    ensures forall w <- ws :: Takes(s, applied, w)
  {
    RecordingComplete(s.unlocked, s.epoch, ws, applied);
    forall w | w in ws ensures Takes(s, applied, w) {
      RevisionListed(applied, w.id);
    }
  }

  lemma RecordingStops(s: Setting, ws: seq<StagedWrite>, applied: seq<(ItemId, int)>)
    ensures var r := Recording(s.unlocked, s.epoch, ws, applied);
            && (r.1.None? <==> Fine(s, WriteTry(ws, Acked(applied))))
            && (r.1.Some? ==> EndsWith(s, WriteTry(ws, Acked(applied)), r.1.value))
  {
    FineEach(s, ws, applied);
    if Recording(s.unlocked, s.epoch, ws, applied).1.Some? {
      var n := RecordingFails(s, ws, applied);
      FineEach(s, ws[..n], applied);
      assert ws[n] in ws && StopsAt(s, ws, applied, n);
    } else {
      RecordingGoes(s, ws, applied);
    }
  }

  lemma RevisionListed(applied: seq<(ItemId, int)>, id: ItemId)
    ensures RevisionFor(applied, id).Some? <==> exists a <- applied :: a.0 == id
  {
  }

  lemma RoundEnds(s: Setting, b: Batch, p: Progress)
    ensures var r := RoundOf(s, b, p);
            && p.log < r.progress.log && r.progress.log[|p.log|].WriteTry? && r.progress.log[|p.log|].batch == b.ws
            && (forall i :: |p.log| < i < |r.progress.log| ==> r.progress.log[i].FetchTry?)
            && EndsAt(s, |p.log|, r.progress.log, r.error)
  {
    var answer := CheckedWrite(b.ws, s.answers.write(p.writes, b.ws));
    var e := WriteTry(b.ws, answer);
    assert (p.log + [e])[|p.log|] == e;
    match answer
    case WriteFailed =>
    case Acked(applied) => RecordingStops(s, b.ws, applied);
    case Conflicted(named) =>
      if forall id <- named :: id in Ids(b.ws) {
        ConflictEnds(s, b, p.log, p.(writes := p.writes + 1, log := p.log + [e]), named);
      }
  }

  lemma ConflictEnds(s: Setting, b: Batch, before: seq<Exchange>, p: Progress, named: seq<ItemId>)
    requires (forall id <- named :: id in Ids(b.ws)) && p.log == before + [WriteTry(b.ws, Conflicted(named))]
    ensures var r := AfterConflict(s.answers, b, p, named);
            && p.log <= r.progress.log && (forall i :: |p.log| <= i < |r.progress.log| ==> r.progress.log[i].FetchTry?)
            && EndsAt(s, |before|, r.progress.log, r.error)
  {
    var ask := NotRevived(named, b.revived);
    assert p.log[|before|] == WriteTry(b.ws, Conflicted(named)) && Fine(s, p.log[|before|]);
    if ask != [] {
      var found := Checked(ask, s.answers.fetch(p.fetches, ask));
      var log := p.log + [FetchTry(ask, found)];
      assert log[|p.log|] == FetchTry(ask, found) && log[|before|] == p.log[|before|];
    }
  }

  /** Tries of the batch alone, from `from` to `to`, the first of them as it is staged. */
  ghost predicate TriesOf(log: seq<Exchange>, from: nat, to: nat, batch: seq<StagedWrite>) {
    && from < to <= |log| && log[from].WriteTry? && log[from].batch == batch
    && forall i :: from <= i < to && log[i].WriteTry? ==> forall w <- log[i].batch :: SentIn(batch, w)
  }

  /** The tries of each batch of the queue, one after the other, to the end of the log. */
  ghost predicate SendsAll(log: seq<Exchange>, from: nat, queue: seq<StagedWrite>)
    decreases |queue|
  {
    if queue == [] then from == |log|
    else
      var n := if |queue| < MAX_BATCH then |queue| else MAX_BATCH;
      exists next: nat :: TriesOf(log, from, next, queue[..n]) && SendsAll(log, next, queue[n..])
  }

  lemma {:induction false} BatchEnds(s: Setting, b: Batch, p: Progress, batch: seq<StagedWrite>)
    requires forall w <- b.ws :: SentIn(batch, w)
    ensures var r := BatchOf(s, b, p);
            && p.log <= r.progress.log && EndsAt(s, |p.log|, r.progress.log, r.error)
            && (b.ws != [] ==> p.log < r.progress.log && r.progress.log[|p.log|].WriteTry?
                               && r.progress.log[|p.log|].batch == b.ws)
            && forall i :: |p.log| <= i < |r.progress.log| && r.progress.log[i].WriteTry? ==>
                 forall w <- r.progress.log[i].batch :: SentIn(batch, w)
    decreases Rounds(b.ws, b.revived)
  {
    if b.ws != [] {
      var r := RoundOf(s, b, p);
      RoundEnds(s, b, p);
      if r.error.None? {
        RoundShrinks(s, b, p);
        RoundStaysIn(s, b, p, batch);
        BatchEnds(s, r.batch, r.progress, batch);
        EndsLater(s, |p.log|, r.progress.log, BatchOf(s, b, p).progress.log, BatchOf(s, b, p).error);
      }
    }
  }

  lemma RoundStaysIn(s: Setting, b: Batch, p: Progress, batch: seq<StagedWrite>)
    requires (forall w <- b.ws :: SentIn(batch, w)) && RoundOf(s, b, p).error.None?
    ensures forall w <- RoundOf(s, b, p).batch.ws :: SentIn(batch, w)
  {
    var answer := CheckedWrite(b.ws, s.answers.write(p.writes, b.ws));
    if answer.Conflicted? {
      var ask := NotRevived(answer.names, b.revived);
      ResolvedSent(s.answers.kind, b, answer.names, []);
      ResolvedSent(s.answers.kind, b, answer.names, TombsAsked(ask, s.answers.fetch(p.fetches, ask)));
    }
  }

  lemma {:induction false} RunEnds(s: Setting, queue: seq<StagedWrite>, p: Progress)
    ensures var f := RestoreOf(s, queue, p);
            && p.log <= f.progress.log && EndsAt(s, |p.log|, f.progress.log, f.error)
            && (f.error.None? ==> f.left == [] && SendsAll(f.progress.log, |p.log|, queue))
    decreases |queue|
  {
    if queue != [] {
      var n := ChunkSize(queue);
      var (b, f) := (NewBatch(queue[..n], p), RestoreOf(s, queue, p));
      var r := BatchOf(s, b, p);
      forall w | w in queue[..n] ensures SentIn(queue[..n], w) {
      }
      BatchEnds(s, b, p, queue[..n]);
      if r.error.None? {
        assert f == RestoreOf(s, queue[n..], BatchDone(r));
        RunEnds(s, queue[n..], BatchDone(r));
        var (mid, log) := (r.progress.log, f.progress.log);
        EndsLater(s, |p.log|, mid, log, f.error);
        if f.error.None? {
          assert TriesOf(log, |p.log|, |mid|, queue[..n]);
        }
      }
    }
  }

  /** When a restore succeeds: exactly when every exchange lets it go on, and then each
      batch of the staged writes was sent, in order, and nothing is left. Only the last
      exchange can end it, with the error that exchange calls for. */
  lemma {:induction false} RestoreSucceedsExactly(s: Setting, staged: seq<StagedWrite>)
    ensures var f := RestoreOf(s, staged, NOTHING_SENT);
            var log := f.progress.log;
            && (f.error.None? <==> forall i :: 0 <= i < |log| ==> Fine(s, log[i]))
            && (forall i :: 0 <= i < |log| - 1 ==> Fine(s, log[i]))
            && (f.error.Some? ==> log != [] && EndsWith(s, log[|log| - 1], f.error.value))
            && (f.error.None? ==> f.left == [] && SendsAll(log, 0, staged))
  {
    RunEnds(s, staged, NOTHING_SENT);
  }

  // ---------------------------------------------------------------- revived once

  /** Within one batch, an item reported deleted is never asked about again. */
  ghost predicate AsksOnce(log: seq<Exchange>, from: nat) {
    forall j: nat, k: nat, id :: from <= j < k < |log| && Tombstoned(log, j, id) && log[k].FetchTry? ==>
        id !in log[k].ask
  }

  ghost predicate KnowsRevived(log: seq<Exchange>, from: nat, revived: set<ItemId>) {
    forall j: nat, id :: from <= j && Tombstoned(log, j, id) ==> id in revived
  }

  lemma OneMoreExchange(log: seq<Exchange>, e: Exchange, from: nat, revived: set<ItemId>)
    requires from <= |log| && AsksOnce(log, from) && KnowsRevived(log, from, revived)
    requires e.FetchTry? ==> forall id <- e.ask :: id !in revived
    ensures AsksOnce(log + [e], from)
    ensures forall j: nat, id :: from <= j < |log| && Tombstoned(log + [e], j, id) ==> id in revived
  {
    forall j: nat, id | j < |log| ensures Tombstoned(log + [e], j, id) <==> Tombstoned(log, j, id) {
      assert (log + [e])[j] == log[j];
    }
  }

  lemma RoundAsksOnce(s: Setting, b: Batch, p: Progress, from: nat)
    requires from <= |p.log| && AsksOnce(p.log, from) && KnowsRevived(p.log, from, b.revived)
    ensures var (c, log) := (RoundOf(s, b, p).batch, RoundOf(s, b, p).progress.log);
            AsksOnce(log, from) && (RoundOf(s, b, p).error.None? ==> KnowsRevived(log, from, c.revived))
  {
    var answer := CheckedWrite(b.ws, s.answers.write(p.writes, b.ws));
    OneMoreExchange(p.log, WriteTry(b.ws, answer), from, b.revived);
    if answer.Conflicted? {
      var q := p.(writes := p.writes + 1, log := p.log + [WriteTry(b.ws, answer)]);
      ConflictAsksOnce(s.answers, b, q, answer.names, from);
    }
  }

  lemma ConflictAsksOnce(answers: Answers, b: Batch, p: Progress, named: seq<ItemId>, from: nat)
    requires from <= |p.log| && AsksOnce(p.log, from) && KnowsRevived(p.log, from, b.revived)
    ensures var r := AfterConflict(answers, b, p, named);
            AsksOnce(r.progress.log, from) && (r.error.None? ==> KnowsRevived(r.progress.log, from, r.batch.revived))
  {
    var ask := NotRevived(named, b.revived);
    NotRevivedMeaning(named, b.revived);
    if ask == [] {
      ResolvedRevives(answers.kind, b, named, []);
    } else {
      var found := Checked(ask, answers.fetch(p.fetches, ask));
      OneMoreExchange(p.log, FetchTry(ask, found), from, b.revived);
      if found.FetchedItems? {
        ResolvedRevives(answers.kind, b, named, Tombs(found.changes));
        TombstonesRevive(b, named, ask, found);
        assert (p.log + [FetchTry(ask, found)])[|p.log|] == FetchTry(ask, found);
      }
    }
  }

  lemma TombstonesRevive(b: Batch, named: seq<ItemId>, ask: seq<ItemId>, found: FetchAnswer)
    requires ask == NotRevived(named, b.revived) && found.FetchedItems? && Plausible(ask, found)
    ensures forall c <- found.changes :: c.deleted ==> c.id in RevivedBy(named, b.revived, Tombs(found.changes))
  {
    NotRevivedMeaning(named, b.revived);
    forall c | c in found.changes && c.deleted ensures c.id in RevivedBy(named, b.revived, Tombs(found.changes)) {
      TombstoneMeans(found.changes, c.id);
    }
  }

  // ---------------------------------------------------------------- what one batch does with a write

  predicate SentAt(log: seq<Exchange>, i: nat, w: StagedWrite) {
    i < |log| && log[i].WriteTry? && w in log[i].batch
  }

  predicate RefusedAt(log: seq<Exchange>, i: nat, id: ItemId) {
    i < |log| && log[i].WriteTry? && log[i].answer.Conflicted? && id in log[i].answer.names
  }

  /** Once a write was sent other than as staged, every later try of the item is the
      same: its base changes at most once. */
  ghost predicate RevisedOnce(log: seq<Exchange>, from: nat, staged: seq<StagedWrite>) {
    forall i: nat, k: nat, w, v ::
      from <= i < k && SentAt(log, i, w) && SentAt(log, k, v) && w.id == v.id && w !in staged ==> v == w
  }

  /** An item refused after its tombstone was reported is in no later try. */
  ghost predicate LeftAfterRevival(log: seq<Exchange>, from: nat) {
    forall j: nat, i: nat, k: nat, w: StagedWrite ::
      from <= j < i < k && Tombstoned(log, j, w.id) && RefusedAt(log, i, w.id) ==> !SentAt(log, k, w)
  }

  /** An item the refusal before named once, and the fetch reports deleted. */
  predicate ToRevive(log: seq<Exchange>, j: nat, c: RemoteChange) {
    && 0 < j < |log| && log[j].FetchTry? && log[j].found.FetchedItems? && c in log[j].found.changes && c.deleted
    && log[j - 1].WriteTry? && log[j - 1].answer.Conflicted? && multiset(log[j - 1].answer.names)[c.id] == 1
  }

  /** The try after a fetch that reports such a tombstone sends the item based on it. */
  ghost predicate Revives(log: seq<Exchange>, from: nat) {
    forall j: nat, c :: from <= j && j + 1 < |log| && ToRevive(log, j, c) ==>
      exists w :: SentAt(log, j + 1, w) && w.id == c.id && w.base == Some(c.revision)
  }

  /** What is left of the batch, told from what was sent and answered since `from`. */
  ghost predicate Keeping(staged: seq<StagedWrite>, b: Batch, log: seq<Exchange>, from: nat) {
    && OneEach(b.ws)
    && (forall w <- b.ws :: w in staged || w.id in b.revived)
    && (forall i: nat, w :: from <= i && SentAt(log, i, w) && w !in staged ==>
          w.id in b.revived && forall v <- b.ws :: v.id == w.id ==> v == w)
    && (forall j: nat, i: nat, w: StagedWrite ::
          from <= j < i && Tombstoned(log, j, w.id) && RefusedAt(log, i, w.id) ==> w !in b.ws)
  }

  ghost predicate Owes(b: Batch, log: seq<Exchange>, from: nat) {
    from < |log| ==> forall c :: ToRevive(log, |log| - 1, c) ==> exists w <- b.ws ::
          w.id == c.id && w.base == Some(c.revision)
  }

  lemma SameBefore(log: seq<Exchange>, e: Exchange)
    ensures forall i: nat, w :: SentAt(log + [e], i, w) <==>
            SentAt(log, i, w) || (i == |log| && e.WriteTry? && w in e.batch)
    ensures forall i: nat, id :: i < |log| ==> (RefusedAt(log + [e], i, id) <==> RefusedAt(log, i, id))
    ensures forall i: nat, id :: i < |log| ==> (Tombstoned(log + [e], i, id) <==> Tombstoned(log, i, id))
    ensures forall j: nat, c :: j < |log| ==> (ToRevive(log + [e], j, c) <==> ToRevive(log, j, c))
  {
    forall i: nat | i < |log| ensures (log + [e])[i] == log[i] {
    }
  }

  /** The batch is sent again. */
  lemma OneMoreTry(staged: seq<StagedWrite>, b: Batch, log: seq<Exchange>, from: nat, answer: WriteAnswer)
    requires from <= |log| && Keeping(staged, b, log, from) && RevisedOnce(log, from, staged)
             && LeftAfterRevival(log, from)
    ensures var later := log + [WriteTry(b.ws, answer)];
            RevisedOnce(later, from, staged) && LeftAfterRevival(later, from)
  {
    var later := log + [WriteTry(b.ws, answer)];
    SameBefore(log, WriteTry(b.ws, answer));
    forall i: nat, k: nat, w, v | from <= i < k && SentAt(later, i, w) && SentAt(later, k, v) && w.id == v.id
        && w !in staged
      ensures v == w
    {
      assert SentAt(log, i, w);
    }
    forall j: nat, i: nat, k: nat, w: StagedWrite | from <= j < i < k && Tombstoned(later, j, w.id)
        && RefusedAt(later, i, w.id)
      ensures !SentAt(later, k, w)
    {
      if SentAt(later, k, w) {
        assert Tombstoned(log, j, w.id) && RefusedAt(log, i, w.id);
      }
    }
  }

  lemma OneMoreRevival(b: Batch, log: seq<Exchange>, from: nat, answer: WriteAnswer)
    requires from <= |log| && Owes(b, log, from) && Revives(log, from)
    ensures Revives(log + [WriteTry(b.ws, answer)], from)
  {
    var later := log + [WriteTry(b.ws, answer)];
    SameBefore(log, WriteTry(b.ws, answer));
    forall j: nat, c | from <= j && j + 1 < |later| && ToRevive(later, j, c)
      ensures exists w :: SentAt(later, j + 1, w) && w.id == c.id && w.base == Some(c.revision)
    {
      var next := j + 1;
      assert ToRevive(log, j, c);
      if next < |log| {
        var w :| SentAt(log, next, w) && w.id == c.id && w.base == Some(c.revision);
        assert SentAt(later, next, w);
      } else {
        var w :| w in b.ws && w.id == c.id && w.base == Some(c.revision);
        assert SentAt(later, next, w);
      }
    }
  }

  /** A fetch sends no write. */
  lemma OneMoreFetch(staged: seq<StagedWrite>, log: seq<Exchange>, from: nat, ask: seq<ItemId>, found: FetchAnswer)
    requires from < |log| && log[|log| - 1].WriteTry?
    requires RevisedOnce(log, from, staged) && LeftAfterRevival(log, from) && Revives(log, from)
    ensures var later := log + [FetchTry(ask, found)];
            RevisedOnce(later, from, staged) && LeftAfterRevival(later, from) && Revives(later, from)
  {
    var later := log + [FetchTry(ask, found)];
    SameBefore(log, FetchTry(ask, found));
    forall j: nat, i: nat, k: nat, w: StagedWrite | from <= j < i < k && Tombstoned(later, j, w.id)
        && RefusedAt(later, i, w.id)
      ensures !SentAt(later, k, w)
    {
      assert SentAt(later, k, w) <==> SentAt(log, k, w);
    }
    forall j: nat, c | from <= j && j + 1 < |later| && ToRevive(later, j, c)
      ensures exists w :: SentAt(later, j + 1, w) && w.id == c.id && w.base == Some(c.revision)
    {
      var next := j + 1;
      assert ToRevive(log, j, c) && next < |log|;
      var w :| SentAt(log, next, w) && w.id == c.id && w.base == Some(c.revision);
      assert SentAt(later, next, w);
    }
  }

  lemma {:induction false} SiftedFrom(ws: seq<StagedWrite>, named: seq<ItemId>, revived: set<ItemId>,
                                      tombstones: seq<(ItemId, int)>)
    requires OneEach(ws)
    ensures OneEach(Sifted(ws, named, revived, tombstones))
    ensures forall v <- Sifted(ws, named, revived, tombstones) ::
              exists w <- ws :: v == Kept(w, named, tombstones) && Stays(named, revived, tombstones, w.id)
    ensures forall w <- ws :: Stays(named, revived, tombstones, w.id) ==>
            Kept(w, named, tombstones) in Sifted(ws, named, revived, tombstones)
  {
    if ws != [] {
      var (w, rest) := (ws[0], ws[1..]);
      assert ws == [w] + rest;
      forall i, j | 0 <= i < j < |rest| ensures rest[i].id != rest[j].id {
        assert rest[i] == ws[i + 1] && rest[j] == ws[j + 1];
      }
      forall v | v in rest ensures v.id != w.id {
        var k :| 0 <= k < |rest| && rest[k] == v;
        assert ws[k + 1] == v;
      }
      SiftedFrom(rest, named, revived, tombstones);
      var s := Sifted(rest, named, revived, tombstones);
      assert w.id !in Ids(rest);
      forall v | v in s ensures v.id != w.id {
        assert v.id in Ids(rest);
      }
    }
  }

  /** What stays is as it was, or was never sent but as staged. */
  lemma StaysAsSent(staged: seq<StagedWrite>, b: Batch, log: seq<Exchange>, from: nat, named: seq<ItemId>,
                    ts: seq<(ItemId, int)>, i: nat, w: StagedWrite)
    requires from <= |log| && Keeping(staged, b, log, from)
    requires from <= i && SentAt(log + [WriteTry(b.ws, Conflicted(named))], i, w) && w !in staged
    ensures w.id in b.revived && forall v <- Sifted(b.ws, named, b.revived, ts) :: v.id == w.id ==> v == w
  {
    SameBefore(log, WriteTry(b.ws, Conflicted(named)));
    SiftedFrom(b.ws, named, b.revived, ts);
    assert w.id in b.revived;
    forall v | v in Sifted(b.ws, named, b.revived, ts) && v.id == w.id ensures v == w {
      var x :| x in b.ws && v == Kept(x, named, ts) && Stays(named, b.revived, ts, x.id);
      assert x.id == w.id && x == v;
    }
  }

  /** What was reported deleted and is refused leaves. */
  lemma RefusedLeaves(staged: seq<StagedWrite>, b: Batch, log: seq<Exchange>, from: nat, named: seq<ItemId>,
                      ts: seq<(ItemId, int)>, j: nat, i: nat, w: StagedWrite)
    requires from <= |log| && Keeping(staged, b, log, from) && KnowsRevived(log, from, b.revived) && from <= j < i
    requires var later := log + [WriteTry(b.ws, Conflicted(named))];
             Tombstoned(later, j, w.id) && RefusedAt(later, i, w.id)
    ensures w !in Sifted(b.ws, named, b.revived, ts)
  {
    SameBefore(log, WriteTry(b.ws, Conflicted(named)));
    SiftedFrom(b.ws, named, b.revived, ts);
    assert Tombstoned(log, j, w.id) && w.id in b.revived;
    assert Stays(named, b.revived, ts, w.id) ==> w.id !in named;
  }

  /** Settling a refusal keeps what is known. */
  lemma SettledKeeps(staged: seq<StagedWrite>, b: Batch, log: seq<Exchange>, from: nat, named: seq<ItemId>,
                     ts: seq<(ItemId, int)>, c: Batch)
    requires from <= |log| && Keeping(staged, b, log, from) && KnowsRevived(log, from, b.revived)
    requires c.ws == Sifted(b.ws, named, b.revived, ts) && c.revived == b.revived + RevivedBy(named, b.revived, ts)
    ensures Keeping(staged, c, log + [WriteTry(b.ws, Conflicted(named))], from)
  {
    var later := log + [WriteTry(b.ws, Conflicted(named))];
    SiftedFrom(b.ws, named, b.revived, ts);
    forall i: nat, w | from <= i && SentAt(later, i, w) && w !in staged
      ensures w.id in c.revived && forall v <- c.ws :: v.id == w.id ==> v == w
    {
      StaysAsSent(staged, b, log, from, named, ts, i, w);
    }
    forall j: nat, i: nat, w: StagedWrite | from <= j < i && Tombstoned(later, j, w.id) && RefusedAt(later, i, w.id)
      ensures w !in c.ws
    {
      RefusedLeaves(staged, b, log, from, named, ts, j, i, w);
    }
  }

  lemma FetchKeeps(staged: seq<StagedWrite>, b: Batch, log: seq<Exchange>, from: nat, ask: seq<ItemId>,
                   found: FetchAnswer)
    requires from <= |log| && Keeping(staged, b, log, from)
    ensures Keeping(staged, b, log + [FetchTry(ask, found)], from)
  {
    var later := log + [FetchTry(ask, found)];
    SameBefore(log, FetchTry(ask, found));
    forall j: nat, i: nat, w: StagedWrite | from <= j < i && Tombstoned(later, j, w.id) && RefusedAt(later, i, w.id)
      ensures w !in b.ws
    {
      assert RefusedAt(log, i, w.id) && Tombstoned(log, j, w.id);
    }
  }

  /** What the fetch reports deleted, and the refusal named once, is in the batch with that base. */
  lemma SettledOwes(b: Batch, before: seq<Exchange>, named: seq<ItemId>, ask: seq<ItemId>, found: FetchAnswer, c: Batch)
    requires OneEach(b.ws) && (forall id <- named :: id in Ids(b.ws)) && ask == NotRevived(named, b.revived)
    requires found.FetchedItems? && Plausible(ask, found)
    requires c.ws == Sifted(b.ws, named, b.revived, Tombs(found.changes))
    ensures Owes(c, before + [WriteTry(b.ws, Conflicted(named)), FetchTry(ask, found)], 0)
  {
    var (log, ts) := (before + [WriteTry(b.ws, Conflicted(named)), FetchTry(ask, found)], Tombs(found.changes));
    SiftedFrom(b.ws, named, b.revived, ts);
    NotRevivedMeaning(named, b.revived);
    forall x | ToRevive(log, |log| - 1, x) ensures exists w <- c.ws :: w.id == x.id && w.base == Some(x.revision) {
      assert x in found.changes && multiset(named)[x.id] == 1;
      TombstoneMeans(found.changes, x.id);
      var w :| w in b.ws && w.id == x.id;
      assert (x.id, TombstoneOf(ts, x.id).value) in ts;
      assert Kept(w, named, ts) in c.ws;
    }
  }

  /** All that is told of one batch. */
  ghost predicate ToldOnce(log: seq<Exchange>, from: nat, staged: seq<StagedWrite>) {
    AsksOnce(log, from) && RevisedOnce(log, from, staged) && LeftAfterRevival(log, from) && Revives(log, from)
  }

  ghost predicate Told(staged: seq<StagedWrite>, b: Batch, log: seq<Exchange>, from: nat) {
    && from <= |log| && ToldOnce(log, from, staged)
    && KnowsRevived(log, from, b.revived) && Keeping(staged, b, log, from) && Owes(b, log, from)
  }

  lemma RoundIsTold(s: Setting, staged: seq<StagedWrite>, b: Batch, p: Progress, from: nat)
    requires Told(staged, b, p.log, from)
    ensures var r := RoundOf(s, b, p);
            && ToldOnce(r.progress.log, from, staged)
            && (r.error.None? && r.batch.ws != [] ==> Told(staged, r.batch, r.progress.log, from))
  {
    var answer := CheckedWrite(b.ws, s.answers.write(p.writes, b.ws));
    var q := p.(writes := p.writes + 1, log := p.log + [WriteTry(b.ws, answer)]);
    RoundAsksOnce(s, b, p, from);
    OneMoreTry(staged, b, p.log, from, answer);
    OneMoreRevival(b, p.log, from, answer);
    match answer
    case WriteFailed =>
    case Acked(applied) =>
      AckedEnds(s, b, p);
    case Conflicted(named) =>
      if forall id <- named :: id in Ids(b.ws) {
        ConflictIsTold(s.answers, staged, b, p.log, q, named, from);
      }
  }

  lemma AckedEnds(s: Setting, b: Batch, p: Progress)
    requires CheckedWrite(b.ws, s.answers.write(p.writes, b.ws)).Acked?
    ensures RoundOf(s, b, p).error.None? ==> RoundOf(s, b, p).batch.ws == []
  {
    var applied := s.answers.write(p.writes, b.ws).applied;
    assert RoundOf(s, b, p).error.None? ==> CommittedWrites(Recording(s.unlocked, s.epoch, b.ws, applied).0) == b.ws;
  }

  lemma ConflictIsTold(answers: Answers, staged: seq<StagedWrite>, b: Batch, before: seq<Exchange>, p: Progress,
                       named: seq<ItemId>, from: nat)
    requires from <= |before| && p.log == before + [WriteTry(b.ws, Conflicted(named))] && forall id <- named ::
               id in Ids(b.ws)
    requires Keeping(staged, b, before, from) && KnowsRevived(before, from, b.revived)
    requires RevisedOnce(p.log, from, staged) && LeftAfterRevival(p.log, from) && Revives(p.log, from)
    ensures var r := AfterConflict(answers, b, p, named);
            && RevisedOnce(r.progress.log, from, staged) && LeftAfterRevival(r.progress.log, from)
                && Revives(r.progress.log, from)
            && (r.error.None? ==> Keeping(staged, r.batch, r.progress.log, from) && Owes(r.batch, r.progress.log, from))
  {
    var (ask, r) := (NotRevived(named, b.revived), AfterConflict(answers, b, p, named));
    if ask == [] {
      assert r == Rounded(None, Resolved(answers.kind, b, named, []), p);
      AnswerMeaning(answers.kind, b, named, []);
      SettledKeeps(staged, b, before, from, named, [], r.batch);
      assert r.progress.log == p.log && !p.log[|p.log| - 1].FetchTry?;
    } else {
      var found := Checked(ask, answers.fetch(p.fetches, ask));
      assert r.progress.log == p.log + [FetchTry(ask, found)];
      assert found.FetchedItems? ==> r.batch == Resolved(answers.kind, b, named, Tombs(found.changes));
      OneMoreFetch(staged, p.log, from, ask, found);
      if found.FetchedItems? {
        FoundIsTold(answers.kind, staged, b, before, named, from, ask, found);
        assert p.log + [FetchTry(ask, found)] == before + [WriteTry(b.ws, Conflicted(named)), FetchTry(ask, found)];
      }
    }
  }

  lemma FoundIsTold(kind: Overview -> ItemType, staged: seq<StagedWrite>, b: Batch, before: seq<Exchange>,
                    named: seq<ItemId>, from: nat,
                    ask: seq<ItemId>, found: FetchAnswer)
    requires from <= |before| && Keeping(staged, b, before, from) && KnowsRevived(before, from, b.revived)
    requires (forall id <- named :: id in Ids(b.ws)) && ask == NotRevived(named, b.revived)
    requires found.FetchedItems? && Plausible(ask, found)
    ensures var (c, log) := (Resolved(kind, b, named, Tombs(found.changes)),
                             before + [WriteTry(b.ws, Conflicted(named)), FetchTry(ask, found)]);
            Keeping(staged, c, log, from) && Owes(c, log, from)
  {
    var c := Resolved(kind, b, named, Tombs(found.changes));
    var log := before + [WriteTry(b.ws, Conflicted(named))];
    assert log + [FetchTry(ask, found)] == before + [WriteTry(b.ws, Conflicted(named)), FetchTry(ask, found)];
    AnswerMeaning(kind, b, named, Tombs(found.changes));
    SettledKeeps(staged, b, before, from, named, Tombs(found.changes), c);
    FetchKeeps(staged, c, log, from, ask, found);
    SettledOwes(b, before, named, ask, found, c);
  }

  lemma {:induction false} BatchIsTold(s: Setting, staged: seq<StagedWrite>, b: Batch, p: Progress, from: nat)
    requires Told(staged, b, p.log, from)
    ensures ToldOnce(BatchOf(s, b, p).progress.log, from, staged)
    decreases Rounds(b.ws, b.revived)
  {
    if b.ws != [] {
      var r := RoundOf(s, b, p);
      RoundIsTold(s, staged, b, p, from);
      if r.error.None? {
        RoundShrinks(s, b, p);
        if r.batch.ws != [] {
          BatchIsTold(s, staged, r.batch, r.progress, from);
        }
      }
    }
  }

  /** Within one batch: an item reported deleted is sent again based on its tombstone,
      if it was named once, and is not asked about again; its base changes at most
      once; and refused after that, it is in no later try. */
  lemma {:induction false} BatchRevivesOnce(s: Setting, ws: seq<StagedWrite>, p: Progress)
    requires OneEach(ws)
    ensures var log := BatchOf(s, NewBatch(ws, p), p).progress.log;
            && AsksOnce(log, |p.log|)
            && Revives(log, |p.log|)
            && RevisedOnce(log, |p.log|, ws)
            && LeftAfterRevival(log, |p.log|)
  {
    BatchIsTold(s, ws, NewBatch(ws, p), p, |p.log|);
  }

  // ---------------------------------------------------------------- when the report is right

  /** A refusal names no item more often than the batch holds it, once more if the
      answer that followed reported it deleted. */
  ghost predicate Clean(log: seq<Exchange>, i: nat) {
    i < |log| && log[i].WriteTry? && log[i].answer.Conflicted? ==>
      forall id :: multiset(log[i].answer.names)[id] <= IdBag(log[i].batch)[id]
          + (if Tombstoned(log, i + 1, id) then 1 else 0)
  }

  ghost predicate AllClean(log: seq<Exchange>, from: nat) {
    forall i: nat :: from <= i < |log| ==> Clean(log, i)
  }

  /** Later exchanges start with a write of their own. */
  predicate Continues(log: seq<Exchange>, later: seq<Exchange>) {
    log <= later && (|log| < |later| ==> later[|log|].WriteTry?)
  }

  lemma CleanStays(log: seq<Exchange>, later: seq<Exchange>, i: nat)
    requires Continues(log, later) && i < |log|
    ensures Clean(log, i) <==> Clean(later, i)
  {
    var next := i + 1;
    assert forall id :: Tombstoned(log, next, id) <==> Tombstoned(later, next, id);
  }

  lemma AllCleanSplit(log: seq<Exchange>, later: seq<Exchange>, from: nat)
    requires Continues(log, later) && from <= |log|
    ensures AllClean(later, from) <==> AllClean(log, from) && AllClean(later, |log|)
  {
    forall i: nat | i < |log| ensures Clean(log, i) <==> Clean(later, i) {
      CleanStays(log, later, i);
    }
  }

  /** How many notes there are beyond the writes they should be about. */
  function Excess(kinds: seq<Option<ItemType>>, skipped: seq<StagedWrite>): int {
    |kinds| - |skipped|
  }

  /** Nothing went wrong with the notes, or something did. */
  ghost predicate NotesTell(kind: Overview -> ItemType, kinds: seq<Option<ItemType>>, skipped: seq<StagedWrite>,
                            kinds': seq<Option<ItemType>>, skipped': seq<StagedWrite>, clean: bool)
  {
    if clean then
      Excess(kinds', skipped') == Excess(kinds, skipped)
          && (kinds == Kinds(kind, skipped) ==> kinds' == Kinds(kind, skipped'))
    else Excess(kinds', skipped') > Excess(kinds, skipped)
  }

  lemma RoundNotes(s: Setting, b: Batch, p: Progress)
    requires RoundOf(s, b, p).error.None?
    ensures var r := RoundOf(s, b, p);
            && Continues(p.log, r.progress.log)
            && NotesTell(s.answers.kind, b.kinds, b.skipped, r.batch.kinds, r.batch.skipped,
                         AllClean(r.progress.log, |p.log|))
  {
    var r := RoundOf(s, b, p);
    var answer := CheckedWrite(b.ws, s.answers.write(p.writes, b.ws));
    var (i, log) := (|p.log|, r.progress.log);
    assert log[i] == WriteTry(b.ws, answer);
    assert forall k: nat :: i < k < |log| ==> log[k].FetchTry?;
    assert AllClean(log, i) <==> Clean(log, i);
    if answer.Conflicted? {
      var ask := NotRevived(answer.names, b.revived);
      var found := if ask == [] then FetchedItems([], []) else Checked(ask, s.answers.fetch(p.fetches, ask));
      CleanMeans(b, p.log, answer.names, ask, found);
      NotesGrow(s.answers.kind, b, answer.names, Tombs(found.changes));
    }
  }

  lemma {:induction false} CleanMeans(b: Batch, before: seq<Exchange>, named: seq<ItemId>, ask: seq<ItemId>,
                                      found: FetchAnswer)
    requires ask == NotRevived(named, b.revived) && found.FetchedItems? && Plausible(ask, found)
    requires ask == [] ==> found == FetchedItems([], [])
    ensures var log := before + [WriteTry(b.ws, Conflicted(named))];
            Clean(if ask == [] then log else log + [FetchTry(ask, found)], |before|) <==>
                WithinAllowance(b, named, Tombs(found.changes))
  {
    var log := before + [WriteTry(b.ws, Conflicted(named))];
    var (all, ts, next) := (if ask == [] then log else log + [FetchTry(ask, found)], Tombs(found.changes),
                            |before| + 1);
    NotRevivedMeaning(named, b.revived);
    forall id ensures Tombstoned(all, next, id) <==> Revivable(b.revived, ts, id) {
      TombstoneMeans(found.changes, id);
    }
    assert forall id :: Allowance(b, ts, id) == IdBag(b.ws)[id] + (if Tombstoned(all, next, id) then 1 else 0);
    assert all[|before|] == WriteTry(b.ws, Conflicted(named));
  }

  lemma NotesTellOn(kind: Overview -> ItemType, k: seq<Option<ItemType>>, sk: seq<StagedWrite>,
                    k': seq<Option<ItemType>>, sk': seq<StagedWrite>,
                    k'': seq<Option<ItemType>>, sk'': seq<StagedWrite>, log: seq<Exchange>, later: seq<Exchange>,
                        from: nat)
    requires Continues(log, later) && from <= |log|
    requires NotesTell(kind, k, sk, k', sk', AllClean(log, from))
             && NotesTell(kind, k', sk', k'', sk'', AllClean(later, |log|))
    ensures NotesTell(kind, k, sk, k'', sk'', AllClean(later, from))
  {
    AllCleanSplit(log, later, from);
  }

  lemma {:induction false} BatchNotes(s: Setting, b: Batch, p: Progress)
    requires BatchOf(s, b, p).error.None?
    ensures var r := BatchOf(s, b, p);
            && Continues(p.log, r.progress.log)
            && NotesTell(s.answers.kind, b.kinds, b.skipped, r.batch.kinds, r.batch.skipped,
                         AllClean(r.progress.log, |p.log|))
    decreases Rounds(b.ws, b.revived)
  {
    if b.ws != [] {
      var (q, r) := (RoundOf(s, b, p), BatchOf(s, b, p));
      RoundNotes(s, b, p);
      RoundShrinks(s, b, p);
      BatchNotes(s, q.batch, q.progress);
      NotesTellOn(s.answers.kind, b.kinds, b.skipped, q.batch.kinds, q.batch.skipped, r.batch.kinds, r.batch.skipped,
                  q.progress.log, r.progress.log, |p.log|);
    }
  }

  /** One batch, then the rest of the run. */
  lemma BatchThenRest(s: Setting, p: Progress, d: Progress, q: Progress)
    requires Continues(p.log, d.log) && Continues(d.log, q.log)
    requires NotesTell(s.answers.kind, p.kinds, p.skipped, d.kinds, d.skipped, AllClean(d.log, |p.log|))
    requires NotesTell(s.answers.kind, d.kinds, d.skipped, q.kinds, q.skipped, AllClean(q.log, |d.log|))
    ensures Continues(p.log, q.log)
    ensures NotesTell(s.answers.kind, p.kinds, p.skipped, q.kinds, q.skipped, AllClean(q.log, |p.log|))
  {
    NotesTellOn(s.answers.kind, p.kinds, p.skipped, d.kinds, d.skipped, q.kinds, q.skipped, d.log, q.log, |p.log|);
  }

  lemma {:induction false} FirstBatchNotes(s: Setting, queue: seq<StagedWrite>, p: Progress, r: Rounded)
    requires r == BatchOf(s, NewBatch(queue, p), p) && r.error.None?
    ensures Continues(p.log, BatchDone(r).log)
    ensures NotesTell(s.answers.kind, p.kinds, p.skipped, BatchDone(r).kinds, BatchDone(r).skipped,
                      AllClean(BatchDone(r).log, |p.log|))
  {
    BatchNotes(s, NewBatch(queue, p), p);
  }

  lemma {:induction false} RunNotes(s: Setting, queue: seq<StagedWrite>, p: Progress)
    requires RestoreOf(s, queue, p).error.None?
    ensures var q := RestoreOf(s, queue, p).progress;
            && Continues(p.log, q.log)
            && NotesTell(s.answers.kind, p.kinds, p.skipped, q.kinds, q.skipped, AllClean(q.log, |p.log|))
    decreases |queue|
  {
    if queue != [] {
      var n := ChunkSize(queue);
      var r := BatchOf(s, NewBatch(queue[..n], p), p);
      assert RestoreOf(s, queue, p) == RestoreOf(s, queue[n..], BatchDone(r));
      RunNotes(s, queue[n..], BatchDone(r));
      FirstBatchNotes(s, queue[..n], p, r);
      BatchThenRest(s, p, BatchDone(r), RestoreOf(s, queue[n..], BatchDone(r)).progress);
    }
  }

  /** A restore that succeeds notes exactly the writes it left to the server, under
      their own types, if and only if no refusal named an item too often. */
  lemma {:induction false} RestoreNotesExactly(s: Setting, staged: seq<StagedWrite>)
    requires RestoreOf(s, staged, NOTHING_SENT).error.None?
    ensures var p := RestoreOf(s, staged, NOTHING_SENT).progress;
            p.kinds == Kinds(s.answers.kind, p.skipped) <==> AllClean(p.log, 0)
  {
    RunNotes(s, staged, NOTHING_SENT);
  }
}
