/**
 A restore against a server that keeps the item rules: whatever other devices write
 meanwhile, no live row is ever overwritten; and against a server at rest, one
 conflicting item never sinks the rest of its batch, but for tombstones that the
 server does not answer for.
 */
module RestoreServer {
  import opened Wrappers
  import opened Changes
  import opened Vault
  import opened Server
  import opened Agreement
  import opened SyncLoop
  import opened Retry
  import opened Restore
  import opened RestoreLog

  // ---------------------------------------------------------------- never over a live row

  /** `log` is what a client and the server of `run` exchanged: the `i`-th
      exchange happened at state `at(i)`, in order, with anyone's batches in
      between. */
  ghost predicate Happened(log: seq<Exchange>, run: seq<Server>, at: nat -> nat) {
    && ServerRun(run)
    && (forall i: nat :: i < |log| ==> at(i) < |run|)
    && (forall i: nat, j: nat :: i <= j < |log| ==> at(i) <= at(j))
    && (forall i: nat :: i < |log| && log[i].FetchTry? && log[i].found.FetchedItems? ==>
          forall c <- log[i].found.changes :: c.id in run[at(i)].rows && c == ChangeOf(c.id, run[at(i)].rows[c.id]))
    && (forall i: nat :: i < |log| && log[i].WriteTry? && log[i].answer.Acked? ==>
          at(i) + 1 < |run| && Accepted(run[at(i)], ToChanges(log[i].batch))
          && run[at(i) + 1] == Written(run[at(i)], ToChanges(log[i].batch)))
  }

  lemma {:induction false} ToChangesHas(ws: seq<StagedWrite>, w: StagedWrite)
    requires w in ws
    ensures ToChange(w) in ToChanges(ws)
  {
    var front, last := ws[..|ws| - 1], ws[|ws| - 1];
    assert ws == front + [last];
    if w in front {
      ToChangesHas(front, w);
    }
  }

  /** Every write of a restore that is accepted lands on an id the server had no row
      for, or on a tombstone: whatever other devices write meanwhile, a live row is
      never overwritten. */
  lemma {:induction false} RestoreNeverOverwrites(s: Setting, staged: seq<StagedWrite>, run: seq<Server>,
                                                  at: nat -> nat, i: nat, w: StagedWrite)
    requires forall v <- staged :: v.base.None?
    requires var log := RestoreOf(s, staged, NOTHING_SENT).progress.log;
             Happened(log, run, at) && i < |log| && log[i].WriteTry? && log[i].answer.Acked? && w in log[i].batch
    ensures w.id in run[at(i)].rows ==> run[at(i)].rows[w.id].blobs.None?
  {
    var log := RestoreOf(s, staged, NOTHING_SENT).progress.log;
    RestoreIsAccountable(s, staged);
    ToChangesHas(log[i].batch, w);
    assert !Refused(run[at(i)], ToChange(w));
    assert BaseAllowed(log[..i], staged, w);
    if w.id in run[at(i)].rows && w !in staged {
      var j, c :| 0 <= j < |log[..i]| && log[..i][j].FetchTry? && log[..i][j].found.FetchedItems?
          && c in log[..i][j].found.changes
                  && c.id == w.id && c.deleted && w.base == Some(c.revision);
      assert log[..i][j] == log[j];
      RevisionIdentifiesRow(run, at(j), at(i), w.id);
    }
  }

  // ---------------------------------------------------------------- one conflict never sinks the rest

  predicate Live(server: Server, id: ItemId) {
    id in server.rows && server.rows[id].blobs.Some?
  }

  function RefusedIds(server: Server, ws: seq<StagedWrite>): set<ItemId> {
    set w | w in ws && Refused(server, ToChange(w)) :: w.id
  }

  /** What a server that keeps the item rules answers to a write. It names the
      refused items; nothing is said of how often. */
  ghost predicate HonestWrite(server: Server, batch: seq<StagedWrite>, a: WriteAnswer) {
    match a
    case WriteFailed => false
    case Conflicted(names) =>
      !Accepted(server, ToChanges(batch)) && forall id :: id in names <==> id in RefusedIds(server, batch)
    case Acked(applied) =>
      && Accepted(server, ToChanges(batch)) && |applied| == |batch|
      && forall i :: 0 <= i < |batch| ==> applied[i] == (batch[i].id, server.revision + 1)
  }

  /** What it answers to a fetch: the row of each item asked for that it has, but for
      those it leaves for another request and names. */
  ghost predicate HonestFound(server: Server, ask: seq<ItemId>, a: FetchAnswer) {
    && a.FetchedItems? && Plausible(ask, a)
    && (forall id <- a.unanswered :: id in server.rows)
    && forall c :: c in a.changes <==>
                   c.id in ask && c.id in server.rows && c.id !in a.unanswered && c == ChangeOf(c.id, server.rows[c.id])
  }

  /** The server stays as it is for two writes and the fetch between them. */
  ghost predicate AtRest(answers: Answers, server: Server, k: nat, f: nat) {
    && (forall j: nat, batch :: k <= j <= k + 1 ==> HonestWrite(server, batch, answers.write(j, batch)))
    && (forall ask: seq<ItemId> :: HonestFound(server, ask, answers.fetch(f, ask)))
  }

  /** The refused tombstones the client cannot revive: the fetch leaves them
      unanswered, or the refusal names them more than once. */
  ghost function Lost(server: Server, named: seq<ItemId>, found: FetchAnswer): set<ItemId> {
    set id | id in named && !Live(server, id)
             && ((found.FetchedItems? && id in found.unanswered) || multiset(named)[id] > 1)
  }

  /** Those of the next write request. */
  ghost function LostNext(s: Setting, server: Server, ws: seq<StagedWrite>, p: Progress): set<ItemId> {
    match s.answers.write(p.writes, ws)
    case Conflicted(named) => Lost(server, named, s.answers.fetch(p.fetches, named))
    case _ => {}
  }

  /** The server has a row of the item that is not to be revived. */
  predicate Blocked(server: Server, lost: set<ItemId>, id: ItemId) {
    Live(server, id) || (id in server.rows && id in lost)
  }

  /** The writes of new items as the server will take them: those it has no row for
      as they are, those it holds a tombstone of based on it, but for the lost ones. */
  function Takeable(server: Server, ws: seq<StagedWrite>, lost: set<ItemId>): (r: seq<StagedWrite>)
    ensures forall w <- r :: w.id in Ids(ws)
  {
    if ws == [] then []
    else
      var (w, rest) := (ws[0], Takeable(server, ws[1..], lost));
      assert ws == [w] + ws[1..];
      if Blocked(server, lost, w.id) then rest
      else if w.id in server.rows then [w.(base := Some(server.rows[w.id].revision))] + rest
      else [w] + rest
  }

  /** The other writes. */
  function Stuck(server: Server, ws: seq<StagedWrite>, lost: set<ItemId>): seq<StagedWrite> {
    if ws == [] then []
    else (if Blocked(server, lost, ws[0].id) then [ws[0]] else []) + Stuck(server, ws[1..], lost)
  }

  lemma OneMorePayload(w: StagedWrite, ws: seq<StagedWrite>)
    ensures Payloads([w] + ws) == multiset{Payload(w)} + Payloads(ws)
  {
    assert ([w] + ws)[1..] == ws;
  }

  lemma {:induction false} TakeableOrStuck(server: Server, ws: seq<StagedWrite>, lost: set<ItemId>)
    ensures Payloads(ws) == Payloads(Takeable(server, ws, lost)) + Payloads(Stuck(server, ws, lost))
  {
    if ws != [] {
      var (w, taken, stuck) := (ws[0], Takeable(server, ws[1..], lost), Stuck(server, ws[1..], lost));
      TakeableOrStuck(server, ws[1..], lost);
      assert [] + stuck == stuck;
      if Blocked(server, lost, w.id) {
        OneMorePayload(w, stuck);
      } else if w.id in server.rows {
        OneMorePayload(w.(base := Some(server.rows[w.id].revision)), taken);
      } else {
        OneMorePayload(w, taken);
      }
    }
  }

  function AtRevision(ws: seq<StagedWrite>, revision: int): seq<Commit> {
    seq(|ws|, i requires 0 <= i < |ws| => Commit(ws[i], revision))
  }

  /** A staged restore write: a whole item, new to the server, of the vault as it is. */
  predicate NewItem(s: Setting, w: StagedWrite) {
    w.base.None? && w.overview.Some? && w.details.Some? && Recordable(s.unlocked, s.epoch, w)
  }

  lemma {:induction false} ToChangesFrom(ws: seq<StagedWrite>, c: Change)
    requires c in ToChanges(ws)
    ensures exists w <- ws :: ToChange(w) == c
  {
    var front, last := ws[..|ws| - 1], ws[|ws| - 1];
    assert ws == front + [last];
    if c != ToChange(last) {
      ToChangesFrom(front, c);
    }
  }

  lemma {:induction false} AcceptedMeans(server: Server, ws: seq<StagedWrite>)
    ensures Accepted(server, ToChanges(ws)) <==> RefusedIds(server, ws) == {}
  {
    if Accepted(server, ToChanges(ws)) {
      forall w | w in ws ensures !Refused(server, ToChange(w)) {
        ToChangesHas(ws, w);
      }
    } else {
      var c :| c in ToChanges(ws) && Refused(server, c);
      ToChangesFrom(ws, c);
      assert c.id in RefusedIds(server, ws);
    }
  }

  lemma {:induction false} RecordingAt(s: Setting, ws: seq<StagedWrite>, applied: seq<(ItemId, int)>, revision: int)
    requires forall w <- ws :: RevisionFor(applied, w.id) == Some(revision) && Recordable(s.unlocked, s.epoch, w)
    ensures Recording(s.unlocked, s.epoch, ws, applied) == (AtRevision(ws, revision), None)
  {
    if ws != [] {
      assert ws == [ws[0]] + ws[1..];
      RecordingAt(s, ws[1..], applied, revision);
      assert AtRevision(ws, revision) == [Commit(ws[0], revision)] + AtRevision(ws[1..], revision);
    }
  }

  /** A batch the server does not refuse is recorded whole, at its next revision. */
  lemma {:induction false} AcceptedRound(s: Setting, server: Server, b: Batch, p: Progress)
    requires b.ws != [] && RefusedIds(server, b.ws) == {} && forall w <- b.ws :: Recordable(s.unlocked, s.epoch, w)
    requires HonestWrite(server, b.ws, s.answers.write(p.writes, b.ws))
    ensures s.answers.write(p.writes, b.ws).Acked?
    ensures var r := BatchOf(s, b, p);
            && r.error.None? && r.batch.skipped == b.skipped && r.progress.writes == p.writes + 1
            && r.progress.committed == p.committed + AtRevision(b.ws, server.revision + 1)
  {
    AcceptedMeans(server, b.ws);
    var applied := s.answers.write(p.writes, b.ws).applied;
    forall w | w in b.ws ensures RevisionFor(applied, w.id) == Some(server.revision + 1) {
      var i :| 0 <= i < |b.ws| && b.ws[i] == w;
      assert applied[i] in applied;
    }
    RecordingAt(s, b.ws, applied, server.revision + 1);
    var r := RoundOf(s, b, p);
    assert r.error.None? && r.batch.ws == [];
    RoundShrinks(s, b, p);
    assert BatchOf(s, b, p) == BatchOf(s, r.batch, r.progress);
  }

  /** What the fetch says about a refused item. */
  lemma TombstonesFound(server: Server, named: seq<ItemId>, a: FetchAnswer, id: ItemId)
    requires HonestFound(server, named, a) && id in named && id in server.rows
    ensures Revivable({}, Tombs(a.changes), id) <==> !Live(server, id) && id !in a.unanswered
    ensures Revivable({}, Tombs(a.changes), id) ==> TombstoneOf(Tombs(a.changes), id) == Some(server.rows[id].revision)
    ensures Stays(named, {}, Tombs(a.changes), id) <==> !Blocked(server, Lost(server, named, a), id)
  {
    TombstoneMeans(a.changes, id);
    assert id !in a.unanswered ==> ChangeOf(id, server.rows[id]) in a.changes;
    assert multiset(named)[id] >= 1;
  }

  lemma {:induction false} SiftedIsTakeable(server: Server, ws: seq<StagedWrite>, named: seq<ItemId>,
                                            ts: seq<(ItemId, int)>, lost: set<ItemId>)
    requires forall w <- ws :: w.id in named <==> w.id in server.rows
    requires forall id <- named :: id in server.rows && (Stays(named, {}, ts, id) <==> !Blocked(server, lost, id))
    requires forall id <- named :: Revivable({}, ts, id) ==> TombstoneOf(ts, id) == Some(server.rows[id].revision)
    ensures Sifted(ws, named, {}, ts) == Takeable(server, ws, lost)
  {
    if ws != [] {
      assert ws == [ws[0]] + ws[1..] && ws[0] in ws;
      SiftedIsTakeable(server, ws[1..], named, ts, lost);
      var rest := Takeable(server, ws[1..], lost);
      assert [] + rest == rest;
    }
  }

  lemma RefusedMeans(s: Setting, server: Server, ws: seq<StagedWrite>)
    requires forall w <- ws :: NewItem(s, w)
    ensures forall w <- ws :: Refused(server, ToChange(w)) <==> w.id in server.rows
    ensures forall id :: id in RefusedIds(server, ws) <==> id in Ids(ws) && id in server.rows
  {
  }

  lemma {:induction false} TakeableIsTaken(s: Setting, server: Server, ws: seq<StagedWrite>, lost: set<ItemId>)
    requires forall w <- ws :: NewItem(s, w)
    ensures forall w <- Takeable(server, ws, lost) ::
              !Refused(server, ToChange(w)) && Recordable(s.unlocked, s.epoch, w)
  {
    if ws != [] {
      assert ws == [ws[0]] + ws[1..] && ws[0] in ws;
      TakeableIsTaken(s, server, ws[1..], lost);
    }
  }

  lemma {:induction false} NoneToAvoid(named: seq<ItemId>)
    ensures NotRevived(named, {}) == named
  {
    if named != [] {
      NoneToAvoid(named[1..]);
    }
  }

  lemma ConflictRound(s: Setting, b: Batch, p: Progress, named: seq<ItemId>, found: FetchAnswer)
    requires b.revived == {} && named != [] && (forall id <- named :: id in Ids(b.ws))
    requires s.answers.write(p.writes, b.ws) == Conflicted(named)
    requires found == s.answers.fetch(p.fetches, named) && found.FetchedItems? && Plausible(named, found)
    ensures var r := RoundOf(s, b, p);
            && r.error.None? && r.progress.writes == p.writes + 1 && r.progress.committed == p.committed
            && r.batch == Resolved(s.answers.kind, b, named, Tombs(found.changes))
  {
    NoneToAvoid(named);
  }

  /** What the answers leave of a refused batch. */
  lemma FoundAnswer(kind: Overview -> ItemType, s: Setting, server: Server, b: Batch, named: seq<ItemId>,
                    found: FetchAnswer)
    requires OneEach(b.ws) && (forall w <- b.ws :: NewItem(s, w)) && b.revived == {}
    requires (forall id :: id in named <==> id in RefusedIds(server, b.ws)) && HonestFound(server, named, found)
    ensures var c := Resolved(kind, b, named, Tombs(found.changes));
            var lost := Lost(server, named, found);
            && c.ws == Takeable(server, b.ws, lost)
            && Payloads(c.skipped) == Payloads(b.skipped) + Payloads(Stuck(server, b.ws, lost))
  {
    var (ts, lost) := (Tombs(found.changes), Lost(server, named, found));
    RefusedMeans(s, server, b.ws);
    forall id | id in named
      ensures Stays(named, {}, ts, id) <==> !Blocked(server, lost, id)
      ensures Revivable({}, ts, id) ==> TombstoneOf(ts, id) == Some(server.rows[id].revision)
    {
      TombstonesFound(server, named, found, id);
    }
    assert forall w <- b.ws :: w.id in Ids(b.ws);
    SiftedIsTakeable(server, b.ws, named, ts, lost);
    AnswerMeaning(kind, b, named, ts);
    SkippedAreStuck(kind, server, b, named, ts, lost);
  }

  lemma SkippedAreStuck(kind: Overview -> ItemType, server: Server, b: Batch, named: seq<ItemId>,
                        ts: seq<(ItemId, int)>, lost: set<ItemId>)
    requires (forall id <- named :: id in Ids(b.ws)) && Resolved(kind, b, named, ts).ws == Takeable(server, b.ws, lost)
    ensures Payloads(Resolved(kind, b, named, ts).skipped) == Payloads(b.skipped) + Payloads(Stuck(server, b.ws, lost))
  {
    var c := Resolved(kind, b, named, ts);
    ResolvedSettles(kind, b, named, ts);
    assert Payloads(b.ws) + Payloads(b.skipped) == Payloads(c.ws) + Payloads(c.skipped);
    TakeableOrStuck(server, b.ws, lost);
    Cancelled(Payloads(c.ws), Payloads(Stuck(server, b.ws, lost)), Payloads(b.skipped), Payloads(c.skipped));
  }

  lemma Cancelled(taken: multiset<StagedWrite>, stuck: multiset<StagedWrite>, before: multiset<StagedWrite>,
                  after: multiset<StagedWrite>)
    requires (taken + stuck) + before == taken + after
    ensures after == before + stuck
  {
    forall w: StagedWrite ensures after[w] == (before + stuck)[w] {
      assert ((taken + stuck) + before)[w] == (taken + after)[w];
    }
  }

  /** The first round of a refused batch. */
  lemma RefusedRound(s: Setting, server: Server, ws: seq<StagedWrite>, p: Progress)
    requires OneEach(ws) && (forall w <- ws :: NewItem(s, w)) && RefusedIds(server, ws) != {}
    requires AtRest(s.answers, server, p.writes, p.fetches)
    ensures var (r, lost) := (RoundOf(s, NewBatch(ws, p), p), LostNext(s, server, ws, p));
            && r.error.None? && r.progress.writes == p.writes + 1 && r.progress.committed == p.committed
            && r.batch.ws == Takeable(server, ws, lost)
            && Payloads(r.batch.skipped) == Payloads(p.skipped) + Payloads(Stuck(server, ws, lost))
  {
    var b := NewBatch(ws, p);
    AcceptedMeans(server, ws);
    assert HonestWrite(server, ws, s.answers.write(p.writes, ws));
    var named := s.answers.write(p.writes, ws).names;
    var found := s.answers.fetch(p.fetches, named);
    assert HonestFound(server, named, found);
    RefusedMeans(s, server, ws);
    ConflictRound(s, b, p, named, found);
    FoundAnswer(s.answers.kind, s, server, b, named, found);
  }

  lemma {:induction false} NothingHeld(server: Server, ws: seq<StagedWrite>, lost: set<ItemId>)
    requires forall w <- ws :: w.id !in server.rows
    ensures Takeable(server, ws, lost) == ws && Stuck(server, ws, lost) == []
  {
    if ws != [] {
      assert ws == [ws[0]] + ws[1..];
      NothingHeld(server, ws[1..], lost);
    }
  }

  /** The write is among the recorded ones, whatever its base. */
  ghost predicate RecordedIn(cs: seq<Commit>, w: StagedWrite) {
    exists c <- cs :: Payload(c.write) == Payload(w)
  }

  lemma {:induction false} TakeableHas(server: Server, ws: seq<StagedWrite>, lost: set<ItemId>, revision: int,
                                       w: StagedWrite)
    requires w in ws && !Blocked(server, lost, w.id)
    ensures RecordedIn(AtRevision(Takeable(server, ws, lost), revision), w)
  {
    var taken := Takeable(server, ws, lost);
    if ws[0] == w {
      assert Payload(taken[0]) == Payload(w);
      assert AtRevision(taken, revision)[0] == Commit(taken[0], revision);
    } else {
      assert ws == [ws[0]] + ws[1..];
      TakeableHas(server, ws[1..], lost, revision, w);
      var cs := AtRevision(Takeable(server, ws[1..], lost), revision);
      var i :| 0 <= i < |cs| && Payload(cs[i].write) == Payload(w);
      var k := |taken| - |cs| + i;
      assert taken[k] == cs[i].write;
      assert AtRevision(taken, revision)[k] == Commit(taken[k], revision);
    }
  }

  lemma {:induction false} TakeableHasNot(server: Server, ws: seq<StagedWrite>, lost: set<ItemId>, w: StagedWrite)
    requires w in Takeable(server, ws, lost)
    ensures !Blocked(server, lost, w.id)
  {
    if ws != [] {
      if w in Takeable(server, ws[1..], lost) {
        TakeableHasNot(server, ws[1..], lost, w);
      }
    }
  }

  /** Everything without a live row is recorded exactly when no tombstone is lost. */
  lemma {:induction false} NothingSunk(server: Server, ws: seq<StagedWrite>, lost: set<ItemId>, revision: int)
    requires forall id <- lost :: id in Ids(ws) && id in server.rows && !Live(server, id)
    ensures var cs := AtRevision(Takeable(server, ws, lost), revision);
            (forall w <- ws :: Live(server, w.id) || RecordedIn(cs, w)) <==> lost == {}
  {
    var cs := AtRevision(Takeable(server, ws, lost), revision);
    if lost == {} {
      forall w | w in ws ensures Live(server, w.id) || RecordedIn(cs, w) {
        if !Live(server, w.id) {
          TakeableHas(server, ws, lost, revision, w);
        }
      }
    } else {
      var id :| id in lost;
      var w :| w in ws && w.id == id;
      if RecordedIn(cs, w) {
        var i :| 0 <= i < |cs| && Payload(cs[i].write) == Payload(w);
        assert cs[i].write in Takeable(server, ws, lost) && cs[i].write.id == id;
        TakeableHasNot(server, ws, lost, cs[i].write);
      }
    }
  }

  lemma LostAreTombstones(s: Setting, server: Server, ws: seq<StagedWrite>, p: Progress)
    requires (forall w <- ws :: NewItem(s, w)) && AtRest(s.answers, server, p.writes, p.fetches)
    ensures forall id <- LostNext(s, server, ws, p) :: id in Ids(ws) && id in server.rows && !Live(server, id)
  {
    RefusedMeans(s, server, ws);
    assert HonestWrite(server, ws, s.answers.write(p.writes, ws));
  }

  /** A batch of new items, sent to a server at rest, is done in two writes: every
      item the server has no row for, or a tombstone that is not lost, is recorded at
      the server's next revision, and the other writes are left alone. So every item
      without a live row is recorded if and only if no refused tombstone is
      unanswered or named twice. */
  lemma {:induction false} OneConflictSinksNothing(s: Setting, server: Server, ws: seq<StagedWrite>, p: Progress)
    requires OneEach(ws) && (forall w <- ws :: NewItem(s, w)) && AtRest(s.answers, server, p.writes, p.fetches)
    ensures var (r, lost) := (BatchOf(s, NewBatch(ws, p), p), LostNext(s, server, ws, p));
            && r.error.None? && r.progress.writes <= p.writes + 2
            && r.progress.committed == p.committed + AtRevision(Takeable(server, ws, lost), server.revision + 1)
            && Payloads(r.batch.skipped) == Payloads(p.skipped) + Payloads(Stuck(server, ws, lost))
            && ((forall w <- ws :: Live(server, w.id) || RecordedIn(r.progress.committed[|p.committed|..], w)) <==>
                lost == {})
  {
    var lost := LostNext(s, server, ws, p);
    BatchIsDone(s, server, ws, p);
    LostAreTombstones(s, server, ws, p);
    NothingSunk(server, ws, lost, server.revision + 1);
    var done := AtRevision(Takeable(server, ws, lost), server.revision + 1);
    assert (p.committed + done)[|p.committed|..] == done;
  }

  lemma {:induction false} BatchIsDone(s: Setting, server: Server, ws: seq<StagedWrite>, p: Progress)
    requires OneEach(ws) && (forall w <- ws :: NewItem(s, w)) && AtRest(s.answers, server, p.writes, p.fetches)
    ensures var (r, lost) := (BatchOf(s, NewBatch(ws, p), p), LostNext(s, server, ws, p));
            && r.error.None? && r.progress.writes <= p.writes + 2
            && r.progress.committed == p.committed + AtRevision(Takeable(server, ws, lost), server.revision + 1)
            && Payloads(r.batch.skipped) == Payloads(p.skipped) + Payloads(Stuck(server, ws, lost))
  {
    var (b, lost) := (NewBatch(ws, p), LostNext(s, server, ws, p));
    if ws == [] {
      assert AtRevision([], server.revision + 1) == [];
    } else if RefusedIds(server, ws) == {} {
      RefusedMeans(s, server, ws);
      assert forall w <- ws :: w.id in Ids(ws);
      NothingHeld(server, ws, lost);
      assert HonestWrite(server, ws, s.answers.write(p.writes, ws));
      AcceptedRound(s, server, b, p);
    } else {
      RefusedRound(s, server, ws, p);
      SecondRound(s, server, ws, p, RoundOf(s, b, p), lost);
      RoundShrinks(s, b, p);
    }
  }

  lemma SecondRound(s: Setting, server: Server, ws: seq<StagedWrite>, p: Progress, r: Rounded, lost: set<ItemId>)
    requires (forall w <- ws :: NewItem(s, w)) && AtRest(s.answers, server, p.writes, p.fetches)
    requires r.batch.ws == Takeable(server, ws, lost) && r.progress.writes == p.writes + 1
    ensures var t := BatchOf(s, r.batch, r.progress);
            && t.error.None? && t.progress.writes <= p.writes + 2 && t.batch.skipped == r.batch.skipped
            && t.progress.committed == r.progress.committed
                + AtRevision(Takeable(server, ws, lost), server.revision + 1)
  {
    TakeableIsTaken(s, server, ws, lost);
    if r.batch.ws == [] {
      assert AtRevision([], server.revision + 1) == [];
    } else {
      assert HonestWrite(server, r.batch.ws, s.answers.write(p.writes + 1, r.batch.ws));
      AcceptedRound(s, server, r.batch, r.progress);
    }
  }

  // ---------------------------------------------------------------- a tombstone taken for a live row

  const LIVE_ITEM: ItemId := 1
  const DEAD_ITEM: ItemId := 2

  const EMPTY_SERVER := ServerState(0, map[])
  const BOTH_LIVE := ServerState(1, map[LIVE_ITEM := Row(1, Some(([], []))), DEAD_ITEM := Row(1, Some(([], [])))])
  const ONE_DEAD := ServerState(2, map[LIVE_ITEM := Row(1, Some(([], []))), DEAD_ITEM := Row(2, None)])

  lemma OneDeadIsReached()
    ensures ServerRun([EMPTY_SERVER, BOTH_LIVE, ONE_DEAD])
  {
    var create := [Change(LIVE_ITEM, None, Some(([], []))), Change(DEAD_ITEM, None, Some(([], [])))];
    var delete := [Change(DEAD_ITEM, Some(1), None)];
    assert create[..1] == [create[0]] && [create[0]][..0] == [] && delete[..0] == [];
    assert Stamped([create[0]], 1) == map[LIVE_ITEM := Row(1, Some(([], [])))];
    assert Stamped(create, 1) == BOTH_LIVE.rows;
    assert Stamped(delete, 2) == map[DEAD_ITEM := Row(2, None)];
    assert Accepted(EMPTY_SERVER, create) && Written(EMPTY_SERVER, create) == BOTH_LIVE;
    assert Accepted(BOTH_LIVE, delete) && Written(BOTH_LIVE, delete) == ONE_DEAD;
  }

  /** The two items of a restore, one live on the server, one deleted: the live row
      fills the answer, the tombstone is left for another request that is never made. */
  ghost predicate AnswerCutShort(s: Setting, ws: seq<StagedWrite>) {
    && |ws| == 2 && ws[0].id == LIVE_ITEM && ws[1].id == DEAD_ITEM && NewItem(s, ws[0]) && NewItem(s, ws[1])
    && s.answers.write(0, ws) == Conflicted([LIVE_ITEM, DEAD_ITEM])
    && s.answers.fetch(0, [LIVE_ITEM, DEAD_ITEM]) ==
        FetchedItems([ChangeOf(LIVE_ITEM, ONE_DEAD.rows[LIVE_ITEM])], [DEAD_ITEM])
  }

  /** The deleted item is left alone like the live one: nothing is recorded, without an error. */
  lemma {:induction false} UnansweredTombstoneIsLost(s: Setting, ws: seq<StagedWrite>)
    requires AnswerCutShort(s, ws)
    ensures ServerRun([EMPTY_SERVER, BOTH_LIVE, ONE_DEAD]) && !Live(ONE_DEAD, DEAD_ITEM)
    ensures HonestWrite(ONE_DEAD, ws, s.answers.write(0, ws))
    ensures HonestFound(ONE_DEAD, [LIVE_ITEM, DEAD_ITEM], s.answers.fetch(0, [LIVE_ITEM, DEAD_ITEM]))
    ensures var f := RestoreOf(s, ws, NOTHING_SENT);
            f.error.None? && f.progress.committed == [] && f.progress.skipped == ws
  {
    OneDeadIsReached();
    HonestlyCutShort(s, ws);
    CutShortRound(s, ws);
    var r := BatchOf(s, NewBatch(ws, NOTHING_SENT), NOTHING_SENT);
    assert ws[..2] == ws && ws[2..] == [];
    assert RestoreOf(s, ws, NOTHING_SENT) == RestoreOf(s, [], BatchDone(r));
  }

  lemma HonestlyCutShort(s: Setting, ws: seq<StagedWrite>)
    requires AnswerCutShort(s, ws)
    ensures HonestWrite(ONE_DEAD, ws, s.answers.write(0, ws))
    ensures HonestFound(ONE_DEAD, [LIVE_ITEM, DEAD_ITEM], s.answers.fetch(0, [LIVE_ITEM, DEAD_ITEM]))
  {
    RefusedMeans(s, ONE_DEAD, ws);
    AcceptedMeans(ONE_DEAD, ws);
    assert ws[0] in ws && ws[1] in ws && LIVE_ITEM in RefusedIds(ONE_DEAD, ws);
    var changes := [ChangeOf(LIVE_ITEM, ONE_DEAD.rows[LIVE_ITEM])];
    assert changes[0] in changes;
  }

  lemma CutShortRound(s: Setting, ws: seq<StagedWrite>)
    requires AnswerCutShort(s, ws)
    ensures var r := BatchOf(s, NewBatch(ws, NOTHING_SENT), NOTHING_SENT);
            r.error.None? && r.batch.ws == [] && r.batch.skipped == ws && r.progress.committed == []
  {
    var (named, b) := ([LIVE_ITEM, DEAD_ITEM], NewBatch(ws, NOTHING_SENT));
    var found := s.answers.fetch(0, named);
    assert ws[0] in ws && ws[1] in ws && Tombs(found.changes) == [];
    ConflictRound(s, b, NOTHING_SENT, named, found);
    BothLeave(s.answers.kind, b);
    var r := RoundOf(s, b, NOTHING_SENT);
    assert [] + ws == ws && r.batch.ws == [] && r.batch.skipped == ws;
    RoundShrinks(s, b, NOTHING_SENT);
    assert BatchOf(s, b, NOTHING_SENT) == BatchOf(s, r.batch, r.progress);
  }

  lemma BothLeave(kind: Overview -> ItemType, b: Batch)
    requires |b.ws| == 2 && b.ws[0].id == LIVE_ITEM && b.ws[1].id == DEAD_ITEM
    ensures var c := Resolved(kind, b, [LIVE_ITEM, DEAD_ITEM], []);
            c.ws == [] && c.skipped == b.skipped + b.ws
  {
    var named := [LIVE_ITEM, DEAD_ITEM];
    assert named[..1] == [LIVE_ITEM] && [LIVE_ITEM][..0] == [];
    assert Resolved(kind, b, [], []) == b;
    var c := Resolve(kind, b, [], LIVE_ITEM);
    assert Resolved(kind, b, [LIVE_ITEM], []) == c;
    assert b.ws[..0] + b.ws[1..] == [b.ws[1]] == c.ws && c.skipped == b.skipped + [b.ws[0]];
    assert [b.ws[1]][..0] + [b.ws[1]][1..] == [];
    assert (b.skipped + [b.ws[0]]) + [b.ws[1]] == b.skipped + b.ws;
  }
}
