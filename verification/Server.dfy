/**
 The server's item rules: one vault revision, bumped once per accepted batch and
 stamped on every row the batch touches; deletions stay as tombstones; a batch
 with one stale base revision is refused whole.
 */
module Server {
  import opened Wrappers
  import opened Changes
  import opened Vault

  /** `blobs == None` is a tombstone. */
  datatype Row = Row(revision: int, blobs: Option<(Blob, Blob)>)

  datatype Server = ServerState(revision: int, rows: map<ItemId, Row>)

  /** One requested change; `blobs == None` asks for a deletion. */
  datatype Change = Change(id: ItemId, base: Option<int>, blobs: Option<(Blob, Blob)>)

  /** A refused change: the item and the revision the server holds, if any. */
  datatype Conflict = Conflict(id: ItemId, revision: Option<int>)

  datatype Ack = Ack(cursor: int, applied: seq<(ItemId, int)>)

  datatype Page = Page(since: int, next: int, hasMore: bool, changes: seq<RemoteChange>)

  predicate ServerOk(s: Server) {
    0 <= s.revision && forall id <- s.rows :: 0 < s.rows[id].revision <= s.revision
  }

  function ChangeOf(id: ItemId, row: Row): RemoteChange {
    RemoteChange(id, row.revision,
                 if row.blobs.Some? then Some(row.blobs.value.0) else None,
                 if row.blobs.Some? then Some(row.blobs.value.1) else None,
                 row.blobs.None?)
  }

  // ---------------------------------------------------------------- writes

  predicate Refused(s: Server, c: Change) {
    if c.id in s.rows then
      c.base != Some(s.rows[c.id].revision) || (s.rows[c.id].blobs.None? && c.blobs.None?)
    else
      c.base.Some?
  }

  predicate Accepted(s: Server, batch: seq<Change>) {
    forall c <- batch :: !Refused(s, c)
  }

  function Stamped(batch: seq<Change>, revision: int): map<ItemId, Row> {
    if batch == [] then map[]
    else
      var c := batch[|batch| - 1];
      Stamped(batch[..|batch| - 1], revision)[c.id := Row(revision, c.blobs)]
  }

  /** The last change of the batch that names its item. */
  predicate LastNamed(batch: seq<Change>, i: nat) {
    i < |batch| && forall j :: i < j < |batch| ==> batch[j].id != batch[i].id
  }

  lemma {:induction false} StampedNames(batch: seq<Change>, revision: int)
    ensures forall id :: id in Stamped(batch, revision) <==> exists c <- batch :: c.id == id
    ensures forall id <- Stamped(batch, revision) :: Stamped(batch, revision)[id].revision == revision
    ensures forall id <- Stamped(batch, revision) ::
              exists c <- batch :: c.id == id && c.blobs == Stamped(batch, revision)[id].blobs
  {
    if batch != [] {
      StampedNames(batch[..|batch| - 1], revision);
      assert batch == batch[..|batch| - 1] + [batch[|batch| - 1]];
    }
  }

  lemma {:induction false} LastNamedIsStamped(batch: seq<Change>, revision: int, i: nat)
    requires LastNamed(batch, i)
    ensures batch[i].id in Stamped(batch, revision)
    ensures Stamped(batch, revision)[batch[i].id] == Row(revision, batch[i].blobs)
  {
    var n := |batch| - 1;
    if i < n {
      assert batch[n].id != batch[i].id && LastNamed(batch[..n], i);
      LastNamedIsStamped(batch[..n], revision, i);
    }
  }

  /** A batch stamps exactly the items it names, each with the new revision and
      with the blobs that the last change of it asked for. */
  lemma {:induction false} StampedRows(batch: seq<Change>, revision: int)
    ensures forall id :: id in Stamped(batch, revision) <==> exists c <- batch :: c.id == id
    ensures forall id <- Stamped(batch, revision) :: Stamped(batch, revision)[id].revision == revision
    ensures forall i: nat :: LastNamed(batch, i) ==>
                               batch[i].id in Stamped(batch, revision)
                               && Stamped(batch, revision)[batch[i].id] == Row(revision, batch[i].blobs)
  {
    StampedNames(batch, revision);
    forall i: nat | LastNamed(batch, i)
      ensures batch[i].id in Stamped(batch, revision)
              && Stamped(batch, revision)[batch[i].id] == Row(revision, batch[i].blobs)
    {
      LastNamedIsStamped(batch, revision, i);
    }
  }

  function Written(s: Server, batch: seq<Change>): Server {
    ServerState(s.revision + 1, s.rows + Stamped(batch, s.revision + 1))
  }

  // ---------------------------------------------------------------- history

  /** `t` is `s` some accepted batches later: a row either is the one `s` had or
      carries a revision `s` had not reached. */
  ghost predicate Evolves(s: Server, t: Server) {
    && s.revision <= t.revision
    && (forall id <- s.rows :: id in t.rows && (t.rows[id] == s.rows[id] || s.revision < t.rows[id].revision))
    && (forall id <- t.rows :: id in s.rows || s.revision < t.rows[id].revision)
  }

  lemma {:induction false} WriteEvolves(s: Server, batch: seq<Change>)
    requires ServerOk(s)
    ensures ServerOk(Written(s, batch)) && Evolves(s, Written(s, batch))
  {
    StampedRows(batch, s.revision + 1);
  }

  lemma EvolvesTransitive(s: Server, t: Server, u: Server)
    requires Evolves(s, t) && Evolves(t, u)
    ensures Evolves(s, u)
  {
  }

  /** A run of the server: at each step a batch is accepted, or nothing changes. */
  ghost predicate ServerRun(run: seq<Server>) {
    && |run| > 0 && ServerOk(run[0])
    && forall i :: 0 <= i < |run| - 1 ==> ServerStep(run[i], run[i + 1])
  }

  ghost predicate ServerStep(s: Server, t: Server) {
    t == s || exists batch :: Accepted(s, batch) && t == Written(s, batch)
  }

  lemma {:induction false} RunEvolves(run: seq<Server>, i: nat, j: nat)
    requires ServerRun(run) && i <= j < |run|
    ensures ServerOk(run[i]) && ServerOk(run[j]) && Evolves(run[i], run[j])
    decreases j
  {
    if j == 0 {
    } else if i == j {
      RunEvolves(run, i - 1, j - 1);
      StepEvolves(run[j - 1], run[j]);
    } else {
      RunEvolves(run, i, j - 1);
      StepEvolves(run[j - 1], run[j]);
      EvolvesTransitive(run[i], run[j - 1], run[j]);
    }
  }

  lemma StepEvolves(s: Server, t: Server)
    requires ServerOk(s) && ServerStep(s, t)
    ensures ServerOk(t) && Evolves(s, t)
  {
    if t != s {
      var batch :| Accepted(s, batch) && t == Written(s, batch);
      WriteEvolves(s, batch);
    }
  }

  /** An item id and a revision identify one row content for ever. */
  lemma {:induction false} RevisionIdentifiesRow(run: seq<Server>, i: nat, j: nat, id: ItemId)
    requires ServerRun(run) && i < |run| && j < |run|
    requires id in run[i].rows && id in run[j].rows && run[i].rows[id].revision == run[j].rows[id].revision
    ensures run[i].rows[id] == run[j].rows[id]
  {
    if i <= j { RunEvolves(run, i, j); } else { RunEvolves(run, j, i); }
  }

  // ---------------------------------------------------------------- pages

  predicate Newer(s: Server, since: int) {
    exists id <- s.rows :: since < s.rows[id].revision
  }

  /** The changes are exactly the rows stamped after `since` and up to `next`,
      each once. */
  ghost predicate Covers(s: Server, p: Page) {
    && (forall c <- p.changes :: c.id in s.rows && c == ChangeOf(c.id, s.rows[c.id]) && p.since < c.revision <= p.next)
    && (forall id <- s.rows :: p.since < s.rows[id].revision <= p.next ==> ChangeOf(id, s.rows[id]) in p.changes)
    && (forall i, j :: 0 <= i < j < |p.changes| ==> p.changes[i].id != p.changes[j].id)
  }

  /** An answer the server may give to a pull. With nothing newer, the cursor is
      either echoed or set to the vault's own revision, which lies below `since`
      when the server was restored from an old backup. */
  ghost predicate HonestPage(s: Server, p: Page) {
    if Newer(s, p.since) then
      p.since < p.next <= s.revision && Covers(s, p) && (p.hasMore <==> Newer(s, p.next))
    else
      p.changes == [] && !p.hasMore && (p.next == p.since || p.next == s.revision)
  }

  /** The page the database server yields, which reads twice: `before` is the server
      at the first read, `after` at the second. */
  ghost predicate PulledPage(before: Server, after: Server, since: int, p: Page) {
    && p.since == since
    && if Newer(before, since) then
         since < p.next <= before.revision && Covers(after, p) && (p.hasMore <==> Newer(before, p.next))
       else p == Page(since, after.revision, false, [])
  }

  // ---------------------------------------------------------------- the in-memory server

  /** Page order: by revision, then by id. */
  predicate Before(rows: map<ItemId, Row>, a: ItemId, b: ItemId)
    requires a in rows && b in rows
  {
    rows[a].revision < rows[b].revision || (rows[a].revision == rows[b].revision && a < b)
  }

  predicate First(rows: map<ItemId, Row>, m: ItemId, ids: set<ItemId>)
    requires ids <= rows.Keys
  {
    m in ids && forall x <- ids :: x == m || Before(rows, m, x)
  }

  lemma FirstExists(rows: map<ItemId, Row>, ids: set<ItemId>)
    requires ids != {} && ids <= rows.Keys
    ensures exists m <- ids :: First(rows, m, ids)
  {
    var a :| a in ids;
    var rest := ids - {a};
    if rest == {} {
      assert ids == {a};
      assert First(rows, a, ids);
    } else {
      FirstExists(rows, rest);
      var m :| m in rest && First(rows, m, rest);
      assert First(rows, if Before(rows, m, a) then m else a, ids) by {
        forall x | x in ids ensures x == a || x in rest {}
      }
    }
  }

  predicate InPageOrder(rows: map<ItemId, Row>, ids: seq<ItemId>) {
    && (forall id <- ids :: id in rows)
    && (forall i, j :: 0 <= i < j < |ids| ==> Before(rows, ids[i], ids[j]))
  }

  method Ordered(rows: map<ItemId, Row>, ids: set<ItemId>) returns (order: seq<ItemId>)
    requires ids <= rows.Keys
    ensures InPageOrder(rows, order) && AsSet(order) == ids
  {
    order := [];
    var rest := ids;
    while rest != {}
      invariant AsSet(order) + rest == ids
      invariant InPageOrder(rows, order)
      invariant forall i, x :: 0 <= i < |order| && x in rest ==> Before(rows, order[i], x)
      decreases rest
    {
      FirstExists(rows, rest);
      var m :| m in rest && First(rows, m, rest);
      AsSetStep(order + [m], |order|);
      assert (order + [m])[..|order| + 1] == order + [m] && (order + [m])[..|order|] == order;
      order := order + [m];
      rest := rest - {m};
    }
  }

  /** The page that lists `order` is one an honest server may give. */
  lemma OrderedPageIsHonest(s: Server, since: int, order: seq<ItemId>, p: Page)
    requires ServerOk(s) && InPageOrder(s.rows, order)
    requires forall id :: id in order <==> id in s.rows && since < s.rows[id].revision
    requires |p.changes| == |order|
    requires forall i :: 0 <= i < |order| ==> p.changes[i] == ChangeOf(order[i], s.rows[order[i]])
    requires p.since == since && !p.hasMore
    requires p.next == if order == [] then since else s.rows[order[|order| - 1]].revision
    ensures HonestPage(s, p)
  {
    if order == [] {
      assert !Newer(s, since);
    } else {
      var n := |order| - 1;
      assert order[n] in order;
      forall id | id in s.rows && since < s.rows[id].revision
        ensures ChangeOf(id, s.rows[id]) in p.changes && s.rows[id].revision <= p.next
      {
        var i :| 0 <= i < |order| && order[i] == id;
        assert i == n || Before(s.rows, order[i], order[n]);
        assert p.changes[i] in p.changes;
      }
      forall i, j | 0 <= i < j < |p.changes|
        ensures p.changes[i].id != p.changes[j].id
      {
        assert Before(s.rows, order[i], order[j]);
      }
      forall c | c in p.changes
        ensures c.id in s.rows && c == ChangeOf(c.id, s.rows[c.id]) && since < c.revision <= p.next
      {
        var i :| 0 <= i < |p.changes| && p.changes[i] == c;
        assert order[i] in order;
      }
    }
  }

  /** The changes of a batch that are refused, in the batch's order. */
  function ConflictsOf(s: Server, batch: seq<Change>): (conflicts: seq<Conflict>)
    ensures conflicts == [] <==> Accepted(s, batch)
    ensures forall x <- conflicts :: exists c <- batch :: Refused(s, c) && x == ConflictOf(s, c)
    ensures forall c <- batch :: Refused(s, c) ==> ConflictOf(s, c) in conflicts
  {
    if batch == [] then []
    else
      var c := batch[|batch| - 1];
      assert batch == batch[..|batch| - 1] + [c];
      ConflictsOf(s, batch[..|batch| - 1]) + if Refused(s, c) then [ConflictOf(s, c)] else []
  }

  function ConflictOf(s: Server, c: Change): Conflict {
    Conflict(c.id, if c.id in s.rows then Some(s.rows[c.id].revision) else None)
  }

  /** A change is taken if it names the revision held, or none for an unknown item, and
      does not delete what is deleted. */
  predicate Admits(rows: map<ItemId, Row>, c: Change) {
    if c.id in rows then c.base == Some(rows[c.id].revision) && (rows[c.id].blobs.Some? || c.blobs.Some?)
    else c.base.None?
  }

  /** The conflicts name the items of the changes not taken, with the revision held. */
  ghost predicate NamesRefused(rows: map<ItemId, Row>, batch: seq<Change>, conflicts: seq<Conflict>) {
    && (forall c <- batch :: !Admits(rows, c) ==> exists x <- conflicts :: x.id == c.id)
    && (forall x <- conflicts :: exists c <- batch :: c.id == x.id && !Admits(rows, c))
    && (forall x <- conflicts :: x.revision == if x.id in rows then Some(rows[x.id].revision) else None)
  }

  /** Each item named is stamped with what its last change asked for; no other row moves. */
  ghost predicate WrittenAs(rows: map<ItemId, Row>, batch: seq<Change>, revision: int, after: map<ItemId, Row>) {
    && (forall id :: id in after <==> id in rows || exists c <- batch :: c.id == id)
    && (forall i: nat :: LastNamed(batch, i) ==>
                           batch[i].id in after && after[batch[i].id] == Row(revision, batch[i].blobs))
    && (forall id <- rows :: id in after && ((forall c <- batch :: c.id != id) ==> after[id] == rows[id]))
  }

  predicate AdmitsAll(rows: map<ItemId, Row>, batch: seq<Change>) {
    forall c <- batch :: Admits(rows, c)
  }

  lemma AdmitsUnlessRefused(s: Server, c: Change)
    ensures Refused(s, c) <==> !Admits(s.rows, c)
  {
  }

  /** A batch is accepted exactly if each of its changes is taken. */
  lemma {:induction false} AcceptedExactly(s: Server, batch: seq<Change>)
    ensures Accepted(s, batch) <==> AdmitsAll(s.rows, batch)
  {
    forall c | c in batch ensures Refused(s, c) <==> !Admits(s.rows, c) {
      AdmitsUnlessRefused(s, c);
    }
  }

  /** A refused batch is answered with the changes that are not taken. */
  lemma {:induction false} ConflictsName(s: Server, batch: seq<Change>)
    ensures NamesRefused(s.rows, batch, ConflictsOf(s, batch))
  {
    var conflicts := ConflictsOf(s, batch);
    forall c | c in batch && !Admits(s.rows, c) ensures exists x <- conflicts :: x.id == c.id {
      AdmitsUnlessRefused(s, c);
      assert ConflictOf(s, c) in conflicts && ConflictOf(s, c).id == c.id;
    }
    forall x | x in conflicts
      ensures exists c <- batch :: c.id == x.id && !Admits(s.rows, c)
      ensures x.revision == if x.id in s.rows then Some(s.rows[x.id].revision) else None
    {
      var c :| c in batch && Refused(s, c) && x == ConflictOf(s, c);
      AdmitsUnlessRefused(s, c);
    }
  }

  lemma WrittenRows(rows: map<ItemId, Row>, batch: seq<Change>, revision: int, stamped: map<ItemId, Row>)
    requires stamped == Stamped(batch, revision)
    ensures WrittenAs(rows, batch, revision, rows + stamped)
  {
    StampedRows(batch, revision);
    var after := rows + stamped;
    forall id ensures id in after <==> id in rows || exists c <- batch :: c.id == id {
      assert id in stamped <==> exists c <- batch :: c.id == id;
    }
    forall i: nat | LastNamed(batch, i)
      ensures batch[i].id in after && after[batch[i].id] == Row(revision, batch[i].blobs)
    {
      assert batch[i].id in stamped;
    }
    forall id | id in rows && forall c <- batch :: c.id != id ensures after[id] == rows[id] {
      assert id !in stamped;
    }
  }

  /** One new revision stamps each item named, and nothing else moves. */
  lemma {:induction false} WrittenExactly(s: Server, batch: seq<Change>)
    ensures var t := Written(s, batch); t.revision == s.revision + 1 && WrittenAs(s.rows, batch, t.revision, t.rows)
  {
    WrittenRows(s.rows, batch, s.revision + 1, Stamped(batch, s.revision + 1));
  }

  class StubItems {
    var revision: int
    var rows: map<ItemId, Row>

    constructor ()
      ensures revision == 0 && rows == map[]
    {
      revision, rows := 0, map[];
    }

    ghost function State(): Server
      reads this
    {
      ServerState(revision, rows)
    }

    /** All or nothing: one refused change refuses the batch. */
    method Write(batch: seq<Change>) returns (r: Result<Ack, seq<Conflict>>)
      modifies this
      ensures r.Ok? <==> old(Accepted(State(), batch))
      ensures r.Err? ==> State() == old(State()) && r.error == ConflictsOf(State(), batch)
      ensures r.Ok? ==> State() == Written(old(State()), batch)
      ensures r.Ok? ==> r.value.cursor == revision && |r.value.applied| == |batch|
      ensures r.Ok? ==> forall i :: 0 <= i < |batch| ==> r.value.applied[i] == (batch[i].id, revision)
    {
      var conflicts := FindConflicts(batch);
      if conflicts != [] {
        return Err(conflicts);
      }
      revision := revision + 1;
      var applied := Stamp(batch);
      r := Ok(Ack(revision, applied));
    }

    method Stamp(batch: seq<Change>) returns (applied: seq<(ItemId, int)>)
      modifies this`rows
      ensures rows == old(rows) + Stamped(batch, revision)
      ensures |applied| == |batch| && forall k :: 0 <= k < |batch| ==> applied[k] == (batch[k].id, revision)
    {
      applied := [];
      for i := 0 to |batch|
        invariant rows == old(rows) + Stamped(batch[..i], revision)
        invariant |applied| == i && forall k :: 0 <= k < i ==> applied[k] == (batch[k].id, revision)
      {
        assert batch[..i + 1][..i] == batch[..i];
        SumStep(old(rows), Stamped(batch[..i], revision), batch[i].id, Row(revision, batch[i].blobs));
        rows := rows[batch[i].id := Row(revision, batch[i].blobs)];
        applied := applied + [(batch[i].id, revision)];
      }
      assert batch[..|batch|] == batch;
    }

    method FindConflicts(batch: seq<Change>) returns (conflicts: seq<Conflict>)
      ensures conflicts == ConflictsOf(State(), batch)
    {
      conflicts := [];
      var now := ServerState(revision, rows);
      for i := 0 to |batch|
        invariant conflicts == ConflictsOf(now, batch[..i])
      {
        assert batch[..i + 1][..i] == batch[..i];
        if Refused(now, batch[i]) {
          conflicts := conflicts + [ConflictOf(now, batch[i])];
        }
      }
      assert batch[..|batch|] == batch;
    }

    /** Everything stamped after `since`, in revision order, in one page. */
    method Pull(since: int) returns (p: Page)
      requires ServerOk(State())
      ensures p.since == since && HonestPage(State(), p) && !p.hasMore
      ensures forall i, j :: 0 <= i < j < |p.changes| ==> p.changes[i].revision <= p.changes[j].revision
    {
      var order := Ordered(rows, set id | id in rows && since < rows[id].revision);
      var changes := seq(|order|, i requires 0 <= i < |order| && order[i] in rows reads this =>
                         ChangeOf(order[i], rows[order[i]]));
      p := Page(since, if order == [] then since else rows[order[|order| - 1]].revision, false, changes);
      assert forall id :: id in order <==> id in AsSet(order);
      OrderedPageIsHonest(State(), since, order, p);
      forall i, j | 0 <= i < j < |p.changes|
        ensures p.changes[i].revision <= p.changes[j].revision
      {
        assert Before(rows, order[i], order[j]);
      }
    }

    /** The rows the server has for the asked ids, in the order asked. */
    method Fetch(ids: seq<ItemId>) returns (changes: seq<RemoteChange>)
      ensures forall c :: c in changes <==> c.id in ids && c.id in rows && c == ChangeOf(c.id, rows[c.id])
    {
      changes := [];
      for i := 0 to |ids|
        invariant forall c :: c in changes <==> c.id in ids[..i] && c.id in rows && c == ChangeOf(c.id, rows[c.id])
      {
        assert ids[..i + 1] == ids[..i] + [ids[i]];
        if ids[i] in rows {
          changes := changes + [ChangeOf(ids[i], rows[ids[i]])];
        }
      }
      assert ids[..|ids|] == ids;
    }
  }

}
