/**
 How the database server builds a pull page: a first read takes the sizes of the
 rows past the cursor, a cut at a revision boundary decides how many go out, and
 a second read fetches them. The two reads are separate statements, so a batch
 may be accepted in between.
 */
module PagedPull {
  import opened Wrappers
  import opened Vault
  import opened Server
  import opened Agreement

  const MAX_CHANGES_PER_BATCH: nat := 500
  const MAX_PULL_PAGE: nat := 500
  const MAX_PAGE_BYTES: nat := 12 * 1024 * 1024
  const WINDOW: nat := MAX_PULL_PAGE + MAX_CHANGES_PER_BATCH + 1

  datatype Sized = Sized(id: ItemId, revision: int, bytes: nat)

  // ---------------------------------------------------------------- cutting a page

  predicate ByRevision(rows: seq<Sized>) {
    forall i, j :: 0 <= i < j < |rows| ==> rows[i].revision <= rows[j].revision
  }

  /** Where the run of rows with the revision of row `i` ends. */
  function GroupEnd(rows: seq<Sized>, i: nat): (end: nat)
    requires i < |rows|
    ensures i < end <= |rows|
    ensures forall k :: i <= k < end ==> rows[k].revision == rows[i].revision
    ensures end < |rows| ==> rows[end].revision != rows[i].revision
    decreases |rows| - i
  {
    if i + 1 < |rows| && rows[i + 1].revision == rows[i].revision then GroupEnd(rows, i + 1) else i + 1
  }

  function Bytes(rows: seq<Sized>): nat {
    if rows == [] then 0 else Bytes(rows[..|rows| - 1]) + rows[|rows| - 1].bytes
  }

  lemma {:induction false} BytesJoin(a: seq<Sized>, b: seq<Sized>)
    ensures Bytes(a + b) == Bytes(a) + Bytes(b)
  {
    if b == [] {
      assert a + b == a;
    } else {
      assert (a + b)[..|a + b| - 1] == a + b[..|b| - 1];
      BytesJoin(a, b[..|b| - 1]);
    }
  }

  /** Each row weighs its bytes, once, and nothing weighs nothing. */
  lemma {:induction false} EachRowWeighs(rows: seq<Sized>, i: nat)
    requires i < |rows|
    ensures Bytes(rows) == Bytes(rows[..i] + rows[i + 1..]) + rows[i].bytes && Bytes([]) == 0
  {
    assert rows == rows[..i] + ([rows[i]] + rows[i + 1..]);
    BytesJoin(rows[..i], [rows[i]] + rows[i + 1..]);
    BytesJoin([rows[i]], rows[i + 1..]);
    BytesJoin(rows[..i], rows[i + 1..]);
    assert [rows[i]][..0] == [];
  }

  /** First row with the last row's revision. */
  function LastGroup(rows: seq<Sized>, i: nat): (start: nat)
    requires i < |rows|
    ensures i <= start < |rows| && rows[start].revision == rows[|rows| - 1].revision
    ensures forall k :: i <= k < start ==> rows[k].revision != rows[|rows| - 1].revision
    decreases |rows| - i
  {
    if rows[i].revision == rows[|rows| - 1].revision then i else LastGroup(rows, i + 1)
  }

  /** How many rows may be used: with a full window the last revision may be cut
      short, so it is left out. */
  function Complete(rows: seq<Sized>, windowFull: bool): (n: nat)
    ensures n <= |rows|
  {
    if windowFull && rows != [] then LastGroup(rows, 0) else |rows|
  }

  predicate Boundary(rows: seq<Sized>, end: nat) {
    0 < end < |rows| ==> rows[end - 1].revision != rows[end].revision
  }

  predicate Fits(rows: seq<Sized>, end: nat)
    requires end <= |rows|
  {
    end <= MAX_PULL_PAGE && Bytes(rows[..end]) <= MAX_PAGE_BYTES
  }

  /** Whole revisions only, always the first one, and as many as fit. */
  method PageLen(rows: seq<Sized>, windowFull: bool) returns (end: nat)
    requires ByRevision(rows)
    ensures end <= Complete(rows, windowFull) && Boundary(rows, end)
    ensures 0 < Complete(rows, windowFull) ==> 0 < end
    ensures 0 < end ==> Fits(rows, end) || end == GroupEnd(rows, 0)
    ensures 0 < end < Complete(rows, windowFull) ==> !Fits(rows, GroupEnd(rows, end))
  {
    var complete := Complete(rows, windowFull);
    end := 0;
    var bytes := 0;
    assert rows[..0] == [];
    while end < complete
      invariant end <= complete && Boundary(rows, end) && bytes == Bytes(rows[..end])
      invariant 0 < end ==> Fits(rows, end) || end == GroupEnd(rows, 0)
    {
      var next := GroupEnd(rows, end);
      var more := Bytes(rows[end..next]);
      BytesOfGroup(rows, end, next);
      if 0 < end && (next > MAX_PULL_PAGE || bytes + more > MAX_PAGE_BYTES) {
        break;
      }
      GroupWithinComplete(rows, windowFull, end);
      end := next;
      bytes := bytes + more;
    }
  }

  lemma BytesOfGroup(rows: seq<Sized>, end: nat, next: nat)
    requires end <= next <= |rows|
    ensures Bytes(rows[..next]) == Bytes(rows[..end]) + Bytes(rows[end..next])
  {
    assert rows[..next] == rows[..end] + rows[end..next];
    BytesJoin(rows[..end], rows[end..next]);
  }

  lemma GroupWithinComplete(rows: seq<Sized>, windowFull: bool, i: nat)
    requires ByRevision(rows) && i < Complete(rows, windowFull)
    ensures GroupEnd(rows, i) <= Complete(rows, windowFull) && Boundary(rows, GroupEnd(rows, i))
  {
    var end := GroupEnd(rows, i);
    assert rows[end - 1].revision == rows[i].revision;
    if windowFull && rows != [] {
      var start := LastGroup(rows, 0);
      assert i < start;
    }
  }

  // ---------------------------------------------------------------- the two reads

  /** The first read: the rows past `since` in page order, at most a window of
      them, so a row left out comes after all that were taken. */
  ghost predicate FirstRead(s: Server, since: int, sized: seq<Sized>) {
    && |sized| <= WINDOW
    && (forall r <- sized :: r.id in s.rows && r.revision == s.rows[r.id].revision && since < r.revision)
    && (forall i, j :: 0 <= i < j < |sized| ==> Before(s.rows, sized[i].id, sized[j].id))
    && (forall id <- s.rows :: since < s.rows[id].revision ==>
          (exists r <- sized :: r.id == id) ||
          (|sized| == WINDOW && Before(s.rows, sized[WINDOW - 1].id, id)))
  }

  /** No revision stamps more rows than a batch may hold. */
  ghost predicate BatchesCapped(s: Server) {
    forall revision: int :: |RowsAt(s, revision)| <= MAX_CHANGES_PER_BATCH
  }

  ghost function RowsAt(s: Server, revision: int): set<ItemId> {
    set id | id in s.rows && s.rows[id].revision == revision
  }

  datatype PullError = Internal

  /** The rows of the range, as they are by now. */
  method SecondRead(after: Server, since: int, through: int, hasMore: bool) returns (p: Page)
    ensures p.since == since && p.next == through && p.hasMore == hasMore && Covers(after, p)
  {
    var order := Ordered(after.rows, set id | id in after.rows && since < after.rows[id].revision <= through);
    var changes := seq(|order|, i requires 0 <= i < |order| && order[i] in after.rows =>
                       ChangeOf(order[i], after.rows[order[i]]));
    p := Page(since, through, hasMore, changes);
    assert forall id :: id in order <==> id in AsSet(order);
    RangePageCovers(after, order, p);
  }

  /** The page takes the first `end` rows read: whole revisions, within the row and byte
      limits unless they are the first revision alone; one revision more, if it was read
      whole, would not be. */
  ghost predicate CutAt(sized: seq<Sized>, end: nat) {
    && 0 < end <= |sized| && (|sized| == WINDOW ==> sized[end - 1].revision < sized[WINDOW - 1].revision)
    && (end < |sized| ==> sized[end - 1].revision != sized[end].revision)
    && ((end <= MAX_PULL_PAGE && Bytes(sized[..end]) <= MAX_PAGE_BYTES) || sized[end - 1].revision == sized[0].revision)
    && forall more: nat :: end < more <= |sized| && WholeTo(sized, more) ==>
         more > MAX_PULL_PAGE || Bytes(sized[..more]) > MAX_PAGE_BYTES
  }

  /** The rows up to there are whole revisions, known to be complete. */
  predicate WholeTo(sized: seq<Sized>, end: nat)
    requires end <= |sized|
  {
    if end < |sized| then end > 0 && sized[end - 1].revision != sized[end].revision else |sized| < WINDOW
  }

  lemma CutObeysTheLimits(sized: seq<Sized>, end: nat)
    requires ByRevision(sized) && |sized| <= WINDOW
    requires 0 < end <= Complete(sized, |sized| == WINDOW) && Boundary(sized, end)
    requires Fits(sized, end) || end == GroupEnd(sized, 0)
    requires end < Complete(sized, |sized| == WINDOW) ==> !Fits(sized, GroupEnd(sized, end))
    ensures CutAt(sized, end)
  {
    forall more: nat | end < more <= |sized| && WholeTo(sized, more)
      ensures more > MAX_PULL_PAGE || Bytes(sized[..more]) > MAX_PAGE_BYTES
    {
      WholeIsComplete(sized, more);
      var next := GroupEnd(sized, end);
      assert next <= more;
      BytesOfGroup(sized, next, more);
    }
  }

  lemma WholeIsComplete(sized: seq<Sized>, more: nat)
    requires ByRevision(sized) && |sized| <= WINDOW && 0 < more <= |sized| && WholeTo(sized, more)
    ensures more <= Complete(sized, |sized| == WINDOW)
  {
    var start := LastGroup(sized, 0);
    assert start < more < |sized| ==> sized[start].revision <= sized[more - 1].revision < sized[more].revision;
  }

  /** Where the page ends, 0 when there is no row to send. */
  method Cut(before: Server, since: int, sized: seq<Sized>) returns (end: nat)
    requires ServerOk(before) && FirstRead(before, since, sized)
    ensures end == 0 ==> sized == [] || !BatchesCapped(before)
    ensures end > 0 ==>
              && CutAt(sized, end) && since < sized[end - 1].revision <= before.revision
              && (end < |sized| <==> Newer(before, sized[end - 1].revision))
  {
    FirstReadOrder(before, since, sized);
    end := PageLen(sized, |sized| == WINDOW);
    if end > 0 {
      assert sized[end - 1] in sized;
      CutObeysTheLimits(sized, end);
      MoreExactly(before, since, sized, end, |sized| == WINDOW);
    } else if sized != [] {
      FullWindowHasTwoRevisions(before, since, sized);
    }
  }

  /** `before` is the server at the first read, `after` at the second. */
  method Pull(before: Server, after: Server, since: int, sized: seq<Sized>) returns (r: Result<Page, PullError>)
    requires ServerOk(before) && ServerOk(after) && Evolves(before, after) && FirstRead(before, since, sized)
    ensures BatchesCapped(before) ==> r.Ok?
    ensures r.Ok? ==> PulledPage(before, after, since, r.value)
    ensures r.Ok? && sized != [] ==> exists end: nat :: CutAt(sized, end) && r.value.next == sized[end - 1].revision
  {
    var end := Cut(before, since, sized);
    if end == 0 && sized != [] {
      return Err(Internal);
    }
    if end == 0 {
      NothingRead(before, since, sized);
      return Ok(Page(since, after.revision, false, []));
    }
    SomethingRead(before, since, sized);
    var p := SecondRead(after, since, sized[end - 1].revision, end < |sized|);
    r := Ok(p);
  }

  lemma SomethingRead(s: Server, since: int, sized: seq<Sized>)
    requires FirstRead(s, since, sized) && sized != []
    ensures Newer(s, since)
  {
    assert sized[0] in sized;
  }

  lemma FirstReadOrder(s: Server, since: int, sized: seq<Sized>)
    requires FirstRead(s, since, sized)
    ensures ByRevision(sized)
  {
    forall i, j | 0 <= i < j < |sized| ensures sized[i].revision <= sized[j].revision {
      assert Before(s.rows, sized[i].id, sized[j].id);
      assert sized[i] in sized && sized[j] in sized;
    }
  }

  lemma NothingRead(s: Server, since: int, sized: seq<Sized>)
    requires FirstRead(s, since, sized) && sized == []
    ensures !Newer(s, since)
  {
  }

  lemma RangePageCovers(s: Server, order: seq<ItemId>, p: Page)
    requires InPageOrder(s.rows, order)
    requires forall id :: id in order <==> id in s.rows && p.since < s.rows[id].revision <= p.next
    requires |p.changes| == |order|
    requires forall i :: 0 <= i < |order| ==> p.changes[i] == ChangeOf(order[i], s.rows[order[i]])
    ensures Covers(s, p)
  {
    forall c | c in p.changes
      ensures c.id in s.rows && c == ChangeOf(c.id, s.rows[c.id]) && p.since < c.revision <= p.next
    {
      var i :| 0 <= i < |p.changes| && p.changes[i] == c;
      assert order[i] in order;
    }
    forall id | id in s.rows && p.since < s.rows[id].revision <= p.next
      ensures ChangeOf(id, s.rows[id]) in p.changes
    {
      var i :| 0 <= i < |order| && order[i] == id;
      assert p.changes[i] in p.changes;
    }
    forall i, j | 0 <= i < j < |p.changes| ensures p.changes[i].id != p.changes[j].id {
      assert Before(s.rows, order[i], order[j]);
    }
  }

  /** The cut says there is more exactly when the first read's server held a row
      past the page's end. */
  lemma {:induction false} MoreExactly(s: Server, since: int, sized: seq<Sized>, end: nat, windowFull: bool)
    requires FirstRead(s, since, sized) && ByRevision(sized) && windowFull == (|sized| == WINDOW)
    requires 0 < end <= Complete(sized, windowFull) && Boundary(sized, end)
    ensures end < |sized| <==> Newer(s, sized[end - 1].revision)
  {
    var through := sized[end - 1].revision;
    if end < |sized| {
      assert sized[end] in sized;
      assert through < sized[end].revision;
      assert Newer(s, through);
    } else {
      assert !windowFull;
      forall id | id in s.rows ensures s.rows[id].revision <= through {
        assert sized[end - 1] in sized;
        if since < s.rows[id].revision {
          var r :| r in sized && r.id == id;
          var k :| 0 <= k < |sized| && sized[k] == r;
        }
      }
    }
  }

  /** A full window always spans two revisions, so a page is never empty. */
  lemma {:induction false} FullWindowHasTwoRevisions(s: Server, since: int, sized: seq<Sized>)
    requires FirstRead(s, since, sized) && ByRevision(sized) && sized != []
    requires Complete(sized, |sized| == WINDOW) == 0
    ensures !BatchesCapped(s)
  {
    var revision := sized[0].revision;
    assert |sized| == WINDOW && LastGroup(sized, 0) == 0;
    forall i | 0 <= i < |sized| ensures sized[i].id in RowsAt(s, revision) {
      assert sized[i] in sized;
      assert sized[0].revision <= sized[i].revision <= sized[|sized| - 1].revision;
    }
    IdsAreDistinct(s, since, sized, |sized|, RowsAt(s, revision));
    assert |RowsAt(s, revision)| > MAX_CHANGES_PER_BATCH;
  }

  lemma {:induction false} IdsAreDistinct(s: Server, since: int, sized: seq<Sized>, n: nat, ids: set<ItemId>)
    requires FirstRead(s, since, sized) && n <= |sized|
    requires forall i :: 0 <= i < n ==> sized[i].id in ids
    ensures n <= |ids|
  {
    if n > 0 {
      forall i | 0 <= i < n - 1 ensures sized[i].id in ids - {sized[n - 1].id} {
        assert Before(s.rows, sized[i].id, sized[n - 1].id);
      }
      IdsAreDistinct(s, since, sized, n - 1, ids - {sized[n - 1].id});
    }
  }
}
