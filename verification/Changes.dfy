/**
 What one batch of server changes does to a replica, as a function of values.

 The replica is two tables (`items`, `unreadable`), the stored cursor, and the
 two in-memory lists of an unlocked vault (`live`, `trash`). A batch may name an
 item several times; only the last mention counts. `Applied` and `Counted` say
 so by taking the map of last mentions instead of the batch.
 */
module Changes {
  import opened Wrappers

  type Blob = seq<Byte>

  /** A decrypted overview: when the item was trashed, and everything else. */
  datatype Overview = Overview(trashedAt: Option<int>, body: Blob)

  /** The vault's keys, seen from outside: `open` is the combined check of an
      item's two blobs (both authenticate under the data key, the overview names
      this item, the details have the overview's type). Nothing else is assumed
      about it. */
  datatype Cipher = Cipher(open: (ItemId, Blob, Blob) -> Option<Overview>, identity: ItemId)

  datatype ItemRow = ItemRow(overview: Blob, details: Blob, revision: int)

  datatype RemoteChange = RemoteChange(
    id: ItemId, revision: int, overview: Option<Blob>, details: Option<Blob>, deleted: bool)

  datatype Tables = Tables(
    items: map<ItemId, ItemRow>,
    unreadable: map<ItemId, int>,
    cursor: int,
    syncedAt: Option<int>,
    live: map<ItemId, Overview>,
    trash: map<ItemId, Overview>)

  datatype Report = Report(added: nat, updated: nat, deleted: nat, skipped: nat)

  const NO_CHANGES := Report(0, 0, 0, 0)

  /** How one change is to be treated. */
  datatype Verdict = Store(row: ItemRow, plain: Overview) | Drop | Unreadable(revision: int)

  function Judge(cipher: Cipher, c: RemoteChange): Verdict {
    if c.deleted then Drop
    else if c.overview.None? || c.details.None? then Unreadable(c.revision)
    else
      match cipher.open(c.id, c.overview.value, c.details.value)
      case Some(plain) => Store(ItemRow(c.overview.value, c.details.value, c.revision), plain)
      case None => Unreadable(c.revision)
  }

  /** Whether a decrypted overview belongs in the trash list. The account's one
      identity item never does. */
  predicate Trashed(cipher: Cipher, id: ItemId, plain: Overview) {
    plain.trashedAt.Some? && id != cipher.identity
  }

  // ---------------------------------------------------------------- last mentions

  function LastChanges(cs: seq<RemoteChange>): (m: map<ItemId, RemoteChange>)
    ensures forall id <- m :: m[id].id == id && m[id] in cs
  {
    if cs == [] then map[]
    else
      var c := cs[|cs| - 1];
      LastChanges(cs[..|cs| - 1])[c.id := c]
  }

  /** `i` is the last place where `cs` names the item it names. */
  predicate IsLastMention(cs: seq<RemoteChange>, i: nat)
    requires i < |cs|
  {
    forall j :: i < j < |cs| ==> cs[j].id != cs[i].id
  }

  lemma {:induction false} LastChangesMeaning(cs: seq<RemoteChange>, i: nat)
    requires i < |cs|
    ensures cs[i].id in LastChanges(cs)
    ensures IsLastMention(cs, i) ==> LastChanges(cs)[cs[i].id] == cs[i]
  {
    if i < |cs| - 1 {
      var front := cs[..|cs| - 1];
      LastChangesMeaning(front, i);
      assert forall j :: 0 <= j < |front| ==> front[j] == cs[j];
    }
  }

  // ---------------------------------------------------------------- the effect

  function StoredRows(cipher: Cipher, last: map<ItemId, RemoteChange>): map<ItemId, ItemRow> {
    map id | id in last && Judge(cipher, last[id]).Store? :: Judge(cipher, last[id]).row
  }

  function StoredPlain(cipher: Cipher, last: map<ItemId, RemoteChange>): map<ItemId, Overview> {
    map id | id in last && Judge(cipher, last[id]).Store? :: Judge(cipher, last[id]).plain
  }

  function DroppedIds(cipher: Cipher, last: map<ItemId, RemoteChange>): set<ItemId> {
    set id | id in last && Judge(cipher, last[id]).Drop?
  }

  function UnreadableIds(cipher: Cipher, last: map<ItemId, RemoteChange>): map<ItemId, int> {
    map id | id in last && Judge(cipher, last[id]).Unreadable? :: Judge(cipher, last[id]).revision
  }

  function TrashedOf(cipher: Cipher, plain: map<ItemId, Overview>): set<ItemId> {
    set id | id in plain && Trashed(cipher, id, plain[id])
  }

  /** Put every overview of `plain` into the one list its trash stamp says. */
  function PlacedLive(cipher: Cipher, live: map<ItemId, Overview>, plain: map<ItemId, Overview>)
    : map<ItemId, Overview>
  {
    (live - plain.Keys) + (plain - TrashedOf(cipher, plain))
  }

  function PlacedTrash(cipher: Cipher, trash: map<ItemId, Overview>, plain: map<ItemId, Overview>)
    : map<ItemId, Overview>
  {
    (trash - plain.Keys) + (plain - (plain.Keys - TrashedOf(cipher, plain)))
  }

  /** The replica after a batch whose last mentions are `last`. `cursor` is
      `Some` for a pull, which moves the cursor, and `None` otherwise. */
  function Applied(cipher: Cipher, t: Tables, last: map<ItemId, RemoteChange>, cursor: Option<(int, int)>)
    : Tables
  {
    var rows := StoredRows(cipher, last);
    var plain := StoredPlain(cipher, last);
    var gone := DroppedIds(cipher, last);
    Tables(
      (t.items + rows) - gone,
      (t.unreadable - rows.Keys - gone) + UnreadableIds(cipher, last),
      if cursor.Some? then cursor.value.0 else t.cursor,
      if cursor.Some? then Some(cursor.value.1) else t.syncedAt,
      PlacedLive(cipher, t.live, plain) - gone,
      PlacedTrash(cipher, t.trash, plain) - gone)
  }

  function Listed(t: Tables): set<ItemId> {
    t.live.Keys + t.trash.Keys
  }

  function Counted(cipher: Cipher, t: Tables, last: map<ItemId, RemoteChange>): Report {
    var stored := StoredRows(cipher, last).Keys;
    Report(
      |stored - Listed(t)|,
      |stored * Listed(t)|,
      |DroppedIds(cipher, last) * t.items.Keys|,
      |UnreadableIds(cipher, last)|)
  }

  // ---------------------------------------------------------------- invariants of the lists

  /** The lists hold exactly the stored ids, each in one list. */
  predicate ListsMatch(t: Tables) {
    Listed(t) == t.items.Keys && t.live.Keys !! t.trash.Keys
  }

  /** The listed overview is what the stored row decrypts to; in the trash list it has
      a trash stamp and is not the account's identity, in the other it has none or is. */
  predicate Mirrors(cipher: Cipher, items: map<ItemId, ItemRow>, listed: map<ItemId, Overview>, id: ItemId,
                    trashed: bool)
  {
    && id in items && id in listed && cipher.open(id, items[id].overview, items[id].details) == Some(listed[id])
    && (if trashed then listed[id].trashedAt.Some? && id != cipher.identity
        else listed[id].trashedAt.None? || id == cipher.identity)
  }

  /** The lists hold exactly what the stored rows decrypt to, each in the list
      its trash stamp says. Implies `ListsMatch`. */
  predicate Mirrored(cipher: Cipher, t: Tables) {
    && ListsMatch(t)
    && (forall id <- t.live :: Mirrors(cipher, t.items, t.live, id, false))
    && (forall id <- t.trash :: Mirrors(cipher, t.items, t.trash, id, true))
  }

  /** The three outcomes are disjoint, and nothing the batch does not name
      moves. */
  lemma {:induction false} OutcomesAreExclusive(cipher: Cipher, t: Tables, last: map<ItemId, RemoteChange>,
                                                cursor: Option<(int, int)>, id: ItemId)
    ensures StoredRows(cipher, last).Keys !! DroppedIds(cipher, last)
    ensures StoredRows(cipher, last).Keys !! UnreadableIds(cipher, last).Keys
    ensures DroppedIds(cipher, last) !! UnreadableIds(cipher, last).Keys
    ensures StoredRows(cipher, last).Keys + DroppedIds(cipher, last) + UnreadableIds(cipher, last).Keys == last.Keys
    ensures id !in last ==>
              var u := Applied(cipher, t, last, cursor);
              && (id in u.items <==> id in t.items) && (id in t.items ==> u.items[id] == t.items[id])
              && (id in u.unreadable <==> id in t.unreadable)
              && (id in t.unreadable ==> u.unreadable[id] == t.unreadable[id])
              && (id in u.live <==> id in t.live) && (id in u.trash <==> id in t.trash)
  {
  }

  /** A batch keeps the lists equal to what the table decrypts to. */
  lemma {:induction false} AppliedKeepsLists(cipher: Cipher, t: Tables, last: map<ItemId, RemoteChange>,
                                             cursor: Option<(int, int)>)
    requires ListsMatch(t)
    ensures ListsMatch(Applied(cipher, t, last, cursor))
  {
    var u := Applied(cipher, t, last, cursor);
    forall id
      ensures id in Listed(u) <==> id in u.items
      ensures !(id in u.live && id in u.trash)
    {
      assert id in Listed(t) <==> id in t.items;
    }
  }

  lemma {:induction false} AppliedKeepsMirror(cipher: Cipher, t: Tables, last: map<ItemId, RemoteChange>,
                                              cursor: Option<(int, int)>)
    requires forall id <- last :: last[id].id == id
    requires Mirrored(cipher, t)
    ensures Mirrored(cipher, Applied(cipher, t, last, cursor))
  {
    var u := Applied(cipher, t, last, cursor);
    AppliedKeepsLists(cipher, t, last, cursor);
    forall id <- u.live ensures Mirrors(cipher, u.items, u.live, id, false) {
      MirroredAfter(cipher, t, last, cursor, id);
    }
    forall id <- u.trash ensures Mirrors(cipher, u.items, u.trash, id, true) {
      MirroredAfter(cipher, t, last, cursor, id);
    }
  }

  lemma PlacedAt(cipher: Cipher, live: map<ItemId, Overview>, trash: map<ItemId, Overview>,
                 plain: map<ItemId, Overview>, id: ItemId)
    ensures id in PlacedLive(cipher, live, plain) <==>
            if id in plain then !Trashed(cipher, id, plain[id]) else id in live
    ensures id in PlacedTrash(cipher, trash, plain) <==>
            if id in plain then Trashed(cipher, id, plain[id]) else id in trash
    ensures id in PlacedLive(cipher, live, plain) ==>
              PlacedLive(cipher, live, plain)[id] == (if id in plain then plain[id] else live[id])
    ensures id in PlacedTrash(cipher, trash, plain) ==>
              PlacedTrash(cipher, trash, plain)[id] == (if id in plain then plain[id] else trash[id])
  {
  }

  /** What became of an item by its last mention in a batch: stored and listed by its
      trash stamp, the identity always live; gone; or recorded unreadable with what was
      stored and listed left as it was. */
  ghost predicate LandedAs(cipher: Cipher, t: Tables, c: RemoteChange, u: Tables) {
    var plain := if c.overview.Some? && c.details.Some? then cipher.open(c.id, c.overview.value, c.details.value)
        else None;
    if c.deleted then
      c.id !in u.items && c.id !in u.unreadable && c.id !in u.live && c.id !in u.trash
    else if plain.Some? then
      && c.id in u.items && u.items[c.id] == ItemRow(c.overview.value, c.details.value, c.revision)
      && c.id !in u.unreadable
      && ListedByStamp(cipher, u, c.id, plain.value)
    else
      && c.id in u.unreadable && u.unreadable[c.id] == c.revision
      && SameItem(t, u, c.id)
  }

  /** In the trash list exactly with a trash stamp, unless it is the account's identity;
      otherwise in the other; and nowhere else. */
  predicate ListedByStamp(cipher: Cipher, u: Tables, id: ItemId, plain: Overview) {
    && (id in u.trash <==> plain.trashedAt.Some? && id != cipher.identity)
    && (id in u.live <==> plain.trashedAt.None? || id == cipher.identity)
    && (id in u.trash ==> u.trash[id] == plain) && (id in u.live ==> u.live[id] == plain)
  }

  /** The item is stored and listed in the one replica as in the other. */
  predicate SameItem(t: Tables, u: Tables, id: ItemId) {
    && (id in u.items <==> id in t.items) && (id in t.items && id in u.items ==> u.items[id] == t.items[id])
    && (id in u.live <==> id in t.live) && (id in t.live && id in u.live ==> u.live[id] == t.live[id])
    && (id in u.trash <==> id in t.trash) && (id in t.trash && id in u.trash ==> u.trash[id] == t.trash[id])
  }

  /** Each item lands as its last mention says, those not named stay as they were, and
      a pull moves the cursor. */
  lemma {:induction false} AppliedItem(cipher: Cipher, t: Tables, last: map<ItemId, RemoteChange>,
                                       cursor: Option<(int, int)>, id: ItemId)
    requires forall id <- last :: last[id].id == id
    ensures var u := Applied(cipher, t, last, cursor);
            && (id in last ==> LandedAs(cipher, t, last[id], u))
            && (id !in last ==> SameItem(t, u, id) && (id in u.unreadable <==> id in t.unreadable)
                                && (id in t.unreadable ==> u.unreadable[id] == t.unreadable[id]))
            && (u.cursor, u.syncedAt) ==
               if cursor.Some? then (cursor.value.0, Some(cursor.value.1)) else (t.cursor, t.syncedAt)
  {
    PlacedAt(cipher, t.live, t.trash, StoredPlain(cipher, last), id);
    RowAfter(cipher, t, last, cursor, id);
    if id in last {
      var v := Judge(cipher, last[id]);
      assert v.Store? <==> id in StoredRows(cipher, last);
      assert v.Store? <==> id in StoredPlain(cipher, last);
      assert v.Drop? <==> id in DroppedIds(cipher, last);
      assert v.Unreadable? <==> id in UnreadableIds(cipher, last);
    }
  }

  lemma RowAfter(cipher: Cipher, t: Tables, last: map<ItemId, RemoteChange>, cursor: Option<(int, int)>, id: ItemId)
    ensures var items := Applied(cipher, t, last, cursor).items;
            id in items <==> id !in DroppedIds(cipher, last) && (id in t.items || id in StoredRows(cipher, last))
    ensures var items := Applied(cipher, t, last, cursor).items;
            id in items ==> items[id] == if id in StoredRows(cipher, last) then StoredRows(cipher, last)[id]
                else t.items[id]
  {
  }

  lemma StoredIsOpened(cipher: Cipher, last: map<ItemId, RemoteChange>, id: ItemId)
    requires forall id <- last :: last[id].id == id
    ensures id in StoredPlain(cipher, last) <==> id in StoredRows(cipher, last)
    ensures id in StoredPlain(cipher, last) ==>
              var row := StoredRows(cipher, last)[id];
              cipher.open(id, row.overview, row.details) == Some(StoredPlain(cipher, last)[id])
  {
  }

  lemma MirroredAfter(cipher: Cipher, t: Tables, last: map<ItemId, RemoteChange>, cursor: Option<(int, int)>,
                      id: ItemId)
    requires forall id <- last :: last[id].id == id
    requires Mirrored(cipher, t)
    ensures var u := Applied(cipher, t, last, cursor);
            (id in u.live ==> Mirrors(cipher, u.items, u.live, id, false))
            && (id in u.trash ==> Mirrors(cipher, u.items, u.trash, id, true))
  {
    PlacedAt(cipher, t.live, t.trash, StoredPlain(cipher, last), id);
    RowAfter(cipher, t, last, cursor, id);
    StoredIsOpened(cipher, last, id);
    assert id in t.live ==> Mirrors(cipher, t.items, t.live, id, false);
    assert id in t.trash ==> Mirrors(cipher, t.items, t.trash, id, true);
  }

  predicate OpensAs(cipher: Cipher, c: RemoteChange) {
    && !c.deleted && c.overview.Some? && c.details.Some?
    && cipher.open(c.id, c.overview.value, c.details.value).Some?
  }

  /** The items whose last mention is stored, deletes them, or does not open. */
  function Opened(cipher: Cipher, last: map<ItemId, RemoteChange>): set<ItemId> {
    set id | id in last && OpensAs(cipher, last[id])
  }

  function Deleted(last: map<ItemId, RemoteChange>): set<ItemId> {
    set id | id in last && last[id].deleted
  }

  function Unopened(cipher: Cipher, last: map<ItemId, RemoteChange>): set<ItemId> {
    set id | id in last && !last[id].deleted && !OpensAs(cipher, last[id])
  }

  /** What the report counts: items stored that were not listed, and that were; stored
      items deleted; and items that did not open. */
  lemma {:induction false} ReportMeaning(cipher: Cipher, t: Tables, last: map<ItemId, RemoteChange>)
    ensures var (r, listed) := (Counted(cipher, t, last), t.live.Keys + t.trash.Keys);
            && r.added == |Opened(cipher, last) - listed| && r.updated == |Opened(cipher, last) * listed|
            && r.deleted == |Deleted(last) * t.items.Keys| && r.skipped == |Unopened(cipher, last)|
  {
    assert StoredRows(cipher, last).Keys == Opened(cipher, last);
    assert DroppedIds(cipher, last) == Deleted(last);
    var skipped := UnreadableIds(cipher, last);
    assert skipped.Keys == Unopened(cipher, last) && |skipped| == |skipped.Keys|;
  }

  /** The number of stored items changes by what the report says was added and
      deleted. */
  lemma {:induction false} ItemCountFollowsReport(cipher: Cipher, t: Tables, last: map<ItemId, RemoteChange>,
                                                  cursor: Option<(int, int)>)
    requires ListsMatch(t)
    ensures var r := Counted(cipher, t, last);
            |Applied(cipher, t, last, cursor).items| == |t.items| + r.added - r.deleted
  {
    var stored, gone := StoredRows(cipher, last).Keys, DroppedIds(cipher, last);
    CountAfter(t.items.Keys, stored, gone);
    assert Applied(cipher, t, last, cursor).items.Keys == (t.items.Keys + stored) - gone;
  }

  lemma CountAfter(held: set<ItemId>, stored: set<ItemId>, gone: set<ItemId>)
    requires stored !! gone
    ensures |(held + stored) - gone| == |held| + |stored - held| - |gone * held|
  {
    assert (held + stored) - gone == (held - gone) + (stored - held);
    assert held == (held - gone) + gone * held;
  }

  // ---------------------------------------------------------------- order does not matter

  /** Both batches name the same items and agree on each item's last mention. */
  predicate SameLastMentions(a: seq<RemoteChange>, b: seq<RemoteChange>) {
    && (forall i :: 0 <= i < |a| && IsLastMention(a, i) ==>
          exists j :: 0 <= j < |b| && IsLastMention(b, j) && b[j] == a[i])
    && (forall j :: 0 <= j < |b| && IsLastMention(b, j) ==>
          exists i :: 0 <= i < |a| && IsLastMention(a, i) && a[i] == b[j])
  }

  lemma {:induction false} LastMentionExists(cs: seq<RemoteChange>, id: ItemId) returns (i: nat)
    requires id in LastChanges(cs)
    ensures i < |cs| && cs[i].id == id && IsLastMention(cs, i) && LastChanges(cs)[id] == cs[i]
  {
    var n := |cs| - 1;
    if cs[n].id == id {
      i := n;
    } else {
      i := LastMentionExists(cs[..n], id);
    }
  }

  /** Batches with the same last mentions have the same effect and the same
      report on every replica: reordering, repeating or adding superseded
      changes makes no difference. */
  lemma {:induction false} EffectDependsOnLastMentions(cipher: Cipher, t: Tables, a: seq<RemoteChange>,
                                                       b: seq<RemoteChange>,
                                                       cursor: Option<(int, int)>)
    requires SameLastMentions(a, b)
    ensures LastChanges(a) == LastChanges(b)
    ensures Applied(cipher, t, LastChanges(a), cursor) == Applied(cipher, t, LastChanges(b), cursor)
    ensures Counted(cipher, t, LastChanges(a)) == Counted(cipher, t, LastChanges(b))
  {
    SubsumesLastChanges(a, b);
    SubsumesLastChanges(b, a);
    var x, y := LastChanges(a), LastChanges(b);
    SameMaps(x, y);
  }

  lemma SameMaps(x: map<ItemId, RemoteChange>, y: map<ItemId, RemoteChange>)
    requires forall id <- x :: id in y && y[id] == x[id]
    requires forall id <- y :: id in x && x[id] == y[id]
    ensures x == y
  {
    assert x.Keys == y.Keys;
  }

  lemma {:induction false} SubsumesLastChanges(a: seq<RemoteChange>, b: seq<RemoteChange>)
    requires SameLastMentions(a, b)
    ensures forall id <- LastChanges(a) :: id in LastChanges(b) && LastChanges(b)[id] == LastChanges(a)[id]
  {
    forall id | id in LastChanges(a)
      ensures id in LastChanges(b) && LastChanges(b)[id] == LastChanges(a)[id]
    {
      var i := LastMentionExists(a, id);
      var j :| 0 <= j < |b| && IsLastMention(b, j) && b[j] == a[i];
      LastChangesMeaning(b, j);
    }
  }

  /** A batch that names each item once is its own set of last mentions. */
  lemma {:induction false} DistinctBatch(cs: seq<RemoteChange>)
    requires forall i, j :: 0 <= i < j < |cs| ==> cs[i].id != cs[j].id
    ensures forall i :: 0 <= i < |cs| ==> cs[i].id in LastChanges(cs) && LastChanges(cs)[cs[i].id] == cs[i]
    ensures forall id <- LastChanges(cs) :: exists i :: 0 <= i < |cs| && cs[i].id == id
  {
    forall i | 0 <= i < |cs|
      ensures cs[i].id in LastChanges(cs) && LastChanges(cs)[cs[i].id] == cs[i]
    {
      LastChangesMeaning(cs, i);
    }
    forall id | id in LastChanges(cs)
      ensures exists i :: 0 <= i < |cs| && cs[i].id == id
    {
      var i := LastMentionExists(cs, id);
    }
  }

  lemma OutsideTheBatch(cs: seq<RemoteChange>, id: ItemId)
    requires forall c <- cs :: c.id != id
    ensures id !in LastChanges(cs)
  {
  }
}
