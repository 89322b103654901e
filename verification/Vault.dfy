/**
 The replica as the program keeps it: a store whose tables change in place and a
 vault service that owns the store and the in-memory lists. Every method is
 proved against the value functions of module Changes.
 */
module Vault {
  import opened Wrappers
  import opened Changes

  datatype VaultError = NotLinked | VaultLocked | Malformed

  /** A write the server is asked for, and what is recorded once it accepts.
      `plain` is the overview the sealed blobs hold. */
  datatype StagedWrite = StagedWrite(
    id: ItemId, base: Option<int>, overview: Option<Blob>, details: Option<Blob>,
    plain: Option<Overview>, epoch: nat)

  /** A write of this device, accepted at a revision. */
  datatype Commit = Commit(write: StagedWrite, revision: int)

  // ---------------------------------------------------------------- lists as maps

  /** Later rows for the same id replace earlier ones. */
  function ByLatest<V>(pairs: seq<(ItemId, V)>): map<ItemId, V> {
    if pairs == [] then map[]
    else ByLatest(pairs[..|pairs| - 1])[pairs[|pairs| - 1].0 := pairs[|pairs| - 1].1]
  }

  function AsSet<T>(xs: seq<T>): set<T> {
    set x | x in xs
  }

  lemma ByLatestStep<V>(pairs: seq<(ItemId, V)>, i: nat)
    requires i < |pairs|
    ensures ByLatest(pairs[..i + 1]) == ByLatest(pairs[..i])[pairs[i].0 := pairs[i].1]
  {
    assert pairs[..i + 1][..i] == pairs[..i];
  }

  lemma AsSetStep<T>(xs: seq<T>, i: nat)
    requires i < |xs|
    ensures AsSet(xs[..i + 1]) == AsSet(xs[..i]) + {xs[i]}
  {
    assert xs[..i + 1] == xs[..i] + [xs[i]];
  }

  lemma MapsEqual<V>(a: map<ItemId, V>, b: map<ItemId, V>)
    requires forall id :: id in a <==> id in b
    requires forall id :: id in a ==> a[id] == b[id]
    ensures a == b
  {
  }

  lemma SumStep<V>(m: map<ItemId, V>, n: map<ItemId, V>, id: ItemId, v: V)
    ensures (m + n)[id := v] == m + n[id := v]
  {
    MapsEqual((m + n)[id := v], m + n[id := v]);
  }

  lemma MinusStep<V>(m: map<ItemId, V>, gone: set<ItemId>, id: ItemId)
    ensures m - gone - {id} == m - (gone + {id})
  {
    MapsEqual(m - gone - {id}, m - (gone + {id}));
  }

  lemma MeetStep(a: set<ItemId>, b: set<ItemId>, id: ItemId)
    ensures |(a + {id}) * b| == |a * b| + (if id in b && id !in a then 1 else 0)
    ensures id !in a ==> |(a + {id}) - b| == |a - b| + (if id in b then 0 else 1)
  {
    if id in b && id !in a {
      assert (a + {id}) * b == a * b + {id};
    } else {
      assert (a + {id}) * b == a * b;
    }
    if id !in b {
      assert (a + {id}) - b == (a - b) + {id};
    } else {
      assert (a + {id}) - b == a - b;
    }
  }

  // ---------------------------------------------------------------- store

  class Store {
    /** Whether the account row exists. */
    var linked: bool
    var items: map<ItemId, ItemRow>
    var unreadable: map<ItemId, int>
    var cursor: int
    var syncedAt: Option<int>

    constructor (linked: bool)
      ensures this.linked == linked && items == map[] && unreadable == map[] && cursor == 0 && syncedAt == None
    {
      this.linked, items, unreadable, cursor, syncedAt := linked, map[], map[], 0, None;
    }

    /** Everything one pull changes, in one transaction. Returns how many rows
        were removed from `items`. */
    method ApplyPull(rows: seq<(ItemId, ItemRow)>, deletions: seq<ItemId>,
                     unreadableIds: seq<(ItemId, int)>, stamp: Option<(int, int)>)
      returns (deleted: nat)
      modifies this
      ensures linked == old(linked)
      ensures items == (old(items) + ByLatest(rows)) - AsSet(deletions)
      ensures unreadable == (old(unreadable) - ByLatest(rows).Keys - AsSet(deletions)) + ByLatest(unreadableIds)
      ensures deleted == |AsSet(deletions) * (old(items) + ByLatest(rows)).Keys|
      ensures cursor == (if stamp.Some? && linked then stamp.value.0 else old(cursor))
      ensures syncedAt == (if stamp.Some? && linked then Some(stamp.value.1) else old(syncedAt))
    {
      UpsertAll(rows);
      deleted := DeleteAll(deletions);
      RecordAll(unreadableIds);
      if stamp.Some? && linked {
        cursor, syncedAt := stamp.value.0, Some(stamp.value.1);
      }
    }

    method UpsertAll(rows: seq<(ItemId, ItemRow)>)
      modifies this`items, this`unreadable
      ensures items == old(items) + ByLatest(rows)
      ensures unreadable == old(unreadable) - ByLatest(rows).Keys
    {
      for i := 0 to |rows|
        invariant items == old(items) + ByLatest(rows[..i])
        invariant unreadable == old(unreadable) - ByLatest(rows[..i]).Keys
      {
        ByLatestStep(rows, i);
        SumStep(old(items), ByLatest(rows[..i]), rows[i].0, rows[i].1);
        MinusStep(old(unreadable), ByLatest(rows[..i]).Keys, rows[i].0);
        items := items[rows[i].0 := rows[i].1];
        unreadable := unreadable - {rows[i].0};
      }
      assert rows[..|rows|] == rows;
    }

    method RecordAll(unreadableIds: seq<(ItemId, int)>)
      modifies this`unreadable
      ensures unreadable == old(unreadable) + ByLatest(unreadableIds)
    {
      for i := 0 to |unreadableIds|
        invariant unreadable == old(unreadable) + ByLatest(unreadableIds[..i])
      {
        ByLatestStep(unreadableIds, i);
        SumStep(old(unreadable), ByLatest(unreadableIds[..i]), unreadableIds[i].0, unreadableIds[i].1);
        unreadable := unreadable[unreadableIds[i].0 := unreadableIds[i].1];
      }
      assert unreadableIds[..|unreadableIds|] == unreadableIds;
    }

    method DeleteAll(deletions: seq<ItemId>) returns (deleted: nat)
      modifies this`items, this`unreadable
      ensures items == old(items) - AsSet(deletions)
      ensures unreadable == old(unreadable) - AsSet(deletions)
      ensures deleted == |AsSet(deletions) * old(items).Keys|
    {
      deleted := 0;
      for i := 0 to |deletions|
        invariant items == old(items) - AsSet(deletions[..i])
        invariant unreadable == old(unreadable) - AsSet(deletions[..i])
        invariant deleted == |AsSet(deletions[..i]) * old(items).Keys|
      {
        var id := deletions[i];
        AsSetStep(deletions, i);
        MinusStep(old(items), AsSet(deletions[..i]), id);
        MinusStep(old(unreadable), AsSet(deletions[..i]), id);
        MeetStep(AsSet(deletions[..i]), old(items).Keys, id);
        if id in items {
          deleted := deleted + 1;
        }
        items := items - {id};
        unreadable := unreadable - {id};
      }
      assert deletions[..|deletions|] == deletions;
    }

    /** Ask for the whole vault again: one transaction. */
    method ResetCursor(now: int)
      modifies this`unreadable, this`cursor, this`syncedAt
      ensures unreadable == map[]
      ensures cursor == (if linked then 0 else old(cursor))
      ensures syncedAt == (if linked then Some(now) else old(syncedAt))
    {
      if linked {
        cursor, syncedAt := 0, Some(now);
      }
      unreadable := map[];
    }

    method UpsertItem(id: ItemId, row: ItemRow)
      modifies this`items
      ensures items == old(items)[id := row]
    {
      items := items[id := row];
    }

    method DeleteItem(id: ItemId) returns (found: bool)
      modifies this`items
      ensures items == old(items) - {id} && found == (id in old(items))
    {
      found := id in items;
      items := items - {id};
    }

    /** Every stored id once, in ascending order. */
    method ItemIds() returns (ids: seq<ItemId>)
      ensures ids == SortedIds(items.Keys)
    {
      ids := Sorted(items.Keys);
    }

    method UnreadableItemIds() returns (ids: seq<ItemId>)
      ensures ids == SortedIds(unreadable.Keys)
    {
      ids := Sorted(unreadable.Keys);
    }
  }

  predicate Ascending(ids: seq<ItemId>) {
    forall i, j :: 0 <= i < j < |ids| ==> ids[i] < ids[j]
  }

  predicate Below(ids: set<ItemId>, rest: set<ItemId>) {
    forall y <- ids, x <- rest :: y < x
  }

  predicate Least(m: ItemId, s: set<ItemId>) {
    m in s && forall x <- s :: m <= x
  }

  lemma AscendingGrows(ids: seq<ItemId>, m: ItemId)
    requires Ascending(ids) && Below(AsSet(ids), {m})
    ensures Ascending(ids + [m]) && AsSet(ids + [m]) == AsSet(ids) + {m}
  {
    forall i | 0 <= i < |ids| ensures ids[i] < m {
      assert ids[i] in AsSet(ids);
    }
  }

  lemma MinExists(s: set<ItemId>)
    requires s != {}
    ensures exists m :: Least(m, s)
  {
    var a :| a in s;
    var rest := s - {a};
    if rest == {} {
      assert s == {a} && Least(a, s);
    } else {
      MinExists(rest);
      var m :| Least(m, rest);
      LeastOfMore(s, a, m);
    }
  }

  lemma LeastOfMore(s: set<ItemId>, a: ItemId, m: ItemId)
    requires a in s && Least(m, s - {a})
    ensures Least(if m <= a then m else a, s)
  {
    assert forall x <- s :: x == a || x in s - {a};
  }

  /** The ids of a set in ascending order. */
  ghost function SortedIds(s: set<ItemId>): (ids: seq<ItemId>)
    ensures Ascending(ids) && AsSet(ids) == s
  {
    if s == {} then []
    else
      MinExists(s);
      var m :| Least(m, s);
      var rest := SortedIds(s - {m});
      LeastFirst(m, rest);
      [m] + rest
  }

  lemma LeastFirst(m: ItemId, rest: seq<ItemId>)
    requires Ascending(rest) && Below({m}, AsSet(rest))
    ensures Ascending([m] + rest) && AsSet([m] + rest) == {m} + AsSet(rest)
  {
    forall i | 0 <= i < |rest| ensures m < rest[i] {
      assert rest[i] in AsSet(rest);
    }
  }

  /** A set has one ascending list. */
  lemma {:induction false} OneAscendingList(a: seq<ItemId>, b: seq<ItemId>)
    requires Ascending(a) && Ascending(b) && AsSet(a) == AsSet(b)
    ensures a == b
  {
    HeadIn(a);
    HeadIn(b);
    if a != [] {
      assert a[0] in AsSet(b) && b[0] in AsSet(a);
      TailSet(a);
      TailSet(b);
      OneAscendingList(a[1..], b[1..]);
      assert a == [a[0]] + a[1..] && b == [b[0]] + b[1..];
    }
  }

  lemma HeadIn(a: seq<ItemId>)
    ensures a == [] <==> AsSet(a) == {}
    ensures a != [] ==> a[0] in AsSet(a)
  {
    assert a != [] ==> a[0] in AsSet(a);
  }

  lemma TailSet(a: seq<ItemId>)
    requires Ascending(a) && a != []
    ensures AsSet(a[1..]) == AsSet(a) - {a[0]}
  {
    assert a == [a[0]] + a[1..];
  }

  method Sorted(s: set<ItemId>) returns (ids: seq<ItemId>)
    ensures AsSet(ids) == s && Ascending(ids) && ids == SortedIds(s)
  {
    ids := [];
    var rest := s;
    while rest != {}
      invariant AsSet(ids) + rest == s && AsSet(ids) !! rest
      invariant Ascending(ids) && Below(AsSet(ids), rest)
      decreases rest
    {
      MinExists(rest);
      var m :| m in rest && forall x <- rest :: m <= x;
      AscendingGrows(ids, m);
      ids := ids + [m];
      rest := rest - {m};
    }
    OneAscendingList(ids, SortedIds(s));
  }

  // ---------------------------------------------------------------- vault service

  /** The replica with one more accepted write recorded. The unreadable table
      and the cursor do not move. */
  function Committed(cipher: Cipher, t: Tables, w: StagedWrite, revision: int): Tables {
    if w.overview.Some? && w.details.Some? && w.plain.Some? then
      t.(items := t.items[w.id := ItemRow(w.overview.value, w.details.value, revision)],
         live := PlacedLive(cipher, t.live, map[w.id := w.plain.value]),
         trash := PlacedTrash(cipher, t.trash, map[w.id := w.plain.value]))
    else if w.overview.None? && w.details.None? && w.plain.None? then
      t.(items := t.items - {w.id}, live := t.live - {w.id}, trash := t.trash - {w.id})
    else t
  }

  predicate WellFormed(w: StagedWrite) {
    (w.overview.Some? && w.details.Some? && w.plain.Some?) ||
    (w.overview.None? && w.details.None? && w.plain.None?)
  }

  /** Whether the vault, as it is, records the write at all. */
  predicate Recordable(unlocked: bool, epoch: nat, w: StagedWrite) {
    unlocked && w.epoch == epoch && WellFormed(w)
  }

  /** What is still wanted of a fetch-by-id answer: only ids recorded unreadable
      now, nothing older than what is recorded, and a deletion for each wanted id
      the answer does not mention at all. */
  function RefetchPlan(recorded: map<ItemId, int>, requested: set<ItemId>, changes: seq<RemoteChange>)
    : map<ItemId, RemoteChange>
  {
    var wanted := requested * recorded.Keys;
    var returned := set c | c in changes && c.id in wanted :: c.id;
    LastChanges(Fresh(recorded, wanted, changes)) + Tombstones(wanted - returned)
  }

  function Fresh(recorded: map<ItemId, int>, wanted: set<ItemId>, changes: seq<RemoteChange>)
    : (kept: seq<RemoteChange>)
    requires wanted <= recorded.Keys
    ensures forall c <- kept :: c in changes && c.id in wanted && c.revision >= recorded[c.id]
  {
    if changes == [] then []
    else
      var front := Fresh(recorded, wanted, changes[..|changes| - 1]);
      var c := changes[|changes| - 1];
      if c.id in wanted && c.revision >= recorded[c.id] then front + [c] else front
  }

  /** The last change that names the item and is not older than what is recorded. */
  predicate LastFresh(changes: seq<RemoteChange>, i: nat, id: ItemId, recorded: int) {
    && i < |changes| && changes[i].id == id && changes[i].revision >= recorded
    && forall j :: i < j < |changes| && changes[j].id == id ==> changes[j].revision < recorded
  }

  function Tombstone(id: ItemId): RemoteChange {
    RemoteChange(id, 0, None, None, true)
  }

  /** The replica without the ids `gone`. */
  function Without(t: Tables, gone: set<ItemId>): Tables {
    t.(items := t.items - gone, unreadable := t.unreadable - gone, live := t.live - gone, trash := t.trash - gone)
  }

  lemma WithoutNothing(t: Tables)
    ensures Without(t, {}) == t
  {
    MapsEqual(t.items - {}, t.items);
    MapsEqual(t.unreadable - {}, t.unreadable);
    MapsEqual(t.live - {}, t.live);
    MapsEqual(t.trash - {}, t.trash);
  }

  lemma FreshOneMore(recorded: map<ItemId, int>, wanted: set<ItemId>, changes: seq<RemoteChange>, m: nat)
    requires wanted <= recorded.Keys && 0 < m <= |changes|
    ensures var (front, c) := (Fresh(recorded, wanted, changes[..m - 1]), changes[m - 1]);
            Fresh(recorded, wanted, changes[..m]) ==
            if c.id in wanted && c.revision >= recorded[c.id] then front + [c] else front
  {
    assert changes[..m][..m - 1] == changes[..m - 1];
  }

  /** Of the first `m` changes, that reach the last fresh one of the item. */
  lemma {:induction false} LastFreshIsKept(recorded: map<ItemId, int>, wanted: set<ItemId>,
                                           changes: seq<RemoteChange>, id: ItemId, i: nat, m: nat)
    requires wanted <= recorded.Keys && id in wanted && LastFresh(changes, i, id, recorded[id])
    requires i < m <= |changes|
    ensures id in LastChanges(Fresh(recorded, wanted, changes[..m]))
    ensures LastChanges(Fresh(recorded, wanted, changes[..m]))[id] == changes[i]
  {
    var (front, c) := (Fresh(recorded, wanted, changes[..m - 1]), changes[m - 1]);
    FreshOneMore(recorded, wanted, changes, m);
    LastOfMore(front, c);
    if i < m - 1 {
      LastFreshIsKept(recorded, wanted, changes, id, i, m - 1);
    }
  }

  /** What is made of an answer to a fetch by id: of each item asked for and recorded
      unreadable the last change not older than recorded; a deletion if the answer does
      not name it; and nothing for any other item. */
  lemma {:induction false} RefetchPlanMeaning(recorded: map<ItemId, int>, requested: set<ItemId>,
                                              changes: seq<RemoteChange>, id: ItemId)
    ensures var plan := RefetchPlan(recorded, requested, changes);
            if id !in requested || id !in recorded then id !in plan
            else if forall c <- changes :: c.id != id then id in plan && plan[id].id == id && plan[id].deleted
            else
              && (id in plan <==> exists i: nat :: LastFresh(changes, i, id, recorded[id]))
              && (forall i: nat :: LastFresh(changes, i, id, recorded[id]) ==> id in plan && plan[id] == changes[i])
  {
    var (plan, wanted) := (RefetchPlan(recorded, requested, changes), requested * recorded.Keys);
    var kept := Fresh(recorded, wanted, changes);
    if id in wanted && exists c <- changes :: c.id == id {
      assert id in plan <==> id in LastChanges(kept);
      forall i: nat | LastFresh(changes, i, id, recorded[id]) ensures id in plan && plan[id] == changes[i] {
        LastFreshIsKept(recorded, wanted, changes, id, i, |changes|);
        assert changes[..|changes|] == changes;
      }
      if id in plan {
        var _ := LastFreshExists(changes, LastChanges(kept)[id], recorded[id]);
      }
    }
  }

  lemma {:induction false} LastFreshExists(changes: seq<RemoteChange>, c: RemoteChange, recorded: int)
    returns (i: nat)
    requires c in changes && c.revision >= recorded
    ensures LastFresh(changes, i, c.id, recorded)
  {
    var n := |changes| - 1;
    if changes[n].id == c.id && changes[n].revision >= recorded {
      i := n;
    } else {
      assert changes == changes[..n] + [changes[n]];
      i := LastFreshExists(changes[..n], c, recorded);
    }
  }

  class VaultService {
    const cipher: Cipher
    const store: Store
    var unlocked: bool
    var epoch: nat
    var live: map<ItemId, Overview>
    var trash: map<ItemId, Overview>

    constructor (cipher: Cipher, store: Store)
      ensures this.cipher == cipher && this.store == store
      ensures !unlocked && epoch == 0 && live == map[] && trash == map[]
    {
      this.cipher, this.store := cipher, store;
      unlocked, epoch, live, trash := false, 0, map[], map[];
    }

    ghost function Tables(): Tables
      reads this, store
    {
      Changes.Tables.Tables(store.items, store.unreadable, store.cursor, store.syncedAt, live, trash)
    }

    /** Apply a pull in cursor order and move the stored cursor. */
    method ApplyRemoteChanges(cursor: int, changes: seq<RemoteChange>, now: int)
      returns (r: Result<Report, VaultError>)
      modifies this, store
      ensures unlocked == old(unlocked) && epoch == old(epoch) && store.linked == old(store.linked)
      ensures r.Err? <==> !store.linked || !unlocked
      ensures r.Err? ==> Tables() == old(Tables()) && r.error == if store.linked then VaultLocked else NotLinked
      ensures r.Ok? ==> r.value == Counted(cipher, old(Tables()), LastChanges(changes))
      ensures r.Ok? ==> Tables() == Applied(cipher, old(Tables()), LastChanges(changes), Some((cursor, now)))
    {
      r := ApplyChanges(changes, Some(cursor), now);
    }

    /** Apply a fetch-by-id answer. The cursor does not move. */
    method ApplyRefetched(requested: seq<ItemId>, changes: seq<RemoteChange>, now: int)
      returns (r: Result<Report, VaultError>)
      modifies this, store
      ensures unlocked == old(unlocked) && epoch == old(epoch) && store.linked == old(store.linked)
      ensures r.Err? <==> !store.linked || !unlocked
      ensures r.Err? ==> Tables() == old(Tables()) && r.error == if store.linked then VaultLocked else NotLinked
      ensures r.Ok? ==>
                var plan := RefetchPlan(old(store.unreadable), AsSet(requested), changes);
                r.value == Counted(cipher, old(Tables()), plan)
                    && Tables() == Applied(cipher, old(Tables()), plan, None)
    {
      var recorded := store.unreadable;
      var wanted := set id | id in requested && id in recorded;
      assert wanted == AsSet(requested) * recorded.Keys;
      var kept, returned := [], {};
      for i := 0 to |changes|
        invariant kept == Fresh(recorded, wanted, changes[..i])
        invariant returned == set c | c in changes[..i] && c.id in wanted :: c.id
      {
        var c := changes[i];
        assert changes[..i + 1][..i] == changes[..i];
        if c.id in wanted {
          returned := returned + {c.id};
          if c.revision >= recorded[c.id] {
            kept := kept + [c];
          }
        }
      }
      assert changes[..|changes|] == changes;
      var missing := Sorted(wanted - returned);
      var deletions := seq(|missing|, i requires 0 <= i < |missing| => Tombstone(missing[i]));
      TombstoneBatch(kept, missing, deletions);
      r := ApplyChanges(kept + deletions, None, now);
    }

    /** Drop the ids of `held` the server did not mention in a pull from 0. */
    method DropItemsTheServerLacks(held: seq<ItemId>, seen: set<ItemId>, now: int)
      returns (r: Result<Report, VaultError>)
      modifies this, store
      ensures unlocked == old(unlocked) && epoch == old(epoch) && store.linked == old(store.linked)
      ensures r.Err? ==> Tables() == old(Tables()) && (!store.linked || !unlocked)
      ensures r.Ok? ==> Tables() == Without(old(Tables()), AsSet(held) - seen)
      ensures r.Ok? ==> r.value == NO_CHANGES.(deleted := |(AsSet(held) - seen) * old(store.items).Keys|)
      ensures store.linked && unlocked ==> r.Ok?
    {
      if !store.linked {
        return Err(NotLinked);
      }
      var gone := set id | id in held && id !in seen;
      assert gone == AsSet(held) - seen;
      var missing := Sorted(gone);
      var deletions := seq(|missing|, i requires 0 <= i < |missing| => Tombstone(missing[i]));
      OnlyTombstones(missing, deletions);
      if deletions == [] {
        assert gone == {};
        WithoutNothing(Tables());
        assert gone * store.items.Keys == {};
        return Ok(NO_CHANGES);
      }
      TombstonesDrop(cipher, Tables(), gone);
      r := ApplyChanges(deletions, None, now);
    }

    method ResetSyncCursor(now: int) returns (r: Result<(), VaultError>)
      modifies store
      ensures unlocked == old(unlocked) && store.linked == old(store.linked)
      ensures r.Err? <==> !store.linked
      ensures r.Err? ==> Tables() == old(Tables()) && r.error == NotLinked
      ensures r.Ok? ==> Tables() == old(Tables()).(cursor := 0, unreadable := map[], syncedAt := Some(now))
    {
      if !store.linked {
        return Err(NotLinked);
      }
      store.ResetCursor(now);
      r := Ok(());
    }

    method ReplicaItemIds() returns (r: Result<seq<ItemId>, VaultError>)
      ensures r == if store.linked then Ok(SortedIds(store.items.Keys)) else Err(NotLinked)
    {
      if !store.linked {
        return Err(NotLinked);
      }
      var ids := store.ItemIds();
      r := Ok(ids);
    }

    /** Record a write the server accepted at `revision`. */
    method CommitWrite(w: StagedWrite, revision: int) returns (r: Result<Option<Overview>, VaultError>)
      modifies this, store
      ensures unlocked == old(unlocked) && epoch == old(epoch) && store.linked == old(store.linked)
      ensures !unlocked || w.epoch != epoch ==> r == Err(VaultLocked)
      ensures unlocked && w.epoch == epoch ==> r == if WellFormed(w) then Ok(w.plain) else Err(Malformed)
      ensures r.Ok? <==> unlocked && w.epoch == epoch && w.overview.Some? == w.details.Some? == w.plain.Some?
      ensures Tables() == if r.Ok? then Committed(cipher, old(Tables()), w, revision) else old(Tables())
    {
      if !unlocked || w.epoch != epoch {
        return Err(VaultLocked);
      }
      match (w.overview, w.details, w.plain)
      case (Some(ov), Some(det), Some(plain)) =>
        store.UpsertItem(w.id, ItemRow(ov, det, revision));
        Place(w.id, plain);
        r := Ok(w.plain);
      case (None, None, None) =>
        var _ := store.DeleteItem(w.id);
        Forget(w.id);
        r := Ok(None);
      case _ =>
        r := Err(Malformed);
    }

    /** Put an overview in the one list its trash stamp says, out of the other. */
    method Place(id: ItemId, plain: Overview)
      modifies this`live, this`trash
      ensures live == PlacedLive(cipher, old(live), map[id := plain])
      ensures trash == PlacedTrash(cipher, old(trash), map[id := plain])
      ensures plain.trashedAt.Some? && id != cipher.identity ==>
              live == old(live) - {id} && trash == old(trash)[id := plain]
      ensures plain.trashedAt.None? || id == cipher.identity ==>
              live == old(live)[id := plain] && trash == old(trash) - {id}
    {
      if Trashed(cipher, id, plain) {
        live, trash := live - {id}, trash[id := plain];
      } else {
        live, trash := live[id := plain], trash - {id};
      }
    }

    method Forget(id: ItemId)
      modifies this`live, this`trash
      ensures live == old(live) - {id} && trash == old(trash) - {id}
    {
      live, trash := live - {id}, trash - {id};
    }

    /** Authenticate each last mention, then write the net effect. */
    method ApplyChanges(changes: seq<RemoteChange>, cursor: Option<int>, now: int)
      returns (r: Result<Report, VaultError>)
      modifies this, store
      ensures unlocked == old(unlocked) && epoch == old(epoch) && store.linked == old(store.linked)
      ensures r.Err? <==> !store.linked || !unlocked
      ensures r.Err? ==> Tables() == old(Tables()) && r.error == if store.linked then VaultLocked else NotLinked
      ensures r.Ok? ==> r.value == Counted(cipher, old(Tables()), LastChanges(changes))
      ensures r.Ok? ==> Tables() == Applied(cipher, old(Tables()), LastChanges(changes),
                                            if cursor.Some? then Some((cursor.value, now)) else None)
    {
      if !store.linked {
        return Err(NotLinked);
      }
      if !unlocked {
        return Err(VaultLocked);
      }
      ghost var before := Tables();
      ghost var last := LastChanges(changes);
      var lastIndex := IndexOfLast(changes);
      var v := Collect(changes, lastIndex);
      DeletedCount(cipher, before, last);
      var stamp := if cursor.Some? then Some((cursor.value, now)) else None;
      var deleted := store.ApplyPull(v.rows, v.deletions, v.unreadable, stamp);
      PlaceAll(v.overviews);
      ForgetAll(v.deletions);
      r := Ok(Report(v.added, v.updated, deleted, v.skipped));
    }

    method PlaceAll(overviews: seq<(ItemId, Overview)>)
      modifies this`live, this`trash
      ensures live == PlacedLive(cipher, old(live), ByLatest(overviews))
      ensures trash == PlacedTrash(cipher, old(trash), ByLatest(overviews))
    {
      for i := 0 to |overviews|
        invariant live == PlacedLive(cipher, old(live), ByLatest(overviews[..i]))
        invariant trash == PlacedTrash(cipher, old(trash), ByLatest(overviews[..i]))
      {
        Place(overviews[i].0, overviews[i].1);
        ByLatestStep(overviews, i);
        PlacedLiveStep(cipher, old(live), ByLatest(overviews[..i]), overviews[i].0, overviews[i].1);
        PlacedTrashStep(cipher, old(trash), ByLatest(overviews[..i]), overviews[i].0, overviews[i].1);
      }
      assert overviews[..|overviews|] == overviews;
    }

    method ForgetAll(ids: seq<ItemId>)
      modifies this`live, this`trash
      ensures live == old(live) - AsSet(ids) && trash == old(trash) - AsSet(ids)
    {
      for i := 0 to |ids|
        invariant live == old(live) - AsSet(ids[..i]) && trash == old(trash) - AsSet(ids[..i])
      {
        Forget(ids[i]);
        AsSetStep(ids, i);
        MinusStep(old(live), AsSet(ids[..i]), ids[i]);
        MinusStep(old(trash), AsSet(ids[..i]), ids[i]);
      }
      assert ids[..|ids|] == ids;
    }

    /** The position of each item's last mention. */
    method IndexOfLast(changes: seq<RemoteChange>) returns (lastIndex: map<ItemId, nat>)
      ensures Indexes(changes, lastIndex) && lastIndex.Keys == LastChanges(changes).Keys
      ensures forall id <- lastIndex :: LastChanges(changes)[id] == changes[lastIndex[id]]
    {
      lastIndex := map[];
      for i := 0 to |changes|
        invariant IndexedUpTo(changes, i, lastIndex)
      {
        IndexOneMore(changes, i, lastIndex);
        lastIndex := lastIndex[changes[i].id := i];
      }
      assert changes[..|changes|] == changes;
    }

    /** Sort the last mentions into rows, deletions and unreadable ids. */
    method Collect(changes: seq<RemoteChange>, lastIndex: map<ItemId, nat>) returns (v: Verdicts)
      requires Indexes(changes, lastIndex) && lastIndex.Keys == LastChanges(changes).Keys
      requires forall id <- lastIndex :: LastChanges(changes)[id] == changes[lastIndex[id]]
      ensures v.For(cipher, LastChanges(changes), Listed(Tables()))
    {
      v := NO_VERDICTS;
      UntilStart(changes, lastIndex);
      NoVerdictsYet(cipher, Listed(Tables()));
      for i := 0 to |changes|
        invariant v.For(cipher, Until(changes, lastIndex, i), Listed(Tables()))
      {
        var c := changes[i];
        UntilStep(changes, lastIndex, i);
        if lastIndex[c.id] == i {
          AddKeeps(cipher, v, Until(changes, lastIndex, i), c, Listed(Tables()));
          v := v.Add(cipher, c, c.id in live || c.id in trash);
        }
      }
      MapsEqual(Until(changes, lastIndex, |changes|), LastChanges(changes));
    }
  }

  ghost predicate Indexes(changes: seq<RemoteChange>, lastIndex: map<ItemId, nat>) {
    && (forall id <- lastIndex :: lastIndex[id] < |changes| && changes[lastIndex[id]].id == id)
    && (forall i :: 0 <= i < |changes| ==> changes[i].id in lastIndex)
  }

  /** The positions of the last mentions among the first `i` changes. */
  ghost predicate IndexedUpTo(changes: seq<RemoteChange>, i: nat, lastIndex: map<ItemId, nat>)
    requires i <= |changes|
  {
    && lastIndex.Keys == LastChanges(changes[..i]).Keys
    && (forall k :: 0 <= k < i ==> changes[k].id in lastIndex)
    && (forall id <- lastIndex :: lastIndex[id] < i && changes[lastIndex[id]].id == id
                                  && LastChanges(changes[..i])[id] == changes[lastIndex[id]])
  }

  lemma IndexOneMore(changes: seq<RemoteChange>, i: nat, lastIndex: map<ItemId, nat>)
    requires i < |changes| && IndexedUpTo(changes, i, lastIndex)
    ensures IndexedUpTo(changes, i + 1, lastIndex[changes[i].id := i])
  {
    var (c, before, index) := (changes[i], LastChanges(changes[..i]), lastIndex[changes[i].id := i]);
    assert changes[..i + 1] == changes[..i] + [c];
    LastOfMore(changes[..i], c);
    assert index.Keys == lastIndex.Keys + {c.id} == before[c.id := c].Keys;
    forall id | id in index ensures index[id] < i + 1 && changes[index[id]].id == id
        && before[c.id := c][id] == changes[index[id]]
    {
      assert id != c.id ==> id in lastIndex;
    }
  }

  lemma LastOfMore(part: seq<RemoteChange>, c: RemoteChange)
    ensures LastChanges(part + [c]) == LastChanges(part)[c.id := c]
  {
    assert (part + [c])[..|part|] == part;
  }

  /** The last mentions found before position `i`. */
  ghost function Until(changes: seq<RemoteChange>, lastIndex: map<ItemId, nat>, i: nat): map<ItemId, RemoteChange>
    requires Indexes(changes, lastIndex)
  {
    map id | id in lastIndex && lastIndex[id] < i :: changes[lastIndex[id]]
  }

  lemma UntilStart(changes: seq<RemoteChange>, lastIndex: map<ItemId, nat>)
    requires Indexes(changes, lastIndex)
    ensures Until(changes, lastIndex, 0) == map[]
  {
  }

  lemma UntilStep(changes: seq<RemoteChange>, lastIndex: map<ItemId, nat>, i: nat)
    requires Indexes(changes, lastIndex) && i < |changes|
    ensures var c, done := changes[i], Until(changes, lastIndex, i);
            if lastIndex[c.id] == i
            then c.id !in done && Until(changes, lastIndex, i + 1) == done[c.id := c]
            else Until(changes, lastIndex, i + 1) == done
  {
    var c, done := changes[i], Until(changes, lastIndex, i);
    MapsEqual(Until(changes, lastIndex, i + 1), if lastIndex[c.id] == i then done[c.id := c] else done);
  }

  /** What the first pass over a batch collects. */
  datatype Verdicts = Verdicts(
    rows: seq<(ItemId, ItemRow)>, overviews: seq<(ItemId, Overview)>, deletions: seq<ItemId>,
    unreadable: seq<(ItemId, int)>, added: nat, updated: nat, skipped: nat)
  {
    function Add(cipher: Cipher, c: RemoteChange, listed: bool): Verdicts {
      match Judge(cipher, c)
      case Drop => this.(deletions := deletions + [c.id])
      case Store(row, plain) =>
        this.(rows := rows + [(c.id, row)], overviews := overviews + [(c.id, plain)],
              added := added + (if listed then 0 else 1), updated := updated + (if listed then 1 else 0))
      case Unreadable(revision) =>
        this.(unreadable := unreadable + [(c.id, revision)], skipped := skipped + 1)
    }

    /** These are the verdicts on the changes of `done`, seen from a vault that
        lists the ids `listed`. */
    ghost predicate For(cipher: Cipher, done: map<ItemId, RemoteChange>, listed: set<ItemId>) {
      Holds(StoredRows(cipher, done), StoredPlain(cipher, done), DroppedIds(cipher, done),
            Changes.UnreadableIds(cipher, done), listed)
    }

    ghost predicate Holds(stored: map<ItemId, ItemRow>, plain: map<ItemId, Overview>, gone: set<ItemId>,
                          unopened: map<ItemId, int>, listed: set<ItemId>)
    {
      && ByLatest(rows) == stored
      && ByLatest(overviews) == plain
      && AsSet(deletions) == gone
      && ByLatest(unreadable) == unopened
      && added == |stored.Keys - listed|
      && updated == |stored.Keys * listed|
      && skipped == |unopened|
    }
  }

  const NO_VERDICTS := Verdicts([], [], [], [], 0, 0, 0)

  lemma NoVerdictsYet(cipher: Cipher, listed: set<ItemId>)
    ensures NO_VERDICTS.For(cipher, map[], listed)
  {
    assert StoredRows(cipher, map[]) == map[];
    assert {} - listed == {} && {} * listed == {};
  }

  lemma ByLatestAppend<V>(pairs: seq<(ItemId, V)>, id: ItemId, v: V)
    ensures ByLatest(pairs + [(id, v)]) == ByLatest(pairs)[id := v]
  {
    assert (pairs + [(id, v)])[..|pairs|] == pairs;
  }

  lemma AddKeeps(cipher: Cipher, v: Verdicts, done: map<ItemId, RemoteChange>, c: RemoteChange, listed: set<ItemId>)
    requires c.id !in done && v.For(cipher, done, listed)
    ensures v.Add(cipher, c, c.id in listed).For(cipher, done[c.id := c], listed)
  {
    StoredRowsStep(cipher, done, c);
    StoredPlainStep(cipher, done, c);
    DroppedIdsStep(cipher, done, c);
    UnreadableIdsStep(cipher, done, c);
    AddHolds(cipher, v, c, StoredRows(cipher, done), StoredPlain(cipher, done), DroppedIds(cipher, done),
             Changes.UnreadableIds(cipher, done), listed);
  }

  lemma StoredCounts(stored: map<ItemId, ItemRow>, id: ItemId, row: ItemRow, listed: set<ItemId>)
    requires id !in stored
    ensures |stored[id := row].Keys - listed| == |stored.Keys - listed| + (if id in listed then 0 else 1)
    ensures |stored[id := row].Keys * listed| == |stored.Keys * listed| + (if id in listed then 1 else 0)
  {
    MeetStep(stored.Keys, listed, id);
    assert stored[id := row].Keys == stored.Keys + {id};
  }

  lemma AddHolds(cipher: Cipher, v: Verdicts, c: RemoteChange, stored: map<ItemId, ItemRow>,
                 plain: map<ItemId, Overview>, gone: set<ItemId>, unopened: map<ItemId, int>, listed: set<ItemId>)
    requires c.id !in stored && c.id !in unopened && v.Holds(stored, plain, gone, unopened, listed)
    ensures var j := Judge(cipher, c);
            v.Add(cipher, c, c.id in listed).Holds(
              if j.Store? then stored[c.id := j.row] else stored,
              if j.Store? then plain[c.id := j.plain] else plain,
              if j.Drop? then gone + {c.id} else gone,
              if j.Unreadable? then unopened[c.id := j.revision] else unopened,
              listed)
  {
    match Judge(cipher, c)
    case Drop =>
      assert AsSet(v.deletions + [c.id]) == AsSet(v.deletions) + {c.id};
    case Store(row, p) =>
      ByLatestAppend(v.rows, c.id, row);
      ByLatestAppend(v.overviews, c.id, p);
      StoredCounts(stored, c.id, row, listed);
    case Unreadable(revision) =>
      ByLatestAppend(v.unreadable, c.id, revision);
  }

  // ---------------------------------------------------------------- lemmas for the loops

  lemma PlacedLiveStep(cipher: Cipher, list: map<ItemId, Overview>, plain: map<ItemId, Overview>, id: ItemId,
                       p: Overview)
    ensures PlacedLive(cipher, PlacedLive(cipher, list, plain), map[id := p]) ==
            PlacedLive(cipher, list, plain[id := p])
  {
    MapsEqual(PlacedLive(cipher, PlacedLive(cipher, list, plain), map[id := p]),
              PlacedLive(cipher, list, plain[id := p]));
  }

  lemma PlacedTrashStep(cipher: Cipher, list: map<ItemId, Overview>, plain: map<ItemId, Overview>, id: ItemId,
                        p: Overview)
    ensures PlacedTrash(cipher, PlacedTrash(cipher, list, plain), map[id := p]) ==
            PlacedTrash(cipher, list, plain[id := p])
  {
    MapsEqual(PlacedTrash(cipher, PlacedTrash(cipher, list, plain), map[id := p]),
              PlacedTrash(cipher, list, plain[id := p]));
  }

  // How the outcome maps grow by one judged change.

  lemma StoredRowsStep(cipher: Cipher, done: map<ItemId, RemoteChange>, c: RemoteChange)
    requires c.id !in done
    ensures StoredRows(cipher, done[c.id := c]) ==
            if Judge(cipher, c).Store? then StoredRows(cipher, done)[c.id := Judge(cipher, c).row]
                else StoredRows(cipher, done)
  {
    MapsEqual(StoredRows(cipher, done[c.id := c]),
              if Judge(cipher, c).Store? then StoredRows(cipher, done)[c.id := Judge(cipher, c).row]
                  else StoredRows(cipher, done));
  }

  lemma StoredPlainStep(cipher: Cipher, done: map<ItemId, RemoteChange>, c: RemoteChange)
    requires c.id !in done
    ensures StoredPlain(cipher, done[c.id := c]) ==
            if Judge(cipher, c).Store? then StoredPlain(cipher, done)[c.id := Judge(cipher, c).plain]
                else StoredPlain(cipher, done)
  {
    MapsEqual(StoredPlain(cipher, done[c.id := c]),
              if Judge(cipher, c).Store? then StoredPlain(cipher, done)[c.id := Judge(cipher, c).plain]
                  else StoredPlain(cipher, done));
  }

  lemma DroppedIdsStep(cipher: Cipher, done: map<ItemId, RemoteChange>, c: RemoteChange)
    requires c.id !in done
    ensures DroppedIds(cipher, done[c.id := c]) ==
            if Judge(cipher, c).Drop? then DroppedIds(cipher, done) + {c.id} else DroppedIds(cipher, done)
  {
  }

  lemma UnreadableIdsStep(cipher: Cipher, done: map<ItemId, RemoteChange>, c: RemoteChange)
    requires c.id !in done
    ensures var u := Changes.UnreadableIds(cipher, done);
            Changes.UnreadableIds(cipher, done[c.id := c]) ==
            if Judge(cipher, c).Unreadable? then u[c.id := Judge(cipher, c).revision] else u
  {
    var u := Changes.UnreadableIds(cipher, done);
    MapsEqual(Changes.UnreadableIds(cipher, done[c.id := c]),
              if Judge(cipher, c).Unreadable? then u[c.id := Judge(cipher, c).revision] else u);
  }

  lemma DeletedCount(cipher: Cipher, t: Tables, last: map<ItemId, RemoteChange>)
    ensures DroppedIds(cipher, last) * (t.items + StoredRows(cipher, last)).Keys ==
            DroppedIds(cipher, last) * t.items.Keys
  {
  }

  /** Deletions for ids the kept changes do not name join their last mentions. */
  lemma {:induction false} TombstoneBatch(kept: seq<RemoteChange>, missing: seq<ItemId>, deletions: seq<RemoteChange>)
    requires Ascending(missing) && |deletions| == |missing|
    requires forall i :: 0 <= i < |missing| ==> deletions[i] == Tombstone(missing[i])
    ensures LastChanges(kept + deletions) == LastChanges(kept) + Tombstones(AsSet(missing))
  {
    if missing == [] {
      assert kept + deletions == kept;
      MapsEqual(LastChanges(kept), LastChanges(kept) + Tombstones(AsSet(missing)));
    } else {
      var n := |missing| - 1;
      TombstoneBatch(kept, missing[..n], deletions[..n]);
      assert (kept + deletions)[..|kept + deletions| - 1] == kept + deletions[..n];
      AsSetStep(missing, n);
      assert missing[..n + 1] == missing;
      TombstonesStep(AsSet(missing[..n]), missing[n]);
      SumStep(LastChanges(kept), Tombstones(AsSet(missing[..n])), missing[n], Tombstone(missing[n]));
    }
  }

  lemma OnlyTombstones(missing: seq<ItemId>, deletions: seq<RemoteChange>)
    requires Ascending(missing) && |deletions| == |missing|
    requires forall i :: 0 <= i < |missing| ==> deletions[i] == Tombstone(missing[i])
    ensures LastChanges(deletions) == Tombstones(AsSet(missing))
  {
    TombstoneBatch([], missing, deletions);
    assert [] + deletions == deletions;
    MapsEqual(LastChanges(deletions), Tombstones(AsSet(missing)));
  }

  function Tombstones(ids: set<ItemId>): map<ItemId, RemoteChange> {
    map id | id in ids :: Tombstone(id)
  }

  lemma TombstonesStep(ids: set<ItemId>, id: ItemId)
    ensures Tombstones(ids + {id}) == Tombstones(ids)[id := Tombstone(id)]
  {
    MapsEqual(Tombstones(ids + {id}), Tombstones(ids)[id := Tombstone(id)]);
  }

  /** A batch of nothing but deletions takes exactly those ids away. */
  lemma {:induction false} TombstonesDrop(cipher: Cipher, t: Tables, gone: set<ItemId>)
    ensures Applied(cipher, t, Tombstones(gone), None) == Without(t, gone)
    ensures Counted(cipher, t, Tombstones(gone)) == NO_CHANGES.(deleted := |gone * t.items.Keys|)
  {
    var last := Tombstones(gone);
    assert StoredRows(cipher, last).Keys == {} && StoredPlain(cipher, last).Keys == {};
    assert DroppedIds(cipher, last) == gone && Changes.UnreadableIds(cipher, last).Keys == {};
    MapsEqual(Applied(cipher, t, last, None).items, t.items - gone);
    MapsEqual(Applied(cipher, t, last, None).unreadable, t.unreadable - gone);
    MapsEqual(Applied(cipher, t, last, None).live, t.live - gone);
    MapsEqual(Applied(cipher, t, last, None).trash, t.trash - gone);
    assert StoredRows(cipher, last).Keys - Listed(t) == {} && StoredRows(cipher, last).Keys * Listed(t) == {};
  }

  /** A recorded write keeps the lists equal to what the table decrypts to, when
      its blobs were sealed from `plain` under this vault's key. */
  lemma {:induction false} CommitKeepsMirror(cipher: Cipher, t: Tables, w: StagedWrite, revision: int)
    requires Mirrored(cipher, t) && WellFormed(w)
    requires w.plain.Some? ==> cipher.open(w.id, w.overview.value, w.details.value) == w.plain
    ensures Mirrored(cipher, Committed(cipher, t, w, revision))
  {
    CommitKeepsLists(cipher, t, w, revision);
    var u := Committed(cipher, t, w, revision);
    forall id <- u.live ensures Mirrors(cipher, u.items, u.live, id, false) {
      CommittedAt(cipher, t, w, revision, id);
    }
    forall id <- u.trash ensures Mirrors(cipher, u.items, u.trash, id, true) {
      CommittedAt(cipher, t, w, revision, id);
    }
  }

  lemma CommitKeepsLists(cipher: Cipher, t: Tables, w: StagedWrite, revision: int)
    requires ListsMatch(t) && WellFormed(w)
    ensures ListsMatch(Committed(cipher, t, w, revision))
  {
    var u := Committed(cipher, t, w, revision);
    forall id
      ensures id in Listed(u) <==> id in u.items
      ensures !(id in u.live && id in u.trash)
    {
      assert id in Listed(t) <==> id in t.items;
      if w.plain.Some? {
        PlacedAt(cipher, t.live, t.trash, map[w.id := w.plain.value], id);
      }
    }
  }

  /** What recording an accepted write does: the row at that revision, listed by its trash
      stamp, the identity always live; a deletion takes the item out; the rest is as it was. */
  lemma {:induction false} CommittedItem(cipher: Cipher, t: Tables, w: StagedWrite, revision: int, id: ItemId)
    requires w.overview.Some? == w.details.Some? == w.plain.Some?
    ensures var u := Committed(cipher, t, w, revision);
            && u.cursor == t.cursor && u.unreadable == t.unreadable && u.syncedAt == t.syncedAt
            && (id != w.id ==> SameItem(t, u, id))
            && (w.plain.Some? ==>
                  && w.id in u.items && u.items[w.id] == ItemRow(w.overview.value, w.details.value, revision)
                  && ListedByStamp(cipher, u, w.id, w.plain.value))
            && (w.plain.None? ==> w.id !in u.items && w.id !in u.live && w.id !in u.trash)
  {
    if w.plain.Some? {
      PlacedAt(cipher, t.live, t.trash, map[w.id := w.plain.value], id);
      PlacedAt(cipher, t.live, t.trash, map[w.id := w.plain.value], w.id);
    }
  }

  lemma CommittedAt(cipher: Cipher, t: Tables, w: StagedWrite, revision: int, id: ItemId)
    requires Mirrored(cipher, t) && WellFormed(w)
    requires w.plain.Some? ==> cipher.open(w.id, w.overview.value, w.details.value) == w.plain
    ensures var u := Committed(cipher, t, w, revision);
            (id in u.live ==> Mirrors(cipher, u.items, u.live, id, false))
            && (id in u.trash ==> Mirrors(cipher, u.items, u.trash, id, true))
  {
    if w.plain.Some? {
      PlacedAt(cipher, t.live, t.trash, map[w.id := w.plain.value], id);
    }
    assert id in t.live ==> Mirrors(cipher, t.items, t.live, id, false);
    assert id in t.trash ==> Mirrors(cipher, t.items, t.trash, id, true);
  }
}
