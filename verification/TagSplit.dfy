/**
 Two runs that leave two spellings of one tag: two devices that each create an item
 with a new tag before they sync; and a restore, where an item of the backup arrives
 from another device after the restore was planned and before it is staged, and is
 deleted again before it is sent.
 */
module TagSplit {
  import opened Wrappers
  import opened Changes
  import opened Vault
  import opened Server
  import opened Agreement
  import opened SyncLoop
  import opened Restore
  import opened RestoreServer
  import Tags

  const NEW_ITEM: ItemId := 1
  const KNOWN_ITEM: ItemId := 2

  const ARRIVED := ServerState(1, map[KNOWN_ITEM := Row(1, Some(([], [])))])
  const GONE := ServerState(2, map[KNOWN_ITEM := Row(2, None)])

  const ARRIVAL := Page(0, 1, false, [ChangeOf(KNOWN_ITEM, Row(1, Some(([], []))))])

  lemma OtherDeviceCreates()
    ensures ServerRun([EMPTY_SERVER, ARRIVED]) && HonestPage(ARRIVED, ARRIVAL)
  {
    var create := [Change(KNOWN_ITEM, None, Some(([], [])))];
    assert create[..0] == [] && Stamped(create, 1) == map[KNOWN_ITEM := Row(1, Some(([], [])))];
    assert Accepted(EMPTY_SERVER, create) && Written(EMPTY_SERVER, create) == ARRIVED;
    assert KNOWN_ITEM in ARRIVED.rows && Newer(ARRIVED, 0) && !Newer(ARRIVED, 1);
    assert ARRIVAL.changes[0] in ARRIVAL.changes;
  }

  lemma OtherDeviceDeletes()
    ensures ServerRun([EMPTY_SERVER, ARRIVED, GONE])
  {
    OtherDeviceCreates();
    var delete := [Change(KNOWN_ITEM, Some(1), None)];
    assert delete[..0] == [] && Stamped(delete, 2) == map[KNOWN_ITEM := Row(2, None)];
    assert Accepted(ARRIVED, delete) && Written(ARRIVED, delete) == GONE;
    var run := [EMPTY_SERVER, ARRIVED];
    assert ServerStep(run[0], run[1]) && ServerStep(ARRIVED, GONE);
  }

  /** What arrived is stored and listed. */
  lemma ArrivedIsListed(cipher: Cipher)
    requires cipher.open(KNOWN_ITEM, [], []).Some?
    ensures var t := Landed(cipher, START.tables, ARRIVAL, 0);
            var plain := cipher.open(KNOWN_ITEM, [], []).value;
            && KNOWN_ITEM in t.items
            && (!Trashed(cipher, KNOWN_ITEM, plain) ==> KNOWN_ITEM in t.live && t.live[KNOWN_ITEM] == plain)
  {
    var last := LastChanges(ARRIVAL.changes);
    assert ARRIVAL.changes[..0] == [];
    assert last == map[KNOWN_ITEM := ARRIVAL.changes[0]];
    assert KNOWN_ITEM in StoredRows(cipher, last) && KNOWN_ITEM in StoredPlain(cipher, last);
    PlacedAt(cipher, START.tables.live, START.tables.trash, StoredPlain(cipher, last), KNOWN_ITEM);
  }

  lemma OneTag(key: string -> string, a: string, vault: map<string, string>)
    requires Tags.AreSpellings(key, Tags.All([[]]), vault) || Tags.AreSpellings(key, Tags.All([]), vault)
    ensures Tags.Canonical(key, [a], vault) == [a]
  {
    var untagged: seq<seq<string>> := [[]];
    assert untagged[..0] == [] && Tags.All(untagged) == multiset{};
    assert vault.Keys == {};
    assert Tags.AllRespelt(key, [a], vault) == [a];
    assert [a][..0] == [] && Tags.Firsts(key, [a]) == [a];
    assert [a][1..] == [] && Tags.Sort(key, [a]) == [a];
  }

  lemma TwoSpellings(key: string -> string, a: string, b: string)
    requires key(a) == key(b) && a != b
    ensures !Tags.OneSpelling(key, [[a], [b]])
  {
    var both := [[a], [b]];
    assert a in both[0] && b in both[1];
  }

  // ---------------------------------------------------------------- two devices, one new tag each

  /** A new item, staged in an empty vault. */
  ghost predicate StagedHere(w: StagedWrite) {
    && w.id == NEW_ITEM && w.base.None? && w.overview.Some? && w.details.Some?
    && w.plain.Some? && w.plain.value.trashedAt.None?
  }

  lemma AcceptedAfterArrival(w: StagedWrite)
    requires StagedHere(w)
    ensures var after := Written(ARRIVED, ToChanges([w]));
            after.revision == 2 && ServerRun([EMPTY_SERVER, ARRIVED, after])
  {
    var after := Written(ARRIVED, ToChanges([w]));
    OtherDeviceCreates();
    assert [w][..0] == [] && ToChanges([w]) == [ToChange(w)];
    assert Accepted(ARRIVED, ToChanges([w]));
    var run := [EMPTY_SERVER, ARRIVED];
    assert ServerStep(run[0], run[1]) && ServerStep(ARRIVED, after);
  }

  /** This device stages a new item with a tag nobody has; before the accepted write is
      recorded, the other device's new item, with another spelling of it, is pulled.
      Both are then listed, each as it was typed. */
  lemma {:induction false} TwoDevicesSplitATag(key: string -> string, a: string, b: string,
                                               tagsOf: Overview -> seq<string>, cipher: Cipher,
                                               w: StagedWrite, vault: map<string, string>)
    requires key(a) == key(b) && a != b
    requires cipher.open(KNOWN_ITEM, [], []).Some?
    requires var other := cipher.open(KNOWN_ITEM, [], []).value;
             tagsOf(other) == [b] && !Trashed(cipher, KNOWN_ITEM, other)
    requires StagedHere(w) && Tags.AreSpellings(key, Tags.All([]), vault)
             && tagsOf(w.plain.value) == Tags.Canonical(key, [a], vault)
    ensures ServerRun([EMPTY_SERVER, ARRIVED, Written(ARRIVED, ToChanges([w]))]) && HonestPage(ARRIVED, ARRIVAL)
    ensures var t := Landed(cipher, START.tables, ARRIVAL, 0);
            var u := Committed(cipher, t, w, Written(ARRIVED, ToChanges([w])).revision);
            && NEW_ITEM in u.live && KNOWN_ITEM in u.live
            && tagsOf(u.live[NEW_ITEM]) == [a] && tagsOf(u.live[KNOWN_ITEM]) == [b]
            && !Tags.OneSpelling(key, [tagsOf(u.live[NEW_ITEM]), tagsOf(u.live[KNOWN_ITEM])])
  {
    var t := Landed(cipher, START.tables, ARRIVAL, 0);
    OtherDeviceCreates();
    AcceptedAfterArrival(w);
    OneTag(key, a, vault);
    ArrivedIsListed(cipher);
    PlacedAt(cipher, t.live, t.trash, map[w.id := w.plain.value], NEW_ITEM);
    PlacedAt(cipher, t.live, t.trash, map[w.id := w.plain.value], KNOWN_ITEM);
    TwoSpellings(key, a, b);
  }

  // ---------------------------------------------------------------- a restore

  /** The two writes of the restore: the new item, then the one that had arrived
      when they were staged. */
  ghost predicate Planned(s: Setting, writes: seq<StagedWrite>) {
    && |writes| == 2 && writes[0].id == NEW_ITEM && writes[1].id == KNOWN_ITEM
    && NewItem(s, writes[0]) && NewItem(s, writes[1])
    && writes[0].plain.Some? && writes[1].plain.Some?
    && writes[0].plain.value.trashedAt.None? && writes[1].plain.value.trashedAt.None?
  }

  /** The server is at rest once the item is gone, and answers for its tombstone. */
  ghost predicate AnswersForGone(s: Setting, writes: seq<StagedWrite>) {
    AtRest(s.answers, GONE, 0, 0) && LostNext(s, GONE, writes, NOTHING_SENT) == {}
  }

  lemma BothTakeable(s: Setting, writes: seq<StagedWrite>)
    requires Planned(s, writes)
    ensures OneEach(writes) && forall w <- writes :: NewItem(s, w)
    ensures AtRevision(Takeable(GONE, writes, {}), 3) == [Commit(writes[0], 3), Commit(writes[1].(base := Some(2)), 3)]
  {
    assert writes == [writes[0], writes[1]];
    assert writes[1..] == [writes[1]] && [writes[1]][1..] == [];
    assert Takeable(GONE, [writes[1]], {}) == [writes[1].(base := Some(2))];
    assert Takeable(GONE, writes, {}) == [writes[0], writes[1].(base := Some(2))];
  }

  lemma {:induction false} BothAreTaken(s: Setting, writes: seq<StagedWrite>)
    requires Planned(s, writes) && AnswersForGone(s, writes)
    ensures var f := RestoreOf(s, writes, NOTHING_SENT);
            && f.error.None?
            && f.progress.committed == [Commit(writes[0], 3), Commit(writes[1].(base := Some(2)), 3)]
  {
    BothTakeable(s, writes);
    OneConflictSinksNothing(s, GONE, writes, NOTHING_SENT);
    var r := BatchOf(s, NewBatch(writes, NOTHING_SENT), NOTHING_SENT);
    var done := AtRevision(Takeable(GONE, writes, {}), 3);
    assert [] + done == done && r.progress.committed == done;
    assert writes[..2] == writes && writes[2..] == [];
    assert RestoreOf(s, writes, NOTHING_SENT) == RestoreOf(s, [], BatchDone(r));
  }

  lemma TwoRecorded(cipher: Cipher, t: Tables, c: Commit, d: Commit)
    requires c.write.overview.Some? && c.write.details.Some? && c.write.plain.Some?
             && c.write.plain.value.trashedAt.None?
    requires d.write.overview.Some? && d.write.details.Some? && d.write.plain.Some?
             && d.write.plain.value.trashedAt.None?
    requires c.write.id != d.write.id
    ensures var u := Replayed(cipher, t, [c, d]);
            && c.write.id in u.live && u.live[c.write.id] == c.write.plain.value
            && d.write.id in u.live && u.live[d.write.id] == d.write.plain.value
  {
    assert [c, d][..1] == [c] && [c][..0] == [];
    assert Replayed(cipher, t, [c]) == Committed(cipher, t, c.write, c.revision);
  }

  /** The item was not stored when the restore was planned, and was, untagged, when
      it was staged: the new item is spelt from all that is stored, it from all but
      itself. Deleted again before it is sent, it is revived, and the vault holds two
      spellings of one tag. */
  lemma {:induction false} RestoreSplitsATag(key: string -> string, a: string, b: string,
                                             tagsOf: Overview -> seq<string>, cipher: Cipher,
                                             s: Setting, writes: seq<StagedWrite>, seed: map<string, string>,
                                                 others: map<string, string>)
    requires key(a) == key(b) && a != b
    requires Planned(s, writes) && AnswersForGone(s, writes)
    requires cipher.open(KNOWN_ITEM, [], []).Some? && tagsOf(cipher.open(KNOWN_ITEM, [], []).value) == []
    requires Tags.AreSpellings(key, Tags.All([[]]), seed)
             && tagsOf(writes[0].plain.value) == Tags.Canonical(key, [a], seed)
    requires Tags.AreSpellings(key, Tags.All([]), others)
             && tagsOf(writes[1].plain.value) == Tags.Canonical(key, [b], others)
    ensures ServerRun([EMPTY_SERVER, ARRIVED, GONE]) && HonestPage(ARRIVED, ARRIVAL)
    ensures KNOWN_ITEM !in START.tables.items
    ensures var t := Landed(cipher, START.tables, ARRIVAL, 0);
            var f := RestoreOf(s, writes, NOTHING_SENT);
            var u := Replayed(cipher, t, f.progress.committed);
            && KNOWN_ITEM in t.items && f.error.None?
            && NEW_ITEM in u.live && KNOWN_ITEM in u.live
            && tagsOf(u.live[NEW_ITEM]) == [a] && tagsOf(u.live[KNOWN_ITEM]) == [b]
            && !Tags.OneSpelling(key, [tagsOf(u.live[NEW_ITEM]), tagsOf(u.live[KNOWN_ITEM])])
  {
    OtherDeviceCreates();
    OtherDeviceDeletes();
    BothAreTaken(s, writes);
    OneTag(key, a, seed);
    OneTag(key, b, others);
    ArrivedIsListed(cipher);
    TwoRecorded(cipher, Landed(cipher, START.tables, ARRIVAL, 0), Commit(writes[0], 3),
                Commit(writes[1].(base := Some(2)), 3));
    TwoSpellings(key, a, b);
  }
}
