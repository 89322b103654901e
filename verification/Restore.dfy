/**
 Sending a restored backup: batches of new items, each conflict resolved per
 item. A tombstone is revived by resending the item with the tombstone's
 revision as its base; anything else is left alone and counted as existing.
 `RestoreOf` says what the loops compute against arbitrary answers, request by
 request; the methods are proved equal to it.
 */
module Restore {
  import opened Wrappers
  import opened Changes
  import opened Vault
  import opened SyncLoop
  import opened Retry

  datatype ItemType = Login | SecureNote | Card | IdentityItem | BankAccount

  datatype ImportReport = ImportReport(imported: nat, skippedExisting: nat, counts: map<ItemType, nat>)

  datatype WriteAnswer = Acked(applied: seq<(ItemId, int)>) | Conflicted(names: seq<ItemId>) | WriteFailed

  /** An arbitrary server: its answer to the `k`-th write and fetch request. */
  datatype Answers = Answers(
    write: (nat, seq<StagedWrite>) -> WriteAnswer,
    fetch: (nat, seq<ItemId>) -> FetchAnswer,
    kind: Overview -> ItemType)

  datatype RestoreError = RequestFailed | NotAcknowledged | UnknownConflict | NotRecorded

  /** What went over the wire. */
  datatype Exchange = WriteTry(batch: seq<StagedWrite>, answer: WriteAnswer)
      | FetchTry(ask: seq<ItemId>, found: FetchAnswer)

  /** The answers, and what of the vault decides whether a write is recorded. */
  datatype Setting = Setting(answers: Answers, unlocked: bool, epoch: nat)

  function SettingOf(vault: VaultService, answers: Answers): Setting
    reads vault
  {
    Setting(answers, vault.unlocked, vault.epoch)
  }

  /** The transport refuses a conflict that names nothing and an acknowledgement
      of another size. */
  function CheckedWrite(batch: seq<StagedWrite>, a: WriteAnswer): (r: WriteAnswer)
    ensures r == a || r.WriteFailed?
    ensures r.Acked? <==> a.Acked? && |a.applied| == |batch|
    ensures r.Conflicted? <==> a.Conflicted? && |a.names| > 0
  {
    match a
    case Acked(applied) => if |applied| == |batch| then a else WriteFailed
    case Conflicted(names) => if names != [] then a else WriteFailed
    case WriteFailed => a
  }

  function RevisionFor(applied: seq<(ItemId, int)>, id: ItemId): (r: Option<int>)
    ensures r.Some? ==> (id, r.value) in applied
    ensures r.None? ==> forall p <- applied :: p.0 != id
  {
    if applied == [] then None
    else if applied[0].0 == id then Some(applied[0].1)
    else RevisionFor(applied[1..], id)
  }

  // ---------------------------------------------------------------- counting

  function CountOf(r: ImportReport, t: ItemType): nat {
    if t in r.counts then r.counts[t] else 0
  }

  /** One staged write turned out to exist: it moves from its type's count to
      `skippedExisting`. Counts never go below 0. */
  function FoundExisting(r: ImportReport, kind: Option<ItemType>): ImportReport {
    ImportReport(
      if r.imported > 0 then r.imported - 1 else 0,
      r.skippedExisting + 1,
      if kind.Some? && CountOf(r, kind.value) > 0 then r.counts[kind.value := CountOf(r, kind.value) - 1] else r.counts)
  }

  function AllFound(r: ImportReport, kinds: seq<Option<ItemType>>): ImportReport {
    if kinds == [] then r else FoundExisting(AllFound(r, kinds[..|kinds| - 1]), kinds[|kinds| - 1])
  }

  function KindOf(kind: Overview -> ItemType, w: StagedWrite): Option<ItemType> {
    if w.plain.Some? then Some(kind(w.plain.value)) else None
  }

  function Kinds(kind: Overview -> ItemType, ws: seq<StagedWrite>): seq<Option<ItemType>> {
    seq(|ws|, i requires 0 <= i < |ws| => KindOf(kind, ws[i]))
  }

  function Tally(kinds: seq<Option<ItemType>>, t: ItemType): nat {
    multiset(kinds)[Some(t)]
  }

  lemma {:induction false} AllFoundCounts(r: ImportReport, kinds: seq<Option<ItemType>>, t: ItemType)
    ensures AllFound(r, kinds).skippedExisting == r.skippedExisting + |kinds|
    ensures AllFound(r, kinds).imported == if |kinds| <= r.imported then r.imported - |kinds| else 0
    ensures t in AllFound(r, kinds).counts <==> t in r.counts
    ensures t in r.counts ==>
              AllFound(r, kinds).counts[t] ==
              if Tally(kinds, t) <= r.counts[t] then r.counts[t] - Tally(kinds, t) else 0
  {
    if kinds != [] {
      var front := kinds[..|kinds| - 1];
      AllFoundCounts(r, front, t);
      assert kinds == front + [kinds[|kinds| - 1]];
    }
  }

  // ---------------------------------------------------------------- batches

  /** A write apart from its base revision, which is all that ever changes. */
  function Payload(w: StagedWrite): StagedWrite {
    w.(base := None)
  }

  function Payloads(ws: seq<StagedWrite>): multiset<StagedWrite> {
    if ws == [] then multiset{} else multiset{Payload(ws[0])} + Payloads(ws[1..])
  }

  function Ids(ws: seq<StagedWrite>): set<ItemId> {
    set w | w in ws :: w.id
  }

  lemma {:induction false} PayloadsJoin(a: seq<StagedWrite>, b: seq<StagedWrite>)
    ensures Payloads(a + b) == Payloads(a) + Payloads(b)
  {
    if a == [] {
      assert a + b == b;
    } else {
      assert (a + b)[1..] == a[1..] + b;
      PayloadsJoin(a[1..], b);
    }
  }

  function IndexOf(ws: seq<StagedWrite>, id: ItemId): (i: nat)
    ensures i <= |ws|
    ensures i < |ws| ==> ws[i].id == id
    ensures id in Ids(ws) <==> i < |ws|
  {
    if ws == [] then 0
    else if ws[0].id == id then 0
    else
      assert ws == [ws[0]] + ws[1..];
      1 + IndexOf(ws[1..], id)
  }

  function Rebased(ws: seq<StagedWrite>, id: ItemId, revision: int): seq<StagedWrite> {
    var i := IndexOf(ws, id);
    if i < |ws| then ws[i := ws[i].(base := Some(revision))] else ws
  }

  function Taken(ws: seq<StagedWrite>, id: ItemId): (seq<StagedWrite>, seq<StagedWrite>) {
    var i := IndexOf(ws, id);
    if i < |ws| then (ws[..i] + ws[i + 1..], [ws[i]]) else (ws, [])
  }

  /** How many writes of the batch have not been revived. */
  function Unrevived(ws: seq<StagedWrite>, revived: set<ItemId>): (n: nat)
    ensures n <= |ws|
  {
    if ws == [] then 0 else (if ws[0].id in revived then 0 else 1) + Unrevived(ws[1..], revived)
  }

  /** Write requests a batch may still need. */
  function Rounds(ws: seq<StagedWrite>, revived: set<ItemId>): nat {
    |ws| + Unrevived(ws, revived)
  }

  lemma {:induction false} UnrevivedJoin(a: seq<StagedWrite>, b: seq<StagedWrite>, revived: set<ItemId>)
    ensures Unrevived(a + b, revived) == Unrevived(a, revived) + Unrevived(b, revived)
  {
    if a == [] {
      assert a + b == b;
    } else {
      assert (a + b)[1..] == a[1..] + b;
      UnrevivedJoin(a[1..], b, revived);
    }
  }

  lemma {:induction false} ReviveLowers(ws: seq<StagedWrite>, revived: set<ItemId>, id: ItemId)
    ensures Unrevived(ws, revived + {id}) <= Unrevived(ws, revived)
    ensures id !in revived && id in Ids(ws) ==> Unrevived(ws, revived + {id}) < Unrevived(ws, revived)
  {
    if ws != [] {
      ReviveLowers(ws[1..], revived, id);
      assert ws == [ws[0]] + ws[1..];
    }
  }

  lemma RebasedFacts(ws: seq<StagedWrite>, id: ItemId, revision: int, revived: set<ItemId>)
    ensures var b := Rebased(ws, id, revision);
            && |b| == |ws| && Payloads(b) == Payloads(ws) && Ids(b) == Ids(ws)
            && Unrevived(b, revived) == Unrevived(ws, revived)
            && forall w <- b :: w in ws || (w.id == id && w.base == Some(revision) && id in Ids(ws))
  {
    var i := IndexOf(ws, id);
    if i < |ws| {
      var w := ws[i].(base := Some(revision));
      var b := Rebased(ws, id, revision);
      assert ws == ws[..i] + ([ws[i]] + ws[i + 1..]) && b == ws[..i] + ([w] + ws[i + 1..]);
      assert ([ws[i]] + ws[i + 1..])[1..] == ws[i + 1..] && ([w] + ws[i + 1..])[1..] == ws[i + 1..];
      PayloadsJoin(ws[..i], [ws[i]] + ws[i + 1..]);
      PayloadsJoin(ws[..i], [w] + ws[i + 1..]);
      UnrevivedJoin(ws[..i], [ws[i]] + ws[i + 1..], revived);
      UnrevivedJoin(ws[..i], [w] + ws[i + 1..], revived);
      SameIds(ws, b);
    }
  }

  lemma SameIds(a: seq<StagedWrite>, b: seq<StagedWrite>)
    requires |a| == |b| && forall k :: 0 <= k < |a| ==> a[k].id == b[k].id
    ensures Ids(a) == Ids(b)
  {
    forall x | x in Ids(a) ensures x in Ids(b) {
      var k :| 0 <= k < |a| && a[k].id == x;
      assert b[k] in b;
    }
    forall x | x in Ids(b) ensures x in Ids(a) {
      var k :| 0 <= k < |b| && b[k].id == x;
      assert a[k] in a;
    }
  }

  lemma {:induction false} TakenFacts(ws: seq<StagedWrite>, id: ItemId, revived: set<ItemId>)
    ensures var (rest, out) := Taken(ws, id);
            && Payloads(ws) == Payloads(rest) + Payloads(out)
            && |ws| == |rest| + |out| && Ids(rest) <= Ids(ws)
            && (out != [] <==> id in Ids(ws))
            && Unrevived(rest, revived) <= Unrevived(ws, revived)
            && (forall w <- rest :: w in ws) && (forall w <- out :: w in ws)
  {
    var i := IndexOf(ws, id);
    if i < |ws| {
      assert ws == ws[..i] + ([ws[i]] + ws[i + 1..]);
      assert ([ws[i]] + ws[i + 1..])[1..] == ws[i + 1..] && [ws[i]][1..] == [];
      PayloadsJoin(ws[..i], [ws[i]] + ws[i + 1..]);
      PayloadsJoin(ws[..i], ws[i + 1..]);
      UnrevivedJoin(ws[..i], [ws[i]] + ws[i + 1..], revived);
      UnrevivedJoin(ws[..i], ws[i + 1..], revived);
    }
  }

  // ---------------------------------------------------------------- resolving conflicts

  /** A batch being sent: what is left of it, what was revived, what was left to
      the server, and the report's notes. */
  datatype Batch = Batch(ws: seq<StagedWrite>, revived: set<ItemId>, skipped: seq<StagedWrite>,
                         kinds: seq<Option<ItemType>>)

  function TombstoneOf(tombstones: seq<(ItemId, int)>, id: ItemId): (r: Option<int>)
    ensures r.Some? ==> (id, r.value) in tombstones
  {
    if tombstones == [] then None
    else if tombstones[0].0 == id then Some(tombstones[0].1)
    else TombstoneOf(tombstones[1..], id)
  }

  predicate Revivable(revived: set<ItemId>, tombstones: seq<(ItemId, int)>, id: ItemId) {
    id !in revived && TombstoneOf(tombstones, id).Some?
  }

  /** One named item: revive it once, or leave it to the server. */
  function Resolve(kind: Overview -> ItemType, b: Batch, tombstones: seq<(ItemId, int)>, id: ItemId): Batch {
    if Revivable(b.revived, tombstones, id) then
      b.(ws := Rebased(b.ws, id, TombstoneOf(tombstones, id).value), revived := b.revived + {id})
    else
      var (rest, out) := Taken(b.ws, id);
      b.(ws := rest, skipped := b.skipped + out, kinds := b.kinds + [if out != [] then KindOf(kind, out[0]) else None])
  }

  /** Every named item, one after the other. */
  function Resolved(kind: Overview -> ItemType, b: Batch, named: seq<ItemId>, tombstones: seq<(ItemId, int)>): Batch {
    if named == [] then b
    else Resolve(kind, Resolved(kind, b, named[..|named| - 1], tombstones), tombstones, named[|named| - 1])
  }

  lemma {:induction false} ResolveFacts(kind: Overview -> ItemType, b: Batch, tombstones: seq<(ItemId, int)>,
                                        id: ItemId)
    ensures var c := Resolve(kind, b, tombstones, id);
            && Payloads(b.ws) + Payloads(b.skipped) == Payloads(c.ws) + Payloads(c.skipped)
            && Rounds(c.ws, c.revived) <= Rounds(b.ws, b.revived)
            && (id in Ids(b.ws) ==> Rounds(c.ws, c.revived) < Rounds(b.ws, b.revived))
            && Ids(c.ws) <= Ids(b.ws)
            && (forall w <- c.ws :: w in b.ws || (w.id == id && exists r: int ::
                                                    (id, r) in tombstones && w.base == Some(r)))
  {
    if Revivable(b.revived, tombstones, id) {
      RebasedFacts(b.ws, id, TombstoneOf(tombstones, id).value, b.revived + {id});
      ReviveLowers(b.ws, b.revived, id);
    } else {
      TakenFacts(b.ws, id, b.revived);
      PayloadsJoin(b.skipped, Taken(b.ws, id).1);
    }
  }

  /** What settling any number of named conflicts keeps; the first name alone
      already shortens what is left to do. */
  ghost predicate Settles(b: Batch, c: Batch, tombstones: seq<(ItemId, int)>, some: bool) {
    && Payloads(b.ws) + Payloads(b.skipped) == Payloads(c.ws) + Payloads(c.skipped)
    && (if some then Rounds(c.ws, c.revived) < Rounds(b.ws, b.revived) else c == b)
    && (forall w <- c.ws :: w in b.ws || exists r: int :: (w.id, r) in tombstones && w.base == Some(r))
    && Ids(c.ws) <= Ids(b.ws)
  }

  lemma {:induction false} ResolvedSettles(kind: Overview -> ItemType, b: Batch, named: seq<ItemId>,
                                           tombstones: seq<(ItemId, int)>)
    requires forall id <- named :: id in Ids(b.ws)
    ensures Settles(b, Resolved(kind, b, named, tombstones), tombstones, named != [])
  {
    if named != [] {
      var (front, last) := (named[..|named| - 1], named[|named| - 1]);
      ResolvedSettles(kind, b, front, tombstones);
      ResolveFacts(kind, Resolved(kind, b, front, tombstones), tombstones, last);
    }
  }

  method ResolveAll(answers: Answers, b: Batch, named: seq<ItemId>, tombstones: seq<(ItemId, int)>) returns (c: Batch)
    ensures c == Resolved(answers.kind, b, named, tombstones)
  {
    c := b;
    assert named[..0] == [];
    for i := 0 to |named|
      invariant c == Resolved(answers.kind, b, named[..i], tombstones)
    {
      assert named[..i + 1][..i] == named[..i];
      c := Resolve(answers.kind, c, tombstones, named[i]);
    }
    assert named[..|named|] == named;
  }

  // ---------------------------------------------------------------- what an answer does to the batch

  predicate OneEach(ws: seq<StagedWrite>) {
    forall i, j :: 0 <= i < j < |ws| ==> ws[i].id != ws[j].id
  }

  /** A name brings the item back if it is the first to name it and there is a
      tombstone to revive. */
  predicate ComesBack(named: seq<ItemId>, revived: set<ItemId>, tombstones: seq<(ItemId, int)>, id: ItemId) {
    id !in named && Revivable(revived, tombstones, id)
  }

  /** The item stays in the batch: it is not named, or named once and revived. */
  predicate Stays(named: seq<ItemId>, revived: set<ItemId>, tombstones: seq<(ItemId, int)>, id: ItemId) {
    id !in named || (Revivable(revived, tombstones, id) && multiset(named)[id] == 1)
  }

  /** The write as it is while it stays. */
  function Kept(w: StagedWrite, named: seq<ItemId>, tombstones: seq<(ItemId, int)>): StagedWrite {
    if w.id in named then w.(base := TombstoneOf(tombstones, w.id)) else w
  }

  /** The writes that stay, those named based on their tombstone, in the batch's order. */
  function Sifted(ws: seq<StagedWrite>, named: seq<ItemId>, revived: set<ItemId>,
                  tombstones: seq<(ItemId, int)>): (r: seq<StagedWrite>)
    ensures forall w <- r :: w.id in Ids(ws)
  {
    if ws == [] then []
    else
      assert ws == [ws[0]] + ws[1..];
      (if Stays(named, revived, tombstones, ws[0].id) then [Kept(ws[0], named, tombstones)] else [])
      + Sifted(ws[1..], named, revived, tombstones)
  }

  /** What one more name takes out of the batch. */
  function OutNow(ws: seq<StagedWrite>, named: seq<ItemId>, revived: set<ItemId>, tombstones: seq<(ItemId, int)>,
                  id: ItemId)
    : seq<StagedWrite>
    requires id in Ids(ws)
  {
    if Stays(named, revived, tombstones, id) && !ComesBack(named, revived, tombstones, id) then
      [Kept(ws[IndexOf(ws, id)], named, tombstones)]
    else []
  }

  /** The writes that leave, in the order of the names that take them out. */
  function LeftOut(ws: seq<StagedWrite>, named: seq<ItemId>, revived: set<ItemId>,
                   tombstones: seq<(ItemId, int)>): seq<StagedWrite>
    requires forall id <- named :: id in Ids(ws)
  {
    if named == [] then []
    else
      var (front, last) := (named[..|named| - 1], named[|named| - 1]);
      LeftOut(ws, front, revived, tombstones) + OutNow(ws, front, revived, tombstones, last)
  }

  /** Every name that does not bring an item back is noted, with the type of what it took out. */
  function Notes(kind: Overview -> ItemType, ws: seq<StagedWrite>, named: seq<ItemId>, revived: set<ItemId>,
                 tombstones: seq<(ItemId, int)>): seq<Option<ItemType>>
    requires forall id <- named :: id in Ids(ws)
  {
    if named == [] then []
    else
      var (front, last) := (named[..|named| - 1], named[|named| - 1]);
      var out := OutNow(ws, front, revived, tombstones, last);
      Notes(kind, ws, front, revived, tombstones)
      + (if ComesBack(front, revived, tombstones, last) then [] else [if out != [] then KindOf(kind, out[0]) else None])
  }

  function RevivedBy(named: seq<ItemId>, revived: set<ItemId>, tombstones: seq<(ItemId, int)>): set<ItemId> {
    set id | id in named && Revivable(revived, tombstones, id)
  }

  lemma OtherName(named: seq<ItemId>, revived: set<ItemId>, tombstones: seq<(ItemId, int)>, id: ItemId, w: StagedWrite)
    requires w.id != id
    ensures Stays(named + [id], revived, tombstones, w.id) <==> Stays(named, revived, tombstones, w.id)
    ensures Kept(w, named + [id], tombstones) == Kept(w, named, tombstones)
  {
    OneMoreName(named, id, w.id);
    assert w.id in named + [id] <==> w.id in named;
  }

  lemma {:induction false} SiftedSame(ws: seq<StagedWrite>, named: seq<ItemId>, revived: set<ItemId>,
                                      tombstones: seq<(ItemId, int)>, id: ItemId)
    requires id !in Ids(ws)
    ensures Sifted(ws, named + [id], revived, tombstones) == Sifted(ws, named, revived, tombstones)
  {
    if ws != [] {
      assert ws == [ws[0]] + ws[1..];
      SiftedSame(ws[1..], named, revived, tombstones, id);
      OtherName(named, revived, tombstones, id, ws[0]);
    }
  }

  /** One more name does to the sifted batch what it does to the batch. */
  lemma {:induction false} SiftedOneMore(ws: seq<StagedWrite>, named: seq<ItemId>, revived: set<ItemId>,
                                         tombstones: seq<(ItemId, int)>, id: ItemId)
    requires OneEach(ws) && id in Ids(ws)
    ensures var (s, t) := (Sifted(ws, named, revived, tombstones), Sifted(ws, named + [id], revived, tombstones));
            if ComesBack(named, revived, tombstones, id) then Rebased(s, id, TombstoneOf(tombstones, id).value) == t
            else Taken(s, id) == (t, OutNow(ws, named, revived, tombstones, id))
  {
    var (w, rest) := (ws[0], ws[1..]);
    assert ws == [w] + rest;
    var s := Sifted(rest, named, revived, tombstones);
    if w.id == id {
      forall v | v in rest ensures v.id != id {
        var k :| 0 <= k < |rest| && rest[k] == v;
        assert ws[k + 1] == v;
      }
      SiftedSame(rest, named, revived, tombstones, id);
      HeadNamed(w, named, revived, tombstones, s);
    } else {
      assert OneEach(rest) by {
        assert forall i :: 0 <= i < |rest| ==> rest[i] == ws[i + 1];
      }
      assert IndexOf(ws, id) == 1 + IndexOf(rest, id);
      var out := OutNow(rest, named, revived, tombstones, id);
      assert OutNow(ws, named, revived, tombstones, id) == out;
      SiftedOneMore(rest, named, revived, tombstones, id);
      OtherName(named, revived, tombstones, id, w);
      HeadOther(w, named, revived, tombstones, id, s, Sifted(rest, named + [id], revived, tombstones), out);
    }
  }

  lemma HeadOther(w: StagedWrite, named: seq<ItemId>, revived: set<ItemId>, tombstones: seq<(ItemId, int)>, id: ItemId,
                  s: seq<StagedWrite>, t: seq<StagedWrite>, out: seq<StagedWrite>)
    requires w.id != id
    requires if ComesBack(named, revived, tombstones, id) then Rebased(s, id, TombstoneOf(tombstones, id).value) == t
             else Taken(s, id) == (t, out)
    ensures var head := if Stays(named, revived, tombstones, w.id) then [Kept(w, named, tombstones)] else [];
            if ComesBack(named, revived, tombstones, id) then
                  Rebased(head + s, id, TombstoneOf(tombstones, id).value) == head + t
            else Taken(head + s, id) == (head + t, out)
  {
    if Stays(named, revived, tombstones, w.id) {
      HeadStays(Kept(w, named, tombstones), s, id, TombstoneOf(tombstones, id));
    } else {
      assert [] + s == s && [] + t == t;
    }
  }

  /** The first write of a batch is named, and no later write is of that item. */
  lemma HeadNamed(w: StagedWrite, named: seq<ItemId>, revived: set<ItemId>, tombstones: seq<(ItemId, int)>,
                  s: seq<StagedWrite>)
    requires w.id !in Ids(s)
    ensures var head := if Stays(named, revived, tombstones, w.id) then [Kept(w, named, tombstones)] else [];
            var next := if Stays(named + [w.id], revived, tombstones, w.id) then [Kept(w, named + [w.id], tombstones)]
                else [];
            if ComesBack(named, revived, tombstones, w.id) then
              Rebased(head + s, w.id, TombstoneOf(tombstones, w.id).value) == next + s
            else Taken(head + s, w.id) == (next + s, head)
  {
    OneMoreName(named, w.id, w.id);
    assert w.id in named + [w.id];
    assert [] + s == s;
    HeadGoes(Kept(w, named, tombstones), s, TombstoneOf(tombstones, w.id));
  }

  lemma HeadGoes(w: StagedWrite, s: seq<StagedWrite>, revision: Option<int>)
    ensures Taken([w] + s, w.id) == (s, [w])
    ensures revision.Some? ==> Rebased([w] + s, w.id, revision.value) == [w.(base := revision)] + s
  {
    assert ([w] + s)[..0] + ([w] + s)[1..] == s && IndexOf([w] + s, w.id) == 0;
  }

  lemma HeadStays(w: StagedWrite, s: seq<StagedWrite>, id: ItemId, revision: Option<int>)
    requires w.id != id
    ensures Taken([w] + s, id) == ([w] + Taken(s, id).0, Taken(s, id).1)
    ensures revision.Some? ==> Rebased([w] + s, id, revision.value) == [w] + Rebased(s, id, revision.value)
  {
    assert ([w] + s)[1..] == s;
    var i := IndexOf(s, id);
    assert IndexOf([w] + s, id) == i + 1;
    if i < |s| {
      assert ([w] + s)[..i + 1] == [w] + s[..i] && ([w] + s)[i + 2..] == s[i + 1..];
      assert ([w] + s[..i]) + s[i + 1..] == [w] + (s[..i] + s[i + 1..]);
    }
  }

  /** Named writes stay where they are with their tombstone as base, or leave the
      batch and are noted; nothing else moves. */
  ghost predicate SettledBy(kind: Overview -> ItemType, b: Batch, named: seq<ItemId>, tombstones: seq<(ItemId, int)>,
                            c: Batch)
    requires forall id <- named :: id in Ids(b.ws)
  {
    && c.ws == Sifted(b.ws, named, b.revived, tombstones)
    && c.revived == b.revived + RevivedBy(named, b.revived, tombstones)
    && c.skipped == b.skipped + LeftOut(b.ws, named, b.revived, tombstones)
    && c.kinds == b.kinds + Notes(kind, b.ws, named, b.revived, tombstones)
  }

  /** What a conflict answer, taken as a whole, does to a batch, however often it names an item. */
  lemma {:induction false} AnswerMeaning(kind: Overview -> ItemType, b: Batch, named: seq<ItemId>,
                                         tombstones: seq<(ItemId, int)>)
    requires OneEach(b.ws) && forall id <- named :: id in Ids(b.ws)
    ensures SettledBy(kind, b, named, tombstones, Resolved(kind, b, named, tombstones))
  {
    if named == [] {
      NothingNamed(b.ws, b.revived, tombstones);
    } else {
      var (front, last) := (named[..|named| - 1], named[|named| - 1]);
      assert named == front + [last];
      AnswerMeaning(kind, b, front, tombstones);
      OneMoreAnswered(kind, b, front, tombstones, last, Resolved(kind, b, front, tombstones));
      assert named[..|named| - 1] == front;
    }
  }

  lemma OneMoreAnswered(kind: Overview -> ItemType, b: Batch, front: seq<ItemId>, tombstones: seq<(ItemId, int)>,
                        id: ItemId, c: Batch)
    requires OneEach(b.ws) && id in Ids(b.ws) && forall x <- front :: x in Ids(b.ws)
    requires SettledBy(kind, b, front, tombstones, c)
    ensures SettledBy(kind, b, front + [id], tombstones, Resolve(kind, c, tombstones, id))
  {
    SiftedOneMore(b.ws, front, b.revived, tombstones, id);
    OneMoreRevived(front, b.revived, tombstones, id);
    OneMoreNoted(kind, b, front, tombstones, id);
    if ComesBack(front, b.revived, tombstones, id) {
      OneMoreBack(kind, b, front, front + [id], tombstones, id, c);
    } else {
      OneMoreOut(kind, b, front, front + [id], tombstones, id, c, OutNow(b.ws, front, b.revived, tombstones, id));
    }
  }

  lemma OneMoreBack(kind: Overview -> ItemType, b: Batch, front: seq<ItemId>, named: seq<ItemId>,
                    tombstones: seq<(ItemId, int)>,
                    id: ItemId, c: Batch)
    requires (forall x <- front :: x in Ids(b.ws)) && (forall x <- named :: x in Ids(b.ws))
             && SettledBy(kind, b, front, tombstones, c)
    requires Revivable(c.revived, tombstones, id)
    requires Rebased(c.ws, id, TombstoneOf(tombstones, id).value) == Sifted(b.ws, named, b.revived, tombstones)
    requires RevivedBy(named, b.revived, tombstones) == RevivedBy(front, b.revived, tombstones) + {id}
    requires LeftOut(b.ws, named, b.revived, tombstones) == LeftOut(b.ws, front, b.revived, tombstones)
    requires Notes(kind, b.ws, named, b.revived, tombstones) == Notes(kind, b.ws, front, b.revived, tombstones)
    ensures SettledBy(kind, b, named, tombstones, Resolve(kind, c, tombstones, id))
  {
  }

  lemma Regrouped<T>(a: seq<T>, b: seq<T>, c: seq<T>)
    ensures (a + b) + c == a + (b + c)
  {
  }

  lemma OneMoreOut(kind: Overview -> ItemType, b: Batch, front: seq<ItemId>, named: seq<ItemId>,
                   tombstones: seq<(ItemId, int)>,
                   id: ItemId, c: Batch, out: seq<StagedWrite>)
    requires (forall x <- front :: x in Ids(b.ws)) && (forall x <- named :: x in Ids(b.ws))
             && SettledBy(kind, b, front, tombstones, c)
    requires !Revivable(c.revived, tombstones, id)
    requires Taken(c.ws, id) == (Sifted(b.ws, named, b.revived, tombstones), out)
    requires RevivedBy(named, b.revived, tombstones) == RevivedBy(front, b.revived, tombstones)
    requires LeftOut(b.ws, named, b.revived, tombstones) == LeftOut(b.ws, front, b.revived, tombstones) + out
    requires Notes(kind, b.ws, named, b.revived, tombstones) ==
             Notes(kind, b.ws, front, b.revived, tombstones) + [if out != [] then KindOf(kind, out[0]) else None]
    ensures SettledBy(kind, b, named, tombstones, Resolve(kind, c, tombstones, id))
  {
    var note := [if out != [] then KindOf(kind, out[0]) else None];
    Regrouped(b.skipped, LeftOut(b.ws, front, b.revived, tombstones), out);
    Regrouped(b.kinds, Notes(kind, b.ws, front, b.revived, tombstones), note);
  }

  lemma OneMoreNoted(kind: Overview -> ItemType, b: Batch, front: seq<ItemId>, tombstones: seq<(ItemId, int)>,
                     id: ItemId)
    requires id in Ids(b.ws) && forall x <- front :: x in Ids(b.ws)
    ensures var out := OutNow(b.ws, front, b.revived, tombstones, id);
            var back := ComesBack(front, b.revived, tombstones, id);
            && (back ==> out == [])
            && LeftOut(b.ws, front + [id], b.revived, tombstones) == LeftOut(b.ws, front, b.revived, tombstones) + out
            && Notes(kind, b.ws, front + [id], b.revived, tombstones) == Notes(kind, b.ws, front, b.revived, tombstones)
               + (if back then [] else [if out != [] then KindOf(kind, out[0]) else None])
  {
    var named := front + [id];
    assert named[..|named| - 1] == front && named[|named| - 1] == id;
  }

  lemma OneMoreRevived(front: seq<ItemId>, revived: set<ItemId>, tombstones: seq<(ItemId, int)>, id: ItemId)
    ensures RevivedBy(front + [id], revived, tombstones) ==
            RevivedBy(front, revived, tombstones) + (if ComesBack(front, revived, tombstones, id) then {id} else {})
    ensures Revivable(revived + RevivedBy(front, revived, tombstones), tombstones, id) <==>
            ComesBack(front, revived, tombstones, id)
  {
    assert forall x :: x in front + [id] <==> x in front || x == id;
  }

  lemma {:induction false} NothingNamed(ws: seq<StagedWrite>, revived: set<ItemId>, tombstones: seq<(ItemId, int)>)
    ensures Sifted(ws, [], revived, tombstones) == ws
  {
    if ws != [] {
      NothingNamed(ws[1..], revived, tombstones);
    }
  }

  lemma {:induction false} SiftedIds(ws: seq<StagedWrite>, named: seq<ItemId>, revived: set<ItemId>,
                                     tombstones: seq<(ItemId, int)>, id: ItemId)
    ensures id in Ids(Sifted(ws, named, revived, tombstones)) <==>
            id in Ids(ws) && Stays(named, revived, tombstones, id)
  {
    if ws != [] {
      var (head, rest) := (ws[0], Sifted(ws[1..], named, revived, tombstones));
      assert ws == [head] + ws[1..];
      SiftedIds(ws[1..], named, revived, tombstones, id);
      assert forall w :: w in [Kept(head, named, tombstones)] + rest <==>
             w == Kept(head, named, tombstones) || w in rest;
    }
  }

  /** Every named item with a tombstone to revive stays in the batch if and only if
      the answer names none of them twice. */
  lemma {:induction false} RevivableStayExactly(kind: Overview -> ItemType, b: Batch, named: seq<ItemId>,
                                                tombstones: seq<(ItemId, int)>)
    requires OneEach(b.ws) && forall id <- named :: id in Ids(b.ws)
    ensures (forall id <- named :: Revivable(b.revived, tombstones, id) ==>
             id in Ids(Resolved(kind, b, named, tombstones).ws)) <==>
            (forall id <- named :: Revivable(b.revived, tombstones, id) ==> multiset(named)[id] == 1)
  {
    AnswerMeaning(kind, b, named, tombstones);
    forall id | id in named && Revivable(b.revived, tombstones, id)
      ensures id in Ids(Resolved(kind, b, named, tombstones).ws) <==> multiset(named)[id] == 1
    {
      SiftedIds(b.ws, named, b.revived, tombstones, id);
    }
  }

  lemma {:induction false} NoTombstone(tombstones: seq<(ItemId, int)>, id: ItemId)
    ensures TombstoneOf(tombstones, id).None? <==> forall t <- tombstones :: t.0 != id
  {
    if tombstones != [] {
      assert tombstones == [tombstones[0]] + tombstones[1..];
      NoTombstone(tombstones[1..], id);
    }
  }

  // ---------------------------------------------------------------- when the report's notes are right

  /** The report's notes are exactly the skipped writes' types. */
  ghost predicate Noted(kind: Overview -> ItemType, b: Batch) {
    b.kinds == Kinds(kind, b.skipped)
  }

  lemma KindsStep(kind: Overview -> ItemType, ws: seq<StagedWrite>, w: StagedWrite)
    ensures Kinds(kind, ws + [w]) == Kinds(kind, ws) + [KindOf(kind, w)]
  {
  }

  function IdBag(ws: seq<StagedWrite>): multiset<ItemId> {
    if ws == [] then multiset{} else multiset{ws[0].id} + IdBag(ws[1..])
  }

  lemma {:induction false} IdBagJoin(a: seq<StagedWrite>, b: seq<StagedWrite>)
    ensures IdBag(a + b) == IdBag(a) + IdBag(b)
  {
    if a == [] {
      assert a + b == b;
    } else {
      assert (a + b)[1..] == a[1..] + b;
      IdBagJoin(a[1..], b);
    }
  }

  lemma IdBagAt(ws: seq<StagedWrite>, i: nat, w: StagedWrite)
    requires i < |ws| && ws[i].id == w.id
    ensures IdBag(ws) == IdBag(ws[i := w])
    ensures IdBag(ws) == IdBag(ws[..i] + ws[i + 1..]) + multiset{w.id}
  {
    var (front, rest) := (ws[..i], ws[i + 1..]);
    assert ws == front + ([ws[i]] + rest) && ws[i := w] == front + ([w] + rest);
    assert ([ws[i]] + rest)[1..] == rest && ([w] + rest)[1..] == rest;
    IdBagJoin(front, [ws[i]] + rest);
    IdBagJoin(front, [w] + rest);
    IdBagJoin(front, rest);
  }

  lemma {:induction false} IdBagHas(ws: seq<StagedWrite>, id: ItemId)
    ensures id in Ids(ws) <==> IdBag(ws)[id] > 0
  {
    if ws != [] {
      assert ws == [ws[0]] + ws[1..];
      IdBagHas(ws[1..], id);
    }
  }

  /** How often an item can be named before a name no longer moves a write. */
  function Allowance(b: Batch, tombstones: seq<(ItemId, int)>, id: ItemId): nat {
    IdBag(b.ws)[id] + (if Revivable(b.revived, tombstones, id) then 1 else 0)
  }

  lemma NameSpends(kind: Overview -> ItemType, b: Batch, tombstones: seq<(ItemId, int)>, id: ItemId, x: ItemId)
    ensures Allowance(Resolve(kind, b, tombstones, id), tombstones, x) ==
            Allowance(b, tombstones, x) - (if x == id && Allowance(b, tombstones, x) > 0 then 1 else 0)
  {
    var c := Resolve(kind, b, tombstones, id);
    if Revivable(b.revived, tombstones, id) {
      RebasedKeepsBag(b.ws, id, TombstoneOf(tombstones, id).value);
      assert IdBag(c.ws) == IdBag(b.ws) && c.revived == b.revived + {id};
    } else {
      TakenFromBag(b.ws, id);
      assert IdBag(c.ws) == IdBag(b.ws) - multiset{id} && c.revived == b.revived;
    }
  }

  lemma RebasedKeepsBag(ws: seq<StagedWrite>, id: ItemId, revision: int)
    ensures IdBag(Rebased(ws, id, revision)) == IdBag(ws)
  {
    var i := IndexOf(ws, id);
    if i < |ws| {
      IdBagAt(ws, i, ws[i].(base := Some(revision)));
    }
  }

  lemma TakenFromBag(ws: seq<StagedWrite>, id: ItemId)
    ensures IdBag(Taken(ws, id).0) == IdBag(ws) - multiset{id}
  {
    IdBagHas(ws, id);
    var i := IndexOf(ws, id);
    if i < |ws| {
      IdBagAt(ws, i, ws[i]);
    }
  }

  lemma NameNotes(kind: Overview -> ItemType, b: Batch, tombstones: seq<(ItemId, int)>, id: ItemId)
    ensures var c := Resolve(kind, b, tombstones, id);
            && (Allowance(b, tombstones, id) > 0 ==>
                (Noted(kind, b) ==> Noted(kind, c)) && |c.kinds| - |c.skipped| == |b.kinds| - |b.skipped|)
            && (Allowance(b, tombstones, id) == 0 ==> |c.kinds| - |c.skipped| == |b.kinds| - |b.skipped| + 1)
  {
    IdBagHas(b.ws, id);
    var i := IndexOf(b.ws, id);
    if i < |b.ws| {
      KindsStep(kind, b.skipped, b.ws[i]);
    }
  }

  /** No item is named more often than the batch can take. */
  ghost predicate WithinAllowance(b: Batch, named: seq<ItemId>, tombstones: seq<(ItemId, int)>) {
    forall id :: multiset(named)[id] <= Allowance(b, tombstones, id)
  }

  lemma OneMoreName(named: seq<ItemId>, id: ItemId, x: ItemId)
    ensures multiset(named + [id])[x] == multiset(named)[x] + (if x == id then 1 else 0)
  {
  }

  lemma {:induction false} NotesGrow(kind: Overview -> ItemType, b: Batch, named: seq<ItemId>,
                                     tombstones: seq<(ItemId, int)>)
    ensures var c := Resolved(kind, b, named, tombstones);
            if WithinAllowance(b, named, tombstones) then
              && (Noted(kind, b) ==> Noted(kind, c)) && |c.kinds| - |c.skipped| == |b.kinds| - |b.skipped|
              && forall x :: Allowance(c, tombstones, x) == Allowance(b, tombstones, x) - multiset(named)[x]
            else |c.kinds| - |c.skipped| > |b.kinds| - |b.skipped|
  {
    if named != [] {
      var (front, last) := (named[..|named| - 1], named[|named| - 1]);
      var d := Resolved(kind, b, front, tombstones);
      assert named == front + [last];
      NotesGrow(kind, b, front, tombstones);
      NameNotes(kind, d, tombstones, last);
      if WithinAllowance(b, front, tombstones) {
        forall x
          ensures multiset(named)[x] <= Allowance(b, tombstones, x) <==> x != last || Allowance(d, tombstones, last) > 0
          ensures multiset(named)[x] <= Allowance(b, tombstones, x) ==>
                    Allowance(Resolve(kind, d, tombstones, last), tombstones, x) ==
                        Allowance(b, tombstones, x) - multiset(named)[x]
        {
          OneMoreName(front, last, x);
          NameSpends(kind, d, tombstones, last, x);
        }
      } else {
        var x :| multiset(front)[x] > Allowance(b, tombstones, x);
        OneMoreName(front, last, x);
      }
    }
  }

  /** The notes stay those of the skipped writes exactly when no item is named more
      often than the batch holds it, once more if a tombstone revives it. */
  lemma {:induction false} NotedExactly(kind: Overview -> ItemType, b: Batch, named: seq<ItemId>,
                                        tombstones: seq<(ItemId, int)>)
    requires Noted(kind, b)
    ensures Noted(kind, Resolved(kind, b, named, tombstones)) <==>
            forall id :: multiset(named)[id] <= IdBag(b.ws)[id]
                + (if Revivable(b.revived, tombstones, id) then 1 else 0)
  {
    NotesGrow(kind, b, named, tombstones);
    assert WithinAllowance(b, named, tombstones) <==>
           forall id :: multiset(named)[id] <= IdBag(b.ws)[id] + (if Revivable(b.revived, tombstones, id) then 1 else 0)
    by {
      assert forall id ::
          Allowance(b, tombstones, id) == IdBag(b.ws)[id] + (if Revivable(b.revived, tombstones, id) then 1 else 0);
    }
  }

  /** An item named twice: with nothing to revive it is left out once and noted
      twice; deleted on the server, it is revived and then left out after all. */
  lemma {:induction false} NamedTwice(kind: Overview -> ItemType, w: StagedWrite, revision: int)
    ensures var c := Resolved(kind, Batch([w], {}, [], []), [w.id, w.id], []);
            c.ws == [] && c.skipped == [w] && c.kinds == [KindOf(kind, w), None]
    ensures var c := Resolved(kind, Batch([w], {}, [], []), [w.id, w.id], [(w.id, revision)]);
            c.ws == [] && c.skipped == [w.(base := Some(revision))] && c.kinds == [KindOf(kind, w)]
  {
    var b := Batch([w], {}, [], []);
    assert [w.id, w.id][..1] == [w.id] && [w.id][..0] == [];
    assert Resolved(kind, b, [], []) == b && Resolved(kind, b, [], [(w.id, revision)]) == b;
    assert Resolved(kind, b, [w.id], []) == Resolve(kind, b, [], w.id);
    assert Resolved(kind, b, [w.id], [(w.id, revision)]) == Resolve(kind, b, [(w.id, revision)], w.id);
    assert [w][..0] + [w][1..] == [];
  }

  // ---------------------------------------------------------------- recording what was accepted

  function CommittedWrites(cs: seq<Commit>): seq<StagedWrite> {
    seq(|cs|, i requires 0 <= i < |cs| => cs[i].write)
  }

  function Replayed(cipher: Cipher, t: Tables, cs: seq<Commit>): Tables {
    if cs == [] then t
    else Committed(cipher, Replayed(cipher, t, cs[..|cs| - 1]), cs[|cs| - 1].write, cs[|cs| - 1].revision)
  }

  lemma ReplayedStep(cipher: Cipher, t: Tables, cs: seq<Commit>, c: Commit)
    ensures Replayed(cipher, t, cs + [c]) == Committed(cipher, Replayed(cipher, t, cs), c.write, c.revision)
    ensures CommittedWrites(cs + [c]) == CommittedWrites(cs) + [c.write]
  {
    assert (cs + [c])[..|cs|] == cs;
  }

  lemma {:induction false} ReplayedJoin(cipher: Cipher, t: Tables, a: seq<Commit>, b: seq<Commit>)
    ensures Replayed(cipher, t, a + b) == Replayed(cipher, Replayed(cipher, t, a), b)
  {
    if b == [] {
      assert a + b == a;
    } else {
      var n := |b| - 1;
      assert (a + b)[..|a + b| - 1] == a + b[..n];
      ReplayedJoin(cipher, t, a, b[..n]);
    }
  }

  /** The writes of an acknowledged batch that are recorded, up to the first that
      cannot be, and why that one cannot. */
  function Recording(unlocked: bool, epoch: nat, ws: seq<StagedWrite>, applied: seq<(ItemId, int)>)
    : (r: (seq<Commit>, Option<RestoreError>))
    ensures CommittedWrites(r.0) <= ws && (r.1.None? ==> CommittedWrites(r.0) == ws)
    ensures forall c <- r.0 :: (c.write.id, c.revision) in applied
  {
    if ws == [] then ([], None)
    else
      var revision := RevisionFor(applied, ws[0].id);
      if revision.None? then ([], Some(NotAcknowledged))
      else if !Recordable(unlocked, epoch, ws[0]) then ([], Some(NotRecorded))
      else
        var (rest, e) := Recording(unlocked, epoch, ws[1..], applied);
        assert CommittedWrites([Commit(ws[0], revision.value)] + rest) == [ws[0]] + CommittedWrites(rest);
        ([Commit(ws[0], revision.value)] + rest, e)
  }

  /** Everything is recorded exactly when every write is acknowledged by id and
      belongs to the vault as it is. */
  lemma {:induction false} RecordingComplete(unlocked: bool, epoch: nat, ws: seq<StagedWrite>,
                                             applied: seq<(ItemId, int)>)
    ensures Recording(unlocked, epoch, ws, applied).1.None? <==>
            forall w <- ws :: RevisionFor(applied, w.id).Some? && Recordable(unlocked, epoch, w)
  {
    if ws != [] {
      assert ws == [ws[0]] + ws[1..];
      RecordingComplete(unlocked, epoch, ws[1..], applied);
    }
  }

  lemma RecordingStep(unlocked: bool, epoch: nat, ws: seq<StagedWrite>, applied: seq<(ItemId, int)>, done: seq<Commit>)
    requires ws != []
    ensures var (revision, all) := (RevisionFor(applied, ws[0].id), Recording(unlocked, epoch, ws, applied));
            (done + all.0, all.1) ==
            if revision.None? then (done, Some(NotAcknowledged))
            else if !Recordable(unlocked, epoch, ws[0]) then (done, Some(NotRecorded))
            else var rest := Recording(unlocked, epoch, ws[1..], applied);
                ((done + [Commit(ws[0], revision.value)]) + rest.0, rest.1)
  {
    var (revision, rest) := (RevisionFor(applied, ws[0].id), Recording(unlocked, epoch, ws[1..], applied));
    assert done + [] == done;
    if revision.Some? {
      assert done + ([Commit(ws[0], revision.value)] + rest.0) == (done + [Commit(ws[0], revision.value)]) + rest.0;
    }
  }

  method CommitBatch(vault: VaultService, ws: seq<StagedWrite>, applied: seq<(ItemId, int)>)
    returns (committed: seq<Commit>, r: Option<RestoreError>)
    modifies vault, vault.store
    ensures vault.unlocked == old(vault.unlocked) && vault.epoch == old(vault.epoch)
    ensures (committed, r) == Recording(vault.unlocked, vault.epoch, ws, applied)
    ensures vault.Tables() == Replayed(vault.cipher, old(vault.Tables()), committed)
  {
    committed, r := [], None;
    ghost var (start, goal) := (vault.Tables(), Recording(vault.unlocked, vault.epoch, ws, applied));
    var i := 0;
    assert ws[0..] == ws && [] + goal.0 == goal.0;
    while i < |ws| && r.None?
      invariant i <= |ws| && vault.unlocked == old(vault.unlocked) && vault.epoch == old(vault.epoch)
      invariant vault.Tables() == Replayed(vault.cipher, start, committed)
      invariant goal == if r.Some? then (committed, r) else
                          var left := Recording(vault.unlocked, vault.epoch, ws[i..], applied);
                              (committed + left.0, left.1)
      decreases |ws| - i, r.None?
    {
      RecordingStep(vault.unlocked, vault.epoch, ws[i..], applied, committed);
      var revision := RevisionFor(applied, ws[i].id);
      if revision.None? {
        r := Some(NotAcknowledged);
      } else {
        var recorded := vault.CommitWrite(ws[i], revision.value);
        if recorded.Err? {
          r := Some(NotRecorded);
        } else {
          ReplayedStep(vault.cipher, start, committed, Commit(ws[i], revision.value));
          assert ws[i..][1..] == ws[i + 1..] && ws[i..][0] == ws[i];
          committed := committed + [Commit(ws[i], revision.value)];
          i := i + 1;
        }
      }
    }
    assert r.None? ==> ws[i..] == [] && committed + [] == committed;
  }

  // ---------------------------------------------------------------- sending

  datatype Progress = Progress(
    committed: seq<Commit>, skipped: seq<StagedWrite>, kinds: seq<Option<ItemType>>,
    writes: nat, fetches: nat, log: seq<Exchange>)

  const NOTHING_SENT := Progress([], [], [], 0, 0, [])

  /** Where a batch stands after some requests; `error` ends the run. */
  datatype Rounded = Rounded(error: Option<RestoreError>, batch: Batch, progress: Progress)

  /** The tombstones an answer reports. */
  function Tombs(changes: seq<RemoteChange>): (ts: seq<(ItemId, int)>)
    ensures forall t :: t in ts <==> exists c <- changes :: c.deleted && c.id == t.0 && c.revision == t.1
  {
    if changes == [] then []
    else
      assert changes == [changes[0]] + changes[1..];
      (if changes[0].deleted then [(changes[0].id, changes[0].revision)] else []) + Tombs(changes[1..])
  }

  function NotRevived(named: seq<ItemId>, revived: set<ItemId>): seq<ItemId> {
    if named == [] then []
    else (if named[0] in revived then [] else [named[0]]) + NotRevived(named[1..], revived)
  }

  lemma {:induction false} NotRevivedMeaning(named: seq<ItemId>, revived: set<ItemId>)
    ensures forall id :: id in NotRevived(named, revived) <==> id in named && id !in revived
    ensures NotRevived(named, revived) != [] <==> exists id <- named :: id !in revived
  {
    if named != [] {
      assert named == [named[0]] + named[1..];
      NotRevivedMeaning(named[1..], revived);
    }
  }

  /** What a conflict answer leads to: what the server holds is asked for the names
      not revived yet, if there are any, and every name is settled. */
  function AfterConflict(answers: Answers, b: Batch, p: Progress, named: seq<ItemId>): Rounded {
    if exists id <- named :: id !in Ids(b.ws) then Rounded(Some(UnknownConflict), b, p)
    else
      var ask := NotRevived(named, b.revived);
      if ask == [] then Rounded(None, Resolved(answers.kind, b, named, []), p)
      else
        var found := Checked(ask, answers.fetch(p.fetches, ask));
        var q := p.(fetches := p.fetches + 1, log := p.log + [FetchTry(ask, found)]);
        match found
        case FetchFailed => Rounded(Some(RequestFailed), b, q)
        case FetchedItems(changes, _) => Rounded(None, Resolved(answers.kind, b, named, Tombs(changes)), q)
  }

  /** One write request and what follows from its answer. */
  function RoundOf(s: Setting, b: Batch, p: Progress): Rounded {
    var answer := CheckedWrite(b.ws, s.answers.write(p.writes, b.ws));
    var q := p.(writes := p.writes + 1, log := p.log + [WriteTry(b.ws, answer)]);
    match answer
    case WriteFailed => Rounded(Some(RequestFailed), b, q)
    case Acked(applied) =>
      var (committed, e) := Recording(s.unlocked, s.epoch, b.ws, applied);
      Rounded(e, b.(ws := b.ws[|committed|..]), q.(committed := q.committed + committed))
    case Conflicted(named) => AfterConflict(s.answers, b, q, named)
  }

  lemma RoundShrinks(s: Setting, b: Batch, p: Progress)
    requires b.ws != [] && RoundOf(s, b, p).error.None?
    ensures var c := RoundOf(s, b, p).batch; Rounds(c.ws, c.revived) < Rounds(b.ws, b.revived)
  {
    match CheckedWrite(b.ws, s.answers.write(p.writes, b.ws))
    case WriteFailed =>
    case Acked(applied) =>
      assert CommittedWrites(Recording(s.unlocked, s.epoch, b.ws, applied).0) == b.ws;
    case Conflicted(named) =>
      var ask := NotRevived(named, b.revived);
      ResolvedSettles(s.answers.kind, b, named, []);
      ResolvedSettles(s.answers.kind, b, named, TombsAsked(ask, s.answers.fetch(p.fetches, ask)));
  }

  function TombsAsked(ask: seq<ItemId>, a: FetchAnswer): seq<(ItemId, int)> {
    match Checked(ask, a)
    case FetchFailed => []
    case FetchedItems(changes, _) => Tombs(changes)
  }

  /** One batch, until it is accepted or nothing of it is left. */
  function BatchOf(s: Setting, b: Batch, p: Progress): Rounded
    decreases Rounds(b.ws, b.revived)
  {
    if b.ws == [] then Rounded(None, b, p)
    else
      var r := RoundOf(s, b, p);
      if r.error.Some? then r
      else
        RoundShrinks(s, b, p);
        BatchOf(s, r.batch, r.progress)
  }

  /** What came of a restore; `left` are the writes neither recorded nor left to
      the server when an error ended it. */
  datatype Restored = Restored(error: Option<RestoreError>, left: seq<StagedWrite>, progress: Progress)

  function ChunkSize(queue: seq<StagedWrite>): (n: nat)
    ensures n <= |queue| && (queue != [] ==> 0 < n)
  {
    if |queue| < MAX_BATCH then |queue| else MAX_BATCH
  }

  function NewBatch(ws: seq<StagedWrite>, p: Progress): Batch {
    Batch(ws, {}, p.skipped, p.kinds)
  }

  function BatchDone(r: Rounded): Progress {
    r.progress.(skipped := r.batch.skipped, kinds := r.batch.kinds)
  }

  function RestoreOf(s: Setting, queue: seq<StagedWrite>, p: Progress): Restored
    decreases |queue|
  {
    if queue == [] then Restored(None, [], p)
    else
      var n := ChunkSize(queue);
      var r := BatchOf(s, NewBatch(queue[..n], p), p);
      if r.error.Some? then Restored(r.error, r.batch.ws + queue[n..], BatchDone(r))
      else RestoreOf(s, queue[n..], BatchDone(r))
  }

  // ---------------------------------------------------------------- the loops

  method HandleConflict(answers: Answers, b: Batch, p: Progress, named: seq<ItemId>)
    returns (e: Option<RestoreError>, c: Batch, q: Progress)
    ensures Rounded(e, c, q) == AfterConflict(answers, b, p, named)
  {
    e, c, q := None, b, p;
    if exists id <- named :: id !in Ids(b.ws) {
      e := Some(UnknownConflict);
    } else {
      var ask := NotRevived(named, b.revived);
      var tombstones := [];
      if ask != [] {
        var found := Checked(ask, answers.fetch(p.fetches, ask));
        q := p.(fetches := p.fetches + 1, log := p.log + [FetchTry(ask, found)]);
        match found
        case FetchFailed => e := Some(RequestFailed);
        case FetchedItems(changes, _) => tombstones := Tombs(changes);
      }
      if e.None? {
        c := ResolveAll(answers, b, named, tombstones);
      }
    }
  }

  method Round(vault: VaultService, answers: Answers, b: Batch, p: Progress, ghost start: Tables)
    returns (e: Option<RestoreError>, c: Batch, q: Progress)
    requires vault.Tables() == Replayed(vault.cipher, start, p.committed)
    modifies vault, vault.store
    ensures SettingOf(vault, answers) == old(SettingOf(vault, answers))
    ensures Rounded(e, c, q) == RoundOf(SettingOf(vault, answers), b, p)
    ensures vault.Tables() == Replayed(vault.cipher, start, q.committed)
  {
    e, c := None, b;
    var answer := CheckedWrite(b.ws, answers.write(p.writes, b.ws));
    q := p.(writes := p.writes + 1, log := p.log + [WriteTry(b.ws, answer)]);
    match answer
    case WriteFailed => e := Some(RequestFailed);
    case Acked(applied) =>
      var committed;
      committed, e := CommitBatch(vault, b.ws, applied);
      ReplayedJoin(vault.cipher, start, p.committed, committed);
      c := b.(ws := b.ws[|committed|..]);
      q := q.(committed := q.committed + committed);
    case Conflicted(named) =>
      e, c, q := HandleConflict(answers, b, q, named);
  }

  method PushBatch(vault: VaultService, answers: Answers, batch: seq<StagedWrite>, p: Progress, ghost start: Tables)
    returns (e: Option<RestoreError>, q: Progress, ghost left: seq<StagedWrite>)
    requires vault.Tables() == Replayed(vault.cipher, start, p.committed)
    modifies vault, vault.store
    ensures SettingOf(vault, answers) == old(SettingOf(vault, answers))
    ensures var r := BatchOf(SettingOf(vault, answers), NewBatch(batch, p), p);
            e == r.error && q == BatchDone(r) && left == r.batch.ws
    ensures vault.Tables() == Replayed(vault.cipher, start, q.committed)
  {
    e, q := None, p;
    var b := NewBatch(batch, p);
    ghost var s := SettingOf(vault, answers);
    ghost var goal := BatchOf(s, b, p);
    while b.ws != [] && e.None?
      invariant SettingOf(vault, answers) == s
      invariant vault.Tables() == Replayed(vault.cipher, start, q.committed)
      invariant goal == if e.Some? then Rounded(e, b, q) else BatchOf(s, b, q)
      decreases e.None?, Rounds(b.ws, b.revived)
    {
      ghost var (before, sofar) := (b, q);
      e, b, q := Round(vault, answers, b, q, start);
      if e.None? {
        RoundShrinks(s, before, sofar);
      }
    }
    q, left := q.(skipped := b.skipped, kinds := b.kinds), b.ws;
  }

  /** Send staged restore writes. */
  method PushRestore(vault: VaultService, answers: Answers, staged: seq<StagedWrite>, report: ImportReport)
    returns (r: Result<ImportReport, RestoreError>, ghost done: Restored)
    modifies vault, vault.store
    ensures done == RestoreOf(old(SettingOf(vault, answers)), staged, NOTHING_SENT)
    ensures vault.Tables() == Replayed(vault.cipher, old(vault.Tables()), done.progress.committed)
    ensures r == match done.error
                 case Some(e) => Err(e)
                 case None => Ok(AllFound(report, done.progress.kinds).(imported := |done.progress.committed|))
  {
    var (q, queue) := (NOTHING_SENT, staged);
    var e: Option<RestoreError> := None;
    ghost var (s, start, left) := (SettingOf(vault, answers), vault.Tables(), []);
    ghost var goal := RestoreOf(s, staged, NOTHING_SENT);
    while queue != [] && e.None?
      invariant SettingOf(vault, answers) == s
      invariant vault.Tables() == Replayed(vault.cipher, start, q.committed)
      invariant goal == if e.Some? then Restored(e, left, q) else RestoreOf(s, queue, q)
      decreases |queue|
    {
      var size := ChunkSize(queue);
      ghost var unsent;
      e, q, unsent := PushBatch(vault, answers, queue[..size], q, start);
      left := unsent + queue[size..];
      queue := queue[size..];
    }
    done := goal;
    r := if e.Some? then Err(e.value) else Ok(AllFound(report, q.kinds).(imported := |q.committed|));
  }

  // ---------------------------------------------------------------- every write is somewhere, once

  /** Where every write is: recorded, still to be sent, or left to the server. */
  function Account(committed: seq<Commit>, left: seq<StagedWrite>, skipped: seq<StagedWrite>): multiset<StagedWrite> {
    Payloads(CommittedWrites(committed)) + (Payloads(left) + Payloads(skipped))
  }

  lemma AccountCommitted(done: seq<Commit>, more: seq<Commit>, ws: seq<StagedWrite>, skipped: seq<StagedWrite>)
    requires CommittedWrites(more) <= ws
    ensures Account(done + more, ws[|more|..], skipped) == Account(done, ws, skipped)
  {
    assert CommittedWrites(done + more) == CommittedWrites(done) + CommittedWrites(more);
    assert ws == CommittedWrites(more) + ws[|more|..];
    PayloadsJoin(CommittedWrites(done), CommittedWrites(more));
    PayloadsJoin(CommittedWrites(more), ws[|more|..]);
    Regroup(Payloads(CommittedWrites(done)), Payloads(CommittedWrites(more)), Payloads(ws[|more|..]),
            Payloads(skipped));
  }

  lemma Regroup<T>(a: multiset<T>, b: multiset<T>, c: multiset<T>, d: multiset<T>)
    ensures (a + b) + (c + d) == a + ((b + c) + d)
  {
  }

  lemma AccountSplit(committed: seq<Commit>, batch: seq<StagedWrite>, queue: seq<StagedWrite>,
                     skipped: seq<StagedWrite>)
    ensures Account(committed, batch + queue, skipped) == Account(committed, batch, skipped) + Payloads(queue)
  {
    PayloadsJoin(batch, queue);
    var (a, b, c, d) := (Payloads(CommittedWrites(committed)), Payloads(batch), Payloads(queue), Payloads(skipped));
    assert a + ((b + c) + d) == (a + (b + d)) + c;
  }

  lemma RoundAccounts(s: Setting, b: Batch, p: Progress)
    ensures var r := RoundOf(s, b, p);
            Account(r.progress.committed, r.batch.ws, r.batch.skipped) == Account(p.committed, b.ws, b.skipped)
  {
    var answer := CheckedWrite(b.ws, s.answers.write(p.writes, b.ws));
    if answer.Acked? {
      AccountCommitted(p.committed, Recording(s.unlocked, s.epoch, b.ws, answer.applied).0, b.ws, b.skipped);
    } else if answer.Conflicted? {
      var q := p.(writes := p.writes + 1, log := p.log + [WriteTry(b.ws, answer)]);
      ConflictAccounts(s.answers, b, q, answer.names);
      assert RoundOf(s, b, p) == AfterConflict(s.answers, b, q, answer.names);
    }
  }

  lemma ConflictAccounts(answers: Answers, b: Batch, p: Progress, named: seq<ItemId>)
    ensures var r := AfterConflict(answers, b, p, named);
            && r.progress.committed == p.committed && r.progress.writes == p.writes
            && Payloads(r.batch.ws) + Payloads(r.batch.skipped) == Payloads(b.ws) + Payloads(b.skipped)
  {
    if forall id <- named :: id in Ids(b.ws) {
      var ask := NotRevived(named, b.revived);
      ResolvedSettles(answers.kind, b, named, []);
      ResolvedSettles(answers.kind, b, named, TombsAsked(ask, answers.fetch(p.fetches, ask)));
    }
  }

  lemma {:induction false} BatchAccounts(s: Setting, b: Batch, p: Progress)
    ensures var r := BatchOf(s, b, p);
            && Account(r.progress.committed, r.batch.ws, r.batch.skipped) == Account(p.committed, b.ws, b.skipped)
            && (r.error.None? ==> r.batch.ws == [])
            && r.progress.writes <= p.writes + Rounds(b.ws, b.revived)
    decreases Rounds(b.ws, b.revived)
  {
    if b.ws != [] {
      var r := RoundOf(s, b, p);
      RoundAccounts(s, b, p);
      RoundSends(s, b, p);
      if r.error.None? {
        RoundShrinks(s, b, p);
        BatchAccounts(s, r.batch, r.progress);
      }
    }
  }

  lemma RoundSends(s: Setting, b: Batch, p: Progress)
    ensures RoundOf(s, b, p).progress.writes == p.writes + 1
  {
  }

  lemma {:induction false} RunAccounts(s: Setting, queue: seq<StagedWrite>, p: Progress)
    ensures var f := RestoreOf(s, queue, p);
            && Account(f.progress.committed, f.left, f.progress.skipped) == Account(p.committed, queue, p.skipped)
            && (f.error.None? ==> f.left == [])
            && f.progress.writes <= p.writes + 2 * |queue|
    decreases |queue|
  {
    if queue != [] {
      var n := ChunkSize(queue);
      var b := NewBatch(queue[..n], p);
      var r := BatchOf(s, b, p);
      assert queue == queue[..n] + queue[n..];
      BatchAccounts(s, b, p);
      AccountSplit(p.committed, queue[..n], queue[n..], p.skipped);
      AccountSplit(r.progress.committed, r.batch.ws, queue[n..], r.batch.skipped);
      if r.error.None? {
        assert RestoreOf(s, queue, p) == RestoreOf(s, queue[n..], BatchDone(r));
        assert [] + queue[n..] == queue[n..];
        RunAccounts(s, queue[n..], BatchDone(r));
      }
    }
  }

  /** However a restore ends, every staged write was recorded, left to the server or
      is still to be sent, exactly once, and two requests per write were enough; it
      succeeds only with nothing left to send. */
  lemma {:induction false} RestoreConserves(s: Setting, staged: seq<StagedWrite>)
    ensures var f := RestoreOf(s, staged, NOTHING_SENT);
            && Payloads(CommittedWrites(f.progress.committed)) + (Payloads(f.left) + Payloads(f.progress.skipped)) ==
                Payloads(staged)
            && (f.error.None? ==> f.left == [])
            && f.progress.writes <= 2 * |staged|
  {
    RunAccounts(s, staged, NOTHING_SENT);
    assert CommittedWrites([]) == [];
    assert multiset{} + (Payloads(staged) + multiset{}) == Payloads(staged);
  }

  // ---------------------------------------------------------------- what a success means

  /** How many of the writes hold an item of the type. */
  function OfType(kind: Overview -> ItemType, ws: seq<StagedWrite>, t: ItemType): nat {
    if ws == [] then 0
    else (if ws[0].plain.Some? && kind(ws[0].plain.value) == t then 1 else 0) + OfType(kind, ws[1..], t)
  }

  lemma {:induction false} TallyIsCount(kind: Overview -> ItemType, ws: seq<StagedWrite>, t: ItemType)
    ensures Tally(Kinds(kind, ws), t) == OfType(kind, ws, t)
  {
    if ws != [] {
      HeadTally(kind, ws, t);
      TallyIsCount(kind, ws[1..], t);
    }
  }

  /** When the plan counted every staged write once under its type, the final
      counts are exactly the committed writes of each type. */
  lemma {:induction false} ReportCountsCommitted(kind: Overview -> ItemType, report: ImportReport,
                                                 staged: seq<StagedWrite>,
                                                 committed: seq<StagedWrite>, skipped: seq<StagedWrite>, t: ItemType)
    requires Payloads(committed) + Payloads(skipped) == Payloads(staged)
    requires OfType(kind, staged, t) == if t in report.counts then report.counts[t] else 0
    ensures var final := AllFound(report, Kinds(kind, skipped));
            && OfType(kind, committed, t) == (if t in final.counts then final.counts[t] else 0)
            && final.skippedExisting == report.skippedExisting + |skipped|
            && |committed| + |skipped| == |staged|
  {
    AllFoundCounts(report, Kinds(kind, skipped), t);
    PayloadsJoin(committed, skipped);
    SamePayloadsSameTally(kind, committed + skipped, staged, t);
    TallyJoin(kind, committed, skipped, t);
    TallyIsCount(kind, staged, t);
    TallyIsCount(kind, committed, t);
  }

  lemma TallyJoin(kind: Overview -> ItemType, a: seq<StagedWrite>, b: seq<StagedWrite>, t: ItemType)
    ensures Tally(Kinds(kind, a + b), t) == Tally(Kinds(kind, a), t) + Tally(Kinds(kind, b), t)
  {
    assert Kinds(kind, a + b) == Kinds(kind, a) + Kinds(kind, b);
  }

  lemma {:induction false} SamePayloadsSameTally(kind: Overview -> ItemType, a: seq<StagedWrite>, b: seq<StagedWrite>,
                                                 t: ItemType)
    requires Payloads(a) == Payloads(b)
    ensures Tally(Kinds(kind, a), t) == Tally(Kinds(kind, b), t) && |a| == |b|
    decreases |a|
  {
    if a == [] {
      NoPayloads(b);
    } else {
      var rest := Peel(kind, a, b, t);
      SamePayloadsSameTally(kind, a[1..], rest, t);
      HeadTally(kind, a, t);
    }
  }

  lemma NoPayloads(ws: seq<StagedWrite>)
    requires Payloads(ws) == multiset{}
    ensures ws == []
  {
    if ws != [] {
      HasPayload(ws);
    }
  }

  lemma HasPayload(ws: seq<StagedWrite>)
    requires ws != []
    ensures Payload(ws[0]) in Payloads(ws)
  {
  }

  lemma HeadTally(kind: Overview -> ItemType, ws: seq<StagedWrite>, t: ItemType)
    requires ws != []
    ensures Tally(Kinds(kind, ws), t) == Tally(Kinds(kind, ws[1..]), t)
            + (if KindOf(kind, ws[0]) == Some(t) then 1 else 0)
  {
    TallyWithout(kind, ws, 0, t);
    assert ws[..0] + ws[1..] == ws[1..];
  }

  /** Take the first write of `a` out of both lists. */
  lemma Peel(kind: Overview -> ItemType, a: seq<StagedWrite>, b: seq<StagedWrite>, t: ItemType)
    returns (rest: seq<StagedWrite>)
    requires a != [] && Payloads(a) == Payloads(b)
    ensures Payloads(a[1..]) == Payloads(rest) && |rest| == |b| - 1
    ensures Tally(Kinds(kind, b), t) == Tally(Kinds(kind, rest), t) + (if KindOf(kind, a[0]) == Some(t) then 1 else 0)
  {
    HasPayload(a);
    var i := PayloadAt(b, Payload(a[0]));
    rest := b[..i] + b[i + 1..];
    PayloadsWithout(b, i);
    CancelOne(Payload(a[0]), Payloads(a[1..]), Payloads(rest));
    TallyWithout(kind, b, i, t);
  }

  lemma CancelOne<T>(x: T, a: multiset<T>, b: multiset<T>)
    requires multiset{x} + a == multiset{x} + b
    ensures a == b
  {
    assert a == (multiset{x} + a) - multiset{x};
    assert b == (multiset{x} + b) - multiset{x};
  }

  lemma {:induction false} PayloadsWithout(ws: seq<StagedWrite>, i: nat)
    requires i < |ws|
    ensures Payloads(ws) == multiset{Payload(ws[i])} + Payloads(ws[..i] + ws[i + 1..])
  {
    var without := ws[..i] + ws[i + 1..];
    if i == 0 {
      assert without == ws[1..];
    } else {
      PayloadsWithout(ws[1..], i - 1);
      assert without[0] == ws[0] && without[1..] == ws[1..][..i - 1] + ws[1..][i..];
      MiddleFirst(multiset{Payload(ws[0])}, multiset{Payload(ws[i])}, Payloads(without[1..]));
    }
  }

  lemma MiddleFirst<T>(a: multiset<T>, b: multiset<T>, c: multiset<T>)
    ensures a + (b + c) == b + (a + c)
  {
  }

  lemma TallyWithout(kind: Overview -> ItemType, ws: seq<StagedWrite>, i: nat, t: ItemType)
    requires i < |ws|
    ensures Tally(Kinds(kind, ws), t) ==
            Tally(Kinds(kind, ws[..i] + ws[i + 1..]), t) + (if KindOf(kind, ws[i]) == Some(t) then 1 else 0)
  {
    var tail := [ws[i]] + ws[i + 1..];
    assert ws == ws[..i] + tail;
    TallyJoin(kind, ws[..i], tail, t);
    TallyJoin(kind, [ws[i]], ws[i + 1..], t);
    TallyJoin(kind, ws[..i], ws[i + 1..], t);
    assert Kinds(kind, [ws[i]]) == [KindOf(kind, ws[i])];
  }

  lemma {:induction false} PayloadAt(ws: seq<StagedWrite>, x: StagedWrite) returns (i: nat)
    requires x in Payloads(ws)
    ensures i < |ws| && Payload(ws[i]) == x
  {
    if Payload(ws[0]) == x {
      i := 0;
    } else {
      i := PayloadAt(ws[1..], x);
      i := i + 1;
    }
  }

  // ---------------------------------------------------------------- sending without conflicts to resolve

  datatype Sent = Sent(error: Option<RestoreError>, committed: seq<Commit>, requests: nat)

  /** Many staged writes batch by batch, the `k`-th request next; a refusal ends it. */
  function BatchesOf(s: Setting, queue: seq<StagedWrite>, done: seq<Commit>, k: nat): Sent
    decreases |queue|
  {
    if queue == [] then Sent(None, done, k)
    else
      var n := ChunkSize(queue);
      match CheckedWrite(queue[..n], s.answers.write(k, queue[..n]))
      case WriteFailed => Sent(Some(RequestFailed), done, k + 1)
      case Conflicted(_) => Sent(Some(RequestFailed), done, k + 1)
      case Acked(applied) =>
        var (more, e) := Recording(s.unlocked, s.epoch, queue[..n], applied);
        if e.Some? then Sent(e, done + more, k + 1) else BatchesOf(s, queue[n..], done + more, k + 1)
  }

  method PushBatches(vault: VaultService, answers: Answers, staged: seq<StagedWrite>)
    returns (r: Result<nat, RestoreError>, ghost done: Sent)
    modifies vault, vault.store
    ensures done == BatchesOf(old(SettingOf(vault, answers)), staged, [], 0)
    ensures vault.Tables() == Replayed(vault.cipher, old(vault.Tables()), done.committed)
    ensures r == match done.error
                 case Some(e) => Err(e)
                 case None => Ok(|done.committed|)
  {
    var (committed, queue) := ([], staged);
    var requests: nat := 0;
    var e: Option<RestoreError> := None;
    ghost var (s, start) := (SettingOf(vault, answers), vault.Tables());
    ghost var goal := BatchesOf(s, staged, [], 0);
    while queue != [] && e.None?
      invariant SettingOf(vault, answers) == s
      invariant vault.Tables() == Replayed(vault.cipher, start, committed)
      invariant goal == if e.Some? then Sent(e, committed, requests) else BatchesOf(s, queue, committed, requests)
      decreases |queue|
    {
      var batch := queue[..ChunkSize(queue)];
      var answer := CheckedWrite(batch, answers.write(requests, batch));
      assert |batch| == ChunkSize(queue);
      requests, queue := requests + 1, queue[|batch|..];
      if answer.Acked? {
        var more;
        more, e := CommitBatch(vault, batch, answer.applied);
        ReplayedJoin(vault.cipher, start, committed, more);
        committed := committed + more;
      } else {
        e := Some(RequestFailed);
      }
    }
    done := goal;
    r := if e.Some? then Err(e.value) else Ok(|committed|);
  }

  /** The server took all of the batch, and the vault can record all of it. */
  predicate TakenWhole(s: Setting, k: nat, batch: seq<StagedWrite>) {
    var answer := CheckedWrite(batch, s.answers.write(k, batch));
    answer.Acked? && forall w <- batch :: RevisionFor(answer.applied, w.id).Some? && Recordable(s.unlocked, s.epoch, w)
  }

  function Chunks(n: nat): nat {
    (n + MAX_BATCH - 1) / MAX_BATCH
  }

  /** The `i`-th batch of a list cut into batches as large as allowed. */
  function Chunk(ws: seq<StagedWrite>, i: nat): seq<StagedWrite>
    requires i < Chunks(|ws|)
  {
    ws[i * MAX_BATCH..if |ws| < (i + 1) * MAX_BATCH then |ws| else (i + 1) * MAX_BATCH]
  }

  lemma NextChunks(queue: seq<StagedWrite>)
    requires queue != []
    ensures Chunks(|queue|) == Chunks(|queue[ChunkSize(queue)..]|) + 1 && Chunk(queue, 0) == queue[..ChunkSize(queue)]
    ensures forall i: nat :: i < Chunks(|queue[ChunkSize(queue)..]|) ==>
            Chunk(queue[ChunkSize(queue)..], i) == Chunk(queue, i + 1)
  {
    var rest := queue[ChunkSize(queue)..];
    forall i: nat | i < Chunks(|rest|) ensures Chunk(rest, i) == Chunk(queue, i + 1) {
      assert ChunkSize(queue) == MAX_BATCH;
    }
  }

  lemma {:induction false} BatchesRecord(s: Setting, queue: seq<StagedWrite>, done: seq<Commit>, k: nat)
    ensures var sent := BatchesOf(s, queue, done, k);
            && done <= sent.committed
            && CommittedWrites(sent.committed[|done|..]) <= queue
            && (sent.error.None? ==> CommittedWrites(sent.committed[|done|..]) == queue)
    decreases |queue|
  {
    if queue != [] {
      var (batch, rest) := (queue[..ChunkSize(queue)], queue[ChunkSize(queue)..]);
      assert queue == batch + rest;
      var answer := CheckedWrite(batch, s.answers.write(k, batch));
      if answer.Acked? {
        var (more, e) := Recording(s.unlocked, s.epoch, batch, answer.applied);
        if e.None? {
          var sent := BatchesOf(s, rest, done + more, k + 1);
          assert BatchesOf(s, queue, done, k) == sent;
          BatchesRecord(s, rest, done + more, k + 1);
          CommittedSince(done, more, sent.committed);
        } else {
          assert (done + more)[|done|..] == more;
        }
      }
    }
  }

  lemma CommittedSince(done: seq<Commit>, more: seq<Commit>, all: seq<Commit>)
    requires done + more <= all
    ensures done <= all
    ensures CommittedWrites(all[|done|..]) == CommittedWrites(more) + CommittedWrites(all[|done + more|..])
  {
    assert all == done + more + all[|done + more|..];
    CommittedJoin(more, all[|done + more|..]);
  }

  lemma CommittedJoin(a: seq<Commit>, b: seq<Commit>)
    ensures CommittedWrites(a + b) == CommittedWrites(a) + CommittedWrites(b)
  {
  }

  lemma {:induction false} BatchesRequests(s: Setting, queue: seq<StagedWrite>, done: seq<Commit>, k: nat)
    ensures var sent := BatchesOf(s, queue, done, k);
            sent.requests <= k + Chunks(|queue|) && (sent.error.None? ==> sent.requests == k + Chunks(|queue|))
    decreases |queue|
  {
    if queue != [] {
      var batch := queue[..ChunkSize(queue)];
      NextChunks(queue);
      var answer := CheckedWrite(batch, s.answers.write(k, batch));
      if answer.Acked? {
        BatchesRequests(s, queue[ChunkSize(queue)..], done + Recording(s.unlocked, s.epoch, batch, answer.applied).0,
                        k + 1);
      }
    }
  }

  predicate TakenAt(s: Setting, k: nat, queue: seq<StagedWrite>, i: nat)
    requires i < Chunks(|queue|)
  {
    TakenWhole(s, k + i, Chunk(queue, i))
  }

  ghost predicate AllTaken(s: Setting, k: nat, queue: seq<StagedWrite>) {
    forall i: nat :: i < Chunks(|queue|) ==> TakenAt(s, k, queue, i)
  }

  lemma {:induction false} BatchesSucceed(s: Setting, queue: seq<StagedWrite>, done: seq<Commit>, k: nat)
    ensures BatchesOf(s, queue, done, k).error.None? <==> AllTaken(s, k, queue)
    decreases |queue|
  {
    if queue != [] {
      var batch := queue[..ChunkSize(queue)];
      var answer := CheckedWrite(batch, s.answers.write(k, batch));
      ShiftTaken(s, queue, k);
      if answer.Acked? {
        RecordingComplete(s.unlocked, s.epoch, batch, answer.applied);
        BatchesSucceed(s, queue[ChunkSize(queue)..], done + Recording(s.unlocked, s.epoch, batch, answer.applied).0,
                       k + 1);
      }
    }
  }

  lemma ShiftTaken(s: Setting, queue: seq<StagedWrite>, k: nat)
    requires queue != []
    ensures var rest := queue[ChunkSize(queue)..];
            AllTaken(s, k, queue) <==>
            TakenWhole(s, k, queue[..ChunkSize(queue)]) && AllTaken(s, k + 1, rest)
  {
    var (rest, next: nat) := (queue[ChunkSize(queue)..], k + 1);
    NextChunks(queue);
    assert TakenAt(s, k, queue, 0) <==> TakenWhole(s, k, queue[..ChunkSize(queue)]);
    if AllTaken(s, k, queue) {
      forall i: nat | i < Chunks(|rest|) ensures TakenAt(s, next, rest, i) {
        assert TakenAt(s, k, queue, i + 1);
      }
    }
    if TakenWhole(s, k, queue[..ChunkSize(queue)]) && AllTaken(s, next, rest) {
      forall i: nat | i < Chunks(|queue|) ensures TakenAt(s, k, queue, i) {
        assert i > 0 ==> TakenAt(s, next, rest, i - 1);
      }
    }
  }

  /** Batch `last` is the first one not taken whole: refused or unanswered, or acknowledged
      without one of its writes, or not recordable. */
  ghost predicate FailsAt(s: Setting, k: nat, queue: seq<StagedWrite>, last: nat, error: RestoreError) {
    && last < Chunks(|queue|) && !TakenAt(s, k, queue, last) && (forall i: nat :: i < last ==> TakenAt(s, k, queue, i))
    && error != UnknownConflict
    && (error == RequestFailed <==>
          !CheckedWrite(Chunk(queue, last), s.answers.write(k + last, Chunk(queue, last))).Acked?)
  }

  lemma ShiftFailure(s: Setting, queue: seq<StagedWrite>, k: nat, next: nat, before: nat, last: nat,
                     error: RestoreError)
    requires queue != [] && TakenWhole(s, k, queue[..ChunkSize(queue)]) && next == k + 1 && last == before + 1
    requires FailsAt(s, next, queue[ChunkSize(queue)..], before, error)
    ensures FailsAt(s, k, queue, last, error)
  {
    var rest := queue[ChunkSize(queue)..];
    NextChunks(queue);
    forall i: nat | i <= last ensures i > 0 ==> (TakenAt(s, k, queue, i) <==> TakenAt(s, next, rest, i - 1)) {
    }
    assert Chunk(rest, before) == Chunk(queue, last) && next + before == k + last;
    assert TakenAt(s, k, queue, 0);
  }

  /** Either the first batch is taken whole and the rest goes on, or it ends the run. */
  lemma FirstBatch(s: Setting, queue: seq<StagedWrite>, done: seq<Commit>, k: nat) returns (more: seq<Commit>)
    requires queue != []
    ensures var (sent, rest) := (BatchesOf(s, queue, done, k), queue[ChunkSize(queue)..]);
            if TakenWhole(s, k, queue[..ChunkSize(queue)]) then sent == BatchesOf(s, rest, done + more, k + 1)
            else sent.error.Some? && sent.requests == k + 1 && FailsAt(s, k, queue, 0, sent.error.value)
  {
    var batch := queue[..ChunkSize(queue)];
    var answer := CheckedWrite(batch, s.answers.write(k, batch));
    NextChunks(queue);
    assert TakenAt(s, k, queue, 0) <==> TakenWhole(s, k, batch);
    more := [];
    if answer.Acked? {
      more := Recording(s.unlocked, s.epoch, batch, answer.applied).0;
      RecordingComplete(s.unlocked, s.epoch, batch, answer.applied);
      RecordingErrors(s.unlocked, s.epoch, batch, answer.applied);
    }
  }

  /** A failure is that of the last batch sent, the first one not taken whole. */
  lemma {:induction false} BatchesFailAt(s: Setting, queue: seq<StagedWrite>, done: seq<Commit>, k: nat)
    returns (last: nat)
    ensures var sent := BatchesOf(s, queue, done, k);
            sent.error.Some? ==> sent.requests == k + last + 1 && FailsAt(s, k, queue, last, sent.error.value)
    decreases |queue|
  {
    last := 0;
    if queue != [] {
      var more := FirstBatch(s, queue, done, k);
      if TakenWhole(s, k, queue[..ChunkSize(queue)]) {
        var sent := BatchesOf(s, queue, done, k);
        var next := k + 1;
        var before := BatchesFailAt(s, queue[ChunkSize(queue)..], done + more, next);
        last := before + 1;
        if sent.error.Some? {
          ShiftFailure(s, queue, k, next, before, last, sent.error.value);
        }
      }
    }
  }

  lemma {:induction false} RecordingErrors(unlocked: bool, epoch: nat, ws: seq<StagedWrite>,
                                           applied: seq<(ItemId, int)>)
    ensures Recording(unlocked, epoch, ws, applied).1 in {None, Some(NotAcknowledged), Some(NotRecorded)}
  {
    if ws != [] {
      RecordingErrors(unlocked, epoch, ws[1..], applied);
    }
  }

  /** Sending in batches succeeds exactly when each batch is acknowledged, every
      write of it by id, and can be recorded; then all was recorded in order, one
      request a batch. Failing, it recorded a prefix. */
  lemma {:induction false} BatchesSucceedExactly(s: Setting, staged: seq<StagedWrite>)
    ensures var sent := BatchesOf(s, staged, [], 0);
            && (sent.error.None? <==> AllTaken(s, 0, staged))
            && (sent.error.None? ==> CommittedWrites(sent.committed) == staged && sent.requests == Chunks(|staged|))
            && CommittedWrites(sent.committed) <= staged
            && sent.requests <= Chunks(|staged|)
  {
    BatchesRecord(s, staged, [], 0);
    BatchesRequests(s, staged, [], 0);
    BatchesSucceed(s, staged, [], 0);
    assert BatchesOf(s, staged, [], 0).committed[0..] == BatchesOf(s, staged, [], 0).committed;
  }

  /** Without a conflict to resolve, a restore sends, records and fails exactly as sending
      in batches does. */
  lemma {:induction false} RestoreIsBatches(s: Setting, queue: seq<StagedWrite>, p: Progress)
    requires forall k: nat, batch :: !CheckedWrite(batch, s.answers.write(k, batch)).Conflicted?
    ensures var (f, sent) := (RestoreOf(s, queue, p), BatchesOf(s, queue, p.committed, p.writes));
            && f.error == sent.error && f.progress.committed == sent.committed && f.progress.writes == sent.requests
            && f.progress.skipped == p.skipped && f.progress.kinds == p.kinds
    decreases |queue|
  {
    if queue != [] {
      var n := ChunkSize(queue);
      var r := BatchOf(s, NewBatch(queue[..n], p), p);
      UnopposedBatch(s, queue[..n], p);
      if r.error.None? {
        assert RestoreOf(s, queue, p) == RestoreOf(s, queue[n..], BatchDone(r));
        RestoreIsBatches(s, queue[n..], BatchDone(r));
      }
    }
  }

  lemma UnopposedBatch(s: Setting, batch: seq<StagedWrite>, p: Progress)
    requires batch != [] && !CheckedWrite(batch, s.answers.write(p.writes, batch)).Conflicted?
    ensures var answer := CheckedWrite(batch, s.answers.write(p.writes, batch));
            var r := BatchOf(s, NewBatch(batch, p), p);
            && r.batch.skipped == p.skipped && r.batch.kinds == p.kinds && r.progress.writes == p.writes + 1
            && (answer.WriteFailed? ==> r.error == Some(RequestFailed) && r.progress.committed == p.committed)
            && (answer.Acked? ==>
                  var (more, e) := Recording(s.unlocked, s.epoch, batch, answer.applied);
                  r.error == e && r.progress.committed == p.committed + more)
  {
    var b := NewBatch(batch, p);
    var (answer, r) := (CheckedWrite(batch, s.answers.write(p.writes, batch)), RoundOf(s, b, p));
    if answer.Acked? && r.error.None? {
      assert CommittedWrites(Recording(s.unlocked, s.epoch, batch, answer.applied).0) == batch;
      assert r.batch.ws == [];
      RoundShrinks(s, b, p);
      assert BatchOf(s, b, p) == BatchOf(s, r.batch, r.progress);
    }
  }
}
