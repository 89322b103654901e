/**
 Which vault header a device keeps: the wrapped vault key and its revision,
 with the rollback floor in the account row. The header and the floor are
 written by two statements, so a crash may fall between them.
 */
module Header {
  import opened Wrappers

  const TWO_63: int := 0x8000_0000_0000_0000
  const TWO_64: int := 0x1_0000_0000_0000_0000

  type U64 = x: int | 0 <= x < TWO_64

  /** The cast `as i64`. */
  function AsI64(x: U64): int {
    if x < TWO_63 then x else x - TWO_64
  }

  function SaturatingAddOne(x: U64): U64 {
    if x == TWO_64 - 1 then x else x + 1
  }

  datatype Scheme = AccountBound | OtherScheme

  /** `wrap` stands for the key derivation and the wrapped vault key. */
  datatype Record = Record(format: nat, vaultId: nat, wrap: nat, createdAt: int, scheme: Scheme, revision: U64)

  /** What the server served: unreadable, or a header that a holder of the vault
      key wrote (`attested`) or did not. */
  datatype Served = Unreadable | Readable(body: Record, attested: bool)

  datatype Refusal = NoVault | InvalidInput | Corrupted | Storage | LockedVault | Busy | UnlockFailed

  const FORMAT_VERSION: nat := 1

  /** The header row, the account row's `max_header_rev`, and the vault's state. */
  datatype Kept = Kept(header: Option<Record>, maxHeaderRev: Option<int>, unlocked: bool, epoch: nat)

  datatype Ticket = Ticket(header: Record, epoch: nat)

  /** The highest revision this device has known. Stored revisions fit 63 bits. */
  function Floor(k: Kept): int {
    var floor := if k.maxHeaderRev.Some? then k.maxHeaderRev.value else 0;
    if k.header.Some? && k.header.value.revision > floor then k.header.value.revision else floor
  }

  predicate Stored(k: Kept) {
    k.header.Some? ==> k.header.value.revision < TWO_63
  }

  // ---------------------------------------------------------------- the two statements

  function WrapUpdated(k: Kept, r: Record): Kept
    requires k.header.Some?
  {
    k.(header := Some(k.header.value.(wrap := r.wrap, scheme := r.scheme, revision := r.revision)))
  }

  function FloorRaised(k: Kept, rev: int): Kept {
    if k.maxHeaderRev.Some? && rev > k.maxHeaderRev.value then k.(maxHeaderRev := Some(rev)) else k
  }

  // ---------------------------------------------------------------- when a header is taken

  predicate Adopts(k: Kept, remote: Served) {
    && k.unlocked && k.header.Some? && k.header.value.scheme.AccountBound?
    && remote.Readable? && remote.body.vaultId == k.header.value.vaultId && remote.body.scheme.AccountBound?
    && remote.attested && AsI64(remote.body.revision) > Floor(k)
  }

  predicate Unlocks(k: Kept, prepared: Record, since: nat) {
    && !k.unlocked && since == k.epoch && k.header.Some? && k.maxHeaderRev.Some?
    && prepared.vaultId == k.header.value.vaultId && prepared.scheme.AccountBound?
    && prepared.format == FORMAT_VERSION && AsI64(prepared.revision) > Floor(k)
  }

  predicate SameWrap(a: Record, b: Record) {
    a.vaultId == b.vaultId && a.wrap == b.wrap && a.scheme == b.scheme && a.revision == b.revision
  }

  predicate Rekeys(k: Kept, ticket: Ticket, revision: U64) {
    && k.unlocked && ticket.epoch == k.epoch && k.header.Some? && k.maxHeaderRev.Some?
    && SameWrap(k.header.value, ticket.header) && revision == k.header.value.revision + 1 && revision < TWO_63
  }

  class VaultService {
    var header: Option<Record>
    var maxHeaderRev: Option<int>
    var unlocked: bool
    var epoch: nat

    function State(): Kept
      reads this
    {
      Kept(header, maxHeaderRev, unlocked, epoch)
    }

    method UpdateKeyWrap(r: Record) returns (done: Result<(), Refusal>)
      modifies this`header
      ensures done.Ok? <==> old(header).Some? && r.revision < TWO_63
      ensures done.Ok? ==> State() == WrapUpdated(old(State()), r)
      ensures done.Ok? ==>
                header == Some(Record(old(header).value.format, old(header).value.vaultId, r.wrap,
                                      old(header).value.createdAt, r.scheme, r.revision))
      ensures done.Err? ==> State() == old(State())
    {
      if r.revision >= TWO_63 {
        return Err(Storage);
      }
      if header.None? {
        return Err(NoVault);
      }
      header := Some(header.value.(wrap := r.wrap, scheme := r.scheme, revision := r.revision));
      done := Ok(());
    }

    method RaiseMaxHeaderRev(rev: int)
      modifies this`maxHeaderRev
      ensures State() == FloorRaised(old(State()), rev)
      ensures maxHeaderRev == if old(maxHeaderRev).Some?
              && rev > old(maxHeaderRev).value then Some(rev) else old(maxHeaderRev)
    {
      if maxHeaderRev.Some? && rev > maxHeaderRev.value {
        maxHeaderRev := Some(rev);
      }
    }

    /** A header served while unlocked is taken exactly when it is this vault's,
        account-bound, attested, and newer than everything this device has known;
        otherwise nothing changes. */
    method AdoptAccountHeader(remote: Served) returns (adopted: Result<bool, Refusal>)
      requires Stored(State())
      modifies this
      ensures adopted == Ok(true) <==> Adopts(old(State()), remote)
      ensures adopted == Ok(true) ==>
              State() == FloorRaised(WrapUpdated(old(State()), remote.body), remote.body.revision)
      ensures adopted == Ok(true) <==>
                && old(unlocked) && old(header).Some? && old(header).value.scheme.AccountBound?
                && remote.Readable? && remote.attested
                && remote.body.vaultId == old(header).value.vaultId && remote.body.scheme.AccountBound?
                && old(header).value.revision < remote.body.revision < TWO_63
                && (old(maxHeaderRev).Some? ==> old(maxHeaderRev).value < remote.body.revision)
      ensures adopted == Ok(true) ==>
                && header == Some(Record(old(header).value.format, old(header).value.vaultId, remote.body.wrap,
                                         old(header).value.createdAt, remote.body.scheme, remote.body.revision))
                && maxHeaderRev == (if old(maxHeaderRev).Some? && remote.body.revision > old(maxHeaderRev).value
                                    then Some(remote.body.revision) else old(maxHeaderRev))
                && unlocked && epoch == old(epoch)
      ensures adopted != Ok(true) ==> State() == old(State())
    {
      if header.None? {
        return Err(NoVault);
      }
      var local := header.value;
      if local.scheme != AccountBound {
        return Err(InvalidInput);
      }
      if remote.Unreadable? {
        return Err(Corrupted);
      }
      if remote.body.vaultId != local.vaultId {
        return Err(InvalidInput);
      }
      if remote.body.scheme != AccountBound {
        return Ok(false);
      }
      if !unlocked {
        return Err(LockedVault);
      }
      if !remote.attested {
        return Ok(false);
      }
      var floor := if maxHeaderRev.Some? then maxHeaderRev.value else 0;
      floor := if local.revision > floor then local.revision else floor;
      var remoteRev := AsI64(remote.body.revision);
      if remoteRev <= floor {
        return Ok(false);
      }
      var done := UpdateKeyWrap(remote.body);
      if done.Err? {
        return Err(Storage);
      }
      RaiseMaxHeaderRev(remoteRev);
      adopted := Ok(true);
    }

    /** The same floor when a header from the server opens a locked vault, and a
        lock requested meanwhile wins. `opens` says that the replica could be
        opened with the prepared key; the header stays taken when it could not. */
    method AdoptAndUnlock(prepared: Record, since: nat, opens: bool) returns (done: Result<(), Refusal>)
      requires Stored(State())
      modifies this
      ensures done.Ok? <==> Unlocks(old(State()), prepared, since) && opens
      ensures Unlocks(old(State()), prepared, since) ==>
              State() == FloorRaised(WrapUpdated(old(State()), prepared), prepared.revision).(unlocked := opens)
      ensures header != old(header) <==>
                && !old(unlocked) && since == old(epoch) && old(header).Some? && old(maxHeaderRev).Some?
                && prepared.vaultId == old(header).value.vaultId && prepared.scheme.AccountBound?
                && prepared.format == FORMAT_VERSION
                && old(header).value.revision < prepared.revision < TWO_63
                    && old(maxHeaderRev).value < prepared.revision
      ensures header != old(header) ==>
                && header == Some(Record(old(header).value.format, old(header).value.vaultId, prepared.wrap,
                                         old(header).value.createdAt, prepared.scheme, prepared.revision))
                && maxHeaderRev == (if old(maxHeaderRev).Some? && prepared.revision > old(maxHeaderRev).value
                                    then Some(prepared.revision) else old(maxHeaderRev))
                && unlocked == opens && epoch == old(epoch)
      ensures !Unlocks(old(State()), prepared, since) ==> State() == old(State())
    {
      if unlocked {
        return Err(Busy);
      }
      if since != epoch {
        return Err(LockedVault);
      }
      if header.None? {
        return Err(NoVault);
      }
      if maxHeaderRev.None? {
        return Err(InvalidInput);
      }
      var local := header.value;
      var floor := if maxHeaderRev.value >= local.revision then maxHeaderRev.value else local.revision;
      if prepared.vaultId != local.vaultId || prepared.scheme != AccountBound || prepared.format != FORMAT_VERSION {
        return Err(UnlockFailed);
      }
      if AsI64(prepared.revision) <= floor {
        return Err(UnlockFailed);
      }
      var wrapped := UpdateKeyWrap(prepared);
      if wrapped.Err? {
        return wrapped;
      }
      RaiseMaxHeaderRev(AsI64(prepared.revision));
      if !opens {
        return Err(Corrupted);
      }
      unlocked := true;
      done := Ok(());
    }

    /** A password change is written only over the header it started from, at the
        next revision. */
    method CommitRekey(ticket: Ticket, rekeyed: Option<Record>, revision: U64) returns (done: Result<(), Refusal>)
      requires Stored(State())
      modifies this
      ensures done.Ok? <==> rekeyed.Some? && Rekeys(old(State()), ticket, revision)
      ensures done.Ok? ==>
              State() == FloorRaised(WrapUpdated(old(State()), rekeyed.value.(revision := revision)), revision)
      ensures done.Ok? <==>
                && old(unlocked) && ticket.epoch == old(epoch) && old(header).Some? && old(maxHeaderRev).Some?
                && rekeyed.Some? && revision == old(header).value.revision + 1 && revision < TWO_63
                && ticket.header.vaultId == old(header).value.vaultId && ticket.header.wrap == old(header).value.wrap
                && ticket.header.scheme == old(header).value.scheme
                && ticket.header.revision == old(header).value.revision
      ensures done.Ok? ==>
                && header == Some(Record(old(header).value.format, old(header).value.vaultId, rekeyed.value.wrap,
                                         old(header).value.createdAt, rekeyed.value.scheme, revision))
                && maxHeaderRev == (if old(maxHeaderRev).Some? && revision > old(maxHeaderRev).value
                                    then Some(revision) else old(maxHeaderRev))
                && unlocked && epoch == old(epoch)
      ensures done.Err? ==> State() == old(State())
    {
      if !unlocked || ticket.epoch != epoch {
        return Err(LockedVault);
      }
      if rekeyed.None? {
        return Err(InvalidInput);
      }
      if header.None? {
        return Err(NoVault);
      }
      if !SameWrap(header.value, ticket.header) {
        return Err(Busy);
      }
      if maxHeaderRev.None? {
        return Err(InvalidInput);
      }
      if revision != SaturatingAddOne(header.value.revision) {
        return Err(Corrupted);
      }
      var wrapped := UpdateKeyWrap(rekeyed.value.(revision := revision));
      if wrapped.Err? {
        return wrapped;
      }
      RaiseMaxHeaderRev(revision);
      done := Ok(());
    }
  }

  // ---------------------------------------------------------------- any run

  /** The three ways a new wrap is written over the old one, where a crash may come
      after the first of the two statements; creating the vault, where it may come
      after the account row; and the steps that leave the header alone. */
  datatype Step =
    | Adopt(remote: Served, crash: bool)
    | Unlock(prepared: Record, since: nat, opens: bool, crash: bool)
    | Rekey(ticket: Ticket, rekeyed: Record, revision: U64, crash: bool)
    | Create(prepared: Record, maxRev: int, crash: bool)
    | SignInAgain(maxRev: int)
    | Lock
    | UnlockHere

  function Crashed(k: Kept): Kept {
    k.(unlocked := false, epoch := k.epoch + 1)
  }

  function Taken(k: Kept, r: Record, crash: bool): Kept
    requires k.header.Some?
  {
    if crash then Crashed(WrapUpdated(k, r)) else FloorRaised(WrapUpdated(k, r), r.revision)
  }

  /** The account row keeps its floor when the account is signed in again. */
  function AccountSet(k: Kept, maxRev: int): Kept {
    if k.maxHeaderRev.Some? then k else k.(maxHeaderRev := Some(maxRev))
  }

  function Next(k: Kept, step: Step): Kept {
    match step
    case Adopt(remote, crash) => if Adopts(k, remote) then Taken(k, remote.body, crash) else k
    case Unlock(prepared, since, opens, crash) =>
      if !Unlocks(k, prepared, since) then k
      else if crash then Taken(k, prepared, true)
      else Taken(k, prepared, false).(unlocked := opens)
    case Rekey(ticket, rekeyed, revision, crash) =>
      if Rekeys(k, ticket, revision) then Taken(k, rekeyed.(revision := revision), crash) else k
    case Create(prepared, maxRev, crash) =>
      if k.unlocked || k.header.Some? || !prepared.scheme.AccountBound? then k
      else if crash || prepared.revision >= TWO_63 then AccountSet(k, maxRev)
      else AccountSet(k, maxRev).(header := Some(prepared), unlocked := true)
    case SignInAgain(maxRev) => AccountSet(k, maxRev)
    case Lock => k.(unlocked := false, epoch := k.epoch + 1)
    case UnlockHere => if k.header.Some? then k.(unlocked := true) else k
  }

  function After(k: Kept, steps: seq<Step>): Kept {
    if steps == [] then k else Next(After(k, steps[..|steps| - 1]), steps[|steps| - 1])
  }

  /** A header, once there, is replaced only by one with a higher revision. */
  predicate MovesOn(k: Kept, l: Kept) {
    && (k.header.Some? ==> l.header.Some? && k.header.value.revision <= l.header.value.revision)
    && (k.header.Some? && k.header != l.header ==> k.header.value.revision < l.header.value.revision)
    && (k.maxHeaderRev.Some? ==> l.maxHeaderRev.Some? && k.maxHeaderRev.value <= l.maxHeaderRev.value)
  }

  lemma NextMovesOn(k: Kept, step: Step)
    requires Stored(k)
    ensures Stored(Next(k, step)) && MovesOn(k, Next(k, step))
  {
  }

  lemma {:induction false} RunMovesOn(k: Kept, steps: seq<Step>)
    requires Stored(k)
    ensures Stored(After(k, steps)) && MovesOn(k, After(k, steps))
  {
    if steps != [] {
      RunMovesOn(k, steps[..|steps| - 1]);
      NextMovesOn(After(k, steps[..|steps| - 1]), steps[|steps| - 1]);
    }
  }

  lemma {:induction false} AfterBoth(k: Kept, a: seq<Step>, b: seq<Step>)
    ensures After(k, a + b) == After(After(k, a), b)
  {
    if b == [] {
      assert a + b == a;
    } else {
      AfterBoth(k, a, b[..|b| - 1]);
      assert (a + b)[..|a + b| - 1] == a + b[..|b| - 1];
    }
  }

  /** Over any run of served headers, logins, password changes, locks and crashes
      between the two statements, a header that was replaced never comes back. */
  lemma {:induction false} ReplacedHeaderNeverReturns(k: Kept, steps: seq<Step>, i: nat, j: nat)
    requires Stored(k) && k.header.Some? && i <= j <= |steps|
    requires After(k, steps[..j]).header == k.header
    ensures After(k, steps[..i]).header == k.header
  {
    assert steps[..j] == steps[..i] + steps[i..j];
    AfterBoth(k, steps[..i], steps[i..j]);
    RunMovesOn(k, steps[..i]);
    RunMovesOn(After(k, steps[..i]), steps[i..j]);
  }

  /** A newer header of this vault is taken as it was written, a crash between the two
      statements included, and from then on neither the old one nor any older comes back. */
  lemma {:induction false} NewerHeaderIsTakenForGood(k: Kept, remote: Record, crash: bool, steps: seq<Step>)
    requires Stored(k) && k.unlocked && k.header.Some? && k.header.value.scheme.AccountBound?
    requires remote.vaultId == k.header.value.vaultId && remote.scheme.AccountBound?
    requires k.header.value.revision < remote.revision < TWO_63
    requires k.maxHeaderRev.Some? ==> k.maxHeaderRev.value < remote.revision
    ensures var (h, l) := (k.header.value, Next(k, Adopt(Readable(remote, true), crash)));
            && l.header == Some(Record(h.format, h.vaultId, remote.wrap, h.createdAt, remote.scheme,
                                       remote.revision))
            && l.maxHeaderRev == (if crash || k.maxHeaderRev.None? then k.maxHeaderRev else Some(remote.revision))
            && l.unlocked == !crash && l.epoch == (if crash then k.epoch + 1 else k.epoch)
            && After(l, steps).header.Some? && After(l, steps).header.value.revision >= remote.revision
  {
    RunMovesOn(Next(k, Adopt(Readable(remote, true), crash)), steps);
  }

  /** A vault is created on a device that holds none, with the floor it already knew, and
      the header it was created with is replaced only by a newer one. */
  lemma {:induction false} CreatedHeaderStays(k: Kept, prepared: Record, maxRev: int, steps: seq<Step>)
    requires Stored(k) && k.header.None? && !k.unlocked && prepared.scheme.AccountBound? && prepared.revision < TWO_63
    ensures Next(k, Create(prepared, maxRev, false)) ==
            Kept(Some(prepared), if k.maxHeaderRev.Some? then k.maxHeaderRev else Some(maxRev), true, k.epoch)
    ensures Next(k, Create(prepared, maxRev, true)) ==
            Kept(None, if k.maxHeaderRev.Some? then k.maxHeaderRev else Some(maxRev), false, k.epoch)
    ensures var l := After(Next(k, Create(prepared, maxRev, false)), steps);
            l.header == Some(prepared) || (l.header.Some? && l.header.value.revision > prepared.revision)
  {
    RunMovesOn(Next(k, Create(prepared, maxRev, false)), steps);
  }

  /** A genuine header at or below any revision this device has known, in its
      header or only in the account row, is refused for good, on both ways in. */
  lemma {:induction false} ReplayIsRefusedForGood(k: Kept, steps: seq<Step>, replayed: Record, attested: bool,
                                                  since: nat)
    requires Stored(k) && k.header.Some? && AsI64(replayed.revision) <= Floor(k)
    ensures !Adopts(After(k, steps), Readable(replayed, attested)) && !Unlocks(After(k, steps), replayed, since)
  {
    RunMovesOn(k, steps);
  }

  /** The cast to a signed revision opens no way around the floor. */
  lemma {:induction false} HugeRevisionsAreRefused(k: Kept, r: Record, attested: bool, since: nat)
    requires Stored(k) && k.header.Some? && r.revision >= TWO_63
    ensures !Adopts(k, Readable(r, attested)) && !Unlocks(k, r, since)
  {
    assert AsI64(r.revision) < 0 <= Floor(k);
  }
}
