/**
 The client's server session across locks, unlocks and slow logins.

 A lock is two steps: the vault locks (and its epoch moves on), then the session
 is dropped. A login runs for seconds without any lock held and carries the epoch
 it started from; whoever finishes it checks that epoch under the vault lock. The
 client is a class changed step by step; the protocol is a state machine over
 those steps in any interleaving.
 */
module Sessions {
  import opened Wrappers

  const WRAP: int := 0x1_0000_0000_0000_0000

  type Epoch = e: int | 0 <= e < WRAP

  function NextEpoch(e: Epoch): Epoch {
    (e + 1) % WRAP
  }

  datatype VaultState = Locked | Unlocking | Unlocked

  /** A token, the epoch its login started from, and (for the proofs) how many
      locks there had been by then. */
  datatype Session = Session(token: nat, epoch: Epoch, since: nat)

  datatype Connectivity = Offline | Online(session: Session) | Unreachable(session: Session)

  /** `locks` counts every vault lock; `pending` counts lock calls that have locked
      the vault and not yet dropped the session. */
  datatype Client = Client(vault: VaultState, epoch: Epoch, conn: Connectivity, locks: nat, pending: nat)

  predicate Holds(c: Client) {
    !c.conn.Offline?
  }

  // ---------------------------------------------------------------- one step each

  function VaultLocked(c: Client): Client {
    c.(vault := Locked, epoch := NextEpoch(c.epoch), locks := c.locks + 1)
  }

  function LockStarted(c: Client): Client {
    VaultLocked(c).(pending := c.pending + 1)
  }

  function LockFinished(c: Client): Client
    requires c.pending > 0
  {
    c.(conn := Offline, pending := c.pending - 1)
  }

  function MarkedUnreachable(c: Client): Client {
    if c.conn.Online? then c.(conn := Unreachable(c.conn.session)) else c
  }

  function MarkedReachable(c: Client): Client {
    if c.conn.Unreachable? then c.(conn := Online(c.conn.session)) else c
  }

  function WentOffline(c: Client): Client {
    c.(conn := Offline)
  }

  /** A login that started at `s.epoch` finishes: a lock meanwhile wins. */
  function LoginFinished(c: Client, s: Session): Client {
    if c.vault.Unlocked? && c.epoch == s.epoch then c.(conn := Online(s)) else c
  }

  /** The fallback unlock against the server's header finishes. `adopted` says the
      header passed every check, `opens` that the opened vault could be read. */
  function FallbackFinished(c: Client, s: Session, adopted: bool, opens: bool): Client {
    if !c.vault.Locked? || c.epoch != s.epoch || !adopted then c
    else if !opens then VaultLocked(c.(vault := Unlocked))
    else c.(vault := Unlocked, conn := Online(s))
  }

  /** The vault is swapped for another store: locked, with no session dropped. */
  function StoreReplaced(c: Client): Client {
    VaultLocked(c)
  }

  // ---------------------------------------------------------------- the client object

  class HavenClient {
    var vault: VaultState
    var epoch: Epoch
    var connectivity: Connectivity
    ghost var locks: nat
    ghost var pending: nat

    constructor ()
      ensures State() == Client(Locked, 0, Offline, 0, 0)
    {
      vault, epoch, connectivity := Locked, 0, Offline;
      locks, pending := 0, 0;
    }

    ghost function State(): Client
      reads this
    {
      Client(vault, epoch, connectivity, locks, pending)
    }

    /** First half of `lock`. Returns whether the vault was open. */
    method LockVault() returns (wasOpen: bool)
      modifies this
      ensures State() == LockStarted(old(State())) && wasOpen == !old(vault).Locked?
      ensures vault == Locked && epoch == (if old(epoch) + 1 == WRAP then 0 else old(epoch) + 1)
              && connectivity == old(connectivity)
    {
      wasOpen := vault != Locked;
      vault := Locked;
      epoch := if epoch + 1 == WRAP then 0 else epoch + 1;
      locks, pending := locks + 1, pending + 1;
    }

    /** Second half of `lock`, after `LockVault`. */
    method DropAfterLock() returns (held: bool, shownOnline: bool)
      requires pending > 0
      modifies this
      ensures State() == LockFinished(old(State()))
      ensures connectivity == Offline && vault == old(vault) && epoch == old(epoch)
      ensures held == !old(connectivity).Offline? && shownOnline == old(connectivity).Online?
    {
      held, shownOnline := DropSession();
      pending := pending - 1;
    }

    method DropSession() returns (held: bool, shownOnline: bool)
      modifies this
      ensures State() == WentOffline(old(State()))
      ensures connectivity == Offline && vault == old(vault) && epoch == old(epoch)
      ensures held == !old(connectivity).Offline? && shownOnline == old(connectivity).Online?
    {
      match connectivity {
        case Online(_) => held, shownOnline := true, true;
        case Unreachable(_) => held, shownOnline := true, false;
        case Offline => held, shownOnline := false, false;
      }
      connectivity := Offline;
    }

    /** The part of a removal that swaps the vault's store. */
    method ReplaceStore()
      modifies this
      ensures State() == StoreReplaced(old(State()))
      ensures vault == Locked && epoch == (if old(epoch) + 1 == WRAP then 0 else old(epoch) + 1)
              && connectivity == old(connectivity)
    {
      vault := Locked;
      epoch := if epoch + 1 == WRAP then 0 else epoch + 1;
      locks := locks + 1;
    }

    method MarkUnreachable() returns (changed: bool)
      modifies this
      ensures State() == MarkedUnreachable(old(State())) && changed == old(connectivity).Online?
      ensures connectivity == if changed then Unreachable(old(connectivity).session) else old(connectivity)
      ensures vault == old(vault) && epoch == old(epoch)
    {
      changed := connectivity.Online?;
      if changed {
        connectivity := Unreachable(connectivity.session);
      }
    }

    method MarkReachable() returns (changed: bool)
      modifies this
      ensures State() == MarkedReachable(old(State())) && changed == old(connectivity).Unreachable?
      ensures connectivity == if changed then Online(old(connectivity).session) else old(connectivity)
      ensures vault == old(vault) && epoch == old(epoch)
    {
      changed := connectivity.Unreachable?;
      if changed {
        connectivity := Online(connectivity.session);
      }
    }

    method BeginUnlock() returns (ticket: Option<Epoch>)
      modifies this
      ensures ticket.Some? <==> old(vault).Locked?
      ensures State() == if ticket.Some? then old(State()).(vault := Unlocking) else old(State())
      ensures ticket.Some? ==> ticket.value == epoch
    {
      if vault != Locked {
        return None;
      }
      vault := Unlocking;
      ticket := Some(epoch);
    }

    /** `opens`: the derived key opened the vault. */
    method FinishUnlock(ticket: Epoch, opens: bool) returns (unlocked: bool)
      modifies this
      ensures State() == UnlockFinished(old(State()), ticket, opens)
      ensures unlocked == (opens && old(vault).Unlocking? && old(epoch) == ticket)
      ensures vault == if unlocked then Unlocked
                       else if old(vault).Unlocking? && old(epoch) == ticket then Locked else old(vault)
      ensures epoch == old(epoch) && connectivity == old(connectivity)
    {
      if vault != Unlocking || ticket != epoch {
        return false;
      }
      vault := if opens then Unlocked else Locked;
      unlocked := opens;
    }

    /** `connect` and a finished sign-in, under the vault lock. */
    method FinishLogin(session: Session) returns (online: bool)
      modifies this
      ensures State() == LoginFinished(old(State()), session)
      ensures online == (old(vault).Unlocked? && old(epoch) == session.epoch)
      ensures connectivity == if online then Online(session) else old(connectivity)
      ensures vault == old(vault) && epoch == old(epoch)
    {
      online := vault == Unlocked && epoch == session.epoch;
      if online {
        connectivity := Online(session);
      }
    }

    /** The adoption step of the fallback unlock, under the vault lock. */
    method FinishFallback(session: Session, adopted: bool, opens: bool) returns (online: bool)
      modifies this
      ensures State() == FallbackFinished(old(State()), session, adopted, opens)
      ensures online <==> old(vault).Locked? && old(epoch) == session.epoch && adopted && opens
      ensures online ==> vault == Unlocked && connectivity == Online(session) && epoch == old(epoch)
      ensures old(vault).Locked? && old(epoch) == session.epoch && adopted && !opens ==>
                vault == Locked && epoch == (if old(epoch) + 1 == WRAP then 0 else old(epoch) + 1)
                    && connectivity == old(connectivity)
      ensures !old(vault).Locked? || old(epoch) != session.epoch || !adopted ==>
                vault == old(vault) && epoch == old(epoch) && connectivity == old(connectivity)
    {
      if vault != Locked || epoch != session.epoch || !adopted {
        return false;
      }
      vault := Unlocked;
      if !opens {
        vault := Locked;
        epoch := if epoch + 1 == WRAP then 0 else epoch + 1;
        locks := locks + 1;
        return false;
      }
      connectivity := Online(session);
      online := true;
    }
  }

  function UnlockFinished(c: Client, ticket: Epoch, opens: bool): Client {
    if !c.vault.Unlocking? || ticket != c.epoch then c
    else c.(vault := if opens then Unlocked else Locked)
  }

  // ---------------------------------------------------------------- the protocol

  datatype Login = Connecting(session: Session) | Fallback(session: Session)

  /** Logins and unlocks in flight, each under its own key. */
  datatype System = System(client: Client, logins: map<nat, Login>, tickets: map<nat, Epoch>)

  datatype Step =
    | BeginUnlock(key: nat)
    | FinishUnlock(key: nat, opens: bool)
    | FallBack(key: nat, token: nat)           // the local unlock failed: ask the server
    | UnlockWithBundle
    | CreateVault(key: nat, token: nat)        // sign-in: the new vault opens unlocked
    | StartConnect(key: nat, token: nat)
    | FinishLogin(key: nat)
    | FinishFallback(key: nat, adopted: bool, opens: bool)
    | LoginFails(key: nat)
    | LockVault
    | DropSession
    | MarkUnreachable
    | MarkReachable
    | GoOffline
    | ReplaceStore                             // a device removal, after its own lock

  function NewSession(c: Client, token: nat): Session {
    Session(token, c.epoch, c.locks)
  }

  predicate Next(s: System, step: Step, t: System) {
    var c := s.client;
    match step
    case BeginUnlock(k) =>
      && c.vault.Locked? && k !in s.tickets
      && t == s.(client := c.(vault := Unlocking), tickets := s.tickets[k := c.epoch])
    case FinishUnlock(k, opens) =>
      k in s.tickets && t == s.(client := UnlockFinished(c, s.tickets[k], opens), tickets := s.tickets - {k})
    case FallBack(k, token) =>
      k !in s.logins && t == s.(logins := s.logins[k := Fallback(NewSession(c, token))])
    case UnlockWithBundle =>
      c.vault.Locked? && t == s.(client := c.(vault := Unlocked))
    case CreateVault(k, token) =>
      c.vault.Locked? && k !in s.logins
      && t == s.(client := c.(vault := Unlocked), logins := s.logins[k := Connecting(NewSession(c, token))])
    case StartConnect(k, token) =>
      c.vault.Unlocked? && k !in s.logins && t == s.(logins := s.logins[k := Connecting(NewSession(c, token))])
    case FinishLogin(k) =>
      k in s.logins && s.logins[k].Connecting?
      && t == s.(client := LoginFinished(c, s.logins[k].session), logins := s.logins - {k})
    case FinishFallback(k, adopted, opens) =>
      k in s.logins && s.logins[k].Fallback?
      && t == s.(client := FallbackFinished(c, s.logins[k].session, adopted, opens), logins := s.logins - {k})
    case LoginFails(k) => t == s.(logins := s.logins - {k})
    case LockVault => t == s.(client := LockStarted(c))
    case DropSession => c.pending > 0 && t == s.(client := LockFinished(c))
    case MarkUnreachable => t == s.(client := MarkedUnreachable(c))
    case MarkReachable => t == s.(client := MarkedReachable(c))
    case GoOffline => t == s.(client := WentOffline(c))
    case ReplaceStore => t == s.(client := StoreReplaced(c))
  }

  const START := System(Client(Locked, 0, Offline, 0, 0), map[], map[])

  predicate Run(run: seq<System>, steps: seq<Step>) {
    && |run| == |steps| + 1 && run[0] == START
    && forall i :: 0 <= i < |steps| ==> Next(run[i], steps[i], run[i + 1])
  }

  // ---------------------------------------------------------------- the claim

  /** With no lock call half done, a held session belongs to an unlocked vault and
      to its current epoch. */
  predicate Safe(c: Client) {
    c.pending == 0 && Holds(c) ==> c.vault.Unlocked? && c.conn.session.epoch == c.epoch
  }

  predicate Counted(c: Client, s: Session) {
    s.since <= c.locks && s.epoch == s.since % WRAP
  }

  predicate Inv(s: System) {
    && Safe(s.client)
    && s.client.epoch == s.client.locks % WRAP
    && (Holds(s.client) ==> Counted(s.client, s.client.conn.session))
    && (forall k <- s.logins :: Counted(s.client, s.logins[k].session))
  }

  lemma NextEpochCounts(locks: nat)
    ensures NextEpoch(locks % WRAP) == (locks + 1) % WRAP
  {
  }

  /** A store is swapped only with no session held, or some lock call still to drop it. */
  predicate SwapsSafely(s: System, step: Step) {
    step.ReplaceStore? ==> !Holds(s.client) || s.client.pending > 0
  }

  /** Every step keeps the invariant, but a swap that strands the session held. */
  lemma {:induction false} NextKeepsInv(s: System, step: Step, t: System)
    requires Inv(s) && Next(s, step, t)
    ensures Inv(t) <==> SwapsSafely(s, step)
  {
    NextEpochCounts(s.client.locks);
  }

  /** In every state of every run whose swaps are safe, with no lock call half done, a
      held session implies an unlocked vault and the vault's current epoch. If fewer
      than 2^64 locks happened since its login started, none happened. */
  lemma {:induction false} HeldSessionIsCurrent(run: seq<System>, steps: seq<Step>, n: nat)
    requires Run(run, steps) && n < |run| && forall i :: 0 <= i < n ==> SwapsSafely(run[i], steps[i])
    ensures Inv(run[n])
    ensures var c := run[n].client;
            c.pending == 0 && Holds(c) ==>
              && c.vault.Unlocked? && c.conn.session.epoch == c.epoch
              && (c.locks - c.conn.session.since < WRAP ==> c.conn.session.since == c.locks)
  {
    if n > 0 {
      HeldSessionIsCurrent(run, steps, n - 1);
      NextKeepsInv(run[n - 1], steps[n - 1], run[n]);
    }
    var c := run[n].client;
    if c.pending == 0 && Holds(c) && c.locks - c.conn.session.since < WRAP {
      SameRemainder(c.conn.session.since, c.locks);
    }
  }

  lemma SameRemainder(a: nat, b: nat)
    requires a <= b && b - a < WRAP && a % WRAP == b % WRAP
    ensures a == b
  {
  }

  /** What a finished login comes to, told by whether the vault was locked since it
      started, with fewer than 2^64 locks in between. A connect or sign-in goes online if
      it was not and the vault is open, a fallback unlock opens a vault that is still
      locked and goes online, or locks again what it could open but not read; any other
      login changes nothing. */
  lemma {:induction false} LoginsEndExactly(run: seq<System>, steps: seq<Step>, n: nat)
    requires Run(run, steps) && n < |steps| && forall i :: 0 <= i < n ==> SwapsSafely(run[i], steps[i])
    requires steps[n].FinishLogin? || steps[n].FinishFallback?
    requires var s := run[n];
             steps[n].key in s.logins && s.client.locks - s.logins[steps[n].key].session.since < WRAP
    ensures var (c, d, session) := (run[n].client, run[n + 1].client, run[n].logins[steps[n].key].session);
            var current := session.since == c.locks;
            match steps[n]
            case FinishLogin(_) => d == if current && c.vault.Unlocked? then c.(conn := Online(session)) else c
            case FinishFallback(_, adopted, opens) =>
              d == if !current || !c.vault.Locked? || !adopted then c
                   else if opens then c.(vault := Unlocked, conn := Online(session))
                   else c.(epoch := (c.locks + 1) % WRAP, locks := c.locks + 1)
            case _ => true
  {
    HeldSessionIsCurrent(run, steps, n);
    var (c, session) := (run[n].client, run[n].logins[steps[n].key].session);
    assert Next(run[n], steps[n], run[n + 1]) && Counted(c, session);
    NextEpochCounts(c.locks);
    if session.epoch == c.epoch {
      SameRemainder(session.since, c.locks);
    }
  }

  // ---------------------------------------------------------------- swapping the store

  /** A removal locks first, but an unlock and a sign-in can slip in before it
      replaces the store: the device is then online with a locked vault. */
  lemma {:induction false} RemovalCanStrandASession() returns (run: seq<System>, steps: seq<Step>)
    ensures Run(run, steps) && |steps| == 8
    ensures steps[2..4] == [LockVault, Step.DropSession]   // the removal's own lock call
    ensures steps[7] == ReplaceStore && forall i :: 0 <= i < 8 ==> (SwapsSafely(run[i], steps[i]) <==> i < 7)
    ensures var c := run[8].client; c.vault.Locked? && c.pending == 0 && Holds(c)
  {
    var s1, s2 := Session(1, 0, 0), Session(2, 1, 1);
    steps := [CreateVault(1, 1), FinishLogin(1), LockVault, Step.DropSession,
              UnlockWithBundle, StartConnect(1, 2), FinishLogin(1), ReplaceStore];
    run := [START,
            System(Client(Unlocked, 0, Offline, 0, 0), map[1 := Connecting(s1)], map[]),
            System(Client(Unlocked, 0, Online(s1), 0, 0), map[], map[]),
            System(Client(Locked, 1, Online(s1), 1, 1), map[], map[]),
            System(Client(Locked, 1, Offline, 1, 0), map[], map[]),
            System(Client(Unlocked, 1, Offline, 1, 0), map[], map[]),
            System(Client(Unlocked, 1, Offline, 1, 0), map[1 := Connecting(s2)], map[]),
            System(Client(Unlocked, 1, Online(s2), 1, 0), map[], map[]),
            System(Client(Locked, 2, Online(s2), 2, 0), map[], map[])];
    assert run[1].logins - {1} == map[] && run[6].logins - {1} == map[];
  }

  // ---------------------------------------------------------------- the epoch comes round

  const SLOW_LOGIN := Session(1, 0, 0)

  /** A login is under way since the first unlock; `n` locks later. */
  function LockedTimes(n: nat): System {
    System(Client(if n == 0 then Unlocked else Locked, n % WRAP, Offline, n, 0), map[1 := Connecting(SLOW_LOGIN)],
           map[])
  }

  lemma RunGrows(run: seq<System>, steps: seq<Step>, step: Step, t: System)
    requires Run(run, steps) && Next(run[|steps|], step, t)
    ensures Run(run + [t], steps + [step])
  {
  }

  lemma {:induction false} LockedOver(n: nat) returns (run: seq<System>, steps: seq<Step>)
    ensures Run(run, steps) && run[|steps|] == LockedTimes(n) && forall i :: 0 <= i < |steps| ==>
            !steps[i].ReplaceStore?
  {
    if n == 0 {
      var open := START.(client := START.client.(vault := Unlocked));
      run, steps := [START, open, LockedTimes(0)], [UnlockWithBundle, StartConnect(1, 1)];
    } else {
      run, steps := LockedOver(n - 1);
      NextEpochCounts(n - 1);
      var locked := LockedTimes(n).(client := LockStarted(LockedTimes(n - 1).client));
      RunGrows(run, steps, LockVault, locked);
      run, steps := run + [locked], steps + [LockVault];
      RunGrows(run, steps, Step.DropSession, LockedTimes(n));
      run, steps := run + [LockedTimes(n)], steps + [Step.DropSession];
    }
  }

  /** After exactly 2^64 locks a login that started before the first of them is let
      in as current. */
  lemma {:induction false} EpochComesRound() returns (run: seq<System>, steps: seq<Step>)
    ensures Run(run, steps) && forall i :: 0 <= i < |steps| ==> !steps[i].ReplaceStore?
    ensures var c := run[|steps|].client;
            c.pending == 0 && Holds(c) && c.conn.session == SLOW_LOGIN && c.conn.session.since == 0 && c.locks == WRAP
  {
    run, steps := LockedOver(WRAP);
    var open := LockedTimes(WRAP).(client := LockedTimes(WRAP).client.(vault := Unlocked));
    RunGrows(run, steps, UnlockWithBundle, open);
    run, steps := run + [open], steps + [UnlockWithBundle];
    var online := open.(client := LoginFinished(open.client, SLOW_LOGIN), logins := open.logins - {1});
    RunGrows(run, steps, FinishLogin(1), online);
    run, steps := run + [online], steps + [FinishLogin(1)];
  }
}
