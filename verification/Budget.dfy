/**
 Password changes from the browser, handled concurrently over one shared limiter.

 A change of an item first asks for the item's reservation. Granted, it runs on
 that reservation and gives it back if it fails. Refused, a login save may still
 go ahead when the user allows it, and then restarts the interval. The limiter's
 calls are atomic; everything else interleaves.
 */
module Budget {
  import opened Wrappers
  import opened RateLimit

  /** A request between its rate-limit check and its outcome. */
  datatype Attempt = OnReservation(item: ItemId, at: Time) | CoolingDown(item: ItemId)

  /** A change that went through, at its recorded time. */
  datatype Change = Change(item: ItemId, at: Time)

  /** `now` is the newest clock reading the limiter has been given. */
  datatype System = System(
    updates: map<ItemId, Time>, attempts: map<nat, Attempt>, done: set<Change>, now: Time)

  datatype Step =
    | SaveLogin(key: nat, item: ItemId, at: Time)
    | SaveSso(key: nat, item: ItemId, at: Time)
    | Succeeds(key: nat, at: Time)
    | Fails(key: nat)

  function Asked(s: System, key: nat, item: ItemId, at: Time, mayAskUser: bool): System {
    var (updates, granted) := Reserved(s.updates, item, at);
    var attempts :=
      if granted then s.attempts[key := OnReservation(item, at)]
      else if mayAskUser then s.attempts[key := CoolingDown(item)]
      else s.attempts;
    s.(updates := updates, attempts := attempts, now := at)
  }

  function Succeeded(s: System, key: nat, at: Time): System
    requires key in s.attempts
  {
    match s.attempts[key]
    case OnReservation(item, reserved) =>
      s.(attempts := s.attempts - {key}, done := s.done + {Change(item, reserved)})
    case CoolingDown(item) =>
      s.(attempts := s.attempts - {key}, done := s.done + {Change(item, at)}, updates := s.updates[item := at],
         now := at)
  }

  function Failed(s: System, key: nat): System
    requires key in s.attempts
  {
    match s.attempts[key]
    case OnReservation(item, at) => s.(attempts := s.attempts - {key}, updates := Released(s.updates, item, at))
    case CoolingDown(_) => s.(attempts := s.attempts - {key})
  }

  /** Each clock reading given to the limiter is newer than all before it. */
  predicate Next(s: System, step: Step, t: System) {
    match step
    case SaveLogin(key, item, at) => key !in s.attempts && s.now < at && t == Asked(s, key, item, at, true)
    case SaveSso(key, item, at) => key !in s.attempts && s.now < at && t == Asked(s, key, item, at, false)
    case Succeeds(key, at) => key in s.attempts && s.now < at && t == Succeeded(s, key, at)
    case Fails(key) => key in s.attempts && t == Failed(s, key)
  }

  predicate Run(run: seq<System>, steps: seq<Step>) {
    && |run| == |steps| + 1
    && run[0].updates == map[] && run[0].attempts == map[] && run[0].done == {}
    && forall i :: 0 <= i < |steps| ==> Next(run[i], steps[i], run[i + 1])
  }

  // ---------------------------------------------------------------- the invariant

  predicate Pending(s: System, key: nat) {
    key in s.attempts && s.attempts[key].OnReservation?
  }

  /** The item's entry still stands for a change at time `at`, or its interval is
      over. */
  predicate Covered(s: System, item: ItemId, at: Time) {
    (item in s.updates && s.updates[item] >= at) || s.now - at >= ITEM_UPDATE_INTERVAL
  }

  ghost predicate Timely(s: System) {
    && (forall item <- s.updates :: s.updates[item] <= s.now)
    && (forall c <- s.done :: c.at <= s.now && Covered(s, c.item, c.at))
    && (forall k :: Pending(s, k) ==> s.attempts[k].at <= s.now && Covered(s, s.attempts[k].item, s.attempts[k].at))
  }

  /** No other attempt and no finished change carries a pending one's time. */
  ghost predicate Unique(s: System) {
    && (forall k, l :: Pending(s, k) && Pending(s, l) && k != l ==> s.attempts[k].at != s.attempts[l].at)
    && (forall k, c :: Pending(s, k) && c in s.done && c.item == s.attempts[k].item ==> c.at != s.attempts[k].at)
  }

  /** A reservation starts an interval after every earlier change of its item,
      finished or still running on a reservation of its own. */
  ghost predicate Spaced(s: System) {
    && (forall k, c :: Pending(s, k) && c in s.done && c.item == s.attempts[k].item && c.at < s.attempts[k].at ==>
          s.attempts[k].at - c.at >= ITEM_UPDATE_INTERVAL)
    && (forall k, l :: Pending(s, k) && Pending(s, l) && s.attempts[l].item == s.attempts[k].item
                       && s.attempts[l].at < s.attempts[k].at ==>
          s.attempts[k].at - s.attempts[l].at >= ITEM_UPDATE_INTERVAL)
  }

  ghost predicate Inv(s: System) {
    Timely(s) && Unique(s) && Spaced(s)
  }

  lemma AskedPending(s: System, key: nat, item: ItemId, at: Time, mayAskUser: bool, k: nat)
    requires key !in s.attempts
    ensures var t := Asked(s, key, item, at, mayAskUser);
            Pending(t, k) <==> (if k == key then Reserved(s.updates, item, at).1 else Pending(s, k))
    ensures k != key && Pending(s, k) ==> Asked(s, key, item, at, mayAskUser).attempts[k] == s.attempts[k]
    ensures Pending(Asked(s, key, item, at, mayAskUser), key) ==>
              Asked(s, key, item, at, mayAskUser).attempts[key] == OnReservation(item, at)
  {
  }

  /** What covered a change before the newer reading covers it after. */
  lemma AskedCovers(s: System, key: nat, item: ItemId, at: Time, mayAskUser: bool, other: ItemId, time: Time)
    requires s.now < at && Covered(s, other, time) && time <= s.now
    requires forall i <- s.updates :: s.updates[i] <= s.now
    ensures Covered(Asked(s, key, item, at, mayAskUser), other, time)
    ensures other == item && Reserved(s.updates, item, at).1 ==> at - time >= ITEM_UPDATE_INTERVAL
  {
  }

  lemma AskedKeepsTimely(s: System, key: nat, item: ItemId, at: Time, mayAskUser: bool)
    requires Timely(s) && key !in s.attempts && s.now < at
    ensures Timely(Asked(s, key, item, at, mayAskUser))
  {
    var t := Asked(s, key, item, at, mayAskUser);
    forall c | c in t.done ensures c.at <= t.now && Covered(t, c.item, c.at) {
      AskedCovers(s, key, item, at, mayAskUser, c.item, c.at);
    }
    forall k | Pending(t, k) ensures t.attempts[k].at <= t.now && Covered(t, t.attempts[k].item, t.attempts[k].at) {
      AskedPending(s, key, item, at, mayAskUser, k);
      if k != key {
        AskedCovers(s, key, item, at, mayAskUser, s.attempts[k].item, s.attempts[k].at);
      }
    }
  }

  lemma AskedKeepsUnique(s: System, key: nat, item: ItemId, at: Time, mayAskUser: bool)
    requires Timely(s) && Unique(s) && key !in s.attempts && s.now < at
    ensures Unique(Asked(s, key, item, at, mayAskUser))
  {
    var t := Asked(s, key, item, at, mayAskUser);
    forall k | Pending(t, k)
      ensures k == key ==> t.attempts[k].at == at
      ensures k != key ==> Pending(s, k) && t.attempts[k] == s.attempts[k]
    {
      AskedPending(s, key, item, at, mayAskUser, k);
    }
  }

  lemma AskedKeepsSpaced(s: System, key: nat, item: ItemId, at: Time, mayAskUser: bool)
    requires Timely(s) && Spaced(s) && key !in s.attempts && s.now < at
    ensures Spaced(Asked(s, key, item, at, mayAskUser))
  {
    var t := Asked(s, key, item, at, mayAskUser);
    forall k, c | Pending(t, k) && c in t.done && c.item == t.attempts[k].item && c.at < t.attempts[k].at
      ensures t.attempts[k].at - c.at >= ITEM_UPDATE_INTERVAL
    {
      AskedPending(s, key, item, at, mayAskUser, k);
      AskedCovers(s, key, item, at, mayAskUser, c.item, c.at);
    }
    forall k, l | Pending(t, k) && Pending(t, l) && t.attempts[l].item == t.attempts[k].item
        && t.attempts[l].at < t.attempts[k].at
      ensures t.attempts[k].at - t.attempts[l].at >= ITEM_UPDATE_INTERVAL
    {
      AskedPending(s, key, item, at, mayAskUser, k);
      AskedPending(s, key, item, at, mayAskUser, l);
      if l != key {
        AskedCovers(s, key, item, at, mayAskUser, s.attempts[l].item, s.attempts[l].at);
      }
    }
  }

  lemma AskedKeepsInv(s: System, key: nat, item: ItemId, at: Time, mayAskUser: bool)
    requires Inv(s) && key !in s.attempts && s.now < at
    ensures Inv(Asked(s, key, item, at, mayAskUser))
  {
    AskedKeepsTimely(s, key, item, at, mayAskUser);
    AskedKeepsUnique(s, key, item, at, mayAskUser);
    AskedKeepsSpaced(s, key, item, at, mayAskUser);
  }

  lemma SucceededKeepsTimely(s: System, key: nat, at: Time)
    requires Timely(s) && key in s.attempts && s.now < at
    ensures Timely(Succeeded(s, key, at))
  {
    var t := Succeeded(s, key, at);
    forall k | Pending(t, k) ensures Pending(s, k) && t.attempts[k] == s.attempts[k] {}
    assert Pending(s, key) ==> Covered(s, s.attempts[key].item, s.attempts[key].at);
  }

  /** A finished change is either the pending one that succeeded, or newer than
      every reading so far. */
  lemma SucceededDone(s: System, key: nat, at: Time, c: Change)
    requires key in s.attempts && c in Succeeded(s, key, at).done
    ensures c in s.done || (Pending(s, key) && c == Change(s.attempts[key].item, s.attempts[key].at))
            || (!Pending(s, key) && c == Change(s.attempts[key].item, at))
  {
  }

  lemma SucceededPending(s: System, key: nat, at: Time, k: nat)
    requires key in s.attempts
    ensures Pending(Succeeded(s, key, at), k) ==>
            Pending(s, k) && k != key && Succeeded(s, key, at).attempts[k] == s.attempts[k]
  {
  }

  lemma SucceededKeepsApart(s: System, key: nat, at: Time)
    requires Timely(s) && Unique(s) && Spaced(s) && key in s.attempts && s.now < at
    ensures Unique(Succeeded(s, key, at)) && Spaced(Succeeded(s, key, at))
  {
    var t := Succeeded(s, key, at);
    forall k, c | Pending(t, k) && c in t.done && c.item == t.attempts[k].item
      ensures c.at != t.attempts[k].at && (c.at < t.attempts[k].at ==> t.attempts[k].at - c.at >= ITEM_UPDATE_INTERVAL)
    {
      SucceededPending(s, key, at, k);
      SucceededDone(s, key, at, c);
    }
    forall k, l | Pending(t, k) && Pending(t, l)
      ensures Pending(s, k) && Pending(s, l) && t.attempts[k] == s.attempts[k] && t.attempts[l] == s.attempts[l]
    {
      SucceededPending(s, key, at, k);
      SucceededPending(s, key, at, l);
    }
  }

  lemma SucceededKeepsInv(s: System, key: nat, at: Time)
    requires Inv(s) && key in s.attempts && s.now < at
    ensures Inv(Succeeded(s, key, at))
  {
    SucceededKeepsTimely(s, key, at);
    SucceededKeepsApart(s, key, at);
  }

  lemma FailedKeepsInv(s: System, key: nat)
    requires Inv(s) && key in s.attempts
    ensures Inv(Failed(s, key))
  {
    var t := Failed(s, key);
    forall k | Pending(t, k) ensures Pending(s, k) && k != key && t.attempts[k] == s.attempts[k] {}
  }

  lemma NextKeepsInv(s: System, step: Step, t: System)
    requires Inv(s) && Next(s, step, t)
    ensures Inv(t)
  {
    match step
    case SaveLogin(key, item, at) => AskedKeepsInv(s, key, item, at, true);
    case SaveSso(key, item, at) => AskedKeepsInv(s, key, item, at, false);
    case Succeeds(key, at) => SucceededKeepsInv(s, key, at);
    case Fails(key) => FailedKeepsInv(s, key);
  }

  /** In every state of every run, each change running on a reservation started at
      least an interval after every earlier change of its item that went through. */
  lemma {:induction false} ReservationsAreSpaced(run: seq<System>, steps: seq<Step>, n: nat)
    requires Run(run, steps) && n < |run|
    ensures Inv(run[n])
    ensures forall k, c :: Pending(run[n], k) && c in run[n].done && c.item == run[n].attempts[k].item
                           && c.at < run[n].attempts[k].at ==>
              run[n].attempts[k].at >= c.at + ITEM_UPDATE_INTERVAL
  {
    if n > 0 {
      ReservationsAreSpaced(run, steps, n - 1);
      assert Next(run[n - 1], steps[n - 1], run[n - 1 + 1]);
      NextKeepsInv(run[n - 1], steps[n - 1], run[n]);
    }
  }

  /** A failure takes away no entry but its own reservation's: any other change,
      running or done, keeps its cover. */
  lemma {:induction false} ReleaseErasesOnlyItsOwn(run: seq<System>, steps: seq<Step>, n: nat)
    requires Run(run, steps) && n < |steps| && steps[n].Fails?
    ensures var s, t, mine := run[n], run[n + 1], run[n].attempts[steps[n].key];
            && (forall item :: item in s.updates && item !in t.updates ==>
                  mine == OnReservation(item, s.updates[item])
                  && (forall k :: Pending(s, k) && k != steps[n].key ==> s.attempts[k].at != s.updates[item])
                  && Change(item, s.updates[item]) !in s.done)
            && (forall item :: item in t.updates ==> item in s.updates && t.updates[item] == s.updates[item])
  {
    ReservationsAreSpaced(run, steps, n);
  }

  /** Two reservations of one item are never both granted inside an interval, even
      while the first is still running. */
  lemma {:induction false} NoTwoReservationsAtOnce(s: System, key: nat, other: nat, item: ItemId, at: Time,
                                                   mayAskUser: bool)
    requires Inv(s) && key !in s.attempts && s.now < at
    requires Pending(s, other) && s.attempts[other].item == item && at < s.attempts[other].at + ITEM_UPDATE_INTERVAL
    ensures !Pending(Asked(s, key, item, at, mayAskUser), key)
  {
    assert Covered(s, item, s.attempts[other].at);
  }

  // ---------------------------------------------------------------- what is granted for certain

  /** Every entry is that of a change running on a reservation, or done. */
  ghost predicate Explained(s: System) {
    forall item <- s.updates ::
      (exists k :: Pending(s, k) && s.attempts[k] == OnReservation(item, s.updates[item]))
      || Change(item, s.updates[item]) in s.done
  }

  lemma NextStaysExplained(s: System, step: Step, t: System)
    requires Explained(s) && Next(s, step, t)
    ensures Explained(t)
  {
    forall item | item in t.updates
      ensures (exists k :: Pending(t, k) && t.attempts[k] == OnReservation(item, t.updates[item]))
              || Change(item, t.updates[item]) in t.done
    {
      if item in s.updates && s.updates[item] == t.updates[item] && Change(item, s.updates[item]) !in s.done {
        var k :| Pending(s, k) && s.attempts[k] == OnReservation(item, s.updates[item]);
        if (step.Succeeds? || step.Fails?) && step.key == k {
          assert step.Succeeds? ==> Change(item, s.updates[item]) in t.done;
        } else {
          assert Pending(t, k) && t.attempts[k] == s.attempts[k];
        }
      } else if step.SaveLogin? || step.SaveSso? {
        assert (item in s.updates && s.updates[item] == t.updates[item]) || Pending(t, step.key);
      }
    }
  }

  lemma {:induction false} EntriesAreExplained(run: seq<System>, steps: seq<Step>, n: nat)
    requires Run(run, steps) && n < |run|
    ensures Explained(run[n])
  {
    if n > 0 {
      EntriesAreExplained(run, steps, n - 1);
      assert Next(run[n - 1], steps[n - 1], run[n - 1 + 1]);
      NextStaysExplained(run[n - 1], steps[n - 1], run[n]);
    }
  }

  /** In every state of every run a change of an item is granted its reservation exactly
      when an interval has passed since every change of it that went through, and since
      every one still running on a reservation: no refusal and no failure puts it off. */
  lemma {:induction false} GrantedExactly(run: seq<System>, steps: seq<Step>, n: nat, item: ItemId, at: Time)
    requires Run(run, steps) && n < |run| && run[n].now < at
    ensures var s := run[n];
            Reserved(s.updates, item, at).1 <==>
            && (forall c <- s.done :: c.item == item ==> at - c.at >= ITEM_UPDATE_INTERVAL)
            && (forall k :: Pending(s, k) && s.attempts[k].item == item ==>
                at - s.attempts[k].at >= ITEM_UPDATE_INTERVAL)
  {
    var s := run[n];
    ReservationsAreSpaced(run, steps, n);
    EntriesAreExplained(run, steps, n);
    if Reserved(s.updates, item, at).1 {
      forall c | c in s.done && c.item == item ensures at - c.at >= ITEM_UPDATE_INTERVAL {
        assert Covered(s, item, c.at);
      }
      forall k | Pending(s, k) && s.attempts[k].item == item ensures at - s.attempts[k].at >= ITEM_UPDATE_INTERVAL {
        assert Covered(s, item, s.attempts[k].at);
      }
    }
  }

  // ---------------------------------------------------------------- what is under way and what is done

  /** The save goes ahead: on its reservation or, for a login, because the user may be
      asked. */
  predicate GoesAhead(s: System, step: Step) {
    step.SaveLogin? || (step.SaveSso? && Reserved(s.updates, step.item, step.at).1)
  }

  /** The last of the first `n` steps for the key is step `i`. */
  predicate LastFor(steps: seq<Step>, n: nat, i: nat, key: nat)
    requires n <= |steps|
  {
    i < n && steps[i].key == key && forall j :: i < j < n ==> steps[j].key != key
  }

  /** The change that a step put through, at the time it is recorded with: that of its
      reservation, or without one that of the step. */
  predicate PutThrough(s: System, step: Step, c: Change) {
    && step.Succeeds? && step.key in s.attempts && c.item == s.attempts[step.key].item
    && c.at == match s.attempts[step.key] case OnReservation(_, at) => at case CoolingDown(_) => step.at
  }

  /** A change is under way exactly when the last step for its key is a save that went
      ahead; done are exactly the changes that were put through. */
  lemma {:induction false} UnderWayAndDone(run: seq<System>, steps: seq<Step>, n: nat)
    requires Run(run, steps) && n < |run|
    ensures forall key :: key in run[n].attempts <==>
                          exists i: nat :: LastFor(steps, n, i, key) && GoesAhead(run[i], steps[i])
    ensures forall c :: c in run[n].done <==> exists i: nat :: i < n && PutThrough(run[i], steps[i], c)
  {
    if n > 0 {
      UnderWayAndDone(run, steps, n - 1);
      assert Next(run[n - 1], steps[n - 1], run[n - 1 + 1]);
      forall key
        ensures key in run[n].attempts <==>
                exists i: nat :: LastFor(steps, n, i, key) && GoesAhead(run[i], steps[i])
      {
        UnderWayNext(run, steps, n, key);
      }
      forall c ensures c in run[n].done <==> exists i: nat :: i < n && PutThrough(run[i], steps[i], c) {
        DoneNext(run[n - 1], steps[n - 1], run[n], c);
      }
    }
  }

  lemma DoneNext(s: System, step: Step, t: System, c: Change)
    requires Next(s, step, t)
    ensures c in t.done <==> c in s.done || PutThrough(s, step, c)
  {
  }

  lemma UnderWayNext(run: seq<System>, steps: seq<Step>, n: nat, key: nat)
    requires 0 < n < |run| == |steps| + 1 && Next(run[n - 1], steps[n - 1], run[n])
    requires key in run[n - 1].attempts <==>
             exists i: nat :: LastFor(steps, n - 1, i, key) && GoesAhead(run[i], steps[i])
    ensures key in run[n].attempts <==> exists i: nat :: LastFor(steps, n, i, key) && GoesAhead(run[i], steps[i])
  {
    if steps[n - 1].key == key {
      assert LastFor(steps, n, n - 1, key);
    } else {
      forall i: nat ensures LastFor(steps, n, i, key) <==> LastFor(steps, n - 1, i, key) {
      }
    }
  }

  // ---------------------------------------------------------------- stale readings

  /** Every reservation granted at reading `at`, in a state whose newest reading is
      `now`, is an interval away from every change of its item that went through. */
  ghost predicate AlwaysSpaced(now: Time, at: Time) {
    forall s: System, item: ItemId, c: Change ::
      Inv(s) && s.now == now && Reserved(s.updates, item, at).1 && c in s.done && c.item == item ==>
        at - c.at >= ITEM_UPDATE_INTERVAL
  }

  /** The clock is read before the limiter is locked, so a reading can be old by
      the time it is used. The promise holds exactly for readings no older than
      the newest one the limiter has seen. */
  lemma {:induction false} SpacedExactlyWhenFresh(now: Time, at: Time)
    ensures AlwaysSpaced(now, at) <==> now <= at
  {
    if now <= at {
      forall s: System, item: ItemId, c: Change |
        Inv(s) && s.now == now && Reserved(s.updates, item, at).1 && c in s.done && c.item == item
        ensures at - c.at >= ITEM_UPDATE_INTERVAL
      {
        assert Covered(s, c.item, c.at);
      }
    } else {
      var c := Change(0, now - ITEM_UPDATE_INTERVAL);
      var s := System(map[], map[], {c}, now);
      assert Inv(s) && Reserved(s.updates, 0, at).1 && c in s.done;
    }
  }

  /** A run that gets there: another item's request, at 600, ends the interval of
      the change made at 0, and a request that read the clock at 599 is granted. */
  lemma {:induction false} StaleReadingComesTooSoon() returns (run: seq<System>, steps: seq<Step>)
    ensures Run(run, steps) && steps == [SaveLogin(1, 0, 0.0), Succeeds(1, 1.0), SaveLogin(2, 5, 600.0)]
    ensures var s := run[|run| - 1];
            && Change(0, 0.0) in s.done && s.now == 600.0
            && Reserved(s.updates, 0, 599.0).1 && 599.0 - 0.0 < ITEM_UPDATE_INTERVAL
  {
    var start := System(map[], map[], {}, -1.0);
    var asked := Asked(start, 1, 0, 0.0, true);
    var done := Succeeded(asked, 1, 1.0);
    steps := [SaveLogin(1, 0, 0.0), Succeeds(1, 1.0), SaveLogin(2, 5, 600.0)];
    run := [start, asked, done, Asked(done, 2, 5, 600.0, true)];
    assert asked.updates == map[0 := 0.0] && done.attempts == map[];
  }
}
