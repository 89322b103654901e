/**
 The browser's limits: token buckets, and one password change per item and
 interval. Times are in seconds since some origin, as reals, and rounding is not
 modelled.
 */
module RateLimit {
  import opened Wrappers

  type Time = real

  datatype RequestClass = Lookup | Secret

  // ---------------------------------------------------------------- token bucket

  datatype Tokens = Tokens(tokens: real, last: Option<Time>)

  function Elapsed(last: Time, now: Time): real {
    if now >= last then now - last else 0.0
  }

  function Min(a: real, b: real): real {
    if a <= b then a else b
  }

  function Earned(perSecond: real, elapsed: real): real {
    elapsed * perSecond
  }

  /** The bucket refilled up to `now`, before the request. */
  function Refilled(capacity: real, perSecond: real, b: Tokens, now: Time): real {
    if b.last.Some? then Min(b.tokens + Earned(perSecond, Elapsed(b.last.value, now)), capacity) else b.tokens
  }

  function Taken(capacity: real, perSecond: real, b: Tokens, now: Time): (Tokens, bool) {
    var tokens := Refilled(capacity, perSecond, b, now);
    if tokens >= 1.0 then (Tokens(tokens - 1.0, Some(now)), true) else (Tokens(tokens, Some(now)), false)
  }

  class Bucket {
    const capacity: real
    const perSecond: real
    var tokens: real
    var last: Option<Time>

    constructor (capacity: real, perSecond: real)
      ensures this.capacity == capacity && this.perSecond == perSecond && State() == Tokens(capacity, None)
    {
      this.capacity, this.perSecond := capacity, perSecond;
      tokens, last := capacity, None;
    }

    ghost function State(): Tokens
      reads this
    {
      Tokens(tokens, last)
    }

    method Take(now: Time) returns (allowed: bool)
      modifies this
      ensures (State(), allowed) == Taken(capacity, perSecond, old(State()), now)
      ensures var earned := if old(last).Some? && now > old(last).value then (now - old(last).value) * perSecond
              else 0.0;
              var full := if old(last).Some? && old(tokens) + earned > capacity then capacity else old(tokens) + earned;
              && (allowed <==> full >= 1.0) && tokens == (if allowed then full - 1.0 else full) && last == Some(now)
    {
      if last.Some? {
        tokens := Min(tokens + Earned(perSecond, Elapsed(last.value, now)), capacity);
      }
      assert tokens == Refilled(capacity, perSecond, old(State()), now);
      last := Some(now);
      allowed := tokens >= 1.0;
      if allowed {
        tokens := tokens - 1.0;
      }
    }
  }

  /** The bucket after requests at the given times. */
  function After(capacity: real, perSecond: real, b: Tokens, times: seq<Time>): Tokens {
    if times == [] then b
    else Taken(capacity, perSecond, After(capacity, perSecond, b, times[..|times| - 1]), times[|times| - 1]).0
  }

  /** How many of them are admitted. */
  function Admitted(capacity: real, perSecond: real, b: Tokens, times: seq<Time>): nat {
    if times == [] then 0
    else
      var front := times[..|times| - 1];
      Admitted(capacity, perSecond, b, front) +
      if Taken(capacity, perSecond, After(capacity, perSecond, b, front), times[|times| - 1]).1 then 1 else 0
  }

  predicate Sensible(capacity: real, perSecond: real, b: Tokens) {
    1.0 <= capacity && 0.0 < perSecond && 0.0 <= b.tokens <= capacity
  }

  predicate NonDecreasing(times: seq<Time>) {
    forall i, j :: 0 <= i <= j < |times| ==> times[i] <= times[j]
  }

  /** Tokens that time brings. */
  function Gain(perSecond: real, from: Time, to: Time): real {
    (to - from) * perSecond
  }

  lemma GainAdds(perSecond: real, a: Time, b: Time, c: Time)
    ensures Gain(perSecond, a, b) + Gain(perSecond, b, c) == Gain(perSecond, a, c)
  {
  }

  lemma GainIsPositive(perSecond: real, a: Time, b: Time)
    requires 0.0 < perSecond && a <= b
    ensures Gain(perSecond, a, b) >= 0.0
  {
  }

  /** One request: within bounds, and an admission is paid for. */
  lemma TakePays(capacity: real, perSecond: real, b: Tokens, now: Time)
    requires Sensible(capacity, perSecond, b) && (b.last.Some? ==> b.last.value <= now)
    ensures var (c, allowed) := Taken(capacity, perSecond, b, now);
            && Sensible(capacity, perSecond, c) && c.last == Some(now)
            && (if allowed then 1.0 else 0.0) + c.tokens <=
               b.tokens + (if b.last.Some? then Gain(perSecond, b.last.value, now) else 0.0)
  {
    if b.last.Some? {
      GainIsPositive(perSecond, b.last.value, now);
    }
  }

  function Since(b: Tokens, first: Time): Time {
    if b.last.Some? then b.last.value else first
  }

  /** Over any run the tokens stay within 0 and the capacity, and what is admitted
      is paid for by tokens held at the start and by time passing. */
  lemma {:induction false} TokensPay(capacity: real, perSecond: real, b: Tokens, times: seq<Time>)
    requires Sensible(capacity, perSecond, b) && NonDecreasing(times) && times != []
    requires b.last.Some? ==> b.last.value <= times[0]
    ensures var c := After(capacity, perSecond, b, times);
            && Sensible(capacity, perSecond, c) && c.last == Some(times[|times| - 1])
            && Admitted(capacity, perSecond, b, times) as real + c.tokens <=
               b.tokens + Gain(perSecond, Since(b, times[0]), times[|times| - 1])
  {
    var n := |times| - 1;
    var front := times[..n];
    var c := After(capacity, perSecond, b, front);
    if n == 0 {
      assert front == [];
      assert b.last.None? ==> Gain(perSecond, times[0], times[0]) == 0.0;
    } else {
      TokensPay(capacity, perSecond, b, front);
      GainAdds(perSecond, Since(b, times[0]), times[n - 1], times[n]);
    }
    TakePays(capacity, perSecond, c, times[n]);
  }

  lemma PartsNonDecreasing(before: seq<Time>, window: seq<Time>)
    requires NonDecreasing(before + window)
    ensures NonDecreasing(before) && NonDecreasing(window)
    ensures before != [] && window != [] ==> before[|before| - 1] <= window[0]
  {
    var all := before + window;
    forall i, j | 0 <= i <= j < |before| ensures before[i] <= before[j] {
      assert all[i] <= all[j];
    }
    forall i, j | 0 <= i <= j < |window| ensures window[i] <= window[j] {
      assert all[|before| + i] <= all[|before| + j];
    }
    if before != [] && window != [] {
      assert all[|before| - 1] <= all[|before|];
    }
  }

  /** The first request of a window finds at most a full bucket. */
  lemma FirstOfWindow(capacity: real, perSecond: real, b: Tokens, now: Time)
    requires Sensible(capacity, perSecond, b) && (b.last.Some? ==> b.last.value <= now)
    ensures var (c, allowed) := Taken(capacity, perSecond, b, now);
            (if allowed then 1.0 else 0.0) + c.tokens <= capacity
  {
  }

  /** Counted from the window's own first request, whatever came before. */
  lemma {:induction false} WindowPays(capacity: real, perSecond: real, b: Tokens, window: seq<Time>)
    requires Sensible(capacity, perSecond, b) && NonDecreasing(window) && window != []
    requires b.last.Some? ==> b.last.value <= window[0]
    ensures var c := After(capacity, perSecond, b, window);
            && Sensible(capacity, perSecond, c) && c.last == Some(window[|window| - 1])
            && Admitted(capacity, perSecond, b, window) as real + c.tokens <=
               capacity + Gain(perSecond, window[0], window[|window| - 1])
  {
    var n := |window| - 1;
    var front := window[..n];
    var c := After(capacity, perSecond, b, front);
    if n == 0 {
      assert front == [] && Gain(perSecond, window[0], window[0]) == 0.0;
      FirstOfWindow(capacity, perSecond, b, window[0]);
    } else {
      WindowPays(capacity, perSecond, b, front);
      GainAdds(perSecond, window[0], window[n - 1], window[n]);
    }
    TakePays(capacity, perSecond, c, window[n]);
  }

  /** In any window of a run, the requests admitted number at most the capacity
      plus the rate times the window's length. */
  lemma {:induction false} WindowBound(capacity: real, perSecond: real, b: Tokens, before: seq<Time>, window: seq<Time>,
                                       from: Time, to: Time)
    requires Sensible(capacity, perSecond, b) && b.last.None?
    requires NonDecreasing(before + window) && forall i :: 0 <= i < |window| ==> from <= window[i] <= to
    requires from <= to
    ensures Admitted(capacity, perSecond, After(capacity, perSecond, b, before), window) as real <=
            capacity + Gain(perSecond, from, to)
  {
    PartsNonDecreasing(before, window);
    if before != [] {
      TokensPay(capacity, perSecond, b, before);
    }
    GainIsPositive(perSecond, from, to);
    if window != [] {
      var (first, last) := (window[0], window[|window| - 1]);
      WindowPays(capacity, perSecond, After(capacity, perSecond, b, before), window);
      GainIsPositive(perSecond, from, first);
      GainIsPositive(perSecond, last, to);
      GainAdds(perSecond, from, first, last);
      GainAdds(perSecond, from, last, to);
    }
  }

  lemma OneTokensTime(perSecond: real, gap: real)
    requires 0.0 < perSecond && gap >= 1.0 / perSecond
    ensures gap * perSecond >= 1.0
  {
    var (unit, rest) := (1.0 / perSecond, gap - 1.0 / perSecond);
    assert unit * perSecond == 1.0;
    assert rest * perSecond >= 0.0;
    assert gap * perSecond == unit * perSecond + rest * perSecond;
  }

  /** A request after an idle gap of one token's time is always admitted. */
  lemma {:induction false} IdleRequestIsAdmitted(capacity: real, perSecond: real, b: Tokens, now: Time)
    requires Sensible(capacity, perSecond, b)
    requires b.last.Some? ==> now >= b.last.value + 1.0 / perSecond
    requires b.last.None? ==> b.tokens >= 1.0
    ensures Taken(capacity, perSecond, b, now).1
  {
    if b.last.Some? {
      OneTokensTime(perSecond, now - b.last.value);
      assert Elapsed(b.last.value, now) == now - b.last.value by {
        assert 1.0 / perSecond > 0.0;
      }
    }
  }

  // ---------------------------------------------------------------- what is admitted for certain

  lemma TakeSpendsOne(capacity: real, perSecond: real, b: Tokens, now: Time)
    requires Sensible(capacity, perSecond, b) && b.tokens >= 1.0
    ensures var (c, allowed) := Taken(capacity, perSecond, b, now);
            allowed && c.tokens >= b.tokens - 1.0 && Sensible(capacity, perSecond, c)
  {
    if b.last.Some? && now >= b.last.value {
      GainIsPositive(perSecond, b.last.value, now);
    }
  }

  /** As many requests as the bucket holds whole tokens are admitted, at any times; a
      full bucket takes a burst of its capacity. */
  lemma {:induction false} BurstIsAdmitted(capacity: real, perSecond: real, b: Tokens, times: seq<Time>)
    requires Sensible(capacity, perSecond, b) && |times| as real <= b.tokens
    ensures Admitted(capacity, perSecond, b, times) == |times|
    ensures var c := After(capacity, perSecond, b, times);
            Sensible(capacity, perSecond, c) && c.tokens >= b.tokens - |times| as real
  {
    if times != [] {
      var front := times[..|times| - 1];
      BurstIsAdmitted(capacity, perSecond, b, front);
      TakeSpendsOne(capacity, perSecond, After(capacity, perSecond, b, front), times[|times| - 1]);
    }
  }

  function EarnedBy(perSecond: real, b: Tokens, now: Time): real {
    if b.last.Some? then Gain(perSecond, b.last.value, now) else 0.0
  }

  /** What does not fit the bucket at one refill, and over a run. */
  function SpilledAt(capacity: real, perSecond: real, b: Tokens, now: Time): real {
    var full := b.tokens + EarnedBy(perSecond, b, now);
    if full > capacity then full - capacity else 0.0
  }

  function Spilled(capacity: real, perSecond: real, b: Tokens, times: seq<Time>): real {
    if times == [] then 0.0
    else
      var (front, now) := (times[..|times| - 1], times[|times| - 1]);
      Spilled(capacity, perSecond, b, front) + SpilledAt(capacity, perSecond, After(capacity, perSecond, b, front), now)
  }

  lemma TakeBalances(capacity: real, perSecond: real, b: Tokens, now: Time)
    requires Sensible(capacity, perSecond, b) && (b.last.Some? ==> b.last.value <= now)
    ensures var (c, allowed) := Taken(capacity, perSecond, b, now);
            (if allowed then 1.0 else 0.0) + c.tokens + SpilledAt(capacity, perSecond, b, now) ==
            b.tokens + EarnedBy(perSecond, b, now)
  {
    if b.last.Some? {
      assert Earned(perSecond, Elapsed(b.last.value, now)) == Gain(perSecond, b.last.value, now);
    }
  }

  /** Nothing else is lost: over any run, what was held and earned is what was admitted,
      what is left and what did not fit. */
  lemma {:induction false} TokensBalance(capacity: real, perSecond: real, b: Tokens, times: seq<Time>)
    requires Sensible(capacity, perSecond, b) && NonDecreasing(times) && times != []
    requires b.last.Some? ==> b.last.value <= times[0]
    ensures Admitted(capacity, perSecond, b, times) as real + After(capacity, perSecond, b, times).tokens
            + Spilled(capacity, perSecond, b, times) ==
            b.tokens + Gain(perSecond, Since(b, times[0]), times[|times| - 1])
  {
    var n := |times| - 1;
    var front := times[..n];
    var c := After(capacity, perSecond, b, front);
    if n == 0 {
      assert front == [];
      assert b.last.None? ==> Gain(perSecond, times[0], times[0]) == 0.0;
    } else {
      TokensPay(capacity, perSecond, b, front);
      TokensBalance(capacity, perSecond, b, front);
      GainAdds(perSecond, Since(b, times[0]), times[n - 1], times[n]);
    }
    TakeBalances(capacity, perSecond, c, times[n]);
  }

  // ---------------------------------------------------------------- changes per item

  const ITEM_UPDATE_INTERVAL: real := 600.0

  /** Entries whose interval is over at `now` are forgotten. */
  function Kept(updates: map<ItemId, Time>, now: Time): map<ItemId, Time> {
    updates - set item | item in updates && Elapsed(updates[item], now) >= ITEM_UPDATE_INTERVAL
  }

  /** The entries after asking to reserve `item` at `now`, and whether it may. */
  function Reserved(updates: map<ItemId, Time>, item: ItemId, now: Time): (map<ItemId, Time>, bool) {
    var kept := Kept(updates, now);
    if item in kept then (kept, false) else (kept[item := now], true)
  }

  /** The entries after giving back the reservation made at `at`. */
  function Released(updates: map<ItemId, Time>, item: ItemId, at: Time): map<ItemId, Time> {
    if item in updates && updates[item] == at then updates - {item} else updates
  }

  class RateLimiter {
    const lookup: Bucket
    const secret: Bucket
    var updates: map<ItemId, Time>

    /** Burst of 60, then 5 a second; burst of 10, then one every 2 seconds. */
    constructor ()
      ensures updates == map[] && fresh(lookup) && fresh(secret) && lookup != secret
      ensures lookup.capacity == 60.0 && lookup.perSecond == 5.0 && lookup.State() == Tokens(60.0, None)
      ensures secret.capacity == 10.0 && secret.perSecond == 0.5 && secret.State() == Tokens(10.0, None)
    {
      lookup := new Bucket(60.0, 5.0);
      secret := new Bucket(10.0, 0.5);
      updates := map[];
    }

    /** Spend one token of the request's class; the other bucket is untouched. */
    method Allow(class_: RequestClass, now: Time) returns (allowed: bool)
      requires lookup != secret
      modifies lookup, secret
      ensures var b := if class_.Lookup? then lookup else secret;
              (b.State(), allowed) == Taken(b.capacity, b.perSecond, old(b.State()), now)
      ensures class_.Lookup? ==> secret.State() == old(secret.State())
      ensures class_.Secret? ==> lookup.State() == old(lookup.State())
    {
      match class_
      case Lookup => allowed := lookup.Take(now);
      case Secret => allowed := secret.Take(now);
    }

    /** Reserve `item`'s change if its interval is not running. */
    method AllowItemUpdate(item: ItemId, now: Time) returns (allowed: bool)
      modifies this`updates
      ensures (updates, allowed) == Reserved(old(updates), item, now)
      ensures allowed <==> item in old(updates) ==> now - old(updates)[item] >= ITEM_UPDATE_INTERVAL
      ensures forall other :: other in updates <==>
                (allowed && other == item) || (other in old(updates)
                                               && now - old(updates)[other] < ITEM_UPDATE_INTERVAL)
      ensures forall other <- updates ::
                updates[other] == if allowed && other == item then now else old(updates)[other]
    {
      updates := Kept(updates, now);
      if item in updates {
        return false;
      }
      updates := updates[item := now];
      allowed := true;
    }

    method RecordItemUpdate(item: ItemId, now: Time)
      modifies this`updates
      ensures updates == old(updates)[item := now]
    {
      updates := updates[item := now];
    }

    /** Give back the reservation made at `at`; a later one is left alone. */
    method ReleaseItemUpdate(item: ItemId, at: Time)
      modifies this`updates
      ensures updates == Released(old(updates), item, at)
      ensures forall other :: other in updates <==>
              other in old(updates) && !(other == item && old(updates)[item] == at)
      ensures forall other <- updates :: updates[other] == old(updates)[other]
    {
      if item in updates && updates[item] == at {
        updates := updates - {item};
      }
    }
  }
}
