/**
 The password generator: one character of every enabled class, the rest from
 the whole alphabet, then a Fisher-Yates shuffle in place. The random source is
 arbitrary: `sample(k, n)` is the answer to the k-th request, below n.
 */
module Generator {
  import opened Wrappers

  const MIN_LENGTH: nat := 8
  const MAX_LENGTH: nat := 128
  const UPPER: string := "ABCDEFGHIJKLMNOPQRSTUVWXYZ"
  const LOWER: string := "abcdefghijklmnopqrstuvwxyz"
  const DIGITS: string := "0123456789"
  const SYMBOLS: string := "!@#$%^&*()-_=+[]{};:,.?/~"
  const AMBIGUOUS: string := "Il1O0o"

  datatype Options = Options(length: nat, uppercase: bool, lowercase: bool, digits: bool, symbols: bool,
                             avoidAmbiguous: bool)

  datatype Refusal = LengthOutOfRange | NoCharacterType

  // ---------------------------------------------------------------- classes

  function Class(chars: string, avoidAmbiguous: bool): (r: string)
    ensures forall c :: c in r <==> c in chars && !(avoidAmbiguous && c in AMBIGUOUS)
  {
    if chars == [] then []
    else if avoidAmbiguous && chars[0] in AMBIGUOUS then Class(chars[1..], avoidAmbiguous)
    else [chars[0]] + Class(chars[1..], avoidAmbiguous)
  }

  function Only(chars: string, avoid: bool, enabled: bool): seq<string> {
    if enabled then [Class(chars, avoid)] else []
  }

  function Classes(o: Options): (r: seq<string>)
    ensures |r| <= 4
  {
    Only(UPPER, o.avoidAmbiguous, o.uppercase)
    + Only(LOWER, o.avoidAmbiguous, o.lowercase)
    + Only(DIGITS, o.avoidAmbiguous, o.digits)
    + Only(SYMBOLS, o.avoidAmbiguous, o.symbols)
  }

  function Concat(classes: seq<string>): string {
    if classes == [] then [] else classes[0] + Concat(classes[1..])
  }

  lemma {:induction false} InOneClass(classes: seq<string>, k: nat, c: char)
    requires k < |classes| && c in classes[k]
    ensures c in Concat(classes)
  {
    if k > 0 {
      InOneClass(classes[1..], k - 1, c);
    }
  }

  function Validate(o: Options): Option<Refusal> {
    if !(MIN_LENGTH <= o.length <= MAX_LENGTH) then Some(LengthOutOfRange)
    else if !(o.uppercase || o.lowercase || o.digits || o.symbols) then Some(NoCharacterType)
    else None
  }

  function KindOf(c: char): nat {
    if 'A' <= c <= 'Z' then 0 else if 'a' <= c <= 'z' then 1 else if '0' <= c <= '9' then 2 else 3
  }

  lemma KindsOfClasses(c: char)
    ensures c in UPPER ==> KindOf(c) == 0
    ensures c in LOWER ==> KindOf(c) == 1
    ensures c in DIGITS ==> KindOf(c) == 2
    ensures c in SYMBOLS ==> KindOf(c) == 3
  {
  }

  lemma Survives(chars: string, avoid: bool, k: nat)
    requires k < |chars| && chars[k] !in AMBIGUOUS
    ensures Class(chars, avoid) != []
  {
    assert chars[k] in Class(chars, avoid);
  }

  lemma NoLetterClassIsEmpty(avoid: bool)
    ensures Class(UPPER, avoid) != [] && Class(LOWER, avoid) != []
  {
    Survives(UPPER, avoid, 0);
    Survives(LOWER, avoid, 0);
  }

  lemma DigitsRemain(avoid: bool)
    ensures Class(DIGITS, avoid) != []
  {
    Survives(DIGITS, avoid, 2);
  }

  lemma SymbolsRemain(avoid: bool)
    ensures Class(SYMBOLS, avoid) != []
  {
    Survives(SYMBOLS, avoid, 0);
  }

  predicate Apart(classes: seq<string>) {
    && (forall k :: 0 <= k < |classes| ==> classes[k] != [])
    && forall j, k, c :: 0 <= j < k < |classes| && c in classes[j] ==> c !in classes[k]
  }

  predicate OfKinds(classes: seq<string>, kinds: seq<nat>) {
    && |classes| == |kinds|
    && (forall k :: 0 <= k < |classes| ==> classes[k] != [])
    && (forall k, c :: 0 <= k < |classes| && c in classes[k] ==> KindOf(c) == kinds[k])
  }

  lemma OfKindsJoin(a: seq<string>, b: seq<string>, x: seq<nat>, y: seq<nat>)
    requires OfKinds(a, x) && OfKinds(b, y)
    ensures OfKinds(a + b, x + y)
  {
  }

  lemma OneKind(chars: string, avoid: bool, kind: nat, enabled: bool)
    requires Class(chars, avoid) != [] && forall c :: c in chars ==> KindOf(c) == kind
    ensures OfKinds(Only(chars, avoid, enabled), if enabled then [kind] else [])
  {
  }

  lemma LetterKinds(o: Options)
    ensures OfKinds(Only(UPPER, o.avoidAmbiguous, o.uppercase), if o.uppercase then [0] else [])
    ensures OfKinds(Only(LOWER, o.avoidAmbiguous, o.lowercase), if o.lowercase then [1] else [])
  {
    NoLetterClassIsEmpty(o.avoidAmbiguous);
    forall c: char {
      KindsOfClasses(c);
    }
    OneKind(UPPER, o.avoidAmbiguous, 0, o.uppercase);
    OneKind(LOWER, o.avoidAmbiguous, 1, o.lowercase);
  }

  lemma OtherKinds(o: Options)
    ensures OfKinds(Only(DIGITS, o.avoidAmbiguous, o.digits), if o.digits then [2] else [])
    ensures OfKinds(Only(SYMBOLS, o.avoidAmbiguous, o.symbols), if o.symbols then [3] else [])
  {
    DigitsRemain(o.avoidAmbiguous);
    SymbolsRemain(o.avoidAmbiguous);
    forall c: char {
      KindsOfClasses(c);
    }
    OneKind(DIGITS, o.avoidAmbiguous, 2, o.digits);
    OneKind(SYMBOLS, o.avoidAmbiguous, 3, o.symbols);
  }

  lemma KindsKeepApart(classes: seq<string>, kinds: seq<nat>)
    requires OfKinds(classes, kinds) && forall j, k :: 0 <= j < k < |kinds| ==> kinds[j] != kinds[k]
    ensures Apart(classes)
  {
    forall j, k, c | 0 <= j < k < |classes| && c in classes[j] ensures c !in classes[k] {
      assert KindOf(c) == kinds[j];
    }
  }

  lemma JoinedKinds(a: seq<string>, b: seq<string>, c: seq<string>, d: seq<string>,
                    w: seq<nat>, x: seq<nat>, y: seq<nat>, z: seq<nat>)
    requires OfKinds(a, w) && OfKinds(b, x) && OfKinds(c, y) && OfKinds(d, z)
    requires forall j, k :: 0 <= j < k < |w + x + y + z| ==> (w + x + y + z)[j] != (w + x + y + z)[k]
    ensures Apart(a + b + c + d)
  {
    OfKindsJoin(a, b, w, x);
    OfKindsJoin(a + b, c, w + x, y);
    OfKindsJoin(a + b + c, d, w + x + y, z);
    KindsKeepApart(a + b + c + d, w + x + y + z);
  }

  lemma {:induction false} ClassesApart(o: Options)
    requires Validate(o) == None
    ensures Apart(Classes(o)) && 1 <= |Classes(o)| <= o.length
  {
    LetterKinds(o);
    OtherKinds(o);
    JoinedKinds(Only(UPPER, o.avoidAmbiguous, o.uppercase), Only(LOWER, o.avoidAmbiguous, o.lowercase),
                Only(DIGITS, o.avoidAmbiguous, o.digits), Only(SYMBOLS, o.avoidAmbiguous, o.symbols),
                if o.uppercase then [0] else [], if o.lowercase then [1] else [],
                if o.digits then [2] else [], if o.symbols then [3] else []);
  }

  // ---------------------------------------------------------------- the shuffle

  function Swapped<T>(s: seq<T>, i: nat, j: nat): (r: seq<T>)
    requires i < |s| && j < |s|
    ensures |r| == |s| && r[i] == s[j] && r[j] == s[i]
    ensures forall k :: 0 <= k < |s| && k != i && k != j ==> r[k] == s[k]
  {
    s[i := s[j]][j := s[i]]
  }

  lemma SwapKeepsContents<T>(s: seq<T>, i: nat, j: nat)
    requires i < |s| && j < |s|
    ensures multiset(Swapped(s, i, j)) == multiset(s)
  {
  }

  /** One draw per position: position i swaps with one at or below it. */
  predicate Draws(draws: seq<nat>, n: nat) {
    |draws| == n && forall i :: 0 <= i < n ==> draws[i] <= i
  }

  /** The steps for positions i, i - 1, ..., 1. */
  function ShuffledFrom<T>(s: seq<T>, draws: seq<nat>, i: nat): (r: seq<T>)
    requires Draws(draws, |s|) && (i < |s| || i == 0)
    ensures |r| == |s|
    decreases i
  {
    if i == 0 then s else ShuffledFrom(Swapped(s, i, draws[i]), draws, i - 1)
  }

  function Shuffled<T>(s: seq<T>, draws: seq<nat>): (r: seq<T>)
    requires Draws(draws, |s|)
    ensures |r| == |s|
  {
    ShuffledFrom(s, draws, if s == [] then 0 else |s| - 1)
  }

  lemma {:induction false} ShuffleKeepsContents<T>(s: seq<T>, draws: seq<nat>, i: nat)
    requires Draws(draws, |s|) && (i < |s| || i == 0)
    ensures multiset(ShuffledFrom(s, draws, i)) == multiset(s)
    decreases i
  {
    if i > 0 {
      SwapKeepsContents(s, i, draws[i]);
      ShuffleKeepsContents(Swapped(s, i, draws[i]), draws, i - 1);
    }
  }

  lemma {:induction false} StepsBelowKeepAbove<T>(s: seq<T>, draws: seq<nat>, i: nat, k: nat)
    requires Draws(draws, |s|) && i < k < |s|
    ensures ShuffledFrom(s, draws, i)[k] == s[k]
    decreases i
  {
    if i > 0 {
      StepsBelowKeepAbove(Swapped(s, i, draws[i]), draws, i - 1, k);
    }
  }

  lemma {:induction false} SameResultSameDraws<T>(s: seq<T>, d: seq<nat>, e: seq<nat>, i: nat)
    requires Distinct(s) && Draws(d, |s|) && Draws(e, |s|) && (i < |s| || i == 0)
    requires ShuffledFrom(s, d, i) == ShuffledFrom(s, e, i)
    ensures forall k :: 0 <= k <= i && k < |s| ==> d[k] == e[k]
    decreases i
  {
    if i > 0 {
      var x, y := Swapped(s, i, d[i]), Swapped(s, i, e[i]);
      StepsBelowKeepAbove(x, d, i - 1, i);
      StepsBelowKeepAbove(y, e, i - 1, i);
      assert s[d[i]] == s[e[i]];
      assert x == y;
      SameResultSameDraws(x, d, e, i - 1);
    }
  }

  /** The draws that lead from `s` to its permutation `p`, read off from the top. */
  lemma {:induction false} DrawsReach<T>(s: seq<T>, p: seq<T>, i: nat) returns (draws: seq<nat>)
    requires multiset(s) == multiset(p) && |s| == |p| && (i < |s| || i == 0)
    requires forall k :: i < k < |s| ==> s[k] == p[k]
    ensures Draws(draws, |s|) && ShuffledFrom(s, draws, i) == p
    decreases i
  {
    if i == 0 {
      draws := seq(|s|, k => 0);
      OneLeft(s, p);
    } else {
      var j := FoundBelow(s, p, i);
      SwapKeepsContents(s, i, j);
      var lower := DrawsReach(Swapped(s, i, j), p, i - 1);
      draws := lower[i := j];
      LowerDrawsDecide(Swapped(s, i, j), lower, draws, i - 1);
    }
  }

  lemma OneLeft<T>(s: seq<T>, p: seq<T>)
    requires multiset(s) == multiset(p) && |s| == |p| && forall k :: 0 < k < |s| ==> s[k] == p[k]
    ensures s == p
  {
    if s != [] {
      var j := FoundBelow(s, p, 0);
    }
  }

  lemma FoundBelow<T>(s: seq<T>, p: seq<T>, i: nat) returns (j: nat)
    requires multiset(s) == multiset(p) && |s| == |p| && i < |s| && forall k :: i < k < |s| ==> s[k] == p[k]
    ensures j <= i && s[j] == p[i]
  {
    assert s == s[..i + 1] + s[i + 1..] && p == p[..i + 1] + p[i + 1..] && s[i + 1..] == p[i + 1..];
    assert multiset(s[..i + 1]) == multiset(s) - multiset(s[i + 1..]);
    assert multiset(p[..i + 1]) == multiset(p) - multiset(p[i + 1..]);
    assert p[..i + 1][i] == p[i];
    assert p[i] in multiset(s[..i + 1]);
    assert p[i] in s[..i + 1];
    j :| 0 <= j < i + 1 && s[..i + 1][j] == p[i];
  }

  lemma {:induction false} LowerDrawsDecide<T>(s: seq<T>, d: seq<nat>, e: seq<nat>, i: nat)
    requires Draws(d, |s|) && Draws(e, |s|) && i < |s| && forall k :: 0 <= k <= i ==> d[k] == e[k]
    ensures ShuffledFrom(s, d, i) == ShuffledFrom(s, e, i)
    decreases i
  {
    if i > 0 {
      LowerDrawsDecide(Swapped(s, i, d[i]), d, e, i - 1);
    }
  }

  /** Of a list of distinct elements, every permutation is the shuffle of exactly
      one sequence of draws, and every sequence of draws gives a permutation. */
  lemma {:induction false} ShuffleIsABijection<T>(s: seq<T>, p: seq<T>)
    requires Distinct(s)
    ensures multiset(p) == multiset(s) <==> exists d :: Draws(d, |s|) && Shuffled(s, d) == p
    ensures forall d, e :: Draws(d, |s|) && Draws(e, |s|) && Shuffled(s, d) == Shuffled(s, e) ==> d == e
  {
    var top := if s == [] then 0 else |s| - 1;
    if multiset(p) == multiset(s) {
      SameLength(s, p);
      var d := DrawsReach(s, p, top);
      assert Shuffled(s, d) == p;
    }
    if d :| Draws(d, |s|) && Shuffled(s, d) == p {
      ShuffleKeepsContents(s, d, top);
    }
    forall d, e | Draws(d, |s|) && Draws(e, |s|) && Shuffled(s, d) == Shuffled(s, e) ensures d == e {
      SameResultSameDraws(s, d, e, top);
    }
  }

  lemma SameLength<T>(s: seq<T>, p: seq<T>)
    requires multiset(s) == multiset(p)
    ensures |s| == |p|
  {
    assert |multiset(s)| == |s| && |multiset(p)| == |p|;
  }

  // ---------------------------------------------------------------- which passwords can come out

  /** Index choices for the characters before the shuffle: one in each class,
      then in the whole alphabet. */
  predicate Picks(picks: seq<nat>, classes: seq<string>, length: nat) {
    && |picks| == length && |classes| <= length
    && (forall k :: 0 <= k < |classes| ==> picks[k] < |classes[k]|)
    && (forall k :: |classes| <= k < length ==> picks[k] < |Concat(classes)|)
  }

  function Picked(picks: seq<nat>, classes: seq<string>): (r: string)
    requires Picks(picks, classes, |picks|)
  {
    seq(|picks|, k requires 0 <= k < |picks| =>
      if k < |classes| then classes[k][picks[k]] else Concat(classes)[picks[k]])
  }

  ghost predicate CanComeOut(password: string, classes: seq<string>, length: nat) {
    exists picks, draws ::
      Picks(picks, classes, length) && Draws(draws, length) && password == Shuffled(Picked(picks, classes), draws)
  }

  predicate Hits(s: string, chars: string) {
    exists i :: 0 <= i < |s| && s[i] in chars
  }

  /** The length, the alphabet, and a character of every class. */
  predicate Promised(password: string, classes: seq<string>, length: nat) {
    && |password| == length
    && (forall c :: c in password ==> c in Concat(classes))
    && (forall k :: 0 <= k < |classes| ==> Hits(password, classes[k]))
  }

  lemma SameContents(s: string, p: string)
    requires multiset(s) == multiset(p)
    ensures |s| == |p| && forall c :: c in s <==> c in p
  {
    SameLength(s, p);
    forall c: char ensures c in s <==> c in p {
      assert c in s <==> c in multiset(s);
      assert c in p <==> c in multiset(p);
    }
  }

  lemma PromiseIgnoresOrder(s: string, p: string, classes: seq<string>, length: nat)
    requires multiset(s) == multiset(p) && Promised(s, classes, length)
    ensures Promised(p, classes, length)
  {
    SameContents(s, p);
    forall k | 0 <= k < |classes| ensures Hits(p, classes[k]) {
      assert Hits(s, classes[k]);
      var i :| 0 <= i < |s| && s[i] in classes[k];
      assert s[i] in p;
    }
  }

  lemma PickedIsPromised(picks: seq<nat>, classes: seq<string>)
    requires Picks(picks, classes, |picks|)
    ensures Promised(Picked(picks, classes), classes, |picks|)
  {
    var s := Picked(picks, classes);
    forall c | c in s ensures c in Concat(classes) {
      var k :| 0 <= k < |s| && s[k] == c;
      if k < |classes| {
        InOneClass(classes, k, c);
      }
    }
    forall k | 0 <= k < |classes| ensures Hits(s, classes[k]) {
      assert s[k] in classes[k];
    }
  }

  predicate Placed(q: string, classes: seq<string>, m: nat) {
    m <= |classes| && m <= |q| && forall k :: 0 <= k < m ==> q[k] in classes[k]
  }

  lemma PlaceOne(r: string, classes: seq<string>, m: nat, c: char) returns (q: string)
    requires Apart(classes) && m < |classes| <= |r| && Placed(r, classes, m) && c in r && c in classes[m]
    ensures multiset(q) == multiset(r) && Placed(q, classes, m + 1)
  {
    var j := IndexIn(r, c);
    assert j >= m;
    q := Swapped(r, m, j);
    SwapKeepsContents(r, m, j);
  }

  /** A character of every class moved to the front, in the order of the classes. */
  lemma {:induction false} BringForward(p: string, classes: seq<string>, m: nat) returns (q: string)
    requires Apart(classes) && Promised(p, classes, |p|) && m <= |classes| <= |p|
    ensures multiset(q) == multiset(p) && Placed(q, classes, m)
    decreases m
  {
    if m == 0 {
      q := p;
    } else {
      var r := BringForward(p, classes, m - 1);
      SameContents(r, p);
      assert Hits(p, classes[m - 1]);
      var i :| 0 <= i < |p| && p[i] in classes[m - 1];
      q := PlaceOne(r, classes, m - 1, p[i]);
    }
  }

  lemma IndexIn(s: string, c: char) returns (k: nat)
    requires c in s
    ensures k < |s| && s[k] == c
  {
    k :| 0 <= k < |s| && s[k] == c;
  }

  /** Where each character of `q` sits in the set it is picked from. */
  lemma {:induction false} IndexesOf(q: string, sets: seq<string>) returns (picks: seq<nat>)
    requires |q| == |sets| && forall k :: 0 <= k < |q| ==> q[k] in sets[k]
    ensures |picks| == |q| && forall k :: 0 <= k < |q| ==> picks[k] < |sets[k]| && sets[k][picks[k]] == q[k]
  {
    if q == [] {
      picks := [];
    } else {
      var rest := IndexesOf(q[1..], sets[1..]);
      var k := IndexIn(sets[0], q[0]);
      picks := [k] + rest;
    }
  }

  lemma PicksFor(q: string, classes: seq<string>) returns (picks: seq<nat>)
    requires |classes| <= |q| && Placed(q, classes, |classes|) && forall c :: c in q ==> c in Concat(classes)
    ensures Picks(picks, classes, |q|) && Picked(picks, classes) == q
  {
    var sets := seq(|q|, k requires 0 <= k < |q| => if k < |classes| then classes[k] else Concat(classes));
    picks := IndexesOf(q, sets);
  }

  lemma WhatComesOutIsPromised(picks: seq<nat>, draws: seq<nat>, classes: seq<string>)
    requires Picks(picks, classes, |picks|) && Draws(draws, |picks|)
    ensures Promised(Shuffled(Picked(picks, classes), draws), classes, |picks|)
  {
    var s := Picked(picks, classes);
    PickedIsPromised(picks, classes);
    ShuffleKeepsContents(s, draws, if s == [] then 0 else |s| - 1);
    PromiseIgnoresOrder(s, Shuffled(s, draws), classes, |picks|);
  }

  lemma ThePromisedComesOut(password: string, classes: seq<string>)
    requires Apart(classes) && |classes| <= |password| && Promised(password, classes, |password|)
    ensures CanComeOut(password, classes, |password|)
  {
    var q := BringForward(password, classes, |classes|);
    SameContents(q, password);
    var picks := PicksFor(q, classes);
    var draws := DrawsReach(q, password, if q == [] then 0 else |q| - 1);
    assert password == Shuffled(Picked(picks, classes), draws);
  }

  /** The character belongs to an enabled type and is not excluded. */
  predicate Allowed(o: Options, c: char) {
    && ((o.uppercase && c in UPPER) || (o.lowercase && c in LOWER) || (o.digits && c in DIGITS)
        || (o.symbols && c in SYMBOLS))
    && !(o.avoidAmbiguous && c in AMBIGUOUS)
  }

  predicate Holds(o: Options, password: string, chars: string) {
    exists c <- password :: c in chars && !(o.avoidAmbiguous && c in AMBIGUOUS)
  }

  /** Of the asked length, of allowed characters only, with one of every enabled type. */
  predicate AsAsked(o: Options, password: string) {
    && |password| == o.length && (forall c <- password :: Allowed(o, c))
    && (o.uppercase ==> Holds(o, password, UPPER)) && (o.lowercase ==> Holds(o, password, LOWER))
    && (o.digits ==> Holds(o, password, DIGITS)) && (o.symbols ==> Holds(o, password, SYMBOLS))
  }

  lemma {:induction false} ConcatJoins(a: seq<string>, b: seq<string>, c: char)
    ensures c in Concat(a + b) <==> c in Concat(a) || c in Concat(b)
  {
    if a == [] {
      assert a + b == b;
    } else {
      ConcatJoins(a[1..], b, c);
      assert (a + b)[1..] == a[1..] + b;
    }
  }

  lemma InOnly(o: Options, chars: string, enabled: bool, c: char)
    ensures c in Concat(Only(chars, o.avoidAmbiguous, enabled)) <==>
            enabled && c in chars && !(o.avoidAmbiguous && c in AMBIGUOUS)
  {
    var kept := Class(chars, o.avoidAmbiguous);
    assert [kept][1..] == [];
    assert Concat([kept]) == kept + Concat([]);
  }

  lemma AlphabetIsAllowed(o: Options, c: char)
    ensures c in Concat(Classes(o)) <==> Allowed(o, c)
  {
    var (u, l) := (Only(UPPER, o.avoidAmbiguous, o.uppercase), Only(LOWER, o.avoidAmbiguous, o.lowercase));
    var (d, s) := (Only(DIGITS, o.avoidAmbiguous, o.digits), Only(SYMBOLS, o.avoidAmbiguous, o.symbols));
    ConcatJoins(u + l + d, s, c);
    ConcatJoins(u + l, d, c);
    ConcatJoins(u, l, c);
    InOnly(o, UPPER, o.uppercase, c);
    InOnly(o, LOWER, o.lowercase, c);
    InOnly(o, DIGITS, o.digits, c);
    InOnly(o, SYMBOLS, o.symbols, c);
  }

  predicate HitsAll(password: string, classes: seq<string>) {
    forall k :: 0 <= k < |classes| ==> Hits(password, classes[k])
  }

  lemma HitsAllJoins(password: string, a: seq<string>, b: seq<string>)
    ensures HitsAll(password, a + b) <==> HitsAll(password, a) && HitsAll(password, b)
  {
    if HitsAll(password, a + b) {
      forall k | 0 <= k < |a| ensures Hits(password, a[k]) {
        assert (a + b)[k] == a[k];
      }
      forall k | 0 <= k < |b| ensures Hits(password, b[k]) {
        assert (a + b)[|a| + k] == b[k];
      }
    }
  }

  lemma HitsOnly(o: Options, password: string, chars: string, enabled: bool)
    ensures HitsAll(password, Only(chars, o.avoidAmbiguous, enabled)) <==> (enabled ==> Holds(o, password, chars))
  {
    var kept := Class(chars, o.avoidAmbiguous);
    if enabled && Holds(o, password, chars) {
      var c :| c in password && c in chars && !(o.avoidAmbiguous && c in AMBIGUOUS);
      var i := IndexIn(password, c);
      assert password[i] in kept && Hits(password, kept);
    }
    if enabled && HitsAll(password, Only(chars, o.avoidAmbiguous, enabled)) {
      assert Only(chars, o.avoidAmbiguous, enabled)[0] == kept && Hits(password, kept);
      var i :| 0 <= i < |password| && password[i] in kept;
      assert password[i] in password;
    }
  }

  lemma PromiseInWords(o: Options, password: string)
    ensures Promised(password, Classes(o), o.length) <==> AsAsked(o, password)
  {
    var (u, l) := (Only(UPPER, o.avoidAmbiguous, o.uppercase), Only(LOWER, o.avoidAmbiguous, o.lowercase));
    var (d, s) := (Only(DIGITS, o.avoidAmbiguous, o.digits), Only(SYMBOLS, o.avoidAmbiguous, o.symbols));
    forall c: char ensures c in Concat(Classes(o)) <==> Allowed(o, c) {
      AlphabetIsAllowed(o, c);
    }
    HitsAllJoins(password, u + l + d, s);
    HitsAllJoins(password, u + l, d);
    HitsAllJoins(password, u, l);
    HitsOnly(o, password, UPPER, o.uppercase);
    HitsOnly(o, password, LOWER, o.lowercase);
    HitsOnly(o, password, DIGITS, o.digits);
    HitsOnly(o, password, SYMBOLS, o.symbols);
    assert HitsAll(password, Classes(o)) <==> forall k :: 0 <= k < |Classes(o)| ==> Hits(password, Classes(o)[k]);
  }

  lemma ChosenIsPromised(o: Options, password: string)
    requires Validate(o) == None
    ensures CanComeOut(password, Classes(o), o.length) <==> AsAsked(o, password)
  {
    var classes := Classes(o);
    PromiseInWords(o, password);
    ClassesApart(o);
    if picks, draws :| Picks(picks, classes, o.length) && Draws(draws, o.length)
                       && password == Shuffled(Picked(picks, classes), draws)
    {
      WhatComesOutIsPromised(picks, draws, classes);
    }
    if Promised(password, classes, o.length) {
      ThePromisedComesOut(password, classes);
    }
  }

  // ---------------------------------------------------------------- the code

  ghost predicate Sampler(sample: (nat, nat) -> nat) {
    forall k: nat, n: nat :: n > 0 ==> sample(k, n) < n
  }

  function DrawsOf(sample: (nat, nat) -> nat, n: nat, asked: nat): (r: seq<nat>)
    requires Sampler(sample)
    ensures Draws(r, n)
  {
    seq(n, i requires 0 <= i < n => if i == 0 then 0 else sample(asked + (n - 1 - i), i + 1))
  }

  /** The k-th request picks the k-th character. */
  function PicksOf(sample: (nat, nat) -> nat, classes: seq<string>, length: nat): (r: seq<nat>)
    requires Sampler(sample) && 1 <= |classes| <= length && forall k :: 0 <= k < |classes| ==> classes[k] != []
    ensures Picks(r, classes, length)
  {
    InOneClass(classes, 0, classes[0][0]);
    seq(length, k requires 0 <= k < length => sample(k, if k < |classes| then |classes[k]| else |Concat(classes)|))
  }

  /** What the generator gives for these answers of the random source. */
  function Outcome(o: Options, sample: (nat, nat) -> nat): (r: string)
    requires Sampler(sample) && Validate(o) == None
  {
    ClassesApart(o);
    Shuffled(Picked(PicksOf(sample, Classes(o), o.length), Classes(o)), DrawsOf(sample, o.length, o.length))
  }

  /** A random source that gives these picks and then these draws. */
  function SourceOf(picks: seq<nat>, draws: seq<nat>): (nat, nat) -> nat
    requires |draws| == |picks|
  {
    (k: nat, n: nat) =>
      var answer := if k < |picks| then picks[k] else if k < 2 * |picks| then draws[2 * |picks| - 1 - k] else 0;
      if answer < n then answer else 0
  }

  lemma SourceIsSampler(picks: seq<nat>, draws: seq<nat>)
    requires |draws| == |picks|
    ensures Sampler(SourceOf(picks, draws))
  {
  }

  lemma SourceGivesPicks(picks: seq<nat>, draws: seq<nat>, classes: seq<string>)
    requires |draws| == |picks| && Picks(picks, classes, |picks|) && Sampler(SourceOf(picks, draws))
    requires 1 <= |classes| <= |picks| && forall k :: 0 <= k < |classes| ==> classes[k] != []
    ensures PicksOf(SourceOf(picks, draws), classes, |picks|) == picks
  {
    var given := PicksOf(SourceOf(picks, draws), classes, |picks|);
    forall k | 0 <= k < |picks| ensures given[k] == picks[k] {
    }
  }

  lemma SourceGivesDraws(picks: seq<nat>, draws: seq<nat>)
    requires Draws(draws, |picks|) && Sampler(SourceOf(picks, draws))
    ensures DrawsOf(SourceOf(picks, draws), |picks|, |picks|) == draws
  {
    var given := DrawsOf(SourceOf(picks, draws), |picks|, |picks|);
    forall i | 0 <= i < |picks| ensures given[i] == draws[i] {
    }
  }

  lemma SourceGivesThem(picks: seq<nat>, draws: seq<nat>, o: Options)
    requires Validate(o) == None && Picks(picks, Classes(o), o.length) && Draws(draws, o.length)
    ensures var source := SourceOf(picks, draws);
            Sampler(source) && Outcome(o, source) == Shuffled(Picked(picks, Classes(o)), draws)
  {
    ClassesApart(o);
    SourceIsSampler(picks, draws);
    SourceGivesPicks(picks, draws, Classes(o));
    SourceGivesDraws(picks, draws);
  }

  ghost predicate ComesOut(o: Options, password: string)
    requires Validate(o) == None
  {
    exists sample: (nat, nat) -> nat :: Sampler(sample) && Outcome(o, sample) == password
  }

  /** Exactly the texts of the asked length, of characters of the enabled types, with one
      of every enabled type, come out for some random source. */
  lemma {:induction false} ExactlyThePromised(o: Options, password: string)
    requires Validate(o) == None
    ensures ComesOut(o, password) <==> AsAsked(o, password)
  {
    ClassesApart(o);
    ChosenIsPromised(o, password);
    if sample: (nat, nat) -> nat :| Sampler(sample) && Outcome(o, sample) == password {
      assert Picks(PicksOf(sample, Classes(o), o.length), Classes(o), o.length);
      assert CanComeOut(password, Classes(o), o.length);
    }
    if AsAsked(o, password) {
      var picks, draws :| Picks(picks, Classes(o), o.length) && Draws(draws, o.length)
                          && password == Shuffled(Picked(picks, Classes(o)), draws);
      SourceGivesThem(picks, draws, o);
    }
  }

  method SwapAt(a: array<char>, i: nat, j: nat)
    requires i < a.Length && j < a.Length
    modifies a
    ensures a[..] == Swapped(old(a[..]), i, j)
  {
    a[i], a[j] := a[j], a[i];
  }

  method Shuffle(a: array<char>, sample: (nat, nat) -> nat, asked: nat)
    requires Sampler(sample)
    modifies a
    ensures a[..] == Shuffled(old(a[..]), DrawsOf(sample, a.Length, asked))
  {
    ghost var draws := DrawsOf(sample, a.Length, asked);
    if a.Length == 0 {
      return;
    }
    var i := a.Length - 1;
    while i > 0
      invariant 0 <= i < a.Length
      invariant ShuffledFrom(a[..], draws, i) == Shuffled(old(a[..]), draws)
    {
      var j := sample(asked + (a.Length - 1 - i), i + 1);
      assert j == draws[i];
      SwapAt(a, i, j);
      i := i - 1;
    }
  }

  /** Text and places agree up to here. */
  predicate PickedUpTo(text: seq<char>, picks: seq<nat>, classes: seq<string>, len: nat)
    requires Picks(picks, classes, |picks|) && len <= |picks| == |text|
  {
    forall k :: 0 <= k < len ==> text[k] == Picked(picks, classes)[k]
  }

  method PickAll(classes: seq<string>, length: nat, sample: (nat, nat) -> nat)
    returns (out: array<char>)
    requires Sampler(sample) && 1 <= |classes| <= length && forall k :: 0 <= k < |classes| ==> classes[k] != []
    ensures fresh(out) && out[..] == Picked(PicksOf(sample, classes, length), classes)
  {
    ghost var picks := PicksOf(sample, classes, length);
    var alphabet := Concat(classes);
    InOneClass(classes, 0, classes[0][0]);
    out := new char[length];
    var len := 0;
    while len < |classes|
      invariant 0 <= len <= |classes| && PickedUpTo(out[..], picks, classes, len)
    {
      var k := sample(len, |classes[len]|);
      assert k == picks[len];
      out[len] := classes[len][k];
      len := len + 1;
    }
    while len < length
      invariant |classes| <= len <= length && PickedUpTo(out[..], picks, classes, len)
    {
      var k := sample(len, |alphabet|);
      assert k == picks[len];
      out[len] := alphabet[k];
      len := len + 1;
    }
  }

  method Generate(o: Options, sample: (nat, nat) -> nat) returns (r: Result<string, Refusal>)
    requires Sampler(sample)
    ensures r.Err? <==> !(8 <= o.length <= 128) || !(o.uppercase || o.lowercase || o.digits || o.symbols)
    ensures r.Err? ==> (r.error == LengthOutOfRange <==> !(8 <= o.length <= 128))
    ensures r.Ok? ==> Validate(o) == None && r.value == Outcome(o, sample)
    ensures r.Ok? ==> AsAsked(o, r.value)
  {
    var refusal := Validate(o);
    if refusal.Some? {
      return Err(refusal.value);
    }
    var classes := Classes(o);
    ClassesApart(o);
    var out := PickAll(classes, o.length, sample);
    Shuffle(out, sample, o.length);
    WhatComesOutIsPromised(PicksOf(sample, classes, o.length), DrawsOf(sample, o.length, o.length), classes);
    PromiseInWords(o, out[..]);
    r := Ok(out[..]);
  }
}
