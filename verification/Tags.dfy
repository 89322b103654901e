/**
 Tags. Two tags are the same tag when their keys are equal; `key` stands for the
 lower-casing and may be any function. A vault's tag sets are a list, one entry
 an item.
 */
module Tags {
  import opened Texts

  // ---------------------------------------------------------------- deduplicating and sorting

  predicate HasKey(key: string -> string, tags: seq<string>, k: string) {
    exists i :: 0 <= i < |tags| && key(tags[i]) == k
  }

  /** Later spellings of a tag already present are dropped. */
  function Firsts(key: string -> string, tags: seq<string>): seq<string> {
    if tags == [] then []
    else
      var front := Firsts(key, tags[..|tags| - 1]);
      var last := tags[|tags| - 1];
      if HasKey(key, front, key(last)) then front else front + [last]
  }

  predicate ComesFirst(key: string -> string, a: string, b: string) {
    Less(key(a), key(b)) || (key(a) == key(b) && Less(a, b))
  }

  predicate InOrder(key: string -> string, tags: seq<string>) {
    forall i, j :: 0 <= i < j < |tags| ==> !ComesFirst(key, tags[j], tags[i])
  }

  function Insert(key: string -> string, t: string, tags: seq<string>): (r: seq<string>)
  {
    if tags == [] || ComesFirst(key, t, tags[0]) then [t] + tags
    else [tags[0]] + Insert(key, t, tags[1..])
  }

  /** The order `sort_by_cached_key` gives; SortIsTheOnlyOrder says any sort gives it. */
  function Sort(key: string -> string, tags: seq<string>): seq<string> {
    if tags == [] then [] else Insert(key, tags[0], Sort(key, tags[1..]))
  }

  function Deduped(key: string -> string, tags: seq<string>): seq<string> {
    Sort(key, Firsts(key, tags))
  }

  lemma ComesFirstIsAnOrder(key: string -> string, a: string, b: string, c: string)
    ensures ComesFirst(key, a, b) || a == b || ComesFirst(key, b, a)
    ensures !(ComesFirst(key, a, b) && ComesFirst(key, b, a))
    ensures ComesFirst(key, a, b) && ComesFirst(key, b, c) ==> ComesFirst(key, a, c)
    ensures !ComesFirst(key, b, a) && !ComesFirst(key, c, b) ==> !ComesFirst(key, c, a)
  {
    OrderOfTwo(key, a, b);
    OrderOfTwo(key, b, c);
    OrderOfTwo(key, a, c);
    if ComesFirst(key, a, b) && ComesFirst(key, b, c) {
      OrderOfThree(key, a, b, c);
    }
  }

  lemma OrderOfTwo(key: string -> string, a: string, b: string)
    ensures ComesFirst(key, a, b) || a == b || ComesFirst(key, b, a)
    ensures !(ComesFirst(key, a, b) && ComesFirst(key, b, a))
  {
    LessIsTotal(key(a), key(b));
    LessIsTotal(a, b);
    LessIsStrict(key(a), key(b));
    LessIsStrict(a, b);
  }

  lemma OrderOfThree(key: string -> string, a: string, b: string, c: string)
    requires ComesFirst(key, a, b) && ComesFirst(key, b, c)
    ensures ComesFirst(key, a, c)
  {
    if Less(key(a), key(b)) && Less(key(b), key(c)) {
      LessIsTransitive(key(a), key(b), key(c));
    }
    LessIsStrict(key(a), key(b));
    LessIsStrict(key(b), key(c));
    if key(a) == key(b) == key(c) {
      LessIsTransitive(a, b, c);
    }
  }

  lemma FromTheTwo(rest: seq<string>, tags: seq<string>, t: string, j: nat)
    requires multiset(rest) == multiset(tags) + multiset{t} && j < |rest|
    ensures rest[j] in tags || rest[j] == t
  {
    assert rest[j] in multiset(rest);
  }

  lemma {:induction false} InsertKeepsContents(key: string -> string, t: string, tags: seq<string>)
    ensures multiset(Insert(key, t, tags)) == multiset(tags) + multiset{t}
  {
    if tags != [] && !ComesFirst(key, t, tags[0]) {
      InsertKeepsContents(key, t, tags[1..]);
      assert tags == [tags[0]] + tags[1..];
    }
  }

  lemma FirstBeforeAll(key: string -> string, x: string, rest: seq<string>)
    requires InOrder(key, rest) && forall j :: 0 <= j < |rest| ==> !ComesFirst(key, rest[j], x)
    ensures InOrder(key, [x] + rest)
  {
  }

  lemma {:induction false} InsertKeepsOrder(key: string -> string, t: string, tags: seq<string>)
    requires InOrder(key, tags)
    ensures InOrder(key, Insert(key, t, tags)) && multiset(Insert(key, t, tags)) == multiset(tags) + multiset{t}
  {
    InsertKeepsContents(key, t, tags);
    if tags == [] {
    } else if ComesFirst(key, t, tags[0]) {
      forall j | 0 <= j < |tags| ensures !ComesFirst(key, tags[j], t) {
        ComesFirstIsAnOrder(key, t, tags[0], tags[j]);
      }
      FirstBeforeAll(key, t, tags);
    } else {
      var rest := Insert(key, t, tags[1..]);
      InsertKeepsOrder(key, t, tags[1..]);
      forall j | 0 <= j < |rest| ensures !ComesFirst(key, rest[j], tags[0]) {
        FromTheTwo(rest, tags[1..], t, j);
      }
      FirstBeforeAll(key, tags[0], rest);
    }
  }

  lemma {:induction false} SortSorts(key: string -> string, tags: seq<string>)
    ensures InOrder(key, Sort(key, tags)) && multiset(Sort(key, tags)) == multiset(tags)
  {
    if tags != [] {
      SortSorts(key, tags[1..]);
      InsertKeepsOrder(key, tags[0], Sort(key, tags[1..]));
      assert tags == [tags[0]] + tags[1..];
    }
  }

  lemma FirstIsLeast(key: string -> string, a: seq<string>, t: string)
    requires InOrder(key, a) && t in multiset(a)
    ensures a != [] && !ComesFirst(key, t, a[0])
  {
    assert t in a;
    var j :| 0 <= j < |a| && a[j] == t;
    OrderOfTwo(key, t, t);
  }

  lemma RestOfContents(a: seq<string>)
    requires a != []
    ensures a[0] in multiset(a) && multiset(a[1..]) == multiset(a) - multiset{a[0]}
  {
    assert a == [a[0]] + a[1..];
  }

  lemma SameFirst(key: string -> string, a: seq<string>, b: seq<string>)
    requires InOrder(key, a) && InOrder(key, b) && multiset(a) == multiset(b) && a != [] && b != []
    ensures a[0] == b[0] && multiset(a[1..]) == multiset(b[1..])
  {
    RestOfContents(a);
    RestOfContents(b);
    FirstIsLeast(key, a, b[0]);
    FirstIsLeast(key, b, a[0]);
    OrderOfTwo(key, a[0], b[0]);
  }

  /** A list has only one order, so whichever sort the library runs gives it. */
  lemma {:induction false} SortIsTheOnlyOrder(key: string -> string, a: seq<string>, b: seq<string>)
    requires InOrder(key, a) && InOrder(key, b) && multiset(a) == multiset(b)
    ensures a == b
  {
    assert |multiset(a)| == |a| && |multiset(b)| == |b|;
    if a != [] {
      SameFirst(key, a, b);
      SortIsTheOnlyOrder(key, a[1..], b[1..]);
      assert a == [a[0]] + a[1..] && b == [b[0]] + b[1..];
    }
  }

  /** No two spellings of one tag. */
  predicate SinglySpelt(key: string -> string, tags: seq<string>) {
    forall i, j :: 0 <= i < j < |tags| ==> key(tags[i]) != key(tags[j])
  }

  lemma {:induction false} FirstsKeepOneOfEach(key: string -> string, tags: seq<string>)
    ensures SinglySpelt(key, Firsts(key, tags))
    ensures forall t :: t in Firsts(key, tags) ==> t in tags
    ensures forall k :: HasKey(key, Firsts(key, tags), k) <==> HasKey(key, tags, k)
  {
    if tags != [] {
      var (front, last) := (tags[..|tags| - 1], tags[|tags| - 1]);
      FirstsKeepOneOfEach(key, front);
      assert tags == front + [last];
      forall k ensures HasKey(key, Firsts(key, tags), k) <==> HasKey(key, tags, k) {
        AddedKey(key, front, last, k);
        AddedKey(key, Firsts(key, front), last, k);
      }
    }
  }

  /** No earlier spelling of the n-th tag. */
  predicate ComesUpFirst(key: string -> string, tags: seq<string>, n: nat)
    requires n < |tags|
  {
    forall m :: 0 <= m < n ==> key(tags[m]) != key(tags[n])
  }

  lemma {:induction false} FirstIsKept(key: string -> string, tags: seq<string>, n: nat)
    requires n < |tags| && ComesUpFirst(key, tags, n)
    ensures tags[n] in Firsts(key, tags)
  {
    var (front, last) := (tags[..|tags| - 1], tags[|tags| - 1]);
    if n < |front| {
      FirstIsKept(key, front, n);
    } else {
      FirstsKeepOneOfEach(key, front);
      assert !HasKey(key, front, key(last));
    }
  }

  lemma AddedKey(key: string -> string, tags: seq<string>, t: string, k: string)
    ensures HasKey(key, tags + [t], k) <==> HasKey(key, tags, k) || key(t) == k
  {
    var more := tags + [t];
    assert more[|tags|] == t;
    if HasKey(key, tags, k) {
      var i :| 0 <= i < |tags| && key(tags[i]) == k;
      assert more[i] == tags[i];
    }
  }

  lemma SameMembers(a: seq<string>, b: seq<string>)
    requires multiset(a) == multiset(b)
    ensures |a| == |b| && forall t :: t in a <==> t in b
  {
    assert |multiset(a)| == |a| && |multiset(b)| == |b|;
    forall t: string ensures t in a <==> t in b {
      assert t in a <==> t in multiset(a);
      assert t in b <==> t in multiset(b);
    }
  }

  lemma SortKeepsSingle(key: string -> string, a: seq<string>, b: seq<string>)
    requires SinglySpelt(key, a) && multiset(a) == multiset(b)
    ensures SinglySpelt(key, b)
  {
    SameMembers(a, b);
    forall i, j | 0 <= i < j < |b| ensures key(b[i]) != key(b[j]) {
      if key(b[i]) == key(b[j]) {
        assert b[i] in b && b[j] in b;
        var m :| 0 <= m < |a| && a[m] == b[i];
        var n :| 0 <= n < |a| && a[n] == b[j];
        assert m == n;
        Twice(b, i, j);
        OnlyOnce(a, m);
      }
    }
  }

  lemma Twice(b: seq<string>, i: nat, j: nat)
    requires i < j < |b| && b[i] == b[j]
    ensures multiset(b)[b[i]] >= 2
  {
    assert b == b[..j] + [b[j]] + b[j + 1..] && b[..j][i] == b[i];
  }

  lemma OnlyOnce(a: seq<string>, m: nat)
    requires m < |a| && forall n :: 0 <= n < |a| && n != m ==> a[n] != a[m]
    ensures multiset(a)[a[m]] == 1
  {
    assert a == a[..m] + [a[m]] + a[m + 1..];
    assert a[m] !in a[..m] && a[m] !in a[m + 1..];
  }

  predicate KeysAscend(key: string -> string, tags: seq<string>) {
    forall i, j :: 0 <= i < j < |tags| ==> Less(key(tags[i]), key(tags[j]))
  }

  lemma SingleInOrderAscends(key: string -> string, tags: seq<string>)
    requires SinglySpelt(key, tags) && InOrder(key, tags)
    ensures KeysAscend(key, tags)
  {
    forall i, j | 0 <= i < j < |tags| ensures Less(key(tags[i]), key(tags[j])) {
      LessIsTotal(key(tags[i]), key(tags[j]));
      assert key(tags[i]) != key(tags[j]) && !ComesFirst(key, tags[j], tags[i]);
    }
  }

  /** What a normalised tag set is: each tag once, in the spelling that came
      first, in order; and normalising it again changes nothing. */
  lemma {:induction false} DedupedMeaning(key: string -> string, tags: seq<string>)
    ensures SinglySpelt(key, Deduped(key, tags)) && InOrder(key, Deduped(key, tags))
    ensures KeysAscend(key, Deduped(key, tags))
    ensures multiset(Deduped(key, tags)) == multiset(Firsts(key, tags))
    ensures forall t :: t in Deduped(key, tags) ==> t in tags
    ensures forall n :: 0 <= n < |tags| && ComesUpFirst(key, tags, n) ==> tags[n] in Deduped(key, tags)
    ensures forall k :: HasKey(key, Deduped(key, tags), k) <==> HasKey(key, tags, k)
  {
    var (f, d) := (Firsts(key, tags), Deduped(key, tags));
    FirstsKeepOneOfEach(key, tags);
    SortSorts(key, f);
    SameMembers(f, d);
    SortKeepsSingle(key, f, d);
    SingleInOrderAscends(key, d);
    forall n | 0 <= n < |tags| && ComesUpFirst(key, tags, n) ensures tags[n] in d {
      FirstIsKept(key, tags, n);
    }
    forall k ensures HasKey(key, d, k) <==> HasKey(key, tags, k) {
      SameKeys(key, f, d, k);
    }
  }

  lemma SameKeys(key: string -> string, a: seq<string>, b: seq<string>, k: string)
    requires multiset(a) == multiset(b)
    ensures HasKey(key, a, k) <==> HasKey(key, b, k)
  {
    SameMembers(a, b);
    if HasKey(key, a, k) {
      var i :| 0 <= i < |a| && key(a[i]) == k;
      assert a[i] in b;
    }
    if HasKey(key, b, k) {
      var i :| 0 <= i < |b| && key(b[i]) == k;
      assert b[i] in a;
    }
  }

  lemma {:induction false} FirstsOfSingle(key: string -> string, tags: seq<string>)
    requires SinglySpelt(key, tags)
    ensures Firsts(key, tags) == tags
  {
    if tags != [] {
      FirstsOfSingle(key, tags[..|tags| - 1]);
      assert !HasKey(key, tags[..|tags| - 1], key(tags[|tags| - 1]));
    }
  }

  lemma DedupedOfDeduped(key: string -> string, tags: seq<string>)
    requires SinglySpelt(key, tags) && InOrder(key, tags)
    ensures Deduped(key, tags) == tags
  {
    FirstsOfSingle(key, tags);
    SortSorts(key, tags);
    SortIsTheOnlyOrder(key, Sort(key, tags), tags);
  }

  method DedupeSorted(key: string -> string, tags: seq<string>) returns (out: seq<string>)
    ensures out == Deduped(key, tags)
  {
    var seen: set<string> := {};
    out := [];
    assert tags[..0] == [];
    for i := 0 to |tags|
      invariant out == Firsts(key, tags[..i])
      invariant forall k :: k in seen <==> HasKey(key, out, k)
    {
      assert tags[..i + 1][..i] == tags[..i];
      if key(tags[i]) !in seen {
        ghost var before := out;
        seen := seen + {key(tags[i])};
        out := out + [tags[i]];
        forall k ensures HasKey(key, out, k) <==> HasKey(key, before, k) || key(tags[i]) == k {
          AddedKey(key, before, tags[i], k);
        }
      }
    }
    assert tags[..|tags|] == tags;
    out := Sort(key, out);
  }

  // ---------------------------------------------------------------- the vault's spellings

  /** Every tag every item carries, with how often. */
  function All(items: seq<seq<string>>): multiset<string> {
    if items == [] then multiset{} else All(items[..|items| - 1]) + multiset(items[|items| - 1])
  }

  predicate Beats(all: multiset<string>, a: string, b: string) {
    all[a] > all[b] || (all[a] == all[b] && Less(a, b))
  }

  /** A spelling that is carried, most often of its key, the smallest of a tie. */
  predicate Wins(key: string -> string, all: multiset<string>, k: string, t: string) {
    t in all && key(t) == k && forall u :: u in all && key(u) == k ==>
        u == t || all[u] < all[t] || (all[u] == all[t] && Less(t, u))
  }

  predicate AreSpellings(key: string -> string, all: multiset<string>, vault: map<string, string>) {
    && (forall t :: t in all ==> key(t) in vault)
    && (forall k :: k in vault ==> Wins(key, all, k, vault[k]))
  }

  lemma OneWinner(key: string -> string, all: multiset<string>, k: string, t: string, u: string)
    requires Wins(key, all, k, t) && Wins(key, all, k, u)
    ensures t == u
  {
    LessIsStrict(t, u);
  }

  /** The spellings depend only on what is carried how often, so not on the
      order of the items or of the tags in them. */
  lemma {:induction false} SpellingsIgnoreOrder(key: string -> string, a: seq<seq<string>>, b: seq<seq<string>>,
                                                x: map<string, string>, y: map<string, string>)
    requires multiset(a) == multiset(b)
    requires AreSpellings(key, All(a), x) && AreSpellings(key, All(b), y)
    ensures x == y
  {
    AllIgnoresOrder(a, b);
    SpellingsAreUnique(key, All(a), x, y);
  }

  lemma SpellingsAreUnique(key: string -> string, all: multiset<string>, x: map<string, string>, y: map<string, string>)
    requires AreSpellings(key, all, x) && AreSpellings(key, all, y)
    ensures x == y
  {
    forall k ensures k in x <==> k in y {
      if k in x {
        assert Wins(key, all, k, x[k]);
      }
      if k in y {
        assert Wins(key, all, k, y[k]);
      }
    }
    forall k | k in x ensures x[k] == y[k] {
      OneWinner(key, all, k, x[k], y[k]);
    }
  }

  lemma {:induction false} AllIgnoresOrder(a: seq<seq<string>>, b: seq<seq<string>>)
    requires multiset(a) == multiset(b)
    ensures All(a) == All(b)
  {
    if a == [] {
      assert |multiset(b)| == |b|;
    } else {
      var last := a[|a| - 1];
      var j := Somewhere(a, b);
      var (front, rest) := (a[..|a| - 1], b[..j] + b[j + 1..]);
      TakenOut(a, |a| - 1);
      assert front + a[|a| - 1 + 1..] == front;
      TakenOut(b, j);
      AllIgnoresOrder(front, rest);
    }
  }

  lemma Somewhere(a: seq<seq<string>>, b: seq<seq<string>>) returns (j: nat)
    requires a != [] && multiset(a) == multiset(b)
    ensures j < |b| && b[j] == a[|a| - 1]
  {
    assert a[|a| - 1] in multiset(b);
    j :| 0 <= j < |b| && b[j] == a[|a| - 1];
  }

  lemma {:induction false} TakenOut(b: seq<seq<string>>, j: nat)
    requires j < |b|
    ensures All(b) == All(b[..j] + b[j + 1..]) + multiset(b[j])
    ensures multiset(b[..j] + b[j + 1..]) == multiset(b) - multiset{b[j]}
  {
    var (x, e, y) := (b[..j], b[j], b[j + 1..]);
    MiddleOut(x, e, y);
    AllMiddleOut(x, e, y);
    Parted(b, j);
  }

  lemma Parted(b: seq<seq<string>>, j: nat)
    requires j < |b|
    ensures b == b[..j] + [b[j]] + b[j + 1..]
  {
  }

  lemma MiddleOut(x: seq<seq<string>>, e: seq<string>, y: seq<seq<string>>)
    ensures multiset(x + y) == multiset(x + [e] + y) - multiset{e}
  {
    assert multiset(x + [e] + y) == multiset(x) + multiset{e} + multiset(y);
  }

  lemma AllMiddleOut(x: seq<seq<string>>, e: seq<string>, y: seq<seq<string>>)
    ensures All(x + [e] + y) == All(x + y) + multiset(e)
  {
    AllOfTwo(x + [e], y);
    AllOfTwo(x, [e]);
    AllOfTwo(x, y);
    AllOfOne(e);
  }

  lemma AllOfOne(tags: seq<string>)
    ensures All([tags]) == multiset(tags)
  {
    assert [tags][..0] == [];
  }

  lemma {:induction false} AllOfTwo(a: seq<seq<string>>, b: seq<seq<string>>)
    ensures All(a + b) == All(a) + All(b)
  {
    if b == [] {
      assert a + b == a;
    } else {
      AllOfTwo(a, b[..|b| - 1]);
      assert (a + b)[..|a + b| - 1] == a + b[..|b| - 1];
    }
  }

  // ---------------------------------------------------------------- counting them

  /** The counts, by key and then by spelling, of what was carried so far. */
  ghost predicate Counts(key: string -> string, counts: map<string, map<string, nat>>, all: multiset<string>) {
    && (forall t :: t in all ==> key(t) in counts && t in counts[key(t)])
    && (forall k :: k in counts ==> counts[k] != map[])
    && (forall k, t :: k in counts && t in counts[k] ==> key(t) == k && t in all && counts[k][t] == all[t])
  }

  method CountOne(key: string -> string, counts: map<string, map<string, nat>>, t: string, ghost all: multiset<string>)
    returns (r: map<string, map<string, nat>>)
    requires Counts(key, counts, all)
    ensures Counts(key, r, all + multiset{t})
  {
    var bySpelling: map<string, nat> := if key(t) in counts then counts[key(t)] else map[];
    var n: nat := if t in bySpelling then bySpelling[t] else 0;
    assert n == all[t];
    var more: map<string, nat> := bySpelling[t := n + 1];
    assert t in more;
    r := counts[key(t) := more];
  }

  /** `max_by` over the spellings of one key, met in any order. */
  method MaxBy(key: string -> string, k: string, bySpelling: map<string, nat>, ghost all: multiset<string>)
    returns (best: string)
    requires bySpelling != map[]
    requires forall t :: t in bySpelling ==> key(t) == k && t in all && bySpelling[t] == all[t]
    requires forall t :: t in all && key(t) == k ==> t in bySpelling
    ensures Wins(key, all, k, best)
  {
    var left := bySpelling.Keys;
    assert exists t :: t in left by {
      var t :| t in bySpelling;
      assert t in left;
    }
    best :| best in left;
    left := left - {best};
    while left != {}
      invariant left <= bySpelling.Keys && best in bySpelling && best !in left
      invariant forall u :: u in bySpelling && u !in left ==> u == best || Beats(all, best, u)
      decreases left
    {
      var t :| t in left;
      LessIsTotal(t, best);
      if bySpelling[t] > bySpelling[best] || (bySpelling[t] == bySpelling[best] && Less(t, best)) {
        forall u | u in bySpelling && u !in left ensures Beats(all, t, u) {
          BeatsChain(all, t, best, u);
        }
        best := t;
      }
      left := left - {t};
    }
  }

  lemma BeatsChain(all: multiset<string>, a: string, b: string, c: string)
    requires Beats(all, a, b) && (c == b || Beats(all, b, c))
    ensures Beats(all, a, c)
  {
    if all[a] == all[b] == all[c] && c != b {
      LessIsTransitive(a, b, c);
    }
  }

  lemma OneMoreTag(tags: seq<string>, j: nat, all: multiset<string>)
    requires j < |tags|
    ensures all + multiset(tags[..j]) + multiset{tags[j]} == all + multiset(tags[..j + 1])
  {
    assert tags[..j + 1] == tags[..j] + [tags[j]];
  }

  method CountItem(key: string -> string, counts: map<string, map<string, nat>>, tags: seq<string>,
                   ghost all: multiset<string>)
    returns (r: map<string, map<string, nat>>)
    requires Counts(key, counts, all)
    ensures Counts(key, r, all + multiset(tags))
  {
    r := counts;
    assert tags[..0] == [];
    assert all + multiset(tags[..0]) == all;
    for j := 0 to |tags|
      invariant Counts(key, r, all + multiset(tags[..j]))
    {
      r := CountOne(key, r, tags[j], all + multiset(tags[..j]));
      OneMoreTag(tags, j, all);
    }
    assert tags[..|tags|] == tags;
  }

  method CountAll(key: string -> string, items: seq<seq<string>>) returns (counts: map<string, map<string, nat>>)
    ensures Counts(key, counts, All(items))
  {
    counts := map[];
    assert items[..0] == [];
    for i := 0 to |items|
      invariant Counts(key, counts, All(items[..i]))
    {
      counts := CountItem(key, counts, items[i], All(items[..i]));
      assert items[..i + 1][..i] == items[..i];
    }
    assert items[..|items|] == items;
  }

  method Spellings(key: string -> string, items: seq<seq<string>>) returns (r: map<string, string>)
    ensures AreSpellings(key, All(items), r)
  {
    var counts := CountAll(key, items);
    r := map[];
    var left := counts.Keys;
    while left != {}
      invariant left <= counts.Keys && r.Keys == counts.Keys - left
      invariant forall k :: k in r ==> Wins(key, All(items), k, r[k])
      decreases left
    {
      var k :| k in left;
      var best := MaxBy(key, k, counts[k], All(items));
      r := r[k := best];
      left := left - {k};
    }
  }

  // ---------------------------------------------------------------- taking the vault's spelling

  function Respelt(key: string -> string, t: string, vault: map<string, string>): string {
    if key(t) in vault then vault[key(t)] else t
  }

  function AllRespelt(key: string -> string, tags: seq<string>, vault: map<string, string>): (r: seq<string>)
    ensures |r| == |tags|
  {
    seq(|tags|, i requires 0 <= i < |tags| => Respelt(key, tags[i], vault))
  }

  function Canonical(key: string -> string, tags: seq<string>, vault: map<string, string>): seq<string> {
    Deduped(key, AllRespelt(key, tags, vault))
  }

  method Canonicalize(key: string -> string, tags: seq<string>, vault: map<string, string>) returns (out: seq<string>)
    ensures out == Canonical(key, tags, vault)
  {
    out := DedupeSorted(key, AllRespelt(key, tags, vault));
  }

  predicate KeepsKeys(key: string -> string, vault: map<string, string>) {
    forall k :: k in vault ==> key(vault[k]) == k
  }

  lemma RespeltKeepsKeys(key: string -> string, tags: seq<string>, vault: map<string, string>, k: string)
    requires KeepsKeys(key, vault)
    ensures HasKey(key, AllRespelt(key, tags, vault), k) <==> HasKey(key, tags, k)
  {
    var respelt := AllRespelt(key, tags, vault);
    assert forall i :: 0 <= i < |tags| ==> key(respelt[i]) == key(tags[i]);
  }

  lemma RespeltTag(key: string -> string, tags: seq<string>, vault: map<string, string>, t: string)
    requires KeepsKeys(key, vault) && t in AllRespelt(key, tags, vault)
    ensures if key(t) in vault then t == vault[key(t)] else t in tags
  {
    var i :| 0 <= i < |tags| && AllRespelt(key, tags, vault)[i] == t;
    assert t == Respelt(key, tags[i], vault);
  }

  predicate TakenFrom(key: string -> string, t: string, tags: seq<string>, vault: map<string, string>) {
    if key(t) in vault then t == vault[key(t)] else t in tags
  }

  /** A tag set keeps its tags and takes the vault's spelling of each. */
  lemma CanonicalMeaning(key: string -> string, tags: seq<string>, vault: map<string, string>)
    requires KeepsKeys(key, vault)
    ensures forall k :: HasKey(key, Canonical(key, tags, vault), k) <==> HasKey(key, tags, k)
    ensures forall t :: t in Canonical(key, tags, vault) ==> TakenFrom(key, t, tags, vault)
    ensures SinglySpelt(key, Canonical(key, tags, vault)) && InOrder(key, Canonical(key, tags, vault))
  {
    var respelt := AllRespelt(key, tags, vault);
    DedupedMeaning(key, respelt);
    forall k ensures HasKey(key, Deduped(key, respelt), k) <==> HasKey(key, tags, k) {
      RespeltKeepsKeys(key, tags, vault, k);
    }
    forall t | t in Deduped(key, respelt) ensures TakenFrom(key, t, tags, vault) {
      RespeltTag(key, tags, vault, t);
    }
  }

  // ---------------------------------------------------------------- one spelling in the vault

  /** Every tag has one spelling in all the items. */
  predicate OneSpelling(key: string -> string, items: seq<seq<string>>) {
    forall i, j, t, u :: 0 <= i < |items| && 0 <= j < |items| && t in items[i] && u in items[j] && key(t) == key(u) ==>
        t == u
  }

  lemma {:induction false} InAll(items: seq<seq<string>>, t: string)
    ensures t in All(items) <==> exists i :: 0 <= i < |items| && t in items[i]
  {
    if items != [] {
      var (front, last) := (items[..|items| - 1], items[|items| - 1]);
      InAll(front, t);
      assert t in multiset(last) <==> t in last;
      if i :| 0 <= i < |front| && t in front[i] {
        assert t in items[i];
      }
    }
  }

  function AllCanonical(key: string -> string, items: seq<seq<string>>,
                        vault: map<string, string>): (r: seq<seq<string>>)
    ensures |r| == |items|
  {
    seq(|items|, i requires 0 <= i < |items| => Canonical(key, items[i], vault))
  }

  lemma SpellingsKeepKeys(key: string -> string, all: multiset<string>, vault: map<string, string>)
    requires AreSpellings(key, all, vault)
    ensures KeepsKeys(key, vault)
  {
  }

  lemma {:induction false} KeyIsSpelt(key: string -> string, items: seq<seq<string>>, vault: map<string, string>,
                                      i: nat, k: string)
    requires AreSpellings(key, All(items), vault) && i < |items| && HasKey(key, items[i], k)
    ensures k in vault
  {
    var n :| 0 <= n < |items[i]| && key(items[i][n]) == k;
    InAll(items, items[i][n]);
  }

  /** Every tag of a canonicalised vault is the chosen spelling of its key. */
  lemma {:induction false} CanonicalTag(key: string -> string, items: seq<seq<string>>, vault: map<string, string>,
                                        i: nat, t: string)
    requires AreSpellings(key, All(items), vault) && i < |items| && t in Canonical(key, items[i], vault)
    ensures key(t) in vault && t == vault[key(t)]
  {
    SpellingsKeepKeys(key, All(items), vault);
    CanonicalMeaning(key, items[i], vault);
    var n :| 0 <= n < |Canonical(key, items[i], vault)| && Canonical(key, items[i], vault)[n] == t;
    assert HasKey(key, Canonical(key, items[i], vault), key(t));
    KeyIsSpelt(key, items, vault, i, key(t));
  }

  /** Canonicalising every item against the vault's spellings leaves one
      spelling of each tag in the vault and every item with the tags it had. */
  lemma {:induction false} CanonicalVaultHasOneSpelling(key: string -> string, items: seq<seq<string>>,
                                                        vault: map<string, string>)
    requires AreSpellings(key, All(items), vault)
    ensures OneSpelling(key, AllCanonical(key, items, vault))
    ensures forall i, k :: 0 <= i < |items| ==>
            (HasKey(key, AllCanonical(key, items, vault)[i], k) <==> HasKey(key, items[i], k))
  {
    var after := AllCanonical(key, items, vault);
    SpellingsKeepKeys(key, All(items), vault);
    forall i, t | 0 <= i < |after| && t in after[i] ensures key(t) in vault && t == vault[key(t)] {
      CanonicalTag(key, items, vault, i, t);
    }
    forall i, k | 0 <= i < |items| ensures HasKey(key, after[i], k) <==> HasKey(key, items[i], k) {
      CanonicalMeaning(key, items[i], vault);
    }
  }

  /** It leaves the spellings as they are. */
  lemma {:induction false} CanonicalVaultKeepsSpellings(key: string -> string, items: seq<seq<string>>,
                                                        vault: map<string, string>)
    requires AreSpellings(key, All(items), vault)
    ensures AreSpellings(key, All(AllCanonical(key, items, vault)), vault)
  {
    var after := AllCanonical(key, items, vault);
    forall t | t in All(after) ensures key(t) in vault && t == vault[key(t)] {
      InAll(after, t);
      var i :| 0 <= i < |after| && t in after[i];
      CanonicalTag(key, items, vault, i, t);
    }
    forall k | k in vault ensures Wins(key, All(after), k, vault[k]) {
      StillCarried(key, items, vault, k);
    }
  }

  lemma StillCarried(key: string -> string, items: seq<seq<string>>, vault: map<string, string>, k: string)
    requires AreSpellings(key, All(items), vault) && k in vault
    ensures vault[k] in All(AllCanonical(key, items, vault))
  {
    var after := AllCanonical(key, items, vault);
    assert Wins(key, All(items), k, vault[k]);
    InAll(items, vault[k]);
    var i :| 0 <= i < |items| && vault[k] in items[i];
    SpellingsKeepKeys(key, All(items), vault);
    CanonicalMeaning(key, items[i], vault);
    var n :| 0 <= n < |items[i]| && items[i][n] == vault[k];
    assert HasKey(key, items[i], k);
    var m :| 0 <= m < |after[i]| && key(after[i][m]) == k;
    CanonicalTag(key, items, vault, i, after[i][m]);
    InAll(after, vault[k]);
  }

  /** A second pass, against the spellings then in force, changes nothing. */
  lemma {:induction false} SecondPassChangesNothing(key: string -> string, items: seq<seq<string>>,
                                                    vault: map<string, string>, again: map<string, string>)
    requires AreSpellings(key, All(items), vault)
    requires AreSpellings(key, All(AllCanonical(key, items, vault)), again)
    ensures again == vault
    ensures AllCanonical(key, AllCanonical(key, items, vault), again) == AllCanonical(key, items, vault)
  {
    var after := AllCanonical(key, items, vault);
    CanonicalVaultKeepsSpellings(key, items, vault);
    SpellingsAreUnique(key, All(after), vault, again);
    SpellingsKeepKeys(key, All(items), vault);
    forall i | 0 <= i < |items| ensures Canonical(key, after[i], again) == after[i] {
      CanonicalMeaning(key, items[i], vault);
      forall n | 0 <= n < |after[i]| ensures Respelt(key, after[i][n], vault) == after[i][n] {
        CanonicalTag(key, items, vault, i, after[i][n]);
      }
      assert AllRespelt(key, after[i], again) == after[i];
      DedupedOfDeduped(key, after[i]);
    }
  }

  // ---------------------------------------------------------------- saving one item

  /** An item saved with the spellings of all the other items, which have one
      spelling of each tag, gives no tag a second one; only a tag no other item
      has is stored as it was typed. */
  lemma {:induction false} SavedItemKeepsOneSpelling(key: string -> string, others: seq<seq<string>>,
                                                     vault: map<string, string>, tags: seq<string>)
    requires OneSpelling(key, others) && AreSpellings(key, All(others), vault)
    ensures OneSpelling(key, others + [Canonical(key, tags, vault)])
    ensures forall t :: t in Canonical(key, tags, vault) && key(t) !in vault ==> t in tags
  {
    var saved := Canonical(key, tags, vault);
    SpellingsKeepKeys(key, All(others), vault);
    CanonicalMeaning(key, tags, vault);
    forall i, t, u | 0 <= i < |others| && t in others[i] && u in saved && key(t) == key(u) ensures t == u {
      InAll(others, t);
      OnlySpellingWins(key, others, vault, t);
      assert TakenFrom(key, u, tags, vault);
    }
    forall t | t in saved && key(t) !in vault ensures t in tags {
      assert TakenFrom(key, t, tags, vault);
    }
    OneMoreSpelling(key, others, saved);
  }

  lemma OnlySpellingWins(key: string -> string, items: seq<seq<string>>, vault: map<string, string>, t: string)
    requires OneSpelling(key, items) && AreSpellings(key, All(items), vault) && t in All(items)
    ensures key(t) in vault && vault[key(t)] == t
  {
    InAll(items, t);
    assert Wins(key, All(items), key(t), vault[key(t)]);
    InAll(items, vault[key(t)]);
  }

  lemma FewerItemsOneSpelling(key: string -> string, items: seq<seq<string>>, fewer: seq<seq<string>>)
    requires OneSpelling(key, items) && forall tags :: tags in fewer ==> tags in items
    ensures OneSpelling(key, fewer)
  {
    forall i, j, t, u | 0 <= i < |fewer| && 0 <= j < |fewer| && t in fewer[i] && u in fewer[j] && key(t) == key(u)
      ensures t == u
    {
      assert fewer[i] in items && fewer[j] in items;
      var m :| 0 <= m < |items| && items[m] == fewer[i];
      var n :| 0 <= n < |items| && items[n] == fewer[j];
    }
  }

  /** Saving an item leaves one spelling per tag exactly when the others have one: it
      takes theirs wherever they have the tag, whatever it was stored with. */
  lemma {:induction false} SavingHealsExactly(key: string -> string, items: seq<seq<string>>, i: nat,
                                              vault: map<string, string>, tags: seq<string>)
    requires i < |items| && AreSpellings(key, All(items[i := []]), vault)
    ensures var saved := Canonical(key, tags, vault);
            && (OneSpelling(key, items[i := saved]) <==> OneSpelling(key, items[i := []]))
            && forall t :: t in saved && key(t) in vault ==> t == vault[key(t)]
  {
    var (saved, others) := (Canonical(key, tags, vault), items[i := []]);
    SpellingsKeepKeys(key, All(others), vault);
    CanonicalMeaning(key, tags, vault);
    forall t | t in saved && key(t) in vault ensures t == vault[key(t)] {
      assert TakenFrom(key, t, tags, vault);
    }
    if OneSpelling(key, others) {
      SavedAmongOthers(key, items, i, others, items[i := saved], vault, tags);
    } else {
      ClearedAgain(key, items, i, saved);
    }
  }

  lemma ClearedAgain(key: string -> string, items: seq<seq<string>>, i: nat, tags: seq<string>)
    requires i < |items|
    ensures OneSpelling(key, items[i := tags]) ==> OneSpelling(key, items[i := []])
  {
    assert items[i := tags][i := []] == items[i := []];
    if OneSpelling(key, items[i := tags]) {
      ClearedKeepsOneSpelling(key, items[i := tags], i);
    }
  }

  lemma SavedAmongOthers(key: string -> string, items: seq<seq<string>>, i: nat, others: seq<seq<string>>,
                         after: seq<seq<string>>,
                         vault: map<string, string>, tags: seq<string>)
    requires i < |items| && others == items[i := []] && after == items[i := Canonical(key, tags, vault)]
    requires AreSpellings(key, All(others), vault) && OneSpelling(key, others)
    ensures OneSpelling(key, after)
  {
    var saved := Canonical(key, tags, vault);
    SavedItemKeepsOneSpelling(key, others, vault, tags);
    SavedInPlace(items, i, saved, others, after);
    FewerItemsOneSpelling(key, others + [saved], after);
  }

  lemma SavedInPlace(items: seq<seq<string>>, i: nat, tags: seq<string>, others: seq<seq<string>>,
                     after: seq<seq<string>>)
    requires i < |items| && others == items[i := []] && after == items[i := tags]
    ensures forall x :: x in after ==> x in others + [tags]
  {
    forall j | 0 <= j < |items| ensures after[j] in others + [tags] {
      if j == i {
        assert (others + [tags])[|others|] == tags;
      } else {
        assert others[j] == after[j];
      }
    }
  }

  lemma ClearedKeepsOneSpelling(key: string -> string, items: seq<seq<string>>, i: nat)
    requires i < |items| && OneSpelling(key, items)
    ensures OneSpelling(key, items[i := []])
  {
  }

  /** Two spellings of a tag, in two items, are gone once either of them is saved. */
  lemma {:induction false} TwoItemSplitHeals(key: string -> string, items: seq<seq<string>>, i: nat, j: nat,
                                             vault: map<string, string>, tags: seq<string>)
    requires i < |items| && j < |items| && i != j && forall n :: 0 <= n < |items| && n != i && n != j ==> items[n] == []
    requires SinglySpelt(key, items[j]) && AreSpellings(key, All(items[i := []]), vault)
    ensures OneSpelling(key, items[i := Canonical(key, tags, vault)])
  {
    var others := items[i := []];
    forall m, n, t, u | 0 <= m < |others| && 0 <= n < |others| && t in others[m] && u in others[n] && key(t) == key(u)
      ensures t == u
    {
      assert m == j && n == j;
      var x :| 0 <= x < |items[j]| && items[j][x] == t;
      var y :| 0 <= y < |items[j]| && items[j][y] == u;
    }
    SavingHealsExactly(key, items, i, vault, tags);
  }

  // ---------------------------------------------------------------- saves and arrivals over time

  /** The tag sets of all items, by place, those not stored untagged; and the writes
      staged and not yet answered. */
  datatype Tagging = Tagging(items: seq<seq<string>>, staged: seq<(nat, seq<string>)>)

  /** A save is staged, alone or with the spellings of its batch, and then recorded or
      refused; meanwhile items arrive from other devices as they spelt them, or go. */
  datatype Step =
    | Staging(place: nat, saved: seq<string>)
    | StagingInBatch(place: nat, saved: seq<string>)
    | Recording(k: nat)
    | Dropping(k: nat)
    | Arriving(place: nat, tags: seq<string>)

  function Dropped(staged: seq<(nat, seq<string>)>, k: nat): seq<(nat, seq<string>)>
    requires k < |staged|
  {
    staged[..k] + staged[k + 1..]
  }

  function Recorded(s: Tagging, k: nat): Tagging {
    if k < |s.staged| && s.staged[k].0 < |s.items| then
      Tagging(s.items[s.staged[k].0 := s.staged[k].1], Dropped(s.staged, k))
    else s
  }

  /** The item saved is left out of the lookup; what is staged is not in it either,
      unless by the same batch, whose spellings may be of any earlier moment. */
  ghost predicate Next(key: string -> string, s: Tagging, step: Step, t: Tagging) {
    match step
    case Staging(i, saved) =>
      && i < |s.items| && t == s.(staged := s.staged + [(i, saved)])
      && exists tags, vault :: AreSpellings(key, All(s.items[i := []]), vault) && saved == Canonical(key, tags, vault)
    case StagingInBatch(i, saved) =>
      && i < |s.items| && t == s.(staged := s.staged + [(i, saved)])
      && exists tags, batch :: KeepsKeys(key, batch) && saved == Canonical(key, tags, batch)
    case Recording(k) => k < |s.staged| && t == Recorded(s, k)
    case Dropping(k) => k < |s.staged| && t == s.(staged := Dropped(s.staged, k))
    case Arriving(i, tags) => i < |s.items| && t == s.(items := s.items[i := tags])
  }

  ghost predicate Run(key: string -> string, run: seq<Tagging>, steps: seq<Step>) {
    && |run| == |steps| + 1 && Placed(run[0])
    && forall n :: 0 <= n < |steps| ==> Next(key, run[n], steps[n], run[n + 1])
  }

  predicate Placed(s: Tagging) {
    forall e <- s.staged :: e.0 < |s.items|
  }

  ghost predicate Agree(key: string -> string, a: seq<string>, b: seq<string>) {
    forall t, u :: t in a && u in b && key(t) == key(u) ==> t == u
  }

  /** A tag set that may be stored, or is. */
  predicate Entry(s: Tagging, e: (nat, seq<string>)) {
    (e.0 < |s.items| && e.1 == s.items[e.0]) || e in s.staged
  }

  /** Whatever is stored or staged for different items agrees. */
  ghost predicate AllAgree(key: string -> string, s: Tagging) {
    Placed(s) && forall d, e :: Entry(s, d) && Entry(s, e) && (d.0 != e.0 || d == e) ==> Agree(key, d.1, e.1)
  }

  function RecordedAll(s: Tagging, picks: seq<nat>): Tagging
    decreases |picks|
  {
    if picks == [] then s else RecordedAll(Recorded(s, picks[0]), picks[1..])
  }

  /** The vault has one spelling per tag, and keeps it whichever staged writes are
      accepted, in whatever order. */
  ghost predicate KeepsOneSpelling(key: string -> string, s: Tagging) {
    Placed(s) && forall picks: seq<nat> :: OneSpelling(key, RecordedAll(s, picks).items)
  }

  lemma RecordedEntries(s: Tagging, k: nat)
    requires Placed(s)
    ensures Placed(Recorded(s, k)) && forall e :: Entry(Recorded(s, k), e) ==> Entry(s, e)
  {
    if k < |s.staged| {
      assert s.staged[k] in s.staged;
    }
  }

  lemma {:induction false} AgreeingStaysOneSpelling(key: string -> string, s: Tagging, picks: seq<nat>)
    requires AllAgree(key, s)
    ensures OneSpelling(key, RecordedAll(s, picks).items)
    decreases |picks|
  {
    if picks == [] {
      forall i, j, t, u | 0 <= i < |s.items| && 0 <= j < |s.items| && t in s.items[i] && u in s.items[j]
          && key(t) == key(u)
        ensures t == u
      {
        assert Entry(s, (i, s.items[i])) && Entry(s, (j, s.items[j]));
      }
    } else {
      RecordedEntries(s, picks[0]);
      AgreeingStaysOneSpelling(key, Recorded(s, picks[0]), picks[1..]);
    }
  }

  /** Two tag sets of different items, both possible, can be stored together. */
  lemma BothCanBeStored(s: Tagging, d: (nat, seq<string>), e: (nat, seq<string>)) returns (picks: seq<nat>)
    requires Placed(s) && Entry(s, d) && Entry(s, e) && (d.0 != e.0 || d == e)
    ensures var items := RecordedAll(s, picks).items;
            d.0 < |items| && e.0 < |items| && items[d.0] == d.1 && items[e.0] == e.1
  {
    var first := OneCanBeStored(s, d);
    var t := RecordedAll(s, first);
    picks := first;
    if e != d && s.items[e.0] != e.1 {
      var l := StillStaged(s, first, d, e);
      RecordedJoin(s, first, l);
      assert Recorded(t, l).items == t.items[e.0 := e.1];
      picks := first + [l];
    }
  }

  /** What is staged for another item is still staged once `d` is recorded. */
  lemma StillStaged(s: Tagging, first: seq<nat>, d: (nat, seq<string>), e: (nat, seq<string>)) returns (l: nat)
    requires |first| <= 1 && (|first| == 1 ==> first[0] < |s.staged| && s.staged[first[0]] == d) && e != d
             && e in s.staged
    ensures var left := if first == [] then s.staged else Dropped(s.staged, first[0]); l < |left| && left[l] == e
  {
    var k :| 0 <= k < |s.staged| && s.staged[k] == e;
    l := if first == [] || k < first[0] then k else k - 1;
  }

  lemma OneCanBeStored(s: Tagging, d: (nat, seq<string>)) returns (picks: seq<nat>)
    requires Placed(s) && Entry(s, d)
    ensures |picks| <= 1 && (|picks| == 1 ==> picks[0] < |s.staged| && s.staged[picks[0]] == d)
    ensures var t := RecordedAll(s, picks);
            && |t.items| == |s.items| && d.0 < |s.items| && t.items == s.items[d.0 := d.1]
            && t.staged == if picks == [] then s.staged else Dropped(s.staged, picks[0])
  {
    picks := [];
    if s.items[d.0] != d.1 {
      var k :| 0 <= k < |s.staged| && s.staged[k] == d;
      picks := [k];
      assert RecordedAll(Recorded(s, k), []) == Recorded(s, k) && picks[1..] == [];
    }
  }

  lemma RecordedJoin(s: Tagging, first: seq<nat>, k: nat)
    requires |first| <= 1
    ensures RecordedAll(s, first + [k]) == Recorded(RecordedAll(s, first), k)
  {
    if first == [] {
      assert first + [k] == [k] && [k][1..] == [];
    } else {
      var t := Recorded(s, first[0]);
      assert (first + [k])[1..] == [k] && first[1..] == [] && [k][1..] == [];
      assert RecordedAll(s, first) == RecordedAll(t, []) == t;
      assert RecordedAll(t, [k]) == RecordedAll(Recorded(t, k), []) == Recorded(t, k);
    }
  }

  lemma {:induction false} AllAgreeExactly(key: string -> string, s: Tagging)
    ensures AllAgree(key, s) <==> KeepsOneSpelling(key, s)
  {
    if AllAgree(key, s) {
      forall picks: seq<nat> ensures OneSpelling(key, RecordedAll(s, picks).items) {
        AgreeingStaysOneSpelling(key, s, picks);
      }
    }
    if KeepsOneSpelling(key, s) {
      forall d, e | Entry(s, d) && Entry(s, e) && (d.0 != e.0 || d == e) ensures Agree(key, d.1, e.1) {
        var picks := BothCanBeStored(s, d, e);
        assert OneSpelling(key, RecordedAll(s, picks).items);
      }
    }
  }

  /** What a device can look at when it takes a step: a tag set that is staged alone
      agrees with those staged for other items, and one that is staged in a batch or
      arrives with those staged or stored for other items. */
  ghost predicate Compatible(key: string -> string, s: Tagging, step: Step) {
    match step
    case Staging(i, saved) => forall e <- s.staged :: e.0 != i ==> Agree(key, saved, e.1)
    case StagingInBatch(i, saved) => forall e :: Entry(s, e) && e.0 != i ==> Agree(key, saved, e.1)
    case Arriving(i, tags) => Agree(key, tags, tags) && forall e :: Entry(s, e) && e.0 != i ==> Agree(key, tags, e.1)
    case _ => true
  }

  lemma StagedAgreesWithStored(key: string -> string, s: Tagging, i: nat, saved: seq<string>, tags: seq<string>,
                               vault: map<string, string>)
    requires AllAgree(key, s) && i < |s.items|
    requires AreSpellings(key, All(s.items[i := []]), vault) && saved == Canonical(key, tags, vault)
    ensures Agree(key, saved, saved) && forall j :: 0 <= j < |s.items| && j != i ==> Agree(key, saved, s.items[j])
  {
    AgreeingStaysOneSpelling(key, s, []);
    ClearedKeepsOneSpelling(key, s.items, i);
    SavingHealsExactly(key, s.items, i, vault, tags);
    var after := s.items[i := saved];
    assert after[i] == saved && forall j :: 0 <= j < |s.items| && j != i ==> after[j] == s.items[j];
  }

  /** One more staged tag set keeps agreement exactly when it agrees with what there is for other items. */
  lemma OneMoreEntry(key: string -> string, s: Tagging, i: nat, saved: seq<string>)
    requires AllAgree(key, s) && i < |s.items| && Agree(key, saved, saved)
    ensures AllAgree(key, s.(staged := s.staged + [(i, saved)])) <==>
            forall e :: Entry(s, e) && e.0 != i ==> Agree(key, saved, e.1)
  {
    var t := s.(staged := s.staged + [(i, saved)]);
    assert t.staged[|s.staged|] == (i, saved);
    assert forall e :: Entry(t, e) <==> Entry(s, e) || e == (i, saved);
    if forall e :: Entry(s, e) && e.0 != i ==> Agree(key, saved, e.1) {
      forall d, e | Entry(t, d) && Entry(t, e) && (d.0 != e.0 || d == e) ensures Agree(key, d.1, e.1) {
        if d == (i, saved) || e == (i, saved) {
          AgreeBoth(key, d.1, e.1);
        }
      }
    }
  }

  lemma AgreeBoth(key: string -> string, a: seq<string>, b: seq<string>)
    ensures Agree(key, a, b) <==> Agree(key, b, a)
  {
  }

  lemma StagingExactly(key: string -> string, s: Tagging, step: Step, t: Tagging)
    requires AllAgree(key, s) && Next(key, s, step, t) && step.Staging?
    ensures AllAgree(key, t) <==> Compatible(key, s, step)
  {
    var (i, saved) := (step.place, step.saved);
    var tags, vault :| AreSpellings(key, All(s.items[i := []]), vault) && saved == Canonical(key, tags, vault);
    StagedAgreesWithStored(key, s, i, saved, tags, vault);
    OneMoreEntry(key, s, i, saved);
  }

  lemma StagingInBatchExactly(key: string -> string, s: Tagging, step: Step, t: Tagging)
    requires AllAgree(key, s) && Next(key, s, step, t) && step.StagingInBatch?
    ensures AllAgree(key, t) <==> Compatible(key, s, step)
  {
    var tags, batch :| KeepsKeys(key, batch) && step.saved == Canonical(key, tags, batch);
    CanonicalAgrees(key, tags, batch);
    OneMoreEntry(key, s, step.place, step.saved);
  }

  lemma CanonicalAgrees(key: string -> string, tags: seq<string>, batch: map<string, string>)
    requires KeepsKeys(key, batch)
    ensures Agree(key, Canonical(key, tags, batch), Canonical(key, tags, batch))
  {
    var saved := Canonical(key, tags, batch);
    CanonicalMeaning(key, tags, batch);
    forall t, u | t in saved && u in saved && key(t) == key(u) ensures t == u {
      var m :| 0 <= m < |saved| && saved[m] == t;
      var n :| 0 <= n < |saved| && saved[n] == u;
    }
  }

  /** A batch that knows all that is stored and staged for other items is compatible:
      so it is while nothing arrives and nothing else is staged since it started. */
  lemma {:induction false} KnowingBatchIsCompatible(key: string -> string, s: Tagging, i: nat,
                                                    batch: map<string, string>, tags: seq<string>)
    requires KeepsKeys(key, batch)
    requires forall e, t :: Entry(s, e) && e.0 != i && t in e.1 ==> key(t) in batch && batch[key(t)] == t
    ensures Compatible(key, s, StagingInBatch(i, Canonical(key, tags, batch)))
  {
    CanonicalMeaning(key, tags, batch);
    forall e, t, u | Entry(s, e) && e.0 != i && t in Canonical(key, tags, batch) && u in e.1 && key(t) == key(u)
      ensures t == u
    {
      assert TakenFrom(key, t, tags, batch);
    }
  }

  lemma ArrivingExactly(key: string -> string, s: Tagging, step: Step, t: Tagging)
    requires AllAgree(key, s) && Next(key, s, step, t) && step.Arriving?
    ensures AllAgree(key, t) <==> Compatible(key, s, step)
  {
    var (i, tags) := (step.place, step.tags);
    assert Entry(t, (i, tags));
    assert forall e: (nat, seq<string>) :: e.0 != i ==> (Entry(t, e) <==> Entry(s, e));
    assert forall e: (nat, seq<string>) :: e.0 == i ==> (Entry(t, e) ==> e == (i, tags) || Entry(s, e));
  }

  /** A step keeps what is stored and staged in agreement exactly when it is compatible. */
  lemma {:induction false} NextAgreesExactly(key: string -> string, s: Tagging, step: Step, t: Tagging)
    requires AllAgree(key, s) && Next(key, s, step, t)
    ensures AllAgree(key, t) <==> Compatible(key, s, step)
  {
    match step
    case Staging(_, _) => StagingExactly(key, s, step, t);
    case StagingInBatch(_, _) => StagingInBatchExactly(key, s, step, t);
    case Recording(k) => RecordedEntries(s, k);
    case Dropping(k) => assert forall e :: Entry(t, e) ==> Entry(s, e);
    case Arriving(_, _) => ArrivingExactly(key, s, step, t);
  }

  /** Over a run of saves, here and on other devices, every state has one spelling
      per tag, and keeps it whichever staged writes are accepted, exactly when every
      step is compatible. */
  lemma {:induction false} OneSpellingOverRuns(key: string -> string, run: seq<Tagging>, steps: seq<Step>)
    requires Run(key, run, steps) && KeepsOneSpelling(key, run[0])
    ensures (forall n :: 0 <= n < |run| ==> KeepsOneSpelling(key, run[n])) <==>
            (forall n :: 0 <= n < |steps| ==> Compatible(key, run[n], steps[n]))
  {
    if forall n :: 0 <= n < |run| ==> KeepsOneSpelling(key, run[n]) {
      forall n | 0 <= n < |steps| ensures Compatible(key, run[n], steps[n]) {
        var next := n + 1;
        AllAgreeExactly(key, run[n]);
        AllAgreeExactly(key, run[next]);
        NextAgreesExactly(key, run[n], steps[n], run[next]);
      }
    }
    if forall n :: 0 <= n < |steps| ==> Compatible(key, run[n], steps[n]) {
      forall n | 0 <= n < |run| ensures KeepsOneSpelling(key, run[n]) {
        CompatibleSoFar(key, run, steps, n);
      }
    }
  }

  lemma {:induction false} CompatibleSoFar(key: string -> string, run: seq<Tagging>, steps: seq<Step>, n: nat)
    requires Run(key, run, steps) && KeepsOneSpelling(key, run[0]) && n < |run|
    requires forall m :: 0 <= m < n ==> Compatible(key, run[m], steps[m])
    ensures KeepsOneSpelling(key, run[n])
  {
    if n > 0 {
      var before := n - 1;
      CompatibleSoFar(key, run, steps, before);
      AllAgreeExactly(key, run[before]);
      NextAgreesExactly(key, run[before], steps[before], run[n]);
      AllAgreeExactly(key, run[n]);
    }
  }

  // ---------------------------------------------------------------- many new items together

  /** The batch's spellings are those of all it has seen. */
  ghost predicate Knows(key: string -> string, batch: map<string, string>, items: seq<seq<string>>) {
    KeepsKeys(key, batch) && forall i, t :: 0 <= i < |items| && t in items[i] ==> key(t) in batch && batch[key(t)] == t
  }

  function KeysOf(key: string -> string, tags: seq<string>): set<string> {
    set t | t in tags :: key(t)
  }

  lemma OneMoreKey(key: string -> string, tags: seq<string>, i: nat)
    requires i < |tags|
    ensures KeysOf(key, tags[..i + 1]) == KeysOf(key, tags[..i]) + {key(tags[i])}
  {
    assert tags[..i + 1] == tags[..i] + [tags[i]];
  }

  method StageNew(key: string -> string, tags: seq<string>, batch: map<string, string>)
    returns (saved: seq<string>, more: map<string, string>)
    requires KeepsKeys(key, batch)
    ensures saved == Canonical(key, tags, batch)
    ensures more.Keys == batch.Keys + KeysOf(key, saved)
    ensures KeepsKeys(key, more) && forall k :: k in batch ==> more[k] == batch[k]
    ensures forall t :: t in saved ==> more[key(t)] == t
  {
    saved := Canonicalize(key, tags, batch);
    CanonicalMeaning(key, tags, batch);
    more := batch;
    for i := 0 to |saved|
      invariant KeepsKeys(key, more) && more.Keys == batch.Keys + KeysOf(key, saved[..i])
      invariant forall k :: k in batch ==> more[k] == batch[k]
      invariant forall n :: 0 <= n < i ==> more[key(saved[n])] == saved[n]
    {
      assert TakenFrom(key, saved[i], tags, batch);
      OneMoreKey(key, saved, i);
      if key(saved[i]) !in more {
        more := more[key(saved[i]) := saved[i]];
      }
    }
    assert saved[..|saved|] == saved;
  }

  lemma StagedIsKnown(key: string -> string, items: seq<seq<string>>, batch: map<string, string>, saved: seq<string>,
                      more: map<string, string>)
    requires Knows(key, batch, items) && KeepsKeys(key, more)
    requires forall k :: k in batch ==> k in more && more[k] == batch[k]
    requires forall t :: t in saved ==> key(t) in more && more[key(t)] == t
    ensures Knows(key, more, items + [saved])
  {
  }

  lemma KnownTagsAgree(key: string -> string, items: seq<seq<string>>, batch: map<string, string>)
    requires Knows(key, batch, items)
    ensures OneSpelling(key, items)
  {
  }

  lemma SpellingsKnow(key: string -> string, items: seq<seq<string>>, vault: map<string, string>)
    requires OneSpelling(key, items) && AreSpellings(key, All(items), vault)
    ensures Knows(key, vault, items)
  {
    forall i, t | 0 <= i < |items| && t in items[i] ensures key(t) in vault && vault[key(t)] == t {
      InAll(items, t);
      OnlySpellingWins(key, items, vault, t);
    }
  }

  ghost predicate SameTags(key: string -> string, a: seq<string>, b: seq<string>) {
    forall k :: HasKey(key, a, k) <==> HasKey(key, b, k)
  }

  ghost predicate AllSameTags(key: string -> string, a: seq<seq<string>>, b: seq<seq<string>>) {
    |a| == |b| && forall i :: 0 <= i < |a| ==> SameTags(key, a[i], b[i])
  }

  lemma OneMoreSame(key: string -> string, a: seq<seq<string>>, b: seq<seq<string>>, x: seq<string>, y: seq<string>)
    requires AllSameTags(key, a, b) && SameTags(key, x, y)
    ensures AllSameTags(key, a + [x], b + [y])
  {
  }

  lemma CanonicalKeepsTags(key: string -> string, tags: seq<string>, vault: map<string, string>)
    requires KeepsKeys(key, vault)
    ensures SameTags(key, Canonical(key, tags, vault), tags)
  {
    CanonicalMeaning(key, tags, vault);
  }

  /** A batch of new items, staged one after the other before any of them is
      stored: the vault with all of them has one spelling per tag. */
  method StageAllNew(key: string -> string, items: seq<seq<string>>, tagSets: seq<seq<string>>)
    returns (saved: seq<seq<string>>)
    requires OneSpelling(key, items)
    ensures |saved| == |tagSets| && OneSpelling(key, items + saved)
    ensures AllSameTags(key, saved, tagSets)
  {
    var batch := Spellings(key, items);
    SpellingsKnow(key, items, batch);
    saved := [];
    ghost var all := items;
    for i := 0 to |tagSets|
      invariant |saved| == i && all == items + saved && Knows(key, batch, all)
      invariant AllSameTags(key, saved, tagSets[..i])
    {
      CanonicalKeepsTags(key, tagSets[i], batch);
      var tags, more := StageNew(key, tagSets[i], batch);
      StagedIsKnown(key, all, batch, tags, more);
      assert tagSets[..i + 1] == tagSets[..i] + [tagSets[i]];
      OneMoreSame(key, saved, tagSets[..i], tags, tagSets[i]);
      all := all + [tags];
      saved := saved + [tags];
      batch := more;
    }
    assert tagSets[..|tagSets|] == tagSets;
    KnownTagsAgree(key, all, batch);
  }

  // ---------------------------------------------------------------- an item already stored, met in a batch

  function FirstIndex(key: string -> string, tags: seq<string>, k: string): (n: nat)
    requires HasKey(key, tags, k)
    ensures n < |tags| && key(tags[n]) == k
    ensures forall m :: 0 <= m < n ==> key(tags[m]) != k
  {
    if key(tags[0]) == k then 0 else
      assert HasKey(key, tags[1..], k) by {
        var i :| 0 <= i < |tags| && key(tags[i]) == k;
        assert tags[1..][i - 1] == tags[i];
      }
      1 + FirstIndex(key, tags[1..], k)
  }

  /** The spelling a tag set gives a tag the vault does not know is the first it
      was typed with. */
  lemma NewTagKeepsFirstSpelling(key: string -> string, tags: seq<string>, vault: map<string, string>, k: string)
    requires KeepsKeys(key, vault) && k !in vault && HasKey(key, tags, k)
    ensures tags[FirstIndex(key, tags, k)] in Canonical(key, tags, vault)
  {
    var respelt := AllRespelt(key, tags, vault);
    var n := FirstIndex(key, tags, k);
    assert forall i :: 0 <= i < |tags| ==> key(respelt[i]) == key(tags[i]);
    FirstIsKept(key, respelt, n);
    SortSorts(key, Firsts(key, respelt));
    SameMembers(Firsts(key, respelt), Deduped(key, respelt));
  }

  /** What a caller can look at before: for a tag no other stored item has, the
      spelling typed first is the one an item staged earlier in the batch has. */
  predicate StagedSpellingsMatch(key: string -> string, staged: seq<seq<string>>, vault: map<string, string>,
                                 tags: seq<string>)
  {
    forall j, u :: 0 <= j < |staged| && u in staged[j] && key(u) !in vault && HasKey(key, tags, key(u)) ==>
      tags[FirstIndex(key, tags, key(u))] == u
  }

  /** A batch starts from the spellings of everything stored, this item's `old` tags
      too, but the item itself is spelt from the other stored items only, not from
      what the batch staged so far: one spelling per tag survives exactly when its
      own new tags already match. */
  lemma {:induction false} StoredItemInBatchExactly(key: string -> string, others: seq<seq<string>>,
                                                    before: seq<string>, staged: seq<seq<string>>,
                                                    vault: map<string, string>, tags: seq<string>)
    requires OneSpelling(key, others + [before] + staged) && AreSpellings(key, All(others), vault)
    ensures OneSpelling(key, others + staged + [Canonical(key, tags, vault)]) <==>
            StagedSpellingsMatch(key, staged, vault, tags)
  {
    var saved := Canonical(key, tags, vault);
    var items := others + staged;
    WithoutOld(key, others, before, staged);
    SpellingsKeepKeys(key, All(others), vault);
    if OneSpelling(key, items + [saved]) {
      forall j, u | 0 <= j < |staged| && u in staged[j] && key(u) !in vault && HasKey(key, tags, key(u))
        ensures tags[FirstIndex(key, tags, key(u))] == u
      {
        NewTagKeepsFirstSpelling(key, tags, vault, key(u));
        assert (items + [saved])[|others| + j] == staged[j] && (items + [saved])[|items|] == saved;
      }
    }
    if StagedSpellingsMatch(key, staged, vault, tags) {
      forall i, t, u | 0 <= i < |items| && t in items[i] && u in saved && key(t) == key(u) ensures t == u {
        MatchesTheBatch(key, others, staged, vault, tags, i, t, u);
      }
      CanonicalMeaning(key, tags, vault);
      OneMoreSpelling(key, items, saved);
    }
  }

  lemma WithoutOld(key: string -> string, others: seq<seq<string>>, before: seq<string>, staged: seq<seq<string>>)
    requires OneSpelling(key, others + [before] + staged)
    ensures OneSpelling(key, others + staged)
  {
    var (more, fewer) := (others + [before] + staged, others + staged);
    forall x | x in fewer ensures x in more {
      var i :| 0 <= i < |fewer| && fewer[i] == x;
      assert more[if i < |others| then i else i + 1] == x;
    }
    FewerItemsOneSpelling(key, more, fewer);
  }

  /** An item saved in a batch with the tags it is stored with splits nothing: this
      is how an import completes a login already here. */
  lemma {:induction false} StoredTagsInBatchAreSafe(key: string -> string, others: seq<seq<string>>, tags: seq<string>,
                                                    staged: seq<seq<string>>,
                                                    vault: map<string, string>)
    requires OneSpelling(key, others + [tags] + staged) && AreSpellings(key, All(others), vault)
    ensures OneSpelling(key, others + staged + [Canonical(key, tags, vault)])
  {
    var all := others + [tags] + staged;
    forall j, u | 0 <= j < |staged| && u in staged[j] && key(u) !in vault && HasKey(key, tags, key(u))
      ensures tags[FirstIndex(key, tags, key(u))] == u
    {
      assert all[|others|] == tags && all[|others| + 1 + j] == staged[j];
      assert tags[FirstIndex(key, tags, key(u))] in tags;
    }
    StoredItemInBatchExactly(key, others, tags, staged, vault, tags);
  }

  lemma OneMoreSpelling(key: string -> string, items: seq<seq<string>>, saved: seq<string>)
    requires OneSpelling(key, items) && SinglySpelt(key, saved)
    requires forall i, t, u :: 0 <= i < |items| && t in items[i] && u in saved && key(t) == key(u) ==> t == u
    ensures OneSpelling(key, items + [saved])
  {
    forall t, u | t in saved && u in saved && key(t) == key(u) ensures t == u {
      var m :| 0 <= m < |saved| && saved[m] == t;
      var n :| 0 <= n < |saved| && saved[n] == u;
    }
  }

  lemma MatchesTheBatch(key: string -> string, others: seq<seq<string>>, staged: seq<seq<string>>,
                        vault: map<string, string>, tags: seq<string>, i: nat, t: string, u: string)
    requires OneSpelling(key, others + staged) && AreSpellings(key, All(others), vault)
    requires StagedSpellingsMatch(key, staged, vault, tags)
    requires i < |others + staged| && t in (others + staged)[i] && u in Canonical(key, tags, vault) && key(t) == key(u)
    ensures t == u
  {
    SpellingsKeepKeys(key, All(others), vault);
    CanonicalMeaning(key, tags, vault);
    assert TakenFrom(key, u, tags, vault);
    if key(u) in vault {
      assert Wins(key, All(others), key(u), vault[key(u)]);
      InAll(others, u);
      var j :| 0 <= j < |others| && u in others[j];
      assert (others + staged)[j] == others[j];
    } else {
      if i < |others| {
        InAll(others, t);
        assert false;
      }
      assert t in staged[i - |others|];
      UnknownTagIsFirst(key, tags, vault, u);
    }
  }

  lemma UnknownTagIsFirst(key: string -> string, tags: seq<string>, vault: map<string, string>, u: string)
    requires KeepsKeys(key, vault) && key(u) !in vault && u in Canonical(key, tags, vault)
    ensures HasKey(key, tags, key(u)) && tags[FirstIndex(key, tags, key(u))] == u
  {
    var saved := Canonical(key, tags, vault);
    CanonicalMeaning(key, tags, vault);
    var m :| 0 <= m < |saved| && saved[m] == u;
    assert HasKey(key, saved, key(u));
    var first := tags[FirstIndex(key, tags, key(u))];
    NewTagKeepsFirstSpelling(key, tags, vault, key(u));
    var n :| 0 <= n < |saved| && saved[n] == first;
  }
}
