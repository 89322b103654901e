/**
 The Luhn check digit of a card number (ISO/IEC 7812-1, Annex B).
 */
module Luhn {
  import opened Texts

  function DigitOf(c: char): (d: nat)
    requires IsDigit(c)
    ensures d <= 9
  {
    (c - '0') as nat
  }

  /** A doubled digit, its two digits added up. */
  function Doubled(d: nat): nat {
    if 2 * d > 9 then 2 * d - 9 else 2 * d
  }

  /** What a digit adds at the i-th place from the right. */
  function Term(c: char, i: nat): nat
    requires IsDigit(c)
  {
    if i % 2 == 1 then Doubled(DigitOf(c)) else DigitOf(c)
  }

  /** The terms added up from the right, the last digit at place `place`. */
  function Sum(s: string, place: nat): nat
    requires AllDigits(s)
  {
    if s == [] then 0 else Sum(s[..|s| - 1], place + 1) + Term(s[|s| - 1], place)
  }

  predicate EndsInZero(n: nat) {
    n % 10 == 0
  }

  predicate CheckDigitOk(digits: string) {
    digits != [] && AllDigits(digits) && EndsInZero(Sum(digits, 0))
  }

  // ---------------------------------------------------------------- as the standard says it

  /** The digit `k` places from the right, the check digit itself being at 0. */
  function FromRight(digits: string, k: nat): (d: nat)
    requires AllDigits(digits) && k < |digits|
    ensures d <= 9
  {
    (digits[|digits| - 1 - k] - '0') as nat
  }

  /** From the digit before the check digit leftwards every other digit is doubled; all
      decimal digits so obtained, and the digits not doubled, are added up from place `k`. */
  function StandardSum(digits: string, k: nat): nat
    requires AllDigits(digits) && k <= |digits|
    decreases |digits| - k
  {
    if k == |digits| then 0
    else
      var d := FromRight(digits, k);
      (if k % 2 == 1 then 2 * d / 10 + 2 * d % 10 else d) + StandardSum(digits, k + 1)
  }

  lemma {:induction false} SumIsStandard(digits: string, k: nat)
    requires AllDigits(digits) && k <= |digits|
    ensures Sum(digits[..|digits| - k], k) == StandardSum(digits, k)
    decreases |digits| - k
  {
    var part := digits[..|digits| - k];
    if k < |digits| {
      SumIsStandard(digits, k + 1);
      assert part[..|part| - 1] == digits[..|digits| - (k + 1)];
      DoubledIsDigitSum(FromRight(digits, k));
    }
  }

  lemma DoubledIsDigitSum(d: nat)
    requires d <= 9
    ensures Doubled(d) == 2 * d / 10 + 2 * d % 10
  {
  }

  /** A number is accepted exactly when the standard's sum ends in 0. */
  lemma {:induction false} AcceptedAsStandard(digits: string)
    ensures CheckDigitOk(digits) <==> digits != [] && AllDigits(digits) && StandardSum(digits, 0) % 10 == 0
  {
    if AllDigits(digits) {
      assert digits[..|digits| - 0] == digits;
      SumIsStandard(digits, 0);
    }
  }

  // ---------------------------------------------------------------- what it catches

  lemma {:induction false} SumOfTwo(a: string, b: string, place: nat)
    requires AllDigits(a) && AllDigits(b)
    ensures AllDigits(a + b) && Sum(a + b, place) == Sum(a, place + |b|) + Sum(b, place)
  {
    if b == [] {
      assert a + b == a;
    } else {
      SumOfTwo(a, b[..|b| - 1], place + 1);
      assert (a + b)[..|a + b| - 1] == a + b[..|b| - 1];
    }
  }

  predicate SameEnd(m: nat, n: nat) {
    m % 10 == n % 10
  }

  lemma SameAsZero(s: nat, t: nat, rest: nat, x: nat, y: nat)
    requires s == rest + x && t == rest + y && EndsInZero(s)
    ensures EndsInZero(t) <==> SameEnd(x, y)
  {
  }

  lemma SumAround(left: string, x: string, right: string)
    requires AllDigits(left) && AllDigits(x) && AllDigits(right)
    ensures AllDigits(left + x + right)
    ensures Sum(left + x + right, 0) == Sum(left, |x| + |right|) + Sum(right, 0) + Sum(x, |right|)
  {
    SumOfTwo(left + x, right, 0);
    SumOfTwo(left, x, |right|);
  }

  lemma ReplacedSum(left: string, x: string, y: string, right: string)
    requires AllDigits(left) && AllDigits(x) && AllDigits(y) && AllDigits(right) && |x| == |y|
    ensures AllDigits(left + x + right) && AllDigits(left + y + right)
    ensures EndsInZero(Sum(left + x + right, 0)) ==>
              (EndsInZero(Sum(left + y + right, 0)) <==> SameEnd(Sum(x, |right|), Sum(y, |right|)))
  {
    SumAround(left, x, right);
    SumAround(left, y, right);
    var (s, t) := (Sum(left + x + right, 0), Sum(left + y + right, 0));
    if EndsInZero(s) {
      SameAsZero(s, t, Sum(left, |x| + |right|) + Sum(right, 0), Sum(x, |right|), Sum(y, |right|));
    }
  }

  /** A part put in the place of another keeps the number valid exactly when it
      adds the same there. */
  lemma {:induction false} Replaced(left: string, x: string, y: string, right: string)
    requires AllDigits(left) && AllDigits(x) && AllDigits(y) && AllDigits(right) && |x| == |y| > 0
    requires CheckDigitOk(left + x + right)
    ensures CheckDigitOk(left + y + right) <==> SameEnd(Sum(x, |right|), Sum(y, |right|))
  {
    ReplacedSum(left, x, y, right);
    assert |left + y + right| > 0;
  }

  /** No two digits add the same at one place. */
  lemma TermTellsDigits(c: char, d: char, place: nat)
    requires IsDigit(c) && IsDigit(d) && Term(c, place) % 10 == Term(d, place) % 10
    ensures c == d
  {
    DoubledTellsDigits(DigitOf(c), DigitOf(d));
  }

  lemma DoubledTellsDigits(c: nat, d: nat)
    requires c <= 9 && d <= 9
    ensures Doubled(c) <= 9 && (Doubled(c) == Doubled(d) <==> c == d)
  {
  }

  lemma OneDigit(c: char, place: nat)
    requires IsDigit(c)
    ensures AllDigits([c]) && Sum([c], place) == Term(c, place)
  {
    assert [c][..0] == [];
  }

  /** One digit of a valid number mistyped makes it invalid, wherever it stands. */
  lemma {:induction false} OneWrongDigitIsCaught(digits: string, i: nat, d: char)
    requires CheckDigitOk(digits) && i < |digits| && IsDigit(d) && d != digits[i]
    ensures !CheckDigitOk(digits[i := d])
  {
    var (left, right) := (digits[..i], digits[i + 1..]);
    assert digits == left + [digits[i]] + right && digits[i := d] == left + [d] + right;
    Replaced(left, [digits[i]], [d], right);
    OneDigit(digits[i], |right|);
    OneDigit(d, |right|);
    if Term(digits[i], |right|) % 10 == Term(d, |right|) % 10 {
      TermTellsDigits(digits[i], d, |right|);
    }
  }

  lemma TwoDigits(c: char, d: char, place: nat)
    requires IsDigit(c) && IsDigit(d)
    ensures AllDigits([c, d]) && Sum([c, d], place) == Term(c, place + 1) + Term(d, place)
  {
    assert [c, d][..1] == [c];
    OneDigit(c, place + 1);
  }

  /** What a swap of neighbours changes: nothing but 0 with 9 goes unnoticed. */
  lemma SwapTellsDigits(c: nat, d: nat)
    requires c <= 9 && d <= 9
    ensures (Doubled(c) + d) % 10 == (Doubled(d) + c) % 10 <==> c == d || {c, d} == {0, 9}
  {
    assert c == d || {c, d} == {0, 9} <==> c == d || (c == 0 && d == 9) || (c == 9 && d == 0);
    OnlyZeroAndNine(c, d);
  }

  lemma SameRemainder(x: nat, y: nat)
    requires -10 < x - y < 10
    ensures x % 10 == y % 10 <==> x == y
  {
  }

  lemma OnlyZeroAndNine(c: nat, d: nat)
    requires c <= 9 && d <= 9
    ensures (Doubled(c) + d) % 10 == (Doubled(d) + c) % 10 <==> c == d || (c == 0 && d == 9) || (c == 9 && d == 0)
  {
    var (x, y) := (Doubled(c) + d, Doubled(d) + c);
    SameRemainder(x, y);
    assert x - y == c - d || (c <= 4 < d && x - y == c - d + 9) || (d <= 4 < c && x - y == c - d - 9);
  }

  function Swapped(digits: string, i: nat): string
    requires i + 1 < |digits|
  {
    digits[i := digits[i + 1]][i + 1 := digits[i]]
  }

  /** Two different neighbours of a valid number swapped make it invalid, unless
      they are 0 and 9: then it stays valid. */
  lemma {:induction false} SwapIsCaughtExactly(digits: string, i: nat)
    requires CheckDigitOk(digits) && i + 1 < |digits| && digits[i] != digits[i + 1]
    ensures CheckDigitOk(Swapped(digits, i)) <==> {digits[i], digits[i + 1]} == {'0', '9'}
  {
    var (left, right) := (digits[..i], digits[i + 2..]);
    var (c, d) := (digits[i], digits[i + 1]);
    assert digits == left + [c, d] + right && Swapped(digits, i) == left + [d, c] + right;
    Replaced(left, [c, d], [d, c], right);
    TwoDigits(c, d, |right|);
    TwoDigits(d, c, |right|);
    SwapSums(c, d, |right|);
    ZeroAndNine(c, d);
  }

  lemma SwapSums(c: char, d: char, place: nat)
    requires IsDigit(c) && IsDigit(d)
    ensures (Term(c, place + 1) + Term(d, place)) % 10 == (Term(d, place + 1) + Term(c, place)) % 10
            <==> c == d || {DigitOf(c), DigitOf(d)} == {0, 9}
  {
    SwapTellsDigits(DigitOf(c), DigitOf(d));
    assert c == d <==> DigitOf(c) == DigitOf(d);
    if place % 2 == 0 {
      assert (place + 1) % 2 == 1;
    } else {
      assert (place + 1) % 2 == 0;
    }
  }

  lemma ZeroAndNine(c: char, d: char)
    requires IsDigit(c) && IsDigit(d)
    ensures {DigitOf(c), DigitOf(d)} == {0, 9} <==> {c, d} == {'0', '9'}
  {
    assert {c, d} == {'0', '9'} <==> (c == '0' && d == '9') || (c == '9' && d == '0');
    assert {DigitOf(c), DigitOf(d)} == {0, 9} <==>
           (DigitOf(c) == 0 && DigitOf(d) == 9) || (DigitOf(c) == 9 && DigitOf(d) == 0);
  }

  function CharOf(d: nat): (c: char)
    requires d <= 9
    ensures IsDigit(c) && DigitOf(c) == d
  {
    '0' + d as char
  }

  function CheckDigitFor(payload: string): (c: char)
    requires AllDigits(payload)
    ensures IsDigit(c)
  {
    CharOf((10 - Sum(payload, 1) % 10) % 10)
  }

  /** Every digit string is completed by exactly one check digit. */
  lemma {:induction false} OneCheckDigit(payload: string, c: char)
    requires AllDigits(payload)
    ensures CheckDigitOk(payload + [c]) <==> c == CheckDigitFor(payload)
  {
    if IsDigit(c) {
      SumOfTwo(payload, [c], 0);
      OneDigit(c, 0);
      assert Sum(payload + [c], 0) == Sum(payload, 1) + DigitOf(c);
      Completes(Sum(payload, 1), DigitOf(c));
      assert c == CheckDigitFor(payload) <==> DigitOf(c) == DigitOf(CheckDigitFor(payload));
    } else {
      assert (payload + [c])[|payload|] == c;
    }
  }

  lemma Completes(sum: nat, d: nat)
    requires d <= 9
    ensures (sum + d) % 10 == 0 <==> d == (10 - sum % 10) % 10
  {
  }
}
