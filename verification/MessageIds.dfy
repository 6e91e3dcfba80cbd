/**
 The message ids the worker generates (handlers_transfer.go, uniqueBusmanMessageID): a bounded
 original, the clock, and a process-wide 64-bit counter.
 */
module MessageIds {
  import opened Common

  const DASH: byte := 45
  const BUSMAN: Bytes := [98, 117, 115, 109, 97, 110, 45] // "busman-"
  const MAX_MESSAGE_ID_LENGTH := 128
  const TWO_TO_64: nat := 0x1_0000_0000_0000_0000

  /** The clock in nanoseconds, a signed 64-bit number. */
  type Nanos = x: int | -0x8000_0000_0000_0000 <= x < 0x8000_0000_0000_0000

  function Decimal(n: nat): (digits: Bytes)
    ensures |digits| >= 1
    ensures n < 10 ==> |digits| == 1
  {
    if n < 10 then [48 + n as byte] else Decimal(n / 10) + [48 + (n % 10) as byte]
  }

  function SignedDecimal(n: int): Bytes {
    if n < 0 then [DASH] + Decimal(-n) else Decimal(n)
  }

  function Suffix(nanos: Nanos, sequence: nat): Bytes {
    BUSMAN + SignedDecimal(nanos) + [DASH] + Decimal(sequence)
  }

  function UniqueMessageId(original: Bytes, nanos: Nanos, sequence: nat): Bytes {
    var suffix := Suffix(nanos, sequence);
    if original == [] then suffix
    else
      var room := MAX_MESSAGE_ID_LENGTH - |suffix| - 1;
      if room <= 0 then suffix
      else (if |original| > room then original[..room] else original) + [DASH] + suffix
  }

  /** As much of the original as fits in front of the suffix. */
  function Kept(original: Bytes, nanos: Nanos, sequence: nat): Bytes {
    var room := MAX_MESSAGE_ID_LENGTH - |Suffix(nanos, sequence)| - 1;
    if room <= 0 then [] else original[..Min(|original|, room)]
  }

  /** The counter after `calls` further increments from `start`, wrapping at 64 bits. */
  function Counter(start: nat, calls: nat): nat {
    (start + calls) % TWO_TO_64
  }

  function PowerOfTen(k: nat): nat {
    if k == 0 then 1 else 10 * PowerOfTen(k - 1)
  }

  lemma {:induction false} DecimalLength(n: nat, k: nat)
    requires 1 <= k && n < PowerOfTen(k)
    ensures 1 <= |Decimal(n)| <= k
  {
    assert PowerOfTen(1) == 10;
    if n >= 10 {
      DecimalLength(n / 10, k - 1);
    }
  }

  lemma {:induction false} DecimalDigits(n: nat)
    ensures forall i :: 0 <= i < |Decimal(n)| ==> 48 <= Decimal(n)[i] <= 57
  {
    if n >= 10 {
      DecimalDigits(n / 10);
    }
  }

  lemma {:induction false} DecimalInjective(a: nat, b: nat)
    requires Decimal(a) == Decimal(b)
    ensures a == b
  {
    var da, db := Decimal(a), Decimal(b);
    assert da[|da| - 1] == db[|db| - 1];
    if a >= 10 && b >= 10 {
      assert Decimal(a / 10) == da[..|da| - 1] && Decimal(b / 10) == db[..|db| - 1];
      DecimalInjective(a / 10, b / 10);
    }
  }

  /** What comes before the suffix: nothing, or what is kept and a dash. */
  function Front(original: Bytes, nanos: Nanos, sequence: nat): Bytes {
    if Kept(original, nanos, sequence) == [] then [] else Kept(original, nanos, sequence) + [DASH]
  }

  /** Whatever precedes it, an id ends in a dash and the digits of its counter value. */
  lemma EndsInCounter(original: Bytes, nanos: Nanos, sequence: nat)
    ensures UniqueMessageId(original, nanos, sequence) ==
            (Front(original, nanos, sequence) + BUSMAN + SignedDecimal(nanos)) + [DASH] + Decimal(sequence)
  {
    FrontAndSuffix(original, nanos, sequence);
    Regrouped(Front(original, nanos, sequence), BUSMAN, SignedDecimal(nanos), Decimal(sequence));
  }

  lemma FrontAndSuffix(original: Bytes, nanos: Nanos, sequence: nat)
    ensures UniqueMessageId(original, nanos, sequence) == Front(original, nanos, sequence) + Suffix(nanos, sequence)
  {
    assert [] + Suffix(nanos, sequence) == Suffix(nanos, sequence);
    assert original[..|original|] == original;
  }

  lemma Regrouped(a: Bytes, b: Bytes, c: Bytes, d: Bytes)
    ensures a + (b + c + [DASH] + d) == (a + b + c) + [DASH] + d
  {
  }

  /** Two texts that agree agree on both sides of the last dash. */
  lemma SameAroundDash(h1: Bytes, d1: Bytes, h2: Bytes, d2: Bytes)
    requires DASH !in d1 && DASH !in d2 && h1 + [DASH] + d1 == h2 + [DASH] + d2
    ensures h1 == h2 && d1 == d2
  {
    var a, b := h1 + [DASH] + d1, h2 + [DASH] + d2;
    assert a[|h1|] == DASH && b[|h2|] == DASH;
    assert a[..|h1|] == h1 && b[..|h2|] == h2;
    assert a[|h1| + 1..] == d1 && b[|h2| + 1..] == d2;
  }

  function Absolute(n: int): nat { if n < 0 then -n else n }

  /** The sign shows before the last dash: another dash, or the end of the name. */
  function BeforeDigits(front: Bytes, n: int): Bytes {
    front + if n < 0 then BUSMAN else BUSMAN[..|BUSMAN| - 1]
  }

  lemma ClockAfterDash(front: Bytes, n: int)
    ensures front + BUSMAN + SignedDecimal(n) == BeforeDigits(front, n) + [DASH] + Decimal(Absolute(n))
  {
  }

  /** The clock and what precedes it can be read off. */
  lemma SameClock(f1: Bytes, n1: int, f2: Bytes, n2: int)
    requires f1 + BUSMAN + SignedDecimal(n1) == f2 + BUSMAN + SignedDecimal(n2)
    ensures f1 == f2 && n1 == n2
  {
    ClockAfterDash(f1, n1);
    ClockAfterDash(f2, n2);
    DecimalDigits(Absolute(n1));
    DecimalDigits(Absolute(n2));
    var y1, y2 := BeforeDigits(f1, n1), BeforeDigits(f2, n2);
    SameAroundDash(y1, Decimal(Absolute(n1)), y2, Decimal(Absolute(n2)));
    DecimalInjective(Absolute(n1), Absolute(n2));
    assert y1[|y1| - 1] == (if n1 < 0 then DASH else 110);
    assert y2[|y2| - 1] == (if n2 < 0 then DASH else 110);
    assert y1[..|f1|] == f1 && y2[..|f2|] == f2;
  }

  /** Ids are equal exactly when counter value, clock and what is kept of the original are. */
  lemma SameIdIff(o1: Bytes, n1: Nanos, s1: nat, o2: Bytes, n2: Nanos, s2: nat)
    requires s1 < TWO_TO_64 && s2 < TWO_TO_64
    ensures UniqueMessageId(o1, n1, s1) == UniqueMessageId(o2, n2, s2) <==>
              s1 == s2 && n1 == n2 && Kept(o1, n1, s1) == Kept(o2, n2, s2)
    ensures (Kept(o1, n1, s1) == [] <==> o1 == []) && (Kept(o2, n2, s2) == [] <==> o2 == [])
  {
    SuffixIsShort(n1, s1);
    SuffixIsShort(n2, s2);
    EndsInCounter(o1, n1, s1);
    EndsInCounter(o2, n2, s2);
    if UniqueMessageId(o1, n1, s1) == UniqueMessageId(o2, n2, s2) {
      var f1, f2 := Front(o1, n1, s1), Front(o2, n2, s2);
      DecimalDigits(s1);
      DecimalDigits(s2);
      SameAroundDash(f1 + BUSMAN + SignedDecimal(n1), Decimal(s1), f2 + BUSMAN + SignedDecimal(n2), Decimal(s2));
      DecimalInjective(s1, s2);
      SameClock(f1, n1, f2, n2);
      assert f1 != [] ==> Kept(o1, n1, s1) == f1[..|f1| - 1];
      assert f2 != [] ==> Kept(o2, n2, s2) == f2[..|f2| - 1];
    }
  }

  /** Ids with different counter values differ, for any originals and any clock. */
  lemma DistinctCountersDistinctIds(o1: Bytes, n1: Nanos, s1: nat, o2: Bytes, n2: Nanos, s2: nat)
    requires s1 != s2
    ensures UniqueMessageId(o1, n1, s1) != UniqueMessageId(o2, n2, s2)
  {
    EndsInCounter(o1, n1, s1);
    EndsInCounter(o2, n2, s2);
    DecimalDigits(s1);
    DecimalDigits(s2);
    if UniqueMessageId(o1, n1, s1) == UniqueMessageId(o2, n2, s2) {
      SameAroundDash(Front(o1, n1, s1) + BUSMAN + SignedDecimal(n1), Decimal(s1),
                     Front(o2, n2, s2) + BUSMAN + SignedDecimal(n2), Decimal(s2));
      DecimalInjective(s1, s2);
    }
  }

  lemma CounterRepeatsIff(a: nat, b: nat)
    requires a < b
    ensures a % TWO_TO_64 == b % TWO_TO_64 <==> (b - a) % TWO_TO_64 == 0
    ensures b - a < TWO_TO_64 ==> (b - a) % TWO_TO_64 != 0
  {
    assert a == a / TWO_TO_64 * TWO_TO_64 + a % TWO_TO_64;
    assert b == b / TWO_TO_64 * TWO_TO_64 + b % TWO_TO_64;
    var d := b - a;
    assert d == d / TWO_TO_64 * TWO_TO_64 + d % TWO_TO_64;
  }

  /**
   Two ids of one process are equal exactly when their calls are a multiple of 2^64 apart, the clock
   read the same, and the same was kept of the originals; so any 2^64 consecutive ids differ.
   */
  lemma IdsDistinct(start: nat, i: nat, j: nat, o1: Bytes, n1: Nanos, o2: Bytes, n2: Nanos)
    requires i < j
    ensures UniqueMessageId(o1, n1, Counter(start, i)) == UniqueMessageId(o2, n2, Counter(start, j)) <==>
              (j - i) % TWO_TO_64 == 0 && n1 == n2 && Kept(o1, n1, Counter(start, i)) == Kept(o2, n2, Counter(start, j))
    ensures j - i < TWO_TO_64 ==>
              UniqueMessageId(o1, n1, Counter(start, i)) != UniqueMessageId(o2, n2, Counter(start, j))
  {
    var a, b := Counter(start, i), Counter(start, j);
    assert (a == b <==> (j - i) % TWO_TO_64 == 0) && (j - i < TWO_TO_64 ==> a != b) by {
      CounterRepeatsIff(start + i, start + j);
    }
    SameIdIff(o1, n1, a, o2, n2, b);
  }

  lemma SuffixIsShort(nanos: Nanos, sequence: nat)
    requires sequence < TWO_TO_64
    ensures 0 < |Suffix(nanos, sequence)| <= 49
  {
    assert PowerOfTen(20) == 100_000_000_000_000_000_000 by {
      assert PowerOfTen(5) == 100_000;
      assert PowerOfTen(10) == 10_000_000_000;
      assert PowerOfTen(15) == 1_000_000_000_000_000;
    }
    DecimalLength(sequence, 20);
    DecimalLength(Absolute(nanos), 20);
  }

  /** An id never exceeds the broker's limit, and keeps as much of the original as that allows. */
  lemma IdFits(original: Bytes, nanos: Nanos, sequence: nat)
    requires sequence < TWO_TO_64
    ensures var id := UniqueMessageId(original, nanos, sequence);
            0 < |id| <= MAX_MESSAGE_ID_LENGTH &&
            (original != [] ==>
               exists k :: 0 < k <= |original| && (k == |original| || |id| == MAX_MESSAGE_ID_LENGTH) &&
                 original[..k] + [DASH] <= id)
  {
    SuffixIsShort(nanos, sequence);
    var suffix := Suffix(nanos, sequence);
    if original != [] {
      var k := KeptFits(original, suffix);
      assert UniqueMessageId(original, nanos, sequence) == original[..k] + [DASH] + suffix;
    }
  }

  lemma KeptFits(original: Bytes, suffix: Bytes) returns (k: nat)
    requires original != [] && |suffix| <= 49
    ensures 0 < k <= |original| && k == Min(|original|, MAX_MESSAGE_ID_LENGTH - |suffix| - 1)
    ensures original[..k] + [DASH] <= original[..k] + [DASH] + suffix
    ensures |original[..k] + [DASH] + suffix| == k + 1 + |suffix|
  {
    k := Min(|original|, MAX_MESSAGE_ID_LENGTH - |suffix| - 1);
  }
}
