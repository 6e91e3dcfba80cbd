/**
 Sequence numbers as the front end carries them (sequenceNumber.ts): decimal texts, compared and
 incremented by value, in step with the worker's 64-bit numbers.
 */
module SequenceNumbers {
  import opened Common
  import MessageIds
  import Peeking

  /** What the IPC layer may hand over as a sequence number. */
  datatype Input = Text(text: Bytes) | Number(value: int, exact: bool) | Other

  datatype NumberError = NotCanonical | OutOfRange | NotExact

  const MAX_SAFE_INTEGER: int := 0x1f_ffff_ffff_ffff

  predicate Digits(s: Bytes) {
    forall i :: 0 <= i < |s| ==> 48 <= s[i] <= 57
  }

  /** One digit, or several without a leading zero. */
  predicate Canonical(s: Bytes) {
    |s| > 0 && Digits(s) && (s[0] == 48 ==> |s| == 1)
  }

  function Value(s: Bytes): nat
    requires Digits(s)
  {
    if |s| == 0 then 0 else Value(s[..|s| - 1]) * 10 + (s[|s| - 1] as nat - 48)
  }

  function Parse(s: Bytes): Result<nat, NumberError> {
    if !Canonical(s) then Err(NotCanonical)
    else if Value(s) > Peeking.MAX_SEQUENCE then Err(OutOfRange)
    else Ok(Value(s))
  }

  function Normalize(input: Input): Result<Bytes, NumberError> {
    match input
    case Text(s) => (match Parse(s) case Ok(_) => Ok(s) case Err(e) => Err(e))
    case Number(n, exact) =>
      if exact && 0 <= n <= MAX_SAFE_INTEGER then Ok(MessageIds.Decimal(n)) else Err(NotExact)
    case Other => Err(NotExact)
  }

  function Compare(left: Bytes, right: Bytes): Result<int, NumberError> {
    match Parse(left)
    case Err(e) => Err(e)
    case Ok(l) =>
      match Parse(right)
      case Err(e) => Err(e)
      case Ok(r) => Ok(if l < r then -1 else if l > r then 1 else 0)
  }

  /** The text of the next number; none at the end of the 64-bit range. */
  function Increment(s: Bytes): Result<Option<Bytes>, NumberError> {
    match Parse(s)
    case Err(e) => Err(e)
    case Ok(n) => Ok(if n == Peeking.MAX_SEQUENCE then None else Some(MessageIds.Decimal(n + 1)))
  }

  lemma {:induction false} DecimalIsCanonical(n: nat)
    ensures Canonical(MessageIds.Decimal(n)) && Value(MessageIds.Decimal(n)) == n
    ensures n > 0 ==> MessageIds.Decimal(n)[0] != 48
  {
    var d := MessageIds.Decimal(n);
    if n < 10 {
      assert d[..0] == [];
    } else {
      DecimalIsCanonical(n / 10);
      assert d[..|d| - 1] == MessageIds.Decimal(n / 10);
    }
  }

  /** A canonical text is the text of its value: nothing else names the same number. */
  lemma {:induction false} CanonicalIsDecimal(s: Bytes)
    requires Canonical(s)
    ensures MessageIds.Decimal(Value(s)) == s
    ensures |s| > 1 ==> Value(s) >= 10
  {
    var n := |s| - 1;
    if n == 0 {
      assert s[..0] == [];
    } else {
      CanonicalIsDecimal(s[..n]);
      if n == 1 {
        assert s[..n][..0] == [];
      }
      assert s == s[..n] + [s[n]];
    }
  }

  /** Comparing texts is comparing the numbers they name, and equal means the same text. */
  lemma CompareIsOrder(left: Bytes, right: Bytes)
    requires Parse(left).Ok? && Parse(right).Ok?
    ensures Compare(left, right).Ok?
    ensures Compare(left, right).value < 0 <==> Value(left) < Value(right)
    ensures Compare(left, right).value > 0 <==> Value(left) > Value(right)
    ensures Compare(left, right).value == 0 <==> left == right
  {
    CanonicalIsDecimal(left);
    CanonicalIsDecimal(right);
  }

  /** Front end and worker step to the same next number, and stop at the same one. */
  lemma IncrementMatchesWorker(n: nat)
    requires n <= Peeking.MAX_SEQUENCE
    ensures Increment(MessageIds.Decimal(n)) ==
              Ok(match Peeking.NextSequenceNumber(n) case None => None case Some(m) => Some(MessageIds.Decimal(m)))
  {
    DecimalIsCanonical(n);
    IncrementOf(MessageIds.Decimal(n), n);
  }

  lemma IncrementOf(s: Bytes, n: nat)
    requires Canonical(s) && Value(s) == n <= Peeking.MAX_SEQUENCE
    ensures Increment(s) ==
              Ok(match Peeking.NextSequenceNumber(n) case None => None case Some(m) => Some(MessageIds.Decimal(m)))
  {
  }

  /** The next number is the least greater one. */
  lemma IncrementIsNext(s: Bytes, t: Bytes)
    requires Increment(s).Ok? && Increment(s).value.Some? && Parse(t).Ok?
    ensures var next := Increment(s).value.value;
            Parse(next).Ok? && Compare(next, s) == Ok(1) &&
            (Compare(t, s) == Ok(1) ==> Compare(t, next).value >= 0)
  {
    DecimalIsCanonical(Value(s) + 1);
  }

  /** What enters the application state is canonical, in range and exactly the number given. */
  lemma NormalizeIsExact(input: Input)
    requires Normalize(input).Ok?
    ensures var s := Normalize(input).value;
            Parse(s).Ok? &&
            match input
            case Text(given) => s == given
            case Number(n, exact) => exact && Value(s) == n
            case Other => false
  {
    if input.Number? {
      DecimalIsCanonical(input.value);
    }
  }

  /** The text is that of a number, which need not be in range. */
  ghost predicate Names(s: Bytes, n: nat) { s == MessageIds.Decimal(n) }

  /** Exactly the decimal texts of 0 to 2^63 - 1 are accepted, and the other decimal texts are out of range. */
  lemma ParseIff(s: Bytes)
    ensures forall n: nat :: Parse(s) == Ok(n) <==> Names(s, n) && n <= 0x7fff_ffff_ffff_ffff
    ensures Parse(s) == Err(OutOfRange) <==> exists n: nat :: Names(s, n) && n > 0x7fff_ffff_ffff_ffff
    ensures Parse(s) == Err(NotCanonical) <==> forall n: nat :: !Names(s, n)
  {
    forall n: nat | Names(s, n) ensures Canonical(s) && Value(s) == n {
      DecimalIsCanonical(n);
    }
    if Canonical(s) {
      CanonicalIsDecimal(s);
      assert Names(s, Value(s));
    }
  }

  /** What is let in: canonical texts in range, and numbers a double holds exactly. */
  lemma NormalizeIff(input: Input)
    ensures Normalize(input).Ok? <==>
            match input
            case Text(s) => exists n: nat :: Names(s, n) && n <= 0x7fff_ffff_ffff_ffff
            case Number(n, exact) => exact && 0 <= n < 0x20_0000_0000_0000
            case Other => false
  {
    if input.Text? {
      ParseIff(input.text);
      if n: nat :| Names(input.text, n) && n <= 0x7fff_ffff_ffff_ffff {
        assert Parse(input.text) == Ok(n);
      }
    }
  }

  /** A comparison or a next number fails only for a text that is not let in. */
  lemma OnlyBadTextsFail(s: Bytes, t: Bytes)
    ensures Compare(s, t).Ok? <==> Parse(s).Ok? && Parse(t).Ok?
    ensures Increment(s).Ok? <==> Parse(s).Ok?
  {
  }
}
