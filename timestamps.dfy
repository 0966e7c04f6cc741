/**
 * Normalisation of the server's `next_daily_award` into an epoch-millisecond
 * timestamp (the parsing branch of getNextClaimTime).
 */
module Timestamps {
  import opened Wrappers
  import opened Js
  import opened Decimal

  /** A numeric `next_daily_award` below this is in seconds, one at or above it in milliseconds. */
  const SecondsThreshold: int := 10_000_000_000

  const MillisPerSecond: int := 1000

  /**
   * The two library parsers tried on a string value: `new Date(s).getTime()`
   * and `parseInt(s)`. Their behaviour is not modelled, so every property
   * below holds for all of them unless it says otherwise.
   */
  datatype Parsers = Parsers(dateTime: string -> Num, parseInt: string -> Num)

  /** `parseInt` reads a non-empty string of decimal digits as its decimal value. */
  ghost predicate ParsesDecimal(parseInt: string -> Num) {
    forall s :: AllDigits(s) && s != [] ==> parseInt(s) == Int(DigitsValue(s))
  }

  /**
   * The value `nextTimestamp` holds after the branch on the type of the
   * award: None (`undefined`) when the award is neither a number nor a string.
   */
  function Candidate(award: Value, p: Parsers): Option<Num> {
    match award
    case Number(n) => Some(Int(if n < SecondsThreshold then n * MillisPerSecond else n))
    case Text(s) => if p.dateTime(s).NaN? then Some(p.parseInt(s)) else Some(p.dateTime(s))
    case _ => None
  }

  /**
   * The normalised timestamp, or None for the "cannot parse the next claim
   * time" failure: the candidate must be present, not NaN and not 0.
   */
  function NormalizeAward(award: Value, p: Parsers): (r: Option<int>)
    ensures r.Some? ==> r.value != 0
    ensures r.Some? ==> award.Number? || award.Text?
  {
    var c := Candidate(award, p);
    if Present(c) then Some(c.value.value) else None
  }

  /**
   * A numeric award below the threshold is seconds and comes back times
   * 1000, one at or above it comes back unchanged; only 0 is rejected.
   */
  lemma NumericAward(n: int, p: Parsers)
    ensures n < SecondsThreshold && n != 0 ==> NormalizeAward(Number(n), p) == Some(n * 1000)
    ensures n >= SecondsThreshold ==> NormalizeAward(Number(n), p) == Some(n)
    ensures NormalizeAward(Number(n), p) == None <==> n == 0
  {
  }

  /** Negative numbers are not rejected: a negative seconds value is scaled like any other. */
  lemma NegativeAwardAccepted(n: int, p: Parsers)
    requires n < 0
    ensures NormalizeAward(Number(n), p) == Some(n * 1000)
    ensures NormalizeAward(Number(n), p).value < 0
  {
  }

  /**
   * A string award is the date parse when that is a number, and the integer
   * parse only when the date parse is NaN. In particular a date that parses
   * to 0 fails without trying `parseInt`.
   */
  lemma TextAward(s: string, p: Parsers)
    ensures p.dateTime(s).Int? && p.dateTime(s).value != 0 ==>
      NormalizeAward(Text(s), p) == Some(p.dateTime(s).value)
    ensures p.dateTime(s) == Int(0) ==> NormalizeAward(Text(s), p) == None
    ensures p.dateTime(s).NaN? ==>
      NormalizeAward(Text(s), p) ==
        (if p.parseInt(s).Int? && p.parseInt(s).value != 0 then Some(p.parseInt(s).value) else None)
  {
  }

  /** A value that is neither a number nor a string always fails. */
  lemma OtherShapesFail(award: Value, p: Parsers)
    requires !award.Number? && !award.Text?
    ensures NormalizeAward(award, p) == None
  {
  }

  /**
   * The decimal text of a seconds count that is not a date is read by
   * `parseInt` and taken as milliseconds: unlike the same count sent as a
   * number, it is not multiplied by 1000.
   */
  lemma DigitTextNotScaled(n: nat, p: Parsers)
    requires ParsesDecimal(p.parseInt)
    requires p.dateTime(NatToString(n)).NaN?
    requires 0 < n < SecondsThreshold
    ensures NormalizeAward(Text(NatToString(n)), p) == Some(n)
    ensures NormalizeAward(Number(n), p) == Some(n * 1000)
  {
    DigitsValueOfNatToString(n);
  }
}
