/** gvsp_packet_get_timestamp: ticks to nanoseconds in 64 bits, in two parts so that
    the product does not have to fit. */
module GvspTimestamp {
  import opened Bytes

  const NS_PER_S: nat := 1_000_000_000

  /** The ticks joined from timestamp_high and timestamp_low. */
  function Ticks(high: nat, low: nat): nat {
    high * TWO_TO_32 + low
  }

  /** Every operation in uint64_t. */
  function Timestamp(ticks: nat, frequency: nat): nat {
    if frequency < 1 then 0
    else
      var seconds := ticks / frequency;
      var ns := (ticks % frequency * NS_PER_S % TWO_TO_64) / frequency;
      (ns + seconds * NS_PER_S % TWO_TO_64) % TWO_TO_64
  }

  /** The time in nanoseconds, rounded down. */
  function Nanoseconds(ticks: nat, frequency: nat): nat
    requires frequency >= 1
  {
    ticks * NS_PER_S / frequency
  }

  lemma FactorKeepsOrder(a: int, b: int, d: nat)
    requires a <= b
    ensures a * d <= b * d
  {
    assert b * d == a * d + (b - a) * d;
  }

  lemma LessByFactor(a: int, b: int, d: nat)
    requires a * d < b * d
    ensures a < b
  {
    if a >= b {
      FactorKeepsOrder(b, a, d);
    }
  }

  lemma QuotientBounds(x: nat, d: nat)
    requires d >= 1
    ensures 0 <= x / d && x / d * d <= x < (x / d + 1) * d
  {
    assert x == x / d * d + x % d;
  }

  lemma QuotientOf(x: nat, d: nat, q: nat, r: nat)
    requires d >= 1 && x == q * d + r && r < d
    ensures x / d == q
  {
    QuotientBounds(x, d);
    assert (q + 1) * d == q * d + d;
    LessByFactor(q, x / d + 1, d);
    LessByFactor(x / d, q + 1, d);
  }

  lemma DivMod(x: nat, d: nat)
    requires d >= 1
    ensures x == x / d * d + x % d && 0 <= x / d && x % d < d
  {
  }

  lemma Regroup(x: int, s: int, m: int, f: int, n: int, q: int, r: int)
    requires x == s * f + m && m * n == q * f + r
    ensures x * n == (s * n + q) * f + r
  {
    assert x * n == s * f * n + m * n;
    assert (s * n + q) * f == s * n * f + q * f;
    assert s * f * n == s * n * f;
  }

  /** The split: whole seconds and the rest add up to the rounded quotient. */
  lemma SplitQuotient(ticks: nat, frequency: nat)
    requires frequency >= 1
    ensures Nanoseconds(ticks, frequency)
         == ticks / frequency * NS_PER_S + ticks % frequency * NS_PER_S / frequency
  {
    var s, p := ticks / frequency, ticks % frequency * NS_PER_S;
    DivMod(ticks, frequency);
    DivMod(p, frequency);
    Regroup(ticks, s, ticks % frequency, frequency, NS_PER_S, p / frequency, p % frequency);
    QuotientOf(ticks * NS_PER_S, frequency, s * NS_PER_S + p / frequency, p % frequency);
  }

  /** Losing a multiple of 2^64 from the dividend is seen in the quotient by any
      divisor below 2^64. */
  lemma WrapIsSeen(p: nat, frequency: nat)
    requires 1 <= frequency < TWO_TO_64 && p >= TWO_TO_64
    ensures p % TWO_TO_64 / frequency < p / frequency
  {
    var w := p % TWO_TO_64;
    assert w + TWO_TO_64 <= p;
    QuotientBounds(w, frequency);
    QuotientBounds(p, frequency);
    assert (w / frequency + 1) * frequency == w / frequency * frequency + frequency;
    LessByFactor(w / frequency + 1, p / frequency + 1, frequency);
  }

  /** a is what remains of the quotient b of the rest p, s the nanoseconds of the
      whole seconds. */
  lemma WrapCases(computed: int, exact: int, a: int, b: int, s: int, p: int)
    requires 0 <= a && 0 <= s && 0 <= p
    requires computed == (a + s % TWO_TO_64) % TWO_TO_64 && exact == s + b
    requires if p >= TWO_TO_64 then a < b else a == b
    ensures computed == exact <==> p < TWO_TO_64 && exact < TWO_TO_64
  {
  }

  /** The computed time is the rounded quotient exactly when neither the product of
      the rest nor the result overflows 64 bits. */
  lemma TimestampExact(ticks: nat, frequency: nat)
    requires 1 <= frequency < TWO_TO_64 && ticks < TWO_TO_64
    ensures Timestamp(ticks, frequency) == Nanoseconds(ticks, frequency)
       <==> ticks % frequency * NS_PER_S < TWO_TO_64 && Nanoseconds(ticks, frequency) < TWO_TO_64
  {
    var p: nat, s: nat := ticks % frequency * NS_PER_S, ticks / frequency * NS_PER_S;
    SplitQuotient(ticks, frequency);
    if p >= TWO_TO_64 {
      WrapIsSeen(p, frequency);
    } else {
      assert p % TWO_TO_64 == p;
    }
    QuotientBounds(p % TWO_TO_64, frequency);
    WrapCases(Timestamp(ticks, frequency), Nanoseconds(ticks, frequency),
              p % TWO_TO_64 / frequency, p / frequency, s, p);
  }

  /** timestamp_high is the upper half of the ticks, timestamp_low the lower one. */
  lemma TicksOfHalves(ticks: nat, high: nat, low: nat)
    requires high < TWO_TO_32 && low < TWO_TO_32
    ensures Ticks(high, low) < TWO_TO_64
    ensures Ticks(high, low) == ticks <==> ticks / TWO_TO_32 == high && ticks % TWO_TO_32 == low
  {
  }

  /** For every clock of at most 18.4 GHz and every time below 584 years: from the two
      halves of the ticks comes the time in nanoseconds. */
  lemma TimestampInRange(ticks: nat, frequency: nat)
    requires ticks < TWO_TO_64 && frequency >= 1 && (frequency - 1) * NS_PER_S < TWO_TO_64
    requires Nanoseconds(ticks, frequency) < TWO_TO_64
    ensures Timestamp(Ticks(ticks / TWO_TO_32, ticks % TWO_TO_32), frequency) == Nanoseconds(ticks, frequency)
  {
    TicksOfHalves(ticks, ticks / TWO_TO_32, ticks % TWO_TO_32);
    assert ticks % frequency * NS_PER_S <= (frequency - 1) * NS_PER_S;
    TimestampExact(ticks, frequency);
  }

  lemma Between(p: int, q: int, a: int, b: int, d: nat)
    requires p * d <= a <= b < (q + 1) * d
    ensures p <= q
  {
    LessByFactor(p, q + 1, d);
  }

  lemma QuotientMonotone(a: nat, b: nat, d: nat)
    requires a <= b && d >= 1
    ensures a / d <= b / d
  {
    QuotientBounds(a, d);
    QuotientBounds(b, d);
    Between(a / d, b / d, a, b, d);
  }

  /** The pair of halves (high, low) is not later than the other one. */
  predicate NotLater(high: nat, low: nat, laterHigh: nat, laterLow: nat) {
    high < laterHigh || (high == laterHigh && low <= laterLow)
  }

  lemma TicksMonotone(high: nat, low: nat, laterHigh: nat, laterLow: nat)
    requires high < TWO_TO_32 && low < TWO_TO_32 && laterHigh < TWO_TO_32 && laterLow < TWO_TO_32
    requires NotLater(high, low, laterHigh, laterLow)
    ensures Ticks(high, low) <= Ticks(laterHigh, laterLow) < TWO_TO_64
  {
  }

  /** Halves that are not later, in lexicographic order, never get a later time. */
  lemma TimestampMonotone(high: nat, low: nat, laterHigh: nat, laterLow: nat, frequency: nat)
    requires high < TWO_TO_32 && low < TWO_TO_32 && laterHigh < TWO_TO_32 && laterLow < TWO_TO_32
    requires NotLater(high, low, laterHigh, laterLow)
    requires frequency >= 1 && (frequency - 1) * NS_PER_S < TWO_TO_64
    requires Nanoseconds(laterHigh * TWO_TO_32 + laterLow, frequency) < TWO_TO_64
    ensures Timestamp(Ticks(high, low), frequency) <= Timestamp(Ticks(laterHigh, laterLow), frequency)
  {
    TicksMonotone(high, low, laterHigh, laterLow);
    TicksOfHalves(laterHigh * TWO_TO_32 + laterLow, laterHigh, laterLow);
    InOrder(Ticks(high, low), Ticks(laterHigh, laterLow), frequency);
  }

  lemma InOrder(earlier: nat, later: nat, frequency: nat)
    requires earlier <= later < TWO_TO_64
    requires frequency >= 1 && (frequency - 1) * NS_PER_S < TWO_TO_64
    requires Nanoseconds(later, frequency) < TWO_TO_64
    ensures Timestamp(earlier, frequency) <= Timestamp(later, frequency)
  {
    assert earlier % frequency * NS_PER_S <= (frequency - 1) * NS_PER_S;
    assert later % frequency * NS_PER_S <= (frequency - 1) * NS_PER_S;
    assert earlier * NS_PER_S <= later * NS_PER_S;
    QuotientMonotone(earlier * NS_PER_S, later * NS_PER_S, frequency);
    TimestampExact(earlier, frequency);
    TimestampExact(later, frequency);
  }

  /** It wraps: a clock of 2^35 Hz in the first second, and a clock of 1 MHz after
      1142 years. */
  lemma TimestampWraps()
    ensures Timestamp(0x7_FFFF_FFFF, 0x8_0000_0000) != Nanoseconds(0x7_FFFF_FFFF, 0x8_0000_0000)
    ensures Timestamp(0x80_0000_0000_0000, 1_000_000) != Nanoseconds(0x80_0000_0000_0000, 1_000_000)
  {
    TimestampExact(0x7_FFFF_FFFF, 0x8_0000_0000);
    TimestampExact(0x80_0000_0000_0000, 1_000_000);
  }
}
