/**
 * `org.jooq.types.DayToSecond`, the SQL `INTERVAL DAY TO SECOND` value:
 * a sign flag and five `int` components (days, hours, minutes, seconds,
 * nanoseconds). The constructor carries overflowing low components into
 * the next unit with Java's truncating `/` and `%`, so a component keeps
 * the sign of what it was carried from.
 */
module DayToSecondInterval {
  import opened Wrappers
  import opened JavaInt
  import opened Text

  const NANOS_PER_SECOND: int := 1_000_000_000

  /** The fields of a `DayToSecond`; every value the constructor returns is `Normalized`. */
  datatype DayToSecond = DayToSecond(
    negative: bool,
    days: int32,
    hours: int32,
    minutes: int32,
    seconds: int32,
    nano: int32)

  /** What the constructor's normalisation promises: every component below its unit, in absolute value. */
  predicate Normalized(x: DayToSecond)
  {
    Abs(x.nano) < NANOS_PER_SECOND && Abs(x.seconds) < 60 && Abs(x.minutes) < 60 && Abs(x.hours) < 24
  }

  /** The length of the interval in nanoseconds, ignoring the sign flag. */
  function TotalNanos(x: DayToSecond): int
  {
    x.days * 86400 * NANOS_PER_SECOND + x.hours * 3600 * NANOS_PER_SECOND
    + x.minutes * 60 * NANOS_PER_SECOND + x.seconds * NANOS_PER_SECOND + x.nano
  }

  /** The signed length of the interval in nanoseconds: the exact value of `getTotalNano()`. */
  function SignedTotalNanos(x: DayToSecond): int
  {
    if x.negative then -TotalNanos(x) else TotalNanos(x)
  }

  // ---------------------------------------------------------------------
  // The constructor's carry normalisation
  // ---------------------------------------------------------------------

  /**
   * The test guarding one carry step: `Math.abs(low) >= unit` as written,
   * or the true absolute value. The two differ only at `Integer.MIN_VALUE`.
   */
  predicate NeedsCarry(low: int32, unit: int, asWritten: bool)
  {
    if asWritten then Abs32(low) >= unit else Abs(low) >= unit
  }

  /** A component the guard as written leaves alone: below its unit, or `Integer.MIN_VALUE`. */
  predicate SettledAt(c: int, unit: int)
  {
    Abs(c) < unit || c == INT_MIN
  }

  /**
   * What the constructor as written promises: every component below its
   * unit, except that one equal to `Integer.MIN_VALUE` is left in place.
   */
  predicate Settled(x: DayToSecond)
  {
    SettledAt(x.nano, NANOS_PER_SECOND) && SettledAt(x.seconds, 60) && SettledAt(x.minutes, 60) && SettledAt(x.hours, 24)
  }

  lemma Distribute(a: int, b: int, c: int)
    ensures (a + b) * c == a * c + b * c
  {
  }

  /**
   * One carry step: `high += low / unit; low %= unit` when the guard holds.
   * The new `high` is a Java `int` sum and wraps on overflow.
   */
  function Carry(high: int32, low: int32, unit: int, asWritten: bool): (r: (int32, int32))
    requires 0 < unit <= NANOS_PER_SECOND
    ensures NeedsCarry(low, unit, asWritten) ==> Abs(r.1) < unit
    ensures !NeedsCarry(low, unit, asWritten) ==> r == (high, low)
    ensures INT_MIN <= high + Quot(low, unit) <= INT_MAX ==> r.0 * unit + r.1 == high * unit + low
    ensures asWritten ==> SettledAt(r.1, unit)
    ensures asWritten && SettledAt(low, unit) ==> r == (high, low)
  {
    if NeedsCarry(low, unit, asWritten) then
      var q := Quot(low, unit);
      var rem := Rem(low, unit);
      if INT_MIN <= high + q <= INT_MAX then
        Distribute(high as int, q, unit);
        (Wrap32(high + q), rem as int32)
      else
        (Wrap32(high + q), rem as int32)
    else
      (high, low)
  }

  /** The constructor `DayToSecond(days, hours, minutes, seconds, nano, negative)`, with the guard chosen by `asWritten`. */
  function MakeWith(days: int32, hours: int32, minutes: int32, seconds: int32, nano: int32, negative: bool, asWritten: bool): DayToSecond
  {
    var sn := Carry(seconds, nano, NANOS_PER_SECOND, asWritten);
    var ms := Carry(minutes, sn.0, 60, asWritten);
    var hm := Carry(hours, ms.0, 60, asWritten);
    var dh := Carry(days, hm.0, 24, asWritten);
    DayToSecond(negative, dh.0, dh.1, hm.1, ms.1, sn.1)
  }

  /**
   * The constructor exactly as written: its guard is `Math.abs`, so a
   * component equal to `Integer.MIN_VALUE` is not carried. Its result is
   * settled, and settled arguments come back unchanged.
   */
  function MakeAsWritten(days: int32, hours: int32, minutes: int32, seconds: int32, nano: int32, negative: bool): (r: DayToSecond)
    ensures r.negative == negative
    ensures Settled(r)
    ensures Settled(DayToSecond(negative, days, hours, minutes, seconds, nano)) ==> r == DayToSecond(negative, days, hours, minutes, seconds, nano)
  {
    MakeWith(days, hours, minutes, seconds, nano, negative, true)
  }

  /**
   * The constructor with the guard it is meant to have: every component
   * ends up below its unit, whatever the arguments.
   */
  function Make(days: int32, hours: int32, minutes: int32, seconds: int32, nano: int32, negative: bool): (r: DayToSecond)
    ensures r.negative == negative
    ensures Normalized(r)
    ensures Normalized(DayToSecond(negative, days, hours, minutes, seconds, nano)) ==> r == DayToSecond(negative, days, hours, minutes, seconds, nano)
  {
    MakeWith(days, hours, minutes, seconds, nano, negative, false)
  }

  /** The public constructors, which pass zeros for the omitted components and a positive sign. */
  function Of(days: int32, hours: int32, minutes: int32, seconds: int32, nano: int32): (r: DayToSecond)
    ensures !r.negative && Settled(r)
    ensures Settled(DayToSecond(false, days, hours, minutes, seconds, nano)) ==> r == DayToSecond(false, days, hours, minutes, seconds, nano)
  {
    MakeAsWritten(days, hours, minutes, seconds, nano, false)
  }

  /** Low components that no carry can push to `Integer.MIN_VALUE`: nanoseconds other than it, the rest below 2^30. */
  predicate SmallParts(hours: int, minutes: int, seconds: int, nano: int)
  {
    nano != INT_MIN && Abs(hours) < 0x4000_0000 && Abs(minutes) < 0x4000_0000 && Abs(seconds) < 0x4000_0000
  }

  /** Arguments small enough that no carry overflows an `int` and none is `Integer.MIN_VALUE`. */
  predicate Small(days: int, hours: int, minutes: int, seconds: int, nano: int)
  {
    Abs(days) < 0x4000_0000 && SmallParts(hours, minutes, seconds, nano)
  }

  /** No `high += low / unit` of the intended constructor leaves the `int` range. */
  predicate NoCarryOverflow(days: int32, hours: int32, minutes: int32, seconds: int32, nano: int32)
  {
    var sn := Carry(seconds, nano, NANOS_PER_SECOND, false);
    var ms := Carry(minutes, sn.0, 60, false);
    var hm := Carry(hours, ms.0, 60, false);
    && INT_MIN <= seconds + Quot(nano, NANOS_PER_SECOND) <= INT_MAX
    && INT_MIN <= minutes + Quot(sn.0, 60) <= INT_MAX
    && INT_MIN <= hours + Quot(ms.0, 60) <= INT_MAX
    && INT_MIN <= days + Quot(hm.0, 24) <= INT_MAX
  }

  /** The two guards agree on every argument that is not `Integer.MIN_VALUE`. */
  lemma CarryAgrees(high: int32, low: int32, unit: int)
    requires 0 < unit <= NANOS_PER_SECOND && low != INT_MIN
    ensures Carry(high, low, unit, true) == Carry(high, low, unit, false)
  {
    assert NeedsCarry(low, unit, true) == NeedsCarry(low, unit, false);
  }

  lemma QuotAbs(a: int, b: int)
    requires b > 0
    ensures Abs(Quot(a, b)) == Abs(a) / b
  {
  }

  /** A carry that does not overflow keeps `high * unit + low` and grows `high` by at most `|low| / unit`. */
  lemma CarryNoOverflow(high: int32, low: int32, unit: int)
    requires 0 < unit <= NANOS_PER_SECOND && Abs(high) + Abs(low) / unit <= INT_MAX
    ensures var r := Carry(high, low, unit, false);
      Abs(r.0) <= Abs(high) + Abs(low) / unit && r.0 * unit + r.1 == high * unit + low
    ensures INT_MIN <= high + Quot(low, unit) <= INT_MAX
  {
    QuotAbs(low, unit);
  }

  /** Normalisation preserves the total length when no carry overflows. */
  lemma MakePreservesTotal(days: int32, hours: int32, minutes: int32, seconds: int32, nano: int32, negative: bool)
    requires NoCarryOverflow(days, hours, minutes, seconds, nano)
    ensures TotalNanos(Make(days, hours, minutes, seconds, nano, negative))
      == days * 86400 * NANOS_PER_SECOND + hours * 3600 * NANOS_PER_SECOND
         + minutes * 60 * NANOS_PER_SECOND + seconds * NANOS_PER_SECOND + nano
  {
    var sn := Carry(seconds, nano, NANOS_PER_SECOND, false);
    var ms := Carry(minutes, sn.0, 60, false);
    var hm := Carry(hours, ms.0, 60, false);
    var dh := Carry(days, hm.0, 24, false);
    assert sn.0 * NANOS_PER_SECOND + sn.1 == seconds * NANOS_PER_SECOND + nano;
    assert ms.0 * 60 + ms.1 == minutes * 60 + sn.0;
    assert hm.0 * 60 + hm.1 == hours * 60 + ms.0;
    assert dh.0 * 24 + dh.1 == days * 24 + hm.0;
    var r := Make(days, hours, minutes, seconds, nano, negative);
    assert r == DayToSecond(negative, dh.0, dh.1, hm.1, ms.1, sn.1);
    calc {
      TotalNanos(r);
      (((dh.0 * 24 + dh.1) * 60 + hm.1) * 60 + ms.1) * NANOS_PER_SECOND + sn.1;
      (((days * 24 + hm.0) * 60 + hm.1) * 60 + ms.1) * NANOS_PER_SECOND + sn.1;
      ((days * 1440 + (hm.0 * 60 + hm.1)) * 60 + ms.1) * NANOS_PER_SECOND + sn.1;
      ((days * 1440 + hours * 60 + ms.0) * 60 + ms.1) * NANOS_PER_SECOND + sn.1;
      (days * 86400 + hours * 3600 + (ms.0 * 60 + ms.1)) * NANOS_PER_SECOND + sn.1;
      (days * 86400 + hours * 3600 + minutes * 60 + sn.0) * NANOS_PER_SECOND + sn.1;
      (days * 86400 + hours * 3600 + minutes * 60) * NANOS_PER_SECOND + (sn.0 * NANOS_PER_SECOND + sn.1);
    }
  }

  /** Small arguments cannot overflow a carry. */
  lemma SmallNoCarryOverflow(days: int32, hours: int32, minutes: int32, seconds: int32, nano: int32)
    requires Small(days, hours, minutes, seconds, nano)
    ensures NoCarryOverflow(days, hours, minutes, seconds, nano)
  {
    CarryNoOverflow(seconds, nano, NANOS_PER_SECOND);
    var sn := Carry(seconds, nano, NANOS_PER_SECOND, false);
    assert Abs(sn.0) <= 0x4000_0001;
    CarryNoOverflow(minutes, sn.0, 60);
    var ms := Carry(minutes, sn.0, 60, false);
    assert Abs(ms.0) <= 0x4200_0000;
    CarryNoOverflow(hours, ms.0, 60);
    var hm := Carry(hours, ms.0, 60, false);
    assert Abs(hm.0) <= 0x4200_0000;
    CarryNoOverflow(days, hm.0, 24);
  }

  /** Below-unit hours, minutes and seconds cannot overflow a carry when the days are below `Integer.MAX_VALUE` in absolute value. */
  lemma SplitNoCarryOverflow(days: int32, hours: int32, minutes: int32, seconds: int32, nano: int32)
    requires Abs(days) < INT_MAX && Abs(hours) < 24 && Abs(minutes) < 60 && Abs(seconds) < 60
    ensures NoCarryOverflow(days, hours, minutes, seconds, nano)
  {
    CarryNoOverflow(seconds, nano, NANOS_PER_SECOND);
    var sn := Carry(seconds, nano, NANOS_PER_SECOND, false);
    assert Abs(sn.0) <= 61;
    CarryNoOverflow(minutes, sn.0, 60);
    var ms := Carry(minutes, sn.0, 60, false);
    assert Abs(ms.0) <= 60;
    CarryNoOverflow(hours, ms.0, 60);
    var hm := Carry(hours, ms.0, 60, false);
    assert Abs(hm.0) <= 24;
    CarryNoOverflow(days, hm.0, 24);
  }

  /** When no carry can reach `Integer.MIN_VALUE`, the constructor as written and as intended agree, so its result is normalised. */
  lemma MakeAsWrittenAgrees(days: int32, hours: int32, minutes: int32, seconds: int32, nano: int32, negative: bool)
    requires SmallParts(hours, minutes, seconds, nano)
    ensures MakeAsWritten(days, hours, minutes, seconds, nano, negative) == Make(days, hours, minutes, seconds, nano, negative)
    ensures Normalized(MakeAsWritten(days, hours, minutes, seconds, nano, negative))
  {
    CarryAgrees(seconds, nano, NANOS_PER_SECOND);
    CarryNoOverflow(seconds, nano, NANOS_PER_SECOND);
    var sn := Carry(seconds, nano, NANOS_PER_SECOND, false);
    assert Abs(sn.0) <= 0x4000_0001;
    CarryAgrees(minutes, sn.0, 60);
    CarryNoOverflow(minutes, sn.0, 60);
    var ms := Carry(minutes, sn.0, 60, false);
    assert Abs(ms.0) <= 0x4200_0000;
    CarryAgrees(hours, ms.0, 60);
    CarryNoOverflow(hours, ms.0, 60);
    var hm := Carry(hours, ms.0, 60, false);
    assert Abs(hm.0) <= 0x4200_0000;
    CarryAgrees(days, hm.0, 24);
    assert MakeWith(days, hours, minutes, seconds, nano, negative, true) == MakeWith(days, hours, minutes, seconds, nano, negative, false);
  }

  /** The public constructors normalise small arguments and keep the length of the interval they describe. */
  lemma OfSmall(days: int32, hours: int32, minutes: int32, seconds: int32, nano: int32)
    requires Small(days, hours, minutes, seconds, nano)
    ensures Normalized(Of(days, hours, minutes, seconds, nano))
    ensures SignedTotalNanos(Of(days, hours, minutes, seconds, nano))
      == days * 86400 * NANOS_PER_SECOND + hours * 3600 * NANOS_PER_SECOND
         + minutes * 60 * NANOS_PER_SECOND + seconds * NANOS_PER_SECOND + nano
  {
    MakeAsWrittenAgrees(days, hours, minutes, seconds, nano, false);
    SmallNoCarryOverflow(days, hours, minutes, seconds, nano);
    MakePreservesTotal(days, hours, minutes, seconds, nano, false);
  }

  /**
   * `new DayToSecond(0, 0, 0, 0, Integer.MIN_VALUE)`: `Math.abs` of the
   * nanoseconds is negative, so they are not carried and the result is
   * not normalised, through the public constructor and through
   * `valueOf(0, Integer.MIN_VALUE)` alike; the intended constructor carries
   * two seconds.
   */
  lemma MinValueNanoNotNormalized()
    ensures MakeAsWritten(0, 0, 0, 0, INT_MIN, false) == DayToSecond(false, 0, 0, 0, 0, INT_MIN)
    ensures !Normalized(MakeAsWritten(0, 0, 0, 0, INT_MIN, false))
    ensures Of(0, 0, 0, 0, INT_MIN) == DayToSecond(false, 0, 0, 0, 0, INT_MIN)
    ensures ValueOfSeconds(0, INT_MIN) == DayToSecond(false, 0, 0, 0, 0, INT_MIN)
    ensures Make(0, 0, 0, 0, INT_MIN, false) == DayToSecond(false, 0, 0, 0, -2, -147_483_648)
  {
    assert Abs32(INT_MIN) == INT_MIN;
    assert Quot(INT_MIN, NANOS_PER_SECOND) == -2;
    assert Rem(INT_MIN, NANOS_PER_SECOND) == -147_483_648;
    assert SplitSecondCount(Abs64(0)) == Split(0, 0, 0, 0);
  }

  // ---------------------------------------------------------------------
  // neg, abs and the getters
  // ---------------------------------------------------------------------

  /** `neg()`: the constructor applied to the same components with the sign flag flipped. */
  function Neg(x: DayToSecond): (r: DayToSecond)
    ensures r.negative == !x.negative && Settled(r)
    ensures Settled(x) ==> r == x.(negative := !x.negative)
  {
    MakeAsWritten(x.days, x.hours, x.minutes, x.seconds, x.nano, !x.negative)
  }

  /** `abs()`: the constructor applied to the same components with the sign flag cleared. */
  function AbsValue(x: DayToSecond): (r: DayToSecond)
    ensures !r.negative && Settled(r)
    ensures Settled(x) ==> r == x.(negative := false)
  {
    MakeAsWritten(x.days, x.hours, x.minutes, x.seconds, x.nano, false)
  }

  lemma NegInvolution(x: DayToSecond)
    requires Settled(x)
    ensures Neg(Neg(x)) == x
    ensures SignedTotalNanos(Neg(x)) == -SignedTotalNanos(x)
  {
  }

  lemma AbsOfNeg(x: DayToSecond)
    requires Settled(x)
    ensures AbsValue(Neg(x)) == AbsValue(x)
    ensures SignedTotalNanos(AbsValue(x)) == TotalNanos(x)
  {
  }

  /** `getSign()`. */
  function Sign(x: DayToSecond): (r: int)
    ensures r == -1 || r == 1
    ensures r == -1 <==> x.negative
  {
    if x.negative then -1 else 1
  }

  /** `getMilli()`: the nanoseconds truncated to milliseconds. */
  function Milli(x: DayToSecond): (r: int)
    ensures Normalized(x) ==> Abs(r) < 1000
    ensures x.nano >= 0 ==> r * 1_000_000 <= x.nano < (r + 1) * 1_000_000
    ensures x.nano < 0 ==> (r - 1) * 1_000_000 < x.nano <= r * 1_000_000
  {
    Quot(x.nano, 1_000_000)
  }

  /** `getMicro()`: the nanoseconds truncated to microseconds. */
  function Micro(x: DayToSecond): (r: int)
    ensures Normalized(x) ==> Abs(r) < 1_000_000
    ensures x.nano >= 0 ==> r * 1000 <= x.nano < (r + 1) * 1000
    ensures x.nano < 0 ==> (r - 1) * 1000 < x.nano <= r * 1000
  {
    Quot(x.nano, 1000)
  }

  // ---------------------------------------------------------------------
  // valueOf(long, int) and valueOf(Duration)
  // ---------------------------------------------------------------------

  /** A second count split into days, hours, minutes and seconds. */
  datatype Split = Split(days: int, hours: int, minutes: int, seconds: int)

  /**
   * The `%` and `/` steps of `valueOf(second, nanos)` on `abs`. For a
   * non-negative count they are the usual split; `Long.MIN_VALUE`, whose
   * `Math.abs` is negative, gives non-positive parts.
   */
  function SplitSecondCount(a: int): (r: Split)
    ensures Abs(r.seconds) < 60 && Abs(r.minutes) < 60 && Abs(r.hours) < 24
    ensures a >= 0 ==> 0 <= r.seconds && 0 <= r.minutes && 0 <= r.hours && r.days == a / 86400
    ensures a == r.days * 86400 + r.hours * 3600 + r.minutes * 60 + r.seconds
  {
    var s := Rem(a, 60);
    var a1 := Quot(a, 60);
    var m := Rem(a1, 60);
    var a2 := Quot(a1, 60);
    var h := Rem(a2, 24);
    var a3 := Quot(a2, 24);
    assert a == a3 * 86400 + h * 3600 + m * 60 + s;
    assert a >= 0 ==> a3 == a / 86400 by {
      if a >= 0 {
        assert 0 <= h * 3600 + m * 60 + s < 86400;
      }
    }
    Split(a3, h, m, s)
  }

  /**
   * `new DayToSecond(d, h, m, s, nanos)` for the split of `Math.abs(second)`,
   * the day count cast to `int`: a positive, settled interval whose
   * components are the split whenever the nanoseconds need no carry.
   */
  function PositivePart(second: int64, nanos: int32): (r: DayToSecond)
    ensures !r.negative && Settled(r)
    ensures var p := SplitSecondCount(Abs64(second));
      SettledAt(nanos, NANOS_PER_SECOND) ==>
        r == DayToSecond(false, Wrap32(p.days), p.hours as int32, p.minutes as int32, p.seconds as int32, nanos)
  {
    var p := SplitSecondCount(Abs64(second));
    MakeAsWritten(Wrap32(p.days), p.hours as int32, p.minutes as int32, p.seconds as int32, nanos, false)
  }

  /**
   * `valueOf(second, nanos)`: splits `Math.abs(second)` into days, hours,
   * minutes and seconds with `%` and `/`, builds a positive interval and
   * negates it when `second` is negative.
   */
  function ValueOfSeconds(second: int64, nanos: int32): (r: DayToSecond)
    ensures r.negative <==> second < 0
    ensures Settled(r)
  {
    var r := PositivePart(second, nanos);
    if second < 0 then Neg(r) else r
  }

  /** Every `nanos` other than `Integer.MIN_VALUE` gives a normalised interval. */
  lemma ValueOfSecondsNormalized(second: int64, nanos: int32)
    requires nanos != INT_MIN
    ensures Normalized(ValueOfSeconds(second, nanos))
  {
    var p := SplitSecondCount(Abs64(second));
    MakeAsWrittenAgrees(Wrap32(p.days), p.hours as int32, p.minutes as int32, p.seconds as int32, nanos, false);
  }

  /**
   * For a second count whose day count fits an `int` and nanoseconds the
   * constructor does not carry, the components are the plain split of
   * `|second|`, the nanoseconds are kept and the sign is that of `second`.
   */
  lemma ValueOfSecondsParts(second: int64, nanos: int32)
    requires Abs(second) < 86400 * 0x8000_0000
    requires SettledAt(nanos, NANOS_PER_SECOND)
    ensures var r := ValueOfSeconds(second, nanos);
      && 0 <= r.seconds < 60 && 0 <= r.minutes < 60 && 0 <= r.hours < 24 && r.days >= 0
      && r.days * 86400 + r.hours * 3600 + r.minutes * 60 + r.seconds == Abs(second)
      && r.nano == nanos
      && (r.negative <==> second < 0)
  {
    assert Abs64(second) == Abs(second);
    var p := SplitSecondCount(Abs(second));
    assert p.days <= INT_MAX;
  }

  /** The constructor as written keeps the length of below-unit hours, minutes and seconds with any nanoseconds. */
  lemma SplitPartsTotal(days: int32, hours: int32, minutes: int32, seconds: int32, nano: int32)
    requires Abs(days) < INT_MAX && Abs(hours) < 24 && Abs(minutes) < 60 && Abs(seconds) < 60
    ensures TotalNanos(MakeAsWritten(days, hours, minutes, seconds, nano, false))
      == days * 86400 * NANOS_PER_SECOND + hours * 3600 * NANOS_PER_SECOND
         + minutes * 60 * NANOS_PER_SECOND + seconds * NANOS_PER_SECOND + nano
  {
    if nano != INT_MIN {
      MakeAsWrittenAgrees(days, hours, minutes, seconds, nano, false);
      SplitNoCarryOverflow(days, hours, minutes, seconds, nano);
      MakePreservesTotal(days, hours, minutes, seconds, nano, false);
    }
  }

  lemma PositivePartTotal(second: int64, nanos: int32)
    requires Abs(second) < 86400 * INT_MAX
    ensures TotalNanos(PositivePart(second, nanos)) == Abs(second) * NANOS_PER_SECOND + nanos
  {
    assert Abs64(second) == Abs(second);
    var p := SplitSecondCount(Abs(second));
    assert 0 <= p.days < INT_MAX;
    var d, h, m, sec := p.days as int32, p.hours as int32, p.minutes as int32, p.seconds as int32;
    assert Wrap32(p.days) == d;
    assert PositivePart(second, nanos) == MakeAsWritten(d, h, m, sec, nanos, false);
    SplitPartsTotal(d, h, m, sec, nanos);
    ScaledSplit(d, h, m, sec);
  }

  /** A second count split into parts scales to nanoseconds part by part. */
  lemma ScaledSplit(d: int, h: int, m: int, s: int)
    ensures (d * 86400 + h * 3600 + m * 60 + s) * NANOS_PER_SECOND
      == d * 86400 * NANOS_PER_SECOND + h * 3600 * NANOS_PER_SECOND + m * 60 * NANOS_PER_SECOND + s * NANOS_PER_SECOND
  {
    Distribute(d * 86400 + h * 3600 + m * 60, s, NANOS_PER_SECOND);
    Distribute(d * 86400 + h * 3600, m * 60, NANOS_PER_SECOND);
    Distribute(d * 86400, h * 3600, NANOS_PER_SECOND);
  }

  /**
   * The signed length of `valueOf(second, nanos)` is `second` seconds plus
   * or minus `nanos`, for every `nanos` and every second count whose day
   * count is below `Integer.MAX_VALUE`.
   */
  lemma ValueOfSecondsTotal(second: int64, nanos: int32)
    requires Abs(second) < 86400 * INT_MAX
    ensures SignedTotalNanos(ValueOfSeconds(second, nanos))
      == if second < 0 then second * NANOS_PER_SECOND - nanos else second * NANOS_PER_SECOND + nanos
  {
    PositivePartTotal(second, nanos);
    NegInvolution(PositivePart(second, nanos));
  }

  /** A `java.time.Duration`: whole seconds (floored) and a nanosecond adjustment in `[0, 10^9)`. */
  datatype JavaDuration = JavaDuration(seconds: int64, nanos: int)
  type Duration = d: JavaDuration | 0 <= d.nanos < 1_000_000_000 witness JavaDuration(0, 0)

  function DurationNanos(d: Duration): int
  {
    d.seconds * NANOS_PER_SECOND + d.nanos
  }

  /**
   * `valueOf(Duration)` as written: for a negative duration it borrows one
   * second, `valueOf(s + 1, 10^9 - n)`, and that call decides the sign.
   */
  function ValueOfDurationAsWritten(duration: Option<Duration>): (r: Option<DayToSecond>)
    ensures r.None? <==> duration.None?
  {
    match duration
    case None => None
    case Some(d) =>
      if d.seconds < 0 then Some(ValueOfSeconds(d.seconds + 1, (NANOS_PER_SECOND - d.nanos) as int32))
      else Some(ValueOfSeconds(d.seconds, d.nanos as int32))
  }

  /**
   * `valueOf(Duration)` as intended: the same borrow, but a duration
   * between minus one second and zero, whose borrowed second count is
   * zero, stays negative.
   */
  function ValueOfDuration(duration: Option<Duration>): (r: Option<DayToSecond>)
    ensures r.None? <==> duration.None?
    ensures duration.Some? ==> (r.value.negative <==> duration.value.seconds < 0)
  {
    match duration
    case None => None
    case Some(d) =>
      if d.seconds == -1 then Some(Neg(ValueOfSeconds(0, (NANOS_PER_SECOND - d.nanos) as int32)))
      else ValueOfDurationAsWritten(duration)
  }

  /** The second count and nanoseconds `valueOf(Duration)` passes on: one second borrowed from a negative duration. */
  function Borrowed(d: Duration): (r: (int64, int32))
    ensures 0 <= r.1 <= NANOS_PER_SECOND
    ensures d.seconds < 0 ==> r.0 <= 0
    ensures r.0 * NANOS_PER_SECOND + (if d.seconds < 0 then -r.1 else r.1) == DurationNanos(d)
  {
    if d.seconds < 0 then (d.seconds + 1, (NANOS_PER_SECOND - d.nanos) as int32)
    else (d.seconds, d.nanos as int32)
  }

  /** `valueOf(Duration)` as written converts the borrowed second count and nanoseconds. */
  lemma ValueOfDurationIsBorrowed(d: Duration)
    ensures ValueOfDurationAsWritten(Some(d)) == Some(ValueOfSeconds(Borrowed(d).0, Borrowed(d).1))
  {
    var b := Borrowed(d);
    if d.seconds < 0 {
      assert b == (d.seconds + 1, (NANOS_PER_SECOND - d.nanos) as int32);
    } else {
      assert b == (d.seconds, d.nanos as int32);
    }
  }

  /** The intended conversion differs from the code as written only at minus one second, where it negates. */
  lemma ValueOfDurationBorrowedSign(d: Duration)
    ensures d.seconds == -1 ==> Borrowed(d).0 == 0 && ValueOfDuration(Some(d)) == Some(Neg(ValueOfSeconds(0, Borrowed(d).1)))
    ensures d.seconds != -1 ==> ValueOfDuration(Some(d)) == ValueOfDurationAsWritten(Some(d))
  {
    if d.seconds == -1 {
      assert Borrowed(d) == (0, (NANOS_PER_SECOND - d.nanos) as int32);
    }
  }

  /** Converting a duration keeps its signed length, for durations whose day count fits. */
  lemma ValueOfDurationTotal(d: Duration)
    requires Abs(d.seconds) < 86400 * INT_MAX - 1
    ensures SignedTotalNanos(ValueOfDuration(Some(d)).value) == DurationNanos(d)
  {
    var b := Borrowed(d);
    ValueOfDurationIsBorrowed(d);
    ValueOfDurationBorrowedSign(d);
    ValueOfSecondsTotal(b.0, b.1);
    if d.seconds == -1 {
      NegInvolution(ValueOfSeconds(0, b.1));
    }
  }

  /** The code as written agrees with the intended conversion except between minus one second and zero. */
  lemma ValueOfDurationAsWrittenAgrees(duration: Option<Duration>)
    requires duration.Some? ==> duration.value.seconds != -1
    ensures ValueOfDurationAsWritten(duration) == ValueOfDuration(duration)
  {
    if duration.Some? {
      ValueOfDurationBorrowedSign(duration.value);
    }
  }

  /**
   * Between minus one second and zero, the code as written returns the
   * positive interval of the same length: `Duration.ofMillis(-500)`
   * becomes `+0 00:00:00.500000000`.
   */
  lemma ValueOfDurationAsWrittenLosesSign(d: Duration)
    requires d.seconds == -1
    ensures ValueOfDurationAsWritten(Some(d)) == Some(Neg(ValueOfDuration(Some(d)).value))
    ensures !ValueOfDurationAsWritten(Some(d)).value.negative
    ensures SignedTotalNanos(ValueOfDurationAsWritten(Some(d)).value) == -DurationNanos(d) > 0
  {
    var b := Borrowed(d);
    ValueOfDurationIsBorrowed(d);
    ValueOfDurationBorrowedSign(d);
    var r := ValueOfSeconds(0, b.1);
    NegInvolution(r);
    ValueOfSecondsTotal(0, b.1);
  }

  // ---------------------------------------------------------------------
  // compareTo, equals and hashCode
  // ---------------------------------------------------------------------

  /** The components in the order `compareTo` looks at them. */
  function Key(x: DayToSecond): seq<int>
  {
    [x.days, x.hours, x.minutes, x.seconds, x.nano]
  }

  /** Lexicographic order on integer sequences of the same length, written independently of `compareTo`. */
  predicate LexLess(a: seq<int>, b: seq<int>)
    requires |a| == |b|
  {
    |a| > 0 && (a[0] < b[0] || (a[0] == b[0] && LexLess(a[1..], b[1..])))
  }

  /** `compareTo(that)`: -1, 0 or 1 by the first differing component; the sign flag is not looked at. */
  function CompareTo(x: DayToSecond, y: DayToSecond): (r: int)
    ensures r == -1 || r == 0 || r == 1
    ensures r == 0 <==> Key(x) == Key(y)
  {
    if x.days < y.days then -1
    else if x.days > y.days then 1
    else if x.hours < y.hours then -1
    else if x.hours > y.hours then 1
    else if x.minutes < y.minutes then -1
    else if x.minutes > y.minutes then 1
    else if x.seconds < y.seconds then -1
    else if x.seconds > y.seconds then 1
    else if x.nano < y.nano then -1
    else if x.nano > y.nano then 1
    else 0
  }

  lemma LexLessFive(a0: int, a1: int, a2: int, a3: int, a4: int, b0: int, b1: int, b2: int, b3: int, b4: int)
    ensures LexLess([a0, a1, a2, a3, a4], [b0, b1, b2, b3, b4]) <==>
      a0 < b0 || (a0 == b0 && (a1 < b1 || (a1 == b1 && (a2 < b2 || (a2 == b2 && (a3 < b3 || (a3 == b3 && a4 < b4)))))))
  {
    var a, b := [a0, a1, a2, a3, a4], [b0, b1, b2, b3, b4];
    assert a[1..] == [a1, a2, a3, a4] && b[1..] == [b1, b2, b3, b4];
    assert a[1..][1..] == [a2, a3, a4] && b[1..][1..] == [b2, b3, b4];
    assert a[1..][1..][1..] == [a3, a4] && b[1..][1..][1..] == [b3, b4];
    assert a[1..][1..][1..][1..] == [a4] && b[1..][1..][1..][1..] == [b4];
    assert LexLess([a4], [b4]) <==> a4 < b4 by {
      assert [a4][1..] == [] && [b4][1..] == [];
    }
    assert LexLess([a3, a4], [b3, b4]) <==> a3 < b3 || (a3 == b3 && LexLess([a4], [b4]));
    assert LexLess([a2, a3, a4], [b2, b3, b4]) <==> a2 < b2 || (a2 == b2 && LexLess([a3, a4], [b3, b4]));
    assert LexLess([a1, a2, a3, a4], [b1, b2, b3, b4]) <==> a1 < b1 || (a1 == b1 && LexLess([a2, a3, a4], [b2, b3, b4]));
    assert LexLess(a, b) <==> a0 < b0 || (a0 == b0 && LexLess([a1, a2, a3, a4], [b1, b2, b3, b4]));
  }

  /** `compareTo` is the lexicographic order on the five components. */
  lemma CompareToIsLexicographic(x: DayToSecond, y: DayToSecond)
    ensures CompareTo(x, y) == -1 <==> LexLess(Key(x), Key(y))
    ensures CompareTo(x, y) == 1 <==> LexLess(Key(y), Key(x))
  {
    LexLessFive(x.days, x.hours, x.minutes, x.seconds, x.nano, y.days, y.hours, y.minutes, y.seconds, y.nano);
    LexLessFive(y.days, y.hours, y.minutes, y.seconds, y.nano, x.days, x.hours, x.minutes, x.seconds, x.nano);
  }

  lemma CompareToProperties(x: DayToSecond, y: DayToSecond, z: DayToSecond)
    ensures CompareTo(x, x) == 0
    ensures CompareTo(x, y) == -CompareTo(y, x)
    ensures CompareTo(x, y) <= 0 && CompareTo(y, z) <= 0 ==> CompareTo(x, z) <= 0
    ensures CompareTo(Neg(x), y) == CompareTo(AbsValue(x), y) == CompareTo(x, y) || !Settled(x)
  {
  }

  /**
   * `equals(obj)` between two intervals: all five components match, and
   * the sign flags match unless the interval is zero (`doubleValue() == 0`).
   * Equal intervals have equal hash codes.
   */
  predicate Equals(x: DayToSecond, y: DayToSecond): (r: bool)
    ensures r ==> HashCode(x) == HashCode(y)
  {
    && x.days == y.days && x.hours == y.hours && x.minutes == y.minutes
    && x.nano == y.nano && x.seconds == y.seconds
    && (x.negative == y.negative || SignedTotalNanos(x) == 0)
  }

  /** A normalised interval has length zero only when every component is zero. */
  lemma ZeroIffAllZero(x: DayToSecond)
    requires Normalized(x)
    ensures TotalNanos(x) == 0 <==> Key(x) == [0, 0, 0, 0, 0]
  {
    var low := x.hours * 3600 * NANOS_PER_SECOND + x.minutes * 60 * NANOS_PER_SECOND + x.seconds * NANOS_PER_SECOND + x.nano;
    assert -86400 * NANOS_PER_SECOND < low < 86400 * NANOS_PER_SECOND;
    if x.days != 0 {
      assert Abs(x.days * 86400 * NANOS_PER_SECOND) >= 86400 * NANOS_PER_SECOND;
    } else if x.hours != 0 {
      var low2 := x.minutes * 60 * NANOS_PER_SECOND + x.seconds * NANOS_PER_SECOND + x.nano;
      assert -3600 * NANOS_PER_SECOND < low2 < 3600 * NANOS_PER_SECOND;
      assert Abs(x.hours * 3600 * NANOS_PER_SECOND) >= 3600 * NANOS_PER_SECOND;
    } else if x.minutes != 0 {
      assert -60 * NANOS_PER_SECOND < x.seconds * NANOS_PER_SECOND + x.nano < 60 * NANOS_PER_SECOND;
      assert Abs(x.minutes * 60 * NANOS_PER_SECOND) >= 60 * NANOS_PER_SECOND;
    } else if x.seconds != 0 {
      assert Abs(x.seconds * NANOS_PER_SECOND) >= NANOS_PER_SECOND;
    }
  }

  /** `equals` is an equivalence relation. */
  lemma EqualsIsEquivalence(x: DayToSecond, y: DayToSecond, z: DayToSecond)
    ensures Equals(x, x)
    ensures Equals(x, y) ==> Equals(y, x)
    ensures Equals(x, y) && Equals(y, z) ==> Equals(x, z)
  {
  }

  /** An interval equals its negation iff it is zero; equal intervals compare as 0. */
  lemma EqualsNeg(x: DayToSecond, y: DayToSecond)
    requires Normalized(x)
    ensures Equals(x, Neg(x)) <==> Key(x) == [0, 0, 0, 0, 0]
    ensures Equals(x, y) ==> CompareTo(x, y) == 0
  {
    ZeroIffAllZero(x);
  }

  /** One step of `hashCode`: `result = 31 * result + c` when `c != 0`, in `int` arithmetic. */
  function HashStep(result: int32, c: int32): int32
  {
    if c != 0 then Wrap32(31 * result + c) else result
  }

  /** `hashCode()`: folds the non-zero components in the order days, hours, minutes, nano, seconds. */
  function HashCode(x: DayToSecond): (r: int32)
    ensures Key(x) == [0, 0, 0, 0, 0] ==> r == 0
  {
    HashStep(HashStep(HashStep(HashStep(HashStep(0, x.days), x.hours), x.minutes), x.nano), x.seconds)
  }

  /** `hashCode` ignores the sign. */
  lemma HashCodeIgnoresSign(x: DayToSecond)
    ensures HashCode(x.(negative := !x.negative)) == HashCode(x)
  {
  }

  // ---------------------------------------------------------------------
  // toString
  // ---------------------------------------------------------------------

  /** A component followed by the `"0"` prefix that `toString` adds below 10. */
  function TwoDigits(v: int): string
  {
    (if v < 10 then "0" else "") + IntToString(v)
  }

  /** `toString()`: `[+-]D HH:MM:SS.NNNNNNNNN`. */
  function ToString(x: DayToSecond): (r: string)
    ensures |r| > 0 && (r[0] == '-' <==> x.negative) && (r[0] == '+' <==> !x.negative)
  {
    (if x.negative then "-" else "+") + IntToString(x.days) + Tail(x)
  }

  /** What `toString` appends after the days: the space, `HH:MM:SS`, the dot and the nanoseconds. */
  function Tail(x: DayToSecond): string
  {
    " " + TwoDigits(x.hours) + ":" + TwoDigits(x.minutes) + ":" + TwoDigits(x.seconds)
    + "." + LeftPad(IntToString(x.nano), 9, '0')
  }

  /** The components `toString` renders with a fixed width, and the values it renders in them. */
  lemma TwoDigitsParse(v: int)
    requires 0 <= v < 60
    ensures |TwoDigits(v)| == 2 && AllDigits(TwoDigits(v)) && ParseDigits(TwoDigits(v)) == v
  {
    ParseNatToString(v);
    if v < 10 {
      assert TwoDigits(v) == Repeat('0', 1) + NatToString(v);
      ParseLeadingZeros(1, NatToString(v));
    } else {
      NatToStringLength(v, 2);
      NatToStringLengthAtLeast(v, 1);
    }
  }

  lemma NanoParse(n: int)
    requires 0 <= n < NANOS_PER_SECOND
    ensures var t := LeftPad(IntToString(n), 9, '0');
      |t| == 9 && AllDigits(t) && ParseDigits(t) == n
  {
    assert Pow10(9) == NANOS_PER_SECOND;
    NatToStringLength(n, 9);
    ParseLeftPad(n, 9);
  }

  /** The days sit between the sign and the 19 characters of the tail. */
  lemma ToStringLayout(x: DayToSecond)
    requires Normalized(x)
    requires x.hours >= 0 && x.minutes >= 0 && x.seconds >= 0 && x.nano >= 0
    ensures var t := ToString(x);
      |t| >= 20 && t[1..|t| - 19] == IntToString(x.days) && t[|t| - 19..] == Tail(x)
  {
    TailLayout(x);
  }

  /**
   * For a normalised interval with non-negative components, the tail is a
   * space, two-digit hours, minutes and seconds separated by colons, a dot
   * and nine digits of nanoseconds, and each component reads back from its
   * position.
   */
  lemma TailLayout(x: DayToSecond)
    requires Normalized(x)
    requires x.hours >= 0 && x.minutes >= 0 && x.seconds >= 0 && x.nano >= 0
    ensures var t := Tail(x);
      && |t| == 19 && t[0] == ' ' && t[3] == ':' && t[6] == ':' && t[9] == '.'
      && AllDigits(t[1..3]) && ParseDigits(t[1..3]) == x.hours
      && AllDigits(t[4..6]) && ParseDigits(t[4..6]) == x.minutes
      && AllDigits(t[7..9]) && ParseDigits(t[7..9]) == x.seconds
      && AllDigits(t[10..]) && ParseDigits(t[10..]) == x.nano
  {
    var p1, p2, p3 := TwoDigits(x.hours), TwoDigits(x.minutes), TwoDigits(x.seconds);
    var p4 := LeftPad(IntToString(x.nano), 9, '0');
    TwoDigitsParse(x.hours);
    TwoDigitsParse(x.minutes);
    TwoDigitsParse(x.seconds);
    NanoParse(x.nano);
    TailSlices(p1, p2, p3, p4);
  }

  /** Where the pieces of ` hh:mm:ss.nnnnnnnnn` sit. */
  lemma TailSlices(p1: string, p2: string, p3: string, p4: string)
    requires |p1| == |p2| == |p3| == 2 && |p4| == 9
    ensures var t := " " + p1 + ":" + p2 + ":" + p3 + "." + p4;
      && |t| == 19 && t[0] == ' ' && t[3] == ':' && t[6] == ':' && t[9] == '.'
      && t[1..3] == p1 && t[4..6] == p2 && t[7..9] == p3 && t[10..] == p4
  {
    var t := " " + p1 + ":" + p2 + ":" + p3 + "." + p4;
    assert t[1..3] == p1;
    assert t[4..6] == p2;
    assert t[7..9] == p3;
    assert t[10..] == p4;
  }

  /** Distinct non-negative normalised intervals render distinctly. */
  lemma ToStringInjective(x: DayToSecond, y: DayToSecond)
    requires Normalized(x) && Normalized(y)
    requires x.days >= 0 && x.hours >= 0 && x.minutes >= 0 && x.seconds >= 0 && x.nano >= 0
    requires y.days >= 0 && y.hours >= 0 && y.minutes >= 0 && y.seconds >= 0 && y.nano >= 0
    requires ToString(x) == ToString(y)
    ensures x == y
  {
    ToStringLayout(x);
    ToStringLayout(y);
    TailLayout(x);
    TailLayout(y);
    ParseNatToString(x.days);
    ParseNatToString(y.days);
    var t := ToString(x);
    assert Tail(x) == t[|t| - 19..] == Tail(y);
    assert IntToString(x.days) == IntToString(y.days);
  }
}
