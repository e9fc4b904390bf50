/**
 * Clock displays shared by the timing tools: the stopwatch and the
 * velocity tracker show milliseconds as `mm:ss.cc`; the photo-finish
 * viewer shows signed seconds as `mm•ss•hh`, and the photo-finish library
 * shows seconds as `m:ss.mmm`.
 */
module TimeFormat {
  import opened Common

  datatype ClockTime = ClockTime(minutes: nat, seconds: nat, centis: nat)

  /**
   * `Math.floor(ms / 60000)`, `Math.floor((ms % 60000) / 1000)` and
   * `Math.floor((ms % 1000) / 10)`: whole minutes, the seconds and
   * hundredths past them, which together fall short of `ms` by less than
   * 10 ms.
   */
  function ClockParts(ms: nat): (c: ClockTime)
    ensures c.seconds < 60 && c.centis < 100
    ensures c.minutes * 60000 + c.seconds * 1000 + c.centis * 10 <= ms < c.minutes * 60000 + c.seconds * 1000 + c.centis * 10 + 10
  {
    var m := ms / 60000;
    var r := ms % 60000;
    var s := r / 1000;
    var q := r % 1000;
    assert ms % 1000 == q by {
      assert ms == (60 * m + s) * 1000 + q;
    }
    ClockTime(m, s, (ms % 1000) / 10)
  }

  /** `formatTime` of the stopwatch and the velocity tracker. */
  function FormatClock(ms: nat): (r: string)
    ensures ClockParts(ms).minutes < 100 ==> |r| == 8 && r[2] == ':' && r[5] == '.'
  {
    var c := ClockParts(ms);
    Pad2(c.minutes) + ":" + Pad2(c.seconds) + "." + Pad2(c.centis)
  }

  /** Below 100 minutes, two times on the 10 ms grid with the same display are the same time. */
  lemma ClockDisplayDeterminesTime(a: nat, b: nat)
    requires a % 10 == 0 && b % 10 == 0 && a < 6000000 && b < 6000000
    requires FormatClock(a) == FormatClock(b)
    ensures a == b
  {
    FewMinutes(a);
    FewMinutes(b);
    SameDisplaySameParts(a, b);
    OnGrid(a);
    OnGrid(b);
  }

  lemma FewMinutes(ms: nat)
    requires ms < 6000000
    ensures ClockParts(ms).minutes < 100
  {
  }

  /** Equal displays below 100 minutes have equal parts. */
  lemma SameDisplaySameParts(a: nat, b: nat)
    requires ClockParts(a).minutes < 100 && ClockParts(b).minutes < 100
    requires FormatClock(a) == FormatClock(b)
    ensures ClockParts(a) == ClockParts(b)
  {
    var ca, cb := ClockParts(a), ClockParts(b);
    var ra, rb := FormatClock(a), FormatClock(b);
    assert ra[0..2] == Pad2(ca.minutes) && rb[0..2] == Pad2(cb.minutes);
    assert ra[3..5] == Pad2(ca.seconds) && rb[3..5] == Pad2(cb.seconds);
    assert ra[6..8] == Pad2(ca.centis) && rb[6..8] == Pad2(cb.centis);
    Pad2Injective(ca.minutes, cb.minutes);
    Pad2Injective(ca.seconds, cb.seconds);
    Pad2Injective(ca.centis, cb.centis);
  }

  /** On the 10 ms grid the parts add up exactly. */
  lemma OnGrid(ms: nat)
    requires ms % 10 == 0
    ensures var c := ClockParts(ms); ms == c.minutes * 60000 + c.seconds * 1000 + c.centis * 10
  {
    var c := ClockParts(ms);
    var k := c.minutes * 6000 + c.seconds * 100 + c.centis;
    assert c.minutes * 60000 + c.seconds * 1000 + c.centis * 10 == 10 * k;
    var q := ms / 10;
    assert ms == 10 * q;
    assert 10 * k <= 10 * q < 10 * k + 10;
    assert k <= q < k + 1;
  }

  /** JavaScript `x % m` for a non-negative `x` and a positive `m`. */
  function RealMod(x: real, m: real): (r: real)
    requires x >= 0.0 && m > 0.0
    ensures 0.0 <= r < m
    ensures x == m * Floor(x / m) as real + r
  {
    var k := Floor(x / m);
    FloorDivBounds(x, m, k);
    x - m * k as real
  }

  /** With `k = Math.floor(x / m)`, `x` lies in `[k · m, (k + 1) · m)`. */
  lemma FloorDivBounds(x: real, m: real, k: int)
    requires m > 0.0 && k as real <= x / m < k as real + 1.0
    ensures 0.0 <= x - m * k as real < m
  {
    var q := x / m;
    var kr := k as real;
    var d := kr + 1.0 - q;
    var e := q - kr;
    assert d > 0.0 && e >= 0.0;
    assert d * m > 0.0 && e * m >= 0.0;
    var r := x - m * kr;
    assert r == e * m;
    assert r == m - d * m;
    assert r < m;
  }

  datatype SecondsParts = SecondsParts(minutes: nat, seconds: nat, fraction: nat)

  /**
   * `Math.floor(t / 60)`, `Math.floor(t % 60)` and
   * `Math.floor((t % 1) · units)`: whole minutes, whole seconds past them
   * and the fraction of the next second in `units`-ths, which together fall
   * short of `t` by less than one unit.
   */
  function SplitSeconds(t: real, units: nat): (p: SecondsParts)
    requires t >= 0.0 && units >= 1
    ensures p.seconds < 60 && p.fraction < units
    ensures (p.minutes * 60 + p.seconds) as real + p.fraction as real / units as real <= t
    ensures t < (p.minutes * 60 + p.seconds) as real + (p.fraction + 1) as real / units as real
  {
    var mins := Floor(t / 60.0);
    var secs := Floor(RealMod(t, 60.0));
    WholeSeconds(t);
    var frac := RealMod(t, 1.0);
    FractionOfSecond(t);
    var f := Floor(frac * units as real);
    FractionInUnits(frac, units);
    SecondsParts(mins, secs, f)
  }

  /** The whole minutes and the whole seconds past them make up the whole seconds of `t`. */
  lemma WholeSeconds(t: real)
    requires t >= 0.0
    ensures Floor(t / 60.0) >= 0
    ensures Floor(t) == Floor(t / 60.0) * 60 + Floor(RealMod(t, 60.0))
  {
    var mins := Floor(t / 60.0);
    assert t / 60.0 >= 0.0;
    var inMinute := RealMod(t, 60.0);
    var secs := Floor(inMinute);
    var whole := mins * 60 + secs;
    assert t == whole as real + (inMinute - secs as real);
    assert 0.0 <= inMinute - secs as real < 1.0;
  }

  /** `t % 1` is what `t` exceeds its whole seconds by. */
  lemma FractionOfSecond(t: real)
    requires t >= 0.0
    ensures RealMod(t, 1.0) == t - Floor(t) as real
  {
    assert t / 1.0 == t;
  }

  /** A fraction of a second in `units`-ths. */
  lemma FractionInUnits(frac: real, units: nat)
    requires 0.0 <= frac < 1.0 && units >= 1
    ensures 0 <= Floor(frac * units as real) < units
    ensures Floor(frac * units as real) as real / units as real <= frac
    ensures frac < (Floor(frac * units as real) + 1) as real / units as real
  {
    var f := Floor(frac * units as real);
    assert 0.0 <= frac * units as real < units as real;
    assert f as real <= frac * units as real < f as real + 1.0;
    DivideBounds(f as real, frac, (f + 1) as real, units as real);
  }

  /** Multiplying `lo <= q < hi` by a positive `m`. */
  lemma MultiplyBounds(lo: real, q: real, hi: real, m: real)
    requires m > 0.0 && lo <= q < hi
    ensures lo * m <= q * m < hi * m
  {
  }

  /** Dividing `lo <= x · n < hi` by a positive `n`. */
  lemma DivideBounds(lo: real, x: real, hi: real, n: real)
    requires n > 0.0 && lo <= x * n < hi
    ensures lo / n <= x < hi / n
  {
    assert lo / n <= x * n / n;
    assert x * n / n < hi / n;
  }

  /**
   * The photo-finish viewer's `formatTime`: a '-' exactly for negative
   * seconds, then minutes, seconds and hundredths of the magnitude.
   */
  function FormatFinishTime(t: real): (r: string)
    ensures |r| >= 8
    ensures r[0] == '-' <==> t < 0.0
  {
    var p := SplitSeconds(AbsR(t), 100);
    var body := Pad2(p.minutes) + "•" + Pad2(p.seconds) + "•" + Pad2(p.fraction);
    assert '0' <= body[0] <= '9' by {
      if p.minutes < 10 {
        assert body[0] == '0';
      } else {
        assert body[0] == NatToString(p.minutes)[0];
      }
    }
    (if t < 0.0 then "-" else "") + body
  }

  /** A time before the start point reads as the same time after it, with a minus sign in front. */
  lemma NegativeTimeIsSigned(t: real)
    requires t > 0.0
    ensures FormatFinishTime(-t) == "-" + FormatFinishTime(t)
  {
    assert AbsR(-t) == AbsR(t);
  }

  /** The photo-finish library's `formatTime`: minutes unpadded, seconds to two and milliseconds to three digits. */
  function FormatVideoTime(t: real): (r: string)
    requires t >= 0.0
  {
    var p := SplitSeconds(t, 1000);
    NatToString(p.minutes) + ":" + Pad2(p.seconds) + "." + Pad3(p.fraction)
  }

  /** The library display ends in exactly three millisecond digits after the point. */
  lemma VideoTimeShape(t: real)
    requires t >= 0.0
    ensures var r := FormatVideoTime(t); |r| >= 8 && r[|r| - 4] == '.'
  {
  }
}
