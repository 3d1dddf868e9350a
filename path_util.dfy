/** Helpers of the legacy `src/core` generation (src/core/util.rs): the string
  * handling behind path addressing (`split_last`, `is_numerical_id`,
  * `extract_id`), the periodic arithmetic used for hue interpolation, `tween`
  * and the conversion from the engine's y-up coordinates (`as_lunex`).
  * Strings are sequences of characters; `split` takes a one-character
  * delimiter, which is what every caller passes ("/"). */
module PathUtil {
  import opened Base
  import opened Strings

  // ---------------------------------------------------------------------
  // Splitting at the last delimiter

  /** The result `split_last` computes: every piece but the last joined with
    * the delimiter, and the last piece. */
  function SplitLastOf(s: string, d: char): (string, string)
  {
    var parts := Split(s, d);
    (Join(parts[..|parts| - 1], d), parts[|parts| - 1])
  }

  /** `split_last`: the string-building loop over all pieces but the last. */
  method SplitLast(s: string, d: char) returns (prefix: string, last: string)
    ensures (prefix, last) == SplitLastOf(s, d)
  {
    var list := Split(s, d);
    var output := "";
    var isFirst := true;
    for i := 0 to |list| - 1
      invariant isFirst <==> i == 0
      invariant output == Join(list[..i], d)
    {
      if !isFirst {
        output := output + [d];
      } else {
        isFirst := false;
      }
      output := output + list[i];
      assert list[..i + 1][..i] == list[..i];
    }
    prefix, last := output, list[|list| - 1];
  }

  /** The last piece holds no delimiter; when the string has one, the prefix,
    * the delimiter and the last piece make up the string, and otherwise the
    * prefix is empty and the last piece is the whole string. */
  lemma SplitLastParts(s: string, d: char)
    ensures d !in SplitLastOf(s, d).1
    ensures d in s ==> SplitLastOf(s, d).0 + [d] + SplitLastOf(s, d).1 == s
    ensures d !in s ==> SplitLastOf(s, d) == ("", s)
  {
    var parts := Split(s, d);
    JoinSplit(s, d);
    if d !in s {
      SplitWithoutDelimiter(s, d);
    }
  }

  // ---------------------------------------------------------------------
  // Numeric ids

  /** `is_numerical_id`: the string starts with '#'. */
  function IsNumericalId(s: string): (b: bool)
    ensures b <==> |s| > 0 && s[0] == '#'
  {
    |s| > 0 && s[0] == '#'
  }

  /** `extract_id`: the number after the first character, which is skipped
    * without being checked. */
  function ExtractId(s: string): (r: Result<nat, string>)
    ensures |s| == 0 ==> r.Err?
    ensures |s| > 0 ==> (r.Ok? <==> ParseUsize(s[1..]).Some?)
    ensures r.Ok? ==> r.value == ParseUsize(s[1..]).value
  {
    if |s| == 0 then Err("This is not a numeric path!")
    else match ParseUsize(s[1..])
      case Some(v) => Ok(v)
      case None => Err(s + " caused syntax error!")
  }

  /** The numeric paths the trees generate, `"#" + n`, give their number
    * back. */
  lemma ExtractIdOfGenerated(n: nat)
    requires n <= UsizeMax
    ensures IsNumericalId("#" + NatToString(n))
    ensures ExtractId("#" + NatToString(n)) == Ok(n)
  {
    var s := "#" + NatToString(n);
    assert s[1..] == NatToString(n);
    DigitsOfNatToString(n);
  }

  /** `extract_id` rejects the empty string, a lone prefix and a non-digit tail. */
  lemma ExtractIdExamples()
    ensures ExtractId("#12") == Ok(12)
    ensures ExtractId("").Err? && ExtractId("#").Err? && ExtractId("#a").Err? && ExtractId("#-1").Err?
  {
    assert "#12"[1..] == "12";
    assert "12"[..1] == "1" && "1"[..0] == "";
    assert DigitsValue("12") == 12;
    assert "#"[1..] == "";
    assert "#a"[1..] == "a";
    assert !AllDigits("a") by { assert !IsDigit("a"[0]); }
    assert "#-1"[1..] == "-1";
    assert !AllDigits("-1") by { assert !IsDigit("-1"[0]); }
  }

  // ---------------------------------------------------------------------
  // Periodic arithmetic

  /** Rounding toward zero. */
  function Trunc(y: real): (t: int)
    ensures y >= 0.0 ==> t as real <= y < t as real + 1.0
    ensures y < 0.0 ==> t as real - 1.0 < y <= t as real
  {
    if y >= 0.0 then y.Floor else -((-y).Floor)
  }

  lemma MulLe(a: real, b: real, c: real)
    requires a <= b && c >= 0.0
    ensures a * c <= b * c
  {
    assert b * c - a * c == (b - a) * c;
  }
  /** Between consecutive multiples. */
  lemma Between(x: real, q: real, lo: real, hi: real, p: real)
    requires p > 0.0 && x == q * p && lo <= q <= hi
    ensures lo * p <= x <= hi * p
  {
    MulLe(lo, q, p);
    MulLe(q, hi, p);
  }
  lemma StrictBelow(x: real, q: real, hi: real, p: real)
    requires p > 0.0 && x == q * p && q < hi
    ensures x < hi * p
  {
    assert hi * p - x == (hi - q) * p;
  }
  lemma StrictAbove(x: real, q: real, lo: real, p: real)
    requires p > 0.0 && x == q * p && lo < q
    ensures lo * p < x
  {
    assert x - lo * p == (q - lo) * p;
  }
  /** The quotient rounded toward zero, times the divisor, lies within one
    * divisor of the dividend, on the side of zero. */
  lemma TruncBounds(x: real, p: real)
    requires p > 0.0
    ensures x >= 0.0 ==> Trunc(x / p) as real * p <= x < Trunc(x / p) as real * p + p
    ensures x < 0.0 ==> Trunc(x / p) as real * p - p < x <= Trunc(x / p) as real * p
  {
    var q := x / p;
    var t := Trunc(q) as real;
    assert x == q * p;
    if x >= 0.0 {
      if q < 0.0 { StrictBelow(x, q, 0.0, p); }
      Between(x, q, t, q, p);
      StrictBelow(x, q, t + 1.0, p);
      assert (t + 1.0) * p == t * p + p;
    } else {
      if q >= 0.0 { Between(x, q, 0.0, q, p); }
      Between(x, q, q, t, p);
      StrictAbove(x, q, t - 1.0, p);
      assert (t - 1.0) * p == t * p - p;
    }
  }

  /** The `%` of `f32`: the remainder of a division truncated toward zero,
    * with the sign of the dividend. */
  function FMod(x: real, p: real): (r: real)
    requires p > 0.0
    ensures x >= 0.0 ==> 0.0 <= r < p
    ensures x < 0.0 ==> -p < r <= 0.0
    ensures r == x - Trunc(x / p) as real * p
  {
    TruncBounds(x, p);
    x - Trunc(x / p) as real * p
  }

  /** `a` and `b` differ by a whole number of periods. */
  ghost predicate SamePhase(a: real, b: real, p: real)
  {
    exists k: int :: a == b + Times(k, p)
  }

  /** `k` periods. */
  function Times(k: int, p: real): real
  {
    k as real * p
  }

  lemma TimesAdd(k: int, j: int, p: real)
    ensures Times(k + j, p) == Times(k, p) + Times(j, p)
  {
  }

  lemma SamePhaseTrans(a: real, b: real, c: real, p: real)
    requires SamePhase(a, b, p) && SamePhase(b, c, p)
    ensures SamePhase(a, c, p)
  {
    var k :| a == b + Times(k, p);
    var j :| b == c + Times(j, p);
    TimesAdd(k, j, p);
    assert a == c + Times(k + j, p);
  }

  /** Adding `j` periods keeps the phase. */
  lemma SamePhaseShift(a: real, b: real, j: int, p: real)
    requires SamePhase(a, b, p)
    ensures SamePhase(a + Times(j, p), b, p)
  {
    var k :| a == b + Times(k, p);
    TimesAdd(k, j, p);
    assert a + Times(j, p) == b + Times(k + j, p);
  }

  lemma SamePhaseDiff(a: real, b: real, c: real, e: real, p: real)
    requires SamePhase(a, b, p) && SamePhase(c, e, p)
    ensures SamePhase(a - c, b - e, p)
  {
    var k :| a == b + Times(k, p);
    var j :| c == e + Times(j, p);
    TimesAdd(k, -j, p);
    assert a - c == b - e + Times(k + -j, p);
  }

  lemma FModPhase(x: real, p: real)
    requires p > 0.0
    ensures SamePhase(FMod(x, p), x, p)
  {
    assert FMod(x, p) == x + Times(-Trunc(x / p), p);
  }

  /** `periodical`: the value normalised into `[0, period)`. */
  function Periodical(period: real, x: real): (r: real)
    requires period > 0.0
    ensures 0.0 <= r < period
  {
    var value := FMod(x, period);
    if value < 0.0 then value + period else value
  }

  /** `periodical` moves its argument by whole periods only. */
  lemma PeriodicalPhase(period: real, x: real)
    requires period > 0.0
    ensures SamePhase(Periodical(period, x), x, period)
  {
    FModPhase(x, period);
    if FMod(x, period) < 0.0 {
      SamePhaseShift(FMod(x, period), x, 1, period);
    }
  }

  /** The normalised difference both `periodical_difference_*` start from:
    * in `(-p, p)` and in phase with `x2 - x1`. */
  function RawDifference(period: real, x1: real, x2: real): (r: real)
    requires period > 0.0
    ensures -period < r < period
  {
    FMod(Periodical(period, x2) - Periodical(period, x1), period)
  }

  lemma RawDifferencePhase(period: real, x1: real, x2: real)
    requires period > 0.0
    ensures SamePhase(RawDifference(period, x1, x2), x2 - x1, period)
  {
    var a, b := Periodical(period, x2), Periodical(period, x1);
    PeriodicalPhase(period, x2);
    PeriodicalPhase(period, x1);
    SamePhaseDiff(a, x2, b, x1, period);
    FModPhase(a - b, period);
    SamePhaseTrans(RawDifference(period, x1, x2), a - b, x2 - x1, period);
  }

  /** `periodical_difference_short`: the inner difference, in `[-p/2, p/2]`. */
  function DifferenceShort(period: real, x1: real, x2: real): (r: real)
    requires period > 0.0
    ensures -period / 2.0 <= r <= period / 2.0
  {
    var difference := RawDifference(period, x1, x2);
    if difference > period / 2.0 then difference - period
    else if difference < -period / 2.0 then difference + period
    else difference
  }

  /** `periodical_difference_long` as written: a negative difference is
    * always wrapped forward, even when that makes it the short one. */
  function DifferenceLong(period: real, x1: real, x2: real): (r: real)
    requires period > 0.0
    ensures -period <= r < period
  {
    var difference := RawDifference(period, x1, x2);
    if difference < 0.0 then difference + period
    else if difference <= period / 2.0 then difference - period
    else difference
  }

  /** The outer difference the documentation promises: at least half a
    * period long. */
  function DifferenceLongCorrected(period: real, x1: real, x2: real): (r: real)
    requires period > 0.0
    ensures period / 2.0 <= r || r <= -period / 2.0
    ensures -period <= r < period
  {
    var difference := RawDifference(period, x1, x2);
    if difference < 0.0 then
      if difference >= -period / 2.0 then difference + period else difference
    else if difference <= period / 2.0 then difference - period
    else difference
  }

  /** Every difference is a true difference: `x1` plus it is `x2`, up to
    * whole periods. */
  lemma DifferencesArePhases(period: real, x1: real, x2: real)
    requires period > 0.0
    ensures SamePhase(DifferenceShort(period, x1, x2), x2 - x1, period)
    ensures SamePhase(DifferenceLong(period, x1, x2), x2 - x1, period)
    ensures SamePhase(DifferenceLongCorrected(period, x1, x2), x2 - x1, period)
  {
    var d := RawDifference(period, x1, x2);
    RawDifferencePhase(period, x1, x2);
    SamePhaseShift(d, x2 - x1, 1, period);
    SamePhaseShift(d, x2 - x1, -1, period);
  }

  /** The short and the corrected long difference are one period apart
    * (they coincide only at exactly half a period), so the two tweens go
    * opposite ways round. */
  lemma ShortAndLongComplement(period: real, x1: real, x2: real)
    requires period > 0.0
    ensures var s, l := DifferenceShort(period, x1, x2), DifferenceLongCorrected(period, x1, x2);
            s == l || s - l == period || l - s == period
  {
  }

  /** The documented examples of the three periodic helpers. */
  lemma PeriodicalExamples()
    ensures Periodical(360.0, -45.0) == 315.0 && Periodical(360.0, 45.0) == 45.0
    ensures Periodical(360.0, 360.0) == 0.0 && Periodical(360.0, 450.0) == 90.0
  {
    assert Trunc(-45.0 / 360.0) == 0;
    assert Trunc(45.0 / 360.0) == 0;
    assert Trunc(360.0 / 360.0) == 1;
    assert Trunc(450.0 / 360.0) == 1;
  }

  lemma DifferenceExamples()
    ensures DifferenceShort(360.0, 0.0, 120.0) == 120.0 && DifferenceShort(360.0, 0.0, 270.0) == -90.0
    ensures DifferenceShort(360.0, 45.0, 90.0) == 45.0 && DifferenceShort(360.0, 90.0, 45.0) == -45.0
    ensures DifferenceLong(360.0, 0.0, 120.0) == -240.0 && DifferenceLong(360.0, 0.0, 270.0) == 270.0
    ensures DifferenceLong(360.0, 45.0, 90.0) == -315.0 && DifferenceLong(360.0, 90.0, 45.0) == 315.0
  {
    PeriodicalExamples();
    assert Periodical(360.0, 0.0) == 0.0 by { assert Trunc(0.0 / 360.0) == 0; }
    assert Periodical(360.0, 120.0) == 120.0 by { assert Trunc(120.0 / 360.0) == 0; }
    assert Periodical(360.0, 270.0) == 270.0 by { assert Trunc(270.0 / 360.0) == 0; }
    assert Periodical(360.0, 90.0) == 90.0 by { assert Trunc(90.0 / 360.0) == 0; }
    assert Trunc(120.0 / 360.0) == 0 && Trunc(270.0 / 360.0) == 0;
    assert Trunc(45.0 / 360.0) == 0 && Trunc(-45.0 / 360.0) == 0;
  }

  /** The corrected long difference agrees with the documented examples. */
  lemma DifferenceLongCorrectedExamples()
    ensures DifferenceLongCorrected(360.0, 0.0, 120.0) == -240.0 && DifferenceLongCorrected(360.0, 0.0, 270.0) == 270.0
    ensures DifferenceLongCorrected(360.0, 45.0, 90.0) == -315.0 && DifferenceLongCorrected(360.0, 90.0, 45.0) == 315.0
  {
    DifferenceExamples();
  }

  /** As written, the long difference from 300 to 0 degrees is +60, the inner
    * angle, where the outer angle is -300. */
  lemma DifferenceLongCounterexample()
    ensures DifferenceLong(360.0, 300.0, 0.0) == 60.0
    ensures DifferenceShort(360.0, 300.0, 0.0) == 60.0
    ensures DifferenceLongCorrected(360.0, 300.0, 0.0) == -300.0
  {
    assert Periodical(360.0, 300.0) == 300.0 by { assert Trunc(300.0 / 360.0) == 0; }
    assert Periodical(360.0, 0.0) == 0.0 by { assert Trunc(0.0 / 360.0) == 0; }
    assert Trunc(-300.0 / 360.0) == 0;
  }

  /** `periodical_tween_short`: from `x1` along the inner difference. */
  function TweenShort(period: real, x1: real, x2: real, slider: real): (r: real)
    requires period > 0.0
    ensures 0.0 <= r < period
  {
    Periodical(period, Periodical(period, x1) + DifferenceShort(period, x1, x2) * slider)
  }

  /** `periodical_tween_long`, with the long difference as written. */
  function TweenLong(period: real, x1: real, x2: real, slider: real): (r: real)
    requires period > 0.0
    ensures 0.0 <= r < period
  {
    Periodical(period, Periodical(period, x1) + DifferenceLong(period, x1, x2) * slider)
  }

  /** Two values of `[0, p)` in the same phase are equal. */
  lemma SamePhaseUnique(a: real, b: real, p: real)
    requires p > 0.0 && 0.0 <= a < p && 0.0 <= b < p && SamePhase(a, b, p)
    ensures a == b
  {
    var k :| a == b + Times(k, p);
    if k >= 1 {
      Between(Times(k, p), k as real, 1.0, k as real, p);
    } else if k <= -1 {
      Between(Times(k, p), k as real, k as real, -1.0, p);
    }
  }

  /** `periodical` gives the same value for arguments in the same phase. */
  lemma PeriodicalOfSamePhase(p: real, x: real, y: real)
    requires p > 0.0 && SamePhase(x, y, p)
    ensures Periodical(p, x) == Periodical(p, y)
  {
    PeriodicalPhase(p, x);
    PeriodicalPhase(p, y);
    SamePhaseTrans(Periodical(p, x), x, y, p);
    var k :| Periodical(p, y) == y + Times(k, p);
    TimesAdd(k, -k, p);
    assert y == Periodical(p, y) + Times(-k, p);
    SamePhaseTrans(Periodical(p, x), y, Periodical(p, y), p);
    SamePhaseUnique(Periodical(p, x), Periodical(p, y), p);
  }

  /** Both tweens start at `x1` and end at `x2`, normalised. */
  lemma TweenEnds(period: real, x1: real, x2: real)
    requires period > 0.0
    ensures TweenShort(period, x1, x2, 0.0) == TweenLong(period, x1, x2, 0.0) == Periodical(period, x1)
    ensures TweenShort(period, x1, x2, 1.0) == TweenLong(period, x1, x2, 1.0) == Periodical(period, x2)
  {
    var b := Periodical(period, x1);
    PeriodicalPhase(period, x1);
    PeriodicalOfSamePhase(period, b, x1);
    DifferencesArePhases(period, x1, x2);
    EndsAt(period, x1, x2, b, DifferenceShort(period, x1, x2));
    EndsAt(period, x1, x2, b, DifferenceLong(period, x1, x2));
  }

  lemma EndsAt(period: real, x1: real, x2: real, b: real, d: real)
    requires period > 0.0 && SamePhase(b, x1, period) && SamePhase(d, x2 - x1, period)
    ensures Periodical(period, b + d * 1.0) == Periodical(period, x2)
  {
    var k :| b == x1 + Times(k, period);
    var j :| d == x2 - x1 + Times(j, period);
    TimesAdd(k, j, period);
    assert b + d * 1.0 == x2 + Times(k + j, period);
    PeriodicalOfSamePhase(period, b + d * 1.0, x2);
  }

  // ---------------------------------------------------------------------
  // Interpolation and coordinates

  /** `tween`: linear interpolation from `a` (slide 0) to `b` (slide 1). */
  function Tween(a: real, b: real, slide: real): (r: real)
    ensures slide == 0.0 ==> r == a
    ensures slide == 1.0 ==> r == b
    ensures 0.0 <= slide <= 1.0 ==> Min(a, b) <= r <= Max(a, b)
  {
    var diff := b - a;
    assert 0.0 <= slide <= 1.0 && diff >= 0.0 ==> 0.0 <= diff * slide <= diff;
    assert 0.0 <= slide <= 1.0 && diff < 0.0 ==> diff <= diff * slide <= 0.0;
    a + diff * slide
  }

  /** `AsLunexVec2::as_lunex`: moves the origin to `offset` and flips y. */
  function AsLunex(v: Vec2, offset: Vec2): (r: Vec2)
    ensures Add2(Vec2(r.x, -r.y), offset) == v
  {
    Vec2(v.x - offset.x, offset.y - v.y)
  }
}
