/**
 * The per-direction aggregation shared by both conflation scripts
 * (npmrds_data_conflation_batchprocess.py and npmrds_project_conflation.py):
 * the filter on the split project pieces, and the two averaging modes.
 *
 * A piece is one part of the project line after it was split at TMC buffer boundaries
 * and spatially joined to a TMC: its length in feet and the TMC's metric values, in the
 * order of the field list (`None` is a null / NaN cell). pandas sums skip NaN, so a sum
 * over "the k-th metric" only takes the pieces whose k-th value is present.
 */
module Aggregation {
  import opened Wrappers

  const FeetPerMile: real := 5280.0

  /** A numpy float result: a finite value, NaN, or +inf (what x / 0.0 gives instead of raising). */
  datatype Cell = Num(v: real) | NaN | Inf

  datatype Piece = Piece(len: real, vals: seq<Option<real>>)

  /** The k-th metric of a piece; a column the piece lacks reads as null. */
  function Val(p: Piece, k: nat): Option<real>
  {
    if k < |p.vals| then p.vals[k] else None
  }

  /**
   * The two row filters: the first metric (the check field) is not null, and the row
   * minimum over the length and the metrics is > 0. pandas' row minimum skips NaN, so a
   * null in any other metric does not drop the piece.
   */
  predicate Kept(p: Piece)
  {
    && Val(p, 0).Some?
    && p.len > 0.0
    && forall k :: 0 <= k < |p.vals| && p.vals[k].Some? ==> p.vals[k].value > 0.0
  }

  predicate AllKept(ps: seq<Piece>)
  {
    forall i :: 0 <= i < |ps| ==> Kept(ps[i])
  }

  /** The rows that survive both filters, in their original order. */
  function Retained(ps: seq<Piece>): (r: seq<Piece>)
    ensures |r| <= |ps|
    ensures AllKept(r)
    ensures forall p :: p in r <==> p in ps && Kept(p)
    ensures forall p :: multiset(r)[p] == if Kept(p) then multiset(ps)[p] else 0
  {
    if ps == [] then []
    else
      assert ps == [ps[0]] + ps[1..];
      if Kept(ps[0]) then [ps[0]] + Retained(ps[1..]) else Retained(ps[1..])
  }

  /**
   * The filter keeps the pieces in their original order: it works piece by piece, so it
   * distributes over concatenation.
   */
  lemma {:induction false} RetainedConcat(a: seq<Piece>, b: seq<Piece>)
    ensures Retained(a + b) == Retained(a) + Retained(b)
  {
    if a == [] {
      assert a + b == b;
    } else {
      RetainedStep(a, b);
      RetainedStep(a, []);
      assert a + [] == a && a[1..] + [] == a[1..];
      RetainedConcat(a[1..], b);
      ConcatAssoc(if Kept(a[0]) then [a[0]] else [], Retained(a[1..]), Retained(b));
    }
  }

  /** One step of the filter on a concatenation: its first piece, then the rest. */
  lemma RetainedStep(a: seq<Piece>, b: seq<Piece>)
    requires a != []
    ensures Retained(a + b) == (if Kept(a[0]) then [a[0]] else []) + Retained(a[1..] + b)
  {
    assert (a + b)[0] == a[0] && (a + b)[1..] == a[1..] + b;
  }

  lemma ConcatAssoc<T>(h: seq<T>, x: seq<T>, y: seq<T>)
    ensures h + (x + y) == (h + x) + y
  {
  }

  /** Pieces that all pass the filters come through unchanged. */
  lemma {:induction false} RetainedAllKept(ps: seq<Piece>)
    requires AllKept(ps)
    ensures Retained(ps) == ps
  {
    if ps != [] {
      RetainedAllKept(ps[1..]);
      assert ps == [ps[0]] + ps[1..];
    }
  }

  /** A piece with a present metric <= 0 is excluded, whatever its other metrics are. */
  lemma NonPositiveMetricExcluded(ps: seq<Piece>, p: Piece, k: nat)
    requires k < |p.vals| && p.vals[k].Some? && p.vals[k].value <= 0.0
    ensures p !in Retained(ps)
  {
  }

  /** Σ length: `df[SHAPE@LENGTH].sum()` */
  function SumLen(ps: seq<Piece>): real
  {
    if ps == [] then 0.0 else ps[0].len + SumLen(ps[1..])
  }

  /** value·length, or 0 for a null value. */
  function WeightedTerm(p: Piece, k: nat): real
  {
    match Val(p, k) case Some(v) => v * p.len case None => 0.0
  }

  /** length / value, or 0 for a null value. */
  function LenPerSpeedTerm(p: Piece, k: nat): real
    requires Kept(p)
  {
    match Val(p, k) case Some(v) => p.len / v case None => 0.0
  }

  /** (1 / value) · (length / 5280): the hours to cover the piece, or 0 for a null value. */
  function TravelHoursTerm(p: Piece, k: nat): real
    requires Kept(p)
  {
    match Val(p, k) case Some(v) => (1.0 / v) * (p.len / FeetPerMile) case None => 0.0
  }

  /** Σ value·length over pieces whose k-th value is present. */
  function SumWeighted(ps: seq<Piece>, k: nat): real
  {
    if ps == [] then 0.0 else WeightedTerm(ps[0], k) + SumWeighted(ps[1..], k)
  }

  /** Σ length / value over pieces whose k-th value is present. */
  function SumLenPerSpeed(ps: seq<Piece>, k: nat): real
    requires AllKept(ps)
  {
    if ps == [] then 0.0 else LenPerSpeedTerm(ps[0], k) + SumLenPerSpeed(ps[1..], k)
  }

  /** Σ length in miles: `(df[len] / 5280).sum()` */
  function SumMiles(ps: seq<Piece>): real
  {
    if ps == [] then 0.0 else ps[0].len / FeetPerMile + SumMiles(ps[1..])
  }

  /** Σ travel hours: `((1 / df[field]) * (df[len] / 5280)).sum()`, NaN rows skipped. */
  function SumTravelHours(ps: seq<Piece>, k: nat): real
    requires AllKept(ps)
  {
    if ps == [] then 0.0 else TravelHoursTerm(ps[0], k) + SumTravelHours(ps[1..], k)
  }

  function CountPresent(ps: seq<Piece>, k: nat): nat
  {
    if ps == [] then 0 else (if Val(ps[0], k).Some? then 1 else 0) + CountPresent(ps[1..], k)
  }

  function SumPresent(ps: seq<Piece>, k: nat): real
  {
    if ps == [] then 0.0
    else (match Val(ps[0], k) case Some(v) => v case None => 0.0) + SumPresent(ps[1..], k)
  }

  /** `df[field].mean()`: NaN when no value is present. */
  function PresentMean(ps: seq<Piece>, k: nat): Cell
  {
    var n := CountPresent(ps, k);
    if n == 0 then NaN else Num(SumPresent(ps, k) / n as real)
  }

  /** Batch `get_wtd_speed`: total miles / total hours, or 0 when total hours is not > 0. */
  function WtdSpeedGuarded(ps: seq<Piece>, k: nat): real
    requires AllKept(ps)
  {
    var tt := SumTravelHours(ps, k);
    if tt > 0.0 then SumMiles(ps) / tt else 0.0
  }

  /** Single-project `get_wtd_speed`: the same quotient with no guard; numpy gives nan or inf for x / 0.0. */
  function WtdSpeedUnguarded(ps: seq<Piece>, k: nat): Cell
    requires AllKept(ps)
  {
    var tt := SumTravelHours(ps, k);
    var mi := SumMiles(ps);
    if tt != 0.0 then Num(mi / tt) else if mi > 0.0 then Inf else NaN
  }

  /** Distance-weighted average: Σ(value·length) / Σlength, or the plain mean when Σlength is not > 0. */
  function DistWtdAvg(ps: seq<Piece>, k: nat): Cell
  {
    var total := SumLen(ps);
    if total > 0.0 then Num(SumWeighted(ps, k) / total) else PresentMean(ps, k)
  }

  /** The length-weighted harmonic mean of the k-th metric (space-mean speed, in mph). */
  function HarmonicMean(ps: seq<Piece>, k: nat): real
    requires AllKept(ps)
    requires SumLenPerSpeed(ps, k) > 0.0
  {
    SumLen(ps) / SumLenPerSpeed(ps, k)
  }

  predicate AllPresent(ps: seq<Piece>, k: nat)
  {
    forall i :: 0 <= i < |ps| ==> Val(ps[i], k).Some?
  }

  predicate ValuesIn(ps: seq<Piece>, k: nat, lo: real, hi: real)
  {
    forall i :: 0 <= i < |ps| && Val(ps[i], k).Some? ==> lo <= Val(ps[i], k).value <= hi
  }

  // ---------------------------------------------------------------- real-arithmetic steps

  lemma MulLe(a: real, b: real, c: real)
    requires a <= b && c >= 0.0
    ensures a * c <= b * c
  {
  }

  lemma Distrib(a: real, b: real, c: real)
    ensures a * (b + c) == a * b + a * c
  {
  }

  /** Two bounds c·a0 <= b0 and c·a <= b add up: c·s <= t for s = a0 + a, t = b0 + b. */
  lemma ScaledSumAtMost(c: real, s: real, a0: real, a: real, t: real, b0: real, b: real)
    requires s == a0 + a && t == b0 + b
    requires c * a0 <= b0 && c * a <= b
    ensures c * s <= t
  {
    Distrib(c, a0, a);
  }

  /** Two bounds b0 <= c·a0 and b <= c·a add up: t <= c·s for s = a0 + a, t = b0 + b. */
  lemma ScaledSumAtLeast(c: real, s: real, a0: real, a: real, t: real, b0: real, b: real)
    requires s == a0 + a && t == b0 + b
    requires b0 <= c * a0 && b <= c * a
    ensures t <= c * s
  {
    Distrib(c, a0, a);
  }

  /** lo·s <= l with s > 0 gives lo <= l / s. */
  lemma AtMostQuotient(lo: real, l: real, s: real)
    requires s > 0.0 && lo * s <= l
    ensures lo <= l / s
  {
    assert (l / s) * s == l;
  }

  /** l <= hi·s with s > 0 gives l / s <= hi. */
  lemma QuotientAtMost(l: real, s: real, hi: real)
    requires s > 0.0 && l <= hi * s
    ensures l / s <= hi
  {
    assert (l / s) * s == l;
  }

  lemma HoursTermIsFeet(len: real, v: real)
    requires v > 0.0
    ensures (1.0 / v) * (len / FeetPerMile) == (len / v) / FeetPerMile
  {
  }

  lemma MilesOverHours(l: real, s: real)
    requires s != 0.0
    ensures (l / FeetPerMile) / (s / FeetPerMile) == l / s
  {
  }

  // ---------------------------------------------------------------- the feet/mile divisor cancels

  lemma {:induction false} SumMilesIsFeet(ps: seq<Piece>)
    ensures SumMiles(ps) == SumLen(ps) / FeetPerMile
  {
    if ps != [] {
      SumMilesIsFeet(ps[1..]);
    }
  }

  lemma {:induction false} SumTravelHoursIsFeet(ps: seq<Piece>, k: nat)
    requires AllKept(ps)
    ensures SumTravelHours(ps, k) == SumLenPerSpeed(ps, k) / FeetPerMile
  {
    if ps != [] {
      SumTravelHoursIsFeet(ps[1..], k);
      if Val(ps[0], k).Some? {
        HoursTermIsFeet(ps[0].len, Val(ps[0], k).value);
      }
    }
  }

  /** Σ len/v over kept pieces is never negative, and is positive exactly when some k-th value is present. */
  lemma {:induction false} SumLenPerSpeedSign(ps: seq<Piece>, k: nat)
    requires AllKept(ps)
    ensures SumLenPerSpeed(ps, k) >= 0.0
    ensures SumLenPerSpeed(ps, k) > 0.0 <==> CountPresent(ps, k) > 0
  {
    if ps != [] {
      SumLenPerSpeedSign(ps[1..], k);
      if Val(ps[0], k).Some? {
        assert ps[0].len / Val(ps[0], k).value > 0.0;
      }
    }
  }

  /** The total length of kept pieces is positive exactly when there is at least one. */
  lemma {:induction false} SumLenSign(ps: seq<Piece>)
    requires AllKept(ps)
    ensures SumLen(ps) >= 0.0
    ensures SumLen(ps) > 0.0 <==> ps != []
  {
    if ps != [] {
      SumLenSign(ps[1..]);
    }
  }

  /** A metric present in every piece is counted once per piece. */
  lemma {:induction false} PresentCount(ps: seq<Piece>, k: nat)
    requires AllPresent(ps, k)
    ensures CountPresent(ps, k) == |ps|
  {
    if ps != [] {
      assert forall i :: 0 <= i < |ps[1..]| ==> ps[1..][i] == ps[i + 1];
      PresentCount(ps[1..], k);
    }
  }

  /** The check field (metric 0) is present in every kept piece. */
  lemma CheckFieldAlwaysPresent(ps: seq<Piece>)
    requires AllKept(ps)
    ensures AllPresent(ps, 0)
    ensures CountPresent(ps, 0) == |ps|
  {
    PresentCount(ps, 0);
  }

  /**
   * Both `get_wtd_speed` variants compute Σlength / Σ(length / speed): the harmonic mean
   * weighted by length, whenever some speed is present.
   */
  lemma WtdSpeedIsHarmonicMean(ps: seq<Piece>, k: nat)
    requires AllKept(ps)
    requires CountPresent(ps, k) > 0
    ensures SumLenPerSpeed(ps, k) > 0.0
    ensures WtdSpeedGuarded(ps, k) == HarmonicMean(ps, k)
    ensures WtdSpeedUnguarded(ps, k) == Num(HarmonicMean(ps, k))
  {
    SumLenPerSpeedSign(ps, k);
    SumMilesIsFeet(ps);
    SumTravelHoursIsFeet(ps, k);
    MilesOverHours(SumLen(ps), SumLenPerSpeed(ps, k));
  }

  /**
   * With no present value the batch variant reports 0, and the single-project variant
   * divides by zero: NaN (0 / 0) with no piece, +inf with some length.
   */
  lemma WtdSpeedNoData(ps: seq<Piece>, k: nat)
    requires AllKept(ps)
    requires CountPresent(ps, k) == 0
    ensures WtdSpeedGuarded(ps, k) == 0.0
    ensures ps == [] ==> WtdSpeedUnguarded(ps, k) == NaN
    ensures ps != [] ==> WtdSpeedUnguarded(ps, k) == Inf
  {
    SumLenPerSpeedSign(ps, k);
    SumMilesIsFeet(ps);
    SumTravelHoursIsFeet(ps, k);
    SumLenSign(ps);
  }

  /** The two variants agree exactly when the batch guard lets the quotient through. */
  lemma WtdSpeedVariantsAgree(ps: seq<Piece>, k: nat)
    requires AllKept(ps)
    ensures WtdSpeedUnguarded(ps, k) == Num(WtdSpeedGuarded(ps, k)) <==> SumTravelHours(ps, k) > 0.0
  {
    SumLenPerSpeedSign(ps, k);
    SumMilesIsFeet(ps);
    SumTravelHoursIsFeet(ps, k);
    SumLenSign(ps);
  }

  /** For the check field the guard never fires on a nonempty set of retained pieces. */
  lemma CheckFieldSpeedDefined(ps: seq<Piece>)
    requires AllKept(ps) && ps != []
    ensures SumTravelHours(ps, 0) > 0.0
    ensures WtdSpeedUnguarded(ps, 0) == Num(WtdSpeedGuarded(ps, 0))
  {
    CheckFieldAlwaysPresent(ps);
    SumLenPerSpeedSign(ps, 0);
    SumTravelHoursIsFeet(ps, 0);
    WtdSpeedVariantsAgree(ps, 0);
  }

  /**
   * The plain-mean fallback of the distance-weighted average is only reachable with no
   * retained piece, where it is NaN.
   */
  lemma DistWtdAvgFallback(ps: seq<Piece>, k: nat)
    requires AllKept(ps)
    ensures DistWtdAvg(ps, k).NaN? <==> ps == []
    ensures ps != [] ==> SumLen(ps) > 0.0
    ensures ps != [] ==> DistWtdAvg(ps, k) == Num(SumWeighted(ps, k) / SumLen(ps))
  {
    SumLenSign(ps);
  }

  // ---------------------------------------------------------------- sums of real sequences

  function Sum(xs: seq<real>): real
  {
    if xs == [] then 0.0 else xs[0] + Sum(xs[1..])
  }

  /** The per-piece lengths, value·length terms and length / value terms, as sequences. */
  function Lens(ps: seq<Piece>): seq<real>
  {
    seq(|ps|, i requires 0 <= i < |ps| => ps[i].len)
  }

  function WeightedTerms(ps: seq<Piece>, k: nat): seq<real>
  {
    seq(|ps|, i requires 0 <= i < |ps| => WeightedTerm(ps[i], k))
  }

  function LenPerSpeedTerms(ps: seq<Piece>, k: nat): seq<real>
    requires AllKept(ps)
  {
    seq(|ps|, i requires 0 <= i < |ps| => LenPerSpeedTerm(ps[i], k))
  }

  lemma {:induction false} SumLens(ps: seq<Piece>)
    ensures Sum(Lens(ps)) == SumLen(ps)
  {
    if ps != [] {
      assert Lens(ps)[1..] == Lens(ps[1..]);
      SumLens(ps[1..]);
    }
  }

  lemma {:induction false} SumWeightedTerms(ps: seq<Piece>, k: nat)
    ensures Sum(WeightedTerms(ps, k)) == SumWeighted(ps, k)
  {
    if ps != [] {
      assert WeightedTerms(ps, k)[1..] == WeightedTerms(ps[1..], k);
      SumWeightedTerms(ps[1..], k);
    }
  }

  lemma {:induction false} SumLenPerSpeedTerms(ps: seq<Piece>, k: nat)
    requires AllKept(ps)
    ensures Sum(LenPerSpeedTerms(ps, k)) == SumLenPerSpeed(ps, k)
  {
    if ps != [] {
      assert LenPerSpeedTerms(ps, k)[1..] == LenPerSpeedTerms(ps[1..], k);
      SumLenPerSpeedTerms(ps[1..], k);
    }
  }

  /** c·xs[i] <= ys[i] for every i gives c·Σ xs <= Σ ys. */
  lemma {:induction false} SumScaledAtMost(c: real, xs: seq<real>, ys: seq<real>)
    requires |xs| == |ys| && forall i :: 0 <= i < |xs| ==> c * xs[i] <= ys[i]
    ensures c * Sum(xs) <= Sum(ys)
  {
    if xs == [] {
      ScaledSumAtMost(c, Sum(xs), 0.0, 0.0, Sum(ys), 0.0, 0.0);
    } else {
      var xr, yr := xs[1..], ys[1..];
      assert forall i :: 0 <= i < |xr| ==> xr[i] == xs[i + 1] && yr[i] == ys[i + 1];
      SumScaledAtMost(c, xr, yr);
      ScaledSumAtMost(c, Sum(xs), xs[0], Sum(xr), Sum(ys), ys[0], Sum(yr));
    }
  }

  /** ys[i] <= c·xs[i] for every i gives Σ ys <= c·Σ xs. */
  lemma {:induction false} SumScaledAtLeast(c: real, xs: seq<real>, ys: seq<real>)
    requires |xs| == |ys| && forall i :: 0 <= i < |xs| ==> ys[i] <= c * xs[i]
    ensures Sum(ys) <= c * Sum(xs)
  {
    if xs == [] {
      ScaledSumAtLeast(c, Sum(xs), 0.0, 0.0, Sum(ys), 0.0, 0.0);
    } else {
      var xr, yr := xs[1..], ys[1..];
      assert forall i :: 0 <= i < |xr| ==> xr[i] == xs[i + 1] && yr[i] == ys[i + 1];
      SumScaledAtLeast(c, xr, yr);
      ScaledSumAtLeast(c, Sum(xs), xs[0], Sum(xr), Sum(ys), ys[0], Sum(yr));
    }
  }

  /** Two non-negative forms w + uu·q - u2·l add up to one over the sums. */
  lemma QuadStep(sw: real, w0: real, w: real, sq: real, q0: real, q: real,
                 sl: real, l0: real, l: real, uu: real, u2: real)
    requires sw == w0 + w && sq == q0 + q && sl == l0 + l
    requires w0 + uu * q0 - u2 * l0 >= 0.0 && w + uu * q - u2 * l >= 0.0
    ensures sw + uu * sq - u2 * sl >= 0.0
  {
    Distrib(uu, q0, q);
    Distrib(u2, l0, l);
  }

  /** A form w + uu·q - u2·l that is non-negative term by term is non-negative over the sums. */
  lemma {:induction false} SumQuadNonNeg(ws: seq<real>, qs: seq<real>, ls: seq<real>, uu: real, u2: real)
    requires |ws| == |qs| == |ls|
    requires forall i :: 0 <= i < |ws| ==> ws[i] + uu * qs[i] - u2 * ls[i] >= 0.0
    ensures Sum(ws) + uu * Sum(qs) - u2 * Sum(ls) >= 0.0
  {
    if ws == [] {
      QuadStep(Sum(ws), 0.0, 0.0, Sum(qs), 0.0, 0.0, Sum(ls), 0.0, 0.0, uu, u2);
    } else {
      var wr, qr, lr := ws[1..], qs[1..], ls[1..];
      forall i | 0 <= i < |wr|
        ensures wr[i] + uu * qr[i] - u2 * lr[i] >= 0.0
      {
        assert wr[i] == ws[i + 1] && qr[i] == qs[i + 1] && lr[i] == ls[i + 1];
      }
      SumQuadNonNeg(wr, qr, lr, uu, u2);
      QuadStep(Sum(ws), ws[0], Sum(wr), Sum(qs), qs[0], Sum(qr), Sum(ls), ls[0], Sum(lr), uu, u2);
    }
  }

  // ---------------------------------------------------------------- bounds

  lemma WeightedTermAtMost(p: Piece, k: nat, hi: real)
    requires Kept(p) && hi >= 0.0
    requires Val(p, k).Some? ==> Val(p, k).value <= hi
    ensures WeightedTerm(p, k) <= hi * p.len
  {
    if Val(p, k).Some? {
      MulLe(Val(p, k).value, hi, p.len);
    } else {
      MulLe(0.0, hi, p.len);
    }
  }

  lemma SumWeightedAtMost(ps: seq<Piece>, k: nat, hi: real)
    requires AllKept(ps) && hi >= 0.0
    requires ValuesIn(ps, k, 0.0, hi)
    ensures SumWeighted(ps, k) <= hi * SumLen(ps)
  {
    var ls, ws := Lens(ps), WeightedTerms(ps, k);
    forall i | 0 <= i < |ps|
      ensures ws[i] <= hi * ls[i]
    {
      WeightedTermAtMost(ps[i], k, hi);
    }
    SumScaledAtLeast(hi, ls, ws);
    SumLens(ps);
    SumWeightedTerms(ps, k);
  }

  lemma WeightedTermAtLeast(p: Piece, k: nat, lo: real)
    requires Kept(p) && Val(p, k).Some? && lo <= Val(p, k).value
    ensures lo * p.len <= WeightedTerm(p, k)
  {
    MulLe(lo, Val(p, k).value, p.len);
  }

  lemma SumWeightedAtLeast(ps: seq<Piece>, k: nat, lo: real)
    requires AllKept(ps) && AllPresent(ps, k)
    requires forall i :: 0 <= i < |ps| ==> lo <= Val(ps[i], k).value
    ensures lo * SumLen(ps) <= SumWeighted(ps, k)
  {
    var ls, ws := Lens(ps), WeightedTerms(ps, k);
    forall i | 0 <= i < |ps|
      ensures lo * ls[i] <= ws[i]
    {
      WeightedTermAtLeast(ps[i], k, lo);
    }
    SumScaledAtMost(lo, ls, ws);
    SumLens(ps);
    SumWeightedTerms(ps, k);
  }

  /**
   * Missing values pull the distance-weighted average down (they add length but no value),
   * so it never exceeds the largest value; with every value present it also never falls
   * below the smallest.
   */
  lemma DistWtdAvgBounds(ps: seq<Piece>, k: nat, lo: real, hi: real)
    requires AllKept(ps) && ps != []
    requires 0.0 <= lo <= hi && ValuesIn(ps, k, lo, hi)
    ensures DistWtdAvg(ps, k).Num?
    ensures DistWtdAvg(ps, k).v <= hi
    ensures AllPresent(ps, k) ==> lo <= DistWtdAvg(ps, k).v
  {
    SumLenSign(ps);
    SumWeightedAtMost(ps, k, hi);
    QuotientAtMost(SumWeighted(ps, k), SumLen(ps), hi);
    if AllPresent(ps, k) {
      SumWeightedAtLeast(ps, k, lo);
      AtMostQuotient(lo, SumWeighted(ps, k), SumLen(ps));
    }
  }

  /** lo·(len / v) <= len when every present value is >= lo > 0. */
  lemma TermAtMostLen(p: Piece, k: nat, lo: real)
    requires Kept(p) && lo > 0.0
    requires Val(p, k).Some? ==> lo <= Val(p, k).value
    ensures lo * LenPerSpeedTerm(p, k) <= p.len
  {
    if Val(p, k).Some? {
      var v := Val(p, k).value;
      var q := p.len / v;
      assert q * v == p.len;
      assert q > 0.0;
      MulLe(lo, v, q);
    }
  }

  /** len <= hi·(len / v) when 0 < v <= hi. */
  lemma LenAtMostTerm(p: Piece, k: nat, hi: real)
    requires Kept(p) && Val(p, k).Some? && Val(p, k).value <= hi
    ensures p.len <= hi * LenPerSpeedTerm(p, k)
  {
    var v := Val(p, k).value;
    var q := p.len / v;
    assert q * v == p.len;
    assert q > 0.0;
    MulLe(v, hi, q);
  }

  lemma SumLenPerSpeedAtMost(ps: seq<Piece>, k: nat, lo: real)
    requires AllKept(ps) && lo > 0.0
    requires forall i :: 0 <= i < |ps| && Val(ps[i], k).Some? ==> lo <= Val(ps[i], k).value
    ensures lo * SumLenPerSpeed(ps, k) <= SumLen(ps)
  {
    var qs, ls := LenPerSpeedTerms(ps, k), Lens(ps);
    forall i | 0 <= i < |ps|
      ensures lo * qs[i] <= ls[i]
    {
      TermAtMostLen(ps[i], k, lo);
    }
    SumScaledAtMost(lo, qs, ls);
    SumLens(ps);
    SumLenPerSpeedTerms(ps, k);
  }

  lemma SumLenPerSpeedAtLeast(ps: seq<Piece>, k: nat, hi: real)
    requires AllKept(ps) && AllPresent(ps, k) && hi > 0.0
    requires forall i :: 0 <= i < |ps| ==> Val(ps[i], k).value <= hi
    ensures SumLen(ps) <= hi * SumLenPerSpeed(ps, k)
  {
    var qs, ls := LenPerSpeedTerms(ps, k), Lens(ps);
    forall i | 0 <= i < |ps|
      ensures ls[i] <= hi * qs[i]
    {
      LenAtMostTerm(ps[i], k, hi);
    }
    SumScaledAtLeast(hi, qs, ls);
    SumLens(ps);
    SumLenPerSpeedTerms(ps, k);
  }

  /**
   * The length-weighted harmonic mean never falls below the smallest present value;
   * with every value present it also never exceeds the largest.
   */
  lemma HarmonicMeanBounds(ps: seq<Piece>, k: nat, lo: real, hi: real)
    requires AllKept(ps) && CountPresent(ps, k) > 0
    requires 0.0 < lo <= hi && ValuesIn(ps, k, lo, hi)
    ensures SumLenPerSpeed(ps, k) > 0.0
    ensures lo <= HarmonicMean(ps, k)
    ensures AllPresent(ps, k) ==> HarmonicMean(ps, k) <= hi
  {
    SumLenPerSpeedSign(ps, k);
    SumLenPerSpeedAtMost(ps, k, lo);
    AtMostQuotient(lo, SumLen(ps), SumLenPerSpeed(ps, k));
    if AllPresent(ps, k) {
      SumLenPerSpeedAtLeast(ps, k, hi);
      QuotientAtMost(SumLen(ps), SumLenPerSpeed(ps, k), hi);
    }
  }

  // ---------------------------------------------------------------- harmonic <= arithmetic

  /** len·v + u²·(len / v) - 2u·len == (len / v)·(v - u)² >= 0. */
  lemma PieceTerm(p: Piece, k: nat, u: real)
    requires Kept(p) && Val(p, k).Some?
    ensures WeightedTerm(p, k) + (u * u) * LenPerSpeedTerm(p, k) - (2.0 * u) * p.len >= 0.0
  {
    var v, len := Val(p, k).value, p.len;
    var q := len / v;
    assert q * v == len;
    var d := v - u;
    assert d * d >= 0.0;
    MulLe(0.0, d * d, q);
    assert q * (d * d) == q * v * v - 2.0 * u * (q * v) + u * u * q;
    assert WeightedTerm(p, k) == v * len;
    assert LenPerSpeedTerm(p, k) == q;
  }

  /** For every u: Σ len·v + u²·Σ len/v - 2u·Σ len >= 0, a sum of terms len·(v - u)²/v. */
  lemma QuadraticNonNeg(ps: seq<Piece>, k: nat, u: real)
    requires AllKept(ps) && AllPresent(ps, k)
    ensures SumWeighted(ps, k) + (u * u) * SumLenPerSpeed(ps, k) - (2.0 * u) * SumLen(ps) >= 0.0
  {
    var ws, qs, ls := WeightedTerms(ps, k), LenPerSpeedTerms(ps, k), Lens(ps);
    forall i | 0 <= i < |ps|
      ensures ws[i] + (u * u) * qs[i] - (2.0 * u) * ls[i] >= 0.0
    {
      PieceTerm(ps[i], k, u);
    }
    SumQuadNonNeg(ws, qs, ls, u * u, 2.0 * u);
    SumWeightedTerms(ps, k);
    SumLenPerSpeedTerms(ps, k);
    SumLens(ps);
  }

  /**
   * With every value present, the travel-time (harmonic) average used for speeds never
   * exceeds the distance-weighted (arithmetic) average used for reliability indices.
   */
  lemma HarmonicAtMostWeighted(ps: seq<Piece>, k: nat)
    requires AllKept(ps) && AllPresent(ps, k) && ps != []
    ensures CountPresent(ps, k) > 0 && SumLenPerSpeed(ps, k) > 0.0
    ensures DistWtdAvg(ps, k).Num?
    ensures HarmonicMean(ps, k) <= DistWtdAvg(ps, k).v
  {
    PresentCount(ps, k);
    SumLenPerSpeedSign(ps, k);
    SumLenSign(ps);
    var a, b, c := SumLen(ps), SumWeighted(ps, k), SumLenPerSpeed(ps, k);
    var h := a / c;
    assert h * c == a;
    QuadraticNonNeg(ps, k, h);
    assert (h * h) * c == h * a;
    assert h * a <= b;
    AtMostQuotient(h, b, a);
  }

  // ---------------------------------------------------------------- worked examples

  /** Two one-mile pieces at 30 and 60 mph: two miles in 1/30 + 1/60 hours, 40 mph. */
  lemma TravelTimeExample()
    ensures var ps := [Piece(5280.0, [Some(30.0)]), Piece(5280.0, [Some(60.0)])];
      AllKept(ps) && WtdSpeedGuarded(ps, 0) == 40.0
  {
    var ps := [Piece(5280.0, [Some(30.0)]), Piece(5280.0, [Some(60.0)])];
    assert ps[1..] == [ps[1]];
    assert ps[1..][1..] == [];
    assert SumTravelHours(ps, 0) == 1.0 / 20.0;
    assert SumMiles(ps) == 2.0;
  }

  /** Lengths 2 and 1 with indices 1.0 and 1.4 average to 3.4 / 3. */
  lemma DistanceWeightedExample()
    ensures DistWtdAvg([Piece(2.0, [Some(1.0)]), Piece(1.0, [Some(1.4)])], 0) == Num(3.4 / 3.0)
  {
    var ps := [Piece(2.0, [Some(1.0)]), Piece(1.0, [Some(1.4)])];
    assert ps[1..] == [ps[1]];
    assert ps[1..][1..] == [];
  }
}
