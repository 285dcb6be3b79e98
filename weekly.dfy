/**
 * `aggregateWeeklyData`: the daily points cut into consecutive runs of 7
 * from the start (the last run may be shorter), each run summarised by one
 * point holding, per variation, the rounded mean of the run's numbers.
 */
module WeeklyRollup {
  import opened Wrappers
  import opened Decimal
  import opened Rounding
  import opened SharedTypes

  function MinNat(a: nat, b: nat): nat {
    if a < b then a else b
  }

  /** `s.slice(start, end)` for `start <= end`: the indices are clamped to the length. */
  function JsSlice<T>(s: seq<T>, start: nat, end: nat): seq<T>
    requires start <= end
  {
    if start >= |s| then [] else s[start..MinNat(end, |s|)]
  }

  /** The `k`-th run of 7, `s.slice(7k, 7k + 7)`. */
  function Week<T>(s: seq<T>, k: nat): seq<T> {
    JsSlice(s, 7 * k, 7 * k + 7)
  }

  /** How many runs `for (i = 0; i < n; i += 7)` visits: the ceiling of n / 7. */
  function WeekCount(n: nat): nat {
    (n + 6) / 7
  }

  lemma WeekCountStep(w: nat, n: nat)
    ensures 7 * w < n ==> w + 1 <= WeekCount(n)
    ensures 7 * w >= n && w <= WeekCount(n) ==> w == WeekCount(n)
  {
  }

  /** Run `k` covers exactly the points 7k .. min(7k + 7, n) - 1, and no run is empty. */
  lemma WeekExtent<T>(s: seq<T>, k: nat)
    requires k < WeekCount(|s|)
    ensures 7 * k < |s|
    ensures Week(s, k) == s[7 * k..MinNat(7 * k + 7, |s|)]
    ensures 1 <= |Week(s, k)| <= 7
  {
  }

  /** Every point falls in run j / 7, at position j % 7: the runs partition the series, in order. */
  lemma WeekCoverage<T>(s: seq<T>, j: nat)
    requires j < |s|
    ensures j / 7 < WeekCount(|s|)
    ensures j % 7 < |Week(s, j / 7)| && Week(s, j / 7)[j % 7] == s[j]
  {
    var k := j / 7;
    assert 7 * k <= j < 7 * k + 7;
    WeekExtent(s, k);
  }

  /** Ten daily points make two weekly points, of 7 and 3 days. */
  lemma TenDaysExample<T>(s: seq<T>)
    requires |s| == 10
    ensures WeekCount(|s|) == 2 && |Week(s, 0)| == 7 && |Week(s, 1)| == 3
  {
  }

  /** `week.map((d) => +d[key]).filter((r) => !isNaN(r))`: the run's numbers for `key`, in order. */
  function NumericRates(week: seq<Point>, key: string): seq<real> {
    if week == [] then []
    else (if key in week[0].rates then [week[0].rates[key]] else []) + NumericRates(week[1..], key)
  }

  /** `rates.reduce((a, b) => a + b)`; on exact reals the order of the additions does not matter. */
  function Sum(s: seq<real>): real {
    if s == [] then 0.0 else s[0] + Sum(s[1..])
  }

  /** The weekly value: the rounded mean of the numbers, or 0 if there are none. */
  function WeeklyValue(week: seq<Point>, key: string): real {
    var rates := NumericRates(week, key);
    if |rates| == 0 then 0.0 else Round2(Sum(rates) / |rates| as real)
  }

  /** One write per variation, in order; the value depends on the key alone. */
  function WeekRates(week: seq<Point>, vs: seq<EnhancedVariation>): map<string, real> {
    if vs == [] then map[]
    else WeekRates(week, vs[..|vs| - 1])[vs[|vs| - 1].stableId := WeeklyValue(week, vs[|vs| - 1].stableId)]
  }

  /** `startDateStr ? new Date(startDateStr).getDate() : default`, printed. */
  function EdgeDay(date: Option<string>, default: nat, dayOf: DayOfMonth): string {
    if date.Some? && date.value != "" then DayText(dayOf(date.value)) else NatToDecimal(default)
  }

  /** `(${startDay}-${endDay})` from the first and last record of the run of source records. */
  function WeekLabel(originalWeek: seq<DailyData>, dayOf: DayOfMonth): string {
    var first := if |originalWeek| > 0 then Some(originalWeek[0].date) else None;
    var last := if |originalWeek| > 0 then Some(originalWeek[|originalWeek| - 1].date) else None;
    "(" + EdgeDay(first, 1, dayOf) + "-" + EdgeDay(last, 7, dayOf) + ")"
  }

  function WeekPoint(week: seq<Point>, originalWeek: seq<DailyData>, vs: seq<EnhancedVariation>, dayOf: DayOfMonth): Point {
    Point(WeekLabel(originalWeek, dayOf), WeekRates(week, vs))
  }

  function WeeklySeries(data: seq<Point>, vs: seq<EnhancedVariation>, original: seq<DailyData>, dayOf: DayOfMonth): (r: seq<Point>)
    ensures |r| == WeekCount(|data|)
  {
    seq(WeekCount(|data|), k requires 0 <= k < WeekCount(|data|) => WeekPoint(Week(data, k), Week(original, k), vs, dayOf))
  }

  /**
   * The label of weekly point `k` is `(start-end)`, from the first and the
   * last source record of run `k`: each printed as its day of the month (or
   * `NaN`), an empty date string falling back to 1 and 7; a run with no
   * source records is labelled `(1-7)`.
   */
  lemma WeekLabelSpec(data: seq<Point>, vs: seq<EnhancedVariation>, original: seq<DailyData>, dayOf: DayOfMonth, k: nat)
    requires k < WeekCount(|data|)
    ensures 7 * k < |original| ==>
      var first := original[7 * k].date;
      var last := original[MinNat(7 * k + 7, |original|) - 1].date;
      WeeklySeries(data, vs, original, dayOf)[k].date ==
        "(" + (if first != "" then DayText(dayOf(first)) else "1") + "-" +
        (if last != "" then DayText(dayOf(last)) else "7") + ")"
    ensures 7 * k >= |original| ==> WeeklySeries(data, vs, original, dayOf)[k].date == "(1-7)"
  {
    assert NatToDecimal(1) == "1" && NatToDecimal(7) == "7";
    var ow := Week(original, k);
    if 7 * k < |original| {
      assert ow == original[7 * k..MinNat(7 * k + 7, |original|)];
      assert ow[0] == original[7 * k];
      assert ow[|ow| - 1] == original[MinNat(7 * k + 7, |original|) - 1];
    } else {
      assert ow == [];
    }
  }

  /** The keys of a weekly point are the variations' keys, each holding that key's weekly value. */
  lemma {:induction false} WeekRatesSpec(week: seq<Point>, vs: seq<EnhancedVariation>)
    ensures forall k :: k in WeekRates(week, vs) <==> exists i :: 0 <= i < |vs| && vs[i].stableId == k
    ensures forall k :: k in WeekRates(week, vs) ==> WeekRates(week, vs)[k] == WeeklyValue(week, k)
  {
    if vs != [] {
      var init := vs[..|vs| - 1];
      WeekRatesSpec(week, init);
      forall k | k in WeekRates(week, vs) ensures exists i :: 0 <= i < |vs| && vs[i].stableId == k {
        if k != vs[|vs| - 1].stableId {
          assert k in WeekRates(week, init);
          var i :| 0 <= i < |init| && init[i].stableId == k;
          assert vs[i] == init[i];
        }
      }
      forall i | 0 <= i < |vs| ensures vs[i].stableId in WeekRates(week, vs) {
        if i < |vs| - 1 {
          assert vs[i] == init[i];
        }
      }
    }
  }

  /** The sum of `n` numbers between `lo` and `hi` lies between `n * lo` and `n * hi`. */
  lemma {:induction false} SumBounds(s: seq<real>, lo: real, hi: real)
    requires forall i :: 0 <= i < |s| ==> lo <= s[i] <= hi
    ensures |s| as real * lo <= Sum(s) <= |s| as real * hi
  {
    if s != [] {
      SumBounds(s[1..], lo, hi);
    }
  }

  lemma MeanBounds(total: real, n: nat, lo: real, hi: real)
    requires n > 0 && n as real * lo <= total <= n as real * hi
    ensures lo <= total / n as real <= hi
  {
    var m := total / n as real;
    assert m * n as real == total;
  }

  /** Every number `NumericRates` keeps is the value of some point of the run that has the key. */
  lemma {:induction false} NumericRatesFrom(week: seq<Point>, key: string, lo: real, hi: real)
    requires forall i :: 0 <= i < |week| && key in week[i].rates ==> lo <= week[i].rates[key] <= hi
    ensures forall v :: v in NumericRates(week, key) ==>
      exists i :: 0 <= i < |week| && key in week[i].rates && week[i].rates[key] == v
    ensures forall x :: 0 <= x < |NumericRates(week, key)| ==> lo <= NumericRates(week, key)[x] <= hi
  {
    if week != [] {
      var rest := week[1..];
      assert forall i :: 0 <= i < |rest| ==> rest[i] == week[i + 1];
      NumericRatesFrom(rest, key, lo, hi);
      forall v | v in NumericRates(week, key)
        ensures exists i :: 0 <= i < |week| && key in week[i].rates && week[i].rates[key] == v
      {
        if !(key in week[0].rates && week[0].rates[key] == v) {
          assert v in NumericRates(rest, key);
          var i :| 0 <= i < |rest| && key in rest[i].rates && rest[i].rates[key] == v;
          assert week[i + 1] == rest[i];
        }
      }
    }
  }

  /** When every point of the run has the key, the mean is over the whole run. */
  lemma {:induction false} NumericRatesComplete(week: seq<Point>, key: string)
    requires forall i :: 0 <= i < |week| ==> key in week[i].rates
    ensures |NumericRates(week, key)| == |week|
    ensures forall i :: 0 <= i < |week| ==> NumericRates(week, key)[i] == week[i].rates[key]
  {
    if week != [] {
      NumericRatesComplete(week[1..], key);
    }
  }

  /**
   * The weekly value is 0 when no point of the run has a number for the key;
   * otherwise it lies between any bounds of the run's numbers, up to the
   * rounding, and exactly between them when the bounds are whole hundredths.
   */
  lemma WeeklyValueBounds(week: seq<Point>, key: string, lo: real, hi: real)
    requires forall i :: 0 <= i < |week| && key in week[i].rates ==> lo <= week[i].rates[key] <= hi
    ensures (forall i :: 0 <= i < |week| ==> key !in week[i].rates) ==> WeeklyValue(week, key) == 0.0
    ensures (exists i :: 0 <= i < |week| && key in week[i].rates) ==>
      lo - 0.005 <= WeeklyValue(week, key) <= hi + 0.005
    ensures (exists i :: 0 <= i < |week| && key in week[i].rates) && OnGrid(lo) && OnGrid(hi) ==>
      lo <= WeeklyValue(week, key) <= hi
  {
    var rates := NumericRates(week, key);
    NumericRatesPresent(week, key);
    if |rates| > 0 {
      NumericRatesFrom(week, key, lo, hi);
      RoundedMeanBounds(rates, lo, hi);
    }
  }

  /** The rounded mean of numbers between `lo` and `hi`. */
  lemma RoundedMeanBounds(rates: seq<real>, lo: real, hi: real)
    requires |rates| > 0
    requires forall x :: 0 <= x < |rates| ==> lo <= rates[x] <= hi
    ensures lo - 0.005 <= Round2(Sum(rates) / |rates| as real) <= hi + 0.005
    ensures OnGrid(lo) && OnGrid(hi) ==> lo <= Round2(Sum(rates) / |rates| as real) <= hi
  {
    SumBounds(rates, lo, hi);
    var mean := Sum(rates) / |rates| as real;
    MeanBounds(Sum(rates), |rates|, lo, hi);
    Round2Close(mean);
    if OnGrid(lo) && OnGrid(hi) {
      Round2AboveGridPoint(mean, lo);
      Round2BelowGridPoint(mean, hi);
    }
  }

  /** `NumericRates` is empty exactly when no point of the run has the key. */
  lemma {:induction false} NumericRatesPresent(week: seq<Point>, key: string)
    ensures |NumericRates(week, key)| == 0 <==> forall i :: 0 <= i < |week| ==> key !in week[i].rates
  {
    if week != [] {
      NumericRatesPresent(week[1..], key);
      assert forall i :: 1 <= i < |week| ==> week[i] == week[1..][i - 1];
    }
  }

  /** One weekly point: its label, then the `forEach` over the variations. */
  method BuildWeekPoint(week: seq<Point>, originalWeek: seq<DailyData>, vs: seq<EnhancedVariation>, dayOf: DayOfMonth)
    returns (p: Point)
    ensures p == WeekPoint(week, originalWeek, vs, dayOf)
    ensures forall k :: k in p.rates <==> exists i :: 0 <= i < |vs| && vs[i].stableId == k
    ensures forall k :: k in p.rates ==> p.rates[k] == WeeklyValue(week, k)
  {
    var point: map<string, real> := map[];
    for n := 0 to |vs|
      invariant point == WeekRates(week, vs[..n])
    {
      assert vs[..n + 1][..n] == vs[..n];
      var key := vs[n].stableId;
      var rates := NumericRates(week, key);
      point := point[key := if |rates| > 0 then Round2(Sum(rates) / |rates| as real) else 0.0];
    }
    assert vs[..|vs|] == vs;
    p := Point(WeekLabel(originalWeek, dayOf), point);
    WeekRatesSpec(week, vs);
  }

  /** `aggregateWeeklyData`: `for (let i = 0; i < data.length; i += 7)`, one point pushed per run. */
  method AggregateWeeklyData(data: seq<Point>, vs: seq<EnhancedVariation>, original: seq<DailyData>, dayOf: DayOfMonth)
    returns (weeklyData: seq<Point>)
    ensures weeklyData == WeeklySeries(data, vs, original, dayOf)
    ensures |weeklyData| == WeekCount(|data|)
  {
    weeklyData := [];
    var i := 0;
    while i < |data|
      invariant i == 7 * |weeklyData|
      invariant |weeklyData| <= WeekCount(|data|)
      invariant forall k :: 0 <= k < |weeklyData| ==>
        weeklyData[k] == WeekPoint(Week(data, k), Week(original, k), vs, dayOf)
    {
      var week := data[i..MinNat(i + 7, |data|)];
      var originalWeek := JsSlice(original, i, i + 7);
      assert week == Week(data, |weeklyData|) && originalWeek == Week(original, |weeklyData|);
      WeekCountStep(|weeklyData|, |data|);
      var point := BuildWeekPoint(week, originalWeek, vs, dayOf);
      weeklyData := weeklyData + [point];
      i := i + 7;
    }
    WeekCountStep(|weeklyData|, |data|);
  }
}
