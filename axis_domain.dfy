/**
 * `getYAxisDomain`: the Y range of the chart, taken over the selected
 * series only, padded by a tenth of the span on each side, floored at 0,
 * and `[0, 10]` when there is nothing to measure.
 */
module AxisDomain {
  import opened Rounding
  import opened SharedTypes

  /** The numbers `Number(item[key])` gives for the selected keys of one point, in selection order; a missing key (NaN) is skipped. */
  function ItemValues(item: Point, sel: seq<string>): seq<real> {
    if sel == [] then []
    else
      var key := sel[|sel| - 1];
      ItemValues(item, sel[..|sel| - 1]) + (if key in item.rates then [item.rates[key]] else [])
  }

  /** The numbers the nested `forEach` visits, in visiting order. */
  function SelectedValues(data: seq<Point>, sel: seq<string>): seq<real> {
    if data == [] then [] else SelectedValues(data[..|data| - 1], sel) + ItemValues(data[|data| - 1], sel)
  }

  /** `Math.min` folded over a non-empty sequence, starting from `Infinity`. */
  function SeqMin(s: seq<real>): real
    requires |s| > 0
  {
    if |s| == 1 then s[0] else Min(SeqMin(s[..|s| - 1]), s[|s| - 1])
  }

  function SeqMax(s: seq<real>): real
    requires |s| > 0
  {
    if |s| == 1 then s[0] else Max(SeqMax(s[..|s| - 1]), s[|s| - 1])
  }

  /** The range `getYAxisDomain` returns, as (lower, upper). */
  function YAxisDomain(data: seq<Point>, sel: seq<string>): (real, real) {
    if |data| == 0 || |sel| == 0 then (0.0, 10.0)
    else
      var values := SelectedValues(data, sel);
      if values == [] then (0.0, 10.0)
      else
        var lo, hi := SeqMin(values), SeqMax(values);
        var padding := (hi - lo) * 0.1;
        (Max(0.0, Round2(lo - padding)), Round2(hi + padding))
  }

  /** The minimum and maximum are members of the sequence and bound all of it. */
  lemma {:induction false} SeqMinMaxSpec(s: seq<real>)
    requires |s| > 0
    ensures SeqMin(s) in s && SeqMax(s) in s
    ensures forall x :: 0 <= x < |s| ==> SeqMin(s) <= s[x] <= SeqMax(s)
  {
    if |s| > 1 {
      var init := s[..|s| - 1];
      SeqMinMaxSpec(init);
      assert forall x :: 0 <= x < |init| ==> s[x] == init[x];
    }
  }

  /** The numeric value of the selected key `sel[j]` at point `i`. */
  predicate Numeric(data: seq<Point>, sel: seq<string>, i: int, j: int) {
    0 <= i < |data| && 0 <= j < |sel| && sel[j] in data[i].rates
  }

  lemma {:induction false} ItemValuesSpec(item: Point, sel: seq<string>)
    ensures forall x :: x in ItemValues(item, sel) ==>
      exists j :: 0 <= j < |sel| && sel[j] in item.rates && item.rates[sel[j]] == x
    ensures forall j :: 0 <= j < |sel| && sel[j] in item.rates ==> item.rates[sel[j]] in ItemValues(item, sel)
  {
    if sel != [] {
      var init := sel[..|sel| - 1];
      ItemValuesSpec(item, init);
      assert forall j :: 0 <= j < |init| ==> init[j] == sel[j];
    }
  }

  /** The visited numbers are exactly the selected keys' values at all points. */
  lemma {:induction false} SelectedValuesSpec(data: seq<Point>, sel: seq<string>)
    ensures forall x :: x in SelectedValues(data, sel) ==>
      exists i, j :: Numeric(data, sel, i, j) && data[i].rates[sel[j]] == x
    ensures forall i, j :: Numeric(data, sel, i, j) ==> data[i].rates[sel[j]] in SelectedValues(data, sel)
  {
    if data != [] {
      var init := data[..|data| - 1];
      SelectedValuesSpec(init, sel);
      ItemValuesSpec(data[|data| - 1], sel);
      forall x | x in SelectedValues(data, sel)
        ensures exists i, j :: Numeric(data, sel, i, j) && data[i].rates[sel[j]] == x
      {
        if x in SelectedValues(init, sel) {
          var i, j :| Numeric(init, sel, i, j) && init[i].rates[sel[j]] == x;
          assert Numeric(data, sel, i, j) && data[i] == init[i];
        } else {
          var j :| 0 <= j < |sel| && sel[j] in data[|data| - 1].rates && data[|data| - 1].rates[sel[j]] == x;
          assert Numeric(data, sel, |data| - 1, j);
        }
      }
      forall i, j | Numeric(data, sel, i, j) ensures data[i].rates[sel[j]] in SelectedValues(data, sel) {
        if i < |data| - 1 {
          assert data[i] == init[i] && Numeric(init, sel, i, j);
        }
      }
    }
  }

  lemma {:induction false} ItemValuesEmpty(item: Point, sel: seq<string>)
    requires forall j :: 0 <= j < |sel| ==> sel[j] !in item.rates
    ensures ItemValues(item, sel) == []
  {
    if sel != [] {
      ItemValuesEmpty(item, sel[..|sel| - 1]);
    }
  }

  lemma {:induction false} SelectedValuesEmpty(data: seq<Point>, sel: seq<string>)
    requires forall i, j :: !Numeric(data, sel, i, j)
    ensures SelectedValues(data, sel) == []
  {
    if data != [] {
      var n := |data| - 1;
      forall i, j ensures !Numeric(data[..n], sel, i, j) {
        if 0 <= i < n {
          assert data[..n][i] == data[i];
          assert !Numeric(data, sel, i, j);
        }
      }
      SelectedValuesEmpty(data[..n], sel);
      forall j | 0 <= j < |sel| ensures sel[j] !in data[n].rates {
        assert !Numeric(data, sel, n, j);
      }
      ItemValuesEmpty(data[n], sel);
    }
  }

  /** `[0, 10]` when there are no points, no selected keys, or no selected key with a number. */
  lemma DomainDefault(data: seq<Point>, sel: seq<string>)
    requires |data| == 0 || |sel| == 0 || forall i, j :: !Numeric(data, sel, i, j)
    ensures YAxisDomain(data, sel) == (0.0, 10.0)
  {
    if |data| > 0 && |sel| > 0 {
      SelectedValuesEmpty(data, sel);
    }
  }

  /** Every selected number lies between the minimum and the maximum the scan finds. */
  lemma NumericWithinExtremes(data: seq<Point>, sel: seq<string>)
    requires SelectedValues(data, sel) != []
    ensures forall i, j :: Numeric(data, sel, i, j) ==>
      SeqMin(SelectedValues(data, sel)) <= data[i].rates[sel[j]] <= SeqMax(SelectedValues(data, sel))
  {
    var values := SelectedValues(data, sel);
    SelectedValuesSpec(data, sel);
    SeqMinMaxSpec(values);
    forall i, j | Numeric(data, sel, i, j) ensures SeqMin(values) <= data[i].rates[sel[j]] <= SeqMax(values) {
      var v := data[i].rates[sel[j]];
      assert v in values;
      var x :| 0 <= x < |values| && values[x] == v;
    }
  }

  /** The minimum and the maximum are selected numbers themselves. */
  lemma ExtremesAreNumeric(data: seq<Point>, sel: seq<string>)
    requires SelectedValues(data, sel) != []
    ensures exists i, j :: Numeric(data, sel, i, j) && data[i].rates[sel[j]] == SeqMin(SelectedValues(data, sel))
    ensures exists i, j :: Numeric(data, sel, i, j) && data[i].rates[sel[j]] == SeqMax(SelectedValues(data, sel))
  {
    SelectedValuesSpec(data, sel);
    SeqMinMaxSpec(SelectedValues(data, sel));
  }

  lemma SomeValueSelected(data: seq<Point>, sel: seq<string>, i: int, j: int)
    requires Numeric(data, sel, i, j)
    ensures SelectedValues(data, sel) != [] && |data| > 0 && |sel| > 0
  {
    SelectedValuesSpec(data, sel);
  }

  /**
   * With some selected number present: the lower bound is at least 0, and
   * every non-negative selected number lies within the range up to the
   * rounding of the bounds.
   */
  lemma DomainBounds(data: seq<Point>, sel: seq<string>)
    requires exists i, j :: Numeric(data, sel, i, j)
    ensures YAxisDomain(data, sel).0 >= 0.0
    ensures forall i, j :: Numeric(data, sel, i, j) && data[i].rates[sel[j]] >= 0.0 ==>
      YAxisDomain(data, sel).0 <= data[i].rates[sel[j]] + 0.005
    ensures forall i, j :: Numeric(data, sel, i, j) ==>
      data[i].rates[sel[j]] - 0.005 <= YAxisDomain(data, sel).1
  {
    var i0, j0 :| Numeric(data, sel, i0, j0);
    SomeValueSelected(data, sel, i0, j0);
    var values := SelectedValues(data, sel);
    NumericWithinExtremes(data, sel);
    var lo, hi := SeqMin(values), SeqMax(values);
    var padding := (hi - lo) * 0.1;
    Round2Close(lo - padding);
    Round2Close(hi + padding);
  }

  /**
   * When the selected numbers are non-negative whole hundredths, as the
   * chart's rates are, every one of them lies within the range exactly.
   */
  lemma DomainBoundsOnGrid(data: seq<Point>, sel: seq<string>)
    requires exists i, j :: Numeric(data, sel, i, j)
    requires forall i, j :: Numeric(data, sel, i, j) ==> data[i].rates[sel[j]] >= 0.0 && OnGrid(data[i].rates[sel[j]])
    ensures forall i, j :: Numeric(data, sel, i, j) ==>
      YAxisDomain(data, sel).0 <= data[i].rates[sel[j]] <= YAxisDomain(data, sel).1
  {
    var i0, j0 :| Numeric(data, sel, i0, j0);
    SomeValueSelected(data, sel, i0, j0);
    var values := SelectedValues(data, sel);
    var lo, hi := SeqMin(values), SeqMax(values);
    ExtremesOnGrid(data, sel);
    PaddedCovers(lo, hi);
    var d := YAxisDomain(data, sel);
    assert d.0 <= lo && hi <= d.1;
    NumericWithinExtremes(data, sel);
  }

  /**
   * Where `DomainBoundsOnGrid`'s premises fail the range can miss a number:
   * a negative number lies below the lower bound, which is floored at 0
   * (here above the upper bound too), and a number off the grid can round
   * above itself.
   */
  lemma DomainBoundaryExamples()
    ensures YAxisDomain([Point("", map["a" := -1.0])], ["a"]) == (0.0, -1.0)
    ensures YAxisDomain([Point("", map["a" := 0.126])], ["a"]) == (0.13, 0.13)
  {
    var neg := [Point("", map["a" := -1.0])];
    assert ItemValues(neg[0], ["a"]) == [-1.0];
    assert SelectedValues(neg, ["a"]) == [-1.0];
    assert (-(-1.0) * 100.0 + 0.5).Floor == 100;
    var off := [Point("", map["a" := 0.126])];
    assert ItemValues(off[0], ["a"]) == [0.126];
    assert SelectedValues(off, ["a"]) == [0.126];
    assert (0.126 * 100.0 + 0.5).Floor == 13;
  }

  lemma ExtremesOnGrid(data: seq<Point>, sel: seq<string>)
    requires SelectedValues(data, sel) != []
    requires forall i, j :: Numeric(data, sel, i, j) ==> data[i].rates[sel[j]] >= 0.0 && OnGrid(data[i].rates[sel[j]])
    ensures var values := SelectedValues(data, sel);
      0.0 <= SeqMin(values) <= SeqMax(values) && OnGrid(SeqMin(values)) && OnGrid(SeqMax(values))
  {
    var values := SelectedValues(data, sel);
    SeqMinMaxSpec(values);
    ExtremesAreNumeric(data, sel);
  }

  /** Padding and rounding grid-point extremes never cuts them off. */
  lemma PaddedCovers(lo: real, hi: real)
    requires 0.0 <= lo <= hi && OnGrid(lo) && OnGrid(hi)
    ensures var padding := (hi - lo) * 0.1;
      Max(0.0, Round2(lo - padding)) <= lo && hi <= Round2(hi + padding)
  {
    var padding := (hi - lo) * 0.1;
    Round2BelowGridPoint(lo - padding, lo);
    Round2AboveGridPoint(hi + padding, hi);
  }

  /** The selected keys of two points agree. */
  predicate SameOnKey(p: Point, q: Point, key: string) {
    (key in p.rates <==> key in q.rates) && (key in p.rates ==> p.rates[key] == q.rates[key])
  }

  lemma {:induction false} ItemValuesIgnoreUnselected(p: Point, q: Point, sel: seq<string>)
    requires forall j :: 0 <= j < |sel| ==> SameOnKey(p, q, sel[j])
    ensures ItemValues(p, sel) == ItemValues(q, sel)
  {
    if sel != [] {
      ItemValuesIgnoreUnselected(p, q, sel[..|sel| - 1]);
      assert SameOnKey(p, q, sel[|sel| - 1]);
    }
  }

  /** Labels and unselected keys never affect the range. */
  lemma {:induction false} DomainIgnoresUnselected(data: seq<Point>, other: seq<Point>, sel: seq<string>)
    requires |data| == |other|
    requires forall i, j :: 0 <= i < |data| && 0 <= j < |sel| ==> SameOnKey(data[i], other[i], sel[j])
    ensures YAxisDomain(data, sel) == YAxisDomain(other, sel)
  {
    assert SelectedValues(data, sel) == SelectedValues(other, sel) by {
      SelectedValuesIgnoreUnselected(data, other, sel);
    }
  }

  lemma {:induction false} SelectedValuesIgnoreUnselected(data: seq<Point>, other: seq<Point>, sel: seq<string>)
    requires |data| == |other|
    requires forall i, j :: 0 <= i < |data| && 0 <= j < |sel| ==> SameOnKey(data[i], other[i], sel[j])
    ensures SelectedValues(data, sel) == SelectedValues(other, sel)
  {
    if data != [] {
      var n := |data| - 1;
      SelectedValuesIgnoreUnselected(data[..n], other[..n], sel);
      ItemValuesIgnoreUnselected(data[n], other[n], sel);
    }
  }

  lemma ExtremesStep(s: seq<real>, x: real)
    ensures SeqMin(s + [x]) == if s == [] then x else Min(SeqMin(s), x)
    ensures SeqMax(s + [x]) == if s == [] then x else Max(SeqMax(s), x)
  {
    assert (s + [x])[..|s|] == s;
  }

  lemma ItemValuesStep(item: Point, sel: seq<string>, j: int)
    requires 0 <= j < |sel|
    ensures ItemValues(item, sel[..j + 1]) ==
      ItemValues(item, sel[..j]) + if sel[j] in item.rates then [item.rates[sel[j]]] else []
  {
    assert sel[..j + 1][..j] == sel[..j];
  }

  lemma SelectedValuesStep(data: seq<Point>, sel: seq<string>, i: int)
    requires 0 <= i < |data|
    ensures SelectedValues(data[..i + 1], sel) == SelectedValues(data[..i], sel) + ItemValues(data[i], sel)
  {
    assert data[..i + 1][..i] == data[..i];
  }

  /**
   * The running `min` and `max` after visiting `seen`: `found` is false while
   * they are still Infinity and -Infinity.
   */
  predicate Running(found: bool, min: real, max: real, seen: seq<real>) {
    (found <==> |seen| > 0) && (found ==> min == SeqMin(seen) && max == SeqMax(seen))
  }

  /** The inner `forEach` over the selected keys of one point. */
  method ScanPoint(item: Point, sel: seq<string>, found0: bool, min0: real, max0: real, ghost seen0: seq<real>)
    returns (found: bool, min: real, max: real)
    requires Running(found0, min0, max0, seen0)
    ensures Running(found, min, max, seen0 + ItemValues(item, sel))
  {
    found, min, max := found0, min0, max0;
    ghost var seen := seen0;
    for j := 0 to |sel|
      invariant seen == seen0 + ItemValues(item, sel[..j])
      invariant Running(found, min, max, seen)
    {
      ItemValuesStep(item, sel, j);
      var key := sel[j];
      if key in item.rates {
        var value := item.rates[key];
        ExtremesStep(seen, value);
        if found {
          min, max := Min(min, value), Max(max, value);
        } else {
          min, max, found := value, value, true;
        }
        seen := seen + [value];
      }
    }
    assert sel[..|sel|] == sel;
  }

  /** `getYAxisDomain`: the nested `forEach` keeping the running `min` and `max`. */
  method GetYAxisDomain(data: seq<Point>, sel: seq<string>) returns (lower: real, upper: real)
    ensures (lower, upper) == YAxisDomain(data, sel)
    ensures lower >= 0.0
  {
    if |data| == 0 || |sel| == 0 {
      return 0.0, 10.0;
    }
    var found := false;
    var min, max := 0.0, 0.0;
    for i := 0 to |data|
      invariant Running(found, min, max, SelectedValues(data[..i], sel))
    {
      SelectedValuesStep(data, sel, i);
      found, min, max := ScanPoint(data[i], sel, found, min, max, SelectedValues(data[..i], sel));
    }
    assert data[..|data|] == data;
    if !found {
      return 0.0, 10.0;
    }
    var padding := (max - min) * 0.1;
    lower := Max(0.0, Round2(min - padding));
    upper := Round2(max + padding);
  }
}
