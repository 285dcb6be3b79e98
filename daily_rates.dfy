/**
 * `processData`: one chart point per daily record, with each variation's
 * conversion rate in percent, rounded to hundredths.
 */
module DailyRates {
  import opened Wrappers
  import opened Decimal
  import opened Rounding
  import opened SharedTypes

  /**
   * `variation.id?.toString() || "0"`: the raw-id key of the second lookup
   * tier.  A variation without an id falls back to the record's `"0"` entry.
   */
  function IdKey(v: EnhancedVariation): string {
    match v.id
    case Some(n) => IntToString(n)
    case None => "0"
  }

  /** `m[key]` is truthy: present and not zero. */
  predicate Truthy(m: map<string, real>, key: string) {
    key in m && m[key] != 0.0
  }

  /** `m[primary] || m[fallback] || 0`. */
  function Lookup(m: map<string, real>, primary: string, fallback: string): real {
    if Truthy(m, primary) then m[primary]
    else if Truthy(m, fallback) then m[fallback]
    else 0.0
  }

  /** `visits > 0 ? (conversions / visits) * 100 : 0`, rounded by `toFixed(2)`. */
  function ConversionRate(visits: real, conversions: real): real {
    Round2(if visits > 0.0 then conversions / visits * 100.0 else 0.0)
  }

  /** The rate is a whole number of hundredths, 0 without positive visits, and a share when conversions do not exceed visits. */
  lemma ConversionRateBounds(visits: real, conversions: real)
    ensures OnGrid(ConversionRate(visits, conversions))
    ensures visits <= 0.0 ==> ConversionRate(visits, conversions) == 0.0
    ensures visits > 0.0 && 0.0 <= conversions <= visits ==> 0.0 <= ConversionRate(visits, conversions) <= 100.0
  {
    Round2IsOnGrid(if visits > 0.0 then conversions / visits * 100.0 else 0.0);
    if visits <= 0.0 {
      Round2Fixes(0.0);
    } else if 0.0 <= conversions <= visits {
      var q := conversions / visits * 100.0;
      ShareAtMostOne(conversions, visits);
      Round2AboveGridPoint(q, 0.0);
      Round2BelowGridPoint(q, 100.0);
    }
  }

  lemma ShareAtMostOne(part: real, whole: real)
    requires 0.0 <= part <= whole && whole > 0.0
    ensures 0.0 <= part / whole <= 1.0
  {
    var q := part / whole;
    assert q * whole == part;
  }

  /** 200 visits and 50 conversions give a rate of 25.00. */
  lemma RateExample()
    ensures ConversionRate(200.0, 50.0) == 25.0
  {
    assert 50.0 / 200.0 * 100.0 == 25.0;
    assert (25.0 * 100.0 + 0.5).Floor == 2500;
  }

  /** The resolved visits and conversions of a variation on a day, and its rate. */
  function VariationRate(d: DailyData, v: EnhancedVariation): real {
    ConversionRate(Lookup(d.visits, v.stableId, IdKey(v)), Lookup(d.conversions, v.stableId, IdKey(v)))
  }

  /**
   * The three lookup tiers of `processData`, for visits and conversions
   * alike: the entry under the series key if it is truthy, else the entry
   * under the id's text (`"0"` for a variation without an id) if that is
   * truthy, else 0.  An entry holding 0 acts as a missing one, and a
   * variation whose resolved visits are 0 gets the rate 0.
   */
  lemma VariationRateTiers(d: DailyData, v: EnhancedVariation)
    ensures VariationRate(d, v) == ConversionRate(
      if Truthy(d.visits, v.stableId) then d.visits[v.stableId]
      else if v.id.Some? && Truthy(d.visits, IntToString(v.id.value)) then d.visits[IntToString(v.id.value)]
      else if v.id.None? && Truthy(d.visits, "0") then d.visits["0"]
      else 0.0,
      if Truthy(d.conversions, v.stableId) then d.conversions[v.stableId]
      else if v.id.Some? && Truthy(d.conversions, IntToString(v.id.value)) then d.conversions[IntToString(v.id.value)]
      else if v.id.None? && Truthy(d.conversions, "0") then d.conversions["0"]
      else 0.0)
    ensures VariationRate(d.(visits := d.visits[v.stableId := 0.0]), v) ==
      VariationRate(d.(visits := d.visits - {v.stableId}), v)
    ensures VariationRate(d.(conversions := d.conversions[v.stableId := 0.0]), v) ==
      VariationRate(d.(conversions := d.conversions - {v.stableId}), v)
    ensures !Truthy(d.visits, v.stableId) && !Truthy(d.visits, if v.id.Some? then IntToString(v.id.value) else "0") ==>
      VariationRate(d, v) == 0.0
  {
    ConversionRateBounds(Lookup(d.visits, v.stableId, IdKey(v)), Lookup(d.conversions, v.stableId, IdKey(v)));
  }

  /** `formatDailyDate`: the day of the month, zero-padded to two digits, or "NaN". */
  function FormatDailyDate(date: string, dayOf: DayOfMonth): (s: string)
    ensures dayOf(date).Some? && dayOf(date).value < 10 ==> s == ['0'] + NatToDecimal(dayOf(date).value)
    ensures dayOf(date).Some? && dayOf(date).value >= 10 ==> s == NatToDecimal(dayOf(date).value)
    ensures dayOf(date).None? ==> s == "NaN"
  {
    var text := DayText(dayOf(date));
    if |text| < 2 then ['0'] + text else text
  }

  /** The map `forEach` leaves behind: one write per variation, in order, the later write winning. */
  function RatesFor(d: DailyData, vs: seq<EnhancedVariation>): map<string, real> {
    if vs == [] then map[]
    else RatesFor(d, vs[..|vs| - 1])[vs[|vs| - 1].stableId := VariationRate(d, vs[|vs| - 1])]
  }

  function PointFor(d: DailyData, vs: seq<EnhancedVariation>, dayOf: DayOfMonth): Point {
    Point(FormatDailyDate(d.date, dayOf), RatesFor(d, vs))
  }

  /** Every key of the point is some variation's key, and every variation's key is there. */
  lemma {:induction false} RatesForKeys(d: DailyData, vs: seq<EnhancedVariation>)
    ensures forall k :: k in RatesFor(d, vs) <==> exists i :: 0 <= i < |vs| && vs[i].stableId == k
  {
    if vs != [] {
      var init := vs[..|vs| - 1];
      RatesForKeys(d, init);
      forall k | k in RatesFor(d, vs) ensures exists i :: 0 <= i < |vs| && vs[i].stableId == k {
        if k != vs[|vs| - 1].stableId {
          assert k in RatesFor(d, init);
          var i :| 0 <= i < |init| && init[i].stableId == k;
          assert vs[i] == init[i];
        }
      }
      forall i | 0 <= i < |vs| ensures vs[i].stableId in RatesFor(d, vs) {
        if i < |vs| - 1 {
          assert vs[i] == init[i];
        }
      }
    }
  }

  /** A key holds the rate of the last variation that has it. */
  lemma {:induction false} RatesForLastWrite(d: DailyData, vs: seq<EnhancedVariation>, i: nat)
    requires i < |vs|
    requires forall j :: i < j < |vs| ==> vs[j].stableId != vs[i].stableId
    ensures vs[i].stableId in RatesFor(d, vs)
    ensures RatesFor(d, vs)[vs[i].stableId] == VariationRate(d, vs[i])
  {
    if i < |vs| - 1 {
      var init := vs[..|vs| - 1];
      assert vs[i] == init[i];
      forall j | i < j < |init| ensures init[j].stableId != init[i].stableId {
        assert init[j] == vs[j];
      }
      RatesForLastWrite(d, init, i);
    }
  }

  /** With distinct keys, every variation's own rate is in the point. */
  lemma PointHoldsEveryRate(d: DailyData, vs: seq<EnhancedVariation>, dayOf: DayOfMonth, i: nat)
    requires i < |vs|
    requires forall a, b :: 0 <= a < b < |vs| ==> vs[a].stableId != vs[b].stableId
    ensures vs[i].stableId in PointFor(d, vs, dayOf).rates
    ensures PointFor(d, vs, dayOf).rates[vs[i].stableId] == VariationRate(d, vs[i])
  {
    RatesForLastWrite(d, vs, i);
  }

  /**
   * Counts that are consistent: no conversion count is negative or exceeds
   * the visits recorded under the same key.
   */
  predicate ConsistentCounts(d: DailyData) {
    forall k :: k in d.conversions ==> 0.0 <= d.conversions[k] && (k in d.visits ==> d.conversions[k] <= d.visits[k])
  }

  /**
   * The rate lies in [0, 100] when both lookups resolve to the same key: the
   * key and the raw-id key coincide (as they do for every variation with an
   * id), or the record has no entry under the key at all.
   */
  lemma VariationRateIsPercentage(d: DailyData, v: EnhancedVariation)
    requires ConsistentCounts(d)
    requires v.stableId == IdKey(v) || (v.stableId !in d.visits && v.stableId !in d.conversions)
    ensures 0.0 <= VariationRate(d, v) <= 100.0
  {
    var key := if Truthy(d.visits, v.stableId) then v.stableId else IdKey(v);
    var visits := Lookup(d.visits, v.stableId, IdKey(v));
    var conversions := Lookup(d.conversions, v.stableId, IdKey(v));
    ConversionRateBounds(visits, conversions);
    if visits > 0.0 {
      assert key in d.visits && visits == d.visits[key];
      assert conversions == 0.0 || (key in d.conversions && conversions == d.conversions[key]);
    }
  }

  /** The `forEach` over the variations that fills one point. */
  method BuildPoint(d: DailyData, vs: seq<EnhancedVariation>, dayOf: DayOfMonth) returns (p: Point)
    ensures p == PointFor(d, vs, dayOf)
    ensures forall k :: k in p.rates <==> exists i :: 0 <= i < |vs| && vs[i].stableId == k
  {
    var processed: map<string, real> := map[];
    for n := 0 to |vs|
      invariant processed == RatesFor(d, vs[..n])
    {
      assert vs[..n + 1][..n] == vs[..n];
      var v := vs[n];
      var visits := Lookup(d.visits, v.stableId, IdKey(v));
      var conversions := Lookup(d.conversions, v.stableId, IdKey(v));
      processed := processed[v.stableId := ConversionRate(visits, conversions)];
    }
    assert vs[..|vs|] == vs;
    p := Point(FormatDailyDate(d.date, dayOf), processed);
    RatesForKeys(d, vs);
  }

  function ProcessedSeries(data: seq<DailyData>, vs: seq<EnhancedVariation>, dayOf: DayOfMonth): (r: seq<Point>)
    ensures |r| == |data|
  {
    seq(|data|, i requires 0 <= i < |data| => PointFor(data[i], vs, dayOf))
  }

  /** `processData`: the points in record order, one per record. */
  method ProcessData(data: seq<DailyData>, vs: seq<EnhancedVariation>, dayOf: DayOfMonth) returns (r: seq<Point>)
    ensures r == ProcessedSeries(data, vs, dayOf)
    ensures |r| == |data|
    ensures forall i :: 0 <= i < |data| ==> r[i].date == FormatDailyDate(data[i].date, dayOf)
    ensures forall i, k :: 0 <= i < |data| ==> (k in r[i].rates <==> exists j :: 0 <= j < |vs| && vs[j].stableId == k)
  {
    r := [];
    for n := 0 to |data|
      invariant |r| == n
      invariant forall i :: 0 <= i < n ==> r[i] == PointFor(data[i], vs, dayOf)
    {
      var p := BuildPoint(data[n], vs, dayOf);
      r := r + [p];
    }
    forall i | 0 <= i < |data| {
      RatesForKeys(data[i], vs);
    }
  }
}
