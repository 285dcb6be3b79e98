/**
 * Series keys for the variations (`enhanceVariationsWithIds`) and the list
 * of distinct keys that starts out selected (`getAvailableVariationIds`).
 */
module Variations {
  import opened Wrappers
  import opened Decimal
  import opened SharedTypes

  /**
   * `variation.id?.toString() || uuidv4()`.  A number's text is never empty,
   * so the generated id is used exactly when `id` is absent.
   */
  function StableIdFor(v: Variation, uuids: string): string {
    match v.id
    case Some(n) => IntToString(n)
    case None => uuids
  }

  /**
   * Each variation with its series key; `uuids[i]` is the id `uuidv4()`
   * would give the `i`-th variation, consulted only if its `id` is absent.
   */
  function EnhanceVariationsWithIds(vs: seq<Variation>, uuids: seq<string>): (r: seq<EnhancedVariation>)
    requires |uuids| == |vs|
    ensures |r| == |vs|
    ensures forall i :: 0 <= i < |vs| ==>
      r[i].id == vs[i].id && r[i].name == vs[i].name &&
      r[i].stableId == (if vs[i].id.Some? then IntToString(vs[i].id.value) else uuids[i])
  {
    seq(|vs|, i requires 0 <= i < |vs| => EnhancedVariation(vs[i].id, vs[i].name, StableIdFor(vs[i], uuids[i])))
  }

  /** A present id can be read back from its series key. */
  lemma StableIdParsesBack(vs: seq<Variation>, uuids: seq<string>, i: nat)
    requires |uuids| == |vs| && i < |vs| && vs[i].id.Some?
    ensures ParseInt(EnhanceVariationsWithIds(vs, uuids)[i].stableId) == vs[i].id
  {
    IntToStringRoundTrip(vs[i].id.value);
  }

  /**
   * Keys are unique when the present ids are, when the generated ids differ
   * from each other, and when none of them spells a present id.  Collisions
   * of natural ids are not resolved.
   */
  lemma StableIdsDistinct(vs: seq<Variation>, uuids: seq<string>)
    requires |uuids| == |vs|
    requires forall i, j :: 0 <= i < j < |vs| && vs[i].id.Some? && vs[j].id.Some? ==> vs[i].id != vs[j].id
    requires forall i, j :: 0 <= i < j < |vs| && vs[i].id.None? && vs[j].id.None? ==> uuids[i] != uuids[j]
    requires forall i, j :: 0 <= i < |vs| && 0 <= j < |vs| && vs[i].id.None? && vs[j].id.Some? ==>
      uuids[i] != IntToString(vs[j].id.value)
    ensures var r := EnhanceVariationsWithIds(vs, uuids);
      forall i, j :: 0 <= i < j < |r| ==> r[i].stableId != r[j].stableId
  {
    var r := EnhanceVariationsWithIds(vs, uuids);
    forall i, j | 0 <= i < j < |r| ensures r[i].stableId != r[j].stableId {
      if vs[i].id.Some? && vs[j].id.Some? {
        IntToStringInjective(vs[i].id.value, vs[j].id.value);
      }
    }
  }

  /** The keys in list order. */
  function StableIds(vs: seq<EnhancedVariation>): (r: seq<string>)
    ensures |r| == |vs|
  {
    if vs == [] then [] else StableIds(vs[..|vs| - 1]) + [vs[|vs| - 1].stableId]
  }

  lemma {:induction false} StableIdsAt(vs: seq<EnhancedVariation>, i: nat)
    requires i < |vs|
    ensures StableIds(vs)[i] == vs[i].stableId
  {
    if i < |vs| - 1 {
      assert vs[..|vs| - 1][i] == vs[i];
      StableIdsAt(vs[..|vs| - 1], i);
    }
  }

  /** What a JavaScript `Set` filled from `s` lists: each value once, at its first occurrence. */
  function Distinct(s: seq<string>): seq<string> {
    if s == [] then []
    else
      var p := Distinct(s[..|s| - 1]);
      if s[|s| - 1] in p then p else p + [s[|s| - 1]]
  }

  /** The index of the first occurrence of `x` in `s`. */
  function FirstIndex(s: seq<string>, x: string): (k: nat)
    requires x in s
    ensures k < |s| && s[k] == x
    ensures forall j :: 0 <= j < k ==> s[j] != x
  {
    if s[0] == x then 0 else 1 + FirstIndex(s[1..], x)
  }

  lemma {:induction false} FirstIndexPrefix(s: seq<string>, t: seq<string>, x: string)
    requires x in s
    ensures x in s + t && FirstIndex(s + t, x) == FirstIndex(s, x)
  {
    var k := FirstIndex(s, x);
    var st := s + t;
    assert st[k] == x;
    var k' := FirstIndex(st, x);
    assert k' <= k;
    assert s[k'] == st[k'];
  }

  /**
   * `Distinct(s)` holds exactly the values of `s`, none twice, ordered by
   * where each first occurs in `s`.
   */
  lemma {:induction false} DistinctSpec(s: seq<string>)
    ensures forall x :: x in Distinct(s) <==> x in s
    ensures forall i, j :: 0 <= i < j < |Distinct(s)| ==> Distinct(s)[i] != Distinct(s)[j]
    ensures forall i, j :: 0 <= i < j < |Distinct(s)| ==>
      FirstIndex(s, Distinct(s)[i]) < FirstIndex(s, Distinct(s)[j])
  {
    if s != [] {
      var init, x := s[..|s| - 1], s[|s| - 1];
      assert s == init + [x];
      DistinctSpec(init);
      var p := Distinct(init);
      forall y | y in init ensures FirstIndex(s, y) == FirstIndex(init, y) {
        FirstIndexPrefix(init, [x], y);
      }
      if x !in p {
        assert x !in init;
        assert FirstIndex(s, x) == |init|;
        var r := p + [x];
        forall i, j | 0 <= i < j < |r| ensures FirstIndex(s, r[i]) < FirstIndex(s, r[j]) {
          assert r[i] in p;
          if j < |p| {
            assert r[j] in p;
          }
        }
      }
    }
  }

  /** `getAvailableVariationIds`: add each key to a set, then list the set. */
  method GetAvailableVariationIds(vs: seq<EnhancedVariation>) returns (ids: seq<string>)
    ensures ids == Distinct(StableIds(vs))
    ensures forall x :: x in ids <==> exists i :: 0 <= i < |vs| && vs[i].stableId == x
    ensures forall i, j :: 0 <= i < j < |ids| ==> ids[i] != ids[j]
  {
    var seen: set<string> := {};
    ids := [];
    for n := 0 to |vs|
      invariant ids == Distinct(StableIds(vs[..n]))
      invariant forall x :: x in seen <==> x in ids
    {
      assert vs[..n + 1][..n] == vs[..n];
      var key := vs[n].stableId;
      if key !in seen {
        seen := seen + {key};
        ids := ids + [key];
      }
    }
    assert vs[..|vs|] == vs;
    DistinctSpec(StableIds(vs));
    forall x | x in ids ensures exists i :: 0 <= i < |vs| && vs[i].stableId == x {
      var i := FirstIndex(StableIds(vs), x);
      StableIdsAt(vs, i);
    }
    forall i | 0 <= i < |vs| ensures vs[i].stableId in ids {
      StableIdsAt(vs, i);
    }
  }
}
