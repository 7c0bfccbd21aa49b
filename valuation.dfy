/** `compute_valuation(profit, revenue_type_label)`: a floor of 1000 for small
    profits, otherwise a multiple of the profit chosen by the first revenue
    marker found in the label. */
module Valuation {
  import opened Wrappers
  import opened Text

  datatype Valuation = Valuation(min: real, max: real, mid: real)

  const FloorValue: real := 1000.0

  /** `profit` is `None` when the answer is missing or does not parse, which
      the source reads as 0. Python floats are modelled as exact reals. */
  function ComputeValuation(profit: Option<real>, revenueType: string): (v: Valuation)
    ensures FloorValue <= v.min <= v.mid <= v.max
    ensures v.mid == (v.min + v.max) / 2.0
  {
    var p := profit.GetOr(0.0);
    var rt := Lower(revenueType);
    if p <= 0.0 || p < 1000.0 then
      Valuation(1000.0, 1000.0, 1000.0)
    else if Contains(rt, "ad") then
      var lo := p * 1.0;
      var hi := p * 1.7;
      Valuation(lo, hi, (lo + hi) / 2.0)
    else if Contains(rt, "subscription") || Contains(rt, "sub") then
      var lo := p * 1.5;
      var hi := p * 2.3;
      Valuation(lo, hi, (lo + hi) / 2.0)
    else
      var estimate := p * 2.5;
      Valuation(estimate, estimate, estimate)
  }

  /** A missing, unparseable, negative or small profit gets the floor,
      whatever the label says. */
  lemma ValuationFloor(profit: Option<real>, revenueType: string)
    requires profit.None? || profit.value < 1000.0
    ensures ComputeValuation(profit, revenueType) == Valuation(FloorValue, FloorValue, FloorValue)
  {
  }

  /** One tier of the reference table: a marker looked for in the lower-cased
      label and the multipliers of the profit it gives. */
  datatype Tier = Tier(marker: string, low: real, high: real)

  /** The tiers in priority order; a label with no marker gets `FlatMultiplier`.
      There is no separate tier for in-app purchases. */
  const Tiers: seq<Tier> := [Tier("ad", 1.0, 1.7), Tier("sub", 1.5, 2.3)]
  const FlatMultiplier: real := 2.5

  /** The first tier whose marker occurs in `rt`. */
  function FirstTier(tiers: seq<Tier>, rt: string): (r: Option<Tier>)
    ensures r.Some? ==> r.value in tiers && Contains(rt, r.value.marker)
    ensures r.None? ==> forall t :: t in tiers ==> !Contains(rt, t.marker)
  {
    if tiers == [] then None
    else if Contains(rt, tiers[0].marker) then Some(tiers[0])
    else FirstTier(tiers[1..], rt)
  }

  /** Tier `k` is the first whose marker occurs in `rt`. */
  ghost predicate FirstMatchAt(tiers: seq<Tier>, rt: string, k: int) {
    0 <= k < |tiers| && Contains(rt, tiers[k].marker) && forall j :: 0 <= j < k ==> !Contains(rt, tiers[j].marker)
  }

  /** `FirstTier` picks the first matching tier, not just any matching one. */
  lemma {:induction false} FirstTierIsFirstMatch(tiers: seq<Tier>, rt: string, k: int)
    requires FirstMatchAt(tiers, rt, k)
    ensures FirstTier(tiers, rt) == Some(tiers[k])
    decreases |tiers|
  {
    if k > 0 {
      assert FirstMatchAt(tiers[1..], rt, k - 1);
      FirstTierIsFirstMatch(tiers[1..], rt, k - 1);
    }
  }

  /** The valuation as a table lookup: floor, first matching tier, or flat. */
  function TableValuation(p: real, rt: string): Valuation {
    if p < FloorValue then Valuation(FloorValue, FloorValue, FloorValue)
    else match FirstTier(Tiers, rt)
      case Some(t) => Valuation(p * t.low, p * t.high, p * (t.low + t.high) / 2.0)
      case None => Valuation(p * FlatMultiplier, p * FlatMultiplier, p * FlatMultiplier)
  }

  /** A label that contains "subscription" contains "sub", so the source's
      two tests for the second tier are one. */
  lemma SubscriptionContainsSub(rt: string)
    requires Contains(rt, "subscription")
    ensures Contains(rt, "sub")
  {
    var i :| OccursAt(rt, "subscription", i);
    assert rt[i..i + 3] == rt[i..i + 12][..3];
    assert OccursAt(rt, "sub", i);
  }

  /** `compute_valuation` agrees with the priority table on every input. */
  lemma ValuationIsTableLookup(profit: Option<real>, revenueType: string)
    ensures ComputeValuation(profit, revenueType) == TableValuation(profit.GetOr(0.0), Lower(revenueType))
  {
    var p, rt := profit.GetOr(0.0), Lower(revenueType);
    if Contains(rt, "subscription") {
      SubscriptionContainsSub(rt);
    }
    FirstTierOfTable(rt);
    if p >= FloorValue {
      if Contains(rt, "ad") {
        assert TableValuation(p, rt) == Valuation(p * 1.0, p * 1.7, p * (1.0 + 1.7) / 2.0);
        assert p * (1.0 + 1.7) / 2.0 == (p * 1.0 + p * 1.7) / 2.0;
      } else if Contains(rt, "sub") {
        assert TableValuation(p, rt) == Valuation(p * 1.5, p * 2.3, p * (1.5 + 2.3) / 2.0);
        assert p * (1.5 + 2.3) / 2.0 == (p * 1.5 + p * 2.3) / 2.0;
      }
    }
  }

  /** The first matching tier of the table, written out. */
  lemma FirstTierOfTable(rt: string)
    ensures FirstTier(Tiers, rt) ==
      if Contains(rt, "ad") then Some(Tiers[0]) else if Contains(rt, "sub") then Some(Tiers[1]) else None
  {
    assert Tiers[1..] == [Tier("sub", 1.5, 2.3)];
    assert Tiers[1..][1..] == [];
  }

  /** For a fixed label, a larger profit never lowers any of the three figures. */
  lemma ValuationMonotone(p: real, q: real, revenueType: string)
    requires p <= q
    ensures var a, b := ComputeValuation(Some(p), revenueType), ComputeValuation(Some(q), revenueType);
      a.min <= b.min && a.mid <= b.mid && a.max <= b.max
  {
  }

  /** The tiers for a profit of at least 1000 (1000 itself is not floored). */
  lemma ValuationTiers(p: real, revenueType: string)
    requires p >= 1000.0
    ensures var v, rt := ComputeValuation(Some(p), revenueType), Lower(revenueType);
      && (Contains(rt, "ad") ==> v == Valuation(p, 1.7 * p, 1.35 * p))
      && (!Contains(rt, "ad") && Contains(rt, "sub") ==> v == Valuation(1.5 * p, 2.3 * p, 1.9 * p))
      && (!Contains(rt, "ad") && !Contains(rt, "sub") ==> v == Valuation(2.5 * p, 2.5 * p, 2.5 * p))
  {
    if Contains(Lower(revenueType), "subscription") {
      SubscriptionContainsSub(Lower(revenueType));
    }
  }

  /** The worked example of a subscription app with a profit of 20000. */
  lemma SubscriptionExample(source: string)
    requires source == "Subscription"
    ensures ComputeValuation(Some(20000.0), source) == Valuation(30000.0, 46000.0, 38000.0)
  {
    MarkerAt(source, 0, "sub");
    forall k | 0 <= k < |source| ensures Lower(source)[k] != 'a' {
      assert Lower(source)[k] == LowerChar(source[k]);
    }
    LetterMissing(Lower(source), "ad");
    ValuationTiers(20000.0, source);
  }

  /** A marker occurs in the lower-cased source where its letters occur in any case. */
  lemma MarkerAt(s: string, i: nat, m: string)
    requires i + |m| <= |s| && forall k :: 0 <= k < |m| ==> LowerChar(s[i + k]) == m[k]
    ensures Contains(Lower(s), m)
  {
    assert Lower(s)[i..i + |m|] == m;
    assert OccursAt(Lower(s), m, i);
  }

  /** A marker whose first letter does not occur in `s` does not occur in `s`. */
  lemma LetterMissing(s: string, m: string)
    requires m != [] && forall k :: 0 <= k < |s| ==> s[k] != m[0]
    ensures !Contains(s, m)
  {
    forall i | 0 <= i && i + |m| <= |s| ensures !OccursAt(s, m, i) {
      assert s[i..i + |m|][0] == s[i];
    }
  }

  lemma AdExample()
    ensures ComputeValuation(Some(5000.0), "Ad") == Valuation(5000.0, 8500.0, 6750.0)
  {
    assert Lower("Ad") == "ad";
  }

  /** In-app purchases alone fall through to the flat multiplier. */
  lemma InAppPurchaseOnlyExample()
    ensures ComputeValuation(Some(5000.0), "IAP") == Valuation(12500.0, 12500.0, 12500.0)
  {
    assert Lower("IAP") == "iap";
    assert !Contains("iap", "ad") && !Contains("iap", "sub") && !Contains("iap", "subscription");
  }

  /** With several revenue sources the "ad" tier wins. */
  lemma PriorityExample(source: string)
    requires source == "Subscription,Ad"
    ensures ComputeValuation(Some(5000.0), source) == Valuation(5000.0, 8500.0, 6750.0)
  {
    MarkerAt(source, 13, "ad");
    ValuationTiers(5000.0, source);
  }

  /** 999.99 is floored; 1000 itself is not. */
  lemma BoundaryExamples()
    ensures ComputeValuation(Some(999.99), "Ad") == Valuation(1000.0, 1000.0, 1000.0)
    ensures ComputeValuation(Some(1000.0), "") == Valuation(2500.0, 2500.0, 2500.0)
  {
  }
}
