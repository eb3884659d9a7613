/** The pricing table's order of plans, and the plan names that include the assistant. */
module PlanOrder {
  import opened Common
  import opened JsText
  import opened JsCollections

  const DISPLAY_TIERS: seq<string> := ["free", "starter", "pro", "enterprise"]

  datatype Plan = Plan(name: string, amount: Option<int>)

  predicate MatchesTierPrefix(n: string, tier: string) {
    n == tier || tier + " " <= n || tier + "-" <= n
  }

  /** The first tier that matches, or the number of tiers. `lower` is the conversion to lower case. */
  ghost predicate IsTierIndex(n: string, index: nat) {
    && index <= |DISPLAY_TIERS|
    && (index < |DISPLAY_TIERS| ==> MatchesTierPrefix(n, DISPLAY_TIERS[index]))
    && (forall i :: 0 <= i < index ==> !MatchesTierPrefix(n, DISPLAY_TIERS[i]))
  }

  function TierFrom(n: string, i: nat): nat
    requires i <= |DISPLAY_TIERS|
    decreases |DISPLAY_TIERS| - i
  {
    if i == |DISPLAY_TIERS| || MatchesTierPrefix(n, DISPLAY_TIERS[i]) then i else TierFrom(n, i + 1)
  }

  function TierIndex(planName: string, lower: string -> string): nat {
    TierFrom(lower(Trim(planName)), 0)
  }

  method DisplayTierIndex(planName: string, lower: string -> string) returns (index: nat)
    ensures IsTierIndex(lower(Trim(planName)), index)
    ensures index == TierIndex(planName, lower)
  {
    var n := lower(Trim(planName));
    for i := 0 to |DISPLAY_TIERS|
      invariant forall k :: 0 <= k < i ==> !MatchesTierPrefix(n, DISPLAY_TIERS[k])
      invariant TierFrom(n, i) == TierFrom(n, 0)
    {
      if MatchesTierPrefix(n, DISPLAY_TIERS[i]) {
        return i;
      }
    }
    return |DISPLAY_TIERS|;
  }

  /** A name is of at most one tier: a tier name is followed by its end, a blank or a hyphen, none of which is in another. */
  lemma TiersAreApart(n: string, i: nat, k: nat)
    requires i < |DISPLAY_TIERS| && k < |DISPLAY_TIERS|
    requires MatchesTierPrefix(n, DISPLAY_TIERS[i]) && MatchesTierPrefix(n, DISPLAY_TIERS[k])
    ensures i == k
  {
    assert n[0] == DISPLAY_TIERS[i][0] && n[0] == DISPLAY_TIERS[k][0];
    assert forall j :: 0 <= j < |DISPLAY_TIERS| ==> DISPLAY_TIERS[j][0] == ['f', 's', 'p', 'e'][j];
  }

  lemma {:induction false} TierFromIsFirst(n: string, i: nat)
    requires i <= |DISPLAY_TIERS|
    ensures i <= TierFrom(n, i) <= |DISPLAY_TIERS|
    ensures TierFrom(n, i) < |DISPLAY_TIERS| ==> MatchesTierPrefix(n, DISPLAY_TIERS[TierFrom(n, i)])
    ensures forall k :: i <= k < TierFrom(n, i) ==> !MatchesTierPrefix(n, DISPLAY_TIERS[k])
    decreases |DISPLAY_TIERS| - i
  {
    if i < |DISPLAY_TIERS| && !MatchesTierPrefix(n, DISPLAY_TIERS[i]) {
      TierFromIsFirst(n, i + 1);
    }
  }

  /** The order of the tests does not matter: an index is the name's exactly if its tier matches. */
  lemma TierIndexIff(planName: string, lower: string -> string, i: nat)
    requires i < |DISPLAY_TIERS|
    ensures TierIndex(planName, lower) == i <==> MatchesTierPrefix(lower(Trim(planName)), DISPLAY_TIERS[i])
  {
    var n := lower(Trim(planName));
    TierFromIsFirst(n, 0);
    if MatchesTierPrefix(n, DISPLAY_TIERS[i]) {
      TiersAreApart(n, TierFrom(n, 0), i);
    }
  }

  /** The tier's name by itself, or with a blank or a hyphen behind it. */
  ghost predicate IsNamed(n: string, tier: string) {
    n == tier || (|n| > |tier| && n[..|tier|] == tier && (n[|tier|] == ' ' || n[|tier|] == '-'))
  }

  lemma PrefixIsNamed(n: string, tier: string)
    ensures MatchesTierPrefix(n, tier) <==> IsNamed(n, tier)
  {
    if IsNamed(n, tier) && n != tier {
      assert n[..|tier| + 1] == tier + [n[|tier|]];
    }
  }

  /** The places of the table: Free, Starter, Pro, Enterprise, and behind them everything else. */
  lemma TierOutcome(planName: string, lower: string -> string)
    ensures var n, index := lower(Trim(planName)), TierIndex(planName, lower);
            && (index == 0 <==> IsNamed(n, "free"))
            && (index == 1 <==> IsNamed(n, "starter"))
            && (index == 2 <==> IsNamed(n, "pro"))
            && (index == 3 <==> IsNamed(n, "enterprise"))
            && index <= 4
  {
    var n := lower(Trim(planName));
    TierFromIsFirst(n, 0);
    PrefixIsNamed(n, "free");
    PrefixIsNamed(n, "starter");
    PrefixIsNamed(n, "pro");
    PrefixIsNamed(n, "enterprise");
    TierIndexIff(planName, lower, 0);
    TierIndexIff(planName, lower, 1);
    TierIndexIff(planName, lower, 2);
    TierIndexIff(planName, lower, 3);
  }

  // ----- the assistant -----

  function IsPlanNameAiChatbotTier(planName: string, lower: string -> string): bool {
    var n := lower(Trim(planName));
    Trim(planName) != "" && (MatchesTierPrefix(n, "pro") || MatchesTierPrefix(n, "enterprise"))
  }

  /** The two readings of plan names agree: the assistant comes with the third and the fourth place of the table. */
  lemma AssistantFollowsDisplayOrder(planName: string, lower: string -> string)
    requires lower("") == ""
    ensures IsPlanNameAiChatbotTier(planName, lower) <==> TierIndex(planName, lower) in {2, 3}
  {
    TierIndexIff(planName, lower, 2);
    TierIndexIff(planName, lower, 3);
    assert !MatchesTierPrefix("", "pro") && !MatchesTierPrefix("", "enterprise");
  }

  /** A plan has it if it is named after Pro or Enterprise, and is named at all. */
  lemma AssistantOutcome(planName: string, lower: string -> string)
    ensures IsPlanNameAiChatbotTier(planName, lower) <==>
            Trim(planName) != "" && (IsNamed(lower(Trim(planName)), "pro") || IsNamed(lower(Trim(planName)), "enterprise"))
  {
    PrefixIsNamed(lower(Trim(planName)), "pro");
    PrefixIsNamed(lower(Trim(planName)), "enterprise");
  }

  // ----- the order -----

  /** The comparator answers at most zero: by tier, then by amount, then by name. */
  predicate NoLater(a: Plan, b: Plan, lower: string -> string, nameNoLater: (string, string) -> bool) {
    var da, db := TierIndex(a.name, lower), TierIndex(b.name, lower);
    if da != db then da < db
    else
      var am, bm := a.amount.GetOr(0), b.amount.GetOr(0);
      if am != bm then am < bm else nameNoLater(a.name, b.name)
  }

  function Before(lower: string -> string, nameNoLater: (string, string) -> bool): (Plan, Plan) -> bool {
    (a: Plan, b: Plan) => NoLater(a, b, lower, nameNoLater)
  }

  /** Given that names are compared consistently, so are plans. */
  lemma ComparatorIsPreorder(lower: string -> string, nameNoLater: (string, string) -> bool)
    requires TotalPreorder(nameNoLater)
    ensures TotalPreorder(Before(lower, nameNoLater))
  {
    var before := Before(lower, nameNoLater);
    forall a, b ensures before(a, b) || before(b, a) {
      assert nameNoLater(a.name, b.name) || nameNoLater(b.name, a.name);
    }
    forall a, b, c | before(a, b) && before(b, c) ensures before(a, c) {
      assert nameNoLater(a.name, b.name) && nameNoLater(b.name, c.name) ==> nameNoLater(a.name, c.name);
    }
  }

  function SortSubscriptionPlansByDisplayOrder(plans: seq<Plan>, lower: string -> string, nameNoLater: (string, string) -> bool): seq<Plan> {
    Sort(plans, Before(lower, nameNoLater))
  }

  /** The plans come out as they went in, tier by tier, cheaper ones first, then by name. */
  lemma PlansAreOrdered(plans: seq<Plan>, lower: string -> string, nameNoLater: (string, string) -> bool)
    requires TotalPreorder(nameNoLater)
    ensures var sorted := SortSubscriptionPlansByDisplayOrder(plans, lower, nameNoLater);
            && multiset(sorted) == multiset(plans)
            && forall i, k :: 0 <= i < k < |sorted| ==> InDisplayOrder(sorted[i], sorted[k], lower, nameNoLater)
  {
    ComparatorIsPreorder(lower, nameNoLater);
    SortCorrect(plans, Before(lower, nameNoLater));
    var sorted := SortSubscriptionPlansByDisplayOrder(plans, lower, nameNoLater);
    forall i, k | 0 <= i < k < |sorted| ensures InDisplayOrder(sorted[i], sorted[k], lower, nameNoLater) {
      assert Before(lower, nameNoLater)(sorted[i], sorted[k]);
    }
  }

  ghost predicate InDisplayOrder(a: Plan, b: Plan, lower: string -> string, nameNoLater: (string, string) -> bool) {
    && TierIndex(a.name, lower) <= TierIndex(b.name, lower)
    && (TierIndex(a.name, lower) == TierIndex(b.name, lower) ==>
         && a.amount.GetOr(0) <= b.amount.GetOr(0)
         && (a.amount.GetOr(0) == b.amount.GetOr(0) ==> nameNoLater(a.name, b.name)))
  }
}
