/** `investment_recommendation`: the portfolio allocation for a risk level. */
module Recommendation {
  import opened Builtins
  import opened Validator

  /** The allocation promised for each risk level, keyed by the lower-case
      level. */
  const Allocations: map<string, string> := map[
    "none" := "100% bonds (AGG), 0% equities (SPY)",
    "low" := "60% bonds (AGG), 40% equities (SPY)",
    "medium" := "40% bonds (AGG), 60% equities (SPY)",
    "high" := "20% bonds (AGG), 80% equities (SPY)"]

  /** The recommendation for `riskLevel`, whatever its case: the allocation
      listed for it, or the empty string for a level that validation would
      have refused. */
  function InvestmentRecommendation(riskLevel: string): (r: string)
    ensures Lower(riskLevel) in Allocations ==> r == Allocations[Lower(riskLevel)]
    ensures Lower(riskLevel) !in Allocations ==> r == ""
    ensures r != "" <==> IsRiskLevel(riskLevel)
  {
    var level := Lower(riskLevel);
    if level == "none" then "100% bonds (AGG), 0% equities (SPY)"
    else if level == "low" then "60% bonds (AGG), 40% equities (SPY)"
    else if level == "medium" then "40% bonds (AGG), 60% equities (SPY)"
    else if level == "high" then "20% bonds (AGG), 80% equities (SPY)"
    else ""
  }

  /** Risk levels that differ only in case get the same recommendation. */
  lemma RecommendationIgnoresCase(a: string, b: string)
    requires EqualIgnoringCase(a, b)
    ensures InvestmentRecommendation(a) == InvestmentRecommendation(b)
  {
    assert Lower(a) == Lower(b);
  }

  /** Distinct risk levels get distinct recommendations. */
  lemma RecommendationsDistinct(a: string, b: string)
    requires IsRiskLevel(a) && IsRiskLevel(b)
    ensures InvestmentRecommendation(a) == InvestmentRecommendation(b) <==> Lower(a) == Lower(b)
  {
  }
}
