/** The funnel of the page's initial state. */
module MetricsData {
  import opened Wrappers
  import opened CalculatedMetricTypes

  const FunnelSteps: seq<FunnelStep> := [
    FunnelStep("cost", "COST", false, None, None),
    FunnelStep("impressions", "Impressions", true, Some("Assign metric"), Some("Impressions (paid)")),
    FunnelStep("clicks", "Clicks", true, Some("Assign metric"), Some("Clicks (paid)")),
    FunnelStep("registration", "Registration", true, Some("Custom conversions"), Some("Multiple custom conversions")),
    FunnelStep("first-deposit", "First Deposit", true, Some("Custom conversions"), Some("Multiple custom conversions")),
    FunnelStep("deposit-balance-load", "Deposit Balance Load", true, Some("Custom conversions"), Some("Multiple custom conversions"))
  ]
}
