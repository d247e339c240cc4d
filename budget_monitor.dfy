/** Model of the budget monitor: a configured threshold and the alerts it has
    handed to the notification channel. */
module BudgetAlerts {

  /** Threshold used when none is given. */
  const DefaultThreshold: real := 100.0

  const AlertSubject: string := "Budget Threshold Exceeded"

  const AlertRecommendation: string := "Review running resources and apply optimization."

  /** The facts the alert message states: region, total monthly cost,
      threshold limit and the fixed recommendation. */
  datatype AlertBody = AlertBody(region: string, totalMonthlyCost: real, thresholdLimit: real, recommendation: string)

  /** One `send_alert(subject, message)` call. */
  datatype Alert = Alert(subject: string, body: AlertBody)

  /** The alerts one evaluation dispatches: a single alert naming the region,
      the total and the threshold when the total is strictly above the
      threshold, none otherwise. */
  function AlertsFor(totalCost: real, region: string, threshold: real): (alerts: seq<Alert>)
    ensures |alerts| <= 1
    ensures |alerts| == 1 <==> totalCost > threshold
    ensures forall a :: a in alerts ==>
      a.subject == AlertSubject && a.body == AlertBody(region, totalCost, threshold, AlertRecommendation)
  {
    if totalCost > threshold then [Alert(AlertSubject, AlertBody(region, totalCost, threshold, AlertRecommendation))]
    else []
  }

  /** A total equal to the threshold raises no alert; a cent more raises one. */
  lemma ThresholdIsStrict(region: string, threshold: real)
    ensures AlertsFor(threshold, region, threshold) == []
    ensures |AlertsFor(threshold + 0.01, region, threshold)| == 1
  {
  }

  class BudgetMonitor {
    var threshold: real
    /** Every alert handed to the notifier so far, oldest first. */
    var alertsSent: seq<Alert>

    /** `BudgetMonitor(threshold_amount)`. */
    constructor (thresholdAmount: real)
      ensures threshold == thresholdAmount && alertsSent == []
    {
      threshold := thresholdAmount;
      alertsSent := [];
    }

    /** `BudgetMonitor()`: the default threshold of 100. */
    constructor WithDefaultThreshold()
      ensures threshold == DefaultThreshold && alertsSent == []
    {
      threshold := DefaultThreshold;
      alertsSent := [];
    }

    /** `evaluate_cost`: dispatches exactly one alert when the total is
      strictly above the threshold and none otherwise; the threshold is left
      as it was. */
    method EvaluateCost(totalCost: real, region: string)
      modifies this`alertsSent
      ensures threshold == old(threshold)
      ensures alertsSent == old(alertsSent) + AlertsFor(totalCost, region, threshold)
    {
      if totalCost > threshold {
        var subject := AlertSubject;
        var message := AlertBody(region, totalCost, threshold, AlertRecommendation);
        alertsSent := alertsSent + [Alert(subject, message)];
      }
    }
  }
}
