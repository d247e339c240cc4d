/** Model of the savings estimator: prices every idle recommendation with a
    static hourly rate table and a 720-hour month, and saves all, half or
    none of the monthly cost depending on the action. */
module SavingsRecommendations {
  import opened Wrappers
  import Ec2Client
  import CostAnalysis
  import Preprocessing
  import IdleResourceDetector

  /** Approximate on-demand hourly prices (USD) in ap-south-1. */
  const InstancePricing: map<string, real> := map["t2.micro" := 0.0116, "t2.small" := 0.023, "t2.medium" := 0.0464]

  /** Simplified month: 24 hours times 30 days. */
  const HoursPerMonth: real := (24 * 30) as real

  /** The instance type every row is priced as: the estimator does not read
      the instance's real type. */
  const AssumedInstanceType: string := "t2.micro"

  datatype SavingsRecord = SavingsRecord(instanceId: string, recommendedAction: IdleResourceDetector.Action,
                                         estimatedMonthlyCostUsd: real, estimatedMonthlySavingsUsd: real)

  /** `INSTANCE_PRICING.get(instance_type, 0)`: an unpriced type costs nothing. */
  function HourlyPrice(instanceType: string): (price: real)
    ensures price >= 0.0
    ensures instanceType in InstancePricing ==> price == InstancePricing[instanceType]
    ensures instanceType !in InstancePricing ==> price == 0.0
  {
    if instanceType in InstancePricing then InstancePricing[instanceType] else 0.0
  }

  /** Monthly cost of running one instance of the type all month. */
  function MonthlyCost(instanceType: string): (cost: real)
    ensures cost >= 0.0
    ensures instanceType in InstancePricing ==> cost == InstancePricing[instanceType] * 720.0
    ensures instanceType !in InstancePricing ==> cost == 0.0
  {
    HourlyPrice(instanceType) * HoursPerMonth
  }

  /** The saving an action brings: the whole monthly cost for Terminate and
      Stop, half of it for Rightsize, nothing otherwise; never negative and
      never more than the cost. */
  function EstimatedSavings(action: IdleResourceDetector.Action, monthlyCost: real): (savings: real)
    ensures monthlyCost >= 0.0 ==> 0.0 <= savings <= monthlyCost
    ensures action.Terminate? || action.Stop? ==> savings == monthlyCost
    ensures action.Rightsize? ==> savings + savings == monthlyCost
    ensures action.KeepRunning? ==> savings == 0.0
  {
    if action.Terminate? || action.Stop? then monthlyCost
    else if action.Rightsize? then monthlyCost * 0.5
    else 0.0
  }

  /** The savings record of one recommendation, priced as the assumed type. */
  function PriceRecommendation(rec: IdleResourceDetector.Recommendation): (record: SavingsRecord)
    ensures record.instanceId == rec.instanceId && record.recommendedAction == rec.recommendedAction
    ensures record.estimatedMonthlyCostUsd == MonthlyCost(AssumedInstanceType)
    ensures record.estimatedMonthlySavingsUsd ==
      EstimatedSavings(rec.recommendedAction, record.estimatedMonthlyCostUsd)
    ensures 0.0 <= record.estimatedMonthlySavingsUsd <= record.estimatedMonthlyCostUsd
  {
    var monthlyCost := MonthlyCost(AssumedInstanceType);
    SavingsRecord(rec.instanceId, rec.recommendedAction, monthlyCost, EstimatedSavings(rec.recommendedAction, monthlyCost))
  }

  /** Every record costs 0.0116 * 720 = 8.352 a month whatever the instance,
      and saves between nothing and that whole cost. */
  lemma PricedRecord(rec: IdleResourceDetector.Recommendation)
    ensures PriceRecommendation(rec).instanceId == rec.instanceId
    ensures PriceRecommendation(rec).recommendedAction == rec.recommendedAction
    ensures PriceRecommendation(rec).estimatedMonthlyCostUsd == 8.352
    ensures 0.0 <= PriceRecommendation(rec).estimatedMonthlySavingsUsd <= PriceRecommendation(rec).estimatedMonthlyCostUsd
  {
    assert AssumedInstanceType in InstancePricing && InstancePricing[AssumedInstanceType] == 0.0116;
  }

  /** `SavingsEstimator.estimate` on the idle detector's records: one savings
      record per recommendation, in the same order. */
  method Estimate(recommendations: seq<IdleResourceDetector.Recommendation>) returns (savingsRecords: seq<SavingsRecord>)
    ensures |savingsRecords| == |recommendations|
    ensures forall k :: 0 <= k < |recommendations| ==> savingsRecords[k] == PriceRecommendation(recommendations[k])
  {
    savingsRecords := [];
    for k := 0 to |recommendations|
      invariant |savingsRecords| == k
      invariant forall j :: 0 <= j < k ==> savingsRecords[j] == PriceRecommendation(recommendations[j])
    {
      var row := recommendations[k];
      var instanceType := AssumedInstanceType;
      var action := row.recommendedAction;
      var hourlyPrice := if instanceType in InstancePricing then InstancePricing[instanceType] else 0.0;
      var monthlyCost := hourlyPrice * HoursPerMonth;
      var estimatedSavings;
      if action.Terminate? || action.Stop? {
        estimatedSavings := monthlyCost;
      } else if action.Rightsize? {
        estimatedSavings := monthlyCost * 0.5;
      } else {
        estimatedSavings := 0.0;
      }
      savingsRecords := savingsRecords + [SavingsRecord(row.instanceId, action, monthlyCost, estimatedSavings)];
    }
  }

  /** The whole of `SavingsEstimator.estimate`: it runs the idle detector,
      which fails on a billing response with a keyless group, and prices each
      of its recommendations. */
  method EstimateFromSources(regions: seq<string>, describe: string -> Ec2Client.DescribeResponse,
                             cloudwatch: (string, string) -> seq<real>, rawCostData: CostAnalysis.CostResponse)
    returns (result: Result<seq<SavingsRecord>, CostAnalysis.ShapeError>)
    ensures result.Ok? <==> CostAnalysis.WellShaped(rawCostData)
    ensures result.Ok? ==>
      var rows := Preprocessing.Ec2Dataset(Ec2Client.Listing(regions, describe), cloudwatch);
      && |result.value| == |rows|
      && forall k :: 0 <= k < |rows| ==> result.value[k] == PriceRecommendation(IdleResourceDetector.Recommend(rows[k]))
  {
    var recommendations := IdleResourceDetector.AnalyzeFromSources(regions, describe, cloudwatch, rawCostData);
    match recommendations
    case Err(e) => result := Err(e);
    case Ok(recs) =>
      var savingsRecords := Estimate(recs);
      result := Ok(savingsRecords);
  }
}
