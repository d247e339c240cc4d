/** Model of the data preprocessor: joins every listed instance with the
    average CPU utilization fetched in the instance's own region, builds the
    service cost table, and bundles both tables. */
module Preprocessing {
  import opened Wrappers
  import Ec2Client
  import CostAnalysis

  /** One row of the `ec2_metrics` table. */
  datatype Ec2Metric = Ec2Metric(instanceId: string, instanceType: string, state: string, region: string, avgCpuPercent: real)

  /** The two tables of one pipeline run, under the names `ec2_metrics` and `service_costs`. */
  datatype UnifiedDataset = UnifiedDataset(ec2Metrics: seq<Ec2Metric>, serviceCosts: seq<CostAnalysis.ServiceCost>)

  /** The row built for one listed instance, its CPU figure computed from the
      datapoints CloudWatch returns for (instance id, region). */
  function MetricRow(instance: Ec2Client.InstanceSummary, cloudwatch: (string, string) -> seq<real>): (row: Ec2Metric)
    ensures row.instanceId == instance.instanceId && row.instanceType == instance.instanceType
    ensures row.state == instance.state && row.region == instance.region
    ensures cloudwatch(instance.instanceId, instance.region) == [] ==> row.avgCpuPercent == 0.0
    ensures cloudwatch(instance.instanceId, instance.region) != [] ==>
      Ec2Client.Min(cloudwatch(instance.instanceId, instance.region)) <= row.avgCpuPercent
        <= Ec2Client.Max(cloudwatch(instance.instanceId, instance.region))
  {
    Ec2Metric(instance.instanceId, instance.instanceType, instance.state, instance.region,
              Ec2Client.AverageCpuUtilization(cloudwatch(instance.instanceId, instance.region)))
  }

  /** The `ec2_metrics` table of a listing. */
  function Ec2Dataset(instances: seq<Ec2Client.InstanceSummary>, cloudwatch: (string, string) -> seq<real>): (rows: seq<Ec2Metric>)
    ensures |rows| == |instances|
  {
    if instances == [] then []
    else Ec2Dataset(instances[..|instances| - 1], cloudwatch) + [MetricRow(instances[|instances| - 1], cloudwatch)]
  }

  /** One row per listed instance, in listing order; id, type and state are
      copied, the region is the instance's own, and the CPU figure is the
      average of the datapoints fetched for that id in that same region. */
  lemma {:induction false} Ec2DatasetRows(instances: seq<Ec2Client.InstanceSummary>, cloudwatch: (string, string) -> seq<real>)
    ensures |Ec2Dataset(instances, cloudwatch)| == |instances|
    ensures forall k :: 0 <= k < |instances| ==>
      var row, instance := Ec2Dataset(instances, cloudwatch)[k], instances[k];
      && row.instanceId == instance.instanceId
      && row.instanceType == instance.instanceType
      && row.state == instance.state
      && row.region == instance.region
      && row.avgCpuPercent == Ec2Client.AverageCpuUtilization(cloudwatch(instance.instanceId, instance.region))
  {
    if instances != [] {
      Ec2DatasetRows(instances[..|instances| - 1], cloudwatch);
    }
  }

  lemma Ec2DatasetStep(instances: seq<Ec2Client.InstanceSummary>, k: nat, cloudwatch: (string, string) -> seq<real>)
    requires k < |instances|
    ensures Ec2Dataset(instances[..k + 1], cloudwatch) == Ec2Dataset(instances[..k], cloudwatch) + [MetricRow(instances[k], cloudwatch)]
  {
    assert instances[..k + 1][..k] == instances[..k];
  }

  /** `DataPreprocessor.build_ec2_dataset`: lists the instances of all
      configured regions, then for each one fetches its CPU average from
      CloudWatch in the instance's own region and appends the row. */
  method BuildEc2Dataset(regions: seq<string>, describe: string -> Ec2Client.DescribeResponse,
                         cloudwatch: (string, string) -> seq<real>)
    returns (records: seq<Ec2Metric>)
    ensures records == Ec2Dataset(Ec2Client.Listing(regions, describe), cloudwatch)
  {
    var instances := Ec2Client.ListInstances(regions, describe);
    records := [];
    for k := 0 to |instances|
      invariant records == Ec2Dataset(instances[..k], cloudwatch)
    {
      var inst := instances[k];
      var region := inst.region;
      var cpuAvg := Ec2Client.AverageCpuUtilization(cloudwatch(inst.instanceId, region));
      Ec2DatasetStep(instances, k, cloudwatch);
      records := records + [Ec2Metric(inst.instanceId, inst.instanceType, inst.state, region, cpuAvg)];
    }
    assert instances[..|instances|] == instances;
  }

  /** The dataset has one row per instance of every configured region's
      response, and every row's region is one of the configured regions. */
  lemma DatasetCoversListing(regions: seq<string>, describe: string -> Ec2Client.DescribeResponse,
                             cloudwatch: (string, string) -> seq<real>)
    ensures |Ec2Dataset(Ec2Client.Listing(regions, describe), cloudwatch)| == Ec2Client.TotalInstanceCount(regions, describe)
    ensures forall row :: row in Ec2Dataset(Ec2Client.Listing(regions, describe), cloudwatch) ==> row.region in regions
  {
    var listing := Ec2Client.Listing(regions, describe);
    Ec2Client.ListingExact(regions, describe);
    Ec2DatasetRows(listing, cloudwatch);
    forall row | row in Ec2Dataset(listing, cloudwatch) ensures row.region in regions {
      var k :| 0 <= k < |listing| && Ec2Dataset(listing, cloudwatch)[k] == row;
      assert listing[k] in listing;
    }
  }

  /** `DataPreprocessor.build_cost_dataset`: the service cost table of the
      fetched billing response, with no service twice, sorted by cost. */
  method BuildCostDataset(rawCostData: CostAnalysis.CostResponse)
    returns (result: Result<seq<CostAnalysis.ServiceCost>, CostAnalysis.ShapeError>)
    ensures result == CostAnalysis.ServiceCosts(rawCostData)
    ensures result.Ok? ==> CostAnalysis.DistinctServices(result.value) && CostAnalysis.SortedByCostDesc(result.value)
  {
    result := CostAnalysis.ExtractServiceCosts(rawCostData);
    if result.Ok? {
      CostAnalysis.AggregateExact(CostAnalysis.Lines(rawCostData));
    }
  }

  /** `DataPreprocessor.build_unified_dataset`: both tables, the EC2 table
      built first; a malformed billing response aborts the whole build. */
  method BuildUnifiedDataset(regions: seq<string>, describe: string -> Ec2Client.DescribeResponse,
                             cloudwatch: (string, string) -> seq<real>, rawCostData: CostAnalysis.CostResponse)
    returns (result: Result<UnifiedDataset, CostAnalysis.ShapeError>)
    ensures result.Ok? <==> CostAnalysis.WellShaped(rawCostData)
    ensures result.Ok? ==>
      && result.value.ec2Metrics == Ec2Dataset(Ec2Client.Listing(regions, describe), cloudwatch)
      && result.value.serviceCosts == CostAnalysis.ServiceCosts(rawCostData).value
  {
    var ec2Df := BuildEc2Dataset(regions, describe, cloudwatch);
    var costDf := BuildCostDataset(rawCostData);
    match costDf
    case Err(e) => result := Err(e);
    case Ok(table) => result := Ok(UnifiedDataset(ec2Df, table));
  }
}
