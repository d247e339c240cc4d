/** Model of the rightsizing analyzer: running instances only, sorted into
    three CPU bands, with a fixed demonstration record when no instance runs. */
module Rightsizing {
  import opened Wrappers
  import Ec2Client
  import CostAnalysis
  import Preprocessing

  /** CPU percentage below which a running instance is overprovisioned. */
  const LowerBound: real := 20.0
  /** CPU percentage above which a running instance may be undersized. */
  const UpperBound: real := 60.0

  datatype SizingAction = DownsizeInstance | UpsizeInstance | KeepSize

  /** The reason texts; the two that quote the observed CPU carry it. */
  datatype SizingReason = LowCpu(cpu: real) | HighCpu(cpu: real) | AppropriatelySized | DemonstrationData

  datatype SizingRecommendation = SizingRecommendation(instanceId: string, currentCpuPercent: real,
                                                       rightsizingAction: SizingAction, reason: SizingReason)

  /** Sentinel id of the record shown when no instance is running. */
  const DemoInstanceId: string := "demo-instance"

  /** The record returned when no instance is running. */
  const DemoRecommendation: SizingRecommendation :=
    SizingRecommendation(DemoInstanceId, 8.0, DownsizeInstance, DemonstrationData)

  /** The band of a running instance: below 20 downsize, above 60 upsize,
      and the closed interval [20, 60] keeps its size. */
  function Band(cpu: real): (decision: (SizingAction, SizingReason))
    ensures decision.0 == DownsizeInstance <==> cpu < LowerBound
    ensures decision.0 == UpsizeInstance <==> cpu > UpperBound
    ensures decision.0 == KeepSize <==> LowerBound <= cpu <= UpperBound
    ensures decision.1 == match decision.0
      case DownsizeInstance => LowCpu(cpu)
      case UpsizeInstance => HighCpu(cpu)
      case KeepSize => AppropriatelySized
  {
    if cpu < LowerBound then (DownsizeInstance, LowCpu(cpu))
    else if cpu > UpperBound then (UpsizeInstance, HighCpu(cpu))
    else (KeepSize, AppropriatelySized)
  }

  /** The record for one running row: id and CPU copied, action by band. */
  function Size(row: Preprocessing.Ec2Metric): (r: SizingRecommendation)
    ensures r.instanceId == row.instanceId && r.currentCpuPercent == row.avgCpuPercent
    ensures (r.rightsizingAction, r.reason) == Band(row.avgCpuPercent)
  {
    var (action, reason) := Band(row.avgCpuPercent);
    SizingRecommendation(row.instanceId, row.avgCpuPercent, action, reason)
  }

  predicate Running(row: Preprocessing.Ec2Metric) {
    row.state == "running"
  }

  /** The rows in state "running", in table order. */
  function RunningRows(rows: seq<Preprocessing.Ec2Metric>): (running: seq<Preprocessing.Ec2Metric>)
    ensures |running| <= |rows|
    ensures forall k :: 0 <= k < |running| ==> Running(running[k])
  {
    if rows == [] then []
    else RunningRows(rows[..|rows| - 1]) + (if Running(rows[|rows| - 1]) then [rows[|rows| - 1]] else [])
  }

  /** The records of the analysis loop before the fallback: a record for each
      running row, nothing for any other row. */
  function SizeRunning(rows: seq<Preprocessing.Ec2Metric>): (sized: seq<SizingRecommendation>)
    ensures |sized| <= |rows|
  {
    if rows == [] then []
    else
      var last := rows[|rows| - 1];
      SizeRunning(rows[..|rows| - 1]) + (if Running(last) then [Size(last)] else [])
  }

  /** The running filter keeps exactly the running rows. */
  lemma {:induction false} RunningRowsMembers(rows: seq<Preprocessing.Ec2Metric>)
    ensures forall row :: row in RunningRows(rows) <==> row in rows && Running(row)
  {
    if rows != [] {
      var n := |rows| - 1;
      RunningRowsMembers(rows[..n]);
      assert rows == rows[..n] + [rows[n]];
    }
  }

  /** The running filter keeps the table's order: filtering a concatenation
      concatenates the filtered parts. */
  lemma {:induction false} RunningRowsAppend(a: seq<Preprocessing.Ec2Metric>, b: seq<Preprocessing.Ec2Metric>)
    ensures RunningRows(a + b) == RunningRows(a) + RunningRows(b)
  {
    if b == [] {
      assert a + b == a;
    } else {
      var n := |b| - 1;
      assert (a + b)[..|a + b| - 1] == a + b[..n];
      assert (a + b)[|a + b| - 1] == b[n];
      RunningRowsAppend(a, b[..n]);
    }
  }

  /** The loop's records are the running rows, each sized, in order: one
      record per running row with its id and CPU copied. */
  lemma {:induction false} SizeRunningIsSizedFilter(rows: seq<Preprocessing.Ec2Metric>)
    ensures |SizeRunning(rows)| == |RunningRows(rows)|
    ensures forall k :: 0 <= k < |RunningRows(rows)| ==> SizeRunning(rows)[k] == Size(RunningRows(rows)[k])
  {
    if rows != [] {
      SizeRunningIsSizedFilter(rows[..|rows| - 1]);
    }
  }

  /** The loop yields no record exactly when no row is running. */
  lemma SizeRunningEmpty(rows: seq<Preprocessing.Ec2Metric>)
    ensures SizeRunning(rows) == [] <==> forall row :: row in rows ==> !Running(row)
  {
    SizeRunningIsSizedFilter(rows);
    RunningRowsMembers(rows);
    if RunningRows(rows) != [] {
      assert RunningRows(rows)[0] in RunningRows(rows);
    }
  }

  lemma SizeRunningStep(rows: seq<Preprocessing.Ec2Metric>, k: nat)
    requires k < |rows|
    ensures SizeRunning(rows[..k + 1]) == SizeRunning(rows[..k]) + (if Running(rows[k]) then [Size(rows[k])] else [])
  {
    assert rows[..k + 1][..k] == rows[..k];
  }

  /** `RightsizingAnalyzer.analyze` on the `ec2_metrics` table: the sized
      running rows, or the demonstration record alone when no row is running;
      never empty. */
  method Analyze(ec2Metrics: seq<Preprocessing.Ec2Metric>) returns (recommendations: seq<SizingRecommendation>)
    ensures recommendations != []
    ensures (forall row :: row in ec2Metrics ==> !Running(row)) ==> recommendations == [DemoRecommendation]
    ensures (exists row :: row in ec2Metrics && Running(row)) ==> recommendations == SizeRunning(ec2Metrics)
  {
    recommendations := [];
    for k := 0 to |ec2Metrics|
      invariant recommendations == SizeRunning(ec2Metrics[..k])
    {
      var row := ec2Metrics[k];
      var state, cpu := row.state, row.avgCpuPercent;
      SizeRunningStep(ec2Metrics, k);
      if state != "running" {
        continue;
      }
      var action, reason;
      if cpu < LowerBound {
        action, reason := DownsizeInstance, LowCpu(cpu);
      } else if cpu > UpperBound {
        action, reason := UpsizeInstance, HighCpu(cpu);
      } else {
        action, reason := KeepSize, AppropriatelySized;
      }
      recommendations := recommendations + [SizingRecommendation(row.instanceId, cpu, action, reason)];
    }
    assert ec2Metrics[..|ec2Metrics|] == ec2Metrics;
    SizeRunningEmpty(ec2Metrics);
    if recommendations == [] {
      recommendations := [DemoRecommendation];
    }
  }

  /** The whole of `RightsizingAnalyzer.analyze`: the unified dataset is
      built first, so a billing response with a keyless group makes the
      analysis fail; otherwise the EC2 table is sized as above. */
  method AnalyzeFromSources(regions: seq<string>, describe: string -> Ec2Client.DescribeResponse,
                            cloudwatch: (string, string) -> seq<real>, rawCostData: CostAnalysis.CostResponse)
    returns (result: Result<seq<SizingRecommendation>, CostAnalysis.ShapeError>)
    ensures result.Ok? <==> CostAnalysis.WellShaped(rawCostData)
    ensures result.Ok? ==>
      var rows := Preprocessing.Ec2Dataset(Ec2Client.Listing(regions, describe), cloudwatch);
      && result.value != []
      && ((forall row :: row in rows ==> !Running(row)) ==> result.value == [DemoRecommendation])
      && ((exists row :: row in rows && Running(row)) ==> result.value == SizeRunning(rows))
  {
    var datasets := Preprocessing.BuildUnifiedDataset(regions, describe, cloudwatch, rawCostData);
    match datasets
    case Err(e) => result := Err(e);
    case Ok(unified) =>
      var recommendations := Analyze(unified.ec2Metrics);
      result := Ok(recommendations);
  }
}
