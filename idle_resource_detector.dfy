/** Model of the idle resource detector: a first-match-wins rule chain that
    gives every row of the EC2 metrics table one of four actions. */
module IdleResourceDetector {
  import opened Wrappers
  import Ec2Client
  import CostAnalysis
  import Preprocessing

  /** CPU percentage below which a non-stopped instance is idle. */
  const CpuIdleThreshold: real := 5.0
  /** CPU percentage below which a non-stopped instance is underutilized. */
  const CpuUnderutilized: real := 20.0

  datatype Action = Terminate | Stop | Rightsize | KeepRunning

  /** The reason texts; the two that quote the observed CPU carry it. */
  datatype Reason = StoppedButStorageBilled | IdleCpu(cpu: real) | ModerateCpu(cpu: real) | UtilizationHealthy

  datatype Recommendation = Recommendation(instanceId: string, state: string, avgCpuPercent: real,
                                           recommendedAction: Action, reason: Reason)

  /** The rule chain, first match wins: a stopped instance is terminated,
      then CPU below 5 stops, CPU below 20 rightsizes, anything else keeps
      running. Each action is chosen under exactly the conditions below. */
  function Decide(state: string, cpu: real): (decision: (Action, Reason))
    ensures decision.0 == Terminate <==> state == "stopped"
    ensures decision.0 == Stop <==> state != "stopped" && cpu < CpuIdleThreshold
    ensures decision.0 == Rightsize <==> state != "stopped" && CpuIdleThreshold <= cpu < CpuUnderutilized
    ensures decision.0 == KeepRunning <==> state != "stopped" && cpu >= CpuUnderutilized
    ensures decision.1 == match decision.0
      case Terminate => StoppedButStorageBilled
      case Stop => IdleCpu(cpu)
      case Rightsize => ModerateCpu(cpu)
      case KeepRunning => UtilizationHealthy
  {
    if state == "stopped" then (Terminate, StoppedButStorageBilled)
    else if cpu < CpuIdleThreshold then (Stop, IdleCpu(cpu))
    else if cpu < CpuUnderutilized then (Rightsize, ModerateCpu(cpu))
    else (KeepRunning, UtilizationHealthy)
  }

  /** The record produced for one row: id, state and CPU copied unchanged. */
  function Recommend(row: Preprocessing.Ec2Metric): (rec: Recommendation)
    ensures rec.instanceId == row.instanceId && rec.state == row.state && rec.avgCpuPercent == row.avgCpuPercent
    ensures (rec.recommendedAction, rec.reason) == Decide(row.state, row.avgCpuPercent)
  {
    var (action, reason) := Decide(row.state, row.avgCpuPercent);
    Recommendation(row.instanceId, row.state, row.avgCpuPercent, action, reason)
  }

  /** How aggressive an action is: terminating is the most aggressive,
      keeping running the least. */
  function Severity(action: Action): nat {
    match action
    case Terminate => 3
    case Stop => 2
    case Rightsize => 1
    case KeepRunning => 0
  }

  /** For instances in the same state, more CPU never yields a more aggressive action. */
  lemma MoreCpuNeverMoreAggressive(state: string, cpu: real, cpu': real)
    requires cpu <= cpu'
    ensures Severity(Decide(state, cpu').0) <= Severity(Decide(state, cpu).0)
  {
  }

  /** `IdleResourceDetector.analyze` on the `ec2_metrics` table: exactly one
      record per row, in row order. */
  method Analyze(ec2Metrics: seq<Preprocessing.Ec2Metric>) returns (recommendations: seq<Recommendation>)
    ensures |recommendations| == |ec2Metrics|
    ensures forall k :: 0 <= k < |ec2Metrics| ==> recommendations[k] == Recommend(ec2Metrics[k])
  {
    recommendations := [];
    for k := 0 to |ec2Metrics|
      invariant |recommendations| == k
      invariant forall j :: 0 <= j < k ==> recommendations[j] == Recommend(ec2Metrics[j])
    {
      var row := ec2Metrics[k];
      var instanceId, state, cpu := row.instanceId, row.state, row.avgCpuPercent;
      var action, reason;
      if state == "stopped" {
        action, reason := Terminate, StoppedButStorageBilled;
      } else if cpu < CpuIdleThreshold {
        action, reason := Stop, IdleCpu(cpu);
      } else if cpu < CpuUnderutilized {
        action, reason := Rightsize, ModerateCpu(cpu);
      } else {
        action, reason := KeepRunning, UtilizationHealthy;
      }
      recommendations := recommendations + [Recommendation(instanceId, state, cpu, action, reason)];
    }
  }

  /** The whole of `IdleResourceDetector.analyze`: the unified dataset is
      built first, so a billing response with a keyless group makes the
      analysis fail; otherwise the EC2 table is classified row by row. */
  method AnalyzeFromSources(regions: seq<string>, describe: string -> Ec2Client.DescribeResponse,
                            cloudwatch: (string, string) -> seq<real>, rawCostData: CostAnalysis.CostResponse)
    returns (result: Result<seq<Recommendation>, CostAnalysis.ShapeError>)
    ensures result.Ok? <==> CostAnalysis.WellShaped(rawCostData)
    ensures result.Ok? ==>
      var rows := Preprocessing.Ec2Dataset(Ec2Client.Listing(regions, describe), cloudwatch);
      && |result.value| == |rows|
      && forall k :: 0 <= k < |rows| ==> result.value[k] == Recommend(rows[k])
  {
    var datasets := Preprocessing.BuildUnifiedDataset(regions, describe, cloudwatch, rawCostData);
    match datasets
    case Err(e) => result := Err(e);
    case Ok(unified) =>
      var recommendations := Analyze(unified.ec2Metrics);
      result := Ok(recommendations);
  }
}
