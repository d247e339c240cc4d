/** How the components fit together: the EC2 table feeds both classifiers,
    the idle recommendations feed the savings estimator, and the default
    region configuration fixes where every row comes from. */
module Pipeline {
  import opened Wrappers
  import Ec2Client
  import CostAnalysis
  import Preprocessing
  import IdleResourceDetector
  import Rightsizing
  import SavingsRecommendations

  /** The two classifiers agree on a running instance: the idle detector
      stops or rightsizes it exactly when rightsizing would downsize it. */
  lemma ClassifiersAgreeOnRunning(row: Preprocessing.Ec2Metric)
    requires Rightsizing.Running(row)
    ensures (IdleResourceDetector.Recommend(row).recommendedAction in {IdleResourceDetector.Stop, IdleResourceDetector.Rightsize})
            <==> Rightsizing.Size(row).rightsizingAction == Rightsizing.DownsizeInstance
    ensures IdleResourceDetector.Recommend(row).recommendedAction == IdleResourceDetector.KeepRunning
            <==> Rightsizing.Size(row).rightsizingAction != Rightsizing.DownsizeInstance
  {
  }

  /** Priced as a t2.micro, a stopped instance saves its whole 8.352 a month,
      and an instance at 20% CPU or more saves nothing. */
  lemma SavingsOfRow(row: Preprocessing.Ec2Metric)
    ensures row.state == "stopped" ==>
      SavingsRecommendations.PriceRecommendation(IdleResourceDetector.Recommend(row)).estimatedMonthlySavingsUsd == 8.352
    ensures row.state != "stopped" && row.avgCpuPercent >= IdleResourceDetector.CpuUnderutilized ==>
      SavingsRecommendations.PriceRecommendation(IdleResourceDetector.Recommend(row)).estimatedMonthlySavingsUsd == 0.0
  {
    SavingsRecommendations.PricedRecord(IdleResourceDetector.Recommend(row));
  }

  /** With no region configuration every EC2 row comes from ap-south-1. */
  lemma DefaultRegionOnly(describe: string -> Ec2Client.DescribeResponse, cloudwatch: (string, string) -> seq<real>)
    ensures forall row :: row in Preprocessing.Ec2Dataset(Ec2Client.Listing(Ec2Client.ConfiguredRegions(None), describe), cloudwatch)
              ==> row.region == "ap-south-1"
  {
    Ec2Client.DefaultRegions();
    Preprocessing.DatasetCoversListing(Ec2Client.ConfiguredRegions(None), describe, cloudwatch);
  }

  /** A stopped instance and a running one at 3% CPU: the idle detector
      terminates the first and stops the second; rightsizing sizes only the
      running one, and downsizes it. */
  lemma TwoInstanceScenario()
    ensures var rows := [Preprocessing.Ec2Metric("i-1", "t2.micro", "stopped", "ap-south-1", 0.0),
                         Preprocessing.Ec2Metric("i-2", "t2.micro", "running", "ap-south-1", 3.0)];
      && IdleResourceDetector.Recommend(rows[0]).recommendedAction == IdleResourceDetector.Terminate
      && IdleResourceDetector.Recommend(rows[1]).recommendedAction == IdleResourceDetector.Stop
      && Rightsizing.SizeRunning(rows) == [Rightsizing.SizingRecommendation("i-2", 3.0, Rightsizing.DownsizeInstance, Rightsizing.LowCpu(3.0))]
  {
  }

  /** The response of the billing scenario: one time block with the groups
      EC2 10, EC2 5 and S3 2. */
  function BillingResponse(): CostAnalysis.CostResponse {
    CostAnalysis.CostResponse(Some([CostAnalysis.TimeBlock(Some([
      CostAnalysis.Group(["EC2"], 10.0), CostAnalysis.Group(["EC2"], 5.0), CostAnalysis.Group(["S3"], 2.0)]))]))
  }

  lemma BillingLines()
    ensures CostAnalysis.WellShaped(BillingResponse())
    ensures CostAnalysis.Lines(BillingResponse())
            == [CostAnalysis.ServiceCost("EC2", 10.0), CostAnalysis.ServiceCost("EC2", 5.0), CostAnalysis.ServiceCost("S3", 2.0)]
  {
    var ec2a, ec2b, s3 := CostAnalysis.Group(["EC2"], 10.0), CostAnalysis.Group(["EC2"], 5.0), CostAnalysis.Group(["S3"], 2.0);
    var groups := [ec2a, ec2b, s3];
    var block := CostAnalysis.TimeBlock(Some(groups));
    assert CostAnalysis.KeyedGroups(groups);
    assert groups[..2] == [ec2a, ec2b] && [ec2a, ec2b][..1] == [ec2a] && [ec2a][..0] == [];
    assert CostAnalysis.GroupLines([ec2a]) == [CostAnalysis.LineOf(ec2a)];
    assert CostAnalysis.GroupLines([ec2a, ec2b]) == [CostAnalysis.LineOf(ec2a), CostAnalysis.LineOf(ec2b)];
    assert [block][..0] == [];
  }

  lemma BillingTable()
    ensures CostAnalysis.Aggregate([CostAnalysis.ServiceCost("EC2", 10.0), CostAnalysis.ServiceCost("EC2", 5.0), CostAnalysis.ServiceCost("S3", 2.0)])
            == [CostAnalysis.ServiceCost("EC2", 15.0), CostAnalysis.ServiceCost("S3", 2.0)]
  {
    var lines := [CostAnalysis.ServiceCost("EC2", 10.0), CostAnalysis.ServiceCost("EC2", 5.0), CostAnalysis.ServiceCost("S3", 2.0)];
    var table := [CostAnalysis.ServiceCost("EC2", 15.0), CostAnalysis.ServiceCost("S3", 2.0)];
    assert lines[..2] == [lines[0], lines[1]] && [lines[0], lines[1]][..1] == [lines[0]] && [lines[0]][..0] == [];
    assert CostAnalysis.GroupSum([lines[0]]) == [lines[0]];
    assert CostAnalysis.AddLine([lines[0]], lines[1]) == [table[0]];
    assert CostAnalysis.GroupSum(lines[..2]) == [table[0]];
    assert "EC2" != "S3" by { assert "EC2"[0] != "S3"[0]; }
    assert CostAnalysis.AddLine([table[0]], lines[2]) == table;
    assert CostAnalysis.GroupSum(lines) == table;
    assert table[1..] == [table[1]] && [table[1]][1..] == [];
  }

  /** Groups EC2 10, EC2 5 and S3 2 give the table [EC2 15, S3 2] and the total 17. */
  lemma BillingScenario()
    ensures CostAnalysis.ServiceCosts(BillingResponse()) == Ok([CostAnalysis.ServiceCost("EC2", 15.0), CostAnalysis.ServiceCost("S3", 2.0)])
    ensures CostAnalysis.GetTotalCost(BillingResponse()) == Ok(17.0)
  {
    BillingLines();
    BillingTable();
  }
}
