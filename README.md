# AWS Cost Optimization Dashboard — recommendation pipeline in Dafny

This project models the recommendation pipeline of the AWS Cost
Optimization Dashboard and proves properties of it.

- **EC2 client.** It reads the configured regions from `TARGET_REGIONS`,
  lists the instances of every region, and averages an instance's
  CloudWatch CPU samples.
- **Cost analyzer.** It flattens a Cost Explorer response into
  (service, amount) records, sums them per service, and sorts the table by
  cost, most expensive first. It also gives the total and the top N
  services.
- **Data preprocessor.** It builds the EC2 metrics table and the service
  cost table.
- **Idle resource detector.** A rule chain that gives every instance one of
  Terminate, Stop, Rightsize or Keep Running.
- **Rightsizing analyzer.** It sizes running instances into three CPU bands.
  When no instance is running, it returns a single demonstration record.
- **Savings estimator.** It prices every idle recommendation at a static
  hourly rate over a 720-hour month.
- **Budget monitor.** It sends one alert when a total cost is strictly above
  its threshold.

One Dafny module per source file:

| file | module | source |
|---|---|---|
| `wrappers.dfy` | `Wrappers` | `Option` and `Result` |
| `ec2_client.dfy` | `Ec2Client` | `data_source/ec2_client.py` |
| `cost_analysis.dfy` | `CostAnalysis` | `data_processing/cost_analysis.py` |
| `preprocessing.dfy` | `Preprocessing` | `data_processing/preprocessing.py` |
| `idle_resource_detector.dfy` | `IdleResourceDetector` | `optimization_engine/idle_resource_detector.py` |
| `rightsizing.dfy` | `Rightsizing` | `optimization_engine/rightsizing.py` |
| `savings_recommendations.dfy` | `SavingsRecommendations` | `optimization_engine/savings_recommendations.py` |
| `budget_monitor.dfy` | `BudgetAlerts` | `alerts/budget_alerts/budget_monitor.py` |
| `pipeline.dfy` | `Pipeline` | properties that span several components |

The AWS calls are parameters of the model:

- `describe_instances` for a region is a function `describe: string -> DescribeResponse`.
- CloudWatch's one-hour sample list for an (instance, region) pair is a
  function `cloudwatch: (string, string) -> seq<real>`.
- The Cost Explorer response is a `CostResponse` value.
- The `TARGET_REGIONS` variable is an `Option<string>`.

The source's loops become methods with loop invariants. Each method is
proved equal to a specification function, and the lemmas are proved about
those functions. pandas tables are sequences of records, and money and CPU
values are `real`.

A Cost Explorer group whose `Keys` list is empty makes `group["Keys"][0]`
raise. The model turns this into the error value `Err(MissingServiceKey)`.
The error passes to `build_cost_dataset` and `build_unified_dataset`. Both
classifiers call `build_unified_dataset`, and the savings estimator calls
the idle classifier, so all three fail with it too.

## Model

| member | source | states |
|---|---|---|
| `Ec2Client.ConfiguredRegions` | data_source/ec2_client.py:10-13 | region k is the k-th comma-separated piece of `TARGET_REGIONS` (default `ap-south-1`), stripped; there is one region per piece; no region contains a comma or has surrounding whitespace |
| `Ec2Client.StripPadded` | data_source/ec2_client.py:13 | stripping a word padded with whitespace on both sides gives the word |
| `Ec2Client.ConfiguredRegionsOfPaddedJoin` | data_source/ec2_client.py:12-13 | region names written with whitespace around the commas (`"ap-south-1, us-east-1"`) configure the bare names |
| `Ec2Client.DefaultRegions` | data_source/ec2_client.py:12 | without the variable, the region list is exactly `["ap-south-1"]` |
| `Ec2Client.ConfiguredRegionsOfJoin` | data_source/ec2_client.py:12-13 | joining stripped, comma-free region names with commas and reading them back gives the same list |
| `Ec2Client.Split` | data_source/ec2_client.py:13 | `str.split(",")` yields at least one piece |
| `Ec2Client.JoinSplit` | data_source/ec2_client.py:13 | joining the pieces of a split with the separator restores the original string |
| `Ec2Client.SplitJoin` | data_source/ec2_client.py:13 | splitting a join of separator-free pieces gives those pieces back |
| `Ec2Client.SplitPiecesSeparatorFree` | data_source/ec2_client.py:13 | no piece of a split contains the separator |
| `Ec2Client.SplitCount` | data_source/ec2_client.py:13 | a split has one more piece than the string has separators |
| `Ec2Client.SplitNoSeparator` | data_source/ec2_client.py:13 | a string without the separator splits into itself alone |
| `Ec2Client.SplitAfterPiece` | data_source/ec2_client.py:13 | a separator-free prefix followed by the separator becomes the first piece |
| `Ec2Client.LeadingSpaces` | data_source/ec2_client.py:13 | the length of the longest all-whitespace prefix |
| `Ec2Client.TrailingSpaces` | data_source/ec2_client.py:13 | the length of the longest all-whitespace suffix |
| `Ec2Client.Strip` | data_source/ec2_client.py:13 | `str.strip()`: the result is a contiguous slice with no whitespace at either end; every character removed is whitespace; an already stripped string is unchanged |
| `Ec2Client.StripIsInfix` | data_source/ec2_client.py:13 | stripping never introduces a character |
| `Ec2Client.SummarizeAll` | data_source/ec2_client.py:27-34 | one summary per instance, in order; each summary is tagged with the queried region and keeps the instance's id, type, state and launch time |
| `Ec2Client.ReservationsListingExact` | data_source/ec2_client.py:26-34 | a region's listing has one entry per instance of its reservations; each entry comes from one of those instances, and every instance is listed |
| `Ec2Client.ListingExact` | data_source/ec2_client.py:15-36 | the listing has one entry per instance over all configured regions; each entry is tagged with a configured region and comes from that region's response; no instance is missed |
| `Ec2Client.ReservationsListing` | data_source/ec2_client.py:26-34 | a region's listing has as many entries as its reservations have instances |
| `Ec2Client.Listing` | data_source/ec2_client.py:15-36 | what `list_instances` returns has as many entries as all configured regions have instances |
| `Ec2Client.RegionInstances` | data_source/ec2_client.py:24-34 | the nested reservation/instance loop for one region computes that region's listing |
| `Ec2Client.ListInstances` | data_source/ec2_client.py:15-36 | `list_instances` computes the listing of all configured regions, region by region |
| `Ec2Client.Min` | data_source/ec2_client.py:67 | the smallest CPU sample: present in the list and at most every sample |
| `Ec2Client.Max` | data_source/ec2_client.py:67 | the largest CPU sample: present in the list and at least every sample |
| `Ec2Client.SumBetween` | data_source/ec2_client.py:67 | the sum of n samples that all lie in [lo, hi] lies in [n*lo, n*hi] |
| `Ec2Client.MeanBetween` | data_source/ec2_client.py:67 | a total within [n*lo, n*hi] divided by n lies within [lo, hi] |
| `Ec2Client.MeanOfSamples` | data_source/ec2_client.py:67 | the mean of non-empty samples within [lo, hi] lies within [lo, hi] |
| `Ec2Client.AverageCpuUtilization` | data_source/ec2_client.py:62-68 | no samples gives 0; otherwise the average lies between the smallest and the largest sample |
| `CostAnalysis.WellShaped` | data_processing/cost_analysis.py:26-31 | the response can be read exactly when every group of every time block has a service key (`group["Keys"][0]`) |
| `CostAnalysis.GroupLines` | data_processing/cost_analysis.py:30-41 | one block's groups give one record each |
| `CostAnalysis.GroupLinesExact` | data_processing/cost_analysis.py:30-41 | record k of a block is the service and amount of its group k |
| `CostAnalysis.BlockLines` | data_processing/cost_analysis.py:28-41 | the blocks give as many records as they have groups in total |
| `CostAnalysis.BlockLinesExact` | data_processing/cost_analysis.py:28-41 | every record is the service and amount of some group of some block, and every group of every block contributes its record |
| `CostAnalysis.Lines` | data_processing/cost_analysis.py:24-41 | the records of a readable response number as many as its groups |
| `CostAnalysis.LinesExact` | data_processing/cost_analysis.py:24-41 | the records of a readable response are exactly one per group: their count is the total number of groups, every record is the service and amount of some group, and every group contributes its record |
| `CostAnalysis.SumCosts` | data_processing/cost_analysis.py:65 | `df["cost_usd"].sum()`: an empty table sums to 0, a one-row table to that row's cost |
| `CostAnalysis.SumCostsNonNegative` | data_processing/cost_analysis.py:65 | a table without negative amounts has a non-negative total |
| `CostAnalysis.SumCostsAppend` | data_processing/cost_analysis.py:65 | appending a row adds its cost to the table total |
| `CostAnalysis.CostOfDistinct` | data_processing/cost_analysis.py:49-51 | in a table without repeated services, looking up a row's service gives that row's cost |
| `CostAnalysis.AddLineServices` | data_processing/cost_analysis.py:50-51 | folding a record into the grouped table adds exactly its service |
| `CostAnalysis.AddLineCost` | data_processing/cost_analysis.py:50-51 | folding a record adds its amount to its own service and leaves every other service's cost alone |
| `CostAnalysis.AddLineSum` | data_processing/cost_analysis.py:50-51 | folding a record adds its amount to the table total |
| `CostAnalysis.AddLineDistinct` | data_processing/cost_analysis.py:50-51 | folding keeps the table free of repeated services |
| `CostAnalysis.AddLineNew` | data_processing/cost_analysis.py:50-51 | a record of a service not yet in the table is appended as a new row |
| `CostAnalysis.GroupSum` | data_processing/cost_analysis.py:50-51 | `groupby("service").sum()` never repeats a service |
| `CostAnalysis.GroupSumExact` | data_processing/cost_analysis.py:50-51 | `groupby("service").sum()` gives one row per service that occurs in the records, each holding the sum of that service's amounts; the grand total is unchanged |
| `CostAnalysis.GroupSumOfDistinct` | data_processing/cost_analysis.py:50-51 | grouping records whose services are already distinct changes nothing, in the model's order |
| `CostAnalysis.Insert` | data_processing/cost_analysis.py:52 | inserting a row into a table gives a permutation of the table plus that row |
| `CostAnalysis.SortByCostDesc` | data_processing/cost_analysis.py:52 | sorting gives a permutation of its input |
| `CostAnalysis.InsertSorted` | data_processing/cost_analysis.py:52 | inserting into a table sorted by descending cost keeps it sorted |
| `CostAnalysis.InsertSum` | data_processing/cost_analysis.py:52 | inserting adds the row's cost to the total |
| `CostAnalysis.InsertDistinct` | data_processing/cost_analysis.py:52 | inserting a new service keeps services distinct |
| `CostAnalysis.SortExact` | data_processing/cost_analysis.py:52 | `sort_values("cost_usd", ascending=False)` yields descending costs, keeps the total, and keeps services distinct |
| `CostAnalysis.SortOfSorted` | data_processing/cost_analysis.py:52 | sorting an already sorted table changes nothing, in the model's order |
| `CostAnalysis.Aggregate` | data_processing/cost_analysis.py:48-53 | the aggregated table repeats no service and is sorted by descending cost |
| `CostAnalysis.AggregateExact` | data_processing/cost_analysis.py:48-53 | the service table has no repeated service, covers exactly the services of the records, gives each service the sum of its amounts, is sorted by descending cost, and keeps the grand total |
| `CostAnalysis.AggregateIdempotent` | data_processing/cost_analysis.py:48-53 | aggregating an aggregated table changes nothing, in the model's order |
| `CostAnalysis.ServiceCosts` | data_processing/cost_analysis.py:16-55 | what `extract_service_costs` gives: it fails exactly when a group has no keys; otherwise the table repeats no service, is sorted by descending cost, and keeps the total of the records |
| `CostAnalysis.ExtractServiceCosts` | data_processing/cost_analysis.py:16-55 | the record-building loop over time blocks and groups fails exactly on a group without keys, and otherwise returns the aggregated table (empty when there are no records) |
| `CostAnalysis.NoGroupsGivesEmptyTable` | data_processing/cost_analysis.py:26-29 | a response with no groups (missing `ResultsByTime` or `Groups` included) gives an empty table and a total of 0 |
| `CostAnalysis.BlockLinesEmpty` | data_processing/cost_analysis.py:28-41 | blocks without groups contribute no records |
| `CostAnalysis.GetTotalCost` | data_processing/cost_analysis.py:57-65 | fails exactly when extraction fails; otherwise it is the sum of all record amounts |
| `CostAnalysis.HeadCount` | data_processing/cost_analysis.py:72 | `head(n)` keeps n rows when 0 <= n <= length, all rows when n is larger, and all but the last -n rows (at least none) when n is negative |
| `CostAnalysis.DefaultTopServices` | data_processing/cost_analysis.py:67-72 | without `top_n`, the five most expensive services, or all of them when there are fewer |
| `CostAnalysis.GetTopServices` | data_processing/cost_analysis.py:67-72 | fails exactly when extraction fails; otherwise it is the first `head(n)` rows of the service table, and no excluded service costs more than a kept one |
| `Preprocessing.MetricRow` | data_processing/preprocessing.py:31-46 | the row copies id, type, state and region; its CPU is 0 without samples, otherwise between the smallest and the largest sample fetched for that id in that region |
| `Preprocessing.Ec2Dataset` | data_processing/preprocessing.py:29-49 | one row per listed instance |
| `Preprocessing.Ec2DatasetRows` | data_processing/preprocessing.py:29-47 | one row per listed instance, in order; id, type, state and region are copied, and the CPU is the average of the samples of that instance in its own region |
| `Preprocessing.BuildEc2Dataset` | data_processing/preprocessing.py:19-49 | `build_ec2_dataset` computes the EC2 table of the listing of all configured regions |
| `Preprocessing.DatasetCoversListing` | data_processing/preprocessing.py:19-49 | the EC2 table has one row per instance of every configured region, and every row's region is configured |
| `Preprocessing.BuildCostDataset` | data_processing/preprocessing.py:51-59 | `build_cost_dataset` is the analyzer's service table: no service twice, sorted by descending cost |
| `Preprocessing.BuildUnifiedDataset` | data_processing/preprocessing.py:61-71 | both tables, built from the same inputs; it fails exactly when the billing response is malformed |
| `IdleResourceDetector.Decide` | optimization_engine/idle_resource_detector.py:33-47 | Terminate iff stopped; Stop iff not stopped and CPU < 5; Rightsize iff not stopped and 5 <= CPU < 20; Keep Running iff not stopped and CPU >= 20; each action with its own reason |
| `IdleResourceDetector.Recommend` | optimization_engine/idle_resource_detector.py:49-55 | the record copies id, state and CPU, and carries the rule chain's action and reason |
| `IdleResourceDetector.MoreCpuNeverMoreAggressive` | optimization_engine/idle_resource_detector.py:33-47 | for the same state, more CPU never yields a more aggressive action |
| `IdleResourceDetector.Analyze` | optimization_engine/idle_resource_detector.py:25-57 | exactly one recommendation per EC2 row, in row order |
| `IdleResourceDetector.AnalyzeFromSources` | optimization_engine/idle_resource_detector.py:18-57 | `analyze` as a whole: fails exactly when the billing response is malformed; otherwise one recommendation per row of the EC2 table built from the sources, in order |
| `Rightsizing.Band` | optimization_engine/rightsizing.py:36-46 | Downsize iff CPU < 20; Upsize iff CPU > 60; Keep Size iff 20 <= CPU <= 60; each with its own reason |
| `Rightsizing.Size` | optimization_engine/rightsizing.py:36-53 | the record copies id and CPU, and carries the band's action and reason |
| `Rightsizing.RunningRows` | optimization_engine/rightsizing.py:29-34 | the filter keeps no more rows than it is given, and every row it keeps is running |
| `Rightsizing.SizeRunning` | optimization_engine/rightsizing.py:29-53 | the loop makes at most one record per row |
| `Rightsizing.RunningRowsMembers` | optimization_engine/rightsizing.py:33-34 | the filter keeps exactly the rows in state `running` |
| `Rightsizing.RunningRowsAppend` | optimization_engine/rightsizing.py:29-34 | filtering distributes over concatenation, so row order is kept |
| `Rightsizing.SizeRunningIsSizedFilter` | optimization_engine/rightsizing.py:29-53 | the loop's records are the sized running rows, one each, in order |
| `Rightsizing.SizeRunningEmpty` | optimization_engine/rightsizing.py:29-55 | the loop produces no record iff no row is running |
| `Rightsizing.Analyze` | optimization_engine/rightsizing.py:27-69 | the result is never empty; with no running row it is exactly the demonstration record; otherwise it is the sized running rows |
| `Rightsizing.AnalyzeFromSources` | optimization_engine/rightsizing.py:23-69 | `analyze` as a whole: fails exactly when the billing response is malformed; otherwise the result for the EC2 table built from the sources, as `Analyze` states |
| `SavingsRecommendations.HourlyPrice` | optimization_engine/savings_recommendations.py:12-16 | a listed type's table price, never negative; 0 for an unknown type |
| `SavingsRecommendations.MonthlyCost` | optimization_engine/savings_recommendations.py:18 | a listed type's hourly price times 720 hours; never negative; 0 for an unknown type |
| `SavingsRecommendations.EstimatedSavings` | optimization_engine/savings_recommendations.py:38-43 | between 0 and the monthly cost; all of it for Terminate and Stop, half for Rightsize, nothing for Keep Running |
| `SavingsRecommendations.PriceRecommendation` | optimization_engine/savings_recommendations.py:32-50 | the record keeps id and action, costs the assumed type's monthly cost, saves the amount the action's savings rule gives for that cost, and saves between 0 and that cost |
| `SavingsRecommendations.PricedRecord` | optimization_engine/savings_recommendations.py:31-50 | every record keeps id and action and costs 8.352 a month whatever the instance, because every row is priced as a t2.micro; the saving is between 0 and the cost |
| `SavingsRecommendations.Estimate` | optimization_engine/savings_recommendations.py:29-52 | one priced record per recommendation, in order |
| `SavingsRecommendations.EstimateFromSources` | optimization_engine/savings_recommendations.py:23-52 | `estimate` as a whole: fails exactly when the billing response is malformed; otherwise one priced record per EC2 row, priced from that row's idle recommendation |
| `BudgetAlerts.AlertsFor` | alerts/budget_alerts/budget_monitor.py:17-32 | one alert iff the total is strictly above the threshold; it has the fixed subject and states region, total, threshold and the recommendation |
| `BudgetAlerts.ThresholdIsStrict` | alerts/budget_alerts/budget_monitor.py:17 | a total equal to the threshold raises no alert; a cent more raises one |
| `BudgetAlerts.BudgetMonitor.constructor` | alerts/budget_alerts/budget_monitor.py:9-11 | the threshold is the given amount, and no alert has been sent |
| `BudgetAlerts.BudgetMonitor.WithDefaultThreshold` | alerts/budget_alerts/budget_monitor.py:9-11 | the threshold defaults to 100 |
| `BudgetAlerts.BudgetMonitor.EvaluateCost` | alerts/budget_alerts/budget_monitor.py:13-32 | the threshold is unchanged; the sent-alert log grows by exactly the alerts for this evaluation |
| `Pipeline.ClassifiersAgreeOnRunning` | optimization_engine/rightsizing.py:36-46 | for a running instance, the idle detector stops or rightsizes exactly when rightsizing downsizes |
| `Pipeline.SavingsOfRow` | optimization_engine/savings_recommendations.py:38-43 | a stopped instance saves 8.352 a month; an instance at 20% CPU or more saves nothing |
| `Pipeline.DefaultRegionOnly` | data_source/ec2_client.py:12 | without region configuration, every EC2 row comes from `ap-south-1` |
| `Pipeline.TwoInstanceScenario` | optimization_engine/idle_resource_detector.py:33-47 | a stopped instance is terminated and a running one at 3% is stopped; rightsizing records only the running one, as Downsize |
| `Pipeline.BillingLines` | data_processing/cost_analysis.py:28-41 | groups EC2 10, EC2 5 and S3 2 flatten into those three records |
| `Pipeline.BillingTable` | data_processing/cost_analysis.py:48-53 | those records aggregate to [EC2 15, S3 2] |
| `Pipeline.BillingScenario` | data_processing/cost_analysis.py:16-65 | that response gives the table [EC2 15, S3 2] and the total 17 |

## Left out

- The calls to boto3 (EC2, CloudWatch, Cost Explorer) are left out. So are
  `load_dotenv`, the clock and the one-hour window. The model takes their
  results as parameters.
- The Cost Explorer client, the notifier and the dashboard are not part of
  this model.
- Rounding is not modelled: `round(avg_cpu, 2)`, `round(..., 6)` of the
  total, and `round(..., 2)` of the savings columns. Values are exact reals.
  Because the classifiers compare the rounded average, a mean within 0.005
  of a threshold can land in a different band: a mean of 4.996 is below 5
  here and the idle detector stops the instance, while the source rounds it
  to 5.0 and recommends rightsizing; likewise a mean of 60.004 is an upsize
  here but 60.0, no action, in the source (the 20 bound behaves the same).
- Reading `Metrics.UnblendedCost.Amount` with `float()` is not modelled: a
  group carries its amount as a number already.
- A missing key in an AWS response is not modelled. In the source it
  raises a `KeyError`. The keys are `Keys`, `Metrics`, `UnblendedCost` and
  `Amount` of a cost group; `Reservations`, `Instances`, `InstanceId`,
  `InstanceType`, `State`, `State.Name` and `LaunchTime` of a
  DescribeInstances response; and `Datapoints` and each datapoint's
  `Average` of a CloudWatch response. The model's records always carry
  these fields. Only an empty `Keys` list is modelled, as the error above.
- The reason texts are modelled as `Reason` / `SizingReason` values. Those
  values carry the CPU that the text quotes. The f-string rendering of a
  float is left out.
- The alert message is modelled by the facts it states (`AlertBody`), not
  by its text. The "within budget" console message is left out. So is a
  failure of the notifier, which the notifier itself catches.
- `Ec2Client.IsSpace`: whitespace is the set Python's `str.strip()` removes
  within Latin-1. Wider Unicode spaces (such as U+2000–U+200A and U+3000)
  are not modelled.
- `CostAnalysis.AggregateExact`: the order of services with equal cost is
  not specified. pandas groups by sorted service name and then sorts by
  cost with an unstable sort. The model groups in order of first
  appearance and uses a stable insertion sort. Every stated property holds
  for either order.
- `CostAnalysis.GetTopServices`: which of several equally costly services
  `head(n)` keeps at the boundary follows the tie order above.
- `Ec2Client.AverageCpuUtilization` is bounded by the smallest and the
  largest sample. The model does not state that the sample sum equals the
  mean times the count.
- `SavingsRecommendations.Estimate` prices every row as a `t2.micro`. This
  is what the source does (`savings_recommendations.py:32`), even though
  the EC2 table carries the real instance type.
- `IdleResourceDetector.Analyze`, `Rightsizing.Analyze` and
  `SavingsRecommendations.Estimate` model only the loops of the source
  methods. They take the table as input and cannot fail. The whole source
  methods are modelled as `IdleResourceDetector.AnalyzeFromSources`,
  `Rightsizing.AnalyzeFromSources` and
  `SavingsRecommendations.EstimateFromSources`. Those build the unified
  dataset first and fail with the billing response's error.
