/** Model of the cost analyzer: a Cost Explorer response grouped by service is
    flattened into (service, amount) records, which are summed per service and
    sorted by cost, most expensive first. */
module CostAnalysis {
  import opened Wrappers

  /** One group of a time block: its group keys (the first is the service
      name) and its UnblendedCost amount, already read as a number. */
  datatype Group = Group(keys: seq<string>, amount: real)

  /** One entry of ResultsByTime; `Groups` may be absent. */
  datatype TimeBlock = TimeBlock(groups: Option<seq<Group>>)

  /** The part of a GetCostAndUsage response the analyzer reads; `ResultsByTime` may be absent. */
  datatype CostResponse = CostResponse(resultsByTime: Option<seq<TimeBlock>>)

  /** One row of the service cost table (and of the flattened records before grouping). */
  datatype ServiceCost = ServiceCost(service: string, costUsd: real)

  /** Reading the service name of a group whose `Keys` list is empty fails. */
  datatype ShapeError = MissingServiceKey

  function Blocks(response: CostResponse): seq<TimeBlock> {
    response.resultsByTime.GetOr([])
  }

  function GroupsOf(block: TimeBlock): seq<Group> {
    block.groups.GetOr([])
  }

  predicate KeyedGroups(groups: seq<Group>) {
    forall j :: 0 <= j < |groups| ==> groups[j].keys != []
  }

  predicate KeyedBlocks(blocks: seq<TimeBlock>) {
    forall i :: 0 <= i < |blocks| ==> KeyedGroups(GroupsOf(blocks[i]))
  }

  /** True when every group of the response names a service. */
  predicate WellShaped(response: CostResponse)
    ensures WellShaped(response) <==>
      forall b, g :: b in Blocks(response) && g in GroupsOf(b) ==> g.keys != []
  {
    KeyedBlocks(Blocks(response))
  }

  /** The number of groups across all blocks. */
  function GroupCount(blocks: seq<TimeBlock>): nat {
    if blocks == [] then 0
    else GroupCount(blocks[..|blocks| - 1]) + |GroupsOf(blocks[|blocks| - 1])|
  }

  function LineOf(g: Group): ServiceCost
    requires g.keys != []
  {
    ServiceCost(g.keys[0], g.amount)
  }

  /** The records the groups of one block contribute, in order. */
  function GroupLines(groups: seq<Group>): (lines: seq<ServiceCost>)
    requires KeyedGroups(groups)
    ensures |lines| == |groups|
  {
    if groups == [] then []
    else GroupLines(groups[..|groups| - 1]) + [LineOf(groups[|groups| - 1])]
  }

  /** The records of all blocks, block by block. */
  function BlockLines(blocks: seq<TimeBlock>): (lines: seq<ServiceCost>)
    requires KeyedBlocks(blocks)
    ensures |lines| == GroupCount(blocks)
  {
    if blocks == [] then []
    else BlockLines(blocks[..|blocks| - 1]) + GroupLines(GroupsOf(blocks[|blocks| - 1]))
  }

  /** The flattened records of a well-shaped response. */
  function Lines(response: CostResponse): (lines: seq<ServiceCost>)
    requires WellShaped(response)
    ensures |lines| == GroupCount(Blocks(response))
  {
    BlockLines(Blocks(response))
  }

  /** Record `k` of one block's lines is the record of group `k`. */
  lemma {:induction false} GroupLinesExact(groups: seq<Group>)
    requires KeyedGroups(groups)
    ensures forall k :: 0 <= k < |groups| ==> GroupLines(groups)[k] == LineOf(groups[k])
  {
    if groups != [] {
      var n := |groups| - 1;
      GroupLinesExact(groups[..n]);
      forall k | 0 <= k < |groups|
        ensures GroupLines(groups)[k] == LineOf(groups[k])
      {
        if k < n {
          assert groups[..n][k] == groups[k];
        }
      }
    }
  }

  /** The lines of a sequence of blocks are exactly the records of their
      groups: every record comes from some group of some block, and every
      group of every block contributes its record. */
  lemma {:induction false} BlockLinesExact(blocks: seq<TimeBlock>)
    requires KeyedBlocks(blocks)
    ensures forall l :: l in BlockLines(blocks) ==>
      exists i, j :: 0 <= i < |blocks| && 0 <= j < |GroupsOf(blocks[i])| &&
        l == LineOf(GroupsOf(blocks[i])[j])
    ensures forall i, j :: 0 <= i < |blocks| && 0 <= j < |GroupsOf(blocks[i])| ==>
      LineOf(GroupsOf(blocks[i])[j]) in BlockLines(blocks)
  {
    if blocks != [] {
      var n := |blocks| - 1;
      var prefix := blocks[..n];
      assert KeyedBlocks(prefix) by {
        forall i | 0 <= i < |prefix| ensures KeyedGroups(GroupsOf(prefix[i])) {
          assert prefix[i] == blocks[i];
        }
      }
      BlockLinesExact(prefix);
      var last := GroupsOf(blocks[n]);
      assert KeyedGroups(last);
      GroupLinesExact(last);
      assert BlockLines(blocks) == BlockLines(prefix) + GroupLines(last);
      forall l | l in BlockLines(blocks)
        ensures exists i, j ::
                  0 <= i < |blocks| && 0 <= j < |GroupsOf(blocks[i])| &&
                  l == LineOf(GroupsOf(blocks[i])[j])
      {
        if l in GroupLines(last) {
          var k :| 0 <= k < |last| && GroupLines(last)[k] == l;
          assert l == LineOf(GroupsOf(blocks[n])[k]);
        } else {
          assert l in BlockLines(prefix);
          var i, j :| 0 <= i < |prefix| && 0 <= j < |GroupsOf(prefix[i])| &&
            l == LineOf(GroupsOf(prefix[i])[j]);
          assert prefix[i] == blocks[i];
        }
      }
      forall i, j | 0 <= i < |blocks| && 0 <= j < |GroupsOf(blocks[i])|
        ensures LineOf(GroupsOf(blocks[i])[j]) in BlockLines(blocks)
      {
        if i == n {
          assert GroupLines(last)[j] == LineOf(GroupsOf(blocks[i])[j]);
        } else {
          assert prefix[i] == blocks[i];
          assert LineOf(GroupsOf(prefix[i])[j]) in BlockLines(prefix);
        }
      }
    }
  }

  /** The flattened records of a well-shaped response are exactly one record
      per group: their number is the total number of groups, every record is
      the service and amount of some group of some block, and every group of
      every block contributes its record. */
  lemma LinesExact(response: CostResponse)
    requires WellShaped(response)
    ensures |Lines(response)| == GroupCount(Blocks(response))
    ensures forall l :: l in Lines(response) ==>
      exists i, j :: 0 <= i < |Blocks(response)| && 0 <= j < |GroupsOf(Blocks(response)[i])| &&
        l == LineOf(GroupsOf(Blocks(response)[i])[j])
    ensures forall i, j :: 0 <= i < |Blocks(response)| && 0 <= j < |GroupsOf(Blocks(response)[i])| ==>
      LineOf(GroupsOf(Blocks(response)[i])[j]) in Lines(response)
  {
    BlockLinesExact(Blocks(response));
  }

  // ---------------------------------------------------------------------------
  // Tables of service costs
  // ---------------------------------------------------------------------------

  function SumCosts(table: seq<ServiceCost>): (total: real)
    ensures table == [] ==> total == 0.0
    ensures |table| == 1 ==> total == table[0].costUsd
  {
    if table == [] then 0.0 else table[0].costUsd + SumCosts(table[1..])
  }

  /** A table with no negative amount has a non-negative total. */
  lemma {:induction false} SumCostsNonNegative(table: seq<ServiceCost>)
    requires forall k :: 0 <= k < |table| ==> table[k].costUsd >= 0.0
    ensures SumCosts(table) >= 0.0
  {
    if table != [] {
      assert forall k :: 0 <= k < |table[1..]| ==> table[1..][k] == table[k + 1];
      SumCostsNonNegative(table[1..]);
    }
  }

  /** Sum of the amounts of the records of `service`. */
  function ServiceTotal(lines: seq<ServiceCost>, service: string): real {
    if lines == [] then 0.0
    else
      var last := lines[|lines| - 1];
      ServiceTotal(lines[..|lines| - 1], service) + (if last.service == service then last.costUsd else 0.0)
  }

  /** Cost of the first row of `service`, or 0 when there is none. */
  function CostOf(table: seq<ServiceCost>, service: string): real {
    if table == [] then 0.0
    else if table[0].service == service then table[0].costUsd
    else CostOf(table[1..], service)
  }

  function Services(table: seq<ServiceCost>): set<string> {
    set e | e in table :: e.service
  }

  predicate DistinctServices(table: seq<ServiceCost>) {
    forall i, j :: 0 <= i < j < |table| ==> table[i].service != table[j].service
  }

  predicate SortedByCostDesc(table: seq<ServiceCost>) {
    forall i, j :: 0 <= i < j < |table| ==> table[i].costUsd >= table[j].costUsd
  }

  lemma {:induction false} SumCostsAppend(table: seq<ServiceCost>, e: ServiceCost)
    ensures SumCosts(table + [e]) == SumCosts(table) + e.costUsd
  {
    if table != [] {
      assert (table + [e])[1..] == table[1..] + [e];
      SumCostsAppend(table[1..], e);
    }
  }

  /** In a table without repeated services, the cost found for a row's
      service is that row's cost. */
  lemma {:induction false} CostOfDistinct(table: seq<ServiceCost>, k: nat)
    requires DistinctServices(table) && k < |table|
    ensures CostOf(table, table[k].service) == table[k].costUsd
  {
    if k > 0 {
      assert table[1..][k - 1] == table[k];
      CostOfDistinct(table[1..], k - 1);
    }
  }

  // ---------------------------------------------------------------------------
  // groupby("service").sum()
  // ---------------------------------------------------------------------------

  /** Adds one record to a grouped table: its amount goes to the row of its
      service, or a new row is appended for a service not yet present. */
  function AddLine(table: seq<ServiceCost>, line: ServiceCost): seq<ServiceCost> {
    if table == [] then [line]
    else if table[0].service == line.service then
      [ServiceCost(line.service, table[0].costUsd + line.costUsd)] + table[1..]
    else [table[0]] + AddLine(table[1..], line)
  }

  /** `groupby("service").sum()`: one row per service, in order of first
      appearance. */
  function GroupSum(lines: seq<ServiceCost>): (table: seq<ServiceCost>)
    ensures DistinctServices(table)
  {
    if lines == [] then []
    else
      var grouped := GroupSum(lines[..|lines| - 1]);
      AddLineDistinct(grouped, lines[|lines| - 1]);
      AddLine(grouped, lines[|lines| - 1])
  }

  lemma ServicesCons(table: seq<ServiceCost>)
    requires table != []
    ensures Services(table) == {table[0].service} + Services(table[1..])
  {
    assert table == [table[0]] + table[1..];
  }

  lemma DistinctTail(table: seq<ServiceCost>)
    requires table != [] && DistinctServices(table)
    ensures DistinctServices(table[1..]) && table[0].service !in Services(table[1..])
  {
    forall e | e in table[1..] ensures e.service != table[0].service {
      var k :| 0 <= k < |table[1..]| && table[1..][k] == e;
      assert e == table[k + 1];
    }
  }

  lemma DistinctCons(x: ServiceCost, table: seq<ServiceCost>)
    requires DistinctServices(table) && x.service !in Services(table)
    ensures DistinctServices([x] + table)
  {
    var r := [x] + table;
    forall i, j | 0 <= i < j < |r| ensures r[i].service != r[j].service {
      if i == 0 { assert r[j] in table; } else { assert r[i] == table[i - 1] && r[j] == table[j - 1]; }
    }
  }

  /** Adding a record adds its service to the set of services. */
  lemma {:induction false} AddLineServices(table: seq<ServiceCost>, line: ServiceCost)
    ensures Services(AddLine(table, line)) == Services(table) + {line.service}
  {
    if table != [] {
      ServicesCons(table);
      ServicesCons(AddLine(table, line));
      if table[0].service != line.service {
        AddLineServices(table[1..], line);
      }
    }
  }

  /** Adding a record raises the cost of its service by its amount and leaves
      every other service's cost alone. */
  lemma {:induction false} AddLineCost(table: seq<ServiceCost>, line: ServiceCost, s: string)
    ensures CostOf(AddLine(table, line), s) == CostOf(table, s) + (if s == line.service then line.costUsd else 0.0)
  {
    if table != [] && table[0].service != line.service {
      AddLineCost(table[1..], line, s);
    }
  }

  /** Adding a record raises the table's total by its amount. */
  lemma {:induction false} AddLineSum(table: seq<ServiceCost>, line: ServiceCost)
    ensures SumCosts(AddLine(table, line)) == SumCosts(table) + line.costUsd
  {
    if table != [] && table[0].service != line.service {
      AddLineSum(table[1..], line);
    }
  }

  /** Adding a record never repeats a service. */
  lemma {:induction false} AddLineDistinct(table: seq<ServiceCost>, line: ServiceCost)
    requires DistinctServices(table)
    ensures DistinctServices(AddLine(table, line))
  {
    if table != [] {
      DistinctTail(table);
      if table[0].service == line.service {
        var r := AddLine(table, line);
        forall i, j | 0 <= i < j < |r| ensures r[i].service != r[j].service {
          assert r[i].service == table[i].service && r[j].service == table[j].service;
        }
      } else {
        AddLineDistinct(table[1..], line);
        AddLineServices(table[1..], line);
        DistinctCons(table[0], AddLine(table[1..], line));
      }
    }
  }

  /** A record of a service not yet present is appended as a new row. */
  lemma {:induction false} AddLineNew(table: seq<ServiceCost>, line: ServiceCost)
    requires line.service !in Services(table)
    ensures AddLine(table, line) == table + [line]
  {
    if table != [] {
      ServicesCons(table);
      AddLineNew(table[1..], line);
      assert table == [table[0]] + table[1..];
    }
  }

  /** The group-sum has one row per service of the records, no service twice,
      each row holding the sum of its service's amounts, and the same total. */
  lemma {:induction false} GroupSumExact(lines: seq<ServiceCost>)
    ensures DistinctServices(GroupSum(lines))
    ensures Services(GroupSum(lines)) == Services(lines)
    ensures forall s :: CostOf(GroupSum(lines), s) == ServiceTotal(lines, s)
    ensures SumCosts(GroupSum(lines)) == SumCosts(lines)
  {
    if lines != [] {
      var n := |lines| - 1;
      var prev := GroupSum(lines[..n]);
      GroupSumExact(lines[..n]);
      assert lines == lines[..n] + [lines[n]];
      assert GroupSum(lines) == AddLine(prev, lines[n]);
      assert SumCosts(GroupSum(lines)) == SumCosts(lines) by {
        SumCostsAppend(lines[..n], lines[n]);
        AddLineSum(prev, lines[n]);
      }
      assert Services(GroupSum(lines)) == Services(lines) by {
        assert Services(lines) == Services(lines[..n]) + {lines[n].service};
        AddLineServices(prev, lines[n]);
      }
      AddLineDistinct(prev, lines[n]);
      forall s ensures CostOf(GroupSum(lines), s) == ServiceTotal(lines, s) {
        AddLineCost(prev, lines[n], s);
      }
    }
  }

  // ---------------------------------------------------------------------------
  // sort_values("cost_usd", ascending=False)
  // ---------------------------------------------------------------------------

  /** Puts `x` in front of the first row that does not cost more. */
  function Insert(x: ServiceCost, table: seq<ServiceCost>): (r: seq<ServiceCost>)
    ensures multiset(r) == multiset(table) + multiset{x}
  {
    if table == [] || x.costUsd >= table[0].costUsd then [x] + table
    else
      assert table == [table[0]] + table[1..];
      [table[0]] + Insert(x, table[1..])
  }

  /** A stable insertion sort, most expensive row first; a permutation of its input. */
  function SortByCostDesc(table: seq<ServiceCost>): (r: seq<ServiceCost>)
    ensures multiset(r) == multiset(table)
  {
    if table == [] then []
    else
      assert table == [table[0]] + table[1..];
      Insert(table[0], SortByCostDesc(table[1..]))
  }

  lemma SortedTail(table: seq<ServiceCost>)
    requires table != [] && SortedByCostDesc(table)
    ensures SortedByCostDesc(table[1..])
  {
    forall i, j | 0 <= i < j < |table[1..]| ensures table[1..][i].costUsd >= table[1..][j].costUsd {
      assert table[1..][i] == table[i + 1] && table[1..][j] == table[j + 1];
    }
  }

  /** Inserting into a sorted table keeps it sorted. */
  lemma {:induction false} InsertSorted(x: ServiceCost, table: seq<ServiceCost>)
    requires SortedByCostDesc(table)
    ensures SortedByCostDesc(Insert(x, table))
  {
    var r := Insert(x, table);
    if table == [] || x.costUsd >= table[0].costUsd {
      forall i, j | 0 <= i < j < |r| ensures r[i].costUsd >= r[j].costUsd {
        if i == 0 { assert r[j] == table[j - 1]; } else { assert r[i] == table[i - 1]; }
      }
    } else {
      SortedTail(table);
      InsertSorted(x, table[1..]);
      var rest := Insert(x, table[1..]);
      forall i, j | 0 <= i < j < |r| ensures r[i].costUsd >= r[j].costUsd {
        if i == 0 {
          assert r[j] in multiset(rest);
          if r[j] != x {
            var k :| 0 <= k < |table[1..]| && table[1..][k] == r[j];
            assert r[j] == table[k + 1];
          }
        } else {
          assert r[i] == rest[i - 1] && r[j] == rest[j - 1];
        }
      }
    }
  }

  /** Inserting a row adds its cost to the total. */
  lemma {:induction false} InsertSum(x: ServiceCost, table: seq<ServiceCost>)
    ensures SumCosts(Insert(x, table)) == x.costUsd + SumCosts(table)
  {
    if table != [] && x.costUsd < table[0].costUsd {
      InsertSum(x, table[1..]);
    }
  }

  /** Inserting a row of a new service keeps services distinct. */
  lemma {:induction false} InsertDistinct(x: ServiceCost, table: seq<ServiceCost>)
    requires DistinctServices(table) && x.service !in Services(table)
    ensures DistinctServices(Insert(x, table))
  {
    if table == [] || x.costUsd >= table[0].costUsd {
      DistinctCons(x, table);
    } else {
      ServicesCons(table);
      DistinctTail(table);
      InsertDistinct(x, table[1..]);
      var rest := Insert(x, table[1..]);
      assert table[0].service !in Services(rest) by {
        forall e | e in rest ensures e.service != table[0].service {
          assert e in multiset(rest);
        }
      }
      DistinctCons(table[0], rest);
    }
  }

  /** The sorted table is ordered by cost, has the same total, and repeats
      no service its input did not repeat. */
  lemma {:induction false} SortExact(table: seq<ServiceCost>)
    ensures SortedByCostDesc(SortByCostDesc(table))
    ensures SumCosts(SortByCostDesc(table)) == SumCosts(table)
    ensures DistinctServices(table) ==> DistinctServices(SortByCostDesc(table))
  {
    if table != [] {
      var rest := SortByCostDesc(table[1..]);
      SortExact(table[1..]);
      InsertSorted(table[0], rest);
      InsertSum(table[0], rest);
      if DistinctServices(table) {
        SortDistinctStep(table);
      }
    }
  }

  /** One step of sorting a table without repeated services: the head's
      service is new to the sorted tail, so inserting it keeps services
      distinct. */
  lemma SortDistinctStep(table: seq<ServiceCost>)
    requires table != [] && DistinctServices(table) && DistinctServices(SortByCostDesc(table[1..]))
    ensures DistinctServices(SortByCostDesc(table))
  {
    var rest := SortByCostDesc(table[1..]);
    DistinctTail(table);
    assert table[0].service !in Services(rest) by {
      forall e | e in rest ensures e.service != table[0].service {
        assert e in multiset(rest);
        assert e in table[1..];
      }
    }
    InsertDistinct(table[0], rest);
  }

  /** The aggregation step of `extract_service_costs`: group-sum per service,
      then sort by cost, most expensive first. */
  function Aggregate(lines: seq<ServiceCost>): (table: seq<ServiceCost>)
    ensures DistinctServices(table) && SortedByCostDesc(table)
  {
    SortExact(GroupSum(lines));
    SortByCostDesc(GroupSum(lines))
  }

  /** The aggregated table names every service of the records exactly once,
      gives each the sum of its amounts, is sorted by cost (most expensive
      first) and keeps the grand total of the records. */
  lemma AggregateExact(lines: seq<ServiceCost>)
    ensures DistinctServices(Aggregate(lines))
    ensures Services(Aggregate(lines)) == Services(lines)
    ensures forall e :: e in Aggregate(lines) ==> e.costUsd == ServiceTotal(lines, e.service)
    ensures SortedByCostDesc(Aggregate(lines))
    ensures SumCosts(Aggregate(lines)) == SumCosts(lines)
  {
    var grouped := GroupSum(lines);
    var table := SortByCostDesc(grouped);
    GroupSumExact(lines);
    SortExact(grouped);
    assert Services(table) == Services(grouped) by {
      forall e ensures e in table <==> e in grouped { assert e in table <==> e in multiset(table); }
    }
    forall e | e in table ensures e.costUsd == ServiceTotal(lines, e.service) {
      assert e in multiset(grouped);
      var k :| 0 <= k < |grouped| && grouped[k] == e;
      CostOfDistinct(grouped, k);
    }
  }

  // ---------------------------------------------------------------------------
  // extract_service_costs, get_total_cost, get_top_services
  // ---------------------------------------------------------------------------

  /** What `extract_service_costs` gives for a response: the aggregated table,
      or the error raised when a group has no service key. */
  function ServiceCosts(response: CostResponse): (costs: Result<seq<ServiceCost>, ShapeError>)
    ensures costs.Ok? <==> WellShaped(response)
    ensures costs.Ok? ==> DistinctServices(costs.value) && SortedByCostDesc(costs.value)
    ensures costs.Ok? ==> SumCosts(costs.value) == SumCosts(Lines(response))
  {
    if WellShaped(response) then
      (AggregateExact(Lines(response)); Ok(Aggregate(Lines(response))))
    else Err(MissingServiceKey)
  }

  lemma GroupLinesStep(groups: seq<Group>, j: nat)
    requires j < |groups| && KeyedGroups(groups[..j + 1])
    ensures KeyedGroups(groups[..j])
    ensures GroupLines(groups[..j + 1]) == GroupLines(groups[..j]) + [LineOf(groups[j])]
  {
    assert groups[..j + 1][..j] == groups[..j];
  }

  lemma BlockLinesStep(blocks: seq<TimeBlock>, i: nat)
    requires i < |blocks| && KeyedBlocks(blocks[..i + 1])
    ensures KeyedBlocks(blocks[..i]) && KeyedGroups(GroupsOf(blocks[i]))
    ensures BlockLines(blocks[..i + 1]) == BlockLines(blocks[..i]) + GroupLines(GroupsOf(blocks[i]))
  {
    assert blocks[..i + 1][..i] == blocks[..i];
    assert blocks[..i + 1][i] == blocks[i];
  }

  /** `CostAnalyzer.extract_service_costs`: flattens every group of every time
      block into a (service, amount) record, then aggregates the records. */
  method ExtractServiceCosts(response: CostResponse) returns (result: Result<seq<ServiceCost>, ShapeError>)
    ensures result == ServiceCosts(response)
  {
    var records: seq<ServiceCost> := [];
    var results := response.resultsByTime.GetOr([]);
    for i := 0 to |results|
      invariant KeyedBlocks(results[..i])
      invariant records == BlockLines(results[..i])
    {
      var groups := results[i].groups.GetOr([]);
      ghost var blocksDone := records;
      for j := 0 to |groups|
        invariant KeyedGroups(groups[..j])
        invariant records == blocksDone + GroupLines(groups[..j])
      {
        var group := groups[j];
        if group.keys == [] {
          assert !KeyedGroups(GroupsOf(results[i]));
          return Err(MissingServiceKey);
        }
        assert KeyedGroups(groups[..j + 1]);
        GroupLinesStep(groups, j);
        records := records + [ServiceCost(group.keys[0], group.amount)];
      }
      assert groups[..|groups|] == groups;
      assert KeyedBlocks(results[..i + 1]);
      BlockLinesStep(results, i);
    }
    assert results[..|results|] == results;
    if records == [] {
      return Ok([]);
    }
    result := Ok(Aggregate(records));
  }

  /** `get_total_cost`: the sum of the aggregated table (0 for an empty one),
      which is the sum of every raw amount of the response. */
  function GetTotalCost(response: CostResponse): (total: Result<real, ShapeError>)
    ensures total.Ok? <==> WellShaped(response)
    ensures total.Ok? ==> total.value == SumCosts(Lines(response))
  {
    match ServiceCosts(response)
    case Err(e) => Err(e)
    case Ok(table) =>
      AggregateExact(Lines(response));
      Ok(if table == [] then 0.0 else SumCosts(table))
  }

  /** Number of rows pandas' `head(n)` keeps of a table of `length` rows: the
      first n, or all but the last -n when n is negative. */
  function HeadCount(length: nat, n: int): (count: nat)
    ensures count <= length
    ensures 0 <= n <= length ==> count == n
    ensures n > length ==> count == length
    ensures n < 0 ==> count == (if length + n > 0 then length + n else 0)
  {
    if n >= 0 then (if n < length then n else length)
    else if length + n > 0 then length + n else 0
  }

  /** Number of services `get_top_services` returns when not told otherwise. */
  const DefaultTopN: int := 5

  /** `get_top_services(n)`: the first rows of the sorted table; no row left
      out costs more than a row kept. */
  function GetTopServices(response: CostResponse, topN: int): (top: Result<seq<ServiceCost>, ShapeError>)
    ensures top.Ok? <==> WellShaped(response)
    ensures top.Ok? ==>
      var table := Aggregate(Lines(response));
      && |top.value| == HeadCount(|table|, topN)
      && top.value == table[..|top.value|]
      && forall i, j :: 0 <= i < |top.value| <= j < |table| ==> top.value[i].costUsd >= table[j].costUsd
  {
    match ServiceCosts(response)
    case Err(e) => Err(e)
    case Ok(table) =>
      AggregateExact(Lines(response));
      Ok(table[..HeadCount(|table|, topN)])
  }

  /** Called without `top_n`, `get_top_services` returns the five most
      expensive services, or all of them when there are fewer. */
  lemma DefaultTopServices(response: CostResponse)
    requires WellShaped(response)
    ensures var table := Aggregate(Lines(response));
      GetTopServices(response, DefaultTopN) == Ok(table[..if |table| < 5 then |table| else 5])
  {
  }

  // ---------------------------------------------------------------------------
  // Properties relating several operations
  // ---------------------------------------------------------------------------

  lemma {:induction false} BlockLinesEmpty(blocks: seq<TimeBlock>)
    requires forall i :: 0 <= i < |blocks| ==> GroupsOf(blocks[i]) == []
    ensures KeyedBlocks(blocks) && BlockLines(blocks) == []
  {
    if blocks != [] {
      var n := |blocks| - 1;
      BlockLinesEmpty(blocks[..n]);
    }
  }

  /** A response with no ResultsByTime, or whose blocks have no Groups, gives an empty table. */
  lemma NoGroupsGivesEmptyTable(response: CostResponse)
    requires forall i :: 0 <= i < |Blocks(response)| ==> GroupsOf(Blocks(response)[i]) == []
    ensures ServiceCosts(response) == Ok([])
    ensures GetTotalCost(response) == Ok(0.0)
  {
    BlockLinesEmpty(Blocks(response));
    assert Lines(response) == [];
    assert Aggregate([]) == [] by { assert GroupSum([]) == []; }
  }

  /** A table with distinct services is its own group-sum. */
  lemma {:induction false} GroupSumOfDistinct(table: seq<ServiceCost>)
    requires DistinctServices(table)
    ensures GroupSum(table) == table
  {
    if table != [] {
      var n := |table| - 1;
      var prefix := table[..n];
      assert DistinctServices(prefix) by {
        forall i, j | 0 <= i < j < |prefix| ensures prefix[i].service != prefix[j].service {
          assert prefix[i] == table[i] && prefix[j] == table[j];
        }
      }
      GroupSumOfDistinct(prefix);
      assert table[n].service !in Services(prefix) by {
        forall e | e in prefix ensures e.service != table[n].service {
          var k :| 0 <= k < n && prefix[k] == e;
          assert e == table[k];
        }
      }
      AddLineNew(prefix, table[n]);
      assert prefix + [table[n]] == table;
    }
  }

  /** Sorting a table that is already sorted leaves it unchanged. */
  lemma {:induction false} SortOfSorted(table: seq<ServiceCost>)
    requires SortedByCostDesc(table)
    ensures SortByCostDesc(table) == table
  {
    if table != [] {
      assert SortedByCostDesc(table[1..]) by {
        forall i, j | 0 <= i < j < |table[1..]| ensures table[1..][i].costUsd >= table[1..][j].costUsd {
          assert table[1..][i] == table[i + 1] && table[1..][j] == table[j + 1];
        }
      }
      SortOfSorted(table[1..]);
      assert table == [table[0]] + table[1..];
      if |table| > 1 {
        assert table[0].costUsd >= table[1].costUsd;
      }
    }
  }

  /** Aggregation is idempotent: aggregating an aggregated table again gives
      the same table. */
  lemma AggregateIdempotent(lines: seq<ServiceCost>)
    ensures Aggregate(Aggregate(lines)) == Aggregate(lines)
  {
    var table := Aggregate(lines);
    AggregateExact(lines);
    GroupSumOfDistinct(table);
    SortOfSorted(table);
  }
}
