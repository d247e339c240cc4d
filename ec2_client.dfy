/** Model of the EC2 client: the configured target regions, the listing of
    instances across those regions, and the average of a CPU sample window.
    The two boto3 calls become inputs: `describe` gives the DescribeInstances
    response of a region, and the datapoint averages of a CloudWatch window
    are passed as a sequence of reals. */
module Ec2Client {
  import opened Wrappers

  /** Value used when the TARGET_REGIONS environment variable is not set. */
  const DefaultTargetRegions: string := "ap-south-1"

  /** Characters Python's `str.strip()` removes (its Latin-1 part). */
  predicate IsSpace(c: char) {
    c == ' ' || ('\t' <= c <= '\r') || ('\U{1C}' <= c <= '\U{1F}') || c == '\U{85}' || c == '\U{A0}'
  }

  // ---------------------------------------------------------------------------
  // Region list parsing: [r.strip() for r in regions_env.split(",")]
  // ---------------------------------------------------------------------------

  /** The pieces of `s` between occurrences of `sep`, as `str.split(sep)` gives
      them for a one-character separator: never empty, separator-free. */
  function Split(s: string, sep: char): (pieces: seq<string>)
    ensures |pieces| >= 1
  {
    if s == [] then [[]]
    else
      var rest := Split(s[1..], sep);
      if s[0] == sep then [[]] + rest
      else [[s[0]] + rest[0]] + rest[1..]
  }

  /** The inverse of Split: the pieces glued back with the separator. */
  function Join(pieces: seq<string>, sep: char): string
    requires |pieces| >= 1
  {
    if |pieces| == 1 then pieces[0] else pieces[0] + [sep] + Join(pieces[1..], sep)
  }

  /** Number of occurrences of `c` in `s`. */
  function Occurrences(s: string, c: char): nat {
    if s == [] then 0 else (if s[0] == c then 1 else 0) + Occurrences(s[1..], c)
  }

  /** Gluing the pieces of a split back together gives the original string. */
  lemma {:induction false} JoinSplit(s: string, sep: char)
    ensures Join(Split(s, sep), sep) == s
  {
    if s != [] {
      JoinSplit(s[1..], sep);
      if s[0] == sep {
        JoinSplitSeparatorFirst(s, sep);
      } else {
        JoinSplitPieceFirst(s, sep);
      }
    }
  }

  /** The step of JoinSplit for a string that starts with the separator. */
  lemma JoinSplitSeparatorFirst(s: string, sep: char)
    requires s != [] && s[0] == sep && Join(Split(s[1..], sep), sep) == s[1..]
    ensures Join(Split(s, sep), sep) == s
  {
    var rest := Split(s[1..], sep);
    var pieces := [[]] + rest;
    assert Split(s, sep) == pieces;
    assert |pieces| > 1 && pieces[0] == [] && pieces[1..] == rest;
    assert Join(pieces, sep) == pieces[0] + [sep] + Join(pieces[1..], sep);
    assert [] + [sep] + s[1..] == s;
  }

  /** The step of JoinSplit for a string that starts with another character. */
  lemma JoinSplitPieceFirst(s: string, sep: char)
    requires s != [] && s[0] != sep && Join(Split(s[1..], sep), sep) == s[1..]
    ensures Join(Split(s, sep), sep) == s
  {
    var rest := Split(s[1..], sep);
    assert Split(s, sep) == [[s[0]] + rest[0]] + rest[1..];
    JoinExtendFirst(s[0], rest, sep);
    assert [s[0]] + s[1..] == s;
  }

  /** Putting a character in front of the first piece puts it in front of the join. */
  lemma JoinExtendFirst(c: char, pieces: seq<string>, sep: char)
    requires |pieces| >= 1
    ensures Join([[c] + pieces[0]] + pieces[1..], sep) == [c] + Join(pieces, sep)
  {
    var extended := [[c] + pieces[0]] + pieces[1..];
    assert extended[0] == [c] + pieces[0] && extended[1..] == pieces[1..];
    if |pieces| > 1 {
      assert Join(extended, sep) == [c] + pieces[0] + [sep] + Join(pieces[1..], sep);
      assert [c] + pieces[0] + [sep] + Join(pieces[1..], sep) == [c] + (pieces[0] + [sep] + Join(pieces[1..], sep));
    }
  }

  /** No piece of a split contains the separator. */
  lemma {:induction false} SplitPiecesSeparatorFree(s: string, sep: char)
    ensures forall k :: 0 <= k < |Split(s, sep)| ==> sep !in Split(s, sep)[k]
  {
    if s != [] {
      SplitPiecesSeparatorFree(s[1..], sep);
      var rest := Split(s[1..], sep);
      if s[0] != sep {
        var first := [s[0]] + rest[0];
        assert sep !in first by {
          forall j | 0 <= j < |first| ensures first[j] != sep {
            if j > 0 { assert first[j] == rest[0][j - 1]; }
          }
        }
      }
    }
  }

  /** A split yields one more piece than there are separators. */
  lemma {:induction false} SplitCount(s: string, sep: char)
    ensures |Split(s, sep)| == Occurrences(s, sep) + 1
  {
    if s != [] {
      SplitCount(s[1..], sep);
    }
  }

  /** A string without the separator splits into itself alone. */
  lemma {:induction false} SplitNoSeparator(s: string, sep: char)
    requires sep !in s
    ensures Split(s, sep) == [s]
  {
    if s != [] {
      var tail := s[1..];
      assert sep !in tail by {
        forall k | 0 <= k < |tail| ensures tail[k] != sep { assert tail[k] == s[k + 1]; }
      }
      SplitNoSeparator(tail, sep);
      assert s[0] != sep by { assert s[0] in s; }
      assert Split(s, sep) == [[s[0]] + [tail][0]] + [tail][1..];
      assert [[s[0]] + [tail][0]] + [tail][1..] == [s] by { assert [s[0]] + tail == s; }
    }
  }

  /** Splitting a separator-free piece followed by the separator peels that piece off. */
  lemma {:induction false} SplitAfterPiece(a: string, sep: char, b: string)
    requires sep !in a
    ensures Split(a + [sep] + b, sep) == [a] + Split(b, sep)
  {
    if a == [] {
      assert [] + [sep] + b == [sep] + b;
      assert ([sep] + b)[1..] == b;
    } else {
      assert sep !in a[1..] by {
        forall k | 0 <= k < |a[1..]| ensures a[1..][k] != sep { assert a[1..][k] == a[k + 1]; }
      }
      SplitAfterPiece(a[1..], sep, b);
      var s := a + [sep] + b;
      assert s[0] == a[0] && s[1..] == a[1..] + [sep] + b;
      assert a[0] in a;
      var rest := Split(s[1..], sep);
      assert rest == [a[1..]] + Split(b, sep);
      assert Split(s, sep) == [[a[0]] + a[1..]] + Split(b, sep);
      assert [a[0]] + a[1..] == a;
    }
  }

  /** Splitting a join of separator-free pieces gives the pieces back. */
  lemma {:induction false} SplitJoin(pieces: seq<string>, sep: char)
    requires |pieces| >= 1
    requires forall p :: p in pieces ==> sep !in p
    ensures Split(Join(pieces, sep), sep) == pieces
  {
    if |pieces| == 1 {
      SplitNoSeparator(pieces[0], sep);
    } else {
      assert pieces[0] in pieces;
      assert forall p :: p in pieces[1..] ==> p in pieces;
      SplitJoin(pieces[1..], sep);
      SplitAfterPiece(pieces[0], sep, Join(pieces[1..], sep));
      assert [pieces[0]] + pieces[1..] == pieces;
    }
  }

  /** Number of whitespace characters at the start of `s`. */
  function LeadingSpaces(s: string): (n: nat)
    ensures n <= |s|
    ensures forall k :: 0 <= k < n ==> IsSpace(s[k])
    ensures n < |s| ==> !IsSpace(s[n])
  {
    if s == [] || !IsSpace(s[0]) then 0 else 1 + LeadingSpaces(s[1..])
  }

  /** Number of whitespace characters at the end of `s`. */
  function TrailingSpaces(s: string): (n: nat)
    ensures n <= |s|
    ensures forall k :: |s| - n <= k < |s| ==> IsSpace(s[k])
    ensures n < |s| ==> !IsSpace(s[|s| - 1 - n])
  {
    if s == [] || !IsSpace(s[|s| - 1]) then 0 else 1 + TrailingSpaces(s[..|s| - 1])
  }

  /** True of a string that begins and ends with a non-whitespace character. */
  predicate Stripped(s: string) {
    s == [] || (!IsSpace(s[0]) && !IsSpace(s[|s| - 1]))
  }

  /** `str.strip()`: the infix of `s` left after whitespace is removed from both
      ends, and only from the ends. */
  function Strip(s: string): (r: string)
    ensures Stripped(r)
    ensures LeadingSpaces(s) + |r| <= |s| && r == s[LeadingSpaces(s)..LeadingSpaces(s) + |r|]
    ensures forall k :: 0 <= k < |s| && !(LeadingSpaces(s) <= k < LeadingSpaces(s) + |r|) ==> IsSpace(s[k])
    ensures Stripped(s) ==> r == s
  {
    var t := s[LeadingSpaces(s)..];
    assert t != [] ==> !IsSpace(t[0]) && TrailingSpaces(t) < |t|;
    t[..|t| - TrailingSpaces(t)]
  }

  /** Stripping never introduces a character. */
  lemma StripIsInfix(s: string, c: char)
    requires c !in s
    ensures c !in Strip(s)
  {
    var r, lead := Strip(s), LeadingSpaces(s);
    forall j | 0 <= j < |r| ensures r[j] != c { assert r[j] == s[lead + j]; }
  }

  /** Stripping a word padded with whitespace on both sides gives the word. */
  lemma StripPadded(pre: string, word: string, post: string)
    requires forall c :: c in pre ==> IsSpace(c)
    requires forall c :: c in post ==> IsSpace(c)
    requires Stripped(word)
    ensures Strip(pre + word + post) == word
  {
    var s := pre + word + post;
    var r, lead := Strip(s), LeadingSpaces(s);
    if word == [] {
      forall k | 0 <= k < |s| ensures IsSpace(s[k]) {
        if k < |pre| { assert s[k] in pre; } else { assert s[k] == post[k - |pre|]; assert s[k] in post; }
      }
    } else {
      assert s[|pre|] == word[0];
      assert lead == |pre|;
      var last := |pre| + |word| - 1;
      assert s[last] == word[|word| - 1];
      assert r == s[|pre|..|pre| + |word|];
    }
  }

  /** The regions of `EC2Client.__init__`: the comma-separated pieces of
      TARGET_REGIONS (or of its default), each stripped of surrounding
      whitespace, in the order written. */
  function ConfiguredRegions(targetRegions: Option<string>): (regions: seq<string>)
    ensures |regions| == Occurrences(targetRegions.GetOr(DefaultTargetRegions), ',') + 1
    ensures forall r :: r in regions ==> ',' !in r && Stripped(r)
    ensures |regions| == |Split(targetRegions.GetOr(DefaultTargetRegions), ',')|
    ensures forall k :: 0 <= k < |regions| ==>
      regions[k] == Strip(Split(targetRegions.GetOr(DefaultTargetRegions), ',')[k])
  {
    var pieces := Split(targetRegions.GetOr(DefaultTargetRegions), ',');
    SplitCount(targetRegions.GetOr(DefaultTargetRegions), ',');
    SplitPiecesSeparatorFree(targetRegions.GetOr(DefaultTargetRegions), ',');
    var regions := seq(|pieces|, k requires 0 <= k < |pieces| => Strip(pieces[k]));
    assert forall k :: 0 <= k < |pieces| ==> ',' !in regions[k] by {
      forall k | 0 <= k < |pieces| ensures ',' !in regions[k] {
        StripIsInfix(pieces[k], ',');
      }
    }
    regions
  }

  /** Without TARGET_REGIONS the client watches "ap-south-1" only. */
  lemma DefaultRegions()
    ensures ConfiguredRegions(None) == [DefaultTargetRegions]
  {
    SplitNoSeparator(DefaultTargetRegions, ',');
    assert Stripped(DefaultTargetRegions);
  }

  /** Writing a list of comma-free, already stripped region names into
      TARGET_REGIONS, comma-separated, configures exactly that list. */
  lemma {:induction false} ConfiguredRegionsOfJoin(regions: seq<string>)
    requires |regions| >= 1
    requires forall r :: r in regions ==> ',' !in r && Stripped(r)
    ensures ConfiguredRegions(Some(Join(regions, ','))) == regions
  {
    SplitJoin(regions, ',');
  }

  /** Region names written with whitespace around the commas, as in
      "ap-south-1, us-east-1", configure the bare names. */
  lemma {:induction false} ConfiguredRegionsOfPaddedJoin(regions: seq<string>, before: seq<string>, after: seq<string>)
    requires |regions| >= 1 && |before| == |regions| && |after| == |regions|
    requires forall r :: r in regions ==> ',' !in r && Stripped(r)
    requires forall k, c :: 0 <= k < |regions| && c in before[k] ==> IsSpace(c)
    requires forall k, c :: 0 <= k < |regions| && c in after[k] ==> IsSpace(c)
    ensures ConfiguredRegions(Some(Join(seq(|regions|, k requires 0 <= k < |regions| => before[k] + regions[k] + after[k]), ','))) == regions
  {
    var padded := seq(|regions|, k requires 0 <= k < |regions| => before[k] + regions[k] + after[k]);
    forall p | p in padded ensures ',' !in p {
      var k :| 0 <= k < |regions| && padded[k] == p;
      assert regions[k] in regions;
      assert !IsSpace(',');
    }
    SplitJoin(padded, ',');
    var configured := ConfiguredRegions(Some(Join(padded, ',')));
    forall k | 0 <= k < |regions| ensures configured[k] == regions[k] {
      assert regions[k] in regions;
      StripPadded(before[k], regions[k], after[k]);
    }
  }

  // ---------------------------------------------------------------------------
  // Instance listing across regions
  // ---------------------------------------------------------------------------

  /** One instance of a DescribeInstances reservation (InstanceId,
      InstanceType, State.Name, LaunchTime rendered as text). */
  datatype RawInstance = RawInstance(instanceId: string, instanceType: string, stateName: string, launchTime: string)

  datatype Reservation = Reservation(instances: seq<RawInstance>)

  /** The part of a DescribeInstances response the client reads. */
  datatype DescribeResponse = DescribeResponse(reservations: seq<Reservation>)

  /** One entry of `list_instances`: the instance's fields and the region it was listed in. */
  datatype InstanceSummary = InstanceSummary(instanceId: string, instanceType: string, state: string, launchTime: string, region: string)

  function Summarize(instance: RawInstance, region: string): InstanceSummary {
    InstanceSummary(instance.instanceId, instance.instanceType, instance.stateName, instance.launchTime, region)
  }

  /** The raw instance a summary was made from. */
  function Origin(summary: InstanceSummary): RawInstance {
    RawInstance(summary.instanceId, summary.instanceType, summary.state, summary.launchTime)
  }

  /** Summaries of `instances`, in order, each tagged with `region`. */
  function SummarizeAll(instances: seq<RawInstance>, region: string): (summaries: seq<InstanceSummary>)
    ensures |summaries| == |instances|
    ensures forall k :: 0 <= k < |instances| ==>
      summaries[k].region == region && Origin(summaries[k]) == instances[k]
  {
    if instances == [] then []
    else SummarizeAll(instances[..|instances| - 1], region) + [Summarize(instances[|instances| - 1], region)]
  }

  /** Summaries of every instance of every reservation, reservations in order. */
  function ReservationsListing(reservations: seq<Reservation>, region: string): (listing: seq<InstanceSummary>)
    ensures |listing| == InstanceCount(reservations)
  {
    if reservations == [] then []
    else
      var n := |reservations| - 1;
      ReservationsListing(reservations[..n], region) + SummarizeAll(reservations[n].instances, region)
  }

  /** What `list_instances` returns: the listings of the regions, concatenated
      in configured order. */
  function Listing(regions: seq<string>, describe: string -> DescribeResponse): (listing: seq<InstanceSummary>)
    ensures |listing| == TotalInstanceCount(regions, describe)
  {
    if regions == [] then []
    else
      var n := |regions| - 1;
      Listing(regions[..n], describe) + ReservationsListing(describe(regions[n]).reservations, regions[n])
  }

  /** True when `instance` belongs to one of the reservations. */
  predicate Reserved(reservations: seq<Reservation>, instance: RawInstance) {
    exists j :: 0 <= j < |reservations| && instance in reservations[j].instances
  }

  /** Total number of instances over the reservations. */
  function InstanceCount(reservations: seq<Reservation>): nat {
    if reservations == [] then 0
    else InstanceCount(reservations[..|reservations| - 1]) + |reservations[|reservations| - 1].instances|
  }

  /** Total number of instances over the responses of all regions. */
  function TotalInstanceCount(regions: seq<string>, describe: string -> DescribeResponse): nat {
    if regions == [] then 0
    else TotalInstanceCount(regions[..|regions| - 1], describe) + InstanceCount(describe(regions[|regions| - 1]).reservations)
  }

  /** Every summary of a region's listing carries that region and comes from
      one of its reservations; every instance of a reservation is listed. */
  lemma {:induction false} ReservationsListingExact(reservations: seq<Reservation>, region: string)
    ensures |ReservationsListing(reservations, region)| == InstanceCount(reservations)
    ensures forall s :: s in ReservationsListing(reservations, region) ==>
      s.region == region && Reserved(reservations, Origin(s))
    ensures forall j, i :: 0 <= j < |reservations| && i in reservations[j].instances ==>
      Summarize(i, region) in ReservationsListing(reservations, region)
  {
    if reservations != [] {
      var n := |reservations| - 1;
      var prefix := reservations[..n];
      ReservationsListingExact(prefix, region);
      var tail := SummarizeAll(reservations[n].instances, region);
      forall s | s in ReservationsListing(reservations, region)
        ensures s.region == region && Reserved(reservations, Origin(s))
      {
        if s in tail {
          var k :| 0 <= k < |tail| && tail[k] == s;
          assert Origin(s) in reservations[n].instances;
        } else {
          assert s in ReservationsListing(prefix, region);
          var j :| 0 <= j < |prefix| && Origin(s) in prefix[j].instances;
          assert prefix[j] == reservations[j];
        }
      }
      forall j, i | 0 <= j < |reservations| && i in reservations[j].instances
        ensures Summarize(i, region) in ReservationsListing(reservations, region)
      {
        if j == n {
          var k :| 0 <= k < |reservations[n].instances| && reservations[n].instances[k] == i;
          assert tail[k] == Summarize(i, region);
        } else {
          assert prefix[j] == reservations[j];
        }
      }
    }
  }

  /** The listing holds exactly the instances of the configured regions'
      responses, each tagged with the region whose response produced it, and
      its length is the total instance count. */
  lemma {:induction false} ListingExact(regions: seq<string>, describe: string -> DescribeResponse)
    ensures |Listing(regions, describe)| == TotalInstanceCount(regions, describe)
    ensures forall s :: s in Listing(regions, describe) ==>
      s.region in regions && Reserved(describe(s.region).reservations, Origin(s))
    ensures forall r, j, i :: r in regions && 0 <= j < |describe(r).reservations| && i in describe(r).reservations[j].instances ==>
      Summarize(i, r) in Listing(regions, describe)
  {
    if regions != [] {
      var n := |regions| - 1;
      var prefix := regions[..n];
      ListingExact(prefix, describe);
      ReservationsListingExact(describe(regions[n]).reservations, regions[n]);
      forall s | s in Listing(regions, describe)
        ensures s.region in regions && Reserved(describe(s.region).reservations, Origin(s))
      {
        if s in Listing(prefix, describe) {
          assert s.region in prefix;
        }
      }
      forall r, j, i | r in regions && 0 <= j < |describe(r).reservations| && i in describe(r).reservations[j].instances
        ensures Summarize(i, r) in Listing(regions, describe)
      {
        if r != regions[n] {
          assert r in prefix;
        }
      }
    }
  }

  lemma ListingStep(regions: seq<string>, r: nat, describe: string -> DescribeResponse)
    requires r < |regions|
    ensures Listing(regions[..r + 1], describe)
         == Listing(regions[..r], describe) + ReservationsListing(describe(regions[r]).reservations, regions[r])
  {
    assert regions[..r + 1][..r] == regions[..r];
  }

  lemma ReservationsListingStep(reservations: seq<Reservation>, v: nat, region: string)
    requires v < |reservations|
    ensures ReservationsListing(reservations[..v + 1], region)
         == ReservationsListing(reservations[..v], region) + SummarizeAll(reservations[v].instances, region)
  {
    assert reservations[..v + 1][..v] == reservations[..v];
  }

  lemma SummarizeAllStep(instances: seq<RawInstance>, i: nat, region: string)
    requires i < |instances|
    ensures SummarizeAll(instances[..i + 1], region) == SummarizeAll(instances[..i], region) + [Summarize(instances[i], region)]
  {
    assert instances[..i + 1][..i] == instances[..i];
  }

  /** The body of `list_instances` for one region: for each reservation of
      the region's response and each instance in it, the instance's summary
      tagged with that region. */
  method RegionInstances(region: string, response: DescribeResponse) returns (found: seq<InstanceSummary>)
    ensures found == ReservationsListing(response.reservations, region)
  {
    found := [];
    for v := 0 to |response.reservations|
      invariant found == ReservationsListing(response.reservations[..v], region)
    {
      var reservation := response.reservations[v];
      ghost var reservationsDone := found;
      for i := 0 to |reservation.instances|
        invariant found == reservationsDone + SummarizeAll(reservation.instances[..i], region)
      {
        SummarizeAllStep(reservation.instances, i, region);
        found := found + [Summarize(reservation.instances[i], region)];
      }
      assert reservation.instances[..|reservation.instances|] == reservation.instances;
      ReservationsListingStep(response.reservations, v, region);
    }
    assert response.reservations[..|response.reservations|] == response.reservations;
  }

  /** `EC2Client.list_instances`: the instances of every configured region,
      region by region in configured order, each tagged with the region whose
      DescribeInstances response listed it. */
  method ListInstances(regions: seq<string>, describe: string -> DescribeResponse)
    returns (allInstances: seq<InstanceSummary>)
    ensures allInstances == Listing(regions, describe)
  {
    allInstances := [];
    for r := 0 to |regions|
      invariant allInstances == Listing(regions[..r], describe)
    {
      var region := regions[r];
      var found := RegionInstances(region, describe(region));
      allInstances := allInstances + found;
      ListingStep(regions, r, describe);
    }
    assert regions[..|regions|] == regions;
  }

  // ---------------------------------------------------------------------------
  // Average CPU utilization over a sample window
  // ---------------------------------------------------------------------------

  /** Python's `sum`, left to right from 0. */
  function Sum(xs: seq<real>): real {
    if xs == [] then 0.0 else Sum(xs[..|xs| - 1]) + xs[|xs| - 1]
  }

  function Min(xs: seq<real>): (m: real)
    requires xs != []
    ensures m in xs && forall x :: x in xs ==> m <= x
  {
    if |xs| == 1 then xs[0]
    else
      var p := Min(xs[..|xs| - 1]);
      assert forall x :: x in xs ==> x in xs[..|xs| - 1] || x == xs[|xs| - 1];
      if p <= xs[|xs| - 1] then p else xs[|xs| - 1]
  }

  function Max(xs: seq<real>): (m: real)
    requires xs != []
    ensures m in xs && forall x :: x in xs ==> x <= m
  {
    if |xs| == 1 then xs[0]
    else
      var p := Max(xs[..|xs| - 1]);
      assert forall x :: x in xs ==> x in xs[..|xs| - 1] || x == xs[|xs| - 1];
      if p >= xs[|xs| - 1] then p else xs[|xs| - 1]
  }

  /** A sum of n values, each between lo and hi, lies between n * lo and n * hi. */
  lemma {:induction false} SumBetween(xs: seq<real>, lo: real, hi: real)
    requires forall x :: x in xs ==> lo <= x <= hi
    ensures |xs| as real * lo <= Sum(xs) <= |xs| as real * hi
  {
    if xs != [] {
      var n := |xs| - 1;
      assert forall x :: x in xs[..n] ==> x in xs;
      SumBetween(xs[..n], lo, hi);
      assert xs[n] in xs;
      assert |xs| as real * lo == n as real * lo + lo;
      assert |xs| as real * hi == n as real * hi + hi;
    }
  }

  /** Dividing a total known to lie between n * lo and n * hi by n > 0 gives a
      value between lo and hi. */
  lemma MeanBetween(total: real, n: real, lo: real, hi: real)
    requires n > 0.0 && n * lo <= total <= n * hi
    ensures lo <= total / n <= hi
  {
  }

  /** The mean of a non-empty window of samples, each between lo and hi, lies
      between lo and hi. */
  lemma MeanOfSamples(datapoints: seq<real>, lo: real, hi: real)
    requires datapoints != []
    requires forall x :: x in datapoints ==> lo <= x <= hi
    ensures lo <= Sum(datapoints) / (|datapoints| as real) <= hi
  {
    SumBetween(datapoints, lo, hi);
    MeanBetween(Sum(datapoints), |datapoints| as real, lo, hi);
  }

  /** `get_average_cpu_utilization` once the datapoints are fetched: 0 for an
      empty window, otherwise the mean, which lies between the smallest and
      the largest sample. */
  function AverageCpuUtilization(datapoints: seq<real>): (average: real)
    ensures datapoints == [] ==> average == 0.0
    ensures datapoints != [] ==> Min(datapoints) <= average <= Max(datapoints)
  {
    if datapoints == [] then 0.0
    else
      MeanOfSamples(datapoints, Min(datapoints), Max(datapoints));
      Sum(datapoints) / (|datapoints| as real)
  }
}
