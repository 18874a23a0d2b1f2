/** Disc and network usage of a node: series of one instance added up slot by slot. */
module NodeUsage {
  import opened Wrappers
  import opened NodeMetrics

  datatype MetricResult = MetricResult(labels: map<string, string>, values: seq<Sample>)

  /** A missing label reads as the empty string. */
  function Label(labels: map<string, string>, name: string): string {
    if name in labels then labels[name] else ""
  }

  // ---------- sums over series ----------

  function ColumnSum(data: seq<seq<Slot>>, j: nat): real
    requires forall s :: s in data ==> j < |s|
  {
    if data == [] then 0.0 else ColumnSum(data[..|data| - 1], j) + data[|data| - 1][j].ratio
  }

  function RowSum(s: seq<Slot>): real {
    if s == [] then 0.0 else RowSum(s[..|s| - 1]) + s[|s| - 1].ratio
  }

  function TotalByRows(data: seq<seq<Slot>>): real {
    if data == [] then 0.0 else TotalByRows(data[..|data| - 1]) + RowSum(data[|data| - 1])
  }

  function TotalByColumns(data: seq<seq<Slot>>, n: nat): real
    requires forall s :: s in data ==> n <= |s|
  {
    if n == 0 then 0.0 else TotalByColumns(data, n - 1) + ColumnSum(data, n - 1)
  }

  lemma {:induction false} NoRows(n: nat)
    ensures TotalByColumns([], n) == 0.0
  {
    if n == 0 {
    } else {
      NoRows(n - 1);
    }
  }

  lemma {:induction false} AddRow(data: seq<seq<Slot>>, row: seq<Slot>, n: nat)
    requires n <= |row| && forall s :: s in data ==> n <= |s|
    ensures TotalByColumns(data + [row], n) == TotalByColumns(data, n) + RowSum(row[..n])
  {
    assert (data + [row])[..|data|] == data;
    if n == 0 {
    } else {
      AddRow(data, row, n - 1);
      assert row[..n][..n - 1] == row[..n - 1];
    }
  }

  /** Summing slot by slot loses nothing: the total over slots is the total over series. */
  lemma {:induction false} TotalsAgree(data: seq<seq<Slot>>, n: nat)
    requires forall s :: s in data ==> |s| == n
    ensures TotalByColumns(data, n) == TotalByRows(data)
  {
    if data == [] {
      NoRows(n);
    } else {
      var init, row := data[..|data| - 1], data[|data| - 1];
      assert data == init + [row] && row in data && row[..n] == row;
      assert forall s :: s in init ==> s in data;
      TotalsAgree(init, n);
      AddRow(init, row, n);
    }
  }

  method SumColumn(data: seq<seq<Slot>>, j: nat) returns (sum: real)
    requires forall s :: s in data ==> j < |s|
    ensures sum == ColumnSum(data, j)
  {
    sum := 0.0;
    for i := 0 to |data|
      invariant sum == ColumnSum(data[..i], j)
    {
      assert data[..i + 1][..i] == data[..i];
      sum := sum + data[i][j].ratio;
    }
    assert data[..|data|] == data;
  }

  // ---------- selecting series ----------

  /** Position of the first occurrence of `part` in `s`, or -1. */
  function IndexOf(s: string, part: string): (i: int)
    ensures -1 <= i <= |s|
  {
    if part <= s then 0
    else if s == [] then -1
    else
      var i := IndexOf(s[1..], part);
      if i < 0 then -1 else i + 1
  }

  predicate Within(s: string, part: string) {
    exists k :: 0 <= k <= |s| && part <= s[k..]
  }

  lemma {:induction false} WithinTail(s: string, part: string)
    requires s != []
    ensures Within(s, part) <==> part <= s || Within(s[1..], part)
  {
    assert s[0..] == s;
    if k :| 0 <= k <= |s| && part <= s[k..] {
      if k > 0 {
        assert s[1..][k - 1..] == s[k..];
      }
    }
    if k :| 0 <= k <= |s[1..]| && part <= s[1..][k..] {
      assert s[1..][k..] == s[k + 1..];
    }
  }

  lemma {:induction false} FoundIffWithin(s: string, part: string)
    ensures IndexOf(s, part) >= 0 <==> Within(s, part)
    ensures IndexOf(s, part) == 0 <==> part <= s
  {
    assert s[0..] == s;
    if s == [] {
    } else {
      WithinTail(s, part);
      FoundIffWithin(s[1..], part);
    }
  }

  const DOCKER: string := "docker"
  const DOCKER_INTERFACE: string := "veth"

  /** The source compares with "> 0", so a name that starts with the word is kept. */
  predicate SkippedDevice(device: string) {
    IndexOf(device, DOCKER) > 0 || IndexOf(device, DOCKER_INTERFACE) > 0
  }

  /** A device is skipped exactly when "docker" or "veth" occurs in its name but the name does not start with it. */
  lemma {:induction false} SkippedDeviceIff(device: string)
    ensures SkippedDevice(device) <==>
      || (!(DOCKER <= device) && Within(device, DOCKER))
      || (!(DOCKER_INTERFACE <= device) && Within(device, DOCKER_INTERFACE))
  {
    FoundIffWithin(device, DOCKER);
    FoundIffWithin(device, DOCKER_INTERFACE);
  }

  /** The names such devices really have are not left out. */
  lemma {:induction false} UsualDevicesAreKept()
    ensures !SkippedDevice("docker0") && !SkippedDevice("veth1a2b3c")
  {
    LeadingWordIsKept("docker0", DOCKER, DOCKER_INTERFACE);
    LeadingWordIsKept("veth1a2b3c", DOCKER_INTERFACE, DOCKER);
  }

  /** A name that starts with one word and lacks the first letter of the other holds neither in a later place. */
  lemma {:induction false} LeadingWordIsKept(device: string, word: string, other: string)
    requires word <= device && other != [] && other[0] !in device
    ensures IndexOf(device, word) == 0 && IndexOf(device, other) == -1
  {
    FoundIffWithin(device, other);
    forall k | 0 <= k <= |device| ensures !(other <= device[k..]) {
      if k < |device| {
        assert device[k..][0] == device[k];
      }
    }
  }

  predicate Keeps(r: MetricResult, addr: string, filterDevices: bool) {
    Label(r.labels, "instance") == addr && !(filterDevices && SkippedDevice(Label(r.labels, "device")))
  }

  /** The bucketed series of all results that are kept, in order. */
  function Collected(parse: string -> Option<real>, p: Period, results: seq<MetricResult>, addr: string,
                     filterDevices: bool): (d: seq<seq<Slot>>)
    requires p.step > 0
    ensures forall s :: s in d ==> |s| == SLOTS
  {
    if results == [] then []
    else
      var r := results[|results| - 1];
      var before := Collected(parse, p, results[..|results| - 1], addr, filterDevices);
      if Keeps(r, addr, filterDevices) then before + [SeriesOf(parse, p, r.values)] else before
  }

  /** A response is read result by result. */
  lemma {:induction false} CollectedConcat(parse: string -> Option<real>, p: Period, a: seq<MetricResult>,
                                           b: seq<MetricResult>, addr: string, filterDevices: bool)
    requires p.step > 0
    ensures Collected(parse, p, a + b, addr, filterDevices)
         == Collected(parse, p, a, addr, filterDevices) + Collected(parse, p, b, addr, filterDevices)
    decreases |b|
  {
    if b == [] {
      assert a + b == a;
    } else {
      var init := b[..|b| - 1];
      assert (a + b)[..|a + b| - 1] == a + init;
      CollectedConcat(parse, p, a, init, addr, filterDevices);
    }
  }

  /**
   A result gives its series when its "instance" is the node's address and, for network usage, its "device" is none
   of the skipped ones; a missing label reads as the empty text.
   */
  lemma {:induction false} OneCollected(parse: string -> Option<real>, p: Period, r: MetricResult, addr: string,
                                        filterDevices: bool)
    requires p.step > 0
    ensures var here := if "instance" in r.labels then r.labels["instance"] == addr else |addr| == 0;
      var skipped := filterDevices && "device" in r.labels && SkippedDevice(r.labels["device"]);
      Collected(parse, p, [r], addr, filterDevices) == if here && !skipped then [SeriesOf(parse, p, r.values)] else []
  {
    assert [r][..0] == [];
    FoundIffWithin("", DOCKER);
    FoundIffWithin("", DOCKER_INTERFACE);
  }

  /** No kept series has a sample off the grid. */
  predicate AllFit(parse: string -> Option<real>, p: Period, results: seq<MetricResult>, addr: string,
                   filterDevices: bool)
    requires p.step > 0
  {
    forall i :: 0 <= i < |results| && Keeps(results[i], addr, filterDevices) ==> Fits(parse, p, results[i].values)
  }

  lemma {:induction false} CollectedNext(parse: string -> Option<real>, p: Period, results: seq<MetricResult>,
                                         addr: string, filterDevices: bool, i: nat)
    requires p.step > 0 && i < |results|
    ensures Collected(parse, p, results[..i + 1], addr, filterDevices)
         == Collected(parse, p, results[..i], addr, filterDevices)
            + (if Keeps(results[i], addr, filterDevices) then [SeriesOf(parse, p, results[i].values)] else [])
  {
    assert results[..i + 1][..i] == results[..i];
  }

  lemma {:induction false} AllFitNext(parse: string -> Option<real>, p: Period, results: seq<MetricResult>,
                                      addr: string, filterDevices: bool, i: nat)
    requires p.step > 0 && i < |results|
    ensures AllFit(parse, p, results[..i + 1], addr, filterDevices)
       <==> AllFit(parse, p, results[..i], addr, filterDevices)
            && (Keeps(results[i], addr, filterDevices) ==> Fits(parse, p, results[i].values))
    ensures !AllFit(parse, p, results[..i + 1], addr, filterDevices)
        ==> !AllFit(parse, p, results, addr, filterDevices)
  {
    assert forall k :: 0 <= k < i ==> results[..i + 1][k] == results[..i][k];
    assert results[..i + 1][i] == results[i];
  }

  /** What one result adds. */
  method CollectOne(parse: string -> Option<real>, p: Period, result: MetricResult, addr: string, filterDevices: bool)
      returns (r: Outcome<seq<seq<Slot>>>)
    requires IsGrid(p)
    ensures !r.Err?
    ensures r.Ok? <==> (Keeps(result, addr, filterDevices) ==> Fits(parse, p, result.values))
    ensures r.Ok? ==>
      r.value == if Keeps(result, addr, filterDevices) then [SeriesOf(parse, p, result.values)] else []
  {
    if !Keeps(result, addr, filterDevices) {
      return Ok([]);
    }
    var series := GetRatiosWithTimestamp(parse, result.values, p);
    r := if series.Ok? then Ok([series.value]) else Panic;
  }

  method CollectSeries(parse: string -> Option<real>, p: Period, results: seq<MetricResult>, addr: string,
                       filterDevices: bool)
      returns (r: Outcome<seq<seq<Slot>>>)
    requires IsGrid(p)
    ensures !r.Err?
    ensures r.Ok? <==> AllFit(parse, p, results, addr, filterDevices)
    ensures r.Ok? ==> r.value == Collected(parse, p, results, addr, filterDevices)
  {
    var data := [];
    for i := 0 to |results|
      invariant AllFit(parse, p, results[..i], addr, filterDevices)
      invariant data == Collected(parse, p, results[..i], addr, filterDevices)
    {
      CollectedNext(parse, p, results, addr, filterDevices, i);
      AllFitNext(parse, p, results, addr, filterDevices, i);
      var series := CollectOne(parse, p, results[i], addr, filterDevices);
      if !series.Ok? {
        return Panic;
      }
      data := data + series.value;
    }
    assert results[..|results|] == results;
    r := Ok(data);
  }

  // ---------- usage ----------

  function NetworkUsage(data: seq<seq<Slot>>): (r: seq<Slot>)
    requires forall s :: s in data ==> |s| == SLOTS
    ensures data != [] ==> |r| == SLOTS
  {
    if data == [] then []
    else
      assert data[0] in data;
      seq(SLOTS, j requires 0 <= j < SLOTS => Slot(data[0][j].timestamp, ColumnSum(data, j)))
  }

  function DiscRatio(free: real, total: real): real {
    if total != 0.0 then (total - free) / total else 0.0
  }

  function DiscUsage(free: seq<seq<Slot>>, total: seq<seq<Slot>>): (r: seq<Slot>)
    requires forall s :: s in free ==> |s| == SLOTS
    requires forall s :: s in total ==> |s| == SLOTS
    ensures free != [] ==> |r| == SLOTS
  {
    if free == [] then []
    else
      assert free[0] in free;
      seq(SLOTS, j requires 0 <= j < SLOTS =>
        Slot(free[0][j].timestamp, DiscRatio(ColumnSum(free, j), ColumnSum(total, j))))
  }

  /** Disc usage of a slot is the used share of its total: ratio * total = total - free, and 0 without a total. */
  lemma {:induction false} DiscSlot(free: seq<seq<Slot>>, total: seq<seq<Slot>>, j: nat)
    requires (forall s :: s in free ==> |s| == SLOTS) && (forall s :: s in total ==> |s| == SLOTS)
    requires free != [] && j < SLOTS
    ensures var ratio, f, t := DiscUsage(free, total)[j].ratio, ColumnSum(free, j), ColumnSum(total, j);
      && (t != 0.0 ==> ratio * t == t - f)
      && (t == 0.0 ==> ratio == 0.0)
      && (t != 0.0 && f == t ==> ratio == 0.0)
      && (t != 0.0 && f == 0.0 ==> ratio == 1.0)
    ensures free[0] in free && DiscUsage(free, total)[j].timestamp == free[0][j].timestamp
  {
    hide DiscRatio, ColumnSum;
    Share(ColumnSum(free, j), ColumnSum(total, j));
  }

  lemma {:induction false} Share(free: real, total: real)
    ensures total != 0.0 ==> DiscRatio(free, total) * total == total - free
    ensures total == 0.0 ==> DiscRatio(free, total) == 0.0
    ensures total != 0.0 && free == total ==> DiscRatio(free, total) == 0.0
    ensures total != 0.0 && free == 0.0 ==> DiscRatio(free, total) == 1.0
  {
    if total != 0.0 {
      assert total / total == 1.0;
    }
  }

  /** The more is free the less is used. */
  lemma {:induction false} UsageFallsAsFreeGrows(free: seq<seq<Slot>>, more: seq<seq<Slot>>, total: seq<seq<Slot>>,
                                                 j: nat)
    requires (forall s :: s in free ==> |s| == SLOTS) && (forall s :: s in more ==> |s| == SLOTS)
    requires (forall s :: s in total ==> |s| == SLOTS) && free != [] && more != [] && j < SLOTS
    requires ColumnSum(total, j) > 0.0 && ColumnSum(free, j) < ColumnSum(more, j)
    ensures DiscUsage(more, total)[j].ratio < DiscUsage(free, total)[j].ratio
  {
    LessShare(ColumnSum(free, j), ColumnSum(more, j), ColumnSum(total, j));
  }

  lemma Difference(a: real, b: real, y: real)
    ensures (a - b) * y == a * y - b * y
  {
  }

  lemma PositiveFactor(x: real, y: real)
    ensures y > 0.0 && x * y > 0.0 ==> x > 0.0
  {
  }

  lemma {:induction false} LessShare(free: real, more: real, total: real)
    requires total > 0.0 && free < more
    ensures DiscRatio(more, total) < DiscRatio(free, total)
  {
    hide DiscRatio;
    Share(free, total);
    Share(more, total);
    var a, b := DiscRatio(free, total), DiscRatio(more, total);
    Difference(a, b, total);
    PositiveFactor(a - b, total);
  }

  /** One series is shown as it is, and each further one adds its own value slot by slot. */
  lemma {:induction false} NetworkSlot(data: seq<seq<Slot>>, row: seq<Slot>, j: nat)
    requires (forall s :: s in data ==> |s| == SLOTS) && |row| == SLOTS && j < SLOTS
    ensures (forall s :: s in data + [row] ==> |s| == SLOTS)
    ensures data == [] ==> NetworkUsage(data + [row])[j] == row[j]
    ensures data != [] ==>
      && NetworkUsage(data + [row])[j].timestamp == NetworkUsage(data)[j].timestamp
      && NetworkUsage(data + [row])[j].ratio == NetworkUsage(data)[j].ratio + row[j].ratio
  {
    assert (data + [row])[..|data|] == data;
    if data == [] {
      assert data + [row] == [row];
      assert ColumnSum([row], j) == ColumnSum([], j) + row[j].ratio;
    }
  }

  class Node {
    const ip: string
    var discUsage: seq<Slot>
    var network: seq<Slot>

    constructor (ip: string)
      ensures this.ip == ip && discUsage == [] && network == []
    {
      this.ip := ip;
      discUsage, network := [], [];
    }

    method AppendNetwork(data: seq<seq<Slot>>)
      requires data != [] && forall s :: s in data ==> |s| == SLOTS
      modifies this`network
      ensures network == old(network) + NetworkUsage(data)
    {
      ghost var before, usage := network, NetworkUsage(data);
      assert data[0] in data;
      for j := 0 to |data[0]|
        invariant network == before + usage[..j]
      {
        var sum := SumColumn(data, j);
        network := network + [Slot(data[0][j].timestamp, sum)];
        AppendNext(before, usage, j);
      }
      assert usage[..SLOTS] == usage;
    }

    static method SumRatio(dataFree: seq<seq<Slot>>, dataUsed: seq<seq<Slot>>, j: nat) returns (ratio: real)
      requires forall s :: s in dataFree ==> j < |s|
      requires forall s :: s in dataUsed ==> j < |s|
      ensures ratio == DiscRatio(ColumnSum(dataFree, j), ColumnSum(dataUsed, j))
    {
      var sumFree := SumColumn(dataFree, j);
      var sumUsed := SumColumn(dataUsed, j);
      ratio := if sumUsed != 0.0 then (sumUsed - sumFree) / sumUsed else 0.0;
    }

    method AppendDisc(dataFree: seq<seq<Slot>>, dataUsed: seq<seq<Slot>>)
      requires dataFree != [] && forall s :: s in dataFree ==> |s| == SLOTS
      requires forall s :: s in dataUsed ==> |s| == SLOTS
      modifies this`discUsage
      ensures discUsage == old(discUsage) + DiscUsage(dataFree, dataUsed)
    {
      ghost var before, usage := discUsage, DiscUsage(dataFree, dataUsed);
      assert dataFree[0] in dataFree;
      for j := 0 to |dataFree[0]|
        invariant discUsage == before + usage[..j]
      {
        var ratio := SumRatio(dataFree, dataUsed, j);
        discUsage := discUsage + [Slot(dataFree[0][j].timestamp, ratio)];
        AppendNext(before, usage, j);
      }
      assert usage[..SLOTS] == usage;
    }

    method ResolveNetworkValues(parse: string -> Option<real>, p: Period, results: seq<MetricResult>, port: string)
        returns (r: Outcome<()>)
      requires IsGrid(p)
      modifies this`network
      ensures var outcome := NetworkOutcome(parse, p, results, ip + ":" + port);
        && r == (if outcome.Ok? then Ok(()) else Panic)
        && network == old(network) + (if outcome.Ok? then outcome.value else [])
    {
      var collected := CollectSeries(parse, p, results, ip + ":" + port, true);
      if !collected.Ok? {
        return Panic;
      }
      if collected.value != [] {
        AppendNetwork(collected.value);
      }
      r := Ok(());
    }

    method ResolveDiscValues(parse: string -> Option<real>, p: Period, free: seq<MetricResult>,
                             total: seq<MetricResult>, port: string)
        returns (r: Outcome<()>)
      requires IsGrid(p)
      modifies this`discUsage
      ensures var outcome := DiscOutcome(parse, p, free, total, ip + ":" + port);
        && (r.Panic? <==> outcome.Panic?)
        && (r.Err? <==> outcome.Err?)
        && discUsage == old(discUsage) + (if outcome.Ok? then outcome.value else [])
    {
      var dataFree := CollectSeries(parse, p, free, ip + ":" + port, false);
      if !dataFree.Ok? {
        return Panic;
      }
      var dataUsed := CollectSeries(parse, p, total, ip + ":" + port, false);
      if !dataUsed.Ok? {
        return Panic;
      }
      if |dataUsed.value| != |dataFree.value| {
        return Err;
      }
      if dataFree.value != [] {
        AppendDisc(dataFree.value, dataUsed.value);
      }
      r := Ok(());
    }
  }

  /** How one node takes a network response: the summed slots, or a sample off the grid. */
  function NetworkOutcome(parse: string -> Option<real>, p: Period, results: seq<MetricResult>, addr: string)
    : (r: Outcome<seq<Slot>>)
    requires p.step > 0
    ensures !r.Err?
  {
    if AllFit(parse, p, results, addr, true) then Ok(NetworkUsage(Collected(parse, p, results, addr, true))) else Panic
  }

  /**
   All nodes of a response in turn. The call stops at the first node with a sample off the grid: the `done`
   nodes before it keep what they gained, the others are untouched.
   */
  method ResolveNetworkValues(parse: string -> Option<real>, p: Period, nodes: seq<Node>, results: seq<MetricResult>,
                              port: string)
      returns (r: Outcome<()>, ghost done: nat)
    requires IsGrid(p) && forall i, j :: 0 <= i < j < |nodes| ==> nodes[i] != nodes[j]
    modifies (set n | n in nodes)`network
    ensures done <= |nodes| && r == (if done == |nodes| then Ok(()) else Panic)
    ensures forall i :: 0 <= i < done ==>
      && NetworkOutcome(parse, p, results, nodes[i].ip + ":" + port).Ok?
      && nodes[i].network
         == old(nodes[i].network) + NetworkOutcome(parse, p, results, nodes[i].ip + ":" + port).value
    ensures done < |nodes| ==> NetworkOutcome(parse, p, results, nodes[done].ip + ":" + port).Panic?
    ensures forall i :: done <= i < |nodes| ==> nodes[i].network == old(nodes[i].network)
  {
    hide NetworkOutcome;
    done := 0;
    for k := 0 to |nodes|
      invariant done == k
      invariant forall i :: 0 <= i < k ==>
        && NetworkOutcome(parse, p, results, nodes[i].ip + ":" + port).Ok?
        && nodes[i].network
           == old(nodes[i].network) + NetworkOutcome(parse, p, results, nodes[i].ip + ":" + port).value
      invariant forall i :: k <= i < |nodes| ==> nodes[i].network == old(nodes[i].network)
    {
      var node := nodes[k];
      r := node.ResolveNetworkValues(parse, p, results, port);
      if !r.Ok? {
        assert node.network == old(node.network);
        return;
      }
      done := k + 1;
    }
    r := Ok(());
  }

  lemma {:induction false} CollectedOnGrid(parse: string -> Option<real>, p: Period, results: seq<MetricResult>,
                                           addr: string, filterDevices: bool, j: nat)
    requires p.step > 0 && j < SLOTS
    ensures forall s: seq<Slot> :: s in Collected(parse, p, results, addr, filterDevices) ==>
      s[j].timestamp == p.begin + j * p.step
    decreases |results|
  {
    if results == [] {
    } else {
      CollectedOnGrid(parse, p, results[..|results| - 1], addr, filterDevices, j);
    }
  }

  /** What a node takes from a response that fits: a slot per grid time with the sum over its series, or nothing. */
  lemma {:induction false} NetworkOutcomeMeans(parse: string -> Option<real>, p: Period, results: seq<MetricResult>,
                                               addr: string, j: nat)
    requires p.step > 0 && j < SLOTS && NetworkOutcome(parse, p, results, addr).Ok?
    ensures var data, r := Collected(parse, p, results, addr, true), NetworkOutcome(parse, p, results, addr).value;
      && (data == [] <==> r == [])
      && (data != [] ==> |r| == SLOTS && r[j] == Slot(p.begin + j * p.step, ColumnSum(data, j)))
  {
    CollectedOnGrid(parse, p, results, addr, true, j);
    var data := Collected(parse, p, results, addr, true);
    if data != [] {
      assert data[0] in data;
    }
  }

  /** How one node takes a pair of disc responses: Ok, a count mismatch, or a sample off the grid. */
  function DiscOutcome(parse: string -> Option<real>, p: Period, free: seq<MetricResult>, total: seq<MetricResult>,
                       addr: string): Outcome<seq<Slot>>
    requires p.step > 0
  {
    if !AllFit(parse, p, free, addr, false) || !AllFit(parse, p, total, addr, false) then Panic
    else
      var f, t := Collected(parse, p, free, addr, false), Collected(parse, p, total, addr, false);
      if |f| != |t| then Err else Ok(DiscUsage(f, t))
  }

  /** It errs exactly when the numbers of series differ; each slot then gives the used share at its grid time. */
  lemma {:induction false} DiscOutcomeMeans(parse: string -> Option<real>, p: Period, free: seq<MetricResult>,
                                            total: seq<MetricResult>, addr: string, j: nat)
    requires p.step > 0 && j < SLOTS && !DiscOutcome(parse, p, free, total, addr).Panic?
    ensures var f, t := Collected(parse, p, free, addr, false), Collected(parse, p, total, addr, false);
      var outcome := DiscOutcome(parse, p, free, total, addr);
      && (outcome.Err? <==> |f| != |t|)
      && (outcome.Ok? && f == [] ==> outcome.value == [])
      && (outcome.Ok? && f != [] ==>
           var used, all := ColumnSum(t, j) - ColumnSum(f, j), ColumnSum(t, j);
           && |outcome.value| == SLOTS && outcome.value[j].timestamp == p.begin + j * p.step
           && (if all == 0.0 then outcome.value[j].ratio == 0.0 else outcome.value[j].ratio * all == used))
  {
    hide AllFit, Collected, DiscRatio, DiscUsage, ColumnSum;
    var f, t := Collected(parse, p, free, addr, false), Collected(parse, p, total, addr, false);
    CollectedOnGrid(parse, p, free, addr, false, j);
    if f != [] {
      DiscSlot(f, t, j);
    } else {
      NoDiscs(t);
    }
  }

  lemma {:induction false} NoDiscs(total: seq<seq<Slot>>)
    requires forall s :: s in total ==> |s| == SLOTS
    ensures DiscUsage([], total) == []
  {
  }

  /** A kept result holds a sample that is written at a time off the grid. */
  ghost predicate OffGrid(parse: string -> Option<real>, p: Period, results: seq<MetricResult>, addr: string,
                          filterDevices: bool)
  {
    exists i, j :: 0 <= i < |results| && Keeps(results[i], addr, filterDevices) && 0 <= j < |results[i].values|
      && var vs := results[i].values[j];
         && Writes(parse, vs)
         && !(p.begin - p.step < TimestampOf(vs) < p.begin + 301 * p.step)
  }

  lemma {:induction false} AllFitIff(parse: string -> Option<real>, p: Period, results: seq<MetricResult>,
                                     addr: string, filterDevices: bool)
    requires IsGrid(p)
    ensures AllFit(parse, p, results, addr, filterDevices) <==> !OffGrid(parse, p, results, addr, filterDevices)
  {
    forall t ensures InGrid(p, t) <==> p.begin - p.step < t < p.begin + 301 * p.step {
      InGridIff(p, t);
    }
    hide InGrid;
  }

  /** A node's part of the call panics exactly for such a sample; other nodes and skipped devices do not matter. */
  lemma {:induction false} PanicsOffGrid(parse: string -> Option<real>, p: Period, results: seq<MetricResult>,
                                         free: seq<MetricResult>, total: seq<MetricResult>, addr: string)
    requires IsGrid(p)
    ensures NetworkOutcome(parse, p, results, addr).Panic? <==> OffGrid(parse, p, results, addr, true)
    ensures DiscOutcome(parse, p, free, total, addr).Panic?
       <==> OffGrid(parse, p, free, addr, false) || OffGrid(parse, p, total, addr, false)
  {
    hide AllFit, OffGrid, Collected, NetworkUsage, DiscUsage;
    AllFitIff(parse, p, results, addr, true);
    AllFitIff(parse, p, free, addr, false);
    AllFitIff(parse, p, total, addr, false);
  }

  /** All nodes in turn, stopping at the first that errs or panics; earlier nodes keep what they gained. */
  method ResolveDiscValues(parse: string -> Option<real>, p: Period, nodes: seq<Node>, free: seq<MetricResult>,
                           total: seq<MetricResult>, port: string)
      returns (r: Outcome<()>, ghost done: nat)
    requires IsGrid(p) && forall i, j :: 0 <= i < j < |nodes| ==> nodes[i] != nodes[j]
    modifies (set n | n in nodes)`discUsage
    ensures done <= |nodes| && (r == Ok(()) <==> done == |nodes|)
    ensures forall i :: 0 <= i < done ==>
      && DiscOutcome(parse, p, free, total, nodes[i].ip + ":" + port).Ok?
      && nodes[i].discUsage
         == old(nodes[i].discUsage) + DiscOutcome(parse, p, free, total, nodes[i].ip + ":" + port).value
    ensures done < |nodes| ==>
      && (r.Err? <==> DiscOutcome(parse, p, free, total, nodes[done].ip + ":" + port).Err?)
      && (r.Panic? <==> DiscOutcome(parse, p, free, total, nodes[done].ip + ":" + port).Panic?)
    ensures forall i :: done <= i < |nodes| ==> nodes[i].discUsage == old(nodes[i].discUsage)
  {
    hide DiscOutcome;
    done := 0;
    for k := 0 to |nodes|
      invariant done == k
      invariant forall i :: 0 <= i < k ==>
        && DiscOutcome(parse, p, free, total, nodes[i].ip + ":" + port).Ok?
        && nodes[i].discUsage
           == old(nodes[i].discUsage) + DiscOutcome(parse, p, free, total, nodes[i].ip + ":" + port).value
      invariant forall i :: k <= i < |nodes| ==> nodes[i].discUsage == old(nodes[i].discUsage)
    {
      var node := nodes[k];
      r := node.ResolveDiscValues(parse, p, free, total, port);
      if !r.Ok? {
        assert node.discUsage == old(node.discUsage);
        return;
      }
      done := k + 1;
    }
    r := Ok(());
  }

  lemma {:induction false} AppendNext(before: seq<Slot>, usage: seq<Slot>, j: nat)
    requires j < |usage|
    ensures (before + usage[..j]) + [usage[j]] == before + usage[..j + 1]
  {
  }

  /** Network usage conserves the data: its total is the total of all series that were kept. */
  lemma {:induction false} NetworkUsageConserves(data: seq<seq<Slot>>)
    requires forall s :: s in data ==> |s| == SLOTS
    ensures RowSum(NetworkUsage(data)) == TotalByRows(data)
  {
    TotalsAgree(data, SLOTS);
    if data != [] {
      UsagePrefix(data, SLOTS);
      assert NetworkUsage(data)[..SLOTS] == NetworkUsage(data);
    }
  }

  lemma {:induction false} UsagePrefix(data: seq<seq<Slot>>, n: nat)
    requires data != [] && n <= SLOTS && forall s :: s in data ==> |s| == SLOTS
    ensures RowSum(NetworkUsage(data)[..n]) == TotalByColumns(data, n)
  {
    if n == 0 {
    } else {
      UsagePrefix(data, n - 1);
      assert NetworkUsage(data)[..n][..n - 1] == NetworkUsage(data)[..n - 1];
    }
  }

  predicate Below(free: seq<seq<Slot>>, total: seq<seq<Slot>>, j: nat) {
    && |free| == |total|
    && (forall i :: 0 <= i < |free| ==>
         j < |free[i]| && j < |total[i]| && 0.0 <= free[i][j].ratio <= total[i][j].ratio)
  }

  lemma {:induction false} SumsBelow(free: seq<seq<Slot>>, total: seq<seq<Slot>>, j: nat)
    requires Below(free, total, j)
    ensures 0.0 <= ColumnSum(free, j) <= ColumnSum(total, j)
    decreases |free|
  {
    if free == [] {
    } else {
      SumsBelow(free[..|free| - 1], total[..|total| - 1], j);
    }
  }

  /** Free space that never exceeds the size of its disc gives a usage between 0 and 1. */
  lemma {:induction false} DiscUsageIsARatio(free: seq<seq<Slot>>, total: seq<seq<Slot>>, j: nat)
    requires (forall s :: s in free ==> |s| == SLOTS) && (forall s :: s in total ==> |s| == SLOTS)
    requires free != [] && j < SLOTS && Below(free, total, j)
    ensures 0.0 <= DiscUsage(free, total)[j].ratio <= 1.0
  {
    SumsBelow(free, total, j);
    FractionBounds(ColumnSum(free, j), ColumnSum(total, j));
  }

  lemma FractionBounds(free: real, total: real)
    requires 0.0 <= free <= total
    ensures 0.0 <= DiscRatio(free, total) <= 1.0
  {
    if total != 0.0 {
      var q := (total - free) / total;
      assert q * total == total - free;
      if q > 1.0 {
        assert q * total > total;
      }
    }
  }
}
