/** The TrueNAS tracker: queries the reporting API for the "interface" graph, keeps per-series
    minimum, mean, maximum and average in a dictionary of graphs, and draws each as three
    layered bars. Floating-point values are modelled as reals. */
module TrueNasTrackers {
  import opened Primitives
  import opened Profiles
  import opened Devices
  import DriverProperties

  // ---------------------------------------------------------------------------------------
  // Graphs

  /** The statistics of one series of a graph. */
  datatype Aggregation = Aggregation(min: real, mean: real, max: real, average: real)

  const Unset: Aggregation := Aggregation(0.0, 0.0, 0.0, 0.0)

  /** A graph as the tracker keeps it: one aggregation per series, named by the legend. */
  datatype Graph = Graph(legend: seq<string>, aggregations: seq<Aggregation>)

  /** The Graph constructor gives every series a name. */
  predicate WellFormed(g: Graph)
  {
    |g.legend| == |g.aggregations|
  }

  /** Every graph in the dictionary is well formed. */
  predicate AllWellFormed(graphs: map<string, Graph>)
  {
    forall name :: name in graphs ==> WellFormed(graphs[name])
  }

  /** new Graph(length, legend): `length` aggregations, all zero. */
  function NewGraph(legend: seq<string>): (g: Graph)
    ensures WellFormed(g) && g.legend == legend
    ensures forall j :: 0 <= j < |g.aggregations| ==> g.aggregations[j] == Unset
  {
    Graph(legend, seq(|legend|, _ => Unset))
  }

  /** The "aggregations" object of a reply: per-series minimum, mean and maximum. */
  datatype Aggregations = Aggregations(min: map<string, real>, mean: map<string, real>, max: map<string, real>)

  /** Whether all three dictionaries hold the series. */
  predicate Complete(aggs: Aggregations, key: string)
  {
    key in aggs.min && key in aggs.mean && key in aggs.max
  }

  /** One aggregation after UpdateAggregations looks its series up: the minimum, the mean and
      the maximum are copied in that order, up to the first dictionary missing the series. */
  function Refreshed(a: Aggregation, key: string, aggs: Aggregations): (r: Aggregation)
    ensures r.average == a.average
    ensures Complete(aggs, key) ==> r == Aggregation(aggs.min[key], aggs.mean[key], aggs.max[key], a.average)
    ensures key !in aggs.min ==> r == a
  {
    if key !in aggs.min then a
    else if key !in aggs.mean then a.(min := aggs.min[key])
    else if key !in aggs.max then a.(min := aggs.min[key], mean := aggs.mean[key])
    else Aggregation(aggs.min[key], aggs.mean[key], aggs.max[key], a.average)
  }

  /** The index of the first series some dictionary is missing, or |legend|. */
  function FirstMissing(legend: seq<string>, aggs: Aggregations): (k: nat)
    ensures k <= |legend|
    ensures forall j :: 0 <= j < k ==> Complete(aggs, legend[j])
    ensures k < |legend| ==> !Complete(aggs, legend[k])
  {
    if legend == [] then 0
    else if !Complete(aggs, legend[0]) then 0
    else
      var k := FirstMissing(legend[1..], aggs);
      assert forall j :: 1 <= j < k + 1 ==> legend[j] == legend[1..][j - 1];
      k + 1
  }

  /** Graph.UpdateAggregations: every series up to and including the first incomplete one is
      refreshed; the first incomplete one throws KeyNotFound. */
  function Refresh(g: Graph, aggs: Aggregations): (r: (Graph, Outcome))
    requires WellFormed(g)
    ensures WellFormed(r.0) && r.0.legend == g.legend
    ensures r.1 == Done <==> forall j :: 0 <= j < |g.legend| ==> Complete(aggs, g.legend[j])
    ensures r.1.Thrown? ==> r.1.fault == KeyNotFound
  {
    var k := FirstMissing(g.legend, aggs);
    (Graph(g.legend, seq(|g.aggregations|, j requires 0 <= j < |g.aggregations| =>
       if j <= k then Refreshed(g.aggregations[j], g.legend[j], aggs) else g.aggregations[j])),
     if k < |g.legend| then Thrown(KeyNotFound) else Done)
  }

  /** The averaging loop of CalculateAverages: series j gets sums[j] / count; a graph with
      fewer series than sums throws IndexOutOfRange after filling the ones it has. */
  function WithAverages(g: Graph, sums: seq<real>, count: nat): (r: (Graph, Outcome))
    requires count > 0
    ensures r.0.legend == g.legend && |r.0.aggregations| == |g.aggregations|
    ensures r.1 == Done <==> |sums| <= |g.aggregations|
    ensures r.1.Thrown? ==> r.1.fault == IndexOutOfRange
  {
    (Graph(g.legend, seq(|g.aggregations|, j requires 0 <= j < |g.aggregations| =>
       if j < |sums| then g.aggregations[j].(average := sums[j] / count as real) else g.aggregations[j])),
     if |sums| <= |g.aggregations| then Done else Thrown(IndexOutOfRange))
  }

  // ---------------------------------------------------------------------------------------
  // Column sums

  /** The sum of column `col` over the data points (a point too short adds nothing). */
  function ColumnSum(data: seq<seq<real>>, col: nat): real
  {
    if data == [] then 0.0
    else ColumnSum(data[..|data| - 1], col) + (if col < |data[|data| - 1]| then data[|data| - 1][col] else 0.0)
  }

  /** The sum lies between the point count times any lower and upper bound of the column, so
      the average lies between the bounds. */
  lemma {:induction false} ColumnSumBounds(data: seq<seq<real>>, col: nat, lo: real, hi: real)
    requires forall k :: 0 <= k < |data| ==> col < |data[k]| && lo <= data[k][col] <= hi
    ensures |data| as real * lo <= ColumnSum(data, col) <= |data| as real * hi
  {
    if data != [] {
      var init := data[..|data| - 1];
      assert forall k :: 0 <= k < |init| ==> init[k] == data[k];
      ColumnSumBounds(init, col, lo, hi);
    }
  }

  /** Whether every data point has a value for every legend entry the sums read. */
  predicate Covers(data: seq<seq<real>>, start: nat, width: nat)
  {
    width <= start || forall k :: 0 <= k < |data| ==> width <= |data[k]|
  }

  /** The column sums of CalculateAverages: columns start..width-1 summed over all points; a
      point shorter than the legend throws IndexOutOfRange. */
  method ColumnSums(data: seq<seq<real>>, start: nat, width: nat) returns (sums: seq<real>, ok: bool)
    requires start <= width
    ensures ok <==> Covers(data, start, width)
    ensures ok ==> |sums| == width - start && forall j :: 0 <= j < |sums| ==> sums[j] == ColumnSum(data, start + j)
  {
    var a := new real[width - start](_ => 0.0);
    var k := 0;
    while k < |data|
      invariant 0 <= k <= |data|
      invariant Covers(data[..k], start, width)
      invariant forall j :: 0 <= j < a.Length ==> a[j] == ColumnSum(data[..k], start + j)
    {
      var point := data[k];
      assert data[..k + 1][..k] == data[..k];
      var i := start;
      while i < width
        invariant start <= i <= width
        invariant start < width ==> start < i ==> i <= |point|
        invariant forall j :: 0 <= j < a.Length ==>
          a[j] == if start + j < i then ColumnSum(data[..k + 1], start + j) else ColumnSum(data[..k], start + j)
      {
        if i >= |point| {
          assert !Covers(data, start, width) by {
            assert |data[k]| < width;
          }
          return a[..], false;
        }
        a[i - start] := a[i - start] + point[i];
        i := i + 1;
      }
      assert forall k' :: 0 <= k' < k + 1 ==> data[..k + 1][k'] == data[k'];
      k := k + 1;
    }
    assert data[..k] == data;
    return a[..], true;
  }

  // ---------------------------------------------------------------------------------------
  // Absorbing a reply

  /** One element of the reporting reply. */
  datatype GraphResponse = GraphResponse(
    name: string,
    data: seq<seq<real>>,
    legend: seq<string>,
    end: int,
    aggregations: Aggregations)

  /** Whether the legend starts with the time column, which the data carries but the graph
      does not keep. */
  predicate HasTime(legend: seq<string>)
  {
    |legend| > 0 && legend[0] == "time"
  }

  function LegendStart(legend: seq<string>): nat
  {
    if HasTime(legend) then 1 else 0
  }

  /** One graph of the reply folded into the dictionary: a graph with no data points is
      skipped; otherwise the sums are taken, the graph is fetched or created under its name,
      its aggregations refreshed and its averages set, stopping at the first exception. */
  function AbsorbGraph(graphs: map<string, Graph>, r: GraphResponse): (result: (map<string, Graph>, Outcome))
    requires AllWellFormed(graphs)
    ensures AllWellFormed(result.0)
    ensures forall name :: name != r.name ==> (name in result.0 <==> name in graphs)
    ensures forall name :: name in graphs && name != r.name ==> result.0[name] == graphs[name]
    ensures result.0.Keys == if |r.data| > 0 && Covers(r.data, LegendStart(r.legend), |r.legend|)
                             then graphs.Keys + {r.name} else graphs.Keys
  {
    if |r.data| == 0 then (graphs, Done)
    else
      var start := LegendStart(r.legend);
      var legend := r.legend[start..];
      if !Covers(r.data, start, |r.legend|) then (graphs, Thrown(IndexOutOfRange))
      else
        var (g, o) := Absorbed(if r.name in graphs then graphs[r.name] else NewGraph(legend), r);
        StoreWellFormed(graphs, r.name, g);
        (graphs[r.name := g], o)
  }

  /** The graph a reply's entry ends as: its aggregations refreshed and, without an exception,
      its averages set from the column sums. */
  function Absorbed(g0: Graph, r: GraphResponse): (result: (Graph, Outcome))
    requires WellFormed(g0) && |r.data| > 0
    ensures WellFormed(result.0) && result.0.legend == g0.legend
  {
    var start := LegendStart(r.legend);
    var legend := r.legend[start..];
    var (g1, o1) := Refresh(g0, r.aggregations);
    if o1.Thrown? then (g1, o1)
    else
      var sums := seq(|legend|, j requires 0 <= j < |legend| => ColumnSum(r.data, start + j));
      WithAverages(g1, sums, |r.data|)
  }

  /** Storing a well-formed graph under a name keeps the dictionary well formed and touches
      no other name. */
  lemma StoreWellFormed(graphs: map<string, Graph>, name: string, g: Graph)
    requires AllWellFormed(graphs) && WellFormed(g)
    ensures AllWellFormed(graphs[name := g]) && graphs[name := g].Keys == graphs.Keys + {name}
    ensures forall n :: n in graphs && n != name ==> graphs[name := g][n] == graphs[n]
  {
  }

  /** The graphs of a reply folded in order, stopping at the first that throws. */
  function AbsorbAll(graphs: map<string, Graph>, rs: seq<GraphResponse>): (result: (map<string, Graph>, Outcome))
    requires AllWellFormed(graphs)
    ensures AllWellFormed(result.0)
    decreases |rs|
  {
    if rs == [] then (graphs, Done)
    else
      var (g1, o) := AbsorbGraph(graphs, rs[0]);
      if o.Thrown? then (g1, o) else AbsorbAll(g1, rs[1..])
  }

  /** A first reply for a graph whose points cover the legend and whose aggregations name
      every series stores, per series, the reply's minimum, mean and maximum and the column
      average. */
  lemma FirstReplyAverages(graphs: map<string, Graph>, r: GraphResponse, j: nat)
    requires AllWellFormed(graphs) && r.name !in graphs
    requires |r.data| > 0 && Covers(r.data, LegendStart(r.legend), |r.legend|)
    requires forall k :: LegendStart(r.legend) <= k < |r.legend| ==> Complete(r.aggregations, r.legend[k])
    requires j < |r.legend| - LegendStart(r.legend)
    ensures var (after, outcome) := AbsorbGraph(graphs, r);
      var key := r.legend[LegendStart(r.legend) + j];
      outcome == Done && r.name in after && after[r.name].legend == r.legend[LegendStart(r.legend)..] &&
      after[r.name].aggregations[j] ==
        Aggregation(r.aggregations.min[key], r.aggregations.mean[key], r.aggregations.max[key],
                    ColumnSum(r.data, LegendStart(r.legend) + j) / |r.data| as real)
  {
    var start := LegendStart(r.legend);
    var legend := r.legend[start..];
    var g0 := NewGraph(legend);
    var (g1, o1) := Refresh(g0, r.aggregations);
    assert o1 == Done by {
      forall k | 0 <= k < |legend| ensures Complete(r.aggregations, legend[k]) {
        assert legend[k] == r.legend[start + k];
      }
    }
    var sums := seq(|legend|, k requires 0 <= k < |legend| => ColumnSum(r.data, start + k));
    var (g2, o2) := WithAverages(g1, sums, |r.data|);
    assert Absorbed(g0, r) == (g2, o2);
    assert AbsorbGraph(graphs, r) == (graphs[r.name := g2], o2);
    assert legend[j] == r.legend[start + j];
    assert g1.aggregations[j] == Refreshed(Unset, legend[j], r.aggregations);
    assert g2.aggregations[j] == g1.aggregations[j].(average := sums[j] / |r.data| as real);
  }

  /** A reply whose graph has no data points changes nothing. */
  lemma EmptyGraphSkipped(graphs: map<string, Graph>, r: GraphResponse)
    requires AllWellFormed(graphs) && |r.data| == 0
    ensures AbsorbGraph(graphs, r) == (graphs, Done)
  {
  }

  // ---------------------------------------------------------------------------------------
  // Display

  /** DrawAggregationBarX: maximum in colour 7 with clearing, then average in 15 and minimum in
      23 over it; `height` stands for the scaling of a value to a bar height. */
  function AggregationBar(ag: Aggregation, x: byte, height: real -> byte): (calls: seq<DrawCall>)
    ensures |calls| == 3
  {
    [Bar(height(ag.max), x, 7, true), Bar(height(ag.average), x, 15, false), Bar(height(ag.min), x, 23, false)]
  }

  /** The calls one item makes, or the exception it throws. */
  function ItemCalls(item: ProfileItem, graphs: map<string, Graph>, height: real -> byte): (r: Result<seq<DrawCall>>)
    ensures r.Success? <==>
      item.statKey == Some("interface") && "interface" in graphs && item.statValue.Some? &&
      (if |item.statValue.value| == 7 then 0 else 1) < |graphs["interface"].aggregations|
    ensures r.Success? ==> r.value == AggregationBar(
      graphs["interface"].aggregations[if |item.statValue.value| == 7 then 0 else 1], ToByte(item.posX), height)
    ensures item.statKey != Some("interface") ==> r == Failure(ArgumentError)
  {
    if item.statKey != Some("interface") then Failure(ArgumentError)
    else if "interface" !in graphs then Failure(KeyNotFound)
    else if item.statValue.None? then Failure(NullReference)
    else
      var series := if |item.statValue.value| == |"receive"| then 0 else 1;
      var g := graphs["interface"];
      if series >= |g.aggregations| then Failure(IndexOutOfRange)
      else Success(AggregationBar(g.aggregations[series], ToByte(item.posX), height))
  }

  /** The items' calls in order, up to the first item that throws. */
  function DisplayCalls(items: seq<ProfileItem>, graphs: map<string, Graph>, height: real -> byte): (r: Rendering)
    ensures r.fault.None? <==> forall k :: 0 <= k < |items| ==> ItemCalls(items[k], graphs, height).Success?
    decreases |items|
  {
    if items == [] then Rendering([], None)
    else
      match ItemCalls(items[0], graphs, height)
      case Failure(f) => Rendering([], Some(f))
      case Success(calls) =>
        var rest := DisplayCalls(items[1..], graphs, height);
        assert forall k :: 1 <= k < |items| ==> items[k] == items[1..][k - 1];
        Rendering(calls + rest.calls, rest.fault)
  }

  /** Three calls per item, as long as no item throws. */
  lemma {:induction false} DisplayCallCount(items: seq<ProfileItem>, graphs: map<string, Graph>, height: real -> byte)
    ensures var r := DisplayCalls(items, graphs, height);
      r.fault.None? ==> |r.calls| == 3 * |items|
    decreases |items|
  {
    if items != [] {
      DisplayCallCount(items[1..], graphs, height);
    }
  }

  /** The aggregation bar of a grid column completes and leaves, on rows 1..8, the minimum in
      colour 23 under the average in 15 under the maximum in 7. */
  lemma AggregationBarPicture(m: Mirror, ag: Aggregation, x: byte, height: real -> byte)
    requires |m.buffer| == GridCells && x <= 9
    ensures var (after, outcome) := Replay(m, AggregationBar(ag, x, height));
      outcome == Done &&
      forall i :: 1 <= i <= 8 ==>
        after.buffer[x + 10 * i] ==
          if i <= height(ag.min) then 23 else if i <= height(ag.average) then 15 else if i <= height(ag.max) then 7 else 0
  {
    var calls := AggregationBar(ag, x, height);
    DriverProperties.ClearingBarFits(x, height(ag.max));
    DriverProperties.LayerFits(x, height(ag.average));
    DriverProperties.LayerFits(x, height(ag.min));
    DriverProperties.ThreeLayerBar(m.buffer, height(ag.max), height(ag.average), height(ag.min), x);
    var m1 := CallEffect(m, calls[0]);
    var m2 := CallEffect(m1, calls[1]);
    var m3 := CallEffect(m2, calls[2]);
    assert calls[1..][1..][1..] == [];
    assert Replay(m2, calls[1..][1..]) == Replay(m3, []);
    assert Replay(m1, calls[1..]) == Replay(m2, calls[1..][1..]);
  }

  /** IsTruNasConfigured: both the key and the URL are set. */
  function IsTrueNasConfigured(c: AppConfig): (configured: bool)
    ensures configured <==> |c.trueNasApiKey| > 0 && |c.trueNasUrl| > 0
  {
    c.trueNasApiKey != "" && c.trueNasUrl != ""
  }

  /** The default settings configure no server. */
  lemma DefaultConfigNotTrueNas()
    ensures !IsTrueNasConfigured(DefaultConfig())
  {
  }

  // ---------------------------------------------------------------------------------------
  // The tracker

  /** `ms / 1000` in C#, where integer division truncates toward zero: the seconds part keeps
      the sign of the milliseconds and the dropped remainder is under one second. */
  function WholeSeconds(ms: int): (s: int)
    ensures ms >= 0 ==> s >= 0 && 0 <= ms - 1000 * s < 1000
    ensures ms < 0 ==> s <= 0 && -1000 < ms - 1000 * s <= 0
  {
    if ms >= 0 then ms / 1000 else -((-ms) / 1000)
  }

  /** What the POST to the reporting endpoint ends with. */
  datatype ReportReply =
    | TimedOut                                  // TaskCanceledException caused by the client's timeout
    | Canceled                                  // any other TaskCanceledException
    | Unsuccessful                              // a response whose status is not a success
    | Malformed                                 // a body the JSON deserializer rejects
    | Body(graphs: Option<seq<GraphResponse>>)  // the deserialized list, or null

  class TrueNasTracker {
    /** Unix seconds the next query starts from. */
    var lastQueryTime: int
    var graphs: map<string, Graph>

    ghost predicate Valid()
      reads this
    {
      AllWellFormed(graphs)
    }

    /** `now` is the clock in Unix seconds: the first query reaches back one minute. */
    constructor (now: int)
      ensures Valid() && graphs == map[] && lastQueryTime == now - 60
    {
      lastQueryTime := now - 60;
      graphs := map[];
    }

    /** Init(controller, tracker): the first query reaches back one update interval, in whole
        seconds. */
    method Init(now: int, updateInterval: int)
      modifies this`lastQueryTime
      ensures lastQueryTime == now - WholeSeconds(updateInterval)
    {
      lastQueryTime := now - WholeSeconds(updateInterval);
    }

    /** Graph.UpdateAggregations on a graph of the dictionary. */
    static method UpdateAggregations(g: Graph, aggs: Aggregations) returns (r: Graph, outcome: Outcome)
      requires WellFormed(g)
      ensures (r, outcome) == Refresh(g, aggs)
    {
      var a := g.aggregations;
      var i := 0;
      while i < |a|
        invariant 0 <= i <= |g.aggregations| && i <= FirstMissing(g.legend, aggs)
        invariant |a| == |g.aggregations|
        invariant forall j :: 0 <= j < |a| ==>
          a[j] == if j < i then Refreshed(g.aggregations[j], g.legend[j], aggs) else g.aggregations[j]
      {
        var key := g.legend[i];
        var e := a[i];
        if key !in aggs.min {
          assert a[i] == Refreshed(g.aggregations[i], key, aggs);
          assert a == Refresh(g, aggs).0.aggregations;
          return Graph(g.legend, a), Thrown(KeyNotFound);
        }
        e := e.(min := aggs.min[key]);
        a := a[i := e];
        if key !in aggs.mean {
          assert a[i] == Refreshed(g.aggregations[i], key, aggs);
          assert a == Refresh(g, aggs).0.aggregations;
          return Graph(g.legend, a), Thrown(KeyNotFound);
        }
        e := e.(mean := aggs.mean[key]);
        a := a[i := e];
        if key !in aggs.max {
          assert a[i] == Refreshed(g.aggregations[i], key, aggs);
          assert a == Refresh(g, aggs).0.aggregations;
          return Graph(g.legend, a), Thrown(KeyNotFound);
        }
        e := e.(max := aggs.max[key]);
        a := a[i := e];
        i := i + 1;
      }
      assert a == Refresh(g, aggs).0.aggregations;
      return Graph(g.legend, a), Done;
    }

    /** The averaging loop of CalculateAverages. */
    static method SetAverages(g: Graph, sums: seq<real>, count: nat) returns (r: Graph, outcome: Outcome)
      requires count > 0
      ensures (r, outcome) == WithAverages(g, sums, count)
    {
      var a := g.aggregations;
      var i := 0;
      while i < |sums|
        invariant 0 <= i <= |sums| && i <= |a| + 1
        invariant |a| == |g.aggregations| && i <= |a|
        invariant forall j :: 0 <= j < |a| ==>
          a[j] == if j < i then g.aggregations[j].(average := sums[j] / count as real) else g.aggregations[j]
      {
        if i >= |a| {
          assert a == WithAverages(g, sums, count).0.aggregations;
          return Graph(g.legend, a), Thrown(IndexOutOfRange);
        }
        a := a[i := a[i].(average := sums[i] / count as real)];
        i := i + 1;
      }
      assert a == WithAverages(g, sums, count).0.aggregations;
      return Graph(g.legend, a), Done;
    }

    /** One graph of the reply: the body of CalculateAverages' loop. */
    method AbsorbOne(r: GraphResponse) returns (outcome: Outcome)
      requires Valid()
      modifies this`graphs
      ensures Valid()
      ensures (graphs, outcome) == AbsorbGraph(old(graphs), r)
    {
      if |r.data| == 0 {
        return Done;
      }
      var start := if |r.legend| > 0 && r.legend[0] == "time" then 1 else 0;
      var legend := r.legend[start..];
      var sums, ok := ColumnSums(r.data, start, |r.legend|);
      if !ok {
        return Thrown(IndexOutOfRange);
      }
      var g := if r.name in graphs then graphs[r.name] else NewGraph(legend);
      var refreshed, o1 := UpdateAggregations(g, r.aggregations);
      if o1.Thrown? {
        graphs := graphs[r.name := refreshed];
        return o1;
      }
      assert sums == seq(|legend|, j requires 0 <= j < |legend| => ColumnSum(r.data, start + j));
      var averaged, o2 := SetAverages(refreshed, sums, |r.data|);
      graphs := graphs[r.name := averaged];
      outcome := o2;
    }

    /** CalculateAverages(json): nothing for a null or empty list; otherwise the next query
        starts at the first graph's end and the graphs are folded in. */
    method CalculateAveragesFrom(rs: Option<seq<GraphResponse>>) returns (outcome: Outcome)
      requires Valid()
      modifies this`graphs, this`lastQueryTime
      ensures Valid()
      ensures (rs.None? || |rs.value| == 0) ==>
        graphs == old(graphs) && lastQueryTime == old(lastQueryTime) && outcome == Done
      ensures rs.Some? && |rs.value| > 0 ==>
        lastQueryTime == rs.value[0].end && (graphs, outcome) == AbsorbAll(old(graphs), rs.value)
    {
      if rs.None? || |rs.value| == 0 {
        return Done;
      }
      var list := rs.value;
      lastQueryTime := list[0].end;
      var i := 0;
      while i < |list|
        invariant 0 <= i <= |list|
        invariant Valid() && lastQueryTime == list[0].end
        invariant AbsorbAll(old(graphs), list) == AbsorbAll(graphs, list[i..])
      {
        assert list[i..][1..] == list[i + 1..];
        var o := AbsorbOne(list[i]);
        if o.Thrown? {
          return o;
        }
        i := i + 1;
      }
      outcome := Done;
    }

    /** CalculateAverages(): a timeout leaves everything as it was; other failures escape. */
    method CalculateAverages(reply: ReportReply) returns (outcome: Outcome)
      requires Valid()
      modifies this`graphs, this`lastQueryTime
      ensures Valid()
      ensures reply.TimedOut? ==> graphs == old(graphs) && lastQueryTime == old(lastQueryTime) && outcome == Done
      ensures (reply.Canceled? || reply.Unsuccessful? || reply.Malformed?) ==>
        graphs == old(graphs) && lastQueryTime == old(lastQueryTime) && outcome == Thrown(Rethrown)
      ensures reply.Body? && reply.graphs.Some? && |reply.graphs.value| > 0 ==>
        lastQueryTime == reply.graphs.value[0].end && (graphs, outcome) == AbsorbAll(old(graphs), reply.graphs.value)
      ensures reply.Body? && (reply.graphs.None? || |reply.graphs.value| == 0) ==>
        graphs == old(graphs) && lastQueryTime == old(lastQueryTime) && outcome == Done
    {
      match reply
      case TimedOut =>
        return Done;
      case Canceled =>
        return Thrown(Rethrown);
      case Unsuccessful =>
        return Thrown(Rethrown);
      case Malformed =>
        return Thrown(Rethrown);
      case Body(rs) =>
        outcome := CalculateAveragesFrom(rs);
    }

    /** Display(device, tracker): nothing while no graph is known; otherwise the items' bars. */
    method Display(items: seq<ProfileItem>, height: real -> byte) returns (r: Rendering)
      ensures |graphs| == 0 ==> r == Rendering([], None)
      ensures |graphs| > 0 ==> r == DisplayCalls(items, graphs, height)
    {
      if |graphs| == 0 {
        return Rendering([], None);
      }
      var calls: seq<DrawCall> := [];
      var i := 0;
      while i < |items|
        invariant 0 <= i <= |items|
        invariant DisplayCalls(items, graphs, height) ==
          Rendering(calls + DisplayCalls(items[i..], graphs, height).calls, DisplayCalls(items[i..], graphs, height).fault)
      {
        assert items[i..][1..] == items[i + 1..];
        var item := items[i];
        if item.statKey != Some("interface") {
          return Rendering(calls, Some(ArgumentError));
        }
        if "interface" !in graphs {
          return Rendering(calls, Some(KeyNotFound));
        }
        var networkUsage := graphs["interface"];
        if item.statValue.None? {
          return Rendering(calls, Some(NullReference));
        }
        var series := if |item.statValue.value| == |"receive"| then 0 else 1;
        if series >= |networkUsage.aggregations| {
          return Rendering(calls, Some(IndexOutOfRange));
        }
        calls := calls + AggregationBar(networkUsage.aggregations[series], ToByte(item.posX), height);
        i := i + 1;
      }
      assert calls + [] == calls;
      r := Rendering(calls, None);
    }
  }
}
