/**
 Metric series on a fixed time grid: period choice, bucketing of samples, and per-slot sums over series. Ratios
 are real numbers before they are formatted.
 */
module NodeMetrics {
  import opened Filters
  import opened Wrappers

  // ---------- period ----------

  const DEFAULT_PERIOD: string := "6"

  predicate Allowed(value: string) {
    value in {"6", "12", "24", "168", "720", "2160"}
  }

  /** The number an allowed value spells. */
  function Hours(value: string): (r: nat)
    requires Allowed(value)
    ensures Itoa(r) == value
  {
    if value == "6" then 6 else if value == "12" then 12 else if value == "24" then 24
    else if value == "168" then 168 else if value == "720" then 720 else 2160
  }

  /** All values of the period filters, in order. */
  function PeriodValues(filters: seq<Filter>): seq<string> {
    if filters == [] then []
    else if filters[0].name == "period" && filters[0].modifier.Eq? then filters[0].values + PeriodValues(filters[1..])
    else PeriodValues(filters[1..])
  }

  function FirstAllowed(values: seq<string>): (r: string)
    ensures Allowed(r)
  {
    if values == [] then DEFAULT_PERIOD
    else if Allowed(values[0]) then values[0]
    else FirstAllowed(values[1..])
  }

  lemma {:induction false} FirstAllowedSkips(a: seq<string>, b: seq<string>)
    requires forall v :: v in a ==> !Allowed(v)
    ensures FirstAllowed(a + b) == FirstAllowed(b)
  {
    if a == [] {
      assert a + b == b;
    } else {
      assert (a + b)[1..] == a[1..] + b && a[0] in a;
      FirstAllowedSkips(a[1..], b);
    }
  }

  lemma {:induction false} FirstAllowedTakes(a: seq<string>, v: string, b: seq<string>)
    requires Allowed(v) && forall u :: u in a ==> !Allowed(u)
    ensures FirstAllowed(a + [v] + b) == v
  {
    assert a + [v] + b == a + ([v] + b);
    FirstAllowedSkips(a, [v] + b);
  }

  /** The first allowed value of any period filter, or the default. */
  method GetPeriodFromFilters(filters: seq<Filter>) returns (r: string)
    ensures r == FirstAllowed(PeriodValues(filters))
    ensures Allowed(r) && (PeriodValues(filters) == [] ==> r == "6")
  {
    assert filters[0..] == filters;
    for i := 0 to |filters|
      invariant FirstAllowed(PeriodValues(filters[i..])) == FirstAllowed(PeriodValues(filters))
    {
      var filter := filters[i];
      assert filters[i..][1..] == filters[i + 1..];
      if filter.name == "period" && filter.modifier == Eq {
        ghost var rest := PeriodValues(filters[i + 1..]);
        for j := 0 to |filter.values|
          invariant forall v :: v in filter.values[..j] ==> !Allowed(v)
        {
          var value := filter.values[j];
          if Allowed(value) {
            assert filter.values + rest == filter.values[..j] + [value] + (filter.values[j + 1..] + rest);
            FirstAllowedTakes(filter.values[..j], value, filter.values[j + 1..] + rest);
            return value;
          }
          assert filter.values[..j + 1] == filter.values[..j] + [value];
        }
        assert filter.values[..|filter.values|] == filter.values;
        FirstAllowedSkips(filter.values, rest);
      }
    }
    return DEFAULT_PERIOD;
  }

  /** The allowed texts, and the answer when no period filter holds one of them. */
  lemma {:induction false} AllowedPeriods(value: string, filters: seq<Filter>)
    requires forall f :: f in filters && f.name == "period" && f.modifier == Eq ==>
      forall v :: v in f.values ==> !Allowed(v)
    ensures Allowed(value) <==>
      || value == "6" || value == "12" || value == "24" || value == "168" || value == "720" || value == "2160"
    ensures FirstAllowed(PeriodValues(filters)) == "6"
  {
    if filters == [] {
    } else {
      AllowedPeriods(value, filters[1..]);
      if filters[0].name == "period" && filters[0].modifier == Eq {
        FirstAllowedSkips(filters[0].values, PeriodValues(filters[1..]));
      }
    }
  }

  /** The answer is the first allowed value of the first equality filter named "period" that holds one. */
  lemma {:induction false} PeriodAnswer(filters: seq<Filter>, i: nat, j: nat)
    requires i < |filters| && filters[i].name == "period" && filters[i].modifier == Eq
    requires j < |filters[i].values| && Allowed(filters[i].values[j])
    requires forall l :: 0 <= l < j ==> !Allowed(filters[i].values[l])
    requires forall k :: 0 <= k < i && filters[k].name == "period" && filters[k].modifier == Eq ==>
      forall v :: v in filters[k].values ==> !Allowed(v)
    ensures FirstAllowed(PeriodValues(filters)) == filters[i].values[j]
    decreases i
  {
    var first, rest := filters[0], PeriodValues(filters[1..]);
    if i == 0 {
      var values := first.values;
      assert values + rest == values[..j] + [values[j]] + (values[j + 1..] + rest);
      FirstAllowedTakes(values[..j], values[j], values[j + 1..] + rest);
    } else {
      PeriodAnswer(filters[1..], i - 1, j);
      if first.name == "period" && first.modifier == Eq {
        FirstAllowedSkips(first.values, rest);
      }
    }
  }

  /** A filter on "period" picks a week; another modifier or another name is ignored. */
  lemma {:induction false} PeriodExamples()
    ensures FirstAllowed(PeriodValues([Filter("period", Eq, ["7", "168"])])) == "168"
    ensures FirstAllowed(PeriodValues([Filter("period", Other, ["168"])])) == "6"
    ensures FirstAllowed(PeriodValues([Filter("name", Eq, ["168"])])) == "6"
  {
    PeriodAnswer([Filter("period", Eq, ["7", "168"])], 0, 1);
    AllowedPeriods("", [Filter("period", Other, ["168"])]);
    AllowedPeriods("", [Filter("name", Eq, ["168"])]);
  }

  datatype Period = Period(begin: int, end: int, step: int)

  function GenTimePeriodParams(period: int, now: int): Period {
    Period(now - period * 3600, now, period * 12)
  }

  const SLOTS: nat := 301

  predicate IsGrid(p: Period) {
    p.step > 0 && p.end - p.begin == 300 * p.step
  }

  /** The last so many hours, in exactly 300 steps. */
  lemma AllowedPeriodsAreGrids(value: string, now: int)
    requires Allowed(value)
    ensures var p := GenTimePeriodParams(Hours(value), now);
      IsGrid(p) && p.end == now && p.end - p.begin == Hours(value) * 60 * 60
  {
  }

  // ---------- bucketing ----------

  datatype Field = Number(n: real) | Text(s: string) | Neither

  type Sample = seq<Field>

  datatype Slot = Slot(timestamp: int, ratio: real)

  /** Go's conversion from float64 to int64 drops the fraction. */
  function Truncate(r: real): int {
    if r >= 0.0 then r.Floor else -((-r).Floor)
  }

  /** Go's integer division rounds toward zero. */
  function GoDiv(a: int, b: int): int
    requires b > 0
  {
    if a >= 0 then a / b else -((-a) / b)
  }

  /** The last number and the last text of a sample; 0 and "" when there is none. */
  function TimestampOf(vs: Sample): int {
    if vs == [] then 0
    else if vs[|vs| - 1].Number? then Truncate(vs[|vs| - 1].n) else TimestampOf(vs[..|vs| - 1])
  }

  function TextOf(vs: Sample): string {
    if vs == [] then ""
    else if vs[|vs| - 1].Text? then vs[|vs| - 1].s else TextOf(vs[..|vs| - 1])
  }

  method GetTimestampAndValue(values: Sample) returns (timestamp: int, value: string)
    ensures timestamp == TimestampOf(values) && value == TextOf(values)
  {
    timestamp, value := 0, "";
    for i := 0 to |values|
      invariant timestamp == TimestampOf(values[..i]) && value == TextOf(values[..i])
    {
      assert values[..i + 1][..i] == values[..i];
      match values[i]
      case Number(n) => timestamp := Truncate(n);
      case Text(s) => value := s;
      case Neither =>
    }
    assert values[..|values|] == values;
  }

  /** Rounding toward zero. */
  lemma {:induction false} TruncateDropsFraction(r: real)
    ensures r >= 0.0 ==> Truncate(r) as real <= r < Truncate(r) as real + 1.0
    ensures r <= 0.0 ==> Truncate(r) as real - 1.0 < r <= Truncate(r) as real
  {
  }

  lemma {:induction false} LastNumber(vs: Sample, i: nat)
    requires i < |vs| && vs[i].Number? && forall k :: i < k < |vs| ==> !vs[k].Number?
    ensures TimestampOf(vs) == Truncate(vs[i].n)
    decreases |vs|
  {
    if i == |vs| - 1 {
    } else {
      LastNumber(vs[..|vs| - 1], i);
    }
  }

  /** A sample without a number has timestamp 0, and one without a text the empty value; neither is written. */
  lemma {:induction false} NoNumberNoText(vs: Sample)
    ensures (forall k :: 0 <= k < |vs| ==> !vs[k].Number?) ==> TimestampOf(vs) == 0
    ensures (forall k :: 0 <= k < |vs| ==> !vs[k].Text?) ==> |TextOf(vs)| == 0
    decreases |vs|
  {
    if vs == [] {
    } else {
      NoNumberNoText(vs[..|vs| - 1]);
    }
  }

  lemma {:induction false} LastText(vs: Sample, i: nat)
    requires i < |vs| && vs[i].Text? && forall k :: i < k < |vs| ==> !vs[k].Text?
    ensures TextOf(vs) == vs[i].s
    decreases |vs|
  {
    if i == |vs| - 1 {
    } else {
      LastText(vs[..|vs| - 1], i);
    }
  }

  /** A sample is written when its timestamp is not 0 and its text parses as a number. */
  predicate Writes(parse: string -> Option<real>, vs: Sample) {
    TimestampOf(vs) != 0 && parse(TextOf(vs)).Some?
  }

  function SlotIndex(p: Period, t: int): int
    requires p.step > 0
  {
    GoDiv(t - p.begin, p.step)
  }

  predicate InGrid(p: Period, t: int)
    requires p.step > 0
  {
    0 <= SlotIndex(p, t) < SLOTS
  }

  lemma ScaleUp(x: int, y: int, b: int)
    requires x <= y && b > 0
    ensures x * b <= y * b
  {
    assert (y - x) * b >= 0;
  }

  lemma QuotientParts(a: int, b: int)
    requires b > 0
    ensures (a / b) * b <= a < (a / b + 1) * b
  {
  }

  lemma {:induction false} QuotientBelow(a: int, b: int, n: int)
    requires a >= 0 && b > 0
    ensures a / b < n <==> a < n * b
  {
    QuotientParts(a, b);
    if a / b < n {
      ScaleUp(a / b + 1, n, b);
    } else {
      ScaleUp(n, a / b, b);
    }
  }

  /** The write stays inside the grid exactly for t between one step before the begin and one step after the end. */
  lemma {:induction false} InGridIff(p: Period, t: int)
    requires IsGrid(p)
    ensures InGrid(p, t) <==> p.begin - p.step < t < p.begin + 301 * p.step
  {
    if t >= p.begin {
      QuotientBelow(t - p.begin, p.step, SLOTS);
    } else {
      QuotientBelow(p.begin - t, p.step, 1);
    }
  }

  /** Rounding toward zero puts the step before the begin into the first slot too. */
  lemma {:induction false} SlotIndexIff(p: Period, t: int, k: nat)
    requires IsGrid(p) && k < SLOTS
    ensures SlotIndex(p, t) == k
       <==> p.begin + (if k == 0 then -p.step + 1 else k * p.step) <= t < p.begin + (k + 1) * p.step
  {
    if t >= p.begin {
      QuotientBelow(t - p.begin, p.step, k);
      QuotientBelow(t - p.begin, p.step, k + 1);
      if k == 0 {
        assert k * p.step == 0;
      }
    } else {
      QuotientBelow(p.begin - t, p.step, 1);
      assert k * p.step >= 0;
    }
  }

  /** What slot `k` must hold: the last written sample that maps to it, or 0. */
  function LastIn(parse: string -> Option<real>, p: Period, values: seq<Sample>, k: int): real
    requires p.step > 0
  {
    if values == [] then 0.0
    else
      var vs := values[|values| - 1];
      if Writes(parse, vs) && SlotIndex(p, TimestampOf(vs)) == k then parse(TextOf(vs)).value
      else LastIn(parse, p, values[..|values| - 1], k)
  }

  predicate Fits(parse: string -> Option<real>, p: Period, values: seq<Sample>)
    requires p.step > 0
  {
    forall i :: 0 <= i < |values| && Writes(parse, values[i]) ==> InGrid(p, TimestampOf(values[i]))
  }

  function SeriesOf(parse: string -> Option<real>, p: Period, values: seq<Sample>): (r: seq<Slot>)
    requires p.step > 0
    ensures |r| == SLOTS
  {
    seq(SLOTS, k requires 0 <= k < SLOTS => Slot(p.begin + k * p.step, LastIn(parse, p, values, k)))
  }

  /** The times a slot covers; the first one also takes the step before the begin. */
  predicate InSlot(p: Period, t: int, k: nat) {
    p.begin + (if k == 0 then -p.step + 1 else k * p.step) <= t < p.begin + (k + 1) * p.step
  }

  /** A sample that is written into slot k. */
  predicate WritesInto(parse: string -> Option<real>, p: Period, vs: Sample, k: nat) {
    TimestampOf(vs) != 0 && parse(TextOf(vs)).Some? && InSlot(p, TimestampOf(vs), k)
  }

  lemma {:induction false} LastInIs(parse: string -> Option<real>, p: Period, values: seq<Sample>, k: nat, i: nat)
    requires IsGrid(p) && k < SLOTS && i <= |values|
    requires forall j :: i <= j < |values| ==> !WritesInto(parse, p, values[j], k)
    ensures i == 0 ==> LastIn(parse, p, values, k) == 0.0
    ensures i > 0 && WritesInto(parse, p, values[i - 1], k) ==>
      LastIn(parse, p, values, k) == parse(TextOf(values[i - 1])).value
    decreases |values|
  {
    if values == [] {
    } else {
      var last := values[|values| - 1];
      SlotIndexIff(p, TimestampOf(last), k);
      if i < |values| {
        assert !WritesInto(parse, p, last, k);
        LastInIs(parse, p, values[..|values| - 1], k, i);
      }
    }
  }

  /** Slot k carries the k-th grid time and the number of the last sample written into its interval, or 0. */
  lemma {:induction false} SlotHoldsLastSample(parse: string -> Option<real>, p: Period, values: seq<Sample>, k: nat,
                                               i: nat)
    requires IsGrid(p) && k < SLOTS && i <= |values|
    requires forall j :: i <= j < |values| ==> !WritesInto(parse, p, values[j], k)
    requires i == 0 || WritesInto(parse, p, values[i - 1], k)
    ensures SeriesOf(parse, p, values)[k]
         == Slot(p.begin + k * p.step, if i == 0 then 0.0 else parse(TextOf(values[i - 1])).value)
  {
    LastInIs(parse, p, values, k, i);
  }

  method EmptySlots(p: Period) returns (slots: seq<Slot>)
    requires IsGrid(p)
    ensures |slots| == SLOTS
    ensures forall k :: 0 <= k < SLOTS ==> slots[k] == Slot(p.begin + k * p.step, 0.0)
  {
    slots := [];
    var i := p.begin;
    while i <= p.end
      invariant i == p.begin + |slots| * p.step
      invariant |slots| <= SLOTS
      invariant forall k :: 0 <= k < |slots| ==> slots[k] == Slot(p.begin + k * p.step, 0.0)
      decreases p.end + p.step - i
    {
      GridCount(|slots|, 300, p.step);
      slots := slots + [Slot(i, 0.0)];
      i := i + p.step;
    }
    GridCount(|slots|, 300, p.step);
  }

  lemma GridCount(n: int, m: int, step: int)
    requires step > 0
    ensures n * step <= m * step <==> n <= m
  {
    if n <= m {
      assert n * step <= m * step;
    } else {
      assert (m + 1) * step <= n * step;
    }
  }

  /** Every slot ends with the last sample that maps to it; one sample off the grid panics the whole call. */
  method GetRatiosWithTimestamp(parse: string -> Option<real>, values: seq<Sample>, p: Period)
      returns (r: Outcome<seq<Slot>>)
    requires IsGrid(p)
    ensures r.Ok? <==> Fits(parse, p, values)
    ensures r.Ok? ==> r.value == SeriesOf(parse, p, values)
    ensures !r.Err?
  {
    var slots := EmptySlots(p);
    for i := 0 to |values|
      invariant |slots| == SLOTS
      invariant forall k :: 0 <= k < SLOTS ==>
        slots[k] == Slot(p.begin + k * p.step, LastIn(parse, p, values[..i], k))
      invariant Fits(parse, p, values[..i])
    {
      assert values[..i + 1][..i] == values[..i];
      var t, s := GetTimestampAndValue(values[i]);
      if t != 0 {
        match parse(s)
        case Some(f) =>
          var index := GoDiv(t - p.begin, p.step);
          if index < 0 || index >= |slots| {
            return Panic;
          }
          slots := slots[index := slots[index].(ratio := f)];
        case None =>
      }
    }
    assert values[..|values|] == values;
    r := Ok(slots);
  }
}
