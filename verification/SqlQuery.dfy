/**
 The query text and arguments built from request filters, and what that text means: a parser and evaluator for the
 emitted fragment give it a meaning that is compared with the filters themselves.
 */
module SqlQuery {
  import opened Filters
  import opened Wrappers

  const FILTER_TIME_FROM: string := "from"
  const FILTER_TIME_TO: string := "to"
  const TIME_FROM_SUFFIX: string := " 00:00"
  const TIME_TO_SUFFIX: string := " 23:59"

  /** The value of the last well-formed equality filter of that name. */
  function Last(filters: seq<Filter>, name: string): Option<string> {
    if filters == [] then None
    else
      var f := filters[|filters| - 1];
      if f.name == name && EqValue(f).Some? then EqValue(f) else Last(filters[..|filters| - 1], name)
  }

  /** "from" and "to" bound the time only when they are not themselves among the listed columns. */
  function TimeBound(filterNames: seq<string>, filters: seq<Filter>, name: string, default: string): string {
    if name in filterNames || Last(filters, name).None? then default else Last(filters, name).value
  }

  /** An equality filter of that name with that one value. */
  predicate Asks(f: Filter, name: string, v: string) {
    f.name == name && f.modifier == Eq && f.values == [v]
  }

  predicate AsksNothing(f: Filter, name: string) {
    f.name != name || f.modifier != Eq || |f.values| != 1
  }

  /** The last filter that asks for a value of `name` decides; without one there is no value. */
  lemma {:induction false} LastIs(filters: seq<Filter>, name: string, i: nat, v: string)
    requires i <= |filters| && forall k :: i <= k < |filters| ==> AsksNothing(filters[k], name)
    ensures i == 0 ==> Last(filters, name) == None
    ensures i > 0 && Asks(filters[i - 1], name, v) ==> Last(filters, name) == Some(v)
    decreases |filters|
  {
    if filters == [] {
    } else {
      var f := filters[|filters| - 1];
      EqValueIff(f, v);
      if i < |filters| {
        assert AsksNothing(f, name);
        LastIs(filters[..|filters| - 1], name, i, v);
      }
    }
  }

  /**
   The time bounds come from the filters "from" and "to", the last one of each, unless the caller lists these names
   as columns; otherwise the defaults stay.
   */
  lemma {:induction false} TimeBoundNames(filterNames: seq<string>, filters: seq<Filter>, name: string, i: nat,
                                          v: string, default: string)
    requires name == "from" || name == "to"
    requires i <= |filters| && forall k :: i <= k < |filters| ==> AsksNothing(filters[k], name)
    requires i == 0 || Asks(filters[i - 1], name, v)
    ensures var bound := if name == "from" then FILTER_TIME_FROM else FILTER_TIME_TO;
      TimeBound(filterNames, filters, bound, default) == if i == 0 || name in filterNames then default else v
  {
    LastIs(filters, name, i, v);
  }

  // ---------- text ----------

  const EQUALS: string := " = $"
  const AND: string := " and "
  const BETWEEN: string := "create_time between '"
  const QUOTED_AND: string := "' and '"
  const ORDER_BY: string := "' order by create_time desc"

  function Condition(name: string, n: nat): string {
    name + EQUALS + Itoa(n) + AND
  }

  /** The conditions for `order`, numbered from `start`. */
  function Conditions(order: seq<string>, start: nat): string {
    if order == [] then "" else Condition(order[0], start) + Conditions(order[1..], start + 1)
  }

  function TimeRange(from: string, to: string): string {
    BETWEEN + from + QUOTED_AND + to + ORDER_BY
  }

  function Head(table: string): string {
    "select * from gr_" + table + " where "
  }

  lemma {:induction false} ConditionsAppend(order: seq<string>, name: string, start: nat)
    ensures Conditions(order + [name], start) == Conditions(order, start) + Condition(name, start + |order|)
  {
    if order == [] {
      assert [name][1..] == [];
    } else {
      assert (order + [name])[1..] == order[1..] + [name];
      ConditionsAppend(order[1..], name, start + 1);
      ConcatAssociates(Condition(order[0], start), Conditions(order[1..], start + 1),
                       Condition(name, start + |order|));
    }
  }

  /** One condition, spelled out. */
  lemma {:induction false} OneConditionText(name: string)
    ensures Conditions([name], 1) == name + " = $1 and "
  {
    assert [name][1..] == [];
    ConcatAssociates(name, EQUALS, "1");
    ConcatAssociates(name, EQUALS + "1", AND);
    assert EQUALS + "1" + AND == " = $1 and ";
  }

  /** The time clause, spelled out. */
  lemma {:induction false} TimeRangeText(from: string, to: string)
    ensures TimeRange(from + TIME_FROM_SUFFIX, to + TIME_TO_SUFFIX)
         == ("create_time between '" + from) + " 00:00' and '" + (to + " 23:59' order by create_time desc")
  {
    Regrouped(BETWEEN, from, TIME_FROM_SUFFIX, QUOTED_AND, to, TIME_TO_SUFFIX, ORDER_BY);
    TimeWords();
  }

  lemma {:induction false} TimeWords()
    ensures TIME_FROM_SUFFIX + QUOTED_AND == " 00:00' and '"
    ensures TIME_TO_SUFFIX + ORDER_BY == " 23:59' order by create_time desc"
  {
  }

  lemma {:induction false} Regrouped(a: string, b: string, c: string, d: string, e: string, f: string, g: string)
    ensures a + (b + c) + d + (e + f) + g == (a + b) + (c + d) + (e + (f + g))
  {
    ConcatAssociates(a, b, c);
    ConcatAssociates(a + b, c, d);
    ConcatAssociates((a + b) + (c + d), e, f);
    ConcatAssociates((a + b) + (c + d), e + f, g);
    ConcatAssociates(e, f, g);
  }

  /** Every literal part of the text, spelled out. */
  lemma {:induction false} LiteralTexts(table: string)
    ensures Head(table) == "select * from gr_" + table + " where "
    ensures EQUALS == " = $" && AND == " and "
    ensures BETWEEN == "create_time between '" && QUOTED_AND == "' and '" && ORDER_BY == "' order by create_time desc"
    ensures TIME_FROM_SUFFIX == " 00:00" && TIME_TO_SUFFIX == " 23:59"
  {
  }

  // ---------- the generator ----------

  predicate IsCondition(filterNames: seq<string>, filters: seq<Filter>, cond: string, value: string) {
    && |cond| >= |EQUALS|
    && var name := cond[..|cond| - |EQUALS|];
       cond == name + EQUALS && name in filterNames && Last(filters, name) == Some(value)
  }

  ghost predicate Collected(filterNames: seq<string>, filters: seq<Filter>, conditions: map<string, string>) {
    && (forall cond :: cond in conditions ==> IsCondition(filterNames, filters, cond, conditions[cond]))
    && (forall name :: name in filterNames && Last(filters, name).Some? ==> name + EQUALS in conditions)
  }

  lemma {:induction false} CollectOne(filterNames: seq<string>, filters: seq<Filter>, f: Filter,
                                      conditions: map<string, string>)
    requires Collected(filterNames, filters, conditions)
    ensures f.name in filterNames && EqValue(f).Some? ==>
      Collected(filterNames, filters + [f], conditions[f.name + EQUALS := EqValue(f).value])
    ensures f.name !in filterNames || EqValue(f).None? ==> Collected(filterNames, filters + [f], conditions)
  {
    var all := filters + [f];
    assert all[..|all| - 1] == filters;
    var key := f.name + EQUALS;
    assert key[..|key| - |EQUALS|] == f.name;
  }

  method CollectConditions(filterNames: seq<string>, filters: seq<Filter>, defaultFrom: string, defaultTo: string)
      returns (conditions: map<string, string>, timeFrom: string, timeTo: string)
    ensures Collected(filterNames, filters, conditions)
    ensures timeFrom == TimeBound(filterNames, filters, FILTER_TIME_FROM, defaultFrom)
    ensures timeTo == TimeBound(filterNames, filters, FILTER_TIME_TO, defaultTo)
  {
    conditions, timeFrom, timeTo := map[], defaultFrom, defaultTo;
    for i := 0 to |filters|
      invariant Collected(filterNames, filters[..i], conditions)
      invariant timeFrom == TimeBound(filterNames, filters[..i], FILTER_TIME_FROM, defaultFrom)
      invariant timeTo == TimeBound(filterNames, filters[..i], FILTER_TIME_TO, defaultTo)
    {
      var filter := filters[i];
      assert filters[..i + 1] == filters[..i] + [filter];
      assert filters[..i + 1][..i] == filters[..i];
      CollectOne(filterNames, filters[..i], filter, conditions);
      var value := EqValue(filter);
      if filter.name in filterNames {
        if value.Some? {
          conditions := conditions[filter.name + EQUALS := value.value];
        }
      } else if filter.name == FILTER_TIME_FROM {
        if value.Some? {
          timeFrom := value.value;
        }
      } else if filter.name == FILTER_TIME_TO {
        if value.Some? {
          timeTo := value.value;
        }
      }
    }
    assert filters[..|filters|] == filters;
  }

  /** `order` lists, once each, the columns that have a condition; `args` holds their values in the same order. */
  ghost predicate Arranged(filterNames: seq<string>, filters: seq<Filter>, order: seq<string>, args: seq<string>) {
    && |args| == |order| && NoDuplicates(order)
    && (forall k :: 0 <= k < |order| ==> order[k] in filterNames && Last(filters, order[k]) == Some(args[k]))
    && (forall name :: name in filterNames && Last(filters, name).Some? ==> name in order)
  }

  ghost predicate Visited(conditions: map<string, string>, left: set<string>, order: seq<string>, args: seq<string>) {
    && left <= conditions.Keys && |args| == |order| && NoDuplicates(order)
    && (forall k :: 0 <= k < |order| ==>
         order[k] + EQUALS in conditions && order[k] + EQUALS !in left && conditions[order[k] + EQUALS] == args[k])
    && (forall cond :: cond in conditions && cond !in left ==>
         |cond| >= |EQUALS| && cond[..|cond| - |EQUALS|] in order)
  }

  lemma {:induction false} NoDuplicatesAppend(order: seq<string>, name: string)
    requires NoDuplicates(order) && name !in order
    ensures NoDuplicates(order + [name])
  {
  }

  lemma {:induction false} VisitOne(conditions: map<string, string>, left: set<string>, order: seq<string>,
                                    args: seq<string>, cond: string, name: string)
    requires Visited(conditions, left, order, args) && cond in left && cond == name + EQUALS
    ensures Visited(conditions, left - {cond}, order + [name], args + [conditions[cond]])
  {
    assert cond[..|cond| - |EQUALS|] == name;
    assert forall k :: 0 <= k < |order| ==> order[k] + EQUALS != cond;
    NoDuplicatesAppend(order, name);
    forall c | c in conditions && c !in left - {cond}
      ensures |c| >= |EQUALS| && c[..|c| - |EQUALS|] in order + [name]
    {
    }
  }

  lemma {:induction false} AllVisited(filterNames: seq<string>, filters: seq<Filter>, conditions: map<string, string>,
                                      order: seq<string>, args: seq<string>)
    requires Collected(filterNames, filters, conditions) && Visited(conditions, {}, order, args)
    ensures Arranged(filterNames, filters, order, args)
  {
    forall k | 0 <= k < |order|
      ensures order[k] in filterNames && Last(filters, order[k]) == Some(args[k])
    {
      var cond := order[k] + EQUALS;
      assert cond[..|cond| - |EQUALS|] == order[k];
    }
    forall name | name in filterNames && Last(filters, name).Some? ensures name in order {
      var cond := name + EQUALS;
      assert cond[..|cond| - |EQUALS|] == name;
    }
  }

  lemma {:induction false} WriteOne(head: string, order: seq<string>, name: string, cond: string)
    requires cond == name + EQUALS
    ensures (head + Conditions(order, 1)) + (cond + Itoa(|order| + 1) + AND) == head + Conditions(order + [name], 1)
  {
    ConditionsAppend(order, name, 1);
    ConcatAssociates(head, Conditions(order, 1), Condition(name, 1 + |order|));
  }

  /** The map is visited in an arbitrary order, reported as `order`. */
  method WriteConditions(filterNames: seq<string>, filters: seq<Filter>, conditions: map<string, string>, head: string)
      returns (text: string, args: seq<string>, ghost order: seq<string>)
    requires Collected(filterNames, filters, conditions)
    ensures Arranged(filterNames, filters, order, args)
    ensures text == head + Conditions(order, 1)
  {
    text, args, order := head, [], [];
    var left := conditions.Keys;
    while left != {}
      invariant Visited(conditions, left, order, args)
      invariant text == head + Conditions(order, 1)
      decreases |left|
    {
      var cond :| cond in left;
      ghost var name := cond[..|cond| - |EQUALS|];
      assert IsCondition(filterNames, filters, cond, conditions[cond]);
      VisitOne(conditions, left, order, args, cond, name);
      WriteOne(head, order, name, cond);
      args := args + [conditions[cond]];
      text := text + (cond + Itoa(|args|) + AND);
      order := order + [name];
      left := left - {cond};
    }
    AllVisited(filterNames, filters, conditions, order, args);
  }

  // ---------- the meaning of a text ----------

  /** A stored row: its columns, and whether its creation time lies between two literals. */
  datatype Row = Row(column: string -> string, createdBetween: (string, string) -> bool)

  /** A parsed query: column/placeholder pairs and the two time literals. */
  datatype Query = Query(conditions: seq<(string, nat)>, from: string, to: string)

  function StripPrefix(s: string, prefix: string): Option<string> {
    if prefix <= s then Some(s[|prefix|..]) else None
  }

  /** The text before the first `stop`, and the rest. */
  function Split(s: string, stop: char): (r: (string, string))
    ensures r.0 + r.1 == s
    ensures stop !in r.0
    ensures |r.1| <= |s|
  {
    if s == [] || s[0] == stop then ("", s)
    else
      var (word, rest) := Split(s[1..], stop);
      ([s[0]] + word, rest)
  }

  predicate IsDigit(c: char) {
    '0' <= c <= '9'
  }

  /** Reads leading digits onto the value `acc`. */
  function ReadNumber(s: string, acc: nat): (r: (nat, string))
    ensures |r.1| <= |s|
  {
    if s == [] || !IsDigit(s[0]) then (acc, s)
    else ReadNumber(s[1..], acc * 10 + (s[0] as int - '0' as int))
  }

  function ParseTime(s: string): Option<Query> {
    match StripPrefix(s, BETWEEN)
    case None => None
    case Some(a) =>
      var (from, b) := Split(a, '\'');
      match StripPrefix(b, QUOTED_AND)
      case None => None
      case Some(c) =>
        var (to, d) := Split(c, '\'');
        if d == ORDER_BY then Some(Query([], from, to)) else None
  }

  function ParseWhere(s: string): Option<Query>
    decreases |s|
  {
    var (word, rest) := Split(s, ' ');
    match StripPrefix(rest, EQUALS)
    case None => ParseTime(s)
    case Some(a) =>
      if a == [] || !IsDigit(a[0]) then None
      else
        var (n, b) := ReadNumber(a, 0);
        match StripPrefix(b, AND)
        case None => None
        case Some(c) =>
          match ParseWhere(c)
          case None => None
          case Some(q) => Some(q.(conditions := [(word, n)] + q.conditions))
  }

  function ParseQuery(text: string, table: string): Option<Query> {
    match StripPrefix(text, Head(table))
    case None => None
    case Some(s) => ParseWhere(s)
  }

  /** Placeholder n stands for the n-th argument. */
  predicate Holds(q: Query, args: seq<string>, row: Row) {
    && (forall k :: 0 <= k < |q.conditions| ==>
         1 <= q.conditions[k].1 <= |args| && row.column(q.conditions[k].0) == args[q.conditions[k].1 - 1])
    && row.createdBetween(q.from, q.to)
  }

  /** What the filters ask for. */
  predicate Wanted(filterNames: seq<string>, filters: seq<Filter>, from: string, to: string, row: Row) {
    && (forall name :: name in filterNames && Last(filters, name).Some? ==>
         row.column(name) == Last(filters, name).value)
    && row.createdBetween(from, to)
  }

  // ---------- parsing what was written ----------

  lemma {:induction false} SplitWord(word: string, rest: string, stop: char)
    requires stop !in word && rest != [] && rest[0] == stop
    ensures Split(word + rest, stop) == (word, rest)
  {
    if word == [] {
      assert word + rest == rest;
    } else {
      assert (word + rest)[0] == word[0] && (word + rest)[1..] == word[1..] + rest;
      SplitWord(word[1..], rest, stop);
      assert word == [word[0]] + word[1..];
    }
  }

  lemma {:induction false} DigitReads(n: nat)
    requires n < 10
    ensures IsDigit(Digit(n)) && Digit(n) as int - '0' as int == n
  {
  }

  lemma {:induction false} ReadItoa(n: nat, rest: string)
    requires rest != [] && !IsDigit(rest[0])
    ensures ReadNumber(Itoa(n) + rest, 0) == (n, rest)
    ensures IsDigit((Itoa(n) + rest)[0])
  {
    ReadAppended(n, rest, n);
  }

  /** Reading the digits of n goes on with the value n. */
  lemma {:induction false} ReadAppended(n: nat, rest: string, m: nat)
    requires m == n && rest != []
    ensures ReadNumber(Itoa(n) + rest, 0) == ReadNumber(rest, n)
    ensures IsDigit((Itoa(n) + rest)[0])
    decreases n
  {
    if n < 10 {
      DigitReads(n);
      assert (Itoa(n) + rest)[1..] == rest;
    } else {
      var last := [Digit(n % 10)];
      DigitReads(n % 10);
      assert Itoa(n) + rest == Itoa(n / 10) + (last + rest);
      ReadAppended(n / 10, last + rest, n / 10);
      assert (last + rest)[1..] == rest;
    }
  }

  predicate PlainName(name: string) {
    ' ' !in name
  }

  lemma {:induction false} ConditionParts(name: string, n: nat, rest: string)
    ensures Condition(name, n) + rest == name + (EQUALS + (Itoa(n) + (AND + rest)))
  {
    ConcatAssociates(Itoa(n), AND, rest);
    ConcatAssociates(EQUALS, Itoa(n) + AND, rest);
    ConcatAssociates(EQUALS, Itoa(n), AND);
    ConcatAssociates(name, EQUALS + Itoa(n) + AND, rest);
    ConcatAssociates(name, EQUALS, Itoa(n));
    ConcatAssociates(name, EQUALS + Itoa(n), AND);
  }

  lemma {:induction false} ParseCondition(name: string, n: nat, rest: string)
    requires PlainName(name)
    ensures ParseWhere(Condition(name, n) + rest)
         == match ParseWhere(rest)
            case None => None
            case Some(q) => Some(q.(conditions := [(name, n)] + q.conditions))
  {
    var afterNumber := AND + rest;
    var afterEquals := Itoa(n) + afterNumber;
    var afterName := EQUALS + afterEquals;
    ConditionParts(name, n, rest);
    SplitWord(name, afterName, ' ');
    assert afterName[|EQUALS|..] == afterEquals;
    ReadItoa(n, afterNumber);
    assert afterNumber[|AND|..] == rest;
  }

  function Numbered(order: seq<string>, start: nat): seq<(string, nat)> {
    seq(|order|, k requires 0 <= k < |order| => (order[k], start + k))
  }

  lemma {:induction false} ParseConditions(order: seq<string>, start: nat, rest: string)
    requires forall name :: name in order ==> PlainName(name)
    ensures ParseWhere(Conditions(order, start) + rest)
         == match ParseWhere(rest)
            case None => None
            case Some(q) => Some(q.(conditions := Numbered(order, start) + q.conditions))
  {
    if order == [] {
      assert Conditions(order, start) + rest == rest;
      NothingNumbered(ParseWhere(rest), start);
    } else {
      var tail := Conditions(order[1..], start + 1);
      ConcatAssociates(Condition(order[0], start), tail, rest);
      ParseCondition(order[0], start, tail + rest);
      assert forall name :: name in order[1..] ==> name in order;
      ParseConditions(order[1..], start + 1, rest);
      if ParseWhere(rest).Some? {
        NumberedStep(order, start, ParseWhere(rest).value.conditions);
      }
    }
  }

  lemma {:induction false} NothingNumbered(q: Option<Query>, start: nat)
    ensures q.Some? ==> q.value.(conditions := Numbered([], start) + q.value.conditions) == q.value
  {
  }

  lemma {:induction false} NumberedStep(order: seq<string>, start: nat, conditions: seq<(string, nat)>)
    requires order != []
    ensures [(order[0], start)] + (Numbered(order[1..], start + 1) + conditions) == Numbered(order, start) + conditions
  {
    assert Numbered(order, start) == [(order[0], start)] + Numbered(order[1..], start + 1);
  }

  function Quotes(s: string): nat {
    if s == [] then 0 else (if s[0] == '\'' then 1 else 0) + Quotes(s[1..])
  }

  lemma {:induction false} QuotesConcat(a: string, b: string)
    ensures Quotes(a + b) == Quotes(a) + Quotes(b)
  {
    if a == [] {
      assert a + b == b;
    } else {
      assert (a + b)[1..] == a[1..] + b;
      QuotesConcat(a[1..], b);
    }
  }

  lemma {:induction false} NoQuotes(s: string)
    ensures Quotes(s) == 0 <==> '\'' !in s
  {
    if s == [] {
    } else {
      NoQuotes(s[1..]);
      assert s == [s[0]] + s[1..];
    }
  }

  lemma {:induction false} QuotesOfTimeRange(from: string, to: string)
    ensures Quotes(TimeRange(from, to))
         == Quotes(BETWEEN) + Quotes(from) + Quotes(QUOTED_AND) + Quotes(to) + Quotes(ORDER_BY)
  {
    QuotesConcat(BETWEEN + from + QUOTED_AND + to, ORDER_BY);
    QuotesConcat(BETWEEN + from + QUOTED_AND, to);
    QuotesConcat(BETWEEN + from, QUOTED_AND);
    QuotesConcat(BETWEEN, from);
  }

  lemma {:induction false} TimeRangeParts(from: string, to: string)
    ensures TimeRange(from, to) == BETWEEN + (from + (QUOTED_AND + (to + ORDER_BY)))
  {
  }

  lemma {:induction false} ParsedTimeShape(s: string)
    requires ParseTime(s).Some?
    ensures var q := ParseTime(s).value;
      s == TimeRange(q.from, q.to) && '\'' !in q.from && '\'' !in q.to
  {
    var q := ParseTime(s).value;
    TimeRangeParts(q.from, q.to);
    assert s == BETWEEN + s[|BETWEEN|..];
    var b := Split(s[|BETWEEN|..], '\'').1;
    assert b == QUOTED_AND + b[|QUOTED_AND|..];
  }

  lemma {:induction false} ParsedTimeHasNoExtraQuotes(s: string)
    requires ParseTime(s).Some?
    ensures Quotes(s) == Quotes(BETWEEN) + Quotes(QUOTED_AND) + Quotes(ORDER_BY)
  {
    var q := ParseTime(s).value;
    ParsedTimeShape(s);
    QuotesOfTimeRange(q.from, q.to);
    NoQuotes(q.from);
    NoQuotes(q.to);
  }

  lemma {:induction false} ParseQuoteFreeTime(from: string, to: string)
    requires '\'' !in from && '\'' !in to
    ensures ParseTime(TimeRange(from, to)) == Some(Query([], from, to))
  {
    var d := ORDER_BY;
    var c := to + d;
    var b := QUOTED_AND + c;
    var a := from + b;
    var s := TimeRange(from, to);
    assert s == BETWEEN + a;
    assert s[|BETWEEN|..] == a;
    SplitWord(from, b, '\'');
    assert b[|QUOTED_AND|..] == c;
    SplitWord(to, d, '\'');
  }

  /** The time clause parses exactly when neither literal contains a quote. */
  lemma {:induction false} ParseTimeIff(from: string, to: string)
    ensures ParseTime(TimeRange(from, to)).Some? <==> '\'' !in from && '\'' !in to
    ensures ParseTime(TimeRange(from, to)).Some? ==> ParseTime(TimeRange(from, to)) == Some(Query([], from, to))
  {
    if '\'' !in from && '\'' !in to {
      ParseQuoteFreeTime(from, to);
    } else if ParseTime(TimeRange(from, to)).Some? {
      ParsedTimeHasNoExtraQuotes(TimeRange(from, to));
      QuotesOfTimeRange(from, to);
      NoQuotes(from);
      NoQuotes(to);
    }
  }

  lemma {:induction false} TimeRangeWord(from: string, to: string)
    ensures TimeRange(from, to) == "create_time" + (" between '" + (from + (QUOTED_AND + (to + ORDER_BY))))
  {
    TimeRangeParts(from, to);
    ConcatAssociates("create_time", " between '", from + (QUOTED_AND + (to + ORDER_BY)));
    assert "create_time" + " between '" == BETWEEN;
  }

  lemma {:induction false} WhereEndsInTime(from: string, to: string)
    ensures ParseWhere(TimeRange(from, to)) == ParseTime(TimeRange(from, to))
  {
    var word, rest := "create_time", " between '" + (from + (QUOTED_AND + (to + ORDER_BY)));
    TimeRangeWord(from, to);
    SplitWord(word, rest, ' ');
    assert rest[1] == 'b' && EQUALS[1] == '=';
  }

  lemma {:induction false} ParseGenerated(table: string, order: seq<string>, from: string, to: string)
    requires forall name :: name in order ==> PlainName(name)
    ensures ParseQuery(Head(table) + Conditions(order, 1) + TimeRange(from, to), table)
         == if '\'' !in from && '\'' !in to then Some(Query(Numbered(order, 1), from, to)) else None
  {
    var where := Conditions(order, 1) + TimeRange(from, to);
    ConcatAssociates(Head(table), Conditions(order, 1), TimeRange(from, to));
    assert (Head(table) + where)[|Head(table)|..] == where;
    ParseConditions(order, 1, TimeRange(from, to));
    WhereEndsInTime(from, to);
    ParseTimeIff(from, to);
    assert Numbered(order, 1) + [] == Numbered(order, 1);
  }

  lemma {:induction false} ArrangedMeansWanted(filterNames: seq<string>, filters: seq<Filter>, order: seq<string>,
                                               args: seq<string>, from: string, to: string, row: Row)
    requires Arranged(filterNames, filters, order, args)
    ensures Holds(Query(Numbered(order, 1), from, to), args, row) <==> Wanted(filterNames, filters, from, to, row)
  {
    var q := Query(Numbered(order, 1), from, to);
    if Holds(q, args, row) {
      forall name | name in filterNames && Last(filters, name).Some?
        ensures row.column(name) == Last(filters, name).value
      {
        var k :| 0 <= k < |order| && order[k] == name;
        assert q.conditions[k] == (name, k + 1);
      }
    }
    if Wanted(filterNames, filters, from, to, row) {
      forall k | 0 <= k < |q.conditions|
        ensures 1 <= q.conditions[k].1 <= |args| && row.column(q.conditions[k].0) == args[q.conditions[k].1 - 1]
      {
        assert q.conditions[k] == (order[k], k + 1);
      }
    }
  }

  /** The text is a query of the fragment exactly when the bounds hold no quote, and then selects what is wanted. */
  ghost predicate Means(text: string, args: seq<string>, table: string, filterNames: seq<string>,
                        filters: seq<Filter>, from: string, to: string)
  {
    && (ParseQuery(text, table).Some? <==> '\'' !in from && '\'' !in to)
    && (ParseQuery(text, table).Some? ==>
         var q := ParseQuery(text, table).value;
         && |q.conditions| == |args|
         && (forall k :: 0 <= k < |args| ==> q.conditions[k].1 == k + 1)
         && (forall row :: Holds(q, args, row)
              <==> Wanted(filterNames, filters, from + TIME_FROM_SUFFIX, to + TIME_TO_SUFFIX, row)))
  }

  /**
   Whatever order the conditions were written in, the generated text is a query of the fragment exactly when the
   time bounds hold no quote; it then selects the rows the filters ask for, with one placeholder per argument,
   numbered 1, 2, 3, ... in order.
   */
  lemma {:induction false} GeneratedQueryMeansFilters(table: string, filterNames: seq<string>, filters: seq<Filter>,
      order: seq<string>, args: seq<string>, from: string, to: string, text: string)
    requires Arranged(filterNames, filters, order, args)
    requires forall name :: name in filterNames ==> PlainName(name)
    requires text == Head(table) + Conditions(order, 1) + TimeRange(from + TIME_FROM_SUFFIX, to + TIME_TO_SUFFIX)
    ensures Means(text, args, table, filterNames, filters, from, to)
  {
    var f, t := from + TIME_FROM_SUFFIX, to + TIME_TO_SUFFIX;
    assert '\'' !in f <==> '\'' !in from;
    assert '\'' !in t <==> '\'' !in to;
    ParseGenerated(table, order, f, t);
    forall row ensures Holds(Query(Numbered(order, 1), f, t), args, row) <==> Wanted(filterNames, filters, f, t, row) {
      ArrangedMeansWanted(filterNames, filters, order, args, f, t, row);
    }
  }

  // ---------- the whole generator ----------

  method GenSqlAndArgsByFilters(table: string, filterNames: seq<string>, filters: seq<Filter>,
                                defaultFrom: string, defaultTo: string)
      returns (text: string, args: seq<string>, ghost order: seq<string>)
    ensures Arranged(filterNames, filters, order, args)
    ensures text == Head(table) + Conditions(order, 1)
      + TimeRange(TimeBound(filterNames, filters, FILTER_TIME_FROM, defaultFrom) + TIME_FROM_SUFFIX,
                  TimeBound(filterNames, filters, FILTER_TIME_TO, defaultTo) + TIME_TO_SUFFIX)
    ensures (forall name :: name in filterNames ==> PlainName(name)) ==>
      Means(text, args, table, filterNames, filters,
            TimeBound(filterNames, filters, FILTER_TIME_FROM, defaultFrom),
            TimeBound(filterNames, filters, FILTER_TIME_TO, defaultTo))
  {
    var conditions, timeFrom, timeTo := CollectConditions(filterNames, filters, defaultFrom, defaultTo);
    text, args, order := WriteConditions(filterNames, filters, conditions, Head(table));
    text := text + TimeRange(timeFrom + TIME_FROM_SUFFIX, timeTo + TIME_TO_SUFFIX);
    if forall name :: name in filterNames ==> PlainName(name) {
      GeneratedQueryMeansFilters(table, filterNames, filters, order, args, timeFrom, timeTo, text);
    }
  }
}
