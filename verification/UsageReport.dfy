/** The usage report of engine/src/api/usage.rs: totals, a trend over time and two breakdowns of the same rows.
    Its maps stand for the lists that the program makes of them. */
module UsageReport {
  import opened Wrappers
  import UsagePricing
  import opened UsageWindow

  type Int32 = x: int | -0x8000_0000 <= x < 0x8000_0000

  datatype Row = Row(id: string, provider: string, model: string, input: Int32, output: Int32,
                     cacheCreation: Int32, cacheRead: Int32, durationMs: int, createdAt: int)

  datatype Totals = Totals(input: int, output: int, cacheCreation: int, cacheRead: int, requests: nat, durationMs: int,
                           cost: Option<real>, currency: string, priced: nat)

  datatype Item = Item(requests: nat, input: int, output: int, tokens: int, share: real,
                       cost: Option<real>, currency: string, priced: nat)

  datatype Record = Record(row: Row, cost: Option<real>, currency: string)

  datatype Report = Report(records: seq<Record>, totals: Totals, trend: map<int, Bucket>,
                           providers: map<string, Item>, models: map<string, Item>)

  datatype Context = Context(window: Window, offsetMinutes: int, profiles: seq<UsagePricing.Profile>,
                             rates: UsagePricing.Rates, display: string)

  ghost predicate IsContext(ctx: Context) {
    ctx.window.bucketMs > 0 && UsagePricing.IsTable(ctx.rates) && ctx.display in ctx.rates
  }

  // ---------- What each row adds ----------

  /** The sum of two 32-bit numbers as the program computes it, before it widens the result. */
  function Wrap32(x: int): Int32 {
    (x + 0x8000_0000) % 0x1_0000_0000 - 0x8000_0000
  }

  function TotalTokens(rows: seq<Row>): int {
    if |rows| == 0 then 0
    else TotalTokens(rows[..|rows| - 1]) + Wrap32(rows[|rows| - 1].input + rows[|rows| - 1].output)
  }

  function Quote(row: Row, ctx: Context): Option<real>
    requires IsContext(ctx)
  {
    UsagePricing.Quote(ctx.profiles, ctx.rates, ctx.display, row.provider, row.model, row.input, row.output)
  }

  function AddCost(cost: Option<real>, quote: Option<real>): Option<real> {
    if quote.None? then cost
    else if cost.None? then Some(0.0 + quote.value)
    else Some(cost.value + quote.value)
  }

  function AddPriced(priced: nat, quote: Option<real>): nat {
    if quote.None? then priced else priced + 1
  }

  function AddToTotals(t: Totals, row: Row, quote: Option<real>): Totals {
    t.(input := t.input + row.input, output := t.output + row.output,
       cacheCreation := t.cacheCreation + row.cacheCreation, cacheRead := t.cacheRead + row.cacheRead,
       durationMs := t.durationMs + row.durationMs,
       cost := AddCost(t.cost, quote), priced := AddPriced(t.priced, quote))
  }

  function NewItem(currency: string): Item {
    Item(0, 0, 0, 0, 0.0, None, currency, 0)
  }

  function AddToItem(item: Item, row: Row, quote: Option<real>): Item {
    item.(requests := item.requests + 1, input := item.input + row.input, output := item.output + row.output,
          tokens := item.tokens + (row.input + row.output),
          cost := AddCost(item.cost, quote), priced := AddPriced(item.priced, quote))
  }

  function AddBreakdown(items: map<string, Item>, name: string, row: Row, quote: Option<real>, currency: string): map<string, Item> {
    items[name := AddToItem(if name in items then items[name] else NewItem(currency), row, quote)]
  }

  function RowBucket(row: Row, ctx: Context): int
    requires IsContext(ctx)
  {
    BucketStart(Millis(row.createdAt), ctx.window.bucketMs, ctx.offsetMinutes)
  }

  function AddToBucket(b: Bucket, row: Row): Bucket {
    Bucket(b.input + row.input, b.output + row.output, b.tokens + (row.input + row.output))
  }

  function AddToTrend(trend: map<int, Bucket>, start: int, row: Row): map<int, Bucket> {
    trend[start := AddToBucket(if start in trend then trend[start] else Bucket(0, 0, 0), row)]
  }

  // ---------- The report as a function of the rows ----------

  function TotalsOf(rows: seq<Row>, ctx: Context): Totals
    requires IsContext(ctx)
  {
    if |rows| == 0 then Totals(0, 0, 0, 0, 0, 0, None, ctx.display, 0)
    else
      var last := rows[|rows| - 1];
      var t := TotalsOf(rows[..|rows| - 1], ctx);
      AddToTotals(t.(requests := t.requests + 1), last, Quote(last, ctx))
  }

  datatype Key = ByProvider | ByModel

  function NameOf(row: Row, key: Key): string {
    if key == ByProvider then row.provider else row.model
  }

  function Breakdown(rows: seq<Row>, key: Key, ctx: Context): map<string, Item>
    requires IsContext(ctx)
  {
    if |rows| == 0 then map[]
    else
      var last := rows[|rows| - 1];
      AddBreakdown(Breakdown(rows[..|rows| - 1], key, ctx), NameOf(last, key), last, Quote(last, ctx), ctx.display)
  }

  function EmptyTrend(ctx: Context): map<int, Bucket>
    requires IsContext(ctx)
  {
    map start | start in Prefilled(ctx.window, ctx.offsetMinutes) :: Bucket(0, 0, 0)
  }

  function Trend(rows: seq<Row>, ctx: Context): map<int, Bucket>
    requires IsContext(ctx)
  {
    if |rows| == 0 then EmptyTrend(ctx)
    else AddToTrend(Trend(rows[..|rows| - 1], ctx), RowBucket(rows[|rows| - 1], ctx), rows[|rows| - 1])
  }

  function Share(tokens: real, totalTokens: int): real {
    if totalTokens > 0 then tokens / totalTokens as real * 100.0 else 0.0
  }

  function WithShare(item: Item, totalTokens: int): Item {
    item.(share := Share(item.tokens as real, totalTokens))
  }

  function FinishBreakdown(items: map<string, Item>, totalTokens: int): map<string, Item> {
    map name | name in items :: WithShare(items[name], totalTokens)
  }

  function Records(rows: seq<Row>, ctx: Context): (records: seq<Record>)
    requires IsContext(ctx)
    ensures |records| == |rows|
  {
    if |rows| == 0 then []
    else
      var last := rows[|rows| - 1];
      Records(rows[..|rows| - 1], ctx) + [Record(last, Quote(last, ctx), ctx.display)]
  }

  function ReportOf(rows: seq<Row>, ctx: Context): Report
    requires IsContext(ctx)
  {
    var total := TotalTokens(rows);
    Report(Records(rows, ctx), TotalsOf(rows, ctx), Trend(rows, ctx),
           FinishBreakdown(Breakdown(rows, ByProvider, ctx), total), FinishBreakdown(Breakdown(rows, ByModel, ctx), total))
  }

  method BuildReport(rows: seq<Row>, ctx: Context) returns (report: Report)
    requires IsContext(ctx)
    ensures report == ReportOf(rows, ctx)
  {
    hide IsContext, Quote, AddToTotals, AddToItem, AddBreakdown, AddToTrend, RowBucket, Wrap32, WithShare;
    var totalTokens := 0;
    for i := 0 to |rows|
      invariant totalTokens == TotalTokens(rows[..i])
    {
      assert rows[..i + 1][..i] == rows[..i];
      totalTokens := totalTokens + Wrap32(rows[i].input + rows[i].output);
    }
    var totals := Totals(0, 0, 0, 0, |rows|, 0, None, ctx.display, 0);
    var providers: map<string, Item>, models: map<string, Item> := map[], map[];
    var records := [];
    ContextHasBuckets(ctx);
    var trend := PrefillTrendBuckets(map[], ctx.window, ctx.offsetMinutes);
    assert trend == EmptyTrend(ctx);
    RequestsCount([], ctx);
    for i := 0 to |rows|
      invariant totals == TotalsOf(rows[..i], ctx).(requests := |rows|)
      invariant providers == Breakdown(rows[..i], ByProvider, ctx)
      invariant models == Breakdown(rows[..i], ByModel, ctx)
      invariant trend == Trend(rows[..i], ctx)
      invariant records == Records(rows[..i], ctx)
    {
      var row := rows[i];
      assert rows[..i + 1][..i] == rows[..i];
      var quote := Quote(row, ctx);
      TotalsIgnoreRequests(TotalsOf(rows[..i], ctx), row, quote, |rows|);
      totals := AddToTotals(totals, row, quote);
      providers := AddBreakdown(providers, row.provider, row, quote, ctx.display);
      models := AddBreakdown(models, row.model, row, quote, ctx.display);
      records := records + [Record(row, quote, ctx.display)];
      trend := AddToTrend(trend, RowBucket(row, ctx), row);
    }
    assert rows[..|rows|] == rows;
    RequestsCount(rows, ctx);
    report := Report(records, totals, trend, FinishBreakdown(providers, totalTokens), FinishBreakdown(models, totalTokens));
  }

  lemma ContextHasBuckets(ctx: Context)
    requires IsContext(ctx)
    ensures ctx.window.bucketMs > 0
  {
  }

  lemma TotalsIgnoreRequests(t: Totals, row: Row, quote: Option<real>, n: nat)
    ensures AddToTotals(t.(requests := n), row, quote) == AddToTotals(t.(requests := t.requests + 1), row, quote).(requests := n)
  {
  }

  lemma {:induction false} RequestsCount(rows: seq<Row>, ctx: Context)
    requires IsContext(ctx)
    ensures TotalsOf(rows, ctx).requests == |rows|
  {
    hide IsContext, Quote, AddCost, AddPriced;
    if |rows| > 0 {
      RequestsCount(rows[..|rows| - 1], ctx);
    }
  }

  // ---------- Each part is the report of its rows ----------

  lemma NoTotals(ctx: Context)
    requires IsContext(ctx)
    ensures TotalsOf([], ctx) == Totals(0, 0, 0, 0, 0, 0, None, ctx.display, 0)
  {
  }

  lemma TotalsStep(before: seq<Row>, last: Row, ctx: Context)
    requires IsContext(ctx)
    ensures var t := TotalsOf(before, ctx);
            TotalsOf(before + [last], ctx) == AddToTotals(t.(requests := t.requests + 1), last, Quote(last, ctx))
  {
    hide IsContext, Quote, AddToTotals;
    assert (before + [last])[..|before|] == before;
  }

  /** The sum of a figure over rows. */
  ghost function Over(rows: seq<Row>, figure: Row -> int): int {
    if |rows| == 0 then 0 else Over(rows[..|rows| - 1], figure) + figure(rows[|rows| - 1])
  }

  function RowInput(row: Row): int {
    row.input
  }

  function RowOutput(row: Row): int {
    row.output
  }

  function RowCacheCreation(row: Row): int {
    row.cacheCreation
  }

  function RowCacheRead(row: Row): int {
    row.cacheRead
  }

  function RowDuration(row: Row): int {
    row.durationMs
  }

  /** What the listed requests with a price cost, and how many they are. */
  ghost function CostOver(records: seq<Record>): (sum: (real, nat))
    ensures sum.1 == 0 ==> sum.0 == 0.0
  {
    if |records| == 0 then (0.0, 0)
    else
      var (cost, priced) := CostOver(records[..|records| - 1]);
      var last := records[|records| - 1].cost;
      if last.Some? then (cost + last.value, priced + 1) else (cost, priced)
  }

  /** The totals are the sums over the rows, each figure of its own, and the cost is that of the listed
      requests with a price. */
  lemma {:induction false} TotalsAre(rows: seq<Row>, ctx: Context)
    requires IsContext(ctx)
    ensures var t := TotalsOf(rows, ctx);
            && t.requests == |rows| && t.currency == ctx.display
            && t.input == Over(rows, RowInput) && t.output == Over(rows, RowOutput)
            && t.cacheCreation == Over(rows, RowCacheCreation) && t.cacheRead == Over(rows, RowCacheRead)
            && t.durationMs == Over(rows, RowDuration)
            && t.priced == CostOver(Records(rows, ctx)).1
            && t.cost == if t.priced == 0 then None else Some(CostOver(Records(rows, ctx)).0)
  {
    hide IsContext, Quote;
    if |rows| > 0 {
      TotalsAre(rows[..|rows| - 1], ctx);
    }
  }

  /** Every request is listed with its own price. */
  lemma {:induction false} RecordsAre(rows: seq<Row>, ctx: Context, i: nat)
    requires IsContext(ctx) && i < |rows|
    ensures var row := rows[i];
            Records(rows, ctx)[i] == Record(row,
              UsagePricing.Quote(ctx.profiles, ctx.rates, ctx.display, row.provider, row.model, row.input, row.output), ctx.display)
  {
    hide IsContext, UsagePricing.Quote;
    if i < |rows| - 1 {
      RecordsAre(rows[..|rows| - 1], ctx, i);
    }
  }

  /** An item's share is its tokens in percent of the total, and 0 without a total. */
  lemma SharesAre(items: map<string, Item>, totalTokens: int, name: string)
    requires name in items
    ensures var item := FinishBreakdown(items, totalTokens)[name];
            && item == items[name].(share := item.share)
            && (if totalTokens > 0 then item.share * totalTokens as real == items[name].tokens as real * 100.0 else item.share == 0.0)
  {
    if totalTokens > 0 {
      Percent(items[name].tokens as real, totalTokens as real);
    }
  }

  lemma Percent(part: real, whole: real)
    requires whole > 0.0
    ensures part / whole * 100.0 * whole == part * 100.0
  {
    var ratio := part / whole;
    assert ratio * whole == part;
  }

  /** The rows of one provider or model, in order. */
  function Select(rows: seq<Row>, key: Key, name: string): seq<Row> {
    if |rows| == 0 then []
    else
      var last := rows[|rows| - 1];
      Select(rows[..|rows| - 1], key, name) + if NameOf(last, key) == name then [last] else []
  }

  /** An item of a breakdown tells the same as the totals of a report on its rows alone. */
  ghost predicate Tells(item: Item, t: Totals) {
    && item.requests == t.requests && item.input == t.input && item.output == t.output && item.tokens == t.input + t.output
    && item.cost == t.cost && item.priced == t.priced && item.currency == t.currency && item.share == 0.0
  }

  lemma {:induction false} BreakdownItems(rows: seq<Row>, key: Key, ctx: Context, name: string)
    requires IsContext(ctx)
    ensures name in Breakdown(rows, key, ctx) <==> Select(rows, key, name) != []
    ensures name in Breakdown(rows, key, ctx) ==>
              Tells(Breakdown(rows, key, ctx)[name], TotalsOf(Select(rows, key, name), ctx))
  {
    hide IsContext, Quote, AddCost, TotalsOf;
    NoTotals(ctx);
    if |rows| > 0 {
      var last := rows[|rows| - 1];
      var before := Select(rows[..|rows| - 1], key, name);
      BreakdownItems(rows[..|rows| - 1], key, ctx, name);
      TotalsStep(before, last, ctx);
      assert before + [] == before;
    }
  }

  /** The rows of one bucket, in order. */
  function InBucket(rows: seq<Row>, ctx: Context, start: int): seq<Row>
    requires IsContext(ctx)
  {
    if |rows| == 0 then []
    else
      var last := rows[|rows| - 1];
      InBucket(rows[..|rows| - 1], ctx, start) + if RowBucket(last, ctx) == start then [last] else []
  }

  lemma {:induction false} TrendBuckets(rows: seq<Row>, ctx: Context, start: int)
    requires IsContext(ctx)
    ensures start in Trend(rows, ctx) <==> start in Prefilled(ctx.window, ctx.offsetMinutes) || InBucket(rows, ctx, start) != []
    ensures start in Trend(rows, ctx) ==>
              var t := TotalsOf(InBucket(rows, ctx, start), ctx);
              Trend(rows, ctx)[start] == Bucket(t.input, t.output, t.input + t.output)
  {
    hide IsContext, Quote, AddCost, RowBucket, Prefilled, TotalsOf;
    ContextHasBuckets(ctx);
    NoTotals(ctx);
    if |rows| > 0 {
      var last := rows[|rows| - 1];
      var before := InBucket(rows[..|rows| - 1], ctx, start);
      TrendBuckets(rows[..|rows| - 1], ctx, start);
      TotalsStep(before, last, ctx);
      assert before + [] == before;
    }
  }

  /** When at most 400 buckets cover the window, rows of the window add no bucket to the prefilled ones. */
  lemma TrendIsPrefilled(rows: seq<Row>, ctx: Context)
    requires IsContext(ctx) && ctx.window.start.Some? && ctx.window.start.value <= ctx.window.end
    requires forall row | row in rows :: InWindow(ctx.window, row.createdAt)
    requires Distance(ctx.window, ctx.offsetMinutes) < MAX_BUCKETS
    ensures Trend(rows, ctx).Keys == Prefilled(ctx.window, ctx.offsetMinutes)
  {
    hide IsContext, Trend, Prefilled, InBucket, Distance, BucketStart;
    ContextHasBuckets(ctx);
    PrefillCoversIff(ctx.window, ctx.offsetMinutes);
    forall start ensures start in Trend(rows, ctx) <==> start in Prefilled(ctx.window, ctx.offsetMinutes) {
      TrendBuckets(rows, ctx, start);
      BucketRows(rows, ctx, start);
    }
  }

  lemma {:induction false} BucketRows(rows: seq<Row>, ctx: Context, start: int)
    requires IsContext(ctx)
    ensures InBucket(rows, ctx, start) != [] ==> exists row :: row in rows && RowBucket(row, ctx) == start
  {
    hide IsContext, RowBucket;
    if |rows| > 0 {
      BucketRows(rows[..|rows| - 1], ctx, start);
      assert rows[|rows| - 1] in rows;
    }
  }

  // ---------- Conservation ----------

  /** The sum of one figure over the entries of a map. */
  ghost function Sum<K, V>(m: map<K, V>, figure: V -> real): real
    decreases |m|
  {
    if m == map[] then 0.0
    else
      var k :| k in m;
      figure(m[k]) + Sum(m - {k}, figure)
  }

  lemma {:induction false} SumWithout<K, V>(m: map<K, V>, figure: V -> real, k: K)
    requires k in m
    ensures Sum(m, figure) == figure(m[k]) + Sum(m - {k}, figure)
    decreases |m|
  {
    var x :| x in m && Sum(m, figure) == figure(m[x]) + Sum(m - {x}, figure);
    if x != k {
      SumWithout(m - {x}, figure, k);
      SumWithout(m - {k}, figure, x);
      assert m - {x} - {k} == m - {k} - {x};
    }
  }

  lemma SumUpdate<K, V>(m: map<K, V>, figure: V -> real, k: K, v: V)
    ensures Sum(m[k := v], figure) == Sum(m, figure) - (if k in m then figure(m[k]) else 0.0) + figure(v)
  {
    SumWithout(m[k := v], figure, k);
    assert m[k := v] - {k} == m - {k};
    if k in m {
      SumWithout(m, figure, k);
    } else {
      assert m - {k} == m;
    }
  }

  function ItemTokens(item: Item): real {
    item.tokens as real
  }

  function ItemRequests(item: Item): real {
    item.requests as real
  }

  function ItemPriced(item: Item): real {
    item.priced as real
  }

  function ItemCost(item: Item): real {
    if item.cost.None? then 0.0 else item.cost.value
  }

  function ItemShare(item: Item): real {
    item.share
  }

  function BucketTokens(b: Bucket): real {
    b.tokens as real
  }

  /** A breakdown loses and invents nothing: tokens, requests, priced requests and costs are those of the totals. */
  lemma {:induction false} BreakdownConserves(rows: seq<Row>, key: Key, ctx: Context)
    requires IsContext(ctx)
    ensures var items, t := Breakdown(rows, key, ctx), TotalsOf(rows, ctx);
            && Sum(items, ItemTokens) == (t.input + t.output) as real
            && Sum(items, ItemRequests) == t.requests as real
            && Sum(items, ItemPriced) == t.priced as real
            && Sum(items, ItemCost) == if t.cost.None? then 0.0 else t.cost.value
  {
    hide IsContext, Quote;
    if |rows| > 0 {
      var last := rows[|rows| - 1];
      BreakdownConserves(rows[..|rows| - 1], key, ctx);
      var before := Breakdown(rows[..|rows| - 1], key, ctx);
      var name := NameOf(last, key);
      var after := Breakdown(rows, key, ctx)[name];
      SumUpdate(before, ItemTokens, name, after);
      SumUpdate(before, ItemRequests, name, after);
      SumUpdate(before, ItemPriced, name, after);
      SumUpdate(before, ItemCost, name, after);
    }
  }

  lemma {:induction false} NothingSums<K, V>(m: map<K, V>, figure: V -> real)
    requires forall k | k in m :: figure(m[k]) == 0.0
    ensures Sum(m, figure) == 0.0
    decreases |m|
  {
    if m != map[] {
      var k :| k in m;
      NothingSums(m - {k}, figure);
      SumWithout(m, figure, k);
    }
  }

  /** So does the trend, whether its buckets were prefilled or not. */
  lemma {:induction false} TrendConserves(rows: seq<Row>, ctx: Context)
    requires IsContext(ctx)
    ensures Sum(Trend(rows, ctx), BucketTokens) == (TotalsOf(rows, ctx).input + TotalsOf(rows, ctx).output) as real
  {
    hide IsContext, Quote, RowBucket, Prefilled;
    ContextHasBuckets(ctx);
    if |rows| == 0 {
      NothingSums(EmptyTrend(ctx), BucketTokens);
    } else {
      var last := rows[|rows| - 1];
      TrendConserves(rows[..|rows| - 1], ctx);
      var start := RowBucket(last, ctx);
      SumUpdate(Trend(rows[..|rows| - 1], ctx), BucketTokens, start, Trend(rows, ctx)[start]);
    }
  }

  lemma {:induction false} SharesSum<K>(items: map<K, Item>, shared: map<K, Item>, totalTokens: int)
    requires shared.Keys == items.Keys && forall k | k in items :: shared[k].share == Share(ItemTokens(items[k]), totalTokens)
    ensures Sum(shared, ItemShare) == Share(Sum(items, ItemTokens), totalTokens)
    decreases |items|
  {
    hide Share, Sum, ItemTokens;
    if items == map[] {
      assert shared == map[];
      SumOfNothing(items, ItemTokens);
      SumOfNothing(shared, ItemShare);
      ShareAdds(0.0, 0.0, totalTokens);
    } else {
      var k :| k in items;
      SharesSum(items - {k}, shared - {k}, totalTokens);
      SumWithout(items, ItemTokens, k);
      SumWithout(shared, ItemShare, k);
      ShareAdds(ItemTokens(items[k]), Sum(items - {k}, ItemTokens), totalTokens);
    }
  }

  lemma SumOfNothing<K, V>(m: map<K, V>, figure: V -> real)
    requires m == map[]
    ensures Sum(m, figure) == 0.0
  {
  }

  lemma ShareAdds(a: real, b: real, totalTokens: int)
    ensures Share(a + b, totalTokens) == Share(a, totalTokens) + Share(b, totalTokens)
  {
    if totalTokens > 0 {
      var total := totalTokens as real;
      assert (a + b) / total == a / total + b / total;
    }
  }

  /** How many rows have a sum above the 32-bit range. */
  function Overflows(rows: seq<Row>): nat {
    if |rows| == 0 then 0
    else
      var last := rows[|rows| - 1];
      Overflows(rows[..|rows| - 1]) + if last.input + last.output >= 0x8000_0000 then 1 else 0
  }

  /** And how many have one below it. */
  function Underflows(rows: seq<Row>): nat {
    if |rows| == 0 then 0
    else
      var last := rows[|rows| - 1];
      Underflows(rows[..|rows| - 1]) + if last.input + last.output < -0x8000_0000 then 1 else 0
  }

  lemma Wrapped(x: int)
    requires -0x1_0000_0000 <= x < 0x1_0000_0000
    ensures Wrap32(x) == x - (if x >= 0x8000_0000 then 0x1_0000_0000 else 0) + if x < -0x8000_0000 then 0x1_0000_0000 else 0
  {
  }

  lemma {:induction false} TotalTokensIs(rows: seq<Row>, ctx: Context)
    requires IsContext(ctx)
    ensures TotalTokens(rows)
         == TotalsOf(rows, ctx).input + TotalsOf(rows, ctx).output - 0x1_0000_0000 * (Overflows(rows) - Underflows(rows))
  {
    hide IsContext, Quote, Wrap32, AddCost, AddPriced;
    if |rows| > 0 {
      var last := rows[|rows| - 1];
      TotalTokensIs(rows[..|rows| - 1], ctx);
      Wrapped(last.input + last.output);
    }
  }

  /** The shares of a breakdown add up to 100 exactly when there are tokens and as many rows exceed the 32-bit range
      upwards as downwards. */
  lemma SharesAddUpIff(rows: seq<Row>, key: Key, ctx: Context)
    requires IsContext(ctx)
    ensures Sum(FinishBreakdown(Breakdown(rows, key, ctx), TotalTokens(rows)), ItemShare) == 100.0
            <==> TotalsOf(rows, ctx).input + TotalsOf(rows, ctx).output > 0 && Overflows(rows) == Underflows(rows)
  {
    hide IsContext, Breakdown, TotalsOf, TotalTokens, Overflows, Underflows, Sum, Share;
    var total := TotalTokens(rows);
    TotalTokensIs(rows, ctx);
    SharesSum(Breakdown(rows, key, ctx), FinishBreakdown(Breakdown(rows, key, ctx), total), total);
    BreakdownConserves(rows, key, ctx);
    WholeShare((TotalsOf(rows, ctx).input + TotalsOf(rows, ctx).output) as real, total);
  }

  lemma {:induction false} CountsDoNotUnderflow(rows: seq<Row>)
    requires forall row | row in rows :: row.input >= 0 && row.output >= 0
    ensures Underflows(rows) == 0
  {
    if |rows| > 0 {
      assert rows[|rows| - 1] in rows;
      CountsDoNotUnderflow(rows[..|rows| - 1]);
    }
  }

  /** For token counts, which are not negative, that means no row overflows. */
  lemma SharesOfCountsIff(rows: seq<Row>, key: Key, ctx: Context)
    requires IsContext(ctx) && forall row | row in rows :: row.input >= 0 && row.output >= 0
    ensures Sum(FinishBreakdown(Breakdown(rows, key, ctx), TotalTokens(rows)), ItemShare) == 100.0
            <==> TotalsOf(rows, ctx).input + TotalsOf(rows, ctx).output > 0 && Overflows(rows) == 0
  {
    hide *;
    SharesAddUpIff(rows, key, ctx);
    CountsDoNotUnderflow(rows);
  }

  /** One row that overflows: its provider has all the tokens, and a share of 0. */
  lemma OverflowingRow(row: Row, ctx: Context)
    requires IsContext(ctx) && row.input == row.output == 0x4000_0000
    ensures var item := FinishBreakdown(Breakdown([row], ByProvider, ctx), TotalTokens([row]));
            row.provider in item && item[row.provider].tokens == 0x8000_0000 && item[row.provider].share == 0.0
    ensures Sum(FinishBreakdown(Breakdown([row], ByProvider, ctx), TotalTokens([row])), ItemShare) != 100.0
  {
    hide IsContext, Quote, Sum, Overflows, Underflows, TotalsOf;
    assert [row][..0] == [];
    assert TotalTokens([row]) == Wrap32(0x8000_0000) == -0x8000_0000;
    OneOverflow(row);
    SharesAddUpIff([row], ByProvider, ctx);
  }

  lemma OneOverflow(row: Row)
    requires row.input == row.output == 0x4000_0000
    ensures Overflows([row]) == 1 && Underflows([row]) == 0
  {
    assert [row][..0] == [];
  }

  lemma WholeShare(part: real, totalTokens: int)
    ensures Share(part, totalTokens) == 100.0 <==> totalTokens > 0 && part == totalTokens as real
  {
    if totalTokens > 0 {
      var ratio := part / totalTokens as real;
      assert ratio * 100.0 == 100.0 <==> ratio == 1.0;
      assert part == totalTokens as real * ratio;
      assert part == totalTokens as real ==> ratio == 1.0;
    }
  }

  // ---------- The display currency ----------

  function RescaleCost(cost: Option<real>, factor: real): Option<real> {
    UsagePricing.Scale(cost, factor)
  }

  function RescaleItems(items: map<string, Item>, factor: real, currency: string): map<string, Item> {
    map name | name in items :: RescaleItem(items[name], factor, currency)
  }

  function RescaleItem(item: Item, factor: real, currency: string): Item {
    item.(cost := RescaleCost(item.cost, factor), currency := currency)
  }

  function RescaleRecord(record: Record, factor: real, currency: string): Record {
    record.(cost := RescaleCost(record.cost, factor), currency := currency)
  }

  /** The same report with every cost multiplied and every currency replaced. */
  function Rescaled(report: Report, factor: real, currency: string): Report {
    Report(
      seq(|report.records|, i requires 0 <= i < |report.records| => RescaleRecord(report.records[i], factor, currency)),
      report.totals.(cost := RescaleCost(report.totals.cost, factor), currency := currency),
      report.trend,
      RescaleItems(report.providers, factor, currency),
      RescaleItems(report.models, factor, currency))
  }

  lemma AddCostScales(cost: Option<real>, quote: Option<real>, factor: real)
    ensures RescaleCost(AddCost(cost, quote), factor) == AddCost(RescaleCost(cost, factor), RescaleCost(quote, factor))
  {
    hide UsagePricing.Times;
    if quote.Some? {
      UsagePricing.ScaleAdds(if cost.Some? then cost.value else 0.0, quote.value, factor);
    }
  }

  lemma QuoteRescales(row: Row, ctx: Context, b: string)
    requires IsContext(ctx) && b in ctx.rates
    ensures Quote(row, ctx.(display := b)) == RescaleCost(Quote(row, ctx), Factor(ctx, b))
  {
    UsagePricing.QuoteScales(ctx.profiles, ctx.rates, ctx.display, b, row.provider, row.model, row.input, row.output);
  }

  function Factor(ctx: Context, b: string): real
    requires IsContext(ctx) && b in ctx.rates
  {
    UsagePricing.Factor(ctx.rates, ctx.display, b)
  }

  lemma InCurrency(ctx: Context, b: string)
    requires IsContext(ctx) && b in ctx.rates
    ensures IsContext(ctx.(display := b))
  {
  }

  lemma AddPricedIgnoresAmount(priced: nat, quote: Option<real>, factor: real)
    ensures AddPriced(priced, RescaleCost(quote, factor)) == AddPriced(priced, quote)
    ensures RescaleCost(None, factor) == None
  {
  }

  lemma {:induction false} TotalsRescale(rows: seq<Row>, ctx: Context, b: string)
    requires IsContext(ctx) && b in ctx.rates && IsContext(ctx.(display := b))
    ensures var t := TotalsOf(rows, ctx);
            TotalsOf(rows, ctx.(display := b)) == t.(cost := RescaleCost(t.cost, Factor(ctx, b)), currency := b)
  {
    hide IsContext, RescaleCost, AddCost, AddPriced, Quote, Factor;
    var factor := Factor(ctx, b);
    AddPricedIgnoresAmount(0, None, factor);
    if |rows| > 0 {
      var last := rows[|rows| - 1];
      var t := TotalsOf(rows[..|rows| - 1], ctx);
      TotalsRescale(rows[..|rows| - 1], ctx, b);
      QuoteRescales(last, ctx, b);
      AddCostScales(t.cost, Quote(last, ctx), factor);
      AddPricedIgnoresAmount(t.priced, Quote(last, ctx), factor);
    }
  }

  lemma {:induction false} BreakdownRescales(rows: seq<Row>, key: Key, ctx: Context, b: string)
    requires IsContext(ctx) && b in ctx.rates && IsContext(ctx.(display := b))
    ensures Breakdown(rows, key, ctx.(display := b)) == RescaleItems(Breakdown(rows, key, ctx), Factor(ctx, b), b)
  {
    hide IsContext, RescaleItem, AddToItem, Quote, Factor;
    var factor := Factor(ctx, b);
    if |rows| > 0 {
      var last := rows[|rows| - 1];
      var items := Breakdown(rows[..|rows| - 1], key, ctx);
      var name := NameOf(last, key);
      BreakdownRescales(rows[..|rows| - 1], key, ctx, b);
      QuoteRescales(last, ctx, b);
      ItemRescales(if name in items then items[name] else NewItem(ctx.display), last, Quote(last, ctx), factor, b);
      NewItemRescales(ctx.display, factor, b);
    }
  }

  lemma ItemRescales(item: Item, row: Row, quote: Option<real>, factor: real, b: string)
    ensures AddToItem(RescaleItem(item, factor, b), row, RescaleCost(quote, factor))
         == RescaleItem(AddToItem(item, row, quote), factor, b)
  {
    hide RescaleCost, AddCost, AddPriced;
    AddCostScales(item.cost, quote, factor);
    AddPricedIgnoresAmount(item.priced, quote, factor);
  }

  lemma NewItemRescales(a: string, factor: real, b: string)
    ensures RescaleItem(NewItem(a), factor, b) == NewItem(b)
  {
  }

  lemma FinishRescales(items: map<string, Item>, total: int, factor: real, b: string)
    ensures FinishBreakdown(RescaleItems(items, factor, b), total) == RescaleItems(FinishBreakdown(items, total), factor, b)
  {
    hide Share, RescaleCost;
  }

  lemma {:induction false} RecordsRescale(rows: seq<Row>, ctx: Context, b: string)
    requires IsContext(ctx) && b in ctx.rates && IsContext(ctx.(display := b))
    ensures forall i | 0 <= i < |rows| ::
      Records(rows, ctx.(display := b))[i] == RescaleRecord(Records(rows, ctx)[i], Factor(ctx, b), b)
  {
    hide IsContext, RescaleCost, Quote, Factor;
    if |rows| > 0 {
      RecordsRescale(rows[..|rows| - 1], ctx, b);
      QuoteRescales(rows[|rows| - 1], ctx, b);
    }
  }

  lemma BucketsKeep(row: Row, ctx: Context, b: string)
    requires IsContext(ctx) && IsContext(ctx.(display := b))
    ensures RowBucket(row, ctx.(display := b)) == RowBucket(row, ctx) && EmptyTrend(ctx.(display := b)) == EmptyTrend(ctx)
  {
    hide UsagePricing.IsTable;
  }

  lemma {:induction false} TrendKeeps(rows: seq<Row>, ctx: Context, b: string)
    requires IsContext(ctx) && IsContext(ctx.(display := b))
    ensures Trend(rows, ctx.(display := b)) == Trend(rows, ctx)
  {
    hide IsContext, RowBucket, EmptyTrend;
    if |rows| > 0 {
      TrendKeeps(rows[..|rows| - 1], ctx, b);
      BucketsKeep(rows[|rows| - 1], ctx, b);
    } else {
      BucketsKeep(Row("", "", "", 0, 0, 0, 0, 0, 0), ctx, b);
    }
  }

  /** Another display currency gives the same report with every cost multiplied by the ratio of the two rates: the
      same requests have a cost, and tokens, counts, shares and buckets stay. */
  lemma CurrencyOnlyRescales(rows: seq<Row>, ctx: Context, b: string)
    requires IsContext(ctx) && b in ctx.rates
    ensures ReportOf(rows, ctx.(display := b)) == Rescaled(ReportOf(rows, ctx), Factor(ctx, b), b)
  {
    InCurrency(ctx, b);
    hide IsContext, Trend, Records, Breakdown, TotalsOf, FinishBreakdown, RescaleItems, Factor, RescaleCost, RescaleRecord, TotalTokens;
    TotalsRescale(rows, ctx, b);
    TrendKeeps(rows, ctx, b);
    RecordsRescale(rows, ctx, b);
    BreakdownRescales(rows, ByProvider, ctx, b);
    BreakdownRescales(rows, ByModel, ctx, b);
    FinishRescales(Breakdown(rows, ByProvider, ctx), TotalTokens(rows), Factor(ctx, b), b);
    FinishRescales(Breakdown(rows, ByModel, ctx), TotalTokens(rows), Factor(ctx, b), b);
  }
}
