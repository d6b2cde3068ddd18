/** How frontend/src/stores/contextManagementStore.ts divides the occupied context into categories that add up.
    Token counts are whole numbers; the weights behind them are reals. */
module ContextMeter {
  import Compaction
  import opened Wrappers
  import opened LinearSystem
  import opened TokenModel

  datatype ToolCall = ToolCall(name: string, arguments: string, result: string)

  /** `inputTokens` and `outputTokens` are what the provider reported, if it reported a finite number. */
  datatype Message = Message(role: string, content: string, reasoning: string, toolCalls: seq<ToolCall>,
                             inputTokens: Option<real>, outputTokens: Option<real>, createdAt: Option<int>)

  /** `text` is empty when there is no summary; a date that cannot be read is absent. */
  datatype Compacted = Compacted(summary: string, keepRecent: nat, createdAt: Option<int>)

  datatype Categories = Categories(system: int, tools: int, skills: int, messages: int, other: int)

  datatype Features = Features(system: TextStats, messages: TextStats, tools: TextStats, messageCount: nat)

  datatype Breakdown = Breakdown(
    usedTokens: int, contextTokens: int, percentage: Option<real>, freeTokens: Option<int>,
    snapshotInput: Option<int>, snapshotOutput: Option<int>, categories: Categories)

  function Total(c: Categories): int {
    c.system + c.tools + c.skills + c.messages + c.other
  }

  predicate NonNegative(c: Categories) {
    c.system >= 0 && c.tools >= 0 && c.skills >= 0 && c.messages >= 0 && c.other >= 0
  }

  /** The nearest whole number, upwards from the middle, as `Math.round` has it. */
  function Round(x: real): (n: int)
    ensures x - 0.5 < n as real <= x + 0.5
  {
    (x + 0.5).Floor
  }

  function AtLeastZero(n: int): int {
    if n > 0 then n else 0
  }

  // ---------- Counting text ----------

  predicate IsAscii(c: char) {
    c as int <= 0x7f
  }

  function StatsOf(text: string): (stats: TextStats)
    ensures stats.asciiBytes + stats.nonAsciiChars == |text|
  {
    if |text| == 0 then TextStats(0, 0)
    else
      var stats := StatsOf(text[..|text| - 1]);
      if IsAscii(text[|text| - 1]) then stats.(asciiBytes := stats.asciiBytes + 1)
      else stats.(nonAsciiChars := stats.nonAsciiChars + 1)
  }

  function AddStats(a: TextStats, b: TextStats): TextStats {
    TextStats(a.asciiBytes + b.asciiBytes, a.nonAsciiChars + b.nonAsciiChars)
  }

  /** Counting pieces and adding is counting the whole. */
  lemma {:induction false} StatsAppend(a: string, b: string)
    ensures StatsOf(a + b) == AddStats(StatsOf(a), StatsOf(b))
    decreases |b|
  {
    hide *;
    if |b| == 0 {
      assert a + b == a && b == "";
      StatsOfNothing();
    } else {
      var last := |b| - 1;
      StatsAppend(a, b[..last]);
      StatsStep(b);
      StatsStep(a + b);
      assert (a + b)[..|a + b| - 1] == a + b[..last];
      AddStatsRegroups(StatsOf(a), StatsOf(b[..last]), CharStats(b[last]));
    }
  }

  lemma StatsOfNothing()
    ensures forall stats :: AddStats(stats, StatsOf("")) == stats
  {
  }

  lemma AddStatsRegroups(a: TextStats, b: TextStats, c: TextStats)
    ensures AddStats(AddStats(a, b), c) == AddStats(a, AddStats(b, c))
  {
  }

  lemma StatsStep(text: string)
    requires |text| > 0
    ensures StatsOf(text) == AddStats(StatsOf(text[..|text| - 1]), CharStats(text[|text| - 1]))
  {
  }

  /** Where the characters with a code below 128 are, and where the others. */
  ghost function Places(text: string, ascii: bool): set<nat> {
    set i: nat | i < |text| && (text[i] as int < 128) == ascii
  }

  lemma PlacesGrow(text: string, ascii: bool)
    requires |text| > 0
    ensures var n: nat := |text| - 1;
            n !in Places(text[..n], ascii)
            && Places(text, ascii) == Places(text[..n], ascii) + if (text[n] as int < 128) == ascii then {n} else {}
  {
  }

  /** Every character is counted by its code. */
  lemma {:induction false} StatsCount(text: string)
    ensures StatsOf(text).asciiBytes == |Places(text, true)| && StatsOf(text).nonAsciiChars == |Places(text, false)|
  {
    hide Places;
    if |text| == 0 {
      NoPlaces();
    } else {
      StatsCount(text[..|text| - 1]);
      PlacesGrow(text, true);
      PlacesGrow(text, false);
    }
  }

  lemma NoPlaces()
    ensures Places("", true) == {} == Places("", false)
  {
  }

  function CharStats(c: char): TextStats {
    if IsAscii(c) then TextStats(1, 0) else TextStats(0, 1)
  }

  method CountTextStats(text: string) returns (stats: TextStats)
    ensures stats == StatsOf(text)
  {
    stats := TextStats(0, 0);
    for i := 0 to |text|
      invariant stats == StatsOf(text[..i])
    {
      assert text[..i + 1][..i] == text[..i];
      if IsAscii(text[i]) {
        stats := stats.(asciiBytes := stats.asciiBytes + 1);
      } else {
        stats := stats.(nonAsciiChars := stats.nonAsciiChars + 1);
      }
    }
    assert text[..|text|] == text;
  }

  /** All that the tool calls of a message say. */
  function ToolText(calls: seq<ToolCall>): string {
    if |calls| == 0 then ""
    else
      var last := calls[|calls| - 1];
      ToolText(calls[..|calls| - 1]) + (last.name + last.arguments + last.result)
  }

  function AllToolText(messages: seq<Message>): string {
    if |messages| == 0 then ""
    else AllToolText(messages[..|messages| - 1]) + ToolText(messages[|messages| - 1].toolCalls)
  }

  function AllContent(messages: seq<Message>): string {
    if |messages| == 0 then "" else AllContent(messages[..|messages| - 1]) + messages[|messages| - 1].content
  }

  /** Reasoning is not sent again, so it does not count. */
  function FeaturesOf(messages: seq<Message>, systemText: string): Features {
    Features(StatsOf(systemText), StatsOf(AllContent(messages)), StatsOf(AllToolText(messages)), |messages|)
  }

  method ToolPayloadStats(calls: seq<ToolCall>) returns (stats: TextStats)
    ensures stats == StatsOf(ToolText(calls))
  {
    stats := TextStats(0, 0);
    for i := 0 to |calls|
      invariant stats == StatsOf(ToolText(calls[..i]))
    {
      assert calls[..i + 1][..i] == calls[..i];
      var text := calls[i].name + calls[i].arguments + calls[i].result;
      StatsAppend(ToolText(calls[..i]), text);
      var more := CountTextStats(text);
      stats := AddStats(stats, more);
    }
    assert calls[..|calls|] == calls;
  }

  method BuildUsageFeatures(messages: seq<Message>, systemText: string) returns (features: Features)
    ensures features == FeaturesOf(messages, systemText)
  {
    var system := CountTextStats(systemText);
    var stats, tools := TextStats(0, 0), TextStats(0, 0);
    for i := 0 to |messages|
      invariant stats == StatsOf(AllContent(messages[..i])) && tools == StatsOf(AllToolText(messages[..i]))
    {
      assert messages[..i + 1][..i] == messages[..i];
      StatsAppend(AllContent(messages[..i]), messages[i].content);
      StatsAppend(AllToolText(messages[..i]), ToolText(messages[i].toolCalls));
      var content := CountTextStats(messages[i].content);
      stats := AddStats(stats, content);
      var payload := ToolPayloadStats(messages[i].toolCalls);
      tools := AddStats(tools, payload);
    }
    assert messages[..|messages|] == messages;
    features := Features(system, stats, tools, |messages|);
  }

  // ---------- Weights ----------

  function TextWeight(ascii: real, nonAscii: real, stats: TextStats): real {
    Times(ascii, stats.asciiBytes as real) + Times(nonAscii, stats.nonAsciiChars as real)
  }

  function CategoriesOf(features: Features, c: TokenCoefficients): (categories: Categories)
    ensures NonNegative(categories) && categories.skills == 0 && categories.other == 0
  {
    Categories(
      AtLeastZero(Round(c.intercept + TextWeight(c.asciiPerByte, c.nonAsciiPerChar, features.system))),
      AtLeastZero(Round(TextWeight(c.asciiPerByte, c.nonAsciiPerChar, features.tools))),
      0,
      AtLeastZero(Round(TextWeight(c.asciiPerByte, c.nonAsciiPerChar, features.messages)
                        + Times(c.perMessage, features.messageCount as real))),
      0)
  }

  /** The estimate for a request as a whole, from which the model learns. */
  function Predicted(features: Features, c: TokenCoefficients): int {
    var all := AddStats(AddStats(features.system, features.messages), features.tools);
    AtLeastZero(Round(c.intercept + TextWeight(c.asciiPerByte, c.nonAsciiPerChar, all)
                      + Times(c.perMessage, features.messageCount as real)))
  }

  /** The whole number is the nearest one, or 0 when that is negative. */
  predicate IsNearest(n: int, x: real) {
    (x - 0.5 < n as real <= x + 0.5 && n >= 0) || (n == 0 && x < 0.5)
  }

  /** Each row is the nearest whole number to the weight of its own texts: the intercept counts for the system row, and
      the number of messages for theirs. */
  lemma RowsAreNearest(features: Features, c: TokenCoefficients)
    ensures var rows := CategoriesOf(features, c);
            && IsNearest(rows.system, c.intercept + c.asciiPerByte * features.system.asciiBytes as real
                                      + c.nonAsciiPerChar * features.system.nonAsciiChars as real)
            && IsNearest(rows.tools, c.asciiPerByte * features.tools.asciiBytes as real
                                     + c.nonAsciiPerChar * features.tools.nonAsciiChars as real)
            && IsNearest(rows.messages, c.asciiPerByte * features.messages.asciiBytes as real
                                        + c.nonAsciiPerChar * features.messages.nonAsciiChars as real
                                        + c.perMessage * features.messageCount as real)
  {
    hide Times, Round;
    TimesIs(c.asciiPerByte, features.system.asciiBytes as real);
    TimesIs(c.nonAsciiPerChar, features.system.nonAsciiChars as real);
    TimesIs(c.asciiPerByte, features.tools.asciiBytes as real);
    TimesIs(c.nonAsciiPerChar, features.tools.nonAsciiChars as real);
    TimesIs(c.asciiPerByte, features.messages.asciiBytes as real);
    TimesIs(c.nonAsciiPerChar, features.messages.nonAsciiChars as real);
    TimesIs(c.perMessage, features.messageCount as real);
  }

  lemma TextWeightAdds(ascii: real, nonAscii: real, a: TextStats, b: TextStats)
    ensures TextWeight(ascii, nonAscii, AddStats(a, b)) == TextWeight(ascii, nonAscii, a) + TextWeight(ascii, nonAscii, b)
  {
    TimesAdds(ascii, a.asciiBytes as real, b.asciiBytes as real);
    TimesAdds(nonAscii, a.nonAsciiChars as real, b.nonAsciiChars as real);
  }

  lemma TimesAdds(x: real, y: real, z: real)
    ensures Times(x, y + z) == Times(x, y) + Times(x, z)
  {
  }

  lemma TimesNonNegative(x: real, y: real)
    requires x >= 0.0 && y >= 0.0
    ensures Times(x, y) >= 0.0
  {
  }

  /** Rounded one by one, the categories differ from the estimate of the whole by at most one token. */
  lemma CategoriesMatchPrediction(features: Features, c: TokenCoefficients)
    requires c.intercept >= 0.0 && c.asciiPerByte >= 0.0 && c.nonAsciiPerChar >= 0.0 && c.perMessage >= 0.0
    ensures -1 <= Total(CategoriesOf(features, c)) - Predicted(features, c) <= 1
  {
    hide Times, TextWeight, Round;
    TextWeightAdds(c.asciiPerByte, c.nonAsciiPerChar, AddStats(features.system, features.messages), features.tools);
    TextWeightAdds(c.asciiPerByte, c.nonAsciiPerChar, features.system, features.messages);
    WeightNonNegative(c.asciiPerByte, c.nonAsciiPerChar, features.system);
    WeightNonNegative(c.asciiPerByte, c.nonAsciiPerChar, features.messages);
    WeightNonNegative(c.asciiPerByte, c.nonAsciiPerChar, features.tools);
    TimesNonNegative(c.perMessage, features.messageCount as real);
  }

  lemma WeightNonNegative(ascii: real, nonAscii: real, stats: TextStats)
    requires ascii >= 0.0 && nonAscii >= 0.0
    ensures TextWeight(ascii, nonAscii, stats) >= 0.0
  {
    TimesNonNegative(ascii, stats.asciiBytes as real);
    TimesNonNegative(nonAscii, stats.nonAsciiChars as real);
  }

  // ---------- Splitting the output ----------

  function SplitOutput(c: OutputCoefficients, content: string, reasoning: string, total: int): (split: (int, int))
    ensures total >= 0 ==> 0 <= split.0 <= total && split.1 >= 0 && split.0 + split.1 == total
    ensures total > 0 && reasoning == "" ==> split == (total, 0)
  {
    if total <= 0 then (0, 0)
    else if reasoning == "" then (total, 0)
    else
      var contentWeight := TextWeight(c.asciiPerByte, c.nonAsciiPerChar, StatsOf(content));
      var reasoningWeight := TextWeight(c.asciiPerByte, c.nonAsciiPerChar, StatsOf(reasoning));
      var combined := contentWeight + reasoningWeight;
      if combined <= 0.0 then (total, 0)
      else
        var visible := Round(total as real - Times(total as real, reasoningWeight) / combined);
        var kept := if visible < 0 then 0 else if visible > total then total else visible;
        (kept, AtLeastZero(total - kept))
  }

  /** The visible part is the share of the visible text, to the nearest token. */
  lemma SplitIsProportional(c: OutputCoefficients, content: string, reasoning: string, total: int)
    requires c.asciiPerByte > 0.0 && c.nonAsciiPerChar > 0.0 && total > 0 && reasoning != ""
    ensures var contentWeight := TextWeight(c.asciiPerByte, c.nonAsciiPerChar, StatsOf(content));
            var reasoningWeight := TextWeight(c.asciiPerByte, c.nonAsciiPerChar, StatsOf(reasoning));
            && contentWeight + reasoningWeight > 0.0
            && SplitOutput(c, content, reasoning, total).0 == Round(Times(total as real, contentWeight) / (contentWeight + reasoningWeight))
  {
    hide Times, TextWeight, StatsOf;
    var contentWeight := TextWeight(c.asciiPerByte, c.nonAsciiPerChar, StatsOf(content));
    var reasoningWeight := TextWeight(c.asciiPerByte, c.nonAsciiPerChar, StatsOf(reasoning));
    WeightNonNegative(c.asciiPerByte, c.nonAsciiPerChar, StatsOf(content));
    WeightPositive(c.asciiPerByte, c.nonAsciiPerChar, StatsOf(reasoning));
    Shares(total as real, contentWeight, reasoningWeight);
  }

  lemma WeightPositive(ascii: real, nonAscii: real, stats: TextStats)
    requires ascii > 0.0 && nonAscii > 0.0 && stats.asciiBytes + stats.nonAsciiChars > 0
    ensures TextWeight(ascii, nonAscii, stats) > 0.0
  {
    TimesNonNegative(ascii, stats.asciiBytes as real);
    TimesNonNegative(nonAscii, stats.nonAsciiChars as real);
    if stats.asciiBytes > 0 {
      assert Times(ascii, stats.asciiBytes as real) > 0.0;
    } else {
      assert Times(nonAscii, stats.nonAsciiChars as real) > 0.0;
    }
  }

  lemma Shares(total: real, a: real, b: real)
    requires total >= 0.0 && a >= 0.0 && b > 0.0
    ensures total - Times(total, b) / (a + b) == Times(total, a) / (a + b)
    ensures 0.0 <= Times(total, a) / (a + b) <= total
  {
    var whole := a + b;
    assert total * a + total * b == total * whole;
    assert (total * whole) / whole == total;
    assert (total * a) / whole + (total * b) / whole == (total * a + total * b) / whole;
  }

  // ---------- Fitting estimates to a measurement ----------

  function Scaled(n: int, snapshot: int, total: int): int
    requires total != 0
  {
    Times(n as real, snapshot as real / total as real).Floor
  }

  /** Rows that add up to the measured count; what the estimates leave over is `other`. */
  function Reconciled(estimated: Categories, snapshot: int): Categories {
    var total := Total(estimated);
    if total <= snapshot then estimated.(other := snapshot - total)
    else if total == 0 then estimated.(other := snapshot)
    else
      var system := Scaled(estimated.system, snapshot, total);
      var tools := Scaled(estimated.tools, snapshot, total);
      var skills := Scaled(estimated.skills, snapshot, total);
      var messages := Scaled(estimated.messages, snapshot, total);
      Categories(system, tools, skills, messages, snapshot - (system + tools + skills + messages))
  }

  /** `n` is the whole part of the share of `whole` that `part` is of `total`. */
  predicate IsShare(n: int, whole: int, part: int, total: int) {
    n * total <= whole * part < (n + 1) * total
  }

  lemma IntProduct(a: int, b: int)
    ensures (a * b) as real == a as real * b as real
  {
  }

  lemma Ordered(x: real, y: real, z: real, total: real)
    requires x <= y < z && total > 0.0
    ensures x * total <= y * total < z * total
  {
    assert (y - x) * total >= 0.0 && (z - y) * total > 0.0;
  }

  lemma ShareTimesTotal(n: real, snapshot: real, total: real)
    requires total > 0.0
    ensures Times(n, snapshot / total) * total == n * snapshot
  {
    var scale := snapshot / total;
    assert scale * total == snapshot;
    assert n * scale * total == n * (scale * total);
  }

  lemma ScaledIsWhole(n: int, snapshot: int, total: int)
    requires total > 0
    ensures IsShare(Scaled(n, snapshot, total), n, snapshot, total)
  {
    hide Times;
    var share := Times(n as real, snapshot as real / total as real);
    var scaled := Scaled(n, snapshot, total);
    ShareTimesTotal(n as real, snapshot as real, total as real);
    Ordered(scaled as real, share, (scaled + 1) as real, total as real);
    IntProduct(scaled, total);
    IntProduct(scaled + 1, total);
    IntProduct(n, snapshot);
  }

  lemma ScaledIsShare(n: int, snapshot: int, total: int)
    requires 0 <= snapshot < total && 0 <= n
    ensures 0 <= Scaled(n, snapshot, total) <= n
    ensures Scaled(n, snapshot, total) as real <= Times(n as real, snapshot as real / total as real)
  {
    var scale := snapshot as real / total as real;
    assert 0.0 <= scale <= 1.0;
    TimesNonNegative(n as real, scale);
    TimesNonNegative(n as real, 1.0 - scale);
    assert Times(n as real, scale) + Times(n as real, 1.0 - scale) == n as real;
  }

  lemma SharesFit(a: int, b: int, c: int, d: int, snapshot: int, total: int)
    requires 0 <= snapshot < total && 0 <= a && 0 <= b && 0 <= c && 0 <= d && a + b + c + d <= total
    ensures Scaled(a, snapshot, total) + Scaled(b, snapshot, total) + Scaled(c, snapshot, total) + Scaled(d, snapshot, total)
         <= snapshot
  {
    hide Scaled, Times;
    var scale := snapshot as real / total as real;
    ScaledIsShare(a, snapshot, total);
    ScaledIsShare(b, snapshot, total);
    ScaledIsShare(c, snapshot, total);
    ScaledIsShare(d, snapshot, total);
    var rest := total - (a + b + c + d);
    TimesNonNegative(rest as real, scale);
    Scale(a as real, b as real, c as real, d as real, rest as real, scale);
    FullShare(snapshot as real, total as real);
  }

  lemma FullShare(part: real, whole: real)
    requires whole != 0.0
    ensures Times(whole, part / whole) == part
  {
  }

  lemma Scale(a: real, b: real, c: real, d: real, e: real, scale: real)
    ensures Times(a + b + c + d + e, scale)
         == Times(a, scale) + Times(b, scale) + Times(c, scale) + Times(d, scale) + Times(e, scale)
  {
  }

  /** No row becomes negative or grows, and the rows add up to the measurement exactly when nothing was in `other`
      before or the estimates had to be scaled down. */
  lemma ReconciledAddsUpIff(estimated: Categories, snapshot: int)
    requires NonNegative(estimated) && snapshot >= 0
    ensures NonNegative(Reconciled(estimated, snapshot))
    ensures Total(Reconciled(estimated, snapshot)) == snapshot <==> estimated.other == 0 || Total(estimated) > snapshot
    ensures var c := Reconciled(estimated, snapshot);
            && c.system <= estimated.system && c.tools <= estimated.tools && c.skills <= estimated.skills && c.messages <= estimated.messages
            && (Total(estimated) <= snapshot ==> c == estimated.(other := c.other))
            && (Total(estimated) > snapshot ==>
                  && IsShare(c.system, estimated.system, snapshot, Total(estimated))
                  && IsShare(c.tools, estimated.tools, snapshot, Total(estimated))
                  && IsShare(c.skills, estimated.skills, snapshot, Total(estimated))
                  && IsShare(c.messages, estimated.messages, snapshot, Total(estimated)))
  {
    hide Scaled, IsShare;
    var total := Total(estimated);
    if total > snapshot {
      ScaledIsWhole(estimated.system, snapshot, total);
      ScaledIsWhole(estimated.tools, snapshot, total);
      ScaledIsWhole(estimated.skills, snapshot, total);
      ScaledIsWhole(estimated.messages, snapshot, total);
      ScaledIsShare(estimated.system, snapshot, total);
      ScaledIsShare(estimated.tools, snapshot, total);
      ScaledIsShare(estimated.skills, snapshot, total);
      ScaledIsShare(estimated.messages, snapshot, total);
      SharesFit(estimated.system, estimated.tools, estimated.skills, estimated.messages, snapshot, total);
    }
  }

  // ---------- The meter ----------

  /** A reply for which the provider reported both counts. */
  predicate IsSnapshot(m: Message) {
    && m.role == "assistant" && m.inputTokens.Some? && m.outputTokens.Some?
    && m.inputTokens.value >= 0.0 && m.outputTokens.value >= 0.0
  }

  method LatestContextSnapshotIndex(messages: seq<Message>) returns (index: int)
    ensures -1 <= index < |messages|
    ensures forall i | 0 <= i < |messages| ::
      var m := messages[i];
      IsSnapshot(m) <==> m.role == "assistant" && m.inputTokens.Some? && m.outputTokens.Some?
                         && m.inputTokens.value >= 0.0 && m.outputTokens.value >= 0.0
    ensures index >= 0 ==> IsSnapshot(messages[index])
    ensures forall i | index < i < |messages| :: !IsSnapshot(messages[i])
  {
    index := |messages| - 1;
    while index >= 0
      invariant -1 <= index < |messages|
      invariant forall i | index < i < |messages| :: !IsSnapshot(messages[i])
    {
      if IsSnapshot(messages[index]) {
        return;
      }
      index := index - 1;
    }
  }

  /** The messages that still go to the provider as they are. */
  function Active(messages: seq<Message>, compaction: Option<Compacted>): seq<Message> {
    if compaction.None? || compaction.value.summary == "" then messages
    else if compaction.value.keepRecent == 0 then []
    else if compaction.value.keepRecent < |messages| then messages[|messages| - compaction.value.keepRecent..]
    else messages
  }

  /** With a summary, what is measured is the transcript behind the summarized messages; without one, all of it. The
      summary goes by the same messages with their ids. */
  lemma ActiveIsBehindSummary(messages: seq<Message>, transcript: seq<Compaction.Message>, compaction: Option<Compacted>)
    requires |transcript| == |messages|
    ensures compaction.Some? && compaction.value.summary != "" ==>
      Active(messages, compaction) == messages[|Compaction.Archived(transcript, compaction.value.keepRecent)|..]
    ensures compaction.None? || compaction.value.summary == "" ==> Active(messages, compaction) == messages
  {
  }

  predicate IsStale(snapshot: Message, compaction: Option<Compacted>) {
    && compaction.Some? && compaction.value.summary != ""
    && compaction.value.createdAt.Some? && snapshot.createdAt.Some?
    && compaction.value.createdAt.value > snapshot.createdAt.value
  }

  /** `index` is the newest snapshot, and there is no summary that is known to be newer. */
  ghost predicate Measures(messages: seq<Message>, compaction: Option<Compacted>, index: int) {
    && 0 <= index < |messages| && IsSnapshot(messages[index])
    && (compaction.Some? && compaction.value.summary != "" ==>
          compaction.value.createdAt.Some? && messages[index].createdAt.Some? ==>
            compaction.value.createdAt.value <= messages[index].createdAt.value)
    && forall i | index < i < |messages| :: !IsSnapshot(messages[i])
  }

  /** What the messages up to the snapshot amount to by estimate alone. */
  function Covered(messages: seq<Message>, index: nat, systemText: string, c: TokenCoefficients): (covered: Categories)
    requires index < |messages|
    ensures NonNegative(covered) && covered.other == 0
  {
    var before := CategoriesOf(FeaturesOf(messages[..index], systemText), c);
    var payload := StatsOf(ToolText(messages[index].toolCalls));
    before.(tools := before.tools + AtLeastZero(Round(TextWeight(c.asciiPerByte, c.nonAsciiPerChar, payload))))
  }

  /** Each row is the estimate for what the snapshot covers and what came after it in full; the estimate is scaled down
      to the measured count exactly when it is larger. */
  predicate RowsFollow(rows: Categories, covered: Categories, input: int, visible: int, after: Categories) {
    && 0 <= rows.system <= covered.system
    && after.tools <= rows.tools <= covered.tools + after.tools
    && visible + after.messages <= rows.messages <= covered.messages + visible + after.messages
    && (Total(covered) <= input ==> rows.system == covered.system && rows.tools == covered.tools + after.tools
                                    && rows.messages == covered.messages + visible + after.messages)
    && (Total(covered) > input ==>
          && IsShare(rows.system, covered.system, input, Total(covered))
          && IsShare(rows.tools - after.tools, covered.tools, input, Total(covered))
          && IsShare(rows.messages - visible - after.messages, covered.messages, input, Total(covered)))
  }

  lemma ReconciledRows(covered: Categories, input: int, visible: int, after: Categories)
    requires NonNegative(covered) && covered.other == 0 && NonNegative(after) && input >= 0 && visible >= 0
    ensures var c := Reconciled(covered, input);
            var rows := c.(messages := c.messages + visible + after.messages, tools := c.tools + after.tools);
            && NonNegative(rows) && Total(rows) == input + visible + after.messages + after.tools
            && RowsFollow(rows, covered, input, visible, after)
  {
    hide Reconciled, IsShare;
    ReconciledAddsUpIff(covered, input);
  }

  /** A provider count corrects the estimate for the messages it covers; its visible output and the later messages
      come on top. */
  method MeasureFrom(messages: seq<Message>, index: nat, systemText: string, coeffs: TokenCoefficients,
                     outputCoeffs: OutputCoefficients)
    returns (categories: Categories, usedTokens: int, contextTokens: int)
    requires index < |messages| && IsSnapshot(messages[index])
    ensures NonNegative(categories) && Total(categories) == contextTokens && 0 <= usedTokens <= contextTokens
    ensures var snapshot := messages[index];
      var input := snapshot.inputTokens.value.Floor;
      var visible := SplitOutput(outputCoeffs, snapshot.content, snapshot.reasoning, snapshot.outputTokens.value.Floor).0;
      var after := CategoriesOf(FeaturesOf(messages[index + 1..], ""), coeffs);
      && usedTokens == input + after.messages + after.tools && contextTokens == usedTokens + visible
      && RowsFollow(categories, Covered(messages, index, systemText, coeffs), input, visible, after)
  {
    hide StatsOf, FeaturesOf, CategoriesOf, SplitOutput, Round, TextWeight, Reconciled, IsShare, RowsFollow, Total;
    var snapshot := messages[index];
    var input, output := snapshot.inputTokens.value.Floor, snapshot.outputTokens.value.Floor;
    var before := BuildUsageFeatures(messages[..index], systemText);
    var covered := CategoriesOf(before, coeffs);
    var payload := ToolPayloadStats(snapshot.toolCalls);
    covered := covered.(tools :=
      covered.tools + AtLeastZero(Round(TextWeight(coeffs.asciiPerByte, coeffs.nonAsciiPerChar, payload))));
    assert covered == Covered(messages, index, systemText, coeffs);
    categories := Reconciled(covered, input);
    var split := SplitOutput(outputCoeffs, snapshot.content, snapshot.reasoning, output);
    categories := categories.(messages := categories.messages + split.0);
    var added := BuildUsageFeatures(messages[index + 1..], "");
    var after := CategoriesOf(added, coeffs);
    categories := categories.(messages := categories.messages + after.messages, tools := categories.tools + after.tools);
    ReconciledRows(covered, input, split.0, after);
    var appendedTokens := after.messages + after.tools;
    usedTokens := input + appendedTokens;
    contextTokens := input + split.0 + appendedTokens;
  }

  /** The result that the snapshot at `index` leads to. */
  predicate IsMeasured(b: Breakdown, messages: seq<Message>, index: nat, systemText: string,
                       coeffs: TokenCoefficients, outputCoeffs: OutputCoefficients)
    requires index < |messages| && IsSnapshot(messages[index])
  {
    var snapshot := messages[index];
    var input, output := snapshot.inputTokens.value.Floor, snapshot.outputTokens.value.Floor;
    var visible := SplitOutput(outputCoeffs, snapshot.content, snapshot.reasoning, output).0;
    var after := CategoriesOf(FeaturesOf(messages[index + 1..], ""), coeffs);
    && b.snapshotInput == Some(input) && b.snapshotOutput == Some(output)
    && b.usedTokens == input + after.messages + after.tools && b.contextTokens == b.usedTokens + visible
    && RowsFollow(b.categories, Covered(messages, index, systemText, coeffs), input, visible, after)
  }

  /** How full the window is, in percent, and what is left of it. */
  method Occupancy(contextTokens: int, limit: int, reserved: int) returns (percentage: Option<real>, freeTokens: Option<int>)
    requires contextTokens >= 0
    ensures limit == 0 <==> percentage.None?
    ensures limit == 0 <==> freeTokens.None?
    ensures limit > 0 ==> 0.0 <= percentage.value <= 100.0 && (percentage.value == 100.0 <==> contextTokens >= limit)
    ensures limit > 0 && contextTokens < limit ==> percentage.value / 100.0 * limit as real == contextTokens as real
    ensures limit != 0 && contextTokens + reserved <= limit ==> contextTokens + reserved + freeTokens.value == limit
    ensures limit != 0 && contextTokens + reserved > limit ==> freeTokens == Some(0)
  {
    percentage, freeTokens := None, None;
    if limit != 0 {
      var share := contextTokens as real / limit as real * 100.0;
      percentage := Some(if share < 100.0 then share else 100.0);
      ShareOf(contextTokens, limit);
      freeTokens := Some(AtLeastZero(limit - contextTokens - reserved));
    }
  }

  /** The rows are never negative and add up to the occupied context, whichever way it is found. */
  method EstimateContextUsage(messages: seq<Message>, limit: int, compaction: Option<Compacted>, reserved: int,
                              systemText: string, coeffs: TokenCoefficients, outputCoeffs: OutputCoefficients)
    returns (b: Breakdown)
    ensures NonNegative(b.categories) && Total(b.categories) == b.contextTokens && 0 <= b.usedTokens <= b.contextTokens
    ensures b.snapshotInput.Some? <==> exists index :: Measures(messages, compaction, index)
    ensures b.snapshotInput.None? ==>
      b.usedTokens == b.contextTokens && b.categories == CategoriesOf(FeaturesOf(Active(messages, compaction), systemText), coeffs)
    ensures forall index | Measures(messages, compaction, index) ::
      IsMeasured(b, messages, index, systemText, coeffs, outputCoeffs)
    ensures limit > 0 ==> b.percentage.Some? && 0.0 <= b.percentage.value <= 100.0
    ensures limit > 0 && b.contextTokens + reserved <= limit ==>
      b.freeTokens == Some(limit - b.contextTokens - reserved)
  {
    hide StatsOf, FeaturesOf, CategoriesOf, SplitOutput, Covered, RowsFollow, IsSnapshot, Active;
    var latest := LatestContextSnapshotIndex(messages);
    var categories, usedTokens, contextTokens;
    var snapshotInput, snapshotOutput: Option<int> := None, None;
    if latest >= 0 && !IsStale(messages[latest], compaction) {
      categories, usedTokens, contextTokens := MeasureFrom(messages, latest, systemText, coeffs, outputCoeffs);
      SnapshotHasCounts(messages[latest]);
      snapshotInput := Some(messages[latest].inputTokens.value.Floor);
      snapshotOutput := Some(messages[latest].outputTokens.value.Floor);
      assert Measures(messages, compaction, latest);
    } else {
      var features := BuildUsageFeatures(Active(messages, compaction), systemText);
      categories := CategoriesOf(features, coeffs);
      usedTokens := Total(categories);
      contextTokens := usedTokens;
    }
    var percentage, freeTokens := Occupancy(contextTokens, limit, reserved);
    b := Breakdown(usedTokens, contextTokens, percentage, freeTokens, snapshotInput, snapshotOutput, categories);
    forall index | Measures(messages, compaction, index)
      ensures latest == index && snapshotInput.Some? && IsMeasured(b, messages, index, systemText, coeffs, outputCoeffs)
    {
      assert latest == index;
    }
  }

  lemma SnapshotHasCounts(m: Message)
    requires IsSnapshot(m)
    ensures m.inputTokens.Some? && m.outputTokens.Some?
  {
  }

  lemma ShareOf(part: int, whole: int)
    requires part >= 0 && whole != 0
    ensures whole > 0 ==> part as real / whole as real * 100.0 >= 0.0
    ensures whole > 0 ==> (part as real / whole as real * 100.0 >= 100.0 <==> part >= whole)
    ensures part as real / whole as real * 100.0 / 100.0 * whole as real == part as real
  {
    var ratio := part as real / whole as real;
    assert ratio * 100.0 / 100.0 == ratio;
    assert ratio * whole as real == part as real;
    if whole > 0 && part >= whole {
      assert ratio >= 1.0;
    }
  }
}
