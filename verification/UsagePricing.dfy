/** What a request costs, in a currency to display (engine/src/api/usage.rs). Prices and rates are exact reals. */
module UsagePricing {
  import opened Wrappers
  import opened Text

  const DEFAULT_CURRENCY: string := "USD"

  datatype Condition = Condition(unit: Option<string>, gte: Option<real>, lt: Option<real>)
  datatype Tier = Tier(value: real, unit: Option<string>, currency: Option<string>, conditions: map<string, Condition>)
  datatype ModelConfig = ModelConfig(id: string, currency: Option<string>, inputPrice: Option<real>, outputPrice: Option<real>,
                                     pricing: map<string, seq<Tier>>)
  datatype Profile = Profile(id: string, modelConfigs: seq<ModelConfig>)
  datatype Rate = Rate(perToken: real, currency: string)

  /** Units of each currency for one US dollar. */
  type Rates = map<string, real>

  function Times(x: real, y: real): real {
    x * y
  }

  // ---------- Currencies ----------

  function Upper(s: string): (r: string)
    ensures |r| == |s| && forall i | 0 <= i < |s| :: r[i] == UpperChar(s[i])
  {
    seq(|s|, i requires 0 <= i < |s| => UpperChar(s[i]))
  }

  function UpperChar(c: char): char {
    if 'a' <= c <= 'z' then c - 'a' + 'A' else c
  }

  function NormalizeCurrency(currency: string): string {
    Upper(Trim(currency, IsRustSpace))
  }

  /** What normalizing leaves alone. */
  predicate IsNormal(c: string) {
    && (|c| > 0 ==> !IsRustSpace(c[0]) && !IsRustSpace(c[|c| - 1]))
    && forall i | 0 <= i < |c| :: !('a' <= c[i] <= 'z')
  }

  lemma NormalizeIsNormal(currency: string)
    ensures IsNormal(NormalizeCurrency(currency))
  {
    hide TrimStart, TrimEnd, IsRustSpace, UpperChar;
    var t := Trim(currency, IsRustSpace);
    forall i | 0 <= i < |t| ensures !('a' <= Upper(t)[i] <= 'z') && IsRustSpace(Upper(t)[i]) == IsRustSpace(t[i]) {
      UpperKeepsSpace(t[i]);
    }
  }

  lemma NormalIsFixed(c: string)
    requires IsNormal(c)
    ensures NormalizeCurrency(c) == c
  {
    hide TrimStart, TrimEnd, Trim, IsRustSpace;
    TrimFixed(c, IsRustSpace);
    assert Upper(c) == c;
  }

  lemma UpperKeepsSpace(c: char)
    ensures IsRustSpace(UpperChar(c)) == IsRustSpace(c) && !('a' <= UpperChar(c) <= 'z')
  {
  }

  /** A table that converts: rates are positive, names are normal, and the dollar is there. */
  ghost predicate IsTable(rates: Rates) {
    && DEFAULT_CURRENCY in rates
    && forall c | c in rates :: rates[c] > 0.0 && IsNormal(c)
  }

  function DefaultRates(): Rates {
    map["USD" := 1.0, "CNY" := 7.2, "EUR" := 0.92]
  }

  lemma DefaultIsTable()
    ensures IsTable(DefaultRates())
  {
  }

  /** The last positive override for a currency, under any spelling of its name. */
  function OverrideFor(overrides: seq<(string, real)>, currency: string): Option<real> {
    if |overrides| == 0 then None
    else
      var (name, rate) := overrides[|overrides| - 1];
      if rate > 0.0 && NormalizeCurrency(name) == currency then Some(rate)
      else OverrideFor(overrides[..|overrides| - 1], currency)
  }

  method ReadRates(overrides: seq<(string, real)>) returns (rates: Rates)
    ensures IsTable(rates)
    ensures overrides == [] ==> rates == map["USD" := 1.0, "CNY" := 7.2, "EUR" := 0.92]
    ensures forall c :: c in rates <==> c in DefaultRates() || OverrideFor(overrides, c).Some?
    ensures forall c | c in rates ::
      rates[c] == if OverrideFor(overrides, c).Some? then OverrideFor(overrides, c).value else DefaultRates()[c]
  {
    hide NormalizeCurrency, DefaultRates, IsNormal;
    rates := DefaultRates();
    DefaultIsTable();
    for i := 0 to |overrides|
      invariant IsTable(rates)
      invariant forall c :: c in rates <==> c in DefaultRates() || OverrideFor(overrides[..i], c).Some?
      invariant forall c | c in rates ::
        rates[c] == if OverrideFor(overrides[..i], c).Some? then OverrideFor(overrides[..i], c).value else DefaultRates()[c]
    {
      assert overrides[..i + 1][..i] == overrides[..i];
      var (name, rate) := overrides[i];
      if rate > 0.0 {
        NormalizeIsNormal(name);
        rates := rates[NormalizeCurrency(name) := rate];
      }
    }
    assert overrides[..|overrides|] == overrides;
    if overrides == [] {
      NoOverrides(rates);
    }
  }

  lemma NoOverrides(rates: Rates)
    requires forall c :: c in rates <==> c in DefaultRates()
    requires forall c | c in rates :: rates[c] == DefaultRates()[c]
    ensures rates == map["USD" := 1.0, "CNY" := 7.2, "EUR" := 0.92]
  {
    assert rates == DefaultRates();
  }

  function ResolveCurrency(rates: Rates, requested: Option<string>): (display: string)
    requires IsTable(rates)
    ensures display in rates && NormalizeCurrency(display) == display
    ensures requested.Some? && NormalizeCurrency(requested.value) in rates ==> display == NormalizeCurrency(requested.value)
  {
    var wanted := if requested.Some? then NormalizeCurrency(requested.value) else DEFAULT_CURRENCY;
    var display := if wanted in rates then wanted else DEFAULT_CURRENCY;
    NormalIsFixed(display);
    display
  }

  function Convert(rates: Rates, amount: real, source: string, display: string): Option<real>
    requires IsTable(rates)
  {
    var (a, b) := (NormalizeCurrency(source), NormalizeCurrency(display));
    if a in rates && b in rates then Some(Times(amount / rates[a], rates[b])) else None
  }

  // ---------- Prices ----------

  /** The index of the first element with the property. */
  function IndexWhere<T>(s: seq<T>, p: T -> bool): (found: Option<nat>)
    ensures found.Some? ==> found.value < |s| && p(s[found.value]) && forall j | 0 <= j < found.value :: !p(s[j])
    ensures found.None? ==> forall j | 0 <= j < |s| :: !p(s[j])
  {
    if |s| == 0 then None
    else
      var found := IndexWhere(s[..|s| - 1], p);
      if found.None? && p(s[|s| - 1]) then Some(|s| - 1) else found
  }

  function FirstWhere<T>(s: seq<T>, p: T -> bool): (found: Option<T>)
    ensures found.Some? ==> found.value in s && p(found.value)
    ensures found.None? ==> forall j | 0 <= j < |s| :: !p(s[j])
  {
    match IndexWhere(s, p)
    case Some(i) => Some(s[i])
    case None => None
  }

  function UnitDivisor(unit: Option<string>): (d: real)
    ensures d > 0.0
  {
    var name := if unit.Some? then Lower(unit.value) else "";
    if Contains(name, "mtoken") || Contains(name, "million") then 1000000.0
    else if Contains(name, "ktoken") || Contains(name, "thousand") then 1000.0
    else if Contains(name, "token") then 1.0
    else 1000000.0
  }

  function ConditionUnitDivisor(unit: Option<string>): (d: real)
    ensures d > 0.0
  {
    if unit.None? || unit.value == "" then 1.0 else UnitDivisor(unit)
  }

  predicate ConditionMatches(tier: Tier, promptTokens: int) {
    && "prompt_tokens" in tier.conditions
    && var condition := tier.conditions["prompt_tokens"];
       var value := promptTokens as real / ConditionUnitDivisor(condition.unit);
       && (condition.gte.None? || value >= condition.gte.value)
       && (condition.lt.None? || value < condition.lt.value)
  }

  /** A tier whose condition holds is preferred to one without a condition, and that one to the rest. */
  function Preference(tier: Tier, promptTokens: int): nat {
    if ConditionMatches(tier, promptTokens) then 2 else if "prompt_tokens" !in tier.conditions then 1 else 0
  }

  /** Preferred to all the tiers before it, and no less than all the others. */
  ghost predicate IsFirstBest(tiers: seq<Tier>, i: nat, promptTokens: int) {
    && i < |tiers|
    && (forall j | 0 <= j < i :: Preference(tiers[j], promptTokens) < Preference(tiers[i], promptTokens))
    && (forall j | 0 <= j < |tiers| :: Preference(tiers[j], promptTokens) <= Preference(tiers[i], promptTokens))
  }

  /** The first tier whose condition holds, else the first one without a condition, else the first. */
  function SelectTier(tiers: seq<Tier>, promptTokens: int): (tier: Option<Tier>)
    ensures tier.None? <==> tiers == []
    ensures tier.Some? ==> exists i: nat :: i < |tiers| && IsFirstBest(tiers, i, promptTokens) && tier.value == tiers[i]
  {
    var matching := IndexWhere(tiers, (t: Tier) => ConditionMatches(t, promptTokens));
    var free := IndexWhere(tiers, (t: Tier) => "prompt_tokens" !in t.conditions);
    if matching.Some? then
      assert IsFirstBest(tiers, matching.value, promptTokens);
      Some(tiers[matching.value])
    else if free.Some? then
      assert IsFirstBest(tiers, free.value, promptTokens);
      Some(tiers[free.value])
    else if |tiers| > 0 then
      assert IsFirstBest(tiers, 0, promptTokens);
      Some(tiers[0])
    else None
  }

  function OrDefault(first: Option<string>, second: Option<string>): string {
    if first.Some? then first.value else if second.Some? then second.value else DEFAULT_CURRENCY
  }

  function PricingRate(config: ModelConfig, kind: string, promptTokens: int, directPrice: Option<real>): Option<Rate> {
    var tier := if kind in config.pricing then SelectTier(config.pricing[kind], promptTokens) else None;
    match tier
    case Some(t) =>
      Some(Rate(t.value / UnitDivisor(t.unit), NormalizeCurrency(OrDefault(t.currency, config.currency))))
    case None =>
      match directPrice
      case Some(price) => Some(Rate(price / 1000000.0, NormalizeCurrency(OrDefault(config.currency, None))))
      case None => None
  }

  function FindConfig(profiles: seq<Profile>, provider: string, model: string): Option<ModelConfig> {
    match FirstWhere(profiles, (p: Profile) => p.id == provider)
    case None => None
    case Some(profile) => FirstWhere(profile.modelConfigs, (c: ModelConfig) => c.id == model)
  }

  /** The part of a cost that one rate makes; without a rate it is nothing. */
  function Part(rates: Rates, display: string, tokens: int, rate: Option<Rate>): Option<real>
    requires IsTable(rates)
  {
    if rate.None? then Some(0.0)
    else Convert(rates, Times(tokens as real, rate.value.perToken), rate.value.currency, display)
  }

  function AddParts(input: Option<real>, output: Option<real>): Option<real> {
    if input.None? || output.None? then None else Some(input.value + output.value)
  }

  function ConfigQuote(config: ModelConfig, rates: Rates, display: string, inputTokens: int, outputTokens: int): Option<real>
    requires IsTable(rates)
  {
    var inputRate := PricingRate(config, "prompt", inputTokens, config.inputPrice);
    var outputRate := PricingRate(config, "completion", inputTokens, config.outputPrice);
    if inputRate.None? && outputRate.None? then None
    else AddParts(Part(rates, display, inputTokens, inputRate), Part(rates, display, outputTokens, outputRate))
  }

  /** The cost of a request, if its model has a price and all its prices convert. */
  function Quote(profiles: seq<Profile>, rates: Rates, display: string, provider: string, model: string,
                 inputTokens: int, outputTokens: int): Option<real>
    requires IsTable(rates)
  {
    match FindConfig(profiles, provider, model)
    case None => None
    case Some(config) => ConfigQuote(config, rates, display, inputTokens, outputTokens)
  }

  // ---------- What a request costs ----------

  /** `word` occurs in the unit, in any letter case. */
  ghost predicate Mentions(unit: string, word: string) {
    exists i: nat :: IsSpelledAt(unit, word, i)
  }

  lemma MentionsIff(unit: string, word: string)
    requires Lower(word) == word
    ensures Contains(Lower(unit), word) <==> Mentions(unit, word)
  {
    hide SameLetters;
    forall i: nat ensures At(Lower(unit), word, i) <==> IsSpelledAt(unit, word, i) {
      if i + |word| <= |unit| {
        var part := unit[i..i + |word|];
        assert Lower(unit)[i..i + |word|] == Lower(part);
        LowerIff(part, word);
      }
    }
  }

  lemma WordsAreLower()
    ensures forall w | w in ["mtoken", "million", "ktoken", "thousand", "token"] :: Lower(w) == w
  {
  }

  /** How many tokens a price of this unit is for. */
  lemma UnitsAre(unit: Option<string>)
    ensures var u := if unit.Some? then unit.value else "";
            UnitDivisor(unit) == if Mentions(u, "mtoken") || Mentions(u, "million") then 1000000.0
                                 else if Mentions(u, "ktoken") || Mentions(u, "thousand") then 1000.0
                                 else if Mentions(u, "token") then 1.0 else 1000000.0
  {
    hide Mentions, Contains;
    var u := if unit.Some? then unit.value else "";
    WordsAreLower();
    assert Lower("") == "";
    MentionsIff(u, "mtoken");
    MentionsIff(u, "million");
    MentionsIff(u, "ktoken");
    MentionsIff(u, "thousand");
    MentionsIff(u, "token");
  }

  /** A bound of a tier counts tokens, or units of them: a count at the bound belongs to the tier that starts there, a
      smaller one to the tier that ends there. */
  lemma BoundsSplit(tier: Tier, unit: Option<string>, bound: real, promptTokens: int)
    requires "prompt_tokens" in tier.conditions
    ensures var perUnit := if unit.Some? && unit.value != "" then UnitDivisor(unit) else 1.0;
            && (tier.conditions["prompt_tokens"] == Condition(unit, Some(bound), None) ==>
                  (ConditionMatches(tier, promptTokens) <==> promptTokens as real >= bound * perUnit))
            && (tier.conditions["prompt_tokens"] == Condition(unit, None, Some(bound)) ==>
                  (ConditionMatches(tier, promptTokens) <==> promptTokens as real < bound * perUnit))
            && (tier.conditions["prompt_tokens"] == Condition(unit, None, None) ==> ConditionMatches(tier, promptTokens))
  {
    hide UnitDivisor;
    var perUnit := if unit.Some? && unit.value != "" then UnitDivisor(unit) else 1.0;
    UnitIsPositive(unit);
    DividedBound(promptTokens as real, bound, perUnit);
  }

  lemma UnitIsPositive(unit: Option<string>)
    ensures UnitDivisor(unit) > 0.0
  {
  }

  lemma DividedBound(tokens: real, bound: real, perUnit: real)
    requires perUnit > 0.0
    ensures tokens / perUnit >= bound <==> tokens >= bound * perUnit
  {
    var units := tokens / perUnit;
    assert units * perUnit == tokens;
    if units >= bound {
      assert (units - bound) * perUnit >= 0.0;
    } else {
      assert (bound - units) * perUnit > 0.0;
    }
  }

  /** Every spelling of a currency, with white space around it, is read as its name. */
  lemma CurrencySpelling(spelling: string, name: string)
    requires IsNormal(name) && SameLetters(Trim(spelling, IsRustSpace), name)
    ensures NormalizeCurrency(spelling) == name
  {
    hide Trim;
  }

  /** Prices for one kind of token: what one costs, and in which currency. With tiers it is the first best one of them,
      otherwise the direct price, which is for a million tokens. */
  ghost predicate IsPrice(config: ModelConfig, kind: string, promptTokens: int, direct: Option<real>, perToken: real,
                          currency: string)
  {
    if kind in config.pricing && config.pricing[kind] != [] then
      exists i: nat :: i < |config.pricing[kind]| && IsFirstBest(config.pricing[kind], i, promptTokens)
        && var tier := config.pricing[kind][i];
           && perToken == tier.value / UnitDivisor(tier.unit)
           && currency == NormalizeCurrency(if tier.currency.Some? then tier.currency.value
                                            else if config.currency.Some? then config.currency.value else "USD")
    else
      && direct.Some? && perToken == direct.value / 1000000.0
      && currency == NormalizeCurrency(if config.currency.Some? then config.currency.value else "USD")
  }

  ghost predicate HasNoPrice(config: ModelConfig, kind: string, direct: Option<real>) {
    direct.None? && (kind in config.pricing ==> config.pricing[kind] == [])
  }

  /** The model is configured at these places of the catalog, and nowhere before them. */
  ghost predicate IsConfigured(profiles: seq<Profile>, provider: string, model: string, i: nat, j: nat) {
    && i < |profiles| && profiles[i].id == provider && (forall k | 0 <= k < i :: profiles[k].id != provider)
    && j < |profiles[i].modelConfigs| && profiles[i].modelConfigs[j].id == model
    && forall k | 0 <= k < j :: profiles[i].modelConfigs[k].id != model
  }

  lemma ConfiguredIsFound(profiles: seq<Profile>, provider: string, model: string, i: nat, j: nat)
    requires IsConfigured(profiles, provider, model, i, j)
    ensures FindConfig(profiles, provider, model) == Some(profiles[i].modelConfigs[j])
  {
  }

  lemma FirstBestIsUnique(tiers: seq<Tier>, i: nat, j: nat, promptTokens: int)
    requires IsFirstBest(tiers, i, promptTokens) && IsFirstBest(tiers, j, promptTokens)
    ensures i == j
  {
    hide Preference;
    assert Preference(tiers[i], promptTokens) <= Preference(tiers[j], promptTokens);
    assert Preference(tiers[j], promptTokens) <= Preference(tiers[i], promptTokens);
  }

  lemma PriceIsRate(config: ModelConfig, kind: string, promptTokens: int, direct: Option<real>, perToken: real,
                    currency: string)
    requires IsPrice(config, kind, promptTokens, direct, perToken, currency)
    ensures PricingRate(config, kind, promptTokens, direct) == Some(Rate(perToken, currency))
  {
    hide SelectTier, IsFirstBest, UnitDivisor, NormalizeCurrency;
    if kind in config.pricing && config.pricing[kind] != [] {
      var tiers := config.pricing[kind];
      var i: nat :| i < |tiers| && IsFirstBest(tiers, i, promptTokens)
        && perToken == tiers[i].value / UnitDivisor(tiers[i].unit)
        && currency == NormalizeCurrency(if tiers[i].currency.Some? then tiers[i].currency.value
                                         else if config.currency.Some? then config.currency.value else "USD");
      BestIsSelected(tiers, i, promptTokens);
    } else if kind in config.pricing {
      NothingSelected(promptTokens);
    }
  }

  lemma BestIsSelected(tiers: seq<Tier>, i: nat, promptTokens: int)
    requires i < |tiers| && IsFirstBest(tiers, i, promptTokens)
    ensures SelectTier(tiers, promptTokens) == Some(tiers[i])
  {
    hide SelectTier, IsFirstBest;
    var best := SelectTier(tiers, promptTokens);
    var j: nat :| j < |tiers| && IsFirstBest(tiers, j, promptTokens) && best.value == tiers[j];
    FirstBestIsUnique(tiers, i, j, promptTokens);
  }

  lemma NothingSelected(promptTokens: int)
    ensures SelectTier([], promptTokens).None?
  {
    hide SelectTier;
  }

  lemma NoPriceNoRate(config: ModelConfig, kind: string, promptTokens: int, direct: Option<real>)
    requires HasNoPrice(config, kind, direct)
    ensures PricingRate(config, kind, promptTokens, direct).None?
  {
    hide SelectTier;
    NothingSelected(promptTokens);
  }

  lemma PriceIsNormal(config: ModelConfig, kind: string, promptTokens: int, direct: Option<real>, perToken: real,
                      currency: string)
    requires IsPrice(config, kind, promptTokens, direct, perToken, currency)
    ensures NormalizeCurrency(currency) == currency
  {
    hide Preference, UnitDivisor, NormalizeCurrency, IsNormal;
    var name := if config.currency.Some? then config.currency.value else "USD";
    if kind in config.pricing && config.pricing[kind] != [] {
      var tiers := config.pricing[kind];
      var i: nat :| i < |tiers| && IsFirstBest(tiers, i, promptTokens)
        && currency == NormalizeCurrency(if tiers[i].currency.Some? then tiers[i].currency.value else name);
      NormalizeIsNormal(if tiers[i].currency.Some? then tiers[i].currency.value else name);
    } else {
      NormalizeIsNormal(name);
    }
    NormalIsFixed(currency);
  }

  /** An amount of one currency in another one. */
  ghost function Exchanged(rates: Rates, amount: real, source: string, display: string): real
    requires source in rates && rates[source] != 0.0 && display in rates
  {
    amount / rates[source] * rates[display]
  }

  lemma ChargeIs(rates: Rates, display: string, tokens: int, perToken: real, currency: string)
    requires IsTable(rates) && display in rates && NormalizeCurrency(currency) == currency
    ensures Part(rates, display, tokens, Some(Rate(perToken, currency)))
            == if currency in rates then Some(Exchanged(rates, tokens as real * perToken, currency, display)) else None
  {
    hide Convert, NormalizeCurrency, IsNormal, Times, Exchanged;
    TimesIs(tokens as real, perToken);
    ConvertIs(rates, Times(tokens as real, perToken), currency, display);
  }

  lemma ConvertIs(rates: Rates, amount: real, currency: string, display: string)
    requires IsTable(rates) && display in rates && NormalizeCurrency(currency) == currency
    ensures Convert(rates, amount, currency, display)
            == if currency in rates then Some(Exchanged(rates, amount, currency, display)) else None
  {
    hide NormalizeCurrency, IsNormal, Times;
    NormalIsFixed(display);
    if currency in rates {
      var dollars, rate := amount / rates[currency], rates[display];
      TimesIs(dollars, rate);
      assert Convert(rates, amount, currency, display) == Some(Times(dollars, rate));
      assert Exchanged(rates, amount, currency, display) == dollars * rate;
    }
  }

  lemma TimesIs(x: real, y: real)
    ensures Times(x, y) == x * y
  {
  }

  /** A request costs its prompt tokens at the price for prompts and its other tokens at the price for completions, each
      exchanged from its own currency; both prices go by the number of prompt tokens. Without one of the prices, that
      side is free; without both there is no cost, nor when a currency of a price is not in the table. */
  lemma QuoteIs(profiles: seq<Profile>, rates: Rates, display: string, provider: string, model: string, i: nat, j: nat,
                inputTokens: int, outputTokens: int, p: real, a: string, q: real, b: string)
    requires IsTable(rates) && display in rates && IsConfigured(profiles, provider, model, i, j)
    ensures var config := profiles[i].modelConfigs[j];
            var quote := Quote(profiles, rates, display, provider, model, inputTokens, outputTokens);
            var prompt := IsPrice(config, "prompt", inputTokens, config.inputPrice, p, a);
            var completion := IsPrice(config, "completion", inputTokens, config.outputPrice, q, b);
            var noPrompt := HasNoPrice(config, "prompt", config.inputPrice);
            var noCompletion := HasNoPrice(config, "completion", config.outputPrice);
            && (prompt && completion ==>
                  quote == (if a in rates && b in rates
                            then Some(Exchanged(rates, inputTokens as real * p, a, display)
                                      + Exchanged(rates, outputTokens as real * q, b, display))
                            else None))
            && (prompt && noCompletion ==>
                  quote == (if a in rates then Some(Exchanged(rates, inputTokens as real * p, a, display)) else None))
            && (noPrompt && completion ==>
                  quote == (if b in rates then Some(Exchanged(rates, outputTokens as real * q, b, display)) else None))
            && (noPrompt && noCompletion ==> quote == None)
  {
    hide PricingRate, IsPrice, HasNoPrice, NormalizeCurrency, FindConfig, IsConfigured, Part, IsTable, Exchanged;
    ConfiguredPlaces(profiles, provider, model, i, j);
    ConfiguredIsFound(profiles, provider, model, i, j);
    var config := profiles[i].modelConfigs[j];
    NothingIsFree(rates, display);
    if IsPrice(config, "prompt", inputTokens, config.inputPrice, p, a) {
      PriceIsRate(config, "prompt", inputTokens, config.inputPrice, p, a);
      PriceIsNormal(config, "prompt", inputTokens, config.inputPrice, p, a);
      ChargeIs(rates, display, inputTokens, p, a);
    }
    if IsPrice(config, "completion", inputTokens, config.outputPrice, q, b) {
      PriceIsRate(config, "completion", inputTokens, config.outputPrice, q, b);
      PriceIsNormal(config, "completion", inputTokens, config.outputPrice, q, b);
      ChargeIs(rates, display, outputTokens, q, b);
    }
    if HasNoPrice(config, "prompt", config.inputPrice) {
      NoPriceNoRate(config, "prompt", inputTokens, config.inputPrice);
    }
    if HasNoPrice(config, "completion", config.outputPrice) {
      NoPriceNoRate(config, "completion", inputTokens, config.outputPrice);
    }
  }

  lemma ConfiguredPlaces(profiles: seq<Profile>, provider: string, model: string, i: nat, j: nat)
    requires IsConfigured(profiles, provider, model, i, j)
    ensures i < |profiles| && j < |profiles[i].modelConfigs|
  {
  }

  lemma NothingIsFree(rates: Rates, display: string)
    requires IsTable(rates)
    ensures forall tokens: int :: Part(rates, display, tokens, None) == Some(0.0)
  {
  }

  /** What tokens cost at a price for a million of them, if there is one. */
  ghost function AtPrice(tokens: int, price: Option<real>): real {
    if price.Some? then tokens as real * price.value / 1000000.0 else 0.0
  }

  /** Direct prices, shown in their own currency: so much for a million tokens of each kind. */
  lemma DirectPrices(profiles: seq<Profile>, rates: Rates, currency: string, provider: string, model: string, i: nat, j: nat,
                     inputTokens: int, outputTokens: int)
    requires IsTable(rates) && currency in rates && IsConfigured(profiles, provider, model, i, j)
    requires var config := profiles[i].modelConfigs[j];
             && (forall kind | kind in ["prompt", "completion"] && kind in config.pricing :: config.pricing[kind] == [])
             && currency == NormalizeCurrency(if config.currency.Some? then config.currency.value else "USD")
    ensures var config := profiles[i].modelConfigs[j];
            Quote(profiles, rates, currency, provider, model, inputTokens, outputTokens)
            == if config.inputPrice.None? && config.outputPrice.None? then None
               else Some(AtPrice(inputTokens, config.inputPrice) + AtPrice(outputTokens, config.outputPrice))
  {
    hide Quote, NormalizeCurrency, IsConfigured, IsNormal, Exchanged, AtPrice;
    ConfiguredPlaces(profiles, provider, model, i, j);
    var config := profiles[i].modelConfigs[j];
    var p := if config.inputPrice.Some? then config.inputPrice.value / 1000000.0 else 0.0;
    var q := if config.outputPrice.Some? then config.outputPrice.value / 1000000.0 else 0.0;
    assert "prompt" in ["prompt", "completion"] && "completion" in ["prompt", "completion"];
    QuoteIs(profiles, rates, currency, provider, model, i, j, inputTokens, outputTokens, p, currency, q, currency);
    AtPriceIs(inputTokens, config.inputPrice, p);
    AtPriceIs(outputTokens, config.outputPrice, q);
    OwnCurrency(rates, inputTokens as real * p, currency);
    OwnCurrency(rates, outputTokens as real * q, currency);
  }

  lemma AtPriceIs(tokens: int, price: Option<real>, perToken: real)
    requires perToken == if price.Some? then price.value / 1000000.0 else 0.0
    ensures AtPrice(tokens, price) == tokens as real * perToken
  {
  }

  /** An amount shown in its own currency is unchanged. */
  lemma OwnCurrency(rates: Rates, amount: real, currency: string)
    requires IsTable(rates) && currency in rates
    ensures Exchanged(rates, amount, currency, currency) == amount
    ensures Convert(rates, amount, currency, currency) == Some(amount)
  {
    hide Convert, NormalizeCurrency, IsNormal;
    NormalIsFixed(currency);
    ConvertIs(rates, amount, currency, currency);
    Divided(amount, rates[currency]);
  }

  lemma Divided(x: real, r: real)
    requires r > 0.0
    ensures x / r * r == x
  {
  }

  // ---------- The display currency ----------

  function Scale(cost: Option<real>, factor: real): Option<real> {
    if cost.None? then None else Some(Times(cost.value, factor))
  }

  /** What an amount in currency `a` is worth in currency `b`. */
  function Factor(rates: Rates, a: string, b: string): real
    requires IsTable(rates) && a in rates && b in rates
  {
    rates[b] / rates[a]
  }

  lemma ConvertScales(rates: Rates, amount: real, source: string, a: string, b: string)
    requires IsTable(rates) && a in rates && b in rates
    ensures Convert(rates, amount, source, b) == Scale(Convert(rates, amount, source, a), Factor(rates, a, b))
  {
    hide NormalizeCurrency, Times, IsNormal;
    NormalIsFixed(a);
    NormalIsFixed(b);
    var from := NormalizeCurrency(source);
    if from in rates {
      Exchange(amount / rates[from], rates[a], rates[b]);
    }
  }

  lemma Exchange(x: real, a: real, b: real)
    requires a > 0.0
    ensures Times(x, b) == Times(Times(x, a), b / a)
  {
    var ratio := b / a;
    assert a * ratio == b;
    assert x * a * ratio == x * (a * ratio);
  }

  /** Another display currency multiplies every cost by the ratio of the rates, and prices the same requests. */
  lemma QuoteScales(profiles: seq<Profile>, rates: Rates, a: string, b: string, provider: string, model: string,
                    inputTokens: int, outputTokens: int)
    requires IsTable(rates) && a in rates && b in rates
    ensures Quote(profiles, rates, b, provider, model, inputTokens, outputTokens)
         == Scale(Quote(profiles, rates, a, provider, model, inputTokens, outputTokens), Factor(rates, a, b))
  {
    hide FindConfig, ConfigQuote, Factor, Times, IsTable;
    var config := FindConfig(profiles, provider, model);
    if config.Some? {
      ConfigQuoteScales(config.value, rates, a, b, inputTokens, outputTokens);
    }
  }

  lemma ConfigQuoteScales(config: ModelConfig, rates: Rates, a: string, b: string, inputTokens: int, outputTokens: int)
    requires IsTable(rates) && a in rates && b in rates
    ensures ConfigQuote(config, rates, b, inputTokens, outputTokens)
         == Scale(ConfigQuote(config, rates, a, inputTokens, outputTokens), Factor(rates, a, b))
  {
    hide PricingRate, Part, Factor, Times, IsTable;
    var inputRate := PricingRate(config, "prompt", inputTokens, config.inputPrice);
    var outputRate := PricingRate(config, "completion", inputTokens, config.outputPrice);
    PartScales(rates, inputTokens, inputRate, a, b);
    PartScales(rates, outputTokens, outputRate, a, b);
    var input, output := Part(rates, a, inputTokens, inputRate), Part(rates, a, outputTokens, outputRate);
    if input.Some? && output.Some? {
      ScaleAdds(input.value, output.value, Factor(rates, a, b));
    }
  }

  lemma PartScales(rates: Rates, tokens: int, rate: Option<Rate>, a: string, b: string)
    requires IsTable(rates) && a in rates && b in rates
    ensures Part(rates, b, tokens, rate) == Scale(Part(rates, a, tokens, rate), Factor(rates, a, b))
  {
    hide Convert, Factor;
    ScaleAdds(0.0, 0.0, Factor(rates, a, b));
    if rate.Some? {
      ConvertScales(rates, Times(tokens as real, rate.value.perToken), rate.value.currency, a, b);
    }
  }

  lemma ScaleAdds(x: real, y: real, factor: real)
    ensures Times(x + y, factor) == Times(x, factor) + Times(y, factor)
    ensures Times(0.0, factor) == 0.0
  {
  }
}
