/**
 * Money in integer micros (src/lib/money.ts) and the price a usage record is billed at (src/providers/pricing.ts).
 */
module Pricing {
  import opened Wrappers
  import opened Provider
  import opened Engine

  const MICROS := 1_000_000

  function CostForTokens(tokens: nat, rate: nat): nat {
    tokens * rate / MICROS
  }

  function UsageCost(usage: TokenUsage, inputRate: nat, outputRate: nat): nat {
    CostForTokens(usage.inputTokens, inputRate) + CostForTokens(usage.outputTokens, outputRate)
  }

  /** The price of tokens at a rate for a million of them, rounded down. */
  predicate PriceOf(tokens: nat, rate: nat, micros: nat) {
    micros * 1_000_000 <= tokens * rate < (micros + 1) * 1_000_000
  }

  /** Input tokens at the input rate and output tokens at the output rate, each rounded down. */
  ghost predicate BilledAt(usage: TokenUsage, inputRate: nat, outputRate: nat, cost: nat) {
    exists input: nat, output: nat :: PriceOf(usage.inputTokens, inputRate, input) && PriceOf(usage.outputTokens, outputRate, output)
                            && cost == input + output
  }

  lemma PriceIsUnique(tokens: nat, rate: nat, micros: nat)
    ensures PriceOf(tokens, rate, micros) <==> micros == CostForTokens(tokens, rate)
  {
  }

  /** What a usage record costs is what it is billed at these rates, and nothing else. */
  lemma UsageCostIsTheBill(usage: TokenUsage, inputRate: nat, outputRate: nat, cost: nat)
    ensures BilledAt(usage, inputRate, outputRate, cost) <==> cost == UsageCost(usage, inputRate, outputRate)
  {
    hide PriceOf, CostForTokens;
    forall tokens, rate, micros ensures PriceOf(tokens, rate, micros) <==> micros == CostForTokens(tokens, rate) {
      PriceIsUnique(tokens, rate, micros);
    }
    if cost == UsageCost(usage, inputRate, outputRate) {
      assert cost == CostForTokens(usage.inputTokens, inputRate) + CostForTokens(usage.outputTokens, outputRate);
      assert PriceOf(usage.inputTokens, inputRate, CostForTokens(usage.inputTokens, inputRate));
      assert PriceOf(usage.outputTokens, outputRate, CostForTokens(usage.outputTokens, outputRate));
    }
  }

  /** Rounding down twice loses at most one micro more than rounding down once. */
  lemma CostOfSum(a: nat, b: nat, rate: nat)
    ensures var apart := CostForTokens(a, rate) + CostForTokens(b, rate);
      apart <= CostForTokens(a + b, rate) <= apart + 1
  {
    assert (a + b) * rate == a * rate + b * rate;
  }

  /** Billing the two calls of a retried review as one reply: never less than apart, at most two micros more. */
  lemma CombinedReviewCost(first: AgentResponse, second: AgentResponse, inputRate: nat, outputRate: nat)
    ensures var apart := UsageCost(first.usage, inputRate, outputRate) + UsageCost(second.usage, inputRate, outputRate);
      apart <= UsageCost(CombineResponses(first, second).usage, inputRate, outputRate) <= apart + 2
  {
    CostOfSum(first.usage.inputTokens, second.usage.inputTokens, inputRate);
    CostOfSum(first.usage.outputTokens, second.usage.outputTokens, outputRate);
  }

  /** Both bounds are met, at a rate of half a micro for a token. */
  lemma CombinedReviewCostIsTight(r: AgentResponse)
    ensures var half := r.(usage := TokenUsage(1, 1));
      UsageCost(half.usage, 500_000, 500_000) == 0 && UsageCost(CombineResponses(half, half).usage, 500_000, 500_000) == 2
    ensures var whole := r.(usage := TokenUsage(2, 2));
      UsageCost(whole.usage, 500_000, 500_000) == 2 && UsageCost(CombineResponses(whole, whole).usage, 500_000, 500_000) == 4
  {
    assert CostForTokens(1, 500_000) == 0 && CostForTokens(2, 500_000) == 1 && CostForTokens(4, 500_000) == 2;
  }

  // ---------- Which price applies ----------

  datatype ModelPricing = ModelPricing(id: string, provider: ProviderId, inputRate: nat, outputRate: nat)

  predicate IsDigit(c: char) {
    '0' <= c <= '9'
  }

  predicate IsDate(s: string) {
    && |s| == 10
    && IsDigit(s[0]) && IsDigit(s[1]) && IsDigit(s[2]) && IsDigit(s[3]) && s[4] == '-'
    && IsDigit(s[5]) && IsDigit(s[6]) && s[7] == '-' && IsDigit(s[8]) && IsDigit(s[9])
  }

  /** The model is a dated snapshot of this entry. */
  predicate SnapshotOf(p: ModelPricing, provider: ProviderId, model: string) {
    p.provider == provider && p.id + "-" <= model && IsDate(model[|p.id| + 1..])
  }

  function Lookup(table: seq<ModelPricing>, model: string): Option<ModelPricing> {
    if table == [] then None else if table[0].id == model then Some(table[0]) else Lookup(table[1..], model)
  }

  function PrefixMatch(table: seq<ModelPricing>, provider: ProviderId, model: string): Option<ModelPricing> {
    if table == [] then None else if SnapshotOf(table[0], provider, model) then Some(table[0]) else PrefixMatch(table[1..], provider, model)
  }

  function OfProvider(table: seq<ModelPricing>, provider: ProviderId): seq<ModelPricing> {
    if table == [] then []
    else if table[0].provider == provider then [table[0]] + OfProvider(table[1..], provider)
    else OfProvider(table[1..], provider)
  }

  function Dearer(a: ModelPricing, b: ModelPricing): ModelPricing {
    if a.outputRate >= b.outputRate then a else b
  }

  function ReduceFrom(best: ModelPricing, rest: seq<ModelPricing>): ModelPricing
    decreases |rest|
  {
    if rest == [] then best else ReduceFrom(Dearer(best, rest[0]), rest[1..])
  }

  /** None when the provider has no entry, where the original throws. */
  function MostExpensiveFor(table: seq<ModelPricing>, provider: ProviderId): Option<ModelPricing> {
    var candidates := OfProvider(table, provider);
    if candidates == [] then None else Some(ReduceFrom(candidates[0], candidates[1..]))
  }

  /** Which entry prices a model: its own, else the one it is a snapshot of, else the fallback. */
  function PricingFor(table: seq<ModelPricing>, provider: ProviderId, model: string): Option<ModelPricing> {
    match Lookup(table, model)
    case Some(p) => Some(p)
    case None =>
      match PrefixMatch(table, provider, model)
      case Some(p) => Some(p)
      case None => MostExpensiveFor(table, provider)
  }

  ghost predicate UniqueIds(table: seq<ModelPricing>) {
    forall i, j :: 0 <= i < j < |table| ==> table[i].id != table[j].id
  }

  lemma SnapshotDeterminesId(p: ModelPricing, provider: ProviderId, model: string)
    requires SnapshotOf(p, provider, model)
    ensures |model| > 10 && p.id == model[..|model| - 11]
  {
    assert model[..|p.id| + 1] == p.id + "-";
  }

  /** A dated model name is a snapshot of at most one entry, so the search order of the table never matters. */
  lemma {:induction false} PrefixMatchIsUnique(table: seq<ModelPricing>, provider: ProviderId, model: string, p: ModelPricing)
    requires UniqueIds(table)
    ensures p in table && SnapshotOf(p, provider, model) <==> PrefixMatch(table, provider, model) == Some(p)
  {
    if table != [] {
      var head, rest := table[0], table[1..];
      assert forall q :: q in table <==> q == head || q in rest;
      assert forall i :: 0 <= i < |rest| ==> rest[i] == table[i + 1];
      PrefixMatchIsUnique(rest, provider, model, p);
      if SnapshotOf(head, provider, model) {
        SnapshotDeterminesId(head, provider, model);
        forall i | 0 <= i < |rest| ensures !SnapshotOf(rest[i], provider, model) {
          assert table[0].id != table[i + 1].id;
          if SnapshotOf(rest[i], provider, model) {
            SnapshotDeterminesId(rest[i], provider, model);
          }
        }
      }
    }
  }

  lemma {:induction false} ReduceIsDearest(best: ModelPricing, rest: seq<ModelPricing>)
    ensures var m := ReduceFrom(best, rest);
      && (m == best || m in rest) && m.outputRate >= best.outputRate
      && forall p :: p in rest ==> m.outputRate >= p.outputRate
    decreases |rest|
  {
    if rest != [] {
      ReduceIsDearest(Dearer(best, rest[0]), rest[1..]);
      assert forall p :: p in rest ==> p == rest[0] || p in rest[1..];
    }
  }

  /** Among entries of one output rate the reduction keeps the first. */
  predicate FirstDearest(entries: seq<ModelPricing>, k: nat) {
    && k < |entries|
    && (forall j :: 0 <= j < k ==> entries[j].outputRate < entries[k].outputRate)
    && (forall j :: k <= j < |entries| ==> entries[j].outputRate <= entries[k].outputRate)
  }

  lemma {:induction false} ReduceIsFirstDearest(best: ModelPricing, rest: seq<ModelPricing>) returns (k: nat)
    ensures FirstDearest([best] + rest, k) && ([best] + rest)[k] == ReduceFrom(best, rest)
    decreases |rest|
  {
    var all := [best] + rest;
    if rest == [] {
      return 0;
    }
    var after := [Dearer(best, rest[0])] + rest[1..];
    k := ReduceIsFirstDearest(Dearer(best, rest[0]), rest[1..]);
    assert forall j :: 2 <= j < |all| ==> all[j] == after[j - 1];
    assert all[0] == best && all[1] == rest[0];
    assert forall j :: 1 <= j < |after| ==> after[j] == all[j + 1];
    if k > 0 {
      assert after[0].outputRate < after[k].outputRate;
      k := k + 1;
    } else {
      k := if best.outputRate >= rest[0].outputRate then 0 else 1;
    }
  }

  /** The fallback is the first entry of the provider with the dearest output rate. */
  lemma FallbackIsFirstDearest(table: seq<ModelPricing>, provider: ProviderId) returns (k: nat)
    requires MostExpensiveFor(table, provider).Some?
    ensures var entries := OfProvider(table, provider);
            FirstDearest(entries, k) && MostExpensiveFor(table, provider) == Some(entries[k])
  {
    var entries := OfProvider(table, provider);
    assert entries == [entries[0]] + entries[1..];
    k := ReduceIsFirstDearest(entries[0], entries[1..]);
  }

  lemma {:induction false} OfProviderSelects(table: seq<ModelPricing>, provider: ProviderId, p: ModelPricing)
    ensures p in OfProvider(table, provider) <==> p in table && p.provider == provider
  {
    if table != [] {
      OfProviderSelects(table[1..], provider, p);
      assert p in table <==> p == table[0] || p in table[1..];
    }
  }

  lemma MostExpensiveHasDearestOutput(table: seq<ModelPricing>, provider: ProviderId, p: ModelPricing)
    requires p in table && p.provider == provider
    ensures var m := MostExpensiveFor(table, provider);
      m.Some? && m.value in table && m.value.provider == provider && m.value.outputRate >= p.outputRate
  {
    var candidates := OfProvider(table, provider);
    OfProviderSelects(table, provider, p);
    ReduceIsDearest(candidates[0], candidates[1..]);
    var m := ReduceFrom(candidates[0], candidates[1..]);
    assert p == candidates[0] || p in candidates[1..];
    assert m in candidates;
    OfProviderSelects(table, provider, m);
  }

  /** The first rates never bill a usage lower than the second. */
  ghost predicate NeverCheaper(m: ModelPricing, p: ModelPricing) {
    forall usage, mine, theirs ::
      BilledAt(usage, m.inputRate, m.outputRate, mine) && BilledAt(usage, p.inputRate, p.outputRate, theirs) ==> mine >= theirs
  }

  /**
   * An unknown model is meant to be over-counted. The fallback picks the entry with the dearest output rate; it never
   * costs less than a given entry of the provider, for any usage, exactly when its input rate is no lower either.
   */
  lemma FallbackNeverUnderBills(table: seq<ModelPricing>, provider: ProviderId, p: ModelPricing)
    requires p in table && p.provider == provider
    ensures MostExpensiveFor(table, provider).Some?
    ensures var m := MostExpensiveFor(table, provider).value; NeverCheaper(m, p) <==> m.inputRate >= p.inputRate
  {
    hide BilledAt;
    MostExpensiveHasDearestOutput(table, provider, p);
    var m := MostExpensiveFor(table, provider).value;
    if m.inputRate >= p.inputRate {
      forall usage: TokenUsage, mine, theirs |
        BilledAt(usage, m.inputRate, m.outputRate, mine) && BilledAt(usage, p.inputRate, p.outputRate, theirs)
        ensures mine >= theirs
      {
        UsageCostIsTheBill(usage, m.inputRate, m.outputRate, mine);
        UsageCostIsTheBill(usage, p.inputRate, p.outputRate, theirs);
        CostGrows(usage.inputTokens, p.inputRate, m.inputRate);
        CostGrows(usage.outputTokens, p.outputRate, m.outputRate);
      }
    } else {
      var usage := TokenUsage(MICROS, 0);
      UsageCostIsTheBill(usage, m.inputRate, m.outputRate, m.inputRate);
      UsageCostIsTheBill(usage, p.inputRate, p.outputRate, p.inputRate);
    }
  }

  predicate InTable(table: seq<ModelPricing>, model: string) {
    exists i :: 0 <= i < |table| && table[i].id == model
  }

  ghost predicate HasSnapshot(table: seq<ModelPricing>, provider: ProviderId, model: string) {
    exists p :: p in table && SnapshotOf(p, provider, model)
  }

  lemma {:induction false} LookupFinds(table: seq<ModelPricing>, model: string, p: ModelPricing)
    requires UniqueIds(table)
    ensures p in table && p.id == model <==> Lookup(table, model) == Some(p)
    ensures Lookup(table, model).Some? <==> InTable(table, model)
  {
    if table != [] {
      var rest := table[1..];
      assert forall q :: q in table <==> q == table[0] || q in rest;
      assert forall i :: 0 <= i < |rest| ==> rest[i] == table[i + 1];
      LookupFinds(rest, model, p);
      assert table[0].id == model ==> forall i :: 0 <= i < |rest| ==> rest[i].id != model;
    }
  }

  /** The entry that prices a model: the entry of that name; else the only one it is a snapshot of; else the fallback,
      which the provider has unless it has no entry at all. */
  lemma PricingForSpec(table: seq<ModelPricing>, provider: ProviderId, model: string, p: ModelPricing)
    requires UniqueIds(table) && p in table
    ensures var found := PricingFor(table, provider, model);
            && (p.id == model ==> found == Some(p))
            && (!InTable(table, model) && SnapshotOf(p, provider, model) ==> found == Some(p))
            && (!InTable(table, model) && !HasSnapshot(table, provider, model) ==> found == MostExpensiveFor(table, provider))
  {
    hide SnapshotOf;
    LookupFinds(table, model, p);
    PrefixMatchIsUnique(table, provider, model, p);
    var snapshot := PrefixMatch(table, provider, model);
    if snapshot.Some? {
      PrefixMatchIsUnique(table, provider, model, snapshot.value);
    }
  }

  /** The shipped table; rates are micros for a million tokens. */
  const MODEL_PRICING: seq<ModelPricing> := [
    ModelPricing("gpt-5.2", OpenAI, 1_250_000, 10_000_000),
    ModelPricing("gpt-5.4-mini", OpenAI, 750_000, 4_500_000),
    ModelPricing("gpt-5.4", OpenAI, 2_500_000, 15_000_000),
    ModelPricing("claude-opus-4-8", Anthropic, 5_000_000, 25_000_000),
    ModelPricing("claude-sonnet-5", Anthropic, 2_000_000, 10_000_000),
    ModelPricing("claude-haiku-4-5-20251001", Anthropic, 1_000_000, 5_000_000),
    ModelPricing("gemini-3.1-flash-lite", Google, 300_000, 2_500_000),
    ModelPricing("gemini-3.1-pro-preview", Google, 2_500_000, 15_000_000),
    ModelPricing("deepseek-chat", DeepSeek, 270_000, 1_100_000),
    ModelPricing("deepseek-reasoner", DeepSeek, 550_000, 2_190_000)]

  /** What a lookup in any JavaScript object finds though it is no entry. */
  const INHERITED: set<string> := {
    "constructor", "__defineGetter__", "__defineSetter__", "hasOwnProperty", "__lookupGetter__", "__lookupSetter__",
    "isPrototypeOf", "propertyIsEnumerable", "toString", "valueOf", "__proto__", "toLocaleString"}

  /** What a usage record costs. None where the original throws: for a provider without entries, and for the name of an
      inherited property, which has no rates to multiply with. */
  function CostForUsage(provider: ProviderId, model: string, usage: TokenUsage): Option<nat> {
    if model in INHERITED then None
    else
      match PricingFor(MODEL_PRICING, provider, model)
      case None => None
      case Some(p) => Some(UsageCost(usage, p.inputRate, p.outputRate))
  }

  lemma ShippedIdsAreUnique()
    ensures UniqueIds(MODEL_PRICING)
  {
    forall i, j | 0 <= i < j < |MODEL_PRICING| ensures MODEL_PRICING[i].id != MODEL_PRICING[j].id {
      var a, b := MODEL_PRICING[i].id, MODEL_PRICING[j].id;
      assert |a| != |b| || a[6] != b[6] || (|a| > 7 && a[7] != b[7]);
    }
  }

  /** In the shipped table the fallback of each provider is the dearest on both rates. */
  function ShippedFallback(provider: ProviderId): ModelPricing {
    match provider
    case OpenAI => MODEL_PRICING[2]
    case Anthropic => MODEL_PRICING[3]
    case Google => MODEL_PRICING[7]
    case DeepSeek => MODEL_PRICING[9]
  }

  /** Any other entry of its provider has a lower output rate, and no higher input rate. */
  lemma ShippedEntry(k: nat)
    requires k < |MODEL_PRICING|
    ensures var p := MODEL_PRICING[k];
            var best := ShippedFallback(p.provider);
            p == best || (p.outputRate < best.outputRate && p.inputRate <= best.inputRate)
  {
  }

  lemma ShippedFallbackIsDearest(provider: ProviderId, p: ModelPricing)
    requires p in MODEL_PRICING && p.provider == provider
    ensures MostExpensiveFor(MODEL_PRICING, provider) == Some(ShippedFallback(provider))
    ensures ShippedFallback(provider).inputRate >= p.inputRate && ShippedFallback(provider).outputRate >= p.outputRate
  {
    hide MostExpensiveFor, ShippedFallback, MODEL_PRICING;
    var best := ShippedFallback(provider);
    FallbackIsEntry(provider);
    MostExpensiveHasDearestOutput(MODEL_PRICING, provider, best);
    var m := MostExpensiveFor(MODEL_PRICING, provider).value;
    var k :| 0 <= k < |MODEL_PRICING| && MODEL_PRICING[k] == m;
    ShippedEntry(k);
    var j :| 0 <= j < |MODEL_PRICING| && MODEL_PRICING[j] == p;
    ShippedEntry(j);
  }

  lemma FallbackIsEntry(provider: ProviderId)
    ensures ShippedFallback(provider) in MODEL_PRICING && ShippedFallback(provider).provider == provider
  {
  }

  /** With the shipped table a usage has a price exactly when its model is no inherited property; it is billed at the
      model's own rates, or at those of the one entry it is a snapshot of, or, for an unknown model, at no less than every
      entry of its provider would cost. */
  lemma CostForUsageNeverUnderBills(provider: ProviderId, model: string, usage: TokenUsage, p: ModelPricing)
    requires p in MODEL_PRICING
    ensures var cost := CostForUsage(provider, model, usage);
            && (cost.Some? <==> model !in INHERITED)
            && (cost.Some? ==>
                  && (p.id == model || (!InTable(MODEL_PRICING, model) && SnapshotOf(p, provider, model)) ==>
                        BilledAt(usage, p.inputRate, p.outputRate, cost.value))
                  && (!InTable(MODEL_PRICING, model) && !HasSnapshot(MODEL_PRICING, provider, model) && p.provider == provider ==>
                        forall other :: BilledAt(usage, p.inputRate, p.outputRate, other) ==> cost.value >= other))
  {
    hide SnapshotOf, PricingFor, MostExpensiveFor, UsageCost, INHERITED, BilledAt;
    ShippedIdsAreUnique();
    PricingForSpec(MODEL_PRICING, provider, model, p);
    ShippedFallbackIsDearest(provider, ShippedFallback(provider));
    EveryModelIsPriced(MODEL_PRICING, provider, model);
    var found := PricingFor(MODEL_PRICING, provider, model).value;
    UsageCostIsTheBill(usage, found.inputRate, found.outputRate, UsageCost(usage, found.inputRate, found.outputRate));
    if p.provider == provider {
      ShippedFallbackIsDearest(provider, p);
      FallbackNeverUnderBills(MODEL_PRICING, provider, p);
    }
  }

  /** A snapshot is named after its entry, with a date of four, two and two digits. */
  lemma SnapshotsAreDated(p: ModelPricing, provider: ProviderId, model: string)
    ensures SnapshotOf(p, provider, model) <==>
              p.provider == provider
              && exists y, m, d :: IsNumber(y, 4) && IsNumber(m, 2) && IsNumber(d, 2) && model == p.id + "-" + y + "-" + m + "-" + d
  {
    if SnapshotOf(p, provider, model) {
      assert model == p.id + "-" + model[|p.id| + 1..];
      var y, m, d := DateParts(model[|p.id| + 1..]);
      assert model == p.id + "-" + y + "-" + m + "-" + d;
    }
    if y, m, d :| IsNumber(y, 4) && IsNumber(m, 2) && IsNumber(d, 2) && model == p.id + "-" + y + "-" + m + "-" + d {
      hide IsNumber, IsDate;
      assert model[..|p.id| + 1] == p.id + "-";
      assert model[|p.id| + 1..] == y + "-" + m + "-" + d;
      PartsMakeDate(y, m, d);
    }
  }

  lemma DateParts(date: string) returns (y: string, m: string, d: string)
    requires IsDate(date)
    ensures IsNumber(y, 4) && IsNumber(m, 2) && IsNumber(d, 2) && date == y + "-" + m + "-" + d
  {
    y, m, d := date[..4], date[5..7], date[8..];
  }

  lemma PartsMakeDate(y: string, m: string, d: string)
    requires IsNumber(y, 4) && IsNumber(m, 2) && IsNumber(d, 2)
    ensures IsDate(y + "-" + m + "-" + d)
  {
    var s := y + "-" + m + "-" + d;
    assert s[4] == '-' && s[7] == '-' && s[5] == m[0] && s[6] == m[1] && s[8] == d[0] && s[9] == d[1];
  }

  predicate IsNumber(s: string, n: nat) {
    |s| == n && forall i :: 0 <= i < n ==> '0' <= s[i] <= '9'
  }

  lemma EntryStarts(k: nat)
    requires k < |MODEL_PRICING|
    ensures var id := MODEL_PRICING[k].id; |id| > 1 && (id[0] in {'g', 'd'} || id[..2] == "cl")
  {
  }

  lemma InheritedStarts(name: string)
    requires name in INHERITED
    ensures |name| > 1 && name[0] !in {'g', 'd'} && name[..2] != "cl"
  {
    assert name[0] in {'c', '_', 'h', 'i', 'p', 't', 'v'} && (name[0] == 'c' ==> name[1] == 'o');
  }

  /** No entry has such a name, so every entry prices its own model. */
  lemma EntriesAreReachable(p: ModelPricing)
    requires p in MODEL_PRICING
    ensures p.id !in INHERITED
  {
    hide MODEL_PRICING, INHERITED;
    var k :| 0 <= k < |MODEL_PRICING| && MODEL_PRICING[k] == p;
    EntryStarts(k);
    if p.id in INHERITED {
      InheritedStarts(p.id);
    }
  }

  lemma EveryModelIsPriced(table: seq<ModelPricing>, provider: ProviderId, model: string)
    requires MostExpensiveFor(table, provider).Some?
    ensures PricingFor(table, provider, model).Some?
  {
  }

  lemma CostGrows(tokens: nat, low: nat, high: nat)
    requires low <= high
    ensures CostForTokens(tokens, low) <= CostForTokens(tokens, high)
  {
    assert tokens * low <= tokens * high;
  }
}
