// The cost measures of an answer: its usage record, its latency, and its price in USD.
module Costs {
  import opened Options
  import opened Comparison

  /** A model's prices: its tokens by the million, its rerank search units by the thousand. */
  datatype Price = Price(input: Option<real>, output: Option<real>, cacheRead: Option<real>, cacheWrite: Option<real>,
                         rerankUnits: Option<real>)

  type Prices = map<string, Price>

  const LLM_CALLS := Key("usage", "llm_calls")
  const INPUT_TOKENS := Key("usage", "input_tokens")
  const OUTPUT_TOKENS := Key("usage", "output_tokens")
  const TOTAL_TOKENS := Key("usage", "total_tokens")
  const USD_MEASURE := Key("usage", "cost_usd")
  const LATENCY_MEASURE := Key("latency", "response_time_seconds")

  const USAGE_MEASURES: set<Key> := {LLM_CALLS, INPUT_TOKENS, OUTPUT_TOKENS, TOTAL_TOKENS}
  const COST_MEASURES: set<Key> := USAGE_MEASURES + {USD_MEASURE, LATENCY_MEASURE}

  // ----- What an answer costs

  datatype Rates = Rates(input: real, output: real)

  function TokenRates(prices: Prices, model: string): Option<Rates> {
    if model in prices && prices[model].input.Some? && prices[model].output.Some?
    then Some(Rates(prices[model].input.value, prices[model].output.value)) else None
  }

  /** The model made calls its price says nothing of. */
  predicate IsUnpriced(m: ModelCounts, prices: Prices) {
    || (m.counts.llmCalls > 0 && TokenRates(prices, m.model).None?)
    || (m.counts.rerankCalls > 0 && (m.model !in prices || prices[m.model].rerankUnits.None?))
  }

  /** Every model of the record has the prices its calls need. */
  ghost predicate IsPriced(u: Usage, prices: Prices) {
    forall m :: m in u.byModel ==> !IsUnpriced(m, prices)
  }

  function AnyUnpriced(models: seq<ModelCounts>, prices: Prices): (any: bool)
    ensures any <==> exists m :: m in models && IsUnpriced(m, prices)
  {
    if models == [] then false else
      var n := |models| - 1;
      assert models == models[..n] + [models[n]];
      AnyUnpriced(models[..n], prices) || IsUnpriced(models[n], prices)
  }

  function Or(value: Option<real>, other: real): real {
    if value.Some? then value.value else other
  }

  /** Cache reads and writes are among the input tokens, each at its own rate when the price has one. */
  function CountsUsd(m: ModelCounts, prices: Prices): real
    requires m.model in prices
  {
    var rates, price, c := TokenRates(prices, m.model), prices[m.model], m.counts;
    var rate, output := if rates.Some? then rates.value.input else 0.0, if rates.Some? then rates.value.output else 0.0;
    var cached := c.cacheRead + c.cacheWrite;
    var uncached := if c.inputTokens > cached then c.inputTokens - cached else 0;
    (uncached as real * rate + c.cacheRead as real * Or(price.cacheRead, rate)
     + c.cacheWrite as real * Or(price.cacheWrite, rate) + c.outputTokens as real * output) / 1000000.0
    + c.rerankUnits as real * Or(price.rerankUnits, 0.0) / 1000.0
  }

  function ModelsUsd(models: seq<ModelCounts>, prices: Prices): real {
    if models == [] then 0.0 else
      var m := models[|models| - 1];
      ModelsUsd(models[..|models| - 1], prices) + if m.model in prices then CountsUsd(m, prices) else 0.0
  }

  /** The USD cost of a record, or None when some model has no price. */
  function CostUsd(u: Usage, prices: Prices): (usd: Option<real>)
    ensures usd.Some? <==> IsPriced(u, prices)
  {
    if AnyUnpriced(u.byModel, prices) then None else Some(ModelsUsd(u.byModel, prices))
  }

  // ----- The measures it has

  function UsageMeasures(u: Usage): map<Key, real> {
    map[LLM_CALLS := u.total.llmCalls as real, INPUT_TOKENS := u.total.inputTokens as real,
        OUTPUT_TOKENS := u.total.outputTokens as real,
        TOTAL_TOKENS := (u.total.inputTokens + u.total.outputTokens) as real]
  }

  function UsdMeasure(u: Usage, prices: Prices): map<Key, real> {
    var usd := CostUsd(u, prices);
    if prices != map[] && usd.Some? then map[USD_MEASURE := usd.value] else map[]
  }

  /** The cost measures an answer has. */
  function AnswerMeasures(a: Answer, prices: Prices): map<Key, real> {
    (if a.usage.Some? then UsageMeasures(a.usage.value) + UsdMeasure(a.usage.value, prices) else map[])
    + if a.responseTime.Some? then map[LATENCY_MEASURE := a.responseTime.value] else map[]
  }

  /** Which measures an answer has: its usage record's, its latency, and the USD of a priced record. */
  lemma HasMeasure(a: Answer, prices: Prices, key: Key)
    ensures key in AnswerMeasures(a, prices) <==>
      || (key in USAGE_MEASURES && a.usage.Some?)
      || (key == LATENCY_MEASURE && a.responseTime.Some?)
      || (key == USD_MEASURE && a.usage.Some? && prices != map[] && IsPriced(a.usage.value, prices))
  {
  }
}
