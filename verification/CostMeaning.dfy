// What an answer's cost measures are in its usage record and the price list: which it has, under which
// names, and that the USD of a record is linear in its tokens and search units.
module CostMeaning {
  import opened Options
  import opened Comparison
  import opened Costs

  /** The cost measures, by the names a gate gives them, are these six. */
  lemma MeasureNames(key: Key)
    ensures key in COST_MEASURES
            <==> || key in {Key("usage", "llm_calls"), Key("usage", "input_tokens"), Key("usage", "output_tokens")}
                 || key in {Key("usage", "total_tokens"), Key("usage", "cost_usd"), Key("latency", "response_time_seconds")}
    ensures LLM_CALLS.name == "llm_calls" && USD_MEASURE.name == "cost_usd" && LATENCY_MEASURE.family == "latency"
    ensures INPUT_TOKENS.name == "input_tokens" && OUTPUT_TOKENS.name == "output_tokens"
  {
  }

  // ----- Which measures an answer has, and their values

  /** The model has the prices its calls need: of tokens for its LLM calls, of search units for its reranks. */
  ghost predicate HasPrices(m: ModelCounts, prices: Prices) {
    && (m.counts.llmCalls != 0 ==> m.model in prices && prices[m.model].input.Some? && prices[m.model].output.Some?)
    && (m.counts.rerankCalls != 0 ==> m.model in prices && prices[m.model].rerankUnits.Some?)
  }

  /** An answer has a USD cost exactly with a usage record, a price list, and the prices each model's calls need. */
  lemma UsdIff(a: Answer, prices: Prices)
    ensures USD_MEASURE in AnswerMeasures(a, prices)
            <==> && a.usage.Some? && prices != map[]
                 && forall m :: m in a.usage.value.byModel ==> HasPrices(m, prices)
  {
    forall m: ModelCounts
      ensures IsUnpriced(m, prices) <==> !HasPrices(m, prices)
    {
    }
    HasMeasure(a, prices, USD_MEASURE);
  }

  /** The usage measures are the record's totals, all tokens those read and written, and the latency is the answer's. */
  lemma MeasuresOfRecord(a: Answer, prices: Prices)
    ensures var m := AnswerMeasures(a, prices);
      && (a.usage.Some? ==>
            && {LLM_CALLS, INPUT_TOKENS, OUTPUT_TOKENS, TOTAL_TOKENS} <= m.Keys
            && m[LLM_CALLS] == a.usage.value.total.llmCalls as real
            && m[INPUT_TOKENS] == a.usage.value.total.inputTokens as real
            && m[OUTPUT_TOKENS] == a.usage.value.total.outputTokens as real
            && m[TOTAL_TOKENS] == m[INPUT_TOKENS] + m[OUTPUT_TOKENS])
      && (a.responseTime.Some? ==> LATENCY_MEASURE in m && m[LATENCY_MEASURE] == a.responseTime.value)
  {
  }

  // ----- The USD of one model's calls

  ghost function Added(c: Counts, d: Counts): Counts {
    Counts(c.llmCalls + d.llmCalls, c.inputTokens + d.inputTokens, c.outputTokens + d.outputTokens,
           c.cacheRead + d.cacheRead, c.cacheWrite + d.cacheWrite, c.rerankCalls + d.rerankCalls,
           c.rerankUnits + d.rerankUnits)
  }

  /** The cache reads and writes are among the input tokens. */
  ghost predicate CachedAreInput(c: Counts) {
    c.cacheRead + c.cacheWrite <= c.inputTokens
  }

  lemma SumOfProducts(a: real, b: real, rate: real)
    ensures (a + b) * rate == a * rate + b * rate
  {
  }

  /** Calls cost together what they cost apart. */
  lemma CostsAdd(model: string, c: Counts, d: Counts, prices: Prices)
    requires model in prices && CachedAreInput(c) && CachedAreInput(d)
    ensures CountsUsd(ModelCounts(model, Added(c, d)), prices)
         == CountsUsd(ModelCounts(model, c), prices) + CountsUsd(ModelCounts(model, d), prices)
  {
    var price, rates := prices[model], TokenRates(prices, model);
    var rate, output := if rates.Some? then rates.value.input else 0.0, if rates.Some? then rates.value.output else 0.0;
    var x, y := c.inputTokens - c.cacheRead - c.cacheWrite, d.inputTokens - d.cacheRead - d.cacheWrite;
    SumOfProducts(x as real, y as real, rate);
    SumOfProducts(c.cacheRead as real, d.cacheRead as real, Or(price.cacheRead, rate));
    SumOfProducts(c.cacheWrite as real, d.cacheWrite as real, Or(price.cacheWrite, rate));
    SumOfProducts(c.outputTokens as real, d.outputTokens as real, output);
    SumOfProducts(c.rerankUnits as real, d.rerankUnits as real, Or(price.rerankUnits, 0.0));
  }

  /** A price list with the token prices of a model. */
  ghost predicate PricesTokens(price: Price) {
    price.input.Some? && price.output.Some?
  }

  /**
   * A million input tokens cost the input price, a million output tokens the output price, a million
   * input tokens read from or written to the cache the price for that, or else the input price, and a
   * thousand search units the unit price.
   */
  lemma UnitCosts(model: string, prices: Prices)
    requires model in prices && PricesTokens(prices[model])
    ensures var price := prices[model]; var k := 1000000;
      && CountsUsd(ModelCounts(model, Counts(1, k, 0, 0, 0, 0, 0)), prices) == price.input.value
      && CountsUsd(ModelCounts(model, Counts(1, 0, k, 0, 0, 0, 0)), prices) == price.output.value
      && CountsUsd(ModelCounts(model, Counts(1, k, 0, k, 0, 0, 0)), prices)
         == (if price.cacheRead.Some? then price.cacheRead.value else price.input.value)
      && CountsUsd(ModelCounts(model, Counts(1, k, 0, 0, k, 0, 0)), prices)
         == (if price.cacheWrite.Some? then price.cacheWrite.value else price.input.value)
  {
  }

  /** A thousand search units cost the unit price, and nothing without one. */
  lemma RerankCosts(model: string, prices: Prices)
    requires model in prices
    ensures var price := prices[model];
      CountsUsd(ModelCounts(model, Counts(0, 0, 0, 0, 0, 1, 1000)), prices)
      == if price.rerankUnits.Some? then price.rerankUnits.value else 0.0
  {
  }

  /** When more tokens were cached than read, none is left at the input price, and none is paid back. */
  lemma CacheNeverPaysBack(model: string, c: Counts, prices: Prices)
    requires model in prices && !CachedAreInput(c)
    ensures CountsUsd(ModelCounts(model, c), prices)
         == CountsUsd(ModelCounts(model, c.(inputTokens := c.cacheRead + c.cacheWrite)), prices)
  {
  }

  /** The tokens of a model without token prices cost nothing, unless its cache has prices of its own. */
  lemma TokensWithoutPrices(model: string, c: Counts, prices: Prices)
    requires model in prices && !PricesTokens(prices[model]) && c.cacheRead == 0 && c.cacheWrite == 0
    ensures CountsUsd(ModelCounts(model, c), prices)
         == CountsUsd(ModelCounts(model, c.(inputTokens := 0, outputTokens := 0)), prices)
  {
  }

  // ----- The USD of a record

  /** A record costs what its models' calls cost, one model after the other; unpriced idle models cost nothing. */
  lemma RecordCosts(total: Counts, models: seq<ModelCounts>, last: ModelCounts, prices: Prices)
    requires forall m :: m in models + [last] ==> HasPrices(m, prices)
    ensures CostUsd(Usage(total, []), prices) == Some(0.0)
    ensures var before := CostUsd(Usage(total, models), prices);
      && before.Some?
      && CostUsd(Usage(total, models + [last]), prices)
         == Some(before.value + if last.model in prices then CountsUsd(last, prices) else 0.0)
  {
    assert (models + [last])[..|models|] == models;
    assert forall m :: m in models ==> m in models + [last];
  }
}
