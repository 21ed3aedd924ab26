// The multiplicity adjustment of a comparison: its deltas sorted into families, each adjusted
// over its own tests, in place.
module Multiplicity {
  import opened Options
  import Deltas
  import Holm

  datatype Family = Primary | Secondary | Cost

  /** What the adjustment adds to a delta. */
  datatype Adjustment = Adjustment(family: Family, pValue: real, low: real, high: real)

  /** A paired delta, or the difference of two ratios of totals, which has no p-value and no per-query values. */
  datatype Stats =
    | Paired(delta: Deltas.Delta)
    | Ratio(pairs: nat, meanDelta: real, ciLow: real, ciHigh: real)

  /** A delta of the comparison, and the adjustment written into it. */
  class AdjustedDelta {
    const stats: Stats
    var adjustment: Option<Adjustment>

    constructor (stats: Stats)
      ensures this.stats == stats && adjustment == None
    {
      this.stats, adjustment := stats, None;
    }
  }

  datatype Entry = Entry(key: string, delta: AdjustedDelta)

  /** A strategy's deltas against its baseline: those of the metrics and those of the cost measures. */
  datatype StrategyDeltas = StrategyDeltas(strategy: string, metrics: seq<Entry>, cost: seq<Entry>)

  const DEFAULT_PRIMARY_METRIC := "answer_match/answer_contains"

  // ----- The families

  predicate Eligible(d: AdjustedDelta) {
    d.stats.Paired?
  }

  function FamilyOf(primary: Option<string>, key: string): Family {
    if primary == Some(key) then Primary else Secondary
  }

  function MetricMembers(entries: seq<Entry>, primary: Option<string>, family: Family): seq<AdjustedDelta> {
    if entries == [] then []
    else
      var e := entries[|entries| - 1];
      MetricMembers(entries[..|entries| - 1], primary, family)
      + if Eligible(e.delta) && FamilyOf(primary, e.key) == family then [e.delta] else []
  }

  function CostMembers(entries: seq<Entry>): seq<AdjustedDelta> {
    if entries == [] then []
    else
      var e := entries[|entries| - 1];
      CostMembers(entries[..|entries| - 1]) + if Eligible(e.delta) then [e.delta] else []
  }

  function RowMembers(row: StrategyDeltas, primary: Option<string>, family: Family): seq<AdjustedDelta> {
    if family == Cost then CostMembers(row.cost) else MetricMembers(row.metrics, primary, family)
  }

  /** The deltas of a family, over the compared strategies. */
  function Members(rows: seq<StrategyDeltas>, exclude: set<string>, primary: Option<string>,
                   family: Family): seq<AdjustedDelta> {
    if rows == [] then []
    else
      var row := rows[|rows| - 1];
      Members(rows[..|rows| - 1], exclude, primary, family)
      + if row.strategy in exclude then [] else RowMembers(row, primary, family)
  }

  function DeltasOf(entries: seq<Entry>): seq<AdjustedDelta> {
    if entries == [] then [] else DeltasOf(entries[..|entries| - 1]) + [entries[|entries| - 1].delta]
  }

  /** Every delta of the comparison. */
  function AllDeltas(rows: seq<StrategyDeltas>): seq<AdjustedDelta> {
    if rows == [] then []
    else
      var row := rows[|rows| - 1];
      AllDeltas(rows[..|rows| - 1]) + (DeltasOf(row.metrics) + DeltasOf(row.cost))
  }

  function EligibleOf(entries: seq<Entry>): seq<AdjustedDelta> {
    if entries == [] then []
    else
      var d := entries[|entries| - 1].delta;
      EligibleOf(entries[..|entries| - 1]) + if Eligible(d) then [d] else []
  }

  ghost function DeltaSet(rows: seq<StrategyDeltas>): set<AdjustedDelta> {
    set d | d in AllDeltas(rows)
  }

  /** How often a delta is listed. */
  function Times(s: seq<AdjustedDelta>, d: AdjustedDelta): nat {
    if s == [] then 0 else Times(s[..|s| - 1], d) + if s[|s| - 1] == d then 1 else 0
  }

  lemma {:induction false} TimesJoined(s: seq<AdjustedDelta>, t: seq<AdjustedDelta>, d: AdjustedDelta)
    ensures Times(s + t, d) == Times(s, d) + Times(t, d)
  {
    if t == [] {
      assert s + t == s;
    } else {
      assert (s + t)[..|s + t| - 1] == s + t[..|t| - 1];
      TimesJoined(s, t[..|t| - 1], d);
    }
  }

  lemma TimesAppended(s: seq<AdjustedDelta>, x: AdjustedDelta, kept: bool, d: AdjustedDelta)
    ensures Times(s + if kept then [x] else [], d) == Times(s, d) + if kept && x == d then 1 else 0
  {
    if kept {
      assert (s + [x])[..|s|] == s;
    } else {
      assert s + [] == s;
    }
  }

  lemma {:induction false} TimesListed(s: seq<AdjustedDelta>, d: AdjustedDelta)
    ensures Times(s, d) >= 1 <==> d in s
  {
    if s != [] {
      assert s == s[..|s| - 1] + [s[|s| - 1]];
      TimesListed(s[..|s| - 1], d);
    }
  }

  lemma {:induction false} TwiceListed(s: seq<AdjustedDelta>, i: nat, j: nat)
    requires i < j < |s| && s[i] == s[j]
    ensures Times(s, s[i]) >= 2
  {
    assert s[..j] + s[j..] == s;
    TimesJoined(s[..j], s[j..], s[i]);
    TimesListed(s[..j], s[i]);
    TimesListed(s[j..], s[i]);
    assert s[..j][i] == s[i] && s[j..][0] == s[i];
  }

  lemma {:induction false} MetricsSplit(entries: seq<Entry>, primary: Option<string>, d: AdjustedDelta)
    ensures Times(MetricMembers(entries, primary, Primary), d) + Times(MetricMembers(entries, primary, Secondary), d)
            == Times(EligibleOf(entries), d) == if Eligible(d) then Times(DeltasOf(entries), d) else 0
  {
    if entries != [] {
      var before, e := entries[..|entries| - 1], entries[|entries| - 1];
      MetricsSplit(before, primary, d);
      var eligible, first := Eligible(e.delta), FamilyOf(primary, e.key) == Primary;
      TimesAppended(MetricMembers(before, primary, Primary), e.delta, eligible && first, d);
      TimesAppended(MetricMembers(before, primary, Secondary), e.delta, eligible && !first, d);
      TimesAppended(EligibleOf(before), e.delta, eligible, d);
      TimesAppended(DeltasOf(before), e.delta, true, d);
    }
  }

  lemma {:induction false} CostIsEligible(entries: seq<Entry>)
    ensures CostMembers(entries) == EligibleOf(entries)
  {
    if entries != [] {
      CostIsEligible(entries[..|entries| - 1]);
    }
  }

  lemma MembersNext(rows: seq<StrategyDeltas>, exclude: set<string>, primary: Option<string>, family: Family,
                    d: AdjustedDelta)
    requires rows != []
    ensures var row := rows[|rows| - 1];
            Times(Members(rows, exclude, primary, family), d)
            == Times(Members(rows[..|rows| - 1], exclude, primary, family), d)
               + if row.strategy in exclude then 0 else Times(RowMembers(row, primary, family), d)
  {
    TimesJoined(Members(rows[..|rows| - 1], exclude, primary, family),
                RowMembers(rows[|rows| - 1], primary, family), d);
    TimesJoined(Members(rows[..|rows| - 1], exclude, primary, family), [], d);
  }

  /**
   * Every eligible delta of a compared strategy is in exactly one family, once; a delta that is not
   * eligible, or only an excluded strategy's, is in none.
   */
  lemma {:induction false} FamiliesPartition(rows: seq<StrategyDeltas>, exclude: set<string>,
                                             primary: Option<string>, d: AdjustedDelta)
    ensures Times(Members(rows, exclude, primary, Primary), d) + Times(Members(rows, exclude, primary, Secondary), d)
            + Times(Members(rows, exclude, primary, Cost), d) == TimesTested(rows, exclude, d)
  {
    if rows != [] {
      var row := rows[|rows| - 1];
      FamiliesPartition(rows[..|rows| - 1], exclude, primary, d);
      MembersNext(rows, exclude, primary, Primary, d);
      MembersNext(rows, exclude, primary, Secondary, d);
      MembersNext(rows, exclude, primary, Cost, d);
      MetricsSplit(row.metrics, primary, d);
      MetricsSplit(row.cost, primary, d);
      CostIsEligible(row.cost);
    }
  }

  /** How often a delta is to be adjusted: as often as the compared strategies list it, if it is eligible. */
  function TimesTested(rows: seq<StrategyDeltas>, exclude: set<string>, d: AdjustedDelta): nat {
    if rows == [] then 0
    else
      var row := rows[|rows| - 1];
      TimesTested(rows[..|rows| - 1], exclude, d)
      + if row.strategy in exclude || !Eligible(d) then 0 else RowTimes(row, d)
  }

  /** How often a strategy's row lists a delta. */
  function RowTimes(row: StrategyDeltas, d: AdjustedDelta): nat {
    Times(DeltasOf(row.metrics), d) + Times(DeltasOf(row.cost), d)
  }

  lemma AllDeltasNext(rows: seq<StrategyDeltas>, d: AdjustedDelta)
    requires rows != []
    ensures Times(AllDeltas(rows), d)
            == Times(AllDeltas(rows[..|rows| - 1]), d) + RowTimes(rows[|rows| - 1], d)
  {
    var row := rows[|rows| - 1];
    TimesJoined(AllDeltas(rows[..|rows| - 1]), DeltasOf(row.metrics) + DeltasOf(row.cost), d);
    TimesJoined(DeltasOf(row.metrics), DeltasOf(row.cost), d);
  }

  lemma {:induction false} TestedWithin(rows: seq<StrategyDeltas>, exclude: set<string>, d: AdjustedDelta)
    ensures TimesTested(rows, exclude, d) <= Times(AllDeltas(rows), d)
    ensures !Eligible(d) ==> TimesTested(rows, exclude, d) == 0
  {
    if rows != [] {
      TestedWithin(rows[..|rows| - 1], exclude, d);
      AllDeltasNext(rows, d);
    }
  }

  /** Each delta is an object of its own. */
  ghost predicate Unshared(rows: seq<StrategyDeltas>) {
    forall d :: d in AllDeltas(rows) ==> Times(AllDeltas(rows), d) == 1
  }

  lemma TimesInFamily(rows: seq<StrategyDeltas>, exclude: set<string>, primary: Option<string>, f: Family,
                      d: AdjustedDelta)
    requires Unshared(rows) && d in Members(rows, exclude, primary, f)
    ensures Times(Members(rows, exclude, primary, f), d) == 1 && d in AllDeltas(rows) && Eligible(d)
    ensures forall g :: g != f ==> d !in Members(rows, exclude, primary, g)
  {
    FamiliesPartition(rows, exclude, primary, d);
    TestedWithin(rows, exclude, d);
    TimesListed(AllDeltas(rows), d);
    TimesListed(Members(rows, exclude, primary, Primary), d);
    TimesListed(Members(rows, exclude, primary, Secondary), d);
    TimesListed(Members(rows, exclude, primary, Cost), d);
  }

  /** The families share no delta, and none holds one twice. */
  lemma FamiliesAreDisjoint(rows: seq<StrategyDeltas>, exclude: set<string>, primary: Option<string>, f: Family)
    requires Unshared(rows)
    ensures var m := Members(rows, exclude, primary, f);
            && AllEligible(m) && Distinct(m) && Within(m, DeltaSet(rows))
            && forall g, d :: g != f && d in m ==> d !in Members(rows, exclude, primary, g)
  {
    var m := Members(rows, exclude, primary, f);
    forall d | d in m
      ensures Times(m, d) == 1 && d in AllDeltas(rows) && Eligible(d)
      ensures forall g :: g != f ==> d !in Members(rows, exclude, primary, g)
    {
      TimesInFamily(rows, exclude, primary, f, d);
    }
    forall i, j | 0 <= i < j < |m|
      ensures m[i] != m[j]
    {
      assert m[i] in m;
      if m[i] == m[j] {
        TwiceListed(m, i, j);
      }
    }
  }

  // ----- The adjustment

  ghost predicate AllEligible(members: seq<AdjustedDelta>) {
    forall i :: 0 <= i < |members| ==> Eligible(members[i])
  }

  function PValues(members: seq<AdjustedDelta>): (p: seq<real>)
    requires AllEligible(members)
    ensures |p| == |members| && forall i :: 0 <= i < |p| ==> p[i] == members[i].stats.delta.pValue
  {
    if members == [] then []
    else PValues(members[..|members| - 1]) + [members[|members| - 1].stats.delta.pValue]
  }

  /** The confidence of a family's intervals: Bonferroni over its tests. */
  function Level(alpha: real, tests: nat): real
    requires tests > 0
  {
    1.0 - alpha / tests as real
  }

  /** What the i-th test of a family is adjusted to. */
  function AdjustmentOf(members: seq<AdjustedDelta>, family: Family, alpha: real, bootstrap: Deltas.Bootstrap,
                        i: nat): Adjustment
    requires i < |members| && AllEligible(members)
  {
    var interval := bootstrap(members[i].stats.delta.values, Level(alpha, |members|));
    Adjustment(family, Holm.Adjusted(PValues(members))[i], interval.0, interval.1)
  }

  /** Every delta of the family carries its adjustment. */
  ghost predicate IsAdjusted(members: seq<AdjustedDelta>, family: Family, alpha: real, bootstrap: Deltas.Bootstrap)
    reads members
  {
    && AllEligible(members)
    && forall i :: 0 <= i < |members| ==>
         members[i].adjustment == Some(AdjustmentOf(members, family, alpha, bootstrap, i))
  }

  method AdjustmentsFor(members: seq<AdjustedDelta>, family: Family, alpha: real, bootstrap: Deltas.Bootstrap)
      returns (values: seq<Adjustment>)
    requires AllEligible(members)
    ensures |values| == |members|
    ensures forall i :: 0 <= i < |members| ==> values[i] == AdjustmentOf(members, family, alpha, bootstrap, i)
  {
    values := [];
    var adjusted := Holm.HolmAdjusted(PValues(members));
    for i := 0 to |members|
      invariant |values| == i
      invariant forall k :: 0 <= k < i ==> values[k] == AdjustmentOf(members, family, alpha, bootstrap, k)
    {
      var interval := bootstrap(members[i].stats.delta.values, Level(alpha, |members|));
      values := values + [Adjustment(family, adjusted[i], interval.0, interval.1)];
    }
  }

  method Update(members: seq<AdjustedDelta>, values: seq<Adjustment>, ghost all: set<AdjustedDelta>)
    requires Distinct(members) && Within(members, all) && |values| == |members|
    modifies all
    ensures forall i :: 0 <= i < |members| ==> members[i].adjustment == Some(values[i])
    ensures forall d :: d in all && d !in members ==> d.adjustment == old(d.adjustment)
  {
    for i := 0 to |members|
      invariant forall k :: 0 <= k < i ==> members[k].adjustment == Some(values[k])
      invariant forall d :: d in all && d !in members ==> d.adjustment == old(d.adjustment)
    {
      members[i].adjustment := Some(values[i]);
    }
  }

  method AdjustFamily(members: seq<AdjustedDelta>, family: Family, alpha: real, bootstrap: Deltas.Bootstrap,
                      ghost all: set<AdjustedDelta>)
    requires AllEligible(members) && Distinct(members) && Within(members, all)
    modifies all
    ensures IsAdjusted(members, family, alpha, bootstrap)
    ensures forall d :: d in all && d !in members ==> d.adjustment == old(d.adjustment)
  {
    if members != [] {
      var values := AdjustmentsFor(members, family, alpha, bootstrap);
      Update(members, values, all);
    }
  }

  ghost predicate Distinct(m: seq<AdjustedDelta>) {
    forall i, j :: 0 <= i < j < |m| ==> m[i] != m[j]
  }

  ghost predicate Within(m: seq<AdjustedDelta>, all: set<AdjustedDelta>) {
    forall i :: 0 <= i < |m| ==> m[i] in all
  }

  /** The metric to test unadjusted, and whether a declared one that nobody scored was warned of. */
  datatype Choice = Choice(primary: Option<string>, warned: bool)

  /** Some compared strategy has a delta of the metric. */
  ghost predicate IsCompared(rows: seq<StrategyDeltas>, exclude: set<string>, key: string) {
    exists i, j :: 0 <= i < |rows| && rows[i].strategy !in exclude && HasKeyAt(rows[i], j, key)
  }

  ghost predicate HasKeyAt(row: StrategyDeltas, j: int, key: string) {
    0 <= j < |row.metrics| && row.metrics[j].key == key
  }

  ghost predicate AnyCompared(rows: seq<StrategyDeltas>, exclude: set<string>) {
    exists i :: 0 <= i < |rows| && rows[i].strategy !in exclude
  }

  ghost function ChoiceOf(rows: seq<StrategyDeltas>, exclude: set<string>, declared: Option<string>): Choice {
    var metric := if declared.Some? && declared.value != "" then declared.value else DEFAULT_PRIMARY_METRIC;
    Choice(if IsCompared(rows, exclude, metric) then Some(metric) else None,
           declared.Some? && AnyCompared(rows, exclude) && !IsCompared(rows, exclude, metric))
  }

  /**
   * Undeclared, the primary metric is `answer_match/answer_contains`, where it is compared; and only a
   * declared metric that no compared strategy has a delta of is warned of, if any is compared at all.
   */
  lemma PrimaryInWords(rows: seq<StrategyDeltas>, exclude: set<string>, declared: Option<string>)
    ensures var metric :=
        if declared.Some? && declared.value != "" then declared.value else "answer_match/answer_contains";
      var known := exists i, j :: && 0 <= i < |rows| && rows[i].strategy !in exclude
                                  && 0 <= j < |rows[i].metrics| && rows[i].metrics[j].key == metric;
      && (ChoiceOf(rows, exclude, declared).primary == if known then Some(metric) else None)
      && (ChoiceOf(rows, exclude, declared).warned
          <==> && declared.Some? && !known
               && exists i :: 0 <= i < |rows| && rows[i].strategy !in exclude)
  {
    var metric := if declared.Some? && declared.value != "" then declared.value else "answer_match/answer_contains";
    forall i, j | 0 <= i < |rows| && rows[i].strategy !in exclude && 0 <= j < |rows[i].metrics|
                  && rows[i].metrics[j].key == metric
      ensures IsCompared(rows, exclude, metric)
    {
      assert HasKeyAt(rows[i], j, metric);
    }
  }

  method ChoosePrimary(rows: seq<StrategyDeltas>, exclude: set<string>, declared: Option<string>) returns (choice: Choice)
    ensures choice == ChoiceOf(rows, exclude, declared)
  {
    var metric := if declared.Some? && declared.value != "" then declared.value else DEFAULT_PRIMARY_METRIC;
    var compared, found := false, false;
    for i := 0 to |rows|
      invariant compared <==> exists k :: 0 <= k < i && rows[k].strategy !in exclude
      invariant found <==> exists k, j :: 0 <= k < i && rows[k].strategy !in exclude && HasKeyAt(rows[k], j, metric)
    {
      if rows[i].strategy !in exclude {
        compared := true;
        var here := false;
        for j := 0 to |rows[i].metrics|
          invariant here <==> exists k :: 0 <= k < j && HasKeyAt(rows[i], k, metric)
        {
          here := here || rows[i].metrics[j].key == metric;
          assert HasKeyAt(rows[i], j, metric) <==> rows[i].metrics[j].key == metric;
        }
        found := found || here;
      }
    }
    choice := Choice(if found then Some(metric) else None, declared.Some? && compared && !found);
  }

  // ----- The whole comparison

  datatype Summary = Summary(choice: Choice, first: seq<AdjustedDelta>, second: seq<AdjustedDelta>,
                             cost: seq<AdjustedDelta>)

  /** The summary's lists are the families. */
  ghost predicate AreFamilies(rows: seq<StrategyDeltas>, exclude: set<string>, s: Summary) {
    && s.first == Members(rows, exclude, s.choice.primary, Primary) && AllEligible(s.first)
    && s.second == Members(rows, exclude, s.choice.primary, Secondary) && AllEligible(s.second)
    && s.cost == Members(rows, exclude, s.choice.primary, Cost) && AllEligible(s.cost)
  }

  method GatherMetrics(entries: seq<Entry>, primary: Option<string>)
    returns (first: seq<AdjustedDelta>, second: seq<AdjustedDelta>)
    ensures first == MetricMembers(entries, primary, Primary) && second == MetricMembers(entries, primary, Secondary)
  {
    first, second := [], [];
    for i := 0 to |entries|
      invariant first == MetricMembers(entries[..i], primary, Primary)
      invariant second == MetricMembers(entries[..i], primary, Secondary)
    {
      assert entries[..i + 1][..i] == entries[..i];
      var e := entries[i];
      if e.delta.stats.Paired? {
        if primary == Some(e.key) {
          first := first + [e.delta];
        } else {
          second := second + [e.delta];
        }
      }
    }
    assert entries[..|entries|] == entries;
  }

  method GatherCost(entries: seq<Entry>) returns (members: seq<AdjustedDelta>)
    ensures members == CostMembers(entries)
  {
    members := [];
    for i := 0 to |entries|
      invariant members == CostMembers(entries[..i])
    {
      assert entries[..i + 1][..i] == entries[..i];
      if entries[i].delta.stats.Paired? {
        members := members + [entries[i].delta];
      }
    }
    assert entries[..|entries|] == entries;
  }

  method Gather(rows: seq<StrategyDeltas>, exclude: set<string>, primary: Option<string>)
      returns (first: seq<AdjustedDelta>, second: seq<AdjustedDelta>, cost: seq<AdjustedDelta>)
    ensures first == Members(rows, exclude, primary, Primary)
    ensures second == Members(rows, exclude, primary, Secondary)
    ensures cost == Members(rows, exclude, primary, Cost)
  {
    first, second, cost := [], [], [];
    for i := 0 to |rows|
      invariant first == Members(rows[..i], exclude, primary, Primary)
      invariant second == Members(rows[..i], exclude, primary, Secondary)
      invariant cost == Members(rows[..i], exclude, primary, Cost)
    {
      assert rows[..i + 1][..i] == rows[..i];
      if rows[i].strategy !in exclude {
        var f, s := GatherMetrics(rows[i].metrics, primary);
        var c := GatherCost(rows[i].cost);
        first, second, cost := first + f, second + s, cost + c;
      }
    }
    assert rows[..|rows|] == rows;
  }

  /** The families are within the comparison, and share nothing. */
  ghost predicate Separate(all: set<AdjustedDelta>, s: Summary) {
    && Within(s.first, all) && Within(s.second, all) && Within(s.cost, all)
    && Distinct(s.first) && Distinct(s.second) && Distinct(s.cost)
    && (forall d :: d in s.first ==> d !in s.second && d !in s.cost)
    && (forall d :: d in s.second ==> d !in s.cost)
  }

  lemma FamiliesAreSeparate(rows: seq<StrategyDeltas>, exclude: set<string>, s: Summary)
    requires Unshared(rows)
    requires s.first == Members(rows, exclude, s.choice.primary, Primary)
    requires s.second == Members(rows, exclude, s.choice.primary, Secondary)
    requires s.cost == Members(rows, exclude, s.choice.primary, Cost)
    ensures Separate(DeltaSet(rows), s) && AreFamilies(rows, exclude, s)
  {
    FamiliesAreDisjoint(rows, exclude, s.choice.primary, Primary);
    FamiliesAreDisjoint(rows, exclude, s.choice.primary, Secondary);
    FamiliesAreDisjoint(rows, exclude, s.choice.primary, Cost);
  }

  ghost predicate AllAdjusted(s: Summary, alpha: real, bootstrap: Deltas.Bootstrap)
    reads s.first, s.second, s.cost
  {
    && IsAdjusted(s.first, Primary, alpha, bootstrap)
    && IsAdjusted(s.second, Secondary, alpha, bootstrap)
    && IsAdjusted(s.cost, Cost, alpha, bootstrap)
  }

  predicate InNone(s: Summary, d: AdjustedDelta) {
    d !in s.first && d !in s.second && d !in s.cost
  }

  method AdjustAll(s: Summary, alpha: real, bootstrap: Deltas.Bootstrap, ghost all: set<AdjustedDelta>)
    requires Separate(all, s) && AllEligible(s.first) && AllEligible(s.second) && AllEligible(s.cost)
    modifies all
    ensures AllAdjusted(s, alpha, bootstrap)
    ensures forall d :: d in all && InNone(s, d) ==> d.adjustment == old(d.adjustment)
  {
    AdjustFamily(s.first, Primary, alpha, bootstrap, all);
    AdjustFamily(s.second, Secondary, alpha, bootstrap, all);
    AdjustFamily(s.cost, Cost, alpha, bootstrap, all);
  }

  /** The whole adjustment: each family's tests, in place, and no other delta. */
  method Adjust(rows: seq<StrategyDeltas>, exclude: set<string>, declared: Option<string>, alpha: real,
                bootstrap: Deltas.Bootstrap,
                ghost all: set<AdjustedDelta>) returns (s: Summary)
    requires Unshared(rows) && all == DeltaSet(rows)
    modifies all
    ensures s.choice == ChoiceOf(rows, exclude, declared) && AreFamilies(rows, exclude, s)
    ensures AllAdjusted(s, alpha, bootstrap)
    ensures forall d :: d in all && InNone(s, d) ==> d.adjustment == old(d.adjustment)
  {
    var choice := ChoosePrimary(rows, exclude, declared);
    var first, second, cost := Gather(rows, exclude, choice.primary);
    s := Summary(choice, first, second, cost);
    FamiliesAreSeparate(rows, exclude, s);
    AdjustAll(s, alpha, bootstrap, all);
  }

  /** A delta stays out of the families, and so unadjusted, exactly when it is not tested. */
  lemma UntestedInNone(rows: seq<StrategyDeltas>, exclude: set<string>, s: Summary, d: AdjustedDelta)
    requires AreFamilies(rows, exclude, s)
    ensures InNone(s, d) <==> TimesTested(rows, exclude, d) == 0
  {
    FamiliesPartition(rows, exclude, s.choice.primary, d);
    TimesListed(s.first, d);
    TimesListed(s.second, d);
    TimesListed(s.cost, d);
  }

  /** A strategy's own delta is tested exactly when the strategy is compared and the delta is eligible. */
  lemma {:induction false} TestedWhenCompared(rows: seq<StrategyDeltas>, exclude: set<string>, i: nat, d: AdjustedDelta)
    requires i < |rows| && Times(AllDeltas(rows), d) <= 1 && RowTimes(rows[i], d) >= 1
    ensures TimesTested(rows, exclude, d) > 0 <==> rows[i].strategy !in exclude && Eligible(d)
  {
    var before, last := rows[..|rows| - 1], rows[|rows| - 1];
    AllDeltasNext(rows, d);
    TestedNext(rows, exclude, d);
    if i < |before| {
      assert before[i] == rows[i];
      RowWithin(before, i, d);
      TestedWhenCompared(before, exclude, i, d);
    } else {
      TestedWithin(before, exclude, d);
    }
  }

  lemma TestedNext(rows: seq<StrategyDeltas>, exclude: set<string>, d: AdjustedDelta)
    requires rows != []
    ensures var last := rows[|rows| - 1];
      TimesTested(rows, exclude, d) == TimesTested(rows[..|rows| - 1], exclude, d)
        + if last.strategy in exclude || !Eligible(d) then 0 else RowTimes(last, d)
  {
  }

  lemma {:induction false} RowWithin(rows: seq<StrategyDeltas>, i: nat, d: AdjustedDelta)
    requires i < |rows|
    ensures RowTimes(rows[i], d) <= Times(AllDeltas(rows), d)
  {
    var n := |rows| - 1;
    AllDeltasNext(rows, d);
    if i < n {
      RowWithin(rows[..n], i, d);
    }
  }

  lemma SameAdjustment(members: seq<AdjustedDelta>, d: AdjustedDelta) returns (i: nat)
    requires d in members
    ensures i < |members| && members[i] == d
  {
    i :| 0 <= i < |members| && members[i] == d;
  }

  /** Adjusting an adjusted comparison changes no delta: no adjustment is read. */
  method AdjustAgain(rows: seq<StrategyDeltas>, exclude: set<string>, declared: Option<string>, alpha: real,
                     bootstrap: Deltas.Bootstrap,
                     ghost all: set<AdjustedDelta>, ghost once: Summary) returns (again: Summary)
    requires Unshared(rows) && all == DeltaSet(rows)
    requires once.choice == ChoiceOf(rows, exclude, declared) && AreFamilies(rows, exclude, once)
    requires AllAdjusted(once, alpha, bootstrap)
    modifies all
    ensures again == once
    ensures forall d :: d in all ==> d.adjustment == old(d.adjustment)
  {
    again := Adjust(rows, exclude, declared, alpha, bootstrap, all);
    forall d | d in all
      ensures d.adjustment == old(d.adjustment)
    {
      if d in once.first {
        var i := SameAdjustment(once.first, d);
      } else if d in once.second {
        var i := SameAdjustment(once.second, d);
      } else if d in once.cost {
        var i := SameAdjustment(once.cost, d);
      }
    }
  }
}
