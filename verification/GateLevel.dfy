// The promise of the whole pipeline: a gate on adjusted p-values rarely breaches on a measure
// without a difference, over all exchanges of the two sides.
module GateLevel {
  import opened Gates
  import opened Listings
  import opened Multiplicity
  import opened Options
  import Deltas
  import Exchange
  import FamilyWise
  import Holm
  import Reals
  import SignFlip
  import SignFlipLevel

  /** One of the equally likely outcomes: its comparison, and the families it was adjusted over. */
  datatype Outcome = Outcome(c: Comparison, s: Summary)

  /** A measure of a compared strategy without a true difference, as observed on the two sides. */
  datatype Hypothesis = Hypothesis(row: nat, measure: string, base: map<string, real>, other: map<string, real>)

  function FamilyMembers(s: Summary, f: Family): seq<AdjustedDelta> {
    match f
    case Primary => s.first
    case Secondary => s.second
    case Cost => s.cost
  }

  /** The queries, each once, and what the statistics are computed with. */
  datatype Design = Design(order: seq<string>, settings: Deltas.Settings)

  ghost predicate IsDesign(design: Design) {
    && Deltas.DrawsEnough(design.settings) && Lists(design.order, Elements(design.order))
    && SignFlip.Pow2(|design.order|) <= design.settings.resamples
  }

  /**
   * In the k-th outcome the family tests the measure, on its observed values with the two sides
   * exchanged by the k-th choice of signs.
   */
  ghost predicate IsTestOf(o: Outcome, f: Family, h: Hypothesis, design: Design, k: nat)
    requires IsDesign(design)
  {
    && h.row < |o.c.rows| && h.base.Keys * h.other.Keys <= Elements(design.order)
    && var found := DeltaFor(o.c.rows[h.row], h.measure);
       && found.Some? && found.value in FamilyMembers(o.s, f) && found.value.stats.Paired?
       && IsExchangedDelta(found.value.stats.delta, h, design, k)
  }

  ghost predicate IsExchangedDelta(d: Deltas.Delta, h: Hypothesis, design: Design, k: nat)
    requires IsDesign(design)
  {
    var signs := SignFlip.Pattern(k, |design.order|);
    && Deltas.IsDelta(d, Exchange.Exchanged(h.base, h.other, design.order, signs),
                      Exchange.Exchanged(h.other, h.base, design.order, signs))
    && Deltas.IsTested(d, design.settings)
  }

  ghost function TestOf(o: Outcome, h: Hypothesis): AdjustedDelta
    requires h.row < |o.c.rows| && DeltaFor(o.c.rows[h.row], h.measure).Some?
  {
    DeltaFor(o.c.rows[h.row], h.measure).value
  }

  /** The gate says that the adjusted p-value is alpha or less. */
  predicate AsksForAlpha(gate: Gate, alpha: real) {
    gate.stat == AdjustedPValue && (gate.op == Le || gate.op == Lt) && gate.value <= alpha
  }

  /** Such a gate breaches on the measure. */
  ghost predicate BlamesBy(o: Outcome, h: Hypothesis, gate: Gate, alpha: real)
    requires h.row < |o.c.rows|
    reads RowDeltas(o.c.rows[h.row])
  {
    && AsksForAlpha(gate, alpha) && gate.measure == h.measure
    && BreachOf(o.c, o.c.rows[h.row], gate).Some? && BreachOf(o.c, o.c.rows[h.row], gate).value.Breached?
  }

  // ----- The p-values of the nulls, outcome by outcome

  ghost function ColumnOf(h: Hypothesis, design: Design): seq<real> {
    Exchange.Filled(design.order, Deltas.Differences(h.base, h.other))
  }

  ghost predicate AreExact(nulls: seq<Hypothesis>, design: Design) {
    forall l :: 0 <= l < |nulls| ==> SignFlip.IsExact(ColumnOf(nulls[l], design), design.settings.resamples)
  }

  /** The p-values of the nulls in the k-th outcome. */
  ghost function NullPValues(nulls: seq<Hypothesis>, design: Design, k: nat): (p: seq<real>)
    requires AreExact(nulls, design) && k < SignFlip.Pow2(|design.order|)
    ensures |p| == |nulls|
  {
    if nulls == [] then [] else
      var n := |nulls| - 1;
      NullPValues(nulls[..n], design, k)
      + [SignFlipLevel.ReflipPValues(ColumnOf(nulls[n], design), design.settings.resamples, [],
                                     SignFlip.Pow2(|design.order|))[k]]
  }

  lemma {:induction false} NullPValueAt(nulls: seq<Hypothesis>, design: Design, k: nat, l: nat)
    requires AreExact(nulls, design) && k < SignFlip.Pow2(|design.order|) && l < |nulls|
    ensures NullPValues(nulls, design, k)[l] ==
      SignFlipLevel.ReflipPValues(ColumnOf(nulls[l], design), design.settings.resamples, [],
                                  SignFlip.Pow2(|design.order|))[k]
  {
    if l < |nulls| - 1 {
      NullPValueAt(nulls[..|nulls| - 1], design, k, l);
    }
  }

  ghost function NullTable(nulls: seq<Hypothesis>, design: Design, m: nat): (table: seq<seq<real>>)
    requires AreExact(nulls, design) && m <= SignFlip.Pow2(|design.order|)
    ensures |table| == m && forall w :: 0 <= w < m ==> |table[w]| == |nulls|
  {
    if m == 0 then [] else NullTable(nulls, design, m - 1) + [NullPValues(nulls, design, m - 1)]
  }

  lemma {:induction false} NullTableAt(nulls: seq<Hypothesis>, design: Design, m: nat, w: nat)
    requires AreExact(nulls, design) && w < m <= SignFlip.Pow2(|design.order|)
    ensures NullTable(nulls, design, m)[w] == NullPValues(nulls, design, w)
  {
    if w < m - 1 {
      NullTableAt(nulls, design, m - 1, w);
    }
  }

  lemma {:induction false} PValuesAt(outcomes: seq<seq<real>>, j: nat, w: nat)
    requires w < |outcomes| && forall v :: 0 <= v < |outcomes| ==> j < |outcomes[v]|
    ensures FamilyWise.PValuesOf(outcomes, j)[w] == outcomes[w][j]
  {
    if w > 0 {
      PValuesAt(outcomes[1..], j, w - 1);
    }
  }

  /** Each null's p-values over the outcomes are those of its re-flips, and so hold their level. */
  lemma NullHoldsItsLevel(nulls: seq<Hypothesis>, design: Design, l: nat)
    requires AreExact(nulls, design) && l < |nulls|
    ensures NullTable(nulls, design, SignFlip.Pow2(|design.order|)) != []
    ensures FamilyWise.HoldsItsLevel(NullTable(nulls, design, SignFlip.Pow2(|design.order|)), l)
  {
    var all := SignFlip.Pow2(|design.order|);
    var table, column := NullTable(nulls, design, all), ColumnOf(nulls[l], design);
    var own, reflips := FamilyWise.PValuesOf(table, l), SignFlipLevel.ReflipPValues(column, design.settings.resamples, [], all);
    forall w | 0 <= w < all
      ensures own[w] == reflips[w]
    {
      PValuesAt(table, l, w);
      NullTableAt(nulls, design, all, w);
      NullPValueAt(nulls, design, w, l);
    }
    assert own == reflips;
    forall a | a >= 0.0
      ensures FamilyWise.Share(Reals.CountAtMost(own, a), |table|) <= a
    {
      SignFlipLevel.ExactTestHoldsItsLevel(column, design.settings.resamples, [], a);
    }
  }

  lemma AllExact(nulls: seq<Hypothesis>, design: Design)
    requires IsDesign(design)
    ensures AreExact(nulls, design)
  {
    forall l | 0 <= l < |nulls|
      ensures SignFlip.IsExact(ColumnOf(nulls[l], design), design.settings.resamples)
    {
      Exchange.PowGrows(|SignFlip.NonZero(ColumnOf(nulls[l], design))|, |design.order|);
    }
  }

  lemma TestHasNullPValue(o: Outcome, f: Family, nulls: seq<Hypothesis>, design: Design, k: nat, l: nat)
    requires IsDesign(design) && AreExact(nulls, design) && l < |nulls| && k < SignFlip.Pow2(|design.order|)
    requires IsTestOf(o, f, nulls[l], design, k)
    ensures TestOf(o, nulls[l]).stats.delta.pValue == NullPValues(nulls, design, k)[l]
  {
    NullPValueAt(nulls, design, k, l);
    Exchange.ExchangedPValue(nulls[l].base, nulls[l].other, design.order, Elements(design.order), k, design.settings,
                             TestOf(o, nulls[l]).stats.delta);
  }

  // ----- The tests are different objects

  lemma {:induction false} FoundAt(entries: seq<Entry>, key: string) returns (i: nat)
    requires Find(entries, key).Some?
    ensures i < |entries| == |DeltasOf(entries)| && entries[i].key == key
    ensures DeltasOf(entries)[i] == entries[i].delta == Find(entries, key).value
  {
    var n := |entries| - 1;
    SameLength(entries);
    if entries[n].key == key {
      i := n;
    } else {
      i := FoundAt(entries[..n], key);
    }
  }

  lemma {:induction false} SameLength(entries: seq<Entry>)
    ensures |DeltasOf(entries)| == |entries|
  {
    if entries != [] {
      SameLength(entries[..|entries| - 1]);
    }
  }

  /** Entries that hold one object only once hold it under one key. */
  lemma FoundDiffer(entries: seq<Entry>, key: string, other: string)
    requires key != other && Find(entries, key).Some? && Find(entries, other).Some?
    requires Multiplicity.Times(DeltasOf(entries), Find(entries, key).value) <= 1
    ensures Find(entries, key).value != Find(entries, other).value
  {
    var i := FoundAt(entries, key);
    var j := FoundAt(entries, other);
    if Find(entries, key).value == Find(entries, other).value {
      TwiceListed(DeltasOf(entries), if i < j then i else j, if i < j then j else i);
      assert false;
    }
  }

  lemma FoundOnce(entries: seq<Entry>, key: string)
    requires Find(entries, key).Some?
    ensures Multiplicity.Times(DeltasOf(entries), Find(entries, key).value) >= 1
  {
    TimesListed(DeltasOf(entries), Find(entries, key).value);
  }

  lemma SameRowDiffer(row: StrategyDeltas, key: string, other: string)
    requires key != other && DeltaFor(row, key).Some? && DeltaFor(row, other).Some?
    requires RowTimes(row, DeltaFor(row, key).value) <= 1
    ensures DeltaFor(row, key).value != DeltaFor(row, other).value
  {
    var metric, otherMetric := Find(row.metrics, key).Some?, Find(row.metrics, other).Some?;
    if metric && otherMetric {
      FoundDiffer(row.metrics, key, other);
    } else if !metric && !otherMetric {
      FoundDiffer(row.cost, key, other);
    } else if metric {
      FoundOnce(row.metrics, key);
      FoundOnce(row.cost, other);
    } else {
      FoundOnce(row.cost, key);
      FoundOnce(row.metrics, other);
    }
  }

  lemma {:induction false} TwoRows(rows: seq<StrategyDeltas>, i: nat, j: nat, d: AdjustedDelta)
    requires i < j < |rows|
    ensures RowTimes(rows[i], d) + RowTimes(rows[j], d) <= Multiplicity.Times(AllDeltas(rows), d)
  {
    var before := rows[..|rows| - 1];
    AllDeltasNext(rows, d);
    assert before[i] == rows[i];
    if j < |before| {
      assert before[j] == rows[j];
      TwoRows(before, i, j, d);
    } else {
      RowWithin(before, i, d);
    }
  }

  lemma RowHolds(row: StrategyDeltas, key: string)
    requires DeltaFor(row, key).Some?
    ensures RowTimes(row, DeltaFor(row, key).value) >= 1
  {
    if Find(row.metrics, key).Some? {
      FoundOnce(row.metrics, key);
    } else {
      FoundOnce(row.cost, key);
    }
  }

  /** In a comparison whose deltas are objects of their own, different hypotheses have different tests. */
  lemma TestsDiffer(o: Outcome, g: Hypothesis, h: Hypothesis)
    requires Unshared(o.c.rows) && g.row < |o.c.rows| && h.row < |o.c.rows|
    requires DeltaFor(o.c.rows[g.row], g.measure).Some? && DeltaFor(o.c.rows[h.row], h.measure).Some?
    requires g.row != h.row || g.measure != h.measure
    ensures TestOf(o, g) != TestOf(o, h)
  {
    var rows, d := o.c.rows, TestOf(o, g);
    RowHolds(rows[g.row], g.measure);
    RowHolds(rows[h.row], h.measure);
    RowWithin(rows, g.row, d);
    TimesListed(AllDeltas(rows), d);
    if g.row == h.row {
      SameRowDiffer(rows[g.row], g.measure, h.measure);
    } else if TestOf(o, h) == d {
      TwoRows(rows, if g.row < h.row then g.row else h.row, if g.row < h.row then h.row else g.row, d);
      assert false;
    }
  }

  // ----- A blamed null means a small p-value

  /** Where a delta is in its family. */
  ghost function Place(members: seq<AdjustedDelta>, d: AdjustedDelta): (i: nat)
    requires d in members
    ensures i < |members| && members[i] == d
  {
    if members[|members| - 1] == d then |members| - 1 else Place(members[..|members| - 1], d)
  }

  ghost predicate AreIn(o: Outcome, members: seq<AdjustedDelta>, nulls: seq<Hypothesis>) {
    forall l :: 0 <= l < |nulls| ==>
      nulls[l].row < |o.c.rows| && DeltaFor(o.c.rows[nulls[l].row], nulls[l].measure).Some?
          && TestOf(o, nulls[l]) in members
  }

  /** The places of the nulls' tests. */
  ghost function Places(o: Outcome, members: seq<AdjustedDelta>, nulls: seq<Hypothesis>): (places: seq<nat>)
    requires AreIn(o, members, nulls)
    ensures |places| == |nulls|
    ensures forall l :: 0 <= l < |nulls| ==> places[l] < |members| && members[places[l]] == TestOf(o, nulls[l])
  {
    if nulls == [] then [] else
      var n := |nulls| - 1;
      Places(o, members, nulls[..n]) + [Place(members, TestOf(o, nulls[n]))]
  }

  /** A gate that blames a null read an adjusted value of at most alpha. */
  lemma BlameIsAdjusted(o: Outcome, h: Hypothesis, gate: Gate, alpha: real)
    requires h.row < |o.c.rows| && BlamesBy(o, h, gate, alpha)
    ensures DeltaFor(o.c.rows[h.row], h.measure).Some?
    ensures TestOf(o, h).adjustment.Some? && TestOf(o, h).adjustment.value.pValue <= alpha
  {
    ChecksAreRight(o.c, o.c.rows[h.row], gate);
  }

  ghost predicate AreTests(o: Outcome, f: Family, nulls: seq<Hypothesis>, design: Design, k: nat)
    requires IsDesign(design)
  {
    forall l :: 0 <= l < |nulls| ==> IsTestOf(o, f, nulls[l], design, k)
  }

  /** The hypotheses are about different measures or strategies. */
  ghost predicate Differ(nulls: seq<Hypothesis>) {
    forall l, m :: 0 <= l < m < |nulls| ==> nulls[l].row != nulls[m].row || nulls[l].measure != nulls[m].measure
  }

  lemma PlacesDiffer(o: Outcome, f: Family, nulls: seq<Hypothesis>, design: Design, k: nat)
    requires IsDesign(design) && AreTests(o, f, nulls, design, k) && Unshared(o.c.rows) && Differ(nulls)
    ensures var places := Places(o, FamilyMembers(o.s, f), nulls);
      forall l, m :: 0 <= l < m < |places| ==> places[l] != places[m]
  {
    var members := FamilyMembers(o.s, f);
    var places := Places(o, members, nulls);
    forall l, m | 0 <= l < m < |places|
      ensures places[l] != places[m]
    {
      assert IsTestOf(o, f, nulls[l], design, k) && IsTestOf(o, f, nulls[m], design, k);
      TestsDiffer(o, nulls[l], nulls[m]);
    }
  }

  lemma FamilyIsAdjusted(s: Summary, f: Family, level: real, bootstrap: Deltas.Bootstrap, i: nat)
    requires AllAdjusted(s, level, bootstrap) && i < |FamilyMembers(s, f)|
    ensures AllEligible(FamilyMembers(s, f))
    ensures var members := FamilyMembers(s, f);
      members[i].adjustment.Some? && members[i].adjustment.value.pValue == Holm.Adjusted(PValues(members))[i]
  {
    assert IsAdjusted(FamilyMembers(s, f), f, level, bootstrap);
  }

  lemma PlaceReadsNull(o: Outcome, f: Family, nulls: seq<Hypothesis>, design: Design, k: nat, m: nat)
    requires IsDesign(design) && AreExact(nulls, design) && k < SignFlip.Pow2(|design.order|) && m < |nulls|
    requires IsTestOf(o, f, nulls[m], design, k) && AllEligible(FamilyMembers(o.s, f))
             && AreIn(o, FamilyMembers(o.s, f), nulls)
    ensures PValues(FamilyMembers(o.s, f))[Places(o, FamilyMembers(o.s, f), nulls)[m]] == NullPValues(nulls, design, k)[m]
  {
    TestHasNullPValue(o, f, nulls, design, k, m);
  }

  /** At the nulls' places the family's p-values are those of the nulls. */
  lemma PlacesReadNulls(o: Outcome, f: Family, nulls: seq<Hypothesis>, design: Design, k: nat)
    requires IsDesign(design) && AreExact(nulls, design) && k < SignFlip.Pow2(|design.order|)
    requires AreTests(o, f, nulls, design, k) && AllEligible(FamilyMembers(o.s, f))
    requires AreIn(o, FamilyMembers(o.s, f), nulls)
    ensures var members := FamilyMembers(o.s, f);
      forall m :: 0 <= m < |nulls| ==>
        PValues(members)[Places(o, members, nulls)[m]] == NullPValues(nulls, design, k)[m]
  {
    var members := FamilyMembers(o.s, f);
    forall m | 0 <= m < |nulls|
      ensures PValues(members)[Places(o, members, nulls)[m]] == NullPValues(nulls, design, k)[m]
    {
      assert IsTestOf(o, f, nulls[m], design, k);
      PlaceReadsNull(o, f, nulls, design, k, m);
    }
  }

  /** If Holm adjusts one of these tests to alpha or less, one of them has a p-value within its part of alpha. */
  lemma SmallBehind(p: seq<real>, places: seq<nat>, own: seq<real>, l: nat, alpha: real, b: real)
    requires |own| == |places| && l < |places| && (forall m :: 0 <= m < |places| ==> places[m] < |p| && p[places[m]] == own[m])
    requires forall i, m :: 0 <= i < m < |places| ==> places[i] != places[m]
    requires Holm.Adjusted(p)[places[l]] <= alpha < 1.0 && forall x :: Reals.Times(|places|, x) <= alpha ==> x <= b
    ensures FamilyWise.SmallOneOf(own, Indices(|own|), b)
  {
    DistinctSize(places);
    var j := Holm.RejectionNeedsSmallPValue(p, Elements(places), places[l], alpha);
    var m :| 0 <= m < |places| && places[m] == j;
    assert m in Indices(|own|) && own[m] <= b;
  }

  lemma BlameIsPlaced(o: Outcome, f: Family, nulls: seq<Hypothesis>, level: real, bootstrap: Deltas.Bootstrap, gate: Gate,
                      l: nat, alpha: real)
    requires AreIn(o, FamilyMembers(o.s, f), nulls) && AllAdjusted(o.s, level, bootstrap)
    requires l < |nulls| && nulls[l].row < |o.c.rows| && BlamesBy(o, nulls[l], gate, alpha)
    ensures AllEligible(FamilyMembers(o.s, f))
    ensures Holm.Adjusted(PValues(FamilyMembers(o.s, f)))[Places(o, FamilyMembers(o.s, f), nulls)[l]] <= alpha
  {
    var place := Places(o, FamilyMembers(o.s, f), nulls)[l];
    FamilyIsAdjusted(o.s, f, level, bootstrap, place);
    BlameIsAdjusted(o, nulls[l], gate, alpha);
  }

  /** When a null is blamed, some null has a p-value of at most its part of alpha. */
  lemma BlamedIsSmall(o: Outcome, f: Family, nulls: seq<Hypothesis>, design: Design, k: nat, level: real,
                      bootstrap: Deltas.Bootstrap, gate: Gate, l: nat, alpha: real, b: real)
    requires IsDesign(design) && AreExact(nulls, design) && k < SignFlip.Pow2(|design.order|)
    requires AreTests(o, f, nulls, design, k) && Unshared(o.c.rows) && Differ(nulls) && AllAdjusted(o.s, level, bootstrap)
    requires l < |nulls| && IsTestOf(o, f, nulls[l], design, k) && BlamesBy(o, nulls[l], gate, alpha)
    requires alpha < 1.0 && forall x :: Reals.Times(|nulls|, x) <= alpha ==> x <= b
    ensures FamilyWise.SmallOneOf(NullPValues(nulls, design, k), Indices(|nulls|), b)
  {
    var members := FamilyMembers(o.s, f);
    var places := Places(o, members, nulls);
    PlacesDiffer(o, f, nulls, design, k);
    BlameIsPlaced(o, f, nulls, level, bootstrap, gate, l, alpha);
    PlacesReadNulls(o, f, nulls, design, k);
    SmallBehind(PValues(members), places, NullPValues(nulls, design, k), l, alpha, b);
  }

  // ----- The promise

  function CountTrue(s: seq<bool>): nat {
    if s == [] then 0 else (if s[0] then 1 else 0) + CountTrue(s[1..])
  }

  lemma {:induction false} BlamedWithin(blamed: seq<bool>, table: seq<seq<real>>, t: set<nat>, b: real)
    requires |blamed| == |table| && forall w, j :: 0 <= w < |table| && j in t ==> j < |table[w]|
    requires forall w :: 0 <= w < |blamed| && blamed[w] ==> FamilyWise.SmallOneOf(table[w], t, b)
    ensures CountTrue(blamed) <= FamilyWise.SmallOutcomes(table, t, b)
  {
    if blamed != [] {
      forall w | 0 <= w < |blamed[1..]| && blamed[1..][w]
        ensures FamilyWise.SmallOneOf(table[1..][w], t, b)
      {
        assert blamed[w + 1];
      }
      BlamedWithin(blamed[1..], table[1..], t, b);
    }
  }

  lemma {:induction false} CountTrueBound(s: seq<bool>)
    ensures CountTrue(s) <= |s|
  {
    if s != [] {
      CountTrueBound(s[1..]);
    }
  }

  /** In the k-th outcome some gate breaches on some null. */
  ghost predicate Blames(o: Outcome, nulls: seq<Hypothesis>, gates: seq<Gate>, alpha: real)
    requires forall l :: 0 <= l < |nulls| ==> nulls[l].row < |o.c.rows|
    reads set l, d | 0 <= l < |nulls| && d in RowDeltas(o.c.rows[nulls[l].row]) :: d
  {
    exists l, g :: 0 <= l < |nulls| && 0 <= g < |gates| && BlamesBy(o, nulls[l], gates[g], alpha)
  }

  lemma OutcomeIsSmall(o: Outcome, f: Family, nulls: seq<Hypothesis>, design: Design, k: nat, level: real,
                       bootstrap: Deltas.Bootstrap, gates: seq<Gate>, alpha: real, b: real)
    requires IsDesign(design) && AreExact(nulls, design) && k < SignFlip.Pow2(|design.order|)
    requires AreTests(o, f, nulls, design, k) && Unshared(o.c.rows) && Differ(nulls) && AllAdjusted(o.s, level, bootstrap)
    requires forall l :: 0 <= l < |nulls| ==> nulls[l].row < |o.c.rows|
    requires alpha < 1.0 && (forall x :: Reals.Times(|nulls|, x) <= alpha ==> x <= b) && Blames(o, nulls, gates, alpha)
    ensures FamilyWise.SmallOneOf(NullPValues(nulls, design, k), Indices(|nulls|), b)
  {
    var l, g :| 0 <= l < |nulls| && 0 <= g < |gates| && BlamesBy(o, nulls[l], gates[g], alpha);
    assert IsTestOf(o, f, nulls[l], design, k);
    BlamedIsSmall(o, f, nulls, design, k, level, bootstrap, gates[g], l, alpha, b);
  }

  /** The outcomes are adjusted comparisons in which family f tests every null, exchanged accordingly. */
  ghost predicate AreOutcomes(outcomes: seq<Outcome>, f: Family, nulls: seq<Hypothesis>, design: Design)
    requires IsDesign(design)
  {
    && |outcomes| == SignFlip.Pow2(|design.order|)
    && (forall w :: 0 <= w < |outcomes| ==> Unshared(outcomes[w].c.rows))
    && (forall w :: 0 <= w < |outcomes| ==> AreTests(outcomes[w], f, nulls, design, w))
    && forall w, l :: 0 <= w < |outcomes| && 0 <= l < |nulls| ==> nulls[l].row < |outcomes[w].c.rows|
  }

  lemma BlamedShare(blamed: seq<bool>, nulls: seq<Hypothesis>, design: Design, alpha: real, b: real)
    requires IsDesign(design) && AreExact(nulls, design) && nulls != [] && alpha >= 0.0
    requires b >= 0.0 && Reals.Times(|nulls|, b) == alpha && |blamed| == SignFlip.Pow2(|design.order|)
    requires forall w :: 0 <= w < |blamed| && blamed[w] ==>
      FamilyWise.SmallOneOf(NullPValues(nulls, design, w), Indices(|nulls|), b)
    ensures FamilyWise.Share(CountTrue(blamed), |blamed|) <= alpha
  {
    var all, t := SignFlip.Pow2(|design.order|), Indices(|nulls|);
    var table := NullTable(nulls, design, all);
    forall w | 0 <= w < |blamed| && blamed[w]
      ensures FamilyWise.SmallOneOf(table[w], t, b)
    {
      NullTableAt(nulls, design, all, w);
    }
    BlamedWithin(blamed, table, t, b);
    forall l | l in t
      ensures table != [] && FamilyWise.HoldsItsLevel(table, l)
    {
      NullHoldsItsLevel(nulls, design, l);
    }
    FamilyWise.UnionBound(table, t, b);
    SignFlip.ShareMonotone(CountTrue(blamed), FamilyWise.SmallOutcomes(table, t, b), |table|);
  }

  /**
   * From the values to the gate: let some measures of a family have no true difference, so that
   * exchanging the two sides at any queries is as likely. Over the 2^n equally likely outcomes, each
   * compared, adjusted by Holm over its families and gated, a gate on an adjusted p-value of at most
   * alpha breaches on one of those measures in at most a share alpha, whatever the other measures do.
   */
  lemma GateRarelyBlames(outcomes: seq<Outcome>, f: Family, nulls: seq<Hypothesis>, design: Design, level: real,
                         bootstrap: Deltas.Bootstrap, gates: seq<Gate>, alpha: real, blamed: seq<bool>)
    requires IsDesign(design) && AreOutcomes(outcomes, f, nulls, design) && Differ(nulls) && nulls != [] && alpha >= 0.0
    requires forall w :: 0 <= w < |outcomes| ==> AllAdjusted(outcomes[w].s, level, bootstrap)
    requires |blamed| == |outcomes| && forall w :: 0 <= w < |blamed| && blamed[w] ==> Blames(outcomes[w], nulls, gates, alpha)
    ensures |blamed| > 0 && FamilyWise.Share(CountTrue(blamed), |blamed|) <= alpha
  {
    CountTrueBound(blamed);
    if alpha >= 1.0 {
      SignFlip.ShareBetween(0, CountTrue(blamed), |blamed|);
    } else {
      AllExact(nulls, design);
      var b := FamilyWise.EqualParts(|nulls|, alpha);
      forall w | 0 <= w < |blamed| && blamed[w]
        ensures FamilyWise.SmallOneOf(NullPValues(nulls, design, w), Indices(|nulls|), b)
      {
        OutcomeIsSmall(outcomes[w], f, nulls, design, w, level, bootstrap, gates, alpha, b);
      }
      BlamedShare(blamed, nulls, design, alpha, b);
    }
  }
}
