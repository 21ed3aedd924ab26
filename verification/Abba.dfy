// The interleaved answering of several runs: the order of the answers, and the way each
// answer and what it spent find their run and query again.
module Abba {
  import opened Options

  // ----- The order

  /** A turn: which arm answers which query. */
  datatype Turn = Turn(arm: nat, query: nat)

  function Forward(arms: nat, query: nat): seq<Turn> {
    if arms == 0 then [] else Forward(arms - 1, query) + [Turn(arms - 1, query)]
  }

  function Backward(arms: nat, query: nat): seq<Turn> {
    if arms == 0 then [] else [Turn(arms - 1, query)] + Backward(arms - 1, query)
  }

  /** Every arm on one query: forward on even queries and reversed on odd ones. */
  function Block(arms: nat, query: nat): seq<Turn> {
    if query % 2 == 0 then Forward(arms, query) else Backward(arms, query)
  }

  function Order(arms: nat, count: nat): seq<Turn> {
    if count == 0 then [] else Order(arms, count - 1) + Block(arms, count - 1)
  }

  method BuildOrder(arms: nat, count: nat) returns (order: seq<Turn>)
    ensures order == Order(arms, count)
  {
    order := [];
    for j := 0 to count
      invariant order == Order(arms, j)
    {
      var turns: seq<Turn> := [];
      for a := 0 to arms
        invariant turns == Block(a, j)
      {
        turns := if j % 2 == 0 then turns + [Turn(a, j)] else [Turn(a, j)] + turns;
      }
      order := order + turns;
    }
  }

  /** Where the block of query `j` starts. */
  function Start(arms: nat, j: nat): nat {
    if j == 0 then 0 else Start(arms, j - 1) + arms
  }

  /** The place of arm `a`'s answer to query `j`. */
  function Place(arms: nat, a: nat, j: nat): nat
    requires a < arms
  {
    Start(arms, j) + Within(arms, a, j)
  }

  /** Its place within the block. */
  function Within(arms: nat, a: nat, j: nat): (i: nat)
    requires a < arms
    ensures i < arms
  {
    if j % 2 == 0 then a else arms - 1 - a
  }

  lemma {:induction false} ForwardAt(arms: nat, j: nat, a: nat)
    requires a < arms
    ensures |Forward(arms, j)| == arms && Forward(arms, j)[a] == Turn(a, j)
  {
    if a < arms - 1 {
      ForwardAt(arms - 1, j, a);
    } else if arms > 1 {
      ForwardAt(arms - 1, j, 0);
    }
  }

  lemma {:induction false} BackwardAt(arms: nat, j: nat, a: nat)
    requires a < arms
    ensures |Backward(arms, j)| == arms && Backward(arms, j)[arms - 1 - a] == Turn(a, j)
  {
    if a < arms - 1 {
      BackwardAt(arms - 1, j, a);
    } else if arms > 1 {
      BackwardAt(arms - 1, j, 0);
    }
  }

  lemma {:induction false} BlockSize(arms: nat, j: nat)
    ensures |Forward(arms, j)| == |Backward(arms, j)| == |Block(arms, j)| == arms
  {
    if arms > 0 {
      BlockSize(arms - 1, j);
    }
  }

  lemma BlockAt(arms: nat, j: nat, a: nat)
    requires a < arms
    ensures |Block(arms, j)| == arms && Block(arms, j)[Within(arms, a, j)] == Turn(a, j)
  {
    BlockSize(arms, j);
    ForwardAt(arms, j, a);
    BackwardAt(arms, j, a);
  }

  lemma {:induction false} OrderSize(arms: nat, count: nat)
    ensures |Order(arms, count)| == Start(arms, count)
  {
    if count > 0 {
      OrderSize(arms, count - 1);
      BlockSize(arms, count - 1);
    }
  }

  lemma {:induction false} StartGrows(arms: nat, j: nat, k: nat)
    requires j < k
    ensures Start(arms, j) + arms <= Start(arms, k)
  {
    if j < k - 1 {
      StartGrows(arms, j, k - 1);
    }
  }

  lemma LastBlockAt(arms: nat, j: nat, a: nat)
    requires a < arms
    ensures Place(arms, a, j) < |Order(arms, j + 1)|
    ensures Order(arms, j + 1)[Place(arms, a, j)] == Turn(a, j)
  {
    BlockAt(arms, j, a);
    OrderSize(arms, j);
    var before, block := Order(arms, j), Block(arms, j);
    assert (before + block)[|before| + Within(arms, a, j)] == block[Within(arms, a, j)];
  }

  /** Later queries only append. */
  lemma {:induction false} OrderGrows(arms: nat, count: nat, more: nat)
    requires count <= more
    ensures Order(arms, count) <= Order(arms, more)
    decreases more
  {
    if count < more {
      OrderGrows(arms, count, more - 1);
    }
  }

  /** Every arm answers every query, at its place. */
  lemma OrderAt(arms: nat, count: nat, a: nat, j: nat)
    requires a < arms && j < count
    ensures Place(arms, a, j) < |Order(arms, count)| && Order(arms, count)[Place(arms, a, j)] == Turn(a, j)
  {
    LastBlockAt(arms, j, a);
    OrderGrows(arms, j + 1, count);
  }

  /** Nothing else is in the order: each place is the place of its own turn. */
  lemma {:induction false} PlaceOfTurn(arms: nat, count: nat, i: nat)
    requires i < |Order(arms, count)|
    ensures var t := Order(arms, count)[i];
            t.arm < arms && t.query < count && i == Place(arms, t.arm, t.query)
  {
    OrderSize(arms, count - 1);
    BlockSize(arms, count - 1);
    var before := |Order(arms, count - 1)|;
    if i < before {
      PlaceOfTurn(arms, count - 1, i);
    } else {
      var a := Within(arms, i - before, count - 1);
      BlockAt(arms, count - 1, a);
      assert Within(arms, a, count - 1) == i - before;
    }
  }

  /** The order is a permutation of arms by queries: no two places hold the same turn. */
  lemma TurnsDiffer(arms: nat, count: nat, i: nat, k: nat)
    requires i < |Order(arms, count)| && k < |Order(arms, count)| && Order(arms, count)[i] == Order(arms, count)[k]
    ensures i == k
  {
    PlaceOfTurn(arms, count, i);
    PlaceOfTurn(arms, count, k);
  }

  /** The answers to one query are next to each other: the blocks of the queries follow in order. */
  lemma QueriesAreContiguous(arms: nat, a: nat, b: nat, j: nat, k: nat)
    requires a < arms && b < arms && j < k
    ensures Start(arms, j) <= Place(arms, a, j) < Start(arms, j) + arms <= Place(arms, b, k)
  {
    StartGrows(arms, j, k);
  }

  // ----- Balance

  /** On how many of the first `count` queries arm `a` answers before arm `b`. */
  function TimesBefore(arms: nat, a: nat, b: nat, count: nat): nat
    requires a < arms && b < arms
  {
    if count == 0 then 0
    else TimesBefore(arms, a, b, count - 1) + if Place(arms, a, count - 1) < Place(arms, b, count - 1) then 1 else 0
  }

  /** That is the number of queries at which its place is the earlier one. */
  lemma {:induction false} TimesBeforeIsNumber(arms: nat, a: nat, b: nat, count: nat)
    requires a < arms && b < arms
    ensures TimesBefore(arms, a, b, count) == |set j: nat | j < count && Place(arms, a, j) < Place(arms, b, j)|
  {
    var now := set j: nat | j < count && Place(arms, a, j) < Place(arms, b, j);
    if count == 0 {
      assert now == {};
    } else {
      TimesBeforeIsNumber(arms, a, b, count - 1);
      var before := set j: nat | j < count - 1 && Place(arms, a, j) < Place(arms, b, j);
      assert now == before + if Place(arms, a, count - 1) < Place(arms, b, count - 1) then {count - 1} else {};
    }
  }

  /** Between two arms, either is first as often, but for the last query of an odd number. */
  lemma {:induction false} EitherFirstAsOften(arms: nat, a: nat, b: nat, count: nat)
    requires a < b < arms
    ensures TimesBefore(arms, a, b, count) == TimesBefore(arms, b, a, count) + count % 2
    ensures TimesBefore(arms, a, b, count) + TimesBefore(arms, b, a, count) == count
  {
    if count > 0 {
      EitherFirstAsOften(arms, a, b, count - 1);
    }
  }

  /** The places of an arm's first `count` answers, added up. */
  function PlaceSum(arms: nat, a: nat, count: nat): nat
    requires a < arms
  {
    if count == 0 then 0 else PlaceSum(arms, a, count - 1) + Place(arms, a, count - 1)
  }

  /**
   * Over an even number of queries every arm answers equally late on average, so a drift that is
   * linear over the session costs them all the same; over an odd number they differ by the arms'
   * distance in the one unpaired query.
   */
  lemma {:induction false} DriftIsShared(arms: nat, a: nat, b: nat, count: nat)
    requires a < arms && b < arms
    ensures count % 2 == 0 ==> PlaceSum(arms, a, count) == PlaceSum(arms, b, count)
    ensures count % 2 == 1 ==> PlaceSum(arms, a, count) - PlaceSum(arms, b, count) == a as int - b
  {
    if count > 0 {
      DriftIsShared(arms, a, b, count - 1);
    }
  }

  lemma TwoMore(arms: nat, a: nat, j: nat)
    requires a < arms && j % 2 == 0
    ensures PlaceSum(arms, a, j + 2) == PlaceSum(arms, a, j) + arms * j + arms * (j + 1) + arms - 1
  {
    StartIsProduct(arms, j);
    StartIsProduct(arms, j + 1);
    assert PlaceSum(arms, a, j + 2) == PlaceSum(arms, a, j + 1) + Place(arms, a, j + 1);
  }

  lemma {:induction false} StartIsProduct(arms: nat, j: nat)
    ensures Start(arms, j) == arms * j
  {
    if j > 0 {
      StartIsProduct(arms, j - 1);
      assert arms * j == arms * (j - 1) + arms;
    }
  }

  lemma MiddleNext(arms: nat, j: nat)
    ensures (j + 2) * (arms * (j + 2) - 1) == j * (arms * j - 1) + 2 * (arms * j + arms * (j + 1) + arms - 1)
  {
  }

  /** Over an even number of queries the mean place of every arm's answers is the middle of the session. */
  lemma {:induction false} MeanPlaceIsMiddle(arms: nat, a: nat, count: nat)
    requires a < arms && count % 2 == 0
    ensures 2 * PlaceSum(arms, a, count) == count * (arms * count - 1)
  {
    if count > 0 {
      MeanPlaceIsMiddle(arms, a, count - 2);
      TwoMore(arms, a, count - 2);
      MiddleNext(arms, count - 2);
    }
  }

  // ----- Answering

  datatype Query = Query(question: string, metadata: string)

  /** The input of one answer: an object of its own, whatever it holds. */
  class Input {
    const query: Query

    constructor (query: Query)
      ensures this.query == query
    {
      this.query := query;
    }
  }

  /** An attempt either answers or raises; either way it used so much. */
  datatype Outcome = Answered(raw: string, usage: nat) | Raised(usage: nat)

  /** What a run's chain does on a query in the t-th attempt of the session. */
  type Chain = (nat, Query, nat) -> Outcome

  /** An arm's answers by query, what the attempts that raised used (None: never tried), and all it used. */
  datatype ArmAnswers = ArmAnswers(raw: seq<Option<string>>, failed: seq<Option<seq<nat>>>, usage: nat)

  datatype Mismatch = QueryCountsDiffer

  /** What the attempts at one place came to: the last one counts. */
  function RawOf(schedule: seq<nat>, chain: Chain, place: nat, arm: nat, query: Query): Option<string> {
    if schedule == [] then None
    else
      var t := |schedule| - 1;
      if schedule[t] != place then RawOf(schedule[..t], chain, place, arm, query)
      else match chain(arm, query, t) case Answered(raw, _) => Some(raw) case Raised(_) => None
  }

  /** The usage of the attempts at one place that raised. */
  function FailedOf(schedule: seq<nat>, chain: Chain, place: nat, arm: nat, query: Query): Option<seq<nat>> {
    if schedule == [] then None
    else
      var t := |schedule| - 1;
      var before := FailedOf(schedule[..t], chain, place, arm, query);
      if schedule[t] != place then before
      else
        var so := if before.Some? then before.value else [];
        match chain(arm, query, t) case Answered(_, _) => Some(so) case Raised(usage) => Some(so + [usage])
  }

  /** What the attempts of one arm used. */
  ghost function UsageOf(schedule: seq<nat>, chain: Chain, order: seq<Turn>, arms: seq<seq<Query>>, arm: nat): nat
    requires forall k :: 0 <= k < |schedule| ==> schedule[k] < |order|
    requires Fits(order, arms)
  {
    if schedule == [] then 0
    else
      var t := |schedule| - 1;
      var turn := order[schedule[t]];
      UsageOf(schedule[..t], chain, order, arms, arm)
      + if turn.arm == arm then chain(arm, arms[arm][turn.query], t).usage else 0
  }

  ghost predicate Fits(order: seq<Turn>, arms: seq<seq<Query>>) {
    forall i :: 0 <= i < |order| ==> order[i].arm < |arms| && order[i].query < |arms[order[i].arm]|
  }

  /** The inputs are objects of their own, and each knows its arm and holds its query. */
  ghost predicate Prepared(order: seq<Turn>, arms: seq<seq<Query>>, inputs: seq<Input>, armOf: map<Input, nat>) {
    && Fits(order, arms) && |inputs| <= |order|
    && (forall i, k :: 0 <= i < k < |inputs| ==> inputs[i] != inputs[k])
    && forall i :: 0 <= i < |inputs| ==>
         inputs[i] in armOf && armOf[inputs[i]] == order[i].arm
         && inputs[i].query == arms[order[i].arm][order[i].query]
  }

  method PrepareInputs(arms: seq<seq<Query>>, order: seq<Turn>) returns (inputs: seq<Input>, armOf: map<Input, nat>)
    requires Fits(order, arms)
    ensures Prepared(order, arms, inputs, armOf) && |inputs| == |order|
  {
    inputs, armOf := [], map[];
    for i := 0 to |order|
      invariant |inputs| == i && Prepared(order, arms, inputs, armOf)
      invariant forall x :: x in inputs ==> allocated(x)
    {
      var single := new Input(arms[order[i].arm][order[i].query]);
      armOf := armOf[single := order[i].arm];
      inputs := inputs + [single];
    }
  }

  // The state of a session: per input, whether it was tried, its last raw result and what its
  // failed attempts used; per arm, all it used.

  datatype Session = Session(raw: seq<Option<string>>, spent: map<Input, seq<nat>>, meters: seq<nat>)

  /** One attempt on one input: everything is looked up through the input object. */
  function Attempted(s: Session, x: Input, i: nat, arm: nat, outcome: Outcome): Session
    requires i < |s.raw| && arm < |s.meters|
  {
    var so := if x in s.spent then s.spent[x] else [];
    match outcome
    case Answered(raw, usage) =>
      Session(s.raw[i := Some(raw)], s.spent[x := so], s.meters[arm := s.meters[arm] + usage])
    case Raised(usage) =>
      Session(s.raw[i := None], s.spent[x := so + [usage]], s.meters[arm := s.meters[arm] + usage])
  }

  function Record(s: Session, x: Input): Option<seq<nat>> {
    if x in s.spent then Some(s.spent[x]) else None
  }

  /** The session holds, for every place and arm, what the attempts came to. */
  ghost predicate Holds(s: Session, schedule: seq<nat>, chain: Chain, order: seq<Turn>, arms: seq<seq<Query>>,
                        inputs: seq<Input>)
    requires Fits(order, arms) && |inputs| == |order|
    requires forall k :: 0 <= k < |schedule| ==> schedule[k] < |order|
  {
    && |s.raw| == |order| && |s.meters| == |arms|
    && (forall i :: 0 <= i < |order| ==> HoldsAt(s, schedule, chain, order, arms, inputs, i))
    && forall a :: 0 <= a < |arms| ==> s.meters[a] == UsageOf(schedule, chain, order, arms, a)
  }

  ghost predicate HoldsAt(s: Session, schedule: seq<nat>, chain: Chain, order: seq<Turn>, arms: seq<seq<Query>>,
                          inputs: seq<Input>, i: nat)
    requires Fits(order, arms) && |inputs| == |order| == |s.raw| && i < |order|
  {
    var query := arms[order[i].arm][order[i].query];
    && s.raw[i] == RawOf(schedule, chain, i, order[i].arm, query)
    && Record(s, inputs[i]) == FailedOf(schedule, chain, i, order[i].arm, query)
  }

  lemma AttemptHolds(s: Session, schedule: seq<nat>, chain: Chain, order: seq<Turn>, arms: seq<seq<Query>>,
                     inputs: seq<Input>, armOf: map<Input, nat>, n: nat)
    requires Prepared(order, arms, inputs, armOf) && |inputs| == |order|
    requires forall k :: 0 <= k < |schedule| ==> schedule[k] < |order|
    requires n < |schedule| && Holds(s, schedule[..n], chain, order, arms, inputs)
    ensures var x := inputs[schedule[n]];
            Holds(Attempted(s, x, schedule[n], armOf[x], chain(armOf[x], x.query, n)),
                  schedule[..n + 1], chain, order, arms, inputs)
  {
    var i := schedule[n];
    var x := inputs[i];
    var next := Attempted(s, x, i, armOf[x], chain(armOf[x], x.query, n));
    assert schedule[..n + 1][..n] == schedule[..n];
    forall k {:trigger inputs[k]} | 0 <= k < |order|
      ensures HoldsAt(next, schedule[..n + 1], chain, order, arms, inputs, k)
    {
      assert HoldsAt(s, schedule[..n], chain, order, arms, inputs, k);
      if k != i {
        assert inputs[k] != x;
      }
    }
    forall a | 0 <= a < |arms|
      ensures next.meters[a] == UsageOf(schedule[..n + 1], chain, order, arms, a)
    {
      assert s.meters[a] == UsageOf(schedule[..n], chain, order, arms, a);
    }
  }

  method RunSession(schedule: seq<nat>, chain: Chain, order: seq<Turn>, arms: seq<seq<Query>>,
                    inputs: seq<Input>, armOf: map<Input, nat>) returns (s: Session)
    requires Prepared(order, arms, inputs, armOf) && |inputs| == |order|
    requires forall k :: 0 <= k < |schedule| ==> schedule[k] < |order|
    ensures Holds(s, schedule, chain, order, arms, inputs)
  {
    s := Session(seq(|order|, _ => None), map[], seq(|arms|, _ => 0));
    assert schedule[..0] == [];
    for n := 0 to |schedule|
      invariant Holds(s, schedule[..n], chain, order, arms, inputs)
    {
      AttemptHolds(s, schedule, chain, order, arms, inputs, armOf, n);
      var x := inputs[schedule[n]];
      s := Attempted(s, x, schedule[n], armOf[x], chain(armOf[x], x.query, n));
    }
    assert schedule[..|schedule|] == schedule;
  }

  /** Each arm has the same number of queries. */
  ghost predicate SameCounts(arms: seq<seq<Query>>, count: nat) {
    forall a :: 0 <= a < |arms| ==> |arms[a]| == count
  }

  lemma OrderFits(arms: seq<seq<Query>>, count: nat)
    requires SameCounts(arms, count)
    ensures Fits(Order(|arms|, count), arms)
  {
    forall i | 0 <= i < |Order(|arms|, count)|
      ensures Order(|arms|, count)[i].arm < |arms| && Order(|arms|, count)[i].query < count
    {
      PlaceOfTurn(|arms|, count, i);
    }
  }

  method SameLengths(arms: seq<seq<Query>>) returns (same: bool)
    requires arms != []
    ensures same <==> SameCounts(arms, |arms[0]|)
  {
    for a := 0 to |arms|
      invariant forall k :: 0 <= k < a ==> |arms[k]| == |arms[0]|
    {
      if |arms[a]| != |arms[0]| {
        return false;
      }
    }
    same := true;
  }

  /** What an arm should be given: the raw result and the record of its own attempt at each query. */
  ghost predicate IsAnswers(answers: ArmAnswers, schedule: seq<nat>, chain: Chain,
                            arms: seq<seq<Query>>, count: nat, a: nat)
    requires SameCounts(arms, count) && a < |arms|
    requires forall k :: 0 <= k < |schedule| ==> schedule[k] < |Order(|arms|, count)|
  {
    OrderFits(arms, count);
    && |answers.raw| == |answers.failed| == count
    && (forall j :: 0 <= j < count ==>
          answers.raw[j] == RawOf(schedule, chain, Place(|arms|, a, j), a, arms[a][j]))
    && (forall j :: 0 <= j < count ==>
          answers.failed[j] == FailedOf(schedule, chain, Place(|arms|, a, j), a, arms[a][j]))
    && answers.usage == UsageOf(schedule, chain, Order(|arms|, count), arms, a)
  }

  /** Each value at its arm and query: the lists are filled place by place. */
  method Scatter<T>(arms: nat, count: nat, order: seq<Turn>, values: seq<Option<T>>)
      returns (byArm: seq<seq<Option<T>>>)
    requires order == Order(arms, count) && |values| == |order|
    ensures |byArm| == arms
    ensures forall a :: 0 <= a < arms ==> IsRow(byArm[a], arms, count, order, values, a)
  {
    var cells := new Option<T>[arms, count]((_, _) => None);
    for index := 0 to |order|
      invariant forall a, j :: 0 <= a < arms && 0 <= j < count && Place(arms, a, j) < index ==>
                  Place(arms, a, j) < |values| && cells[a, j] == values[Place(arms, a, j)]
    {
      PlaceOfTurn(arms, count, index);
      cells[order[index].arm, order[index].query] := values[index];
      forall a, j | 0 <= a < arms && 0 <= j < count && Place(arms, a, j) <= index
        ensures cells[a, j] == values[Place(arms, a, j)]
      {
        OrderAt(arms, count, a, j);
      }
    }
    forall a, j | 0 <= a < arms && 0 <= j < count
      ensures Place(arms, a, j) < |values| && cells[a, j] == values[Place(arms, a, j)]
    {
      OrderAt(arms, count, a, j);
    }
    byArm := seq(arms, a requires 0 <= a < arms reads cells =>
                   seq(count, j requires 0 <= j < count reads cells => cells[a, j]));
  }

  ghost predicate IsRow<T>(row: seq<Option<T>>, arms: nat, count: nat, order: seq<Turn>, values: seq<Option<T>>, a: nat)
    requires a < arms
  {
    && |row| == count
    && forall j :: 0 <= j < count ==> Place(arms, a, j) < |values| && row[j] == values[Place(arms, a, j)]
  }

  method Records(s: Session, inputs: seq<Input>) returns (records: seq<Option<seq<nat>>>)
    ensures |records| == |inputs| && forall i :: 0 <= i < |inputs| ==> records[i] == Record(s, inputs[i])
  {
    records := [];
    for i := 0 to |inputs|
      invariant |records| == i && forall k :: 0 <= k < i ==> records[k] == Record(s, inputs[k])
    {
      records := records + [Record(s, inputs[i])];
    }
  }

  lemma RowsAreAnswers(arms: seq<seq<Query>>, count: nat, schedule: seq<nat>, chain: Chain, inputs: seq<Input>,
                       s: Session, records: seq<Option<seq<nat>>>, a: nat, answers: ArmAnswers)
    requires SameCounts(arms, count) && a < |arms|
    requires forall k :: 0 <= k < |schedule| ==> schedule[k] < |Order(|arms|, count)|
    requires Fits(Order(|arms|, count), arms) && |inputs| == |Order(|arms|, count)| == |records|
    requires Holds(s, schedule, chain, Order(|arms|, count), arms, inputs)
    requires forall i :: 0 <= i < |inputs| ==> records[i] == Record(s, inputs[i])
    requires IsRow(answers.raw, |arms|, count, Order(|arms|, count), s.raw, a)
    requires IsRow(answers.failed, |arms|, count, Order(|arms|, count), records, a)
    requires answers.usage == s.meters[a]
    ensures IsAnswers(answers, schedule, chain, arms, count, a)
  {
    var order := Order(|arms|, count);
    forall j | 0 <= j < count
      ensures answers.raw[j] == RawOf(schedule, chain, Place(|arms|, a, j), a, arms[a][j])
      ensures answers.failed[j] == FailedOf(schedule, chain, Place(|arms|, a, j), a, arms[a][j])
    {
      OrderAt(|arms|, count, a, j);
      assert HoldsAt(s, schedule, chain, order, arms, inputs, Place(|arms|, a, j));
    }
  }

  /**
   * The whole session, on any schedule of attempts at the places. Every arm gets, at each of its
   * own queries, what its own attempts there came to, with what they used.
   */
  method AnswerArms(arms: seq<seq<Query>>, schedule: seq<nat>, chain: Chain)
      returns (r: Result<seq<ArmAnswers>, Mismatch>)
    requires arms != []
    requires forall k :: 0 <= k < |schedule| ==> schedule[k] < |Order(|arms|, |arms[0]|)|
    ensures r.Ok? <==> SameCounts(arms, |arms[0]|)
    ensures r.Ok? ==> |r.value| == |arms|
    ensures r.Ok? ==> forall a :: 0 <= a < |arms| ==> IsAnswers(r.value[a], schedule, chain, arms, |arms[0]|, a)
  {
    var count := |arms[0]|;
    var same := SameLengths(arms);
    if !same {
      return Err(QueryCountsDiffer);
    }
    var order := BuildOrder(|arms|, count);
    OrderFits(arms, count);
    var inputs, armOf := PrepareInputs(arms, order);
    var s := RunSession(schedule, chain, order, arms, inputs, armOf);
    var records := Records(s, inputs);
    var rawByArm := Scatter(|arms|, count, order, s.raw);
    var failedByArm := Scatter(|arms|, count, order, records);
    var answered: seq<ArmAnswers> := [];
    for a := 0 to |arms|
      invariant |answered| == a
      invariant forall b :: 0 <= b < a ==> IsAnswers(answered[b], schedule, chain, arms, count, b)
    {
      var answers := ArmAnswers(rawByArm[a], failedByArm[a], s.meters[a]);
      RowsAreAnswers(arms, count, schedule, chain, inputs, s, records, a, answers);
      answered := answered + [answers];
    }
    r := Ok(answered);
  }

  /** The arms' meters together hold what all the attempts used, each counted once. */
  function AllUsage(schedule: seq<nat>, chain: Chain, order: seq<Turn>, arms: seq<seq<Query>>): nat
    requires forall k :: 0 <= k < |schedule| ==> schedule[k] < |order|
    requires forall i :: 0 <= i < |order| ==> order[i].arm < |arms| && order[i].query < |arms[order[i].arm]|
  {
    if schedule == [] then 0
    else
      var t := |schedule| - 1;
      var turn := order[schedule[t]];
      AllUsage(schedule[..t], chain, order, arms) + chain(turn.arm, arms[turn.arm][turn.query], t).usage
  }

  ghost function ArmsUsage(schedule: seq<nat>, chain: Chain, order: seq<Turn>, arms: seq<seq<Query>>, n: nat): nat
    requires forall k :: 0 <= k < |schedule| ==> schedule[k] < |order|
    requires Fits(order, arms)
  {
    if n == 0 then 0
    else ArmsUsage(schedule, chain, order, arms, n - 1) + UsageOf(schedule, chain, order, arms, n - 1)
  }

  lemma {:induction false} NoUsage(chain: Chain, order: seq<Turn>, arms: seq<seq<Query>>, n: nat)
    requires Fits(order, arms)
    ensures ArmsUsage([], chain, order, arms, n) == 0
  {
    if n > 0 {
      NoUsage(chain, order, arms, n - 1);
    }
  }

  lemma {:induction false} OneMoreAttempt(schedule: seq<nat>, chain: Chain, order: seq<Turn>, arms: seq<seq<Query>>,
                                          n: nat)
    requires schedule != [] && Fits(order, arms)
    requires forall k :: 0 <= k < |schedule| ==> schedule[k] < |order|
    ensures var t := |schedule| - 1;
            var turn := order[schedule[t]];
            ArmsUsage(schedule, chain, order, arms, n)
            == ArmsUsage(schedule[..t], chain, order, arms, n)
               + if turn.arm < n then chain(turn.arm, arms[turn.arm][turn.query], t).usage else 0
  {
    if n > 0 {
      OneMoreAttempt(schedule, chain, order, arms, n - 1);
    }
  }

  /** No attempt's usage is lost or charged twice: the arms' totals add up to all of it. */
  lemma {:induction false} UsageIsConserved(schedule: seq<nat>, chain: Chain, order: seq<Turn>, arms: seq<seq<Query>>)
    requires Fits(order, arms) && forall k :: 0 <= k < |schedule| ==> schedule[k] < |order|
    ensures ArmsUsage(schedule, chain, order, arms, |arms|) == AllUsage(schedule, chain, order, arms)
  {
    if schedule == [] {
      NoUsage(chain, order, arms, |arms|);
    } else {
      OneMoreAttempt(schedule, chain, order, arms, |arms|);
      UsageIsConserved(schedule[..|schedule| - 1], chain, order, arms);
    }
  }
}
