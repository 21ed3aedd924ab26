// A query's assertion trials: parsing a judge's verdicts, undoing the shuffle, and the
// majorities over the trials.
module AssertionTrials {
  import opened Options
  import opened TrialOrders

  // ----- Parsing a reply

  /** ASSERTION_VERDICTS. */
  datatype Label = Supported | Contradicted | Absent

  /** One entry of the reply: `id` is None when it is no number, `verdict` when it is no label. */
  datatype Entry = NoObject | Entry(id: Option<int>, verdict: Option<Label>)

  datatype Reply = NoVerdicts | Verdicts(entries: seq<Entry>)

  datatype Error =
    | NoList
    | NotAnObject
    | NoNumber
    | OutOfRange(number: int)
    | NoLabel(number: int)
    | LabelledTwice(number: int)
    | Unlabelled(missing: seq<int>)

  type Labels = map<int, Label>

  /** Takes one entry in; the checks run in this order. */
  function Take(labels: Labels, e: Entry, count: nat): Result<Labels, Error> {
    if e.NoObject? then Err(NotAnObject)
    else if e.id.None? then Err(NoNumber)
    else if !(1 <= e.id.value <= count) then Err(OutOfRange(e.id.value))
    else if e.verdict.None? then Err(NoLabel(e.id.value))
    else if e.id.value in labels then Err(LabelledTwice(e.id.value))
    else Ok(labels[e.id.value := e.verdict.value])
  }

  /** Takes the entries in one after another, up to the first error. */
  function TakeAll(entries: seq<Entry>, count: nat): Result<Labels, Error> {
    if entries == [] then Ok(map[])
    else
      match TakeAll(entries[..|entries| - 1], count)
      case Ok(labels) => Take(labels, entries[|entries| - 1], count)
      case Err(error) => Err(error)
  }

  /** The numbers 1..n that have no label. */
  function MissingUpTo(labels: Labels, n: nat): seq<int> {
    if n == 0 then []
    else MissingUpTo(labels, n - 1) + if n in labels then [] else [n]
  }

  function Listed(labels: Labels, n: nat): (listed: seq<Label>)
    requires forall i :: 1 <= i <= n ==> i in labels
    ensures |listed| == n && forall i :: 0 <= i < n ==> listed[i] == labels[i + 1]
  {
    if n == 0 then [] else Listed(labels, n - 1) + [labels[n]]
  }

  /** Every number 1..count is labelled by exactly one entry, and there is no other entry. */
  ghost predicate WellFormed(entries: seq<Entry>, count: nat) {
    && Takeable(entries, count)
    && forall n :: 1 <= n <= count ==> Names(entries, n)
  }

  /** Each entry is an object with a number in range, a verdict, and a number of its own. */
  ghost predicate Takeable(entries: seq<Entry>, count: nat) {
    && (forall e :: e in entries ==> e.Entry? && e.id.Some? && 1 <= e.id.value <= count && e.verdict.Some?)
    && forall i, j :: 0 <= i < j < |entries| ==> IdOf(entries[i]) != IdOf(entries[j])
  }

  function IdOf(e: Entry): Option<int> {
    if e.Entry? then e.id else None
  }

  ghost predicate Names(entries: seq<Entry>, n: int) {
    exists e :: e in entries && IdOf(e) == Some(n)
  }

  /** Some entry gives number `n` this label. */
  ghost predicate Says(entries: seq<Entry>, n: int, given: Label) {
    exists e :: e in entries && e == Entry(Some(n), Some(given))
  }

  /** What a reply is read as: the first entry in error, the numbers left over, or the labels in order. */
  function Parse(reply: Reply, count: nat): Result<seq<Label>, Error> {
    match reply
    case NoVerdicts => Err(NoList)
    case Verdicts(entries) =>
      match TakeAll(entries, count)
      case Err(error) => Err(error)
      case Ok(labels) =>
        NothingMissing(labels, count);
        if MissingUpTo(labels, count) != [] then Err(Unlabelled(MissingUpTo(labels, count)))
        else Ok(Listed(labels, count))
  }

  method ParseVerdicts(reply: Reply, count: nat) returns (r: Result<seq<Label>, Error>)
    ensures r == Parse(reply, count)
  {
    if reply.NoVerdicts? {
      return Err(NoList);
    }
    var entries := reply.entries;
    var labels: Labels := map[];
    for k := 0 to |entries|
      invariant TakeAll(entries[..k], count) == Ok(labels)
    {
      assert entries[..k + 1][..k] == entries[..k];
      var next := Take(labels, entries[k], count);
      if next.Err? {
        ErrorStays(entries, count, k + 1);
        return Err(next.error);
      }
      labels := next.value;
    }
    assert entries[..|entries|] == entries;
    var missing: seq<int> := [];
    for n := 0 to count
      invariant missing == MissingUpTo(labels, n)
    {
      if n + 1 !in labels {
        missing := missing + [n + 1];
      }
    }
    NothingMissing(labels, count);
    if missing != [] {
      return Err(Unlabelled(missing));
    }
    var listed: seq<Label> := [];
    for n := 0 to count
      invariant listed == Listed(labels, n)
    {
      listed := listed + [labels[n + 1]];
    }
    r := Ok(listed);
  }

  /** A reply is read exactly when it is well formed, and then every number gets the label its entry gives. */
  lemma ParsesWellFormed(reply: Reply, count: nat)
    ensures Parse(reply, count).Ok? <==> reply.Verdicts? && WellFormed(reply.entries, count)
    ensures Parse(reply, count).Ok? ==>
              && |Parse(reply, count).value| == count
              && forall i :: 0 <= i < count ==> Says(reply.entries, i + 1, Parse(reply, count).value[i])
  {
    if reply.Verdicts? {
      TakenAre(reply.entries, count);
      if TakeAll(reply.entries, count).Ok? {
        NothingMissing(TakeAll(reply.entries, count).value, count);
      }
    }
  }

  lemma {:induction false} ErrorStays(entries: seq<Entry>, count: nat, k: nat)
    requires k <= |entries| && TakeAll(entries[..k], count).Err?
    ensures TakeAll(entries, count) == TakeAll(entries[..k], count)
    decreases |entries|
  {
    if k == |entries| {
      assert entries[..k] == entries;
    } else {
      var n := |entries| - 1;
      assert entries[..n][..k] == entries[..k];
      ErrorStays(entries[..n], count, k);
    }
  }

  lemma {:induction false} NothingMissing(labels: Labels, n: nat)
    ensures MissingUpTo(labels, n) == [] <==> forall i :: 1 <= i <= n ==> i in labels
  {
    if n > 0 {
      NothingMissing(labels, n - 1);
    }
  }

  /** What the labels hold once every entry is taken in. */
  lemma {:induction false} TakenAre(entries: seq<Entry>, count: nat)
    ensures TakeAll(entries, count).Ok? <==> Takeable(entries, count)
    ensures TakeAll(entries, count).Ok? ==> forall n :: n in TakeAll(entries, count).value <==> Names(entries, n)
    ensures TakeAll(entries, count).Ok? ==>
              forall n :: n in TakeAll(entries, count).value ==> Says(entries, n, TakeAll(entries, count).value[n])
  {
    if entries != [] {
      var k := |entries| - 1;
      var before, last := entries[..k], entries[k];
      assert entries == before + [last];
      TakenAre(before, count);
      TakenOneMore(before, last, count);
    }
  }

  lemma NamesOneMore(before: seq<Entry>, last: Entry, n: int)
    ensures Names(before + [last], n) <==> Names(before, n) || IdOf(last) == Some(n)
  {
    if Names(before, n) {
      var e :| e in before && IdOf(e) == Some(n);
      assert e in before + [last];
    }
    if IdOf(last) == Some(n) {
      assert last in before + [last];
    }
  }

  lemma SaysOneMore(before: seq<Entry>, last: Entry, n: int, l: Label)
    ensures Says(before + [last], n, l) <==> Says(before, n, l) || last == Entry(Some(n), Some(l))
  {
    if Says(before, n, l) {
      var e :| e in before && e == Entry(Some(n), Some(l));
      assert e in before + [last];
    }
    if last == Entry(Some(n), Some(l)) {
      assert last in before + [last];
    }
  }

  lemma TakeableOneMore(before: seq<Entry>, last: Entry, count: nat)
    ensures Takeable(before + [last], count)
            <==> Takeable(before, count) && last.Entry? && last.id.Some? && 1 <= last.id.value <= count
                 && last.verdict.Some? && !Names(before, last.id.value)
  {
    var entries := before + [last];
    if Takeable(entries, count) {
      assert last in entries;
      assert forall e :: e in before ==> e in entries;
      assert forall i :: 0 <= i < |before| ==> entries[i] == before[i];
      assert entries[|before|] == last;
    }
  }

  lemma TakenOneMore(before: seq<Entry>, last: Entry, count: nat)
    requires TakeAll(before, count).Ok? <==> Takeable(before, count)
    requires TakeAll(before, count).Ok? ==> forall n :: n in TakeAll(before, count).value <==> Names(before, n)
    requires TakeAll(before, count).Ok? ==>
               forall n :: n in TakeAll(before, count).value ==> Says(before, n, TakeAll(before, count).value[n])
    ensures TakeAll(before + [last], count).Ok? <==> Takeable(before + [last], count)
    ensures TakeAll(before + [last], count).Ok? ==>
              forall n :: n in TakeAll(before + [last], count).value <==> Names(before + [last], n)
    ensures TakeAll(before + [last], count).Ok? ==>
              forall n :: n in TakeAll(before + [last], count).value ==>
                Says(before + [last], n, TakeAll(before + [last], count).value[n])
  {
    assert (before + [last])[..|before + [last]| - 1] == before;
    TakeableOneMore(before, last, count);
    if TakeAll(before + [last], count).Ok? {
      var labels := TakeAll(before + [last], count).value;
      forall n
        ensures n in labels <==> Names(before + [last], n)
        ensures n in labels ==> Says(before + [last], n, labels[n])
      {
        NamesOneMore(before, last, n);
        if n in labels {
          SaysOneMore(before, last, n, labels[n]);
        }
      }
    }
  }

  /**
   * A reply with an entry in error is read as what is wrong with the first such entry: it is no object,
   * has no number, or one out of range, or no label, or a number labelled before.
   */
  lemma FirstErrorInWords(entries: seq<Entry>, count: nat, k: nat)
    requires k < |entries| && Takeable(entries[..k], count) && !Takeable(entries[..k + 1], count)
    ensures var e := entries[k];
      Parse(Verdicts(entries), count)
      == Err(if !e.Entry? then NotAnObject
             else if e.id.None? then NoNumber
             else if e.id.value < 1 || e.id.value > count then OutOfRange(e.id.value)
             else if e.verdict.None? then NoLabel(e.id.value) else LabelledTwice(e.id.value))
  {
    TakenAre(entries[..k], count);
    TakenAre(entries[..k + 1], count);
    assert entries[..k + 1][..k] == entries[..k];
    ErrorStays(entries, count, k + 1);
  }

  /** A well-formed reply says one thing of each number. */
  lemma SaysOneLabel(entries: seq<Entry>, count: nat, n: int, l: Label, m: Label)
    requires WellFormed(entries, count) && Says(entries, n, l) && Says(entries, n, m)
    ensures l == m
  {
    var d :| d in entries && d == Entry(Some(n), Some(l));
    var e :| e in entries && e == Entry(Some(n), Some(m));
    var i :| 0 <= i < |entries| && entries[i] == d;
    var j :| 0 <= j < |entries| && entries[j] == e;
    assert IdOf(entries[i]) == IdOf(entries[j]);
  }

  // ----- One trial

  /** The texts as numbered in the prompt: number p + 1 is the text at `order[p]`. */
  function Numbered(texts: seq<string>, order: seq<nat>): (shown: seq<string>)
    requires IsOrder(order, |texts|)
    ensures |shown| == |texts| && forall p :: 0 <= p < |texts| ==> shown[p] == texts[order[p]]
  {
    seq(|texts|, p requires 0 <= p < |texts| => texts[order[p]])
  }

  /** `labels` gives each assertion the label of the place it was shown at. */
  ghost predicate Unshuffles(labels: seq<Label>, order: seq<nat>, shown: seq<Label>) {
    && |labels| == |order| == |shown| && IsOrder(order, |order|)
    && forall p :: 0 <= p < |order| ==> labels[order[p]] == shown[p]
  }

  method Trial(texts: seq<string>, order: seq<nat>, judge: seq<string> -> Reply)
      returns (r: Result<seq<Label>, Error>)
    requires IsOrder(order, |texts|)
    ensures var parsed := Parse(judge(Numbered(texts, order)), |texts|);
            if parsed.Ok? then r.Ok? && Unshuffles(r.value, order, parsed.value)
            else r == Err(parsed.error)
  {
    var parsed := ParseVerdicts(judge(Numbered(texts, order)), |texts|);
    ParsesWellFormed(judge(Numbered(texts, order)), |texts|);
    if parsed.Err? {
      return Err(parsed.error);
    }
    var labels := new Label[|texts|](_ => Absent);
    for position := 0 to |texts|
      invariant forall p :: 0 <= p < position ==> labels[order[p]] == parsed.value[p]
    {
      labels[order[position]] := parsed.value[position];
    }
    r := Ok(labels[..]);
  }

  /** The place an assertion is shown at. */
  lemma PlaceOf(order: seq<nat>, i: nat) returns (p: nat)
    requires IsOrder(order, |order|) && i < |order|
    ensures p < |order| && order[p] == i
  {
    OrderShowsAll(order, |order|);
    assert i in order;
    p :| 0 <= p < |order| && order[p] == i;
  }

  /** Every assertion gets a label from exactly one place. */
  lemma UnshuffledOnce(labels: seq<Label>, others: seq<Label>, order: seq<nat>, shown: seq<Label>)
    requires Unshuffles(labels, order, shown) && Unshuffles(others, order, shown)
    ensures labels == others
  {
    forall i | 0 <= i < |order|
      ensures labels[i] == others[i]
    {
      var p := PlaceOf(order, i);
    }
  }

  /** The judge labels each shown statement by its text alone, in a reply that can be read. */
  ghost predicate LabelsByText(judge: seq<string> -> Reply, labelOf: string -> Label) {
    forall shown :: ReadsByText(shown, judge(shown), labelOf)
  }

  ghost predicate ReadsByText(shown: seq<string>, reply: Reply, labelOf: string -> Label) {
    && reply.Verdicts? && WellFormed(reply.entries, |shown|)
    && forall p :: 0 <= p < |shown| ==> Says(reply.entries, p + 1, labelOf(shown[p]))
  }

  lemma ShownLabel(texts: seq<string>, order: seq<nat>, reply: Reply, labelOf: string -> Label, p: nat)
    requires IsOrder(order, |texts|) && p < |texts| && ReadsByText(Numbered(texts, order), reply, labelOf)
    ensures Parse(reply, |texts|).Ok? && |Parse(reply, |texts|).value| == |texts|
    ensures Parse(reply, |texts|).value[p] == labelOf(texts[order[p]])
  {
    ParsesWellFormed(reply, |texts|);
    SaysOneLabel(reply.entries, |texts|, p + 1, Parse(reply, |texts|).value[p], labelOf(Numbered(texts, order)[p]));
  }

  /** For such a judge every order gives the same labels: those of the assertions' own texts. */
  lemma OrderDoesNotMatter(texts: seq<string>, order: seq<nat>, judge: seq<string> -> Reply,
                           labelOf: string -> Label, labels: seq<Label>)
    requires IsOrder(order, |texts|) && LabelsByText(judge, labelOf)
    ensures Parse(judge(Numbered(texts, order)), |texts|).Ok?
    ensures Unshuffles(labels, order, Parse(judge(Numbered(texts, order)), |texts|).value) ==>
              forall i :: 0 <= i < |texts| ==> labels[i] == labelOf(texts[i])
  {
    var reply := judge(Numbered(texts, order));
    assert ReadsByText(Numbered(texts, order), reply, labelOf);
    ParsesWellFormed(reply, |texts|);
    if Unshuffles(labels, order, Parse(reply, |texts|).value) {
      forall i | 0 <= i < |texts|
        ensures labels[i] == labelOf(texts[i])
      {
        var p := PlaceOf(order, i);
        ShownLabel(texts, order, reply, labelOf, p);
      }
    }
  }

  // ----- Majorities over the trials

  datatype Kind = Positive | Negative

  function Votes(trials: seq<seq<Label>>, i: nat, l: Label): nat
    requires forall t :: t in trials ==> i < |t|
  {
    if trials == [] then 0
    else Votes(trials[..|trials| - 1], i, l) + if trials[|trials| - 1][i] == l then 1 else 0
  }

  /** More than PASS_THRESHOLD, one half, of the trials gave assertion `i` the label. */
  predicate Takes(trials: seq<seq<Label>>, i: nat, l: Label)
    requires forall t :: t in trials ==> i < |t|
  {
    2 * Votes(trials, i, l) > |trials|
  }

  /** The three shares of an assertion add up to the whole. */
  lemma {:induction false} VotesAddUp(trials: seq<seq<Label>>, i: nat)
    requires forall t :: t in trials ==> i < |t|
    ensures Votes(trials, i, Supported) + Votes(trials, i, Contradicted) + Votes(trials, i, Absent) == |trials|
  {
    if trials != [] {
      VotesAddUp(trials[..|trials| - 1], i);
    }
  }

  /** No assertion takes two labels. */
  lemma AtMostOneLabel(trials: seq<seq<Label>>, i: nat, l: Label, m: Label)
    requires forall t :: t in trials ==> i < |t|
    requires Takes(trials, i, l) && Takes(trials, i, m)
    ensures l == m
  {
    VotesAddUp(trials, i);
  }

  /** How many of the first `n` assertions are of the kind. */
  function OfKind(kinds: seq<Kind>, kind: Kind, n: nat): nat
    requires n <= |kinds|
  {
    if n == 0 then 0 else OfKind(kinds, kind, n - 1) + if kinds[n - 1] == kind then 1 else 0
  }

  /** How many of those take the label. */
  function Taking(kinds: seq<Kind>, kind: Kind, trials: seq<seq<Label>>, l: Label, n: nat): nat
    requires n <= |kinds| && forall t :: t in trials ==> |t| == |kinds|
  {
    if n == 0 then 0
    else Taking(kinds, kind, trials, l, n - 1) + if kinds[n - 1] == kind && Takes(trials, n - 1, l) then 1 else 0
  }

  /** A rate: how many of the group take the label. */
  datatype Rate = Rate(part: nat, whole: nat)

  /** None without an assertion of the kind. */
  function RateOf(kinds: seq<Kind>, kind: Kind, trials: seq<seq<Label>>, l: Label): Option<Rate>
    requires forall t :: t in trials ==> |t| == |kinds|
  {
    if OfKind(kinds, kind, |kinds|) == 0 then None
    else Some(Rate(Taking(kinds, kind, trials, l, |kinds|), OfKind(kinds, kind, |kinds|)))
  }

  ghost function VotersOf(trials: seq<seq<Label>>, i: nat, l: Label): set<nat>
    requires forall t :: t in trials ==> i < |t|
  {
    set k: nat | k < |trials| && trials[k][i] == l
  }

  lemma VotersNext(trials: seq<seq<Label>>, last: seq<Label>, i: nat, l: Label)
    requires (forall t :: t in trials ==> i < |t|) && i < |last|
    ensures VotersOf(trials + [last], i, l) == VotersOf(trials, i, l) + if last[i] == l then {|trials|} else {}
  {
    var more := trials + [last];
    forall k: nat | k < |trials|
      ensures more[k] == trials[k]
    {
    }
  }

  lemma {:induction false} VotesAreVoters(trials: seq<seq<Label>>, i: nat, l: Label)
    requires forall t :: t in trials ==> i < |t|
    ensures Votes(trials, i, l) == |VotersOf(trials, i, l)|
  {
    if trials == [] {
      assert VotersOf(trials, i, l) == {};
    } else {
      var n := |trials| - 1;
      VotesAreVoters(trials[..n], i, l);
      VotersNext(trials[..n], trials[n], i, l);
      assert trials[..n] + [trials[n]] == trials;
    }
  }

  /** The first assertions of the kind, and those of them that more than half the trials give the label. */
  ghost function OfTheKind(kinds: seq<Kind>, kind: Kind, n: nat): set<nat>
    requires n <= |kinds|
  {
    set i: nat | i < n && kinds[i] == kind
  }

  ghost function MostlyGiven(kinds: seq<Kind>, kind: Kind, trials: seq<seq<Label>>, l: Label, n: nat): set<nat>
    requires n <= |kinds| && forall t :: t in trials ==> |t| == |kinds|
  {
    set i: nat | i < n && kinds[i] == kind && |VotersOf(trials, i, l)| + |VotersOf(trials, i, l)| > |trials|
  }

  lemma {:induction false} CountOfKind(kinds: seq<Kind>, kind: Kind, n: nat)
    requires n <= |kinds|
    ensures OfKind(kinds, kind, n) == |OfTheKind(kinds, kind, n)|
  {
    if n == 0 {
      assert OfTheKind(kinds, kind, n) == {};
    } else {
      CountOfKind(kinds, kind, n - 1);
      assert OfTheKind(kinds, kind, n) == OfTheKind(kinds, kind, n - 1) + if kinds[n - 1] == kind then {n - 1} else {};
    }
  }

  lemma MostlyGivenNext(kinds: seq<Kind>, kind: Kind, trials: seq<seq<Label>>, l: Label, n: nat)
    requires n < |kinds| && forall t :: t in trials ==> |t| == |kinds|
    ensures MostlyGiven(kinds, kind, trials, l, n + 1)
         == MostlyGiven(kinds, kind, trials, l, n) + if kinds[n] == kind && Takes(trials, n, l) then {n} else {}
  {
    VotesAreVoters(trials, n, l);
  }

  lemma {:induction false} CountMostlyGiven(kinds: seq<Kind>, kind: Kind, trials: seq<seq<Label>>, l: Label, n: nat)
    requires n <= |kinds| && forall t :: t in trials ==> |t| == |kinds|
    ensures Taking(kinds, kind, trials, l, n) == |MostlyGiven(kinds, kind, trials, l, n)|
  {
    if n == 0 {
      assert MostlyGiven(kinds, kind, trials, l, n) == {};
    } else {
      CountMostlyGiven(kinds, kind, trials, l, n - 1);
      MostlyGivenNext(kinds, kind, trials, l, n - 1);
    }
  }

  /** A rate is over the assertions of the kind, and counts those that more than half the trials give the label. */
  lemma RateIsMajorities(kinds: seq<Kind>, kind: Kind, trials: seq<seq<Label>>, l: Label)
    requires forall t :: t in trials ==> |t| == |kinds|
    ensures var whole, part := OfTheKind(kinds, kind, |kinds|), MostlyGiven(kinds, kind, trials, l, |kinds|);
      RateOf(kinds, kind, trials, l) == if whole == {} then None else Some(Rate(|part|, |whole|))
  {
    CountOfKind(kinds, kind, |kinds|);
    CountMostlyGiven(kinds, kind, trials, l, |kinds|);
  }

  lemma {:induction false} TakingsFit(kinds: seq<Kind>, kind: Kind, trials: seq<seq<Label>>, l: Label, m: Label, n: nat)
    requires n <= |kinds| && (forall t :: t in trials ==> |t| == |kinds|) && l != m
    ensures Taking(kinds, kind, trials, l, n) + Taking(kinds, kind, trials, m, n) <= OfKind(kinds, kind, n)
  {
    if n > 0 {
      TakingsFit(kinds, kind, trials, l, m, n - 1);
      if Takes(trials, n - 1, l) && Takes(trials, n - 1, m) {
        AtMostOneLabel(trials, n - 1, l, m);
      }
    }
  }

  /** Assertion recall and contradiction rate are over the same assertions, and together at most 1. */
  lemma RecallPlusContradiction(kinds: seq<Kind>, trials: seq<seq<Label>>)
    requires forall t :: t in trials ==> |t| == |kinds|
    ensures var recall := RateOf(kinds, Positive, trials, Supported);
            var contradiction := RateOf(kinds, Positive, trials, Contradicted);
            && (recall.Some? <==> contradiction.Some?)
            && (recall.Some? ==> recall.value.whole == contradiction.value.whole > 0
                                 && recall.value.part + contradiction.value.part <= recall.value.whole)
  {
    TakingsFit(kinds, Positive, trials, Supported, Contradicted, |kinds|);
  }

  /** Trials that agree give an assertion the label they agree on, and no other. */
  lemma {:induction false} AgreeingTrials(trials: seq<seq<Label>>, i: nat, given: Label, l: Label)
    requires forall t :: t in trials ==> i < |t|
    requires forall k :: 0 <= k < |trials| ==> trials[k][i] == given
    ensures Votes(trials, i, l) == if l == given then |trials| else 0
  {
    if trials != [] {
      AgreeingTrials(trials[..|trials| - 1], i, given, l);
    }
  }

  /**
   * A judge that goes by the text alone decides every assertion by its text, however many trials
   * are run and whatever orders they are shown in.
   */
  lemma TextDecides(texts: seq<string>, orders: seq<seq<nat>>, judge: seq<string> -> Reply,
                    labelOf: string -> Label, trials: seq<seq<Label>>, i: nat, l: Label)
    requires |trials| == |orders| > 0 && LabelsByText(judge, labelOf) && i < |texts|
    requires forall k :: 0 <= k < |orders| ==> IsOrder(orders[k], |texts|)
    requires forall k :: 0 <= k < |orders| ==>
               Parse(judge(Numbered(texts, orders[k])), |texts|).Ok?
               && Unshuffles(trials[k], orders[k], Parse(judge(Numbered(texts, orders[k])), |texts|).value)
    ensures forall t :: t in trials ==> |t| == |texts|
    ensures Takes(trials, i, l) <==> l == labelOf(texts[i])
  {
    forall k | 0 <= k < |trials|
      ensures |trials[k]| == |texts| && trials[k][i] == labelOf(texts[i])
    {
      OrderDoesNotMatter(texts, orders[k], judge, labelOf, trials[k]);
    }
    AgreeingTrials(trials, i, labelOf(texts[i]), l);
  }
}
