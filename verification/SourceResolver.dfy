// The negative-caching resolver of text-unit ids: the cache it fills from batch fetches,
// and why the cache agrees with the store under every interleaving of its callers.
module SourceResolver {
  import opened Options

  type UnitId = string
  type Suffix = Option<string>
  type Doc = (Suffix, UnitId)

  /** A file name is never blank. */
  type FileName = s: string | s != "" witness "f"

  type Cache = map<Doc, Option<FileName>>

  /** A document the store returned: its id, and its file name if it has one. */
  datatype Hit = Hit(id: UnitId, name: Option<FileName>)

  /** What one fetch gave: the batch asked for, the names found, and whether any document came back. */
  datatype Batch = Batch(ids: seq<UnitId>, found: map<UnitId, FileName>, answered: bool)

  // ----- One caller's segments, between its awaits

  /** The ids without blanks and repeats, in order. */
  function Wanted(ids: seq<UnitId>): seq<UnitId> {
    if ids == [] then [] else
      var n := |ids| - 1;
      var rest := Wanted(ids[..n]);
      if ids[n] == "" || ids[n] in rest then rest else rest + [ids[n]]
  }

  /** A call wants every id that is not blank, each once, in the order first given, and nothing else. */
  lemma {:induction false} WantedIds(ids: seq<UnitId>)
    ensures forall id :: id in Wanted(ids) <==> id in ids && id != ""
    ensures forall i, j :: 0 <= i < j < |Wanted(ids)| ==> Wanted(ids)[i] != Wanted(ids)[j]
  {
    if ids != [] {
      var n := |ids| - 1;
      WantedIds(ids[..n]);
      assert ids == ids[..n] + [ids[n]];
    }
  }

  /** Ids given after others are wanted after them. */
  lemma {:induction false} WantedInOrder(ids: seq<UnitId>, more: seq<UnitId>)
    ensures Wanted(ids) <= Wanted(ids + more)
  {
    if more == [] {
      assert ids + more == ids;
    } else {
      var n := |more| - 1;
      WantedInOrder(ids, more[..n]);
      assert (ids + more)[..|ids + more| - 1] == ids + more[..n];
    }
  }

  function Missing(wanted: seq<UnitId>, suffix: Suffix, cache: Cache): seq<UnitId> {
    if wanted == [] then [] else
      var n := |wanted| - 1;
      Missing(wanted[..n], suffix, cache) + if (suffix, wanted[n]) in cache then [] else [wanted[n]]
  }

  function FoundIn(hits: seq<Hit>): map<UnitId, FileName> {
    if hits == [] then map[] else
      var n := |hits| - 1;
      var found := FoundIn(hits[..n]);
      if hits[n].name.Some? then found[hits[n].id := hits[n].name.value] else found
  }

  function NameIn(found: map<UnitId, FileName>, id: UnitId): Option<FileName> {
    if id in found then Some(found[id]) else None
  }

  /** A batch's misses are cached only when it answered and fits the limit read after the fetches. */
  predicate Cacheable(b: Batch, size: nat, id: UnitId) {
    (b.answered && |b.ids| <= size) || id in b.found
  }

  /** The cache after the first n ids of a batch. */
  function BatchCached(cache: Cache, suffix: Suffix, b: Batch, size: nat, n: nat): Cache
    requires n <= |b.ids|
  {
    if n == 0 then cache else
      var before := BatchCached(cache, suffix, b, size, n - 1);
      var id := b.ids[n - 1];
      if Cacheable(b, size, id) then before[(suffix, id) := NameIn(b.found, id)] else before
  }

  function Filled(cache: Cache, suffix: Suffix, fetched: seq<Batch>, size: nat): Cache {
    if fetched == [] then cache else
      var n := |fetched| - 1;
      BatchCached(Filled(cache, suffix, fetched[..n], size), suffix, fetched[n], size, |fetched[n].ids|)
  }

  function ResultOf(wanted: seq<UnitId>, suffix: Suffix, cache: Cache): map<UnitId, FileName> {
    map id | id in wanted && (suffix, id) in cache && cache[(suffix, id)].Some? :: cache[(suffix, id)].value
  }

  /** The resolver's state and the segments of a call that read or write it. */
  class Resolver {
    var cache: Cache

    constructor ()
      ensures cache == map[]
    {
      cache := map[];
    }

    /** The start of a call: what it wants, and what it must fetch. */
    method Begin(ids: seq<UnitId>, suffix: Suffix) returns (wanted: seq<UnitId>, missing: seq<UnitId>)
      ensures wanted == Wanted(ids)
      ensures missing == Missing(wanted, suffix, cache)
    {
      wanted := [];
      for i := 0 to |ids|
        invariant wanted == Wanted(ids[..i])
      {
        if ids[i] != "" && ids[i] !in wanted {
          wanted := wanted + [ids[i]];
        }
        assert ids[..i + 1][..i] == ids[..i];
      }
      assert ids[..|ids|] == ids;
      missing := [];
      for i := 0 to |wanted|
        invariant missing == Missing(wanted[..i], suffix, cache)
      {
        if (suffix, wanted[i]) !in cache {
          missing := missing + [wanted[i]];
        }
        assert wanted[..i + 1][..i] == wanted[..i];
      }
      assert wanted[..|wanted|] == wanted;
    }

    /** What a fetch of `batch` reports of its hits. */
    method Collect(batch: seq<UnitId>, hits: seq<Hit>) returns (b: Batch)
      ensures b == Batch(batch, FoundIn(hits), hits != [])
    {
      var found: map<UnitId, FileName> := map[];
      for i := 0 to |hits|
        invariant found == FoundIn(hits[..i])
      {
        if hits[i].name.Some? {
          found := found[hits[i].id := hits[i].name.value];
        }
        assert hits[..i + 1][..i] == hits[..i];
      }
      assert hits[..|hits|] == hits;
      b := Batch(batch, found, hits != []);
    }

    /** The end of a call, once `size` is the limit read after its fetches: fill the cache and answer. */
    method Finish(suffix: Suffix, wanted: seq<UnitId>, fetched: seq<Batch>, size: nat)
      returns (result: map<UnitId, FileName>)
      modifies this
      ensures cache == Filled(old(cache), suffix, fetched, size)
      ensures result == ResultOf(wanted, suffix, cache)
    {
      for k := 0 to |fetched|
        invariant cache == Filled(old(cache), suffix, fetched[..k], size)
      {
        var b := fetched[k];
        var fits := b.answered && |b.ids| <= size;
        ghost var start := cache;
        for i := 0 to |b.ids|
          invariant cache == BatchCached(start, suffix, b, size, i)
        {
          if fits || b.ids[i] in b.found {
            cache := cache[(suffix, b.ids[i]) := NameIn(b.found, b.ids[i])];
          }
        }
        assert fetched[..k + 1][..k] == fetched[..k];
      }
      assert fetched[..|fetched|] == fetched;
      result := ResultOf(wanted, suffix, cache);
    }
  }

  // ----- Many callers over one store

  /** Where a call stands between two of its awaits. */
  datatype Phase =
    | Sizing(missing: seq<UnitId>)
    | Fetching(missing: seq<UnitId>, size: nat, start: nat, fetched: seq<Batch>)
    | Filling(fetched: seq<Batch>, size: nat)
    | Done(result: map<UnitId, FileName>)

  datatype Call = Call(suffix: Suffix, wanted: seq<UnitId>, phase: Phase)

  /** The store holds documents, with or without a file name; `limit` is the id batch size in force. */
  datatype State = State(store: map<Doc, Option<FileName>>, limit: nat, cache: Cache, calls: map<nat, Call>)

  datatype Event =
    | Start(call: nat, ids: seq<UnitId>, suffix: Suffix)
    | ReadSize(call: nat)
    | Fetch(call: nat, hits: seq<Hit>)
    | ReadSizeAgain(call: nat)
    | Finish(call: nat)
    | SetLimit(limit: nat)

  /** The file name the store has for a document. */
  function NameOf(store: map<Doc, Option<FileName>>, doc: Doc): Option<FileName> {
    if doc in store then store[doc] else None
  }

  function BatchAt(missing: seq<UnitId>, size: nat, start: nat): seq<UnitId>
    requires start < |missing|
  {
    missing[start..if start + size < |missing| then start + size else |missing|]
  }

  /**
   * The hits a fetch may give: documents of the batch as the store has them. None at all
   * when the request failed; some cut when the batch exceeds the limit; all otherwise.
   */
  ghost predicate CanAnswer(s: State, suffix: Suffix, batch: seq<UnitId>, hits: seq<Hit>) {
    && (forall h :: h in hits ==> h.id in batch && (suffix, h.id) in s.store && h.name == s.store[(suffix, h.id)])
    && (hits != [] && |batch| <= s.limit ==>
          forall id :: id in batch && (suffix, id) in s.store ==> Hit(id, s.store[(suffix, id)]) in hits)
  }

  /** An event can happen in a state. */
  ghost predicate Enabled(s: State, e: Event) {
    match e
    case Start(c, ids, suffix) => c !in s.calls
    case ReadSize(c) => c in s.calls && s.calls[c].phase.Sizing? && s.limit > 0
    case Fetch(c, hits) =>
      c in s.calls && s.calls[c].phase.Fetching? &&
      var p := s.calls[c].phase;
      p.start < |p.missing| && CanAnswer(s, s.calls[c].suffix, BatchAt(p.missing, p.size, p.start), hits)
    case ReadSizeAgain(c) =>
      c in s.calls && s.calls[c].phase.Fetching? && s.calls[c].phase.start >= |s.calls[c].phase.missing|
    case Finish(c) => c in s.calls && s.calls[c].phase.Filling?
    case SetLimit(n) => true
  }

  function SetPhase(s: State, c: nat, phase: Phase): State
    requires c in s.calls
  {
    s.(calls := s.calls[c := s.calls[c].(phase := phase)])
  }

  ghost function Next(s: State, e: Event): State
    requires Enabled(s, e)
  {
    match e
    case Start(c, ids, suffix) =>
      var wanted := Wanted(ids);
      var missing := Missing(wanted, suffix, s.cache);
      var phase := if missing == [] then Done(ResultOf(wanted, suffix, s.cache)) else Sizing(missing);
      s.(calls := s.calls[c := Call(suffix, wanted, phase)])
    case ReadSize(c) => SetPhase(s, c, Fetching(s.calls[c].phase.missing, s.limit, 0, []))
    case Fetch(c, hits) =>
      var p := s.calls[c].phase;
      var batch := Batch(BatchAt(p.missing, p.size, p.start), FoundIn(hits), hits != []);
      SetPhase(s, c, Fetching(p.missing, p.size, p.start + p.size, p.fetched + [batch]))
    case ReadSizeAgain(c) => SetPhase(s, c, Filling(s.calls[c].phase.fetched, s.limit))
    case Finish(c) =>
      var call := s.calls[c];
      var cache := Filled(s.cache, call.suffix, call.phase.fetched, call.phase.size);
      SetPhase(s.(cache := cache), c, Done(ResultOf(call.wanted, call.suffix, cache)))
    case SetLimit(n) => s.(limit := n)
  }

  /** A run, from an empty cache; the store is fixed and the limit may change at any time. */
  ghost predicate IsRun(states: seq<State>, events: seq<Event>) {
    && |states| == |events| + 1
    && states[0].cache == map[] && states[0].calls == map[]
    && forall i :: 0 <= i < |events| ==> Enabled(states[i], events[i]) && states[i + 1] == Next(states[i], events[i])
  }

  // ----- What holds whatever happens to the limit

  /** A cached name is the store's. */
  ghost predicate NamesAgree(s: State) {
    forall doc :: doc in s.cache && s.cache[doc].Some? ==> s.cache[doc] == NameOf(s.store, doc)
  }

  ghost predicate FoundAgrees(s: State, suffix: Suffix, b: Batch) {
    forall id :: id in b.found ==> id in b.ids && NameOf(s.store, (suffix, id)) == Some(b.found[id])
  }

  ghost predicate AllFoundAgree(s: State, suffix: Suffix, fetched: seq<Batch>) {
    forall b :: b in fetched ==> FoundAgrees(s, suffix, b)
  }

  /** Every wanted id is cached or was missing when the call began. */
  ghost predicate Covered(s: State, call: Call, missing: seq<UnitId>) {
    forall id :: id in call.wanted ==> (call.suffix, id) in s.cache || id in missing
  }

  /** The ids before `start` are in the batches fetched. */
  ghost predicate Asked(missing: seq<UnitId>, start: nat, fetched: seq<Batch>) {
    forall i :: 0 <= i < |missing| && i < start ==> AskedFor(missing[i], fetched)
  }

  ghost predicate AskedFor(id: UnitId, fetched: seq<Batch>) {
    exists b :: b in fetched && id in b.ids
  }

  /** What the store's names for the wanted ids are. */
  ghost function TrueNames(s: State, call: Call): map<UnitId, FileName> {
    map id | id in call.wanted && NameOf(s.store, (call.suffix, id)).Some? :: NameOf(s.store, (call.suffix, id)).value
  }

  ghost predicate CallAgrees(s: State, call: Call) {
    match call.phase
    case Sizing(missing) => Covered(s, call, missing)
    case Fetching(missing, size, start, fetched) =>
      size > 0 && Covered(s, call, missing) && Asked(missing, start, fetched) && AllFoundAgree(s, call.suffix, fetched)
    case Filling(fetched, size) =>
      && AllFoundAgree(s, call.suffix, fetched)
      && forall id :: id in call.wanted ==> (call.suffix, id) in s.cache || AskedFor(id, fetched)
    case Done(result) =>
      forall id :: id in result ==> id in call.wanted && NameOf(s.store, (call.suffix, id)) == Some(result[id])
  }

  ghost predicate Inv(s: State) {
    NamesAgree(s) && forall c :: c in s.calls ==> CallAgrees(s, s.calls[c])
  }

  lemma {:induction false} FoundInHits(hits: seq<Hit>)
    ensures forall id :: id in FoundIn(hits) ==> Hit(id, Some(FoundIn(hits)[id])) in hits
    ensures forall h :: h in hits && h.name.Some? ==> h.id in FoundIn(hits)
  {
    if hits != [] {
      FoundInHits(hits[..|hits| - 1]);
    }
  }

  lemma {:induction false} BatchCachedAgrees(s: State, suffix: Suffix, b: Batch, size: nat, n: nat, cache: Cache)
    requires n <= |b.ids| && FoundAgrees(s, suffix, b) && NamesAgree(s.(cache := cache))
    ensures var after := BatchCached(cache, suffix, b, size, n);
      && NamesAgree(s.(cache := after)) && cache.Keys <= after.Keys
      && forall i :: 0 <= i < n && Cacheable(b, size, b.ids[i]) ==> (suffix, b.ids[i]) in after
  {
    if n > 0 {
      BatchCachedAgrees(s, suffix, b, size, n - 1, cache);
    }
  }

  lemma {:induction false} FilledAgrees(s: State, suffix: Suffix, fetched: seq<Batch>, size: nat)
    requires NamesAgree(s) && AllFoundAgree(s, suffix, fetched)
    ensures var after := Filled(s.cache, suffix, fetched, size);
      && NamesAgree(s.(cache := after)) && s.cache.Keys <= after.Keys
      && forall b, id :: b in fetched && id in b.ids && Cacheable(b, size, id) ==> (suffix, id) in after
  {
    if fetched != [] {
      var n := |fetched| - 1;
      FilledAgrees(s, suffix, fetched[..n], size);
      BatchCachedAgrees(s, suffix, fetched[n], size, |fetched[n].ids|, Filled(s.cache, suffix, fetched[..n], size));
      assert fetched == fetched[..n] + [fetched[n]];
    }
  }

  lemma {:induction false} MissingCovers(wanted: seq<UnitId>, suffix: Suffix, cache: Cache)
    ensures forall id :: id in wanted ==> (suffix, id) in cache || id in Missing(wanted, suffix, cache)
  {
    if wanted != [] {
      MissingCovers(wanted[..|wanted| - 1], suffix, cache);
    }
  }

  /** Every step keeps the invariant. */
  lemma StepKeepsInv(s: State, e: Event)
    requires Inv(s) && Enabled(s, e)
    ensures Inv(Next(s, e))
  {
    var s' := Next(s, e);
    match e {
      case Start(c, ids, suffix) =>
        MissingCovers(Wanted(ids), suffix, s.cache);
      case ReadSize(c) =>
      case Fetch(c, hits) =>
        FetchStep(s, c, hits);
      case ReadSizeAgain(c) =>
        CoveredByFetches(s, s.calls[c]);
      case Finish(c) =>
        var call := s.calls[c];
        FilledAgrees(s, call.suffix, call.phase.fetched, call.phase.size);
      case SetLimit(n) =>
    }
    forall c | c in s'.calls
      ensures CallAgrees(s', s'.calls[c])
    {
      if c in s.calls && s.calls[c] == s'.calls[c] {
        OthersUntouched(s, s', s.calls[c]);
      }
    }
  }

  /** A call keeps agreeing while others move: the store is fixed and the cache only grows. */
  lemma OthersUntouched(s: State, s': State, call: Call)
    requires CallAgrees(s, call)
    requires s'.store == s.store && s.cache.Keys <= s'.cache.Keys
    ensures CallAgrees(s', call)
  {
  }

  lemma FetchAsks(missing: seq<UnitId>, size: nat, start: nat, fetched: seq<Batch>, batch: Batch)
    requires size > 0 && start < |missing| && Asked(missing, start, fetched)
    requires batch.ids == BatchAt(missing, size, start)
    ensures Asked(missing, start + size, fetched + [batch])
  {
    forall i | 0 <= i < |missing| && i < start + size
      ensures AskedFor(missing[i], fetched + [batch])
    {
      if i < start {
        assert AskedFor(missing[i], fetched);
        var b :| b in fetched && missing[i] in b.ids;
        assert b in fetched + [batch];
      } else {
        assert missing[i] == batch.ids[i - start];
        assert batch in fetched + [batch];
      }
    }
  }

  lemma FetchStep(s: State, c: nat, hits: seq<Hit>)
    requires Inv(s) && Enabled(s, Fetch(c, hits))
    ensures CallAgrees(Next(s, Fetch(c, hits)), Next(s, Fetch(c, hits)).calls[c])
  {
    var p := s.calls[c].phase;
    FoundInHits(hits);
    assert CallAgrees(s, s.calls[c]);
    FetchAsks(p.missing, p.size, p.start, p.fetched, BatchOf(s, Fetch(c, hits)));
  }

  lemma CoveredByFetches(s: State, call: Call)
    requires CallAgrees(s, call) && call.phase.Fetching? && call.phase.start >= |call.phase.missing|
    ensures forall id :: id in call.wanted ==>
      (call.suffix, id) in s.cache || AskedFor(id, call.phase.fetched)
  {
    forall id | id in call.wanted && (call.suffix, id) !in s.cache
      ensures AskedFor(id, call.phase.fetched)
    {
      assert id in call.phase.missing;
    }
  }

  /** In every state of every run a cached name is the store's, and no call holds a wrong name. */
  lemma {:induction false} NamesAlwaysAgree(states: seq<State>, events: seq<Event>, k: nat)
    requires IsRun(states, events) && k < |states|
    ensures Inv(states[k])
  {
    if k > 0 {
      NamesAlwaysAgree(states, events, k - 1);
      StepKeepsInv(states[k - 1], events[k - 1]);
    }
  }

  // ----- Where a cached absence comes from

  /** What a fetch makes of its hits. */
  ghost function BatchOf(s: State, e: Event): Batch
    requires e.Fetch? && Enabled(s, e)
  {
    var p := s.calls[e.call].phase;
    Batch(BatchAt(p.missing, p.size, p.start), FoundIn(e.hits), e.hits != [])
  }

  ghost predicate IsFetch(states: seq<State>, events: seq<Event>, j: nat) {
    j < |events| < |states| && events[j].Fetch? && Enabled(states[j], events[j])
  }

  /** The batches a call holds. */
  function Held(call: Call): seq<Batch> {
    match call.phase
    case Fetching(_, _, _, fetched) => fetched
    case Filling(fetched, _) => fetched
    case _ => []
  }

  lemma HeldBefore(s: State, e: Event, c: nat, b: Batch)
    requires Enabled(s, e) && c in Next(s, e).calls && b in Held(Next(s, e).calls[c])
    ensures c in s.calls && s.calls[c].suffix == Next(s, e).calls[c].suffix
    ensures b in Held(s.calls[c]) || (e.Fetch? && e.call == c && BatchOf(s, e) == b)
  {
  }

  /** A call that holds a batch fetched it. */
  lemma {:induction false} WhereFetched(states: seq<State>, events: seq<Event>, k: nat, c: nat, b: Batch) returns (j: nat)
    requires IsRun(states, events) && k < |states| && c in states[k].calls && b in Held(states[k].calls[c])
    ensures j < k && IsFetch(states, events, j) && events[j].call == c && BatchOf(states[j], events[j]) == b
    ensures states[j].calls[c].suffix == states[k].calls[c].suffix
  {
    HeldBefore(states[k - 1], events[k - 1], c, b);
    if b in Held(states[k - 1].calls[c]) {
      j := WhereFetched(states, events, k - 1, c, b);
    } else {
      j := k - 1;
    }
  }

  /** A call that fills the cache has read the limit again, with the batches it holds. */
  lemma {:induction false} WhereReadAgain(states: seq<State>, events: seq<Event>, k: nat, c: nat) returns (i: nat)
    requires IsRun(states, events) && k < |states| && c in states[k].calls && states[k].calls[c].phase.Filling?
    ensures i < k && i < |events| && events[i] == ReadSizeAgain(c) && c in states[i].calls
    ensures states[i].limit == states[k].calls[c].phase.size && Held(states[i].calls[c]) == Held(states[k].calls[c])
    ensures states[i].calls[c].suffix == states[k].calls[c].suffix
  {
    var before, e := states[k - 1], events[k - 1];
    assert states[k] == Next(before, e);
    if e == ReadSizeAgain(c) {
      i := k - 1;
    } else {
      i := WhereReadAgain(states, events, k - 1, c);
    }
  }

  lemma {:induction false} BatchCachedNone(cache: Cache, suffix: Suffix, b: Batch, size: nat, n: nat, doc: Doc)
    requires n <= |b.ids| && doc in BatchCached(cache, suffix, b, size, n)
             && BatchCached(cache, suffix, b, size, n)[doc] == None
    ensures (doc in cache && cache[doc] == None) || LeftOut(suffix, b, size, doc)
  {
    if n > 0 {
      var before := BatchCached(cache, suffix, b, size, n - 1);
      if doc in before && before[doc] == None {
        BatchCachedNone(cache, suffix, b, size, n - 1, doc);
      }
    }
  }

  /** The batch answered, was taken to fit, and holds the document without a name for it. */
  predicate LeftOut(suffix: Suffix, b: Batch, size: nat, doc: Doc) {
    doc.0 == suffix && doc.1 in b.ids && b.answered && |b.ids| <= size && doc.1 !in b.found
  }

  lemma {:induction false} FilledNone(cache: Cache, suffix: Suffix, fetched: seq<Batch>, size: nat, doc: Doc)
    requires doc in Filled(cache, suffix, fetched, size) && Filled(cache, suffix, fetched, size)[doc] == None
    ensures (doc in cache && cache[doc] == None) || exists b :: b in fetched && LeftOut(suffix, b, size, doc)
  {
    if fetched != [] {
      var n := |fetched| - 1;
      var before := Filled(cache, suffix, fetched[..n], size);
      BatchCachedNone(before, suffix, fetched[n], size, |fetched[n].ids|, doc);
      if doc in before && before[doc] == None {
        FilledNone(cache, suffix, fetched[..n], size, doc);
      }
    }
  }

  /** The fetch at j asked for the document. */
  ghost predicate AsksAt(states: seq<State>, events: seq<Event>, j: nat, doc: Doc) {
    && IsFetch(states, events, j) && states[j].calls[events[j].call].suffix == doc.0
    && doc.1 in BatchOf(states[j], events[j]).ids
  }

  /** The batch fetched at j answered, and its call read at i a limit it fits. */
  ghost predicate TakenAsFit(states: seq<State>, events: seq<Event>, j: nat, i: nat) {
    && IsFetch(states, events, j) && events[j].hits != []
    && j < i < |events| && events[i] == ReadSizeAgain(events[j].call)
    && |BatchOf(states[j], events[j]).ids| <= states[i].limit
  }

  /** But the limit was lower when it was fetched: its hits may have been cut. */
  ghost predicate Raised(states: seq<State>, events: seq<Event>, j: nat, i: nat) {
    TakenAsFit(states, events, j, i) && states[j].limit < |BatchOf(states[j], events[j]).ids|
  }

  /** A cached absence comes from an answered batch, taken as fit, whose hits did not name the document. */
  lemma {:induction false} WhyAbsent(states: seq<State>, events: seq<Event>, k: nat, doc: Doc) returns (j: nat, i: nat)
    requires IsRun(states, events) && k < |states| && doc in states[k].cache && states[k].cache[doc] == None
    ensures i < k && AsksAt(states, events, j, doc) && TakenAsFit(states, events, j, i)
    ensures doc.1 !in BatchOf(states[j], events[j]).found
  {
    var before, e := states[k - 1], events[k - 1];
    assert states[k] == Next(before, e);
    if doc in before.cache && before.cache[doc] == None {
      j, i := WhyAbsent(states, events, k - 1, doc);
    } else {
      var call := before.calls[e.call];
      var size := call.phase.size;
      FilledNone(before.cache, call.suffix, call.phase.fetched, size, doc);
      var b :| b in call.phase.fetched && LeftOut(call.suffix, b, size, doc);
      i := WhereReadAgain(states, events, k - 1, e.call);
      j := WhereFetched(states, events, i, e.call, b);
    }
  }

  // ----- When the cache is right

  /** A cached name is the store's; a cached None is a document the store has no file name for. */
  ghost predicate CacheAgrees(s: State) {
    forall doc :: doc in s.cache ==> s.cache[doc] == NameOf(s.store, doc)
  }

  lemma {:induction false} StoreIsFixed(states: seq<State>, events: seq<Event>, k: nat)
    requires IsRun(states, events) && k < |states|
    ensures states[k].store == states[0].store
  {
    if k > 0 {
      StoreIsFixed(states, events, k - 1);
    }
  }

  /**
   * In every state of every run the cache agrees with the store and no call holds a wrong name,
   * as long as no answered batch was cut by a limit that was raised before its call read it again.
   */
  lemma CacheAlwaysAgrees(states: seq<State>, events: seq<Event>, k: nat)
    requires IsRun(states, events) && k < |states|
    requires forall j, i :: 0 <= j < i < k ==> !Raised(states, events, j, i)
    ensures Inv(states[k]) && CacheAgrees(states[k])
  {
    NamesAlwaysAgree(states, events, k);
    forall doc | doc in states[k].cache && states[k].cache[doc] == None
      ensures NameOf(states[k].store, doc) == None
    {
      var j, i := WhyAbsent(states, events, k, doc);
      assert !Raised(states, events, j, i);
      StoreIsFixed(states, events, j);
      StoreIsFixed(states, events, k);
      FoundInHits(events[j].hits);
    }
  }

  ghost predicate StepsOver(states: seq<State>, events: seq<Event>, store: map<Doc, Option<FileName>>, i: nat)
    requires i < |events| < |states|
  {
    && Enabled(states[i].(store := store), events[i])
    && states[i + 1].(store := store) == Next(states[i].(store := store), events[i])
  }

  /** The same events with another store. */
  ghost predicate RunsOver(states: seq<State>, events: seq<Event>, store: map<Doc, Option<FileName>>) {
    && |states| == |events| + 1 && states[0].cache == map[] && states[0].calls == map[]
    && forall i :: 0 <= i < |events| ==> StepsOver(states, events, store, i)
  }

  /** The fetch at j shows that the document has no name: it came without one, or not at all though nothing was cut. */
  ghost predicate ShowsAbsence(states: seq<State>, events: seq<Event>, j: nat, doc: Doc) {
    && AsksAt(states, events, j, doc) && doc.1 !in BatchOf(states[j], events[j]).found
    && (Hit(doc.1, None) in events[j].hits
        || (events[j].hits != [] && |BatchOf(states[j], events[j]).ids| <= states[j].limit))
  }

  /** No fetch says anything of the document: none returned it, and those that answered may have been cut. */
  ghost predicate Unheard(states: seq<State>, events: seq<Event>, doc: Doc) {
    forall j :: 0 <= j < |events| && AsksAt(states, events, j, doc) ==>
      && (forall h :: h in events[j].hits ==> h.id != doc.1)
      && (events[j].hits == [] || states[j].limit < |BatchOf(states[j], events[j]).ids|)
  }

  lemma OwnStore(states: seq<State>, events: seq<Event>)
    requires IsRun(states, events)
    ensures RunsOver(states, events, states[0].store)
  {
    forall i | 0 <= i < |events|
      ensures StepsOver(states, events, states[0].store, i)
    {
      StoreIsFixed(states, events, i);
      StoreIsFixed(states, events, i + 1);
    }
  }

  lemma NextOverStore(s: State, e: Event, store: map<Doc, Option<FileName>>)
    requires Enabled(s, e) && Enabled(s.(store := store), e)
    ensures Next(s.(store := store), e) == Next(s, e).(store := store)
  {
  }

  /** A document no fetch says anything of may as well have a name. */
  lemma UnheardMayHaveName(states: seq<State>, events: seq<Event>, doc: Doc, name: FileName)
    requires IsRun(states, events) && Unheard(states, events, doc)
    ensures RunsOver(states, events, states[0].store[doc := Some(name)])
  {
    var store := states[0].store[doc := Some(name)];
    forall i | 0 <= i < |events|
      ensures StepsOver(states, events, store, i)
    {
      StoreIsFixed(states, events, i);
      assert events[i].Fetch? ==> IsFetch(states, events, i);
      NextOverStore(states[i], events[i], store);
    }
  }

  /** A cached absence is right over every store the events allow exactly when some fetch shows it. */
  lemma AbsenceIsCertainIff(states: seq<State>, events: seq<Event>, doc: Doc)
    requires IsRun(states, events)
    ensures (forall store :: RunsOver(states, events, store) ==> NameOf(store, doc).None?)
      <==> exists j :: 0 <= j < |events| && ShowsAbsence(states, events, j, doc)
  {
    if j :| 0 <= j < |events| && ShowsAbsence(states, events, j, doc) {
      forall store | RunsOver(states, events, store)
        ensures NameOf(store, doc).None?
      {
        assert StepsOver(states, events, store, j);
        FoundInHits(events[j].hits);
      }
    } else if Unheard(states, events, doc) {
      UnheardMayHaveName(states, events, doc, "f");
      assert NameOf(states[0].store[doc := Some("f")], doc) == Some("f");
    } else {
      NamedByFetch(states, events, doc);
      OwnStore(states, events);
    }
  }

  lemma NamedByFetch(states: seq<State>, events: seq<Event>, doc: Doc)
    requires IsRun(states, events) && !Unheard(states, events, doc)
    requires forall j :: 0 <= j < |events| ==> !ShowsAbsence(states, events, j, doc)
    ensures NameOf(states[0].store, doc).Some?
  {
    var j :| 0 <= j < |events| && AsksAt(states, events, j, doc)
      && !((forall h :: h in events[j].hits ==> h.id != doc.1)
           && (events[j].hits == [] || states[j].limit < |BatchOf(states[j], events[j]).ids|));
    assert !ShowsAbsence(states, events, j, doc);
    StoreIsFixed(states, events, j);
    FoundInHits(events[j].hits);
  }

  // ----- What the calls answer

  /** The fetch at j was neither failed nor cut: it answered, or had nothing to return, within the limit. */
  ghost predicate Whole(states: seq<State>, events: seq<Event>, j: nat)
    requires IsFetch(states, events, j)
  {
    var ids, suffix := BatchOf(states[j], events[j]).ids, states[j].calls[events[j].call].suffix;
    |ids| <= states[j].limit && (events[j].hits != [] || forall id :: id in ids ==> (suffix, id) !in states[j].store)
  }

  lemma WholeFinds(states: seq<State>, events: seq<Event>, j: nat, id: UnitId)
    requires IsFetch(states, events, j) && Whole(states, events, j) && id in BatchOf(states[j], events[j]).ids
    requires NameOf(states[j].store, (states[j].calls[events[j].call].suffix, id)).Some?
    ensures id in BatchOf(states[j], events[j]).found
  {
    FoundInHits(events[j].hits);
  }

  /**
   * A call whose fetches were neither failed nor cut answers with exactly the store's names for
   * the ids it wanted, whatever the other calls did meanwhile.
   */
  lemma CompleteCallAnswersAll(states: seq<State>, events: seq<Event>, k: nat, c: nat)
    requires IsRun(states, events) && k < |events| && events[k] == Finish(c)
    requires forall j, i :: 0 <= j < i <= k ==> !Raised(states, events, j, i)
    requires forall j :: 0 <= j < k && IsFetch(states, events, j) && events[j].call == c ==> Whole(states, events, j)
    ensures states[k + 1].calls[c].phase == Done(TrueNames(states[k], states[k].calls[c]))
  {
    var s := states[k];
    CacheAlwaysAgrees(states, events, k);
    CacheAlwaysAgrees(states, events, k + 1);
    var call := s.calls[c];
    var fetched, size := call.phase.fetched, call.phase.size;
    FilledAgrees(s, call.suffix, fetched, size);
    var after := Filled(s.cache, call.suffix, fetched, size);
    forall id | id in call.wanted && NameOf(s.store, (call.suffix, id)).Some?
      ensures (call.suffix, id) in after
    {
      if (call.suffix, id) !in s.cache {
        assert AskedFor(id, fetched);
        var b :| b in fetched && id in b.ids;
        var j := WhereFetched(states, events, k, c, b);
        StoreIsFixed(states, events, j);
        StoreIsFixed(states, events, k);
        WholeFinds(states, events, j, id);
        assert Cacheable(b, size, id);
      }
    }
    assert ResultOf(call.wanted, call.suffix, after) == TrueNames(s, call);
  }

  /** A call that finds everything it wants cached answers at once, with the store's names. */
  lemma CachedCallAnswersAll(states: seq<State>, events: seq<Event>, k: nat, c: nat, ids: seq<UnitId>, suffix: Suffix)
    requires IsRun(states, events) && k < |events| && events[k] == Start(c, ids, suffix)
    requires forall j, i :: 0 <= j < i < k ==> !Raised(states, events, j, i)
    requires Missing(Wanted(ids), suffix, states[k].cache) == []
    ensures states[k + 1].calls[c].phase == Done(TrueNames(states[k], states[k + 1].calls[c]))
  {
    CacheAlwaysAgrees(states, events, k);
    MissingCovers(Wanted(ids), suffix, states[k].cache);
    assert ResultOf(Wanted(ids), suffix, states[k].cache) == TrueNames(states[k], states[k + 1].calls[c]);
  }

  // ----- What a raised limit does

  lemma HeldAfter(s: State, e: Event, c: nat, b: Batch)
    requires Enabled(s, e) && c in s.calls && !s.calls[c].phase.Sizing?
    ensures c in Next(s, e).calls && Next(s, e).calls[c].suffix == s.calls[c].suffix && !Next(s, e).calls[c].phase.Sizing?
    ensures s.calls[c].phase.Done? ==> Next(s, e).calls[c] == s.calls[c]
    ensures b in Held(s.calls[c]) ==> Next(s, e).calls[c].phase.Done? || b in Held(Next(s, e).calls[c])
    ensures e.Fetch? && e.call == c ==> BatchOf(s, e) in Held(Next(s, e).calls[c])
    ensures s.calls[c].phase.Filling? ==> Next(s, e).calls[c].phase.Done? || Next(s, e).calls[c] == s.calls[c]
  {
  }

  /** A batch stays with its call until the call is done. */
  lemma {:induction false} StaysHeld(states: seq<State>, events: seq<Event>, j: nat, k: nat)
    requires IsRun(states, events) && IsFetch(states, events, j) && j < k < |states|
    ensures var c := events[j].call;
      && c in states[k].calls && states[k].calls[c].suffix == states[j].calls[c].suffix
      && (states[k].calls[c].phase.Done? || BatchOf(states[j], events[j]) in Held(states[k].calls[c]))
      && !states[k].calls[c].phase.Sizing?
    decreases k
  {
    if j < k - 1 {
      StaysHeld(states, events, j, k - 1);
    }
    HeldAfter(states[k - 1], events[k - 1], events[j].call, BatchOf(states[j], events[j]));
  }

  /** The limit read again stays with its call until the call is done. */
  lemma {:induction false} StaysRead(states: seq<State>, events: seq<Event>, i: nat, k: nat, c: nat)
    requires IsRun(states, events) && i < k < |states| && i < |events| && events[i] == ReadSizeAgain(c)
    ensures c in states[k].calls
    ensures states[k].calls[c].phase.Done? || (states[k].calls[c].phase.Filling? && states[k].calls[c].phase.size == states[i].limit)
    decreases k
  {
    if i < k - 1 {
      StaysRead(states, events, i, k - 1, c);
      HeldAfter(states[k - 1], events[k - 1], c, Batch([], map[], false));
    } else {
      assert states[k] == Next(states[i], events[i]);
    }
  }

  lemma {:induction false} BatchCachedKeepsNone(cache: Cache, suffix: Suffix, b: Batch, size: nat, n: nat, id: UnitId)
    requires n <= |b.ids| && id !in b.found
    ensures var after := BatchCached(cache, suffix, b, size, n);
      && ((suffix, id) in cache && cache[(suffix, id)] == None ==> (suffix, id) in after && after[(suffix, id)] == None)
      && (b.answered && |b.ids| <= size && id in b.ids[..n] ==> (suffix, id) in after && after[(suffix, id)] == None)
  {
    if n > 0 {
      BatchCachedKeepsNone(cache, suffix, b, size, n - 1, id);
    }
  }

  lemma {:induction false} FilledWithNone(cache: Cache, suffix: Suffix, fetched: seq<Batch>, size: nat, id: UnitId)
    requires forall b :: b in fetched ==> id !in b.found
    ensures var after := Filled(cache, suffix, fetched, size);
      (exists b :: b in fetched && LeftOut(suffix, b, size, (suffix, id))) ==> (suffix, id) in after && after[(suffix, id)] == None
  {
    if fetched != [] {
      var n := |fetched| - 1;
      var last := fetched[n];
      FilledWithNone(cache, suffix, fetched[..n], size, id);
      BatchCachedKeepsNone(Filled(cache, suffix, fetched[..n], size), suffix, last, size, |last.ids|, id);
      assert fetched == fetched[..n] + [last];
      assert last.ids[..|last.ids|] == last.ids;
    }
  }

  lemma UnheardIsNotFound(states: seq<State>, events: seq<Event>, f: nat, doc: Doc)
    requires IsRun(states, events) && Unheard(states, events, doc)
    requires IsFetch(states, events, f) && states[f].calls[events[f].call].suffix == doc.0
    ensures doc.1 !in BatchOf(states[f], events[f]).found
  {
    FoundInHits(events[f].hits);
    assert AsksAt(states, events, f, doc) <==> doc.1 in BatchOf(states[f], events[f]).ids;
    assert forall h :: h in events[f].hits ==> h.id != doc.1;
  }

  /**
   * The condition is needed: whenever a run ends a call with a batch whose limit was raised, any
   * document of the batch that no fetch says anything of is cached as absent, and the same events
   * are a run over a store that has a name for it.
   */
  lemma RaisedLimitCachesAbsence(states: seq<State>, events: seq<Event>, j: nat, i: nat, doc: Doc, name: FileName)
    requires IsRun(states, events) && events != [] && Raised(states, events, j, i)
    requires events[|events| - 1] == Finish(events[j].call)
    requires AsksAt(states, events, j, doc) && Unheard(states, events, doc)
    ensures doc in states[|events|].cache && states[|events|].cache[doc] == None
    ensures RunsOver(states, events, states[0].store[doc := Some(name)])
    ensures !CacheAgrees(states[|events|].(store := states[0].store[doc := Some(name)]))
  {
    var m, c := |events| - 1, events[j].call;
    var call := states[m].calls[c];
    StaysRead(states, events, i, m, c);
    StaysHeld(states, events, j, m);
    var fetched := call.phase.fetched;
    forall b | b in fetched
      ensures doc.1 !in b.found
    {
      var f := WhereFetched(states, events, m, c, b);
      UnheardIsNotFound(states, events, f, doc);
    }
    assert LeftOut(doc.0, BatchOf(states[j], events[j]), call.phase.size, doc);
    FilledWithNone(states[m].cache, doc.0, fetched, call.phase.size, doc.1);
    assert states[m + 1] == Next(states[m], events[m]);
    UnheardMayHaveName(states, events, doc, name);
    var store := states[0].store[doc := Some(name)];
    assert NameOf(store, doc) == Some(name);
  }

  // ----- Such a run exists

  lemma TwoAreWanted(x: UnitId, y: UnitId)
    requires x != "" && y != "" && x != y
    ensures Wanted([x, y]) == [x, y] && Missing([x, y], None, map[]) == [x, y]
  {
    assert [x, y][..1] == [x] && [x][..0] == [];
    assert Wanted([x]) == [x] && Missing([x], None, map[]) == [x];
  }

  /** The cut fetch of x and y under a limit of one, cached as if it had been complete. */
  lemma CutFetchCachesAbsence(x: UnitId, y: UnitId, name: FileName)
    requires x != y
    ensures FoundIn([Hit(x, Some(name))]) == map[x := name]
    ensures Filled(map[], None, [Batch([x, y], map[x := name], true)], 2) == map[(None, x) := Some(name), (None, y) := None]
  {
    var b := Batch([x, y], map[x := name], true);
    assert [Hit(x, Some(name))][..0] == [];
    assert [b][..0] == [];
    assert BatchCached(map[], None, b, 2, 1) == map[(None, x) := Some(name)];
    assert BatchCached(map[], None, b, 2, 2) == map[(None, x) := Some(name), (None, y) := None];
  }

  ghost predicate Steps(s: State, e: Event, s': State) {
    Enabled(s, e) && s' == Next(s, e)
  }

  lemma StartStep(s: State, x: UnitId, y: UnitId)
    requires x != "" && y != "" && x != y && s.cache == map[] && s.calls == map[]
    ensures Steps(s, Start(0, [x, y], None), s.(calls := map[0 := Call(None, [x, y], Sizing([x, y]))]))
  {
    TwoAreWanted(x, y);
  }

  lemma PhaseStep(s: State, e: Event, call: Call, phase: Phase)
    requires s.calls == map[0 := call]
    requires
      || (e == ReadSize(0) && call.phase.Sizing? && s.limit > 0 && phase == Fetching(call.phase.missing, s.limit, 0, []))
      || (e == ReadSizeAgain(0) && call.phase.Fetching? && call.phase.start >= |call.phase.missing|
          && phase == Filling(call.phase.fetched, s.limit))
    ensures Steps(s, e, s.(calls := map[0 := call.(phase := phase)]))
  {
    assert s.calls[0 := call.(phase := phase)] == map[0 := call.(phase := phase)];
  }

  lemma CutFetchStep(s: State, x: UnitId, y: UnitId, name: FileName)
    requires x != y && s.limit == 1
    requires s.store == map[(None, x) := Some(name), (None, y) := Some(name)]
    requires s.calls == map[0 := Call(None, [x, y], Fetching([x, y], 2, 0, []))]
    ensures Steps(s, Fetch(0, [Hit(x, Some(name))]),
      s.(calls := map[0 := Call(None, [x, y], Fetching([x, y], 2, 2, [Batch([x, y], map[x := name], true)]))]))
  {
    CutFetchCachesAbsence(x, y, name);
    assert BatchAt([x, y], 2, 0) == [x, y];
    var b := Batch([x, y], map[x := name], true);
    var phase := Fetching([x, y], 2, 2, [b]);
    assert [] + [b] == [b];
    assert s.calls[0 := s.calls[0].(phase := phase)] == map[0 := Call(None, [x, y], phase)];
  }

  lemma FinishStep(s: State, x: UnitId, y: UnitId, name: FileName)
    requires x != y && s.cache == map[]
    requires s.calls == map[0 := Call(None, [x, y], Filling([Batch([x, y], map[x := name], true)], 2))]
    ensures Enabled(s, Finish(0)) && Next(s, Finish(0)).cache == map[(None, x) := Some(name), (None, y) := None]
    ensures Next(s, Finish(0)).store == s.store
  {
    CutFetchCachesAbsence(x, y, name);
  }

  /**
   * Two ids are fetched under a limit of one, the second's hit is cut, the limit is back at two
   * when the call reads it again, and a name the store has is cached as absent.
   */
  lemma RaisedLimitRun(s0: State, x: UnitId, y: UnitId, name: FileName)
    returns (s1: State, s2: State, s3: State, s4: State, s5: State, s6: State, s7: State)
    requires x != "" && y != "" && x != y
    requires s0 == State(map[(None, x) := Some(name), (None, y) := Some(name)], 2, map[], map[])
    ensures Steps(s0, Start(0, [x, y], None), s1)
    ensures Steps(s1, ReadSize(0), s2)
    ensures Steps(s2, SetLimit(1), s3)
    ensures Steps(s3, Fetch(0, [Hit(x, Some(name))]), s4)
    ensures Steps(s4, SetLimit(2), s5)
    ensures Steps(s5, ReadSizeAgain(0), s6)
    ensures Steps(s6, Finish(0), s7)
    ensures !CacheAgrees(s7)
  {
    var begun := Call(None, [x, y], Sizing([x, y]));
    var fetching := begun.(phase := Fetching([x, y], 2, 0, []));
    var b := Batch([x, y], map[x := name], true);
    var fetched := Call(None, [x, y], Fetching([x, y], 2, 2, [b]));
    s1 := s0.(calls := map[0 := begun]);
    StartStep(s0, x, y);
    s2 := s1.(calls := map[0 := fetching]);
    PhaseStep(s1, ReadSize(0), begun, fetching.phase);
    s3 := s2.(limit := 1);
    s4 := s3.(calls := map[0 := fetched]);
    CutFetchStep(s3, x, y, name);
    s5 := s4.(limit := 2);
    s6 := s5.(calls := map[0 := fetched.(phase := Filling([b], 2))]);
    PhaseStep(s5, ReadSizeAgain(0), fetched, Filling([b], 2));
    FinishStep(s6, x, y, name);
    s7 := Next(s6, Finish(0));
    assert s7.cache[(None, y)] != NameOf(s7.store, (None, y));
  }
}
