// The ingestion state machine: start retries, the catch, the bounded re-run of a task that
// Spot interrupted, and the failure notification.
module SpotMachine {
  import opened Options

  // ----- Configuration and state data

  /** `wait` is the pause before a re-run, in seconds. */
  datatype Config = Config(spot: bool, retries: nat, wait: nat)

  datatype Value = Text(text: string) | Other

  datatype Error = Error(name: string, cause: Option<Value>)

  /** The data the states read and write: the input, `$.error` and `$.spot_retries.count`. */
  datatype Data = Data(source: Value, pipelineId: Value, error: Option<Error>, count: Option<nat>)

  const TASK_FAILED := "States.TaskFailed"
  const TIMED_OUT := "States.Timeout"
  const START_FAILURES: set<string> := {"ECS.AmazonECSException", "AmazonECS.Unknown"}
  const START_RETRIES: nat := 2
  const PUBLISH_RETRIES: nat := 3
  const INTERRUPTIONS := ["SpotInterruption", "Your Spot Task was interrupted"]

  predicate Contains(s: string, part: string) {
    part <= s || (s != "" && Contains(s[1..], part))
  }

  /** The Choice rule: the caught failure is a Spot interruption that may be re-run. */
  predicate MayRerun(config: Config, d: Data) {
    && d.error.Some? && d.error.value.name == TASK_FAILED
    && d.error.value.cause.Some? && d.error.value.cause.value.Text?
    && (Contains(d.error.value.cause.value.text, INTERRUPTIONS[0])
        || Contains(d.error.value.cause.value.text, INTERRUPTIONS[1]))
    && d.pipelineId.Text? && d.pipelineId.text != ""
    && d.count.Some? && d.count.value < config.retries
  }

  // ----- The machine

  datatype End = PipelineComplete | PipelineFailed | PublishFailed | Stopped

  /** The state entered; a Task also counts the retries it has used. */
  datatype Where =
    | InitSpotRetries
    | Ingest(retried: nat)
    | SpotInterrupted
    | CountSpotRetry
    | WaitBeforeSpotRetry
    | NotifyFailure(retried: nat)
    | Ended(end: End)

  /**
   * An execution: the state and its data, the clock, when the last task's write lease runs
   * out, how often Ingest was entered and RunTask called, and the error last published.
   */
  datatype World = World(where: Where, data: Data, clock: nat, leaseUntil: nat,
                         entries: nat, calls: nat, published: Option<Error>)

  /** What happens next, after `dt` seconds. A task that ran leaves its lease live until `lease`. */
  datatype Event =
    | Proceed(dt: nat)
    | TaskSucceeds(dt: nat, lease: nat)
    | TaskFails(dt: nat, error: Error, lease: nat)
    | StartFails(dt: nat, error: Error)
    | Published(dt: nat)
    | PublishFails(dt: nat, error: Error)
    | Stop(dt: nat)

  function Start(config: Config, source: Value, pipelineId: Value, count: Option<nat>, clock: nat,
                 leaseUntil: nat): World {
    World(if config.spot then InitSpotRetries else Ingest(0), Data(source, pipelineId, None, count),
          clock, leaseUntil, if config.spot then 0 else 1, 0, None)
  }

  /** Which events a state allows. The machine's own timeout, or an operator, may stop it anywhere. */
  predicate CanStep(config: Config, term: nat, w: World, e: Event) {
    match e
    case Proceed(dt) =>
      w.where.InitSpotRetries? || w.where.SpotInterrupted? || w.where.CountSpotRetry?
      || (w.where.WaitBeforeSpotRetry? && dt >= config.wait)
    case TaskSucceeds(dt, lease) => w.where.Ingest? && lease <= w.clock + dt + term
    case TaskFails(dt, error, lease) =>
      w.where.Ingest? && error.name !in START_FAILURES && lease <= w.clock + dt + term
    case StartFails(dt, error) => w.where.Ingest? && error.name in START_FAILURES
    case Published(dt) => w.where.NotifyFailure?
    case PublishFails(dt, error) => w.where.NotifyFailure?
    case Stop(dt) => !w.where.Ended?
  }

  /** The Catch keeps the data and adds the error; it leads to the Choice only with Spot. */
  function Catch(config: Config, w: World, error: Error): World {
    w.(where := if config.spot then SpotInterrupted else NotifyFailure(0), data := w.data.(error := Some(error)))
  }

  function Step(config: Config, term: nat, w: World, e: Event): World
    requires CanStep(config, term, w, e)
  {
    var now := w.(clock := w.clock + e.dt);
    match e
    case Proceed(_) =>
      (match w.where
       case InitSpotRetries => now.(where := Ingest(0), data := w.data.(count := Some(0)), entries := w.entries + 1)
       case SpotInterrupted => now.(where := if MayRerun(config, w.data) then CountSpotRetry else NotifyFailure(0))
       case CountSpotRetry =>
         now.(where := WaitBeforeSpotRetry,
              data := w.data.(count := if w.data.count.Some? then Some(w.data.count.value + 1) else None))
       case WaitBeforeSpotRetry => now.(where := Ingest(0), entries := w.entries + 1))
    case TaskSucceeds(_, lease) => now.(where := Ended(PipelineComplete), calls := w.calls + 1, leaseUntil := lease)
    case TaskFails(_, error, lease) => Catch(config, now.(calls := w.calls + 1, leaseUntil := lease), error)
    case StartFails(_, error) =>
      if w.where.retried < START_RETRIES then now.(where := Ingest(w.where.retried + 1), calls := w.calls + 1)
      else Catch(config, now.(calls := w.calls + 1), error)
    case Published(_) => now.(where := Ended(PipelineFailed), published := w.data.error)
    case PublishFails(_, error) =>
      if error.name != TIMED_OUT && w.where.retried < PUBLISH_RETRIES then
        now.(where := NotifyFailure(w.where.retried + 1))
      else now.(where := Ended(PublishFailed))
    case Stop(_) => now.(where := Ended(Stopped))
  }

  ghost predicate IsRun(config: Config, term: nat, worlds: seq<World>, events: seq<Event>) {
    && |worlds| == |events| + 1
    && (exists source, pipelineId, count, clock, leaseUntil ::
          worlds[0] == Start(config, source, pipelineId, count, clock, leaseUntil))
    && forall i :: 0 <= i < |events| ==>
         CanStep(config, term, worlds[i], events[i]) && worlds[i + 1] == Step(config, term, worlds[i], events[i])
  }

  // ----- How it ends, and what is retried

  /** An execution ends as its last event says: it is stopped only from outside. */
  lemma HowItEnds(config: Config, term: nat, worlds: seq<World>, events: seq<Event>, i: nat)
    requires IsRun(config, term, worlds, events) && i < |events| && worlds[i + 1].where.Ended?
    ensures match worlds[i + 1].where.end
      case PipelineComplete => events[i].TaskSucceeds?
      case PipelineFailed => events[i].Published?
      case PublishFailed => events[i].PublishFails?
      case Stopped => events[i].Stop?
  {
  }

  /** A failure is retried where it happened exactly when it is one to start the task, for at most two times. */
  lemma StartIsRetriedIff(config: Config, term: nat, worlds: seq<World>, events: seq<Event>, i: nat)
    requires IsRun(config, term, worlds, events) && i < |events| && (events[i].TaskFails? || events[i].StartFails?)
    ensures worlds[i].where.Ingest?
    ensures worlds[i + 1].where == Ingest(worlds[i].where.retried + 1)
            <==> && (events[i].error.name == "ECS.AmazonECSException" || events[i].error.name == "AmazonECS.Unknown")
                 && worlds[i].where.retried <= 1
    ensures worlds[i + 1].where != Ingest(worlds[i].where.retried + 1) ==> worlds[i + 1].data.error == Some(events[i].error)
  {
  }

  /** A failed publish is tried again, at most three times, unless it timed out. */
  lemma PublishIsRetriedIff(config: Config, term: nat, worlds: seq<World>, events: seq<Event>, i: nat)
    requires IsRun(config, term, worlds, events) && i < |events| && events[i].PublishFails?
    ensures worlds[i].where.NotifyFailure?
    ensures worlds[i + 1].where == if events[i].error.name != "States.Timeout" && worlds[i].where.retried <= 2
                                   then NotifyFailure(worlds[i].where.retried + 1) else Ended(PublishFailed)
  {
  }

  // ----- What the Choice reads

  /** The text holds the part somewhere. */
  ghost predicate Within(part: string, text: string) {
    exists k :: 0 <= k <= |text| && part <= text[k..]
  }

  lemma {:induction false} ContainsIsWithin(s: string, part: string)
    ensures Contains(s, part) <==> Within(part, s)
  {
    if part <= s {
      assert s[0..] == s;
    } else if s != "" {
      ContainsIsWithin(s[1..], part);
      forall k | 0 <= k <= |s[1..]|
        ensures s[1..][k..] == s[k + 1..]
      {
      }
      forall k | 0 < k <= |s|
        ensures s[k..] == s[1..][k - 1..]
      {
      }
      assert s[0..] == s;
    } else {
      forall k | 0 <= k <= |s|
        ensures s[k..] == s
      {
      }
    }
  }

  /** A task that Spot interrupted: its cause is a text with the stop code or the reason. */
  ghost predicate Interrupts(error: Error) {
    && error.name == "States.TaskFailed" && error.cause.Some? && error.cause.value.Text?
    && (Within("SpotInterruption", error.cause.value.text)
        || Within("Your Spot Task was interrupted", error.cause.value.text))
  }

  ghost predicate CanResume(pipelineId: Value) {
    pipelineId.Text? && pipelineId.text != ""
  }

  lemma MayRerunIff(config: Config, d: Data)
    ensures MayRerun(config, d)
            <==> && d.error.Some? && Interrupts(d.error.value) && CanResume(d.pipelineId)
                 && d.count.Some? && d.count.value < config.retries
  {
    if d.error.Some? && d.error.value.cause.Some? && d.error.value.cause.value.Text? {
      ContainsIsWithin(d.error.value.cause.value.text, INTERRUPTIONS[0]);
      ContainsIsWithin(d.error.value.cause.value.text, INTERRUPTIONS[1]);
    }
  }

  // ----- Termination

  /** How many re-runs the count still allows. */
  function RerunsLeft(config: Config, w: World): nat {
    if w.where.InitSpotRetries? then config.retries
    else if w.data.count.Some? && w.data.count.value < config.retries then config.retries - w.data.count.value
    else 0
  }

  /** Strictly smaller after every step. */
  function Rank(config: Config, w: World): nat {
    var base := 6 * RerunsLeft(config, w);
    match w.where
    case InitSpotRetries => base + 9
    case Ingest(retried) =>
      (if config.spot then base + 6 else 5) + if retried <= START_RETRIES then START_RETRIES - retried else 0
    case SpotInterrupted => base + 5
    case CountSpotRetry => base + 4
    case WaitBeforeSpotRetry => base + 9
    case NotifyFailure(retried) => if retried <= PUBLISH_RETRIES then 4 - retried else 1
    case Ended(_) => 0
  }

  /** What every reachable world satisfies. */
  ghost predicate Inv(config: Config, w: World) {
    && (w.where.Ingest? ==> w.where.retried <= START_RETRIES)
    && (w.where.NotifyFailure? ==> w.where.retried <= PUBLISH_RETRIES && w.data.error.Some?)
    && (w.where.SpotInterrupted? || w.where.CountSpotRetry? ==> config.spot && w.data.error.Some?)
    && (w.where.CountSpotRetry? ==> MayRerun(config, w.data))
    && (w.where.WaitBeforeSpotRetry? ==> config.spot && w.data.count.Some? && 1 <= w.data.count.value <= config.retries)
    && (w.where.InitSpotRetries? ==> config.spot && w.entries == 0 && w.calls == 0)
    && (w.where == Ended(PipelineFailed) ==> w.published.Some? && w.published == w.data.error)
    && EntriesAgree(config, w)
    && CallsAgree(w)
  }

  /** With Spot, Ingest was entered once per count taken; without it, once. */
  ghost predicate EntriesAgree(config: Config, w: World) {
    if !config.spot then w.entries == 1
    else if w.where.InitSpotRetries? then w.entries == 0
    else if w.where == Ended(Stopped) then w.entries <= config.retries + 1
    else
      && w.data.count.Some? && w.data.count.value <= config.retries
      && w.entries == w.data.count.value + if w.where.WaitBeforeSpotRetry? then 0 else 1
  }

  /** At most three RunTask calls per entry, one more for each start retry used in the current one. */
  ghost predicate CallsAgree(w: World) {
    if w.where.Ingest? then w.entries >= 1 && w.calls <= 3 * (w.entries - 1) + w.where.retried
    else w.calls <= 3 * w.entries
  }

  lemma StepKeepsInv(config: Config, term: nat, w: World, e: Event)
    requires Inv(config, w) && CanStep(config, term, w, e)
    ensures Inv(config, Step(config, term, w, e))
    ensures Rank(config, Step(config, term, w, e)) < Rank(config, w)
  {
  }

  lemma {:induction false} RunKeepsInv(config: Config, term: nat, worlds: seq<World>, events: seq<Event>, i: nat)
    requires IsRun(config, term, worlds, events) && i < |worlds|
    ensures Inv(config, worlds[i])
    ensures Rank(config, worlds[i]) + i <= Rank(config, worlds[0])
  {
    if i > 0 {
      RunKeepsInv(config, term, worlds, events, i - 1);
      StepKeepsInv(config, term, worlds[i - 1], events[i - 1]);
    }
  }

  /**
   * Every execution terminates, after a number of steps that the configuration bounds; see `LongestRun`
   * and `LongestRunWithoutSpot`.
   */
  lemma ExecutionTerminates(config: Config, term: nat, worlds: seq<World>, events: seq<Event>)
    requires IsRun(config, term, worlds, events)
    ensures |events| <= if config.spot then 6 * config.retries + 9 else 7
  {
    RunKeepsInv(config, term, worlds, events, |events|);
  }

  /** Ingest is entered at most once more than the re-runs allowed, and RunTask called at most three times each. */
  lemma TaskCallsAreBounded(config: Config, term: nat, worlds: seq<World>, events: seq<Event>, i: nat)
    requires IsRun(config, term, worlds, events) && i < |worlds|
    ensures worlds[i].entries <= if config.spot then config.retries + 1 else 1
    ensures worlds[i].calls <= 3 * worlds[i].entries
  {
    RunKeepsInv(config, term, worlds, events, i);
  }

  /** No state alters the run's source directory or pipeline id. */
  lemma {:induction false} InputIsKept(config: Config, term: nat, worlds: seq<World>, events: seq<Event>, i: nat)
    requires IsRun(config, term, worlds, events) && i < |worlds|
    ensures worlds[i].data.source == worlds[0].data.source && worlds[i].data.pipelineId == worlds[0].data.pipelineId
  {
    if i > 0 {
      InputIsKept(config, term, worlds, events, i - 1);
    }
  }

  /** A second entry of Ingest means a pipeline id to resume: an empty one is never re-run. */
  lemma {:induction false} RerunNeedsPipelineId(config: Config, term: nat, worlds: seq<World>, events: seq<Event>, i: nat)
    requires IsRun(config, term, worlds, events) && i < |worlds|
    requires worlds[i].entries >= 2 || worlds[i].where.CountSpotRetry? || worlds[i].where.WaitBeforeSpotRetry?
    ensures config.spot && worlds[i].data.pipelineId.Text? && worlds[i].data.pipelineId.text != ""
  {
    RunKeepsInv(config, term, worlds, events, i);
    if i > 0 && !worlds[i].where.CountSpotRetry? {
      RerunNeedsPipelineId(config, term, worlds, events, i - 1);
    }
  }

  /** The run fails as PipelineFailed only once its caught error was published. */
  lemma FailureIsPublished(config: Config, term: nat, worlds: seq<World>, events: seq<Event>, i: nat)
    requires IsRun(config, term, worlds, events) && i < |worlds| && worlds[i].where == Ended(PipelineFailed)
    ensures worlds[i].data.error.Some? && worlds[i].published == worlds[i].data.error
  {
    RunKeepsInv(config, term, worlds, events, i);
  }

  /** Nothing stops the execution from outside. */
  ghost predicate Unstopped(events: seq<Event>) {
    forall i :: 0 <= i < |events| ==> !events[i].Stop?
  }

  /** The execution has ended, by itself. */
  ghost predicate RanToItsEnd(worlds: seq<World>, events: seq<Event>) {
    |worlds| == |events| + 1 && worlds[|events|].where.Ended? && Unstopped(events)
  }

  /** An execution that ends by itself goes on from every state that is not an end. */
  lemma GoesOn(config: Config, term: nat, worlds: seq<World>, events: seq<Event>, i: nat)
    requires IsRun(config, term, worlds, events) && RanToItsEnd(worlds, events) && i < |worlds|
    requires !worlds[i].where.Ended?
    ensures i < |events| && !events[i].Stop?
    ensures CanStep(config, term, worlds[i], events[i]) && worlds[i + 1] == Step(config, term, worlds[i], events[i])
  {
  }

  /** A failure of the task past its retries: the one the Catch takes. */
  ghost predicate IsCaught(worlds: seq<World>, events: seq<Event>, i: nat) {
    i < |events| < |worlds| && (events[i].TaskFails? || (events[i].StartFails? && worlds[i].where == Ingest(START_RETRIES)))
  }

  /** Ingest is entered again, for one more time than before the failure. */
  ghost predicate IsRerun(worlds: seq<World>, events: seq<Event>, i: nat, j: nat) {
    && i < j < |events| < |worlds|
    && worlds[j].where == WaitBeforeSpotRetry && worlds[j + 1].where == Ingest(0)
    && worlds[j + 1].entries == worlds[i].entries + 1
  }

  /** The failure's error is sent to be published. */
  ghost predicate IsPublishAttempt(worlds: seq<World>, events: seq<Event>, i: nat, j: nat)
    requires IsCaught(worlds, events, i)
  {
    && i < j < |events| < |worlds|
    && (events[j].Published? || events[j].PublishFails?) && worlds[j].data.error == Some(events[i].error)
  }

  /**
   * No failure is swallowed: in every execution that ends by itself, a failure past its retries is
   * followed by a re-run exactly when Spot is on, the failure is a Spot interruption, there is a
   * pipeline id to resume, and Ingest was entered no more often than re-runs are allowed; and else by
   * an attempt to publish that very failure.
   */
  lemma CaughtFailureIsHandled(config: Config, term: nat, worlds: seq<World>, events: seq<Event>, i: nat) returns (j: nat)
    requires IsRun(config, term, worlds, events) && RanToItsEnd(worlds, events) && IsCaught(worlds, events, i)
    ensures if && config.spot && Interrupts(events[i].error) && CanResume(worlds[i].data.pipelineId)
               && worlds[i].entries <= config.retries
            then IsRerun(worlds, events, i, j) else IsPublishAttempt(worlds, events, i, j)
  {
    RunKeepsInv(config, term, worlds, events, i);
    MayRerunIff(config, worlds[i].data.(error := Some(events[i].error)));
    assert worlds[i + 1] == Step(config, term, worlds[i], events[i]);
    GoesOn(config, term, worlds, events, i + 1);
    j := i + 1;
    if config.spot {
      GoesOn(config, term, worlds, events, i + 2);
      j := i + 2;
      if MayRerun(config, worlds[i].data.(error := Some(events[i].error))) {
        GoesOn(config, term, worlds, events, i + 3);
        j := i + 3;
      }
    }
  }

  // ----- The bounds are reached

  /** A run that nothing stopped goes on by an event. */
  lemma Onward(config: Config, term: nat, worlds: seq<World>, events: seq<Event>, e: Event)
      returns (longer: seq<World>, more: seq<Event>)
    requires IsRun(config, term, worlds, events) && Unstopped(events)
    requires CanStep(config, term, worlds[|events|], e) && !e.Stop?
    ensures IsRun(config, term, longer, more) && Unstopped(more) && |more| == |events| + 1
    ensures longer[|more|] == Step(config, term, worlds[|events|], e)
  {
    longer, more := worlds + [Step(config, term, worlds[|events|], e)], events + [e];
    assert longer[0] == worlds[0];
  }

  const UNSTARTED := Error("AmazonECS.Unknown", None)

  ghost function AtIngest(source: Value, id: Value, error: Option<Error>, clock: nat, k: nat): World {
    World(Ingest(0), Data(source, id, error, Some(k)), clock, 0, k + 1, 3 * k, None)
  }

  /** Two failures to start, then an interruption of the task that did, bring it to the Choice. */
  lemma Interrupted(config: Config, term: nat, before: seq<World>, past: seq<Event>, interruption: Error)
      returns (worlds: seq<World>, events: seq<Event>)
    requires IsRun(config, term, before, past) && Unstopped(past) && before[|past|].where == Ingest(0)
    requires config.spot && Interrupts(interruption)
    ensures IsRun(config, term, worlds, events) && Unstopped(events) && |events| == |past| + 3
    ensures var w := before[|past|];
      worlds[|events|] == w.(where := SpotInterrupted, data := w.data.(error := Some(interruption)),
                             leaseUntil := 0, calls := w.calls + 3)
  {
    worlds, events := Onward(config, term, before, past, StartFails(0, UNSTARTED));
    worlds, events := Onward(config, term, worlds, events, StartFails(0, UNSTARTED));
    worlds, events := Onward(config, term, worlds, events, TaskFails(0, interruption, 0));
  }

  /** Every interruption in a row is re-run, as often as the configuration allows. */
  lemma {:induction false} Reruns(config: Config, term: nat, source: Value, id: Value, interruption: Error, k: nat)
      returns (worlds: seq<World>, events: seq<Event>)
    requires config.spot && k <= config.retries && CanResume(id) && Interrupts(interruption)
    ensures IsRun(config, term, worlds, events) && Unstopped(events) && |events| == 6 * k + 1
    ensures worlds[|events|] == AtIngest(source, id, if k == 0 then None else Some(interruption), k * config.wait, k)
  {
    if k == 0 {
      var start := Start(config, source, id, None, 0, 0);
      worlds, events := [start, Step(config, term, start, Proceed(0))], [Proceed(0)];
    } else {
      worlds, events := Reruns(config, term, source, id, interruption, k - 1);
      worlds, events := Interrupted(config, term, worlds, events, interruption);
      MayRerunIff(config, worlds[|events|].data);
      worlds, events := Onward(config, term, worlds, events, Proceed(0));
      worlds, events := Onward(config, term, worlds, events, Proceed(0));
      worlds, events := Onward(config, term, worlds, events, Proceed(config.wait));
      assert (k - 1) * config.wait + config.wait == k * config.wait;
    }
  }

  /**
   * The bounds are reached: for every number of retries and any interruption some execution enters
   * Ingest retries + 1 times, calls RunTask three times each, takes 6 retries + 9 steps, and publishes
   * the last interruption.
   */
  lemma LongestRun(config: Config, term: nat, source: Value, id: Value, interruption: Error)
      returns (worlds: seq<World>, events: seq<Event>)
    requires config.spot && CanResume(id) && Interrupts(interruption)
    ensures IsRun(config, term, worlds, events) && RanToItsEnd(worlds, events)
    ensures |events| == 6 * config.retries + 9
    ensures worlds[|events|].entries == config.retries + 1 && worlds[|events|].calls == 3 * (config.retries + 1)
    ensures worlds[|events|].where == Ended(PipelineFailed) && worlds[|events|].published == Some(interruption)
  {
    worlds, events := Reruns(config, term, source, id, interruption, config.retries);
    worlds, events := Interrupted(config, term, worlds, events, interruption);
    MayRerunIff(config, worlds[|events|].data);
    worlds, events := Onward(config, term, worlds, events, Proceed(0));
    worlds, events := Notified(config, term, worlds, events);
  }

  /** Three failures to publish, then a success. */
  lemma Notified(config: Config, term: nat, before: seq<World>, past: seq<Event>)
      returns (worlds: seq<World>, events: seq<Event>)
    requires IsRun(config, term, before, past) && Unstopped(past) && before[|past|].where == NotifyFailure(0)
    ensures IsRun(config, term, worlds, events) && Unstopped(events) && |events| == |past| + 4
    ensures var w := before[|past|];
      worlds[|events|] == w.(where := Ended(PipelineFailed), published := w.data.error)
  {
    worlds, events := Onward(config, term, before, past, PublishFails(0, UNSTARTED));
    worlds, events := Onward(config, term, worlds, events, PublishFails(0, UNSTARTED));
    worlds, events := Onward(config, term, worlds, events, PublishFails(0, UNSTARTED));
    worlds, events := Onward(config, term, worlds, events, Published(0));
  }

  /** Without Spot the longest execution takes 7 steps: three RunTask calls and four attempts to publish. */
  lemma LongestRunWithoutSpot(config: Config, term: nat, source: Value, id: Value, failure: Error)
      returns (worlds: seq<World>, events: seq<Event>)
    requires !config.spot && failure.name !in START_FAILURES
    ensures IsRun(config, term, worlds, events) && RanToItsEnd(worlds, events) && |events| == 7
    ensures worlds[7].entries == 1 && worlds[7].calls == 3
    ensures worlds[7].where == Ended(PipelineFailed) && worlds[7].published == Some(failure)
  {
    worlds, events := [Start(config, source, id, None, 0, 0)], [];
    worlds, events := Onward(config, term, worlds, events, StartFails(0, UNSTARTED));
    worlds, events := Onward(config, term, worlds, events, StartFails(0, UNSTARTED));
    worlds, events := Onward(config, term, worlds, events, TaskFails(0, failure, 0));
    worlds, events := Notified(config, term, worlds, events);
  }

  // ----- The lease

  /**
   * From a task's failure on, its lease runs out within the term: a re-run is only for a
   * failure of a task that ran, as a failure to start has another name.
   */
  ghost predicate LeaseAges(config: Config, term: nat, w: World) {
    && (w.where.SpotInterrupted? && w.data.error.Some? && w.data.error.value.name == TASK_FAILED ==>
          w.leaseUntil <= w.clock + term)
    && (w.where.CountSpotRetry? || w.where.WaitBeforeSpotRetry? ==> w.leaseUntil <= w.clock + term)
    && (w.where.Ingest? && w.entries >= 2 && config.wait >= term ==> w.leaseUntil <= w.clock)
  }

  lemma StepKeepsLease(config: Config, term: nat, w: World, e: Event)
    requires Inv(config, w) && LeaseAges(config, term, w) && CanStep(config, term, w, e)
    ensures LeaseAges(config, term, Step(config, term, w, e))
  {
  }

  /** With a wait of at least the lease term, no re-run starts while an earlier task's lease is live. */
  lemma {:induction false} RerunMeetsNoLiveLease(config: Config, term: nat, worlds: seq<World>, events: seq<Event>,
                                                 i: nat)
    requires IsRun(config, term, worlds, events) && i < |worlds|
    ensures LeaseAges(config, term, worlds[i])
    ensures config.wait >= term && worlds[i].where.Ingest? && worlds[i].entries >= 2 ==>
              worlds[i].leaseUntil <= worlds[i].clock
  {
    if i > 0 {
      RunKeepsInv(config, term, worlds, events, i - 1);
      RerunMeetsNoLiveLease(config, term, worlds, events, i - 1);
      StepKeepsLease(config, term, worlds[i - 1], events[i - 1]);
    }
  }

  lemma TaskFailureIsNoStartFailure()
    ensures TASK_FAILED !in START_FAILURES
  {
  }

  /** With any shorter wait, an interrupted task that never gave its lease up meets its own re-run. */
  lemma ShortWaitMeetsLiveLease(config: Config, term: nat, source: Value, id: Value, interruption: Error)
      returns (worlds: seq<World>, events: seq<Event>)
    requires config.spot && config.retries >= 1 && config.wait < term
    requires CanResume(id) && Interrupts(interruption)
    ensures IsRun(config, term, worlds, events)
    ensures |worlds| == 6 && worlds[5].where == Ingest(0) && worlds[5].entries == 2
    ensures worlds[5].leaseUntil > worlds[5].clock
  {
    TaskFailureIsNoStartFailure();
    var d := Data(source, id, Some(interruption), Some(0));
    MayRerunIff(config, d);
    events := [Proceed(0), TaskFails(0, interruption, term), Proceed(0), Proceed(0), Proceed(config.wait)];
    worlds := [
      Start(config, source, id, None, 0, 0),
      World(Ingest(0), d.(error := None), 0, 0, 1, 0, None),
      World(SpotInterrupted, d, 0, term, 1, 1, None),
      World(CountSpotRetry, d, 0, term, 1, 1, None),
      World(WaitBeforeSpotRetry, d.(count := Some(1)), 0, term, 1, 1, None),
      World(Ingest(0), d.(count := Some(1)), config.wait, term, 2, 1, None)
    ];
  }
}
