// The custom resource that associates the Nori plugin with a domain: a polled controller
// that races the domain it reads and changes.
module NoriPackage {
  import opened Options

  // ----- What the controller reads

  datatype Status = Associating | AssociationFailed | Active | Dissociating | DissociationFailed | Unknown

  datatype Details = Details(package: string, status: Status)

  datatype Request = CreateOrUpdate | Delete

  const UPDATE_CLEANUP := "UPDATE_COMPLETE_CLEANUP_IN_PROGRESS"
  const RETRYABLE: set<string> := {"ConflictException", "Throttling", "ThrottlingException", "TooManyRequests"}
  const NOT_FOUND := "ResourceNotFoundException"
  const CONFLICT := "ConflictException"

  /** The status of the package among the pages of a domain's packages. */
  function StatusOn(page: seq<Details>, package: string): Option<Status> {
    if page == [] then None
    else if page[0].package == package then Some(page[0].status)
    else StatusOn(page[1..], package)
  }

  function Flatten(pages: seq<seq<Details>>): seq<Details> {
    if pages == [] then [] else pages[0] + Flatten(pages[1..])
  }

  lemma {:induction false} StatusOnConcat(a: seq<Details>, b: seq<Details>, package: string)
    ensures StatusOn(a + b, package) == if StatusOn(a, package).Some? then StatusOn(a, package) else StatusOn(b, package)
  {
    if a == [] {
      assert a + b == b;
    } else {
      assert (a + b)[0] == a[0] && (a + b)[1..] == a[1..] + b;
      StatusOnConcat(a[1..], b, package);
    }
  }

  /** Paging stops at the first match: the pages read as one list. */
  method Association(pages: seq<seq<Details>>, package: string) returns (status: Option<Status>)
    ensures status == StatusOn(Flatten(pages), package)
  {
    for i := 0 to |pages|
      invariant StatusOn(Flatten(pages), package) == StatusOn(Flatten(pages[i..]), package)
    {
      StatusOnConcat(pages[i], Flatten(pages[i + 1..]), package);
      assert pages[i..][1..] == pages[i + 1..];
      var page := pages[i];
      for j := 0 to |page|
        invariant StatusOn(page, package) == StatusOn(page[j..], package)
      {
        if page[j].package == package {
          return Some(page[j].status);
        }
        assert page[j..][1..] == page[j + 1..];
      }
      assert page[|page|..] == [];
    }
    assert pages[|pages|..] == [];
    status := None;
  }

  // ----- What it decides after each reply

  datatype Reply<+T> = Got(value: T) | Failed(code: string)

  datatype Outcome = Complete | Incomplete | Raised

  /** What a poll does next: end with an outcome, or make another call. */
  datatype Next = DescribeStacks | ListPackages | DescribeDomain | Associate | Dissociate | End(outcome: Outcome)

  function OnError(code: string): Next {
    End(if code in RETRYABLE then Incomplete else Raised)
  }

  /** A create or update, once the associations are listed. */
  function AfterListing(reply: Reply<Option<Status>>): Next {
    match reply
    case Failed(code) => OnError(code)
    case Got(None) => DescribeDomain
    case Got(Some(status)) =>
      match status
      case Active => End(Complete)
      case AssociationFailed => End(Raised)
      case DissociationFailed => End(Raised)
      case _ => End(Incomplete)
  }

  /** A create or update that saw no association, once the domain is described. */
  function AfterDescribing(reply: Reply<bool>): Next {
    match reply
    case Failed(code) => OnError(code)
    case Got(changing) => if changing then End(Incomplete) else Associate
  }

  /** After associate-package or dissociate-package: never complete yet. */
  function AfterCall(reply: Reply<()>): Next {
    match reply
    case Failed(code) => OnError(code)
    case Got(_) => End(Incomplete)
  }

  /** A delete, once the stack's status is known. */
  function AfterStack(reply: Reply<string>): Next {
    match reply
    case Failed(code) => OnError(code)
    case Got(status) => if status == UPDATE_CLEANUP then ListPackages else End(Complete)
  }

  /** A delete in a stack update's cleanup, once the associations are listed. */
  function AfterListingToDelete(reply: Reply<Option<Status>>): Next {
    match reply
    case Failed(code) => if code == NOT_FOUND then End(Complete) else OnError(code)
    case Got(None) => End(Complete)
    case Got(Some(status)) =>
      match status
      case DissociationFailed => End(Raised)
      case Active => Dissociate
      case AssociationFailed => Dissociate
      case _ => End(Incomplete)
  }

  // ----- The domain, and a poll nothing interrupts

  /** `left` counts the domain's own steps until the change under way is done. */
  datatype Domain = Domain(gone: bool, association: Option<Status>, processing: bool, upgrading: bool, left: nat)

  predicate Changing(d: Domain) {
    d.processing || d.upgrading
  }

  function Listing(d: Domain): Reply<Option<Status>> {
    if d.gone then Failed(NOT_FOUND) else Got(d.association)
  }

  function Description(d: Domain): Reply<bool> {
    if d.gone then Failed(NOT_FOUND) else Got(Changing(d))
  }

  /** The domain takes one change at a time; an association takes `duration` of its steps. */
  function OnAssociate(d: Domain, duration: nat): (Domain, Reply<()>) {
    if d.gone then (d, Failed(NOT_FOUND))
    else if d.association.None? && !Changing(d) then (d.(association := Some(Associating), left := duration), Got(()))
    else (d, Failed(CONFLICT))
  }

  function OnDissociate(d: Domain, duration: nat): (Domain, Reply<()>) {
    if d.gone then (d, Failed(NOT_FOUND))
    else if (d.association == Some(Active) || d.association == Some(AssociationFailed)) && !Changing(d) then
      (d.(association := Some(Dissociating), left := duration), Got(()))
    else (d, Failed(CONFLICT))
  }

  /** One whole poll of a create or update. */
  function PollAssociated(d: Domain, duration: nat): (Domain, Outcome) {
    var next := AfterListing(Listing(d));
    if next.End? then (d, next.outcome) else
      var after := AfterDescribing(Description(d));
      if after.End? then (d, after.outcome) else
        var (d', reply) := OnAssociate(d, duration);
        (d', AfterCall(reply).outcome)
  }

  /** One whole poll of a delete. */
  function PollDissociated(d: Domain, stack: string, duration: nat): (Domain, Outcome) {
    var next := AfterStack(Got(stack));
    if next.End? then (d, next.outcome) else
      var after := AfterListingToDelete(Listing(d));
      if after.End? then (d, after.outcome) else
        var (d', reply) := OnDissociate(d, duration);
        (d', AfterCall(reply).outcome)
  }

  /** The remote domain the calls read and change. */
  class RemoteDomain {
    var state: Domain
    const duration: nat

    constructor (state: Domain, duration: nat)
      ensures this.state == state && this.duration == duration
    {
      this.state, this.duration := state, duration;
    }

    method AssociatePackage() returns (reply: Reply<()>)
      modifies this
      ensures (state, reply) == OnAssociate(old(state), duration)
    {
      var (d, r) := OnAssociate(state, duration);
      state, reply := d, r;
    }

    method DissociatePackage() returns (reply: Reply<()>)
      modifies this
      ensures (state, reply) == OnDissociate(old(state), duration)
    {
      var (d, r) := OnDissociate(state, duration);
      state, reply := d, r;
    }
  }

  /** The completion check, as one poll: its outcome and the domain it leaves. */
  method IsComplete(domain: RemoteDomain, request: Request, stack: string) returns (outcome: Outcome)
    modifies domain
    ensures request == CreateOrUpdate ==> (domain.state, outcome) == PollAssociated(old(domain.state), domain.duration)
    ensures request == Delete ==> (domain.state, outcome) == PollDissociated(old(domain.state), stack, domain.duration)
  {
    var next := if request == Delete then DescribeStacks else ListPackages;
    if next == DescribeStacks {
      next := AfterStack(Got(stack));
    }
    if next == ListPackages {
      var listing := Listing(domain.state);
      next := if request == Delete then AfterListingToDelete(listing) else AfterListing(listing);
    }
    if next == DescribeDomain {
      next := AfterDescribing(Description(domain.state));
    }
    if next == Associate {
      var reply := domain.AssociatePackage();
      next := AfterCall(reply);
    } else if next == Dissociate {
      var reply := domain.DissociatePackage();
      next := AfterCall(reply);
    }
    outcome := next.outcome;
  }

  // ----- Polls interleaved with the domain's own steps

  /** Where the controller stands: between polls, or about to make the next call of one. */
  datatype Phase = Idle | Polling(request: Request, next: Next)

  datatype World = World(domain: Domain, stack: string, phase: Phase)

  /** Each call is one event, answered by the domain or failed by the service; others act between any two. */
  datatype Event =
    | StartPoll(request: Request)
    | ReadStack(error: Option<string>)
    | ReadListing(error: Option<string>)
    | ReadDescription(error: Option<string>)
    | CallAssociate(error: Option<string>, duration: nat)
    | CallDissociate(error: Option<string>, duration: nat)
    | EndPoll(outcome: Outcome)
    | DomainActs(to: Domain)
    | StackMoves(status: string)

  function Or<T>(error: Option<string>, reply: Reply<T>): Reply<T> {
    if error.Some? then Failed(error.value) else reply
  }

  predicate Expects(w: World, next: Next) {
    w.phase.Polling? && w.phase.next == next
  }

  predicate CanStep(w: World, e: Event) {
    match e
    case StartPoll(_) => w.phase == Idle
    case ReadStack(_) => Expects(w, DescribeStacks)
    case ReadListing(_) => Expects(w, ListPackages)
    case ReadDescription(_) => Expects(w, DescribeDomain)
    case CallAssociate(_, _) => Expects(w, Associate)
    case CallDissociate(_, _) => Expects(w, Dissociate)
    case EndPoll(outcome) => Expects(w, End(outcome))
    case DomainActs(_) => true
    case StackMoves(_) => true
  }

  function GoOn(w: World, next: Next): World
    requires w.phase.Polling?
  {
    w.(phase := Polling(w.phase.request, next))
  }

  function Step(w: World, e: Event): World
    requires CanStep(w, e)
  {
    match e
    case StartPoll(request) => w.(phase := Polling(request, if request == Delete then DescribeStacks else ListPackages))
    case ReadStack(error) => GoOn(w, AfterStack(Or(error, Got(w.stack))))
    case ReadListing(error) =>
      var reply := Or(error, Listing(w.domain));
      GoOn(w, if w.phase.request == Delete then AfterListingToDelete(reply) else AfterListing(reply))
    case ReadDescription(error) => GoOn(w, AfterDescribing(Or(error, Description(w.domain))))
    case CallAssociate(error, duration) =>
      if error.Some? then GoOn(w, OnError(error.value))
      else
        var (d, reply) := OnAssociate(w.domain, duration);
        GoOn(w.(domain := d), AfterCall(reply))
    case CallDissociate(error, duration) =>
      if error.Some? then GoOn(w, OnError(error.value))
      else
        var (d, reply) := OnDissociate(w.domain, duration);
        GoOn(w.(domain := d), AfterCall(reply))
    case EndPoll(_) => w.(phase := Idle)
    case DomainActs(to) => w.(domain := to)
    case StackMoves(status) => w.(stack := status)
  }

  /** Any interleaving of polls with what happens to the domain and the stack meanwhile. */
  ghost predicate IsRun(worlds: seq<World>, events: seq<Event>) {
    && |worlds| == |events| + 1 && worlds[0].phase == Idle
    && forall i :: 0 <= i < |events| ==> CanStep(worlds[i], events[i]) && worlds[i + 1] == Step(worlds[i], events[i])
  }

  /** The poll's next call, answered without an error. */
  function CallOf(next: Next, duration: nat): Event
    requires !next.End?
  {
    match next
    case DescribeStacks => ReadStack(None)
    case ListPackages => ReadListing(None)
    case DescribeDomain => ReadDescription(None)
    case Associate => CallAssociate(None, duration)
    case Dissociate => CallDissociate(None, duration)
  }

  /** Where a poll ends when its calls follow one another with nothing between them. */
  function Alone(w: World, duration: nat, calls: nat): World
    requires w.phase.Polling?
    decreases calls
  {
    if calls == 0 || w.phase.next.End? then w else Alone(Step(w, CallOf(w.phase.next, duration)), duration, calls - 1)
  }

  /** A poll is at most three calls, and with nothing between them they are one run of the completion check. */
  lemma PollAlone(w: World, request: Request, duration: nat)
    requires w.phase == Idle
    ensures var (d, outcome) :=
        if request == Delete then PollDissociated(w.domain, w.stack, duration) else PollAssociated(w.domain, duration);
      var last := Alone(Step(w, StartPoll(request)), duration, 3);
      last.domain == d && Expects(last, End(outcome))
  {
    var first := Step(w, StartPoll(request));
    var second := Step(first, CallOf(first.phase.next, duration));
    if !second.phase.next.End? {
      var third := Step(second, CallOf(second.phase.next, duration));
      assert Alone(first, duration, 3) == Alone(third, duration, 1);
    }
  }

  /** One poll spans the moments from j to i. */
  ghost predicate SamePoll(worlds: seq<World>, j: nat, i: nat, request: Request) {
    j <= i < |worlds| && forall k :: j <= k <= i ==> worlds[k].phase.Polling? && worlds[k].phase.request == request
  }

  ghost predicate Listed(worlds: seq<World>, events: seq<Event>, j: nat, status: Option<Status>) {
    j < |events| < |worlds| && events[j] == ReadListing(None) && !worlds[j].domain.gone
        && worlds[j].domain.association == status
  }

  ghost predicate SawNoChange(worlds: seq<World>, events: seq<Event>, j: nat) {
    j < |events| < |worlds| && events[j] == ReadDescription(None) && !Changing(worlds[j].domain)
  }

  ghost predicate SawCleanup(worlds: seq<World>, events: seq<Event>, j: nat) {
    j < |events| < |worlds| && events[j] == ReadStack(None) && worlds[j].stack == "UPDATE_COMPLETE_CLEANUP_IN_PROGRESS"
  }

  /** A poll that is about to describe the domain has listed it without the package. */
  lemma {:induction false} WhyDescribe(worlds: seq<World>, events: seq<Event>, i: nat) returns (j: nat)
    requires IsRun(worlds, events) && i < |worlds| && Expects(worlds[i], DescribeDomain)
    ensures j < i && Listed(worlds, events, j, None) && SamePoll(worlds, j, i, CreateOrUpdate)
  {
    assert worlds[i] == Step(worlds[i - 1], events[i - 1]);
    if events[i - 1].DomainActs? || events[i - 1].StackMoves? {
      j := WhyDescribe(worlds, events, i - 1);
    } else {
      j := i - 1;
    }
  }

  /**
   * The associate call is made only in a poll of a create or update that listed the domain
   * without the package, and after that saw it run no change.
   */
  lemma {:induction false} WhyAssociate(worlds: seq<World>, events: seq<Event>, i: nat) returns (j: nat, k: nat)
    requires IsRun(worlds, events) && i < |worlds| && Expects(worlds[i], Associate)
    ensures j < k < i && Listed(worlds, events, j, None) && SawNoChange(worlds, events, k)
    ensures SamePoll(worlds, j, i, CreateOrUpdate)
  {
    assert worlds[i] == Step(worlds[i - 1], events[i - 1]);
    if events[i - 1].DomainActs? || events[i - 1].StackMoves? {
      j, k := WhyAssociate(worlds, events, i - 1);
    } else {
      k := i - 1;
      j := WhyDescribe(worlds, events, k);
    }
  }

  /** A delete that lists the domain has seen its stack in an update's cleanup. */
  lemma {:induction false} WhyListToDelete(worlds: seq<World>, events: seq<Event>, i: nat) returns (j: nat)
    requires IsRun(worlds, events) && i < |worlds|
    requires Expects(worlds[i], ListPackages) && worlds[i].phase.request == Delete
    ensures j < i && SawCleanup(worlds, events, j) && SamePoll(worlds, j, i, Delete)
  {
    assert worlds[i] == Step(worlds[i - 1], events[i - 1]);
    if events[i - 1].DomainActs? || events[i - 1].StackMoves? {
      j := WhyListToDelete(worlds, events, i - 1);
    } else {
      j := i - 1;
      OnlyDeletesReadTheStack(worlds, events, j);
    }
  }

  lemma {:induction false} OnlyDeletesReadTheStack(worlds: seq<World>, events: seq<Event>, i: nat)
    requires IsRun(worlds, events) && i < |worlds| && Expects(worlds[i], DescribeStacks)
    ensures worlds[i].phase.request == Delete
  {
    assert worlds[i] == Step(worlds[i - 1], events[i - 1]);
    if events[i - 1].DomainActs? || events[i - 1].StackMoves? {
      OnlyDeletesReadTheStack(worlds, events, i - 1);
    }
  }

  /**
   * The dissociate call is made only in a delete's poll that saw the stack in an update's
   * cleanup, and after that the package active or its association failed.
   */
  lemma {:induction false} WhyDissociate(worlds: seq<World>, events: seq<Event>, i: nat) returns (j: nat, k: nat)
    requires IsRun(worlds, events) && i < |worlds| && Expects(worlds[i], Dissociate)
    ensures j < k < i && SawCleanup(worlds, events, j) && SamePoll(worlds, j, i, Delete)
    ensures Listed(worlds, events, k, Some(Active)) || Listed(worlds, events, k, Some(AssociationFailed))
  {
    assert worlds[i] == Step(worlds[i - 1], events[i - 1]);
    if events[i - 1].DomainActs? || events[i - 1].StackMoves? {
      j, k := WhyDissociate(worlds, events, i - 1);
    } else {
      k := i - 1;
      j := WhyListToDelete(worlds, events, k);
    }
  }

  /** A create or update is complete only in a poll that listed the package as active. */
  lemma {:induction false} WhyComplete(worlds: seq<World>, events: seq<Event>, i: nat) returns (j: nat)
    requires IsRun(worlds, events) && i < |worlds|
    requires Expects(worlds[i], End(Complete)) && worlds[i].phase.request == CreateOrUpdate
    ensures j < i && Listed(worlds, events, j, Some(Active)) && SamePoll(worlds, j, i, CreateOrUpdate)
  {
    assert worlds[i] == Step(worlds[i - 1], events[i - 1]);
    if events[i - 1].DomainActs? || events[i - 1].StackMoves? {
      j := WhyComplete(worlds, events, i - 1);
    } else {
      j := i - 1;
      if events[j].ReadStack? {
        OnlyDeletesReadTheStack(worlds, events, j);
      }
    }
  }

  /**
   * A delete is complete only in a poll that saw the stack outside an update's cleanup, or
   * that found the package not associated, or the domain gone.
   */
  lemma {:induction false} WhyDeleted(worlds: seq<World>, events: seq<Event>, i: nat) returns (j: nat)
    requires IsRun(worlds, events) && i < |worlds|
    requires Expects(worlds[i], End(Complete)) && worlds[i].phase.request == Delete
    ensures j < i && j < |events| && SamePoll(worlds, j, i, Delete)
    ensures (events[j] == ReadStack(None) && worlds[j].stack != UPDATE_CLEANUP)
      || Listed(worlds, events, j, None)
      || (events[j] == ReadListing(None) && worlds[j].domain.gone)
      || events[j] == ReadListing(Some(NOT_FOUND))
  {
    assert worlds[i] == Step(worlds[i - 1], events[i - 1]);
    if events[i - 1].DomainActs? || events[i - 1].StackMoves? {
      j := WhyDeleted(worlds, events, i - 1);
    } else {
      j := i - 1;
      if events[j].ReadDescription? {
        var k := WhyDescribe(worlds, events, j);
      }
    }
  }

  /** While the package is associated, by whatever hand, no poll that begins meanwhile calls associate. */
  lemma HandMadeAssociationStands(worlds: seq<World>, events: seq<Event>, i: nat, n: nat)
    requires IsRun(worlds, events) && i <= n < |worlds| && worlds[i].phase == Idle
    requires forall k :: i <= k <= n ==> worlds[k].domain.association.Some?
    ensures forall k :: i <= k < n ==> !events[k].CallAssociate?
  {
    forall k | i <= k < n && events[k].CallAssociate?
      ensures false
    {
      var j, _ := WhyAssociate(worlds, events, k);
    }
  }

  /** Outside a stack update's cleanup, a delete leaves the package alone. */
  lemma RetainedPackageStands(worlds: seq<World>, events: seq<Event>, i: nat, n: nat)
    requires IsRun(worlds, events) && i <= n < |worlds| && worlds[i].phase == Idle
    requires forall k :: i <= k <= n ==> worlds[k].stack != UPDATE_CLEANUP
    ensures forall k :: i <= k < n ==> !events[k].CallDissociate?
  {
    forall k | i <= k < n && events[k].CallDissociate?
      ensures false
    {
      var j, _ := WhyDissociate(worlds, events, k);
    }
  }

  // ----- When a poll raises, and when it asks to be polled again

  /** The error a call of the poll meets: the service's, or the domain's own refusal. */
  ghost function ErrorMet(w: World, e: Event): Option<string> {
    var gone := Some("ResourceNotFoundException");
    var busy := w.domain.processing || w.domain.upgrading;
    match e
    case ReadStack(error) => error
    case ReadListing(error) => if error.None? && w.domain.gone then gone else error
    case ReadDescription(error) => if error.None? && w.domain.gone then gone else error
    case CallAssociate(error, _) =>
      if error.Some? then error
      else if w.domain.gone then gone
      else if w.domain.association.Some? || busy then Some("ConflictException") else None
    case CallDissociate(error, _) =>
      if error.Some? then error
      else if w.domain.gone then gone
      else if w.domain.association !in {Some(Active), Some(AssociationFailed)} || busy then Some("ConflictException")
      else None
    case _ => None
  }

  ghost predicate ClearsByItself(code: string) {
    code in {"ConflictException", "Throttling", "ThrottlingException", "TooManyRequests"}
  }

  /** The call lists the package with this status. */
  ghost predicate Lists(w: World, e: Event, status: Status) {
    e == ReadListing(None) && !w.domain.gone && w.domain.association == Some(status)
  }

  /** What a poll raises on: an error that does not clear by itself, or a failed package. */
  ghost predicate Raises(w: World, e: Event, request: Request) {
    var error := ErrorMet(w, e);
    || (&& error.Some? && !ClearsByItself(error.value)
        && !(request == Delete && e.ReadListing? && error.value == "ResourceNotFoundException"))
    || Lists(w, e, DissociationFailed)
    || (request == CreateOrUpdate && Lists(w, e, AssociationFailed))
  }

  ghost predicate IsCall(e: Event) {
    e.ReadStack? || e.ReadListing? || e.ReadDescription? || e.CallAssociate? || e.CallDissociate?
  }

  /** A call leads its poll to raise exactly when it meets such an error or lists such a package. */
  lemma RaisesIff(w: World, e: Event)
    requires CanStep(w, e) && IsCall(e)
    ensures Expects(Step(w, e), End(Raised)) <==> Raises(w, e, w.phase.request)
  {
  }

  /** A poll that raises made a call it had to raise on, and since then only waited to say so. */
  lemma {:induction false} WhyRaised(worlds: seq<World>, events: seq<Event>, i: nat) returns (j: nat)
    requires IsRun(worlds, events) && i < |worlds| && Expects(worlds[i], End(Raised))
    ensures j < i && j < |events| && IsCall(events[j]) && SamePoll(worlds, j, i, worlds[i].phase.request)
    ensures Raises(worlds[j], events[j], worlds[i].phase.request)
  {
    assert worlds[i] == Step(worlds[i - 1], events[i - 1]);
    if events[i - 1].DomainActs? || events[i - 1].StackMoves? {
      j := WhyRaised(worlds, events, i - 1);
    } else {
      j := i - 1;
      RaisesIff(worlds[j], events[j]);
    }
  }

  /** What a poll answers "not yet" to: an error that clears by itself, a change under way, or its own request. */
  ghost predicate Waits(w: World, e: Event) {
    var error := ErrorMet(w, e);
    || (error.Some? && ClearsByItself(error.value))
    || Lists(w, e, Associating) || Lists(w, e, Dissociating) || Lists(w, e, Unknown)
    || (e == ReadDescription(None) && !w.domain.gone && (w.domain.processing || w.domain.upgrading))
    || ((e.CallAssociate? || e.CallDissociate?) && error.None?)
  }

  /** A call leads its poll to ask for another exactly then. */
  lemma WaitsIff(w: World, e: Event)
    requires CanStep(w, e) && IsCall(e)
    ensures Expects(Step(w, e), End(Incomplete)) <==> Waits(w, e)
  {
  }

  // ----- Progress

  /** One step of a domain whose changes succeed. */
  function Settle(d: Domain): Domain {
    if d.association != Some(Associating) && d.association != Some(Dissociating) && !Changing(d) then d
    else if d.left > 0 then d.(left := d.left - 1)
    else Domain(d.gone,
                if d.association == Some(Associating) then Some(Active)
                else if d.association == Some(Dissociating) then None else d.association,
                false, false, 0)
  }

  /** Nothing about the domain makes a poll for this request raise. */
  predicate Healthy(request: Request, d: Domain) {
    if request == Delete then d.gone || (d.association != Some(DissociationFailed) && d.association != Some(Unknown))
    else !d.gone && d.association in {None, Some(Associating), Some(Active), Some(Dissociating)}
  }

  /** What the request asks for is the case. */
  predicate Done(request: Request, d: Domain) {
    if request == Delete then d.gone || d.association.None? else d.association == Some(Active)
  }

  /** The domain is at a change of its own, which its steps finish. */
  predicate Working(request: Request, d: Domain) {
    !Done(request, d) && (d.association == Some(Associating) || d.association == Some(Dissociating) || Changing(d))
  }

  /** How many rounds a request is from done, when an association takes at most `duration` steps. */
  function Rank(request: Request, d: Domain, duration: nat): nat {
    if Done(request, d) then 0
    else if d.association == Some(if request == Delete then Dissociating else Associating) then 1 + d.left
    else if !Working(request, d) then 2 + duration
    else 3 + duration + d.left
  }

  /** No call fails, nobody else changes the domain, and only this request is polled; the stack may move. */
  predicate Quiet(request: Request, duration: nat, w: World, e: Event) {
    match e
    case StartPoll(r) => r == request
    case ReadStack(error) => error.None?
    case ReadListing(error) => error.None?
    case ReadDescription(error) => error.None?
    case CallAssociate(error, steps) => error.None? && steps <= duration
    case CallDissociate(error, steps) => error.None? && steps <= duration
    case EndPoll(_) => true
    case DomainActs(to) => to == Settle(w.domain)
    case StackMoves(_) => true
  }

  ghost predicate IsQuietRun(request: Request, duration: nat, worlds: seq<World>, events: seq<Event>) {
    && IsRun(worlds, events) && Healthy(request, worlds[0].domain)
    && forall i :: 0 <= i < |events| ==> Quiet(request, duration, worlds[i], events[i])
  }

  /** The domain is healthy, and the poll under way is one of the request that has not raised. */
  predicate OnCourse(request: Request, w: World) {
    && Healthy(request, w.domain)
    && (w.phase.Polling? ==>
      && w.phase.request == request
      && (w.phase.next == Dissociate ==> request == Delete && !w.domain.gone)
      && (w.phase.next in {DescribeDomain, Associate} ==> request == CreateOrUpdate)
      && w.phase.next != End(Raised))
  }

  /**
   * Over every quiet event, whatever the poll under way has seen: the rank never rises, it falls
   * with each step of a domain at work and with each call that is answered, and while it stays
   * the domain neither starts nor finishes a change the request waits for.
   */
  lemma QuietStep(request: Request, duration: nat, w: World, e: Event)
    requires CanStep(w, e) && Quiet(request, duration, w, e) && OnCourse(request, w)
    ensures OnCourse(request, Step(w, e))
    ensures var d, d' := w.domain, Step(w, e).domain;
      && Rank(request, d', duration) <= Rank(request, d, duration)
      && (e.DomainActs? && Working(request, d) ==> Rank(request, d', duration) < Rank(request, d, duration))
      && ((e.CallAssociate? || e.CallDissociate?) && d' != d ==> Rank(request, d', duration) < Rank(request, d, duration))
      && (Rank(request, d', duration) == Rank(request, d, duration) ==> Working(request, d') == Working(request, d))
  {
  }

  lemma {:induction false} QuietSteps(request: Request, duration: nat, worlds: seq<World>, events: seq<Event>,
                                      i: nat, j: nat)
    requires IsQuietRun(request, duration, worlds, events) && i <= j < |worlds|
    ensures OnCourse(request, worlds[i]) && OnCourse(request, worlds[j])
    ensures Rank(request, worlds[j].domain, duration) <= Rank(request, worlds[i].domain, duration)
    ensures Rank(request, worlds[j].domain, duration) == Rank(request, worlds[i].domain, duration)
      ==> Working(request, worlds[j].domain) == Working(request, worlds[i].domain)
    decreases j
  {
    if i < j {
      QuietSteps(request, duration, worlds, events, i, j - 1);
      QuietStep(request, duration, worlds[j - 1], events[j - 1]);
    } else if j > 0 {
      QuietSteps(request, duration, worlds, events, j - 1, j - 1);
      QuietStep(request, duration, worlds[j - 1], events[j - 1]);
    }
  }

  /** What a poll that began with the domain not at work goes on to, until it makes its call or completes. */
  predicate Decides(request: Request, w: World) {
    && w.phase.Polling? && w.phase.request == request
    && match w.phase.next
       case DescribeStacks => request == Delete
       case ListPackages => true
       case DescribeDomain => !Done(request, w.domain)
       case Associate => !Done(request, w.domain)
       case Dissociate => w.domain.association == Some(Active) || w.domain.association == Some(AssociationFailed)
       case End(outcome) => outcome == Complete
  }

  lemma DecidesStep(request: Request, duration: nat, w: World, e: Event)
    requires CanStep(w, e) && Quiet(request, duration, w, e) && OnCourse(request, w)
    requires !Working(request, w.domain) && Decides(request, w) && e != EndPoll(Complete)
    requires Rank(request, Step(w, e).domain, duration) == Rank(request, w.domain, duration)
    ensures Decides(request, Step(w, e))
  {
  }

  lemma {:induction false} PollDecides(request: Request, duration: nat, worlds: seq<World>, events: seq<Event>,
                                       p: nat, k: nat)
    requires IsQuietRun(request, duration, worlds, events) && p < k < |worlds|
    requires events[p].StartPoll? && !Working(request, worlds[p].domain)
    requires forall i :: p <= i < k ==> events[i] != EndPoll(Complete)
    requires Rank(request, worlds[k].domain, duration) == Rank(request, worlds[p].domain, duration)
    ensures Decides(request, worlds[k])
  {
    QuietSteps(request, duration, worlds, events, p, k - 1);
    QuietStep(request, duration, worlds[k - 1], events[k - 1]);
    if p < k - 1 {
      PollDecides(request, duration, worlds, events, p, k - 1);
      DecidesStep(request, duration, worlds[k - 1], events[k - 1]);
    }
  }

  /** Between two moments a whole poll passes and the domain takes a step, in whatever order and however interleaved. */
  ghost predicate IsRound(events: seq<Event>, a: nat, b: nat) {
    && a <= b <= |events|
    && (exists p, q :: a <= p < q < b && events[p].StartPoll? && events[q].EndPoll?)
    && (exists s :: a <= s < b && events[s].DomainActs?)
  }

  /** Every round of a quiet run brings the request nearer, or completes it. */
  lemma {:induction false} RoundMakesProgress(request: Request, duration: nat, worlds: seq<World>, events: seq<Event>,
                                              a: nat, b: nat)
    requires IsQuietRun(request, duration, worlds, events) && IsRound(events, a, b)
    requires forall i :: a <= i < b ==> events[i] != EndPoll(Complete)
    ensures Rank(request, worlds[b].domain, duration) < Rank(request, worlds[a].domain, duration)
  {
    var p, q :| a <= p < q < b && events[p].StartPoll? && events[q].EndPoll?;
    var s :| a <= s < b && events[s].DomainActs?;
    QuietSteps(request, duration, worlds, events, a, b);
    if Rank(request, worlds[b].domain, duration) == Rank(request, worlds[a].domain, duration) {
      if Working(request, worlds[a].domain) {
        QuietSteps(request, duration, worlds, events, a, s);
        QuietStep(request, duration, worlds[s], events[s]);
        QuietSteps(request, duration, worlds, events, s + 1, b);
      } else {
        QuietSteps(request, duration, worlds, events, a, p);
        QuietSteps(request, duration, worlds, events, p, q);
        QuietSteps(request, duration, worlds, events, q, b);
        PollDecides(request, duration, worlds, events, p, q);
      }
      assert false;
    }
  }

  /** The moments `cuts` divide a run into rounds. */
  ghost predicate AreRounds(events: seq<Event>, cuts: seq<nat>) {
    |cuts| > 0 && cuts[0] <= |events| && forall k :: 0 < k < |cuts| ==> IsRound(events, cuts[k - 1], cuts[k])
  }

  /** Until the request completes, each round costs it a rank. */
  lemma {:induction false} RoundsCost(request: Request, duration: nat, worlds: seq<World>, events: seq<Event>,
                                      cuts: seq<nat>, n: nat)
    requires IsQuietRun(request, duration, worlds, events) && AreRounds(events, cuts) && n < |cuts|
    requires forall i :: 0 <= i < |events| ==> events[i] != EndPoll(Complete)
    ensures cuts[n] <= |events| && Rank(request, worlds[cuts[n]].domain, duration) + n <= Rank(request, worlds[0].domain, duration)
  {
    if n == 0 {
      QuietSteps(request, duration, worlds, events, 0, cuts[0]);
    } else {
      assert IsRound(events, cuts[n - 1], cuts[n]);
      RoundsCost(request, duration, worlds, events, cuts, n - 1);
      RoundMakesProgress(request, duration, worlds, events, cuts[n - 1], cuts[n]);
    }
  }

  lemma NeverRaises(request: Request, duration: nat, worlds: seq<World>, events: seq<Event>)
    requires IsQuietRun(request, duration, worlds, events)
    ensures forall k :: 0 <= k < |events| ==> events[k] != EndPoll(Raised)
  {
    forall k | 0 <= k < |events|
      ensures events[k] != EndPoll(Raised)
    {
      QuietSteps(request, duration, worlds, events, k, k);
    }
  }

  /**
   * A create or update completes in every quiet run of more rounds than its rank, however polls
   * and the domain's steps interleave, with the package active; and no poll raises.
   */
  lemma AssociationCompletes(duration: nat, worlds: seq<World>, events: seq<Event>, cuts: seq<nat>) returns (i: nat)
    requires IsQuietRun(CreateOrUpdate, duration, worlds, events) && AreRounds(events, cuts)
    requires |cuts| - 1 > Rank(CreateOrUpdate, worlds[0].domain, duration)
    ensures i < |events| && events[i] == EndPoll(Complete) && worlds[i].domain.association == Some(Active)
    ensures forall k :: 0 <= k < |events| ==> events[k] != EndPoll(Raised)
  {
    NeverRaises(CreateOrUpdate, duration, worlds, events);
    if forall k :: 0 <= k < |events| ==> events[k] != EndPoll(Complete) {
      RoundsCost(CreateOrUpdate, duration, worlds, events, cuts, |cuts| - 1);
      assert false;
    }
    i :| i < |events| && events[i] == EndPoll(Complete);
    QuietSteps(CreateOrUpdate, duration, worlds, events, i, i);
    var j := WhyComplete(worlds, events, i);
    QuietSteps(CreateOrUpdate, duration, worlds, events, j, i);
  }

  /**
   * So does a delete, within its own rank; polled in a stack update's cleanup throughout, it
   * leaves the package dissociated or the domain gone.
   */
  lemma DissociationCompletes(duration: nat, worlds: seq<World>, events: seq<Event>, cuts: seq<nat>) returns (i: nat)
    requires IsQuietRun(Delete, duration, worlds, events) && AreRounds(events, cuts)
    requires |cuts| - 1 > Rank(Delete, worlds[0].domain, duration)
    ensures i < |events| && events[i] == EndPoll(Complete)
    ensures (forall k :: 0 <= k <= i ==> worlds[k].stack == UPDATE_CLEANUP) ==>
      worlds[i].domain.gone || worlds[i].domain.association.None?
    ensures forall k :: 0 <= k < |events| ==> events[k] != EndPoll(Raised)
  {
    NeverRaises(Delete, duration, worlds, events);
    if forall k :: 0 <= k < |events| ==> events[k] != EndPoll(Complete) {
      RoundsCost(Delete, duration, worlds, events, cuts, |cuts| - 1);
      assert false;
    }
    i :| i < |events| && events[i] == EndPoll(Complete);
    QuietSteps(Delete, duration, worlds, events, i, i);
    var j := WhyDeleted(worlds, events, i);
    QuietSteps(Delete, duration, worlds, events, j, i);
    assert Quiet(Delete, duration, worlds[j], events[j]);
  }
}
