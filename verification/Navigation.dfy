/** The race of a navigation in the service worker: the network, the timeout and the cache lookups
    for the offline page that either of them may start. */
module Navigation {
  import opened Wrappers

  /** `ErrorPage` is the answer when the offline page is not in the cache. */
  datatype Response = FromNetwork(id: int) | OfflinePage | ErrorPage

  datatype Timer = Armed | Cleared | Fired
  datatype Fetch = Waiting | Succeeded | Failed
  datatype Lookup = NotStarted | Started | Answered | Rejected

  /** `resolved` counts the calls of the promise's resolve function. */
  datatype State = State(
    timer: Timer, fetch: Fetch, onTimeout: Lookup, onFailure: Lookup,
    settled: bool, result: Option<Response>, resolved: nat)

  const START := State(Armed, Waiting, NotStarted, NotStarted, false, None, 0)

  /** What the browser may do next; a lookup answers with or without a page, or is rejected. */
  datatype Event =
    | TimerFires
    | FetchSucceeds(id: int)
    | FetchFails
    | TimeoutLookupAnswers(found: bool)
    | TimeoutLookupIsRejected
    | FailureLookupAnswers(found: bool)
    | FailureLookupIsRejected

  predicate Enabled(s: State, e: Event) {
    match e
    case TimerFires => s.timer == Armed
    case FetchSucceeds(_) | FetchFails => s.fetch == Waiting
    case TimeoutLookupAnswers(_) | TimeoutLookupIsRejected => s.onTimeout == Started
    case FailureLookupAnswers(_) | FailureLookupIsRejected => s.onFailure == Started
  }

  function Finish(s: State, r: Response): State {
    if s.settled then s else s.(settled := true, result := Some(r), resolved := s.resolved + 1)
  }

  function ClearTimer(s: State): State { if s.timer == Armed then s.(timer := Cleared) else s }

  function PageOrError(found: bool): Response { if found then OfflinePage else ErrorPage }

  function Step(s: State, e: Event): State {
    match e
    case TimerFires => s.(timer := Fired, onTimeout := Started)
    case FetchSucceeds(id) => Finish(ClearTimer(s.(fetch := Succeeded)), FromNetwork(id))
    case FetchFails => ClearTimer(s.(fetch := Failed)).(onFailure := Started)
    case TimeoutLookupAnswers(found) => Finish(s.(onTimeout := Answered), PageOrError(found))
    case TimeoutLookupIsRejected => s.(onTimeout := Rejected)
    case FailureLookupAnswers(found) => Finish(s.(onFailure := Answered), PageOrError(found))
    case FailureLookupIsRejected => s.(onFailure := Rejected)
  }

  predicate IsRun(s: State, events: seq<Event>)
    decreases |events|
  {
    events != [] ==> Enabled(s, events[0]) && IsRun(Step(s, events[0]), events[1..])
  }

  function After(s: State, events: seq<Event>): State
    decreases |events|
  {
    if events == [] then s else After(Step(s, events[0]), events[1..])
  }

  /** The callbacks of one navigation over their shared variables. */
  class NetworkFirst {
    var timer: Timer
    var fetch: Fetch
    var onTimeout: Lookup
    var onFailure: Lookup
    var settled: bool
    var result: Option<Response>
    var resolved: nat

    function View(): State
      reads this
    {
      State(timer, fetch, onTimeout, onFailure, settled, result, resolved)
    }

    constructor ()
      ensures View() == START
    {
      timer, fetch, onTimeout, onFailure := Armed, Waiting, NotStarted, NotStarted;
      settled, result, resolved := false, None, 0;
    }

    method FinishWith(r: Response)
      modifies this
      ensures View() == Finish(old(View()), r)
    {
      if settled {
        return;
      }
      settled := true;
      result, resolved := Some(r), resolved + 1;
    }

    method ClearTimeout()
      modifies this`timer
      ensures View() == ClearTimer(old(View()))
    {
      if timer == Armed {
        timer := Cleared;
      }
    }

    method Handle(e: Event)
      requires Enabled(View(), e)
      modifies this
      ensures View() == Step(old(View()), e)
    {
      match e
      case TimerFires =>
        timer := Fired;
        onTimeout := Started;
      case FetchSucceeds(id) =>
        fetch := Succeeded;
        ClearTimeout();
        FinishWith(FromNetwork(id));
      case FetchFails =>
        fetch := Failed;
        ClearTimeout();
        onFailure := Started;
      case TimeoutLookupAnswers(found) =>
        onTimeout := Answered;
        FinishWith(PageOrError(found));
      case TimeoutLookupIsRejected => onTimeout := Rejected;
      case FailureLookupAnswers(found) =>
        onFailure := Answered;
        FinishWith(PageOrError(found));
      case FailureLookupIsRejected => onFailure := Rejected;
    }
  }

  // ----- what every interleaving keeps

  predicate IsReachableShape(s: State) {
    && (s.settled <==> s.resolved == 1) && (s.settled <==> s.result.Some?) && s.resolved <= 1
    && (s.onTimeout != NotStarted <==> s.timer == Fired)
    && (s.onFailure != NotStarted <==> s.fetch == Failed)
    && (s.timer == Armed ==> s.fetch == Waiting && !s.settled)
    && (s.timer == Cleared ==> s.fetch != Waiting)
    && (s.settled <==> s.fetch == Succeeded || s.onTimeout == Answered || s.onFailure == Answered)
  }

  lemma {:induction false} RunKeepsShape(s: State, events: seq<Event>)
    requires IsReachableShape(s) && IsRun(s, events)
    ensures IsReachableShape(After(s, events))
    ensures s.settled ==> After(s, events).result == s.result
    decreases |events|
  {
    if events != [] {
      RunKeepsShape(Step(s, events[0]), events[1..]);
    }
  }

  /** In every interleaving the promise is resolved at most once, and its answer never changes. */
  lemma ResolvesAtMostOnce(before: seq<Event>, after: seq<Event>)
    requires IsRun(START, before) && IsRun(After(START, before), after)
    ensures After(START, before).resolved <= After(After(START, before), after).resolved <= 1
    ensures After(START, before).resolved == 1 ==>
      After(After(START, before), after).result == After(START, before).result != None
  {
    RunKeepsShape(START, before);
    RunKeepsShape(After(START, before), after);
  }

  /** A network answer that comes while the timer is armed is the answer of the navigation. */
  lemma NetworkInTimeWins(before: seq<Event>, id: int, after: seq<Event>)
    requires IsRun(START, before) && After(START, before).timer == Armed
    requires Enabled(After(START, before), FetchSucceeds(id))
    requires IsRun(Step(After(START, before), FetchSucceeds(id)), after)
    ensures After(Step(After(START, before), FetchSucceeds(id)), after).result == Some(FromNetwork(id))
  {
    RunKeepsShape(START, before);
    RunKeepsShape(Step(After(START, before), FetchSucceeds(id)), after);
  }

  /** The answer that the first answering event of a run brings. */
  function FirstAnswer(events: seq<Event>): Option<Response> {
    if events == [] then None
    else
      match events[0]
      case FetchSucceeds(id) => Some(FromNetwork(id))
      case TimeoutLookupAnswers(found) => Some(if found then OfflinePage else ErrorPage)
      case FailureLookupAnswers(found) => Some(if found then OfflinePage else ErrorPage)
      case TimerFires | FetchFails | TimeoutLookupIsRejected | FailureLookupIsRejected => FirstAnswer(events[1..])
  }

  /** In every interleaving the answer is that of the first event that brings one: the network's, the
      offline page where a lookup finds it, or the error page where it does not. */
  lemma {:induction false} AnswerIsTheFirst(s: State, events: seq<Event>)
    requires IsReachableShape(s) && !s.settled && IsRun(s, events)
    ensures After(s, events).result == FirstAnswer(events)
    decreases |events|
  {
    if events != [] {
      var next := Step(s, events[0]);
      if next.settled {
        RunKeepsShape(next, events[1..]);
      } else {
        AnswerIsTheFirst(next, events[1..]);
      }
    }
  }

  /** How many events are still to come at most. */
  function Left(s: State): nat {
    (if s.timer == Armed then 2 else 0) + (if s.fetch == Waiting then 2 else 0)
    + (if s.onTimeout == Started then 1 else 0) + (if s.onFailure == Started then 1 else 0)
  }

  lemma {:induction false} EventsRunOut(s: State, events: seq<Event>)
    requires IsReachableShape(s) && IsRun(s, events)
    ensures Left(After(s, events)) + |events| <= Left(s)
    decreases |events|
  {
    if events != [] {
      EventsRunOut(Step(s, events[0]), events[1..]);
    }
  }

  /** Every navigation comes to rest after four events at most. */
  lemma AtMostFourEvents(events: seq<Event>)
    requires IsRun(START, events)
    ensures |events| <= 4
  {
    EventsRunOut(START, events);
  }

  ghost predicate IsQuiet(s: State) { forall e :: !Enabled(s, e) }

  /** When nothing can happen any more, the navigation is answered if and only if the network
      answered or the cache answered at least one lookup. */
  lemma QuietMeansAnsweredIff(events: seq<Event>)
    requires IsRun(START, events) && IsQuiet(After(START, events))
    ensures
      var end := After(START, events);
      && (end.result.Some? <==> !(end.fetch == Failed && end.onFailure == Rejected && end.onTimeout != Answered))
      && (TimeoutLookupIsRejected !in events && FailureLookupIsRejected !in events ==> end.result.Some?)
  {
    RunKeepsShape(START, events);
    if FailureLookupIsRejected !in events {
      RejectionIsAnEvent(START, events);
    }
    var end := After(START, events);
    assert !Enabled(end, FetchFails) && !Enabled(end, TimerFires);
    assert !Enabled(end, TimeoutLookupIsRejected) && !Enabled(end, FailureLookupIsRejected);
  }

  lemma {:induction false} RejectionIsAnEvent(s: State, events: seq<Event>)
    requires s.onFailure != Rejected && FailureLookupIsRejected !in events
    ensures After(s, events).onFailure != Rejected
    decreases |events|
  {
    if events != [] {
      RejectionIsAnEvent(Step(s, events[0]), events[1..]);
    }
  }
}
