/**
 * Keeping the screen awake (src/lib/use-wake-lock.ts): the variables one call closes over, the callbacks that change
 * them, and the events of the browser in any order. A request that is answered runs its continuation at once.
 */
module WakeLock {
  import opened Wrappers

  type Sentinel = nat

  /**
   * `held` are the sentinels that were granted and neither released by the browser nor asked to release; `requests`
   * counts the requests that are not answered yet.
   */
  datatype State = State(
    lock: Option<Sentinel>,
    stopped: bool,
    pending: bool,
    visible: bool,
    requests: nat,
    held: set<Sentinel>,
    granted: nat)

  datatype Event = Visibility(visible: bool) | Granted | Denied | Released(s: Sentinel) | Stop

  /** The first part of `acquire`, to its `await`. */
  function Acquire(s: State): State {
    if s.stopped || s.lock.Some? || s.pending || !s.visible then s
    else s.(pending := true, requests := s.requests + 1)
  }

  function Start(visible: bool): State {
    Acquire(State(None, false, false, visible, 0, {}, 0))
  }

  predicate CanHappen(s: State, e: Event) {
    match e
    case Granted => s.requests > 0
    case Denied => s.requests > 0
    case Released(l) => l < s.granted
    case Stop => !s.stopped
    case Visibility(_) => true
  }

  function Step(s: State, e: Event): State
    requires CanHappen(s, e)
  {
    match e
    case Visibility(visible) =>
      var s' := s.(visible := visible);
      if visible && !s.stopped then Acquire(s') else s'
    case Granted =>
      var l := s.granted;
      var s' := s.(granted := l + 1, requests := s.requests - 1, pending := false);
      if s.stopped then s' else s'.(lock := Some(l), held := s.held + {l})
    case Denied => s.(requests := s.requests - 1, pending := false)
    case Released(l) => s.(held := s.held - {l}, lock := if s.lock == Some(l) then None else s.lock)
    case Stop => s.(stopped := true, lock := None, held := if s.lock.Some? then s.held - {s.lock.value} else s.held)
  }

  /** One request at a time; what is held is the lock; nothing is held after the stop. */
  predicate Valid(s: State) {
    && s.requests == (if s.pending then 1 else 0)
    && (s.pending ==> s.lock.None?)
    && s.held == (if s.lock.Some? then {s.lock.value} else {})
    && (s.stopped ==> s.lock.None?)
    && (s.lock.Some? ==> s.lock.value < s.granted)
  }

  function Run(s: State, events: seq<Event>): Option<State>
    decreases |events|
  {
    if events == [] then Some(s)
    else if !CanHappen(s, events[0]) then None
    else Run(Step(s, events[0]), events[1..])
  }

  lemma {:induction false} RunIsValid(s: State, events: seq<Event>)
    requires Valid(s)
    ensures Run(s, events).Some? ==> Valid(Run(s, events).value)
    ensures s.stopped && Run(s, events).Some? ==> Run(s, events).value.stopped
    decreases |events|
  {
    hide Valid;
    if events != [] && CanHappen(s, events[0]) {
      StepIsValid(s, events[0]);
      RunIsValid(Step(s, events[0]), events[1..]);
    }
  }

  lemma StepIsValid(s: State, e: Event)
    requires Valid(s) && CanHappen(s, e)
    ensures Valid(Step(s, e)) && (s.stopped ==> Step(s, e).stopped)
  {
  }

  /**
   * Under every order of events: at most one request is out, every sentinel that is granted and not let go is the
   * current lock, and the lock is not stale.
   */
  lemma NothingLeaks(visible: bool, events: seq<Event>)
    ensures var r := Run(Start(visible), events);
            r.Some? ==>
              && r.value.requests <= 1
              && (forall l :: l in r.value.held <==> r.value.lock == Some(l))
  {
    RunIsValid(Start(visible), events);
  }

  /** Once stopped, nothing is ever held again: a late grant is asked to release at once, and none is requested. */
  lemma StopIsFinal(visible: bool, before: seq<Event>, after: seq<Event>)
    ensures var s := Run(Start(visible), before);
            s.Some? && CanHappen(s.value, Stop) ==>
              var stopped := Step(s.value, Stop);
              var r := Run(stopped, after);
              r.Some? ==>
                && r.value.lock.None? && r.value.held == {}
                && r.value.requests <= stopped.requests
  {
    RunIsValid(Start(visible), before);
    var s := Run(Start(visible), before);
    if s.Some? && CanHappen(s.value, Stop) {
      StepIsValid(s.value, Stop);
      RunIsValid(Step(s.value, Stop), after);
      NoNewRequests(Step(s.value, Stop), after);
    }
  }

  lemma {:induction false} NoNewRequests(s: State, events: seq<Event>)
    requires s.stopped
    ensures Run(s, events).Some? ==> Run(s, events).value.requests <= s.requests
    decreases |events|
  {
    if events != [] && CanHappen(s, events[0]) {
      NoNewRequests(Step(s, events[0]), events[1..]);
    }
  }

  /** A lock the browser took away is asked for again as soon as the page is visible. */
  lemma LostLockIsRequestedAgain(visible: bool, events: seq<Event>)
    ensures var r := Run(Start(visible), events);
            r.Some? && !r.value.stopped ==>
              var s := Step(r.value, Visibility(true));
              s.lock.Some? || s.requests == 1
  {
    RunIsValid(Start(visible), events);
  }

  lemma {:induction false} HiddenRun(s: State, events: seq<Event>)
    requires !s.visible && s.requests == 0 && forall i :: 0 <= i < |events| ==> events[i] != Visibility(true)
    ensures Run(s, events).Some? ==> Run(s, events).value.requests == 0
    decreases |events|
  {
    if events != [] && CanHappen(s, events[0]) {
      HiddenRun(Step(s, events[0]), events[1..]);
    }
  }

  /** Nothing is requested before the page is visible. */
  lemma HiddenPageRequestsNothing(events: seq<Event>)
    requires forall i :: 0 <= i < |events| ==> events[i] != Visibility(true)
    ensures Run(Start(false), events).Some? ==> Run(Start(false), events).value.requests == 0
  {
    HiddenRun(Start(false), events);
  }

  /** The closure: its three variables, and the callbacks. */
  class Holder {
    var lock: Option<Sentinel>
    var stopped: bool
    var pending: bool
    var visible: bool
    ghost var requests: nat
    ghost var held: set<Sentinel>
    ghost var granted: nat

    ghost function Current(): State
      reads this
    {
      State(lock, stopped, pending, visible, requests, held, granted)
    }

    constructor (visible: bool)
      ensures Current() == Start(visible)
    {
      this.visible := visible;
      lock, stopped, pending, requests, held, granted := None, false, false, 0, {}, 0;
      new;
      TryAcquire();
    }

    method TryAcquire()
      modifies this
      ensures Current() == Acquire(old(Current()))
    {
      if stopped || lock.Some? || pending || !visible { return; }
      pending := true;
      requests := requests + 1;
    }

    method OnVisibilityChange(visible: bool)
      modifies this
      ensures Current() == Step(old(Current()), Visibility(visible))
    {
      this.visible := visible;
      if visible && !stopped { TryAcquire(); }
    }

    /** The answer to a request is a sentinel; `release` says whether it is asked to release at once. */
    method OnGranted(l: Sentinel) returns (release: bool)
      requires CanHappen(Current(), Granted) && l == granted
      modifies this
      ensures Current() == Step(old(Current()), Granted)
      ensures release == old(stopped)
    {
      requests, granted := requests - 1, granted + 1;
      release := stopped;
      if !stopped {
        lock := Some(l);
        held := held + {l};
      }
      pending := false;
    }

    method OnDenied()
      requires CanHappen(Current(), Denied)
      modifies this
      ensures Current() == Step(old(Current()), Denied)
    {
      requests := requests - 1;
      pending := false;
    }

    method OnReleased(l: Sentinel)
      requires CanHappen(Current(), Released(l))
      modifies this
      ensures Current() == Step(old(Current()), Released(l))
    {
      held := held - {l};
      if lock == Some(l) { lock := None; }
    }

    /** The returned function; it gives the sentinel that is asked to release, if there is one. */
    method OnStop() returns (release: Option<Sentinel>)
      requires CanHappen(Current(), Stop)
      modifies this
      ensures Current() == Step(old(Current()), Stop)
      ensures release == old(lock)
    {
      stopped := true;
      release := lock;
      lock := None;
      if release.Some? { held := held - {release.value}; }
    }
  }
}
