/**
 One call of session_manual::connect and everything it leads to: retries with a decreasing count,
 registration, and reconnection after every stop. The state is the set of closures still to run.
 */
module Manual {
  import opened Codes
  import opened Counting

  datatype Closure =
    | Connect(attempts: nat, user: bool)      // start_connect, at once or after the delay
    | Connecting(remaining: nat, user: bool)  // handle_connect, bound to a connector
    | Channel(owesStart: bool, owesStop: bool, user: bool, first: Option<Code>) // registered: the two handlers it owes
    | Finished

  /**
   `user` marks the closure that holds the caller's handler; reconnects use an empty one. `first` is the
   code of whichever of handle_channel_start and handle_channel_stop was called first: by the contract
   of registration both get the same code, and only a refused registration reports a failed start first.
   */
  datatype State = State(
    limit: nat,                // manual_attempt_limit
    stopped: bool,
    closures: seq<Closure>,
    tries: nat,                // attempts of the current connect call
    exhausted: seq<nat>,       // attempts made by each connect call that gave up
    userCalls: seq<Code>,      // every call of the caller's handler
    dropped: nat)              // times the caller's handler was dropped by a failed start

  function Begin(limit: nat): State {
    State(limit, false, [Connect(limit, true)], 0, [], [], 0)
  }

  datatype Event =
    | StartConnect(i: nat)
    | ConnectEnds(i: nat, ec: Code)
    | ChannelStarts(i: nat, ec: Code)
    | ChannelStops(i: nat, ec: Code)
    | SessionStops

  predicate Possible(s: State, e: Event) {
    match e
    case StartConnect(i) => i < |s.closures| && s.closures[i].Connect?
    case ConnectEnds(i, _) => i < |s.closures| && s.closures[i].Connecting?
    case ChannelStarts(i, ec) =>
      && i < |s.closures| && s.closures[i].Channel? && s.closures[i].owesStart
      && (if s.closures[i].owesStop then ec == Success || ec == ServiceStopped else s.closures[i].first == Some(ec))
    case ChannelStops(i, ec) =>
      && i < |s.closures| && s.closures[i].Channel? && s.closures[i].owesStop
      && (s.closures[i].owesStart || s.closures[i].first == Some(ec))
    case SessionStops => true
  }

  function FloorSubtract(a: nat, b: nat): nat {
    if a < b then 0 else a - b
  }

  function Replace(s: State, i: nat, c: Closure): State
    requires i < |s.closures|
  {
    s.(closures := s.closures[i := c])
  }

  function CallUser(s: State, user: bool, ec: Code): State {
    if user then s.(userCalls := s.userCalls + [ec]) else s
  }

  function After(s: State, e: Event): State
    requires Possible(s, e)
  {
    match e
    case StartConnect(i) =>
      var c := s.closures[i];
      if s.stopped then CallUser(Replace(s, i, Finished), c.user, ServiceStopped)
      else Replace(s.(tries := s.tries + 1), i, Connecting(FloorSubtract(c.attempts, 1), c.user))
    case ConnectEnds(i, ec) =>
      var c := s.closures[i];
      if ec == Success then Replace(s, i, Channel(true, true, c.user, None))
      else
        // Retry forever if the limit is zero.
        var remaining := if s.limit == 0 then 1 else c.remaining;
        if remaining > 0 then Replace(s, i, Connect(remaining, c.user))
        else CallUser(Replace(s.(exhausted := s.exhausted + [s.tries]), i, Finished), c.user, ec)
    case ChannelStarts(i, ec) =>
      var c := s.closures[i];
      var t := Replace(s, i, Channel(false, c.owesStop, false, Some(ec)));
      if ec != Success then t.(dropped := s.dropped + if c.user then 1 else 0)
      else CallUser(t, c.user, Success)
    case ChannelStops(i, ec) =>
      var c := s.closures[i];
      var t := Replace(s, i, Channel(c.owesStart, false, c.user, Some(ec)));
      // Already connected: do not keep trying. Otherwise reconnect, without the caller's handler.
      if ec == AddressInUse then t else t.(closures := t.closures + [Connect(s.limit, false)], tries := 0)
    case SessionStops => s.(stopped := true)
  }

  // ---------------------------------------------------------------------------------------------
  // Invariant
  // ---------------------------------------------------------------------------------------------

  /** The closure can lead to a further attempt. */
  predicate Live(c: Closure) {
    c.Connect? || c.Connecting? || (c.Channel? && c.owesStop)
  }

  predicate HoldsUser(c: Closure) {
    !c.Finished? && c.user
  }

  /** At most one chain of attempts is alive. */
  ghost predicate OneChain(s: State) {
    forall i, j | 0 <= i < |s.closures| && 0 <= j < |s.closures| ::
      Live(s.closures[i]) && Live(s.closures[j]) ==> i == j
  }

  /** The caller's handler is in one closure, or was called, or was dropped: exactly one of these. */
  ghost predicate UserConserved(s: State) {
    Count(s.closures, HoldsUser) + |s.userCalls| + s.dropped == 1
  }

  /** The count handed on and the attempts made add up to the limit. */
  predicate Counted(s: State, c: Closure) {
    s.limit > 0 ==>
      && (c.Connect? ==> s.tries + c.attempts == s.limit && c.attempts > 0)
      && (c.Connecting? ==> s.tries + c.remaining == s.limit && s.tries > 0)
  }

  ghost predicate AttemptsCounted(s: State) {
    && (forall i :: 0 <= i < |s.closures| ==> Counted(s, s.closures[i]))
    && (s.limit > 0 ==> s.tries <= s.limit)
    && (forall k :: 0 <= k < |s.exhausted| ==> s.exhausted[k] == s.limit)
    && (s.limit == 0 ==> s.exhausted == [])
  }

  ghost predicate ManualInv(s: State) {
    OneChain(s) && UserConserved(s) && AttemptsCounted(s)
  }

  lemma BeginInv(limit: nat)
    ensures ManualInv(Begin(limit))
  {
    assert [Connect(limit, true)][..0] == [];
  }

  lemma ChainStep(s: State, e: Event)
    requires OneChain(s) && Possible(s, e)
    ensures OneChain(After(s, e))
  {
  }

  lemma UserStep(s: State, e: Event)
    requires UserConserved(s) && Possible(s, e)
    ensures UserConserved(After(s, e))
  {
    hide Count;
    if !e.SessionStops? {
      var c := After(s, e).closures[e.i];
      CountUpdate(s.closures, e.i, c, HoldsUser);
      CountAppend(s.closures[e.i := c], Connect(s.limit, false), HoldsUser);
      assert e.ChannelStops? && e.ec != AddressInUse ==>
             After(s, e).closures == s.closures[e.i := c] + [Connect(s.limit, false)];
    }
  }

  lemma CountedStep(s: State, e: Event)
    requires OneChain(s) && AttemptsCounted(s) && Possible(s, e)
    ensures AttemptsCounted(After(s, e))
  {
    if !e.SessionStops? {
      var t := After(s, e);
      assert Counted(s, s.closures[e.i]);
      forall j | 0 <= j < |t.closures|
        ensures Counted(t, t.closures[j])
      {
        if j < |s.closures| {
          assert Counted(s, s.closures[j]);
          assert j != e.i && Live(s.closures[e.i]) ==> !Live(s.closures[j]);
        }
      }
    }
  }

  // ---------------------------------------------------------------------------------------------
  // Whole runs
  // ---------------------------------------------------------------------------------------------

  ghost predicate IsRun(limit: nat, run: seq<State>, events: seq<Event>) {
    && |run| == |events| + 1 && run[0] == Begin(limit)
    && forall k :: 0 <= k < |events| ==> Possible(run[k], events[k]) && run[k + 1] == After(run[k], events[k])
  }

  /** The channel that holds the caller's handler fails to start. */
  predicate FailsStart(s: State, e: Event)
    requires Possible(s, e)
  {
    e.ChannelStarts? && e.ec != Success && s.closures[e.i].user
  }

  lemma StepFacts(s: State, e: Event)
    requires ManualInv(s) && Possible(s, e)
    ensures ManualInv(After(s, e)) && After(s, e).limit == s.limit
    ensures After(s, e).dropped == s.dropped + if FailsStart(s, e) then 1 else 0
  {
    ChainStep(s, e);
    UserStep(s, e);
    CountedStep(s, e);
  }

  /** Up to moment k some step failed the start of the channel that held the caller's handler. */
  ghost predicate StartFailed(run: seq<State>, events: seq<Event>, k: nat)
    requires |events| >= k && |run| >= k && forall j :: 0 <= j < k ==> Possible(run[j], events[j])
  {
    exists j :: 0 <= j < k && FailsStart(run[j], events[j])
  }

  lemma {:induction false} RunKeepsInv(limit: nat, run: seq<State>, events: seq<Event>, k: nat)
    requires IsRun(limit, run, events) && k < |run|
    ensures ManualInv(run[k]) && run[k].limit == limit
    ensures run[k].dropped > 0 <==> StartFailed(run, events, k)
  {
    if k == 0 {
      BeginInv(limit);
    } else {
      RunKeepsInv(limit, run, events, k - 1);
      StepFacts(run[k - 1], events[k - 1]);
      assert run[k - 1 + 1] == After(run[k - 1], events[k - 1]);
      hide ManualInv, After, Possible, FailsStart;
      if StartFailed(run, events, k - 1) {
        var j :| 0 <= j < k - 1 && FailsStart(run[j], events[j]);
        assert StartFailed(run, events, k);
      }
    }
  }

  /**
   Manual retry, in every run. At most one chain of attempts is alive, through every reconnect. With
   limit n >= 1 a connect call makes at most n attempts, and exactly n if it gives up; with limit zero
   it never gives up. The caller's handler runs at most once, and has not been called exactly when a
   closure still holds it or the channel it was held for failed to start.
   */
  lemma ManualRetry(limit: nat, run: seq<State>, events: seq<Event>, k: nat)
    requires IsRun(limit, run, events) && k < |run|
    ensures forall i, j :: 0 <= i < j < |run[k].closures| ==> !(Live(run[k].closures[i]) && Live(run[k].closures[j]))
    ensures limit > 0 ==> run[k].tries <= limit
    ensures forall j :: 0 <= j < |run[k].exhausted| ==> run[k].exhausted[j] == limit
    ensures limit == 0 ==> run[k].exhausted == []
    ensures |run[k].userCalls| <= 1
    ensures run[k].userCalls == [] <==> Count(run[k].closures, HoldsUser) == 1 || StartFailed(run, events, k)
    ensures StartFailed(run, events, k) ==> Count(run[k].closures, HoldsUser) == 0
  {
    RunKeepsInv(limit, run, events, k);
    hide StartFailed;
  }

  /** A failed connect hands on a strictly smaller count than the attempt started with. */
  lemma CountDecreases(s: State, i: nat, ec: Code)
    requires Possible(s, StartConnect(i)) && s.limit > 0 && !s.stopped && ec != Success && s.closures[i].attempts > 0
    ensures var t := After(s, StartConnect(i));
            && Possible(t, ConnectEnds(i, ec))
            && var c := After(t, ConnectEnds(i, ec)).closures[i];
               if s.closures[i].attempts > 1 then c == Connect(s.closures[i].attempts - 1, s.closures[i].user)
               else c.Finished?
  {
  }

  // ---------------------------------------------------------------------------------------------
  // What the caller hears, and when the chain ends
  // ---------------------------------------------------------------------------------------------

  /** The attempt that just failed was the last one the limit allows. */
  predicate GivesUp(s: State, e: Event)
    requires Possible(s, e)
  {
    e.ConnectEnds? && e.ec != Success && s.limit > 0 && s.closures[e.i].remaining == 0
  }

  /** What a step tells the caller: the session has stopped, the last attempt failed, or the channel started. */
  function Tells(s: State, e: Event): Option<Code>
    requires Possible(s, e)
  {
    match e
    case StartConnect(i) => if s.closures[i].user && s.stopped then Some(ServiceStopped) else None
    case ConnectEnds(i, ec) => if s.closures[i].user && GivesUp(s, e) then Some(ec) else None
    case ChannelStarts(i, ec) => if s.closures[i].user && ec == Success then Some(Success) else None
    case _ => None
  }

  lemma StepTells(s: State, e: Event)
    requires Possible(s, e)
    ensures After(s, e).userCalls == s.userCalls + match Tells(s, e) case Some(ec) => [ec] case None => []
  {
  }

  /** In every run the caller has heard a code iff some step told it that code, and then nothing else. */
  lemma {:induction false} CallerHears(limit: nat, run: seq<State>, events: seq<Event>, k: nat, ec: Code)
    requires IsRun(limit, run, events) && k < |run|
    ensures run[k].userCalls == [ec] <==> exists j :: 0 <= j < k && Tells(run[j], events[j]) == Some(ec)
    ensures |run[k].userCalls| <= 1
  {
    hide After, Possible, Tells, ManualInv;
    RunKeepsInv(limit, run, events, k);
    UserOnce(run[k]);
    if k > 0 {
      CallerHears(limit, run, events, k - 1, ec);
      StepTells(run[k - 1], events[k - 1]);
      assert run[k - 1 + 1] == After(run[k - 1], events[k - 1]);
      var was, told := run[k - 1].userCalls, Tells(run[k - 1], events[k - 1]);
      if told.Some? {
        assert was == [] && run[k].userCalls == [told.value];
      } else {
        assert run[k].userCalls == was;
      }
    }
  }

  lemma UserOnce(s: State)
    requires ManualInv(s)
    ensures |s.userCalls| <= 1
  {
  }

  ghost predicate Alive(s: State) {
    exists i :: 0 <= i < |s.closures| && Live(s.closures[i])
  }

  /** A step ends the chain: the session has stopped, the attempts are used up, or the peer is already connected. */
  predicate EndsChain(s: State, e: Event)
    requires Possible(s, e)
  {
    || (e.StartConnect? && s.stopped)
    || GivesUp(s, e)
    || (e.ChannelStops? && e.ec == AddressInUse)
  }

  lemma StepAlive(s: State, e: Event)
    requires OneChain(s) && Possible(s, e)
    ensures Alive(After(s, e)) <==> Alive(s) && !EndsChain(s, e)
  {
    var t := After(s, e);
    if Alive(s) && !EndsChain(s, e) {
      var i :| 0 <= i < |s.closures| && Live(s.closures[i]);
      if e.ChannelStops? {
        assert Live(t.closures[|t.closures| - 1]);
      } else {
        assert Live(t.closures[i]);
      }
    }
    if i :| 0 <= i < |t.closures| && Live(t.closures[i]) {
      if i < |s.closures| && Live(s.closures[i]) {
      } else {
        assert e.ChannelStops? && Live(s.closures[e.i]);
      }
    }
  }

  /** In every run attempts go on, through every failure and stop, until exactly such a step ends them. */
  lemma {:induction false} ChainLives(limit: nat, run: seq<State>, events: seq<Event>, k: nat)
    requires IsRun(limit, run, events) && k < |run|
    ensures Alive(run[k]) <==> forall j :: 0 <= j < k ==> !EndsChain(run[j], events[j])
  {
    if k == 0 {
      assert Live(run[0].closures[0]);
    } else {
      ChainLives(limit, run, events, k - 1);
      RunKeepsInv(limit, run, events, k - 1);
      StepAlive(run[k - 1], events[k - 1]);
      assert run[k - 1 + 1] == After(run[k - 1], events[k - 1]);
      hide After, Possible, EndsChain, Alive;
    }
  }

  lemma Take(limit: nat, run: seq<State>, events: seq<Event>, e: Event) returns (run': seq<State>, events': seq<Event>)
    requires IsRun(limit, run, events) && Possible(run[|events|], e)
    ensures IsRun(limit, run', events') && |events'| == |events| + 1 && run'[|events'|] == After(run[|events|], e)
  {
    run', events' := run + [After(run[|events|], e)], events + [e];
  }

  /**
   The caller's handler is not always called: a connected channel whose handshake times out is stopped,
   reconnects without it, and drops it when its start is reported.
   */
  lemma HandlerDropped(limit: nat) returns (run: seq<State>, events: seq<Event>)
    ensures IsRun(limit, run, events)
    ensures run[|events|].userCalls == [] && Count(run[|events|].closures, HoldsUser) == 0
    ensures |run[|events|].closures| == 2 && run[|events|].closures[1] == Connect(limit, false)
  {
    run, events := [Begin(limit)], [];
    run, events := Take(limit, run, events, StartConnect(0));
    run, events := Take(limit, run, events, ConnectEnds(0, Success));
    run, events := Take(limit, run, events, ChannelStops(0, ChannelTimeout));
    run, events := Take(limit, run, events, ChannelStarts(0, ChannelTimeout));
    assert run[|events|].dropped == 1;
    RunKeepsInv(limit, run, events, |events|);
  }

  lemma StepCounts(s: State, e: Event)
    requires Possible(s, e)
    ensures After(s, e).exhausted == s.exhausted + if GivesUp(s, e) then [s.tries] else []
    ensures After(s, e).stopped <==> s.stopped || e.SessionStops?
  {
  }

  /** In every run the session is stopped iff its stop has happened, and a call gave up iff its last attempt failed. */
  lemma {:induction false} StopAndGiveUp(limit: nat, run: seq<State>, events: seq<Event>, k: nat)
    requires IsRun(limit, run, events) && k < |run|
    ensures run[k].stopped <==> exists j :: 0 <= j < k && events[j].SessionStops?
    ensures run[k].exhausted != [] <==> exists j :: 0 <= j < k && GivesUp(run[j], events[j])
  {
    if k > 0 {
      hide After, Possible, GivesUp;
      StopAndGiveUp(limit, run, events, k - 1);
      StepCounts(run[k - 1], events[k - 1]);
      assert run[k - 1 + 1] == After(run[k - 1], events[k - 1]);
    }
  }
}
