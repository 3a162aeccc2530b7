/**
 The ping protocol (protocol_ping_60001): the initial ping of the starting thread, the heartbeat
 timer's pings and the in-line pong handler of the read thread, statement by statement. The three
 threads share pending_, which each of them tests, sets or clears in a statement of its own.
 */
module Ping {
  import opened Codes

  /** Position of a thread in send_ping. */
  datatype Sender =
    | Waiting                  // for the heartbeat
    | Testing                  // tests pending_ next
    | Setting                  // found it clear: sets it and draws the nonce next
    | Subscribing(nonce: nat)
    | Sending(nonce: nat)
    | Done

  /** The read thread: pong handlers not yet run, and the one between its clear and its compare. */
  datatype Reader = Reader(taken: seq<nat>, got: nat, comparing: Option<nat>)

  datatype State = State(
    starter: Sender,
    timer: Sender,
    reader: Reader,
    pending: bool,
    subs: seq<nat>,            // nonces of the outstanding pong subscriptions
    live: bool,                // the protocol's event handler is still set
    stops: seq<Code>,          // codes the channel was stopped with
    drawn: seq<nat>,           // nonces of the pings, in order
    sent: seq<nat>,            // nonces of the ping messages sent
    consumed: seq<nat>)        // nonces of the pongs that matched

  function Begin(): State {
    State(Testing, Waiting, Reader([], 0, None), false, [], true, [], [], [], [])
  }

  datatype Event =
    | Heartbeat                // the timer fires; whatever its code, the event is a timeout
    | StarterStep(nonce: nat)  // the next statement of the initial send_ping
    | TimerStep(nonce: nat)    // the next statement of a heartbeat's send_ping
    | PongArrives(nonce: nat)
    | PongClears               // the next pong handler clears pending_
    | PongCompares             // it compares the nonces
    | ChannelStops(ec: Code)
    | ProtocolStops            // the stop reaches the protocol: handler and subscriptions cleared

  predicate Possible(s: State, e: Event) {
    match e
    case Heartbeat => s.timer.Waiting? && s.live
    case StarterStep(_) => !s.starter.Done? && !s.starter.Waiting?
    case TimerStep(_) => !s.timer.Waiting? && !s.timer.Done?
    case PongArrives(_) => s.reader.taken == [] && s.reader.comparing.None?
    case PongClears => s.reader.taken != [] && s.reader.comparing.None?
    case PongCompares => s.reader.comparing.Some?
    case ChannelStops(ec) => ec != Success
    case ProtocolStops => s.stops != []
  }

  /** One statement of send_ping by a thread at position `at`; the state and the next position. */
  function SendStep(s: State, at: Sender, nonce: nat, finished: Sender): (State, Sender) {
    match at
    case Testing =>
      if !s.live then (s, finished)
      else if s.pending then (s.(stops := s.stops + [ChannelTimeout]), finished)
      else (s, Setting)
    case Setting => (s.(pending := true, drawn := s.drawn + [nonce]), Subscribing(nonce))
    case Subscribing(n) => (if s.live then s.(subs := s.subs + [n]) else s, Sending(n))
    case Sending(n) => (s.(sent := s.sent + [n]), finished)
    case _ => (s, at)
  }

  /** handle_receive_pong up to its clear of pending_; nothing once the protocol has stopped. */
  function ClearPong(s: State): State
    requires s.reader.taken != []
  {
    var rest := s.reader.(taken := s.reader.taken[1..]);
    if !s.live then s.(reader := rest)
    else s.(pending := false, reader := rest.(comparing := Some(s.reader.taken[0])))
  }

  /** The rest of handle_receive_pong: a wrong nonce stops the channel. */
  function ComparePong(s: State): State
    requires s.reader.comparing.Some?
  {
    var t := s.(reader := s.reader.(comparing := None));
    if s.reader.got != s.reader.comparing.value then t.(stops := s.stops + [BadStream])
    else t.(consumed := s.consumed + [s.reader.comparing.value])
  }

  function After(s: State, e: Event): State
    requires Possible(s, e)
  {
    match e
    case Heartbeat => s.(timer := Testing)
    case StarterStep(nonce) =>
      var (t, at) := SendStep(s, s.starter, nonce, Done);
      t.(starter := at)
    case TimerStep(nonce) =>
      var (t, at) := SendStep(s, s.timer, nonce, Waiting);
      t.(timer := at)
    case PongArrives(nonce) => s.(reader := Reader(s.subs, nonce, None), subs := [])
    case PongClears => ClearPong(s)
    case PongCompares => ComparePong(s)
    case ChannelStops(ec) => s.(stops := s.stops + [ec])
    case ProtocolStops => s.(live := false, subs := [])
  }

  // ---------------------------------------------------------------------------------------------
  // The discipline, and the step that breaks it
  // ---------------------------------------------------------------------------------------------

  /** The ping a thread has counted as pending but not yet subscribed a pong for. */
  function Unsubscribed(at: Sender): seq<nat> {
    if at.Subscribing? then [at.nonce] else []
  }

  /** Pings whose pong has not been handled: subscribed, swapped out, or about to be subscribed. */
  function Outstanding(s: State): seq<nat> {
    s.reader.taken + s.subs + Unsubscribed(s.starter) + Unsubscribed(s.timer)
  }

  /** The ping whose pong is between clear and compare. */
  function Comparing(s: State): seq<nat> {
    if s.reader.comparing.Some? then [s.reader.comparing.value] else []
  }

  /** The pong between clear and compare has a wrong nonce: it will stop the channel. */
  predicate WrongPong(s: State) {
    s.reader.comparing.Some? && s.reader.got != s.reader.comparing.value
  }

  /** Pings answered by a pong with their own nonce. */
  function Answered(s: State): seq<nat> {
    if WrongPong(s) then s.consumed else s.consumed + Comparing(s)
  }

  /**
   While the channel is live: pending_ says whether a ping is outstanding, at most one is, and no ping
   has been begun before all earlier ones were answered, in order.
   */
  ghost predicate Disciplined(s: State) {
    s.stops == [] ==>
      && (s.pending <==> Outstanding(s) != [])
      && |Outstanding(s)| <= 1
      && Answered(s) <= s.drawn
      && |s.drawn| <= |Answered(s)| + 1
  }

  /** A thread sets pending_ although it is set, or a wrong pong that cleared it has not been compared yet. */
  predicate SetsAnyway(s: State, e: Event) {
    && s.stops == []
    && ((e.StarterStep? && s.starter.Setting?) || (e.TimerStep? && s.timer.Setting?))
    && (s.pending || WrongPong(s))
  }

  // ---------------------------------------------------------------------------------------------
  // Invariant of the runs without such a step
  // ---------------------------------------------------------------------------------------------

  ghost predicate PingInv(s: State) {
    && !s.starter.Waiting? && !s.timer.Done?
    && (!s.live ==> s.stops != [])
    && (s.stops == [] ==>
          && (s.pending <==> Outstanding(s) != [])
          && |Outstanding(s)| <= 1
          && s.drawn == s.consumed + Comparing(s) + Outstanding(s)
          && (WrongPong(s) ==> Outstanding(s) == []))
  }

  lemma InvDisciplined(s: State)
    requires PingInv(s)
    ensures Disciplined(s)
  {
  }

  /** The position of the thread that takes a sender's step. */
  function At(s: State, e: Event): Sender {
    if e.StarterStep? then s.starter else s.timer
  }

  /** Setting pending_ draws the one outstanding ping. */
  lemma DrawKeepsInv(s: State, e: Event)
    requires PingInv(s) && Possible(s, e) && (e.StarterStep? || e.TimerStep?) && At(s, e).Setting? && !SetsAnyway(s, e)
    ensures PingInv(After(s, e))
  {
    var t := After(s, e);
    if s.stops == [] {
      assert Outstanding(s) == [];
      assert |s.reader.taken| == |s.subs| == |Unsubscribed(s.starter)| == |Unsubscribed(s.timer)| == 0;
      assert Outstanding(t) == [e.nonce];
      assert t.drawn == s.consumed + Comparing(s) + [e.nonce];
    }
  }

  /** Subscribing moves the one outstanding ping to the subscriptions. */
  lemma SubscribeKeepsInv(s: State, e: Event)
    requires PingInv(s) && Possible(s, e) && (e.StarterStep? || e.TimerStep?) && At(s, e).Subscribing?
    ensures PingInv(After(s, e))
  {
    var t, n := After(s, e), At(s, e).nonce;
    if s.stops == [] {
      assert Unsubscribed(At(s, e)) == [n];
      assert |s.reader.taken| == |s.subs| == 0 && |Unsubscribed(s.starter)| + |Unsubscribed(s.timer)| == 1;
      assert Outstanding(s) == [n] && Outstanding(t) == [n];
    }
  }

  lemma SenderKeepsInv(s: State, e: Event)
    requires PingInv(s) && Possible(s, e) && (e.StarterStep? || e.TimerStep?) && !SetsAnyway(s, e)
    ensures PingInv(After(s, e))
  {
    if At(s, e).Setting? {
      DrawKeepsInv(s, e);
    } else if At(s, e).Subscribing? {
      SubscribeKeepsInv(s, e);
    } else {
      assert Outstanding(After(s, e)) == Outstanding(s);
    }
  }

  lemma PongKeepsInv(s: State, e: Event)
    requires PingInv(s) && Possible(s, e) && (e.PongArrives? || e.PongClears? || e.PongCompares?)
    ensures PingInv(After(s, e))
  {
    var t := After(s, e);
    if s.stops == [] && t.stops == [] {
      if e.PongClears? {
        assert Outstanding(s) == [s.reader.taken[0]] && Outstanding(t) == [];
      } else {
        assert Outstanding(t) == Outstanding(s);
      }
    }
  }

  lemma StepKeepsInv(s: State, e: Event)
    requires PingInv(s) && Possible(s, e) && !SetsAnyway(s, e)
    ensures PingInv(After(s, e))
  {
    match e
    case StarterStep(_) => SenderKeepsInv(s, e);
    case TimerStep(_) => SenderKeepsInv(s, e);
    case PongArrives(_) => PongKeepsInv(s, e);
    case PongClears => PongKeepsInv(s, e);
    case PongCompares => PongKeepsInv(s, e);
    case _ => assert Outstanding(After(s, e)) == Outstanding(s) || e.ProtocolStops?;
  }

  /** Setting pending_ anyway breaks the discipline at once. */
  lemma SettingAnywayBreaks(s: State, e: Event)
    requires PingInv(s) && Possible(s, e) && SetsAnyway(s, e)
    ensures !Disciplined(After(s, e))
  {
    var t := After(s, e);
    assert t.stops == [] && t.drawn == s.drawn + [e.nonce] && Comparing(t) == Comparing(s);
    if s.pending {
      assert |Outstanding(t)| == |Outstanding(s)| + 1;
    } else {
      assert |s.drawn| == |s.consumed| + 1 && Answered(t) == s.consumed;
    }
  }

  // ---------------------------------------------------------------------------------------------
  // Whole runs
  // ---------------------------------------------------------------------------------------------

  ghost predicate IsRun(run: seq<State>, events: seq<Event>) {
    && |run| == |events| + 1 && run[0] == Begin()
    && forall k :: 0 <= k < |events| ==> Possible(run[k], events[k]) && run[k + 1] == After(run[k], events[k])
  }

  /** Up to moment k no thread has set pending_ anyway. */
  ghost predicate Clean(run: seq<State>, events: seq<Event>, k: nat)
    requires IsRun(run, events) && k < |run|
  {
    forall j :: 0 <= j < k ==> !SetsAnyway(run[j], events[j])
  }

  lemma {:induction false} CleanKeepsInv(run: seq<State>, events: seq<Event>, k: nat)
    requires IsRun(run, events) && k < |run| && Clean(run, events, k)
    ensures PingInv(run[k])
  {
    if k > 0 {
      CleanKeepsInv(run, events, k - 1);
      StepKeepsInv(run[k - 1], events[k - 1]);
      assert run[k - 1 + 1] == After(run[k - 1], events[k - 1]);
    }
  }

  lemma {:induction false} FirstBreak(run: seq<State>, events: seq<Event>, k: nat) returns (j: nat)
    requires IsRun(run, events) && k < |run| && !Clean(run, events, k)
    ensures j < k && SetsAnyway(run[j], events[j]) && Clean(run, events, j)
  {
    if Clean(run, events, k - 1) {
      j := k - 1;
    } else {
      j := FirstBreak(run, events, k - 1);
    }
  }

  /**
   When the discipline holds: up to any moment of any run it holds throughout iff no thread up to then
   set pending_ although another had set it since its test, or although a pong with a wrong nonce that had
   cleared it was not compared yet.
   */
  lemma DisciplineIff(run: seq<State>, events: seq<Event>, k: nat)
    requires IsRun(run, events) && k < |run|
    ensures (forall j :: 0 <= j <= k ==> Disciplined(run[j])) <==> Clean(run, events, k)
  {
    hide Disciplined, PingInv, SetsAnyway;
    if Clean(run, events, k) {
      forall j | 0 <= j <= k ensures Disciplined(run[j]) {
        CleanKeepsInv(run, events, j);
        InvDisciplined(run[j]);
      }
    } else {
      var j := FirstBreak(run, events, k);
      CleanKeepsInv(run, events, j);
      SettingAnywayBreaks(run[j], events[j]);
      assert run[j + 1] == After(run[j], events[j]);
    }
  }

  /** Heartbeats wait for the initial ping, and a thread about to set pending_ found it clear. */
  ghost predicate Serial(s: State) {
    && (!s.starter.Done? ==> s.timer.Waiting?)
    && (s.stops == [] && (s.starter.Setting? || s.timer.Setting?) ==> !s.pending)
  }

  lemma SerialStep(s: State, e: Event)
    requires Serial(s) && Possible(s, e) && (e.Heartbeat? ==> s.starter.Done?) && !s.starter.Waiting? && !s.timer.Done?
    ensures Serial(After(s, e)) && !After(s, e).starter.Waiting? && !After(s, e).timer.Done?
  {
  }

  lemma {:induction false} SerialClean(run: seq<State>, events: seq<Event>, k: nat)
    requires IsRun(run, events) && k < |run|
    requires forall j :: 0 <= j < k && events[j].Heartbeat? ==> run[j].starter.Done?
    requires forall j :: 0 <= j < k && WrongPong(run[j]) ==> !events[j].StarterStep? && !events[j].TimerStep?
    ensures Serial(run[k]) && !run[k].starter.Waiting? && !run[k].timer.Done?
    ensures Clean(run, events, k)
  {
    if k > 0 {
      SerialClean(run, events, k - 1);
      SerialStep(run[k - 1], events[k - 1]);
      hide After;
      assert run[k - 1 + 1] == After(run[k - 1], events[k - 1]);
    }
  }

  /**
   In particular it holds in every run whose heartbeats all fall due after the initial ping and whose
   senders take no step while a pong with a wrong nonce is about to stop the channel.
   */
  lemma SerialDiscipline(run: seq<State>, events: seq<Event>, k: nat)
    requires IsRun(run, events) && k < |run|
    requires forall j :: 0 <= j < k && events[j].Heartbeat? ==> run[j].starter.Done?
    requires forall j :: 0 <= j < k && WrongPong(run[j]) ==> !events[j].StarterStep? && !events[j].TimerStep?
    ensures Disciplined(run[k])
  {
    SerialClean(run, events, k);
    DisciplineIff(run, events, k);
  }

  /** The pings whose message is still to be sent. */
  function InHand(at: Sender): nat {
    if at.Subscribing? || at.Sending? then 1 else 0
  }

  predicate AllSent(s: State) {
    |s.drawn| == |s.sent| + InHand(s.starter) + InHand(s.timer)
  }

  lemma StepKeepsSent(s: State, e: Event)
    requires AllSent(s) && Possible(s, e)
    ensures AllSent(After(s, e))
  {
  }

  /** In every run: each ping drawn is sent or in a sender's hand. */
  lemma {:induction false} SentWereDrawn(run: seq<State>, events: seq<Event>, k: nat)
    requires IsRun(run, events) && k < |run|
    ensures AllSent(run[k])
  {
    if k > 0 {
      SentWereDrawn(run, events, k - 1);
      StepKeepsSent(run[k - 1], events[k - 1]);
      assert run[k - 1 + 1] == After(run[k - 1], events[k - 1]);
    }
  }

  /**
   Ping discipline, while the channel is live: between handlers pending_ holds iff exactly one pong
   subscription is outstanding; the k-th ping is sent only after k - 1 pongs were answered; and the
   pongs answered the pings in order, each with its own nonce.
   */
  lemma PingDiscipline(run: seq<State>, events: seq<Event>, k: nat)
    requires IsRun(run, events) && k < |run| && Clean(run, events, k) && run[k].stops == []
    ensures var s := run[k];
            && (s.starter.Done? && s.timer.Waiting? && s.reader.taken == [] ==>
                  (s.pending <==> |s.subs| == 1) && (!s.pending ==> s.subs == []))
            && |s.sent| <= |Answered(s)| + 1
            && Answered(s) <= s.drawn
            && |s.subs| <= 1
  {
    CleanKeepsInv(run, events, k);
    InvDisciplined(run[k]);
    SentWereDrawn(run, events, k);
  }

  /** A pong still missing at a heartbeat stops the channel, and no further ping is sent for it. */
  lemma MissingPongStops(run: seq<State>, events: seq<Event>, k: nat, nonce: nat)
    requires IsRun(run, events) && k < |run| && Clean(run, events, k) && run[k].stops == []
    requires run[k].timer.Testing? && |run[k].consumed| + |Comparing(run[k])| < |run[k].drawn|
    ensures var s := After(run[k], TimerStep(nonce));
            s.stops == [ChannelTimeout] && s.sent == run[k].sent && s.timer.Waiting?
  {
    CleanKeepsInv(run, events, k);
  }

  // ---------------------------------------------------------------------------------------------
  // When the channel is stopped
  // ---------------------------------------------------------------------------------------------

  /** Why a step stops the channel, if it does: another stop, a pong with a wrong nonce, a missing pong. */
  function StopsWith(s: State, e: Event): Option<Code> {
    match e
    case ChannelStops(ec) => Some(ec)
    case PongCompares =>
      if s.reader.comparing.Some? && s.reader.comparing.value != s.reader.got then Some(BadStream) else None
    case StarterStep(_) => if s.starter.Testing? && s.live && s.pending then Some(ChannelTimeout) else None
    case TimerStep(_) => if s.timer.Testing? && s.live && s.pending then Some(ChannelTimeout) else None
    case _ => None
  }

  /** The codes of the steps that stop the channel, in order. */
  function StopCodes(run: seq<State>, events: seq<Event>): seq<Code>
    requires |run| >= |events|
    decreases |events|
  {
    if events == [] then []
    else
      var n := |events| - 1;
      StopCodes(run[..n], events[..n]) + match StopsWith(run[n], events[n]) case Some(ec) => [ec] case None => []
  }

  lemma StepStops(s: State, e: Event)
    requires Possible(s, e)
    ensures After(s, e).stops == s.stops + match StopsWith(s, e) case Some(ec) => [ec] case None => []
  {
  }

  /**
   Exactly when and how the channel is stopped, in every run: by each stop from elsewhere, with bad_stream by each
   compare of a pong with a wrong nonce, and with a timeout by each ping found pending at the next; by nothing
   else, so a peer that answers in time with the right nonce is never dropped.
   */
  lemma {:induction false} StoppedFor(run: seq<State>, events: seq<Event>, k: nat)
    requires IsRun(run, events) && k < |run|
    ensures run[k].stops == StopCodes(run[..k], events[..k])
    ensures run[k].stops == [] <==> forall j :: 0 <= j < k ==> StopsWith(run[j], events[j]).None?
  {
    hide After, Possible, StopsWith;
    if k > 0 {
      var n := k - 1;
      StoppedFor(run, events, n);
      assert run[..k][..n] == run[..n] && events[..k][..n] == events[..n];
      StepStops(run[n], events[n]);
      assert run[n + 1] == After(run[n], events[n]);
    }
  }

  /** A quiet channel with one ping outstanding. */
  predicate Waits(s: State, nonce: nat) {
    && s.starter.Done? && s.timer.Waiting? && s.live && s.stops == []
    && s.reader.taken == [] && s.reader.comparing.None? && s.pending && s.subs == [nonce]
  }

  /**
   One round: a pong with the ping's own nonce is consumed, leaves the channel live, and lets the next heartbeat
   send a ping; the channel then waits for that one.
   */
  lemma PingRound(s: State, nonce: nat, next: nat) returns (events: seq<Event>, t: State)
    requires Waits(s, nonce)
    ensures Plays(s, events, t) && Waits(t, next)
    ensures t.consumed == s.consumed + [nonce] && t.sent == s.sent + [next] && t.drawn == s.drawn + [next]
  {
    var s1 := After(s, PongArrives(nonce));
    var s2 := After(s1, PongClears);
    var s3 := After(s2, PongCompares);
    events, t := HeartbeatPings(s3, next);
    hide Plays;
    PlaysVia(s2, PongCompares, events, t);
    PlaysVia(s1, PongClears, [PongCompares] + events, t);
    PlaysVia(s, PongArrives(nonce), [PongClears] + ([PongCompares] + events), t);
    events := [PongArrives(nonce)] + ([PongClears] + ([PongCompares] + events));
  }

  /** A heartbeat that finds no ping pending sends one. */
  lemma HeartbeatPings(s: State, next: nat) returns (events: seq<Event>, t: State)
    requires s.starter.Done? && s.timer.Waiting? && s.live && !s.pending
    ensures Plays(s, events, t)
    ensures t == s.(pending := true, subs := s.subs + [next], drawn := s.drawn + [next], sent := s.sent + [next])
  {
    var s1 := After(s, Heartbeat);
    var s2 := After(s1, TimerStep(0));
    var s3 := After(s2, TimerStep(next));
    var s4 := After(s3, TimerStep(0));
    t := After(s4, TimerStep(0));
    assert Plays(t, [], t);
    hide Plays;
    events := [];
    PlaysVia(s4, TimerStep(0), events, t);
    events := [TimerStep(0)] + events;
    PlaysVia(s3, TimerStep(0), events, t);
    events := [TimerStep(0)] + events;
    PlaysVia(s2, TimerStep(next), events, t);
    events := [TimerStep(next)] + events;
    PlaysVia(s1, TimerStep(0), events, t);
    events := [TimerStep(0)] + events;
    PlaysVia(s, Heartbeat, events, t);
    events := [Heartbeat] + events;
  }

  /** These events, one after the other, lead from s to t. */
  ghost predicate Plays(s: State, events: seq<Event>, t: State)
    decreases |events|
  {
    if events == [] then s == t
    else Possible(s, events[0]) && Plays(After(s, events[0]), events[1..], t)
  }

  lemma PlaysVia(s: State, e: Event, events: seq<Event>, t: State)
    requires Possible(s, e) && Plays(After(s, e), events, t)
    ensures Plays(s, [e] + events, t)
  {
    assert ([e] + events)[1..] == events;
  }

  // ---------------------------------------------------------------------------------------------
  // Runs that break the discipline
  // ---------------------------------------------------------------------------------------------

  lemma Extend(run: seq<State>, events: seq<Event>, e: Event)
    requires IsRun(run, events) && Possible(run[|events|], e)
    ensures IsRun(run + [After(run[|events|], e)], events + [e])
  {
  }

  lemma Take(run: seq<State>, events: seq<Event>, e: Event) returns (run': seq<State>, events': seq<Event>)
    requires IsRun(run, events) && Possible(run[|events|], e)
    ensures IsRun(run', events') && |events'| == |events| + 1 && run'[|events'|] == After(run[|events|], e)
  {
    Extend(run, events, e);
    run', events' := run + [After(run[|events|], e)], events + [e];
  }

  /** A heartbeat due during the initial ping: both threads find pending_ clear, and two pings are outstanding. */
  lemma OverlapBreaks() returns (run: seq<State>, events: seq<Event>)
    ensures IsRun(run, events)
    ensures run[|events|].stops == [] && |Outstanding(run[|events|])| == 2 && !Disciplined(run[|events|])
  {
    run, events := [Begin()], [];
    run, events := Take(run, events, StarterStep(0));
    run, events := Take(run, events, Heartbeat);
    run, events := Take(run, events, TimerStep(0));
    run, events := Take(run, events, StarterStep(1));
    run, events := Take(run, events, TimerStep(2));
  }

  /** The initial ping is sent and answered with a wrong nonce, whose handler has cleared pending_. */
  lemma WrongPongClears() returns (run: seq<State>, events: seq<Event>)
    ensures IsRun(run, events)
    ensures run[|events|] == State(Done, Waiting, Reader([], 7, Some(1)), false, [], true, [], [1], [1], [])
  {
    run, events := [Begin()], [];
    run, events := Take(run, events, StarterStep(0));
    run, events := Take(run, events, StarterStep(1));
    run, events := Take(run, events, StarterStep(0));
    run, events := Take(run, events, StarterStep(0));
    run, events := Take(run, events, PongArrives(7));
    run, events := Take(run, events, PongClears);
  }

  /** A heartbeat between a wrong pong's clear and its compare: a second ping, and no pong matched. */
  lemma WrongPongBreaks() returns (run: seq<State>, events: seq<Event>)
    ensures IsRun(run, events)
    ensures run[|events|].stops == [] && |run[|events|].sent| == 2 && run[|events|].consumed == []
    ensures run[|events|].starter.Done? && run[|events|].timer.Waiting? && !Disciplined(run[|events|])
  {
    run, events := WrongPongClears();
    run, events := Take(run, events, Heartbeat);
    run, events := Take(run, events, TimerStep(0));
    run, events := Take(run, events, TimerStep(2));
    run, events := Take(run, events, TimerStep(0));
    run, events := Take(run, events, TimerStep(0));
    assert WrongPong(run[|events|]) && run[|events|].drawn == [1, 2];
  }

  // ---------------------------------------------------------------------------------------------
  // After the stop
  // ---------------------------------------------------------------------------------------------

  lemma StepLive(s: State, e: Event)
    requires Possible(s, e)
    ensures After(s, e).live <==> s.live && e != ProtocolStops
  {
  }

  /** In every run the protocol is live until the stop reaches it. */
  lemma {:induction false} LiveUntilStop(run: seq<State>, events: seq<Event>, k: nat)
    requires IsRun(run, events) && k < |run|
    ensures run[k].live <==> forall j :: 0 <= j < k ==> events[j] != ProtocolStops
  {
    if k > 0 {
      hide After, Possible;
      LiveUntilStop(run, events, k - 1);
      StepLive(run[k - 1], events[k - 1]);
      assert run[k - 1 + 1] == After(run[k - 1], events[k - 1]);
    }
  }

  /** The stop has reached the protocol, and no thread is past its test. */
  predicate Silent(s: State) {
    !s.live && !s.starter.Setting? && !s.timer.Setting?
  }

  lemma StepSilent(s: State, e: Event)
    requires Silent(s) && Possible(s, e)
    ensures Silent(After(s, e)) && After(s, e).drawn == s.drawn && After(s, e).pending == s.pending
    ensures |After(s, e).subs| <= |s.subs|
  {
  }

  /** Once the stop has reached the protocol, and unless a thread was past its test, no ping is begun any more. */
  lemma {:induction false} SilentForGood(run: seq<State>, events: seq<Event>, k: nat, l: nat)
    requires IsRun(run, events) && k <= l < |run| && Silent(run[k])
    ensures Silent(run[l]) && run[l].drawn == run[k].drawn && |run[l].subs| <= |run[k].subs|
    decreases l - k
  {
    hide After, Possible, Silent, Begin;
    if k < l {
      SilentForGood(run, events, k, l - 1);
      StepSilent(run[l - 1], events[l - 1]);
      assert run[l - 1 + 1] == After(run[l - 1], events[l - 1]);
    }
  }
}
