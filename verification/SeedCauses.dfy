/**
 Why a seed protocol ends as it does, and that it can end as intended: every call that reaches its join goes back to
 an event of the run, and there is a run in which the addresses are requested, received and stored.
 */
module SeedCauses {
  import opened Codes
  import opened Events
  import opened SeedProtocol

  /** A run together with its events. */
  ghost predicate IsTrace(selfPort: nat, run: seq<Seed>, events: seq<Event>) {
    && |run| == |events| + 1 && run[0] == Initial(selfPort)
    && forall k :: 0 <= k < |events| ==> Enabled(run[k], events[k]) && run[k + 1] == Next(run[k], events[k])
  }

  predicate Ongoing(ec: Code) {
    ec != ChannelStopped && ec != ServiceStopped
  }

  /** A step is the reason for a call of set_event by this source with this code. */
  predicate Causes(p: Seed, e: Event, src: Source, ec: Code) {
    match src
    case TimerEvent => e.TimerFires? && ec == ChannelTimeout
    case StopEvent => (e.RelayStop? || (e.Boot? && p.boot == 1)) && p.closed && ec == ChannelStopped
    case OwnAddressEvent =>
      ec == Success && ((e.Boot? && p.boot == 4 && p.selfPort == 0) || (e.OwnAddressSent? && Ongoing(e.ec)))
    case GetAddressEvent => e.GetAddressSent? && Ongoing(e.ec) && ec == e.ec
    case StoreEvent => e.AddressesStored? && Ongoing(e.ec) && ec == if e.ec == Success then ChannelStopped else e.ec
  }

  /** Events other than a stop and a statement of the start sequence are ignored once the handler is gone. */
  predicate Listens(p: Seed, e: Event) {
    p.core.handler || e.RelayStop? || e.Boot?
  }

  /** A step adds a call exactly if it is the cause of it and the protocol listens; no other step adds one. */
  lemma StepCause(p: Seed, e: Event)
    requires Enabled(p, e)
    ensures forall src, ec :: Posted(p, e) == Some(Call(src, ec, Loading)) <==> Causes(p, e, src, ec) && Listens(p, e)
    ensures Posted(p, e).Some? ==> Posted(p, e).value.phase == Loading
  {
  }

  lemma CallsStay(p: Seed, e: Event, i: nat)
    requires Enabled(p, e) && i < |Next(p, e).core.calls|
    ensures i < |p.core.calls| ==>
            Next(p, e).core.calls[i].src == p.core.calls[i].src && Next(p, e).core.calls[i].ec == p.core.calls[i].ec
    ensures i >= |p.core.calls| ==> Posted(p, e).Some? && Next(p, e).core.calls[i] == Posted(p, e).value
  {
    StepCause(p, e);
    hide Posted, Causes;
  }

  ghost predicate Caused(run: seq<Seed>, events: seq<Event>, k: nat, src: Source, ec: Code)
    requires k <= |run| && k <= |events|
  {
    exists j :: 0 <= j < k && Causes(run[j], events[j], src, ec)
  }

  lemma {:induction false} EveryCallHasCause(selfPort: nat, run: seq<Seed>, events: seq<Event>, k: nat, i: nat)
    requires IsTrace(selfPort, run, events) && k < |run| && i < |run[k].core.calls|
    ensures Caused(run, events, k, run[k].core.calls[i].src, run[k].core.calls[i].ec)
  {
    hide Causes, Next, Enabled, Posted;
    if k > 0 {
      var p, e := run[k - 1], events[k - 1];
      assert run[k - 1 + 1] == Next(p, e);
      CallsStay(p, e, i);
      var call := run[k].core.calls[i];
      if i < |p.core.calls| {
        EveryCallHasCause(selfPort, run, events, k - 1, i);
        var j :| 0 <= j < k - 1 && Causes(run[j], events[j], call.src, call.ec);
      } else {
        StepCause(p, e);
        assert Causes(p, e, call.src, call.ec);
      }
    }
  }

  lemma {:induction false} TraceKeepsInv(selfPort: nat, run: seq<Seed>, events: seq<Event>, k: nat)
    requires IsTrace(selfPort, run, events) && k < |run|
    ensures SeedInv(run[k])
  {
    hide SeedInv, Next, Enabled, Initial;
    if k == 0 {
      InitialInv(selfPort);
    } else {
      TraceKeepsInv(selfPort, run, events, k - 1);
      StepKeepsInv(run[k - 1], events[k - 1]);
      assert run[k - 1 + 1] == Next(run[k - 1], events[k - 1]);
    }
  }

  /**
   Why a seed protocol ends, in every run. A timeout means that the timer fired; stopped means that the channel's
   subscribers were closed or that the received addresses were stored; any other code is that of a failed request or
   of a failed store. The sending of our own address is never a reason.
   */
  lemma CompletionCause(selfPort: nat, run: seq<Seed>, events: seq<Event>, k: nat)
    requires IsTrace(selfPort, run, events) && k < |run| && run[k].core.completions != []
    ensures |run[k].core.completions| == 1
    ensures var ec := run[k].core.completions[0];
            && ec != Success
            && (|| Caused(run, events, k, TimerEvent, ec) || Caused(run, events, k, StopEvent, ec)
                || Caused(run, events, k, GetAddressEvent, ec) || Caused(run, events, k, StoreEvent, ec))
  {
    hide SeedInv, Next, Enabled, Initial;
    TraceKeepsInv(selfPort, run, events, k);
    var i := CompletedByCall(run[k]);
    EveryCallHasCause(selfPort, run, events, k, i);
    NotOwnAddress(run, events, k, run[k].core.calls[i].ec);
  }

  lemma CompletedByCall(p: Seed) returns (i: nat)
    requires SeedInv(p) && p.core.completions != []
    ensures i < |p.core.calls| && p.core.completions == [p.core.calls[i].ec] && p.core.calls[i].ec != Success
  {
    NeverSucceeds(p);
    CompletedBy(p.core, 3);
    i :| 0 <= i < |p.core.calls| && p.core.completions == [p.core.calls[i].ec];
    assert p.core.completions[0] in p.core.completions;
  }

  /** Sending our own address only ever posts success. */
  lemma NotOwnAddress(run: seq<Seed>, events: seq<Event>, k: nat, ec: Code)
    requires k <= |run| && k <= |events|
    ensures Caused(run, events, k, OwnAddressEvent, ec) ==> ec == Success
  {
  }

  // ---------------------------------------------------------------------------------------------
  // The intended run
  // ---------------------------------------------------------------------------------------------

  lemma Take(selfPort: nat, run: seq<Seed>, events: seq<Event>, e: Event) returns (run': seq<Seed>, events': seq<Event>)
    requires IsTrace(selfPort, run, events) && Enabled(run[|events|], e)
    ensures IsTrace(selfPort, run', events') && |events'| == |events| + 1
    ensures run'[|events'|] == Next(run[|events|], e)
  {
    run', events' := run + [Next(run[|events|], e)], events + [e];
  }

  /** Started: the timer is armed, addresses are subscribed for, and the messages are being sent. */
  function Sending(selfPort: nat): Seed {
    var core := Fresh<Source>(3).(handler := true);
    Seed(selfPort, BOOTED, if selfPort == 0 then Post(core, OwnAddressEvent, Success) else core,
         Owed(selfPort != 0, true, true, false, true, true), false, [])
  }

  lemma Boots(selfPort: nat) returns (run: seq<Seed>, events: seq<Event>)
    ensures IsTrace(selfPort, run, events) && |run| == |events| + 1 && run[|events|] == Sending(selfPort)
  {
    run, events := [Initial(selfPort)], [];
    hide IsTrace;
    assert IsTrace(selfPort, run, events) by { TraceBegins(selfPort); }
    run, events := Take(selfPort, run, events, Boot);
    run, events := Take(selfPort, run, events, Boot);
    run, events := Take(selfPort, run, events, Boot);
    run, events := Take(selfPort, run, events, Boot);
    run, events := Take(selfPort, run, events, Boot);
    run, events := Take(selfPort, run, events, Boot);
  }

  lemma TraceBegins(selfPort: nat)
    ensures IsTrace(selfPort, [Initial(selfPort)], [])
  {
  }

  /** One call runs through its phases. */
  lemma Counts(selfPort: nat, run: seq<Seed>, events: seq<Event>, i: nat)
    returns (run': seq<Seed>, events': seq<Event>)
    requires IsTrace(selfPort, run, events) && InPhase(run[|events|].core, i, Loading) && run[|events|].core.handler
    ensures IsTrace(selfPort, run', events')
    ensures var p, q := run[|events|], run'[|events'|];
            && q.core == Invoke(Check(Load(p.core, i), i), i)
            && q.owed.(timer := p.owed.timer) == p.owed && q.boot == p.boot && q.closed == p.closed
  {
    hide IsTrace;
    run', events' := Take(selfPort, run, events, LoadHandler(i));
    run', events' := Take(selfPort, run', events', CheckHandler(i));
    run', events' := Take(selfPort, run', events', InvokeHandler(i));
  }

  /** Our own address, if we have one, and the request have been sent and counted. */
  predicate Asked(p: Seed) {
    && p.boot == BOOTED && !p.closed && p.owed.address
    && p.core.handler && p.core.counted == [0, 1] && p.core.completions == [] && p.core.join.count == 2
    && p.core.join.need == 3 && p.core.join.mode.OnError?
    && p.core.calls == [Call(OwnAddressEvent, Success, Counted), Call(GetAddressEvent, Success, Counted)]
  }

  lemma CanAsk(selfPort: nat) returns (run: seq<Seed>, events: seq<Event>)
    ensures IsTrace(selfPort, run, events) && Asked(run[|events|])
  {
    hide IsTrace;
    run, events := Boots(selfPort);
    if selfPort != 0 { run, events := Take(selfPort, run, events, OwnAddressSent(Success)); }
    assert run[|events|].core == Post(Fresh<Source>(3).(handler := true), OwnAddressEvent, Success);
    run, events := Counts(selfPort, run, events, 0);
    run, events := Take(selfPort, run, events, GetAddressSent(Success));
    run, events := Counts(selfPort, run, events, 1);
  }

  /**
   A seed can be used as intended: in this run our own address, if we have one, and the request are sent, addresses
   are received and stored, the join counts all three events, and the protocol completes as stopped.
   */
  lemma CanStore(selfPort: nat) returns (run: seq<Seed>, events: seq<Event>)
    ensures IsTrace(selfPort, run, events)
    ensures run[|events|].core.completions == [ChannelStopped] && run[|events|].core.counted == [0, 1, 2]
    ensures Sources(run[|events|].core) == [OwnAddressEvent, GetAddressEvent, StoreEvent]
  {
    hide IsTrace;
    run, events := CanAsk(selfPort);
    run, events := Take(selfPort, run, events, AddressesReceived(Success));
    run, events := Take(selfPort, run, events, AddressesStored(Success));
    run, events := Counts(selfPort, run, events, 2);
  }

  // ---------------------------------------------------------------------------------------------
  // Flags, the timer and early closing
  // ---------------------------------------------------------------------------------------------

  /** In every run the subscribers are closed iff that has happened. */
  lemma {:induction false} ClosedCause(selfPort: nat, run: seq<Seed>, events: seq<Event>, k: nat)
    requires IsTrace(selfPort, run, events) && k < |run|
    ensures run[k].closed <==> exists j :: 0 <= j < k && events[j].CloseSubscribers?
  {
    if k > 0 {
      hide Enabled, CoreNext, OwedNext;
      ClosedCause(selfPort, run, events, k - 1);
      assert run[k - 1 + 1] == Next(run[k - 1], events[k - 1]);
    }
  }

  lemma StoreStarts(p: Seed, e: Event)
    requires Enabled(p, e) && !p.owed.store && Next(p, e).owed.store
    ensures e.AddressesReceived? && Ongoing(e.ec) && p.core.handler
  {
  }

  /** Addresses are stored only after a message with them was received while the protocol was going on. */
  lemma {:induction false} StoreFollows(selfPort: nat, run: seq<Seed>, events: seq<Event>, k: nat)
    requires IsTrace(selfPort, run, events) && k < |run| && run[k].owed.store
    ensures exists j :: 0 <= j < k && events[j].AddressesReceived? && Ongoing(events[j].ec) && run[j].core.handler
  {
    if k > 0 {
      hide CoreNext, Enabled, Initial;
      var p, e := run[k - 1], events[k - 1];
      assert run[k - 1 + 1] == Next(p, e);
      if p.owed.store {
        StoreFollows(selfPort, run, events, k - 1);
      } else {
        StoreStarts(p, e);
      }
    }
  }

  /** Closed before the address subscription was made: none is, and nothing is stored. */
  predicate ClosedEarly(p: Seed) {
    p.closed && !p.owed.address && !p.owed.store
  }

  lemma {:induction false} ClosedEarlyStays(selfPort: nat, run: seq<Seed>, events: seq<Event>, k: nat, l: nat)
    requires IsTrace(selfPort, run, events) && k <= l < |run| && run[k].closed && run[k].boot <= 3
    ensures ClosedEarly(run[l])
    decreases l - k
  {
    if k == l {
      TraceKeepsInv(selfPort, run, events, k);
    } else {
      ClosedEarlyStays(selfPort, run, events, k, l - 1);
      assert run[l - 1 + 1] == Next(run[l - 1], events[l - 1]);
      hide CoreNext, SeedInv;
    }
  }

  predicate StopCounted(c: Call<Source>) {
    c.ec == ChannelStopped && c.phase.Counted?
  }

  predicate Spent(c: Call<Source>) {
    IsStop(c.ec) && (c.phase.Invoking? || c.phase.Counted?)
  }

  /** A checked stop call has cleared the handler, and a counted one has stopped the timer, for good. */
  ghost predicate TimerEnds(p: Seed) {
    && (p.boot == 0 ==> p.core.calls == [])
    && (forall i :: 0 <= i < |p.core.calls| && Spent(p.core.calls[i]) ==> !p.core.handler)
    && (forall i :: 0 <= i < |p.core.calls| && StopCounted(p.core.calls[i]) ==> !p.owed.timer)
  }

  lemma StepTimerEnds(p: Seed, e: Event)
    requires BootOrder(p) && TimerEnds(p) && Enabled(p, e)
    requires p.boot == 0 ==> !p.owed.own && !p.owed.get && !p.owed.store && !p.owed.timer && !p.owed.stop
    ensures TimerEnds(Next(p, e))
  {
  }

  lemma {:induction false} RunTimerEnds(selfPort: nat, run: seq<Seed>, events: seq<Event>, k: nat)
    requires IsTrace(selfPort, run, events) && k < |run|
    ensures TimerEnds(run[k])
  {
    if k > 0 {
      RunTimerEnds(selfPort, run, events, k - 1);
      TraceKeepsInv(selfPort, run, events, k - 1);
      assert run[k - 1 + 1] == Next(run[k - 1], events[k - 1]);
      StepTimerEnds(run[k - 1], events[k - 1]);
    }
  }
}
