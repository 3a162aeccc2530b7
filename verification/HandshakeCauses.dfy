/**
 Why a handshake ends as it does, and what it says on the wire. Every call that reaches the join, and so
 every completion, goes back to an event of the run: a timeout, a version refused or accepted, a verack,
 a reject of our version, or a stop. Conditions are stated on the configuration and the messages.
 */
module HandshakeCauses {
  import opened Codes
  import opened Events
  import opened Version
  import opened Handshake
  import opened Agreement

  // ---------------------------------------------------------------------------------------------
  // Causes
  // ---------------------------------------------------------------------------------------------

  /** The peer rejects our version message as obsolete or duplicate. */
  predicate RefusesUs(r: RejectNote) {
    r.ofVersion && (r.reason == Obsolete || r.reason == Duplicate)
  }

  /** The version message is acceptable to a node configured like this. */
  ghost predicate Welcome(cfg: Config, v: VersionMessage) {
    Acceptable(cfg.kind, cfg.settings, cfg.levels, v, Min(v.value, cfg.settings.protocolMaximum))
  }

  /** A step is the reason for a call of set_event by this source with this code. */
  ghost predicate Causes(n: Node, e: Event, src: Source, ec: Code)
    requires Enabled(n, e)
  {
    match src
    case TimerEvent => e.TimerFires? && ec == ChannelTimeout
    case RejectEvent => e.HandleReject? && RefusesUs(n.rejects[0]) && ec == ChannelStopped
    case StopEvent => (e.RelayStop? || (e.Boot? && n.boot == 1)) && n.channel.closed && ec == ChannelStopped
    case VersionEvent =>
      && e.Deliver? && n.reader.m.VersionMsg?
      && ec == if Welcome(n.cfg, n.reader.m.v) then Success else ChannelStopped
    case VerackEvent => e.Deliver? && n.reader.m.Verack? && ec == Success
  }

  /** The source is still subscribed, and the protocol not stopped. */
  predicate Listens(n: Node, src: Source) {
    match src
    case TimerEvent => n.core.handler
    case RejectEvent => n.subs.reject && n.core.handler
    case StopEvent => true
    case VersionEvent => n.subs.version && n.core.handler
    case VerackEvent => n.subs.verack && n.core.handler
  }

  lemma PostsCause(n: Node, e: Event)
    requires Enabled(n, e)
    ensures forall src, ec :: Posted(n, e) == Some(Call(src, ec, Loading)) <==> Causes(n, e, src, ec) && Listens(n, src)
    ensures Posted(n, e).Some? ==> Posted(n, e).value.phase == Loading
  {
    if e.Deliver? && n.reader.m.VersionMsg? {
      AcceptedPeer(n.cfg.kind, n.cfg.settings, n.cfg.levels, n.reader.m.v);
    }
    hide Acceptable, Configured, SufficientPeer;
  }

  /** A step adds a call exactly if it is the cause of it and the source listens; no other step adds one. */
  lemma StepCause(n: Node, e: Event)
    requires Enabled(n, e)
    ensures forall src, ec :: Next(n, e).core.calls == n.core.calls + [Call(src, ec, Loading)]
                         <==> Causes(n, e, src, ec) && Listens(n, src)
    ensures (forall src, ec :: !(Causes(n, e, src, ec) && Listens(n, src))) ==>
            |Next(n, e).core.calls| == |n.core.calls|
  {
    StepCalls(n, e);
    PostsCause(n, e);
    hide Next, Causes, Listens, Enabled;
    match Posted(n, e)
    case Some(c) =>
      assert Next(n, e).core.calls == n.core.calls + [Call(c.src, c.ec, Loading)];
      assert Causes(n, e, c.src, c.ec) && Listens(n, c.src);
      forall src, ec | Next(n, e).core.calls == n.core.calls + [Call(src, ec, Loading)]
        ensures Posted(n, e) == Some(Call(src, ec, Loading))
      {
        assert Call(src, ec, Loading) == Next(n, e).core.calls[|n.core.calls|] == Call(c.src, c.ec, Loading);
      }
    case None => assert |Next(n, e).core.calls| == |n.core.calls|;
  }

  ghost predicate Caused(nodes: seq<Node>, events: seq<Event>, k: nat, src: Source, ec: Code)
    requires k <= |events| && k <= |nodes| && forall j :: 0 <= j < k ==> Enabled(nodes[j], events[j])
  {
    exists j :: 0 <= j < k && Causes(nodes[j], events[j], src, ec)
  }

  /** Steps run calls through their phases; they never change a call's source or code. */
  lemma CallsStay(n: Node, e: Event, i: nat)
    requires Enabled(n, e) && i < |n.core.calls|
    ensures i < |Next(n, e).core.calls|
    ensures Next(n, e).core.calls[i].src == n.core.calls[i].src && Next(n, e).core.calls[i].ec == n.core.calls[i].ec
    ensures |Next(n, e).core.calls| <= |n.core.calls| + 1
  {
    StepCalls(n, e);
    hide Next;
  }

  /** Every call of set_event in every run has its cause earlier in the run. */
  lemma {:induction false} EveryCallHasCause(cfg: Config, nodes: seq<Node>, events: seq<Event>, k: nat, i: nat)
    requires IsRun(cfg, nodes, events) && k < |nodes| && i < |nodes[k].core.calls|
    ensures Caused(nodes, events, k, nodes[k].core.calls[i].src, nodes[k].core.calls[i].ec)
  {
    hide Causes, Next, Enabled;
    if k > 0 {
      var n, e := nodes[k - 1], events[k - 1];
      assert nodes[k - 1 + 1] == Next(n, e);
      if i < |n.core.calls| {
        EveryCallHasCause(cfg, nodes, events, k - 1, i);
        CallsStay(n, e, i);
        CausedOn(nodes, events, k - 1, k, nodes[k].core.calls[i].src, nodes[k].core.calls[i].ec);
      } else {
        NewCallCaused(n, e, i);
      }
    }
  }

  lemma CausedOn(nodes: seq<Node>, events: seq<Event>, k: nat, l: nat, src: Source, ec: Code)
    requires k <= l <= |events| && l <= |nodes| && forall j :: 0 <= j < l ==> Enabled(nodes[j], events[j])
    requires Caused(nodes, events, k, src, ec)
    ensures Caused(nodes, events, l, src, ec)
  {
  }

  lemma NewCallCaused(n: Node, e: Event, i: nat)
    requires Enabled(n, e) && |n.core.calls| <= i < |Next(n, e).core.calls|
    ensures Causes(n, e, Next(n, e).core.calls[i].src, Next(n, e).core.calls[i].ec)
  {
    StepCalls(n, e);
    PostsCause(n, e);
    hide Next, Causes;
  }

  /** The failure a completion reports was the code of a call. */
  lemma CompletionIsCall(n: Node)
    requires NodeInv(n) && n.core.completions != []
    ensures exists i :: 0 <= i < |n.core.calls| && n.core.completions == [n.core.calls[i].ec]
  {
    CompletedBy(n.core, 2);
  }

  /**
   Why a handshake ends, in every run. It completes with success, with a timeout or as stopped, and nothing
   else. A timeout means that the timer fired; stopped means that a version was received that is not
   acceptable, that the peer rejected ours, or that the channel's subscribers were closed; success means that
   an acceptable version and a verack were received.
   */
  lemma CompletionCause(cfg: Config, nodes: seq<Node>, events: seq<Event>, k: nat)
    requires IsRun(cfg, nodes, events) && k < |nodes| && nodes[k].core.completions != []
    ensures var done := nodes[k].core.completions;
            || (done == [ChannelTimeout] && Caused(nodes, events, k, TimerEvent, ChannelTimeout))
            || (done == [ChannelStopped]
                && (|| Caused(nodes, events, k, VersionEvent, ChannelStopped)
                    || Caused(nodes, events, k, RejectEvent, ChannelStopped)
                    || Caused(nodes, events, k, StopEvent, ChannelStopped)))
            || (done == [Success]
                && Caused(nodes, events, k, VersionEvent, Success) && Caused(nodes, events, k, VerackEvent, Success))
  {
    RunKeepsInv(cfg, nodes, events, k);
    var n := nodes[k];
    SuccessIsEarned(n);
    CompletionIsCall(n);
    hide NodeInv;
    if n.core.completions == [Success] {
      var i, j := n.core.counted[0], n.core.counted[1];
      EveryCallHasCause(cfg, nodes, events, k, i);
      EveryCallHasCause(cfg, nodes, events, k, j);
      assert {n.core.calls[i].src, n.core.calls[j].src} == {VersionEvent, VerackEvent};
      assert VersionEvent in {n.core.calls[i].src, n.core.calls[j].src};
      assert VerackEvent in {n.core.calls[i].src, n.core.calls[j].src};
    } else {
      var i :| 0 <= i < |n.core.calls| && n.core.completions == [n.core.calls[i].ec];
      EveryCallHasCause(cfg, nodes, events, k, i);
      var src := n.core.calls[i].src;
      assert Caused(nodes, events, k, src, n.core.calls[i].ec);
    }
  }

  // ---------------------------------------------------------------------------------------------
  // Consequences of a failure
  // ---------------------------------------------------------------------------------------------

  /** A failed handshake, or a failed store, stops the channel. */
  predicate FailureStops(n: Node) {
    && (n.core.completions != [] && n.core.completions != [Success] ==> n.channel.stopped)
    && (n.handoff.registered.Some? && n.handoff.registered != Some(Success) ==> n.channel.stopped)
  }

  /** Rejects are subscribed for from the reject level on. */
  predicate RejectLevel(n: Node) {
    n.subs.reject ==> n.cfg.settings.protocolMaximum >= n.cfg.levels.bip61
  }

  lemma QuietFlags(n: Node, e: Event)
    requires Enabled(n, e) && !e.InvokeHandler? && !e.Store?
    ensures Next(n, e).core.completions == n.core.completions
    ensures Next(n, e).handoff.registered == n.handoff.registered
    ensures n.channel.stopped ==> Next(n, e).channel.stopped
  {
    hide Accepts;
  }

  lemma InvokeFails(n: Node, e: Event)
    requires CoreInv(n.core, 2) && FailureStops(n) && Enabled(n, e) && e.InvokeHandler?
    ensures FailureStops(Next(n, e))
  {
    FiresOwnCode(n.core, 2, e.i);
    hide CoreInv, Fires;
  }

  lemma StepFailureStops(n: Node, e: Event)
    requires CoreInv(n.core, 2) && FailureStops(n) && Enabled(n, e)
    ensures FailureStops(Next(n, e))
  {
    hide CoreInv;
    if e.InvokeHandler? {
      InvokeFails(n, e);
    } else if !e.Store? {
      QuietFlags(n, e);
      hide Next, Enabled;
    }
  }

  lemma StepRejectLevel(n: Node, e: Event)
    requires RejectLevel(n) && Enabled(n, e)
    ensures RejectLevel(Next(n, e))
  {
    RejectComes(n, e);
    StepKeepsConfig(n, e);
    hide Next, Enabled;
  }

  lemma RejectComes(n: Node, e: Event)
    requires Enabled(n, e)
    ensures Next(n, e).subs.reject ==> n.subs.reject || HandlesReject(n.cfg.settings, n.cfg.levels)
  {
    hide Accepts, Fires, Post, Load, Check, Invoke, HandlesReject;
  }

  /** The last statement of the start sequence subscribes for rejects exactly from the reject level on. */
  lemma BootSubscribes(n: Node)
    requires n.boot == BOOTED - 1
    ensures Next(n, Boot).subs.reject <==>
            !n.channel.closed && n.cfg.settings.protocolMaximum >= n.cfg.levels.bip61
  {
  }

  /** A stop call that has been checked, or counted. */
  predicate Spent(c: Call<Source>) {
    IsStop(c.ec) && (c.phase.Invoking? || c.phase.Counted?)
  }

  predicate StopCounted(c: Call<Source>) {
    c.ec == ChannelStopped && c.phase.Counted?
  }

  /** A checked stop call has cleared the handler, and a counted one has stopped the timer, for good. */
  ghost predicate TimerEnds(n: Node) {
    && (n.boot == 0 ==> n.core.calls == [])
    && (forall i :: 0 <= i < |n.core.calls| && Spent(n.core.calls[i]) ==> !n.core.handler)
    && (forall i :: 0 <= i < |n.core.calls| && StopCounted(n.core.calls[i]) ==> !n.subs.timer)
  }

  /** How the handler and the timer can come up, and when the timer must go. */
  lemma TimerFlags(n: Node, e: Event)
    requires Enabled(n, e) && BootOrder(n)
    ensures n.boot == 0 && Next(n, e).boot == 0 ==> Posted(n, e).None?
    ensures Next(n, e).subs.timer ==> n.subs.timer || (n.core.handler && e.Boot?)
    ensures e.InvokeHandler? && n.core.calls[e.i].ec == ChannelStopped ==> !Next(n, e).subs.timer
    ensures Next(n, e).boot >= n.boot && (e.Boot? ==> Next(n, e).boot > 0)
  {
    hide Accepts;
  }

  /** The calls and the handler after a step. */
  lemma SpentCalls(n: Node, e: Event)
    requires TimerEnds(n) && Enabled(n, e)
    ensures var c := CoreNext(n, e);
            && (n.boot == 0 && Posted(n, e).None? ==> c.calls == [])
            && (forall i :: 0 <= i < |c.calls| && Spent(c.calls[i]) ==> !c.handler)
            && (forall i :: 0 <= i < |c.calls| && StopCounted(c.calls[i]) ==>
                  (i < |n.core.calls| && StopCounted(n.core.calls[i])) || (e == InvokeHandler(i) && !n.core.handler))
  {
    hide Accepts;
  }

  lemma StepTimerEnds(n: Node, e: Event)
    requires NodeInv(n) && TimerEnds(n) && Enabled(n, e)
    ensures TimerEnds(Next(n, e))
  {
    StepCalls(n, e);
    TimerFlags(n, e);
    SpentCalls(n, e);
    assert e.InvokeHandler? ==> CoreNext(n, e).calls[e.i].ec == n.core.calls[e.i].ec;
    hide NodeInv, Next, CoreNext, Posted, Spent;
  }

  lemma InitialFailures(cfg: Config)
    ensures FailureStops(Initial(cfg)) && RejectLevel(Initial(cfg)) && TimerEnds(Initial(cfg))
  {
  }

  lemma {:induction false} RunFailures(cfg: Config, nodes: seq<Node>, events: seq<Event>, k: nat)
    requires IsRun(cfg, nodes, events) && k < |nodes|
    ensures FailureStops(nodes[k]) && RejectLevel(nodes[k]) && TimerEnds(nodes[k])
  {
    hide FailureStops, RejectLevel, TimerEnds, Next, Enabled, NodeInv, Initial, CoreInv;
    if k == 0 {
      InitialFailures(cfg);
    } else {
      var n, e := nodes[k - 1], events[k - 1];
      RunFailures(cfg, nodes, events, k - 1);
      RunKeepsInv(cfg, nodes, events, k - 1);
      assert nodes[k - 1 + 1] == Next(n, e);
      InvCore(n);
      StepFailureStops(n, e);
      StepRejectLevel(n, e);
      StepTimerEnds(n, e);
    }
  }

  lemma InvCore(n: Node)
    requires NodeInv(n)
    ensures CoreInv(n.core, 2)
  {
  }

  /**
   What a failure leaves behind, in every run: a handshake that completed without success has stopped its
   channel, and so has one whose channel could not be stored; once a stop has been counted the timer is off;
   and no reject counts below the reject level.
   */
  lemma FailureAftermath(cfg: Config, nodes: seq<Node>, events: seq<Event>, k: nat)
    requires IsRun(cfg, nodes, events) && k < |nodes|
    ensures nodes[k].core.completions !in {[], [Success]} ==> nodes[k].channel.stopped
    ensures nodes[k].handoff.registered !in {None, Some(Success)} ==> nodes[k].channel.stopped
    ensures (exists i :: 0 <= i < |nodes[k].core.calls| && StopCounted(nodes[k].core.calls[i])) ==> !nodes[k].subs.timer
    ensures nodes[k].subs.reject ==> cfg.settings.protocolMaximum >= cfg.levels.bip61
  {
    RunFailures(cfg, nodes, events, k);
    RunKeepsInv(cfg, nodes, events, k);
    hide NodeInv;
  }

  // ---------------------------------------------------------------------------------------------
  // The wire
  // ---------------------------------------------------------------------------------------------

  /** Why a configured node refuses a peer in a way it says so: too old, or services missing. */
  predicate Lacking(cfg: Config, v: VersionMessage) {
    || v.value < cfg.settings.protocolMinimum
    || (cfg.kind.Outbound? && (0 !in v.services || (3 in cfg.settings.services && 3 !in v.services)))
  }

  /**
   The answer to a version message, if it is listened for: a verack to an acceptable peer, a reject of an
   obsolete version to a peer that lacks something, from the reject level on, and otherwise nothing.
   */
  lemma VersionAnswer(n: Node, v: VersionMessage)
    requires n.reader == Reading(VersionMsg(v)) && n.subs.version && n.core.handler
    ensures var s, l := n.cfg.settings, n.cfg.levels;
            Sends(n, Deliver) ==
            if Welcome(n.cfg, v) then [Verack]
            else if l.minimum <= s.protocolMinimum <= s.protocolMaximum <= l.maximum
                    && s.protocolMaximum >= l.bip61 && Lacking(n.cfg, v) then [RejectMsg(RejectNote(true, Obsolete))]
            else []
  {
    AcceptedPeer(n.cfg.kind, n.cfg.settings, n.cfg.levels, v);
    RequiredBits(v.services, ParamsOf(n.cfg).minimumServices);
    RequiredOf(n.cfg);
    hide Acceptable;
  }

  lemma RequiredOf(cfg: Config)
    ensures forall bit :: bit in ParamsOf(cfg).minimumServices <==>
              cfg.kind.Outbound? && (bit == 0 || (bit == 3 && 3 in cfg.settings.services))
  {
  }

  /** All messages a node has put on the wire. */
  ghost function Wire(cfg: Config, nodes: seq<Node>, events: seq<Event>, k: nat): seq<Msg>
    requires IsRun(cfg, nodes, events) && k < |nodes|
  {
    if k == 0 then [] else Wire(cfg, nodes, events, k - 1) + Sends(nodes[k - 1], events[k - 1])
  }

  /** The wire holds our version once it is sent, then at most one answer; the verack iff a peer is accepted. */
  ghost predicate WireHolds(n: Node, wire: seq<Msg>) {
    if n.boot <= 5 then wire == [] && n.channel.peer.None?
    else
      && |wire| > 0 && wire[0].VersionMsg? && Describes(wire[0].v, n.cfg)
      && (n.channel.peer.Some? <==> wire[1..] == [Verack])
      && (n.channel.peer.None? ==>
            wire[1..] == [] || (wire[1..] == [RejectMsg(RejectNote(true, Obsolete))] && !n.subs.version))
      && (n.subs.version ==> wire[1..] == [])
  }

  lemma StepWire(n: Node, e: Event, wire: seq<Msg>)
    requires NodeInv(n) && Enabled(n, e) && WireHolds(n, wire)
    ensures WireHolds(Next(n, e), wire + Sends(n, e))
  {
    PeeredStep(n, e);
    WireStep(n, e);
    hide NodeInv, Next, Sends, Enabled;
    var all := wire + Sends(n, e);
    if n.boot > 5 { assert all[1..] == wire[1..] + Sends(n, e); }
  }

  /** What each step sends. */
  lemma WireStep(n: Node, e: Event)
    requires NodeInv(n) && Enabled(n, e)
    ensures var m, sent := Next(n, e), Sends(n, e);
            && m.cfg == n.cfg && m.boot >= n.boot
            && (n.boot < 5 && m.boot <= 5 ==> sent == [] && m.channel.peer == n.channel.peer)
            && (n.boot == 5 && m.boot > 5 ==> |sent| == 1 && sent[0].VersionMsg? && Describes(sent[0].v, n.cfg)
                                              && m.channel.peer == n.channel.peer)
            && (n.boot == 5 && m.boot == 5 ==> sent == [] && m.channel.peer == n.channel.peer)
            && (n.boot < 5 ==> m.boot <= 5)
            && (n.boot > 5 && m.channel.peer == n.channel.peer ==>
                  sent == [] || (sent == [RejectMsg(RejectNote(true, Obsolete))] && n.subs.version && !m.subs.version))
            && (n.boot > 5 && m.channel.peer != n.channel.peer ==>
                  sent == [Verack] && n.subs.version && !m.subs.version)
            && (n.boot > 5 && m.subs.version ==> n.subs.version)
  {
    hide CoreInv, OneShot, NothingLost, ReaderOwns, Configured, SufficientPeer;
  }

  lemma {:induction false} RunWire(cfg: Config, nodes: seq<Node>, events: seq<Event>, k: nat)
    requires IsRun(cfg, nodes, events) && k < |nodes|
    ensures WireHolds(nodes[k], Wire(cfg, nodes, events, k))
  {
    hide WireHolds, Next, Enabled, NodeInv, Initial, Sends;
    if k == 0 {
      WireBegins(cfg);
    } else {
      var n, e := nodes[k - 1], events[k - 1];
      RunWire(cfg, nodes, events, k - 1);
      RunKeepsInv(cfg, nodes, events, k - 1);
      assert nodes[k - 1 + 1] == Next(n, e);
      StepWire(n, e, Wire(cfg, nodes, events, k - 1));
    }
  }

  lemma WireBegins(cfg: Config)
    ensures WireHolds(Initial(cfg), [])
  {
  }

  /**
   What a node says, in every run: nothing before its version message, which carries the configured maximum,
   its services and its nonce; after it at most one more message, a verack if and only if it has accepted its
   peer, or else a reject of an obsolete version.
   */
  lemma WireContents(cfg: Config, nodes: seq<Node>, events: seq<Event>, k: nat)
    requires IsRun(cfg, nodes, events) && k < |nodes|
    ensures var wire := Wire(cfg, nodes, events, k);
            && (wire == [] <==> nodes[k].boot <= 5)
            && (wire != [] ==> wire[0].VersionMsg? && Describes(wire[0].v, cfg))
            && (wire != [] && wire[1..] == [Verack] <==> nodes[k].channel.peer.Some?)
            && (wire != [] ==> wire[1..] in {[], [Verack], [RejectMsg(RejectNote(true, Obsolete))]})
  {
    RunWire(cfg, nodes, events, k);
    RunKeepsInv(cfg, nodes, events, k);
    hide NodeInv, Wire;
  }

  // ---------------------------------------------------------------------------------------------
  // Subscriptions and flags
  // ---------------------------------------------------------------------------------------------

  predicate Subscribed(n: Node, src: Source) {
    match src
    case VersionEvent => n.subs.version
    case VerackEvent => n.subs.verack
    case RejectEvent => n.subs.reject
    case StopEvent => n.subs.stop
    case TimerEvent => n.subs.timer
  }

  /** A step ends a subscription: it is used up, its handler declines to go on, or the stop ends it. */
  predicate Unsubscribes(n: Node, e: Event, src: Source)
    requires Enabled(n, e)
  {
    match src
    case VersionEvent => (e.Deliver? && n.reader.m.VersionMsg?) || e == BroadcastStop(VersionEvent)
    case VerackEvent => (e.Deliver? && n.reader.m.Verack?) || e == BroadcastStop(VerackEvent)
    case RejectEvent =>
      (e.HandleReject? && (RefusesUs(n.rejects[0]) || !n.core.handler)) || e == BroadcastStop(RejectEvent)
    case StopEvent => e.RelayStop?
    case TimerEvent => e.TimerFires? || (e.InvokeHandler? && n.core.calls[e.i].ec == ChannelStopped)
  }

  lemma StepUnsubscribes(n: Node, e: Event, src: Source)
    requires Enabled(n, e) && n.boot == BOOTED
    ensures Next(n, e).boot == BOOTED
    ensures Subscribed(Next(n, e), src) <==> Subscribed(n, src) && !Unsubscribes(n, e, src)
  {
    if e.Deliver? { DeliverSubs(n); }
    if e.HandleReject? { RejectSubs(n); }
    hide DeliverStep, RejectStep, Post, Load, Check, Invoke, Fires;
  }

  lemma DeliverSubs(n: Node)
    requires n.reader.Reading?
    ensures DeliverStep(n).boot == n.boot
    ensures DeliverStep(n).subs == n.subs.(version := n.subs.version && !n.reader.m.VersionMsg?,
                                           verack := n.subs.verack && !n.reader.m.Verack?)
  {
    hide Accepts, Post;
  }

  lemma RejectSubs(n: Node)
    requires n.rejects != []
    ensures RejectStep(n).boot == n.boot
    ensures RejectStep(n).subs ==
            n.subs.(reject := n.subs.reject && n.core.handler && !RefusesUs(n.rejects[0]))
  {
    hide Post;
  }

  /**
   In every run a started node stays subscribed for each source until exactly such a step; so a reject that does
   not refuse our version leaves the subscription in place for the next.
   */
  lemma {:induction false} StaysSubscribed(cfg: Config, nodes: seq<Node>, events: seq<Event>,
                                           k: nat, l: nat, src: Source)
    requires IsRun(cfg, nodes, events) && k <= l < |nodes| && nodes[k].boot == BOOTED
    ensures nodes[l].boot == BOOTED
    ensures Subscribed(nodes[l], src) <==>
            Subscribed(nodes[k], src) && forall j :: k <= j < l ==> !Unsubscribes(nodes[j], events[j], src)
    decreases l - k
  {
    hide Next, Enabled, Subscribed, Unsubscribes, Initial;
    if k < l {
      StaysSubscribed(cfg, nodes, events, k, l - 1, src);
      StepUnsubscribes(nodes[l - 1], events[l - 1], src);
      assert nodes[l - 1 + 1] == Next(nodes[l - 1], events[l - 1]);
    }
  }

  lemma StepFlags(n: Node, e: Event)
    requires Enabled(n, e)
    ensures Next(n, e).channel.closed <==> n.channel.closed || e.CloseSubscribers?
    ensures e.StopChannel? ==> Next(n, e).channel.stopped
    ensures Next(n, e).channel.stopped && !n.channel.stopped ==>
            || e.StopChannel?
            || (e.InvokeHandler? && Fires(n.core, e.i) !in {[], [Success]})
            || (e.Store? && e.ec != Success)
  {
    hide Accepts, Post, Load, Check, Invoke, Fires;
  }

  /** In every run the subscribers are closed iff that has happened. */
  lemma {:induction false} ClosedCause(cfg: Config, nodes: seq<Node>, events: seq<Event>, k: nat)
    requires IsRun(cfg, nodes, events) && k < |nodes|
    ensures nodes[k].channel.closed <==> exists j :: 0 <= j < k && events[j].CloseSubscribers?
  {
    if k > 0 {
      hide Next, Enabled;
      ClosedCause(cfg, nodes, events, k - 1);
      StepFlags(nodes[k - 1], events[k - 1]);
      assert nodes[k - 1 + 1] == Next(nodes[k - 1], events[k - 1]);
    }
  }

  // ---------------------------------------------------------------------------------------------
  // Too late
  // ---------------------------------------------------------------------------------------------

  /** The handler is gone for good, and call i, if it has come at all, has not loaded it. */
  predicate TooLate(n: Node, i: nat) {
    && n.boot > 0 && !n.core.handler
    && (i < |n.core.calls| ==> n.core.calls[i].phase.Loading? || n.core.calls[i].phase.Dropped?)
  }

  lemma StepTooLate(n: Node, e: Event, i: nat)
    requires Enabled(n, e) && TooLate(n, i)
    ensures TooLate(Next(n, e), i)
  {
    StepCalls(n, e);
    BootGrows(n, e);
    hide Next, Accepts, HandlesReject;
  }

  lemma BootGrows(n: Node, e: Event)
    requires Enabled(n, e)
    ensures Next(n, e).boot >= n.boot
  {
    hide Accepts, Post, Load, Check, Invoke, Fires;
  }

  /** Once a stop has cleared the handler, a call that has not loaded it never reaches the join. */
  lemma {:induction false} NoLateCalls(cfg: Config, nodes: seq<Node>, events: seq<Event>, k: nat, l: nat, i: nat)
    requires IsRun(cfg, nodes, events) && k <= l < |nodes| && TooLate(nodes[k], i)
    ensures TooLate(nodes[l], i) && i !in nodes[l].core.counted
    decreases l - k
  {
    hide Next, Enabled, TooLate, NodeInv, CoreInv, Initial;
    RunKeepsInv(cfg, nodes, events, l);
    InvCore(nodes[l]);
    if k < l {
      NoLateCalls(cfg, nodes, events, k, l - 1, i);
      StepTooLate(nodes[l - 1], events[l - 1], i);
      assert nodes[l - 1 + 1] == Next(nodes[l - 1], events[l - 1]);
    }
    LateUncounted(nodes[l], i);
  }

  lemma LateUncounted(n: Node, i: nat)
    requires TooLate(n, i) && CoreInv(n.core, 2)
    ensures i !in n.core.counted
  {
    forall j | 0 <= j < |n.core.counted| ensures n.core.counted[j] != i {
      assert InPhase(n.core, n.core.counted[j], Counted);
    }
  }

  /** Closed before it subscribed for the version: no version is ever accepted. */
  predicate NeverMeets(n: Node) {
    n.channel.closed && !n.subs.version && n.channel.peer.None?
  }

  lemma StepNeverMeets(n: Node, e: Event)
    requires Enabled(n, e) && NeverMeets(n)
    ensures NeverMeets(Next(n, e))
  {
    hide Accepts, Post, Load, Check, Invoke, Fires;
  }

  /** A channel closed before its node subscribed for the version never accepts a peer and never succeeds. */
  lemma {:induction false} ClosedTooEarly(cfg: Config, nodes: seq<Node>, events: seq<Event>, k: nat, l: nat)
    requires IsRun(cfg, nodes, events) && k <= l < |nodes| && nodes[k].channel.closed && nodes[k].boot <= 3
    ensures NeverMeets(nodes[l]) && nodes[l].core.completions != [Success]
    decreases l - k
  {
    hide Next, Enabled, NeverMeets, NodeInv, Initial;
    RunKeepsInv(cfg, nodes, events, l);
    if k < l {
      ClosedTooEarly(cfg, nodes, events, k, l - 1);
      StepNeverMeets(nodes[l - 1], events[l - 1]);
      assert nodes[l - 1 + 1] == Next(nodes[l - 1], events[l - 1]);
    }
    MeetsNobody(nodes[l]);
  }

  lemma MeetsNobody(n: Node)
    requires NodeInv(n) && (NeverMeets(n) || (n.channel.closed && n.boot <= 3))
    ensures NeverMeets(n) && n.core.completions != [Success]
  {
    SuccessIsEarned(n);
  }

  // ---------------------------------------------------------------------------------------------
  // Relayed rejects
  // ---------------------------------------------------------------------------------------------

  /** The rejects among the frames read, in order. */
  function RejectNotes(log: seq<Entry>): seq<RejectNote> {
    if log == [] then []
    else
      var n := |log| - 1;
      RejectNotes(log[..n]) + if log[n].m.RejectMsg? then [log[n].m.r] else []
  }

  /** The reject a step handles. */
  function Handles(n: Node, e: Event): seq<RejectNote>
    requires Enabled(n, e)
  {
    if e.HandleReject? then [n.rejects[0]] else []
  }

  /** The rejects handled so far. */
  ghost function Handled(cfg: Config, nodes: seq<Node>, events: seq<Event>, k: nat): seq<RejectNote>
    requires IsRun(cfg, nodes, events) && k < |nodes|
  {
    if k == 0 then [] else Handled(cfg, nodes, events, k - 1) + Handles(nodes[k - 1], events[k - 1])
  }

  lemma StepRelays(n: Node, e: Event)
    requires Enabled(n, e)
    ensures var m := Next(n, e);
            if e.Deliver? then
              && |m.handoff.log| == |n.handoff.log| + 1 && m.handoff.log[..|n.handoff.log|] == n.handoff.log
              && m.handoff.log[|n.handoff.log|].m == n.reader.m
              && m.rejects == n.rejects + if n.reader.m.RejectMsg? then [n.reader.m.r] else []
            else
              && m.handoff.log == n.handoff.log
              && m.rejects == if e.HandleReject? then n.rejects[1..] else n.rejects
  {
    hide Accepts, Post, Load, Check, Invoke, Fires;
  }

  lemma NotesGrow(n: Node, e: Event, handled: seq<RejectNote>)
    requires Enabled(n, e) && RejectNotes(n.handoff.log) == handled + n.rejects
    ensures RejectNotes(Next(n, e).handoff.log) == handled + Handles(n, e) + Next(n, e).rejects
  {
    StepRelays(n, e);
    if e.HandleReject? { assert n.rejects == [n.rejects[0]] + n.rejects[1..]; }
    hide Next, Enabled;
  }

  /** In every run the rejects read are, in order, those handled followed by those still to be handled. */
  lemma {:induction false} RejectsRelayed(cfg: Config, nodes: seq<Node>, events: seq<Event>, k: nat)
    requires IsRun(cfg, nodes, events) && k < |nodes|
    ensures RejectNotes(nodes[k].handoff.log) == Handled(cfg, nodes, events, k) + nodes[k].rejects
  {
    if k > 0 {
      hide Next, Enabled, Handles, RejectNotes, Initial;
      RejectsRelayed(cfg, nodes, events, k - 1);
      NotesGrow(nodes[k - 1], events[k - 1], Handled(cfg, nodes, events, k - 1));
      assert nodes[k - 1 + 1] == Next(nodes[k - 1], events[k - 1]);
    }
  }
}
