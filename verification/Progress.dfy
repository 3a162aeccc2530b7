/**
 Every handshake ends. Whatever the peer sends or withholds and however threads interleave, a handshake
 that has not completed is still starting, or its timer is armed, or a failing call is on its way to the
 join; and from every reachable state the node's own steps alone lead to the completion.
 */
module Progress {
  import opened Codes
  import opened Counting
  import opened Synchronizer
  import opened Events
  import opened Version
  import opened Handshake

  /** While nothing has completed: a cleared handler or a spent timer has left a failing call behind. */
  ghost predicate Ending(n: Node) {
    n.core.completions == [] ==>
      && (n.boot >= 1 && !n.core.handler ==> FailureComing(n.core))
      && (n.boot >= 3 && !n.subs.timer ==> FailureComing(n.core))
  }

  /** A failing call on its way stays so, or completes the join, or another one takes its place. */
  lemma StepKeepsComing(n: Node, e: Event, i: nat)
    requires CoreInv(n.core, 2) && Enabled(n, e) && Reaches(n.core, i)
    ensures CoreNext(n, e).completions != [] || FailureComing(CoreNext(n, e))
  {
    hide CoreInv, Accepts, HandlesReject;
    var c := n.core;
    assert FailureComing(c) && Reaches(c.(handler := true), i);
    match Posted(n, e)
    case Some(call) => ComingKept(c, i, 0, call.src, call.ec);
    case None =>
      match e
      case LoadHandler(j) => ComingKept(c, i, j, StopEvent, Success);
      case CheckHandler(j) => CheckComes(c, i, j);
      case InvokeHandler(j) => InvokeComes(c, 2, i, j);
      case _ =>
  }

  /** How a step can clear the handler or spend the timer. */
  lemma LastsUntil(n: Node, e: Event)
    requires Enabled(n, e)
    ensures n.core.handler && !Next(n, e).core.handler ==> e.CheckHandler? && IsStop(n.core.calls[e.i].ec)
    ensures n.boot == 0 && Next(n, e).boot >= 1 ==> Next(n, e).core.handler
    ensures n.boot < 3 && Next(n, e).boot >= 3 && !Next(n, e).subs.timer ==> n.boot >= 1 && !n.core.handler
    ensures n.boot >= 3 && n.subs.timer && !Next(n, e).subs.timer ==>
            e.TimerFires? || (e.InvokeHandler? && n.core.calls[e.i].ec != Success)
    ensures Next(n, e).boot >= n.boot
  {
    hide Accepts, HandlesReject;
  }

  lemma StepKeepsEnding(n: Node, e: Event)
    requires NodeInv(n) && Ending(n) && Enabled(n, e)
    ensures Ending(Next(n, e))
  {
    var m := Next(n, e);
    StepCalls(n, e);
    LastsUntil(n, e);
    StepPersists(n, e);
    hide NodeInv, Next, Enabled;
    if m.core.completions == [] && m.boot >= 1 && (!m.core.handler || (m.boot >= 3 && !m.subs.timer)) {
      Coming(n, e);
    }
  }

  lemma Coming(n: Node, e: Event)
    requires NodeInv(n) && Ending(n) && Enabled(n, e) && n.core.completions == []
    requires Next(n, e).core == CoreNext(n, e) && CoreNext(n, e).completions == []
    requires Next(n, e).boot >= 1 && (!Next(n, e).core.handler || (Next(n, e).boot >= 3 && !Next(n, e).subs.timer))
    ensures FailureComing(CoreNext(n, e))
  {
    var c := CoreNext(n, e);
    assert CoreInv(n.core, 2);
    hide CoreInv, NodeInv, Accepts, HandlesReject;
    LastsUntil(n, e);
    if i: nat :| Reaches(n.core, i) {
      StepKeepsComing(n, e, i);
    } else if e.TimerFires? {
      assert Reaches(c, |n.core.calls|);
    } else if e.CheckHandler? {
      assert Reaches(c, e.i);
    } else {
      FailureCompletes(n.core, 2, e.i);
    }
  }

  lemma {:induction false} RunKeepsEnding(cfg: Config, nodes: seq<Node>, events: seq<Event>, k: nat)
    requires IsRun(cfg, nodes, events) && k < |nodes|
    ensures Ending(nodes[k])
  {
    if k > 0 {
      RunKeepsEnding(cfg, nodes, events, k - 1);
      RunKeepsInv(cfg, nodes, events, k - 1);
      StepKeepsEnding(nodes[k - 1], events[k - 1]);
      assert nodes[k - 1 + 1] == Next(nodes[k - 1], events[k - 1]);
    }
  }

  /** The node's own steps: no message from the peer, no stop by another thread. */
  predicate Own(e: Event) {
    e.Boot? || e.TimerFires? || e.LoadHandler? || e.CheckHandler? || e.InvokeHandler?
  }

  /** In every run, a handshake that has not completed has a step of its own to take. */
  lemma NeverStuck(cfg: Config, nodes: seq<Node>, events: seq<Event>, k: nat) returns (e: Event)
    requires IsRun(cfg, nodes, events) && k < |nodes| && nodes[k].core.completions == []
    ensures Own(e) && Enabled(nodes[k], e)
  {
    RunKeepsEnding(cfg, nodes, events, k);
    RunKeepsInv(cfg, nodes, events, k);
    e := Due(nodes[k]);
  }

  lemma Due(n: Node) returns (e: Event)
    requires NodeInv(n) && Ending(n) && n.core.completions == []
    ensures Own(e) && Enabled(n, e)
  {
    if n.boot < BOOTED {
      e := Boot;
    } else if i: nat :| Reaches(n.core, i) {
      e := match n.core.calls[i].phase
        case Loading => LoadHandler(i)
        case Checking => CheckHandler(i)
        case _ => InvokeHandler(i);
    } else {
      e := TimerFires;
    }
  }

  /** Taking these steps of the node's own leads from n to m. */
  ghost predicate Leads(n: Node, events: seq<Event>, m: Node)
    decreases |events|
  {
    if events == [] then n == m
    else Own(events[0]) && Enabled(n, events[0]) && Leads(Next(n, events[0]), events[1..], m)
  }

  lemma LeadsVia(n: Node, e: Event, events: seq<Event>, m: Node)
    requires Own(e) && Enabled(n, e) && Leads(Next(n, e), events, m)
    ensures Leads(n, [e] + events, m)
  {
    assert ([e] + events)[1..] == events;
  }

  /** A failing call completes the handshake in at most three steps. */
  lemma {:induction false} CallEnds(n: Node, i: nat) returns (events: seq<Event>, m: Node)
    requires NodeInv(n) && Reaches(n.core, i)
    ensures Leads(n, events, m) && m.core.completions != [] && NodeInv(m)
    decreases match n.core.calls[i].phase case Loading => 2 case Checking => 1 case _ => 0
  {
    var e := match n.core.calls[i].phase
      case Loading => LoadHandler(i)
      case Checking => CheckHandler(i)
      case _ => InvokeHandler(i);
    StepCalls(n, e);
    StepKeepsInv(n, e);
    var next := Next(n, e);
    if e.InvokeHandler? {
      FailureCompletes(n.core, 2, i);
      events, m := [], next;
    } else {
      hide NodeInv, Next, Leads;
      assert Reaches(next.core, i);
      events, m := CallEnds(next, i);
    }
    LeadsVia(n, e, events, m);
    events := [e] + events;
  }

  lemma {:induction false} Completes(n: Node) returns (events: seq<Event>, m: Node)
    requires NodeInv(n) && Ending(n)
    ensures Leads(n, events, m) && m.core.completions != [] && NodeInv(m)
    decreases BOOTED + 1 - n.boot
  {
    hide NodeInv, Leads, Reaches;
    if n.core.completions != [] {
      assert Leads(n, [], n) by { LeadsNowhere(n); }
      events, m := [], n;
    } else if n.boot < BOOTED {
      StepKeepsInv(n, Boot);
      StepKeepsEnding(n, Boot);
      events, m := Completes(BootStep(n));
      LeadsVia(n, Boot, events, m);
      events := [Boot] + events;
    } else if i: nat :| Reaches(n.core, i) {
      events, m := CallEnds(n, i);
    } else {
      events, m := TimerEnds(n);
    }
  }

  lemma LeadsNowhere(n: Node)
    ensures Leads(n, [], n)
  {
  }

  lemma TimerEnds(n: Node) returns (events: seq<Event>, m: Node)
    requires NodeInv(n) && n.subs.timer && n.core.handler
    ensures Leads(n, events, m) && m.core.completions != [] && NodeInv(m)
  {
    StepKeepsInv(n, TimerFires);
    var next := Next(n, TimerFires);
    assert Reaches(next.core, |n.core.calls|);
    hide NodeInv, Next, Leads;
    events, m := CallEnds(next, |n.core.calls|);
    LeadsVia(n, TimerFires, events, m);
    events := [TimerFires] + events;
  }

  /**
   Every handshake can always end: from every moment of every run the node's own steps lead to exactly one
   call of the completion handler, with no help from the peer.
   */
  lemma AlwaysEnds(cfg: Config, nodes: seq<Node>, events: seq<Event>, k: nat) returns (more: seq<Event>, m: Node)
    requires IsRun(cfg, nodes, events) && k < |nodes|
    ensures Leads(nodes[k], more, m) && |m.core.completions| == 1
  {
    RunKeepsInv(cfg, nodes, events, k);
    RunKeepsEnding(cfg, nodes, events, k);
    more, m := Completes(nodes[k]);
    SuccessIsEarned(m);
  }

  // ---------------------------------------------------------------------------------------------
  // How many steps of its own a node can take
  // ---------------------------------------------------------------------------------------------

  /** Steps of its own a node may still take: the start sequence, its timer, and five calls of three steps. */
  function Work(n: Node): int {
    BOOTED - n.boot + (if Live(n, TimerEvent) then 1 else 0) + CallsWork(n.core.calls) + 3 * (5 - |n.core.calls|)
  }

  const ALL_WORK: nat := 23

  lemma CoreWork(n: Node, e: Event)
    requires Enabled(n, e)
    ensures var calls, calls' := n.core.calls, CoreNext(n, e).calls;
            CallsWork(calls') - 3 * |calls'| <=
            CallsWork(calls) - 3 * |calls| - if e.LoadHandler? || e.CheckHandler? || e.InvokeHandler? then 1 else 0
  {
    hide CallsWork;
    var c := n.core;
    match Posted(n, e)
    case Some(call) => CoreWorks(c, 0, call.src, call.ec);
    case None =>
      match e
      case LoadHandler(i) => CoreWorks(c, i, StopEvent, Success);
      case CheckHandler(i) => CoreWorks(c, i, StopEvent, Success);
      case InvokeHandler(i) => CoreWorks(c, i, StopEvent, Success);
      case _ =>
  }

  /** A step of the node's own uses up work, and no step adds any. */
  lemma StepWorks(n: Node, e: Event)
    requires NodeInv(n) && Enabled(n, e)
    ensures Work(Next(n, e)) <= Work(n) - if Own(e) then 1 else 0
  {
    StepCalls(n, e);
    StepLive(n, e);
    CoreWork(n, e);
    BootsOn(n, e);
    hide NodeInv, Next, CallsWork, CoreNext;
  }

  lemma BootsOn(n: Node, e: Event)
    requires Enabled(n, e)
    ensures Next(n, e).boot == n.boot + if e.Boot? then 1 else 0
    ensures e.TimerFires? && n.boot > 2 ==> Live(n, TimerEvent) && !Live(Next(n, e), TimerEvent)
    ensures e.TimerFires? ==> n.subs.timer
  {
    hide Accepts, HandlesReject;
  }

  lemma WorkIsLeft(n: Node)
    requires NodeInv(n)
    ensures Work(n) >= 0
  {
    var all := {VersionEvent, VerackEvent, TimerEvent, RejectEvent, StopEvent};
    forall src: Source ensures src in all {
      match src case VersionEvent => case VerackEvent => case TimerEvent => case RejectEvent => case StopEvent =>
    }
    DistinctBound(Sources(n.core), all);
  }

  lemma {:induction false} RunWorks(cfg: Config, nodes: seq<Node>, events: seq<Event>, k: nat)
    requires IsRun(cfg, nodes, events) && k < |nodes|
    ensures Count(events[..k], Own) + Work(nodes[k]) <= ALL_WORK
  {
    if k == 0 {
      assert events[..0] == [];
    } else {
      hide Work, NodeInv, Enabled, Next, Count;
      RunWorks(cfg, nodes, events, k - 1);
      RunKeepsInv(cfg, nodes, events, k - 1);
      StepWorks(nodes[k - 1], events[k - 1]);
      assert nodes[k - 1 + 1] == Next(nodes[k - 1], events[k - 1]);
      CountAppend(events[..k - 1], events[k - 1], Own);
      assert events[..k] == events[..k - 1] + [events[k - 1]];
    }
  }

  /**
   The handshake ends in every fair run: a node takes at most 23 steps of its own in any run, and as long as it
   has not completed one of them is due.
   */
  lemma EndsWithinBound(cfg: Config, nodes: seq<Node>, events: seq<Event>, k: nat)
    requires IsRun(cfg, nodes, events) && k < |nodes|
    ensures Count(events[..k], Own) <= ALL_WORK
    ensures Count(events[..k], Own) == ALL_WORK ==> |nodes[k].core.completions| == 1
    ensures nodes[k].core.completions == [] ==> exists e :: Own(e) && Enabled(nodes[k], e)
  {
    RunWorks(cfg, nodes, events, k);
    RunKeepsInv(cfg, nodes, events, k);
    WorkIsLeft(nodes[k]);
    SuccessIsEarned(nodes[k]);
    if nodes[k].core.completions == [] {
      var e := NeverStuck(cfg, nodes, events, k);
      StepKeepsInv(nodes[k], e);
      StepWorks(nodes[k], e);
      WorkIsLeft(Next(nodes[k], e));
    }
  }
}
