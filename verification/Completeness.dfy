/**
 The other direction of handshake safety and of agreement: against every peer whose version is
 acceptable some run succeeds, with version and verack in either order; and two nodes that accept each
 other have a run in which both succeed. So the acceptance conditions are exact.
 */
module Completeness {
  import opened Codes
  import opened Synchronizer
  import opened Events
  import opened Version
  import opened Handshake
  import opened Agreement

  lemma Extend(cfg: Config, nodes: seq<Node>, events: seq<Event>, e: Event)
    requires IsRun(cfg, nodes, events) && Enabled(nodes[|events|], e)
    ensures IsRun(cfg, nodes + [Next(nodes[|events|], e)], events + [e])
  {
  }

  /** Some run of the node ends here. */
  ghost predicate Reachable(cfg: Config, n: Node) {
    exists nodes, events :: IsRun(cfg, nodes, events) && nodes[|events|] == n
  }

  lemma Steps(cfg: Config, n: Node, e: Event)
    requires Reachable(cfg, n) && Enabled(n, e)
    ensures Reachable(cfg, Next(n, e))
  {
    var nodes, events :| IsRun(cfg, nodes, events) && nodes[|events|] == n;
    Extend(cfg, nodes, events, e);
    assert (nodes + [Next(n, e)])[|events + [e]|] == Next(n, e);
  }

  /** Started, subscribed and reading; nothing received yet. */
  function Listening(cfg: Config): Node {
    Initial(cfg).(boot := BOOTED, reader := Idle, core := Fresh<Source>(2).(handler := true),
                  subs := Subs(true, true, HandlesReject(cfg.settings, cfg.levels), true, true))
  }

  lemma Boots(cfg: Config)
    ensures Reachable(cfg, Listening(cfg))
  {
    var n0 := Initial(cfg);
    var none: seq<Event> := [];
    assert IsRun(cfg, [n0], none) && [n0][|none|] == n0;
    hide Reachable, HandlesReject;
    Steps(cfg, n0, Boot);
    var n1 := BootStep(n0);
    Steps(cfg, n1, Boot);
    var n2 := BootStep(n1);
    Steps(cfg, n2, Boot);
    var n3 := BootStep(n2);
    Steps(cfg, n3, Boot);
    var n4 := BootStep(n3);
    Steps(cfg, n4, Boot);
    var n5 := BootStep(n4);
    Steps(cfg, n5, Boot);
    var n6 := BootStep(n5);
    Steps(cfg, n6, Boot);
    assert BootStep(n6) == Listening(cfg);
  }

  /** Reading, with `m` still subscribed for and good. */
  predicate Ready(n: Node, m: Msg) {
    && n.reader.Idle? && !n.channel.stopped && n.core.handler
    && ((m.VersionMsg? && n.subs.version && Accepts(n, m.v)) || (m.Verack? && n.subs.verack))
  }

  // The node while `m` is received, delivered, loaded, checked and counted.

  function Receiving(n: Node, m: Msg): Node {
    n.(reader := Reading(m))
  }

  function Delivered(n: Node, m: Msg): Node {
    DeliverStep(Receiving(n, m))
  }

  function Loaded(n: Node, m: Msg): Node
    requires Ready(n, m)
  {
    Delivered(n, m).(core := Load(Delivered(n, m).core, |n.core.calls|))
  }

  function Checked(n: Node, m: Msg): Node
    requires Ready(n, m)
  {
    Loaded(n, m).(core := Check(Loaded(n, m).core, |n.core.calls|))
  }

  function Hears(n: Node, m: Msg): Node
    requires Ready(n, m)
  {
    InvokeStep(Checked(n, m), |n.core.calls|)
  }

  /** Sends of a delivery: a version is answered with a verack. */
  function Answer(m: Msg): seq<Msg> {
    if m.VersionMsg? then [Verack] else []
  }

  predicate Moves(n: Node, e: Event, n': Node, sent: seq<Msg>) {
    Enabled(n, e) && Next(n, e) == n' && Sends(n, e) == sent
  }

  lemma ReadMoves(n: Node, m: Msg)
    requires Ready(n, m)
    ensures Moves(n, Receive(m), Receiving(n, m), [])
    ensures Moves(Receiving(n, m), Deliver, Delivered(n, m), Answer(m))
  {
    hide HandlesReject;
  }

  lemma CountMoves(n: Node, m: Msg)
    requires Ready(n, m)
    ensures Moves(Delivered(n, m), LoadHandler(|n.core.calls|), Loaded(n, m), [])
    ensures Moves(Loaded(n, m), CheckHandler(|n.core.calls|), Checked(n, m), [])
    ensures Moves(Checked(n, m), InvokeHandler(|n.core.calls|), Hears(n, m), [])
  {
    hide Accepts;
  }

  lemma HearsReachable(cfg: Config, n: Node, m: Msg)
    requires Reachable(cfg, n) && Ready(n, m)
    ensures Reachable(cfg, Hears(n, m))
  {
    ReadMoves(n, m);
    CountMoves(n, m);
    hide Reachable, Ready, Enabled, Next, Sends, Delivered, Loaded, Checked, Hears;
    var i := |n.core.calls|;
    Steps(cfg, n, Receive(m));
    Steps(cfg, Receiving(n, m), Deliver);
    Steps(cfg, Delivered(n, m), LoadHandler(i));
    Steps(cfg, Loaded(n, m), CheckHandler(i));
    Steps(cfg, Checked(n, m), InvokeHandler(i));
  }

  /** What hearing a good message changes: the join counts one more success. */
  lemma HearsEffect(n: Node, m: Msg)
    requires Ready(n, m)
    ensures var r, fired := Hears(n, m), Signal(n.core.join, Success).1;
            && r.cfg == n.cfg && r.core.handler
            && r.core.join == Signal(n.core.join, Success).0
            && r.core.completions == n.core.completions + fired
            && (fired == [] ==> r.reader.Idle? && !r.channel.stopped)
            && r.channel.peer == (if m.VersionMsg? then Some(m.v) else n.channel.peer)
            && (m.VersionMsg? ==> r.subs.verack == n.subs.verack)
            && (m.Verack? ==> r.subs.version == n.subs.version)
  {
  }

  lemma CanSucceed(cfg: Config, v: VersionMessage, verackFirst: bool) returns (n: Node)
    requires Configured(cfg.settings, cfg.levels) && SufficientPeer(ParamsOf(cfg), v)
    ensures Reachable(cfg, n) && n.core.completions == [Success] && n.channel.peer == Some(v)
  {
    hide Hears, Reachable, Configured, SufficientPeer;
    var first, second := if verackFirst then Verack else VersionMsg(v), if verackFirst then VersionMsg(v) else Verack;
    Boots(cfg);
    var n0 := Listening(cfg);
    HearsReachable(cfg, n0, first);
    HearsEffect(n0, first);
    var n1 := Hears(n0, first);
    HearsReachable(cfg, n1, second);
    HearsEffect(n1, second);
    n := Hears(n1, second);
  }

  /** Some run of the node completes its handshake with success against a peer that sent v. */
  ghost predicate Succeeds(cfg: Config, v: VersionMessage) {
    exists n :: Reachable(cfg, n) && n.core.completions == [Success] && n.channel.peer == Some(v)
  }

  /** A node's handshake can succeed with exactly the peers whose version is acceptable. */
  lemma SucceedsIffAcceptable(cfg: Config, v: VersionMessage)
    ensures Succeeds(cfg, v)
       <==> Acceptable(cfg.kind, cfg.settings, cfg.levels, v, Negotiate(ParamsOf(cfg), v))
  {
    hide NodeInv, Acceptable, Configured, SufficientPeer;
    AcceptedPeer(cfg.kind, cfg.settings, cfg.levels, v);
    if Succeeds(cfg, v) {
      var n :| Reachable(cfg, n) && n.core.completions == [Success] && n.channel.peer == Some(v);
      var nodes, events :| IsRun(cfg, nodes, events) && nodes[|events|] == n;
      SuccessIsAccepted(cfg, nodes, events);
    }
    if Configured(cfg.settings, cfg.levels) && SufficientPeer(ParamsOf(cfg), v) {
      var n := CanSucceed(cfg, v, true);
    }
  }

  lemma SuccessIsAccepted(cfg: Config, nodes: seq<Node>, events: seq<Event>)
    requires IsRun(cfg, nodes, events) && nodes[|events|].core.completions == [Success]
    ensures var n := nodes[|events|];
            && n.channel.peer.Some?
            && Acceptable(cfg.kind, cfg.settings, cfg.levels, n.channel.peer.value,
                          Negotiate(ParamsOf(cfg), n.channel.peer.value))
  {
    RunKeepsInv(cfg, nodes, events, |events|);
    SuccessIsEarned(nodes[|events|]);
  }

  // ---------------------------------------------------------------------------------------------
  // Two nodes
  // ---------------------------------------------------------------------------------------------

  function View(s: System, swapped: bool): System {
    if swapped then Swap(s) else s
  }

  /** Some run of two nodes ends here, looked at from either end. */
  ghost predicate Met(cfgA: Config, cfgB: Config, s: System, swapped: bool) {
    exists run :: IsSystemRun(cfgA, cfgB, run) && run[|run| - 1] == View(s, swapped)
  }

  lemma MeetStep(cfgA: Config, cfgB: Config, s: System, swapped: bool, e: Event)
    requires Met(cfgA, cfgB, s, swapped) && EnabledA(s, e)
    ensures Met(cfgA, cfgB, StepA(s, e), swapped)
  {
    var run :| IsSystemRun(cfgA, cfgB, run) && run[|run| - 1] == View(s, swapped);
    var s' := View(StepA(s, e), swapped);
    assert SystemStep(View(s, swapped), s') by {
      assert Swap(Swap(s)) == s && Swap(Swap(StepA(s, e))) == StepA(s, e);
    }
    hide SystemStep;
    var longer := run + [s'];
    forall k | 0 <= k < |longer| - 1
      ensures SystemStep(longer[k], longer[k + 1])
    {
      if k < |run| - 1 { assert SystemStep(run[k], run[k + 1]); }
    }
    assert longer[|longer| - 1] == s';
  }

  /** A step of one end, spelt out: its new state and what it sends. */
  lemma MeetMove(cfgA: Config, cfgB: Config, s: System, swapped: bool, e: Event, s': System)
    requires Met(cfgA, cfgB, s, swapped) && EnabledA(s, e)
    requires s'.a == Next(s.a, e) && s'.b == s.b && s'.ab == s.ab + Sends(s.a, e)
    requires s'.ba == if e.Receive? then s.ba[1..] else s.ba
    ensures Met(cfgA, cfgB, s', swapped)
  {
    MeetStep(cfgA, cfgB, s, swapped, e);
  }

  /** One end starts: it listens, and its version message is on the wire. */
  lemma MeetBoots(cfgA: Config, cfgB: Config, s: System, swapped: bool, cfg: Config)
    requires Met(cfgA, cfgB, s, swapped) && s.a == Initial(cfg) && s.ab == []
    ensures Met(cfgA, cfgB, System(Listening(cfg), s.b, [VersionMsg(VersionFactory(cfg))], s.ba), swapped)
  {
    hide Met, HandlesReject, VersionFactory;
    var n1 := BootStep(s.a);
    var s1 := System(n1, s.b, [], s.ba);
    MeetMove(cfgA, cfgB, s, swapped, Boot, s1);
    var n2 := BootStep(n1);
    var s2 := System(n2, s.b, [], s.ba);
    MeetMove(cfgA, cfgB, s1, swapped, Boot, s2);
    var n3 := BootStep(n2);
    var s3 := System(n3, s.b, [], s.ba);
    MeetMove(cfgA, cfgB, s2, swapped, Boot, s3);
    MeetBootsOn(cfgA, cfgB, s3, swapped, cfg);
  }

  lemma MeetBootsOn(cfgA: Config, cfgB: Config, s3: System, swapped: bool, cfg: Config)
    requires Met(cfgA, cfgB, s3, swapped) && s3.a == BootStep(BootStep(BootStep(Initial(cfg)))) && s3.ab == []
    ensures Met(cfgA, cfgB, System(Listening(cfg), s3.b, [VersionMsg(VersionFactory(cfg))], s3.ba), swapped)
  {
    hide Met, HandlesReject, VersionFactory;
    var sent := [VersionMsg(VersionFactory(cfg))];
    var n4 := BootStep(s3.a);
    var s4 := System(n4, s3.b, [], s3.ba);
    MeetMove(cfgA, cfgB, s3, swapped, Boot, s4);
    var n5 := BootStep(n4);
    var s5 := System(n5, s3.b, [], s3.ba);
    MeetMove(cfgA, cfgB, s4, swapped, Boot, s5);
    var n6 := BootStep(n5);
    var s6 := System(n6, s3.b, sent, s3.ba);
    MeetMove(cfgA, cfgB, s5, swapped, Boot, s6);
    MeetMove(cfgA, cfgB, s6, swapped, Boot, System(Listening(cfg), s3.b, sent, s3.ba));
  }

  /** One end hears the oldest message on the wire; a version is answered with a verack. */
  lemma MeetHears(cfgA: Config, cfgB: Config, s: System, swapped: bool, m: Msg, rest: seq<Msg>)
    requires Met(cfgA, cfgB, s, swapped) && s.ba == [m] + rest && Ready(s.a, m)
    ensures Met(cfgA, cfgB, System(Hears(s.a, m), s.b, s.ab + Answer(m), rest), swapped)
  {
    var n, i := s.a, |s.a.core.calls|;
    ReadMoves(n, m);
    CountMoves(n, m);
    hide Met, Ready, Enabled, Next, Sends, Receiving, Delivered, Loaded, Checked, Hears, Answer;
    var s1 := System(Receiving(n, m), s.b, s.ab, rest);
    MeetMove(cfgA, cfgB, s, swapped, Receive(m), s1);
    var s2 := System(Delivered(n, m), s.b, s.ab + Answer(m), rest);
    MeetMove(cfgA, cfgB, s1, swapped, Deliver, s2);
    MeetMove(cfgA, cfgB, s2, swapped, LoadHandler(i), s2.(a := Loaded(n, m)));
    MeetMove(cfgA, cfgB, s2.(a := Loaded(n, m)), swapped, CheckHandler(i), s2.(a := Checked(n, m)));
    MeetMove(cfgA, cfgB, s2.(a := Checked(n, m)), swapped, InvokeHandler(i), s2.(a := Hears(n, m)));
  }

  /** Has accepted a version and waits for the verack. */
  predicate Halfway(n: Node) {
    Ready(n, Verack) && n.core.join == Join(2, OnError, 1) && n.core.completions == []
  }

  lemma HearVersion(cfgA: Config, cfgB: Config, s: System, swapped: bool,
                    cfg: Config, v: VersionMessage, rest: seq<Msg>)
    returns (s': System)
    requires Met(cfgA, cfgB, s, swapped) && s.a == Listening(cfg) && s.ba == [VersionMsg(v)] + rest
    requires Configured(cfg.settings, cfg.levels) && SufficientPeer(ParamsOf(cfg), v)
    ensures Met(cfgA, cfgB, s', swapped)
    ensures Halfway(s'.a) && s'.b == s.b && s'.ab == s.ab + [Verack] && s'.ba == rest
  {
    hide Met, Configured, SufficientPeer, HandlesReject, Hears;
    MeetHears(cfgA, cfgB, s, swapped, VersionMsg(v), rest);
    HearsEffect(s.a, VersionMsg(v));
    s' := System(Hears(s.a, VersionMsg(v)), s.b, s.ab + [Verack], rest);
  }

  lemma HearVerack(cfgA: Config, cfgB: Config, s: System, swapped: bool, rest: seq<Msg>) returns (s': System)
    requires Met(cfgA, cfgB, s, swapped) && Halfway(s.a) && s.ba == [Verack] + rest
    ensures Met(cfgA, cfgB, s', swapped)
    ensures s'.a.core.completions == [Success] && s'.b == s.b && s'.ab == s.ab && s'.ba == rest
  {
    hide Met, Hears;
    MeetHears(cfgA, cfgB, s, swapped, Verack, rest);
    HearsEffect(s.a, Verack);
    s' := System(Hears(s.a, Verack), s.b, s.ab, rest);
    assert s.ab + [] == s.ab;
  }

  lemma MeetSwaps(cfgA: Config, cfgB: Config, s: System, swapped: bool)
    requires Met(cfgA, cfgB, s, swapped)
    ensures Met(cfgA, cfgB, Swap(s), !swapped)
  {
    assert Swap(Swap(s)) == s;
  }

  predicate AcceptsVersionOf(cfg: Config, other: Config) {
    Configured(cfg.settings, cfg.levels) && SufficientPeer(ParamsOf(cfg), VersionFactory(other))
  }

  lemma BothListen(cfgA: Config, cfgB: Config)
    ensures Met(cfgA, cfgB, System(Listening(cfgA), Listening(cfgB), [VersionMsg(VersionFactory(cfgA))],
                                   [VersionMsg(VersionFactory(cfgB))]), false)
  {
    var s := Begin(cfgA, cfgB);
    assert IsSystemRun(cfgA, cfgB, [s]) && [s][|[s]| - 1] == View(s, false);
    hide Met, Listening, VersionFactory, Initial;
    MeetBoots(cfgA, cfgB, s, false, cfgA);
    var t := System(Listening(cfgA), s.b, [VersionMsg(VersionFactory(cfgA))], []);
    MeetSwaps(cfgA, cfgB, t, false);
    MeetBoots(cfgA, cfgB, Swap(t), true, cfgB);
    MeetSwaps(cfgA, cfgB, System(Listening(cfgB), t.a, [VersionMsg(VersionFactory(cfgB))], t.ab), true);
  }

  /** Two nodes that accept each other's version can both succeed. */
  lemma BothCanSucceed(cfgA: Config, cfgB: Config) returns (s: System)
    requires AcceptsVersionOf(cfgA, cfgB) && AcceptsVersionOf(cfgB, cfgA)
    ensures Met(cfgA, cfgB, s, false)
    ensures s.a.core.completions == [Success] && s.b.core.completions == [Success]
  {
    hide Met, Listening, VersionFactory, Halfway;
    var va, vb := VersionFactory(cfgA), VersionFactory(cfgB);
    BothListen(cfgA, cfgB);
    s := System(Listening(cfgA), Listening(cfgB), [VersionMsg(va)], [VersionMsg(vb)]);
    s := HearVersion(cfgA, cfgB, s, false, cfgA, vb, []);
    MeetSwaps(cfgA, cfgB, s, false);
    s := HearVersion(cfgA, cfgB, Swap(s), true, cfgB, va, [Verack]);
    s := HearVerack(cfgA, cfgB, s, true, []);
    MeetSwaps(cfgA, cfgB, s, true);
    s := HearVerack(cfgA, cfgB, Swap(s), false, []);
  }

  /** Some run of the two nodes completes a handshake with success at one end or the other. */
  ghost predicate Connects(cfgA: Config, cfgB: Config) {
    exists s :: Met(cfgA, cfgB, s, false) && (s.a.core.completions == [Success] || s.b.core.completions == [Success])
  }

  lemma ConnectsOnlyIf(cfgA: Config, cfgB: Config, s: System)
    requires Met(cfgA, cfgB, s, false)
    requires s.a.core.completions == [Success] || s.b.core.completions == [Success]
    ensures AcceptsVersionOf(cfgA, cfgB) && AcceptsVersionOf(cfgB, cfgA)
  {
    var run :| IsSystemRun(cfgA, cfgB, run) && run[|run| - 1] == s;
    RunKeepsSystemInv(cfgA, cfgB, run, |run| - 1);
    SuccessMeansBothAccepted(s);
  }

  /** From the two configurations alone: what one node must be and offer for the other to accept it. */
  ghost predicate Suits(other: Config, cfg: Config) {
    var s, o := cfg.settings, other.settings;
    && cfg.levels.minimum <= s.protocolMinimum <= s.protocolMaximum <= cfg.levels.maximum
    && s.protocolMinimum <= o.protocolMaximum
    && (forall bit :: bit in s.invalidServices && bit in o.services ==> other.kind.Seed?)
    && (cfg.kind.Outbound? ==> !other.kind.Seed? && 0 in o.services && (3 in s.services ==> 3 in o.services))
  }

  lemma SuitsIffAccepted(cfg: Config, other: Config)
    ensures AcceptsVersionOf(cfg, other) <==> Suits(other, cfg)
  {
    AcceptedPeer(cfg.kind, cfg.settings, cfg.levels, VersionFactory(other));
  }

  /** A handshake between two nodes can succeed, at either end, iff each suits the other. */
  lemma ConnectsIffMutual(cfgA: Config, cfgB: Config)
    ensures Connects(cfgA, cfgB) <==> Suits(cfgA, cfgB) && Suits(cfgB, cfgA)
  {
    SuitsIffAccepted(cfgA, cfgB);
    SuitsIffAccepted(cfgB, cfgA);
    hide Met, AcceptsVersionOf, Suits;
    if s :| Met(cfgA, cfgB, s, false) && (s.a.core.completions == [Success] || s.b.core.completions == [Success]) {
      ConnectsOnlyIf(cfgA, cfgB, s);
    }
    if AcceptsVersionOf(cfgA, cfgB) && AcceptsVersionOf(cfgB, cfgA) {
      var s := BothCanSucceed(cfgA, cfgB);
    }
  }
}
