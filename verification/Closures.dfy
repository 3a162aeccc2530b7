/**
 All closures are eventually invoked: the obligation of the registration sequence. Every step of a
 channel works off a bounded debt, and a channel that owes a closure always has a step to take whose
 answers are those of the session flag and the collections as they then are. The one answer they do not
 give is the handshake's code, which the handshake itself always produces (Progress).
 */
module Closures {
  import opened Codes
  import opened Registration
  import opened Network
  import H = Handshake
  import P = Progress

  /** The next step of a channel that owes a closure, with the world's own answers. */
  function Due(w: World, i: nat, ec: Code, remoteNonce: nat): Step
    requires Ids(w) && i < |w.chans|
  {
    var c := w.chans[i];
    match c.stage
    case Registering => Register(w.stopped, w.net.pendClosed)
    case Refused => RefuseStop
    case Starting => Start(1)
    case Handshaking => HandshakeEnds(ec, None, PendingNonce(w, remoteNonce))
    case Admitting => Admit(StoreResult(w, i))
    case Ended(_) => Unpend
    case Unpended(_) => HandleStart
    case Stopping(_) => FailStop
    case Notified(_) => Finish
    case Removing => if c.remover.Entered? then Remove else if c.remover.Removed? then RemoveStop else Finish
    case Subscribed => Finish
    case Registered(_) =>
      if c.remover.Entered? then Remove else if c.remover.Removed? then RemoveStop
      else if c.stop.Flagged? then StopClose else if c.stop.Closed? then StopRelay else EchoRelay
  }

  lemma SettledWasStopped(c: Chan, pend: bool, open: bool)
    requires ChanInv(c, pend, open) && c.stage.Registered?
    ensures c.remover.Finished? || c.stage.ec != Success ==> WasStopped(c)
  {
    if c.remover.Finished? || c.stage.ec != Success {
      assert c.calls[0].Stopped? || c.calls[1].Stopped?;
    }
  }

  /** A channel that owes a closure is never stuck, whatever code its handshake ends with. */
  lemma DueIsPossible(w: World, i: nat, ec: Code, remoteNonce: nat)
    requires ChansInv(w) && i < |w.chans| && Owes(w.chans[i])
    ensures Possible(w, ChanStep(i, Due(w, i, ec, remoteNonce), remoteNonce))
  {
    var c := w.chans[i];
    assert ChanInv(c, i in w.net.pending, i in w.net.open);
    hide PendingNonce, StoreResult;
    if c.stage.Registered? { SettledWasStopped(c, i in w.net.pending, i in w.net.open); }
  }

  /** A step of channel i, with answer ec if it is the end of its handshake. */
  ghost predicate Advances(w: World, i: nat, ec: Code, w': World) {
    exists s, remoteNonce :: Possible(w, ChanStep(i, s, remoteNonce)) && w' == After(w, ChanStep(i, s, remoteNonce))
                             && (s.HandshakeEnds? ==> s.ec == ec)
  }

  /** Taking the step that is due works off the debt. */
  lemma DuePaysDebt(w: World, i: nat, ec: Code, remoteNonce: nat)
    requires ChansInv(w) && i < |w.chans| && Owes(w.chans[i])
    requires Possible(w, ChanStep(i, Due(w, i, ec, remoteNonce), remoteNonce))
    ensures var w' := After(w, ChanStep(i, Due(w, i, ec, remoteNonce), remoteNonce));
            ChansInv(w') && i < |w'.chans| && Debt(w'.chans[i]) < Debt(w.chans[i])
  {
    var s := Due(w, i, ec, remoteNonce);
    var e := ChanStep(i, s, remoteNonce);
    var w' := After(w, e);
    StepKeepsChans(w, e);
    StepEffects(w, e);
    assert w'.chans[i] == Next(w.chans[i], s) && Enabled(w.chans[i], s);
    assert ChanInv(w.chans[i], i in w.net.pending, i in w.net.open);
    hide After, Due, Possible, ChanInv;
    StepsPayDebt(w.chans[i], i in w.net.pending, i in w.net.open, s);
  }

  lemma Advance(w: World, i: nat, ec: Code, remoteNonce: nat) returns (w': World)
    requires ChansInv(w) && i < |w.chans| && Owes(w.chans[i])
    ensures Advances(w, i, ec, w') && ChansInv(w') && i < |w'.chans|
    ensures Debt(w'.chans[i]) < Debt(w.chans[i])
  {
    DueIsPossible(w, i, ec, remoteNonce);
    DuePaysDebt(w, i, ec, remoteNonce);
    var s := Due(w, i, ec, remoteNonce);
    DueAnswers(w, i, ec, remoteNonce);
    hide After, Due, Possible, ChansInv, Debt;
    w' := After(w, ChanStep(i, s, remoteNonce));
  }

  ghost predicate AdvancesTo(w: World, i: nat, ec: Code, worlds: seq<World>) {
    && |worlds| > 0 && worlds[0] == w
    && forall k :: 0 <= k < |worlds| - 1 ==> Advances(worlds[k], i, ec, worlds[k + 1])
  }

  lemma AdvancesVia(w: World, i: nat, ec: Code, w': World, worlds: seq<World>)
    requires Advances(w, i, ec, w') && AdvancesTo(w', i, ec, worlds)
    ensures AdvancesTo(w, i, ec, [w] + worlds) && ([w] + worlds)[|worlds|] == worlds[|worlds| - 1]
  {
    hide Advances;
    var all := [w] + worlds;
    forall k | 0 <= k < |all| - 1
      ensures Advances(all[k], i, ec, all[k + 1])
    {
      if k > 0 { assert Advances(worlds[k - 1], i, ec, worlds[k - 1 + 1]); }
    }
  }

  /** From any world the channel's own steps invoke every closure it owes. */
  lemma {:induction false} Settles(w: World, i: nat, ec: Code, remoteNonce: nat) returns (worlds: seq<World>)
    requires ChansInv(w) && i < |w.chans|
    ensures AdvancesTo(w, i, ec, worlds)
    ensures ChansInv(worlds[|worlds| - 1]) && i < |worlds[|worlds| - 1].chans|
    ensures !Owes(worlds[|worlds| - 1].chans[i])
    decreases Debt(w.chans[i])
  {
    hide ChansInv, Owes, Advances, Debt;
    if !Owes(w.chans[i]) {
      worlds := [w];
    } else {
      var w' := Advance(w, i, ec, remoteNonce);
      var rest := Settles(w', i, ec, remoteNonce);
      AdvancesVia(w, i, ec, w', rest);
      worlds := [w] + rest;
    }
  }

  /**
   No closure leaks. At every moment of every run, for every channel, every code its handshake may end with
   and every nonce its peer may have: the channel's own steps lead to a world where its registration has
   ended, with exactly one handle_started, and where handle_stopped has been called too if the channel's stop
   or removal had begun.
   */
  lemma NoClosureLeaks(limits: Limits, run: seq<World>, k: nat, i: nat, ec: Code, remoteNonce: nat)
    returns (worlds: seq<World>)
    requires IsRun(limits, run) && k < |run| && i < |run[k].chans|
    ensures AdvancesTo(run[k], i, ec, worlds)
    ensures var last := worlds[|worlds| - 1];
            && i < |last.chans| && last.chans[i].stage.Registered?
            && Contract(last.chans[i], i in last.net.open)
            && (WasStopped(last.chans[i])
                || (last.chans[i].stop.Live? && !last.chans[i].echo && last.chans[i].remover.Absent?))
  {
    RunKeepsWorldInv(limits, run, k);
    worlds := Settles(run[k], i, ec, remoteNonce);
    var last := worlds[|worlds| - 1];
    RegistrationContract(last.chans[i], i in last.net.pending, i in last.net.open);
  }

  // ---------------------------------------------------------------------------------------------
  // A channel together with its own handshake
  // ---------------------------------------------------------------------------------------------

  /** The network, and the handshake of its channel i. */
  datatype Joint = Joint(node: H.Node, world: World)

  datatype Move = NodeMove(event: H.Event) | WorldMove(e: Event)

  /** The handshake runs once its channel has started, and the channel's handshake ends as it completed. */
  predicate CanMove(j: Joint, i: nat, m: Move) {
    match m
    case NodeMove(e) => i < |j.world.chans| && j.world.chans[i].nonce > 0 && H.Enabled(j.node, e)
    case WorldMove(e) =>
      && Possible(j.world, e)
      && (e.ChanStep? && e.i == i && e.step.HandshakeEnds? ==> j.node.core.completions == [e.step.ec])
  }

  function Moved(j: Joint, i: nat, m: Move): Joint
    requires CanMove(j, i, m)
  {
    match m
    case NodeMove(e) => j.(node := H.Next(j.node, e))
    case WorldMove(e) => j.(world := After(j.world, e))
  }

  ghost predicate IsJointRun(cfg: H.Config, limits: Limits, i: nat, run: seq<Joint>, moves: seq<Move>) {
    && |run| == |moves| + 1 && run[0] == Joint(H.Initial(cfg), Begin(limits))
    && forall k :: 0 <= k < |moves| ==> CanMove(run[k], i, moves[k]) && run[k + 1] == Moved(run[k], i, moves[k])
  }

  ghost predicate JointInv(j: Joint) {
    H.NodeInv(j.node) && P.Ending(j.node) && WorldInv(j.world)
  }

  lemma MoveKeepsInv(j: Joint, i: nat, m: Move)
    requires JointInv(j) && CanMove(j, i, m)
    ensures JointInv(Moved(j, i, m))
  {
    hide H.NodeInv, P.Ending, WorldInv, H.Enabled, Possible;
    match m
    case NodeMove(e) =>
      H.StepKeepsInv(j.node, e);
      P.StepKeepsEnding(j.node, e);
    case WorldMove(e) => StepKeepsWorldInv(j.world, e);
  }

  lemma {:induction false} RunKeepsJointInv(cfg: H.Config, limits: Limits, i: nat,
                                            run: seq<Joint>, moves: seq<Move>, k: nat)
    requires IsJointRun(cfg, limits, i, run, moves) && k < |run|
    ensures JointInv(run[k])
  {
    if k == 0 {
      H.InitialInv(cfg);
      BeginInv(limits);
    } else {
      hide JointInv, CanMove, Moved;
      RunKeepsJointInv(cfg, limits, i, run, moves, k - 1);
      MoveKeepsInv(run[k - 1], i, moves[k - 1]);
      assert run[k - 1 + 1] == Moved(run[k - 1], i, moves[k - 1]);
    }
  }

  /** A step of the handshake's own or of channel i's own threads. */
  predicate OwnMove(i: nat, m: Move) {
    match m
    case NodeMove(e) => P.Own(e)
    case WorldMove(e) => e.ChanStep? && e.i == i
  }

  ghost predicate OwnTo(j: Joint, i: nat, j': Joint) {
    exists m :: OwnMove(i, m) && CanMove(j, i, m) && j' == Moved(j, i, m)
  }

  ghost predicate OwnPath(j: Joint, i: nat, path: seq<Joint>) {
    && |path| > 0 && path[0] == j
    && forall k :: 0 <= k < |path| - 1 ==> OwnTo(path[k], i, path[k + 1])
  }

  lemma PathVia(j: Joint, i: nat, m: Move, path: seq<Joint>)
    requires OwnMove(i, m) && CanMove(j, i, m) && OwnPath(Moved(j, i, m), i, path)
    ensures OwnPath(j, i, [j] + path) && ([j] + path)[|path|] == path[|path| - 1]
  {
    var all := [j] + path;
    assert OwnTo(j, i, Moved(j, i, m));
    hide OwnTo;
    forall k | 0 <= k < |all| - 1
      ensures OwnTo(all[k], i, all[k + 1])
    {
      if k > 0 { assert OwnTo(path[k - 1], i, path[k - 1 + 1]); }
    }
  }

  lemma PathOn(j: Joint, i: nat, path: seq<Joint>, more: seq<Joint>)
    requires OwnPath(j, i, path) && OwnPath(path[|path| - 1], i, more)
    ensures OwnPath(j, i, path + more[1..])
    ensures (path + more[1..])[|path| + |more| - 2] == more[|more| - 1]
  {
    hide OwnTo;
    var all := path + more[1..];
    forall k | 0 <= k < |all| - 1
      ensures OwnTo(all[k], i, all[k + 1])
    {
      if k < |path| - 1 {
        assert OwnTo(path[k], i, path[k + 1]);
      } else {
        var l := k - (|path| - 1);
        assert all[k] == more[l] && all[k + 1] == more[l + 1];
        assert OwnTo(more[l], i, more[l + 1]);
      }
    }
  }

  /** The handshake of a started channel completes by its own steps, and the world waits. */
  lemma {:induction false} NodeFinishes(j: Joint, i: nat) returns (path: seq<Joint>)
    requires JointInv(j) && i < |j.world.chans| && j.world.chans[i].nonce > 0
    ensures OwnPath(j, i, path)
    ensures var last := path[|path| - 1];
            JointInv(last) && last.node.core.completions != [] && last.world == j.world
    decreases P.Work(j.node)
  {
    if j.node.core.completions != [] {
      path := [j];
    } else {
      var e := P.Due(j.node);
      P.StepWorks(j.node, e);
      MoveKeepsInv(j, i, NodeMove(e));
      var next := Moved(j, i, NodeMove(e));
      P.WorkIsLeft(next.node);
      hide H.NodeInv, P.Ending, WorldInv, H.Enabled, P.Work, H.Next, OwnTo;
      path := NodeFinishes(next, i);
      PathVia(j, i, NodeMove(e), path);
      path := [j] + path;
    }
  }

  lemma DueAnswers(w: World, i: nat, ec: Code, remoteNonce: nat)
    requires Ids(w) && i < |w.chans|
    ensures Due(w, i, ec, remoteNonce).HandshakeEnds? ==>
            w.chans[i].stage.Handshaking? && Due(w, i, ec, remoteNonce).ec == ec
  {
  }

  /** The due step of channel i, with its handshake's code if that is what it waits for. */
  lemma ChannelMoves(j: Joint, i: nat) returns (m: Move)
    requires JointInv(j) && i < |j.world.chans| && Owes(j.world.chans[i])
    requires j.world.chans[i].stage.Handshaking? ==> j.node.core.completions != []
    ensures OwnMove(i, m) && CanMove(j, i, m) && m.WorldMove?
    ensures var next := Moved(j, i, m);
            && i < |next.world.chans| && Debt(next.world.chans[i]) < Debt(j.world.chans[i])
  {
    var w, done := j.world, j.node.core.completions;
    var ec := if done != [] then done[0] else Success;
    hide H.NodeInv, P.Ending, Possible, After, Debt, Owes, ChanInv;
    H.SuccessIsEarned(j.node);
    DueIsPossible(w, i, ec, 0);
    DuePaysDebt(w, i, ec, 0);
    DueAnswers(w, i, ec, 0);
    hide Due, ChansInv, WorldInv;
    var s := Due(w, i, ec, 0);
    m := WorldMove(ChanStep(i, s, 0));
  }

  lemma HandshakingStarted(w: World, i: nat)
    requires WorldInv(w) && i < |w.chans| && w.chans[i].stage.Handshaking?
    ensures w.chans[i].nonce > 0
  {
    assert ChanInv(w.chans[i], i in w.net.pending, i in w.net.open);
  }

  lemma {:induction false} JointSettles(j: Joint, i: nat) returns (path: seq<Joint>)
    requires JointInv(j) && i < |j.world.chans|
    ensures OwnPath(j, i, path)
    ensures var last := path[|path| - 1];
            JointInv(last) && i < |last.world.chans| && !Owes(last.world.chans[i])
    decreases Debt(j.world.chans[i]), if j.node.core.completions == [] then 1 else 0
  {
    hide H.NodeInv, P.Ending, WorldInv, OwnTo, Owes, Debt, CanMove, Moved;
    if !Owes(j.world.chans[i]) {
      path := [j];
    } else if j.world.chans[i].stage.Handshaking? && j.node.core.completions == [] {
      HandshakingStarted(j.world, i);
      path := NodeFinishes(j, i);
      var more := JointSettles(path[|path| - 1], i);
      PathOn(j, i, path, more);
      path := path + more[1..];
    } else {
      var m := ChannelMoves(j, i);
      MoveKeepsInv(j, i, m);
      path := JointSettles(Moved(j, i, m), i);
      PathVia(j, i, m, path);
      path := [j] + path;
    }
  }

  /**
   Handshake and registration together. In every run of the network in which channel i's handshake ends only
   as its own protocol has completed: from every moment, the steps of that protocol and of the channel's own
   threads lead to the end of its registration, with exactly one handle_started, and with handle_stopped called
   too if a stop or the removal has begun. Nothing is needed from the peer or from any other channel.
   */
  lemma EveryRegistrationEnds(cfg: H.Config, limits: Limits, i: nat, run: seq<Joint>, moves: seq<Move>, k: nat)
    returns (path: seq<Joint>)
    requires IsJointRun(cfg, limits, i, run, moves) && k < |run| && i < |run[k].world.chans|
    ensures OwnPath(run[k], i, path)
    ensures var w := path[|path| - 1].world;
            && i < |w.chans| && w.chans[i].stage.Registered?
            && Contract(w.chans[i], i in w.net.open)
            && (WasStopped(w.chans[i]) || (w.chans[i].stop.Live? && !w.chans[i].echo && w.chans[i].remover.Absent?))
  {
    RunKeepsJointInv(cfg, limits, i, run, moves, k);
    path := JointSettles(run[k], i);
    var w := path[|path| - 1].world;
    RegistrationContract(w.chans[i], i in w.net.pending, i in w.net.open);
  }
}
