/**
 Why a registration ends as it does. The code a channel's handlers are given goes back to one step of the run:
 the session or the collection of pended channels being stopped, the handshake's own code, a loopback, or what the
 open set answered. Conditions are stated on the session flag, the collections and the other channels.
 */
module Outcomes {
  import opened Codes
  import opened Registration
  import opened Network

  /** A run together with its events. */
  ghost predicate IsTrace(limits: Limits, run: seq<World>, events: seq<Event>) {
    && |run| == |events| + 1 && run[0] == Begin(limits)
    && forall k :: 0 <= k < |events| ==> Possible(run[k], events[k]) && run[k + 1] == After(run[k], events[k])
  }

  /** The result of a channel's registration, once it is known. */
  function ResultOf(c: Chan): Option<Code> {
    match c.stage
    case Registering => None
    case Starting => None
    case Handshaking => None
    case Admitting => None
    case Refused => Some(ServiceStopped)
    case Ended(ec) => Some(ec)
    case Unpended(ec) => Some(ec)
    case Stopping(ec) => Some(ec)
    case Notified(ec) => Some(ec)
    case Removing => Some(Success)
    case Subscribed => Some(Success)
    case Registered(ec) => Some(ec)
  }

  /** An open channel has this authority. */
  ghost predicate Connected(w: World, authority: nat)
    requires Ids(w)
  {
    exists j :: j in w.net.open && w.chans[j].authority == authority
  }

  /** A pended channel drew this nonce. */
  ghost predicate Drawn(w: World, nonce: nat)
    requires Ids(w)
  {
    exists p :: p in w.net.pending && w.chans[p].nonce == nonce
  }

  /** The nonce in the version message of the peer: our own, if our own channel is at the other end. */
  function PeerNonce(w: World, from: Option<nat>, remoteNonce: nat): nat {
    if from.Some? && from.value < |w.chans| then w.chans[from.value].nonce else remoteNonce
  }

  /** A step of channel i decides its registration with this code. */
  ghost predicate Decides(w: World, e: Event, i: nat, ec: Code)
    requires Possible(w, e) && i < |w.chans|
  {
    && e.ChanStep? && e.i == i
    && match e.step
       case Register(_, _) => ec == ServiceStopped && (w.stopped || (w.chans[i].kind.Outgoing? && w.net.pendClosed))
       case HandshakeEnds(c, from, _) =>
         if c != Success then ec == c
         else ec == AcceptFailed && w.chans[i].kind.Incoming? && Drawn(w, PeerNonce(w, from, e.remoteNonce))
       case Admit(_) =>
         ec == if w.net.openClosed then ServiceStopped
               else if Connected(w, w.chans[i].authority) then AddressInUse
               else Success
       case _ => false
  }

  /** The result a channel's own step fixes, in terms of the answers it was given. */
  function Fixes(c: Chan, s: Step): Option<Code> {
    match s
    case Register(stopped, pendClosed) =>
      if stopped || (c.kind.Outgoing? && pendClosed) then Some(ServiceStopped) else None
    case HandshakeEnds(ec, _, loopback) =>
      if ec != Success then Some(ec) else if c.kind.Incoming? && loopback then Some(AcceptFailed) else None
    case Admit(result) => Some(result)
    case _ => None
  }

  lemma StepFixes(c: Chan, pend: bool, open: bool, s: Step)
    requires ChanInv(c, pend, open) && Enabled(c, s)
    ensures ResultOf(c).Some? ==> ResultOf(Next(c, s)) == ResultOf(c) && Fixes(c, s).None?
    ensures ResultOf(c).None? ==> ResultOf(Next(c, s)) == Fixes(c, s)
  {
  }

  /** The answers a step was given, in terms of the world. */
  lemma FixesAnswered(w: World, e: Event)
    requires Possible(w, e) && e.ChanStep?
    ensures forall ec :: Fixes(w.chans[e.i], e.step) == Some(ec) <==> Decides(w, e, e.i, ec)
  {
    if e.step.HandshakeEnds? {
      assert Drawn(w, PeerNonce(w, e.step.from, e.remoteNonce)) <==> e.step.loopback;
    }
  }

  /** A known result is never changed, and becomes known exactly in a step that decides it. */
  lemma StepDecides(w: World, e: Event, i: nat)
    requires ChansInv(w) && Possible(w, e) && i < |w.chans|
    ensures i < |After(w, e).chans|
    ensures forall ec :: ResultOf(After(w, e).chans[i]) == Some(ec) <==>
              ResultOf(w.chans[i]) == Some(ec) || Decides(w, e, i, ec)
  {
    StepEffects(w, e);
    if e.ChanStep? && e.i == i {
      assert ChanInv(w.chans[i], i in w.net.pending, i in w.net.open);
      StepFixes(w.chans[i], i in w.net.pending, i in w.net.open, e.step);
      FixesAnswered(w, e);
      hide After, Decides, ResultOf, Fixes, ChanInv;
    } else {
      hide After, ResultOf;
    }
  }

  lemma {:induction false} TraceKeepsInv(limits: Limits, run: seq<World>, events: seq<Event>, k: nat)
    requires IsTrace(limits, run, events) && k < |run|
    ensures WorldInv(run[k])
  {
    hide WorldInv, After, Possible, Begin;
    if k == 0 {
      BeginInv(limits);
    } else {
      TraceKeepsInv(limits, run, events, k - 1);
      StepKeepsWorldInv(run[k - 1], events[k - 1]);
      assert run[k - 1 + 1] == After(run[k - 1], events[k - 1]);
    }
  }

  ghost predicate Decided(run: seq<World>, events: seq<Event>, k: nat, i: nat, ec: Code)
    requires k <= |run| && k <= |events| && forall j :: 0 <= j < k ==> Possible(run[j], events[j])
  {
    exists j :: 0 <= j < k && i < |run[j].chans| && Decides(run[j], events[j], i, ec)
  }

  lemma DecidedOn(run: seq<World>, events: seq<Event>, k: nat, i: nat, ec: Code)
    requires 0 < k <= |run| && k <= |events| && forall j :: 0 <= j < k ==> Possible(run[j], events[j])
    ensures Decided(run, events, k, i, ec) <==>
            || Decided(run, events, k - 1, i, ec)
            || (i < |run[k - 1].chans| && Decides(run[k - 1], events[k - 1], i, ec))
  {
    hide Possible, Decides;
  }

  /** A channel that has just come has no result, and no earlier step was about it. */
  lemma NewcomerOpen(w: World, e: Event, i: nat)
    requires Possible(w, e) && |w.chans| <= i < |After(w, e).chans|
    ensures ResultOf(After(w, e).chans[i]).None?
  {
  }

  lemma {:induction false} NoneBefore(limits: Limits, run: seq<World>, events: seq<Event>, k: nat, i: nat, ec: Code)
    requires IsTrace(limits, run, events) && k < |run| && |run[k].chans| <= i
    ensures !Decided(run, events, k, i, ec)
  {
    hide Possible, Decides, After;
    if k > 0 {
      assert run[k - 1 + 1] == After(run[k - 1], events[k - 1]);
      ChansGrow(run[k - 1], events[k - 1]);
      NoneBefore(limits, run, events, k - 1, i, ec);
      DecidedOn(run, events, k, i, ec);
    }
  }

  lemma ChansGrow(w: World, e: Event)
    requires Possible(w, e)
    ensures |w.chans| <= |After(w, e).chans|
  {
  }

  /**
   Why a registration ends as it does, in every run: a channel has a result iff some step decided it. It is
   refused as stopped iff the session, or for an outbound channel the collection of pended ones, had stopped; it
   gets its handshake's failure; an inbound one whose peer's nonce is pended is a loopback; and the open set answers
   stopped, in use, or success iff it is open and no open channel has the same authority.
   */
  lemma {:induction false} RegistrationCause(limits: Limits, run: seq<World>, events: seq<Event>,
                                             k: nat, i: nat, ec: Code)
    requires IsTrace(limits, run, events) && k < |run| && i < |run[k].chans|
    ensures ResultOf(run[k].chans[i]) == Some(ec) <==> Decided(run, events, k, i, ec)
  {
    hide Possible, Decides, After, ResultOf, WorldInv, ChansInv;
    if k > 0 {
      var w, e := run[k - 1], events[k - 1];
      assert run[k - 1 + 1] == After(w, e);
      DecidedOn(run, events, k, i, ec);
      if i < |w.chans| {
        RegistrationCause(limits, run, events, k - 1, i, ec);
        TraceKeepsInv(limits, run, events, k - 1);
        ChansOf(w);
        StepDecides(w, e, i);
      } else {
        NewcomerOpen(w, e, i);
        NoneBefore(limits, run, events, k - 1, i, ec);
      }
    }
  }

  lemma ChansOf(w: World)
    requires WorldInv(w)
    ensures ChansInv(w)
  {
  }

  /** So both handlers of a channel are given a code that some step decided. */
  lemma HandlersCause(limits: Limits, run: seq<World>, events: seq<Event>, k: nat, i: nat)
    requires IsTrace(limits, run, events) && k < |run| && i < |run[k].chans| && run[k].chans[i].stage.Registered?
    ensures Started(run[k].chans[i].stage.ec) in run[k].chans[i].calls
    ensures Decided(run, events, k, i, run[k].chans[i].stage.ec)
  {
    hide Possible, Decides, After, Decided;
    TraceKeepsInv(limits, run, events, k);
    RegistrationCause(limits, run, events, k, i, run[k].chans[i].stage.ec);
    assert ChanInv(run[k].chans[i], i in run[k].net.pending, i in run[k].net.open);
    RegistrationContract(run[k].chans[i], i in run[k].net.pending, i in run[k].net.open);
  }

  // ---------------------------------------------------------------------------------------------
  // Flags
  // ---------------------------------------------------------------------------------------------

  ghost predicate Occurred(events: seq<Event>, k: nat, e: Event)
    requires k <= |events|
  {
    exists j :: 0 <= j < k && events[j] == e
  }

  lemma StepFlags(w: World, e: Event)
    requires Possible(w, e)
    ensures After(w, e).stopped <==> w.stopped || e == SessionsStop
    ensures After(w, e).net.pendClosed <==> w.net.pendClosed || e == CloseCollections(true)
    ensures After(w, e).net.openClosed <==> w.net.openClosed || e == CloseCollections(false)
  {
  }

  /** In every run the flags that refuse a channel are up iff the stop that raises them has happened. */
  lemma {:induction false} FlagsCause(limits: Limits, run: seq<World>, events: seq<Event>, k: nat)
    requires IsTrace(limits, run, events) && k < |run|
    ensures run[k].stopped <==> Occurred(events, k, SessionsStop)
    ensures run[k].net.pendClosed <==> Occurred(events, k, CloseCollections(true))
    ensures run[k].net.openClosed <==> Occurred(events, k, CloseCollections(false))
  {
    if k > 0 {
      hide After, Possible;
      FlagsCause(limits, run, events, k - 1);
      StepFlags(run[k - 1], events[k - 1]);
      assert run[k - 1 + 1] == After(run[k - 1], events[k - 1]);
    }
  }
}
