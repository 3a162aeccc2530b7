/**
 The outbound session's connection slots, all channels' registrations and the network's two channel
 collections as one state machine: session_outbound and session_batch drive cycles of connecting,
 registering and reconnecting, while inbound, manual and seed channels share the collections.
 */
module Network {
  import opened Codes
  import opened Counting
  import opened Synchronizer
  import opened Registration

  // ---------------------------------------------------------------------------------------------
  // State and steps
  // ---------------------------------------------------------------------------------------------

  /** outbound_connections and connect_batch_size. */
  datatype Limits = Limits(outbound: nat, batch: nat)

  /** Attempts made by each batch: at least one. */
  function BatchSize(limits: Limits): nat {
    Max(limits.batch, 1)
  }

  /** A connect batch: its join, and the attempts that have not reported. */
  datatype Batch = Batch(join: Join, outstanding: nat)

  /** pending_handshake_ and pending_close_: closed by the network stop, and their members. */
  datatype Collections = Collections(pendClosed: bool, openClosed: bool, pending: set<nat>, open: set<nat>)

  datatype World = World(
    limits: Limits,
    stopped: bool,          // the sessions' stop flag
    toStart: nat,           // cycles the start loop has not started yet
    delayed: nat,           // cycles waiting for their reconnect delay
    batches: seq<Batch>,
    chans: seq<Chan>,
    net: Collections)

  function Begin(limits: Limits): World {
    World(limits, false, limits.outbound, 0, [], [], Collections(false, false, {}, {}))
  }

  datatype Event =
    | StartCycle                                     // one turn of the loop in handle_started
    | DelayEnds                                      // a delayed new_connection runs
    | Report(b: nat, ec: Code, authority: nat)       // an attempt of batch b reports to its join
    | Arrive(kind: Kind, authority: nat)             // an inbound, manual or seed channel registers
    | ChanStep(i: nat, step: Step, remoteNonce: nat) // a step of channel i
    | SessionsStop
    | CloseCollections(pend: bool)

  function NewBatch(limits: Limits): Batch {
    Batch(Join(BatchSize(limits), OnSuccess, 0), BatchSize(limits))
  }

  /** new_connection: nothing once stopped, otherwise a new batch of attempts. */
  function NewConnection(w: World): World {
    if w.stopped then w
    else w.(batches := w.batches + [NewBatch(w.limits)])
  }

  /** The collections hold registered channels. */
  predicate Ids(w: World) {
    && (forall k :: k in w.net.pending ==> k < |w.chans|)
    && (forall k :: k in w.net.open ==> k < |w.chans|)
  }

  /** p2p::pending: some channel pended for handshake has this nonce. */
  predicate PendingNonce(w: World, nonce: nat)
    requires Ids(w)
  {
    exists i :: i in w.net.pending && w.chans[i].nonce == nonce
  }

  /** p2p::store: refused once closed or when an open channel has the same authority. */
  function StoreResult(w: World, i: nat): Code
    requires Ids(w) && i < |w.chans|
  {
    if w.net.openClosed then ServiceStopped
    else if exists j :: j in w.net.open && w.chans[j].authority == w.chans[i].authority then AddressInUse
    else Success
  }

  /** An outgoing channel whose version message is on the wire. */
  predicate Announced(w: World, o: nat) {
    o < |w.chans| && w.chans[o].kind.Outgoing? && w.chans[o].nonce > 0
  }

  /** A channel step gets its answers from the session flag and the collections. */
  predicate Answered(w: World, i: nat, s: Step, remoteNonce: nat)
    requires Ids(w) && i < |w.chans|
  {
    match s
    case Register(stopped, pendClosed) => stopped == w.stopped && pendClosed == w.net.pendClosed
    case HandshakeEnds(ec, from, loopback) =>
      && (from.Some? ==> Announced(w, from.value))
      && (loopback <==> PendingNonce(w, if from.Some? then w.chans[from.value].nonce else remoteNonce))
    case Admit(result) => result == StoreResult(w, i)
    case _ => true
  }

  predicate Possible(w: World, e: Event) {
    && Ids(w)
    && match e
       case StartCycle => w.toStart > 0
       case DelayEnds => w.delayed > 0
       case Report(b, _, _) => b < |w.batches| && w.batches[b].outstanding > 0
       case Arrive(kind, _) => !kind.Outgoing?
       case ChanStep(i, s, remoteNonce) =>
         i < |w.chans| && Enabled(w.chans[i], s) && Answered(w, i, s, remoteNonce)
       case SessionsStop => true
       case CloseCollections(_) => true
  }

  function Move(ids: set<nat>, i: nat, member: bool): set<nat> {
    if member then ids + {i} else ids - {i}
  }

  /** The channel and its memberships after its own step. */
  function ChanMoves(w: World, i: nat, s: Step): World
    requires i < |w.chans| && Enabled(w.chans[i], s)
  {
    var c := w.chans[i];
    w.(chans := w.chans[i := Next(c, s)],
       net := w.net.(pending := Move(w.net.pending, i, PendAfter(c, i in w.net.pending, s)),
                     open := Move(w.net.open, i, OpenAfter(c, i in w.net.open, s))))
  }

  /** handle_connect of the outbound session: register the channel, or retry after a delay. */
  function Connected(w: World, fired: seq<Code>, authority: nat): World {
    if fired == [] then w
    else if fired[0] == Success then w.(chans := w.chans + [NewChan(Outgoing, authority)])
    else w.(delayed := w.delayed + 1)
  }

  function After(w: World, e: Event): World
    requires Possible(w, e)
  {
    match e
    case StartCycle => NewConnection(w.(toStart := w.toStart - 1))
    case DelayEnds => NewConnection(w.(delayed := w.delayed - 1))
    case Report(b, ec, authority) =>
      var batch := w.batches[b];
      var (join, fired) := Signal(batch.join, ec);
      Connected(w.(batches := w.batches[b := Batch(join, batch.outstanding - 1)]), fired, authority)
    case Arrive(kind, authority) => w.(chans := w.chans + [NewChan(kind, authority)])
    case ChanStep(i, s, _) =>
      // handle_channel_stop of an outbound channel is a new connection.
      if w.chans[i].kind.Outgoing? && CallsStopped(s) then NewConnection(ChanMoves(w, i, s)) else ChanMoves(w, i, s)
    case SessionsStop => w.(stopped := true)
    case CloseCollections(pend) =>
      w.(net := if pend then w.net.(pendClosed := true) else w.net.(openClosed := true))
  }

  // ---------------------------------------------------------------------------------------------
  // Invariant
  // ---------------------------------------------------------------------------------------------

  ghost predicate ChansInv(w: World) {
    && Ids(w)
    && forall i :: 0 <= i < |w.chans| ==> ChanInv(w.chans[i], i in w.net.pending, i in w.net.open)
  }

  ghost predicate DistinctAuthorities(w: World)
    requires Ids(w)
  {
    forall i, j :: i in w.net.open && j in w.net.open && i != j ==> w.chans[i].authority != w.chans[j].authority
  }

  /** The channel got past the loopback check. */
  predicate Passed(c: Chan) {
    match c.stage
    case Admitting => true
    case Ended(ec) => ec == Success
    case Unpended(ec) => ec == Success
    case Removing => true
    case Subscribed => true
    case Registered(ec) => ec == Success
    case _ => false
  }

  /** An incoming channel past the loopback check: our own end of it had left pending_handshake. */
  ghost predicate LoopsLeft(w: World) {
    forall i :: 0 <= i < |w.chans| && w.chans[i].kind.Incoming? && w.chans[i].loop.Some? && Passed(w.chans[i]) ==>
      Announced(w, w.chans[i].loop.value) && w.chans[i].loop.value !in w.net.pending
  }

  /** A running batch waits for exactly the attempts its join still needs. */
  predicate BatchInv(b: Batch) {
    && b.join.mode == OnSuccess
    && b.join.count <= b.join.need
    && (b.join.count < b.join.need ==> b.outstanding == b.join.need - b.join.count)
  }

  predicate Running(b: Batch) {
    b.join.count < b.join.need
  }

  predicate HoldsSlot(c: Chan) {
    c.kind.Outgoing? && !WasStopped(c)
  }

  /** Cycles to start, delayed, connecting, and registering or open. */
  function Slots(w: World): nat {
    w.toStart + w.delayed + Count(w.batches, Running) + Count(w.chans, HoldsSlot)
  }

  ghost predicate SlotsInv(w: World) {
    && (forall b :: 0 <= b < |w.batches| ==> BatchInv(w.batches[b]))
    && Slots(w) <= w.limits.outbound
    && (!w.stopped ==> Slots(w) == w.limits.outbound)
  }

  ghost predicate WorldInv(w: World) {
    ChansInv(w) && DistinctAuthorities(w) && LoopsLeft(w) && SlotsInv(w)
  }

  lemma BeginInv(limits: Limits)
    ensures WorldInv(Begin(limits))
  {
  }

  lemma NewConnectionSlots(w: World)
    ensures Slots(NewConnection(w)) == Slots(w) + if w.stopped then 0 else 1
    ensures (forall b :: 0 <= b < |w.batches| ==> BatchInv(w.batches[b])) ==>
            forall b :: 0 <= b < |NewConnection(w).batches| ==> BatchInv(NewConnection(w).batches[b])
  {
    CountAppend(w.batches, NewBatch(w.limits), Running);
    hide Count;
    assert BatchInv(NewBatch(w.limits));
    hide BatchInv;
  }

  lemma ReportSlots(w: World, e: Event)
    requires SlotsInv(w) && Possible(w, e) && e.Report?
    ensures SlotsInv(After(w, e)) && Slots(After(w, e)) == Slots(w)
  {
    hide Count;
    var batch := w.batches[e.b];
    var (join, fired) := Signal(batch.join, e.ec);
    var batch' := Batch(join, batch.outstanding - 1);
    CountUpdate(w.batches, e.b, batch', Running);
    CountAppend(w.chans, NewChan(Outgoing, e.authority), HoldsSlot);
    assert !WasStopped(NewChan(Outgoing, e.authority));
  }

  lemma ChanStepSlots(w: World, e: Event)
    requires SlotsInv(w) && ChansInv(w) && Possible(w, e) && e.ChanStep?
    ensures SlotsInv(After(w, e)) && Slots(After(w, e)) <= Slots(w)
  {
    hide Count, ChanInv;
    var c := w.chans[e.i];
    assert ChanInv(c, e.i in w.net.pending, e.i in w.net.open);
    CountUpdate(w.chans, e.i, Next(c, e.step), HoldsSlot);
    StopsOnce(c, e.i in w.net.pending, e.i in w.net.open, e.step);
    assert Next(c, e.step).kind == c.kind;
    NewConnectionSlots(ChanMoves(w, e.i, e.step));
  }

  /** No step creates a slot, and before the stop none is lost. */
  lemma StepKeepsSlots(w: World, e: Event)
    requires SlotsInv(w) && ChansInv(w) && Possible(w, e)
    ensures SlotsInv(After(w, e)) && Slots(After(w, e)) <= Slots(w)
    ensures After(w, e).limits == w.limits && (w.stopped ==> After(w, e).stopped)
  {
    match e
    case StartCycle => NewConnectionSlots(w.(toStart := w.toStart - 1));
    case DelayEnds => NewConnectionSlots(w.(delayed := w.delayed - 1));
    case Report(b, ec, authority) => ReportSlots(w, e);
    case Arrive(kind, authority) => CountAppend(w.chans, NewChan(kind, authority), HoldsSlot);
    case ChanStep(i, s, n) => ChanStepSlots(w, e);
    case SessionsStop =>
    case CloseCollections(_) =>
  }

  /** The channel, if any, that a step adds. */
  function Newcomer(w: World, e: Event): seq<Chan>
    requires Possible(w, e)
  {
    match e
    case Arrive(kind, authority) => [NewChan(kind, authority)]
    case Report(b, ec, authority) =>
      if Signal(w.batches[b].join, ec).1 != [] && Signal(w.batches[b].join, ec).1[0] == Success
      then [NewChan(Outgoing, authority)] else []
    case _ => []
  }

  /** Only a channel's own step changes it or its memberships; other steps at most add a channel. */
  lemma StepEffects(w: World, e: Event)
    requires Possible(w, e)
    ensures if e.ChanStep?
            then After(w, e).chans == ChanMoves(w, e.i, e.step).chans
                 && After(w, e).net == ChanMoves(w, e.i, e.step).net
            else && After(w, e).chans == w.chans + Newcomer(w, e)
                 && After(w, e).net.pending == w.net.pending && After(w, e).net.open == w.net.open
    ensures forall c :: c in Newcomer(w, e) ==> ChanInv(c, false, false) && c.loop.None?
  {
  }

  /** A channel's step keeps every channel's registration invariant. */
  lemma StepKeepsChans(w: World, e: Event)
    requires ChansInv(w) && Possible(w, e)
    ensures ChansInv(After(w, e))
  {
    StepEffects(w, e);
    var w' := After(w, e);
    if e.ChanStep? {
      StepKeepsChanInv(w.chans[e.i], e.i in w.net.pending, e.i in w.net.open, e.step);
    } else {
      forall i | 0 <= i < |w'.chans|
        ensures ChanInv(w'.chans[i], i in w'.net.pending, i in w'.net.open)
      {
        if i >= |w.chans| { assert w'.chans[i] in Newcomer(w, e); }
      }
    }
  }

  /** Only an admission adds to the open set, and it adds a new authority. */
  lemma StepKeepsDistinct(w: World, e: Event)
    requires Ids(w) && DistinctAuthorities(w) && Possible(w, e)
    ensures Ids(After(w, e)) && DistinctAuthorities(After(w, e))
  {
    StepEffects(w, e);
    if e.ChanStep? {
      assert Next(w.chans[e.i], e.step).authority == w.chans[e.i].authority;
    }
  }

  /** A nonce once drawn is kept, and a channel that drew it is never pended again. */
  lemma StepKeepsAnnounced(w: World, e: Event, o: nat)
    requires ChansInv(w) && Possible(w, e) && Announced(w, o)
    ensures Announced(After(w, e), o)
    ensures o !in w.net.pending ==> o !in After(w, e).net.pending
  {
    StepEffects(w, e);
    if e.ChanStep? && e.i == o {
      assert ChanInv(w.chans[o], o in w.net.pending, o in w.net.open);
    }
  }

  /** The loopback check is what an incoming channel's step to Passed goes through. */
  lemma LoopAtCheck(w: World, i: nat, s: Step, remoteNonce: nat)
    requires ChansInv(w) && LoopsLeft(w) && i < |w.chans| && Enabled(w.chans[i], s) && Answered(w, i, s, remoteNonce)
    requires var c := Next(w.chans[i], s); c.kind.Incoming? && c.loop.Some? && Passed(c)
    ensures var o := Next(w.chans[i], s).loop.value; Announced(w, o) && o !in w.net.pending
  {
    var c := Next(w.chans[i], s);
    if !s.HandshakeEnds? {
      assert ChanInv(w.chans[i], i in w.net.pending, i in w.net.open);
      assert c.loop == w.chans[i].loop && Passed(w.chans[i]);
    }
  }

  lemma StepKeepsLoops(w: World, e: Event)
    requires ChansInv(w) && LoopsLeft(w) && Possible(w, e)
    ensures LoopsLeft(After(w, e))
  {
    StepEffects(w, e);
    var w' := After(w, e);
    forall i | 0 <= i < |w'.chans| && w'.chans[i].kind.Incoming? && w'.chans[i].loop.Some? && Passed(w'.chans[i])
      ensures Announced(w', w'.chans[i].loop.value) && w'.chans[i].loop.value !in w'.net.pending
    {
      var o := w'.chans[i].loop.value;
      if e.ChanStep? && e.i == i {
        LoopAtCheck(w, i, e.step, e.remoteNonce);
      }
      assert i < |w.chans|;
      StepKeepsAnnounced(w, e, o);
    }
  }

  lemma StepKeepsWorldInv(w: World, e: Event)
    requires WorldInv(w) && Possible(w, e)
    ensures WorldInv(After(w, e))
  {
    StepKeepsChans(w, e);
    StepKeepsDistinct(w, e);
    StepKeepsLoops(w, e);
    StepKeepsSlots(w, e);
  }

  // ---------------------------------------------------------------------------------------------
  // Whole runs
  // ---------------------------------------------------------------------------------------------

  ghost predicate IsRun(limits: Limits, run: seq<World>) {
    && |run| > 0 && run[0] == Begin(limits)
    && forall k :: 0 <= k < |run| - 1 ==> StepsTo(run[k], run[k + 1])
  }

  ghost predicate StepsTo(w: World, w': World) {
    exists e :: Possible(w, e) && w' == After(w, e)
  }

  lemma StepFacts(w: World, w': World)
    requires WorldInv(w) && StepsTo(w, w')
    ensures WorldInv(w') && w'.limits == w.limits && Slots(w') <= Slots(w) && (w.stopped ==> w'.stopped)
  {
    var e :| Possible(w, e) && w' == After(w, e);
    StepKeepsWorldInv(w, e);
    StepKeepsSlots(w, e);
  }

  lemma {:induction false} RunKeepsWorldInv(limits: Limits, run: seq<World>, k: nat)
    requires IsRun(limits, run) && k < |run|
    ensures WorldInv(run[k]) && run[k].limits == limits
  {
    if k == 0 {
      BeginInv(limits);
    } else {
      RunKeepsWorldInv(limits, run, k - 1);
      assert StepsTo(run[k - 1], run[k - 1 + 1]);
      StepFacts(run[k - 1], run[k]);
    }
  }

  lemma {:induction false} SlotsNeverGrow(limits: Limits, run: seq<World>, k: nat, l: nat)
    requires IsRun(limits, run) && k <= l < |run|
    ensures Slots(run[l]) <= Slots(run[k])
    decreases l - k
  {
    hide Slots, WorldInv, StepsTo;
    if k < l {
      SlotsNeverGrow(limits, run, k, l - 1);
      RunKeepsWorldInv(limits, run, l - 1);
      assert StepsTo(run[l - 1], run[l - 1 + 1]);
      StepFacts(run[l - 1], run[l]);
    }
  }

  ghost function OpenOutgoing(w: World): set<nat>
    requires Ids(w)
  {
    set i | i in w.net.open && w.chans[i].kind.Outgoing?
  }

  /** What the invariant says of the slots of one world. */
  lemma WorldSlots(w: World)
    requires WorldInv(w)
    ensures !w.stopped ==> Slots(w) == w.limits.outbound
    ensures Slots(w) <= w.limits.outbound
    ensures Ids(w) && |OpenOutgoing(w)| <= w.limits.outbound
  {
    forall i | i in OpenOutgoing(w)
      ensures i < |w.chans| && HoldsSlot(w.chans[i])
    {
      OpenIsUnstopped(w.chans[i], i in w.net.pending);
    }
    CountCovers(w.chans, OpenOutgoing(w), HoldsSlot);
  }

  /**
   Slot conservation: until the session stops, the cycles waiting to start, delayed, connecting,
   registering or open are exactly outbound_connections; they never grow; and so the open outbound
   channels never exceed outbound_connections.
   */
  lemma SlotConservation(limits: Limits, run: seq<World>, k: nat, l: nat)
    requires IsRun(limits, run) && k <= l < |run|
    ensures !run[l].stopped ==> Slots(run[l]) == limits.outbound
    ensures Slots(run[l]) <= Slots(run[k]) <= limits.outbound
    ensures Ids(run[l]) && |OpenOutgoing(run[l])| <= limits.outbound
  {
    RunKeepsWorldInv(limits, run, k);
    RunKeepsWorldInv(limits, run, l);
    hide WorldInv, Slots, StepsTo;
    SlotsNeverGrow(limits, run, k, l);
    WorldSlots(run[k]);
    WorldSlots(run[l]);
  }

  lemma OpenIsUnstopped(c: Chan, pend: bool)
    requires ChanInv(c, pend, true)
    ensures !WasStopped(c)
  {
  }

  /** Every channel of every run meets the registration contract. */
  lemma EveryChannelMeetsContract(limits: Limits, run: seq<World>, k: nat, i: nat)
    requires IsRun(limits, run) && k < |run| && i < |run[k].chans|
    ensures Contract(run[k].chans[i], i in run[k].net.open)
  {
    RunKeepsWorldInv(limits, run, k);
    RegistrationContract(run[k].chans[i], i in run[k].net.pending, i in run[k].net.open);
  }

  /**
   Open-set admission: in every run open channels have pairwise distinct authorities, and an open
   incoming channel that is our own connection has an outgoing half that left pending_handshake.
   */
  lemma Admission(limits: Limits, run: seq<World>, k: nat, i: nat, j: nat)
    requires IsRun(limits, run) && k < |run|
    requires i in run[k].net.open && j in run[k].net.open
    ensures i < |run[k].chans| && j < |run[k].chans|
    ensures i != j ==> run[k].chans[i].authority != run[k].chans[j].authority
    ensures run[k].chans[i].kind.Incoming? && run[k].chans[i].loop.Some? ==>
            run[k].chans[i].loop.value !in run[k].net.pending
  {
    RunKeepsWorldInv(limits, run, k);
    assert ChanInv(run[k].chans[i], i in run[k].net.pending, true);
  }

  lemma StepKeepsFailed(w: World, e: Event, i: nat)
    requires ChansInv(w) && Possible(w, e) && i < |w.chans| && Failed(w.chans[i])
    ensures i < |After(w, e).chans| && Failed(After(w, e).chans[i])
  {
    StepEffects(w, e);
    assert ChanInv(w.chans[i], i in w.net.pending, i in w.net.open);
    if e.ChanStep? && e.i == i {
      FailedStays(w.chans[i], i in w.net.pending, i in w.net.open, e.step);
    }
  }

  lemma StepFails(w: World, w': World, i: nat)
    requires WorldInv(w) && StepsTo(w, w') && i < |w.chans| && Failed(w.chans[i])
    ensures i < |w'.chans| && Failed(w'.chans[i])
  {
    var e :| Possible(w, e) && w' == After(w, e);
    StepKeepsFailed(w, e, i);
  }

  /** A channel that failed stays failed for the rest of the run, and is never open. */
  lemma {:induction false} FailedForGood(limits: Limits, run: seq<World>, k: nat, l: nat, i: nat)
    requires IsRun(limits, run) && k <= l < |run| && i < |run[k].chans| && Failed(run[k].chans[i])
    ensures i < |run[l].chans| && Failed(run[l].chans[i]) && i !in run[l].net.open
    decreases l - k
  {
    hide Failed, WorldInv, StepsTo;
    if k < l {
      FailedForGood(limits, run, k, l - 1, i);
      RunKeepsWorldInv(limits, run, l - 1);
      assert StepsTo(run[l - 1], run[l - 1 + 1]);
      StepFails(run[l - 1], run[l], i);
    }
    RunKeepsWorldInv(limits, run, l);
    FailedIsClosed(run[l], i);
  }

  lemma FailedIsClosed(w: World, i: nat)
    requires WorldInv(w) && i < |w.chans| && Failed(w.chans[i])
    ensures i !in w.net.open
  {
    assert ChanInv(w.chans[i], i in w.net.pending, i in w.net.open);
    FailedStays(w.chans[i], i in w.net.pending, i in w.net.open, Finish);
  }

  /**
   When a connection to self is refused, in every run. An incoming channel whose handshake succeeds with
   our own outgoing channel o at the other end is refused as a loopback iff some channel pended at that
   moment has o's nonce, and so whenever o itself is still pended; a refused channel is never open
   afterwards, and any other goes on to be stored.
   */
  lemma LoopbackRefused(limits: Limits, run: seq<World>, k: nat, l: nat, i: nat, o: nat, e: Event)
    requires IsRun(limits, run) && k < l < |run| && Possible(run[k], e) && run[k + 1] == After(run[k], e)
    requires e.ChanStep? && e.i == i && run[k].chans[i].kind.Incoming?
    requires e.step.HandshakeEnds? && e.step.ec == Success && e.step.from == Some(o)
    ensures o < |run[k].chans| && i < |run[k + 1].chans| && i < |run[l].chans|
    ensures run[k + 1].chans[i].stage == Ended(AcceptFailed) <==>
            exists p :: p in run[k].net.pending && run[k].chans[p].nonce == run[k].chans[o].nonce
    ensures o in run[k].net.pending ==> run[k + 1].chans[i].stage == Ended(AcceptFailed)
    ensures run[k + 1].chans[i].stage == Ended(AcceptFailed) ==> i !in run[l].net.open
    ensures run[k + 1].chans[i].stage != Ended(AcceptFailed) ==> run[k + 1].chans[i].stage == Admitting
  {
    var w := run[k];
    assert PendingNonce(w, w.chans[o].nonce) <==>
           exists p :: p in w.net.pending && w.chans[p].nonce == w.chans[o].nonce;
    RefusedOrAdmitting(w, e, o);
    hide PendingNonce, After, Possible;
    if run[k + 1].chans[i].stage == Ended(AcceptFailed) {
      FailedForGood(limits, run, k + 1, l, i);
    } else {
      ChansStay(limits, run, k + 1, l);
    }
  }

  lemma RefusedOrAdmitting(w: World, e: Event, o: nat)
    requires Possible(w, e) && e.ChanStep? && w.chans[e.i].kind.Incoming?
    requires e.step.HandshakeEnds? && e.step.ec == Success && e.step.from == Some(o)
    ensures o < |w.chans| && |After(w, e).chans| == |w.chans|
    ensures After(w, e).chans[e.i].stage == if PendingNonce(w, w.chans[o].nonce) then Ended(AcceptFailed) else Admitting
  {
  }

  lemma {:induction false} ChansStay(limits: Limits, run: seq<World>, k: nat, l: nat)
    requires IsRun(limits, run) && k <= l < |run|
    ensures |run[k].chans| <= |run[l].chans|
    decreases l - k
  {
    if k < l {
      ChansStay(limits, run, k, l - 1);
      assert StepsTo(run[l - 1], run[l - 1 + 1]);
      var e :| Possible(run[l - 1], e) && run[l] == After(run[l - 1], e);
      StepEffects(run[l - 1], e);
    }
  }

  lemma Extend(limits: Limits, run: seq<World>, w: World)
    requires IsRun(limits, run) && StepsTo(run[|run| - 1], w)
    ensures IsRun(limits, run + [w])
  {
    var longer := run + [w];
    forall k | 0 <= k < |longer| - 1
      ensures StepsTo(longer[k], longer[k + 1])
    {
      if k < |run| - 1 { assert StepsTo(run[k], run[k + 1]); }
    }
  }

  lemma Takes(w: World, e: Event, w': World)
    requires Possible(w, e) && w' == After(w, e)
    ensures StepsTo(w, w')
  {
  }

  lemma BeginIsRun(limits: Limits)
    ensures IsRun(limits, [Begin(limits)])
  {
  }

  /** A world with one spent batch and the channels of one connection to self. */
  function SelfWorld(chans: seq<Chan>, pending: set<nat>, open: set<nat>): World {
    World(Limits(1, 1), false, 0, 0, [Batch(Join(1, OnSuccess, 1), 0)], chans,
          Collections(false, false, pending, open))
  }

  function At(kind: Kind, authority: nat, nonce: nat, loop: Option<nat>, stage: Stage): Chan {
    Chan(kind, authority, nonce, loop, stage, Live, false, false, Absent, [])
  }

  lemma SelfStep(chans: seq<Chan>, pending: set<nat>, open: set<nat>, i: nat, s: Step, remoteNonce: nat, w': World)
    requires Ids(SelfWorld(chans, pending, open)) && i < |chans| && Enabled(chans[i], s) && !CallsStopped(s)
    requires Answered(SelfWorld(chans, pending, open), i, s, remoteNonce)
    requires w' == SelfWorld(chans[i := Next(chans[i], s)],
                             Move(pending, i, PendAfter(chans[i], i in pending, s)),
                             Move(open, i, OpenAfter(chans[i], i in open, s)))
    ensures StepsTo(SelfWorld(chans, pending, open), w')
  {
    var w := SelfWorld(chans, pending, open);
    assert Possible(w, ChanStep(i, s, remoteNonce));
  }

  /** The outgoing half connects. */
  lemma SelfConnects() returns (run: seq<World>)
    ensures IsRun(Limits(1, 1), run)
    ensures run[|run| - 1] == SelfWorld([At(Outgoing, 7, 0, None, Registering)], {}, {})
  {
    hide IsRun, StepsTo;
    var limits := Limits(1, 1);
    var w0 := Begin(limits);
    var w1 := w0.(toStart := 0, batches := [Batch(Join(1, OnSuccess, 0), 1)]);
    var w2 := SelfWorld([At(Outgoing, 7, 0, None, Registering)], {}, {});
    BeginIsRun(limits);
    Takes(w0, StartCycle, w1);
    Takes(w1, Report(0, Success, 7), w2);
    Extend(limits, [w0], w1);
    Extend(limits, [w0] + [w1], w2);
    run := [w0] + [w1] + [w2];
  }

  /** It is pended and starts. */
  lemma SelfStarts() returns (run: seq<World>)
    ensures IsRun(Limits(1, 1), run)
    ensures run[|run| - 1] == SelfWorld([At(Outgoing, 7, 5, None, Handshaking)], {0}, {})
  {
    hide IsRun, StepsTo, StoreResult, PendingNonce;
    var limits := Limits(1, 1);
    run := SelfConnects();
    var w1 := SelfWorld([At(Outgoing, 7, 0, None, Starting)], {0}, {});
    SelfStep([At(Outgoing, 7, 0, None, Registering)], {}, {}, 0, Register(false, false), 0, w1);
    Extend(limits, run, w1);
    run := run + [w1];
    var w2 := SelfWorld([At(Outgoing, 7, 5, None, Handshaking)], {0}, {});
    SelfStep([At(Outgoing, 7, 0, None, Starting)], {0}, {}, 0, Start(5), 0, w2);
    Extend(limits, run, w2);
    run := run + [w2];
  }

  /** The incoming half arrives and starts. */
  lemma SelfArrives() returns (run: seq<World>)
    ensures IsRun(Limits(1, 1), run)
    ensures run[|run| - 1] == SelfWorld([At(Outgoing, 7, 5, None, Handshaking),
                                         At(Incoming, 8, 6, None, Handshaking)], {0}, {})
  {
    hide IsRun, StepsTo;
    var limits := Limits(1, 1);
    run := SelfStarts();
    var out := At(Outgoing, 7, 5, None, Handshaking);
    var w1 := SelfWorld([out, At(Incoming, 8, 0, None, Registering)], {0}, {});
    Takes(SelfWorld([out], {0}, {}), Arrive(Incoming, 8), w1);
    Extend(limits, run, w1);
    run := run + [w1];
    var w2 := SelfWorld([out, At(Incoming, 8, 0, None, Starting)], {0}, {});
    SelfStep([out, At(Incoming, 8, 0, None, Registering)], {0}, {}, 1, Register(false, false), 0, w2);
    Extend(limits, run, w2);
    run := run + [w2];
    var w3 := SelfWorld([out, At(Incoming, 8, 6, None, Handshaking)], {0}, {});
    SelfStep([out, At(Incoming, 8, 0, None, Starting)], {0}, {}, 1, Start(6), 0, w3);
    Extend(limits, run, w3);
    run := run + [w3];
  }

  /** The outgoing half's handshake succeeds first; it is admitted and unpended. */
  lemma SelfAdmitsOutgoing() returns (run: seq<World>)
    ensures IsRun(Limits(1, 1), run)
    ensures run[|run| - 1] == SelfWorld([At(Outgoing, 7, 5, None, Unpended(Success)),
                                         At(Incoming, 8, 6, None, Handshaking)], {}, {0})
  {
    hide IsRun, StepsTo;
    var limits := Limits(1, 1);
    run := SelfArrives();
    var inc := At(Incoming, 8, 6, None, Handshaking);
    var w1 := SelfWorld([At(Outgoing, 7, 5, None, Admitting), inc], {0}, {});
    SelfStep([At(Outgoing, 7, 5, None, Handshaking), inc], {0}, {}, 0, HandshakeEnds(Success, None, false), 6, w1);
    Extend(limits, run, w1);
    run := run + [w1];
    var w2 := SelfWorld([At(Outgoing, 7, 5, None, Ended(Success)), inc], {0}, {0});
    SelfStep([At(Outgoing, 7, 5, None, Admitting), inc], {0}, {}, 0, Admit(Success), 0, w2);
    Extend(limits, run, w2);
    run := run + [w2];
    var w3 := SelfWorld([At(Outgoing, 7, 5, None, Unpended(Success)), inc], {}, {0});
    SelfStep([At(Outgoing, 7, 5, None, Ended(Success)), inc], {0}, {0}, 0, Unpend, 0, w3);
    Extend(limits, run, w3);
    run := run + [w3];
  }

  /**
   Loopback rejection is not unconditional: in this run both halves are handshaking when the outgoing half
   completes, is stored and is unpended; then the incoming half completes, passes its check, and both
   halves of the connection to self are open.
   */
  lemma LoopbackMissed() returns (run: seq<World>)
    ensures IsRun(Limits(1, 1), run) && Ids(run[|run| - 1]) && run[|run| - 1].net.open == {0, 1}
    ensures run[|run| - 1].chans[1].kind.Incoming? && run[|run| - 1].chans[1].loop == Some(0)
  {
    hide IsRun, StepsTo;
    var limits := Limits(1, 1);
    run := SelfAdmitsOutgoing();
    var out := At(Outgoing, 7, 5, None, Unpended(Success));
    var w1 := SelfWorld([out, At(Incoming, 8, 6, Some(0), Admitting)], {}, {0});
    SelfStep([out, At(Incoming, 8, 6, None, Handshaking)], {}, {0}, 1, HandshakeEnds(Success, Some(0), false), 0, w1);
    Extend(limits, run, w1);
    run := run + [w1];
    var w2 := SelfWorld([out, At(Incoming, 8, 6, Some(0), Ended(Success))], {}, {0, 1});
    SelfStep([out, At(Incoming, 8, 6, Some(0), Admitting)], {}, {0}, 1, Admit(Success), 0, w2);
    Extend(limits, run, w2);
    run := run + [w2];
  }
}
