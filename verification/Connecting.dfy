/**
 A connect batch (session_batch) over its connectors: each attempt fetches an address and connects,
 each connector races its deadline timer against the socket connect, and the attempts report to one
 success-terminated join. Timers, resolvers, sockets and the service stop interleave freely.
 */
module Connecting {
  import opened Codes
  import opened Counting
  import opened Synchronizer

  datatype Phase =
    | Waiting                   // not launched by the batch loop yet
    | Resolving
    | Racing                    // timer and socket connect both started
    | Dispatched(ec: Code)      // handler queued with a failure
    | Reported(ec: Code)

  datatype Attempt = Attempt(
    phase: Phase,
    stopped: bool,              // the connector's stop flag
    timer: bool,                // deadline armed
    connecting: bool,           // socket connect outstanding
    join: Join,                 // decides the race
    heard: seq<Code>)           // every result the race handed to the attempt's handler

  datatype Batch = Batch(
    attempts: seq<Attempt>,
    launched: nat,              // turns of the batch loop
    stored: set<nat>,           // attempts whose connector was ever put in pending_connect_
    pended: set<nat>,           // attempts whose connector is in pending_connect_
    join: Join,
    order: seq<nat>,            // attempts in the order they reported
    results: seq<Code>)         // every call of the batch handler

  function Begin(size: nat): Batch {
    Batch(seq(size, _ => Attempt(Waiting, false, false, false, Join(1, OnError, 0), [])), 0, {}, {},
          Join(size, OnSuccess, 0), [], [])
  }

  datatype Event =
    | Launch(refused: Option<Code>, pend: bool) // new_connect: refused before connecting, or connector pended
    | Resolve(i: nat, ok: bool)
    | TimerEnds(i: nat, ec: Code)
    | ConnectEnds(i: nat, ec: Code)
    | Dispatch(i: nat)
    | StopConnector(i: nat)                     // by the stop of pending_connect_

  predicate Possible(b: Batch, e: Event) {
    match e
    case Launch(refused, _) => b.launched < |b.attempts| && refused != Some(Success)
    case Resolve(i, _) => i < |b.attempts| && b.attempts[i].phase.Resolving?
    case TimerEnds(i, _) => i < |b.attempts| && b.attempts[i].timer
    case ConnectEnds(i, _) => i < |b.attempts| && b.attempts[i].connecting
    case Dispatch(i) => i < |b.attempts| && b.attempts[i].phase.Dispatched?
    case StopConnector(i) => i < |b.attempts| && !b.attempts[i].phase.Waiting?
  }

  /** handle_connect of the batch: unpend (which stops the connector), then the join. */
  function Report(b: Batch, i: nat, a: Attempt, ec: Code): Batch
    requires i < |b.attempts|
  {
    b.(attempts := b.attempts[i := a.(phase := Reported(ec), stopped := true, timer := false)],
       pended := b.pended - {i},
       join := Signal(b.join, ec).0,
       order := b.order + [i],
       results := b.results + Signal(b.join, ec).1)
  }

  /** The race's join is called with a code; its first call is the attempt's report. */
  function Raced(b: Batch, i: nat, a: Attempt, ec: Code): Batch
    requires i < |b.attempts|
  {
    var (join, fired) := Signal(a.join, ec);
    var a' := a.(join := join, heard := a.heard + fired);
    if fired == [] then b.(attempts := b.attempts[i := a']) else Report(b, i, a', fired[0])
  }

  function After(b: Batch, e: Event): Batch
    requires Possible(b, e)
  {
    match e
    case Launch(refused, pend) =>
      var i := b.launched;
      var c := b.(launched := i + 1);
      (match refused
       case Some(ec) => Report(c, i, b.attempts[i], ec)
       case None =>
         c.(attempts := b.attempts[i := b.attempts[i].(phase := Resolving)],
            stored := if pend then b.stored + {i} else b.stored,
            pended := if pend then b.pended + {i} else b.pended))
    case Resolve(i, ok) =>
      var a := b.attempts[i];
      var phase := if a.stopped then Dispatched(ServiceStopped) else if !ok then Dispatched(ResolveFailed) else Racing;
      b.(attempts := b.attempts[i := a.(phase := phase, timer := phase.Racing?, connecting := phase.Racing?)])
    case TimerEnds(i, ec) =>
      Raced(b, i, b.attempts[i].(timer := false), if ec != Success then ec else ChannelTimeout)
    case ConnectEnds(i, ec) => Raced(b, i, b.attempts[i].(connecting := false), ec)
    case Dispatch(i) => Report(b, i, b.attempts[i], b.attempts[i].phase.ec)
    case StopConnector(i) => b.(attempts := b.attempts[i := b.attempts[i].(stopped := true, timer := false)])
  }

  // ---------------------------------------------------------------------------------------------
  // Invariant
  // ---------------------------------------------------------------------------------------------

  predicate HasReported(a: Attempt) {
    a.phase.Reported?
  }

  /** The race is decided iff the attempt has reported; an undecided race still has its connect. */
  predicate AttemptInv(a: Attempt) {
    && a.join.need == 1 && a.join.mode == OnError && a.join.count <= 1
    && (a.join.count == 1 ==> a.phase.Reported? && a.heard == [a.phase.ec])
    && (a.join.count == 0 ==> a.heard == [])
    && (a.phase.Racing? ==> a.connecting && a.join.count == 0)
    && (a.timer ==> a.phase.Racing?)
    && (a.connecting ==> a.phase.Racing? || a.join.count == 1)
    && (a.phase.Dispatched? ==> a.phase.ec != Success)
    && (a.phase.Reported? ==> a.stopped)
  }

  /** Who is launched and who is pended: a stored connector is pended until it reports. */
  ghost predicate AttemptsInv(b: Batch) {
    && b.launched <= |b.attempts|
    && (forall i :: 0 <= i < |b.attempts| ==>
          AttemptInv(b.attempts[i]) && (b.attempts[i].phase.Waiting? <==> i >= b.launched))
    && (forall i :: i in b.stored ==> i < b.launched)
    && (forall i: nat :: i in b.pended <==> i in b.stored && !b.attempts[i].phase.Reported?)
  }

  /** The reports, in order. */
  ghost predicate OrderInv(b: Batch) {
    && (forall k :: 0 <= k < |b.order| ==> b.order[k] < |b.attempts| && b.attempts[b.order[k]].phase.Reported?)
    && Count(b.attempts, HasReported) == |b.order|
  }

  ghost function ReportedCodes(b: Batch): (codes: seq<Code>)
    requires OrderInv(b)
    ensures |codes| == |b.order|
    ensures forall k :: 0 <= k < |codes| ==> codes[k] == b.attempts[b.order[k]].phase.ec
  {
    seq(|b.order|, k requires 0 <= k < |b.order| => b.attempts[b.order[k]].phase.ec)
  }

  /** The batch handler saw the join's run over the reports, one report for each attempt that reported. */
  ghost predicate ReportsInv(b: Batch) {
    && OrderInv(b)
    && (forall i :: 0 <= i < |b.attempts| && b.attempts[i].phase.Reported? ==> i in b.order)
    && (b.join, b.results) == Run(Join(|b.attempts|, OnSuccess, 0), ReportedCodes(b))
  }

  ghost predicate BatchInv(b: Batch) {
    AttemptsInv(b) && ReportsInv(b)
  }

  lemma BeginInv(size: nat)
    ensures BatchInv(Begin(size))
  {
    NoneReported(Begin(size).attempts);
  }

  lemma {:induction false} NoneReported(s: seq<Attempt>)
    requires forall i :: 0 <= i < |s| ==> !HasReported(s[i])
    ensures Count(s, HasReported) == 0
  {
    if s != [] { NoneReported(s[..|s| - 1]); }
  }

  /** Replacing an attempt without touching its report leaves the reports as they are. */
  lemma QuietStep(b: Batch, i: nat, a: Attempt, launched: nat, stored: set<nat>, pended: set<nat>)
    requires ReportsInv(b) && i < |b.attempts|
    requires a.phase == b.attempts[i].phase || (!HasReported(b.attempts[i]) && !HasReported(a))
    ensures ReportsInv(b.(attempts := b.attempts[i := a], launched := launched, stored := stored, pended := pended))
  {
    var b' := b.(attempts := b.attempts[i := a], launched := launched, stored := stored, pended := pended);
    CountUpdate(b.attempts, i, a, HasReported);
    assert OrderInv(b');
    assert ReportedCodes(b') == ReportedCodes(b);
  }

  lemma ReportStep(b: Batch, i: nat, a: Attempt, ec: Code)
    requires ReportsInv(b) && i < |b.attempts| && !HasReported(b.attempts[i])
    ensures ReportsInv(Report(b, i, a, ec))
  {
    var b' := Report(b, i, a, ec);
    CountUpdate(b.attempts, i, b'.attempts[i], HasReported);
    assert forall k :: 0 <= k < |b.order| ==> b.order[k] != i && b'.order[k] == b.order[k];
    assert b'.order[|b.order|] == i;
    assert OrderInv(b');
    assert ReportedCodes(b') == ReportedCodes(b) + [ec];
    RunSnoc(Join(|b.attempts|, OnSuccess, 0), ReportedCodes(b), ec);
    forall j | 0 <= j < |b'.attempts| && b'.attempts[j].phase.Reported?
      ensures j in b'.order
    {
      if j == i { assert b'.order[|b.order|] == j; } else { assert j in b.order; }
    }
  }

  /** The timer or the socket connect ends: the first of them reports, the second is ignored. */
  lemma RacedStep(b: Batch, i: nat, a: Attempt, ec: Code)
    requires ReportsInv(b) && i < |b.attempts| && AttemptInv(b.attempts[i])
    requires a == b.attempts[i].(timer := false) || a == b.attempts[i].(connecting := false)
    requires b.attempts[i].timer || b.attempts[i].connecting
    ensures ReportsInv(Raced(b, i, a, ec))
  {
    var (join, fired) := Signal(a.join, ec);
    if fired == [] {
      QuietStep(b, i, a.(join := join, heard := a.heard + fired), b.launched, b.stored, b.pended);
    } else {
      ReportStep(b, i, a.(join := join, heard := a.heard + fired), fired[0]);
    }
  }

  /** First of timer and connect wins: its code is the attempt's report, and the other changes no report. */
  lemma FirstEndWins(b: Batch, e: Event)
    requires AttemptsInv(b) && Possible(b, e) && (e.TimerEnds? || e.ConnectEnds?)
    ensures var a, b' := b.attempts[e.i], After(b, e);
            var ec := if e.TimerEnds? && e.ec == Success then ChannelTimeout else e.ec;
            if HasReported(a)
            then b'.order == b.order && b'.results == b.results && b'.attempts[e.i].phase == a.phase
                 && b'.attempts[e.i].heard == a.heard
            else b'.order == b.order + [e.i] && b'.attempts[e.i].phase == Reported(ec)
                 && b'.attempts[e.i].heard == [ec] && e.i !in b'.pended
  {
    assert AttemptInv(b.attempts[e.i]);
  }

  lemma ReportsFrame(b: Batch, launched: nat)
    requires ReportsInv(b)
    ensures ReportsInv(b.(launched := launched))
  {
    assert ReportedCodes(b.(launched := launched)) == ReportedCodes(b);
  }

  lemma LaunchStep(b: Batch, e: Event)
    requires ReportsInv(b) && Possible(b, e) && e.Launch? && !HasReported(b.attempts[b.launched])
    ensures ReportsInv(After(b, e))
  {
    hide ReportsInv, Report;
    var i := b.launched;
    var a := b.attempts[i];
    ReportsFrame(b, i + 1);
    if e.refused.Some? {
      ReportStep(b.(launched := i + 1), i, a, e.refused.value);
    } else {
      QuietStep(b, i, a.(phase := Resolving), i + 1,
                if e.pend then b.stored + {i} else b.stored, if e.pend then b.pended + {i} else b.pended);
    }
  }

  lemma StepKeepsReports(b: Batch, e: Event)
    requires BatchInv(b) && Possible(b, e)
    ensures ReportsInv(After(b, e))
  {
    hide ReportsInv;
    match e
    case Launch(refused, pend) => LaunchStep(b, e);
    case Resolve(i, ok) => QuietStep(b, i, After(b, e).attempts[i], b.launched, b.stored, b.pended);
    case TimerEnds(i, ec) =>
      RacedStep(b, i, b.attempts[i].(timer := false), if ec != Success then ec else ChannelTimeout);
    case ConnectEnds(i, ec) => RacedStep(b, i, b.attempts[i].(connecting := false), ec);
    case Dispatch(i) => ReportStep(b, i, b.attempts[i], b.attempts[i].phase.ec);
    case StopConnector(i) => QuietStep(b, i, After(b, e).attempts[i], b.launched, b.stored, b.pended);
  }

  /** The attempt a step belongs to. */
  function Touched(b: Batch, e: Event): nat {
    if e.Launch? then b.launched else e.i
  }

  lemma TouchesOne(b: Batch, e: Event)
    requires AttemptsInv(b) && Possible(b, e)
    ensures var i, b' := Touched(b, e), After(b, e);
            && i < |b.attempts|
            && b'.attempts == b.attempts[i := b'.attempts[i]]
            && AttemptInv(b'.attempts[i]) && !b'.attempts[i].phase.Waiting?
            && b'.launched == (if e.Launch? then b.launched + 1 else b.launched)
            && b'.stored - {i} == b.stored - {i} && (i in b'.stored ==> i in b.stored || e.Launch?)
            && b'.pended - {i} == b.pended - {i} && (i in b'.pended <==> i in b'.stored && !HasReported(b'.attempts[i]))
  {
    var i := Touched(b, e);
    assert AttemptInv(b.attempts[i]);
  }

  lemma StepKeepsAttempts(b: Batch, e: Event)
    requires AttemptsInv(b) && Possible(b, e)
    ensures AttemptsInv(After(b, e)) && |After(b, e).attempts| == |b.attempts|
  {
    TouchesOne(b, e);
    var i, b' := Touched(b, e), After(b, e);
    hide After, AttemptInv;
    forall k | 0 <= k < |b'.attempts|
      ensures AttemptInv(b'.attempts[k]) && (b'.attempts[k].phase.Waiting? <==> k >= b'.launched)
    {
      if k != i { assert b'.attempts[k] == b.attempts[k]; }
    }
    forall k | k in b'.stored ensures k < b'.launched { if k != i { assert k in b'.stored - {i}; } }
    forall k: nat
      ensures k in b'.pended <==> k in b'.stored && !b'.attempts[k].phase.Reported?
    {
      if k != i { assert k in b'.pended <==> k in b'.pended - {i}; assert k in b'.stored <==> k in b'.stored - {i}; }
    }
  }

  // ---------------------------------------------------------------------------------------------
  // Whole runs
  // ---------------------------------------------------------------------------------------------

  ghost predicate StepsTo(b: Batch, b': Batch) {
    exists e :: Possible(b, e) && b' == After(b, e)
  }

  lemma StepKeepsBatchInv(b: Batch, b': Batch)
    requires BatchInv(b) && StepsTo(b, b')
    ensures BatchInv(b') && |b'.attempts| == |b.attempts|
  {
    var e :| Possible(b, e) && b' == After(b, e);
    StepKeepsReports(b, e);
    StepKeepsAttempts(b, e);
  }

  ghost predicate IsRun(size: nat, run: seq<Batch>, events: seq<Event>) {
    && |run| == |events| + 1 && run[0] == Begin(size)
    && forall k :: 0 <= k < |events| ==> Possible(run[k], events[k]) && run[k + 1] == After(run[k], events[k])
  }

  lemma {:induction false} RunKeepsBatchInv(size: nat, run: seq<Batch>, events: seq<Event>, k: nat)
    requires IsRun(size, run, events) && k < |run|
    ensures BatchInv(run[k]) && |run[k].attempts| == size
  {
    if k == 0 {
      BeginInv(size);
    } else {
      RunKeepsBatchInv(size, run, events, k - 1);
      assert run[k - 1 + 1] == After(run[k - 1], events[k - 1]);
      assert StepsTo(run[k - 1], run[k]);
      hide After, Possible, BatchInv;
      StepKeepsBatchInv(run[k - 1], run[k]);
    }
  }

  /** Some attempt reported success. */
  ghost predicate SomeSucceeded(b: Batch) {
    exists i :: 0 <= i < |b.attempts| && b.attempts[i].phase == Reported(Success)
  }

  ghost predicate AllReported(b: Batch) {
    forall i :: 0 <= i < |b.attempts| ==> HasReported(b.attempts[i])
  }

  lemma SuccessReported(b: Batch)
    requires ReportsInv(b)
    ensures Success in ReportedCodes(b) <==> SomeSucceeded(b)
  {
    var codes := ReportedCodes(b);
    if Success in codes {
      var j :| 0 <= j < |codes| && codes[j] == Success;
      assert b.attempts[b.order[j]].phase == Reported(Success);
    }
    if SomeSucceeded(b) {
      var i :| 0 <= i < |b.attempts| && b.attempts[i].phase == Reported(Success);
      assert i in b.order;
      var j :| 0 <= j < |b.order| && b.order[j] == i;
      assert codes[j] == Success;
    }
  }

  lemma BatchVerdict(b: Batch)
    requires |b.attempts| > 0 && ReportsInv(b)
    ensures |b.results| <= 1
    ensures b.results == [Success] <==> SomeSucceeded(b)
    ensures AllReported(b) ==> |b.results| == 1
  {
    hide Run, SomeSucceeded;
    var codes := ReportedCodes(b);
    FiresAtMostOnce(OnSuccess, |b.attempts|, codes);
    OnSuccessHeard(|b.attempts|, codes);
    SuccessReported(b);
    CountAll(b.attempts, HasReported);
    if Success in codes { OnSuccessReports(|b.attempts|, codes); }
    if AllReported(b) { OnSuccessVerdict(|b.attempts|, codes); }
  }

  /**
   Batch exactly-once. In every run each connector's race hands on at most one result despite timer
   and connect, and a connector stored in pending_connect_ is there exactly until it reports. The
   batch handler is called at most once, so at most one channel is handed on; at every moment it has
   been called with success iff some attempt has succeeded, and when every attempt has reported it has
   been called.
   */
  lemma BatchExactlyOnce(connectBatchSize: nat, run: seq<Batch>, events: seq<Event>, k: nat)
    requires IsRun(Max(connectBatchSize, 1), run, events) && k < |run|
    ensures |run[k].attempts| == Max(connectBatchSize, 1)
    ensures forall i :: 0 <= i < |run[k].attempts| ==>
              && |run[k].attempts[i].heard| <= 1
              && (i in run[k].pended <==> i in run[k].stored && !HasReported(run[k].attempts[i]))
              && (HasReported(run[k].attempts[i]) ==> run[k].attempts[i].stopped)
    ensures |run[k].results| <= 1
    ensures run[k].results == [Success] <==> SomeSucceeded(run[k])
    ensures AllReported(run[k]) ==> |run[k].results| == 1
  {
    RunKeepsBatchInv(Max(connectBatchSize, 1), run, events, k);
    BatchVerdict(run[k]);
    assert forall i :: 0 <= i < |run[k].attempts| ==> AttemptInv(run[k].attempts[i]);
  }

  // ---------------------------------------------------------------------------------------------
  // Why an attempt reports what it reports
  // ---------------------------------------------------------------------------------------------

  /** Before moment k the resolver answered for connector i, which was stopped by then or not. */
  ghost predicate Resolved(run: seq<Batch>, events: seq<Event>, k: nat, i: nat, ok: bool, stopped: bool)
    requires k <= |run| && k <= |events|
  {
    exists r :: 0 <= r < k && events[r] == Resolve(i, ok)
                && i < |run[r].attempts| && run[r].attempts[i].stopped == stopped
  }

  /** Why a failure was dispatched without a race: the connector was stopped, or its name did not resolve. */
  ghost predicate NoRace(run: seq<Batch>, events: seq<Event>, k: nat, i: nat, ec: Code)
    requires k <= |run| && k <= |events|
  {
    || (ec == ServiceStopped && (Resolved(run, events, k, i, true, true) || Resolved(run, events, k, i, false, true)))
    || (ec == ResolveFailed && Resolved(run, events, k, i, false, false))
  }

  /** Step m is the reason for attempt i to report this code. */
  ghost predicate Reports(run: seq<Batch>, events: seq<Event>, m: nat, i: nat, ec: Code)
    requires m < |run| && m < |events|
  {
    match events[m]
    case Launch(refused, _) => run[m].launched == i && refused == Some(ec)
    case ConnectEnds(j, c) => j == i && c == ec && Resolved(run, events, m, i, true, false)
    case TimerEnds(j, c) =>
      j == i && ec == (if c == Success then ChannelTimeout else c) && Resolved(run, events, m, i, true, false)
    case Dispatch(j) => j == i && NoRace(run, events, m, i, ec)
    case _ => false
  }

  ghost predicate ReportedBy(run: seq<Batch>, events: seq<Event>, k: nat, i: nat, ec: Code)
    requires k <= |run| && k <= |events|
  {
    exists m :: 0 <= m < k && Reports(run, events, m, i, ec)
  }

  /** How attempt i came to be where it is. */
  ghost predicate Origin(run: seq<Batch>, events: seq<Event>, k: nat, i: nat)
    requires k < |run| && k <= |events| && i < |run[k].attempts|
  {
    var a := run[k].attempts[i];
    && (a.phase.Racing? || a.join.count == 1 ==> Resolved(run, events, k, i, true, false))
    && (a.phase.Dispatched? ==> NoRace(run, events, k, i, a.phase.ec))
    && (a.phase.Reported? ==> ReportedBy(run, events, k, i, a.phase.ec))
  }

  lemma OriginKept(run: seq<Batch>, events: seq<Event>, k: nat, i: nat)
    requires 0 < k < |run| && k <= |events| && i < |run[k - 1].attempts| && i < |run[k].attempts|
    requires Origin(run, events, k - 1, i)
    ensures var a := run[k - 1].attempts[i];
            && (a.phase.Racing? || a.join.count == 1 ==> Resolved(run, events, k, i, true, false))
            && (a.phase.Dispatched? ==> NoRace(run, events, k, i, a.phase.ec))
            && (a.phase.Reported? ==> ReportedBy(run, events, k, i, a.phase.ec))
  {
  }

  /** What a step does to its own attempt. */
  lemma OwnAttempt(b: Batch, e: Event)
    requires AttemptsInv(b) && Possible(b, e)
    ensures var i := Touched(b, e); i < |b.attempts| && |After(b, e).attempts| == |b.attempts|
    ensures var a, a' := b.attempts[Touched(b, e)], After(b, e).attempts[Touched(b, e)];
            match e
            case Launch(refused, _) =>
              a'.join == a.join && a'.phase == (match refused case Some(ec) => Reported(ec) case None => Resolving)
            case Resolve(_, ok) =>
              && a'.join == a.join
              && a'.phase == (if a.stopped then Dispatched(ServiceStopped)
                              else if ok then Racing else Dispatched(ResolveFailed))
            case TimerEnds(_, ec) =>
              a'.phase == if HasReported(a) then a.phase else Reported(if ec == Success then ChannelTimeout else ec)
            case ConnectEnds(_, ec) => a'.phase == if HasReported(a) then a.phase else Reported(ec)
            case Dispatch(_) => a'.phase == Reported(a.phase.ec) && a'.join == a.join
            case StopConnector(_) => a'.phase == a.phase && a'.join == a.join
    ensures e.TimerEnds? || e.ConnectEnds? ==>
            b.attempts[Touched(b, e)].phase.Racing? || b.attempts[Touched(b, e)].join.count == 1
  {
    assert AttemptInv(b.attempts[Touched(b, e)]);
  }

  lemma OriginOwn(run: seq<Batch>, events: seq<Event>, k: nat, i: nat)
    requires 0 < k < |run| && k <= |events| && AttemptsInv(run[k - 1]) && Possible(run[k - 1], events[k - 1])
    requires run[k] == After(run[k - 1], events[k - 1]) && i == Touched(run[k - 1], events[k - 1])
    requires i < |run[k - 1].attempts| && i < |run[k].attempts| && Origin(run, events, k - 1, i)
    ensures Origin(run, events, k, i)
  {
    var b, e := run[k - 1], events[k - 1];
    hide After, AttemptsInv, AttemptInv;
    OwnAttempt(b, e);
    OriginKept(run, events, k, i);
    match e
    case Launch(refused, _) => if refused.Some? { assert Reports(run, events, k - 1, i, refused.value); }
    case Resolve(_, ok) => assert Resolved(run, events, k, i, ok, b.attempts[i].stopped);
    case TimerEnds(_, ec) =>
      assert Reports(run, events, k - 1, i, if ec == Success then ChannelTimeout else ec);
    case ConnectEnds(_, ec) => assert Reports(run, events, k - 1, i, ec);
    case Dispatch(_) => assert Reports(run, events, k - 1, i, b.attempts[i].phase.ec);
    case StopConnector(_) =>
  }

  lemma OriginStep(run: seq<Batch>, events: seq<Event>, k: nat, i: nat)
    requires 0 < k < |run| && k <= |events| && BatchInv(run[k - 1]) && Possible(run[k - 1], events[k - 1])
    requires run[k] == After(run[k - 1], events[k - 1])
    requires i < |run[k - 1].attempts| && Origin(run, events, k - 1, i)
    ensures i < |run[k].attempts| && Origin(run, events, k, i)
  {
    var b, e := run[k - 1], events[k - 1];
    assert AttemptsInv(b);
    hide After, Possible, BatchInv, AttemptsInv, AttemptInv, Resolved, NoRace, ReportedBy;
    TouchesOne(b, e);
    OriginKept(run, events, k, i);
    if Touched(b, e) == i { OriginOwn(run, events, k, i); }
  }

  lemma BeginOrigin(size: nat, run: seq<Batch>, events: seq<Event>, i: nat)
    requires |run| > 0 && run[0] == Begin(size) && i < size
    ensures |run[0].attempts| == size && Origin(run, events, 0, i)
  {
  }

  lemma {:induction false} RunOrigin(size: nat, run: seq<Batch>, events: seq<Event>, k: nat, i: nat)
    requires IsRun(size, run, events) && k < |run| && i < size
    ensures |run[k].attempts| == size && Origin(run, events, k, i)
  {
    hide BatchInv, Origin, After, Possible, Begin;
    if k == 0 {
      BeginOrigin(size, run, events, i);
    } else {
      RunOrigin(size, run, events, k - 1, i);
      RunKeepsBatchInv(size, run, events, k - 1);
      RunKeepsBatchInv(size, run, events, k);
      assert run[k - 1 + 1] == After(run[k - 1], events[k - 1]);
      OriginStep(run, events, k, i);
    }
  }

  /**
   Why an attempt reports what it reports, in every run. A report goes back to a refusal before connecting, to
   the end of the connect or the timer of a race, or to a dispatched failure. A race is run only by a connector
   that was not stopped and whose name resolved; service_stopped is dispatched only for a stopped connector and
   resolve_failed only for a name that did not resolve. A success is the success of a socket connect.
   */
  lemma ReportCause(size: nat, run: seq<Batch>, events: seq<Event>, k: nat, i: nat)
    requires IsRun(size, run, events) && k < |run| && i < size
    ensures |run[k].attempts| == size
    ensures run[k].attempts[i].phase.Reported? ==> ReportedBy(run, events, k, i, run[k].attempts[i].phase.ec)
    ensures run[k].attempts[i].phase == Reported(Success) ==>
            exists m :: 0 <= m < k && events[m] == ConnectEnds(i, Success) && Resolved(run, events, m, i, true, false)
  {
    RunOrigin(size, run, events, k, i);
    if run[k].attempts[i].phase == Reported(Success) {
      var m :| 0 <= m < k && Reports(run, events, m, i, Success);
      assert Possible(run[m], events[m]);
    }
  }

  /** A step that starts or ends no connect of attempt i leaves its connect as it is. */
  lemma ConnectStays(b: Batch, e: Event, i: nat)
    requires BatchInv(b) && Possible(b, e) && i < |b.attempts|
    ensures i < |After(b, e).attempts|
    ensures b.attempts[i].connecting && !(e.ConnectEnds? && e.i == i) ==> After(b, e).attempts[i].connecting
    ensures e.Resolve? && e.i == i && !b.attempts[i].stopped ==> (After(b, e).attempts[i].connecting <==> e.ok)
  {
    assert AttemptInv(b.attempts[i]);
    assert AttemptInv(b.attempts[Touched(b, e)]);
  }

  /** A name that resolved for a connector not stopped is connected to: the connect is outstanding until it ends. */
  lemma {:induction false} ResolvedConnects(size: nat, run: seq<Batch>, events: seq<Event>, j: nat, k: nat, i: nat)
    requires IsRun(size, run, events) && j < k < |run| && i < size
    requires events[j] == Resolve(i, true) && i < |run[j].attempts| && !run[j].attempts[i].stopped
    ensures |run[k].attempts| == size
    ensures run[k].attempts[i].connecting || exists m :: j < m < k && events[m].ConnectEnds? && events[m].i == i
    decreases k
  {
    hide After, Possible, BatchInv, Begin;
    RunKeepsBatchInv(size, run, events, k);
    RunKeepsBatchInv(size, run, events, k - 1);
    assert run[k - 1 + 1] == After(run[k - 1], events[k - 1]);
    ConnectStays(run[k - 1], events[k - 1], i);
    if j < k - 1 { ResolvedConnects(size, run, events, j, k - 1, i); }
  }

  // ---------------------------------------------------------------------------------------------
  // Stops, timers and the pending collection
  // ---------------------------------------------------------------------------------------------

  ghost predicate StopCame(events: seq<Event>, k: nat, i: nat)
    requires k <= |events|
  {
    exists j :: 0 <= j < k && events[j] == StopConnector(i)
  }

  /** The connector of attempt i was stored when it was launched. */
  ghost predicate StoreCame(run: seq<Batch>, events: seq<Event>, k: nat, i: nat)
    requires k <= |events| && k <= |run|
  {
    exists j :: 0 <= j < k && events[j] == Launch(None, true) && run[j].launched == i
  }

  lemma StepFlags(b: Batch, e: Event, i: nat)
    requires AttemptsInv(b) && Possible(b, e) && i < |b.attempts|
    requires b.attempts[i].timer <==> b.attempts[i].phase.Racing? && !b.attempts[i].stopped
    ensures i < |After(b, e).attempts|
    ensures var a, a' := b.attempts[i], After(b, e).attempts[i];
            && (a'.stopped <==> a.stopped || e == StopConnector(i) || (HasReported(a') && !HasReported(a)))
            && (HasReported(a) ==> HasReported(a'))
            && (a'.timer <==> a'.phase.Racing? && !a'.stopped)
            && (i in After(b, e).stored <==> i in b.stored || (e == Launch(None, true) && b.launched == i))
  {
    assert AttemptInv(b.attempts[i]);
  }

  ghost predicate FlagsHold(run: seq<Batch>, events: seq<Event>, k: nat, i: nat)
    requires k < |run| && k <= |events| && i < |run[k].attempts|
  {
    var a := run[k].attempts[i];
    && (a.stopped <==> StopCame(events, k, i) || HasReported(a))
    && (a.timer <==> a.phase.Racing? && !a.stopped)
    && (i in run[k].stored <==> StoreCame(run, events, k, i))
  }

  lemma BeginFlags(size: nat, run: seq<Batch>, events: seq<Event>, i: nat)
    requires |run| > 0 && run[0] == Begin(size) && i < size
    ensures |run[0].attempts| == size && FlagsHold(run, events, 0, i)
  {
  }

  lemma CameOn(run: seq<Batch>, events: seq<Event>, k: nat, i: nat)
    requires 0 < k <= |run| && k <= |events|
    ensures StopCame(events, k, i) <==> StopCame(events, k - 1, i) || events[k - 1] == StopConnector(i)
    ensures StoreCame(run, events, k, i) <==>
            StoreCame(run, events, k - 1, i) || (events[k - 1] == Launch(None, true) && run[k - 1].launched == i)
  {
  }

  /**
   In every run a connector is stopped iff a stop came for it or it has reported; its deadline is armed exactly
   while it races and is not stopped; and it was stored in pending_connect_ iff that was done at its launch.
   */
  lemma {:induction false} ConnectorFlags(size: nat, run: seq<Batch>, events: seq<Event>, k: nat, i: nat)
    requires IsRun(size, run, events) && k < |run| && i < size
    ensures |run[k].attempts| == size && FlagsHold(run, events, k, i)
  {
    hide After, Possible, BatchInv, AttemptsInv, Begin, StopCame, StoreCame;
    if k == 0 {
      BeginFlags(size, run, events, i);
    } else {
      ConnectorFlags(size, run, events, k - 1, i);
      RunKeepsBatchInv(size, run, events, k - 1);
      RunKeepsBatchInv(size, run, events, k);
      AttemptsOf(run[k - 1]);
      StepFlags(run[k - 1], events[k - 1], i);
      CameOn(run, events, k, i);
      assert run[k - 1 + 1] == After(run[k - 1], events[k - 1]);
    }
  }

  lemma AttemptsOf(b: Batch)
    requires BatchInv(b)
    ensures AttemptsInv(b)
  {
  }
}
