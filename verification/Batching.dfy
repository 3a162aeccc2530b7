/**
 The network with every connect batch in full detail (Connecting) refines the slot machine (Network), which
 only counts reports: what happens between an attempt's launch and its report is invisible to the session,
 and every call of a batch handler is a report of the slot machine.
 */
module Batching {
  import opened Codes
  import opened Counting
  import opened Synchronizer
  import R = Registration
  import C = Connecting
  import N = Network

  /** A world, and the detail of each of its batches. */
  datatype Detailed = Detailed(world: N.World, batches: seq<C.Batch>)

  function Begin(limits: N.Limits): Detailed {
    Detailed(N.Begin(limits), [])
  }

  datatype Event =
    | Outer(e: N.Event)                            // any step of the network but a report
    | Inner(n: nat, step: C.Event, authority: nat) // a step inside batch n

  predicate Possible(d: Detailed, e: Event) {
    match e
    case Outer(step) => !step.Report? && N.Possible(d.world, step)
    case Inner(n, step, _) => n < |d.batches| == |d.world.batches| && C.Possible(d.batches[n], step)
  }

  /** What the slot machine sees of a batch: its join, and the attempts that have not reported. */
  function Seen(b: C.Batch): N.Batch {
    N.Batch(b.join, if |b.order| <= |b.attempts| then |b.attempts| - |b.order| else 0)
  }

  /** The calls of the batch handler made by a step. */
  function NewCalls(b: C.Batch, b': C.Batch): seq<Code> {
    if |b.results| <= |b'.results| then b'.results[|b.results|..] else []
  }

  /** A step of the network may start a batch; a step inside a batch may call the session's handler. */
  function After(d: Detailed, e: Event): Detailed
    requires Possible(d, e)
  {
    match e
    case Outer(step) =>
      var w := N.After(d.world, step);
      Detailed(w, d.batches + if |w.batches| > |d.world.batches| then [C.Begin(N.BatchSize(w.limits))] else [])
    case Inner(n, step, authority) =>
      var b := C.After(d.batches[n], step);
      Detailed(N.Connected(d.world.(batches := d.world.batches[n := Seen(b)]), NewCalls(d.batches[n], b), authority),
               d.batches[n := b])
  }

  /** A step of the detailed batch is invisible, or it is one report to the join. */
  lemma Visible(b: C.Batch, e: C.Event) returns (reported: Option<Code>)
    requires C.BatchInv(b) && C.Possible(b, e)
    ensures |b.order| <= |b.attempts| == |C.After(b, e).attempts|
    ensures reported.None? ==>
            C.After(b, e).join == b.join && C.After(b, e).order == b.order && C.After(b, e).results == b.results
    ensures reported.Some? ==>
            && |b.order| < |b.attempts| && |C.After(b, e).order| == |b.order| + 1
            && C.After(b, e).join == Signal(b.join, reported.value).0
            && C.After(b, e).results == b.results + Signal(b.join, reported.value).1
  {
    CountAll(b.attempts, C.HasReported);
    var i := C.Touched(b, e);
    assert C.AttemptInv(b.attempts[i]);
    assert C.OrderInv(b);
    hide C.OrderInv, C.ReportsInv, C.AttemptsInv;
    reported := match e
      case Launch(refused, _) => refused
      case Resolve(_, _) => None
      case TimerEnds(i, ec) => Some(if ec != Success then ec else ChannelTimeout)
      case ConnectEnds(i, ec) => if b.attempts[i].join.count == 0 then Some(ec) else None
      case Dispatch(i) => Some(b.attempts[i].phase.ec)
      case StopConnector(_) => None;
    if reported.Some? {
      assert !C.HasReported(b.attempts[i]);
    }
  }

  lemma Observed(b: C.Batch, b': C.Batch) returns (reported: Option<Code>)
    requires C.BatchInv(b) && C.StepsTo(b, b') && |b.attempts| > 0
    ensures |b.order| <= |b.attempts| == |b'.attempts| && |b'.results| <= 1
    ensures reported.None? ==> b'.join == b.join && b'.order == b.order && b'.results == b.results
    ensures reported.Some? ==>
            && |b.order| < |b.attempts| && |b'.order| == |b.order| + 1
            && b'.join == Signal(b.join, reported.value).0
            && b'.results == b.results + Signal(b.join, reported.value).1
  {
    C.StepKeepsBatchInv(b, b');
    C.BatchVerdict(b');
    var e :| C.Possible(b, e) && b' == C.After(b, e);
    hide C.After, C.Possible, C.BatchInv;
    reported := Visible(b, e);
  }

  ghost predicate BatchMatches(b: C.Batch, seen: N.Batch) {
    C.BatchInv(b) && |b.attempts| > 0 && seen == Seen(b)
  }

  /** The world is one the slot machine may be in, and each of its batches is seen as it is. */
  ghost predicate DetailInv(d: Detailed) {
    && N.WorldInv(d.world)
    && |d.batches| == |d.world.batches|
    && forall n :: 0 <= n < |d.batches| ==> BatchMatches(d.batches[n], d.world.batches[n])
  }

  ghost predicate StuttersTo(w: N.World, w': N.World) {
    w' == w || N.StepsTo(w, w')
  }

  lemma BatchBegins(limits: N.Limits)
    ensures BatchMatches(C.Begin(N.BatchSize(limits)), N.NewBatch(limits))
  {
    C.BeginInv(N.BatchSize(limits));
  }

  /** A step of the network other than a report leaves the batches alone, or starts one. */
  lemma OuterBatches(w: N.World, e: N.Event)
    requires N.Possible(w, e) && !e.Report?
    ensures N.After(w, e).limits == w.limits
    ensures N.After(w, e).batches == w.batches || N.After(w, e).batches == w.batches + [N.NewBatch(w.limits)]
  {
  }

  lemma OuterRefines(d: Detailed, e: Event)
    requires DetailInv(d) && Possible(d, e) && e.Outer?
    ensures DetailInv(After(d, e)) && StuttersTo(d.world, After(d, e).world)
  {
    hide N.WorldInv, N.After, N.StepsTo, N.Possible, BatchMatches, N.NewBatch, N.BatchSize, C.Begin;
    N.StepKeepsWorldInv(d.world, e.e);
    OuterBatches(d.world, e.e);
    BatchBegins(d.world.limits);
    N.Takes(d.world, e.e, N.After(d.world, e.e));
  }

  /** What a report does in the slot machine. */
  lemma ReportIs(w: N.World, n: nat, ec: Code, authority: nat)
    requires N.Ids(w) && n < |w.batches| && w.batches[n].outstanding > 0
    ensures N.Possible(w, N.Report(n, ec, authority))
    ensures var seen := N.Batch(Signal(w.batches[n].join, ec).0, w.batches[n].outstanding - 1);
            N.After(w, N.Report(n, ec, authority)) ==
            N.Connected(w.(batches := w.batches[n := seen]), Signal(w.batches[n].join, ec).1, authority)
  {
  }

  lemma NothingConnected(w: N.World, authority: nat)
    ensures N.Connected(w, [], authority) == w
  {
  }

  /** A step inside a batch, as the slot machine sees it. */
  lemma SeenStep(b: C.Batch, b': C.Batch) returns (reported: Option<Code>)
    requires C.StepsTo(b, b') && C.BatchInv(b) && |b.attempts| > 0
    ensures C.BatchInv(b') && |b'.attempts| > 0
    ensures match reported
            case None => Seen(b') == Seen(b) && NewCalls(b, b') == []
            case Some(ec) =>
              && Seen(b).outstanding > 0
              && Seen(b') == N.Batch(Signal(Seen(b).join, ec).0, Seen(b).outstanding - 1)
              && NewCalls(b, b') == Signal(Seen(b).join, ec).1
  {
    C.StepKeepsBatchInv(b, b');
    hide C.BatchInv, C.StepsTo, Signal;
    reported := Observed(b, b');
    if reported.Some? {
      assert (b.results + Signal(b.join, reported.value).1)[|b.results|..] == Signal(b.join, reported.value).1;
    }
  }

  /** A step inside a batch changes the world as a report does, or not at all. */
  lemma InnerWorld(w: N.World, n: nat, b: C.Batch, b': C.Batch, authority: nat) returns (reported: Option<Code>)
    requires N.Ids(w) && n < |w.batches| && C.StepsTo(b, b') && BatchMatches(b, w.batches[n])
    ensures BatchMatches(b', Seen(b'))
    ensures var w' := N.Connected(w.(batches := w.batches[n := Seen(b')]), NewCalls(b, b'), authority);
            match reported
            case None => w' == w
            case Some(ec) =>
              N.Possible(w, N.Report(n, ec, authority)) && w' == N.After(w, N.Report(n, ec, authority))
  {
    hide C.BatchInv, C.StepsTo, N.After, N.Possible, N.Connected, N.Ids, Signal, Seen, NewCalls;
    reported := SeenStep(b, b');
    if reported.None? {
      assert w.batches[n := Seen(b')] == w.batches;
      NothingConnected(w, authority);
    } else {
      ReportIs(w, n, reported.value, authority);
    }
  }

  lemma InnerRefines(d: Detailed, e: Event)
    requires DetailInv(d) && Possible(d, e) && e.Inner?
    ensures DetailInv(After(d, e)) && StuttersTo(d.world, After(d, e).world)
  {
    var b := d.batches[e.n];
    var b' := C.After(b, e.step);
    assert C.StepsTo(b, b');
    assert BatchMatches(b, d.world.batches[e.n]) && N.Ids(d.world);
    hide N.WorldInv, N.After, N.StepsTo, N.Possible, BatchMatches, C.After, C.Possible, C.StepsTo;
    var reported := InnerWorld(d.world, e.n, b, b', e.authority);
    var w' := After(d, e).world;
    if reported.Some? {
      N.StepKeepsWorldInv(d.world, N.Report(e.n, reported.value, e.authority));
      N.Takes(d.world, N.Report(e.n, reported.value, e.authority), w');
    }
    ConnectedBatches(d.world.(batches := d.world.batches[e.n := Seen(b')]), NewCalls(b, b'), e.authority);
  }

  lemma ConnectedBatches(w: N.World, fired: seq<Code>, authority: nat)
    ensures N.Connected(w, fired, authority).batches == w.batches
  {
  }

  /** Every step of the detailed network is no step, or one step, of the slot machine. */
  lemma StepRefines(d: Detailed, e: Event)
    requires DetailInv(d) && Possible(d, e)
    ensures DetailInv(After(d, e)) && StuttersTo(d.world, After(d, e).world)
  {
    match e
    case Outer(_) => OuterRefines(d, e);
    case Inner(_, _, _) => InnerRefines(d, e);
  }

  ghost predicate IsRun(limits: N.Limits, run: seq<Detailed>, events: seq<Event>) {
    && |run| == |events| + 1 && run[0] == Begin(limits)
    && forall k :: 0 <= k < |events| ==> Possible(run[k], events[k]) && run[k + 1] == After(run[k], events[k])
  }

  lemma BeginInv(limits: N.Limits)
    ensures DetailInv(Begin(limits))
  {
    N.BeginInv(limits);
  }

  lemma {:induction false} RunKeepsDetailInv(limits: N.Limits, run: seq<Detailed>, events: seq<Event>, k: nat)
    requires IsRun(limits, run, events) && k < |run|
    ensures DetailInv(run[k])
  {
    hide DetailInv, After, Possible, StuttersTo;
    if k == 0 {
      BeginInv(limits);
    } else {
      RunKeepsDetailInv(limits, run, events, k - 1);
      StepRefines(run[k - 1], events[k - 1]);
      assert run[k - 1 + 1] == After(run[k - 1], events[k - 1]);
    }
  }

  /**
   Refinement over whole runs. In every run of the network with its batches in full detail, however batches,
   channels and collections interleave, the worlds are those of a run of the slot machine that at some steps
   stands still; and every batch is seen by the slot machine as it is.
   */
  lemma BatchRefines(limits: N.Limits, run: seq<Detailed>, events: seq<Event>, k: nat)
    requires IsRun(limits, run, events) && k < |events|
    ensures run[0].world == N.Begin(limits) && StuttersTo(run[k].world, run[k + 1].world)
    ensures DetailInv(run[k + 1])
  {
    hide DetailInv, After, Possible, StuttersTo;
    RunKeepsDetailInv(limits, run, events, k);
    StepRefines(run[k], events[k]);
  }

  lemma StutterKeeps(w: N.World, w': N.World)
    requires N.WorldInv(w) && StuttersTo(w, w')
    ensures w'.limits == w.limits && N.Slots(w') <= N.Slots(w)
  {
    if w' != w { N.StepFacts(w, w'); }
  }

  lemma {:induction false} RunKeepsLimits(limits: N.Limits, run: seq<Detailed>, events: seq<Event>, k: nat)
    requires IsRun(limits, run, events) && k < |run|
    ensures run[k].world.limits == limits
  {
    hide DetailInv, After, Possible, StuttersTo;
    if k > 0 {
      RunKeepsLimits(limits, run, events, k - 1);
      RunKeepsDetailInv(limits, run, events, k - 1);
      BatchRefines(limits, run, events, k - 1);
      assert N.WorldInv(run[k - 1].world) by { WorldOf(run[k - 1]); }
      StutterKeeps(run[k - 1].world, run[k - 1 + 1].world);
    }
  }

  lemma WorldOf(d: Detailed)
    requires DetailInv(d)
    ensures N.WorldInv(d.world)
  {
  }

  /** So the detailed network conserves its slots too, and each of its batches meets its verdict. */
  lemma DetailedConservation(limits: N.Limits, run: seq<Detailed>, events: seq<Event>, k: nat)
    requires IsRun(limits, run, events) && k < |run|
    ensures var w := run[k].world;
            && (!w.stopped ==> N.Slots(w) == limits.outbound)
            && N.Ids(w) && |N.OpenOutgoing(w)| <= limits.outbound
    ensures forall n :: 0 <= n < |run[k].batches| ==>
              var b := run[k].batches[n];
              |b.results| <= 1 && (b.results == [Success] <==> C.SomeSucceeded(b))
              && (C.AllReported(b) ==> b.results != [])
  {
    RunKeepsDetailInv(limits, run, events, k);
    RunKeepsLimits(limits, run, events, k);
    WorldOf(run[k]);
    N.WorldSlots(run[k].world);
    hide N.WorldInv, N.Slots, C.SomeSucceeded, C.AllReported;
    forall n | 0 <= n < |run[k].batches|
      ensures var b := run[k].batches[n];
              |b.results| <= 1 && (b.results == [Success] <==> C.SomeSucceeded(b))
              && (C.AllReported(b) ==> b.results != [])
    {
      assert BatchMatches(run[k].batches[n], run[k].world.batches[n]);
      C.BatchVerdict(run[k].batches[n]);
    }
  }

  // ---------------------------------------------------------------------------------------------
  // What batches are for
  // ---------------------------------------------------------------------------------------------

  predicate Won(b: C.Batch) {
    b.results == [Success]
  }

  predicate Lost(b: C.Batch) {
    b.results != [] && b.results != [Success]
  }

  predicate IsOutgoing(c: R.Chan) {
    c.kind.Outgoing?
  }

  predicate EndsDelay(e: Event) {
    e.Outer? && e.e.DelayEnds?
  }

  /** Outbound channels are the won batches; delayed cycles and ended delays are the lost ones. */
  ghost predicate Tally(d: Detailed, ended: nat) {
    && Count(d.world.chans, IsOutgoing) == Count(d.batches, Won)
    && d.world.delayed + ended == Count(d.batches, Lost)
  }

  /** A step of the network other than a report brings no outbound channel, and delays no cycle. */
  lemma OuterTally(w: N.World, e: N.Event)
    requires N.Possible(w, e) && !e.Report?
    ensures Count(N.After(w, e).chans, IsOutgoing) == Count(w.chans, IsOutgoing)
    ensures N.After(w, e).delayed + (if e.DelayEnds? then 1 else 0) == w.delayed
  {
    hide Count;
    match e
    case Arrive(kind, authority) => CountAppend(w.chans, R.NewChan(kind, authority), IsOutgoing);
    case ChanStep(i, s, _) =>
      CountUpdate(w.chans, i, R.Next(w.chans[i], s), IsOutgoing);
      assert R.Next(w.chans[i], s).kind == w.chans[i].kind;
    case _ =>
  }

  lemma OuterTallies(d: Detailed, e: Event, ended: nat)
    requires Tally(d, ended) && Possible(d, e) && e.Outer?
    ensures Tally(After(d, e), ended + if EndsDelay(e) then 1 else 0)
  {
    hide Count, N.After, N.Possible;
    OuterTally(d.world, e.e);
    var begun := C.Begin(N.BatchSize(N.After(d.world, e.e).limits));
    CountAppend(d.batches, begun, Won);
    CountAppend(d.batches, begun, Lost);
    assert d.batches + [] == d.batches;
  }

  /** A step inside a batch that calls the handler wins or loses the batch; another leaves it as it is. */
  lemma CallsDecide(b: C.Batch, b': C.Batch)
    requires C.StepsTo(b, b') && C.BatchInv(b) && |b.attempts| > 0
    ensures NewCalls(b, b') == [] ==> b'.results == b.results
    ensures NewCalls(b, b') != [] ==> b.results == [] && b'.results == NewCalls(b, b') && |b'.results| == 1
  {
    var reported := Observed(b, b');
    hide C.BatchInv, C.StepsTo;
  }

  /** What the calls of a batch handler bring. */
  lemma ConnectedTally(w: N.World, fired: seq<Code>, authority: nat)
    requires |fired| <= 1
    ensures Count(N.Connected(w, fired, authority).chans, IsOutgoing) ==
            Count(w.chans, IsOutgoing) + if fired == [Success] then 1 else 0
    ensures N.Connected(w, fired, authority).delayed == w.delayed + if fired !in {[], [Success]} then 1 else 0
  {
    CountAppend(w.chans, R.NewChan(R.Outgoing, authority), IsOutgoing);
  }

  /** The tallies of the batches after a step inside one of them. */
  lemma BatchTallies(batches: seq<C.Batch>, n: nat, b': C.Batch)
    requires n < |batches| && C.StepsTo(batches[n], b') && C.BatchInv(batches[n]) && |batches[n].attempts| > 0
    ensures var calls := NewCalls(batches[n], b');
            && |calls| <= 1
            && Count(batches[n := b'], Won) == Count(batches, Won) + (if calls == [Success] then 1 else 0)
            && Count(batches[n := b'], Lost) == Count(batches, Lost) + if calls !in {[], [Success]} then 1 else 0
  {
    hide Count, C.StepsTo, C.BatchInv;
    CallsDecide(batches[n], b');
    CountUpdate(batches, n, b', Won);
    CountUpdate(batches, n, b', Lost);
  }

  /** A step inside batch n, whose handler calls bring `calls`, keeps the tally. */
  lemma InnerTallies(d: Detailed, n: nat, b': C.Batch, authority: nat, ended: nat)
    requires Tally(d, ended) && n < |d.batches| == |d.world.batches|
    requires var calls := NewCalls(d.batches[n], b');
             && |calls| <= 1
             && Count(d.batches[n := b'], Won) == Count(d.batches, Won) + (if calls == [Success] then 1 else 0)
             && Count(d.batches[n := b'], Lost) == Count(d.batches, Lost) + if calls !in {[], [Success]} then 1 else 0
    ensures var w := d.world.(batches := d.world.batches[n := Seen(b')]);
            Tally(Detailed(N.Connected(w, NewCalls(d.batches[n], b'), authority), d.batches[n := b']), ended)
  {
    hide Count, N.Connected, NewCalls, Seen, Won, Lost;
    ConnectedTally(d.world.(batches := d.world.batches[n := Seen(b')]), NewCalls(d.batches[n], b'), authority);
  }

  /** The calls of a step inside a batch of a run. */
  lemma InnerCalls(d: Detailed, n: nat, step: C.Event)
    requires DetailInv(d) && n < |d.batches| && C.Possible(d.batches[n], step)
    ensures C.StepsTo(d.batches[n], C.After(d.batches[n], step))
    ensures C.BatchInv(d.batches[n]) && |d.batches[n].attempts| > 0
  {
    assert BatchMatches(d.batches[n], d.world.batches[n]);
  }

  lemma TallyStep(d: Detailed, e: Event, ended: nat)
    requires DetailInv(d) && Possible(d, e)
    ensures Tally(d, ended) ==> Tally(After(d, e), ended + if EndsDelay(e) then 1 else 0)
  {
    hide DetailInv, Tally, C.Possible, C.After, C.StepsTo, C.BatchInv, N.Possible, N.After, Count, Seen, NewCalls;
    if Tally(d, ended) {
      match e
      case Outer(_) => OuterTallies(d, e, ended);
      case Inner(n, step, authority) =>
        InnerCalls(d, n, step);
        BatchTallies(d.batches, n, C.After(d.batches[n], step));
        InnerTallies(d, n, C.After(d.batches[n], step), authority, ended);
    }
  }

  lemma BeginTallies(limits: N.Limits)
    ensures Tally(Begin(limits), Count<Event>([], EndsDelay))
  {
  }

  lemma {:induction false} RunTallies(limits: N.Limits, run: seq<Detailed>, events: seq<Event>, k: nat)
    requires IsRun(limits, run, events) && k < |run|
    ensures Tally(run[k], Count(events[..k], EndsDelay))
  {
    hide Count, Possible, After, DetailInv, Begin, Tally;
    if k == 0 {
      BeginTallies(limits);
      assert events[..0] == [];
    } else {
      RunTallies(limits, run, events, k - 1);
      RunKeepsDetailInv(limits, run, events, k - 1);
      CountAppend(events[..k - 1], events[k - 1], EndsDelay);
      assert events[..k] == events[..k - 1] + [events[k - 1]];
      assert run[k - 1 + 1] == After(run[k - 1], events[k - 1]);
      TallyStep(run[k - 1], events[k - 1], Count(events[..k - 1], EndsDelay));
    }
  }

  /**
   What becomes of a batch, in every run of the detailed network: the outbound channels ever registered are exactly
   as many as the batches that succeeded, and the cycles delayed, now or before, as the batches that failed.
   */
  lemma BatchesTally(limits: N.Limits, run: seq<Detailed>, events: seq<Event>, k: nat)
    requires IsRun(limits, run, events) && k < |run|
    ensures Count(run[k].world.chans, IsOutgoing) == Count(run[k].batches, Won)
    ensures run[k].world.delayed + Count(events[..k], EndsDelay) == Count(run[k].batches, Lost)
  {
    RunTallies(limits, run, events, k);
  }

  ghost predicate Sized(d: Detailed, size: nat) {
    forall n :: 0 <= n < |d.batches| ==> |d.batches[n].attempts| == size
  }

  /** An attempt count is kept by every step inside a batch, and a new batch has its full number. */
  lemma InnerSize(b: C.Batch, step: C.Event)
    requires C.AttemptsInv(b) && C.Possible(b, step)
    ensures |C.After(b, step).attempts| == |b.attempts|
  {
    C.StepKeepsAttempts(b, step);
  }

  lemma SizeStep(d: Detailed, e: Event, size: nat)
    requires DetailInv(d) && Possible(d, e)
    ensures size == Max(d.world.limits.batch, 1) && Sized(d, size) ==> Sized(After(d, e), size)
  {
    match e
    case Outer(step) => OuterBatches(d.world, step);
    case Inner(n, step, _) =>
      assert BatchMatches(d.batches[n], d.world.batches[n]);
      InnerSize(d.batches[n], step);
  }

  lemma BeginSized(limits: N.Limits, size: nat)
    ensures Sized(Begin(limits), size)
  {
  }

  /** In every run every batch makes connect_batch_size attempts, and one if that is zero. */
  lemma {:induction false} BatchSizes(limits: N.Limits, run: seq<Detailed>, events: seq<Event>, k: nat)
    requires IsRun(limits, run, events) && k < |run|
    ensures Sized(run[k], Max(limits.batch, 1))
  {
    hide Possible, After, DetailInv, Sized, Begin;
    if k == 0 {
      BeginSized(limits, Max(limits.batch, 1));
    } else {
      BatchSizes(limits, run, events, k - 1);
      RunKeepsDetailInv(limits, run, events, k - 1);
      RunKeepsLimits(limits, run, events, k - 1);
      SizeStep(run[k - 1], events[k - 1], Max(limits.batch, 1));
      assert run[k - 1 + 1] == After(run[k - 1], events[k - 1]);
    }
  }
}
