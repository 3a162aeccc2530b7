/**
 Seeding always ends. A seed protocol that has not completed is still starting, or its timer is armed, or a
 failing call is on its way to its join, and the steps it can take are bounded; so every chain of the seed
 session reports, whatever connecting and registering answer, and the start handler is called.
 */
module SeedProgress {
  import opened Codes
  import opened Counting
  import opened Events
  import opened SeedProtocol
  import S = Seeding

  // ---------------------------------------------------------------------------------------------
  // One seed protocol
  // ---------------------------------------------------------------------------------------------

  /** While nothing has completed: a cleared handler or a spent timer has left a failing call behind. */
  ghost predicate Ending(p: Seed) {
    p.core.completions == [] ==>
      && (p.boot >= 1 && !p.core.handler ==> FailureComing(p.core))
      && (p.boot >= 3 && !p.owed.timer ==> FailureComing(p.core))
  }

  lemma StepKeepsComing(p: Seed, e: Event, i: nat)
    requires CoreInv(p.core, 3) && Enabled(p, e) && Reaches(p.core, i)
    ensures CoreNext(p, e).completions != [] || FailureComing(CoreNext(p, e))
  {
    hide CoreInv;
    var c := p.core;
    assert FailureComing(c) && Reaches(c.(handler := true), i);
    match Posted(p, e)
    case Some(call) => ComingKept(c, i, 0, call.src, call.ec);
    case None =>
      match e
      case LoadHandler(j) => ComingKept(c, i, j, StopEvent, Success);
      case CheckHandler(j) => CheckComes(c, i, j);
      case InvokeHandler(j) => InvokeComes(c, 3, i, j);
      case _ =>
  }

  /** How a step can clear the handler or spend the timer. */
  lemma LastsUntil(p: Seed, e: Event)
    requires Enabled(p, e)
    ensures p.core.handler && !CoreNext(p, e).handler ==> e.CheckHandler? && IsStop(p.core.calls[e.i].ec)
    ensures p.boot == 0 && e.Boot? ==> CoreNext(p, e).handler
    ensures p.boot < 3 && e.Boot? && p.boot == 2 && !OwedNext(p, e).timer ==> !p.core.handler
    ensures p.owed.timer && !OwedNext(p, e).timer ==>
            e.TimerFires? || (e.InvokeHandler? && p.core.calls[e.i].ec != Success) || (e.Boot? && p.boot == 2)
  {
  }

  lemma StepKeepsEnding(p: Seed, e: Event)
    requires SeedInv(p) && Ending(p) && Enabled(p, e)
    ensures Ending(Next(p, e))
  {
    var q := Next(p, e);
    StepKeepsInv(p, e);
    LastsUntil(p, e);
    if q.core.completions == [] && q.boot >= 1 && (!q.core.handler || (q.boot >= 3 && !q.owed.timer)) {
      hide SeedInv, Ending;
      Coming(p, e);
    }
  }

  lemma Coming(p: Seed, e: Event)
    requires SeedInv(p) && Ending(p) && Enabled(p, e) && p.core.completions == []
    requires CoreNext(p, e).completions == []
    requires Next(p, e).boot >= 1 && (!CoreNext(p, e).handler || (Next(p, e).boot >= 3 && !OwedNext(p, e).timer))
    ensures FailureComing(CoreNext(p, e))
  {
    LastsUntil(p, e);
    assert CoreInv(p.core, 3);
    hide CoreInv, SeedInv;
    if i: nat :| Reaches(p.core, i) {
      StepKeepsComing(p, e, i);
    } else if e.TimerFires? {
      assert Reaches(CoreNext(p, e), |p.core.calls|);
    } else if e.CheckHandler? {
      CheckComes(p.core, 0, e.i);
    } else {
      FailureCompletes(p.core, 3, e.i);
    }
  }

  /** The protocol's own steps: none of the peer's, the socket's or another thread's. */
  predicate Own(e: Event) {
    e.Boot? || e.TimerFires? || e.LoadHandler? || e.CheckHandler? || e.InvokeHandler?
  }

  /** A seed protocol that has not completed has a step of its own to take. */
  lemma Due(p: Seed) returns (e: Event)
    requires SeedInv(p) && Ending(p) && p.core.completions == []
    ensures Own(e) && Enabled(p, e)
  {
    if p.boot < BOOTED {
      e := Boot;
    } else if i: nat :| Reaches(p.core, i) {
      e := match p.core.calls[i].phase
        case Loading => LoadHandler(i)
        case Checking => CheckHandler(i)
        case _ => InvokeHandler(i);
    } else {
      e := TimerFires;
    }
  }

  /** Steps of its own a protocol may still take: the start sequence, its timer, and five calls of three steps. */
  function Work(p: Seed): int {
    BOOTED - p.boot + (if Live(p, TimerEvent) then 1 else 0) + CallsWork(p.core.calls) + 3 * (5 - |p.core.calls|)
  }

  lemma CoreWork(p: Seed, e: Event)
    requires Enabled(p, e)
    ensures var calls, calls' := p.core.calls, CoreNext(p, e).calls;
            CallsWork(calls') - 3 * |calls'| <=
            CallsWork(calls) - 3 * |calls| - if e.LoadHandler? || e.CheckHandler? || e.InvokeHandler? then 1 else 0
  {
    hide CallsWork;
    var c := p.core;
    match Posted(p, e)
    case Some(call) => CoreWorks(c, 0, call.src, call.ec);
    case None =>
      match e
      case LoadHandler(i) => CoreWorks(c, i, StopEvent, Success);
      case CheckHandler(i) => CoreWorks(c, i, StopEvent, Success);
      case InvokeHandler(i) => CoreWorks(c, i, StopEvent, Success);
      case _ =>
  }

  /** A step of the protocol's own uses up work, and no step adds any. */
  lemma StepWorks(p: Seed, e: Event)
    requires SeedInv(p) && Enabled(p, e)
    ensures Work(Next(p, e)) <= Work(p) - if Own(e) then 1 else 0
  {
    LiveStep(p, e);
    CoreWork(p, e);
    assert BootOrder(p);
    hide SeedInv, CallsWork, CoreNext;
  }

  lemma WorkIsLeft(p: Seed)
    requires SeedInv(p)
    ensures Work(p) >= 0
  {
    var all := {OwnAddressEvent, GetAddressEvent, StoreEvent, TimerEvent, StopEvent};
    forall src: Source ensures src in all {
      match src
      case OwnAddressEvent => case GetAddressEvent => case StoreEvent => case TimerEvent => case StopEvent =>
    }
    DistinctBound(Sources(p.core), all);
  }

  // ---------------------------------------------------------------------------------------------
  // The seed session
  // ---------------------------------------------------------------------------------------------

  /** What connecting to each seed and registering its channel answer. */
  datatype Answers = Answers(connect: nat -> Code, blacklisted: nat -> bool, start: nat -> Code)

  /** The session's own steps, given the answers: nobody stops it or touches the pool. */
  predicate SessionOwn(e: S.Event, a: Answers) {
    match e
    case StartSeed => true
    case Connected(i, ec, blacklisted) => ec == a.connect(i) && blacklisted == a.blacklisted(i)
    case Started(i, ec) => ec == a.start(i)
    case ProtocolStep(_, step) => Own(step)
    case PoolChanges(_) => false
    case SessionStops => false
  }

  ghost predicate OwnStep(s: S.Session, a: Answers, s': S.Session) {
    exists e :: SessionOwn(e, a) && S.Possible(s, e) && s' == S.After(s, e)
  }

  ghost predicate Path(s: S.Session, a: Answers, path: seq<S.Session>) {
    && |path| > 0 && path[0] == s
    && forall k :: 0 <= k < |path| - 1 ==> OwnStep(path[k], a, path[k + 1])
  }

  lemma PathVia(s: S.Session, a: Answers, e: S.Event, path: seq<S.Session>)
    requires SessionOwn(e, a) && S.Possible(s, e) && Path(S.After(s, e), a, path)
    ensures Path(s, a, [s] + path) && ([s] + path)[|path|] == path[|path| - 1]
  {
    var all := [s] + path;
    assert OwnStep(s, a, S.After(s, e));
    hide OwnStep;
    forall k | 0 <= k < |all| - 1
      ensures OwnStep(all[k], a, all[k + 1])
    {
      if k > 0 { assert OwnStep(path[k - 1], a, path[k - 1 + 1]); }
    }
  }

  lemma PathOn(s: S.Session, a: Answers, path: seq<S.Session>, more: seq<S.Session>)
    requires Path(s, a, path) && Path(path[|path| - 1], a, more)
    ensures Path(s, a, path + more[1..])
    ensures (path + more[1..])[|path| + |more| - 2] == more[|more| - 1]
  {
    hide OwnStep;
    var all := path + more[1..];
    forall k | 0 <= k < |all| - 1
      ensures OwnStep(all[k], a, all[k + 1])
    {
      if k < |path| - 1 {
        assert OwnStep(path[k], a, path[k + 1]);
      } else {
        var j := k - (|path| - 1);
        assert all[k] == more[j] && all[k + 1] == more[j + 1];
        assert OwnStep(more[j], a, more[j + 1]);
      }
    }
  }

  ghost predicate ChainEnding(c: S.Chain, launched: bool) {
    && (c.Running? ==> Ending(c.p))
    && (launched ==> !c.Unstarted?)
  }

  /** Every launched chain is on its way to its report. */
  ghost predicate SessionEnding(s: S.Session) {
    && S.SessionInv(s)
    && forall i :: 0 <= i < |s.chains| ==> ChainEnding(s.chains[i], i < s.launched)
  }

  /** A step moves one chain. */
  lemma MovesOne(s: S.Session, e: S.Event)
    requires SessionEnding(s) && S.Possible(s, e)
    ensures |S.After(s, e).chains| == |s.chains|
    ensures forall j :: 0 <= j < |s.chains| && S.After(s, e).chains[j] != s.chains[j] ==>
            if e.StartSeed? then j == s.launched else !e.PoolChanges? && !e.SessionStops? && j == e.i
    ensures S.After(s, e).launched == s.launched + if e.StartSeed? then 1 else 0
    ensures e.StartSeed? ==> !S.After(s, e).chains[s.launched].Unstarted? && !S.After(s, e).chains[s.launched].Running?
    ensures e.Connected? || e.Started? || e.ProtocolStep? ==>
            var c := S.After(s, e).chains[e.i];
            && !c.Unstarted?
            && (c.Running? ==> if e.Started? then c.p == Initial(s.selfPort)
                               else e.ProtocolStep? && c.p == Next(s.chains[e.i].p, e.e))
  {
    hide S.SessionInv, ChainEnding, Next, Initial, Enabled;
  }

  lemma StepKeepsSessionEnding(s: S.Session, e: S.Event)
    requires SessionEnding(s) && S.Possible(s, e)
    ensures SessionEnding(S.After(s, e))
  {
    S.StepKeepsSessionInv(s, e);
    MovesOne(s, e);
    var t := S.After(s, e);
    if e.ProtocolStep? {
      assert S.ChainInv(s.chains[e.i], s.reports[e.i]) && ChainEnding(s.chains[e.i], e.i < s.launched);
      StepKeepsEnding(s.chains[e.i].p, e.e);
    }
    hide S.After, S.Possible, S.SessionInv, Next;
    forall i | 0 <= i < |t.chains|
      ensures ChainEnding(t.chains[i], i < t.launched)
    {
      assert ChainEnding(s.chains[i], i < s.launched);
    }
  }

  /** Chain i of t has reported; nothing else has moved since s. */
  ghost predicate Reported(s: S.Session, i: nat, t: S.Session) {
    && |t.chains| == |s.chains| && t.launched == s.launched
    && i < |t.chains| && S.HasReported(t.chains[i])
    && forall j :: 0 <= j < |s.chains| && j != i ==> t.chains[j] == s.chains[j]
  }

  /** Steps left of a chain: connecting, registering, then the protocol's own. */
  function ChainWork(c: S.Chain): int {
    match c
    case Unstarted => 25
    case Connecting => 24
    case Registering => 23
    case Running(p) => Work(p)
    case Ended => 0
  }

  /** The next step of a chain that has not reported. */
  lemma ChainDue(s: S.Session, a: Answers, i: nat) returns (e: S.Event)
    requires SessionEnding(s) && i < |s.chains| && i < s.launched && !S.HasReported(s.chains[i])
    ensures SessionOwn(e, a) && S.Possible(s, e) && !e.StartSeed? && !e.PoolChanges? && !e.SessionStops? && e.i == i
    ensures 0 <= ChainWork(S.After(s, e).chains[i]) < ChainWork(s.chains[i])
  {
    var c := s.chains[i];
    assert S.ChainInv(c, s.reports[i]) && ChainEnding(c, true);
    assert Work(Initial(s.selfPort)) == 22;
    hide SessionEnding, Work, Initial;
    match c
    case Connecting => e := S.Connected(i, a.connect(i), a.blacklisted(i));
    case Registering => e := S.Started(i, a.start(i));
    case Running(p) => e := ProtocolDue(s, a, i);
  }

  /** A protocol that has not completed has a step of its own that uses up work. */
  lemma DueWorks(p: Seed) returns (step: Event)
    requires SeedInv(p) && Ending(p) && p.core.completions == []
    ensures Own(step) && Enabled(p, step) && 0 <= Work(Next(p, step)) < Work(p)
  {
    step := Due(p);
    hide SeedInv, Ending, Work, Next, Enabled;
    StepWorks(p, step);
    StepKeepsInv(p, step);
    WorkIsLeft(Next(p, step));
  }

  lemma ProtocolDue(s: S.Session, a: Answers, i: nat) returns (e: S.Event)
    requires SessionEnding(s) && i < |s.chains| && s.chains[i].Running? && !S.HasReported(s.chains[i])
    ensures e.ProtocolStep? && SessionOwn(e, a) && S.Possible(s, e) && e.i == i
    ensures 0 <= ChainWork(S.After(s, e).chains[i]) < ChainWork(s.chains[i])
  {
    assert S.ChainInv(s.chains[i], s.reports[i]) && ChainEnding(s.chains[i], i < s.launched);
    assert |s.reports| == |s.chains|;
    hide SessionEnding, SeedInv, Ending, Work, Next, Enabled;
    var step := DueWorks(s.chains[i].p);
    e := S.ProtocolStep(i, step);
  }

  lemma {:induction false} ChainReports(s: S.Session, a: Answers, i: nat) returns (path: seq<S.Session>)
    requires SessionEnding(s) && i < |s.chains| && i < s.launched
    ensures Path(s, a, path)
    ensures SessionEnding(path[|path| - 1]) && Reported(s, i, path[|path| - 1])
    decreases ChainWork(s.chains[i])
  {
    hide SessionEnding, S.After, S.Possible, ChainWork, SessionOwn, S.HasReported;
    if S.HasReported(s.chains[i]) {
      path := [s];
    } else {
      var e := ChainDue(s, a, i);
      var t := S.After(s, e);
      StepKeepsSessionEnding(s, e);
      MovesOne(s, e);
      path := ChainReports(t, a, i);
      PathVia(s, a, e, path);
      path := [s] + path;
    }
  }

  /** The loop over the seeds runs to its end. */
  lemma {:induction false} AllLaunch(s: S.Session, a: Answers) returns (path: seq<S.Session>)
    requires SessionEnding(s)
    ensures Path(s, a, path)
    ensures SessionEnding(path[|path| - 1]) && path[|path| - 1].launched == |path[|path| - 1].chains|
    decreases |s.chains| - s.launched
  {
    assert s.launched <= |s.chains|;
    hide SessionEnding, S.After;
    if s.launched == |s.chains| {
      path := [s];
    } else {
      assert S.Possible(s, S.StartSeed) by { HasReports(s); }
      StepKeepsSessionEnding(s, S.StartSeed);
      MovesOne(s, S.StartSeed);
      path := AllLaunch(S.After(s, S.StartSeed), a);
      PathVia(s, a, S.StartSeed, path);
      path := [s] + path;
    }
  }

  lemma HasReports(s: S.Session)
    requires SessionEnding(s)
    ensures |s.reports| == |s.chains| && s.launched <= |s.chains|
  {
  }

  /** The remaining chains report one after the other. */
  lemma {:induction false} AllReport(s: S.Session, a: Answers, i: nat) returns (path: seq<S.Session>)
    requires SessionEnding(s) && s.launched == |s.chains| && i <= |s.chains|
    requires forall j :: 0 <= j < i ==> S.HasReported(s.chains[j])
    ensures Path(s, a, path)
    ensures var t := path[|path| - 1];
            SessionEnding(t) && forall j :: 0 <= j < |t.chains| ==> S.HasReported(t.chains[j])
    decreases |s.chains| - i
  {
    hide SessionEnding, OwnStep, S.HasReported;
    if i == |s.chains| {
      path := [s];
    } else {
      path := ChainReports(s, a, i);
      var more := AllReport(path[|path| - 1], a, i + 1);
      PathOn(s, a, path, more);
      path := path + more[1..];
    }
  }

  /** Once every chain has reported, the start handler has been called. */
  lemma AllReportedEnds(s: S.Session)
    requires S.SessionInv(s) && forall j :: 0 <= j < |s.chains| ==> S.HasReported(s.chains[j])
    ensures |s.outcomes| == 1
  {
    CountAll(s.chains, S.HasReported);
  }

  lemma Settles(s: S.Session, a: Answers) returns (path: seq<S.Session>)
    requires SessionEnding(s)
    ensures Path(s, a, path) && |path[|path| - 1].outcomes| == 1
  {
    hide OwnStep, S.HasReported;
    path := AllLaunch(s, a);
    var more := AllReport(path[|path| - 1], a, 0);
    AllReportedEnds(more[|more| - 1]);
    PathOn(s, a, path, more);
    path := path + more[1..];
  }

  lemma {:induction false} RunKeepsSessionEnding(capacity: nat, selfPort: nat, seeds: nat, run: seq<S.Session>, k: nat)
    requires seeds > 0 && S.IsRun(capacity, selfPort, seeds, run) && k < |run|
    ensures SessionEnding(run[k])
  {
    hide SessionEnding;
    if k == 0 {
      BeginEnding(capacity, selfPort, seeds);
    } else {
      RunKeepsSessionEnding(capacity, selfPort, seeds, run, k - 1);
      assert S.StepsTo(run[k - 1], run[k - 1 + 1]);
      var e :| S.Possible(run[k - 1], e) && run[k] == S.After(run[k - 1], e);
      StepKeepsSessionEnding(run[k - 1], e);
    }
  }

  lemma BeginEnding(capacity: nat, selfPort: nat, seeds: nat)
    requires seeds > 0
    ensures SessionEnding(S.Begin(capacity, selfPort, seeds))
  {
    S.BeginInv(capacity, selfPort, seeds);
  }

  /**
   Seeding always ends: from every moment of every run of the whole start, whatever connecting to the seeds and
   registering their channels answer, the session's own steps lead to exactly one call of the start handler.
   */
  lemma SeedingEnds(capacity: nat, selfPort: nat, seeds: nat, startSize: nat, run: seq<S.Session>, k: nat, a: Answers)
    returns (path: seq<S.Session>)
    requires S.IsRunFrom(S.StartSession(capacity, selfPort, seeds, startSize), run) && k < |run|
    ensures Path(run[k], a, path) && |path[|path| - 1].outcomes| == 1
  {
    if capacity == 0 || startSize != 0 || seeds == 0 {
      S.IdleStaysIdle(S.StartSession(capacity, selfPort, seeds, startSize), run, k);
      path := [run[k]];
    } else {
      hide SessionEnding, OwnStep, S.StepsTo;
      RunKeepsSessionEnding(capacity, selfPort, seeds, run, k);
      path := Settles(run[k], a);
    }
  }
}
