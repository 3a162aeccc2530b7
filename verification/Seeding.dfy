/**
 The seed session: one chain of callbacks per configured seed, from connecting through registration
 to the seed protocol, all reporting to one counting join that ends in the session's verdict.
 */
module Seeding {
  import opened Codes
  import opened Counting
  import opened Synchronizer
  import opened SeedProtocol

  const MINIMUM_HOST_INCREASE: nat := 100

  datatype Chain =
    | Unstarted
    | Connecting
    | Registering
    | Running(p: Seed)
    | Ended                    // reported before the protocol ran

  datatype Session = Session(
    capacity: nat,             // host_pool_capacity, not zero
    selfPort: nat,
    stopped: bool,
    launched: nat,             // turns of the loop in start_seeding
    chains: seq<Chain>,
    reports: seq<nat>,         // calls of the join made for each seed
    join: Join,
    pool: nat,                 // address_count()
    outcomes: seq<Code>,       // every call of the start handler
    outcomePool: nat)          // address_count() when it was called

  /** start_seeding on an empty pool. */
  function Begin(capacity: nat, selfPort: nat, seeds: nat): Session {
    Session(capacity, selfPort, false, 0, seq(seeds, _ => Unstarted), seq(seeds, _ => 0),
            Join(seeds, OnCount, 0), 0, [], 0)
  }

  datatype Event =
    | StartSeed                                // one turn of the loop
    | Connected(i: nat, ec: Code, blacklisted: bool)
    | Started(i: nat, ec: Code)                // handle_channel_start
    | ProtocolStep(i: nat, e: SeedProtocol.Event)
    | PoolChanges(size: nat)                   // the pool is shared, but never exceeds its capacity
    | SessionStops

  predicate Possible(s: Session, e: Event) {
    && |s.reports| == |s.chains|
    && match e
       case StartSeed => s.launched < |s.chains|
       case Connected(i, _, _) => i < |s.chains| && s.chains[i].Connecting?
       case Started(i, _) => i < |s.chains| && s.chains[i].Registering?
       case ProtocolStep(i, step) => i < |s.chains| && s.chains[i].Running? && SeedProtocol.Enabled(s.chains[i].p, step)
       case PoolChanges(size) => size <= s.capacity
       case SessionStops => true
  }

  /** handle_complete: success needs an increase of 100 over the empty pool. */
  function Verdict(pool: nat): Code {
    if pool >= 0 + MINIMUM_HOST_INCREASE then Success else PeerThrottling
  }

  /** The chain of seed i moves on and calls the join; the last call runs handle_complete. */
  function Report(s: Session, i: nat, chain: Chain, ec: Code): Session
    requires i < |s.chains| == |s.reports|
  {
    var (join, fired) := Signal(s.join, ec);
    s.(chains := s.chains[i := chain],
       reports := s.reports[i := s.reports[i] + 1],
       join := join,
       outcomes := s.outcomes + if fired != [] then [Verdict(s.pool)] else [],
       outcomePool := if fired != [] then s.pool else s.outcomePool)
  }

  function Move(s: Session, i: nat, chain: Chain): Session
    requires i < |s.chains|
  {
    s.(chains := s.chains[i := chain])
  }

  function After(s: Session, e: Event): Session
    requires Possible(s, e)
  {
    match e
    case StartSeed =>
      var t := s.(launched := s.launched + 1);
      if s.stopped then Report(t, s.launched, Ended, ChannelStopped)
      else Move(t, s.launched, Connecting)
    case Connected(i, ec, blacklisted) =>
      if ec != Success then Report(s, i, Ended, ec)
      else if blacklisted then Report(s, i, Ended, AddressBlocked)
      else Move(s, i, Registering)
    case Started(i, ec) =>
      if ec != Success then Report(s, i, Ended, ec)
      else Move(s, i, Running(SeedProtocol.Initial(s.selfPort)))
    case ProtocolStep(i, step) =>
      var p := s.chains[i].p;
      var q := SeedProtocol.Next(p, step);
      if |q.core.completions| > |p.core.completions|
      then Report(s, i, Running(q), q.core.completions[|p.core.completions|])
      else Move(s, i, Running(q))
    case PoolChanges(size) => s.(pool := size)
    case SessionStops => s.(stopped := true)
  }

  // ---------------------------------------------------------------------------------------------
  // Invariant
  // ---------------------------------------------------------------------------------------------

  predicate HasReported(c: Chain) {
    c.Ended? || (c.Running? && c.p.core.completions != [])
  }

  ghost predicate ChainInv(c: Chain, reports: nat) {
    && reports == (if HasReported(c) then 1 else 0)
    && (c.Running? ==> SeedInv(c.p))
  }

  ghost predicate SessionInv(s: Session) {
    && |s.chains| == |s.reports| > 0
    && s.launched <= |s.chains|
    && (forall i :: s.launched <= i < |s.chains| ==> s.chains[i].Unstarted?)
    && s.join.mode == OnCount && s.join.need == |s.chains|
    && s.join.count == Count(s.chains, HasReported)
    && (forall i :: 0 <= i < |s.chains| ==> ChainInv(s.chains[i], s.reports[i]))
    && s.pool <= s.capacity && s.outcomePool <= s.capacity
    && s.outcomes == (if s.join.count < s.join.need then [] else [Verdict(s.outcomePool)])
  }

  lemma {:induction false} NoneReported(s: seq<Chain>)
    requires forall i :: 0 <= i < |s| ==> s[i].Unstarted?
    ensures Count(s, HasReported) == 0
  {
    if s != [] { NoneReported(s[..|s| - 1]); }
  }

  lemma BeginInv(capacity: nat, selfPort: nat, seeds: nat)
    requires seeds > 0
    ensures SessionInv(Begin(capacity, selfPort, seeds))
  {
    NoneReported(Begin(capacity, selfPort, seeds).chains);
  }

  lemma ReportStep(s: Session, i: nat, chain: Chain, ec: Code)
    requires SessionInv(s) && i < s.launched && !HasReported(s.chains[i])
    requires HasReported(chain) && ChainInv(chain, 1)
    ensures SessionInv(Report(s, i, chain, ec))
  {
    hide Count, SeedInv;
    CountUpdate(s.chains, i, chain, HasReported);
    CountAll(s.chains[i := chain], HasReported);
    assert forall j :: 0 <= j < |s.chains| ==> ChainInv(s.chains[j], s.reports[j]);
    hide ChainInv;
  }

  lemma MoveStep(s: Session, i: nat, chain: Chain)
    requires SessionInv(s) && i < s.launched && (HasReported(s.chains[i]) <==> HasReported(chain))
    requires ChainInv(chain, s.reports[i])
    ensures SessionInv(Move(s, i, chain))
  {
    CountUpdate(s.chains, i, chain, HasReported);
  }

  lemma ConnectedKeepsSessionInv(s: Session, e: Event)
    requires SessionInv(s) && Possible(s, e) && e.Connected?
    ensures SessionInv(After(s, e))
  {
    hide SeedInv, Count;
    if e.ec != Success { ReportStep(s, e.i, Ended, e.ec); }
    else if e.blacklisted { ReportStep(s, e.i, Ended, AddressBlocked); }
    else { MoveStep(s, e.i, Registering); }
  }

  lemma StartedKeepsSessionInv(s: Session, i: nat, ec: Code)
    requires SessionInv(s) && Possible(s, Started(i, ec))
    ensures SessionInv(After(s, Started(i, ec)))
  {
    hide SeedInv, Count;
    if ec != Success {
      ReportStep(s, i, Ended, ec);
    } else {
      SeedProtocol.InitialInv(s.selfPort);
      MoveStep(s, i, Running(SeedProtocol.Initial(s.selfPort)));
    }
  }

  lemma StepKeepsSessionInv(s: Session, e: Event)
    requires SessionInv(s) && Possible(s, e)
    ensures SessionInv(After(s, e))
    ensures After(s, e).capacity == s.capacity && |After(s, e).chains| == |s.chains|
  {
    hide SeedInv, Count;
    match e
    case StartSeed =>
      var t := s.(launched := s.launched + 1);
      if s.stopped { ReportStep(t, s.launched, Ended, ChannelStopped); } else { MoveStep(t, s.launched, Connecting); }
    case Connected(i, ec, blacklisted) => ConnectedKeepsSessionInv(s, e);
    case Started(i, ec) => StartedKeepsSessionInv(s, i, ec);
    case ProtocolStep(i, step) => ProtocolKeepsSessionInv(s, i, step);
    case PoolChanges(size) =>
    case SessionStops =>
  }

  /** What one step of a seed's protocol means for its chain: at most its first completion is new. */
  lemma ProtocolAdvances(p: Seed, step: SeedProtocol.Event)
    requires SeedInv(p) && SeedProtocol.Enabled(p, step)
    ensures var q := SeedProtocol.Next(p, step);
            && SeedInv(q)
            && (|q.core.completions| > |p.core.completions| ==> p.core.completions == [])
            && (|q.core.completions| <= |p.core.completions| ==> q.core.completions == p.core.completions)
  {
    SeedProtocol.StepKeepsInv(p, step);
    SeedProtocol.NeverSucceeds(SeedProtocol.Next(p, step));
    hide SeedInv, SeedProtocol.Next, SeedProtocol.Enabled;
  }

  lemma ProtocolKeepsSessionInv(s: Session, i: nat, step: SeedProtocol.Event)
    requires SessionInv(s) && Possible(s, ProtocolStep(i, step))
    ensures SessionInv(After(s, ProtocolStep(i, step)))
  {
    hide SeedInv, SeedProtocol.Next, SeedProtocol.Enabled, Count;
    var p := s.chains[i].p;
    assert ChainInv(s.chains[i], s.reports[i]) && i < s.launched;
    ProtocolAdvances(p, step);
    var q := SeedProtocol.Next(p, step);
    hide SessionInv;
    if |q.core.completions| > |p.core.completions| {
      ReportStep(s, i, Running(q), q.core.completions[|p.core.completions|]);
    } else {
      MoveStep(s, i, Running(q));
    }
  }

  // ---------------------------------------------------------------------------------------------
  // Whole runs
  // ---------------------------------------------------------------------------------------------

  ghost predicate StepsTo(s: Session, s': Session) {
    exists e :: Possible(s, e) && s' == After(s, e)
  }

  ghost predicate IsRun(capacity: nat, selfPort: nat, seeds: nat, run: seq<Session>) {
    && |run| > 0 && run[0] == Begin(capacity, selfPort, seeds)
    && forall k :: 0 <= k < |run| - 1 ==> StepsTo(run[k], run[k + 1])
  }

  lemma StepFacts(s: Session, s': Session)
    requires SessionInv(s) && StepsTo(s, s')
    ensures SessionInv(s') && s'.capacity == s.capacity && |s'.chains| == |s.chains|
  {
    var e :| Possible(s, e) && s' == After(s, e);
    StepKeepsSessionInv(s, e);
  }

  lemma {:induction false} RunKeepsSessionInv(capacity: nat, selfPort: nat, seeds: nat, run: seq<Session>, k: nat)
    requires seeds > 0 && IsRun(capacity, selfPort, seeds, run) && k < |run|
    ensures SessionInv(run[k]) && run[k].capacity == capacity && |run[k].chains| == seeds
  {
    if k == 0 {
      BeginInv(capacity, selfPort, seeds);
    } else {
      RunKeepsSessionInv(capacity, selfPort, seeds, run, k - 1);
      assert StepsTo(run[k - 1], run[k - 1 + 1]);
      StepFacts(run[k - 1], run[k]);
    }
  }

  /**
   Seeding verdict. In every run each seed reports at most once on every path; the start handler is
   called exactly when all seeds have reported, and once; it is called with success iff the pool then
   held at least 100 addresses, and so never when the pool's capacity is below 100.
   */
  lemma SeedingVerdict(capacity: nat, selfPort: nat, seeds: nat, run: seq<Session>, k: nat)
    requires seeds > 0 && IsRun(capacity, selfPort, seeds, run) && k < |run|
    ensures |run[k].reports| == seeds
    ensures forall i :: 0 <= i < seeds ==> run[k].reports[i] <= 1
    ensures |run[k].outcomes| == if forall i :: 0 <= i < seeds ==> run[k].reports[i] == 1 then 1 else 0
    ensures run[k].outcomes == [Success] ==> run[k].outcomePool >= 100
    ensures run[k].outcomes != [] && run[k].outcomes != [Success] ==>
            run[k].outcomes == [PeerThrottling] && run[k].outcomePool < 100
    ensures capacity < 100 ==> Success !in run[k].outcomes
  {
    RunKeepsSessionInv(capacity, selfPort, seeds, run, k);
    var s := run[k];
    CountAll(s.chains, HasReported);
    assert forall i :: 0 <= i < seeds ==> ChainInv(s.chains[i], s.reports[i]);
  }

  /**
   The whole start of the session: nothing to do without a pool or with cached addresses, an error
   without seeds, and otherwise the seeding of an empty pool.
   */
  function StartSession(capacity: nat, selfPort: nat, seeds: nat, startSize: nat): Session {
    var idle := Session(capacity, selfPort, false, 0, [], [], Join(0, OnCount, 0), startSize, [], startSize);
    if capacity == 0 || startSize != 0 then idle.(outcomes := [Success])
    else if seeds == 0 then idle.(outcomes := [OperationFailed])
    else Begin(capacity, selfPort, seeds)
  }

  ghost predicate IsRunFrom(s: Session, run: seq<Session>) {
    && |run| > 0 && run[0] == s
    && forall k :: 0 <= k < |run| - 1 ==> StepsTo(run[k], run[k + 1])
  }

  lemma {:induction false} IdleStaysIdle(s: Session, run: seq<Session>, k: nat)
    requires s.chains == [] && IsRunFrom(s, run) && k < |run|
    ensures run[k].chains == [] && run[k].outcomes == s.outcomes
  {
    if k > 0 {
      IdleStaysIdle(s, run, k - 1);
      assert StepsTo(run[k - 1], run[k - 1 + 1]);
    }
  }

  /**
   When a start succeeds: without a pool, with cached addresses, or with at least 100 addresses after
   seeding. With a pool of fewer than 100 places it succeeds iff there were cached addresses.
   */
  lemma StartVerdict(capacity: nat, selfPort: nat, seeds: nat, startSize: nat, run: seq<Session>, k: nat)
    requires IsRunFrom(StartSession(capacity, selfPort, seeds, startSize), run) && k < |run|
    ensures |run[k].outcomes| <= 1
    ensures run[k].outcomes == [Success] ==> capacity == 0 || startSize != 0 || run[k].outcomePool >= 100
    ensures 0 < capacity < 100 ==> (run[k].outcomes == [Success] <==> startSize != 0)
    ensures capacity == 0 || startSize != 0 ==> run[k].outcomes == [Success]
    ensures run[k].outcomes == [OperationFailed] <==> capacity != 0 && startSize == 0 && seeds == 0
  {
    if capacity == 0 || startSize != 0 || seeds == 0 {
      IdleStaysIdle(StartSession(capacity, selfPort, seeds, startSize), run, k);
    } else {
      SeedingVerdict(capacity, selfPort, seeds, run, k);
    }
  }

  lemma Extend(capacity: nat, selfPort: nat, seeds: nat, run: seq<Session>, e: Event)
    requires IsRun(capacity, selfPort, seeds, run) && Possible(run[|run| - 1], e)
    ensures IsRun(capacity, selfPort, seeds, run + [After(run[|run| - 1], e)])
  {
    var longer := run + [After(run[|run| - 1], e)];
    assert StepsTo(run[|run| - 1], After(run[|run| - 1], e));
    hide StepsTo;
    forall k | 0 <= k < |longer| - 1
      ensures StepsTo(longer[k], longer[k + 1])
    {
      if k < |run| - 1 { assert StepsTo(run[k], run[k + 1]); }
    }
  }

  /** A full pool of fewer than 100 addresses is still reported as throttled. */
  lemma SmallPoolThrottled(capacity: nat, selfPort: nat) returns (run: seq<Session>)
    requires 0 < capacity < 100
    ensures IsRun(capacity, selfPort, 1, run)
    ensures run[|run| - 1].outcomes == [PeerThrottling] && run[|run| - 1].outcomePool == capacity
  {
    run := [Begin(capacity, selfPort, 1)];
    Extend(capacity, selfPort, 1, run, StartSeed);
    run := run + [After(run[0], StartSeed)];
    Extend(capacity, selfPort, 1, run, PoolChanges(capacity));
    run := run + [After(run[1], PoolChanges(capacity))];
    Extend(capacity, selfPort, 1, run, Connected(0, ChannelTimeout, false));
    run := run + [After(run[2], Connected(0, ChannelTimeout, false))];
  }

  // ---------------------------------------------------------------------------------------------
  // What became of each seed
  // ---------------------------------------------------------------------------------------------

  /** A run together with its events. */
  ghost predicate IsTrace(capacity: nat, selfPort: nat, seeds: nat, run: seq<Session>, events: seq<Event>) {
    && |run| == |events| + 1 && run[0] == Begin(capacity, selfPort, seeds)
    && forall k :: 0 <= k < |events| ==> Possible(run[k], events[k]) && run[k + 1] == After(run[k], events[k])
  }

  ghost predicate Occurred(events: seq<Event>, k: nat, e: Event)
    requires k <= |events|
  {
    exists j :: 0 <= j < k && events[j] == e
  }

  /** Seed i failed before its protocol ran: the session had stopped, or connecting or registering failed. */
  ghost predicate SeedFailed(run: seq<Session>, events: seq<Event>, k: nat, i: nat)
    requires k <= |events| && k <= |run|
  {
    exists j :: 0 <= j < k && match events[j]
                              case StartSeed => run[j].launched == i && run[j].stopped
                              case Connected(n, ec, blacklisted) => n == i && (ec != Success || blacklisted)
                              case Started(n, ec) => n == i && ec != Success
                              case _ => false
  }

  /** How the chain of seed i came to be where it is. */
  ghost predicate ChainOrigin(run: seq<Session>, events: seq<Event>, k: nat, i: nat)
    requires k < |run| && k <= |events| && i < |run[k].chains|
  {
    var c := run[k].chains[i];
    && (c.Registering? || c.Running? ==> Occurred(events, k, Connected(i, Success, false)))
    && (c.Running? ==> Occurred(events, k, Started(i, Success)))
    && (c.Ended? ==> SeedFailed(run, events, k, i))
  }

  /** What a step does to chain i. */
  lemma ChainStep(s: Session, e: Event, i: nat)
    requires Possible(s, e) && i < |s.chains|
    ensures i < |After(s, e).chains|
    ensures var c, c' := s.chains[i], After(s, e).chains[i];
            match e
            case StartSeed => if s.launched != i then c' == c else c' == if s.stopped then Ended else Connecting
            case Connected(n, ec, blacklisted) =>
              if n != i then c' == c else c' == if ec == Success && !blacklisted then Registering else Ended
            case Started(n, ec) => if n != i then c' == c else if ec == Success then c'.Running? else c' == Ended
            case ProtocolStep(n, _) => if n != i then c' == c else c.Running? && c'.Running?
            case PoolChanges(_) => c' == c
            case SessionStops => c' == c
    ensures e.Started? && e.i == i ==> s.chains[i].Registering?
  {
    hide SeedProtocol.Next, SeedProtocol.Enabled, SeedProtocol.Initial;
  }

  lemma OriginGrows(run: seq<Session>, events: seq<Event>, k: nat, i: nat)
    requires 0 < k < |run| && k <= |events| && i < |run[k - 1].chains| && ChainOrigin(run, events, k - 1, i)
    ensures var c := run[k - 1].chains[i];
            && (c.Registering? || c.Running? ==> Occurred(events, k, Connected(i, Success, false)))
            && (c.Running? ==> Occurred(events, k, Started(i, Success)))
            && (c.Ended? ==> SeedFailed(run, events, k, i))
  {
  }

  lemma {:induction false} RunOrigin(capacity: nat, selfPort: nat, seeds: nat, run: seq<Session>, events: seq<Event>,
                                     k: nat, i: nat)
    requires IsTrace(capacity, selfPort, seeds, run, events) && k < |run| && i < seeds
    ensures |run[k].chains| == seeds && ChainOrigin(run, events, k, i)
  {
    if k > 0 {
      hide After, Possible;
      RunOrigin(capacity, selfPort, seeds, run, events, k - 1, i);
      var s, e := run[k - 1], events[k - 1];
      assert run[k - 1 + 1] == After(s, e);
      ChainStep(s, e, i);
      ChainsStay(s, e);
      OriginGrows(run, events, k, i);
      if e.Connected? || e.Started? { assert Occurred(events, k, e); }
    }
  }

  lemma ChainsStay(s: Session, e: Event)
    requires Possible(s, e)
    ensures |After(s, e).chains| == |s.chains|
  {
  }

  /**
   What became of each seed, in every run: its protocol runs only after it was connected to, its address was not
   blacklisted and its channel was registered; a seed that reported without that had one of these fail, or met a
   stopped session.
   */
  lemma SeedCause(capacity: nat, selfPort: nat, seeds: nat, run: seq<Session>, events: seq<Event>, k: nat, i: nat)
    requires IsTrace(capacity, selfPort, seeds, run, events) && k < |run| && i < seeds
    ensures |run[k].chains| == seeds
    ensures run[k].chains[i].Running? ==>
            Occurred(events, k, Connected(i, Success, false)) && Occurred(events, k, Started(i, Success))
    ensures run[k].chains[i].Ended? ==> SeedFailed(run, events, k, i)
  {
    RunOrigin(capacity, selfPort, seeds, run, events, k, i);
  }

  // ---------------------------------------------------------------------------------------------
  // The flag and the pool behind the verdict
  // ---------------------------------------------------------------------------------------------

  /** The size of the shared pool as last changed. */
  function PoolAfter(events: seq<Event>): nat {
    if events == [] then 0
    else if events[|events| - 1].PoolChanges? then events[|events| - 1].size
    else PoolAfter(events[..|events| - 1])
  }

  lemma StepFlags(s: Session, e: Event)
    requires Possible(s, e)
    ensures After(s, e).stopped <==> s.stopped || e.SessionStops?
    ensures After(s, e).pool == if e.PoolChanges? then e.size else s.pool
    ensures After(s, e).outcomes != s.outcomes ==> After(s, e).outcomePool == s.pool
    ensures After(s, e).outcomes == s.outcomes ==> After(s, e).outcomePool == s.outcomePool || s.outcomes != []
  {
    hide SeedProtocol.Next, SeedProtocol.Enabled, SeedProtocol.Initial;
  }

  /** In every run the session is stopped iff its stop has happened, and the pool is as it was last changed. */
  lemma {:induction false} FlagsCause(capacity: nat, selfPort: nat, seeds: nat, run: seq<Session>, events: seq<Event>,
                                      k: nat)
    requires IsTrace(capacity, selfPort, seeds, run, events) && k < |run|
    ensures run[k].stopped <==> exists j :: 0 <= j < k && events[j].SessionStops?
    ensures run[k].pool == PoolAfter(events[..k])
  {
    hide After, Possible;
    if k == 0 {
      assert events[..0] == [];
    } else {
      FlagsCause(capacity, selfPort, seeds, run, events, k - 1);
      StepFlags(run[k - 1], events[k - 1]);
      assert run[k - 1 + 1] == After(run[k - 1], events[k - 1]);
      assert events[..k][..k - 1] == events[..k - 1];
    }
  }
}
