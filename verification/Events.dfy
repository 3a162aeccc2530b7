/**
 protocol_events::set_event under interleaving.
 A protocol holds one handler, which feeds an error-terminated join. Every set_event call runs on
 the thread of its own event (message read, timer, relayed reject, channel stop), so its load of
 the handler, its check-and-clear and its invocation are separate steps that other calls may
 interleave. A call is never forgotten: `calls` only grows, and each call carries its position.
 */
module Events {
  import opened Codes
  import opened Synchronizer

  datatype Phase =
    | Loading    // inside set_event, handler not loaded yet
    | Checking   // handler loaded and not null
    | Invoking   // stopped(ec) evaluated, handler cleared if so
    | Dropped    // handler was null on load
    | Counted    // the join received ec

  datatype Call<S> = Call(src: S, ec: Code, phase: Phase)

  datatype Core<S> = Core(
    handler: bool,
    join: Join,
    calls: seq<Call<S>>,
    counted: seq<nat>,        // calls in the order the join received them
    completions: seq<Code>)   // every invocation of the completion handler

  predicate InPhase<S>(c: Core<S>, i: nat, phase: Phase) {
    i < |c.calls| && c.calls[i].phase == phase
  }

  function Fresh<S>(need: nat): Core<S> {
    Core(false, Join(need, OnError, 0), [], [], [])
  }

  function Post<S>(c: Core<S>, src: S, ec: Code): Core<S> {
    c.(calls := c.calls + [Call(src, ec, Loading)])
  }

  function Load<S>(c: Core<S>, i: nat): Core<S>
    requires InPhase(c, i, Loading)
  {
    c.(calls := c.calls[i := c.calls[i].(phase := if c.handler then Checking else Dropped)])
  }

  function Check<S>(c: Core<S>, i: nat): Core<S>
    requires InPhase(c, i, Checking)
  {
    c.(handler := c.handler && !IsStop(c.calls[i].ec),
       calls := c.calls[i := c.calls[i].(phase := Invoking)])
  }

  /** Codes handed to the completion handler if call i is invoked now. */
  function Fires<S>(c: Core<S>, i: nat): seq<Code>
    requires InPhase(c, i, Invoking)
  {
    Signal(c.join, c.calls[i].ec).1
  }

  function Invoke<S>(c: Core<S>, i: nat): Core<S>
    requires InPhase(c, i, Invoking)
  {
    c.(join := Signal(c.join, c.calls[i].ec).0,
       calls := c.calls[i := c.calls[i].(phase := Counted)],
       counted := c.counted + [i],
       completions := c.completions + Fires(c, i))
  }

  /** The event sources that have entered set_event, in order. */
  function Sources<S>(c: Core<S>): (r: seq<S>)
    ensures |r| == |c.calls|
    ensures forall i :: 0 <= i < |r| ==> r[i] == c.calls[i].src
  {
    seq(|c.calls|, i requires 0 <= i < |c.calls| => c.calls[i].src)
  }

  /** Only Post adds a source; running a call through its phases leaves every source in place. */
  lemma SourcesKept<S>(c: Core<S>, i: nat)
    ensures InPhase(c, i, Loading) ==> Sources(Load(c, i)) == Sources(c)
    ensures InPhase(c, i, Checking) ==> Sources(Check(c, i)) == Sources(c)
    ensures InPhase(c, i, Invoking) ==> Sources(Invoke(c, i)) == Sources(c)
  {
  }

  lemma SourcesPosted<S>(c: Core<S>, src: S, ec: Code)
    ensures Sources(Post(c, src, ec)) == Sources(c) + [src]
  {
  }

  ghost predicate Tickets<S>(c: Core<S>) {
    && (forall k :: 0 <= k < |c.counted| ==> InPhase(c, c.counted[k], Counted))
    && (forall k, l :: 0 <= k < l < |c.counted| ==> c.counted[k] != c.counted[l])
  }

  ghost function Heard<S>(c: Core<S>): (codes: seq<Code>)
    requires Tickets(c)
    ensures |codes| == |c.counted|
    ensures forall k :: 0 <= k < |codes| ==> codes[k] == c.calls[c.counted[k]].ec
  {
    seq(|c.counted|, k requires 0 <= k < |c.counted| => c.calls[c.counted[k]].ec)
  }

  /** What the completion handler saw is the join's run over the invoked calls, in their order. */
  ghost predicate CoreInv<S>(c: Core<S>, need: nat) {
    && Tickets(c)
    && (c.join, c.completions) == Run(Join(need, OnError, 0), Heard(c))
  }

  lemma FreshInv<S>(need: nat)
    ensures CoreInv(Fresh<S>(need), need)
  {
  }

  lemma PostInv<S>(c: Core<S>, need: nat, src: S, ec: Code)
    requires CoreInv(c, need)
    ensures CoreInv(Post(c, src, ec), need)
  {
    assert Heard(Post(c, src, ec)) == Heard(c);
  }

  lemma LoadInv<S>(c: Core<S>, need: nat, i: nat)
    requires CoreInv(c, need) && InPhase(c, i, Loading)
    ensures CoreInv(Load(c, i), need)
  {
    assert Heard(Load(c, i)) == Heard(c);
  }

  lemma CheckInv<S>(c: Core<S>, need: nat, i: nat)
    requires CoreInv(c, need) && InPhase(c, i, Checking)
    ensures CoreInv(Check(c, i), need)
  {
    assert Heard(Check(c, i)) == Heard(c);
  }

  lemma InvokeInv<S>(c: Core<S>, need: nat, i: nat)
    requires CoreInv(c, need) && InPhase(c, i, Invoking)
    ensures CoreInv(Invoke(c, i), need)
  {
    assert Tickets(Invoke(c, i));
    assert Heard(Invoke(c, i)) == Heard(c) + [c.calls[i].ec];
    RunSnoc(Join(need, OnError, 0), Heard(c), c.calls[i].ec);
  }

  /** At most one completion; success exactly when the first `need` invoked calls all succeeded. */
  lemma Completion<S>(c: Core<S>, need: nat)
    requires need > 0 && CoreInv(c, need)
    ensures |c.completions| <= 1
    ensures c.completions == [Success]
       <==> |c.counted| >= need && forall k :: 0 <= k < need ==> c.calls[c.counted[k]].ec == Success
  {
    FiresAtMostOnce(OnError, need, Heard(c));
    OnErrorSuccess(need, Heard(c));
  }

  /** A completion is the code of a call the join received. */
  lemma CompletedBy<S>(c: Core<S>, need: nat)
    requires need > 0 && CoreInv(c, need) && c.completions != []
    ensures exists i :: 0 <= i < |c.calls| && c.completions == [c.calls[i].ec]
  {
    JoinMeetsSpec(OnError, need, Heard(c));
    var k: nat :| FiresAt(OnError, need, Heard(c), k);
    assert c.completions == [c.calls[c.counted[k]].ec];
  }

  /** A call that completes the join with a code carries that code, and nothing completed before. */
  lemma FiresOwnCode<S>(c: Core<S>, need: nat, i: nat)
    requires need > 0 && CoreInv(c, need) && InPhase(c, i, Invoking)
    ensures Fires(c, i) != [] ==> Fires(c, i) == [c.calls[i].ec] && c.completions == []
  {
    JoinMeetsSpec(OnError, need, Heard(c));
    JoinCounts(OnError, need, Heard(c));
  }

  // ---------------------------------------------------------------------------------------------
  // Failures on their way to the join
  // ---------------------------------------------------------------------------------------------

  /** A failing call that the join will receive whatever else happens. */
  predicate Reaches<S>(c: Core<S>, i: nat) {
    && i < |c.calls| && c.calls[i].ec != Success
    && match c.calls[i].phase
       case Loading => c.handler
       case Checking => true
       case Invoking => true
       case _ => false
  }

  ghost predicate FailureComing<S>(c: Core<S>) {
    exists i :: Reaches(c, i)
  }

  /** The join completes on the first failing call it receives. */
  lemma FailureCompletes<S>(c: Core<S>, need: nat, i: nat)
    requires need > 0 && CoreInv(c, need) && InPhase(c, i, Invoking) && c.calls[i].ec != Success
    ensures Invoke(c, i).completions != []
  {
    JoinMeetsSpec(OnError, need, Heard(c));
    JoinCounts(OnError, need, Heard(c));
  }

  /** A posted call, or a loaded one, does not keep a failure from the join. */
  lemma ComingKept<S>(c: Core<S>, i: nat, j: nat, src: S, ec: Code)
    requires Reaches(c, i)
    ensures FailureComing(Post(c, src, ec))
    ensures InPhase(c, j, Loading) ==> FailureComing(Load(c, j))
  {
    assert Reaches(Post(c, src, ec), i);
    if InPhase(c, j, Loading) { assert Reaches(Load(c, j), i); }
  }

  /** Checking a stop call clears the handler, and is itself a failure on its way. */
  lemma CheckComes<S>(c: Core<S>, i: nat, j: nat)
    requires InPhase(c, j, Checking) && (Reaches(c, i) || IsStop(c.calls[j].ec))
    ensures FailureComing(Check(c, j))
  {
    assert Reaches(Check(c, j), if IsStop(c.calls[j].ec) then j else i);
  }

  /** An invoked call completes the join or leaves the failure on its way. */
  lemma InvokeComes<S>(c: Core<S>, need: nat, i: nat, j: nat)
    requires need > 0 && CoreInv(c, need) && InPhase(c, j, Invoking) && Reaches(c, i)
    ensures Invoke(c, j).completions != [] || FailureComing(Invoke(c, j))
  {
    if i == j {
      FailureCompletes(c, need, i);
    } else {
      assert Reaches(Invoke(c, j), i);
    }
  }

  // ---------------------------------------------------------------------------------------------
  // Steps left
  // ---------------------------------------------------------------------------------------------

  /** Steps a call has still to take. */
  function PhaseWork(phase: Phase): nat {
    match phase
    case Loading => 3
    case Checking => 2
    case Invoking => 1
    case _ => 0
  }

  function CallsWork<S>(calls: seq<Call<S>>): nat {
    if calls == [] then 0 else CallsWork(calls[..|calls| - 1]) + PhaseWork(calls[|calls| - 1].phase)
  }

  lemma WorkAppend<S>(calls: seq<Call<S>>, c: Call<S>)
    ensures CallsWork(calls + [c]) == CallsWork(calls) + PhaseWork(c.phase)
  {
    assert (calls + [c])[..|calls|] == calls;
  }

  lemma {:induction false} WorkUpdate<S>(calls: seq<Call<S>>, i: nat, c: Call<S>)
    requires i < |calls|
    ensures CallsWork(calls[i := c]) + PhaseWork(calls[i].phase) == CallsWork(calls) + PhaseWork(c.phase)
  {
    var n := |calls| - 1;
    if i == n {
      assert calls[i := c][..n] == calls[..n];
    } else {
      assert calls[i := c][..n] == calls[..n][i := c];
      WorkUpdate(calls[..n], i, c);
    }
  }

  /** Posting adds a call of three steps; running a call through a phase uses up one. */
  lemma CoreWorks<S>(c: Core<S>, i: nat, src: S, ec: Code)
    ensures CallsWork(Post(c, src, ec).calls) == CallsWork(c.calls) + 3
    ensures InPhase(c, i, Loading) ==> CallsWork(Load(c, i).calls) < CallsWork(c.calls)
    ensures InPhase(c, i, Checking) ==> CallsWork(Check(c, i).calls) < CallsWork(c.calls)
    ensures InPhase(c, i, Invoking) ==> CallsWork(Invoke(c, i).calls) < CallsWork(c.calls)
  {
    hide CallsWork;
    WorkAppend(c.calls, Call(src, ec, Loading));
    if InPhase(c, i, Loading) { WorkUpdate(c.calls, i, Load(c, i).calls[i]); }
    if InPhase(c, i, Checking) { WorkUpdate(c.calls, i, Check(c, i).calls[i]); }
    if InPhase(c, i, Invoking) { WorkUpdate(c.calls, i, Invoke(c, i).calls[i]); }
  }

  /** Sources without repetition are no more than there are. */
  lemma {:induction false} DistinctBound<S>(s: seq<S>, all: set<S>)
    requires (forall i, j :: 0 <= i < j < |s| ==> s[i] != s[j]) && forall i :: 0 <= i < |s| ==> s[i] in all
    ensures |s| <= |all|
  {
    if s != [] {
      var n := |s| - 1;
      DistinctBound(s[..n], all - {s[n]});
    }
  }
}
