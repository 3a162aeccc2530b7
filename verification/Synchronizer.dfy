/**
 The join used by every multi-event sequence: `synchronize(handler, need, name, mode)`.
 The library class is not part of the repository, so it is modelled from its use: a counter behind
 a lock that invokes its handler once, on the terminating code of its mode or on the `need`-th
 call, and ignores every later call.
 */
module Synchronizer {
  import opened Codes

  datatype Mode = OnError | OnSuccess | OnCount

  datatype Join = Join(need: nat, mode: Mode, count: nat)

  predicate Terminates(mode: Mode, ec: Code) {
    match mode
    case OnError => ec != Success
    case OnSuccess => ec == Success
    case OnCount => false
  }

  function Result(mode: Mode, ec: Code): Code {
    if mode.OnCount? then Success else ec
  }

  /** One call of the join: the new counter, and the codes passed to the handler (none or one). */
  function Signal(j: Join, ec: Code): (r: (Join, seq<Code>)) {
    if j.count >= j.need then
      (j, [])
    else
      var count := if Terminates(j.mode, ec) then j.need else j.count + 1;
      (j.(count := count), if count == j.need then [Result(j.mode, ec)] else [])
  }

  /** All calls of a join in the order its lock admits them. */
  function Run(j: Join, codes: seq<Code>): (Join, seq<Code>) {
    if codes == [] then (j, [])
    else
      var (before, outs) := Run(j, codes[..|codes| - 1]);
      var (after, more) := Signal(before, codes[|codes| - 1]);
      (after, outs + more)
  }

  /** Specification without a counter: call i is the one the handler runs in. */
  ghost predicate FiresAt(mode: Mode, need: nat, codes: seq<Code>, i: nat) {
    && i < |codes| && i < need
    && (Terminates(mode, codes[i]) || i + 1 == need)
    && forall k :: 0 <= k < i ==> !Terminates(mode, codes[k])
  }

  /** Appending a call runs the join one step further. */
  lemma RunSnoc(j: Join, codes: seq<Code>, ec: Code)
    ensures Run(j, codes + [ec])
         == (Signal(Run(j, codes).0, ec).0, Run(j, codes).1 + Signal(Run(j, codes).0, ec).1)
  {
    assert (codes + [ec])[..|codes|] == codes;
  }

  /** A join that has not fired has counted every call, and none was terminating. */
  lemma {:induction false} JoinCounts(mode: Mode, need: nat, codes: seq<Code>)
    ensures var j := Run(Join(need, mode, 0), codes).0;
            && j.need == need && j.mode == mode && j.count <= need
            && (j.count < need <==> |codes| < need && forall k :: 0 <= k < |codes| ==> !Terminates(mode, codes[k]))
            && (j.count < need ==> j.count == |codes|)
  {
    if codes != [] {
      JoinCounts(mode, need, codes[..|codes| - 1]);
    }
  }

  lemma FiresPrior(mode: Mode, need: nat, codes: seq<Code>, i: nat)
    requires i + 1 < |codes|
    ensures FiresAt(mode, need, codes, i) <==> FiresAt(mode, need, codes[..|codes| - 1], i)
  {
  }

  /** The counter agrees with the specification: number of outputs and their code. */
  lemma {:induction false} JoinMeetsSpec(mode: Mode, need: nat, codes: seq<Code>)
    ensures var outs := Run(Join(need, mode, 0), codes).1;
            && (outs == [] <==> forall i: nat :: !FiresAt(mode, need, codes, i))
            && (forall i: nat :: FiresAt(mode, need, codes, i) ==> outs == [Result(mode, codes[i])])
            && (need > 0 ==> (outs == [] <==> Run(Join(need, mode, 0), codes).0.count < need))
  {
    if codes != [] {
      var n := |codes| - 1;
      var prior := codes[..n];
      JoinMeetsSpec(mode, need, prior);
      JoinCounts(mode, need, prior);
      RunSnoc(Join(need, mode, 0), prior, codes[n]);
      assert codes == prior + [codes[n]];
      hide Run;
      var (before, outs) := Run(Join(need, mode, 0), prior);
      if before.count < need {
        NoneFired(mode, need, codes, before);
      } else {
        forall i: nat
          ensures FiresAt(mode, need, codes, i) <==> FiresAt(mode, need, prior, i)
        {
          if i < n { FiresPrior(mode, need, codes, i); }
        }
        forall i: nat | FiresAt(mode, need, codes, i)
          ensures outs == [Result(mode, codes[i])]
        {
          assert FiresAt(mode, need, prior, i) && prior[i] == codes[i];
        }
      }
    }
  }

  /** While nothing has fired, only the newest call can, and it does iff the counter says so. */
  lemma NoneFired(mode: Mode, need: nat, codes: seq<Code>, before: Join)
    requires codes != [] && |codes| <= need
    requires forall k :: 0 <= k < |codes| - 1 ==> !Terminates(mode, codes[k])
    requires before == Join(need, mode, |codes| - 1)
    ensures forall i: nat :: FiresAt(mode, need, codes, i) ==> i == |codes| - 1
    ensures FiresAt(mode, need, codes, |codes| - 1) <==> Signal(before, codes[|codes| - 1]).1 != []
    ensures Signal(before, codes[|codes| - 1]).1 != [] ==>
            Signal(before, codes[|codes| - 1]).1 == [Result(mode, codes[|codes| - 1])]
    ensures Signal(before, codes[|codes| - 1]).1 == [] <==> Signal(before, codes[|codes| - 1]).0.count < need
  {
  }

  /** A join invokes its handler at most once, whatever is called and in whatever order. */
  lemma FiresAtMostOnce(mode: Mode, need: nat, codes: seq<Code>)
    ensures |Run(Join(need, mode, 0), codes).1| <= 1
  {
    JoinMeetsSpec(mode, need, codes);
    if i: nat :| FiresAt(mode, need, codes, i) {
    }
  }

  /** Once fired, later calls neither fire again nor change what was reported. */
  lemma {:induction false} FiredIsFinal(mode: Mode, need: nat, codes: seq<Code>, later: seq<Code>)
    requires need > 0 && Run(Join(need, mode, 0), codes).1 != []
    ensures Run(Join(need, mode, 0), codes + later).1 == Run(Join(need, mode, 0), codes).1
  {
    hide FiresAt, Run;
    if later == [] {
      assert codes + later == codes;
    } else {
      var n := |later| - 1;
      var before := codes + later[..n];
      FiredIsFinal(mode, need, codes, later[..n]);
      JoinMeetsSpec(mode, need, before);
      JoinCounts(mode, need, before);
      assert codes + later == before + [later[n]];
      RunSnoc(Join(need, mode, 0), before, later[n]);
    }
  }

  /** An error-terminated join reports success iff its first `need` calls all succeed. */
  lemma OnErrorSuccess(need: nat, codes: seq<Code>)
    requires need > 0
    ensures Run(Join(need, OnError, 0), codes).1 == [Success]
        <==> |codes| >= need && forall k :: 0 <= k < need ==> codes[k] == Success
  {
    JoinMeetsSpec(OnError, need, codes);
    hide Run;
    if |codes| >= need && forall k :: 0 <= k < need ==> codes[k] == Success {
      assert FiresAt(OnError, need, codes, need - 1);
    }
  }

  /** A success-terminated join reports a success as soon as one of its calls succeeds. */
  lemma OnSuccessReports(need: nat, codes: seq<Code>)
    requires |codes| <= need && Success in codes
    ensures Run(Join(need, OnSuccess, 0), codes).1 == [Success]
  {
    JoinMeetsSpec(OnSuccess, need, codes);
    JoinCounts(OnSuccess, need, codes);
    hide Run;
    var i: nat :| FiresAt(OnSuccess, need, codes, i);
    assert codes[i] == Success;
  }

  /** A success-terminated join given all its calls reports once, success iff some call succeeded. */
  lemma OnSuccessVerdict(need: nat, codes: seq<Code>)
    requires need > 0 && |codes| == need
    ensures |Run(Join(need, OnSuccess, 0), codes).1| == 1
    ensures Run(Join(need, OnSuccess, 0), codes).1 == [Success] <==> Success in codes
  {
    JoinMeetsSpec(OnSuccess, need, codes);
    JoinCounts(OnSuccess, need, codes);
    FiresAtMostOnce(OnSuccess, need, codes);
    hide Run;
    if Success !in codes {
      assert FiresAt(OnSuccess, need, codes, need - 1);
    } else {
      OnSuccessReports(need, codes);
    }
  }

  /** A success-terminated join never reports a success nobody called it with. */
  lemma OnSuccessHeard(need: nat, codes: seq<Code>)
    ensures Run(Join(need, OnSuccess, 0), codes).1 == [Success] ==> Success in codes
  {
    JoinMeetsSpec(OnSuccess, need, codes);
    if i: nat :| FiresAt(OnSuccess, need, codes, i) {
      assert codes[i] in codes;
    }
  }

  /** A counting join reports success exactly when it has had all its calls, whatever their codes. */
  lemma OnCountVerdict(need: nat, codes: seq<Code>)
    requires need > 0
    ensures Run(Join(need, OnCount, 0), codes).1 == if |codes| >= need then [Success] else []
  {
    JoinMeetsSpec(OnCount, need, codes);
    hide Run;
    if |codes| >= need { assert FiresAt(OnCount, need, codes, need - 1); }
  }
}
