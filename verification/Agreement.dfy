/**
 The distributed handshake: two nodes running the version protocol over one connection, a FIFO
 queue in each direction. Steps of the two nodes, of all their threads, interleave freely.
 */
module Agreement {
  import opened Codes
  import opened Events
  import opened Version
  import opened Handshake

  datatype System = System(a: Node, b: Node, ab: seq<Msg>, ba: seq<Msg>)

  function Swap(s: System): System {
    System(s.b, s.a, s.ba, s.ab)
  }

  function Begin(cfgA: Config, cfgB: Config): System {
    System(Initial(cfgA), Initial(cfgB), [], [])
  }

  /** Node a takes a step; a message it receives is the oldest one b sent. */
  predicate EnabledA(s: System, e: Event) {
    Enabled(s.a, e) && (e.Receive? ==> s.ba != [] && s.ba[0] == e.m)
  }

  function StepA(s: System, e: Event): System
    requires EnabledA(s, e)
  {
    System(Next(s.a, e), s.b, s.ab + Sends(s.a, e), if e.Receive? then s.ba[1..] else s.ba)
  }

  /** One step of either node. */
  ghost predicate SystemStep(s: System, s': System) {
    || (exists e :: EnabledA(s, e) && s' == StepA(s, e))
    || (exists e :: EnabledA(Swap(s), e) && Swap(s') == StepA(Swap(s), e))
  }

  ghost predicate IsSystemRun(cfgA: Config, cfgB: Config, run: seq<System>) {
    && |run| > 0 && run[0] == Begin(cfgA, cfgB)
    && forall k :: 0 <= k < |run| - 1 ==> SystemStep(run[k], run[k + 1])
  }

  /** A message its sender really meant: its own version, or a verack for a version it accepted. */
  ghost predicate Genuine(sender: Node, m: Msg) {
    && (m.VersionMsg? ==> m.v == VersionFactory(sender.cfg))
    && (m.Verack? ==> sender.channel.peer.Some?)
  }

  /** What b knows of a is true of a. */
  ghost predicate Informed(a: Node, b: Node) {
    && (b.reader.Reading? ==> Genuine(a, b.reader.m))
    && (b.channel.peer.Some? ==> b.channel.peer.value == VersionFactory(a.cfg))
    && (VerackEvent in Sources(b.core) ==> a.channel.peer.Some?)
  }

  ghost predicate Half(s: System) {
    && NodeInv(s.a)
    && (forall m :: m in s.ab ==> Genuine(s.a, m))
    && Informed(s.a, s.b)
  }

  ghost predicate SystemInv(s: System) {
    Half(s) && Half(Swap(s))
  }

  /** Whatever a node sends is genuine of it, and stays so. */
  lemma SendsGenuine(n: Node, e: Event)
    requires NodeInv(n) && Enabled(n, e)
    ensures forall m :: m in Sends(n, e) ==> Genuine(Next(n, e), m)
    ensures forall m :: Genuine(n, m) ==> Genuine(Next(n, e), m)
  {
    StepPersists(n, e);
    StepKeepsConfig(n, e);
    PeeredStep(n, e);
  }

  lemma SenderStep(s: System, e: Event)
    requires Half(s) && EnabledA(s, e)
    ensures Half(StepA(s, e))
  {
    SendsGenuine(s.a, e);
    StepKeepsInv(s.a, e);
    StepPersists(s.a, e);
    StepKeepsConfig(s.a, e);
  }

  /** What one step of b tells it: only a frame read from a, its version and its verack. */
  lemma Learns(b: Node, e: Event)
    requires Enabled(b, e)
    ensures Next(b, e).reader.Reading? ==> Next(b, e).reader == b.reader || e == Receive(Next(b, e).reader.m)
    ensures Next(b, e).channel.peer != b.channel.peer ==>
            e.Deliver? && b.reader.m.VersionMsg? && Next(b, e).channel.peer == Some(b.reader.m.v)
    ensures VerackEvent in Sources(Next(b, e).core) && VerackEvent !in Sources(b.core) ==>
            e.Deliver? && b.reader.m.Verack?
  {
    StepReader(b, e);
    StepCalls(b, e);
    match Posted(b, e)
    case Some(c) => SourcesPosted(b.core, c.src, c.ec);
    case None =>
      match e
      case LoadHandler(i) => SourcesKept(b.core, i);
      case CheckHandler(i) => SourcesKept(b.core, i);
      case InvokeHandler(i) => SourcesKept(b.core, i);
      case _ => assert Sources(Next(b, e).core) == Sources(b.core);
  }

  lemma ReceiverStep(s: System, e: Event)
    requires SystemInv(s) && EnabledA(s, e)
    ensures Half(Swap(StepA(s, e)))
  {
    Learns(s.a, e);
    if e.Receive? {
      assert s.ba[0] in s.ba;
      assert forall m :: m in s.ba[1..] ==> m in s.ba;
    }
  }

  ghost predicate SystemPersists(s: System, later: System) {
    Persists(s.a, later.a) && Persists(s.b, later.b)
  }

  lemma SystemPersistsOn(s: System, m: System, later: System)
    requires SystemPersists(s, m) && SystemPersists(m, later)
    ensures SystemPersists(s, later)
  {
    PersistsOn(s.a, m.a, later.a);
    PersistsOn(s.b, m.b, later.b);
  }

  lemma StepKeepsSystemInv(s: System, s': System)
    requires SystemInv(s) && SystemStep(s, s')
    ensures SystemInv(s')
    ensures SystemPersists(s, s')
    ensures s'.a.cfg == s.a.cfg && s'.b.cfg == s.b.cfg
  {
    if e :| EnabledA(s, e) && s' == StepA(s, e) {
      SenderStep(s, e);
      ReceiverStep(s, e);
      StepPersists(s.a, e);
      StepKeepsConfig(s.a, e);
    } else {
      var t, t' := Swap(s), Swap(s');
      var e :| EnabledA(t, e) && t' == StepA(t, e);
      assert Swap(t) == s && Swap(t') == s';
      SenderStep(t, e);
      ReceiverStep(t, e);
      StepPersists(t.a, e);
      StepKeepsConfig(t.a, e);
    }
  }

  lemma {:induction false} RunKeepsSystemInv(cfgA: Config, cfgB: Config, run: seq<System>, k: nat)
    requires IsSystemRun(cfgA, cfgB, run) && k < |run|
    ensures SystemInv(run[k]) && run[k].a.cfg == cfgA && run[k].b.cfg == cfgB
  {
    if k == 0 {
      InitialInv(cfgA);
      InitialInv(cfgB);
    } else {
      RunKeepsSystemInv(cfgA, cfgB, run, k - 1);
      assert SystemStep(run[k - 1], run[k - 1 + 1]);
      StepKeepsSystemInv(run[k - 1], run[k]);
    }
  }

  lemma {:induction false} ChainPersists(run: seq<System>, k: nat, l: nat)
    requires k <= l < |run|
    requires forall i :: k <= i < l ==> SystemPersists(run[i], run[i + 1])
    ensures SystemPersists(run[k], run[l])
    decreases l - k
  {
    if k < l {
      ChainPersists(run, k, l - 1);
      assert SystemPersists(run[l - 1], run[l - 1 + 1]);
      SystemPersistsOn(run[k], run[l - 1], run[l]);
    }
  }

  lemma RunPersists(cfgA: Config, cfgB: Config, run: seq<System>, k: nat, l: nat)
    requires IsSystemRun(cfgA, cfgB, run) && k <= l < |run|
    ensures SystemPersists(run[k], run[l])
  {
    forall i | k <= i < l
      ensures SystemPersists(run[i], run[i + 1])
    {
      RunKeepsSystemInv(cfgA, cfgB, run, i);
      StepKeepsSystemInv(run[i], run[i + 1]);
    }
    ChainPersists(run, k, l);
  }

  /** What a node configured like this says of itself; only a seed session hides its services. */
  predicate Describes(v: VersionMessage, cfg: Config) {
    && v.value == cfg.settings.protocolMaximum
    && v.services == (if cfg.kind.Seed? then {} else cfg.settings.services)
    && v.nonce == cfg.nonce
  }

  /** Each end knows the other's version, services and nonce, and both hold the smaller of the two versions. */
  ghost predicate Agreed(s: System, cfgA: Config, cfgB: Config) {
    && s.a.channel.peer.Some? && Describes(s.a.channel.peer.value, cfgB)
    && s.b.channel.peer.Some? && Describes(s.b.channel.peer.value, cfgA)
    && s.a.channel.negotiated == s.b.channel.negotiated
    && s.a.channel.negotiated == Min(cfgA.settings.protocolMaximum, cfgB.settings.protocolMaximum)
  }

  /**
   Two-node agreement: in every run, from the moment either end's handshake has succeeded, each end
   has accepted the other's version and both hold the same negotiated version for the rest of the run.
   */
  lemma Agreement(cfgA: Config, cfgB: Config, run: seq<System>, k: nat, l: nat)
    requires IsSystemRun(cfgA, cfgB, run) && k <= l < |run|
    requires run[k].a.core.completions == [Success] || run[k].b.core.completions == [Success]
    ensures Agreed(run[l], cfgA, cfgB)
  {
    RunKeepsSystemInv(cfgA, cfgB, run, k);
    SuccessMeansBothAccepted(run[k]);
    RunPersists(cfgA, cfgB, run, k, l);
    RunKeepsSystemInv(cfgA, cfgB, run, l);
    AcceptedMeansAgreed(run[l]);
  }

  lemma SuccessOfA(s: System)
    requires SystemInv(s) && s.a.core.completions == [Success]
    ensures s.a.channel.peer.Some? && s.b.channel.peer.Some?
  {
    SuccessIsEarned(s.a);
    var c, i, j := s.a.core, s.a.core.counted[0], s.a.core.counted[1];
    assert Sources(c)[i] == c.calls[i].src && Sources(c)[j] == c.calls[j].src;
    assert VerackEvent in {c.calls[i].src, c.calls[j].src};
  }

  lemma SuccessMeansBothAccepted(s: System)
    requires SystemInv(s)
    requires s.a.core.completions == [Success] || s.b.core.completions == [Success]
    ensures s.a.channel.peer.Some? && s.b.channel.peer.Some?
  {
    if s.a.core.completions == [Success] {
      SuccessOfA(s);
    } else {
      assert Swap(Swap(s)) == s;
      SuccessOfA(Swap(s));
    }
  }

  lemma AcceptedMeansAgreed(s: System)
    requires SystemInv(s) && s.a.channel.peer.Some? && s.b.channel.peer.Some?
    ensures Agreed(s, s.a.cfg, s.b.cfg)
  {
  }
}
