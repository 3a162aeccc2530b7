/**
 The seed protocol on one channel (protocol_seed_31402): a three-event join fed by the sending of our
 own address, the sending of the address request and the storing of the received addresses, racing
 the timer and the channel stop. Every handler may run on its own thread.
 */
module SeedProtocol {
  import opened Codes
  import opened Events

  datatype Source = OwnAddressEvent | GetAddressEvent | StoreEvent | TimerEvent | StopEvent

  /** Callbacks still owed to the protocol: sends in progress, subscriptions, the list store, the timer. */
  datatype Owed = Owed(own: bool, get: bool, address: bool, store: bool, timer: bool, stop: bool)

  datatype Seed = Seed(
    selfPort: nat,          // settings.self.port()
    boot: nat,              // position in the start sequence, BOOTED when done
    core: Core<Source>,
    owed: Owed,
    closed: bool,           // the channel's subscribers no longer accept subscription
    stops: seq<Code>)       // codes the protocol stopped the channel with

  const BOOTED: nat := 6

  function Initial(selfPort: nat): Seed {
    Seed(selfPort, 0, Fresh(3), Owed(false, false, false, false, false, false), false, [])
  }

  datatype Event =
    | Boot
    | OwnAddressSent(ec: Code)
    | GetAddressSent(ec: Code)
    | AddressesReceived(ec: Code)
    | AddressesStored(ec: Code)
    | TimerFires
    | RelayStop
    | CloseSubscribers
    | LoadHandler(i: nat)
    | CheckHandler(i: nat)
    | InvokeHandler(i: nat)

  predicate Enabled(p: Seed, e: Event) {
    match e
    case Boot => p.boot < BOOTED
    case OwnAddressSent(_) => p.owed.own
    case GetAddressSent(_) => p.owed.get
    case AddressesReceived(_) => p.owed.address
    case AddressesStored(_) => p.owed.store
    case TimerFires => p.owed.timer
    case RelayStop => p.closed && p.owed.stop
    case CloseSubscribers => true
    case LoadHandler(i) => InPhase(p.core, i, Loading)
    case CheckHandler(i) => InPhase(p.core, i, Checking)
    case InvokeHandler(i) => InPhase(p.core, i, Invoking)
  }

  /** protocol_events::stopped(ec). */
  predicate StoppedBy(p: Seed, ec: Code) {
    !p.core.handler || IsStop(ec)
  }

  /** The call, if any, that enters set_event in a step. */
  function Posted(p: Seed, e: Event): Option<Call<Source>>
    requires Enabled(p, e)
  {
    match e
    case Boot =>
      if p.boot == 1 && p.closed then Some(Call(StopEvent, ChannelStopped, Loading))
      else if p.boot == 4 && p.selfPort == 0 then Some(Call(OwnAddressEvent, Success, Loading))
      else None
    case OwnAddressSent(ec) =>
      // A failed send counts as well: only a stop code is looked at.
      if StoppedBy(p, ec) then None else Some(Call(OwnAddressEvent, Success, Loading))
    case GetAddressSent(ec) => if StoppedBy(p, ec) then None else Some(Call(GetAddressEvent, ec, Loading))
    case AddressesStored(ec) =>
      if StoppedBy(p, ec) then None
      else Some(Call(StoreEvent, if ec != Success then ec else ChannelStopped, Loading))
    case TimerFires => if p.core.handler then Some(Call(TimerEvent, ChannelTimeout, Loading)) else None
    case RelayStop => Some(Call(StopEvent, ChannelStopped, Loading))
    case _ => None
  }

  function CoreNext(p: Seed, e: Event): Core<Source>
    requires Enabled(p, e)
  {
    match Posted(p, e)
    case Some(c) => Post(p.core, c.src, c.ec)
    case None =>
      match e
      case Boot => if p.boot == 0 then p.core.(handler := true) else p.core
      case LoadHandler(i) => Load(p.core, i)
      case CheckHandler(i) => Check(p.core, i)
      case InvokeHandler(i) => Invoke(p.core, i)
      case _ => p.core
  }

  function OwedNext(p: Seed, e: Event): Owed
    requires Enabled(p, e)
  {
    match e
    case Boot =>
      (match p.boot
       case 1 => p.owed.(stop := !p.closed)
       case 2 => p.owed.(timer := p.core.handler)
       case 3 => p.owed.(address := !p.closed)
       case 4 => p.owed.(own := p.selfPort != 0)
       case 5 => p.owed.(get := true)
       case _ => p.owed)
    case OwnAddressSent(_) => p.owed.(own := false)
    case GetAddressSent(_) => p.owed.(get := false)
    case AddressesReceived(ec) => p.owed.(address := false, store := !StoppedBy(p, ec))
    case AddressesStored(_) => p.owed.(store := false)
    case TimerFires => p.owed.(timer := false)
    case RelayStop => p.owed.(stop := false)
    case InvokeHandler(i) => p.owed.(timer := p.owed.timer && p.core.calls[i].ec != ChannelStopped)
    case _ => p.owed
  }

  /** handle_seeding_complete passes the join's code on and stops the channel with it. */
  function Next(p: Seed, e: Event): Seed
    requires Enabled(p, e)
  {
    p.(boot := if e.Boot? then p.boot + 1 else p.boot,
       core := CoreNext(p, e),
       owed := OwedNext(p, e),
       closed := p.closed || e.CloseSubscribers?,
       stops := p.stops + if e.InvokeHandler? then Fires(p.core, e.i) else [])
  }

  // ---------------------------------------------------------------------------------------------
  // Invariant
  // ---------------------------------------------------------------------------------------------

  /** The source may still enter set_event. */
  predicate Live(p: Seed, src: Source) {
    match src
    case StopEvent => p.boot <= 1 || p.owed.stop
    case TimerEvent => p.boot <= 2 || p.owed.timer
    case StoreEvent => p.boot <= 3 || p.owed.address || p.owed.store
    case OwnAddressEvent => p.boot <= 4 || p.owed.own
    case GetAddressEvent => p.boot <= 5 || p.owed.get
  }

  ghost predicate OneShot(p: Seed) {
    && (forall i, j :: 0 <= i < j < |p.core.calls| ==> Sources(p.core)[i] != Sources(p.core)[j])
    && forall src :: Live(p, src) ==> src !in Sources(p.core)
  }

  ghost predicate BootOrder(p: Seed) {
    && p.boot <= BOOTED
    && (p.boot <= 1 ==> !p.owed.stop)
    && (p.boot <= 2 ==> !p.owed.timer)
    && (p.boot <= 3 ==> !p.owed.address)
    && (p.boot <= 4 ==> !p.owed.own)
    && (p.boot <= 5 ==> !p.owed.get)
    && (p.owed.store ==> p.boot > 3 && !p.owed.address)
  }

  /** Only the two sends post success. */
  ghost predicate TwoSuccesses(calls: seq<Call<Source>>) {
    forall i :: 0 <= i < |calls| && calls[i].ec == Success ==>
      calls[i].src.OwnAddressEvent? || calls[i].src.GetAddressEvent?
  }

  ghost predicate SeedInv(p: Seed) {
    && CoreInv(p.core, 3)
    && OneShot(p)
    && BootOrder(p)
    && TwoSuccesses(p.core.calls)
    && p.stops == p.core.completions
  }

  lemma InitialInv(selfPort: nat)
    ensures SeedInv(Initial(selfPort))
  {
    FreshInv<Source>(3);
  }

  lemma CoreStep(p: Seed, e: Event)
    requires CoreInv(p.core, 3) && Enabled(p, e)
    ensures CoreInv(CoreNext(p, e), 3)
  {
    match Posted(p, e)
    case Some(c) => PostInv(p.core, 3, c.src, c.ec);
    case None =>
      match e
      case Boot => assert Heard(p.core.(handler := true)) == Heard(p.core);
      case LoadHandler(i) => LoadInv(p.core, 3, i);
      case CheckHandler(i) => CheckInv(p.core, 3, i);
      case InvokeHandler(i) => InvokeInv(p.core, 3, i);
      case _ =>
  }

  lemma LiveStep(p: Seed, e: Event)
    requires Enabled(p, e) && BootOrder(p)
    ensures Posted(p, e).Some? ==> Live(p, Posted(p, e).value.src) && !Live(Next(p, e), Posted(p, e).value.src)
    ensures forall src :: Live(Next(p, e), src) ==> Live(p, src)
    ensures BootOrder(Next(p, e))
  {
  }

  lemma OneShotStep(p: Seed, e: Event)
    requires OneShot(p) && BootOrder(p) && Enabled(p, e)
    ensures OneShot(Next(p, e))
  {
    LiveStep(p, e);
    match Posted(p, e)
    case Some(c) => SourcesPosted(p.core, c.src, c.ec);
    case None =>
      match e
      case LoadHandler(i) => SourcesKept(p.core, i);
      case CheckHandler(i) => SourcesKept(p.core, i);
      case InvokeHandler(i) => SourcesKept(p.core, i);
      case _ => assert Sources(Next(p, e).core) == Sources(p.core);
  }

  lemma SuccessesStep(p: Seed, e: Event)
    requires TwoSuccesses(p.core.calls) && Enabled(p, e)
    ensures TwoSuccesses(CoreNext(p, e).calls)
  {
  }

  lemma StepKeepsInv(p: Seed, e: Event)
    requires SeedInv(p) && Enabled(p, e)
    ensures SeedInv(Next(p, e))
    ensures p.core.completions != [] ==> Next(p, e).core.completions == p.core.completions
  {
    hide CoreInv, OneShot, BootOrder, TwoSuccesses, OwedNext;
    CoreStep(p, e);
    LiveStep(p, e);
    OneShotStep(p, e);
    if e.InvokeHandler? { FiresOwnCode(p.core, 3, e.i); }
    SuccessesStep(p, e);
  }

  lemma NotThreeSuccesses(p: Seed, i: nat, j: nat, k: nat)
    requires OneShot(p) && TwoSuccesses(p.core.calls)
    requires i < |p.core.calls| && j < |p.core.calls| && k < |p.core.calls| && i != j && j != k && i != k
    ensures p.core.calls[i].ec != Success || p.core.calls[j].ec != Success || p.core.calls[k].ec != Success
  {
    var c := p.core;
    assert Sources(c)[i] == c.calls[i].src && Sources(c)[j] == c.calls[j].src && Sources(c)[k] == c.calls[k].src;
  }

  /**
   The seed protocol never completes with success: its join needs three successes and only the two
   sends ever post one, each once. It completes at most once, and every code it stops the channel
   with is an error code.
   */
  lemma NeverSucceeds(p: Seed)
    requires SeedInv(p)
    ensures |p.core.completions| <= 1
    ensures Success !in p.core.completions
    ensures forall k :: 0 <= k < |p.stops| ==> p.stops[k] != Success
  {
    Completion(p.core, 3);
    var c := p.core;
    if |c.counted| >= 3 { NotThreeSuccesses(p, c.counted[0], c.counted[1], c.counted[2]); }
  }

  ghost predicate StepsTo(p: Seed, p': Seed) {
    exists e :: Enabled(p, e) && p' == Next(p, e)
  }

  ghost predicate IsRun(selfPort: nat, run: seq<Seed>) {
    && |run| > 0 && run[0] == Initial(selfPort)
    && forall k :: 0 <= k < |run| - 1 ==> StepsTo(run[k], run[k + 1])
  }

  lemma StepFacts(p: Seed, p': Seed)
    requires SeedInv(p) && StepsTo(p, p')
    ensures SeedInv(p')
  {
    var e :| Enabled(p, e) && p' == Next(p, e);
    StepKeepsInv(p, e);
  }

  lemma {:induction false} RunKeepsInv(selfPort: nat, run: seq<Seed>, k: nat)
    requires IsRun(selfPort, run) && k < |run|
    ensures SeedInv(run[k])
  {
    if k == 0 {
      InitialInv(selfPort);
    } else {
      RunKeepsInv(selfPort, run, k - 1);
      assert StepsTo(run[k - 1], run[k - 1 + 1]);
      StepFacts(run[k - 1], run[k]);
    }
  }

  /** In every run, whatever the interleaving. */
  lemma RunNeverSucceeds(selfPort: nat, run: seq<Seed>, k: nat)
    requires IsRun(selfPort, run) && k < |run|
    ensures |run[k].core.completions| <= 1 && Success !in run[k].core.completions
    ensures forall i :: 0 <= i < |run[k].stops| ==> run[k].stops[i] != Success
  {
    RunKeepsInv(selfPort, run, k);
    NeverSucceeds(run[k]);
  }
}
