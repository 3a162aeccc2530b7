/**
 One end of the version handshake: protocol_version_31402/70002 over protocol_timer and
 protocol_events, driven by the channel's read thread and racing the timer, relayed rejects and
 the channel stop. A Node is a value; an Event is one atomic step of one thread.
 */
module Handshake {
  import opened Codes
  import opened Events
  import opened Version

  datatype RejectReason = Obsolete | Duplicate | OtherReason
  datatype RejectNote = RejectNote(ofVersion: bool, reason: RejectReason)

  /** Application stands for the types only post-handshake protocols subscribe to (ping, address). */
  datatype Msg = VersionMsg(v: VersionMessage) | Verack | RejectMsg(r: RejectNote) | Application(id: nat)

  datatype Source = VersionEvent | VerackEvent | TimerEvent | RejectEvent | StopEvent

  datatype Reader =
    | Unstarted
    | Idle
    | Reading(m: Msg)
    | Handling(call: nat)   // inside set_event on the read thread
    | Registering           // the completing call is storing the channel
    | Attaching             // the completing call is attaching the post-handshake protocols

  datatype Config = Config(settings: Settings, levels: Levels, kind: SessionKind, nonce: nat)

  /** A frame taken off the wire: whether some handler was subscribed, and whether subscribers were closed. */
  datatype Entry = Entry(m: Msg, heard: bool, closed: bool)

  /** Live subscriptions of the protocol, and its armed timer. */
  datatype Subs = Subs(version: bool, verack: bool, reject: bool, stop: bool, timer: bool)

  datatype Channel = Channel(
    stopped: bool,                 // the stop flag
    closed: bool,                  // its subscribers no longer accept subscription
    negotiated: nat,
    peer: Option<VersionMessage>)

  datatype Handoff = Handoff(
    registered: Option<Code>,      // result of storing the channel after a successful handshake
    at: nat,                       // frames read when it was stored
    post: bool,                    // post-handshake protocols are subscribed
    log: seq<Entry>)               // every frame read

  datatype Node = Node(
    cfg: Config,
    boot: nat,                     // position of the starting thread in the start sequence
    reader: Reader,
    core: Core<Source>,
    subs: Subs,
    channel: Channel,
    rejects: seq<RejectNote>,      // relayed, not yet handled
    handoff: Handoff)

  const BOOTED: nat := 7

  function ParamsOf(cfg: Config): Params {
    SessionParams(cfg.kind, cfg.settings)
  }

  function VersionFactory(cfg: Config): VersionMessage {
    VersionMessage(ParamsOf(cfg).ownVersion, ParamsOf(cfg).ownServices, cfg.nonce)
  }

  function Initial(cfg: Config): Node {
    Node(cfg, 0, Unstarted, Fresh(2), Subs(false, false, false, false, false),
         Channel(false, false, cfg.settings.protocolMaximum, None), [], Handoff(None, 0, false, []))
  }

  // ---------------------------------------------------------------------------------------------
  // Steps
  // ---------------------------------------------------------------------------------------------

  datatype Event =
    | Boot                     // next statement of the start sequence
    | Receive(m: Msg)          // a whole frame has been read
    | Deliver                  // it reaches its subscribers
    | HandleReject             // a relayed reject reaches handle_receive_reject
    | TimerFires
    | LoadHandler(i: nat)
    | CheckHandler(i: nat)
    | InvokeHandler(i: nat)
    | Store(ec: Code)          // the completing call stores the channel, with this result
    | Attach
    | StopChannel
    | CloseSubscribers
    | BroadcastStop(src: Source)
    | BroadcastPost            // the stop ends the post-handshake protocols' subscriptions
    | RelayStop

  predicate Enabled(n: Node, e: Event) {
    match e
    case Boot => n.boot < BOOTED
    case Receive(_) => n.reader.Idle? && !n.channel.stopped
    case Deliver => n.reader.Reading?
    case HandleReject => n.rejects != []
    case TimerFires => n.subs.timer
    case LoadHandler(i) => InPhase(n.core, i, Loading)
    case CheckHandler(i) => InPhase(n.core, i, Checking)
    case InvokeHandler(i) => InPhase(n.core, i, Invoking)
    case Store(_) => n.reader.Registering?
    case Attach => n.reader.Attaching?
    case StopChannel => true
    case CloseSubscribers => n.channel.stopped
    case BroadcastStop(_) => n.channel.closed
    case BroadcastPost => n.channel.closed
    case RelayStop => n.channel.closed && n.subs.stop
  }

  /** The start sequence, statement by statement; reading begins only after the last one. */
  function BootStep(n: Node): Node
    requires n.boot < BOOTED
  {
    var open := !n.channel.closed;
    match n.boot
    case 0 => n.(boot := 1, core := n.core.(handler := true))
    case 1 =>
      if open then n.(boot := 2, subs := n.subs.(stop := true))
      else n.(boot := 2, core := Post(n.core, StopEvent, ChannelStopped))
    case 2 => n.(boot := 3, subs := n.subs.(timer := n.core.handler))
    case 3 => n.(boot := 4, subs := n.subs.(version := open))
    case 4 => n.(boot := 5, subs := n.subs.(verack := open))
    case 5 => n.(boot := 6)
    case _ => n.(boot := BOOTED, reader := Idle,
                 subs := n.subs.(reject := open && HandlesReject(n.cfg.settings, n.cfg.levels)))
  }

  function BootSends(n: Node): seq<Msg> {
    if n.boot == 5 then [VersionMsg(VersionFactory(n.cfg))] else []
  }

  /** What handle_receive_version makes of a message while its handler is set. */
  predicate Accepts(n: Node, v: VersionMessage) {
    Configured(n.cfg.settings, n.cfg.levels) && SufficientPeer(ParamsOf(n.cfg), v)
  }

  /** handle_receive_version on a live subscription (one-shot), up to its set_event. */
  function ReceiveVersion(n: Node, v: VersionMessage): Node {
    var done := n.subs.(version := false);
    if !n.core.handler then
      n.(subs := done, reader := Idle)
    else if !Accepts(n, v) then
      n.(subs := done, core := Post(n.core, VersionEvent, ChannelStopped), reader := Handling(|n.core.calls|))
    else
      n.(subs := done, core := Post(n.core, VersionEvent, Success), reader := Handling(|n.core.calls|),
         channel := n.channel.(negotiated := Negotiate(ParamsOf(n.cfg), v), peer := Some(v)))
  }

  function VersionSends(n: Node, v: VersionMessage): seq<Msg> {
    if !n.subs.version || !n.core.handler || !Configured(n.cfg.settings, n.cfg.levels) then []
    else if SufficientPeer(ParamsOf(n.cfg), v) then [Verack]
    else if HandlesReject(n.cfg.settings, n.cfg.levels) && SufficientOrReject(ParamsOf(n.cfg), v).1.Some? then
      [RejectMsg(RejectNote(true, Obsolete))]
    else []
  }

  /** handle_receive_verack on a live subscription (one-shot), up to its set_event. */
  function ReceiveVerack(n: Node): Node {
    var done := n.subs.(verack := false);
    if !n.core.handler then n.(subs := done, reader := Idle)
    else n.(subs := done, core := Post(n.core, VerackEvent, Success), reader := Handling(|n.core.calls|))
  }

  function Noted(n: Node, m: Msg, heard: bool): Handoff {
    n.handoff.(log := n.handoff.log + [Entry(m, heard, n.channel.closed)])
  }

  /** Version and verack are invoked in line; rejects are relayed to another thread. */
  function DeliverStep(n: Node): Node
    requires n.reader.Reading?
  {
    var m := n.reader.m;
    match m
    case VersionMsg(v) =>
      if n.subs.version then ReceiveVersion(n, v).(handoff := Noted(n, m, true))
      else n.(reader := Idle, handoff := Noted(n, m, false))
    case Verack =>
      if n.subs.verack then ReceiveVerack(n).(handoff := Noted(n, m, true))
      else n.(reader := Idle, handoff := Noted(n, m, false))
    case RejectMsg(r) => n.(reader := Idle, handoff := Noted(n, m, n.subs.reject), rejects := n.rejects + [r])
    case Application(_) => n.(reader := Idle, handoff := Noted(n, m, n.handoff.post))
  }

  /** handle_receive_reject: resubscribes unless the reject refuses our version message. */
  function RejectStep(n: Node): Node
    requires n.rejects != []
  {
    var r := n.rejects[0];
    if !n.subs.reject then n.(rejects := n.rejects[1..])
    else if !n.core.handler then n.(rejects := n.rejects[1..], subs := n.subs.(reject := false))
    else if r.ofVersion && !r.reason.OtherReason? then
      n.(rejects := n.rejects[1..], subs := n.subs.(reject := false),
         core := Post(n.core, RejectEvent, ChannelStopped))
    else n.(rejects := n.rejects[1..])
  }

  function Released(n: Node, i: nat): Reader {
    if n.reader == Handling(i) then Idle else n.reader
  }

  /** handle_notify, the join, and what the completion handler does with its code. */
  function InvokeStep(n: Node, i: nat): Node
    requires InPhase(n.core, i, Invoking)
  {
    var fired := Fires(n.core, i);
    n.(core := Invoke(n.core, i),
       subs := n.subs.(timer := n.subs.timer && n.core.calls[i].ec != ChannelStopped),
       reader := if fired == [Success] then Registering else Released(n, i),
       channel := n.channel.(stopped := n.channel.stopped || (fired != [] && fired != [Success])))
  }

  /** The completing call stores the channel: attach on success, stop the channel otherwise. */
  function StoreStep(n: Node, ec: Code): Node {
    n.(handoff := n.handoff.(registered := Some(ec), at := |n.handoff.log|),
       reader := if ec == Success then Attaching else Idle,
       channel := n.channel.(stopped := n.channel.stopped || ec != Success))
  }

  function Next(n: Node, e: Event): Node
    requires Enabled(n, e)
  {
    match e
    case Boot => BootStep(n)
    case Receive(m) => n.(reader := Reading(m))
    case Deliver => DeliverStep(n)
    case HandleReject => RejectStep(n)
    case TimerFires =>
      n.(subs := n.subs.(timer := false),
         core := if n.core.handler then Post(n.core, TimerEvent, ChannelTimeout) else n.core)
    case LoadHandler(i) =>
      n.(core := Load(n.core, i), reader := if n.core.handler then n.reader else Released(n, i))
    case CheckHandler(i) => n.(core := Check(n.core, i))
    case InvokeHandler(i) => InvokeStep(n, i)
    case Store(ec) => StoreStep(n, ec)
    case Attach => n.(handoff := n.handoff.(post := !n.channel.closed), reader := Idle)
    case StopChannel => n.(channel := n.channel.(stopped := true))
    case CloseSubscribers => n.(channel := n.channel.(closed := true))
    case BroadcastStop(src) =>
      n.(subs := n.subs.(version := n.subs.version && src != VersionEvent,
                         verack := n.subs.verack && src != VerackEvent,
                         reject := n.subs.reject && src != RejectEvent))
    case BroadcastPost => n.(handoff := n.handoff.(post := false))
    case RelayStop => n.(subs := n.subs.(stop := false), core := Post(n.core, StopEvent, ChannelStopped))
  }

  /** Messages a step puts on the wire. */
  function Sends(n: Node, e: Event): seq<Msg>
    requires Enabled(n, e)
  {
    match e
    case Boot => BootSends(n)
    case Deliver => if n.reader.m.VersionMsg? then VersionSends(n, n.reader.m.v) else []
    case _ => []
  }

  // ---------------------------------------------------------------------------------------------
  // Invariant
  // ---------------------------------------------------------------------------------------------

  predicate OnReader(src: Source) {
    src.VersionEvent? || src.VerackEvent?
  }

  predicate InFlight(phase: Phase) {
    phase.Loading? || phase.Checking? || phase.Invoking?
  }

  predicate Distinct(sources: seq<Source>) {
    forall i, j :: 0 <= i < j < |sources| ==> sources[i] != sources[j]
  }

  /** The source may still enter set_event. */
  predicate Live(n: Node, src: Source) {
    match src
    case StopEvent => n.boot <= 1 || n.subs.stop
    case TimerEvent => n.boot <= 2 || n.subs.timer
    case VersionEvent => n.boot <= 3 || n.subs.version
    case VerackEvent => n.boot <= 4 || n.subs.verack
    case RejectEvent => n.boot < BOOTED || n.subs.reject
  }

  /** Every event source enters set_event at most once: a live source has not entered yet. */
  ghost predicate OneShot(n: Node) {
    && Distinct(Sources(n.core))
    && forall src :: Live(n, src) ==> src !in Sources(n.core)
  }

  /** Before its statement of the start sequence has run, nothing is subscribed. */
  ghost predicate BootOrder(n: Node) {
    && n.boot <= BOOTED
    && (n.boot < BOOTED <==> n.reader.Unstarted?)
    && (n.boot <= 1 ==> !n.subs.stop)
    && (n.boot <= 2 ==> !n.subs.timer)
    && (n.boot <= 3 ==> !n.subs.version)
    && (n.boot <= 4 ==> !n.subs.verack)
    && (n.boot < BOOTED ==> !n.subs.reject && n.rejects == [])
  }

  /** Only an accepted version and a verack post success. */
  ghost predicate SuccessEarned(calls: seq<Call<Source>>, accepted: bool) {
    && (forall i :: 0 <= i < |calls| && calls[i].ec == Success ==> OnReader(calls[i].src))
    && (forall i :: 0 <= i < |calls| && calls[i].ec == Success && calls[i].src.VersionEvent? ==> accepted)
  }

  /** An accepted peer passed every check, and fixed the negotiated version. */
  ghost predicate Peered(n: Node) {
    && (match n.channel.peer
        case Some(v) => Accepts(n, v) && n.channel.negotiated == Negotiate(ParamsOf(n.cfg), v)
        case None => n.channel.negotiated == n.cfg.settings.protocolMaximum)
    && (n.boot <= 3 || n.subs.version ==> n.channel.peer.None?)
  }

  /** The read thread is where a version or verack call is in flight, and nowhere else. */
  ghost predicate ReaderOwns(calls: seq<Call<Source>>, reader: Reader) {
    && (reader.Handling? ==> && reader.call < |calls|
                             && OnReader(calls[reader.call].src)
                             && InFlight(calls[reader.call].phase))
    && (forall i :: 0 <= i < |calls| && OnReader(calls[i].src) && InFlight(calls[i].phase)
                    ==> reader == Handling(i))
  }

  /** Success runs registration and attachment to their end on the read thread. */
  ghost predicate HandsOff(n: Node) {
    && (n.core.completions == [Success] <==> n.reader.Registering? || n.handoff.registered.Some?)
    && (n.reader.Registering? ==> n.handoff.registered.None?)
    && (n.reader.Attaching? ==> n.handoff.registered == Some(Success))
    && (n.handoff.registered == Some(Success) ==> n.handoff.post || n.reader.Attaching? || n.channel.closed)
    && (n.handoff.post ==> n.handoff.registered == Some(Success))
  }

  predicate IsA(m: Msg, verack: bool) {
    if verack then m.Verack? else m.VersionMsg?
  }

  ghost predicate Seen(log: seq<Entry>, verack: bool) {
    exists j :: 0 <= j < |log| && IsA(log[j].m, verack)
  }

  /** A version (or verack) frame goes unheard only after an earlier one, or once subscribers closed. */
  ghost predicate FirstHeard(log: seq<Entry>, verack: bool) {
    forall i :: 0 <= i < |log| && IsA(log[i].m, verack) && !log[i].heard ==> log[i].closed || Seen(log[..i], verack)
  }

  /** Which frames may have gone unheard. */
  ghost predicate NothingLost(n: Node) {
    && FirstHeard(n.handoff.log, false)
    && FirstHeard(n.handoff.log, true)
    && (n.boot <= 3 || n.channel.closed || n.subs.version || Seen(n.handoff.log, false))
    && (n.boot <= 4 || n.channel.closed || n.subs.verack || Seen(n.handoff.log, true))
    && n.handoff.at <= |n.handoff.log|
    && (n.handoff.registered == Some(Success) ==>
          forall i :: n.handoff.at <= i < |n.handoff.log| && n.handoff.log[i].m.Application? ==>
            n.handoff.log[i].heard || n.handoff.log[i].closed)
  }

  ghost predicate NodeInv(n: Node) {
    && CoreInv(n.core, 2)
    && OneShot(n)
    && BootOrder(n)
    && SuccessEarned(n.core.calls, n.channel.peer.Some?)
    && Peered(n)
    && ReaderOwns(n.core.calls, n.reader)
    && HandsOff(n)
    && NothingLost(n)
  }

  lemma InitialInv(cfg: Config)
    ensures NodeInv(Initial(cfg))
  {
    FreshInv<Source>(2);
  }

  /** The call, if any, that enters set_event in a step. */
  function Posted(n: Node, e: Event): Option<Call<Source>>
    requires Enabled(n, e)
  {
    match e
    case Boot =>
      if n.boot == 1 && n.channel.closed then Some(Call(StopEvent, ChannelStopped, Loading)) else None
    case Deliver =>
      if !n.core.handler then None
      else if n.reader.m.VersionMsg? && n.subs.version then
        Some(Call(VersionEvent, if Accepts(n, n.reader.m.v) then Success else ChannelStopped, Loading))
      else if n.reader.m.Verack? && n.subs.verack then Some(Call(VerackEvent, Success, Loading))
      else None
    case HandleReject =>
      if n.subs.reject && n.core.handler && n.rejects[0].ofVersion && !n.rejects[0].reason.OtherReason?
      then Some(Call(RejectEvent, ChannelStopped, Loading)) else None
    case TimerFires => if n.core.handler then Some(Call(TimerEvent, ChannelTimeout, Loading)) else None
    case RelayStop => Some(Call(StopEvent, ChannelStopped, Loading))
    case _ => None
  }

  /** What a step does to the calls: it posts one, or runs one a phase further, or leaves them alone. */
  function CoreNext(n: Node, e: Event): Core<Source>
    requires Enabled(n, e)
  {
    match Posted(n, e)
    case Some(c) => Post(n.core, c.src, c.ec)
    case None =>
      match e
      case Boot => if n.boot == 0 then n.core.(handler := true) else n.core
      case LoadHandler(i) => Load(n.core, i)
      case CheckHandler(i) => Check(n.core, i)
      case InvokeHandler(i) => Invoke(n.core, i)
      case _ => n.core
  }

  lemma StepCalls(n: Node, e: Event)
    requires Enabled(n, e)
    ensures Next(n, e).core == CoreNext(n, e)
  {
  }

  /** Only a live source posts, posting ends its life, and nothing revives a source. */
  lemma StepLive(n: Node, e: Event)
    requires Enabled(n, e) && BootOrder(n)
    ensures Posted(n, e).Some? ==> Live(n, Posted(n, e).value.src) && !Live(Next(n, e), Posted(n, e).value.src)
    ensures forall src :: Live(Next(n, e), src) ==> Live(n, src)
  {
    hide Post, Load, Check, Invoke, Fires, Accepts, HandlesReject;
  }

  lemma CoreStep(n: Node, e: Event)
    requires CoreInv(n.core, 2) && Enabled(n, e)
    ensures CoreInv(CoreNext(n, e), 2)
  {
    match Posted(n, e)
    case Some(c) => PostInv(n.core, 2, c.src, c.ec);
    case None =>
      match e
      case Boot => assert Heard(n.core.(handler := true)) == Heard(n.core);
      case LoadHandler(i) => LoadInv(n.core, 2, i);
      case CheckHandler(i) => CheckInv(n.core, 2, i);
      case InvokeHandler(i) => InvokeInv(n.core, 2, i);
      case _ =>
  }

  lemma BootOrderStep(n: Node, e: Event)
    requires BootOrder(n) && Enabled(n, e)
    requires e.InvokeHandler? ==> (Fires(n.core, e.i) == [Success] ==> n.reader == Handling(e.i))
    ensures BootOrder(Next(n, e))
  {
    hide Post, Load, Check, Invoke, Accepts, HandlesReject;
  }

  lemma OneShotStep(n: Node, e: Event)
    requires OneShot(n) && BootOrder(n) && Enabled(n, e)
    ensures OneShot(Next(n, e))
  {
    StepLive(n, e);
    StepCalls(n, e);
    match Posted(n, e)
    case Some(c) => SourcesPosted(n.core, c.src, c.ec);
    case None =>
      match e
      case LoadHandler(i) => SourcesKept(n.core, i);
      case CheckHandler(i) => SourcesKept(n.core, i);
      case InvokeHandler(i) => SourcesKept(n.core, i);
      case _ =>
        assert Sources(Next(n, e).core) == Sources(n.core);
  }

  lemma EarnedCalls(n: Node, e: Event, accepted: bool)
    requires SuccessEarned(n.core.calls, n.channel.peer.Some?) && Enabled(n, e)
    requires n.channel.peer.Some? ==> accepted
    requires e.Deliver? && n.reader.m.VersionMsg? && Posted(n, e).Some? && Accepts(n, n.reader.m.v) ==> accepted
    ensures SuccessEarned(CoreNext(n, e).calls, accepted)
  {
  }

  lemma PeeredStep(n: Node, e: Event)
    requires Peered(n) && BootOrder(n) && Enabled(n, e)
    ensures Peered(Next(n, e))
    ensures n.channel.peer.Some? ==> Next(n, e).channel.peer == n.channel.peer
    ensures e.Deliver? && n.reader.m.VersionMsg? && Posted(n, e).Some? && Accepts(n, n.reader.m.v)
        ==> Next(n, e).channel.peer.Some?
  {
    hide Post, Load, Check, Invoke, Fires, Configured, SufficientPeer, HandlesReject;
  }

  /** Where the read thread is after a step. */
  function ReaderNext(n: Node, e: Event): Reader
    requires Enabled(n, e)
  {
    match e
    case Boot => if n.boot == 6 then Idle else n.reader
    case Receive(m) => Reading(m)
    case Deliver => if Posted(n, e).Some? then Handling(|n.core.calls|) else Idle
    case LoadHandler(i) => if n.core.handler then n.reader else Released(n, i)
    case InvokeHandler(i) => if Fires(n.core, i) == [Success] then Registering else Released(n, i)
    case Store(ec) => if ec == Success then Attaching else Idle
    case Attach => Idle
    case _ => n.reader
  }

  lemma StepReader(n: Node, e: Event)
    requires Enabled(n, e)
    ensures Next(n, e).reader == ReaderNext(n, e)
  {
  }

  lemma ReaderStep(n: Node, e: Event)
    requires ReaderOwns(n.core.calls, n.reader) && (n.boot < BOOTED <==> n.reader.Unstarted?) && Enabled(n, e)
    requires e.InvokeHandler? ==> (Fires(n.core, e.i) == [Success] ==> n.reader == Handling(e.i))
    ensures ReaderOwns(CoreNext(n, e).calls, ReaderNext(n, e))
  {
    hide Accepts, HandlesReject;
  }

  lemma HandsOffStep(n: Node, e: Event)
    requires HandsOff(n) && BootOrder(n) && Enabled(n, e)
    requires e.InvokeHandler? ==> (Fires(n.core, e.i) == [Success] ==> n.reader == Handling(e.i))
    requires e.InvokeHandler? ==> (Fires(n.core, e.i) != [] ==> n.core.completions == [] && |Fires(n.core, e.i)| == 1)
    ensures HandsOff(Next(n, e))
  {
    hide Accepts, HandlesReject;
  }

  lemma SeenGrows(log: seq<Entry>, e: Entry, verack: bool)
    requires FirstHeard(log, verack)
    requires IsA(e.m, verack) && !e.heard ==> e.closed || Seen(log, verack)
    ensures FirstHeard(log + [e], verack)
    ensures Seen(log + [e], verack) <==> Seen(log, verack) || IsA(e.m, verack)
  {
    var grown := log + [e];
    assert grown[|log|] == e && forall j :: 0 <= j < |log| ==> grown[j] == log[j];
    forall i | 0 <= i < |grown| && IsA(grown[i].m, verack) && !grown[i].heard
      ensures grown[i].closed || Seen(grown[..i], verack)
    {
      if i < |log| {
        assert grown[..i] == log[..i];
      } else {
        assert grown[..i] == log;
      }
    }
  }

  /** What a delivery notes about its frame. */
  lemma DeliverNotes(n: Node)
    requires n.reader.Reading?
    ensures var e := Entry(n.reader.m,
                           match n.reader.m
                           case VersionMsg(_) => n.subs.version
                           case Verack => n.subs.verack
                           case RejectMsg(_) => n.subs.reject
                           case Application(_) => n.handoff.post,
                           n.channel.closed);
            DeliverStep(n).handoff == n.handoff.(log := n.handoff.log + [e])
    ensures DeliverStep(n).boot == n.boot && DeliverStep(n).channel.closed == n.channel.closed
    ensures n.subs.version && !DeliverStep(n).subs.version ==> n.reader.m.VersionMsg?
    ensures n.subs.verack && !DeliverStep(n).subs.verack ==> n.reader.m.Verack?
  {
  }

  lemma LostDeliver(n: Node)
    requires NothingLost(n) && n.boot == BOOTED && n.reader.Reading?
    requires n.handoff.registered == Some(Success) ==> n.handoff.post || n.channel.closed
    ensures NothingLost(DeliverStep(n))
  {
    DeliverNotes(n);
    var e := DeliverStep(n).handoff.log[|n.handoff.log|];
    SeenGrows(n.handoff.log, e, false);
    SeenGrows(n.handoff.log, e, true);
  }

  lemma LostStep(n: Node, e: Event)
    requires NothingLost(n) && BootOrder(n) && Enabled(n, e)
    requires n.handoff.registered == Some(Success) ==> n.handoff.post || n.reader.Attaching? || n.channel.closed
    ensures NothingLost(Next(n, e))
  {
    hide Post, Load, Check, Invoke, Fires, Accepts, HandlesReject, DeliverStep;
    if e.Deliver? { LostDeliver(n); }
  }

  /** Every step of every thread keeps the invariant. */
  lemma StepKeepsInv(n: Node, e: Event)
    requires NodeInv(n) && Enabled(n, e)
    ensures NodeInv(Next(n, e))
  {
    if e.InvokeHandler? { FiresOwnCode(n.core, 2, e.i); }
    StepCalls(n, e);
    StepReader(n, e);
    CoreStep(n, e);
    BootOrderStep(n, e);
    OneShotStep(n, e);
    PeeredStep(n, e);
    EarnedCalls(n, e, Next(n, e).channel.peer.Some?);
    ReaderStep(n, e);
    HandsOffStep(n, e);
    LostStep(n, e);
  }

  // ---------------------------------------------------------------------------------------------
  // Whole runs, against any peer
  // ---------------------------------------------------------------------------------------------

  /** A run: any interleaving of the node's threads, with any messages from the peer. */
  ghost predicate IsRun(cfg: Config, nodes: seq<Node>, events: seq<Event>) {
    && |nodes| == |events| + 1
    && nodes[0] == Initial(cfg)
    && forall k :: 0 <= k < |events| ==> Enabled(nodes[k], events[k]) && nodes[k + 1] == Next(nodes[k], events[k])
  }

  lemma {:induction false} RunKeepsInv(cfg: Config, nodes: seq<Node>, events: seq<Event>, k: nat)
    requires IsRun(cfg, nodes, events) && k < |nodes|
    ensures NodeInv(nodes[k]) && nodes[k].cfg == cfg
  {
    if k == 0 {
      InitialInv(cfg);
    } else {
      RunKeepsInv(cfg, nodes, events, k - 1);
      assert nodes[k - 1 + 1] == Next(nodes[k - 1], events[k - 1]);
      StepKeepsInv(nodes[k - 1], events[k - 1]);
      StepKeepsConfig(nodes[k - 1], events[k - 1]);
    }
  }

  lemma StepKeepsConfig(n: Node, e: Event)
    requires Enabled(n, e)
    ensures Next(n, e).cfg == n.cfg
  {
  }

  /** Calls i and j are the one accepted version and the one verack, in either order. */
  ghost predicate VersionAndVerack(c: Core<Source>, i: nat, j: nat) {
    && i < |c.calls| && j < |c.calls|
    && c.calls[i].ec == Success && c.calls[j].ec == Success
    && {c.calls[i].src, c.calls[j].src} == {VersionEvent, VerackEvent}
    && forall k :: 0 <= k < |c.calls| && k != i && k != j ==> !OnReader(c.calls[k].src)
  }

  /**
   The completion handler runs at most once. It runs with success exactly when the first two calls
   the join received are one accepted version and one verack: no timeout, reject or stop came first.
   */
  lemma SuccessIsEarned(n: Node)
    requires NodeInv(n)
    ensures |n.core.completions| <= 1
    ensures n.core.completions == [Success] <==>
            |n.core.counted| >= 2 && VersionAndVerack(n.core, n.core.counted[0], n.core.counted[1])
    ensures n.core.completions == [Success] ==>
            && n.channel.peer.Some?
            && Acceptable(n.cfg.kind, n.cfg.settings, n.cfg.levels, n.channel.peer.value, n.channel.negotiated)
  {
    Completion(n.core, 2);
    if n.core.completions == [Success] {
      var c, i, j := n.core, n.core.counted[0], n.core.counted[1];
      assert c.calls[i].src == Sources(c)[i] && c.calls[j].src == Sources(c)[j];
      assert i != j && OnReader(c.calls[i].src) && OnReader(c.calls[j].src);
      forall k | 0 <= k < |c.calls| && k != i && k != j
        ensures !OnReader(c.calls[k].src)
      {
        assert Sources(c)[k] == c.calls[k].src;
      }
      AcceptedPeer(n.cfg.kind, n.cfg.settings, n.cfg.levels, n.channel.peer.value);
    }
  }

  /** What later cannot take back: a completion, and an accepted peer with its negotiated version. */
  ghost predicate Persists(n: Node, later: Node) {
    && (n.core.completions != [] ==> later.core.completions == n.core.completions)
    && (n.channel.peer.Some? ==>
          later.channel.peer == n.channel.peer && later.channel.negotiated == n.channel.negotiated)
  }

  lemma StepPersists(n: Node, e: Event)
    requires NodeInv(n) && Enabled(n, e)
    ensures Persists(n, Next(n, e))
  {
    StepCalls(n, e);
    PeeredStep(n, e);
    StepKeepsConfig(n, e);
    if e.InvokeHandler? { FiresOwnCode(n.core, 2, e.i); }
  }

  lemma PersistsOn(n: Node, m: Node, later: Node)
    requires Persists(n, m) && Persists(m, later)
    ensures Persists(n, later)
  {
  }

  lemma {:induction false} CompletionIsFinal(cfg: Config, nodes: seq<Node>, events: seq<Event>, k: nat, l: nat)
    requires IsRun(cfg, nodes, events) && k <= l < |nodes|
    ensures Persists(nodes[k], nodes[l])
    decreases l - k
  {
    if k < l {
      CompletionIsFinal(cfg, nodes, events, k, l - 1);
      RunKeepsInv(cfg, nodes, events, l - 1);
      StepPersists(nodes[l - 1], events[l - 1]);
      PersistsOn(nodes[k], nodes[l - 1], nodes[l]);
    }
  }

  /**
   Handshake safety over every run: at most one completion, success only for one acceptable version
   and one verack received before any failure, and a success seen at one moment holds ever after.
   */
  lemma HandshakeSafety(cfg: Config, nodes: seq<Node>, events: seq<Event>, k: nat, l: nat)
    requires IsRun(cfg, nodes, events) && k <= l < |nodes|
    ensures |nodes[l].core.completions| <= 1
    ensures nodes[k].core.completions == [Success] ==>
            && nodes[l].core.completions == [Success]
            && |nodes[k].core.counted| >= 2
            && VersionAndVerack(nodes[k].core, nodes[k].core.counted[0], nodes[k].core.counted[1])
            && nodes[k].channel.peer.Some?
            && nodes[l].channel.peer == nodes[k].channel.peer
            && nodes[l].channel.negotiated == nodes[k].channel.negotiated
            && Acceptable(cfg.kind, cfg.settings, cfg.levels, nodes[k].channel.peer.value, nodes[k].channel.negotiated)
  {
    RunKeepsInv(cfg, nodes, events, k);
    RunKeepsInv(cfg, nodes, events, l);
    SuccessIsEarned(nodes[k]);
    SuccessIsEarned(nodes[l]);
    CompletionIsFinal(cfg, nodes, events, k, l);
  }

  /**
   The handoff comes before the next read: when a frame is read after a successful handshake, the channel
   has been stored, and if that succeeded the post-handshake protocols have been attached; they are still
   subscribed unless the subscribers have been closed.
   */
  lemma AttachedBeforeRead(cfg: Config, nodes: seq<Node>, events: seq<Event>, k: nat)
    requires IsRun(cfg, nodes, events) && k < |events| && events[k].Receive?
    requires nodes[k].core.completions == [Success]
    ensures nodes[k].handoff.registered.Some?
    ensures nodes[k].handoff.registered == Some(Success) ==> nodes[k].handoff.post || nodes[k].channel.closed
  {
    RunKeepsInv(cfg, nodes, events, k);
  }

  /**
   No message is lost at the handoff: the first version and the first verack read are heard unless
   the subscribers were already closed, and once the channel is stored so is every application message
   among the following frames.
   */
  lemma NoMessageLost(cfg: Config, nodes: seq<Node>, events: seq<Event>, k: nat, i: nat)
    requires IsRun(cfg, nodes, events) && k < |nodes|
    requires i < |nodes[k].handoff.log| && !nodes[k].handoff.log[i].heard
    ensures var log := nodes[k].handoff.log;
            match log[i].m
            case VersionMsg(_) => log[i].closed || exists j :: 0 <= j < i && log[j].m.VersionMsg?
            case Verack => log[i].closed || exists j :: 0 <= j < i && log[j].m.Verack?
            case RejectMsg(_) => true
            case Application(_) =>
              log[i].closed || nodes[k].handoff.registered != Some(Success) || i < nodes[k].handoff.at
  {
    RunKeepsInv(cfg, nodes, events, k);
    var log := nodes[k].handoff.log;
    assert IsA(log[i].m, false) <==> log[i].m.VersionMsg?;
    assert IsA(log[i].m, true) <==> log[i].m.Verack?;
    assert forall j, verack :: 0 <= j < i && IsA(log[..i][j].m, verack) ==> IsA(log[j].m, verack);
  }
}
