/**
 Registration of one channel with its session (session::register_channel to handle_remove), as the
 continuation-passing code runs it: the registering thread moves through `stage`, the thread that
 stops the channel through `stop`, and the removal handler through `remover`. The network's
 collections are seen from one channel: whether it is pended, and whether it is open.
 */
module Registration {
  import opened Codes

  datatype Kind = Outgoing | Incoming | Direct   // outbound; inbound; manual and seed

  datatype Stage =
    | Registering          // register_channel entered
    | Refused              // session stopped: handle_started called, handle_stopped next
    | Starting             // outbound channels are pended; the channel starts next
    | Handshaking
    | Admitting            // handshake succeeded (and no loopback found): store next
    | Ended(ec: Code)      // result known: do_unpend next
    | Unpended(ec: Code)   // handle_start next
    | Stopping(ec: Code)   // failed: channel stopped, handle_stopped next
    | Notified(ec: Code)   // failed: handle_stopped called, handle_started next
    | Removing             // subscribed too late: handle_remove runs in line
    | Subscribed           // handle_started next
    | Registered(ec: Code) // end of the registration sequence

  /** proxy::stop: raise the flag, close the stop subscriber, run the relay. */
  datatype Stop = Live | Flagged | Closed | Relayed

  /** handle_remove: remove from the open set, then handle_stopped. */
  datatype Remover = Absent | Entered | Removed | Finished

  datatype Call = Started(ec: Code) | Stopped(ec: Code)

  datatype Chan = Chan(
    kind: Kind,
    authority: nat,
    nonce: nat,              // zero until the channel starts
    loop: Option<nat>,       // our own channel at the other end, once its version message has been received
    stage: Stage,
    stop: Stop,
    echo: bool,              // the relay of a stop that came before the channel started is still to run
    sub: bool,               // handle_remove is subscribed to the stop
    remover: Remover,
    calls: seq<Call>)        // handle_started and handle_stopped, in order

  function NewChan(kind: Kind, authority: nat): Chan {
    Chan(kind, authority, 0, None, Registering, Live, false, false, Absent, [])
  }

  predicate Down(stop: Stop) {
    stop.Closed? || stop.Relayed?
  }

  /** A step of a channel's own threads. The collections' and the session's answers are parameters. */
  datatype Step =
    | Register(stopped: bool, pendClosed: bool)
    | RefuseStop
    | Start(random: nat)
    | HandshakeEnds(ec: Code, from: Option<nat>, loopback: bool)
    | Admit(result: Code)
    | Unpend
    | HandleStart
    | FailStop
    | Finish
    | StopFlag
    | StopClose
    | StopRelay
    | EchoRelay
    | Remove
    | RemoveStop

  predicate Enabled(c: Chan, s: Step) {
    match s
    case Register(_, _) => c.stage.Registering?
    case RefuseStop => c.stage.Refused?
    case Start(random) => c.stage.Starting? && random > 0
    case HandshakeEnds(_, _, _) => c.stage.Handshaking?
    case Admit(result) => c.stage.Admitting?
    case Unpend => c.stage.Ended?
    case HandleStart => c.stage.Unpended?
    case FailStop => c.stage.Stopping?
    case Finish => c.stage.Notified? || c.stage.Subscribed? || (c.stage.Removing? && c.remover.Finished?)
    case StopFlag => c.stop.Live? && !c.stage.Registering? && !c.stage.Refused?
    case StopClose => c.stop.Flagged?
    case StopRelay => c.stop.Closed?
    case EchoRelay => c.echo
    case Remove => c.remover.Entered?
    case RemoveStop => c.remover.Removed?
  }

  function Next(c: Chan, s: Step): Chan
    requires Enabled(c, s)
  {
    match s
    case Register(stopped, pendClosed) =>
      if stopped then c.(stage := Refused, calls := c.calls + [Started(ServiceStopped)])
      else if c.kind.Outgoing? && pendClosed then c.(stage := Ended(ServiceStopped))
      else c.(stage := Starting)
    case RefuseStop =>
      c.(stage := Registered(ServiceStopped), calls := c.calls + [Stopped(ServiceStopped)])
    case Start(random) =>
      // Lowers the flag and opens the subscribers again; the rest of an earlier stop is still to come.
      c.(stage := Handshaking, nonce := random,
         stop := if c.stop.Flagged? then Flagged else Live, echo := c.stop.Closed?)
    case HandshakeEnds(ec, from, loopback) =>
      if ec != Success then c.(stage := Ended(ec))
      else if c.kind.Incoming? && loopback then c.(stage := Ended(AcceptFailed), loop := from)
      else c.(stage := Admitting, loop := from)
    case Admit(result) => c.(stage := Ended(result))
    case Unpend => c.(stage := Unpended(c.stage.ec))
    case HandleStart =>
      if c.stage.ec != Success then
        c.(stage := Stopping(c.stage.ec), stop := if c.stop.Relayed? then Relayed else Closed)
      else if Down(c.stop) then
        c.(stage := Removing, remover := Entered)
      else
        c.(stage := Subscribed, sub := true)
    case FailStop => c.(stage := Notified(c.stage.ec), calls := c.calls + [Stopped(c.stage.ec)])
    case Finish =>
      var ec := if c.stage.Notified? then c.stage.ec else Success;
      c.(stage := Registered(ec), calls := c.calls + [Started(ec)])
    case StopFlag => c.(stop := Flagged)
    case StopClose => c.(stop := Closed)
    case StopRelay => if c.sub then c.(stop := Relayed, sub := false, remover := Entered) else c.(stop := Relayed)
    case EchoRelay => if c.sub then c.(echo := false, sub := false, remover := Entered) else c.(echo := false)
    case Remove => c.(remover := Removed)
    case RemoveStop => c.(remover := Finished, calls := c.calls + [Stopped(Success)])
  }

  /** Whether the channel is in the open set after a step, given whether it was before. */
  predicate OpenAfter(c: Chan, open: bool, s: Step) {
    match s
    case Admit(result) => open || result == Success
    case Remove => false
    case _ => open
  }

  /** Whether the channel is pended for handshake after a step. */
  predicate PendAfter(c: Chan, pend: bool, s: Step) {
    match s
    case Register(stopped, pendClosed) => pend || (c.kind.Outgoing? && !stopped && !pendClosed)
    case Unpend => false
    case _ => pend
  }

  predicate WasStopped(c: Chan) {
    exists k :: 0 <= k < |c.calls| && c.calls[k].Stopped?
  }

  /** No removal has begun: nothing subscribed, nothing called. */
  predicate Quiet(c: Chan) {
    !c.sub && c.remover.Absent? && c.calls == []
  }

  /** The removal side of a channel that was admitted. */
  predicate RemovalSide(c: Chan, open: bool) {
    && (c.sub <==> c.remover.Absent?)
    && (c.sub ==> !c.stop.Relayed?)
    && (open <==> c.remover.Absent? || c.remover.Entered?)
  }

  ghost predicate ChanInv(c: Chan, pend: bool, open: bool) {
    && (pend ==> c.kind.Outgoing?)
    && (c.stage.Registering? || c.stage.Refused? || c.stage.Starting? ==> !c.echo)
    && match c.stage
       case Registering => Quiet(c) && c.stop.Live? && !pend && !open && c.nonce == 0
       case Refused => !c.sub && c.remover.Absent? && c.calls == [Started(ServiceStopped)] && !pend && !open
       case Starting => Quiet(c) && (pend <==> c.kind.Outgoing?) && !open && c.nonce == 0
       case Handshaking => Quiet(c) && (pend <==> c.kind.Outgoing?) && !open && c.nonce > 0
       case Admitting => Quiet(c) && !open && c.nonce > 0
       case Ended(ec) => Quiet(c) && (open <==> ec == Success) && (pend ==> c.nonce > 0)
       case Unpended(ec) => Quiet(c) && (open <==> ec == Success) && !pend
       case Stopping(ec) => Quiet(c) && !open && ec != Success && Down(c.stop) && !pend
       case Notified(ec) =>
         && !c.sub && c.remover.Absent? && c.calls == [Stopped(ec)]
         && !open && ec != Success && Down(c.stop) && !pend
       case Removing =>
         && RemovalSide(c, open) && !c.sub && !pend
         && c.calls == (if c.remover.Finished? then [Stopped(Success)] else [])
       case Subscribed =>
         && RemovalSide(c, open) && !pend
         && c.calls == (if c.remover.Finished? then [Stopped(Success)] else [])
       case Registered(ec) =>
         && !pend
         && (ec == Success ==>
               && RemovalSide(c, open)
               && (if c.remover.Finished?
                   then c.calls == [Started(Success), Stopped(Success)]
                        || c.calls == [Stopped(Success), Started(Success)]
                   else c.calls == [Started(Success)]))
         && (ec != Success ==>
               && !c.sub && c.remover.Absent? && !open
               && ((c.calls == [Started(ServiceStopped), Stopped(ServiceStopped)] && ec == ServiceStopped)
                   || (c.calls == [Stopped(ec), Started(ec)] && Down(c.stop))))
  }

  /** Steps of the threads that stop the channel and remove it. */
  predicate Stops(s: Step) {
    s.StopFlag? || s.StopClose? || s.StopRelay? || s.EchoRelay? || s.Remove? || s.RemoveStop?
  }

  lemma RegisteringKeepsChanInv(c: Chan, pend: bool, open: bool, s: Step)
    requires ChanInv(c, pend, open) && Enabled(c, s) && !Stops(s)
    ensures ChanInv(Next(c, s), PendAfter(c, pend, s), OpenAfter(c, open, s))
  {
  }

  lemma StoppingKeepsChanInv(c: Chan, pend: bool, open: bool, s: Step)
    requires ChanInv(c, pend, open) && Enabled(c, s) && Stops(s)
    ensures ChanInv(Next(c, s), PendAfter(c, pend, s), OpenAfter(c, open, s))
  {
  }

  lemma StepKeepsChanInv(c: Chan, pend: bool, open: bool, s: Step)
    requires ChanInv(c, pend, open) && Enabled(c, s)
    ensures ChanInv(Next(c, s), PendAfter(c, pend, s), OpenAfter(c, open, s))
  {
    hide ChanInv, Next, Enabled, PendAfter, OpenAfter;
    if Stops(s) { StoppingKeepsChanInv(c, pend, open, s); } else { RegisteringKeepsChanInv(c, pend, open, s); }
  }

  /** handle_stopped is what ends a channel: exactly the steps that call it make WasStopped true. */
  predicate CallsStopped(s: Step) {
    s.RefuseStop? || s.FailStop? || s.RemoveStop?
  }

  /** The call a step makes, if any. */
  lemma StepCalls(c: Chan, s: Step)
    requires Enabled(c, s)
    ensures var d := Next(c, s);
            || (d.calls == c.calls && !CallsStopped(s))
            || (|d.calls| == |c.calls| + 1 && d.calls[..|c.calls|] == c.calls
                && (d.calls[|c.calls|].Stopped? <==> CallsStopped(s)))
  {
  }

  /** Neither an open channel nor one about to be told has been told it stopped. */
  lemma NotYetStopped(c: Chan, pend: bool, open: bool, s: Step)
    requires ChanInv(c, pend, open) && Enabled(c, s)
    ensures open || CallsStopped(s) ==> !WasStopped(c)
  {
  }

  lemma StopsOnce(c: Chan, pend: bool, open: bool, s: Step)
    requires ChanInv(c, pend, open) && Enabled(c, s)
    ensures CallsStopped(s) ==> !WasStopped(c)
    ensures WasStopped(Next(c, s)) <==> WasStopped(c) || CallsStopped(s)
    ensures open ==> !WasStopped(c)
  {
    NotYetStopped(c, pend, open, s);
    StepCalls(c, s);
    var d := Next(c, s);
    hide ChanInv, Next, Enabled, CallsStopped;
    assert forall k :: 0 <= k < |c.calls| ==> d.calls[k] == d.calls[..|c.calls|][k] == c.calls[k];
  }

  /**
   The registration contract. A channel whose registration has ended got exactly one handle_started,
   with the result, and at most one handle_stopped. A failed start stopped the channel and called
   handle_stopped first, with the same code; only a refused registration calls it second. A stopped
   channel is out of the open set once the stop relay has run.
   */
  ghost predicate Contract(c: Chan, open: bool) {
    c.stage.Registered? ==>
      && var ec := c.stage.ec;
      && (exists k :: 0 <= k < |c.calls| && c.calls[k] == Started(ec)
                      && forall l :: 0 <= l < |c.calls| && l != k ==> c.calls[l].Stopped?)
      && |c.calls| <= 2
      && (ec != Success && c.calls != [Started(ServiceStopped), Stopped(ServiceStopped)] ==>
            c.calls == [Stopped(ec), Started(ec)] && Down(c.stop))
      && (ec != Success ==> !open)
      && (c.stop.Relayed? && !c.remover.Entered? ==> !open)
      && (open ==> !WasStopped(c))
  }

  lemma RegistrationContract(c: Chan, pend: bool, open: bool)
    requires ChanInv(c, pend, open)
    ensures Contract(c, open)
  {
    if c.stage.Registered? {
      var ec := c.stage.ec;
      if c.calls[0] == Started(ec) {
        assert forall l :: 0 <= l < |c.calls| && l != 0 ==> c.calls[l].Stopped?;
      } else {
        assert c.calls[1] == Started(ec);
      }
    }
  }

  /** Steps still owed by the channel's own threads before every closure has been invoked. */
  function Debt(c: Chan): nat {
    var registering := match c.stage
      case Registering => 13
      case Refused => 1
      case Starting => 12
      case Handshaking => 7
      case Admitting => 6
      case Ended(_) => 5
      case Unpended(_) => 4
      case Stopping(_) => 2
      case Notified(_) => 1
      case Removing => 1
      case Subscribed => 1
      case Registered(_) => 0;
    var stopping := match c.stop case Live => 3 case Flagged => 2 case Closed => 1 case Relayed => 0;
    var removing := match c.remover case Absent => 3 case Entered => 2 case Removed => 1 case Finished => 0;
    registering + stopping + removing + if c.echo then 1 else 0
  }

  /** Every step of a channel works off its debt, so its threads come to rest. */
  lemma StepsPayDebt(c: Chan, pend: bool, open: bool, s: Step)
    requires ChanInv(c, pend, open) && Enabled(c, s)
    ensures Debt(Next(c, s)) < Debt(c)
  {
  }

  /** A closure is owed: handle_started, or handle_stopped once a stop or the removal has begun. */
  predicate Owes(c: Chan) {
    !c.stage.Registered? || (!WasStopped(c) && (!c.stop.Live? || c.echo || !c.remover.Absent?))
  }

  /** The channel failed: it is not, and will not be, admitted. */
  predicate Failed(c: Chan) {
    match c.stage
    case Ended(ec) => ec != Success
    case Unpended(ec) => ec != Success
    case Stopping(ec) => ec != Success
    case Notified(ec) => ec != Success
    case Registered(ec) => ec != Success
    case _ => false
  }

  lemma FailedStays(c: Chan, pend: bool, open: bool, s: Step)
    requires ChanInv(c, pend, open) && Failed(c)
    ensures !open
    ensures Enabled(c, s) ==> Failed(Next(c, s))
  {
  }
}
