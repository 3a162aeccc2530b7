/**
 The proxy's read cycle: read a heading, check it, read its payload, check it, notify the message
 subscribers, and again until stopped. Bytes are taken off the stream step by step into the two
 buffers. Other threads may stop the channel before either read handler, or between a payload
 handler's stop test and its notification.
 */
module Proxying {
  import opened Codes
  import opened Framing

  /** Where the channel is stopped by another thread during one cycle, if anywhere. */
  datatype Interrupt = Nowhere | BeforeHeading | BeforePayload | DuringNotify

  class Proxy {
    const cfg: Config
    var stopped: bool
    var version: nat                // negotiated protocol version
    var stream: seq<Byte>           // bytes not read yet
    var heading: seq<Byte>          // heading_buffer_
    var payload: seq<Byte>          // payload_buffer_
    var delivered: seq<Message>     // messages the subscribers were notified of
    var late: nat                   // of those, notified while the stop flag was set
    var closed: bool                // the message and stop subscribers accept no subscription
    var stops: seq<Code>            // codes relayed to the stop subscribers, one for each stop

    ghost predicate Valid()
      reads this
    {
      && version == cfg.react(delivered).version
      && (closed <==> stopped)
      && (forall k :: 0 <= k < |stops| ==> stops[k] != Success)
    }

    constructor (cfg: Config, stream: seq<Byte>)
      ensures Valid() && stopped && stops == [] && delivered == [] && late == 0
      ensures this.cfg == cfg && this.stream == stream
    {
      this.cfg, this.stream := cfg, stream;
      stopped, version := true, cfg.react([]).version;
      heading, payload, delivered, late, closed, stops := [], [], [], 0, true, [];
    }

    /** The stop code must be an error code. Closes the subscribers before it relays the code. */
    method Stop(ec: Code)
      requires Valid() && ec != Success
      modifies this`stopped, this`closed, this`stops
      ensures Valid() && stopped && closed && stops == old(stops) + [ec]
    {
      stopped := true;
      closed := true;
      stops := stops + [ec];
    }

    /** read_heading and handle_read_heading: a heading worth reading a payload for, or a stop. */
    method ReadHeading(interrupted: bool) returns (head: Option<Heading>)
      requires Valid() && !stopped
      modifies this`stopped, this`closed, this`stops, this`stream, this`heading
      ensures Valid() && (stopped <==> head.None?)
      ensures head.Some? <==>
              && !interrupted && |old(stream)| >= 24
              && var h := cfg.heading(old(stream)[..24]);
                 h.valid && h.magic == cfg.magic && h.size <= cfg.maximum
      ensures head.Some? ==>
              && head.value == cfg.heading(old(stream)[..24])
              && stream == old(stream)[24..] && stops == old(stops)
      ensures head.None? ==>
              stops == old(stops) +
              [if interrupted then ChannelTimeout else if |old(stream)| < 24 then Other(0) else BadStream]
    {
      if interrupted {
        Stop(ChannelTimeout);
        return None;
      }
      if |stream| < HEADING_SIZE {
        stream := [];
        Stop(Other(0));
        return None;
      }
      heading, stream := stream[..HEADING_SIZE], stream[HEADING_SIZE..];
      var h := cfg.heading(heading);
      if !h.valid || h.magic != cfg.magic || h.size > cfg.maximum {
        Stop(BadStream);
        return None;
      }
      return Some(h);
    }

    /** The subscribers are notified in line; they may change the version and stop the channel. */
    method Notify(m: Message, interrupted: bool)
      requires Valid() && !stopped
      modifies this`stopped, this`closed, this`stops, this`version, this`delivered, this`late
      ensures Valid() && delivered == old(delivered) + [m]
      ensures late == old(late) + (if interrupted then 1 else 0)
      ensures stopped <==> interrupted || cfg.react(delivered).stops
      ensures !interrupted ==> stops == old(stops) + if cfg.react(delivered).stops then [ChannelStopped] else []
    {
      if interrupted {
        Stop(ChannelTimeout);
        late := late + 1;
      }
      delivered := delivered + [m];
      version := cfg.react(delivered).version;
      if cfg.react(delivered).stops {
        Stop(ChannelStopped);
      }
    }

    /** read_payload and handle_read_payload for an accepted heading. */
    method ReadPayload(head: Heading, interrupt: Interrupt)
      requires Valid() && !stopped
      modifies this
      ensures Valid()
      ensures var result := cfg.load(head.kind, old(version), old(stream)[..Min(head.size, |old(stream)|)]);
              if interrupt.BeforePayload? || |old(stream)| < head.size
                 || (cfg.validate && head.checksum != cfg.checksum(old(stream)[..head.size]))
                 || !result.Parsed?
              then stopped && delivered == old(delivered) && late == old(late)
              else && delivered == old(delivered) + [result.m]
                   && late == old(late) + (if interrupt.DuringNotify? then 1 else 0)
                   && (stopped <==> interrupt.DuringNotify? || result.trailing || cfg.react(delivered).stops)
                   && stream == old(stream)[head.size..]
      ensures interrupt.Nowhere? ==>
              stops == old(stops) +
              if |old(stream)| < head.size then [Other(0)]
              else if cfg.validate && head.checksum != cfg.checksum(old(stream)[..head.size]) then [BadStream]
              else match cfg.load(head.kind, old(version), old(stream)[..head.size])
                case Unknown => [NotFound]
                case Malformed => [BadStream]
                case Parsed(m, trailing) =>
                  (if cfg.react(old(delivered) + [m]).stops then [ChannelStopped] else [])
                  + if trailing then [BadStream] else []
    {
      if interrupt.BeforePayload? {
        Stop(ChannelTimeout);
        return;
      }
      if |stream| < head.size {
        stream := [];
        Stop(Other(0));
        return;
      }
      payload, stream := stream[..head.size], stream[head.size..];
      if cfg.validate && head.checksum != cfg.checksum(payload) {
        Stop(BadStream);
        return;
      }
      match cfg.load(head.kind, version, payload)
      case Unknown => Stop(NotFound);
      case Malformed => Stop(BadStream);
      case Parsed(m, trailing) =>
        Notify(m, interrupt.DuringNotify?);
        if trailing {
          Stop(BadStream);
        }
    }

    /** One turn of the read cycle does to the channel what the first frame of the stream says. */
    method ReadFrame(interrupt: Interrupt)
      requires Valid() && !stopped
      modifies this
      ensures Valid()
      ensures var frame := ParseFrame(cfg, old(version), old(stream));
              if interrupt.BeforeHeading? || interrupt.BeforePayload? || frame.Broken?
              then stopped && delivered == old(delivered) && late == old(late)
              else && delivered == old(delivered) + [frame.m]
                   && late == old(late) + (if interrupt.DuringNotify? then 1 else 0)
                   && (stopped <==> interrupt.DuringNotify? || frame.Trailing? || cfg.react(delivered).stops)
                   && (frame.Good? ==> stream == frame.rest && |stream| < |old(stream)|)
      ensures interrupt.Nowhere? ==>
              stops == old(stops) +
              match ParseFrame(cfg, old(version), old(stream))
              case Broken(ec) => [ec]
              case Trailing(m) =>
                (if cfg.react(old(delivered) + [m]).stops then [ChannelStopped] else []) + [BadStream]
              case Good(m, _) => if cfg.react(old(delivered) + [m]).stops then [ChannelStopped] else []
    {
      ghost var bytes := stream;
      var head := ReadHeading(interrupt.BeforeHeading?);
      if head.Some? {
        ghost var size := head.value.size;
        assert |bytes| >= HEADING_SIZE + size ==>
               stream[..size] == bytes[HEADING_SIZE..HEADING_SIZE + size] &&
               stream[size..] == bytes[HEADING_SIZE + size..];
        ReadPayload(head.value, interrupt);
      }
    }

    /**
     The read cycle refines the recursive parse. Without interference the subscribers are notified of
     exactly the messages the stream carries, in order, none of them after the stop. If another thread
     first stops the channel in turn n, they are notified of the first n messages, and of one more,
     after the stop, iff the stop falls between that turn's stop test and its notification.
     */
    method Run(plan: nat -> Interrupt) returns (turns: nat)
      requires Valid() && !stopped
      modifies this
      ensures Valid() && stopped
      ensures delivered <= old(delivered) + Messages(cfg, old(delivered), old(stream))
      ensures (forall n :: plan(n).Nowhere?) ==>
              && delivered == old(delivered) + Messages(cfg, old(delivered), old(stream)) && late == old(late)
              && stops == old(stops) + EndCodes(cfg, old(delivered), old(stream))
      ensures forall n: nat :: FirstStop(plan, n) ==>
              var ms := Messages(cfg, old(delivered), old(stream));
              && delivered == old(delivered) + ms[..Reached(|ms|, plan, n)]
              && late == old(late) + if n < |ms| && plan(n).DuringNotify? then 1 else 0
      ensures turns > 0 && |old(delivered)| + turns - 1 <= |delivered| <= |old(delivered)| + turns
    {
      hide ParseFrame, Messages, FirstStop, EndCodes, Going, Finished;
      ghost var was := delivered;
      ghost var ms, ends := Messages(cfg, delivered, stream), EndCodes(cfg, delivered, stream);
      GoingBegins(plan, was, ms);
      turns := 0;
      while !stopped
        invariant Valid()
        invariant !stopped ==>
          Going(plan, turns, was, ms, delivered, Messages(cfg, delivered, stream), late - old(late))
        invariant (forall n :: plan(n).Nowhere?) ==>
          stops + (if stopped then [] else EndCodes(cfg, delivered, stream)) == old(stops) + ends
        invariant stopped ==> turns > 0 && Finished(plan, turns - 1, was, ms, delivered, late - old(late))
        decreases if stopped then 0 else 1 + |stream|
      {
        ghost var before, bytes, codes, gained := delivered, stream, stops, late;
        ReadFrame(plan(turns));
        ghost var turn := Turn(delivered, stream, stopped, late - gained, stops);
        TurnKeeps(cfg, plan, turns, was, ms, before, bytes, codes, turn, gained - old(late));
        TurnCodes(cfg, plan, turns, before, bytes, codes, turn);
        turns := turns + 1;
      }
      FinishedMeans(plan, turns - 1, was, ms, delivered, late - old(late));
    }

    /** proxy::start: refused on a running channel, otherwise the read cycle until its stop. */
    method Start(plan: nat -> Interrupt) returns (ec: Code)
      requires Valid()
      modifies this
      ensures Valid()
      ensures !old(stopped) ==> ec == OperationFailed && delivered == old(delivered) && !stopped
      ensures old(stopped) ==>
              && ec == Success && stopped
              && var ms := Messages(cfg, old(delivered), old(stream));
              && delivered <= old(delivered) + ms
              && ((forall n :: plan(n).Nowhere?) ==> delivered == old(delivered) + ms && late == old(late))
              && forall n: nat :: FirstStop(plan, n) ==>
                   && delivered == old(delivered) + ms[..Reached(|ms|, plan, n)]
                   && late == old(late) + if n < |ms| && plan(n).DuringNotify? then 1 else 0
    {
      if !stopped { return OperationFailed; }
      stopped, closed := false, false;
      var _ := Run(plan);
      return Success;
    }
  }

  /** Turn n is the first in which another thread stops the channel. */
  ghost predicate FirstStop(plan: nat -> Interrupt, n: nat) {
    !plan(n).Nowhere? && forall j :: 0 <= j < n ==> plan(j).Nowhere?
  }

  /** How many of the stream's messages are delivered when turn n is the first stop by another thread. */
  function Reached(total: nat, plan: nat -> Interrupt, n: nat): (r: nat)
    ensures r <= total
  {
    Min(total, if plan(n).DuringNotify? then n + 1 else n)
  }

  /** How the read cycle ended in turn t: by the stream itself, or by the first stop of another thread. */
  ghost predicate Finished(plan: nat -> Interrupt, t: nat, was: seq<Message>, ms: seq<Message>,
                           delivered: seq<Message>, late: int)
  {
    && t <= |ms|
    && (forall j :: 0 <= j < t ==> plan(j).Nowhere?)
    && (plan(t).Nowhere? ==> |ms| <= t + 1 && delivered == was + ms && late == 0)
    && (!plan(t).Nowhere? ==>
          && delivered == was + ms[..Reached(|ms|, plan, t)]
          && late == if t < |ms| && plan(t).DuringNotify? then 1 else 0)
  }

  /** The end of the cycle in terms of the first stop alone. */
  lemma FinishedMeans(plan: nat -> Interrupt, t: nat, was: seq<Message>, ms: seq<Message>,
                      delivered: seq<Message>, late: int)
    requires Finished(plan, t, was, ms, delivered, late)
    ensures (forall n :: plan(n).Nowhere?) ==> delivered == was + ms && late == 0
    ensures forall n: nat :: FirstStop(plan, n) ==>
              && delivered == was + ms[..Reached(|ms|, plan, n)]
              && late == if n < |ms| && plan(n).DuringNotify? then 1 else 0
    ensures delivered <= was + ms && |was| + t <= |delivered| <= |was| + t + 1
  {
    assert ms[..|ms|] == ms;
    forall n: nat | FirstStop(plan, n)
      ensures delivered == was + ms[..Reached(|ms|, plan, n)]
      ensures late == if n < |ms| && plan(n).DuringNotify? then 1 else 0
    {
      assert n >= t;
    }
  }

  /** After t turns without a stop: the first t messages are delivered, the others still to come. */
  ghost predicate Going(plan: nat -> Interrupt, t: nat, was: seq<Message>, ms: seq<Message>,
                        delivered: seq<Message>, rest: seq<Message>, late: int)
  {
    && t <= |ms| && delivered == was + ms[..t] && rest == ms[t..] && late == 0
    && forall j :: 0 <= j < t ==> plan(j).Nowhere?
  }

  lemma GoingBegins(plan: nat -> Interrupt, was: seq<Message>, ms: seq<Message>)
    ensures Going(plan, 0, was, ms, was, ms, 0)
  {
    assert was + ms[..0] == was;
  }

  /** What one turn leaves behind. */
  datatype Turn = Turn(delivered: seq<Message>, stream: seq<Byte>, stopped: bool, late: int, stops: seq<Code>)

  /** The turn did what the first frame says. */
  ghost predicate Turned(cfg: Config, interrupt: Interrupt, before: seq<Message>, bytes: seq<Byte>, codes: seq<Code>,
                         turn: Turn)
  {
    var frame := ParseFrame(cfg, cfg.react(before).version, bytes);
    && (if interrupt.BeforeHeading? || interrupt.BeforePayload? || frame.Broken?
        then turn.stopped && turn.delivered == before && turn.late == 0
        else && turn.delivered == before + [frame.m]
             && turn.late == (if interrupt.DuringNotify? then 1 else 0)
             && (turn.stopped <==> interrupt.DuringNotify? || frame.Trailing? || cfg.react(turn.delivered).stops)
             && (frame.Good? ==> turn.stream == frame.rest))
    && (interrupt.Nowhere? ==>
          turn.stops == codes +
          match frame
          case Broken(ec) => [ec]
          case Trailing(m) => (if cfg.react(before + [m]).stops then [ChannelStopped] else []) + [BadStream]
          case Good(m, _) => if cfg.react(before + [m]).stops then [ChannelStopped] else [])
  }

  lemma TurnKeeps(cfg: Config, plan: nat -> Interrupt, t: nat, was: seq<Message>, ms: seq<Message>,
                  before: seq<Message>, bytes: seq<Byte>, codes: seq<Code>, turn: Turn, late: int)
    requires Going(plan, t, was, ms, before, Messages(cfg, before, bytes), late)
    requires Turned(cfg, plan(t), before, bytes, codes, turn)
    ensures turn.stopped ==> Finished(plan, t, was, ms, turn.delivered, late + turn.late)
    ensures !turn.stopped ==>
            Going(plan, t + 1, was, ms, turn.delivered, Messages(cfg, turn.delivered, turn.stream), late + turn.late)
  {
    hide ParseFrame, Messages;
    MessagesUnfold(cfg, before, bytes);
    CutMessages(was, ms, t);
  }

  /** The codes still to come are those of the rest of the stream. */
  lemma TurnCodes(cfg: Config, plan: nat -> Interrupt, t: nat, before: seq<Message>, bytes: seq<Byte>, codes: seq<Code>,
                  turn: Turn)
    requires Turned(cfg, plan(t), before, bytes, codes, turn)
    ensures plan(t).Nowhere? ==>
            turn.stops + (if turn.stopped then [] else EndCodes(cfg, turn.delivered, turn.stream)) ==
            codes + EndCodes(cfg, before, bytes)
  {
    hide ParseFrame, EndCodes;
    EndUnfold(cfg, before, bytes);
  }

  lemma CutMessages(was: seq<Message>, ms: seq<Message>, t: nat)
    requires t <= |ms|
    ensures t < |ms| ==> ms[t..] == [ms[t]] + ms[t + 1..] && was + ms[..t] + [ms[t]] == was + ms[..t + 1]
    ensures t == |ms| ==> ms[t..] == [] && was + ms[..t] == was + ms
    ensures t + 1 == |ms| ==> was + ms[..t + 1] == was + ms
  {
  }

  /** The messages of a stream in terms of its first frame. */
  lemma MessagesUnfold(cfg: Config, history: seq<Message>, bytes: seq<Byte>)
    ensures var frame := ParseFrame(cfg, cfg.react(history).version, bytes);
            Messages(cfg, history, bytes) ==
            match frame
            case Broken(_) => []
            case Trailing(m) => [m]
            case Good(m, rest) =>
              [m] + if cfg.react(history + [m]).stops then [] else Messages(cfg, history + [m], rest)
  {
  }

  /** The codes a stream ends with in terms of its first frame. */
  lemma EndUnfold(cfg: Config, history: seq<Message>, bytes: seq<Byte>)
    ensures EndCodes(cfg, history, bytes) ==
            match ParseFrame(cfg, cfg.react(history).version, bytes)
            case Broken(ec) => [ec]
            case Trailing(m) => (if cfg.react(history + [m]).stops then [ChannelStopped] else []) + [BadStream]
            case Good(m, rest) =>
              if cfg.react(history + [m]).stops then [ChannelStopped] else EndCodes(cfg, history + [m], rest)
  {
  }

  /** A stream of one frame, and another thread that stops the channel during its notification. */
  lemma LatePlan() returns (cfg: Config, stream: seq<Byte>, plan: nat -> Interrupt)
    ensures |Messages(cfg, [], stream)| == 1
    ensures FirstStop(plan, 0) && plan(0).DuringNotify?
  {
    var m := Message(0, []);
    cfg := Config(0, 0, false, _ => Heading(true, 0, 0, 0, 0), _ => 0,
                  (_, _, _) => Parsed(m, false), _ => Reaction(0, false));
    stream := seq(HEADING_SIZE, _ => 0);
    plan := n => DuringNotify;
    assert stream[HEADING_SIZE..] == [];
    MessagesUnfold(cfg, [], stream);
    MessagesUnfold(cfg, [m], []);
  }

  /** Nothing after stop is not promised: this channel delivers its only message after its stop. */
  method DeliverLate(cfg: Config, stream: seq<Byte>, plan: nat -> Interrupt) returns (p: Proxy)
    requires Messages(cfg, [], stream) != [] && FirstStop(plan, 0) && plan(0).DuringNotify?
    ensures fresh(p) && p.late == 1 && p.delivered == Messages(cfg, [], stream)[..1]
  {
    p := new Proxy(cfg, stream);
    var ec := p.Start(plan);
  }
}
