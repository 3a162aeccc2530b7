/**
 What a byte stream means to a channel, independently of how it is read: a recursive parse into
 frames. Heading layout, checksum and message bodies belong to the message library and are functions
 of the configuration; so is the in-line reaction of the message subscribers.
 */
module Framing {
  import opened Codes

  type Byte = x: int | 0 <= x < 256

  const HEADING_SIZE: nat := 24

  datatype Heading = Heading(valid: bool, magic: nat, size: nat, checksum: nat, kind: nat)

  datatype Message = Message(kind: nat, body: seq<Byte>)

  /** message_subscriber::load: unknown type, malformed body, or a message and whether bytes remain. */
  datatype Loaded = Unknown | Malformed | Parsed(m: Message, trailing: bool)

  /** What the subscribers have done by the time the last message's handlers return. */
  datatype Reaction = Reaction(version: nat, stops: bool)

  datatype Config = Config(
    magic: nat,
    maximum: nat,                               // largest payload accepted
    validate: bool,                             // check payload checksums
    heading: seq<Byte> -> Heading,
    checksum: seq<Byte> -> nat,
    load: (nat, nat, seq<Byte>) -> Loaded,      // type, protocol version, payload
    react: seq<Message> -> Reaction)            // all messages delivered so far

  datatype Frame = Good(m: Message, rest: seq<Byte>) | Trailing(m: Message) | Broken(ec: Code)

  predicate HeadingGood(cfg: Config, head: Heading) {
    head.valid && head.magic == cfg.magic && head.size <= cfg.maximum
  }

  /** The first frame of a stream, read at a protocol version. A short read is a broken stream. */
  function ParseFrame(cfg: Config, version: nat, bytes: seq<Byte>): Frame {
    if |bytes| < HEADING_SIZE then Broken(Other(0))
    else
      var head := cfg.heading(bytes[..HEADING_SIZE]);
      if !HeadingGood(cfg, head) then Broken(BadStream)
      else if |bytes| < HEADING_SIZE + head.size then Broken(Other(0))
      else
        var payload := bytes[HEADING_SIZE..HEADING_SIZE + head.size];
        if cfg.validate && head.checksum != cfg.checksum(payload) then Broken(BadStream)
        else
          match cfg.load(head.kind, version, payload)
          case Unknown => Broken(NotFound)
          case Malformed => Broken(BadStream)
          case Parsed(m, trailing) => if trailing then Trailing(m) else Good(m, bytes[HEADING_SIZE + head.size..])
  }

  /** The messages a stream carries for a channel that has delivered `history` so far. */
  function Messages(cfg: Config, history: seq<Message>, bytes: seq<Byte>): seq<Message>
    decreases |bytes|
  {
    match ParseFrame(cfg, cfg.react(history).version, bytes)
    case Broken(_) => []
    case Trailing(m) => [m]
    case Good(m, rest) =>
      if cfg.react(history + [m]).stops then [m] else [m] + Messages(cfg, history + [m], rest)
  }

  /** The stream begins with a whole frame of ours whose checksum holds, if checksums are validated. */
  predicate Intact(cfg: Config, bytes: seq<Byte>) {
    && |bytes| >= 24
    && var head := cfg.heading(bytes[..24]);
    && head.valid && head.magic == cfg.magic && head.size <= cfg.maximum
    && |bytes| >= 24 + head.size
    && (cfg.validate ==> head.checksum == cfg.checksum(bytes[24..24 + head.size]))
  }

  /** What the subscribers' loader makes of the first payload. */
  function FirstLoad(cfg: Config, version: nat, bytes: seq<Byte>): Loaded
    requires Intact(cfg, bytes)
  {
    var head := cfg.heading(bytes[..24]);
    cfg.load(head.kind, version, bytes[24..24 + head.size])
  }

  /**
   When a stream carries a message at all: iff it begins with an intact frame of ours whose payload loads; that
   message is then the first. Nothing comes of a foreign magic, an oversized payload or a bad checksum.
   */
  lemma FirstMessage(cfg: Config, history: seq<Message>, bytes: seq<Byte>)
    ensures Messages(cfg, history, bytes) != [] <==>
            Intact(cfg, bytes) && FirstLoad(cfg, cfg.react(history).version, bytes).Parsed?
    ensures Messages(cfg, history, bytes) != [] ==>
            Messages(cfg, history, bytes)[0] == FirstLoad(cfg, cfg.react(history).version, bytes).m
  {
  }

  /** With what code a frame is refused, and when it is good. */
  lemma FrameVerdict(cfg: Config, version: nat, bytes: seq<Byte>)
    ensures var f := ParseFrame(cfg, version, bytes);
            if Intact(cfg, bytes) then
              (match FirstLoad(cfg, version, bytes)
               case Unknown => f == Broken(NotFound)
               case Malformed => f == Broken(BadStream)
               case Parsed(m, trailing) =>
                 if trailing then f == Trailing(m)
                 else f == Good(m, bytes[24 + cfg.heading(bytes[..24]).size..]))
            else if |bytes| < 24 then f == Broken(Other(0))
            else
              var head := cfg.heading(bytes[..24]);
              f == Broken(if head.valid && head.magic == cfg.magic && head.size <= cfg.maximum
                             && |bytes| < 24 + head.size then Other(0) else BadStream)
  {
  }

  // ---------------------------------------------------------------------------------------------
  // Runs of good frames
  // ---------------------------------------------------------------------------------------------

  /** The bytes are exactly one good frame of the message. */
  predicate IsFrame(cfg: Config, version: nat, chunk: seq<Byte>, m: Message) {
    ParseFrame(cfg, version, chunk) == Good(m, [])
  }

  /** Consecutive frames: the bytes of each, and the message they stand for. */
  datatype Frames = Done | Then(chunk: seq<Byte>, m: Message, more: Frames)

  function Bytes(f: Frames): seq<Byte> {
    match f
    case Done => []
    case Then(chunk, _, more) => chunk + Bytes(more)
  }

  function Sent(f: Frames): seq<Message> {
    match f
    case Done => []
    case Then(_, m, more) => [m] + Sent(more)
  }

  /** Good frames, each at the version its predecessors' messages led to; none before the last stops. */
  predicate GoodRun(cfg: Config, history: seq<Message>, f: Frames)
    decreases f
  {
    match f
    case Done => true
    case Then(chunk, m, more) =>
      && IsFrame(cfg, cfg.react(history).version, chunk, m)
      && (more.Then? ==> !cfg.react(history + [m]).stops)
      && GoodRun(cfg, history + [m], more)
  }

  /** Framing is self-delimiting: what follows a frame does not change how it is read. */
  lemma FrameThenRest(cfg: Config, version: nat, chunk: seq<Byte>, m: Message, rest: seq<Byte>)
    requires IsFrame(cfg, version, chunk, m)
    ensures ParseFrame(cfg, version, chunk + rest) == Good(m, rest)
  {
    var bytes := chunk + rest;
    var size := cfg.heading(chunk[..HEADING_SIZE]).size;
    assert bytes[..HEADING_SIZE] == chunk[..HEADING_SIZE];
    assert |chunk| == HEADING_SIZE + size;
    assert bytes[HEADING_SIZE..HEADING_SIZE + size] == chunk[HEADING_SIZE..HEADING_SIZE + size];
    assert bytes[HEADING_SIZE + size..] == rest;
  }

  lemma MessagesFirst(cfg: Config, history: seq<Message>, chunk: seq<Byte>, m: Message, tail: seq<Byte>)
    requires IsFrame(cfg, cfg.react(history).version, chunk, m)
    ensures Messages(cfg, history, chunk + tail) ==
            [m] + if cfg.react(history + [m]).stops then [] else Messages(cfg, history + [m], tail)
  {
    FrameThenRest(cfg, cfg.react(history).version, chunk, m, tail);
  }

  /** What a stream carries after the messages in `history`, unless they stopped the channel. */
  function Continued(cfg: Config, history: seq<Message>, bytes: seq<Byte>, some: bool): seq<Message> {
    if some && cfg.react(history).stops then [] else Messages(cfg, history, bytes)
  }

  /** A stream that begins with a run of good frames carries their messages, then what the rest carries. */
  lemma {:induction false} RunThenRest(cfg: Config, history: seq<Message>, f: Frames, rest: seq<Byte>)
    requires GoodRun(cfg, history, f)
    ensures Messages(cfg, history, Bytes(f) + rest) == Sent(f) + Continued(cfg, history + Sent(f), rest, f.Then?)
    decreases f
  {
    hide ParseFrame, Messages;
    match f
    case Done =>
      assert [] + rest == rest && history + [] == history;
    case Then(chunk, m, more) =>
      var tail := Bytes(more) + rest;
      assert Bytes(f) + rest == chunk + tail;
      MessagesFirst(cfg, history, chunk, m, tail);
      RunThenRest(cfg, history + [m], more, rest);
      assert history + [m] + Sent(more) == history + Sent(f);
      if more.Done? {
        assert tail == rest && [m] + [] == [m];
      }
  }

  /** The frames a stream begins with, up to the first one that is not good or that stops the channel. */
  function LongestRun(cfg: Config, history: seq<Message>, bytes: seq<Byte>): Frames
    decreases |bytes|
  {
    match ParseFrame(cfg, cfg.react(history).version, bytes)
    case Good(m, rest) =>
      Then(bytes[..|bytes| - |rest|], m,
           if cfg.react(history + [m]).stops then Done else LongestRun(cfg, history + [m], rest))
    case _ => Done
  }

  /** A good frame cut off the stream is a frame by itself. */
  lemma CutFrame(cfg: Config, version: nat, bytes: seq<Byte>)
    requires ParseFrame(cfg, version, bytes).Good?
    ensures var f := ParseFrame(cfg, version, bytes);
            && |f.rest| < |bytes|
            && bytes[..|bytes| - |f.rest|] + f.rest == bytes
            && IsFrame(cfg, version, bytes[..|bytes| - |f.rest|], f.m)
  {
    var size := cfg.heading(bytes[..HEADING_SIZE]).size;
    var chunk := bytes[..HEADING_SIZE + size];
    assert chunk[..HEADING_SIZE] == bytes[..HEADING_SIZE];
    assert chunk[HEADING_SIZE..HEADING_SIZE + size] == bytes[HEADING_SIZE..HEADING_SIZE + size];
  }

  /** The run is a prefix of the stream, made of good frames. */
  lemma {:induction false} LongestRunIsGood(cfg: Config, history: seq<Message>, bytes: seq<Byte>)
    ensures var f := LongestRun(cfg, history, bytes);
            GoodRun(cfg, history, f) && |Bytes(f)| <= |bytes| && Bytes(f) + bytes[|Bytes(f)|..] == bytes
    decreases |bytes|
  {
    hide ParseFrame;
    var frame := ParseFrame(cfg, cfg.react(history).version, bytes);
    if frame.Good? {
      CutFrame(cfg, cfg.react(history).version, bytes);
      if !cfg.react(history + [frame.m]).stops {
        LongestRunIsGood(cfg, history + [frame.m], frame.rest);
      }
    }
  }

  /** It cannot be extended: it stops the channel, or the next frame is not good. */
  lemma {:induction false} LongestRunIsLongest(cfg: Config, history: seq<Message>, bytes: seq<Byte>)
    requires |Bytes(LongestRun(cfg, history, bytes))| <= |bytes|
    ensures var f := LongestRun(cfg, history, bytes);
            || (f.Then? && cfg.react(history + Sent(f)).stops)
            || !ParseFrame(cfg, cfg.react(history + Sent(f)).version, bytes[|Bytes(f)|..]).Good?
    decreases |bytes|
  {
    hide ParseFrame;
    var frame := ParseFrame(cfg, cfg.react(history).version, bytes);
    if frame.Good? {
      CutFrame(cfg, cfg.react(history).version, bytes);
      var f := LongestRun(cfg, history, bytes);
      assert history + [frame.m] + Sent(f.more) == history + Sent(f);
      assert f.more.Done? ==> Sent(f) == [frame.m];
      if !cfg.react(history + [frame.m]).stops {
        assert bytes[|Bytes(f)|..] == frame.rest[|Bytes(f.more)|..];
        LongestRunIsLongest(cfg, history + [frame.m], frame.rest);
      }
    } else {
      assert history + [] == history && bytes[0..] == bytes;
    }
  }

  /** And no run of good frames the stream begins with goes further. */
  lemma {:induction false} NoLongerRun(cfg: Config, history: seq<Message>, bytes: seq<Byte>, f: Frames)
    requires GoodRun(cfg, history, f) && Bytes(f) <= bytes
    ensures Sent(f) <= Sent(LongestRun(cfg, history, bytes))
    ensures Bytes(f) <= Bytes(LongestRun(cfg, history, bytes))
    decreases f
  {
    if f.Then? {
      var chunk, m, more := f.chunk, f.m, f.more;
      var rest := bytes[|chunk|..];
      assert Bytes(f)[..|chunk|] == chunk && bytes == chunk + rest;
      FrameThenRest(cfg, cfg.react(history).version, chunk, m, rest);
      hide ParseFrame;
      assert bytes[..|bytes| - |rest|] == chunk;
      if more.Then? {
        assert Bytes(f)[|chunk|..] == Bytes(more) && bytes[|chunk|..|Bytes(f)|] == Bytes(more);
        NoLongerRun(cfg, history + [m], rest, more);
      } else {
        assert Sent(f) == [m] && Bytes(f) == chunk;
      }
    }
  }

  /**
   The messages of a stream are those of its longest run of good frames, plus one more exactly when
   the run did not stop the channel and the next frame fails only for trailing bytes.
   */
  lemma MessagesOfLongestRun(cfg: Config, history: seq<Message>, bytes: seq<Byte>)
    ensures var f := LongestRun(cfg, history, bytes);
            && GoodRun(cfg, history, f)
            && |Bytes(f)| <= |bytes|
            && var next := ParseFrame(cfg, cfg.react(history + Sent(f)).version, bytes[|Bytes(f)|..]);
               Messages(cfg, history, bytes) ==
               Sent(f) + if !(f.Then? && cfg.react(history + Sent(f)).stops) && next.Trailing? then [next.m] else []
  {
    var f := LongestRun(cfg, history, bytes);
    LongestRunIsGood(cfg, history, bytes);
    LongestRunIsLongest(cfg, history, bytes);
    RunThenRest(cfg, history, f, bytes[|Bytes(f)|..]);
  }

  /**
   Round trip: the bytes of good frames carry exactly their messages, in order; followed by anything
   else, they still carry those first.
   */
  lemma SentIsReceived(cfg: Config, history: seq<Message>, f: Frames, rest: seq<Byte>)
    requires GoodRun(cfg, history, f)
    ensures Messages(cfg, history, Bytes(f)) == Sent(f)
    ensures Sent(f) <= Messages(cfg, history, Bytes(f) + rest)
  {
    RunThenRest(cfg, history, f, rest);
    RunThenRest(cfg, history, f, []);
    assert Bytes(f) + [] == Bytes(f) && Sent(f) + [] == Sent(f);
  }

  /** The codes a channel is stopped with by its stream alone. */
  function EndCodes(cfg: Config, history: seq<Message>, bytes: seq<Byte>): seq<Code>
    decreases |bytes|
  {
    match ParseFrame(cfg, cfg.react(history).version, bytes)
    case Broken(ec) => [ec]
    case Trailing(m) => (if cfg.react(history + [m]).stops then [ChannelStopped] else []) + [BadStream]
    case Good(m, rest) =>
      if cfg.react(history + [m]).stops then [ChannelStopped] else EndCodes(cfg, history + [m], rest)
  }

  /** They are those of what comes after the longest run of good frames. */
  lemma {:induction false} EndOfLongestRun(cfg: Config, history: seq<Message>, bytes: seq<Byte>)
    ensures var f := LongestRun(cfg, history, bytes);
            && |Bytes(f)| <= |bytes|
            && var next := ParseFrame(cfg, cfg.react(history + Sent(f)).version, bytes[|Bytes(f)|..]);
               EndCodes(cfg, history, bytes) ==
               if f.Then? && cfg.react(history + Sent(f)).stops then [ChannelStopped]
               else match next
                 case Broken(ec) => [ec]
                 case Trailing(m) =>
                   (if cfg.react(history + Sent(f) + [m]).stops then [ChannelStopped] else []) + [BadStream]
                 case Good(_, _) => []
    decreases |bytes|
  {
    hide ParseFrame;
    LongestRunIsGood(cfg, history, bytes);
    LongestRunIsLongest(cfg, history, bytes);
    var frame := ParseFrame(cfg, cfg.react(history).version, bytes);
    var f := LongestRun(cfg, history, bytes);
    if frame.Good? {
      CutFrame(cfg, cfg.react(history).version, bytes);
      assert history + [frame.m] + Sent(f.more) == history + Sent(f);
      if cfg.react(history + [frame.m]).stops {
        assert Sent(f) == [frame.m];
      } else {
        EndOfLongestRun(cfg, history + [frame.m], frame.rest);
        assert bytes[|Bytes(f)|..] == frame.rest[|Bytes(f.more)|..];
        assert f.more.Done? ==> history + Sent(f) == history + [frame.m];
      }
    } else {
      assert history + [] == history && bytes[0..] == bytes;
    }
  }
}
