/** The control protocol on the wire: the client's encoder (src/client.rs), the exact reads of
    src/comm.rs, and the server's reader (src/server.rs). */
module Wire {
  import opened Wrappers
  import opened Bytes
  import opened Topic

  const OP_NOP: byte := 0x00
  const OP_PUBLISH: byte := 0x01
  const OP_SUBSCRIBE: byte := 0x02
  const OP_UNSUBSCRIBE: byte := 0x03
  const OP_PUBLISH_REPL: byte := 0x11
  const OP_PUBLISH_NO_ACK: byte := 0x21
  const OP_BYE: byte := 0xFF

  const RESPONSE_OK: byte := 0x01
  const RESPONSE_OK_WAITING: byte := 0x02
  const RESPONSE_NOT_REQUIRED: byte := 0xE0
  const RESPONSE_ERR: byte := 0xFF
  const RESPONSE_ERR_ACCESS: byte := 0xFE

  const DEFAULT_PRIORITY: byte := 0x7F

  // ---------------------------------------------------------------- client side

  datatype Command =
    | Nop
    | Subscribe(topic: Text)
    | SubscribeBulk(topics: seq<Text>)
    | Unsubscribe(topic: Text)
    | UnsubscribeBulk(topics: seq<Text>)
    | Publish(priority: byte, topic: Text, message: Text)
    | PublishRepl(priority: byte, topic: Text, message: Text, timestamp: nat)
    | Bye

  /** Topics of a bulk command, each followed by a NUL. */
  function BulkBody(topics: seq<Text>): Text {
    if topics == [] then [] else topics[0] + [NUL] + BulkBody(topics[1..])
  }

  /** The bytes `as_bytes` produces. */
  function Encoded(cmd: Command): Text {
    match cmd
    case Nop => [OP_NOP]
    case Subscribe(topic) => [OP_SUBSCRIBE] + Le32(|topic|) + topic
    case SubscribeBulk(topics) => [OP_SUBSCRIBE] + Le32(|BulkBody(topics)|) + BulkBody(topics)
    case Unsubscribe(topic) => [OP_UNSUBSCRIBE] + Le32(|topic|) + topic
    case UnsubscribeBulk(topics) => [OP_UNSUBSCRIBE] + Le32(|BulkBody(topics)|) + BulkBody(topics)
    case Publish(priority, topic, message) =>
      [OP_PUBLISH, priority] + Le32(|topic| + 1 + |message|) + topic + [NUL]
    case PublishRepl(_, topic, _, _) => [OP_PUBLISH_REPL] + Le32(|topic|) + topic
    case Bye => [OP_BYE]
  }

  /** A `usize` length cut down to `u32`. */
  function AsU32(n: nat): nat {
    n % U32_LIMIT
  }

  lemma {:induction false} BulkBodyStep(topics: seq<Text>, i: nat)
    requires i < |topics|
    ensures BulkBody(topics[..i + 1]) == BulkBody(topics[..i]) + topics[i] + [NUL]
  {
    if i == 0 {
      assert topics[..1][1..] == [];
    } else {
      BulkBodyStep(topics[1..], i - 1);
      assert topics[..i + 1][1..] == topics[1..][..i];
      assert topics[..i][1..] == topics[1..][..i - 1];
      assert topics[..i] == [topics[0]] + topics[1..][..i - 1];
    }
  }

  lemma BulkLenStep(topics: seq<Text>, i: nat, len: nat)
    requires i < |topics| && len == |BulkBody(topics[..i])| % U32_LIMIT
    ensures (len + AsU32(|topics[i]|) + 1) % U32_LIMIT == |BulkBody(topics[..i + 1])| % U32_LIMIT
  {
    BulkBodyStep(topics, i);
  }

  lemma BulkCopyStep(head: Text, topics: seq<Text>, i: nat)
    requires i < |topics|
    ensures head + BulkBody(topics[..i]) + topics[i] + [NUL] == head + BulkBody(topics[..i + 1])
  {
    BulkBodyStep(topics, i);
  }

  /** The length loop and the copying loop of a bulk command, in `u32` arithmetic. */
  method BulkBytes(op: byte, topics: seq<Text>) returns (buf: Text)
    ensures buf == [op] + Le32(|BulkBody(topics)|) + BulkBody(topics)
  {
    buf := [op];
    var len := 0;
    for i := 0 to |topics|
      invariant len == |BulkBody(topics[..i])| % U32_LIMIT
    {
      BulkLenStep(topics, i, len);
      len := (len + AsU32(|topics[i]|) + 1) % U32_LIMIT;
    }
    assert topics[..|topics|] == topics;
    Le32Mod(|BulkBody(topics)|);
    buf := buf + Le32(len);
    ghost var head := buf;
    for i := 0 to |topics|
      invariant buf == head + BulkBody(topics[..i])
    {
      BulkCopyStep(head, topics, i);
      buf := buf + topics[i];
      buf := buf + [NUL];
    }
  }

  lemma Le32Mod(n: nat)
    ensures Le32(n % U32_LIMIT) == Le32(n)
  {
    FromLe32Injective(Le32(n), Le32(n % U32_LIMIT));
  }

  /** The `u32` sum of a publish header. */
  lemma PublishLen(topic: nat, message: nat)
    ensures Le32((AsU32(topic) + 1 + AsU32(message)) % U32_LIMIT) == Le32(topic + 1 + message)
  {
    var a, b := topic / U32_LIMIT, message / U32_LIMIT;
    var n := AsU32(topic) + 1 + AsU32(message);
    assert topic + 1 + message == n + (a + b) * U32_LIMIT;
    ModShift(n, a + b);
    FromLe32Injective(Le32(n % U32_LIMIT), Le32(topic + 1 + message));
  }

  lemma {:induction false} ModShift(n: nat, k: nat)
    ensures (n + k * U32_LIMIT) % U32_LIMIT == n % U32_LIMIT
  {
    if k > 0 {
      ModShift(n, k - 1);
      assert n + k * U32_LIMIT == n + (k - 1) * U32_LIMIT + U32_LIMIT;
    }
  }

  /** `ControlCommand::as_bytes`. */
  method AsBytes(cmd: Command) returns (buf: Text)
    ensures buf == Encoded(cmd)
  {
    buf := [];
    assert forall op: byte :: buf + [op] == [op];
    match cmd {
      case Nop =>
        buf := buf + [OP_NOP];
      case Subscribe(topic) =>
        buf := buf + [OP_SUBSCRIBE];
        buf := buf + Le32(|topic|);
        buf := buf + topic;
      case SubscribeBulk(topics) =>
        buf := BulkBytes(OP_SUBSCRIBE, topics);
      case Unsubscribe(topic) =>
        buf := buf + [OP_UNSUBSCRIBE];
        buf := buf + Le32(|topic|);
        buf := buf + topic;
      case UnsubscribeBulk(topics) =>
        buf := BulkBytes(OP_UNSUBSCRIBE, topics);
      case Publish(priority, topic, message) =>
        buf := buf + [OP_PUBLISH];
        buf := buf + [priority];
        assert buf == [OP_PUBLISH, priority];
        PublishLen(|topic|, |message|);
        buf := buf + Le32((AsU32(|topic|) + 1 + AsU32(|message|)) % U32_LIMIT);
        buf := buf + topic;
        buf := buf + [NUL];
      case PublishRepl(_, topic, _, _) =>
        buf := buf + [OP_PUBLISH_REPL];
        buf := buf + Le32(|topic|);
        buf := buf + topic;
      case Bye =>
        buf := buf + [OP_BYE];
    }
  }

  /** Everything the client writes before it waits for the first answer: `as_bytes`, then the
      message body of a publish. */
  function FirstBytes(cmd: Command): Text {
    Encoded(cmd) + if cmd.Publish? then cmd.message else []
  }

  /** What the client of a replication command writes once the server is waiting for the message. */
  function ReplBytes(cmd: Command): Text
    requires cmd.PublishRepl?
  {
    [cmd.priority] + Le64(cmd.timestamp % U64_LIMIT) + Le32(|cmd.message|) + cmd.message
  }

  // ---------------------------------------------------------------- server side

  datatype Limits = Limits(maxTopicLength: nat, maxPubSize: nat, cluster: bool)

  /** A request the server has read completely. */
  datatype Request =
    | NopRequest
    | SubscribeRequest(topics: seq<Text>)
    | UnsubscribeRequest(topics: seq<Text>)
    | PublishRequest(priority: byte, topic: Text, data: Text)
    | ReplTopicRequest(topic: Text)
    | ReplDataRequest(topic: Text, priority: byte, timestamp: nat, data: Text)
    | ByeRequest

  predicate AllUtf8(topics: seq<Text>) {
    forall i :: 0 <= i < |topics| ==> ValidUtf8(topics[i])
  }

  /** What `parse_topics!` makes of a frame. */
  function TopicsOf(data: Text): Result<seq<Text>, ErrorKind> {
    var topics := NonEmpty(Split(data, NUL));
    if AllUtf8(topics) then Ok(topics) else Err(InvalidData)
  }

  /** The loop of `parse_topics!`. */
  method ParseTopics(data: Text) returns (r: Result<seq<Text>, ErrorKind>)
    ensures r == TopicsOf(data)
  {
    var pieces := Split(data, NUL);
    var topics: seq<Text> := [];
    for i := 0 to |pieces|
      invariant topics == NonEmpty(pieces[..i])
      invariant AllUtf8(topics)
    {
      NonEmptyStep(pieces, i);
      if pieces[i] != [] {
        if !ValidUtf8(pieces[i]) {
          NonEmptyPrefix(pieces, i + 1);
          assert NonEmpty(pieces)[|topics|] == pieces[i];
          return Err(InvalidData);
        }
        topics := topics + [pieces[i]];
      }
    }
    assert pieces[..|pieces|] == pieces;
    r := Ok(topics);
  }

  lemma {:induction false} NonEmptyStep(pieces: seq<Text>, i: nat)
    requires i < |pieces|
    ensures NonEmpty(pieces[..i + 1]) == NonEmpty(pieces[..i]) + if pieces[i] == [] then [] else [pieces[i]]
  {
    if i == 0 {
      assert pieces[..1][1..] == [];
    } else {
      NonEmptyStep(pieces[1..], i - 1);
      assert pieces[..i + 1][1..] == pieces[1..][..i];
      assert pieces[..i][1..] == pieces[1..][..i - 1];
    }
  }

  lemma {:induction false} NonEmptyPrefix(pieces: seq<Text>, n: nat)
    requires n <= |pieces|
    ensures NonEmpty(pieces[..n]) <= NonEmpty(pieces)
    decreases |pieces| - n
  {
    if n == |pieces| {
      assert pieces[..n] == pieces;
    } else {
      NonEmptyStep(pieces, n);
      NonEmptyPrefix(pieces, n + 1);
    }
  }

  /** A publish frame: a non-empty UTF-8 topic up to the first NUL, then the message. */
  function PublishBody(buf: Text): Result<(Text, Text), ErrorKind> {
    var (topic, data) := CutAtNul(buf);
    if data.None? || topic == [] || !ValidUtf8(topic) then Err(InvalidData) else Ok((topic, data.value))
  }

  /** `position`, `split_off` and `truncate` on the frame buffer. */
  method ParsePublish(frame: Text) returns (r: Result<(Text, Text), ErrorKind>)
    ensures r == PublishBody(frame)
  {
    var buf := frame;
    var npos := IndexOf(buf, NUL);
    if npos == |buf| {
      return Err(InvalidData);
    }
    var data := buf[npos + 1..];
    buf := buf[..npos + 1];
    buf := buf[..|buf| - 1];
    if buf == [] {
      return Err(InvalidData);
    }
    if !ValidUtf8(buf) {
      return Err(InvalidData);
    }
    r := Ok((buf, data));
  }

  /** A publish frame is accepted exactly when it is a non-empty UTF-8 topic without NULs, a NUL, and
      a message; these are unique. */
  lemma PublishBodyIff(frame: Text, topic: Text, data: Text)
    ensures PublishBody(frame) == Ok((topic, data)) <==>
            frame == topic + [NUL] + data && topic != [] && NulFree(topic) && ValidUtf8(topic)
  {
    if frame == topic + [NUL] + data && NulFree(topic) {
      CutAtNulJoint(topic, data);
    }
  }

  /** A frame is read exactly when its length is within the limit and it is all there; a length
      above the limit is refused without waiting for the body. */
  lemma FrameIff(maxLength: nat, s: Text, body: Text)
    requires |s| >= 4
    ensures FrameAt(Some(maxLength), s) == Ok(body) <==>
            FromLe32(s[..4]) == |body| <= maxLength && 4 + |body| <= |s| && s[4..4 + |body|] == body
    ensures FrameAt(Some(maxLength), s) == Err(InvalidData) <==> FromLe32(s[..4]) > maxLength
  {
  }

  /** Where the server stands between two exact reads of one control connection. `Decided` has
      read a request and is about to act on it; `Failed` has left the control loop on an error. */
  datatype Reader =
    | AtCommand
    | AtTopicsLen(op: byte)
    | AtTopics(op: byte, len: nat)
    | AtPriority
    | AtPublishLen(priority: byte)
    | AtPublish(priority: byte, len: nat)
    | AtReplTopicLen
    | AtReplTopic(len: nat)
    | AtReplPriority(topic: Text)
    | AtReplTimestamp(topic: Text, priority: byte)
    | AtReplLen(topic: Text, priority: byte, timestamp: nat)
    | AtReplData(topic: Text, priority: byte, timestamp: nat, len: nat)
    | Decided(request: Request)
    | Failed

  predicate Stopped(r: Reader) {
    r.Decided? || r.Failed?
  }

  /** Bytes of the next exact read. */
  function Need(r: Reader): nat {
    match r
    case AtCommand | AtPriority | AtReplPriority(_) => 1
    case AtTopicsLen(_) | AtPublishLen(_) | AtReplTopicLen | AtReplLen(_, _, _) => 4
    case AtReplTimestamp(_, _) => 8
    case AtTopics(_, len) => len
    case AtPublish(_, len) => len
    case AtReplTopic(len) => len
    case AtReplData(_, _, _, len) => len
    case Decided(_) | Failed => 0
  }

  /** Reads still ahead of a reader, at most. */
  function Rank(r: Reader): nat {
    match r
    case AtCommand => 4
    case AtPriority | AtReplTimestamp(_, _) => 3
    case AtReplPriority(_) => 4
    case AtTopicsLen(_) | AtPublishLen(_) | AtReplTopicLen | AtReplLen(_, _, _) => 2
    case AtTopics(_, _) | AtPublish(_, _) | AtReplTopic(_) | AtReplData(_, _, _, _) => 1
    case Decided(_) | Failed => 0
  }

  /** The length of a frame: too long frames end the connection. */
  function FrameLen(max: nat, b: Text): Option<nat>
    requires |b| == 4
  {
    if FromLe32(b) > max then None else Some(FromLe32(b))
  }

  function Feed(limits: Limits, r: Reader, b: Text): (q: Reader)
    requires !Stopped(r) && |b| == Need(r)
    ensures Rank(q) < Rank(r)
  {
    match r
    case AtCommand => AfterOp(limits, b[0])
    case AtTopicsLen(op) =>
      var len := FrameLen(limits.maxTopicLength, b);
      if len.None? then Failed else AtTopics(op, len.value)
    case AtTopics(op, _) => AfterTopics(op, b)
    case AtPriority => AtPublishLen(b[0])
    case AtPublishLen(priority) =>
      var len := FrameLen(limits.maxPubSize, b);
      if len.None? then Failed else AtPublish(priority, len.value)
    case AtPublish(priority, _) => AfterPublish(priority, b)
    case AtReplTopicLen =>
      var len := FrameLen(limits.maxTopicLength, b);
      if len.None? then Failed else AtReplTopic(len.value)
    case AtReplTopic(_) => if ValidUtf8(b) then Decided(ReplTopicRequest(b)) else Failed
    case AtReplPriority(topic) => AtReplTimestamp(topic, b[0])
    case AtReplTimestamp(topic, priority) => AtReplLen(topic, priority, FromLe64(b))
    case AtReplLen(topic, priority, timestamp) =>
      var len := FrameLen(limits.maxPubSize, b);
      if len.None? then Failed else AtReplData(topic, priority, timestamp, len.value)
    case AtReplData(topic, priority, timestamp, _) =>
      Decided(ReplDataRequest(topic, priority, timestamp, b))
  }

  function AfterTopics(op: byte, data: Text): (q: Reader)
    ensures Stopped(q)
  {
    var topics := TopicsOf(data);
    if topics.Err? then Failed
    else if op == OP_SUBSCRIBE then Decided(SubscribeRequest(topics.value))
    else Decided(UnsubscribeRequest(topics.value))
  }

  function AfterPublish(priority: byte, frame: Text): (q: Reader)
    ensures Stopped(q)
  {
    var body := PublishBody(frame);
    if body.Err? then Failed else Decided(PublishRequest(priority, body.value.0, body.value.1))
  }

  function AfterOp(limits: Limits, op: byte): Reader {
    if op == OP_NOP then Decided(NopRequest)
    else if op == OP_SUBSCRIBE || op == OP_UNSUBSCRIBE then AtTopicsLen(op)
    else if op == OP_PUBLISH then AtPriority
    else if op == OP_PUBLISH_REPL then (if limits.cluster then AtReplTopicLen else Failed)
    else if op == OP_BYE then Decided(ByeRequest)
    else Failed
  }

  /** What the first byte of a command leads to, by value. */
  lemma OpIff(limits: Limits, op: byte)
    ensures AfterOp(limits, op) ==
            if op == 0x00 then Decided(NopRequest)
            else if op == 0xFF then Decided(ByeRequest)
            else if op == 0x02 || op == 0x03 then AtTopicsLen(op)
            else if op == 0x01 then AtPriority
            else if op == 0x11 && limits.cluster then AtReplTopicLen
            else Failed
  {
  }

  /** The topics of a frame: its pieces between NULs, all of them UTF-8, in order and without the
      empty ones. */
  lemma TopicsIff(data: Text)
    ensures TopicsOf(data).Ok? <==> forall piece :: piece in Split(data, NUL) ==> ValidUtf8(piece)
    ensures TopicsOf(data).Ok? ==>
              && TopicsOf(data).value == NonEmpty(Split(data, NUL))
              && forall topic :: topic in TopicsOf(data).value <==> topic in Split(data, NUL) && topic != []
  {
    NonEmptyMembers(Split(data, NUL));
    AllUtf8Iff(Split(data, NUL));
  }

  lemma {:induction false} AllUtf8Iff(pieces: seq<Text>)
    ensures AllUtf8(NonEmpty(pieces)) <==> forall piece :: piece in pieces ==> ValidUtf8(piece)
  {
    NonEmptyMembers(pieces);
    var topics := NonEmpty(pieces);
    if AllUtf8(topics) {
      forall piece | piece in pieces
        ensures ValidUtf8(piece)
      {
        assert piece != [] ==> piece in topics;
      }
    }
    if forall piece :: piece in pieces ==> ValidUtf8(piece) {
      forall i | 0 <= i < |topics|
        ensures ValidUtf8(topics[i])
      {
        assert topics[i] in topics;
      }
    }
  }

  lemma {:induction false} NonEmptyMembers(pieces: seq<Text>)
    ensures forall p :: p in NonEmpty(pieces) <==> p in pieces && p != []
  {
    if pieces != [] {
      NonEmptyMembers(pieces[1..]);
      assert pieces == [pieces[0]] + pieces[1..];
    }
  }

  /** When an exact read ends the connection: an operation unknown or not offered, a length above the
      limit, topics that are not UTF-8, a publish frame that is none. */
  lemma FailsIff(limits: Limits, r: Reader, b: Text)
    requires !Stopped(r) && |b| == Need(r)
    ensures Feed(limits, r, b).Failed? <==>
            match r
            case AtCommand => b[0] !in {0x00, 0x01, 0x02, 0x03, 0xFF} && !(b[0] == 0x11 && limits.cluster)
            case AtTopicsLen(_) => FromLe32(b) > limits.maxTopicLength
            case AtReplTopicLen => FromLe32(b) > limits.maxTopicLength
            case AtPublishLen(_) => FromLe32(b) > limits.maxPubSize
            case AtReplLen(_, _, _) => FromLe32(b) > limits.maxPubSize
            case AtTopics(_, _) => exists piece :: piece in Split(b, NUL) && !ValidUtf8(piece)
            case AtPublish(_, _) =>
              !exists topic, data :: b == topic + [NUL] + data && topic != [] && NulFree(topic) && ValidUtf8(topic)
            case AtReplTopic(_) => !ValidUtf8(b)
            case _ => false
  {
    if r.AtTopics? {
      TopicsIff(b);
    } else if r.AtPublish? {
      if topic, data :| b == topic + [NUL] + data && topic != [] && NulFree(topic) && ValidUtf8(topic) {
        PublishBodyIff(b, topic, data);
      }
      if PublishBody(b).Ok? {
        PublishBodyIff(b, PublishBody(b).value.0, PublishBody(b).value.1);
      }
    }
  }

  /** Reads as long as there are enough bytes; returns the unread rest. */
  function Run(limits: Limits, r: Reader, s: Text): (Reader, Text)
    decreases Rank(r)
  {
    if Stopped(r) || |s| < Need(r) then (r, s)
    else Run(limits, Feed(limits, r, s[..Need(r)]), s[Need(r)..])
  }

  lemma RunStep(limits: Limits, r: Reader, b: Text, t: Text)
    requires !Stopped(r) && |b| == Need(r)
    ensures Run(limits, r, b + t) == Run(limits, Feed(limits, r, b), t)
  {
    assert (b + t)[..|b|] == b;
    assert (b + t)[|b|..] == t;
  }

  /** Bytes behind a finished request are left alone. */
  lemma {:induction false} RunAppend(limits: Limits, r: Reader, s: Text, t: Text)
    requires Stopped(Run(limits, r, s).0)
    ensures Run(limits, r, s + t) == (Run(limits, r, s).0, Run(limits, r, s).1 + t)
    decreases Rank(r)
  {
    if !Stopped(r) {
      var b, rest := s[..Need(r)], s[Need(r)..];
      assert s == b + rest;
      RunStep(limits, r, b, rest);
      RunAppend(limits, Feed(limits, r, b), rest, t);
      StepAppend(limits, r, b, rest, t);
    }
  }

  lemma StepAppend(limits: Limits, r: Reader, b: Text, rest: Text, t: Text)
    requires !Stopped(r) && |b| == Need(r)
    ensures Run(limits, r, b + rest + t) == Run(limits, Feed(limits, r, b), rest + t)
  {
    assert b + rest + t == b + (rest + t);
    RunStep(limits, r, b, rest + t);
  }

  /** A reader never stops early: on a proper prefix of the bytes it consumes, it waits. */
  lemma RunWaits(limits: Limits, r: Reader, s: Text, n: nat)
    requires n < |s|
    requires Run(limits, r, s).1 == []
    ensures !Stopped(Run(limits, r, s[..n]).0)
  {
    assert s == s[..n] + s[n..];
    if Stopped(Run(limits, r, s[..n]).0) {
      RunAppend(limits, r, s[..n], s[n..]);
    }
  }

  // ---------------------------------------------------------------- exact reads

  /** The receiving half of an `SStream`: what the peer has sent and nobody has read. */
  class Source {
    var pending: Text

    constructor (bytes: Text)
      ensures pending == bytes
    {
      pending := bytes;
    }

    /** `read_exact`: all `n` bytes or an error; the stream is not used after an error. */
    method ReadExact(n: nat) returns (r: Result<Text, ErrorKind>)
      modifies this
      ensures r.Ok? <==> n <= |old(pending)|
      ensures r.Ok? ==> r.value == old(pending)[..n] && pending == old(pending)[n..]
      ensures r.Err? ==> r.error == Eof && pending == old(pending)
    {
      if n <= |pending| {
        r := Ok(pending[..n]);
        pending := pending[n..];
      } else {
        r := Err(Eof);
      }
    }

    /** `read_frame_with_timeout`: a little-endian length, checked before the body is read. */
    method ReadFrame(maxLength: Option<nat>) returns (r: Result<Text, ErrorKind>)
      modifies this
      ensures r == FrameAt(maxLength, old(pending))
      ensures r.Ok? ==> old(pending) == Le32(|r.value|) + r.value + pending
    {
      var head := ReadExact(4);
      if head.Err? {
        return Err(head.error);
      }
      var len := FromLe32(head.value);
      if maxLength.Some? && len > maxLength.value {
        return Err(InvalidData);
      }
      ghost var rest := pending;
      r := ReadExact(len);
      assert r.Ok? ==> r.value == old(pending)[4..][..len] == old(pending)[4..4 + len];
      if r.Ok? {
        FromLe32Injective(Le32(len), head.value);
        assert old(pending) == head.value + rest;
        assert rest == r.value + pending;
      }
    }
  }

  function FrameAt(maxLength: Option<nat>, s: Text): Result<Text, ErrorKind> {
    if |s| < 4 then Err(Eof)
    else
      var len := FromLe32(s[..4]);
      if maxLength.Some? && len > maxLength.value then Err(InvalidData)
      else if |s| - 4 < len then Err(Eof)
      else Ok(s[4..4 + len])
  }

  /** The reading part of a subscribe or unsubscribe. */
  method ReadTopics(limits: Limits, op: byte, stream: Source) returns (r: Result<Request, ErrorKind>)
    modifies stream
    ensures IsReading(limits, AtTopicsLen(op), old(stream.pending), r, stream.pending)
  {
    FrameRun(limits, AtTopicsLen(op), limits.maxTopicLength, stream.pending);
    var data := stream.ReadFrame(Some(limits.maxTopicLength));
    if data.Err? {
      return Err(data.error);
    }
    var topics := ParseTopics(data.value);
    if topics.Err? {
      return Err(topics.error);
    }
    r := Ok(if op == OP_SUBSCRIBE then SubscribeRequest(topics.value) else UnsubscribeRequest(topics.value));
  }

  /** The reading part of a publish: priority, then one frame. */
  method ReadPublish(limits: Limits, stream: Source) returns (r: Result<Request, ErrorKind>)
    modifies stream
    ensures IsReading(limits, AtPriority, old(stream.pending), r, stream.pending)
  {
    ghost var all := stream.pending;
    var prio := stream.ReadExact(1);
    if prio.Err? {
      return Err(prio.error);
    }
    assert all == prio.value + stream.pending;
    RunStep(limits, AtPriority, prio.value, stream.pending);
    FrameRun(limits, AtPublishLen(prio.value[0]), limits.maxPubSize, stream.pending);
    var buf := stream.ReadFrame(Some(limits.maxPubSize));
    if buf.Err? {
      return Err(buf.error);
    }
    var body := ParsePublish(buf.value);
    if body.Err? {
      return Err(body.error);
    }
    r := Ok(PublishRequest(prio.value[0], body.value.0, body.value.1));
  }

  /** The first reading part of a replicated publish. */
  method ReadReplTopic(limits: Limits, stream: Source) returns (r: Result<Request, ErrorKind>)
    modifies stream
    ensures IsReading(limits, AtReplTopicLen, old(stream.pending), r, stream.pending)
  {
    FrameRun(limits, AtReplTopicLen, limits.maxTopicLength, stream.pending);
    var topic := stream.ReadFrame(Some(limits.maxTopicLength));
    if topic.Err? {
      return Err(topic.error);
    }
    if !ValidUtf8(topic.value) {
      return Err(InvalidData);
    }
    r := Ok(ReplTopicRequest(topic.value));
  }

  /** `r` and `rest` are what reading on from `q` makes of the bytes `s`. */
  predicate IsReading(limits: Limits, q: Reader, s: Text, r: Result<Request, ErrorKind>, rest: Text) {
    && (r.Ok? <==> Run(limits, q, s).0.Decided?)
    && (r.Ok? ==> Run(limits, q, s) == (Decided(r.value), rest))
  }

  /** The reading part of one turn of `process_control`, up to the point where the server acts. */
  method ReadRequest(limits: Limits, stream: Source) returns (r: Result<Request, ErrorKind>)
    modifies stream
    ensures IsReading(limits, AtCommand, old(stream.pending), r, stream.pending)
  {
    ghost var all := stream.pending;
    var cmd := stream.ReadExact(1);
    if cmd.Err? {
      return Err(cmd.error);
    }
    assert all == cmd.value + stream.pending;
    RunStep(limits, AtCommand, cmd.value, stream.pending);
    var op := cmd.value[0];
    if op == OP_NOP {
      r := Ok(NopRequest);
    } else if op == OP_SUBSCRIBE || op == OP_UNSUBSCRIBE {
      r := ReadTopics(limits, op, stream);
    } else if op == OP_PUBLISH {
      r := ReadPublish(limits, stream);
    } else if op == OP_PUBLISH_REPL {
      if !limits.cluster {
        return Err(InvalidData);
      }
      r := ReadReplTopic(limits, stream);
    } else if op == OP_BYE {
      r := Ok(ByeRequest);
    } else {
      r := Err(InvalidData);
    }
  }

  /** Reading a frame is two steps of the reader. */
  lemma FrameRun(limits: Limits, r: Reader, max: nat, s: Text)
    requires r.AtTopicsLen? || r.AtPublishLen? || r.AtReplTopicLen? || r.AtReplLen?
    requires max == if r.AtPublishLen? || r.AtReplLen? then limits.maxPubSize else limits.maxTopicLength
    ensures var f := FrameAt(Some(max), s);
            if f.Err? then !Run(limits, r, s).0.Decided?
            else
              var body := Feed(limits, r, s[..4]);
              && 4 + |f.value| <= |s|
              && !Stopped(body) && Need(body) == |f.value|
              && Run(limits, r, s) == (Feed(limits, body, f.value), s[4 + |f.value|..])
  {
    var f := FrameAt(Some(max), s);
    if |s| >= 4 {
      var body, rest := Feed(limits, r, s[..4]), s[4..];
      assert s == s[..4] + rest;
      RunStep(limits, r, s[..4], rest);
      if f.Ok? {
        BodyRun(limits, body, f.value, rest);
      }
    }
  }

  lemma BodyRun(limits: Limits, r: Reader, body: Text, s: Text)
    requires !Stopped(r) && Need(r) == |body| && body <= s && Stopped(Feed(limits, r, body))
    ensures Run(limits, r, s) == (Feed(limits, r, body), s[|body|..])
  {
    assert s == body + s[|body|..];
    RunStep(limits, r, body, s[|body|..]);
    RunStopped(limits, Feed(limits, r, body), s[|body|..]);
  }

  lemma RunStopped(limits: Limits, r: Reader, s: Text)
    requires Stopped(r)
    ensures Run(limits, r, s) == (r, s)
  {
  }

  // ---------------------------------------------------------------- round trip

  /** Strings as Rust gives them, NUL-free topics, sizes within the server's limits and `u32`. */
  predicate WithinLimits(limits: Limits, cmd: Command) {
    match cmd
    case Nop | Bye => true
    case Subscribe(topic) =>
      TopicFits(limits, topic)
    case Unsubscribe(topic) =>
      TopicFits(limits, topic)
    case SubscribeBulk(topics) => BulkFits(limits, topics)
    case UnsubscribeBulk(topics) => BulkFits(limits, topics)
    case Publish(_, topic, message) =>
      && topic != [] && ValidUtf8(topic) && NulFree(topic)
      && |topic| + 1 + |message| <= limits.maxPubSize && |topic| + 1 + |message| < U32_LIMIT
    case PublishRepl(_, topic, message, timestamp) =>
      && limits.cluster
      && TopicFits(limits, topic)
      && |message| <= limits.maxPubSize && |message| < U32_LIMIT
      && timestamp < U64_LIMIT
  }

  predicate TopicFits(limits: Limits, topic: Text) {
    ValidUtf8(topic) && NulFree(topic) && |topic| <= limits.maxTopicLength && |topic| < U32_LIMIT
  }

  predicate BulkFits(limits: Limits, topics: seq<Text>) {
    && AllUtf8(topics) && Without(topics, NUL)
    && |BulkBody(topics)| <= limits.maxTopicLength && |BulkBody(topics)| < U32_LIMIT
  }

  /** What the caller of a command asks for; empty topics are dropped. */
  function Meaning(cmd: Command): Request {
    match cmd
    case Nop => NopRequest
    case Subscribe(topic) => SubscribeRequest(NonEmpty([topic]))
    case SubscribeBulk(topics) => SubscribeRequest(NonEmpty(topics))
    case Unsubscribe(topic) => UnsubscribeRequest(NonEmpty([topic]))
    case UnsubscribeBulk(topics) => UnsubscribeRequest(NonEmpty(topics))
    case Publish(priority, topic, message) => PublishRequest(priority, topic, message)
    case PublishRepl(_, topic, _, _) => ReplTopicRequest(topic)
    case Bye => ByeRequest
  }

  lemma {:induction false} SplitBulk(topics: seq<Text>)
    requires Without(topics, NUL)
    ensures Split(BulkBody(topics), NUL) == topics + [[]]
  {
    if topics == [] {
      assert Split([], NUL) == [[]];
    } else {
      SplitBulk(topics[1..]);
      SplitAtFirst(topics[0], NUL, BulkBody(topics[1..]));
      assert [topics[0]] + (topics[1..] + [[]]) == topics + [[]];
    }
  }

  lemma {:induction false} NonEmptyUtf8(pieces: seq<Text>)
    requires AllUtf8(pieces)
    ensures AllUtf8(NonEmpty(pieces))
  {
    if pieces != [] {
      NonEmptyUtf8(pieces[1..]);
    }
  }

  /** A bulk body decodes to its topics, the empty ones removed. */
  lemma BulkTopics(topics: seq<Text>)
    requires AllUtf8(topics) && Without(topics, NUL)
    ensures TopicsOf(BulkBody(topics)) == Ok(NonEmpty(topics))
  {
    SplitBulk(topics);
    NonEmptySnoc(topics);
    NonEmptyUtf8(topics);
  }

  /** A single topic decodes like a bulk of one. */
  lemma SingleTopic(topic: Text)
    requires ValidUtf8(topic) && NulFree(topic)
    ensures TopicsOf(topic) == Ok(NonEmpty([topic]))
    ensures TopicsOf(topic) == TopicsOf(BulkBody([topic]))
  {
    assert Split(topic, NUL) == [topic];
    NonEmptyUtf8([topic]);
    BulkTopics([topic]);
  }

  lemma FrameRead(limits: Limits, r: Reader, max: nat, body: Text, tail: Text)
    requires r.AtTopicsLen? || r.AtPublishLen? || r.AtReplTopicLen? || r.AtReplLen?
    requires max == if r.AtPublishLen? || r.AtReplLen? then limits.maxPubSize else limits.maxTopicLength
    requires |body| <= max && |body| < U32_LIMIT
    ensures var q := Feed(limits, r, Le32(|body|));
            && !Stopped(q) && Need(q) == |body|
            && Run(limits, r, Le32(|body|) + body + tail) == (Feed(limits, q, body), tail)
  {
    var q := Feed(limits, r, Le32(|body|));
    assert Le32(|body|) + body + tail == Le32(|body|) + (body + tail);
    RunStep(limits, r, Le32(|body|), body + tail);
    RunStep(limits, q, body, tail);
    RunStopped(limits, Feed(limits, q, body), tail);
  }

  /** Whatever follows on the stream, the server reads back the operation, priority, topics and
      message the client was asked to send, and not one byte more. */
  lemma CommandRoundTrip(limits: Limits, cmd: Command, tail: Text)
    requires WithinLimits(limits, cmd)
    ensures Run(limits, AtCommand, FirstBytes(cmd) + tail) == (Decided(Meaning(cmd)), tail)
  {
    match cmd {
      case Nop => RunOp(limits, OP_NOP, FirstBytes(cmd) + tail);
      case Bye => RunOp(limits, OP_BYE, FirstBytes(cmd) + tail);
      case Subscribe(topic) =>
        SingleTopic(topic);
        TopicsRoundTrip(limits, OP_SUBSCRIBE, topic, tail);
      case Unsubscribe(topic) =>
        SingleTopic(topic);
        TopicsRoundTrip(limits, OP_UNSUBSCRIBE, topic, tail);
      case SubscribeBulk(topics) =>
        BulkTopics(topics);
        TopicsRoundTrip(limits, OP_SUBSCRIBE, BulkBody(topics), tail);
      case UnsubscribeBulk(topics) =>
        BulkTopics(topics);
        TopicsRoundTrip(limits, OP_UNSUBSCRIBE, BulkBody(topics), tail);
      case Publish(_, _, _) => PublishRoundTrip(limits, cmd, tail);
      case PublishRepl(_, topic, _, _) => ReplTopicRoundTrip(limits, topic, tail);
    }
  }

  lemma ReplTopicRoundTrip(limits: Limits, topic: Text, tail: Text)
    requires limits.cluster && TopicFits(limits, topic)
    ensures Run(limits, AtCommand, [OP_PUBLISH_REPL] + Le32(|topic|) + topic + [] + tail)
         == (Decided(ReplTopicRequest(topic)), tail)
  {
    var rest := Le32(|topic|) + topic + tail;
    assert [OP_PUBLISH_REPL] + Le32(|topic|) + topic + [] + tail == [OP_PUBLISH_REPL] + rest;
    RunOp(limits, OP_PUBLISH_REPL, [OP_PUBLISH_REPL] + rest);
    FrameRead(limits, AtReplTopicLen, limits.maxTopicLength, topic, tail);
  }

  lemma PublishRoundTrip(limits: Limits, cmd: Command, tail: Text)
    requires cmd.Publish? && WithinLimits(limits, cmd)
    ensures Run(limits, AtCommand, FirstBytes(cmd) + tail) == (Decided(Meaning(cmd)), tail)
  {
    var body := cmd.topic + [NUL] + cmd.message;
    var rest := Le32(|body|) + body + tail;
    var s := FirstBytes(cmd) + tail;
    PublishBytesSplit(cmd, tail);
    RunOp(limits, OP_PUBLISH, s);
    RunStep(limits, AtPriority, [cmd.priority], rest);
    FrameRead(limits, AtPublishLen(cmd.priority), limits.maxPubSize, body, tail);
    CutAtNulJoint(cmd.topic, cmd.message);
  }

  lemma PublishBytesSplit(cmd: Command, tail: Text)
    requires cmd.Publish?
    ensures var body := cmd.topic + [NUL] + cmd.message;
            FirstBytes(cmd) + tail == [OP_PUBLISH] + ([cmd.priority] + (Le32(|body|) + body + tail))
  {
  }

  lemma RunOp(limits: Limits, op: byte, s: Text)
    requires s != [] && s[0] == op
    ensures Run(limits, AtCommand, s) == Run(limits, AfterOp(limits, op), s[1..])
  {
    assert s == [op] + s[1..];
    RunStep(limits, AtCommand, [op], s[1..]);
  }

  lemma TopicsRoundTrip(limits: Limits, op: byte, body: Text, tail: Text)
    requires op == OP_SUBSCRIBE || op == OP_UNSUBSCRIBE
    requires |body| <= limits.maxTopicLength && |body| < U32_LIMIT
    requires TopicsOf(body).Ok?
    ensures Run(limits, AtCommand, [op] + Le32(|body|) + body + [] + tail)
         == (Decided(if op == OP_SUBSCRIBE
                     then SubscribeRequest(TopicsOf(body).value)
                     else UnsubscribeRequest(TopicsOf(body).value)), tail)
  {
    var rest := Le32(|body|) + body + tail;
    assert [op] + Le32(|body|) + body + [] + tail == [op] + rest;
    RunOp(limits, op, [op] + rest);
    FrameRead(limits, AtTopicsLen(op), limits.maxTopicLength, body, tail);
  }

  lemma ReplHeadRoundTrip(limits: Limits, topic: Text, priority: byte, timestamp: nat, rest: Text)
    requires timestamp < U64_LIMIT
    ensures Run(limits, AtReplPriority(topic), [priority] + (Le64(timestamp) + rest))
         == Run(limits, AtReplLen(topic, priority, timestamp), rest)
  {
    RunStep(limits, AtReplPriority(topic), [priority], Le64(timestamp) + rest);
    RunStep(limits, AtReplTimestamp(topic, priority), Le64(timestamp), rest);
    Le64RoundTrip(timestamp);
  }

  lemma ReplBytesSplit(cmd: Command, tail: Text)
    requires cmd.PublishRepl? && cmd.timestamp < U64_LIMIT
    ensures ReplBytes(cmd) + tail
         == [cmd.priority] + (Le64(cmd.timestamp) + (Le32(|cmd.message|) + cmd.message + tail))
  {
  }

  /** The second half of a replication command. */
  lemma ReplRoundTrip(limits: Limits, cmd: Command, tail: Text)
    requires cmd.PublishRepl? && WithinLimits(limits, cmd)
    ensures Run(limits, AtReplPriority(cmd.topic), ReplBytes(cmd) + tail)
         == (Decided(ReplDataRequest(cmd.topic, cmd.priority, cmd.timestamp, cmd.message)), tail)
  {
    var rest := Le32(|cmd.message|) + cmd.message + tail;
    ReplBytesSplit(cmd, tail);
    ReplHeadRoundTrip(limits, cmd.topic, cmd.priority, cmd.timestamp, rest);
    FrameRead(limits, AtReplLen(cmd.topic, cmd.priority, cmd.timestamp), limits.maxPubSize, cmd.message, tail);
  }
}
