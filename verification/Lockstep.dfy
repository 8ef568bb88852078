/** The client's control loop (src/client.rs) against the server's (src/server.rs), over two
    byte channels with arbitrary delivery timing, where either side may stop at any point. */
module Lockstep {
  import opened Wrappers
  import opened Bytes
  import opened Wire
  import opened Server

  /** What the client loop hands to the caller of a command. */
  datatype Outcome = Success | AccessRefused | ServerError

  function OutcomeOf(status: byte): Outcome {
    if status == RESPONSE_OK || status == RESPONSE_NOT_REQUIRED then Success
    else if status == RESPONSE_ERR_ACCESS then AccessRefused
    else ServerError
  }

  /** Where the client loop stands; `Awaiting` and `AwaitingRepl` hold the current command. */
  datatype ClientPc =
    | Idle
    | Awaiting(command: Command)      // first answer outstanding
    | AwaitingRepl(command: Command)  // message sent after `RESPONSE_OK_WAITING`, answer outstanding

  /** A final status and the request it was computed for. */
  datatype Reply = Reply(request: Request, status: byte)

  datatype State = State(
    submitted: seq<Command>,  // every command ever put into the control channel
    next: nat,                // how many of them the loop has dequeued
    client: ClientPc,
    clientRuns: bool,
    out: Text,                // bytes the client has still to write
    toServer: Text,           // bytes on the way
    toClient: Text,
    reader: Reader,           // the server between two reads
    serverRuns: bool,
    taken: seq<nat>,          // history: positions of the commands written, in order
    handed: seq<Outcome>,     // history: outcomes handed to callers
    replies: seq<Reply>       // history: final statuses computed by the server
  )

  const INITIAL := State([], 0, Idle, true, [], [], [], AtCommand, true, [], [], [])

  datatype Step =
    | Submit(command: Command)  // a caller, the pinger or the data reader queues a command
    | Skip                      // a beacon too soon after the last command is dropped
    | Take                      // the loop dequeues a command and starts writing it
    | Flush(count: nat)         // some bytes reach the channel
    | Receive                   // the client reads one status byte
    | ClientStops               // timeout, broken stream, shutdown
    | Read                      // the server completes one exact read
    | Act(wanted: bool)         // the server acts on a request and answers
    | ServerStops

  /** Sizes representable in the length fields, as the protocol assumes of its users. */
  predicate Framable(cmd: Command) {
    match cmd
    case Nop | Bye => true
    case Subscribe(topic) => |topic| < U32_LIMIT
    case Unsubscribe(topic) => |topic| < U32_LIMIT
    case SubscribeBulk(topics) => |BulkBody(topics)| < U32_LIMIT
    case UnsubscribeBulk(topics) => |BulkBody(topics)| < U32_LIMIT
    case Publish(_, topic, message) => |topic| + 1 + |message| < U32_LIMIT
    case PublishRepl(_, topic, message, _) => |topic| < U32_LIMIT && |message| < U32_LIMIT
  }

  predicate Enabled(s: State, step: Step) {
    match step
    case Submit(command) => Framable(command)
    case Skip => s.clientRuns && s.client.Idle? && s.next < |s.submitted| && s.submitted[s.next].Nop?
    case Take => s.clientRuns && s.client.Idle? && s.next < |s.submitted|
    case Flush(count) => s.clientRuns && 0 < count <= |s.out|
    case Receive => s.clientRuns && !s.client.Idle? && s.out == [] && s.toClient != []
    case ClientStops => s.clientRuns
    case Read => s.serverRuns && !Stopped(s.reader) && Need(s.reader) <= |s.toServer|
    case Act(_) => s.serverRuns && s.reader.Decided?
    case ServerStops => s.serverRuns
  }

  /** The client reads `code`. */
  function Received(s: State, code: byte): State
    requires !s.client.Idle?
  {
    if s.client.Awaiting? && s.client.command.PublishRepl? && code == RESPONSE_OK_WAITING then
      s.(client := AwaitingRepl(s.client.command), out := ReplBytes(s.client.command))
    else
      var outcome :=
        if s.client.Awaiting? && s.client.command.PublishRepl? then
          (if code == RESPONSE_NOT_REQUIRED then Success
           else if code == RESPONSE_ERR_ACCESS then AccessRefused else ServerError)
        else
          (if code == RESPONSE_OK then Success
           else if code == RESPONSE_ERR_ACCESS then AccessRefused else ServerError);
      s.(client := Idle, handed := s.handed + [outcome], clientRuns := outcome != ServerError)
  }

  /** The server acts on `request`. */
  function Acted(session: Session, s: State, request: Request, wanted: bool): State {
    match Answer(session, request, wanted)
    case None => s.(reader := Failed, serverRuns := false)
    case Some(status) =>
      if status == RESPONSE_OK_WAITING && request.ReplTopicRequest? then
        s.(toClient := s.toClient + [status], reader := AtReplPriority(request.topic))
      else
        s.(toClient := s.toClient + [status], reader := AtCommand,
           serverRuns := !request.ByeRequest?, replies := s.replies + [Reply(request, status)])
  }

  function Apply(session: Session, s: State, step: Step): State
    requires Enabled(s, step)
  {
    match step
    case Submit(command) => s.(submitted := s.submitted + [command])
    case Skip => s.(next := s.next + 1)
    case Take =>
      s.(next := s.next + 1, taken := s.taken + [s.next],
         client := Awaiting(s.submitted[s.next]), out := FirstBytes(s.submitted[s.next]))
    case Flush(count) => s.(toServer := s.toServer + s.out[..count], out := s.out[count..])
    case Receive => Received(s.(toClient := s.toClient[1..]), s.toClient[0])
    case ClientStops => s.(clientRuns := false)
    case Read =>
      var n := Need(s.reader);
      var r := Feed(session.limits, s.reader, s.toServer[..n]);
      s.(reader := r, toServer := s.toServer[n..], serverRuns := !r.Failed?)
    case Act(wanted) => Acted(session, s, s.reader.request, wanted)
    case ServerStops => s.(serverRuns := false)
  }

  /** The state after a run of steps, if each was enabled in its turn. */
  function After(session: Session, steps: seq<Step>): Option<State>
    decreases steps
  {
    if steps == [] then Some(INITIAL)
    else
      var before := After(session, steps[..|steps| - 1]);
      var step := steps[|steps| - 1];
      if before.Some? && Enabled(before.value, step) then Some(Apply(session, before.value, step)) else None
  }

  // ---------------------------------------------------------------- what the server sees

  /** The request a command is, to a server under these limits; `Failed` when it is refused. */
  function Seen(limits: Limits, cmd: Command): Reader {
    Run(limits, AtCommand, FirstBytes(cmd)).0
  }

  /** The request the message of a replication command is. */
  function SeenRepl(limits: Limits, cmd: Command): Reader
    requires cmd.PublishRepl?
  {
    Run(limits, AtReplPriority(cmd.topic), ReplBytes(cmd)).0
  }

  /** A reader that stops having read everything, or fails. */
  predicate Clean(r: (Reader, Text)) {
    r.0.Failed? || (r.0.Decided? && r.1 == [])
  }

  /** The request a frame body decides. */
  lemma BodyDecides(limits: Limits, r: Reader, len: Text, body: Text)
    requires r.AtTopicsLen? || r.AtPublishLen? || r.AtReplTopicLen? || r.AtReplLen?
    requires |len| == 4
    requires var q := Feed(limits, r, len); !Stopped(q) && |body| == Need(q)
    ensures var d := Feed(limits, Feed(limits, r, len), body);
            && Stopped(d)
            && (d.Decided? ==>
                  && (if r.AtReplTopicLen? then d.request == ReplTopicRequest(body) else !d.request.ReplTopicRequest?)
                  && (r.AtReplLen? <==> d.request.ReplDataRequest?))
  {
  }

  /** A frame is read to its end or refused, and decides the kind of request. */
  lemma FrameIsClean(limits: Limits, r: Reader, max: nat, body: Text)
    requires r.AtTopicsLen? || r.AtPublishLen? || r.AtReplTopicLen? || r.AtReplLen?
    requires max == if r.AtPublishLen? || r.AtReplLen? then limits.maxPubSize else limits.maxTopicLength
    requires |body| < U32_LIMIT
    ensures var q := Run(limits, r, Le32(|body|) + body);
            && Clean(q)
            && (q.0.Decided? ==>
                  && (if r.AtReplTopicLen? then q.0.request == ReplTopicRequest(body)
                      else !q.0.request.ReplTopicRequest?)
                  && (r.AtReplLen? <==> q.0.request.ReplDataRequest?))
  {
    if |body| <= max {
      FrameRead(limits, r, max, body, []);
      assert Le32(|body|) + body + [] == Le32(|body|) + body;
      BodyDecides(limits, r, Le32(|body|), body);
    } else {
      FrameRefused(limits, r, max, body);
    }
  }

  lemma FrameRefused(limits: Limits, r: Reader, max: nat, body: Text)
    requires r.AtTopicsLen? || r.AtPublishLen? || r.AtReplTopicLen? || r.AtReplLen?
    requires max == if r.AtPublishLen? || r.AtReplLen? then limits.maxPubSize else limits.maxTopicLength
    requires max < |body| < U32_LIMIT
    ensures Run(limits, r, Le32(|body|) + body) == (Failed, body)
  {
    RunStep(limits, r, Le32(|body|), body);
    RunStopped(limits, Failed, body);
  }

  /** What the bytes of `cmd` lead to: no stop in the middle, and a request of the right kind. */
  ghost predicate CleanFor(cmd: Command, q: (Reader, Text)) {
    && Clean(q)
    && (q.0.Decided? ==>
          && (if cmd.PublishRepl? then q.0.request == ReplTopicRequest(cmd.topic) else !q.0.request.ReplTopicRequest?)
          && !q.0.request.ReplDataRequest?)
  }

  lemma TopicsAreClean(limits: Limits, op: byte, body: Text)
    requires op == OP_SUBSCRIBE || op == OP_UNSUBSCRIBE || op == OP_PUBLISH_REPL
    requires |body| < U32_LIMIT
    ensures var q := Run(limits, AtCommand, [op] + Le32(|body|) + body + []);
            && Clean(q)
            && (q.0.Decided? ==>
                  && (if op == OP_PUBLISH_REPL then q.0.request == ReplTopicRequest(body)
                      else !q.0.request.ReplTopicRequest?)
                  && !q.0.request.ReplDataRequest?)
  {
    var rest := Le32(|body|) + body;
    assert [op] + Le32(|body|) + body + [] == [op] + rest;
    RunOp(limits, op, [op] + rest);
    assert ([op] + rest)[1..] == rest;
    if op == OP_PUBLISH_REPL {
      FrameIsClean(limits, AtReplTopicLen, limits.maxTopicLength, body);
    } else {
      FrameIsClean(limits, AtTopicsLen(op), limits.maxTopicLength, body);
    }
  }

  lemma PublishIsClean(limits: Limits, cmd: Command)
    requires cmd.Publish? && Framable(cmd)
    ensures CleanFor(cmd, Run(limits, AtCommand, FirstBytes(cmd)))
  {
    var body := cmd.topic + [NUL] + cmd.message;
    var rest := Le32(|body|) + body;
    assert FirstBytes(cmd) == [OP_PUBLISH] + ([cmd.priority] + rest);
    RunOp(limits, OP_PUBLISH, FirstBytes(cmd));
    assert FirstBytes(cmd)[1..] == [cmd.priority] + rest;
    RunStep(limits, AtPriority, [cmd.priority], rest);
    FrameIsClean(limits, AtPublishLen(cmd.priority), limits.maxPubSize, body);
  }

  /** The bytes of one command never leave the server in the middle of a frame. */
  lemma CommandIsClean(limits: Limits, cmd: Command)
    requires Framable(cmd)
    ensures CleanFor(cmd, Run(limits, AtCommand, FirstBytes(cmd)))
  {
    match cmd {
      case Nop => RunOp(limits, OP_NOP, FirstBytes(cmd));
      case Bye => RunOp(limits, OP_BYE, FirstBytes(cmd));
      case Subscribe(topic) => TopicsAreClean(limits, OP_SUBSCRIBE, topic);
      case Unsubscribe(topic) => TopicsAreClean(limits, OP_UNSUBSCRIBE, topic);
      case SubscribeBulk(topics) => TopicsAreClean(limits, OP_SUBSCRIBE, BulkBody(topics));
      case UnsubscribeBulk(topics) => TopicsAreClean(limits, OP_UNSUBSCRIBE, BulkBody(topics));
      case Publish(_, _, _) => PublishIsClean(limits, cmd);
      case PublishRepl(_, topic, _, _) => TopicsAreClean(limits, OP_PUBLISH_REPL, topic);
    }
  }

  lemma ReplIsClean(limits: Limits, cmd: Command)
    requires cmd.PublishRepl? && Framable(cmd)
    ensures var q := Run(limits, AtReplPriority(cmd.topic), ReplBytes(cmd));
            Clean(q) && (q.0.Decided? ==> q.0.request.ReplDataRequest?)
  {
    var stamp := Le64(cmd.timestamp % U64_LIMIT);
    var rest := Le32(|cmd.message|) + cmd.message;
    assert ReplBytes(cmd) == [cmd.priority] + (stamp + rest);
    RunStep(limits, AtReplPriority(cmd.topic), [cmd.priority], stamp + rest);
    RunStep(limits, AtReplTimestamp(cmd.topic, cmd.priority), stamp, rest);
    FrameIsClean(limits, AtReplLen(cmd.topic, cmd.priority, FromLe64(stamp)), limits.maxPubSize, cmd.message);
  }

  // ---------------------------------------------------------------- the invariant

  /** The server computed `reply` for the bytes of `cmd`. */
  ghost predicate FirstReply(session: Session, cmd: Command, reply: Reply) {
    && Seen(session.limits, cmd) == Decided(reply.request)
    && reply.status != RESPONSE_OK_WAITING
    && (|| Answer(session, reply.request, false) == Some(reply.status)
        || Answer(session, reply.request, true) == Some(reply.status))
  }

  /** The server computed `reply` for the message of the replication command `cmd`. */
  ghost predicate SecondReply(session: Session, cmd: Command, reply: Reply) {
    && cmd.PublishRepl?
    && SeenRepl(session.limits, cmd) == Decided(reply.request)
    && reply.request.ReplDataRequest?
    && reply.status == RESPONSE_OK
  }

  ghost predicate Replied(session: Session, cmd: Command, reply: Reply) {
    FirstReply(session, cmd, reply) || SecondReply(session, cmd, reply)
  }

  /** The current command has not been answered: what is left of its bytes takes the server to
      the same place as all of them from the start. */
  ghost predicate Unanswered(session: Session, s: State, start: Reader, bytes: Text) {
    && s.toClient == []
    && |s.replies| == |s.handed|
    && (s.reader.Failed? || Run(session.limits, s.reader, s.toServer + s.out) == Run(session.limits, start, bytes))
  }

  /** The final status of the current command is on its way. */
  ghost predicate AnswerOnWay(s: State) {
    && s.out == [] && s.toServer == []
    && |s.replies| == |s.handed| + 1
    && s.toClient == [s.replies[|s.handed|].status]
    && s.reader == AtCommand
  }

  /** The server is waiting for the message of a replication command. */
  ghost predicate WaitingOnWay(s: State, topic: Text) {
    && s.out == [] && s.toServer == []
    && |s.replies| == |s.handed|
    && s.toClient == [RESPONSE_OK_WAITING]
    && s.reader == AtReplPriority(topic)
  }

  /** Nothing is on the way and every command taken has been answered. */
  ghost predicate Quiet(s: State) {
    && s.out == [] && s.toServer == [] && s.toClient == []
    && |s.handed| == |s.replies| == |s.taken|
    && s.reader == AtCommand
  }

  ghost predicate Channels(session: Session, s: State) {
    match s.client
    case Idle => Quiet(s)
    case Awaiting(cmd) =>
      || Unanswered(session, s, AtCommand, FirstBytes(cmd))
      || (AnswerOnWay(s) && FirstReply(session, cmd, s.replies[|s.handed|]))
      || (cmd.PublishRepl? && WaitingOnWay(s, cmd.topic))
    case AwaitingRepl(cmd) =>
      && cmd.PublishRepl?
      && (|| Unanswered(session, s, AtReplPriority(cmd.topic), ReplBytes(cmd))
          || (AnswerOnWay(s) && SecondReply(session, cmd, s.replies[|s.handed|])))
  }

  /** Commands are taken in the order of the queue; only beacons are passed over. */
  ghost predicate Ordered(s: State) {
    && s.next <= |s.submitted|
    && (forall k :: 0 <= k < |s.taken| ==> s.taken[k] < s.next)
    && (forall j, k :: 0 <= j < k < |s.taken| ==> s.taken[j] < s.taken[k])
    && (forall i :: 0 <= i < s.next ==> i in s.taken || s.submitted[i].Nop?)
    && (forall i :: 0 <= i < |s.submitted| ==> Framable(s.submitted[i]))
  }

  /** The command being served is the last one taken. */
  ghost predicate Current(s: State) {
    !s.client.Idle? ==>
      && |s.taken| == |s.handed| + 1
      && s.taken[|s.handed|] < |s.submitted|
      && s.client.command == s.submitted[s.taken[|s.handed|]]
  }

  /** Replies and outcomes go with the commands taken, position by position. */
  ghost predicate History(session: Session, s: State) {
    && |s.handed| <= |s.replies| <= |s.taken|
    && (forall k :: 0 <= k < |s.handed| ==> s.handed[k] == OutcomeOf(s.replies[k].status))
    && (forall k :: 0 <= k < |s.replies| ==>
          && s.taken[k] < |s.submitted|
          && Replied(session, s.submitted[s.taken[k]], s.replies[k]))
  }

  /** A server error is the last outcome, and ends the client loop. */
  ghost predicate ErrorEnds(s: State) {
    && (forall k :: 0 <= k < |s.handed| && s.handed[k] == ServerError ==> k == |s.handed| - 1 && !s.clientRuns)
    && (s.client.Idle? || ServerError !in s.handed)
  }

  ghost predicate Inv(session: Session, s: State) {
    && Channels(session, s) && Ordered(s) && Current(s) && History(session, s) && ErrorEnds(s)
    && (s.reader.Failed? ==> !s.serverRuns)
  }

  // ---------------------------------------------------------------- every step keeps it

  lemma KeepsSubmit(session: Session, s: State, command: Command)
    requires Inv(session, s) && Enabled(s, Submit(command))
    ensures Inv(session, Apply(session, s, Submit(command)))
  {
  }

  lemma KeepsDequeue(session: Session, s: State, step: Step)
    requires Inv(session, s) && Enabled(s, step) && (step.Skip? || step.Take?)
    ensures Inv(session, Apply(session, s, step))
  {
    var after := Apply(session, s, step);
    assert [] + after.out == after.out;
    if step.Take? {
      assert after.taken[|s.taken|] == s.next;
      forall i | 0 <= i < after.next
        ensures i in after.taken || after.submitted[i].Nop?
      {
        if i < s.next { assert i in s.taken || s.submitted[i].Nop?; }
      }
    }
  }

  lemma KeepsFlush(session: Session, s: State, count: nat)
    requires Inv(session, s) && Enabled(s, Flush(count))
    ensures Inv(session, Apply(session, s, Flush(count)))
  {
    assert s.toServer + s.out == s.toServer + s.out[..count] + s.out[count..];
  }

  lemma KeepsRead(session: Session, s: State)
    requires Inv(session, s) && Enabled(s, Read)
    ensures Inv(session, Apply(session, s, Read))
  {
    var n := Need(s.reader);
    var b, rest := s.toServer[..n], s.toServer[n..];
    assert s.toServer + s.out == b + (rest + s.out);
    RunStep(session.limits, s.reader, b, rest + s.out);
    KeepsReader(session, s, Feed(session.limits, s.reader, b), rest);
  }

  lemma KeepsReader(session: Session, s: State, r: Reader, rest: Text)
    requires Inv(session, s) && Need(s.reader) <= |s.toServer| && !Stopped(s.reader)
    requires Run(session.limits, r, rest + s.out) == Run(session.limits, s.reader, s.toServer + s.out)
    ensures Inv(session, s.(reader := r, toServer := rest, serverRuns := !r.Failed?))
  {
    var after := s.(reader := r, toServer := rest, serverRuns := !r.Failed?);
    ChannelsRead(session, s, r, rest);
    assert Ordered(after) && Current(after) && History(session, after) && ErrorEnds(after);
  }

  lemma ChannelsRead(session: Session, s: State, r: Reader, rest: Text)
    requires Channels(session, s) && Need(s.reader) <= |s.toServer| && !Stopped(s.reader)
    requires Run(session.limits, r, rest + s.out) == Run(session.limits, s.reader, s.toServer + s.out)
    ensures Channels(session, s.(reader := r, toServer := rest, serverRuns := !r.Failed?))
  {
  }

  /** When the server is about to act, it has read all the bytes sent so far. */
  lemma ActingMeansRead(session: Session, s: State)
    requires Inv(session, s) && s.reader.Decided?
    ensures !s.client.Idle? && s.toClient == [] && s.out == [] && s.toServer == [] && |s.replies| == |s.handed|
    ensures s.client.Awaiting? ==>
              && Seen(session.limits, s.client.command) == s.reader
              && CleanFor(s.client.command, (s.reader, []))
    ensures s.client.AwaitingRepl? ==>
              && s.client.command.PublishRepl?
              && SeenRepl(session.limits, s.client.command) == s.reader
              && s.reader.request.ReplDataRequest?
  {
    var cmd := s.client.command;
    RunStopped(session.limits, s.reader, s.toServer + s.out);
    if s.client.Awaiting? {
      CommandIsClean(session.limits, cmd);
    } else {
      ReplIsClean(session.limits, cmd);
    }
    assert s.toServer + s.out == [];
  }

  lemma KeepsAct(session: Session, s: State, wanted: bool)
    requires Inv(session, s) && Enabled(s, Act(wanted))
    ensures Inv(session, Apply(session, s, Act(wanted)))
  {
    ActingMeansRead(session, s);
    var request := s.reader.request;
    var answer := Answer(session, request, wanted);
    if answer.None? {
      KeepsClosing(session, s);
    } else if answer.value == RESPONSE_OK_WAITING && request.ReplTopicRequest? {
      assert [] + [RESPONSE_OK_WAITING] == [RESPONSE_OK_WAITING];
      KeepsWaiting(session, s, request.topic);
    } else {
      var reply := Reply(request, answer.value);
      AnswerIsReply(session, s.reader, request, wanted, s.client.command);
      assert [] + [answer.value] == [answer.value];
      KeepsReply(session, s, Acted(session, s, request, wanted), reply);
    }
  }

  /** A final answer to a request is a reply to the command whose bytes it was read from. */
  lemma AnswerIsReply(session: Session, r: Reader, request: Request, wanted: bool, cmd: Command)
    requires r == Decided(request)
    requires Answer(session, request, wanted).Some?
    requires Answer(session, request, wanted).value != RESPONSE_OK_WAITING || !request.ReplTopicRequest?
    ensures var reply := Reply(request, Answer(session, request, wanted).value);
            && (Seen(session.limits, cmd) == r ==> FirstReply(session, cmd, reply))
            && (cmd.PublishRepl? && SeenRepl(session.limits, cmd) == r && request.ReplDataRequest? ==>
                  SecondReply(session, cmd, reply))
  {
  }

  lemma KeepsClosing(session: Session, s: State)
    requires Inv(session, s) && !s.client.Idle? && s.toClient == [] && |s.replies| == |s.handed|
    ensures Inv(session, s.(reader := Failed, serverRuns := false))
  {
  }

  lemma KeepsWaiting(session: Session, s: State, topic: Text)
    requires Inv(session, s) && s.client.Awaiting? && s.out == [] && s.toServer == [] && |s.replies| == |s.handed|
    requires s.client.command.PublishRepl? && s.client.command.topic == topic
    ensures Inv(session, s.(toClient := [RESPONSE_OK_WAITING], reader := AtReplPriority(topic)))
  {
  }

  lemma KeepsReply(session: Session, s: State, after: State, reply: Reply)
    requires Inv(session, s) && !s.client.Idle? && |s.replies| == |s.handed|
    requires s.toClient == [] && s.out == [] && s.toServer == []
    requires after == s.(toClient := [reply.status], reader := AtCommand, replies := s.replies + [reply],
                         serverRuns := after.serverRuns)
    requires s.client.Awaiting? ==> FirstReply(session, s.client.command, reply)
    requires s.client.AwaitingRepl? ==> SecondReply(session, s.client.command, reply)
    ensures Inv(session, after)
  {
    assert after.replies[|s.handed|] == reply;
    assert AnswerOnWay(after);
    assert Replied(session, s.client.command, reply);
    ReplyHistory(session, s, after, reply);
  }

  lemma ReplyHistory(session: Session, s: State, after: State, reply: Reply)
    requires History(session, s) && Current(s) && !s.client.Idle? && |s.replies| == |s.handed|
    requires after.handed == s.handed && after.taken == s.taken && after.submitted == s.submitted
    requires after.replies == s.replies + [reply]
    requires Replied(session, s.client.command, reply)
    ensures History(session, after)
  {
    forall k | 0 <= k < |after.replies|
      ensures after.taken[k] < |after.submitted| && Replied(session, after.submitted[after.taken[k]], after.replies[k])
    {
      if k < |s.replies| {
        assert Replied(session, s.submitted[s.taken[k]], s.replies[k]);
      }
    }
  }

  /** The statuses a command can be answered with in the first place. */
  lemma FirstReplyStatus(session: Session, cmd: Command, reply: Reply)
    requires Framable(cmd) && FirstReply(session, cmd, reply)
    ensures if cmd.PublishRepl?
            then reply.status == RESPONSE_NOT_REQUIRED || reply.status == RESPONSE_ERR_ACCESS
            else reply.status == RESPONSE_OK || reply.status == RESPONSE_ERR || reply.status == RESPONSE_ERR_ACCESS
  {
    CommandIsClean(session.limits, cmd);
  }

  /** The outcome read off the final status on its way is the one the caller should get. */
  lemma OutcomeIsRight(session: Session, s: State)
    requires Inv(session, s) && !s.client.Idle? && AnswerOnWay(s)
    ensures s.toClient[1..] == []
    ensures Received(s.(toClient := []), s.toClient[0])
         == s.(toClient := [], client := Idle, handed := s.handed + [OutcomeOf(s.toClient[0])],
               clientRuns := OutcomeOf(s.toClient[0]) != ServerError)
    ensures var code := s.toClient[0];
            OutcomeOf(code) == if code == 0x01 || code == 0xE0 then Success
                               else if code == 0xFE then AccessRefused
                               else ServerError
  {
    if s.client.Awaiting? {
      FirstReplyStatus(session, s.client.command, s.replies[|s.handed|]);
    }
  }

  lemma KeepsOutcome(session: Session, s: State, after: State)
    requires Inv(session, s) && !s.client.Idle? && AnswerOnWay(s)
    requires after == s.(toClient := [], client := Idle, handed := s.handed + [OutcomeOf(s.toClient[0])],
                         clientRuns := OutcomeOf(s.toClient[0]) != ServerError)
    ensures Inv(session, after)
  {
    assert Quiet(after);
    OutcomeHistory(session, s, after);
    OutcomeEnds(s, after);
  }

  lemma OutcomeHistory(session: Session, s: State, after: State)
    requires History(session, s) && AnswerOnWay(s)
    requires after.replies == s.replies && after.taken == s.taken && after.submitted == s.submitted
    requires after.handed == s.handed + [OutcomeOf(s.toClient[0])]
    ensures History(session, after)
  {
  }

  lemma OutcomeEnds(s: State, after: State)
    requires ErrorEnds(s) && !s.client.Idle? && after.client.Idle? && s.toClient != []
    requires after.handed == s.handed + [OutcomeOf(s.toClient[0])]
    requires after.clientRuns == (OutcomeOf(s.toClient[0]) != ServerError)
    ensures ErrorEnds(after)
  {
  }

  lemma KeepsGoAhead(session: Session, s: State)
    requires Inv(session, s) && s.client.Awaiting? && s.client.command.PublishRepl?
    requires WaitingOnWay(s, s.client.command.topic)
    ensures Inv(session, Received(s.(toClient := []), RESPONSE_OK_WAITING))
  {
    var bytes := ReplBytes(s.client.command);
    assert [] + bytes == bytes;
  }

  lemma KeepsReceive(session: Session, s: State)
    requires Inv(session, s) && Enabled(s, Receive)
    ensures Inv(session, Apply(session, s, Receive))
  {
    if AnswerOnWay(s) {
      OutcomeIsRight(session, s);
      KeepsOutcome(session, s, Apply(session, s, Receive));
    } else {
      assert s.toClient[1..] == [];
      KeepsGoAhead(session, s);
    }
  }

  lemma StepKeepsInv(session: Session, s: State, step: Step)
    requires Inv(session, s) && Enabled(s, step)
    ensures Inv(session, Apply(session, s, step))
  {
    match step {
      case Submit(command) => KeepsSubmit(session, s, command);
      case Skip => KeepsDequeue(session, s, step);
      case Take => KeepsDequeue(session, s, step);
      case Flush(count) => KeepsFlush(session, s, count);
      case Receive => KeepsReceive(session, s);
      case Read => KeepsRead(session, s);
      case Act(wanted) => KeepsAct(session, s, wanted);
      case ClientStops =>
      case ServerStops =>
    }
  }

  lemma {:induction false} ReachableInv(session: Session, steps: seq<Step>)
    requires After(session, steps).Some?
    ensures Inv(session, After(session, steps).value)
    decreases steps
  {
    if steps != [] {
      var fewer := steps[..|steps| - 1];
      ReachableInv(session, fewer);
      StepKeepsInv(session, After(session, fewer).value, steps[|steps| - 1]);
    }
  }

  // ---------------------------------------------------------------- the main results

  /** The server's answer to the k-th command: to the request its bytes are, or, for a replication
      command the server wanted, to its message. */
  ghost predicate ServedAs(session: Session, cmd: Command, reply: Reply) {
    || (Seen(session.limits, cmd) == Decided(reply.request)
        && exists wanted :: Answer(session, reply.request, wanted) == Some(reply.status))
    || (cmd.PublishRepl? && SeenRepl(session.limits, cmd) == Decided(reply.request) && reply.status == RESPONSE_OK)
  }

  /** Lockstep, in every reachable state. */
  lemma InLockstep(session: Session, steps: seq<Step>, s: State)
    requires After(session, steps) == Some(s)
    // between commands nothing is in flight
    ensures s.client.Idle? ==>
            s.out == [] && s.toServer == [] && s.toClient == [] && |s.handed| == |s.replies| == |s.taken|
    // the k-th outcome is the status computed for the k-th command
    ensures |s.handed| <= |s.replies| <= |s.taken| <= |s.handed| + 1
    ensures forall k :: 0 <= k < |s.handed| ==> s.handed[k] == OutcomeOf(s.replies[k].status)
    ensures forall k :: 0 <= k < |s.replies| ==>
              s.taken[k] < |s.submitted| && ServedAs(session, s.submitted[s.taken[k]], s.replies[k])
    // by value: refused iff the status is access denied, a success iff OK or not required
    ensures forall k :: 0 <= k < |s.handed| ==>
              && (s.handed[k] == AccessRefused <==> s.replies[k].status == 0xFE)
              && (s.handed[k] == Success <==> s.replies[k].status == 0x01 || s.replies[k].status == 0xE0)
    // a server error ends the client loop, any other outcome does not
    ensures forall k :: 0 <= k < |s.handed| && s.handed[k] == ServerError ==> k == |s.handed| - 1 && !s.clientRuns
    // outcomes go to callers in queue order, at most one each; only beacons get none
    ensures forall j, k :: 0 <= j < k < |s.taken| ==> s.taken[j] < s.taken[k]
    ensures s.next <= |s.submitted|
    ensures forall i :: 0 <= i < s.next && i !in s.taken ==> s.submitted[i].Nop?
  {
    ReachableInv(session, steps);
  }

  /** On the way to a clean end, a reader has what it needs. */
  lemma CanReadOrAct(limits: Limits, r: Reader, s: Text)
    requires Clean(Run(limits, r, s)) && !r.Failed?
    ensures r.Decided? || (!Stopped(r) && Need(r) <= |s|)
  {
  }

  lemma ServerCanMove(session: Session, s: State)
    requires Inv(session, s) && !s.client.Idle? && s.serverRuns && s.out == [] && s.toClient == []
    ensures s.reader.Decided? || (!Stopped(s.reader) && Need(s.reader) <= |s.toServer|)
  {
    if s.client.Awaiting? {
      CommandIsClean(session.limits, s.client.command);
    } else {
      ReplIsClean(session.limits, s.client.command);
    }
    assert s.toServer + s.out == s.toServer;
    CanReadOrAct(session.limits, s.reader, s.toServer);
  }

  /** What the client makes of a status byte: on the first answer to a replication command it waits
      for 0xE0, 0x02 or 0xFE, otherwise for 0x01 or 0xFE; anything else is a server error, and
      exactly then the loop ends. Only 0x02 hands nothing to the caller yet. */
  lemma ReceiveIff(session: Session, s: State)
    requires Enabled(s, Receive) && s.clientRuns
    ensures var code, t := s.toClient[0], Apply(session, s, Receive);
            var first := s.client.Awaiting? && s.client.command.PublishRepl?;
            && (t.clientRuns <==>
                if first then code == 0xE0 || code == 0x02 || code == 0xFE else code == 0x01 || code == 0xFE)
            && (t.client.AwaitingRepl? && t.handed == s.handed <==> first && code == 0x02)
            && (!(first && code == 0x02) ==>
                  && t.client == Idle
                  && t.handed == s.handed + [if code == 0xFE then AccessRefused
                                             else if code == (if first then 0xE0 else 0x01) then Success
                                             else ServerError])
  {
  }

  /** When the server's loop goes on behind a request: whenever it is answered and is no farewell.
      What it answers is for `Server.AnswerIff` to say. */
  lemma ActIff(session: Session, s: State, wanted: bool)
    requires Enabled(s, Act(wanted))
    ensures var request, t := s.reader.request, Apply(session, s, Act(wanted));
            var answer := Answer(session, request, wanted);
            && (t.serverRuns <==> answer.Some? && !request.ByeRequest?)
            && t.toClient == s.toClient + (if answer.Some? then [answer.value] else [])
            && (answer == Some(0x02) && request.ReplTopicRequest? ==> t.reader == AtReplPriority(request.topic))
            && (answer.Some? && answer != Some(0x02) ==> t.reader == AtCommand)
  {
  }

  /** While both sides run, a command in progress is never stuck: the client can write, the
      server can read or act, or the client can read. */
  lemma NeverStuck(session: Session, steps: seq<Step>, s: State)
    requires After(session, steps) == Some(s)
    requires s.clientRuns && s.serverRuns && !s.client.Idle?
    ensures Enabled(s, Flush(1)) || Enabled(s, Receive) || Enabled(s, Read) || Enabled(s, Act(true))
  {
    ReachableInv(session, steps);
    if s.out != [] {
      assert Enabled(s, Flush(1));
    } else if s.toClient != [] {
      assert Enabled(s, Receive);
    } else {
      ServerCanMove(session, s);
    }
  }

  /** With topics and sizes the server accepts, what the server acts on is what was asked for. */
  lemma ServedAsAsked(session: Session, cmd: Command)
    requires WithinLimits(session.limits, cmd)
    ensures Framable(cmd)
    ensures Seen(session.limits, cmd) == Decided(Meaning(cmd))
    ensures cmd.PublishRepl? ==>
              SeenRepl(session.limits, cmd)
              == Decided(ReplDataRequest(cmd.topic, cmd.priority, cmd.timestamp, cmd.message))
  {
    CommandRoundTrip(session.limits, cmd, []);
    assert FirstBytes(cmd) + [] == FirstBytes(cmd);
    if cmd.PublishRepl? {
      ReplRoundTrip(session.limits, cmd, []);
      assert ReplBytes(cmd) + [] == ReplBytes(cmd);
    }
  }
}
