/** One client's control connection together with the broker it belongs to: from the commands the
    client is given to what a subscriber's reader decodes. */
module Exchange {
  import opened Wrappers
  import opened Bytes
  import opened Topic
  import opened Server
  import L = Lockstep
  import B = Broker
  import Delivery
  import History
  import Vetting
  import DataStream
  import Wire

  /** The connection of a client, the broker, and whether a push of this client is in progress. */
  datatype State = State(control: L.State, broker: B.State, pushing: bool)

  const INITIAL := State(L.INITIAL, B.INITIAL, false)

  datatype Move =
    | Control(step: L.Step)    // either control loop, but for acting on a publish that is forwarded
    | Elsewhere(change: B.Step) // the broker, but for the beginning of a push of this client
    | Push                     // the server begins to push the publish it has read
    | Reply                    // the push has returned and is answered

  /** The messages a request is forwarded as: one, or none. */
  function Forwarded(session: Session, request: Wire.Request): seq<DataStream.Message> {
    if request.PublishRequest? then
      var v := VerdictOf(session.acl, session.maxDepth, request.priority, request.topic, request.data);
      if v.Forward? then [v.message] else []
    else []
  }

  predicate AtForward(session: Session, s: L.State) {
    s.reader.Decided? && Forwarded(session, s.reader.request) != []
  }

  /** The step of the broker that a publish request is. */
  function PublishStep(session: Session, c: B.ClientId, request: Wire.Request): B.Step
    requires request.PublishRequest?
  {
    var frame := request.topic + [NUL] + request.data;
    B.Publish(B.Connection(c), [], request.priority, frame, session.acl, session.maxDepth)
  }

  predicate Enabled(cfg: B.Config, session: Session, c: B.ClientId, s: State, move: Move) {
    match move
    case Control(step) => L.Enabled(s.control, step) && !(step.Act? && AtForward(session, s.control))
    case Elsewhere(step) => B.Enabled(cfg, s.broker, step) && !(step.Publish? && step.publisher == B.Connection(c))
    case Push =>
      && !s.pushing && s.control.serverRuns && AtForward(session, s.control)
      && B.Enabled(cfg, s.broker, PublishStep(session, c, s.control.reader.request))
    case Reply =>
      && s.pushing && B.PublisherOf(s.broker, B.Connection(c)).pc.AtRest?
      && AtForward(session, s.control) && L.Enabled(s.control, L.Act(false))
  }

  function Apply(cfg: B.Config, session: Session, c: B.ClientId, s: State, move: Move): State
    requires Enabled(cfg, session, c, s, move)
  {
    match move
    case Control(step) => s.(control := L.Apply(session, s.control, step))
    case Elsewhere(step) => s.(broker := B.Apply(cfg, s.broker, step))
    case Push =>
      s.(broker := B.Apply(cfg, s.broker, PublishStep(session, c, s.control.reader.request)), pushing := true)
    case Reply => s.(control := L.Apply(session, s.control, L.Act(false)), pushing := false)
  }

  function After(cfg: B.Config, session: Session, c: B.ClientId, moves: seq<Move>): Option<State>
    decreases moves
  {
    if moves == [] then Some(INITIAL)
    else
      var before := After(cfg, session, c, moves[..|moves| - 1]);
      var move := moves[|moves| - 1];
      if before.Some? && Enabled(cfg, session, c, before.value, move)
      then Some(Apply(cfg, session, c, before.value, move))
      else None
  }

  // ---------------------------------------------------------------- the two runs inside

  /** What the connection does in a run. */
  function ControlSteps(moves: seq<Move>): seq<L.Step>
    decreases moves
  {
    if moves == [] then []
    else
      ControlSteps(moves[..|moves| - 1]) +
      (match moves[|moves| - 1]
       case Control(step) => [step]
       case Reply => [L.Act(false)]
       case _ => [])
  }

  /** What the broker does in it. */
  function BrokerSteps(cfg: B.Config, session: Session, c: B.ClientId, moves: seq<Move>): seq<B.Step>
    decreases moves
  {
    if moves == [] then []
    else
      var fewer := moves[..|moves| - 1];
      var before := After(cfg, session, c, fewer);
      BrokerSteps(cfg, session, c, fewer) +
      (match moves[|moves| - 1]
       case Elsewhere(step) => [step]
       case Push =>
         if before.Some? && AtForward(session, before.value.control)
         then [PublishStep(session, c, before.value.control.reader.request)]
         else []
       case _ => [])
  }

  lemma ControlSnoc(session: Session, steps: seq<L.Step>, s: L.State, step: L.Step)
    requires L.After(session, steps) == Some(s) && L.Enabled(s, step)
    ensures L.After(session, steps + [step]) == Some(L.Apply(session, s, step))
  {
    assert (steps + [step])[..|steps|] == steps;
  }

  lemma BrokerSnoc(cfg: B.Config, steps: seq<B.Step>, s: B.State, step: B.Step)
    requires B.After(cfg, steps) == Some(s) && B.Enabled(cfg, s, step)
    ensures B.After(cfg, steps + [step]) == Some(B.Apply(cfg, s, step))
  {
    assert (steps + [step])[..|steps|] == steps;
  }

  /** A run of the whole is a run of each part. */
  lemma {:induction false} Projects(cfg: B.Config, session: Session, c: B.ClientId, moves: seq<Move>, s: State)
    requires After(cfg, session, c, moves) == Some(s)
    ensures L.After(session, ControlSteps(moves)) == Some(s.control)
    ensures B.After(cfg, BrokerSteps(cfg, session, c, moves)) == Some(s.broker)
    decreases moves
  {
    if moves != [] {
      var fewer, move := moves[..|moves| - 1], moves[|moves| - 1];
      var before := After(cfg, session, c, fewer).value;
      var controls, changes := ControlSteps(fewer), BrokerSteps(cfg, session, c, fewer);
      Projects(cfg, session, c, fewer, before);
      assert controls + [] == controls && changes + [] == changes;
      match move {
        case Control(step) => ControlSnoc(session, controls, before.control, step);
        case Elsewhere(step) => BrokerSnoc(cfg, changes, before.broker, step);
        case Push => BrokerSnoc(cfg, changes, before.broker, PublishStep(session, c, before.control.reader.request));
        case Reply => ControlSnoc(session, controls, before.control, L.Act(false));
      }
    }
  }

  // ---------------------------------------------------------------- replies and pushes

  /** The messages of the requests that have been answered, in order. */
  function Answered(session: Session, replies: seq<L.Reply>): seq<DataStream.Message> {
    if replies == [] then []
    else Answered(session, replies[..|replies| - 1]) + Forwarded(session, replies[|replies| - 1].request)
  }

  function Messages(log: seq<B.Push>): (messages: seq<DataStream.Message>)
    ensures |messages| == |log|
    ensures forall n :: 0 <= n < |log| ==> messages[n] == log[n].message
  {
    seq(|log|, n requires 0 <= n < |log| => log[n].message)
  }

  /** The message of the push in progress, if there is one. */
  function InProgress(session: Session, s: State): seq<DataStream.Message> {
    if s.pushing && AtForward(session, s.control) then Forwarded(session, s.control.reader.request) else []
  }

  /** The client's pushes are the forwarded ones of the requests answered, and the one in progress. */
  ghost predicate Matched(session: Session, c: B.ClientId, s: State) {
    && (s.pushing ==> AtForward(session, s.control))
    && Messages(B.PublisherOf(s.broker, B.Connection(c)).log)
       == Answered(session, s.control.replies) + InProgress(session, s)
  }

  lemma AnsweredSnoc(session: Session, replies: seq<L.Reply>, reply: L.Reply)
    ensures Answered(session, replies + [reply]) == Answered(session, replies) + Forwarded(session, reply.request)
  {
    assert (replies + [reply])[..|replies|] == replies;
  }

  /** A step of the connection answers at most one request, and no forwarded one. */
  lemma ControlAnswers(session: Session, s: L.State, step: L.Step)
    requires L.Enabled(s, step) && !(step.Act? && AtForward(session, s))
    ensures Answered(session, L.Apply(session, s, step).replies) == Answered(session, s.replies)
    ensures AtForward(session, s) ==> L.Apply(session, s, step).reader == s.reader
  {
    var t := L.Apply(session, s, step);
    if step.Act? {
      var request := s.reader.request;
      assert Forwarded(session, request) == [];
      if t.replies != s.replies {
        AnsweredSnoc(session, s.replies, t.replies[|s.replies|]);
        assert t.replies == s.replies + [t.replies[|s.replies|]];
        assert Answered(session, s.replies) + [] == Answered(session, s.replies);
      }
    }
  }

  /** Answering a forwarded publish. */
  lemma ReplyAnswers(session: Session, s: L.State)
    requires L.Enabled(s, L.Act(false)) && AtForward(session, s)
    ensures var t := L.Apply(session, s, L.Act(false));
            && t.replies == s.replies + [L.Reply(s.reader.request, Wire.RESPONSE_OK)]
            && Answered(session, t.replies) == Answered(session, s.replies) + Forwarded(session, s.reader.request)
  {
    AnsweredSnoc(session, s.replies, L.Reply(s.reader.request, Wire.RESPONSE_OK));
  }

  /** A push logs the message of its request. */
  lemma PushLogs(cfg: B.Config, session: Session, c: B.ClientId, s: B.State, request: Wire.Request)
    requires request.PublishRequest? && Forwarded(session, request) != []
    requires B.Enabled(cfg, s, PublishStep(session, c, request))
    requires Wire.PublishBody(request.topic + [NUL] + request.data) == Ok((request.topic, request.data))
    ensures var before := B.PublisherOf(s, B.Connection(c)).log;
            var after := B.PublisherOf(B.Apply(cfg, s, PublishStep(session, c, request)), B.Connection(c)).log;
            Messages(after) == Messages(before) + Forwarded(session, request)
  {
  }

  /** A publish request reads back from the frame it stands for, whose length was a `u32`. */
  predicate Sound(r: Wire.Reader) {
    && (r.AtPublish? ==> r.len < U32_LIMIT)
    && (r.Decided? && r.request.PublishRequest? ==>
          && Wire.PublishBody(r.request.topic + [NUL] + r.request.data) == Ok((r.request.topic, r.request.data))
          && |r.request.topic| + 1 + |r.request.data| < U32_LIMIT)
  }

  lemma FeedSound(limits: Wire.Limits, r: Wire.Reader, b: Text)
    requires !Wire.Stopped(r) && |b| == Wire.Need(r) && Sound(r)
    ensures Sound(Wire.Feed(limits, r, b))
  {
    if r.AtPublish? && Wire.PublishBody(b).Ok? {
      var (topic, data) := CutAtNul(b);
      CutAtNulJoint(topic, data.value);
    }
  }

  lemma ControlSound(session: Session, s: L.State, step: L.Step)
    requires L.Enabled(s, step) && Sound(s.reader)
    ensures Sound(L.Apply(session, s, step).reader)
  {
    if step.Read? {
      FeedSound(session.limits, s.reader, s.toServer[..Wire.Need(s.reader)]);
    }
  }

  // ---------------------------------------------------------------- every move keeps it

  ghost predicate Inv(session: Session, c: B.ClientId, s: State) {
    Matched(session, c, s) && Sound(s.control.reader)
  }

  lemma ControlKeeps(cfg: B.Config, session: Session, c: B.ClientId, s: State, move: Move)
    requires Inv(session, c, s) && Enabled(cfg, session, c, s, move) && move.Control?
    ensures Inv(session, c, Apply(cfg, session, c, s, move))
  {
    ControlAnswers(session, s.control, move.step);
    ControlSound(session, s.control, move.step);
  }

  lemma ElsewhereKeeps(cfg: B.Config, session: Session, c: B.ClientId, s: State, move: Move)
    requires Inv(session, c, s) && Enabled(cfg, session, c, s, move) && move.Elsewhere?
    ensures Inv(session, c, Apply(cfg, session, c, s, move))
  {
    Vetting.LogsGrow(cfg, s.broker, move.change, B.Connection(c));
  }

  lemma PushKeeps(cfg: B.Config, session: Session, c: B.ClientId, s: State)
    requires Inv(session, c, s) && Enabled(cfg, session, c, s, Push)
    ensures Inv(session, c, Apply(cfg, session, c, s, Push))
  {
    PushLogs(cfg, session, c, s.broker, s.control.reader.request);
    var answered := Answered(session, s.control.replies);
    assert answered + [] == answered;
  }

  lemma ReplyKeeps(cfg: B.Config, session: Session, c: B.ClientId, s: State)
    requires Inv(session, c, s) && Enabled(cfg, session, c, s, Reply)
    ensures Inv(session, c, Apply(cfg, session, c, s, Reply))
  {
    ReplyAnswers(session, s.control);
    var answered := Answered(session, s.control.replies) + Forwarded(session, s.control.reader.request);
    assert answered + [] == answered;
  }

  lemma {:induction false} ReachableMatched(cfg: B.Config, session: Session, c: B.ClientId, moves: seq<Move>, s: State)
    requires After(cfg, session, c, moves) == Some(s)
    ensures Inv(session, c, s)
    decreases moves
  {
    if moves != [] {
      var fewer, move := moves[..|moves| - 1], moves[|moves| - 1];
      var before := After(cfg, session, c, fewer).value;
      ReachableMatched(cfg, session, c, fewer, before);
      match move {
        case Control(_) => ControlKeeps(cfg, session, c, before, move);
        case Elsewhere(_) => ElsewhereKeeps(cfg, session, c, before, move);
        case Push => PushKeeps(cfg, session, c, before);
        case Reply => ReplyKeeps(cfg, session, c, before);
      }
    }
  }

  // ---------------------------------------------------------------- commands and pushes

  /** The messages a command should be forwarded as. */
  function Intended(session: Session, cmd: Wire.Command): seq<DataStream.Message> {
    if cmd.Publish? then
      var v := VerdictOf(session.acl, session.maxDepth, cmd.priority, cmd.topic, cmd.message);
      if v.Forward? then [v.message] else []
    else []
  }

  /** The same of the first `k` commands the client has written, in the order of its queue. */
  function IntendedBy(session: Session, s: L.State, k: nat): seq<DataStream.Message>
    requires k <= |s.taken| && forall i :: 0 <= i < k ==> s.taken[i] < |s.submitted|
  {
    if k == 0 then [] else IntendedBy(session, s, k - 1) + Intended(session, s.submitted[s.taken[k - 1]])
  }

  /** The request of a reply is forwarded as its command should be. */
  lemma ForwardedAsIntended(session: Session, cmd: Wire.Command, reply: L.Reply)
    requires L.Replied(session, cmd, reply) && Wire.WithinLimits(session.limits, cmd)
    ensures Forwarded(session, reply.request) == Intended(session, cmd)
    ensures Intended(session, cmd) != [] ==> L.OutcomeOf(reply.status) == L.Success
    ensures cmd.Publish? && L.OutcomeOf(reply.status) == L.Success ==> Intended(session, cmd) != []
  {
    L.ServedAsAsked(session, cmd);
  }

  /** Every reply is to a command within the limits. */
  ghost predicate AllReplied(session: Session, s: L.State) {
    && |s.replies| <= |s.taken|
    && (forall k :: 0 <= k < |s.replies| ==>
          && s.taken[k] < |s.submitted|
          && L.Replied(session, s.submitted[s.taken[k]], s.replies[k])
          && Wire.WithinLimits(session.limits, s.submitted[s.taken[k]]))
  }

  lemma AnsweredFront(session: Session, replies: seq<L.Reply>, k: nat)
    requires 0 < k <= |replies|
    ensures Answered(session, replies[..k])
         == Answered(session, replies[..k - 1]) + Forwarded(session, replies[k - 1].request)
  {
    assert replies[..k] == replies[..k - 1] + [replies[k - 1]];
    AnsweredSnoc(session, replies[..k - 1], replies[k - 1]);
  }

  lemma {:induction false} AnsweredAsIntended(session: Session, s: L.State, k: nat)
    requires AllReplied(session, s) && k <= |s.replies|
    ensures Answered(session, s.replies[..k]) == IntendedBy(session, s, k)
  {
    if k > 0 {
      AnsweredAsIntended(session, s, k - 1);
      AnsweredFront(session, s.replies, k);
      ForwardedAsIntended(session, s.submitted[s.taken[k - 1]], s.replies[k - 1]);
    }
  }

  // ---------------------------------------------------------------- the main results

  /** What a client's publish commands come to: the client's pushes are, in the order of its queue,
      the messages of those answered, which are the ones its callers were told succeeded, and the
      one in progress. */
  lemma PushedAsCommanded(cfg: B.Config, session: Session, c: B.ClientId, moves: seq<Move>, s: State)
    requires After(cfg, session, c, moves) == Some(s)
    requires forall i :: 0 <= i < |s.control.submitted| ==> Wire.WithinLimits(session.limits, s.control.submitted[i])
    ensures |s.control.handed| <= |s.control.replies| <= |s.control.taken|
    ensures forall k :: 0 <= k < |s.control.replies| ==> s.control.taken[k] < |s.control.submitted|
    ensures Messages(B.PublisherOf(s.broker, B.Connection(c)).log)
         == IntendedBy(session, s.control, |s.control.replies|) + InProgress(session, s)
    ensures forall k :: 0 <= k < |s.control.handed| && s.control.submitted[s.control.taken[k]].Publish? ==>
              (s.control.handed[k] == L.Success <==> Intended(session, s.control.submitted[s.control.taken[k]]) != [])
  {
    Projects(cfg, session, c, moves, s);
    ReachableMatched(cfg, session, c, moves, s);
    L.ReachableInv(session, ControlSteps(moves));
    var t := s.control;
    assert AllReplied(session, t);
    AnsweredAsIntended(session, t, |t.replies|);
    assert t.replies[..|t.replies|] == t.replies;
    forall k | 0 <= k < |t.handed| && t.submitted[t.taken[k]].Publish?
      ensures t.handed[k] == L.Success <==> Intended(session, t.submitted[t.taken[k]]) != []
    {
      assert L.Replied(session, t.submitted[t.taken[k]], t.replies[k]);
      ForwardedAsIntended(session, t.submitted[t.taken[k]], t.replies[k]);
    }
  }

  /** From the commands of one client to the reader of another: whatever number of bytes of a
      session the subscriber has received, it has decoded the messages of the first k entries
      dequeued; those of them that came from the client are, in order and without gaps, the first of
      its pushes that found the session; and its pushes are its publish commands. */
  lemma CommandToReader(cfg: B.Config, session: Session, c: B.ClientId, moves: seq<Move>, s: State,
                        ch: B.ChanId, recent: seq<bool>, n: nat)
    requires After(cfg, session, c, moves) == Some(s)
    requires forall i :: 0 <= i < |s.control.submitted| ==> Wire.WithinLimits(session.limits, s.control.submitted[i])
    requires ch in s.broker.chans && |recent| == |Vetting.Dequeued(s.broker.chans[ch])|
    requires n <= |DataStream.Written(Vetting.ItemsOf(s.broker, Vetting.Dequeued(s.broker.chans[ch])), recent)|
    ensures |s.control.replies| <= |s.control.taken|
    ensures forall k :: 0 <= k < |s.control.replies| ==> s.control.taken[k] < |s.control.submitted|
    ensures s.broker.chans[ch].taken <= |s.broker.chans[ch].entered|
    ensures var items := Vetting.ItemsOf(s.broker, Vetting.Dequeued(s.broker.chans[ch]));
            var k := DataStream.Complete(items, recent, n);
            var entries := s.broker.chans[ch].entered[..k];
            var mine := Delivery.EnteredBy(entries, B.Connection(c));
            var found := Delivery.FoundOn(cfg, BrokerSteps(cfg, session, c, moves), B.Connection(c), ch);
            var pushed := IntendedBy(session, s.control, |s.control.replies|) + InProgress(session, s);
            && DataStream.Received(DataStream.Written(items, recent)[..n])
               == (DataStream.Notes(Vetting.ItemsOf(s.broker, entries)), DataStream.Waiting)
            && mine <= found
            && (forall j, l :: 0 <= j < l < |found| ==> found[j] < found[l])
            // and all of its pushes that found the session and were not refused there are queued
            && (forall x :: x in found <==>
                  || x in Delivery.EnteredBy(s.broker.chans[ch].entered, B.Connection(c))
                  || x in History.RefusedOn(cfg, BrokerSteps(cfg, session, c, moves), B.Connection(c), ch)
                  || x in Delivery.Undecided(B.PublisherOf(s.broker, B.Connection(c)), ch))
            && (forall j :: 0 <= j < |mine| ==>
                  && mine[j] < |pushed|
                  && Vetting.ItemOf(s.broker, B.Note(B.Connection(c), mine[j])) == DataStream.Note(pushed[mine[j]]))
  {
    var steps, p := BrokerSteps(cfg, session, c, moves), B.Connection(c);
    PushedAsCommanded(cfg, session, c, moves, s);
    Projects(cfg, session, c, moves, s);
    Vetting.EndToEnd(cfg, steps, s.broker, ch, recent, n, p);
    Delivery.ContiguousRun(cfg, steps, s.broker, p, ch);
    var items := Vetting.ItemsOf(s.broker, Vetting.Dequeued(s.broker.chans[ch]));
    var mine := Delivery.EnteredBy(s.broker.chans[ch].entered[..DataStream.Complete(items, recent, n)], p);
    var found, log := Delivery.FoundOn(cfg, steps, p, ch), B.PublisherOf(s.broker, p).log;
    forall x: nat
      ensures x in found <==>
              || x in Delivery.EnteredBy(s.broker.chans[ch].entered, p)
              || x in History.RefusedOn(cfg, steps, p, ch)
              || x in Delivery.Undecided(B.PublisherOf(s.broker, p), ch)
    {
      History.FoundReachesQueue(cfg, steps, s.broker, p, ch, x);
    }
    forall j | 0 <= j < |mine|
      ensures mine[j] < |log|
      ensures Vetting.ItemOf(s.broker, B.Note(p, mine[j])) == DataStream.Note(Messages(log)[mine[j]])
    {
      assert mine[j] == found[j];
    }
  }

  // ---------------------------------------------------------------- a command that arrives

  lemma MovesSnoc(cfg: B.Config, session: Session, c: B.ClientId, moves: seq<Move>, s: State, move: Move)
    requires After(cfg, session, c, moves) == Some(s) && Enabled(cfg, session, c, s, move)
    ensures After(cfg, session, c, moves + [move]) == Some(Apply(cfg, session, c, s, move))
  {
    assert (moves + [move])[..|moves|] == moves;
  }

  /** The push of a publish that has been read can begin, for a client that is served. */
  lemma PushEnabled(cfg: B.Config, session: Session, c: B.ClientId, s: State)
    requires Inv(session, c, s) && !s.pushing && s.control.serverRuns && AtForward(session, s.control)
    requires History.MayPublish(cfg, s.broker, B.Connection(c), [], session.acl)
    ensures Enabled(cfg, session, c, s, Push)
  {
    var r := s.control.reader.request;
    VerdictIff(session.acl, session.maxDepth, r.priority, r.topic, r.data);
    Wire.PublishBodyIff(r.topic + [NUL] + r.data, r.topic, r.data);
    History.PublishEnabled(cfg, s.broker, B.Connection(c), [], r.priority, r.topic, r.data, session.acl,
                           session.maxDepth);
  }

  /** The moves of a push, up to its undisturbed visit of `d`. */
  function PushTo(c: B.ClientId, d: B.ClientId): seq<Move> {
    var p := B.Connection(c);
    [Push, Elsewhere(B.Visit(p, d)), Elsewhere(B.Check(p)), Elsewhere(B.Send(p))]
  }

  /** From any reachable state: a publish that the server has read and that may go is pushed, and
      every client that wants its topic and whose channel is open and has room gets the message, at
      the end of its queue. */
  lemma CommandArrives(cfg: B.Config, session: Session, c: B.ClientId, moves: seq<Move>, s: State,
                       d: B.ClientId, ch: B.ChanId) returns (t: State)
    requires After(cfg, session, c, moves) == Some(s) && !s.pushing && s.control.serverRuns
    requires s.control.reader.Decided? && s.control.reader.request.PublishRequest?
    requires History.MayPublish(cfg, s.broker, B.Connection(c), [], session.acl)
    requires History.MayGo(session.acl, session.maxDepth, s.control.reader.request.topic)
    requires History.Wants(cfg, s.broker, d, Prepared(s.control.reader.request.topic))
    requires History.Open(cfg, s.broker, d, ch)
    ensures After(cfg, session, c, moves + PushTo(c, d)) == Some(t)
    ensures var r := s.control.reader.request;
            && History.Arrived(s.broker, t.broker, B.Connection(c), ch,
                               DataStream.Message(r.priority, Prepared(r.topic), r.data))
            && t.pushing && t.control == s.control
  {
    var r := s.control.reader.request;
    var begun := PushBegins(cfg, session, c, moves, s, d);
    t := VisitsArrive(cfg, session, c, moves + [Push], s.broker, begun, d, ch,
                      DataStream.Message(r.priority, Prepared(r.topic), r.data));
    assert moves + [Push] + PushTo(c, d)[1..] == moves + PushTo(c, d);
  }

  lemma PushBegins(cfg: B.Config, session: Session, c: B.ClientId, moves: seq<Move>, s: State, d: B.ClientId)
    returns (begun: State)
    requires After(cfg, session, c, moves) == Some(s) && !s.pushing && s.control.serverRuns
    requires s.control.reader.Decided? && s.control.reader.request.PublishRequest?
    requires History.MayPublish(cfg, s.broker, B.Connection(c), [], session.acl)
    requires History.MayGo(session.acl, session.maxDepth, s.control.reader.request.topic)
    requires History.Wants(cfg, s.broker, d, Prepared(s.control.reader.request.topic))
    ensures After(cfg, session, c, moves + [Push]) == Some(begun) && begun.pushing && begun.control == s.control
    ensures var r := s.control.reader.request;
            History.UnderWay(s.broker, begun.broker, B.Connection(c), d,
                             DataStream.Message(r.priority, Prepared(r.topic), r.data))
  {
    var r := s.control.reader.request;
    ReachableMatched(cfg, session, c, moves, s);
    VerdictIff(session.acl, session.maxDepth, r.priority, r.topic, r.data);
    PushEnabled(cfg, session, c, s);
    MovesSnoc(cfg, session, c, moves, s, Push);
    begun := Apply(cfg, session, c, s, Push);
    Projects(cfg, session, c, moves, s);
    PushUnderWay(cfg, session, c, BrokerSteps(cfg, session, c, moves), s, d);
  }

  lemma PushUnderWay(cfg: B.Config, session: Session, c: B.ClientId, steps: seq<B.Step>, s: State, d: B.ClientId)
    requires B.After(cfg, steps) == Some(s.broker)
    requires Inv(session, c, s) && AtForward(session, s.control) && Enabled(cfg, session, c, s, Push)
    requires History.MayPublish(cfg, s.broker, B.Connection(c), [], session.acl)
    requires History.MayGo(session.acl, session.maxDepth, s.control.reader.request.topic)
    requires History.Wants(cfg, s.broker, d, Prepared(s.control.reader.request.topic))
    ensures var r := s.control.reader.request;
            History.UnderWay(s.broker, Apply(cfg, session, c, s, Push).broker, B.Connection(c), d,
                             DataStream.Message(r.priority, Prepared(r.topic), r.data))
  {
    var r := s.control.reader.request;
    Wire.PublishBodyIff(r.topic + [NUL] + r.data, r.topic, r.data);
    Delivery.ReachableInv(cfg, steps);
    History.PublishStarts(cfg, s.broker, B.Connection(c), [], r.priority, r.topic, r.data, session.acl,
                          session.maxDepth, d);
  }

  lemma VisitsArrive(cfg: B.Config, session: Session, c: B.ClientId, moves: seq<Move>, before: B.State, s: State,
                     d: B.ClientId, ch: B.ChanId, m: DataStream.Message) returns (t: State)
    requires After(cfg, session, c, moves) == Some(s)
    requires History.UnderWay(before, s.broker, B.Connection(c), d, m) && History.Open(cfg, before, d, ch)
    ensures After(cfg, session, c, moves + PushTo(c, d)[1..]) == Some(t)
    ensures History.Arrived(before, t.broker, B.Connection(c), ch, m)
    ensures t.pushing == s.pushing && t.control == s.control
  {
    var p := B.Connection(c);
    History.VisitStarts(cfg, s.broker, p, d, ch);
    var s1 := Apply(cfg, session, c, s, Elsewhere(B.Visit(p, d)));
    MovesSnoc(cfg, session, c, moves, s, Elsewhere(B.Visit(p, d)));
    History.CheckPasses(cfg, s1.broker, p, d, ch);
    var s2 := Apply(cfg, session, c, s1, Elsewhere(B.Check(p)));
    MovesSnoc(cfg, session, c, moves + [Elsewhere(B.Visit(p, d))], s1, Elsewhere(B.Check(p)));
    History.SendArrives(cfg, s2.broker, p, d, ch);
    t := Apply(cfg, session, c, s2, Elsewhere(B.Send(p)));
    MovesSnoc(cfg, session, c, moves + [Elsewhere(B.Visit(p, d))] + [Elsewhere(B.Check(p))], s2, Elsewhere(B.Send(p)));
    assert moves + [Elsewhere(B.Visit(p, d))] + [Elsewhere(B.Check(p))] + [Elsewhere(B.Send(p))]
        == moves + PushTo(c, d)[1..];
  }
}
