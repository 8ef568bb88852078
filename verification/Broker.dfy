/** The broker as a state machine over its lock-protected steps: publishers, data-channel
    launchers, writers and beacons, control handlers, overflow drops and task aborts
    (src/server.rs, src/pubsub.rs). Every step is one critical section or channel operation of
    the source; runs interleave them freely. */
module Broker {
  import opened Wrappers
  import opened Bytes
  import opened Topic
  import opened PathMask
  import opened ClientDb
  import opened Server
  import DataStream
  import Wire

  type ClientId = nat   // a `ServerClient` object; its token may be drawn again later
  type ChanId = nat     // one data-channel session

  /** Who pushes: a control connection, by its client, or the UDP listener. */
  datatype PubId = Connection(client: ClientId) | Listener

  /** The two tasks of a session, as registered on its client. */
  datatype Task = PingerOf(chan: ChanId) | WriterOf(chan: ChanId)

  datatype HandlerPc =
    | Greeting     // client registered, its token not yet written
    | Serving      // inside `process_control`
    | Unregistered // client removed from the database, tasks not yet aborted
    | Returning    // tasks aborted, the handler still holds the client
    | Gone

  /** The handler has not left its client behind. */
  predicate Attends(pc: HandlerPc) {
    pc.Greeting? || pc.Serving?
  }

  /** The handler has unregistered its client. */
  predicate Parted(pc: HandlerPc) {
    pc.Unregistered? || pc.Returning?
  }

  datatype Client = Client(
    token: Token,
    acl: Acl,
    handler: HandlerPc,
    slot: Option<ChanId>,
    tasks: set<Task>,
    registered: set<Task>,  // history: every task ever registered
    dropped: bool           // the destructor has run
  )

  datatype Entry = Beacon | Note(publisher: PubId, push: nat)

  datatype LauncherPc =
    | Answering     // channel registered, the answer not yet sent
    | PingerSpawned
    | WriterDue     // pinger registered
    | WriterSpawned
    | Launched      // finished, or given up

  datatype WriterPc = NotSpawned | Running | Failing | Ended

  datatype Chan = Chan(
    owner: ClientId,
    entered: seq<Entry>,  // history: everything ever enqueued
    taken: nat,           // how much of it the writer has dequeued
    closed: bool,         // the receiver is gone
    launcher: LauncherPc,
    pinger: WriterPc,
    writer: WriterPc
  )

  /** One `push_to_subscribers` call and the subscriber set it was given; the login is that of a
      datagram, and of no meaning on a connection. */
  datatype Push = Push(message: DataStream.Message, login: Text, acl: Acl, maxDepth: nat, subscribers: set<ClientId>)

  /** A push for which `data_channel()` returned a channel, and whether it entered the queue. */
  datatype Attempt = Attempt(chan: ChanId, push: nat, sent: bool)

  /** Where a publisher stands in the loop of `push_to_subscribers`; `left` are the subscribers
      not yet visited. */
  datatype PubPc =
    | AtRest
    | Visiting(left: set<ClientId>)
    | Checking(left: set<ClientId>, client: ClientId, chan: ChanId)
    | Dropping(left: set<ClientId>, client: ClientId, chan: ChanId)
    | Aborting(left: set<ClientId>, client: ClientId)
    | Sending(left: set<ClientId>, client: ClientId, chan: ChanId)

  datatype Publisher = Publisher(pc: PubPc, log: seq<Push>, attempts: seq<Attempt>)

  datatype State = State(
    index: Index<ClientId>,  // the token map and the subscription index
    clients: map<ClientId, Client>,
    chans: map<ChanId, Chan>,
    publishers: map<PubId, Publisher>,
    aborted: set<Task>
  )

  const INITIAL := State(EmptyIndex(), map[], map[], map[], {})

  /** Queue capacity, the filter matching of the subscription index, the token digest, and the
      access lists by name. */
  datatype Config = Config(
    capacity: nat,
    matches: (Text, Text) -> bool,
    digestOf: Token -> Digest,
    aclOf: Text -> Option<Acl>
  )

  datatype Step =
    // control handlers
    | Register(client: ClientId, token: Token, acl: Acl)
    | TokenSent(client: ClientId)
    | TokenLost(client: ClientId)
    | Subscribe(client: ClientId, raw: Text, maxDepth: nat)
    | Unsubscribe(client: ClientId, raw: Text, maxDepth: nat)
    | Unregister(client: ClientId)
    | HandlerAborts(client: ClientId)
    | HandlerReturns(client: ClientId)
    | DropClient(client: ClientId)
    // data-channel launchers
    | OpenChannel(chan: ChanId, token: Token)
    | AnswerFails(chan: ChanId)
    | SpawnPinger(chan: ChanId)
    | RegisterPinger(chan: ChanId)
    | SpawnWriter(chan: ChanId)
    | RegisterWriter(chan: ChanId)
    // session tasks
    | Beat(chan: ChanId)
    | PingerEnds(chan: ChanId)
    | Dequeue(chan: ChanId)
    | WriterEnds(chan: ChanId)
    | WriterFails(chan: ChanId)
    | WriterUnregisters(chan: ChanId)
    // publishers
    | Publish(publisher: PubId, login: Text, priority: byte, frame: Text, writeAcl: Acl, maxDepth: nat)
    | Visit(publisher: PubId, client: ClientId)
    | Check(publisher: PubId)
    | DropChannel(publisher: PubId)
    | AbortTasks(publisher: PubId)
    | Send(publisher: PubId)
    | Finish(publisher: PubId)

  // ---------------------------------------------------------------- reading the state

  /** The token map holds this very client. */
  predicate IsRegistered(s: State, c: ClientId) {
    c in s.clients && s.clients[c].token in s.index.byToken && s.index.byToken[s.clients[c].token] == c
  }

  function PublisherOf(s: State, p: PubId): Publisher {
    if p in s.publishers then s.publishers[p] else Publisher(AtRest, [], [])
  }

  /** The subscribers a publisher has still to visit. */
  function LeftOf(pc: PubPc): set<ClientId> {
    if pc.AtRest? then {} else pc.left
  }

  predicate Full(cfg: Config, ch: Chan) {
    |ch.entered| - ch.taken >= cfg.capacity
  }

  function Subscribers(cfg: Config, s: State, topic: Text): set<ClientId> {
    SubSubscribers(s.index.submap, cfg.matches, topic)
  }

  /** The verdict on an inbound publish frame. */
  function FrameVerdict(frame: Text, priority: byte, acl: Acl, maxDepth: nat): Verdict {
    var body := Wire.PublishBody(frame);
    if body.Err? then Fatal else VerdictOf(acl, maxDepth, priority, body.value.0, body.value.1)
  }

  /** Somebody holds a reference to the client: the database, its control handler, the launcher of
      one of its sessions, or the subscriber set of a push in progress. */
  predicate Held(s: State, c: ClientId) {
    || IsRegistered(s, c)
    || (c in s.clients && !s.clients[c].handler.Gone?)
    || (exists ch :: ch in s.chans && s.chans[ch].owner == c && !s.chans[ch].launcher.Launched?)
    || (exists p :: p in s.publishers && InSnapshot(s.publishers[p], c))
  }

  predicate InSnapshot(pub: Publisher, c: ClientId) {
    !pub.pc.AtRest? && pub.log != [] && c in pub.log[|pub.log| - 1].subscribers
  }

  // ---------------------------------------------------------------- changing the state

  function SetClient(s: State, c: ClientId, client: Client): State {
    s.(clients := s.clients[c := client])
  }

  function SetChan(s: State, ch: ChanId, chan: Chan): State {
    s.(chans := s.chans[ch := chan])
  }

  function SetPublisher(s: State, p: PubId, pub: Publisher): State {
    s.(publishers := s.publishers[p := pub])
  }

  /** `unregister_data_channel`: by token, whatever the slot holds; nothing for an unknown token. */
  function ClearSlot(s: State, token: Token): State {
    if token in s.index.byToken && s.index.byToken[token] in s.clients then
      var c := s.index.byToken[token];
      SetClient(s, c, s.clients[c].(slot := None))
    else s
  }

  /** `abort_tasks`. */
  function AbortAll(s: State, c: ClientId): State
    requires c in s.clients
  {
    SetClient(s, c, s.clients[c].(tasks := {})).(aborted := s.aborted + s.clients[c].tasks)
  }

  /** `register_task`. */
  function AddTask(s: State, c: ClientId, t: Task): State
    requires c in s.clients
  {
    var client := s.clients[c];
    SetClient(s, c, client.(tasks := client.tasks + {t}, registered := client.registered + {t}))
  }

  // ---------------------------------------------------------------- steps

  predicate HasSession(s: State, ch: ChanId) {
    ch in s.chans && s.chans[ch].owner in s.clients
  }

  /** A connection publishes under the access list of its own client, while the handler serves it;
      the listener under that of the datagram's login. */
  predicate PublishesUnder(cfg: Config, s: State, p: PubId, login: Text, acl: Acl) {
    match p
    case Connection(c) => c in s.clients && s.clients[c].handler.Serving? && s.clients[c].acl == acl
    case Listener => cfg.aclOf(LoginOrUnderscore(login)) == Some(acl)
  }

  /** The handler is at the head of its loop: it serves, and has no push in progress. */
  predicate InLoop(s: State, c: ClientId) {
    c in s.clients && s.clients[c].handler.Serving? && PublisherOf(s, Connection(c)).pc.AtRest?
  }

  predicate EnabledHandler(cfg: Config, s: State, step: Step) {
    match step
    case Register(c, token, _) => c !in s.clients && cfg.digestOf(token) !in s.index.submap.clients
    case TokenSent(c) => c in s.clients && s.clients[c].handler.Greeting?
    case TokenLost(c) => c in s.clients && s.clients[c].handler.Greeting?
    case Subscribe(c, raw, maxDepth) =>
      InLoop(s, c) && AllowRead(s.clients[c].acl, raw) && WithinDepth(maxDepth, raw)
    case Unsubscribe(c, raw, maxDepth) => InLoop(s, c) && WithinDepth(maxDepth, raw)
    case Unregister(c) => InLoop(s, c)
    case HandlerAborts(c) => c in s.clients && s.clients[c].handler.Unregistered?
    case HandlerReturns(c) => c in s.clients && s.clients[c].handler.Returning?
    case DropClient(c) => c in s.clients && !s.clients[c].dropped && !Held(s, c)
    case _ => false
  }

  predicate EnabledSession(cfg: Config, s: State, step: Step) {
    match step
    case OpenChannel(ch, token) =>
      && ch !in s.chans && token in s.index.byToken
      && s.index.byToken[token] in s.clients && s.clients[s.index.byToken[token]].slot.None?
    case AnswerFails(ch) => HasSession(s, ch) && s.chans[ch].launcher.Answering?
    case SpawnPinger(ch) => HasSession(s, ch) && s.chans[ch].launcher.Answering?
    case RegisterPinger(ch) => HasSession(s, ch) && s.chans[ch].launcher.PingerSpawned?
    case SpawnWriter(ch) => HasSession(s, ch) && s.chans[ch].launcher.WriterDue?
    case RegisterWriter(ch) => HasSession(s, ch) && s.chans[ch].launcher.WriterSpawned?
    case Beat(ch) => HasSession(s, ch) && s.chans[ch].pinger.Running? && !s.chans[ch].closed && !Full(cfg, s.chans[ch])
    case PingerEnds(ch) =>
      && HasSession(s, ch) && s.chans[ch].pinger.Running?
      && (s.chans[ch].closed || PingerOf(ch) in s.aborted)
    case Dequeue(ch) => HasSession(s, ch) && s.chans[ch].writer.Running? && s.chans[ch].taken < |s.chans[ch].entered|
    case WriterEnds(ch) => HasSession(s, ch) && s.chans[ch].writer.Running?
    case WriterFails(ch) => HasSession(s, ch) && s.chans[ch].writer.Running?
    case WriterUnregisters(ch) => HasSession(s, ch) && s.chans[ch].writer.Failing?
    case _ => false
  }

  predicate EnabledPublisher(cfg: Config, s: State, step: Step) {
    match step
    case Publish(p, login, priority, frame, acl, maxDepth) =>
      && PublisherOf(s, p).pc.AtRest? && PublishesUnder(cfg, s, p, login, acl)
      && |frame| < U32_LIMIT && FrameVerdict(frame, priority, acl, maxDepth).Forward?
    case Visit(p, c) =>
      && p in s.publishers && s.publishers[p].pc.Visiting?
      && c in s.publishers[p].pc.left && c in s.clients
    case Check(p) =>
      && p in s.publishers && s.publishers[p].pc.Checking?
      && s.publishers[p].pc.chan in s.chans && s.publishers[p].log != []
    case DropChannel(p) => p in s.publishers && s.publishers[p].pc.Dropping? && s.publishers[p].pc.client in s.clients
    case AbortTasks(p) => p in s.publishers && s.publishers[p].pc.Aborting? && s.publishers[p].pc.client in s.clients
    case Send(p) =>
      && p in s.publishers && s.publishers[p].pc.Sending?
      && s.publishers[p].pc.chan in s.chans && s.publishers[p].log != []
      && (s.chans[s.publishers[p].pc.chan].closed || !Full(cfg, s.chans[s.publishers[p].pc.chan]))
    case Finish(p) => p in s.publishers && s.publishers[p].pc == Visiting({})
    case _ => false
  }

  predicate Enabled(cfg: Config, s: State, step: Step) {
    if IsHandlerStep(step) then EnabledHandler(cfg, s, step)
    else if IsPublisherStep(step) then EnabledPublisher(cfg, s, step)
    else EnabledSession(cfg, s, step)
  }

  function ApplyHandler(cfg: Config, s: State, step: Step): State
    requires Enabled(cfg, s, step)
  {
    match step
    case Register(c, token, acl) =>
      SetClient(s, c, Client(token, acl, Greeting, None, {}, {}, false)).(
        index := Entered(s.index, token, cfg.digestOf(token), c))
    case TokenSent(c) => SetClient(s, c, s.clients[c].(handler := Serving))
    // the error leaves the handler before the bracket that would unregister the client
    case TokenLost(c) => SetClient(s, c, s.clients[c].(handler := Gone))
    case Subscribe(c, raw, _) =>
      s.(index := s.index.(submap := SubSubscribe(s.index.submap, cfg.digestOf(s.clients[c].token), Prepared(raw))))
    case Unsubscribe(c, raw, _) =>
      s.(index := s.index.(submap := SubUnsubscribe(s.index.submap, cfg.digestOf(s.clients[c].token), Prepared(raw))))
    case Unregister(c) =>
      SetClient(s, c, s.clients[c].(handler := Unregistered)).(
        index := Left(s.index, s.clients[c].token, cfg.digestOf(s.clients[c].token)))
    case HandlerAborts(c) =>
      var after := AbortAll(s, c);
      SetClient(after, c, after.clients[c].(handler := Returning))
    case HandlerReturns(c) => SetClient(s, c, s.clients[c].(handler := Gone))
    case DropClient(c) =>
      var after := AbortAll(s, c);
      SetClient(after, c, after.clients[c].(dropped := true))
    case _ => s
  }

  /** What a step of its launcher or tasks does to a session. */
  function ChanAfter(chan: Chan, step: Step): Chan {
    match step
    case AnswerFails(_) => chan.(launcher := Launched, closed := true)
    case SpawnPinger(_) => chan.(launcher := PingerSpawned, pinger := Running)
    case RegisterPinger(_) => chan.(launcher := WriterDue)
    case SpawnWriter(_) => chan.(launcher := WriterSpawned, writer := Running)
    case RegisterWriter(_) => chan.(launcher := Launched)
    case Beat(_) => chan.(entered := chan.entered + [Beacon])
    case PingerEnds(_) => chan.(pinger := Ended)
    case Dequeue(_) => chan.(taken := chan.taken + 1)
    case WriterEnds(_) => chan.(writer := Ended, closed := true)
    case WriterFails(_) => chan.(writer := Failing, closed := true)
    case WriterUnregisters(_) => chan.(writer := Ended)
    case _ => chan
  }

  /** Steps that change one session and nothing else. */
  predicate IsChanStep(step: Step) {
    step.AnswerFails? || step.SpawnPinger? || step.SpawnWriter? || step.Beat? || step.PingerEnds? || step.Dequeue?
    || step.WriterEnds? || step.WriterFails?
  }

  function ApplySession(s: State, step: Step): State
    requires step.OpenChannel? ==> step.token in s.index.byToken && s.index.byToken[step.token] in s.clients
    requires IsChanStep(step) || step.RegisterPinger? || step.RegisterWriter? || step.WriterUnregisters? ==>
               step.chan in s.chans && s.chans[step.chan].owner in s.clients
  {
    match step
    case OpenChannel(ch, token) =>
      var c := s.index.byToken[token];
      SetChan(SetClient(s, c, s.clients[c].(slot := Some(ch))), ch,
              Chan(c, [], 0, false, Answering, NotSpawned, NotSpawned))
    case RegisterPinger(ch) => AddTask(SetChan(s, ch, ChanAfter(s.chans[ch], step)), s.chans[ch].owner, PingerOf(ch))
    case RegisterWriter(ch) => AddTask(SetChan(s, ch, ChanAfter(s.chans[ch], step)), s.chans[ch].owner, WriterOf(ch))
    case WriterUnregisters(ch) =>
      ClearSlot(SetChan(s, ch, ChanAfter(s.chans[ch], step)), s.clients[s.chans[ch].owner].token)
    case _ => if IsChanStep(step) then SetChan(s, step.chan, ChanAfter(s.chans[step.chan], step)) else s
  }

  function ApplyPublisher(cfg: Config, s: State, step: Step): State
    requires Enabled(cfg, s, step)
  {
    match step
    case Publish(p, login, priority, frame, acl, maxDepth) =>
      var pub := PublisherOf(s, p);
      var m := FrameVerdict(frame, priority, acl, maxDepth).message;
      var subscribers := Subscribers(cfg, s, m.topic);
      SetPublisher(s, p, pub.(pc := Visiting(subscribers),
                              log := pub.log + [Push(m, login, acl, maxDepth, subscribers)]))
    case Visit(p, c) =>
      var pub := s.publishers[p];
      var left := pub.pc.left - {c};
      SetPublisher(s, p, pub.(pc := match s.clients[c].slot
                                    case None => Visiting(left)
                                    case Some(ch) => Checking(left, c, ch)))
    case Check(p) =>
      var pub := s.publishers[p];
      var ch := pub.pc.chan;
      SetPublisher(s, p,
        if Full(cfg, s.chans[ch]) then
          pub.(pc := Dropping(pub.pc.left, pub.pc.client, ch),
               attempts := pub.attempts + [Attempt(ch, |pub.log| - 1, false)])
        else pub.(pc := Sending(pub.pc.left, pub.pc.client, ch)))
    case DropChannel(p) =>
      var pub := s.publishers[p];
      SetPublisher(ClearSlot(s, s.clients[pub.pc.client].token), p, pub.(pc := Aborting(pub.pc.left, pub.pc.client)))
    case AbortTasks(p) =>
      var pub := s.publishers[p];
      SetPublisher(AbortAll(s, pub.pc.client), p, pub.(pc := Visiting(pub.pc.left)))
    case Send(p) =>
      var pub := s.publishers[p];
      var ch := pub.pc.chan;
      var sent := !s.chans[ch].closed;
      var after := SetPublisher(s, p, pub.(pc := Visiting(pub.pc.left),
                                           attempts := pub.attempts + [Attempt(ch, |pub.log| - 1, sent)]));
      if sent then
        SetChan(after, ch, s.chans[ch].(entered := s.chans[ch].entered + [Note(p, |pub.log| - 1)]))
      else after
    case Finish(p) => SetPublisher(s, p, s.publishers[p].(pc := AtRest))
    case _ => s
  }

  predicate IsHandlerStep(step: Step) {
    step.Register? || step.TokenSent? || step.TokenLost? || step.Subscribe? || step.Unsubscribe? || step.Unregister?
    || step.HandlerAborts? || step.HandlerReturns? || step.DropClient?
  }

  predicate IsPublisherStep(step: Step) {
    step.Publish? || step.Visit? || step.Check? || step.DropChannel? || step.AbortTasks? || step.Send? || step.Finish?
  }

  function Apply(cfg: Config, s: State, step: Step): State
    requires Enabled(cfg, s, step)
  {
    if IsHandlerStep(step) then ApplyHandler(cfg, s, step)
    else if IsPublisherStep(step) then ApplyPublisher(cfg, s, step)
    else ApplySession(s, step)
  }

  /** The state after a run of steps, if each was enabled in its turn. */
  function After(cfg: Config, steps: seq<Step>): Option<State>
    decreases steps
  {
    if steps == [] then Some(INITIAL)
    else
      var before := After(cfg, steps[..|steps| - 1]);
      var step := steps[|steps| - 1];
      if before.Some? && Enabled(cfg, before.value, step) then Some(Apply(cfg, before.value, step)) else None
  }

  // ---------------------------------------------------------------- what a kind of step leaves alone

  lemma HandlerFrame(cfg: Config, s: State, step: Step)
    requires Enabled(cfg, s, step) && IsHandlerStep(step)
    ensures var t := ApplyHandler(cfg, s, step);
            && t.chans == s.chans && t.publishers == s.publishers
            && s.clients.Keys <= t.clients.Keys
            && (forall c :: c in s.clients && c != step.client ==> t.clients[c] == s.clients[c])
            && s.aborted <= t.aborted
  {
  }

  /** The parts of a client only its control handler and its destructor change. */
  predicate SameStanding(a: Client, b: Client) {
    a.token == b.token && a.acl == b.acl && a.handler == b.handler && a.dropped == b.dropped
  }

  /** A publisher leaves registrations, and everything of a client but slot and task list, alone. */
  ghost predicate PublisherLeaves(s: State, t: State, step: Step)
    requires step.AbortTasks? ==> step.publisher in s.publishers && s.publishers[step.publisher].pc.Aborting?
  {
    && t.index == s.index
    && t.clients.Keys == s.clients.Keys
    && (forall c :: c in s.clients ==>
        SameStanding(s.clients[c], t.clients[c]) && s.clients[c].registered == t.clients[c].registered)
    && (forall c :: c in s.clients && !(step.AbortTasks? && c == s.publishers[step.publisher].pc.client) ==>
          t.clients[c].tasks == s.clients[c].tasks)
    && t.chans.Keys == s.chans.Keys
    && (forall ch :: ch in s.chans ==> t.chans[ch] == s.chans[ch].(entered := t.chans[ch].entered))
    && (!step.Send? ==> t.chans == s.chans)
    && s.aborted <= t.aborted
  }

  lemma ClearSlotFrame(s: State, token: Token)
    ensures var t := ClearSlot(s, token);
            && t.index == s.index && t.publishers == s.publishers && t.aborted == s.aborted && t.chans == s.chans
            && t.clients.Keys == s.clients.Keys
            && forall c :: c in s.clients ==> t.clients[c] == s.clients[c].(slot := t.clients[c].slot)
  {
  }

  lemma DropFrame(cfg: Config, s: State, step: Step)
    requires Enabled(cfg, s, step) && step.DropChannel?
    ensures PublisherLeaves(s, ApplyPublisher(cfg, s, step), step)
  {
    ClearSlotFrame(s, s.clients[s.publishers[step.publisher].pc.client].token);
  }

  lemma AbortFrame(cfg: Config, s: State, step: Step)
    requires Enabled(cfg, s, step) && step.AbortTasks?
    ensures PublisherLeaves(s, ApplyPublisher(cfg, s, step), step)
  {
  }

  lemma SendFrame(cfg: Config, s: State, step: Step)
    requires Enabled(cfg, s, step) && step.Send?
    ensures PublisherLeaves(s, ApplyPublisher(cfg, s, step), step)
  {
  }

  lemma QuietFrame(cfg: Config, s: State, step: Step)
    requires Enabled(cfg, s, step) && (step.Publish? || step.Visit? || step.Check? || step.Finish?)
    ensures PublisherLeaves(s, ApplyPublisher(cfg, s, step), step)
  {
    assert ApplyPublisher(cfg, s, step)
        == SetPublisher(s, step.publisher, ApplyPublisher(cfg, s, step).publishers[step.publisher]);
  }

  lemma PublisherFrame(cfg: Config, s: State, step: Step)
    requires Enabled(cfg, s, step) && IsPublisherStep(step)
    ensures PublisherLeaves(s, ApplyPublisher(cfg, s, step), step)
  {
    if step.DropChannel? { DropFrame(cfg, s, step); }
    else if step.AbortTasks? { AbortFrame(cfg, s, step); }
    else if step.Send? { SendFrame(cfg, s, step); }
    else { QuietFrame(cfg, s, step); }
  }

  /** A session step leaves registrations, publishers and the other sessions alone. */
  ghost predicate SessionLeaves(s: State, t: State, step: Step)
    requires !IsHandlerStep(step) && !IsPublisherStep(step)
  {
    && t.index == s.index && t.publishers == s.publishers && t.aborted == s.aborted
    && t.clients.Keys == s.clients.Keys
    && (forall c :: c in s.clients ==> SameStanding(s.clients[c], t.clients[c]))
    && (forall c :: c in s.clients && !(step.RegisterPinger? || step.RegisterWriter?) ==>
          s.clients[c].registered == t.clients[c].registered && s.clients[c].tasks == t.clients[c].tasks)
    && t.chans.Keys == s.chans.Keys + {step.chan}
    && (forall ch :: ch in s.chans && ch != step.chan ==> t.chans[ch] == s.chans[ch])
    && (step.chan in s.chans ==>
        !step.OpenChannel? && t.chans[step.chan] == ChanAfter(s.chans[step.chan], step))
  }

  lemma OpenFrame(cfg: Config, s: State, step: Step)
    requires Enabled(cfg, s, step) && step.OpenChannel?
    ensures SessionLeaves(s, ApplySession(s, step), step)
  {
  }

  lemma RegisterFrame(cfg: Config, s: State, step: Step)
    requires Enabled(cfg, s, step) && (step.RegisterPinger? || step.RegisterWriter?)
    ensures SessionLeaves(s, ApplySession(s, step), step)
  {
  }

  lemma ClearFrame(cfg: Config, s: State, step: Step)
    requires Enabled(cfg, s, step) && step.WriterUnregisters?
    ensures SessionLeaves(s, ApplySession(s, step), step)
  {
    var mid := SetChan(s, step.chan, ChanAfter(s.chans[step.chan], step));
    ClearSlotFrame(mid, s.clients[s.chans[step.chan].owner].token);
  }

  lemma ChanFrame(cfg: Config, s: State, step: Step)
    requires Enabled(cfg, s, step) && IsChanStep(step)
    ensures SessionLeaves(s, ApplySession(s, step), step)
  {
    assert ApplySession(s, step) == SetChan(s, step.chan, ChanAfter(s.chans[step.chan], step));
  }

  lemma SessionFrame(cfg: Config, s: State, step: Step)
    requires Enabled(cfg, s, step) && !IsHandlerStep(step) && !IsPublisherStep(step)
    ensures SessionLeaves(s, ApplySession(s, step), step)
  {
    if step.OpenChannel? { OpenFrame(cfg, s, step); }
    else if step.WriterUnregisters? { ClearFrame(cfg, s, step); }
    else if IsChanStep(step) { ChanFrame(cfg, s, step); }
    else { RegisterFrame(cfg, s, step); }
  }
}
