/** Which channel is cleared when a full queue is dropped or a writer fails: both go by the token of
    a client and take whatever its slot holds by then. */
module Clearing {
  import opened Wrappers
  import opened Bytes
  import opened Topic
  import opened PathMask
  import opened Server
  import opened Broker
  import opened Delivery
  import Db = ClientDb
  import DataStream

  /** The steps that call `unregister_data_channel`. */
  predicate IsClearing(step: Step) {
    step.DropChannel? || step.WriterUnregisters?
  }

  /** The channel that was found full, or whose writer failed. */
  function FailedChan(s: State, step: Step): ChanId
    requires IsClearing(step)
    requires step.DropChannel? ==> step.publisher in s.publishers && s.publishers[step.publisher].pc.Dropping?
  {
    if step.DropChannel? then s.publishers[step.publisher].pc.chan else step.chan
  }

  /** The token `unregister_data_channel` is given. */
  function ClearedToken(cfg: Config, s: State, step: Step): Db.Token
    requires Enabled(cfg, s, step) && IsClearing(step)
  {
    if step.DropChannel? then s.clients[s.publishers[step.publisher].pc.client].token
    else s.clients[s.chans[step.chan].owner].token
  }

  /** The slot now found under the token is empty or holds the channel that failed. */
  predicate SlotIsOwn(s: State, token: Db.Token, failed: ChanId) {
    token in s.index.byToken && s.index.byToken[token] in s.clients ==>
      s.clients[s.index.byToken[token]].slot in {None, Some(failed)}
  }

  /** No channel but `failed` has been taken out of a slot. */
  predicate Spares(s: State, t: State, failed: ChanId) {
    forall c :: c in s.clients ==>
      c in t.clients && (t.clients[c].slot == s.clients[c].slot || s.clients[c].slot == Some(failed))
  }

  /** What clearing by token leaves in the slot of `c`. */
  function SlotCleared(s: State, token: Db.Token, c: ClientId): Option<ChanId>
    requires c in s.clients
  {
    if IsRegistered(s, c) && s.clients[c].token == token then None else s.clients[c].slot
  }

  lemma ClearSlotAt(s: State, token: Db.Token, c: ClientId)
    requires TokensWired(s) && c in s.clients
    ensures c in ClearSlot(s, token).clients
    ensures ClearSlot(s, token).clients[c].slot == SlotCleared(s, token, c)
  {
  }

  /** A clearing step empties the slot of the client registered under the token in question, and
      leaves every other slot as it was. */
  lemma SlotAfter(cfg: Config, s: State, step: Step, c: ClientId)
    requires TokensWired(s) && Enabled(cfg, s, step) && IsClearing(step) && c in s.clients
    ensures c in Apply(cfg, s, step).clients
    ensures Apply(cfg, s, step).clients[c].slot == SlotCleared(s, ClearedToken(cfg, s, step), c)
  {
    var token := ClearedToken(cfg, s, step);
    if step.DropChannel? {
      ClearSlotAt(s, token, c);
    } else {
      ClearSlotAt(SetChan(s, step.chan, ChanAfter(s.chans[step.chan], step)), token, c);
    }
  }

  /** An occupied slot is emptied exactly when its client is registered, and its token is the one
      the step was given. */
  lemma ClearedIff(cfg: Config, s: State, step: Step, c: ClientId)
    requires Inv(cfg, s) && Enabled(cfg, s, step) && IsClearing(step)
    requires c in s.clients && s.clients[c].slot.Some?
    ensures c in Apply(cfg, s, step).clients
    ensures Apply(cfg, s, step).clients[c].slot == None <==>
            IsRegistered(s, c) && s.clients[c].token == ClearedToken(cfg, s, step)
  {
    SlotAfter(cfg, s, step, c);
  }

  lemma SparesIff(s: State, t: State, token: Db.Token, failed: ChanId)
    requires TokensWired(s)
    requires forall c :: c in s.clients ==> c in t.clients && t.clients[c].slot == SlotCleared(s, token, c)
    ensures Spares(s, t, failed) <==> SlotIsOwn(s, token, failed)
  {
    if token in s.index.byToken {
      var c := s.index.byToken[token];
      assert t.clients[c].slot == SlotCleared(s, token, c) == None;
    }
  }

  /** No channel but the one that failed is taken out of its slot, exactly when the slot under the
      token is empty or still holds that channel. */
  lemma OnlyFailedIff(cfg: Config, s: State, step: Step)
    requires Inv(cfg, s) && Enabled(cfg, s, step) && IsClearing(step)
    ensures Spares(s, Apply(cfg, s, step), FailedChan(s, step))
       <==> SlotIsOwn(s, ClearedToken(cfg, s, step), FailedChan(s, step))
  {
    var token := ClearedToken(cfg, s, step);
    forall c | c in s.clients
      ensures c in Apply(cfg, s, step).clients && Apply(cfg, s, step).clients[c].slot == SlotCleared(s, token, c)
    {
      SlotAfter(cfg, s, step, c);
    }
    SparesIff(s, Apply(cfg, s, step), token, FailedChan(s, step));
  }

  // ---------------------------------------------------------------- two runs that clear a healthy channel

  const CFG := Config(1, (f, t) => true, t => t, name => Some(FULL))
  const FULL := Acl(false, false, Some({ANY}), Some({ANY}))
  const TOPIC: Text := [0x78]
  const FRAME: Text := [0x78, 0x00]

  /** Client 1 under the empty token, alone. */
  function World(filters: set<Text>, client: Client, chans: map<ChanId, Chan>, publishers: map<PubId, Publisher>): State
  {
    State(Db.Index(Db.SubMap(map[[] := 1], map[[] := filters]), map[[] := 1]), map[1 := client], chans, publishers, {})
  }

  function Sole(handler: HandlerPc, slot: Option<ChanId>, tasks: set<Task>): Client {
    Client([], FULL, handler, slot, tasks, tasks, false)
  }

  function Session(entered: seq<Entry>, closed: bool, launcher: LauncherPc, pinger: WriterPc, writer: WriterPc): Chan {
    Chan(1, entered, 0, closed, launcher, pinger, writer)
  }

  const NEW := Session([], false, Answering, NotSpawned, NotSpawned)
  const LIVE := Session([Beacon], false, Launched, Running, Running)
  const BOTH := {PingerOf(1), WriterOf(1)}
  const PUSH := Push(DataStream.Message(0, TOPIC, []), [], FULL, 0, {1})

  predicate Moves(s: State, step: Step, t: State) {
    Enabled(CFG, s, step) && Apply(CFG, s, step) == t
  }

  lemma RunMoves(before: seq<Step>, s: State, step: Step, t: State)
    requires After(CFG, before) == Some(s) && Moves(s, step, t)
    ensures After(CFG, before + [step]) == Some(t)
  {
    assert (before + [step])[..|before|] == before;
  }

  lemma RunMovesThrice(before: seq<Step>, s: State, a: Step, t: State, b: Step, u: State, c: Step, v: State)
    requires After(CFG, before) == Some(s) && Moves(s, a, t) && Moves(t, b, u) && Moves(u, c, v)
    ensures After(CFG, before + [a, b, c]) == Some(v)
  {
    RunMoves(before, s, a, t);
    RunMoves(before + [a], t, b, u);
    RunMoves(before + [a] + [b], u, c, v);
    assert before + [a] + [b] + [c] == before + [a, b, c];
  }

  lemma Replaced<K, V>(k: K, a: V, b: V)
    ensures map[k := a][k := b] == map[k := b]
  {
  }

  // client 1 connects and subscribes

  const CONNECT := [Register(1, [], FULL), TokenSent(1), Subscribe(1, TOPIC, 0)]
  const CONNECTED := World({TOPIC}, Sole(Serving, None, {}), map[], map[])

  lemma TopicIsPlain()
    ensures Prepared(TOPIC) == TOPIC && CountSlashes(TOPIC) == 0 && ValidUtf8(TOPIC)
    ensures AllowRead(FULL, TOPIC) && AllowWrite(FULL, TOPIC)
  {
    assert TOPIC[1..] == [];
    assert ANY in {ANY};
  }

  lemma Greets()
    ensures Moves(INITIAL, CONNECT[0], World({}, Sole(Greeting, None, {}), map[], map[]))
    ensures Moves(World({}, Sole(Greeting, None, {}), map[], map[]), CONNECT[1],
                  World({}, Sole(Serving, None, {}), map[], map[]))
  {
    Replaced(1, Sole(Greeting, None, {}), Sole(Serving, None, {}));
  }

  lemma Subscribes()
    ensures Moves(World({}, Sole(Serving, None, {}), map[], map[]), CONNECT[2], CONNECTED)
  {
    TopicIsPlain();
    var key: Db.Digest, none: set<Text> := [], {};
    assert none + {TOPIC} == {TOPIC};
    assert map[key := none][key := {TOPIC}] == map[key := {TOPIC}];
  }

  lemma Connects()
    ensures After(CFG, CONNECT) == Some(CONNECTED)
  {
    Greets();
    Subscribes();
    RunMovesThrice([], INITIAL, CONNECT[0], World({}, Sole(Greeting, None, {}), map[], map[]),
                   CONNECT[1], World({}, Sole(Serving, None, {}), map[], map[]), CONNECT[2], CONNECTED);
    assert [] + [CONNECT[0], CONNECT[1], CONNECT[2]] == CONNECT;
  }

  // its first session is launched and the queue fills up

  const LAUNCH := [OpenChannel(1, []), SpawnPinger(1), RegisterPinger(1)]
  const START := [SpawnWriter(1), RegisterWriter(1), Beat(1)]

  const SPAWNED := Session([], false, PingerSpawned, Running, NotSpawned)
  const DUE := Session([], false, WriterDue, Running, NotSpawned)
  const PINGER: set<Task> := {PingerOf(1)}

  function Opened(tasks: set<Task>, chan: Chan): State {
    World({TOPIC}, Sole(Serving, Some(1), tasks), map[1 := chan], map[])
  }

  lemma Launches()
    ensures Moves(CONNECTED, LAUNCH[0], Opened({}, NEW))
    ensures Moves(Opened({}, NEW), LAUNCH[1], Opened({}, SPAWNED))
  {
    Replaced(1, Sole(Serving, None, {}), Sole(Serving, Some(1), {}));
    Replaced(1, NEW, SPAWNED);
  }

  lemma TaskRegisters(tasks: set<Task>, chan: Chan, step: Step, task: Task)
    requires chan.owner == 1
    requires (step == RegisterPinger(1) && task == PingerOf(1)) || (step == RegisterWriter(1) && task == WriterOf(1))
    requires Enabled(CFG, Opened(tasks, chan), step)
    ensures Moves(Opened(tasks, chan), step, Opened(tasks + {task}, ChanAfter(chan, step)))
  {
    Replaced(1, chan, ChanAfter(chan, step));
    Replaced(1, Sole(Serving, Some(1), tasks), Sole(Serving, Some(1), tasks + {task}));
  }

  lemma Starts()
    ensures Moves(Opened(PINGER, DUE), START[0],
                  Opened(PINGER, Session([], false, WriterSpawned, Running, Running)))
    ensures Moves(Opened(BOTH, Session([], false, Launched, Running, Running)), START[2], Opened(BOTH, LIVE))
  {
    Replaced(1, DUE, Session([], false, WriterSpawned, Running, Running));
    Replaced(1, Session([], false, Launched, Running, Running), LIVE);
    assert [] + [Beacon] == [Beacon];
  }

  lemma FirstTaskRegistered()
    ensures After(CFG, CONNECT + LAUNCH) == Some(Opened(PINGER, DUE))
  {
    Connects();
    Launches();
    TaskRegisters({}, SPAWNED, LAUNCH[2], PingerOf(1));
    assert {} + PINGER == PINGER;
    RunMovesThrice(CONNECT, CONNECTED, LAUNCH[0], Opened({}, NEW), LAUNCH[1], Opened({}, SPAWNED),
                   LAUNCH[2], Opened(PINGER, DUE));
    assert [LAUNCH[0], LAUNCH[1], LAUNCH[2]] == LAUNCH;
  }

  lemma SessionRuns()
    ensures After(CFG, CONNECT + LAUNCH + START) == Some(Opened(BOTH, LIVE))
  {
    var writing := Session([], false, WriterSpawned, Running, Running);
    var full := Session([], false, Launched, Running, Running);
    FirstTaskRegistered();
    Starts();
    TaskRegisters(PINGER, writing, START[1], WriterOf(1));
    assert PINGER + {WriterOf(1)} == BOTH;
    RunMovesThrice(CONNECT + LAUNCH, Opened(PINGER, DUE), START[0], Opened(PINGER, writing),
                   START[1], Opened(BOTH, full), START[2], Opened(BOTH, LIVE));
    assert [START[0], START[1], START[2]] == START;
  }

  // the listener finds the queue full

  const FIND_FULL := [Publish(Listener, [], 0, FRAME, FULL, 0), Visit(Listener, 1), Check(Listener)]

  function Publishing(slot: Option<ChanId>, chans: map<ChanId, Chan>, pc: PubPc, attempts: seq<Attempt>): State {
    World({TOPIC}, Sole(Serving, slot, BOTH), chans, map[Listener := Publisher(pc, [PUSH], attempts)])
  }

  const FAILED := [Attempt(1, 0, false)]
  const FOUND_FULL := Publishing(Some(1), map[1 := LIVE], Dropping({}, 1, 1), FAILED)

  lemma FrameIsForwarded()
    ensures FrameVerdict(FRAME, 0, FULL, 0) == Forward(PUSH.message)
  {
    TopicIsPlain();
    assert FRAME == TOPIC + [NUL] + [];
    CutAtNulJoint(TOPIC, []);
  }

  lemma Publishes()
    ensures Moves(Opened(BOTH, LIVE), FIND_FULL[0], Publishing(Some(1), map[1 := LIVE], Visiting({1}), []))
  {
    var s := Opened(BOTH, LIVE);
    FrameIsForwarded();
    var key: Db.Digest := [];
    assert key in s.index.submap.clients && TOPIC in s.index.submap.filters[key] && CFG.matches(TOPIC, TOPIC);
    assert Subscribers(CFG, s, TOPIC) == {1};
    assert [] + [PUSH] == [PUSH];
  }

  lemma FindsFull()
    ensures Moves(Publishing(Some(1), map[1 := LIVE], Visiting({1}), []), FIND_FULL[1],
                  Publishing(Some(1), map[1 := LIVE], Checking({}, 1, 1), []))
    ensures Moves(Publishing(Some(1), map[1 := LIVE], Checking({}, 1, 1), []), FIND_FULL[2], FOUND_FULL)
  {
    var one: set<ClientId> := {1};
    assert one - {1} == {};
    Replaced(Listener, Publisher(Visiting({1}), [PUSH], []), Publisher(Checking({}, 1, 1), [PUSH], []));
    Replaced(Listener, Publisher(Checking({}, 1, 1), [PUSH], []), Publisher(Dropping({}, 1, 1), [PUSH], FAILED));
    assert [] + FAILED == FAILED;
  }

  const TO_FULL := CONNECT + LAUNCH + START + FIND_FULL

  lemma ReachesFull()
    ensures After(CFG, TO_FULL) == Some(FOUND_FULL)
  {
    SessionRuns();
    Publishes();
    FindsFull();
    RunMovesThrice(CONNECT + LAUNCH + START, Opened(BOTH, LIVE), FIND_FULL[0],
                   Publishing(Some(1), map[1 := LIVE], Visiting({1}), []), FIND_FULL[1],
                   Publishing(Some(1), map[1 := LIVE], Checking({}, 1, 1), []), FIND_FULL[2], FOUND_FULL);
    assert [FIND_FULL[0], FIND_FULL[1], FIND_FULL[2]] == FIND_FULL;
  }

  // the writer of the first session fails, a second session opens, and then the stale verdict clears it

  const REOPEN := [WriterFails(1), WriterUnregisters(1), OpenChannel(2, [])]
  const FAILING := Session([Beacon], true, Launched, Running, Failing)
  const ENDED := Session([Beacon], true, Launched, Running, Ended)

  const REOPENED := Publishing(Some(2), map[1 := ENDED, 2 := NEW], Dropping({}, 1, 1), FAILED)

  lemma WriterGivesUp(pc: PubPc)
    ensures Moves(Publishing(Some(1), map[1 := LIVE], pc, FAILED), WriterFails(1),
                  Publishing(Some(1), map[1 := FAILING], pc, FAILED))
    ensures Moves(Publishing(Some(1), map[1 := FAILING], pc, FAILED), WriterUnregisters(1),
                  Publishing(None, map[1 := ENDED], pc, FAILED))
  {
    Replaced(1, LIVE, FAILING);
    Replaced(1, FAILING, ENDED);
    Replaced(1, Sole(Serving, Some(1), BOTH), Sole(Serving, None, BOTH));
  }

  lemma OpensAgain(chan: Chan, pc: PubPc)
    ensures Moves(Publishing(None, map[1 := chan], pc, FAILED), OpenChannel(2, []),
                  Publishing(Some(2), map[1 := chan, 2 := NEW], pc, FAILED))
  {
    Replaced(1, Sole(Serving, None, BOTH), Sole(Serving, Some(2), BOTH));
  }

  lemma Reopens()
    ensures After(CFG, TO_FULL + REOPEN) == Some(REOPENED)
  {
    var pc := Dropping({}, 1, 1);
    ReachesFull();
    WriterGivesUp(pc);
    OpensAgain(ENDED, pc);
    RunMovesThrice(TO_FULL, FOUND_FULL, REOPEN[0], Publishing(Some(1), map[1 := FAILING], pc, FAILED),
                   REOPEN[1], Publishing(None, map[1 := ENDED], pc, FAILED),
                   REOPEN[2], Publishing(Some(2), map[1 := ENDED, 2 := NEW], pc, FAILED));
    assert [REOPEN[0], REOPEN[1], REOPEN[2]] == REOPEN;
  }

  /** The channel the step clears is open and has room, and is not the one that failed. */
  predicate ClearsHealthy(s: State, step: Step, c: ClientId) {
    && Enabled(CFG, s, step) && IsClearing(step)
    && c in s.clients && s.clients[c].slot.Some? && s.clients[c].slot.value in s.chans
    && s.clients[c].slot.value != FailedChan(s, step)
    && !s.chans[s.clients[c].slot.value].closed && !Full(CFG, s.chans[s.clients[c].slot.value])
    && c in Apply(CFG, s, step).clients && Apply(CFG, s, step).clients[c].slot == None
  }

  lemma ReopenedIsCleared()
    ensures ClearsHealthy(REOPENED, DropChannel(Listener), 1)
  {
  }

  /** A stale "full" verdict about channel 1 clears channel 2. */
  lemma StaleVerdictRun()
    ensures After(CFG, TO_FULL + REOPEN).Some?
    ensures ClearsHealthy(After(CFG, TO_FULL + REOPEN).value, DropChannel(Listener), 1)
  {
    Reopens();
    ReopenedIsCleared();
  }

  // the full channel is dropped, a second session opens, and then the failing writer of the first clears it

  const RENEW := [DropChannel(Listener), OpenChannel(2, []), WriterFails(1)]

  const RENEWED := Publishing(Some(2), map[1 := FAILING, 2 := NEW], Aborting({}, 1), FAILED)

  lemma Drops()
    ensures Moves(FOUND_FULL, RENEW[0], Publishing(None, map[1 := LIVE], Aborting({}, 1), FAILED))
  {
    Replaced(Listener, Publisher(Dropping({}, 1, 1), [PUSH], FAILED), Publisher(Aborting({}, 1), [PUSH], FAILED));
    Replaced(1, Sole(Serving, Some(1), BOTH), Sole(Serving, None, BOTH));
  }

  lemma FirstWriterFails(pc: PubPc)
    ensures Moves(Publishing(Some(2), map[1 := LIVE, 2 := NEW], pc, FAILED), RENEW[2],
                  Publishing(Some(2), map[1 := FAILING, 2 := NEW], pc, FAILED))
  {
    assert map[1 := LIVE, 2 := NEW][1 := FAILING] == map[1 := FAILING, 2 := NEW];
  }

  lemma Renews()
    ensures After(CFG, TO_FULL + RENEW) == Some(RENEWED)
  {
    var pc := Aborting({}, 1);
    ReachesFull();
    Drops();
    OpensAgain(LIVE, pc);
    FirstWriterFails(pc);
    RunMovesThrice(TO_FULL, FOUND_FULL, RENEW[0], Publishing(None, map[1 := LIVE], pc, FAILED),
                   RENEW[1], Publishing(Some(2), map[1 := LIVE, 2 := NEW], pc, FAILED),
                   RENEW[2], Publishing(Some(2), map[1 := FAILING, 2 := NEW], pc, FAILED));
    assert [RENEW[0], RENEW[1], RENEW[2]] == RENEW;
  }

  lemma RenewedIsCleared()
    ensures ClearsHealthy(RENEWED, WriterUnregisters(1), 1)
  {
  }

  /** The failing writer of channel 1 clears channel 2. */
  lemma StaleWriterRun()
    ensures After(CFG, TO_FULL + RENEW).Some?
    ensures ClearsHealthy(After(CFG, TO_FULL + RENEW).value, WriterUnregisters(1), 1)
  {
    Renews();
    RenewedIsCleared();
  }
}
