/** What can be done from every reachable state: a client can join and subscribe, its session can be
    launched, its queue drained, and it can leave. */
module Service {
  import opened Wrappers
  import opened Bytes
  import opened Topic
  import opened PathMask
  import opened Server
  import opened Broker
  import opened History
  import Db = ClientDb

  // ---------------------------------------------------------------- joining

  /** A connection whose client was never registered has published nothing. */
  lemma {:induction false} StrangersAreQuiet(cfg: Config, steps: seq<Step>, s: State, c: ClientId)
    requires After(cfg, steps) == Some(s) && c !in s.clients
    ensures Connection(c) !in s.publishers
    decreases steps
  {
    if steps != [] {
      var fewer, step := steps[..|steps| - 1], steps[|steps| - 1];
      var before := After(cfg, fewer).value;
      ClientsStay(cfg, before, step, c);
      StrangersAreQuiet(cfg, fewer, before, c);
      QuietStep(cfg, before, step, c);
    }
  }

  lemma ClientsStay(cfg: Config, s: State, step: Step, c: ClientId)
    requires Enabled(cfg, s, step)
    ensures c in s.clients ==> c in Apply(cfg, s, step).clients
  {
    if IsHandlerStep(step) {
      HandlerFrame(cfg, s, step);
    } else if IsPublisherStep(step) {
      PublisherFrame(cfg, s, step);
    } else {
      SessionFrame(cfg, s, step);
    }
  }

  lemma QuietStep(cfg: Config, s: State, step: Step, c: ClientId)
    requires Enabled(cfg, s, step) && c !in s.clients && Connection(c) !in s.publishers
    ensures Connection(c) !in Apply(cfg, s, step).publishers
  {
    if IsHandlerStep(step) {
      HandlerFrame(cfg, s, step);
    } else if IsPublisherStep(step) {
      assert step.publisher != Connection(c);
      PublisherFrame(cfg, s, step);
    } else {
      SessionFrame(cfg, s, step);
    }
  }

  /** The client is registered under its token, has neither session nor task, and is at `pc`. */
  predicate Fresh(cfg: Config, s: State, c: ClientId, token: Db.Token, acl: Acl, pc: HandlerPc) {
    && c in s.clients && s.clients[c] == Client(token, acl, pc, None, {}, {}, false)
    && token in s.index.byToken && s.index.byToken[token] == c
    && cfg.digestOf(token) in s.index.submap.filters
    && Connection(c) !in s.publishers
  }

  lemma RegisterGreets(cfg: Config, s: State, c: ClientId, token: Db.Token, acl: Acl)
    requires c !in s.clients && Connection(c) !in s.publishers && cfg.digestOf(token) !in s.index.submap.clients
    ensures var step := Register(c, token, acl);
            && Enabled(cfg, s, step)
            && Fresh(cfg, Apply(cfg, s, step), c, token, acl, Greeting)
            && Apply(cfg, s, step).chans == s.chans
  {
  }

  lemma TokenServes(cfg: Config, s: State, c: ClientId, token: Db.Token, acl: Acl)
    requires Fresh(cfg, s, c, token, acl, Greeting)
    ensures Enabled(cfg, s, TokenSent(c))
    ensures Fresh(cfg, Apply(cfg, s, TokenSent(c)), c, token, acl, Serving)
    ensures Apply(cfg, s, TokenSent(c)).chans == s.chans
  {
  }

  lemma SubscribeStores(cfg: Config, s: State, c: ClientId, token: Db.Token, acl: Acl, raw: Text, maxDepth: nat)
    requires Fresh(cfg, s, c, token, acl, Serving)
    requires ReadMask(acl, raw) && CountSlashes(Prepared(raw)) <= maxDepth
    ensures var step := Subscribe(c, raw, maxDepth);
            && Enabled(cfg, s, step)
            && Fresh(cfg, Apply(cfg, s, step), c, token, acl, Serving)
            && Prepared(raw) in FiltersOf(cfg, Apply(cfg, s, step), c)
            && Apply(cfg, s, step).chans == s.chans
  {
  }

  lemma OpenGives(cfg: Config, s: State, c: ClientId, token: Db.Token, acl: Acl, filter: Text, ch: ChanId)
    requires Fresh(cfg, s, c, token, acl, Serving) && filter in FiltersOf(cfg, s, c)
    requires ch !in s.chans && cfg.capacity > 0
    ensures var step := OpenChannel(ch, token);
            && Enabled(cfg, s, step)
            && Open(cfg, Apply(cfg, s, step), c, ch)
            && Apply(cfg, s, step).chans[ch] == Chan(c, [], 0, false, Answering, NotSpawned, NotSpawned)
            && filter in FiltersOf(cfg, Apply(cfg, s, step), c)
            && IsRegistered(Apply(cfg, s, step), c)
  {
  }

  function JoinSteps(c: ClientId, token: Db.Token, acl: Acl, raw: Text, maxDepth: nat, ch: ChanId): seq<Step> {
    [Register(c, token, acl), TokenSent(c), Subscribe(c, raw, maxDepth), OpenChannel(ch, token)]
  }

  /** From any reachable state: a new client under a token whose digest is free can register, subscribe
      to a topic its read masks match, and open a data channel; it then wants every topic its filter
      matches, and its channel is open and has room. */
  lemma ClientJoins(cfg: Config, steps: seq<Step>, s: State, c: ClientId, token: Db.Token, acl: Acl, raw: Text,
                    maxDepth: nat, ch: ChanId) returns (t: State)
    requires After(cfg, steps) == Some(s) && cfg.capacity > 0
    requires c !in s.clients && ch !in s.chans && cfg.digestOf(token) !in s.index.submap.clients
    requires ReadMask(acl, raw) && CountSlashes(Prepared(raw)) <= maxDepth
    ensures After(cfg, steps + JoinSteps(c, token, acl, raw, maxDepth, ch)) == Some(t)
    ensures Open(cfg, t, c, ch) && t.chans[ch].launcher.Answering?
    ensures forall topic :: cfg.matches(Prepared(raw), topic) ==> Wants(cfg, t, c, topic)
  {
    StrangersAreQuiet(cfg, steps, s, c);
    var first, second := Register(c, token, acl), TokenSent(c);
    var third, fourth := Subscribe(c, raw, maxDepth), OpenChannel(ch, token);
    RegisterGreets(cfg, s, c, token, acl);
    var s1 := Apply(cfg, s, first);
    TokenServes(cfg, s1, c, token, acl);
    var s2 := Apply(cfg, s1, second);
    SubscribeStores(cfg, s2, c, token, acl, raw, maxDepth);
    var s3 := Apply(cfg, s2, third);
    OpenGives(cfg, s3, c, token, acl, Prepared(raw), ch);
    t := Apply(cfg, s3, fourth);
    RunFour(cfg, steps, s, s1, s2, s3, first, second, third, fourth);
  }

  lemma RunFour(cfg: Config, steps: seq<Step>, s: State, s1: State, s2: State, s3: State, a: Step, b: Step, c: Step,
                d: Step)
    requires After(cfg, steps) == Some(s) && Enabled(cfg, s, a) && s1 == Apply(cfg, s, a)
    requires Enabled(cfg, s1, b) && s2 == Apply(cfg, s1, b)
    requires Enabled(cfg, s2, c) && s3 == Apply(cfg, s2, c) && Enabled(cfg, s3, d)
    ensures After(cfg, steps + [a, b, c, d]) == Some(Apply(cfg, s3, d))
  {
    RunThree(cfg, steps, s, a, b, c);
    RunSnoc(cfg, steps + [a, b, c], s3, d);
    assert steps + [a, b, c] + [d] == steps + [a, b, c, d];
  }

  // ---------------------------------------------------------------- a session

  /** The session of `ch` is at `chan`, and its client has the tasks among its own. */
  predicate SessionAt(s: State, ch: ChanId, chan: Chan, tasks: set<Task>) {
    ch in s.chans && s.chans[ch] == chan && chan.owner in s.clients && tasks <= s.clients[chan.owner].tasks
  }

  lemma SpawnsPinger(cfg: Config, s: State, ch: ChanId, chan: Chan)
    requires SessionAt(s, ch, chan, {}) && chan.launcher.Answering?
    ensures Enabled(cfg, s, SpawnPinger(ch))
    ensures SessionAt(Apply(cfg, s, SpawnPinger(ch)), ch, chan.(launcher := PingerSpawned, pinger := Running), {})
  {
  }

  lemma RegistersPinger(cfg: Config, s: State, ch: ChanId, chan: Chan)
    requires SessionAt(s, ch, chan, {}) && chan.launcher.PingerSpawned?
    ensures Enabled(cfg, s, RegisterPinger(ch))
    ensures SessionAt(Apply(cfg, s, RegisterPinger(ch)), ch, chan.(launcher := WriterDue), {PingerOf(ch)})
  {
  }

  lemma SpawnsWriter(cfg: Config, s: State, ch: ChanId, chan: Chan)
    requires SessionAt(s, ch, chan, {PingerOf(ch)}) && chan.launcher.WriterDue?
    ensures Enabled(cfg, s, SpawnWriter(ch))
    ensures SessionAt(Apply(cfg, s, SpawnWriter(ch)), ch, chan.(launcher := WriterSpawned, writer := Running),
                      {PingerOf(ch)})
  {
  }

  lemma RegistersWriter(cfg: Config, s: State, ch: ChanId, chan: Chan)
    requires SessionAt(s, ch, chan, {PingerOf(ch)}) && chan.launcher.WriterSpawned?
    ensures Enabled(cfg, s, RegisterWriter(ch))
    ensures SessionAt(Apply(cfg, s, RegisterWriter(ch)), ch, chan.(launcher := Launched), {PingerOf(ch), WriterOf(ch)})
  {
  }

  /** From any reachable state: the launcher of a session that has not answered yet can finish, and
      then both tasks run and are the client's to abort; the queue is as it was. */
  lemma SessionLaunches(cfg: Config, steps: seq<Step>, s: State, ch: ChanId) returns (t: State)
    requires After(cfg, steps) == Some(s) && ch in s.chans && s.chans[ch].launcher.Answering?
    ensures After(cfg, steps + [SpawnPinger(ch), RegisterPinger(ch), SpawnWriter(ch), RegisterWriter(ch)]) == Some(t)
    ensures SessionAt(t, ch, s.chans[ch].(launcher := Launched, pinger := Running, writer := Running),
                      {PingerOf(ch), WriterOf(ch)})
  {
    OwnersKnown(cfg, steps, s);
    var chan := s.chans[ch];
    SpawnsPinger(cfg, s, ch, chan);
    var s1 := Apply(cfg, s, SpawnPinger(ch));
    RegistersPinger(cfg, s1, ch, s1.chans[ch]);
    var s2 := Apply(cfg, s1, RegisterPinger(ch));
    SpawnsWriter(cfg, s2, ch, s2.chans[ch]);
    var s3 := Apply(cfg, s2, SpawnWriter(ch));
    RegistersWriter(cfg, s3, ch, s3.chans[ch]);
    t := Apply(cfg, s3, RegisterWriter(ch));
    RunFour(cfg, steps, s, s1, s2, s3, SpawnPinger(ch), RegisterPinger(ch), SpawnWriter(ch), RegisterWriter(ch));
  }

  lemma WriterTakes(cfg: Config, s: State, ch: ChanId, chan: Chan)
    requires SessionAt(s, ch, chan, {}) && chan.writer.Running? && chan.taken < |chan.entered|
    ensures Enabled(cfg, s, Dequeue(ch))
    ensures SessionAt(Apply(cfg, s, Dequeue(ch)), ch, chan.(taken := chan.taken + 1), {})
  {
  }

  /** From any reachable state: a running writer can take all that is queued, in as many steps. */
  lemma {:induction false} QueueDrains(cfg: Config, steps: seq<Step>, s: State, ch: ChanId, k: nat) returns (t: State)
    requires After(cfg, steps) == Some(s) && ch in s.chans && s.chans[ch].writer.Running?
    requires k == |s.chans[ch].entered| - s.chans[ch].taken
    ensures After(cfg, steps + seq(k, _ => Dequeue(ch))) == Some(t)
    ensures ch in t.chans && t.chans[ch] == s.chans[ch].(taken := |s.chans[ch].entered|)
    decreases k
  {
    if k == 0 {
      assert steps + seq(k, _ => Dequeue(ch)) == steps;
      t := s;
    } else {
      OwnersKnown(cfg, steps, s);
      WriterTakes(cfg, s, ch, s.chans[ch]);
      RunSnoc(cfg, steps, s, Dequeue(ch));
      t := QueueDrains(cfg, steps + [Dequeue(ch)], Apply(cfg, s, Dequeue(ch)), ch, k - 1);
      assert steps + [Dequeue(ch)] + seq(k - 1, _ => Dequeue(ch)) == steps + seq(k, _ => Dequeue(ch));
    }
  }

  /** A running pinger waits in exactly one case: its channel is open and full, and nobody has
      aborted it. Otherwise it adds a beacon, or ends. */
  lemma PingerMovesIff(cfg: Config, steps: seq<Step>, s: State, ch: ChanId)
    requires After(cfg, steps) == Some(s) && ch in s.chans && s.chans[ch].pinger.Running?
    ensures Enabled(cfg, s, Beat(ch)) || Enabled(cfg, s, PingerEnds(ch)) <==>
            !(&& !s.chans[ch].closed && PingerOf(ch) !in s.aborted
              && |s.chans[ch].entered| - s.chans[ch].taken >= cfg.capacity)
    ensures Enabled(cfg, s, Beat(ch)) ==>
              Apply(cfg, s, Beat(ch)).chans == s.chans[ch := s.chans[ch].(entered := s.chans[ch].entered + [Beacon])]
  {
    OwnersKnown(cfg, steps, s);
  }

  /** From any reachable state: a running writer can fail and clean up. Its channel is then closed, and
      the slot under its client's token is empty, if the client is registered. */
  lemma WriterGivesUp(cfg: Config, steps: seq<Step>, s: State, ch: ChanId) returns (t: State)
    requires After(cfg, steps) == Some(s) && ch in s.chans && s.chans[ch].writer.Running?
    ensures After(cfg, steps + [WriterFails(ch), WriterUnregisters(ch)]) == Some(t)
    ensures ch in t.chans && t.chans[ch] == s.chans[ch].(writer := Ended, closed := true)
    ensures var c := s.chans[ch].owner;
            && c in s.clients && c in t.clients
            && (IsRegistered(s, c) ==> t.clients[c] == s.clients[c].(slot := None))
  {
    OwnersKnown(cfg, steps, s);
    WriterBreaks(cfg, s, ch);
    var mid := Apply(cfg, s, WriterFails(ch));
    WriterCleansUp(cfg, mid, ch);
    t := Apply(cfg, mid, WriterUnregisters(ch));
    RunSnoc(cfg, steps, s, WriterFails(ch));
    RunSnoc(cfg, steps + [WriterFails(ch)], mid, WriterUnregisters(ch));
    assert steps + [WriterFails(ch)] + [WriterUnregisters(ch)] == steps + [WriterFails(ch), WriterUnregisters(ch)];
  }

  lemma WriterBreaks(cfg: Config, s: State, ch: ChanId)
    requires ch in s.chans && s.chans[ch].owner in s.clients && s.chans[ch].writer.Running?
    ensures Enabled(cfg, s, WriterFails(ch))
    ensures var t := Apply(cfg, s, WriterFails(ch));
            && t.chans == s.chans[ch := s.chans[ch].(writer := Failing, closed := true)]
            && t.clients == s.clients && t.index == s.index
  {
  }

  lemma WriterCleansUp(cfg: Config, s: State, ch: ChanId)
    requires ch in s.chans && s.chans[ch].owner in s.clients && s.chans[ch].writer.Failing?
    ensures Enabled(cfg, s, WriterUnregisters(ch))
    ensures var t, c := Apply(cfg, s, WriterUnregisters(ch)), s.chans[ch].owner;
            && t.chans == s.chans[ch := s.chans[ch].(writer := Ended)]
            && c in t.clients
            && (IsRegistered(s, c) ==> t.clients[c] == s.clients[c].(slot := None))
  {
  }

  /** From any reachable state: an answer that cannot be written ends the session there and then, with
      neither task spawned, while the slot stays as it is. */
  lemma AnswerMayFail(cfg: Config, steps: seq<Step>, s: State, ch: ChanId) returns (t: State)
    requires After(cfg, steps) == Some(s) && ch in s.chans && s.chans[ch].launcher.Answering?
    ensures After(cfg, steps + [AnswerFails(ch)]) == Some(t)
    ensures ch in t.chans && t.chans[ch] == s.chans[ch].(launcher := Launched, closed := true)
    ensures t.clients == s.clients
  {
    OwnersKnown(cfg, steps, s);
    RunSnoc(cfg, steps, s, AnswerFails(ch));
    t := Apply(cfg, s, AnswerFails(ch));
  }

  // ---------------------------------------------------------------- leaving

  lemma Unregisters(cfg: Config, s: State, c: ClientId)
    requires InLoop(s, c)
    ensures Enabled(cfg, s, Unregister(c))
    ensures var t := Apply(cfg, s, Unregister(c));
            c in t.clients && t.clients[c] == s.clients[c].(handler := Unregistered) && !IsRegistered(t, c)
  {
  }

  lemma Aborts(cfg: Config, s: State, c: ClientId)
    requires c in s.clients && s.clients[c].handler.Unregistered? && !IsRegistered(s, c)
    ensures Enabled(cfg, s, HandlerAborts(c))
    ensures var t := Apply(cfg, s, HandlerAborts(c));
            && c in t.clients && t.clients[c] == s.clients[c].(handler := Returning, tasks := {})
            && !IsRegistered(t, c) && s.clients[c].tasks <= t.aborted
  {
  }

  lemma Returns(cfg: Config, s: State, c: ClientId)
    requires c in s.clients && s.clients[c].handler.Returning? && !IsRegistered(s, c)
    ensures Enabled(cfg, s, HandlerReturns(c))
    ensures var t := Apply(cfg, s, HandlerReturns(c));
            && c in t.clients && t.clients[c] == s.clients[c].(handler := Gone)
            && !IsRegistered(t, c) && t.aborted == s.aborted
  {
  }

  /** From any reachable state: a client that is served and has no push in progress can leave. It is
      then unregistered, so in no later snapshot, and its tasks have been aborted. */
  lemma ClientLeaves(cfg: Config, steps: seq<Step>, s: State, c: ClientId) returns (t: State)
    requires After(cfg, steps) == Some(s) && c in s.clients && s.clients[c].handler == Serving
    requires PublisherOf(s, Connection(c)).pc.AtRest?
    ensures After(cfg, steps + [Unregister(c), HandlerAborts(c), HandlerReturns(c)]) == Some(t)
    ensures c in t.clients && t.clients[c].handler == Gone && !IsRegistered(t, c)
    ensures s.clients[c].tasks <= t.aborted && t.clients[c].tasks == {}
  {
    Unregisters(cfg, s, c);
    var s1 := Apply(cfg, s, Unregister(c));
    Aborts(cfg, s1, c);
    var s2 := Apply(cfg, s1, HandlerAborts(c));
    Returns(cfg, s2, c);
    RunThree(cfg, steps, s, Unregister(c), HandlerAborts(c), HandlerReturns(c));
    t := Apply(cfg, s2, HandlerReturns(c));
  }
}
