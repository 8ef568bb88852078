/** What the state of the broker is, told from the steps of a run: who is subscribed to what, who is
    in a snapshot, what is in a queue, and which pushes reach it. */
module History {
  import opened Wrappers
  import opened Bytes
  import opened Topic
  import opened PathMask
  import opened Server
  import opened Broker
  import opened Delivery
  import Clearing
  import DataStream

  // ---------------------------------------------------------------- subscriptions

  /** What a step adds to the filters of a client or takes from them. */
  function FiltersAfter(held: set<Text>, step: Step, c: ClientId): set<Text> {
    match step
    case Subscribe(client, raw, _) => if client == c then held + {Prepared(raw)} else held
    case Unsubscribe(client, raw, _) => if client == c then held - {Prepared(raw)} else held
    case _ => held
  }

  /** The filters a client has subscribed to and not given up since. */
  function SubscribedTo(steps: seq<Step>, c: ClientId): set<Text> {
    if steps == [] then {} else FiltersAfter(SubscribedTo(steps[..|steps| - 1], c), steps[|steps| - 1], c)
  }

  /** The filters the index holds for a client; none for one it does not know. */
  function FiltersOf(cfg: Config, s: State, c: ClientId): set<Text> {
    if IsRegistered(s, c) && cfg.digestOf(s.clients[c].token) in s.index.submap.filters
    then s.index.submap.filters[cfg.digestOf(s.clients[c].token)]
    else {}
  }

  lemma SubscribeFiltersOf(cfg: Config, s: State, step: Step, c: ClientId)
    requires Wired(cfg, s) && Enabled(cfg, s, step) && step.Subscribe? && IsRegistered(s, c)
    ensures FiltersOf(cfg, ApplyHandler(cfg, s, step), c) == FiltersAfter(FiltersOf(cfg, s, c), step, c)
  {
    assert IsRegistered(s, step.client);
  }

  lemma UnsubscribeFiltersOf(cfg: Config, s: State, step: Step, c: ClientId)
    requires Wired(cfg, s) && Enabled(cfg, s, step) && step.Unsubscribe? && IsRegistered(s, c)
    ensures FiltersOf(cfg, ApplyHandler(cfg, s, step), c) == FiltersAfter(FiltersOf(cfg, s, c), step, c)
  {
    assert IsRegistered(s, step.client);
  }

  lemma RegisterFiltersOf(cfg: Config, s: State, step: Step, c: ClientId)
    requires Wired(cfg, s) && Enabled(cfg, s, step) && step.Register?
    ensures var t := ApplyHandler(cfg, s, step);
            if c == step.client then IsRegistered(t, c) && FiltersOf(cfg, t, c) == {}
            else (IsRegistered(t, c) <==> IsRegistered(s, c)) && FiltersOf(cfg, t, c) == FiltersOf(cfg, s, c)
  {
    FreshToken(cfg, s, step.token);
  }

  lemma UnregisterFiltersOf(cfg: Config, s: State, step: Step, c: ClientId)
    requires Wired(cfg, s) && Enabled(cfg, s, step) && step.Unregister? && c in s.clients
    ensures var t := ApplyHandler(cfg, s, step);
            if c == step.client then !IsRegistered(t, c)
            else (IsRegistered(t, c) <==> IsRegistered(s, c)) && FiltersOf(cfg, t, c) == FiltersOf(cfg, s, c)
  {
    assert IsRegistered(s, step.client);
  }

  predicate ChangesIndex(step: Step) {
    step.Register? || step.Unregister? || step.Subscribe? || step.Unsubscribe?
  }

  /** All other steps leave the index and the tokens of clients alone. */
  lemma IndexKept(cfg: Config, s: State, step: Step)
    requires Enabled(cfg, s, step) && !ChangesIndex(step)
    ensures var t := Apply(cfg, s, step);
            && t.index == s.index
            && forall c :: c in s.clients ==> c in t.clients && t.clients[c].token == s.clients[c].token
  {
    if IsHandlerStep(step) {
      assert ApplyHandler(cfg, s, step).index == s.index;
    } else if IsPublisherStep(step) {
      PublisherFrame(cfg, s, step);
    } else {
      SessionFrame(cfg, s, step);
    }
  }

  lemma SameFilters(cfg: Config, s: State, t: State, c: ClientId)
    requires t.index == s.index && c in s.clients && c in t.clients && t.clients[c].token == s.clients[c].token
    ensures FiltersOf(cfg, t, c) == FiltersOf(cfg, s, c)
  {
  }

  /** What every step does to the filters of a registered client. */
  lemma FiltersStep(cfg: Config, s: State, step: Step, c: ClientId)
    requires Wired(cfg, s) && Enabled(cfg, s, step) && c in s.clients
    requires IsRegistered(Apply(cfg, s, step), c)
    ensures IsRegistered(s, c)
    ensures FiltersOf(cfg, Apply(cfg, s, step), c) == FiltersAfter(FiltersOf(cfg, s, c), step, c)
  {
    StepGrows(cfg, s, step);
    if !ChangesIndex(step) {
      IndexKept(cfg, s, step);
      SameFilters(cfg, s, Apply(cfg, s, step), c);
    } else if step.Register? {
      RegisterFiltersOf(cfg, s, step, c);
    } else if step.Unregister? {
      UnregisterFiltersOf(cfg, s, step, c);
    } else if step.Subscribe? {
      SubscribeFiltersOf(cfg, s, step, c);
    } else {
      UnsubscribeFiltersOf(cfg, s, step, c);
    }
  }

  /** A client that is not there yet has done nothing. */
  lemma {:induction false} NothingBefore(cfg: Config, steps: seq<Step>, s: State, c: ClientId)
    requires After(cfg, steps) == Some(s) && c !in s.clients
    ensures SubscribedTo(steps, c) == {}
    decreases steps
  {
    if steps != [] {
      var fewer := steps[..|steps| - 1];
      var before := After(cfg, fewer).value;
      ReachableInv(cfg, fewer);
      StepGrows(cfg, before, steps[|steps| - 1]);
      NothingBefore(cfg, fewer, before, c);
    }
  }

  /** The index holds for every registered client exactly what it has subscribed to. */
  lemma {:induction false} FiltersAreHistory(cfg: Config, steps: seq<Step>, s: State, c: ClientId)
    requires After(cfg, steps) == Some(s) && IsRegistered(s, c)
    ensures FiltersOf(cfg, s, c) == SubscribedTo(steps, c)
    decreases steps
  {
    if steps != [] {
      var fewer, step := steps[..|steps| - 1], steps[|steps| - 1];
      var before := After(cfg, fewer).value;
      ReachableInv(cfg, fewer);
      if c in before.clients {
        FiltersStep(cfg, before, step, c);
        FiltersAreHistory(cfg, fewer, before, c);
      } else {
        NothingBefore(cfg, fewer, before, c);
        EntersByRegister(cfg, before, step, c);
        RegisterFiltersOf(cfg, before, step, c);
      }
    }
  }

  lemma EntersByRegister(cfg: Config, s: State, step: Step, c: ClientId)
    requires Enabled(cfg, s, step) && c !in s.clients && c in Apply(cfg, s, step).clients
    ensures step.Register? && step.client == c
  {
    if IsHandlerStep(step) {
      HandlerFrame(cfg, s, step);
    } else if IsPublisherStep(step) {
      PublisherFrame(cfg, s, step);
    } else {
      SessionFrame(cfg, s, step);
    }
  }

  // ---------------------------------------------------------------- snapshots

  /** The message a publish step pushes, and to whom: every registered client with a filter that
      matches the topic, and nobody else. */
  lemma SnapshotIff(cfg: Config, s: State, step: Step)
    requires Inv(cfg, s) && Enabled(cfg, s, step) && step.Publish?
    ensures var log := PublisherOf(Apply(cfg, s, step), step.publisher).log;
            && |log| == |PublisherOf(s, step.publisher).log| + 1
            && log[..|log| - 1] == PublisherOf(s, step.publisher).log
            && var push := log[|log| - 1];
               && (forall raw, data :: step.frame == raw + [NUL] + data && NulFree(raw) ==>
                     push.message == DataStream.Message(step.priority, Prepared(raw), data))
               && forall c :: c in push.subscribers <==>
                    && IsRegistered(s, c)
                    && cfg.digestOf(s.clients[c].token) in s.index.submap.filters
                    && exists f :: f in s.index.submap.filters[cfg.digestOf(s.clients[c].token)]
                                   && cfg.matches(f, push.message.topic)
  {
    var push := PublishedBy(cfg, s, step);
    forall raw, data | step.frame == raw + [NUL] + data && NulFree(raw)
      ensures push.message == DataStream.Message(step.priority, Prepared(raw), data)
    {
      CutAtNulJoint(raw, data);
      VerdictIff(step.writeAcl, step.maxDepth, step.priority, raw, data);
    }
    forall c
      ensures c in push.subscribers <==>
              && IsRegistered(s, c)
              && cfg.digestOf(s.clients[c].token) in s.index.submap.filters
              && exists f :: f in s.index.submap.filters[cfg.digestOf(s.clients[c].token)]
                             && cfg.matches(f, push.message.topic)
    {
      FoundIff(cfg, s, push.message.topic, c);
    }
  }

  /** The push a publish step logs. */
  function PublishedBy(cfg: Config, s: State, step: Step): Push
    requires Enabled(cfg, s, step) && step.Publish?
  {
    var log := ApplyPublisher(cfg, s, step).publishers[step.publisher].log;
    log[|log| - 1]
  }

  lemma FoundIff(cfg: Config, s: State, topic: Text, c: ClientId)
    requires Wired(cfg, s)
    ensures c in Subscribers(cfg, s, topic) <==>
            && IsRegistered(s, c)
            && cfg.digestOf(s.clients[c].token) in s.index.submap.filters
            && exists f :: f in s.index.submap.filters[cfg.digestOf(s.clients[c].token)] && cfg.matches(f, topic)
  {
    var m := s.index.submap;
    if c in Subscribers(cfg, s, topic) {
      var d :| d in m.clients && d in m.filters && m.clients[d] == c
               && exists f :: f in m.filters[d] && cfg.matches(f, topic);
      var token :| token in s.index.byToken && cfg.digestOf(token) == d;
      assert s.index.byToken[token] == c;
    }
    if IsRegistered(s, c) {
      var d := cfg.digestOf(s.clients[c].token);
      assert d in m.clients && m.clients[d] == c;
    }
  }

  /** Over every run: a push goes to the clients that are registered when it begins and have
      subscribed, without having unsubscribed since, to a filter that matches its topic. */
  lemma SnapshotIsSubscribed(cfg: Config, steps: seq<Step>, s: State, step: Step, c: ClientId)
    requires After(cfg, steps) == Some(s) && Enabled(cfg, s, step) && step.Publish?
    ensures var log := PublisherOf(Apply(cfg, s, step), step.publisher).log;
            && log != []
            && var push := log[|log| - 1];
               c in push.subscribers <==>
               IsRegistered(s, c) && exists f :: f in SubscribedTo(steps, c) && cfg.matches(f, push.message.topic)
  {
    ReachableInv(cfg, steps);
    SnapshotIff(cfg, s, step);
    if IsRegistered(s, c) {
      FiltersAreHistory(cfg, steps, s, c);
    }
  }

  // ---------------------------------------------------------------- queues

  /** What a run has put into a queue: a beacon at each beat, and a push at each send for which the
      channel was open. */
  function QueueOf(cfg: Config, steps: seq<Step>, ch: ChanId): seq<Entry>
    decreases steps
  {
    if steps == [] then []
    else
      var fewer := steps[..|steps| - 1];
      var before := After(cfg, fewer);
      QueueOf(cfg, fewer, ch) + if before.Some? then Queued(before.value, steps[|steps| - 1], ch) else []
  }

  function Queued(s: State, step: Step, ch: ChanId): seq<Entry> {
    match step
    case Beat(chan) => if chan == ch then [Beacon] else []
    case Send(p) => if ClosedAt(s, p, ch) == Some(false) then [Note(p, |s.publishers[p].log| - 1)] else []
    case _ => []
  }

  /** Whether the channel a publisher is about to send into is closed, if it is `ch`. */
  function ClosedAt(s: State, p: PubId, ch: ChanId): Option<bool> {
    if p in s.publishers && s.publishers[p].pc.Sending? && s.publishers[p].pc.chan == ch && ch in s.chans
       && s.publishers[p].log != []
    then Some(s.chans[ch].closed)
    else None
  }

  /** Whether the channel a publisher looks at has room, if it is `ch`. */
  function RoomAt(cfg: Config, s: State, p: PubId, ch: ChanId): Option<bool> {
    if p in s.publishers && s.publishers[p].pc.Checking? && s.publishers[p].pc.chan == ch && ch in s.chans
       && s.publishers[p].log != []
    then Some(|s.chans[ch].entered| - s.chans[ch].taken < cfg.capacity)
    else None
  }

  lemma SendQueues(cfg: Config, s: State, step: Step, ch: ChanId)
    requires Enabled(cfg, s, step) && step.Send? && ch in s.chans
    ensures var t := ApplyPublisher(cfg, s, step);
            ch in t.chans && t.chans[ch].entered == s.chans[ch].entered + Queued(s, step, ch)
  {
    assert s.chans[ch].entered + [] == s.chans[ch].entered;
  }

  lemma BeatQueues(cfg: Config, s: State, step: Step, ch: ChanId)
    requires Enabled(cfg, s, step) && step.Beat? && ch in s.chans
    ensures var t := ApplySession(s, step);
            ch in t.chans && t.chans[ch].entered == s.chans[ch].entered + Queued(s, step, ch)
  {
    assert s.chans[ch].entered + [] == s.chans[ch].entered;
  }

  lemma QueueStep(cfg: Config, s: State, step: Step, ch: ChanId)
    requires Wired(cfg, s) && Enabled(cfg, s, step) && ch in s.chans
    ensures ch in Apply(cfg, s, step).chans
    ensures Apply(cfg, s, step).chans[ch].entered == s.chans[ch].entered + Queued(s, step, ch)
  {
    if step.Send? {
      SendQueues(cfg, s, step, ch);
    } else if step.Beat? {
      BeatQueues(cfg, s, step, ch);
    } else {
      EnteredSame(cfg, s, step, ch);
      assert s.chans[ch].entered + [] == s.chans[ch].entered;
    }
  }

  /** A queue that is not there yet has been given nothing. */
  lemma {:induction false} NothingQueued(cfg: Config, steps: seq<Step>, s: State, ch: ChanId)
    requires After(cfg, steps) == Some(s) && ch !in s.chans
    ensures QueueOf(cfg, steps, ch) == []
    decreases steps
  {
    if steps != [] {
      var fewer := steps[..|steps| - 1];
      var before := After(cfg, fewer).value;
      ReachableInv(cfg, fewer);
      StepGrows(cfg, before, steps[|steps| - 1]);
      NothingQueued(cfg, fewer, before, ch);
      assert Queued(before, steps[|steps| - 1], ch) == [];
    }
  }

  /** Every queue holds exactly what the run has put into it, in order. */
  lemma {:induction false} QueueIsHistory(cfg: Config, steps: seq<Step>, s: State, ch: ChanId)
    requires After(cfg, steps) == Some(s) && ch in s.chans
    ensures s.chans[ch].entered == QueueOf(cfg, steps, ch)
    decreases steps
  {
    if steps != [] {
      var fewer, step := steps[..|steps| - 1], steps[|steps| - 1];
      var before := After(cfg, fewer).value;
      ReachableInv(cfg, fewer);
      if ch in before.chans {
        QueueIsHistory(cfg, fewer, before, ch);
        QueueStep(cfg, before, step, ch);
      } else {
        StepGrows(cfg, before, step);
        NothingQueued(cfg, fewer, before, ch);
        NewQueue(cfg, before, step, ch);
      }
    }
  }

  lemma NewQueue(cfg: Config, s: State, step: Step, ch: ChanId)
    requires Enabled(cfg, s, step) && ch !in s.chans && ch in Apply(cfg, s, step).chans
    ensures step.OpenChannel? && step.chan == ch && Queued(s, step, ch) == []
  {
    if IsHandlerStep(step) {
      HandlerFrame(cfg, s, step);
    } else if IsPublisherStep(step) {
      PublisherFrame(cfg, s, step);
    } else {
      SessionFrame(cfg, s, step);
    }
  }

  // ---------------------------------------------------------------- sessions

  /** How often a step occurs in a run. */
  function Times(steps: seq<Step>, step: Step): nat {
    if steps == [] then 0 else Times(steps[..|steps| - 1], step) + if steps[|steps| - 1] == step then 1 else 0
  }

  /** What has become of a session. */
  ghost predicate Told(steps: seq<Step>, ch: ChanId, chan: Chan) {
    && (chan.closed <==> AnswerFails(ch) in steps || WriterEnds(ch) in steps || WriterFails(ch) in steps)
    && chan.taken == Times(steps, Dequeue(ch))
  }

  lemma ToldStep(steps: seq<Step>, step: Step, ch: ChanId, before: Chan, after: Chan)
    requires Told(steps, ch, before)
    requires after.closed <==>
             before.closed || step == AnswerFails(ch) || step == WriterEnds(ch) || step == WriterFails(ch)
    requires after.taken == before.taken + if step == Dequeue(ch) then 1 else 0
    ensures Told(steps + [step], ch, after)
  {
    assert (steps + [step])[..|steps|] == steps;
  }

  lemma ChanStep(cfg: Config, s: State, step: Step, ch: ChanId)
    requires Enabled(cfg, s, step) && ch in s.chans
    ensures ch in Apply(cfg, s, step).chans
    ensures var before, after := s.chans[ch], Apply(cfg, s, step).chans[ch];
            && after.owner == before.owner
            && (after.closed <==>
                before.closed || step == AnswerFails(ch) || step == WriterEnds(ch) || step == WriterFails(ch))
            && after.taken == before.taken + if step == Dequeue(ch) then 1 else 0
  {
    if IsHandlerStep(step) {
      HandlerFrame(cfg, s, step);
    } else if IsPublisherStep(step) {
      PublisherFrame(cfg, s, step);
    } else {
      SessionFrame(cfg, s, step);
      SessionChanStep(cfg, s, step, ch);
    }
  }

  lemma SessionChanStep(cfg: Config, s: State, step: Step, ch: ChanId)
    requires Enabled(cfg, s, step) && !IsHandlerStep(step) && !IsPublisherStep(step) && ch in s.chans
    ensures ch in ApplySession(s, step).chans
    ensures var before, after := s.chans[ch], ApplySession(s, step).chans[ch];
            && after.owner == before.owner
            && (after.closed <==>
                before.closed || step == AnswerFails(ch) || step == WriterEnds(ch) || step == WriterFails(ch))
            && after.taken == before.taken + if step == Dequeue(ch) then 1 else 0
  {
  }

  /** Steps of a session need the session. */
  lemma SessionNeeded(cfg: Config, s: State, step: Step, ch: ChanId)
    requires Enabled(cfg, s, step)
    requires step in [AnswerFails(ch), WriterEnds(ch), WriterFails(ch), Dequeue(ch), RegisterPinger(ch),
                      RegisterWriter(ch)]
    ensures ch in s.chans
  {
  }

  lemma {:induction false} NothingTold(cfg: Config, steps: seq<Step>, s: State, ch: ChanId, step: Step)
    requires After(cfg, steps) == Some(s) && ch !in s.chans
    requires step in [AnswerFails(ch), WriterEnds(ch), WriterFails(ch), Dequeue(ch)]
    ensures step !in steps && Times(steps, step) == 0
    decreases steps
  {
    if steps != [] {
      var fewer, last := steps[..|steps| - 1], steps[|steps| - 1];
      var before := After(cfg, fewer).value;
      if ch in before.chans {
        ChanStep(cfg, before, last, ch);
      }
      NothingTold(cfg, fewer, before, ch, step);
      assert steps == fewer + [last];
      if last == step {
        SessionNeeded(cfg, before, last, ch);
      }
    }
  }

  /** A channel is closed exactly when its launcher failed to answer, or its writer ended or failed;
      what its writer has taken is counted by its dequeues. */
  lemma {:induction false} SessionIsHistory(cfg: Config, steps: seq<Step>, s: State, ch: ChanId)
    requires After(cfg, steps) == Some(s) && ch in s.chans
    ensures Told(steps, ch, s.chans[ch])
    decreases steps
  {
    if steps != [] {
      var fewer, step := steps[..|steps| - 1], steps[|steps| - 1];
      var before := After(cfg, fewer).value;
      assert steps == fewer + [step];
      if ch in before.chans {
        SessionIsHistory(cfg, fewer, before, ch);
        ChanStep(cfg, before, step, ch);
        ToldStep(fewer, step, ch, before.chans[ch], s.chans[ch]);
      } else {
        NewQueue(cfg, before, step, ch);
        NothingTold(cfg, fewer, before, ch, AnswerFails(ch));
        NothingTold(cfg, fewer, before, ch, WriterEnds(ch));
        NothingTold(cfg, fewer, before, ch, WriterFails(ch));
        NothingTold(cfg, fewer, before, ch, Dequeue(ch));
        OpensChannel(cfg, before, step);
      }
    }
  }

  /** Opening a data channel puts a new, open and empty one into the slot of the token's client. */
  lemma OpensChannel(cfg: Config, s: State, step: Step)
    requires Enabled(cfg, s, step) && step.OpenChannel?
    ensures var t, c := Apply(cfg, s, step), s.index.byToken[step.token];
            && c in t.clients && t.clients[c].slot == Some(step.chan)
            && step.chan in t.chans && t.chans[step.chan].owner == c
            && t.chans[step.chan].entered == [] && t.chans[step.chan].taken == 0 && !t.chans[step.chan].closed
  {
  }

  /** What every step does to a slot: an opened channel fills it, a clearing by the client's token
      empties it while the client is registered, and nothing else touches it. */
  lemma SlotStep(cfg: Config, s: State, step: Step, c: ClientId)
    requires Wired(cfg, s) && Enabled(cfg, s, step) && c in s.clients
    ensures c in Apply(cfg, s, step).clients
    ensures Apply(cfg, s, step).clients[c].slot
         == if step.OpenChannel? && s.index.byToken[step.token] == c then Some(step.chan)
            else if Clearing.IsClearing(step) && IsRegistered(s, c)
                    && s.clients[c].token == Clearing.ClearedToken(cfg, s, step) then None
            else s.clients[c].slot
  {
    if Clearing.IsClearing(step) {
      Clearing.SlotAfter(cfg, s, step, c);
    } else if step.OpenChannel? {
      OpensChannel(cfg, s, step);
    } else {
      SlotKept(cfg, s, step, c);
    }
  }

  lemma SlotKept(cfg: Config, s: State, step: Step, c: ClientId)
    requires Wired(cfg, s) && Enabled(cfg, s, step) && c in s.clients
    requires !Clearing.IsClearing(step) && !step.OpenChannel?
    ensures c in Apply(cfg, s, step).clients && Apply(cfg, s, step).clients[c].slot == s.clients[c].slot
  {
    if IsHandlerStep(step) {
      SlotKeptByHandler(cfg, s, step, c);
    } else if IsPublisherStep(step) {
      PublisherFrame(cfg, s, step);
    } else {
      SlotKeptBySession(cfg, s, step, c);
    }
  }

  lemma SlotKeptByHandler(cfg: Config, s: State, step: Step, c: ClientId)
    requires Wired(cfg, s) && Enabled(cfg, s, step) && IsHandlerStep(step) && c in s.clients
    requires !Clearing.IsClearing(step)
    ensures c in ApplyHandler(cfg, s, step).clients
    ensures ApplyHandler(cfg, s, step).clients[c].slot == s.clients[c].slot
  {
  }

  lemma SlotKeptBySession(cfg: Config, s: State, step: Step, c: ClientId)
    requires Wired(cfg, s) && Enabled(cfg, s, step) && !IsHandlerStep(step) && !IsPublisherStep(step)
    requires c in s.clients && !Clearing.IsClearing(step) && !step.OpenChannel?
    ensures c in ApplySession(s, step).clients
    ensures ApplySession(s, step).clients[c].slot == s.clients[c].slot
  {
  }

  // ---------------------------------------------------------------- pushes that reach a queue

  /** The pushes that found `ch` and were refused there: no room when they looked, or closed when
      they sent. */
  function RefusedOn(cfg: Config, steps: seq<Step>, p: PubId, ch: ChanId): seq<nat>
    decreases steps
  {
    if steps == [] then []
    else
      var fewer := steps[..|steps| - 1];
      var before := After(cfg, fewer);
      RefusedOn(cfg, fewer, p, ch)
      + if before.Some? then RefusedIn(cfg, before.value, steps[|steps| - 1], p, ch) else []
  }

  function RefusedIn(cfg: Config, s: State, step: Step, p: PubId, ch: ChanId): seq<nat> {
    if (step == Check(p) && RoomAt(cfg, s, p, ch) == Some(false))
       || (step == Send(p) && ClosedAt(s, p, ch) == Some(true))
    then [|PublisherOf(s, p).log| - 1]
    else []
  }

  /** The attempts on record that did not succeed. */
  function FailedOn(attempts: seq<Attempt>, ch: ChanId): seq<nat> {
    if attempts == [] then []
    else
      var a := attempts[|attempts| - 1];
      FailedOn(attempts[..|attempts| - 1], ch) + if a.chan == ch && !a.sent then [a.push] else []
  }

  lemma FailedStep(attempts: seq<Attempt>, a: Attempt, ch: ChanId)
    ensures FailedOn(attempts + [a], ch) == FailedOn(attempts, ch) + if a.chan == ch && !a.sent then [a.push] else []
    ensures attempts + [] == attempts && FailedOn(attempts, ch) + [] == FailedOn(attempts, ch)
  {
    assert (attempts + [a])[..|attempts|] == attempts;
  }

  /** What a push records of its attempts when it checks for room and when it sends. */
  lemma AttemptMade(cfg: Config, s: State, step: Step)
    requires Enabled(cfg, s, step) && (step.Check? || step.Send?)
    ensures var pub := s.publishers[step.publisher];
            && pub == PublisherOf(s, step.publisher) && pub.pc.chan in s.chans
            && var ok := if step.Check? then !Full(cfg, s.chans[pub.pc.chan]) else !s.chans[pub.pc.chan].closed;
               PublisherOf(Apply(cfg, s, step), step.publisher).attempts
               == pub.attempts + if step.Check? && ok then [] else [Attempt(pub.pc.chan, |pub.log| - 1, ok)]
  {
  }

  lemma RefusedAttempt(cfg: Config, s: State, step: Step, ch: ChanId)
    requires Enabled(cfg, s, step) && (step.Check? || step.Send?)
    ensures var pub := s.publishers[step.publisher];
            && pub.pc.chan in s.chans
            && var ok := if step.Check? then !Full(cfg, s.chans[pub.pc.chan]) else !s.chans[pub.pc.chan].closed;
               RefusedIn(cfg, s, step, step.publisher, ch) == if pub.pc.chan == ch && !ok then [|pub.log| - 1] else []
  {
  }

  lemma AttemptRefuses(cfg: Config, s: State, step: Step, ch: ChanId)
    requires Enabled(cfg, s, step) && (step.Check? || step.Send?)
    ensures FailedOn(PublisherOf(Apply(cfg, s, step), step.publisher).attempts, ch)
         == FailedOn(PublisherOf(s, step.publisher).attempts, ch) + RefusedIn(cfg, s, step, step.publisher, ch)
  {
    AttemptMade(cfg, s, step);
    RefusedAttempt(cfg, s, step, ch);
    var pub := s.publishers[step.publisher];
    var ok := if step.Check? then !Full(cfg, s.chans[pub.pc.chan]) else !s.chans[pub.pc.chan].closed;
    FailedStep(pub.attempts, Attempt(pub.pc.chan, |pub.log| - 1, ok), ch);
  }

  lemma AttemptsKept(cfg: Config, s: State, step: Step, p: PubId)
    requires Enabled(cfg, s, step) && step != Check(p) && step != Send(p)
    ensures PublisherOf(Apply(cfg, s, step), p).attempts == PublisherOf(s, p).attempts
  {
    if !IsPublisherStep(step) || step.publisher != p {
      OthersUnchanged(cfg, s, step, p);
    }
  }

  lemma RefusedStep(cfg: Config, s: State, step: Step, p: PubId, ch: ChanId)
    requires Enabled(cfg, s, step)
    ensures FailedOn(PublisherOf(Apply(cfg, s, step), p).attempts, ch)
         == FailedOn(PublisherOf(s, p).attempts, ch) + RefusedIn(cfg, s, step, p, ch)
  {
    var failed := FailedOn(PublisherOf(s, p).attempts, ch);
    assert failed + [] == failed;
    if step == Check(p) || step == Send(p) {
      AttemptRefuses(cfg, s, step, ch);
    } else {
      AttemptsKept(cfg, s, step, p);
    }
  }

  lemma {:induction false} RefusedIsFailed(cfg: Config, steps: seq<Step>, s: State, p: PubId, ch: ChanId)
    requires After(cfg, steps) == Some(s)
    ensures RefusedOn(cfg, steps, p, ch) == FailedOn(PublisherOf(s, p).attempts, ch)
    decreases steps
  {
    if steps != [] {
      var fewer := steps[..|steps| - 1];
      var before := After(cfg, fewer).value;
      RefusedIsFailed(cfg, fewer, before, p, ch);
      RefusedStep(cfg, before, steps[|steps| - 1], p, ch);
    }
  }

  /** Every attempt succeeded or failed; pushes of disciplined attempts not both. */
  lemma {:induction false} SentOrFailed(attempts: seq<Attempt>, ch: ChanId)
    ensures forall n :: n in TriedOn(attempts, ch) <==> n in SentOn(attempts, ch) || n in FailedOn(attempts, ch)
    ensures forall n :: n in FailedOn(attempts, ch) ==>
              exists i :: 0 <= i < |attempts| && attempts[i] == Attempt(ch, n, false)
  {
    if attempts != [] {
      var front := attempts[..|attempts| - 1];
      SentOrFailed(front, ch);
      forall n | n in FailedOn(attempts, ch)
        ensures exists i :: 0 <= i < |attempts| && attempts[i] == Attempt(ch, n, false)
      {
        if n in FailedOn(front, ch) {
          var i :| 0 <= i < |front| && front[i] == Attempt(ch, n, false);
          assert attempts[i] == Attempt(ch, n, false);
        } else {
          assert attempts[|attempts| - 1] == Attempt(ch, n, false);
        }
      }
    }
  }

  lemma NotBoth(attempts: seq<Attempt>, ch: ChanId, n: nat)
    requires Disciplined(attempts)
    ensures !(n in SentOn(attempts, ch) && n in FailedOn(attempts, ch))
  {
    TriedFrom(attempts, ch);
    SentOrFailed(attempts, ch);
    if n in SentOn(attempts, ch) {
      var i :| 0 <= i < |attempts| && attempts[i] == Attempt(ch, n, true);
      forall j | 0 <= j < |attempts|
        ensures attempts[j] != Attempt(ch, n, false)
      {
      }
    }
  }

  /** A push whose visit found a channel is in its queue, unless it was refused there for want of
      room or because the channel was closed, or has not come to its end there: in every
      interleaving, and never two of these at once. */
  lemma FoundReachesQueue(cfg: Config, steps: seq<Step>, s: State, p: PubId, ch: ChanId, n: nat)
    requires After(cfg, steps) == Some(s) && ch in s.chans
    ensures n in FoundOn(cfg, steps, p, ch) <==>
            || n in EnteredBy(s.chans[ch].entered, p)
            || n in RefusedOn(cfg, steps, p, ch)
            || n in Undecided(PublisherOf(s, p), ch)
    ensures !(n in EnteredBy(s.chans[ch].entered, p) && n in RefusedOn(cfg, steps, p, ch))
  {
    ReachableInv(cfg, steps);
    var pub := PublisherOf(s, p);
    assert PubDelivery(s, p, pub);
    assert EnteredBy(s.chans[ch].entered, p) == SentOn(pub.attempts, ch);
    FoundIsTried(cfg, steps, s, p, ch);
    RefusedIsFailed(cfg, steps, s, p, ch);
    SentOrFailed(pub.attempts, ch);
    NotBoth(pub.attempts, ch, n);
  }

  lemma FoundAtRest(cfg: Config, steps: seq<Step>, s: State, p: PubId, ch: ChanId, n: nat)
    requires After(cfg, steps) == Some(s) && ch in s.chans && PublisherOf(s, p).pc.AtRest?
    requires n in FoundOn(cfg, steps, p, ch)
    ensures n in EnteredBy(s.chans[ch].entered, p) <==> n !in RefusedOn(cfg, steps, p, ch)
  {
    FoundReachesQueue(cfg, steps, s, p, ch, n);
    assert n !in Undecided(PublisherOf(s, p), ch);
  }

  /** What the slot of `c` held when the latest push of `p` visited it, if it has. */
  function SlotAtVisit(cfg: Config, steps: seq<Step>, p: PubId, c: ClientId): Option<Option<ChanId>>
    decreases steps
  {
    if steps == [] then None
    else
      var fewer, step := steps[..|steps| - 1], steps[|steps| - 1];
      var before := After(cfg, fewer);
      if step.Publish? && step.publisher == p then None
      else if step == Visit(p, c) && before.Some? && c in before.value.clients then Some(before.value.clients[c].slot)
      else SlotAtVisit(cfg, fewer, p, c)
  }

  lemma {:induction false} VisitedHasSlot(cfg: Config, steps: seq<Step>, s: State, p: PubId, c: ClientId)
    requires After(cfg, steps) == Some(s)
    ensures c in VisitedIn(steps, p) <==> SlotAtVisit(cfg, steps, p, c).Some?
    decreases steps
  {
    if steps != [] {
      var fewer, step := steps[..|steps| - 1], steps[|steps| - 1];
      VisitedHasSlot(cfg, fewer, After(cfg, fewer).value, p, c);
      if step == Visit(p, c) {
        VisitNeedsClient(cfg, After(cfg, fewer).value, step);
      }
    }
  }

  lemma VisitNeedsClient(cfg: Config, s: State, step: Step)
    requires Enabled(cfg, s, step) && step.Visit?
    ensures step.client in s.clients
  {
  }

  /** The latest push of `p` found `ch`. */
  predicate LatestFound(cfg: Config, steps: seq<Step>, s: State, p: PubId, ch: ChanId) {
    var log := PublisherOf(s, p).log;
    log != [] && ch in s.chans && |log| - 1 in FoundOn(cfg, steps, p, ch)
  }

  lemma {:induction false} SlotAtVisitIsFound(cfg: Config, steps: seq<Step>, s: State, p: PubId, c: ClientId,
                                              ch: ChanId)
    requires After(cfg, steps) == Some(s) && SlotAtVisit(cfg, steps, p, c) == Some(Some(ch))
    ensures LatestFound(cfg, steps, s, p, ch)
    decreases steps
  {
    var fewer, step := steps[..|steps| - 1], steps[|steps| - 1];
    var before := After(cfg, fewer).value;
    assert LatestFound(cfg, fewer + [step], Apply(cfg, before, step), p, ch) by {
      SlotFrom(cfg, steps, p, c, ch);
      if step == Visit(p, c) {
        FoundByVisit(cfg, fewer, before, step, ch);
      } else {
        SlotAtVisitIsFound(cfg, fewer, before, p, c, ch);
        FoundStays(cfg, fewer, before, step, p, ch);
      }
    }
    assert steps == fewer + [step];
  }

  lemma SlotFrom(cfg: Config, steps: seq<Step>, p: PubId, c: ClientId, ch: ChanId)
    requires After(cfg, steps).Some? && SlotAtVisit(cfg, steps, p, c) == Some(Some(ch))
    ensures steps != []
    ensures var fewer, step := steps[..|steps| - 1], steps[|steps| - 1];
            if step == Visit(p, c) then
              var before := After(cfg, fewer);
              before.Some? && c in before.value.clients && before.value.clients[c].slot == Some(ch)
            else !(step.Publish? && step.publisher == p) && SlotAtVisit(cfg, fewer, p, c) == Some(Some(ch))
  {
  }

  lemma FoundStays(cfg: Config, steps: seq<Step>, s: State, step: Step, p: PubId, ch: ChanId)
    requires After(cfg, steps) == Some(s) && Enabled(cfg, s, step) && LatestFound(cfg, steps, s, p, ch)
    requires !(step.Publish? && step.publisher == p)
    ensures LatestFound(cfg, steps + [step], Apply(cfg, s, step), p, ch)
  {
    var n := |PublisherOf(s, p).log| - 1;
    assert n in FoundOn(cfg, steps + [step], p, ch) by {
      FoundSnoc(cfg, steps, s, step, p, ch);
    }
    LogAndChans(cfg, steps, s, step, p);
  }

  lemma FoundByVisit(cfg: Config, steps: seq<Step>, s: State, step: Step, ch: ChanId)
    requires After(cfg, steps) == Some(s) && Enabled(cfg, s, step) && step.Visit?
    requires step.client in s.clients && s.clients[step.client].slot == Some(ch)
    ensures LatestFound(cfg, steps + [step], Apply(cfg, s, step), step.publisher, ch)
  {
    VisitFinds(cfg, steps, s, step, ch);
    var n := |PublisherOf(s, step.publisher).log| - 1;
    assert n in FoundOn(cfg, steps + [step], step.publisher, ch) by {
      FoundSnoc(cfg, steps, s, step, step.publisher, ch);
    }
    LogAndChans(cfg, steps, s, step, step.publisher);
  }

  lemma FoundSnoc(cfg: Config, steps: seq<Step>, s: State, step: Step, p: PubId, ch: ChanId)
    requires After(cfg, steps) == Some(s)
    ensures FoundOn(cfg, steps + [step], p, ch) == FoundOn(cfg, steps, p, ch) + FoundIn(s, step, p, ch)
  {
    assert (steps + [step])[..|steps|] == steps;
  }

  lemma LogAndChans(cfg: Config, steps: seq<Step>, s: State, step: Step, p: PubId)
    requires After(cfg, steps) == Some(s) && Enabled(cfg, s, step)
    ensures !(step.Publish? && step.publisher == p) ==>
              PublisherOf(Apply(cfg, s, step), p).log == PublisherOf(s, p).log
    ensures forall ch :: ch in s.chans ==> ch in Apply(cfg, s, step).chans
  {
    ReachableInv(cfg, steps);
    StepGrows(cfg, s, step);
    LeftStep(cfg, s, step, p);
  }

  lemma VisitFinds(cfg: Config, steps: seq<Step>, s: State, step: Step, ch: ChanId)
    requires After(cfg, steps) == Some(s) && Enabled(cfg, s, step) && step.Visit?
    requires step.client in s.clients && s.clients[step.client].slot == Some(ch)
    ensures var log := PublisherOf(s, step.publisher).log;
            && log != [] && ch in s.chans
            && FoundIn(s, step, step.publisher, ch) == [|log| - 1]
  {
    ReachableInv(cfg, steps);
    assert PubDelivery(s, step.publisher, PublisherOf(s, step.publisher));
  }

  /** Every client of a snapshot gets the message, in every interleaving: when the push has returned,
      the client either had no data channel when it was visited, or the message is in the queue of
      the channel it had, or that channel was full when looked at or closed when sent to. */
  lemma SubscriberReached(cfg: Config, steps: seq<Step>, s: State, p: PubId, c: ClientId)
    requires After(cfg, steps) == Some(s)
    requires var pub := PublisherOf(s, p);
             pub.pc.AtRest? && pub.log != [] && c in pub.log[|pub.log| - 1].subscribers
    ensures var slot, n := SlotAtVisit(cfg, steps, p, c), |PublisherOf(s, p).log| - 1;
            && slot.Some?
            && (slot.value.Some? ==>
                  && slot.value.value in s.chans
                  && (n in EnteredBy(s.chans[slot.value.value].entered, p)
                      <==> n !in RefusedOn(cfg, steps, p, slot.value.value)))
  {
    SubscriberVisited(cfg, steps, s, p, c);
    var slot := SlotAtVisit(cfg, steps, p, c).value;
    if slot.Some? {
      SlotReached(cfg, steps, s, p, c, slot.value);
    }
  }

  lemma SubscriberVisited(cfg: Config, steps: seq<Step>, s: State, p: PubId, c: ClientId)
    requires After(cfg, steps) == Some(s)
    requires var pub := PublisherOf(s, p);
             pub.pc.AtRest? && pub.log != [] && c in pub.log[|pub.log| - 1].subscribers
    ensures SlotAtVisit(cfg, steps, p, c).Some?
  {
    EveryoneVisited(cfg, steps, s, p);
    VisitedHasSlot(cfg, steps, s, p, c);
  }

  lemma SlotReached(cfg: Config, steps: seq<Step>, s: State, p: PubId, c: ClientId, ch: ChanId)
    requires After(cfg, steps) == Some(s) && PublisherOf(s, p).pc.AtRest?
    requires SlotAtVisit(cfg, steps, p, c) == Some(Some(ch))
    ensures PublisherOf(s, p).log != [] && ch in s.chans
    ensures var n := |PublisherOf(s, p).log| - 1;
            n in EnteredBy(s.chans[ch].entered, p) <==> n !in RefusedOn(cfg, steps, p, ch)
  {
    var n := |PublisherOf(s, p).log| - 1;
    assert n in FoundOn(cfg, steps, p, ch) && ch in s.chans && n >= 0 by {
      SlotAtVisitIsFound(cfg, steps, s, p, c, ch);
    }
    FoundAtRest(cfg, steps, s, p, ch, n);
  }

  /** A push in progress can always go on, but when it sends into an open queue that has meanwhile
      become full: then it waits for the writer to take an item. */
  lemma PushMovesIff(cfg: Config, steps: seq<Step>, s: State, p: PubId)
    requires After(cfg, steps) == Some(s) && !PublisherOf(s, p).pc.AtRest?
    ensures (exists step :: IsPublisherStep(step) && step.publisher == p && Enabled(cfg, s, step)) <==>
            !WaitsToSend(cfg, s, p)
  {
    assert PubWired(s, PublisherOf(s, p)) by {
      ReachableInv(cfg, steps);
      assert PubDelivery(s, p, PublisherOf(s, p));
    }
    if WaitsToSend(cfg, s, p) {
      forall step | IsPublisherStep(step) && step.publisher == p
        ensures !Enabled(cfg, s, step)
      {
        WaitingIsStuck(cfg, s, step);
      }
    } else {
      NextEnabled(cfg, s, p);
    }
  }

  predicate WaitsToSend(cfg: Config, s: State, p: PubId) {
    var pc := PublisherOf(s, p).pc;
    && pc.Sending? && pc.chan in s.chans && !s.chans[pc.chan].closed
    && |s.chans[pc.chan].entered| - s.chans[pc.chan].taken >= cfg.capacity
  }

  lemma WaitingIsStuck(cfg: Config, s: State, step: Step)
    requires IsPublisherStep(step) && WaitsToSend(cfg, s, step.publisher)
    ensures !Enabled(cfg, s, step)
  {
  }

  lemma NextEnabled(cfg: Config, s: State, p: PubId)
    requires p in s.publishers && !s.publishers[p].pc.AtRest?
    requires PubWired(s, s.publishers[p]) && !WaitsToSend(cfg, s, p)
    ensures IsPublisherStep(NextOf(s, p)) && NextOf(s, p).publisher == p && Enabled(cfg, s, NextOf(s, p))
  {
  }

  /** A step publisher `p` may take next. */
  ghost function NextOf(s: State, p: PubId): Step
    requires p in s.publishers && !s.publishers[p].pc.AtRest?
  {
    match s.publishers[p].pc
    case Visiting(left) => if left == {} then Finish(p) else var c :| c in left; Visit(p, c)
    case Checking(_, _, _) => Check(p)
    case Dropping(_, _, _) => DropChannel(p)
    case Aborting(_, _) => AbortTasks(p)
    case Sending(_, _, _) => Send(p)
  }

  // ---------------------------------------------------------------- a publish that arrives

  /** Publisher `p` may publish under `acl`: a connection while it is served, under its client's list;
      the listener under that of the login. */
  predicate MayPublish(cfg: Config, s: State, p: PubId, login: Text, acl: Acl) {
    && PublisherOf(s, p).pc.AtRest?
    && match p
       case Connection(d) => d in s.clients && s.clients[d].handler == Serving && s.clients[d].acl == acl
       case Listener => cfg.aclOf(if login == [] then [0x5F] else login) == Some(acl)
  }

  /** The topic may be published under `acl`. */
  ghost predicate MayGo(acl: Acl, maxDepth: nat, raw: Text) {
    var topic := Prepared(raw);
    CountSlashes(topic) <= maxDepth && HASH !in topic && PLUS !in topic && WriteMask(acl, topic)
  }

  /** Client `c` is registered and holds a filter that matches. */
  ghost predicate Wants(cfg: Config, s: State, c: ClientId, topic: Text) {
    IsRegistered(s, c) && exists f :: f in FiltersOf(cfg, s, c) && cfg.matches(f, topic)
  }

  /** Its channel is open and has room. */
  predicate Open(cfg: Config, s: State, c: ClientId, ch: ChanId) {
    && c in s.clients && s.clients[c].slot == Some(ch)
    && ch in s.chans && !s.chans[ch].closed && |s.chans[ch].entered| - s.chans[ch].taken < cfg.capacity
  }

  /** What may be published is a step. */
  lemma PublishEnabled(cfg: Config, s: State, p: PubId, login: Text, priority: byte, raw: Text, data: Text, acl: Acl,
                       maxDepth: nat)
    requires MayPublish(cfg, s, p, login, acl) && MayGo(acl, maxDepth, raw)
    requires raw != [] && NulFree(raw) && ValidUtf8(raw) && |raw| + 1 + |data| < U32_LIMIT
    ensures FrameVerdict(raw + [NUL] + data, priority, acl, maxDepth)
         == Forward(DataStream.Message(priority, Prepared(raw), data))
    ensures Enabled(cfg, s, Publish(p, login, priority, raw + [NUL] + data, acl, maxDepth))
  {
    CutAtNulJoint(raw, data);
    VerdictIff(acl, maxDepth, priority, raw, data);
  }

  lemma PublishStarts(cfg: Config, s: State, p: PubId, login: Text, priority: byte, raw: Text, data: Text, acl: Acl,
                      maxDepth: nat, c: ClientId)
    requires Inv(cfg, s) && MayPublish(cfg, s, p, login, acl) && MayGo(acl, maxDepth, raw)
    requires raw != [] && NulFree(raw) && ValidUtf8(raw) && |raw| + 1 + |data| < U32_LIMIT
    requires Wants(cfg, s, c, Prepared(raw))
    ensures var step := Publish(p, login, priority, raw + [NUL] + data, acl, maxDepth);
            && Enabled(cfg, s, step)
            && var t := Apply(cfg, s, step);
               && t.clients == s.clients && t.chans == s.chans && p in t.publishers
               && t.publishers[p].pc.Visiting? && c in t.publishers[p].pc.left
               && |t.publishers[p].log| == |PublisherOf(s, p).log| + 1
               && t.publishers[p].log[|PublisherOf(s, p).log|].message
               == DataStream.Message(priority, Prepared(raw), data)
  {
    PublishEnabled(cfg, s, p, login, priority, raw, data, acl, maxDepth);
    FoundIff(cfg, s, Prepared(raw), c);
  }

  lemma VisitStarts(cfg: Config, s: State, p: PubId, c: ClientId, ch: ChanId)
    requires Open(cfg, s, c, ch)
    requires p in s.publishers && s.publishers[p].pc.Visiting? && c in s.publishers[p].pc.left
    requires s.publishers[p].log != []
    ensures Enabled(cfg, s, Visit(p, c))
    ensures var t := Apply(cfg, s, Visit(p, c));
            && t.clients == s.clients && t.chans == s.chans && p in t.publishers
            && t.publishers[p].log == s.publishers[p].log
            && t.publishers[p].pc == Checking(s.publishers[p].pc.left - {c}, c, ch)
  {
  }

  lemma CheckPasses(cfg: Config, s: State, p: PubId, c: ClientId, ch: ChanId)
    requires Open(cfg, s, c, ch)
    requires p in s.publishers && s.publishers[p].pc.Checking? && s.publishers[p].pc.chan == ch
    requires s.publishers[p].log != []
    ensures Enabled(cfg, s, Check(p))
    ensures var t := Apply(cfg, s, Check(p));
            && t.clients == s.clients && t.chans == s.chans && p in t.publishers
            && t.publishers[p].log == s.publishers[p].log
            && t.publishers[p].pc.Sending? && t.publishers[p].pc.chan == ch
  {
  }

  lemma SendArrives(cfg: Config, s: State, p: PubId, c: ClientId, ch: ChanId)
    requires Open(cfg, s, c, ch)
    requires p in s.publishers && s.publishers[p].pc.Sending? && s.publishers[p].pc.chan == ch
    requires s.publishers[p].log != []
    ensures Enabled(cfg, s, Send(p))
    ensures var t := Apply(cfg, s, Send(p));
            && ch in t.chans && p in t.publishers && t.publishers[p].log == s.publishers[p].log
            && t.chans[ch].entered == s.chans[ch].entered + [Note(p, |s.publishers[p].log| - 1)]
  {
  }

  /** The steps of a visit that meets with no obstacle, and of a publish up to it. */
  function VisitTo(p: PubId, c: ClientId): seq<Step> {
    [Visit(p, c), Check(p), Send(p)]
  }

  function PublishTo(p: PubId, login: Text, priority: byte, frame: Text, acl: Acl, maxDepth: nat, c: ClientId)
    : seq<Step>
  {
    [Publish(p, login, priority, frame, acl, maxDepth)] + VisitTo(p, c)
  }

  lemma RunSnoc(cfg: Config, steps: seq<Step>, s: State, step: Step)
    requires After(cfg, steps) == Some(s) && Enabled(cfg, s, step)
    ensures After(cfg, steps + [step]) == Some(Apply(cfg, s, step))
  {
    assert (steps + [step])[..|steps|] == steps;
  }

  lemma RunThree(cfg: Config, steps: seq<Step>, s: State, a: Step, b: Step, c: Step)
    requires After(cfg, steps) == Some(s) && Enabled(cfg, s, a)
    requires var t := Apply(cfg, s, a); Enabled(cfg, t, b) && Enabled(cfg, Apply(cfg, t, b), c)
    ensures After(cfg, steps + [a, b, c]) == Some(Apply(cfg, Apply(cfg, Apply(cfg, s, a), b), c))
  {
    RunSnoc(cfg, steps, s, a);
    RunSnoc(cfg, steps + [a], Apply(cfg, s, a), b);
    RunSnoc(cfg, steps + [a] + [b], Apply(cfg, Apply(cfg, s, a), b), c);
    assert steps + [a] + [b] + [c] == steps + [a, b, c];
  }

  /** An undisturbed visit of a client whose channel is open and has room puts the push at the end of
      its queue. */
  lemma VisitArrives(cfg: Config, steps: seq<Step>, s: State, p: PubId, c: ClientId, ch: ChanId) returns (t: State)
    requires After(cfg, steps) == Some(s) && Open(cfg, s, c, ch)
    requires p in s.publishers && s.publishers[p].pc.Visiting? && c in s.publishers[p].pc.left
    requires s.publishers[p].log != []
    ensures After(cfg, steps + VisitTo(p, c)) == Some(t)
    ensures ch in t.chans && p in t.publishers && t.publishers[p].log == s.publishers[p].log
    ensures t.chans[ch].entered == s.chans[ch].entered + [Note(p, |s.publishers[p].log| - 1)]
  {
    VisitStarts(cfg, s, p, c, ch);
    var t1 := Apply(cfg, s, Visit(p, c));
    CheckPasses(cfg, t1, p, c, ch);
    var t2 := Apply(cfg, t1, Check(p));
    SendArrives(cfg, t2, p, c, ch);
    RunThree(cfg, steps, s, Visit(p, c), Check(p), Send(p));
    t := Apply(cfg, t2, Send(p));
  }

  /** The publish is under way, with `c` to be visited. */
  predicate UnderWay(s: State, t: State, p: PubId, c: ClientId, m: DataStream.Message) {
    && t.clients == s.clients && t.chans == s.chans && p in t.publishers
    && t.publishers[p].pc.Visiting? && c in t.publishers[p].pc.left
    && |t.publishers[p].log| == |PublisherOf(s, p).log| + 1
    && t.publishers[p].log[|PublisherOf(s, p).log|].message == m
  }

  lemma PublishRuns(cfg: Config, steps: seq<Step>, s: State, p: PubId, login: Text, priority: byte, raw: Text,
                    data: Text, acl: Acl, maxDepth: nat, c: ClientId) returns (t: State)
    requires After(cfg, steps) == Some(s) && MayPublish(cfg, s, p, login, acl) && MayGo(acl, maxDepth, raw)
    requires raw != [] && NulFree(raw) && ValidUtf8(raw) && |raw| + 1 + |data| < U32_LIMIT
    requires Wants(cfg, s, c, Prepared(raw))
    ensures After(cfg, steps + [Publish(p, login, priority, raw + [NUL] + data, acl, maxDepth)]) == Some(t)
    ensures UnderWay(s, t, p, c, DataStream.Message(priority, Prepared(raw), data))
  {
    ReachableInv(cfg, steps);
    var step := Publish(p, login, priority, raw + [NUL] + data, acl, maxDepth);
    PublishStarts(cfg, s, p, login, priority, raw, data, acl, maxDepth, c);
    RunSnoc(cfg, steps, s, step);
    t := Apply(cfg, s, step);
  }

  lemma UnderWayArrives(cfg: Config, steps: seq<Step>, s: State, t: State, p: PubId, c: ClientId, ch: ChanId,
                        m: DataStream.Message) returns (u: State)
    requires After(cfg, steps) == Some(t) && UnderWay(s, t, p, c, m) && Open(cfg, s, c, ch)
    ensures After(cfg, steps + VisitTo(p, c)) == Some(u)
    ensures Arrived(s, u, p, ch, m)
  {
    u := VisitArrives(cfg, steps, t, p, c, ch);
  }

  lemma StepsJoin(a: seq<Step>, b: seq<Step>, c: seq<Step>)
    ensures a + b + c == a + (b + c)
  {
  }

  /** The queue has gained the publisher's next push, and that push is the message. */
  predicate Arrived(s: State, t: State, p: PubId, ch: ChanId, m: DataStream.Message) {
    var n := |PublisherOf(s, p).log|;
    && ch in s.chans && ch in t.chans && t.chans[ch].entered == s.chans[ch].entered + [Note(p, n)]
    && p in t.publishers && n < |t.publishers[p].log| && t.publishers[p].log[n].message == m
  }

  /** From any reachable state: whoever may publish a topic can, and every client that wants it and
      whose channel is open and has room gets the message, at the end of its queue. */
  lemma PublishArrives(cfg: Config, steps: seq<Step>, s: State, p: PubId, login: Text, priority: byte, raw: Text,
                       data: Text, acl: Acl, maxDepth: nat, c: ClientId, ch: ChanId) returns (t: State)
    requires After(cfg, steps) == Some(s) && MayPublish(cfg, s, p, login, acl) && MayGo(acl, maxDepth, raw)
    requires raw != [] && NulFree(raw) && ValidUtf8(raw) && |raw| + 1 + |data| < U32_LIMIT
    requires Wants(cfg, s, c, Prepared(raw)) && Open(cfg, s, c, ch)
    ensures After(cfg, steps + PublishTo(p, login, priority, raw + [NUL] + data, acl, maxDepth, c)) == Some(t)
    ensures Arrived(s, t, p, ch, DataStream.Message(priority, Prepared(raw), data))
  {
    var first := [Publish(p, login, priority, raw + [NUL] + data, acl, maxDepth)];
    var m := DataStream.Message(priority, Prepared(raw), data);
    var begun := PublishRuns(cfg, steps, s, p, login, priority, raw, data, acl, maxDepth, c);
    t := UnderWayArrives(cfg, steps + first, s, begun, p, c, ch, m);
    StepsJoin(steps, first, VisitTo(p, c));
  }

  // ---------------------------------------------------------------- tasks

  /** The task a step registers on the client of its session. */
  function TaskOf(step: Step): Option<Task> {
    match step
    case RegisterPinger(ch) => Some(PingerOf(ch))
    case RegisterWriter(ch) => Some(WriterOf(ch))
    case _ => None
  }

  lemma TaskRegistered(cfg: Config, s: State, step: Step, c: ClientId)
    requires Enabled(cfg, s, step) && TaskOf(step).Some? && c in s.clients
    ensures var t := Apply(cfg, s, step);
            && c in t.clients
            && t.clients[c].registered
               == s.clients[c].registered + (if c == s.chans[step.chan].owner then {TaskOf(step).value} else {})
            && (c == s.chans[step.chan].owner ==> TaskOf(step).value in t.clients[c].tasks)
  {
  }

  lemma NoTaskRegistered(cfg: Config, s: State, step: Step, c: ClientId)
    requires Enabled(cfg, s, step) && TaskOf(step).None? && c in s.clients
    ensures c in Apply(cfg, s, step).clients && Apply(cfg, s, step).clients[c].registered == s.clients[c].registered
  {
    if IsHandlerStep(step) {
      KeptByHandler(cfg, s, step, c);
    } else if IsPublisherStep(step) {
      PublisherFrame(cfg, s, step);
    } else {
      SessionFrame(cfg, s, step);
    }
  }

  lemma KeptByHandler(cfg: Config, s: State, step: Step, c: ClientId)
    requires Enabled(cfg, s, step) && IsHandlerStep(step) && c in s.clients
    ensures c in ApplyHandler(cfg, s, step).clients
    ensures ApplyHandler(cfg, s, step).clients[c].registered == s.clients[c].registered
  {
  }

  lemma {:induction false} NoSessionNoTask(cfg: Config, steps: seq<Step>, s: State, ch: ChanId, step: Step)
    requires After(cfg, steps) == Some(s) && ch !in s.chans && step in [RegisterPinger(ch), RegisterWriter(ch)]
    ensures step !in steps
    ensures forall c :: c in s.clients ==> TaskOf(step).value !in s.clients[c].registered
    decreases steps
  {
    if steps != [] {
      var fewer, last := steps[..|steps| - 1], steps[|steps| - 1];
      var before := After(cfg, fewer).value;
      if ch in before.chans {
        ChanStep(cfg, before, last, ch);
      }
      NoSessionNoTask(cfg, fewer, before, ch, step);
      assert steps == fewer + [last];
      if last == step {
        SessionNeeded(cfg, before, last, ch);
      }
      forall c | c in s.clients
        ensures TaskOf(step).value !in s.clients[c].registered
      {
        RegisteredBy(cfg, before, last, c);
      }
    }
  }

  /** Where a registered task comes from. */
  lemma RegisteredBy(cfg: Config, s: State, step: Step, c: ClientId)
    requires Enabled(cfg, s, step) && c in Apply(cfg, s, step).clients
    ensures var after := Apply(cfg, s, step).clients[c].registered;
            if c !in s.clients then after == {}
            else after == s.clients[c].registered
                          + (if TaskOf(step).Some? && c == s.chans[step.chan].owner then {TaskOf(step).value} else {})
  {
    if c !in s.clients {
      EntersByRegister(cfg, s, step, c);
    } else if TaskOf(step).Some? {
      TaskRegistered(cfg, s, step, c);
    } else {
      NoTaskRegistered(cfg, s, step, c);
    }
  }

  lemma OwnersKnown(cfg: Config, steps: seq<Step>, s: State)
    requires After(cfg, steps) == Some(s)
    ensures forall ch :: ch in s.chans ==> s.chans[ch].owner in s.clients
  {
    ReachableInv(cfg, steps);
  }

  /** A session's task is registered on its client exactly when its launcher has registered it. */
  lemma {:induction false} TasksAreHistory(cfg: Config, steps: seq<Step>, s: State, ch: ChanId, step: Step)
    requires After(cfg, steps) == Some(s) && ch in s.chans && step in [RegisterPinger(ch), RegisterWriter(ch)]
    ensures s.chans[ch].owner in s.clients
    ensures TaskOf(step).value in s.clients[s.chans[ch].owner].registered <==> step in steps
    decreases steps
  {
    OwnersKnown(cfg, steps, s);
    if steps != [] {
      var fewer, last := steps[..|steps| - 1], steps[|steps| - 1];
      var before := After(cfg, fewer).value;
      assert steps == fewer + [last];
      RegisteredBy(cfg, before, last, s.chans[ch].owner);
      OwnersKnown(cfg, fewer, before);
      if ch in before.chans {
        TasksAreHistory(cfg, fewer, before, ch, step);
        ChanStep(cfg, before, last, ch);
      } else {
        NewQueue(cfg, before, last, ch);
        NoSessionNoTask(cfg, fewer, before, ch, step);
      }
    }
  }
}
