/** What every queued message has been checked for, and what reaches a subscriber's reader. */
module Vetting {
  import opened Wrappers
  import opened Bytes
  import opened Topic
  import opened PathMask
  import opened Server
  import opened Broker
  import opened Delivery
  import DataStream
  import History
  import Udp

  /** Some spelling that the access list lets the client subscribe to is stored as `filter`. */
  ghost predicate Admitted(acl: Acl, filter: Text) {
    exists raw :: ReadMask(acl, raw) && Prepared(raw) == filter
  }

  /** Some admitted filter matches the topic. */
  ghost predicate Reaches(cfg: Config, acl: Acl, topic: Text) {
    exists f :: Admitted(acl, f) && cfg.matches(f, topic)
  }

  /** Every stored filter belongs to an indexed client whose access list admitted it. */
  ghost predicate FiltersAdmitted(s: State) {
    forall d, f :: d in s.index.submap.filters && f in s.index.submap.filters[d] ==> FilterAdmitted(s, d, f)
  }

  ghost predicate FilterAdmitted(s: State, d: Text, f: Text) {
    && d in s.index.submap.clients
    && s.index.submap.clients[d] in s.clients
    && Admitted(s.clients[s.index.submap.clients[d]].acl, f)
  }

  /** The access list of a push is that of the client on whose connection it was made, or of the
      login of its datagram. */
  predicate PushedUnder(cfg: Config, s: State, p: PubId, login: Text, acl: Acl) {
    match p
    case Connection(c) => c in s.clients && s.clients[c].acl == acl
    case Listener => cfg.aclOf(LoginOrUnderscore(login)) == Some(acl)
  }

  ghost predicate GoodPush(cfg: Config, s: State, p: PubId, push: Push) {
    && PushedUnder(cfg, s, p, push.login, push.acl)
    && Vetted(push.acl, push.maxDepth, push.message.topic)
    && DataStream.Sendable(push.message)
    && forall c :: c in push.subscribers ==> c in s.clients && Reaches(cfg, s.clients[c].acl, push.message.topic)
  }

  ghost predicate GoodLog(cfg: Config, s: State, p: PubId, log: seq<Push>) {
    forall n :: 0 <= n < |log| ==> GoodPush(cfg, s, p, log[n])
  }

  /** A queued message is one of its publisher's pushes, and the queue's client was in the
      subscriber set of that push. */
  predicate GoodEntry(s: State, owner: ClientId, e: Entry) {
    e.Note? ==>
      && e.publisher in s.publishers
      && e.push < |s.publishers[e.publisher].log|
      && owner in s.publishers[e.publisher].log[e.push].subscribers
  }

  ghost predicate Vet(cfg: Config, s: State) {
    && FiltersAdmitted(s)
    && (forall p :: p in s.publishers ==> GoodLog(cfg, s, p, s.publishers[p].log))
    && (forall ch, i :: ch in s.chans && 0 <= i < |s.chans[ch].entered| ==>
          GoodEntry(s, s.chans[ch].owner, s.chans[ch].entered[i]))
  }

  // ---------------------------------------------------------------- every step keeps it

  lemma FiltersStep(cfg: Config, s: State, step: Step)
    requires Wired(cfg, s) && FiltersAdmitted(s) && Enabled(cfg, s, step)
    ensures FiltersAdmitted(Apply(cfg, s, step))
  {
    StepGrows(cfg, s, step);
    if IsHandlerStep(step) {
      HandlerFilters(cfg, s, step);
    } else if IsPublisherStep(step) {
      PublisherFrame(cfg, s, step);
    } else {
      SessionFrame(cfg, s, step);
    }
  }

  lemma HandlerFilters(cfg: Config, s: State, step: Step)
    requires Wired(cfg, s) && FiltersAdmitted(s) && Enabled(cfg, s, step) && IsHandlerStep(step)
    requires Grows(s, ApplyHandler(cfg, s, step))
    ensures FiltersAdmitted(ApplyHandler(cfg, s, step))
  {
    var t := ApplyHandler(cfg, s, step);
    forall d, f | d in t.index.submap.filters && f in t.index.submap.filters[d]
      ensures FilterAdmitted(t, d, f)
    {
      FilterOrigin(cfg, s, step, d, f);
    }
  }

  /** A filter was there before, under the same client, or is the one just subscribed to. */
  ghost predicate Originates(s: State, t: State, step: Step, d: Text, f: Text) {
    && d in s.index.submap.filters && d in s.index.submap.clients
    && d in t.index.submap.clients && t.index.submap.clients[d] == s.index.submap.clients[d]
    && (f in s.index.submap.filters[d]
        || (step.Subscribe? && s.index.submap.clients[d] == step.client && f == Prepared(step.raw)))
  }

  ghost predicate Holds(s: State, d: Text, f: Text) {
    d in s.index.submap.filters && f in s.index.submap.filters[d]
  }

  lemma SubscribeOrigin(cfg: Config, s: State, step: Step, d: Text, f: Text)
    requires Wired(cfg, s) && Enabled(cfg, s, step) && step.Subscribe?
    requires Holds(ApplyHandler(cfg, s, step), d, f)
    ensures Originates(s, ApplyHandler(cfg, s, step), step, d, f)
  {
    assert IsRegistered(s, step.client);
  }

  lemma UnsubscribeOrigin(cfg: Config, s: State, step: Step, d: Text, f: Text)
    requires Wired(cfg, s) && Enabled(cfg, s, step) && step.Unsubscribe?
    requires Holds(ApplyHandler(cfg, s, step), d, f)
    ensures Originates(s, ApplyHandler(cfg, s, step), step, d, f)
  {
  }

  lemma RegistrationOrigin(cfg: Config, s: State, step: Step, d: Text, f: Text)
    requires Wired(cfg, s) && Enabled(cfg, s, step) && (step.Register? || step.Unregister?)
    requires Holds(ApplyHandler(cfg, s, step), d, f)
    ensures Originates(s, ApplyHandler(cfg, s, step), step, d, f)
  {
  }

  lemma FilterOrigin(cfg: Config, s: State, step: Step, d: Text, f: Text)
    requires Wired(cfg, s) && Enabled(cfg, s, step) && IsHandlerStep(step)
    requires Holds(ApplyHandler(cfg, s, step), d, f)
    ensures Originates(s, ApplyHandler(cfg, s, step), step, d, f)
  {
    if step.Subscribe? {
      SubscribeOrigin(cfg, s, step, d, f);
    } else if step.Unsubscribe? {
      UnsubscribeOrigin(cfg, s, step, d, f);
    } else if step.Register? || step.Unregister? {
      RegistrationOrigin(cfg, s, step, d, f);
    } else {
      assert ApplyHandler(cfg, s, step).index == s.index;
    }
  }

  lemma GoodPushGrows(cfg: Config, s: State, t: State, p: PubId, push: Push)
    requires Grows(s, t) && GoodPush(cfg, s, p, push)
    ensures GoodPush(cfg, t, p, push)
  {
  }

  /** The push a publish step logs goes to all who want it, and each of those by a filter that was
      admitted. */
  lemma NewPush(cfg: Config, s: State, step: Step)
    requires Inv(cfg, s) && FiltersAdmitted(s) && Enabled(cfg, s, step) && step.Publish?
    ensures var log := Apply(cfg, s, step).publishers[step.publisher].log;
            && |log| == |PublisherOf(s, step.publisher).log| + 1
            && var push := log[|log| - 1];
               && GoodPush(cfg, s, step.publisher, push)
               && forall c :: c in push.subscribers <==> History.Wants(cfg, s, c, push.message.topic)
  {
    NewPushFits(cfg, s, step);
    History.SnapshotIff(cfg, s, step);
    SnapshotReaches(cfg, s, History.PublishedBy(cfg, s, step).message.topic);
  }

  lemma NewPushFits(cfg: Config, s: State, step: Step)
    requires Enabled(cfg, s, step) && step.Publish?
    ensures var push := History.PublishedBy(cfg, s, step);
            && PushedUnder(cfg, s, step.publisher, push.login, push.acl)
            && Vetted(push.acl, push.maxDepth, push.message.topic)
            && DataStream.Sendable(push.message)
            && push.subscribers == Subscribers(cfg, s, push.message.topic)
  {
    ForwardedFits(step.writeAcl, step.maxDepth, step.priority, step.frame);
  }

  lemma SnapshotReaches(cfg: Config, s: State, topic: Text)
    requires FiltersAdmitted(s)
    ensures forall c :: c in Subscribers(cfg, s, topic) ==> c in s.clients && Reaches(cfg, s.clients[c].acl, topic)
  {
    forall c | c in Subscribers(cfg, s, topic)
      ensures c in s.clients && Reaches(cfg, s.clients[c].acl, topic)
    {
      var filters, clients := s.index.submap.filters, s.index.submap.clients;
      var d, f :| d in clients && d in filters && clients[d] == c && f in filters[d] && cfg.matches(f, topic);
      assert FilterAdmitted(s, d, f);
    }
  }

  /** Logs only grow, and only by publishing. */
  lemma LogsGrow(cfg: Config, s: State, step: Step, p: PubId)
    requires Enabled(cfg, s, step)
    ensures PublisherOf(s, p).log <= PublisherOf(Apply(cfg, s, step), p).log
    ensures (step.Publish? && step.publisher == p) || PublisherOf(s, p).log == PublisherOf(Apply(cfg, s, step), p).log
    ensures p in s.publishers ==> p in Apply(cfg, s, step).publishers
    ensures p !in s.publishers && p in Apply(cfg, s, step).publishers ==> step.Publish? && step.publisher == p
  {
    if !IsPublisherStep(step) || p != step.publisher {
      OthersUnchanged(cfg, s, step, p);
    }
  }

  /** A log that gained at most a good push is good still. */
  lemma LogGrows(cfg: Config, s: State, t: State, p: PubId, before: seq<Push>, log: seq<Push>)
    requires Grows(s, t) && GoodLog(cfg, s, p, before) && before <= log
    requires forall n :: |before| <= n < |log| ==> GoodPush(cfg, s, p, log[n])
    ensures GoodLog(cfg, t, p, log)
  {
    forall n | 0 <= n < |log|
      ensures GoodPush(cfg, t, p, log[n])
    {
      if n < |before| {
        assert log[n] == before[n];
      }
      GoodPushGrows(cfg, s, t, p, log[n]);
    }
  }

  lemma OwnLogStep(cfg: Config, s: State, step: Step)
    requires Inv(cfg, s) && Vet(cfg, s) && Enabled(cfg, s, step) && step.Publish?
    requires Grows(s, Apply(cfg, s, step))
    ensures GoodLog(cfg, Apply(cfg, s, step), step.publisher, PublisherOf(Apply(cfg, s, step), step.publisher).log)
  {
    var p := step.publisher;
    LogsGrow(cfg, s, step, p);
    NewPush(cfg, s, step);
    LogGrows(cfg, s, Apply(cfg, s, step), p, PublisherOf(s, p).log, PublisherOf(Apply(cfg, s, step), p).log);
  }

  lemma LogsStep(cfg: Config, s: State, step: Step, p: PubId)
    requires Inv(cfg, s) && Vet(cfg, s) && Enabled(cfg, s, step)
    requires p in Apply(cfg, s, step).publishers
    ensures GoodLog(cfg, Apply(cfg, s, step), p, Apply(cfg, s, step).publishers[p].log)
  {
    StepGrows(cfg, s, step);
    LogsGrow(cfg, s, step, p);
    if step.Publish? && step.publisher == p {
      OwnLogStep(cfg, s, step);
    } else {
      LogGrows(cfg, s, Apply(cfg, s, step), p, PublisherOf(s, p).log, PublisherOf(s, p).log);
    }
  }

  /** The one entry a step may add to a queue. */
  function AddedEntry(s: State, step: Step): Entry
    requires step.Send? ==> step.publisher in s.publishers && s.publishers[step.publisher].log != []
  {
    if step.Send? then Note(step.publisher, |s.publishers[step.publisher].log| - 1) else Beacon
  }

  lemma SendEntry(cfg: Config, s: State, step: Step, ch: ChanId)
    requires Enabled(cfg, s, step) && step.Send? && ch in s.chans
    ensures var entered := Apply(cfg, s, step).chans[ch].entered;
            || entered == s.chans[ch].entered
            || (ch == s.publishers[step.publisher].pc.chan && entered == s.chans[ch].entered + [AddedEntry(s, step)])
  {
  }

  /** What one step may do to one queue. */
  ghost predicate Grown(s: State, t: State, step: Step, ch: ChanId)
    requires ch in t.chans
    requires step.Send? ==> step.publisher in s.publishers && s.publishers[step.publisher].log != []
    requires step.Send? ==> s.publishers[step.publisher].pc.Sending?
  {
    var entered := t.chans[ch].entered;
    if ch !in s.chans then entered == []
    else
      || entered == s.chans[ch].entered
      || (step.Beat? && entered == s.chans[ch].entered + [AddedEntry(s, step)])
      || (step.Send? && ch == s.publishers[step.publisher].pc.chan
          && entered == s.chans[ch].entered + [AddedEntry(s, step)])
  }

  lemma BeatEntry(cfg: Config, s: State, step: Step, ch: ChanId)
    requires Enabled(cfg, s, step) && step.Beat? && ch in s.chans
    ensures Grown(s, Apply(cfg, s, step), step, ch)
  {
  }

  lemma EntriesGrow(cfg: Config, s: State, step: Step, ch: ChanId)
    requires Wired(cfg, s) && Enabled(cfg, s, step) && ch in Apply(cfg, s, step).chans
    ensures Grown(s, Apply(cfg, s, step), step, ch)
  {
    if ch !in s.chans {
      StepGrows(cfg, s, step);
    } else if step.Send? {
      SendEntry(cfg, s, step, ch);
    } else if step.Beat? {
      BeatEntry(cfg, s, step, ch);
    } else {
      EnteredSame(cfg, s, step, ch);
    }
  }

  /** An entry was there before, or is a beacon, or is what a publisher just sent. */
  lemma EntryOrigin(cfg: Config, s: State, step: Step, ch: ChanId, i: nat)
    requires Wired(cfg, s) && Enabled(cfg, s, step)
    requires ch in Apply(cfg, s, step).chans && i < |Apply(cfg, s, step).chans[ch].entered|
    ensures ch in s.chans
    ensures var e := Apply(cfg, s, step).chans[ch].entered[i];
            || (i < |s.chans[ch].entered| && e == s.chans[ch].entered[i])
            || e.Beacon?
            || (step.Send? && ch == s.publishers[step.publisher].pc.chan && e == AddedEntry(s, step))
  {
    EntriesGrow(cfg, s, step, ch);
  }

  /** What a publisher sends goes to a client of its snapshot. */
  lemma SentToSubscriber(s: State, p: PubId, pub: Publisher, owner: ClientId)
    requires PubWired(s, pub) && pub.pc.Sending? && pub.pc.chan in s.chans && s.chans[pub.pc.chan].owner == owner
    ensures pub.log != [] && owner in pub.log[|pub.log| - 1].subscribers
  {
  }

  lemma AddedIsGood(cfg: Config, s: State, step: Step)
    requires Inv(cfg, s) && Enabled(cfg, s, step) && step.Send?
    ensures GoodEntry(s, s.chans[s.publishers[step.publisher].pc.chan].owner, AddedEntry(s, step))
  {
    assert PubDelivery(s, step.publisher, PublisherOf(s, step.publisher));
    var pub := s.publishers[step.publisher];
    SentToSubscriber(s, step.publisher, pub, s.chans[pub.pc.chan].owner);
  }

  lemma EntriesStep(cfg: Config, s: State, step: Step, ch: ChanId, i: nat)
    requires Inv(cfg, s) && Vet(cfg, s) && Enabled(cfg, s, step)
    requires ch in Apply(cfg, s, step).chans && i < |Apply(cfg, s, step).chans[ch].entered|
    ensures var t := Apply(cfg, s, step); GoodEntry(t, t.chans[ch].owner, t.chans[ch].entered[i])
  {
    var t := Apply(cfg, s, step);
    StepGrows(cfg, s, step);
    EntryOrigin(cfg, s, step, ch, i);
    var e := t.chans[ch].entered[i];
    if e.Note? {
      LogsGrow(cfg, s, step, e.publisher);
      assert ChanGrows(s.chans[ch], t.chans[ch]);
      if !(i < |s.chans[ch].entered| && e == s.chans[ch].entered[i]) {
        AddedIsGood(cfg, s, step);
      }
      assert GoodEntry(s, s.chans[ch].owner, e);
      assert PublisherOf(s, e.publisher).log[e.push] == PublisherOf(t, e.publisher).log[e.push];
    }
  }

  lemma StepKeepsVet(cfg: Config, s: State, step: Step)
    requires Inv(cfg, s) && Vet(cfg, s) && Enabled(cfg, s, step)
    ensures Vet(cfg, Apply(cfg, s, step))
  {
    var t := Apply(cfg, s, step);
    FiltersStep(cfg, s, step);
    forall p | p in t.publishers
      ensures GoodLog(cfg, t, p, t.publishers[p].log)
    {
      LogsStep(cfg, s, step, p);
    }
    forall ch, i | ch in t.chans && 0 <= i < |t.chans[ch].entered|
      ensures GoodEntry(t, t.chans[ch].owner, t.chans[ch].entered[i])
    {
      EntriesStep(cfg, s, step, ch, i);
    }
  }

  lemma {:induction false} ReachableVet(cfg: Config, steps: seq<Step>)
    requires After(cfg, steps).Some?
    ensures Vet(cfg, After(cfg, steps).value)
    decreases steps
  {
    if steps != [] {
      var fewer := steps[..|steps| - 1];
      ReachableVet(cfg, fewer);
      ReachableInv(cfg, fewer);
      StepKeepsVet(cfg, After(cfg, fewer).value, steps[|steps| - 1]);
    }
  }

  // ---------------------------------------------------------------- UDP publishes

  /** An accepted UDP packet is a publish step of the broker, under the access list of the packet's
      login: the listener pushes the accepted message as a connection would, so all that is said of
      pushes holds of it. */
  lemma UdpIsPublish(cfg: Config, s: State, env: Udp.Env, frame: Text) returns (step: Step)
    requires Udp.ProcessPacket(env, frame).Ok? && |frame| < U32_LIMIT
    requires Udp.KeepsLength(env.gcm128) && Udp.KeepsLength(env.gcm256)
    requires cfg.aclOf == env.aclOf && PublisherOf(s, Listener).pc.AtRest?
    ensures |frame| >= 5
    ensures step.Publish? && step.publisher == Listener && step.maxDepth == env.maxDepth
    ensures step.login == Udp.LoginOf(frame)
    ensures env.aclOf(LoginOrUnderscore(Udp.LoginOf(frame))) == Some(step.writeAcl)
    ensures Enabled(cfg, s, step)
    ensures var log := PublisherOf(Apply(cfg, s, step), Listener).log;
            log != [] && log[|log| - 1].message == Udp.ProcessPacket(env, frame).value.message
  {
    var password, block := Udp.PacketHasBlock(env, frame);
    var login := Udp.LoginOf(frame);
    Udp.BlockIsFrame(env, login, password, block);
    var acl := env.aclOf(LoginOrUnderscore(login)).value;
    step := Publish(Listener, login, block[1], block[2..], acl, env.maxDepth);
    assert FrameVerdict(step.frame, step.priority, acl, env.maxDepth)
        == Forward(Udp.ProcessPacket(env, frame).value.message);
  }

  /** What is accepted over UDP is vetted against the access list of its login, which exists. */
  lemma UdpIsVetted(env: Udp.Env, frame: Text)
    requires Udp.ProcessPacket(env, frame).Ok? && |frame| < U32_LIMIT
    requires Udp.KeepsLength(env.gcm128) && Udp.KeepsLength(env.gcm256)
    ensures |frame| >= 5
    ensures var m, acl := Udp.ProcessPacket(env, frame).value.message, env.aclOf(LoginOrUnderscore(Udp.LoginOf(frame)));
            && DataStream.Sendable(m)
            && acl.Some? && Vetted(acl.value, env.maxDepth, m.topic)
  {
    var password, block := Udp.PacketHasBlock(env, frame);
    Udp.BlockIsFrame(env, Udp.LoginOf(frame), password, block);
    ForwardedFits(env.aclOf(LoginOrUnderscore(Udp.LoginOf(frame))).value, env.maxDepth, block[1], block[2..]);
  }

  // ---------------------------------------------------------------- main results

  /** A write mask of whoever published matches the topic. */
  ghost predicate AllowedBy(cfg: Config, s: State, p: PubId, login: Text, topic: Text) {
    match p
    case Connection(c) => c in s.clients && WriteMask(s.clients[c].acl, topic)
    case Listener =>
      var acl := cfg.aclOf(if login == [] then [0x5F] else login);
      acl.Some? && WriteMask(acl.value, topic)
  }

  /** Every message in every queue: its topic is NUL-free, a fixed point of preparation, without
      wildcard symbols, within the depth limit it was published under, and allowed by the write
      masks of the client on whose connection, or of the login under which, it was published; the
      queue's client was in the subscriber set, by a filter its access list had admitted. */
  lemma QueuedIsVetted(cfg: Config, steps: seq<Step>, s: State, ch: ChanId, i: nat)
    requires After(cfg, steps) == Some(s)
    requires ch in s.chans && i < |s.chans[ch].entered| && s.chans[ch].entered[i].Note?
    ensures GoodEntry(s, s.chans[ch].owner, s.chans[ch].entered[i])
    ensures var e := s.chans[ch].entered[i];
            var push := s.publishers[e.publisher].log[e.push];
            var topic := push.message.topic;
            && NulFree(topic) && Prepared(topic) == topic && HASH !in topic && PLUS !in topic
            && CountSlashes(topic) <= push.maxDepth
            && AllowedBy(cfg, s, e.publisher, push.login, topic)
            && DataStream.Sendable(push.message)
            && s.chans[ch].owner in push.subscribers
            && s.chans[ch].owner in s.clients
            && Reaches(cfg, s.clients[s.chans[ch].owner].acl, topic)
  {
    ReachableVet(cfg, steps);
    var e := s.chans[ch].entered[i];
    assert GoodEntry(s, s.chans[ch].owner, e);
    assert GoodPush(cfg, s, e.publisher, s.publishers[e.publisher].log[e.push]);
    PreparedFixedPoint(s.publishers[e.publisher].log[e.push].message.topic);
  }

  /** The frames behind the entries of a queue. */
  function ItemOf(s: State, e: Entry): DataStream.Item {
    if e.Note? && e.publisher in s.publishers && e.push < |s.publishers[e.publisher].log|
    then DataStream.Note(s.publishers[e.publisher].log[e.push].message)
    else DataStream.Beacon
  }

  function ItemsOf(s: State, entries: seq<Entry>): (items: seq<DataStream.Item>)
    ensures |items| == |entries|
    ensures forall i :: 0 <= i < |items| ==> items[i] == ItemOf(s, entries[i])
  {
    seq(|entries|, i requires 0 <= i < |entries| => ItemOf(s, entries[i]))
  }

  lemma {:induction false} EnteredByPrefix(entered: seq<Entry>, k: nat, p: PubId)
    requires k <= |entered|
    ensures EnteredBy(entered[..k], p) <= EnteredBy(entered, p)
  {
    if k == |entered| {
      assert entered[..k] == entered;
    } else {
      EnteredByPrefix(entered[..|entered| - 1], k, p);
      assert entered[..|entered| - 1][..k] == entered[..k];
    }
  }

  /** What the writer has taken from its queue. */
  function Dequeued(chan: Chan): (entries: seq<Entry>)
    ensures entries <= chan.entered
  {
    if chan.taken <= |chan.entered| then chan.entered[..chan.taken] else chan.entered
  }

  /** From publishers to a subscriber's reader: whatever number of bytes of a session the client
      has received, it has decoded exactly the messages of the first k dequeued entries, and of each
      publisher these are the first part, in order, of the pushes that found the session. */
  lemma EndToEnd(cfg: Config, steps: seq<Step>, s: State, ch: ChanId, recent: seq<bool>, n: nat, p: PubId)
    requires After(cfg, steps) == Some(s)
    requires ch in s.chans && |recent| == |Dequeued(s.chans[ch])|
    requires n <= |DataStream.Written(ItemsOf(s, Dequeued(s.chans[ch])), recent)|
    ensures s.chans[ch].taken <= |s.chans[ch].entered| && |Dequeued(s.chans[ch])| == s.chans[ch].taken
    ensures var items := ItemsOf(s, Dequeued(s.chans[ch]));
            var k := DataStream.Complete(items, recent, n);
            && DataStream.Received(DataStream.Written(items, recent)[..n])
               == (DataStream.Notes(ItemsOf(s, s.chans[ch].entered[..k])), DataStream.Waiting)
            && EnteredBy(s.chans[ch].entered[..k], p) <= FoundOn(cfg, steps, p, ch)
  {
    ReachableInv(cfg, steps);
    var entered, taken := s.chans[ch].entered, s.chans[ch].taken;
    var items := ItemsOf(s, entered[..taken]);
    var k := DataStream.Complete(items, recent, n);
    ReachableVet(cfg, steps);
    SendableItems(cfg, s, ch);
    DataStream.PrefixDecodes(items, recent, n);
    assert ItemsOf(s, entered[..k]) == items[..k];
    ContiguousRun(cfg, steps, s, p, ch);
    EnteredByPrefix(entered, k, p);
  }

  lemma SendableItems(cfg: Config, s: State, ch: ChanId)
    requires Vet(cfg, s) && ch in s.chans && s.chans[ch].taken <= |s.chans[ch].entered|
    ensures DataStream.AllSendable(ItemsOf(s, s.chans[ch].entered[..s.chans[ch].taken]))
  {
    var entries := s.chans[ch].entered[..s.chans[ch].taken];
    forall i | 0 <= i < |entries| && ItemOf(s, entries[i]).Note?
      ensures DataStream.Sendable(ItemOf(s, entries[i]).message)
    {
      assert GoodPush(cfg, s, entries[i].publisher, s.publishers[entries[i].publisher].log[entries[i].push]);
    }
  }
}
