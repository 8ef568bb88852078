/** What every run of the broker keeps about the messages of one publisher in one data-channel
    session. */
module Delivery {
  import opened Wrappers
  import opened Topic
  import Db = ClientDb
  import opened Broker

  // ---------------------------------------------------------------- projections

  /** The pushes of publisher `p` among the entries of a channel, in order. */
  function EnteredBy(entered: seq<Entry>, p: PubId): seq<nat> {
    if entered == [] then []
    else
      var e := entered[|entered| - 1];
      EnteredBy(entered[..|entered| - 1], p) + if e.Note? && e.publisher == p then [e.push] else []
  }

  /** The pushes for which `data_channel()` returned `ch`. */
  function TriedOn(attempts: seq<Attempt>, ch: ChanId): seq<nat> {
    if attempts == [] then []
    else
      var a := attempts[|attempts| - 1];
      TriedOn(attempts[..|attempts| - 1], ch) + if a.chan == ch then [a.push] else []
  }

  /** Those of them that entered the queue. */
  function SentOn(attempts: seq<Attempt>, ch: ChanId): seq<nat> {
    if attempts == [] then []
    else
      var a := attempts[|attempts| - 1];
      SentOn(attempts[..|attempts| - 1], ch) + if a.chan == ch && a.sent then [a.push] else []
  }

  lemma EnteredByStep(entered: seq<Entry>, e: Entry, p: PubId)
    ensures EnteredBy(entered + [e], p) == EnteredBy(entered, p) + if e.Note? && e.publisher == p then [e.push] else []
  {
    assert (entered + [e])[..|entered|] == entered;
  }

  lemma AttemptStep(attempts: seq<Attempt>, a: Attempt, ch: ChanId)
    ensures TriedOn(attempts + [a], ch) == TriedOn(attempts, ch) + if a.chan == ch then [a.push] else []
    ensures SentOn(attempts + [a], ch) == SentOn(attempts, ch) + if a.chan == ch && a.sent then [a.push] else []
  {
    assert (attempts + [a])[..|attempts|] == attempts;
  }

  lemma {:induction false} NoAttempts(attempts: seq<Attempt>, ch: ChanId)
    requires forall i :: 0 <= i < |attempts| ==> attempts[i].chan != ch
    ensures SentOn(attempts, ch) == []
  {
    if attempts != [] {
      NoAttempts(attempts[..|attempts| - 1], ch);
    }
  }

  // ---------------------------------------------------------------- references

  /** The token map points to clients under their own tokens; the clients being served are all
      there, and those their handlers have unregistered are not. */
  ghost predicate TokensWired(s: State) {
    && (forall t :: t in s.index.byToken ==>
        s.index.byToken[t] in s.clients && s.clients[s.index.byToken[t]].token == t)
    && (forall c :: c in s.clients && Attends(s.clients[c].handler) ==> IsRegistered(s, c))
    && (forall c :: c in s.clients && Parted(s.clients[c].handler) ==> !IsRegistered(s, c))
  }

  /** A slot holds a channel of its own client. */
  ghost predicate SlotsWired(s: State) {
    && (forall c :: c in s.clients && s.clients[c].slot.Some? ==>
          s.clients[c].slot.value in s.chans && s.chans[s.clients[c].slot.value].owner == c)
    && (forall ch :: ch in s.chans ==> s.chans[ch].owner in s.clients && s.chans[ch].taken <= |s.chans[ch].entered|)
  }

  ghost predicate ClientsWired(s: State) {
    TokensWired(s) && SlotsWired(s)
  }

  ghost predicate Wired(cfg: Config, s: State) {
    ClientsWired(s) && Db.Bijection(s.index, cfg.digestOf)
  }

  predicate HasChan(pc: PubPc) {
    pc.Checking? || pc.Dropping? || pc.Sending?
  }

  ghost predicate PubWired(s: State, pub: Publisher) {
    && (!pub.pc.AtRest? ==> pub.log != [] && LeftOf(pub.pc) <= pub.log[|pub.log| - 1].subscribers)
    && (HasChan(pub.pc) || pub.pc.Aborting? ==>
          pub.pc.client in pub.log[|pub.log| - 1].subscribers && pub.pc.client !in pub.pc.left)
    && (HasChan(pub.pc) ==> pub.pc.chan in s.chans && s.chans[pub.pc.chan].owner == pub.pc.client)
    && (forall n :: 0 <= n < |pub.log| ==> pub.log[n].subscribers <= s.clients.Keys)
    && (forall i :: 0 <= i < |pub.attempts| ==>
          pub.attempts[i].chan in s.chans && pub.attempts[i].push < |pub.log|)
  }

  /** How one state may follow another: nothing is forgotten, a closed channel stays closed, a
      channel out of its slot stays out, and an unregistered client stays unregistered. */
  ghost predicate Grows(s: State, t: State) {
    && (forall c :: c in s.clients ==> c in t.clients && ClientGrows(s, s.clients[c], t.clients[c]))
    && (forall ch :: ch in s.chans ==> ch in t.chans && ChanGrows(s.chans[ch], t.chans[ch]))
    && (forall c :: c in s.clients && IsRegistered(t, c) ==> IsRegistered(s, c))
    && (forall ch :: ch in t.chans && ch !in s.chans ==> t.chans[ch].entered == [])
  }

  ghost predicate ClientGrows(s: State, before: Client, after: Client) {
    && after.token == before.token && after.acl == before.acl
    && (after.slot == before.slot || after.slot == None || after.slot.value !in s.chans)
  }

  ghost predicate ChanGrows(before: Chan, after: Chan) {
    after.owner == before.owner && (before.closed ==> after.closed)
  }

  // one lemma for each way a step changes the state

  lemma ChangeClient(s: State, c: ClientId, client: Client, aborted: set<Task>)
    requires ClientsWired(s) && c in s.clients
    requires client.token == s.clients[c].token && client.acl == s.clients[c].acl
    requires Attends(client.handler) ==> Attends(s.clients[c].handler)
    requires Parted(client.handler) ==> Parted(s.clients[c].handler)
    requires client.slot == s.clients[c].slot || client.slot == None
    ensures var t := SetClient(s, c, client).(aborted := aborted); Grows(s, t) && ClientsWired(t)
  {
  }

  lemma ChangeChan(s: State, ch: ChanId, chan: Chan)
    requires ClientsWired(s) && ch in s.chans
    requires chan.owner == s.chans[ch].owner && chan.taken <= |chan.entered|
    requires s.chans[ch].closed ==> chan.closed
    ensures var t := SetChan(s, ch, chan); Grows(s, t) && ClientsWired(t)
  {
  }

  lemma ChangePublisher(s: State, p: PubId, pub: Publisher)
    requires ClientsWired(s)
    ensures var t := SetPublisher(s, p, pub); Grows(s, t) && ClientsWired(t)
  {
  }

  lemma GrowsTrans(s: State, t: State, u: State)
    requires Grows(s, t) && Grows(t, u)
    requires forall ch :: ch in t.chans && ch !in s.chans ==> u.chans[ch].entered == []
    ensures Grows(s, u)
  {
  }

  lemma ClearSlotGrows(s: State, token: Db.Token)
    requires ClientsWired(s)
    ensures var t := ClearSlot(s, token); Grows(s, t) && ClientsWired(t)
  {
    if token in s.index.byToken {
      var c := s.index.byToken[token];
      ChangeClient(s, c, s.clients[c].(slot := None), s.aborted);
    } else {
      GrowsRefl(s);
    }
  }

  lemma GrowsRefl(s: State)
    ensures Grows(s, s)
  {
  }

  lemma EnterGrows(s: State, c: ClientId, client: Client, digest: Db.Digest)
    requires ClientsWired(s) && c !in s.clients && client.token !in s.index.byToken
    ensures Grows(s, SetClient(s, c, client).(index := Db.Entered(s.index, client.token, digest, c)))
  {
  }

  lemma EnterWired(s: State, c: ClientId, client: Client, digest: Db.Digest)
    requires ClientsWired(s) && c !in s.clients && client.token !in s.index.byToken
    requires client.handler == Greeting && client.slot == None
    ensures ClientsWired(SetClient(s, c, client).(index := Db.Entered(s.index, client.token, digest, c)))
  {
  }

  lemma FreshToken(cfg: Config, s: State, token: Db.Token)
    requires Wired(cfg, s) && cfg.digestOf(token) !in s.index.submap.clients
    ensures token !in s.index.byToken
  {
  }

  lemma LeaveGrows(s: State, c: ClientId, client: Client, digest: Db.Digest)
    requires ClientsWired(s) && IsRegistered(s, c)
    requires client.token == s.clients[c].token && client.acl == s.clients[c].acl && client.slot == s.clients[c].slot
    ensures Grows(s, SetClient(s, c, client).(index := Db.Left(s.index, client.token, digest)))
  {
  }

  lemma LeaveWired(s: State, c: ClientId, client: Client, digest: Db.Digest)
    requires ClientsWired(s) && IsRegistered(s, c)
    requires client.token == s.clients[c].token && client.slot == s.clients[c].slot && client.handler == Unregistered
    ensures ClientsWired(SetClient(s, c, client).(index := Db.Left(s.index, client.token, digest)))
  {
  }

  lemma NewChannelGrows(s: State, c: ClientId, ch: ChanId, chan: Chan)
    requires ClientsWired(s) && c in s.clients && ch !in s.chans
    requires chan.owner == c && chan.entered == [] && chan.taken == 0
    ensures Grows(s, SetChan(SetClient(s, c, s.clients[c].(slot := Some(ch))), ch, chan))
  {
  }

  lemma NewChannelWired(s: State, c: ClientId, ch: ChanId, chan: Chan)
    requires ClientsWired(s) && c in s.clients && ch !in s.chans
    requires chan.owner == c && chan.entered == [] && chan.taken == 0
    ensures ClientsWired(SetChan(SetClient(s, c, s.clients[c].(slot := Some(ch))), ch, chan))
  {
  }

  lemma ChangeFilters(s: State, m: Db.SubMap<ClientId>)
    requires ClientsWired(s)
    ensures var t := s.(index := s.index.(submap := m)); Grows(s, t) && ClientsWired(t)
  {
  }

  lemma AbortGrows(s: State, c: ClientId, client: Client)
    requires ClientsWired(s) && c in s.clients
    requires client.token == s.clients[c].token && client.acl == s.clients[c].acl && client.slot == s.clients[c].slot
    requires Attends(client.handler) ==> Attends(s.clients[c].handler)
    requires Parted(client.handler) ==> Parted(s.clients[c].handler)
    ensures var t := SetClient(AbortAll(s, c), c, client); Grows(s, t) && ClientsWired(t)
  {
    AbortThenSet(s, c, client);
    ChangeClient(s, c, client, AbortAll(s, c).aborted);
  }

  lemma HandlerGrows(cfg: Config, s: State, step: Step)
    requires Wired(cfg, s) && Enabled(cfg, s, step) && IsHandlerStep(step)
    ensures Grows(s, Apply(cfg, s, step)) && ClientsWired(Apply(cfg, s, step))
  {
    var t := Apply(cfg, s, step);
    match step {
      case Register(c, token, _) =>
        FreshToken(cfg, s, token);
        EnterGrows(s, c, t.clients[c], cfg.digestOf(token));
        EnterWired(s, c, t.clients[c], cfg.digestOf(token));
      case TokenSent(c) => ChangeClient(s, c, t.clients[c], s.aborted);
      case TokenLost(c) => ChangeClient(s, c, t.clients[c], s.aborted);
      case Subscribe(_, _, _) => ChangeFilters(s, t.index.submap);
      case Unsubscribe(_, _, _) => ChangeFilters(s, t.index.submap);
      case Unregister(c) =>
        LeaveGrows(s, c, t.clients[c], cfg.digestOf(s.clients[c].token));
        LeaveWired(s, c, t.clients[c], cfg.digestOf(s.clients[c].token));
      case HandlerAborts(c) => AbortGrows(s, c, t.clients[c]);
      case HandlerReturns(c) => ChangeClient(s, c, t.clients[c], s.aborted);
      case DropClient(c) => AbortGrows(s, c, t.clients[c]);
    }
  }

  lemma AbortThenSet(s: State, c: ClientId, client: Client)
    requires c in s.clients
    ensures SetClient(AbortAll(s, c), c, client) == SetClient(s, c, client).(aborted := AbortAll(s, c).aborted)
  {
    assert s.clients[c := s.clients[c].(tasks := {})][c := client] == s.clients[c := client];
  }

  lemma AddTaskGrows(s: State, ch: ChanId, chan: Chan, t: Task)
    requires ClientsWired(s) && ch in s.chans
    requires chan.owner == s.chans[ch].owner && chan.taken <= |chan.entered| && s.chans[ch].closed == chan.closed
    requires chan.entered == s.chans[ch].entered
    ensures var u := AddTask(SetChan(s, ch, chan), chan.owner, t); Grows(s, u) && ClientsWired(u)
  {
    var mid := SetChan(s, ch, chan);
    ChangeChan(s, ch, chan);
    var u := AddTask(mid, chan.owner, t);
    ChangeClient(mid, chan.owner, u.clients[chan.owner], mid.aborted);
    GrowsTrans(s, mid, u);
  }

  lemma SetThenClearGrows(s: State, ch: ChanId, chan: Chan, token: Db.Token)
    requires ClientsWired(s) && ch in s.chans
    requires chan.owner == s.chans[ch].owner && chan.taken <= |chan.entered| && s.chans[ch].closed == chan.closed
    requires chan.entered == s.chans[ch].entered
    ensures var u := ClearSlot(SetChan(s, ch, chan), token); Grows(s, u) && ClientsWired(u)
  {
    var mid := SetChan(s, ch, chan);
    ChangeChan(s, ch, chan);
    ClearSlotGrows(mid, token);
    GrowsTrans(s, mid, ClearSlot(mid, token));
  }

  lemma OpenGrows(cfg: Config, s: State, step: Step)
    requires Wired(cfg, s) && Enabled(cfg, s, step) && step.OpenChannel?
    ensures Grows(s, ApplySession(s, step)) && ClientsWired(ApplySession(s, step))
  {
    var c := s.index.byToken[step.token];
    var chan := Chan(c, [], 0, false, Answering, NotSpawned, NotSpawned);
    NewChannelGrows(s, c, step.chan, chan);
    NewChannelWired(s, c, step.chan, chan);
  }

  lemma ChanStepGrows(cfg: Config, s: State, step: Step)
    requires Wired(cfg, s) && Enabled(cfg, s, step) && IsChanStep(step)
    ensures Grows(s, ApplySession(s, step)) && ClientsWired(ApplySession(s, step))
  {
    ChangeChan(s, step.chan, ChanAfter(s.chans[step.chan], step));
  }

  lemma SessionGrows(cfg: Config, s: State, step: Step)
    requires Wired(cfg, s) && Enabled(cfg, s, step) && !IsHandlerStep(step) && !IsPublisherStep(step)
    ensures Grows(s, Apply(cfg, s, step)) && ClientsWired(Apply(cfg, s, step))
  {
    if step.OpenChannel? {
      OpenGrows(cfg, s, step);
    } else if IsChanStep(step) {
      ChanStepGrows(cfg, s, step);
    } else {
      var ch := step.chan;
      var chan := ChanAfter(s.chans[ch], step);
      if step.WriterUnregisters? {
        SetThenClearGrows(s, ch, chan, s.clients[s.chans[ch].owner].token);
      } else {
        AddTaskGrows(s, ch, chan, if step.RegisterPinger? then PingerOf(ch) else WriterOf(ch));
      }
    }
  }

  lemma ClearThenSetGrows(s: State, token: Db.Token, p: PubId, pub: Publisher)
    requires ClientsWired(s)
    ensures var u := SetPublisher(ClearSlot(s, token), p, pub); Grows(s, u) && ClientsWired(u)
  {
    var mid := ClearSlot(s, token);
    ClearSlotGrows(s, token);
    ChangePublisher(mid, p, pub);
    GrowsTrans(s, mid, SetPublisher(mid, p, pub));
  }

  lemma AbortThenSetGrows(s: State, c: ClientId, p: PubId, pub: Publisher)
    requires ClientsWired(s) && c in s.clients
    ensures var u := SetPublisher(AbortAll(s, c), p, pub); Grows(s, u) && ClientsWired(u)
  {
    var mid := AbortAll(s, c);
    ChangeClient(s, c, mid.clients[c], mid.aborted);
    ChangePublisher(mid, p, pub);
    GrowsTrans(s, mid, SetPublisher(mid, p, pub));
  }

  lemma SendGrows(s: State, p: PubId, pub: Publisher, ch: ChanId, chan: Chan)
    requires ClientsWired(s) && ch in s.chans
    requires chan.owner == s.chans[ch].owner && chan.taken <= |chan.entered| && s.chans[ch].closed == chan.closed
    ensures var u := SetChan(SetPublisher(s, p, pub), ch, chan); Grows(s, u) && ClientsWired(u)
  {
    var mid := SetPublisher(s, p, pub);
    ChangePublisher(s, p, pub);
    ChangeChan(mid, ch, chan);
    GrowsTrans(s, mid, SetChan(mid, ch, chan));
  }

  lemma PublisherGrows(cfg: Config, s: State, step: Step)
    requires Wired(cfg, s) && Enabled(cfg, s, step) && IsPublisherStep(step)
    ensures Grows(s, Apply(cfg, s, step)) && ClientsWired(Apply(cfg, s, step))
  {
    var t := Apply(cfg, s, step);
    match step {
      case Publish(p, _, _, _, _, _) => ChangePublisher(s, p, t.publishers[p]);
      case Visit(p, _) => ChangePublisher(s, p, t.publishers[p]);
      case Check(p) => ChangePublisher(s, p, t.publishers[p]);
      case DropChannel(p) => ClearThenSetGrows(s, s.clients[s.publishers[p].pc.client].token, p, t.publishers[p]);
      case AbortTasks(p) => AbortThenSetGrows(s, s.publishers[p].pc.client, p, t.publishers[p]);
      case Send(p) =>
        ChangePublisher(s, p, t.publishers[p]);
        SendGrows(s, p, t.publishers[p], s.publishers[p].pc.chan, t.chans[s.publishers[p].pc.chan]);
      case Finish(p) => ChangePublisher(s, p, t.publishers[p]);
    }
  }

  lemma StepGrows(cfg: Config, s: State, step: Step)
    requires Wired(cfg, s) && Enabled(cfg, s, step)
    ensures Grows(s, Apply(cfg, s, step)) && ClientsWired(Apply(cfg, s, step))
  {
    if IsHandlerStep(step) {
      HandlerGrows(cfg, s, step);
    } else if IsPublisherStep(step) {
      PublisherGrows(cfg, s, step);
    } else {
      SessionGrows(cfg, s, step);
    }
  }

  /** The token map stays a bijection onto the clients of the subscription index. */
  lemma StepKeepsBijection(cfg: Config, s: State, step: Step)
    requires Wired(cfg, s) && Enabled(cfg, s, step)
    ensures Db.Bijection(Apply(cfg, s, step).index, cfg.digestOf)
  {
    if IsHandlerStep(step) {
      HandlerKeepsBijection(cfg, s, step);
    } else if IsPublisherStep(step) {
      PublisherFrame(cfg, s, step);
    } else {
      SessionFrame(cfg, s, step);
    }
  }

  lemma HandlerKeepsBijection(cfg: Config, s: State, step: Step)
    requires Wired(cfg, s) && Enabled(cfg, s, step) && IsHandlerStep(step)
    ensures Db.Bijection(ApplyHandler(cfg, s, step).index, cfg.digestOf)
  {
    match step {
      case Register(c, token, _) => RegisterKeepsBijection(cfg, s, c, token);
      case Subscribe(c, raw, _) =>
        Db.SubscribeKeepsBijection(s.index, cfg.digestOf, cfg.digestOf(s.clients[c].token), Prepared(raw));
      case Unsubscribe(c, raw, _) =>
        Db.SubscribeKeepsBijection(s.index, cfg.digestOf, cfg.digestOf(s.clients[c].token), Prepared(raw));
      case Unregister(c) => Db.LeaveKeepsBijection(s.index, cfg.digestOf, s.clients[c].token);
      case _ =>
    }
  }

  lemma RegisterKeepsBijection(cfg: Config, s: State, c: ClientId, token: Db.Token)
    requires Wired(cfg, s) && c !in s.clients && cfg.digestOf(token) !in s.index.submap.clients
    ensures Db.Bijection(Db.Entered(s.index, token, cfg.digestOf(token), c), cfg.digestOf)
  {
    Db.EnterKeepsBijection(s.index, cfg.digestOf, token, c);
  }

  lemma StepKeepsWired(cfg: Config, s: State, step: Step)
    requires Wired(cfg, s) && Enabled(cfg, s, step)
    ensures Wired(cfg, Apply(cfg, s, step))
  {
    StepGrows(cfg, s, step);
    StepKeepsBijection(cfg, s, step);
  }

  lemma PubWiredGrows(s: State, t: State, pub: Publisher)
    requires ClientsWired(s) && Grows(s, t) && PubWired(s, pub)
    ensures PubWired(t, pub)
  {
  }

  /** A step belongs to at most one publisher. */
  lemma OthersUnchanged(cfg: Config, s: State, step: Step, p: PubId)
    requires Enabled(cfg, s, step)
    requires !IsPublisherStep(step) || p != step.publisher
    ensures PublisherOf(Apply(cfg, s, step), p) == PublisherOf(s, p)
    ensures p in Apply(cfg, s, step).publishers <==> p in s.publishers
  {
    if IsHandlerStep(step) {
      HandlerFrame(cfg, s, step);
    } else if !IsPublisherStep(step) {
      SessionFrame(cfg, s, step);
    }
  }

  // ---------------------------------------------------------------- the delivery invariant

  /** On each channel, attempts belong to later and later pushes, and after one that failed none
      succeeds. */
  ghost predicate Disciplined(attempts: seq<Attempt>) {
    forall j, k :: 0 <= j < k < |attempts| && attempts[j].chan == attempts[k].chan ==>
      attempts[j].push < attempts[k].push && (attempts[k].sent ==> attempts[j].sent)
  }

  /** Nothing the publisher will ever try can enter `ch` again: it is closed, or out of its slot,
      or its client is unregistered and not among the subscribers still to be visited. */
  ghost predicate Dead(s: State, pc: PubPc, ch: ChanId) {
    && ch in s.chans
    && var c := s.chans[ch].owner;
       || s.chans[ch].closed
       || (c in s.clients && s.clients[c].slot != Some(ch))
       || (!IsRegistered(s, c) && c !in LeftOf(pc))
  }

  /** The push in progress visits every subscriber once. */
  ghost predicate Once(s: State, pub: Publisher) {
    !pub.pc.AtRest? ==>
      forall i :: 0 <= i < |pub.attempts| && pub.attempts[i].push == |pub.log| - 1 ==>
        && pub.attempts[i].chan in s.chans
        && var c := s.chans[pub.attempts[i].chan].owner;
           && c !in LeftOf(pub.pc)
           && (pub.pc.Checking? || pub.pc.Sending? ==> c != pub.pc.client)
  }

  ghost predicate Failures(s: State, pub: Publisher) {
    forall i :: 0 <= i < |pub.attempts| && !pub.attempts[i].sent ==>
      && (Dead(s, pub.pc, pub.attempts[i].chan) || (pub.pc.Dropping? && pub.pc.chan == pub.attempts[i].chan))
      && (pub.pc.Checking? || pub.pc.Sending? ==>
            pub.attempts[i].chan == pub.pc.chan ==> pub.pc.chan in s.chans && s.chans[pub.pc.chan].closed)
  }

  /** The queues hold what the attempts say. */
  ghost predicate Accounted(s: State, p: PubId, pub: Publisher) {
    forall ch :: ch in s.chans ==> EnteredBy(s.chans[ch].entered, p) == SentOn(pub.attempts, ch)
  }

  ghost predicate PubDelivery(s: State, p: PubId, pub: Publisher) {
    PubWired(s, pub) && Disciplined(pub.attempts) && Once(s, pub) && Failures(s, pub) && Accounted(s, p, pub)
  }

  ghost predicate Delivery(s: State) {
    forall p: PubId :: PubDelivery(s, p, PublisherOf(s, p))
  }

  // ---------------------------------------------------------------- other publishers

  lemma DeadGrows(s: State, t: State, pc: PubPc, ch: ChanId)
    requires ClientsWired(s) && Grows(s, t) && Dead(s, pc, ch)
    ensures Dead(t, pc, ch)
  {
  }

  lemma EnteredSame(cfg: Config, s: State, step: Step, ch: ChanId)
    requires Enabled(cfg, s, step) && ch in s.chans
    requires !step.Beat? && !step.Send?
    ensures ch in Apply(cfg, s, step).chans
    ensures Apply(cfg, s, step).chans[ch].entered == s.chans[ch].entered
  {
    if IsHandlerStep(step) {
      HandlerFrame(cfg, s, step);
    } else if IsPublisherStep(step) {
      PublisherFrame(cfg, s, step);
    } else {
      SessionFrame(cfg, s, step);
    }
  }

  lemma EnteredKept(cfg: Config, s: State, step: Step, p: PubId, ch: ChanId)
    requires Wired(cfg, s) && Enabled(cfg, s, step) && ch in s.chans
    requires step != Send(p)
    ensures ch in Apply(cfg, s, step).chans
    ensures EnteredBy(Apply(cfg, s, step).chans[ch].entered, p) == EnteredBy(s.chans[ch].entered, p)
  {
    if step.Beat? {
      EnteredByStep(s.chans[step.chan].entered, Beacon, p);
    } else if step.Send? {
      var chan := s.publishers[step.publisher].pc.chan;
      EnteredByStep(s.chans[chan].entered, Note(step.publisher, |s.publishers[step.publisher].log| - 1), p);
    } else {
      EnteredSame(cfg, s, step, ch);
    }
  }

  /** What a step leaves of the delivery invariant for a publisher that has not moved yet. */
  lemma DeliveryGrows(s: State, t: State, p: PubId, pub: Publisher)
    requires ClientsWired(s) && Grows(s, t) && PubDelivery(s, p, pub)
    ensures PubWired(t, pub) && Once(t, pub) && Failures(t, pub)
  {
    PubWiredGrows(s, t, pub);
    forall i | 0 <= i < |pub.attempts| && !pub.attempts[i].sent && Dead(s, pub.pc, pub.attempts[i].chan)
      ensures Dead(t, pub.pc, pub.attempts[i].chan)
    {
      DeadGrows(s, t, pub.pc, pub.attempts[i].chan);
    }
  }

  lemma AccountedGrows(cfg: Config, s: State, step: Step, p: PubId, pub: Publisher)
    requires Wired(cfg, s) && Enabled(cfg, s, step) && step != Send(p) && PubDelivery(s, p, pub)
    ensures Accounted(Apply(cfg, s, step), p, pub)
  {
    var t := Apply(cfg, s, step);
    StepGrows(cfg, s, step);
    forall ch | ch in t.chans
      ensures EnteredBy(t.chans[ch].entered, p) == SentOn(pub.attempts, ch)
    {
      if ch in s.chans {
        EnteredKept(cfg, s, step, p, ch);
      } else {
        NoAttempts(pub.attempts, ch);
      }
    }
  }

  lemma UnmovedDelivery(cfg: Config, s: State, step: Step, p: PubId, pub: Publisher)
    requires Wired(cfg, s) && Enabled(cfg, s, step) && step != Send(p) && PubDelivery(s, p, pub)
    ensures PubDelivery(Apply(cfg, s, step), p, pub)
  {
    StepGrows(cfg, s, step);
    DeliveryGrows(s, Apply(cfg, s, step), p, pub);
    AccountedGrows(cfg, s, step, p, pub);
  }

  // ---------------------------------------------------------------- the publisher's own moves, in a fixed state

  lemma MovePublish(s: State, p: PubId, pub: Publisher, push: Push)
    requires PubDelivery(s, p, pub) && pub.pc.AtRest?
    requires forall c :: c in push.subscribers ==> IsRegistered(s, c)
    ensures PubDelivery(s, p, pub.(pc := Visiting(push.subscribers), log := pub.log + [push]))
  {
  }

  lemma MoveVisit(s: State, p: PubId, pub: Publisher, c: ClientId, pc: PubPc)
    requires ClientsWired(s) && PubDelivery(s, p, pub) && pub.pc.Visiting? && c in pub.pc.left && c in s.clients
    requires pc == match s.clients[c].slot
                   case None => Visiting(pub.pc.left - {c})
                   case Some(ch) => Checking(pub.pc.left - {c}, c, ch)
    ensures PubDelivery(s, p, pub.(pc := pc))
  {
  }

  lemma MoveToSend(s: State, p: PubId, pub: Publisher)
    requires PubDelivery(s, p, pub) && pub.pc.Checking?
    ensures PubDelivery(s, p, pub.(pc := Sending(pub.pc.left, pub.pc.client, pub.pc.chan)))
  {
  }

  lemma DisciplinedAppend(attempts: seq<Attempt>, a: Attempt)
    requires Disciplined(attempts)
    requires forall i :: 0 <= i < |attempts| && attempts[i].chan == a.chan ==>
               attempts[i].push < a.push && (a.sent ==> attempts[i].sent)
    ensures Disciplined(attempts + [a])
  {
  }

  lemma EarlierPushes(s: State, p: PubId, pub: Publisher)
    requires PubDelivery(s, p, pub) && (pub.pc.Checking? || pub.pc.Sending?)
    ensures forall i :: 0 <= i < |pub.attempts| && pub.attempts[i].chan == pub.pc.chan ==>
              pub.attempts[i].push < |pub.log| - 1
  {
  }

  lemma AccountedFailed(s: State, p: PubId, pub: Publisher, ch: ChanId, push: nat)
    requires Accounted(s, p, pub)
    ensures Accounted(s, p, pub.(attempts := pub.attempts + [Attempt(ch, push, false)]))
  {
    forall d | d in s.chans
      ensures SentOn(pub.attempts + [Attempt(ch, push, false)], d) == SentOn(pub.attempts, d)
    {
      AttemptStep(pub.attempts, Attempt(ch, push, false), d);
    }
  }

  lemma AccountedSent(s: State, p: PubId, pub: Publisher, t: State, ch: ChanId, push: nat)
    requires Accounted(s, p, pub) && ch in s.chans
    requires t.chans == s.chans[ch := s.chans[ch].(entered := s.chans[ch].entered + [Note(p, push)])]
    ensures Accounted(t, p, pub.(attempts := pub.attempts + [Attempt(ch, push, true)]))
  {
    EnteredByStep(s.chans[ch].entered, Note(p, push), p);
    forall d | d in t.chans
      ensures EnteredBy(t.chans[d].entered, p) == SentOn(pub.attempts + [Attempt(ch, push, true)], d)
    {
      AttemptStep(pub.attempts, Attempt(ch, push, true), d);
    }
  }

  lemma MoveToDrop(s: State, p: PubId, pub: Publisher)
    requires PubDelivery(s, p, pub) && pub.pc.Checking?
    ensures PubDelivery(s, p, pub.(pc := Dropping(pub.pc.left, pub.pc.client, pub.pc.chan),
                                   attempts := pub.attempts + [Attempt(pub.pc.chan, |pub.log| - 1, false)]))
  {
    EarlierPushes(s, p, pub);
    AccountedFailed(s, p, pub, pub.pc.chan, |pub.log| - 1);
    DisciplinedAppend(pub.attempts, Attempt(pub.pc.chan, |pub.log| - 1, false));
  }

  lemma MoveDropped(s: State, p: PubId, pub: Publisher)
    requires PubDelivery(s, p, pub) && pub.pc.Dropping?
    requires Dead(s, Aborting(pub.pc.left, pub.pc.client), pub.pc.chan)
    ensures PubDelivery(s, p, pub.(pc := Aborting(pub.pc.left, pub.pc.client)))
  {
  }

  lemma MoveAborted(s: State, p: PubId, pub: Publisher)
    requires PubDelivery(s, p, pub) && pub.pc.Aborting?
    ensures PubDelivery(s, p, pub.(pc := Visiting(pub.pc.left)))
  {
  }

  lemma MoveRefused(s: State, p: PubId, pub: Publisher)
    requires PubDelivery(s, p, pub) && pub.pc.Sending? && s.chans[pub.pc.chan].closed
    ensures PubDelivery(s, p, pub.(pc := Visiting(pub.pc.left),
                                   attempts := pub.attempts + [Attempt(pub.pc.chan, |pub.log| - 1, false)]))
  {
    EarlierPushes(s, p, pub);
    AccountedFailed(s, p, pub, pub.pc.chan, |pub.log| - 1);
    DisciplinedAppend(pub.attempts, Attempt(pub.pc.chan, |pub.log| - 1, false));
  }

  lemma MoveSent(s: State, p: PubId, pub: Publisher, t: State)
    requires ClientsWired(s) && Grows(s, t)
    requires PubDelivery(s, p, pub) && pub.pc.Sending? && !s.chans[pub.pc.chan].closed
    requires t.chans == s.chans[pub.pc.chan := s.chans[pub.pc.chan].(
               entered := s.chans[pub.pc.chan].entered + [Note(p, |pub.log| - 1)])]
    ensures PubDelivery(t, p, pub.(pc := Visiting(pub.pc.left),
                                   attempts := pub.attempts + [Attempt(pub.pc.chan, |pub.log| - 1, true)]))
  {
    var a := Attempt(pub.pc.chan, |pub.log| - 1, true);
    DeliveryGrows(s, t, p, pub);
    EarlierPushes(s, p, pub);
    DisciplinedAppend(pub.attempts, a);
    AccountedSent(s, p, pub, t, pub.pc.chan, |pub.log| - 1);
    PassedOn(t, pub, a);
  }

  lemma PassedOn(t: State, pub: Publisher, a: Attempt)
    requires PubWired(t, pub) && Once(t, pub) && Failures(t, pub) && pub.pc.Sending?
    requires a == Attempt(pub.pc.chan, |pub.log| - 1, true)
    ensures var after := pub.(pc := Visiting(pub.pc.left), attempts := pub.attempts + [a]);
            PubWired(t, after) && Once(t, after) && Failures(t, after)
  {
  }

  lemma MoveFinish(s: State, p: PubId, pub: Publisher)
    requires PubDelivery(s, p, pub) && pub.pc == Visiting({})
    ensures PubDelivery(s, p, pub.(pc := AtRest))
  {
  }

  // ---------------------------------------------------------------- every step keeps it

  ghost predicate Inv(cfg: Config, s: State) {
    Wired(cfg, s) && Delivery(s)
  }

  lemma KeepsPublish(cfg: Config, s: State, step: Step)
    requires Inv(cfg, s) && Enabled(cfg, s, step) && step.Publish?
    ensures PubDelivery(Apply(cfg, s, step), step.publisher, PublisherOf(Apply(cfg, s, step), step.publisher))
  {
    var t, p := Apply(cfg, s, step), step.publisher;
    var pub := PublisherOf(s, p);
    UnmovedDelivery(cfg, s, step, p, pub);
    MovePublish(t, p, pub, t.publishers[p].log[|pub.log|]);
  }

  lemma KeepsVisit(cfg: Config, s: State, step: Step)
    requires Inv(cfg, s) && Enabled(cfg, s, step) && step.Visit?
    ensures PubDelivery(Apply(cfg, s, step), step.publisher, PublisherOf(Apply(cfg, s, step), step.publisher))
  {
    var t, p := Apply(cfg, s, step), step.publisher;
    var pub := PublisherOf(s, p);
    StepGrows(cfg, s, step);
    UnmovedDelivery(cfg, s, step, p, pub);
    MoveVisit(t, p, pub, step.client, t.publishers[p].pc);
  }

  lemma KeepsCheck(cfg: Config, s: State, step: Step)
    requires Inv(cfg, s) && Enabled(cfg, s, step) && step.Check?
    ensures PubDelivery(Apply(cfg, s, step), step.publisher, PublisherOf(Apply(cfg, s, step), step.publisher))
  {
    var t, p := Apply(cfg, s, step), step.publisher;
    var pub := PublisherOf(s, p);
    UnmovedDelivery(cfg, s, step, p, pub);
    if Full(cfg, s.chans[pub.pc.chan]) {
      MoveToDrop(t, p, pub);
    } else {
      MoveToSend(t, p, pub);
    }
  }

  /** After a full queue was dropped its channel is out of reach: its slot is cleared, or its
      client had already been unregistered. */
  lemma KeepsDropChannel(cfg: Config, s: State, step: Step)
    requires Inv(cfg, s) && Enabled(cfg, s, step) && step.DropChannel?
    ensures PubDelivery(Apply(cfg, s, step), step.publisher, PublisherOf(Apply(cfg, s, step), step.publisher))
  {
    var t, p := Apply(cfg, s, step), step.publisher;
    var pub := PublisherOf(s, p);
    UnmovedDelivery(cfg, s, step, p, pub);
    assert PubWired(s, pub);
    assert t == SetPublisher(ClearSlot(s, s.clients[pub.pc.client].token), p, t.publishers[p]);
    ClearedIsDead(s, pub, p, t.publishers[p]);
    MoveDropped(t, p, pub);
  }

  lemma ClearedIsDead(s: State, pub: Publisher, p: PubId, after: Publisher)
    requires ClientsWired(s) && PubWired(s, pub) && pub.pc.Dropping? && pub.pc.client in s.clients
    ensures Dead(SetPublisher(ClearSlot(s, s.clients[pub.pc.client].token), p, after),
                 Aborting(pub.pc.left, pub.pc.client), pub.pc.chan)
  {
  }

  lemma KeepsAbortTasks(cfg: Config, s: State, step: Step)
    requires Inv(cfg, s) && Enabled(cfg, s, step) && step.AbortTasks?
    ensures PubDelivery(Apply(cfg, s, step), step.publisher, PublisherOf(Apply(cfg, s, step), step.publisher))
  {
    var t, p := Apply(cfg, s, step), step.publisher;
    UnmovedDelivery(cfg, s, step, p, PublisherOf(s, p));
    MoveAborted(t, p, PublisherOf(s, p));
  }

  /** A send into an open channel. */
  lemma KeepsSent(cfg: Config, s: State, step: Step)
    requires Inv(cfg, s) && Enabled(cfg, s, step) && step.Send?
    requires !s.chans[s.publishers[step.publisher].pc.chan].closed
    ensures PubDelivery(Apply(cfg, s, step), step.publisher, PublisherOf(Apply(cfg, s, step), step.publisher))
  {
    var p := step.publisher;
    StepGrows(cfg, s, step);
    assert PubDelivery(s, p, PublisherOf(s, p));
    MoveSent(s, p, PublisherOf(s, p), Apply(cfg, s, step));
  }

  /** A send into a closed one. */
  lemma KeepsRefused(cfg: Config, s: State, step: Step)
    requires Inv(cfg, s) && Enabled(cfg, s, step) && step.Send?
    requires s.chans[s.publishers[step.publisher].pc.chan].closed
    ensures PubDelivery(Apply(cfg, s, step), step.publisher, PublisherOf(Apply(cfg, s, step), step.publisher))
  {
    var p := step.publisher;
    assert Grows(s, Apply(cfg, s, step)) by {
      StepGrows(cfg, s, step);
    }
    RefusedSendIs(cfg, s, step);
    RefusedIsKept(s, Apply(cfg, s, step), p, PublisherOf(s, p));
  }

  lemma RefusedSendIs(cfg: Config, s: State, step: Step)
    requires Enabled(cfg, s, step) && step.Send?
    requires s.chans[s.publishers[step.publisher].pc.chan].closed
    ensures var t, pub := Apply(cfg, s, step), s.publishers[step.publisher];
            && t.chans == s.chans
            && PublisherOf(t, step.publisher)
            == pub.(pc := Visiting(pub.pc.left),
                    attempts := pub.attempts + [Attempt(pub.pc.chan, |pub.log| - 1, false)])
  {
  }

  lemma KeepsSend(cfg: Config, s: State, step: Step)
    requires Inv(cfg, s) && Enabled(cfg, s, step) && step.Send?
    ensures PubDelivery(Apply(cfg, s, step), step.publisher, PublisherOf(Apply(cfg, s, step), step.publisher))
  {
    if s.chans[s.publishers[step.publisher].pc.chan].closed {
      KeepsRefused(cfg, s, step);
    } else {
      KeepsSent(cfg, s, step);
    }
  }

  lemma RefusedIsKept(s: State, t: State, p: PubId, pub: Publisher)
    requires ClientsWired(s) && Grows(s, t) && PubDelivery(s, p, pub) && t.chans == s.chans
    requires pub.pc.Sending? && s.chans[pub.pc.chan].closed
    ensures PubDelivery(t, p, pub.(pc := Visiting(pub.pc.left),
                                   attempts := pub.attempts + [Attempt(pub.pc.chan, |pub.log| - 1, false)]))
  {
    DeliveryGrows(s, t, p, pub);
    MoveRefused(t, p, pub);
  }

  lemma KeepsFinish(cfg: Config, s: State, step: Step)
    requires Inv(cfg, s) && Enabled(cfg, s, step) && step.Finish?
    ensures PubDelivery(Apply(cfg, s, step), step.publisher, PublisherOf(Apply(cfg, s, step), step.publisher))
  {
    var t, p := Apply(cfg, s, step), step.publisher;
    UnmovedDelivery(cfg, s, step, p, PublisherOf(s, p));
    MoveFinish(t, p, PublisherOf(s, p));
  }

  lemma KeepsOwn(cfg: Config, s: State, step: Step)
    requires Inv(cfg, s) && Enabled(cfg, s, step) && IsPublisherStep(step)
    ensures PubDelivery(Apply(cfg, s, step), step.publisher, PublisherOf(Apply(cfg, s, step), step.publisher))
  {
    if step.Publish? { KeepsPublish(cfg, s, step); }
    else if step.Visit? { KeepsVisit(cfg, s, step); }
    else if step.Check? { KeepsCheck(cfg, s, step); }
    else if step.DropChannel? { KeepsDropChannel(cfg, s, step); }
    else if step.AbortTasks? { KeepsAbortTasks(cfg, s, step); }
    else if step.Send? { KeepsSend(cfg, s, step); }
    else { KeepsFinish(cfg, s, step); }
  }

  lemma KeepsOther(cfg: Config, s: State, step: Step, p: PubId)
    requires Inv(cfg, s) && Enabled(cfg, s, step) && step != Send(p)
    requires PublisherOf(Apply(cfg, s, step), p) == PublisherOf(s, p)
    ensures PubDelivery(Apply(cfg, s, step), p, PublisherOf(Apply(cfg, s, step), p))
  {
    assert PubDelivery(s, p, PublisherOf(s, p));
    UnmovedDelivery(cfg, s, step, p, PublisherOf(s, p));
  }

  lemma StepKeepsDelivery(cfg: Config, s: State, step: Step, p: PubId)
    requires Inv(cfg, s) && Enabled(cfg, s, step)
    ensures PubDelivery(Apply(cfg, s, step), p, PublisherOf(Apply(cfg, s, step), p))
  {
    if IsPublisherStep(step) && p == step.publisher {
      KeepsOwn(cfg, s, step);
    } else {
      OthersUnchanged(cfg, s, step, p);
      KeepsOther(cfg, s, step, p);
    }
  }

  lemma StepKeepsInv(cfg: Config, s: State, step: Step)
    requires Inv(cfg, s) && Enabled(cfg, s, step)
    ensures Inv(cfg, Apply(cfg, s, step))
  {
    StepKeepsWired(cfg, s, step);
    forall p: PubId
      ensures PubDelivery(Apply(cfg, s, step), p, PublisherOf(Apply(cfg, s, step), p))
    {
      StepKeepsDelivery(cfg, s, step, p);
    }
  }

  lemma {:induction false} ReachableInv(cfg: Config, steps: seq<Step>)
    requires After(cfg, steps).Some?
    ensures Inv(cfg, After(cfg, steps).value)
    decreases steps
  {
    if steps != [] {
      var fewer := steps[..|steps| - 1];
      ReachableInv(cfg, fewer);
      StepKeepsInv(cfg, After(cfg, fewer).value, steps[|steps| - 1]);
    }
  }

  // ---------------------------------------------------------------- the main result

  lemma {:induction false} TriedFrom(attempts: seq<Attempt>, ch: ChanId)
    ensures forall x :: x in TriedOn(attempts, ch) ==>
            exists i :: 0 <= i < |attempts| && attempts[i].chan == ch && attempts[i].push == x
    ensures forall x :: x in SentOn(attempts, ch) ==>
            exists i :: 0 <= i < |attempts| && attempts[i] == Attempt(ch, x, true)
  {
    if attempts != [] {
      var n := |attempts| - 1;
      var front := attempts[..n];
      TriedFrom(front, ch);
      forall x | x in TriedOn(attempts, ch)
        ensures exists i :: 0 <= i < |attempts| && attempts[i].chan == ch && attempts[i].push == x
      {
        if x in TriedOn(front, ch) {
          var i :| 0 <= i < |front| && front[i].chan == ch && front[i].push == x;
          assert attempts[i] == front[i];
        } else {
          assert attempts[n].push == x;
        }
      }
      forall x | x in SentOn(attempts, ch)
        ensures exists i :: 0 <= i < |attempts| && attempts[i] == Attempt(ch, x, true)
      {
        if x in SentOn(front, ch) {
          var i :| 0 <= i < |front| && front[i] == Attempt(ch, x, true);
          assert attempts[i] == front[i];
        } else {
          assert attempts[n] == Attempt(ch, x, true);
        }
      }
    }
  }

  lemma DisciplinedFront(attempts: seq<Attempt>)
    requires Disciplined(attempts) && attempts != []
    ensures Disciplined(attempts[..|attempts| - 1])
  {
  }

  lemma {:induction false} AllSent(attempts: seq<Attempt>, ch: ChanId)
    requires forall i :: 0 <= i < |attempts| && attempts[i].chan == ch ==> attempts[i].sent
    ensures SentOn(attempts, ch) == TriedOn(attempts, ch)
  {
    if attempts != [] {
      AllSent(attempts[..|attempts| - 1], ch);
    }
  }

  /** Disciplined attempts that succeed are the first ones. */
  lemma {:induction false} SentIsPrefix(attempts: seq<Attempt>, ch: ChanId)
    requires Disciplined(attempts)
    ensures SentOn(attempts, ch) <= TriedOn(attempts, ch)
  {
    if attempts != [] {
      var n := |attempts| - 1;
      DisciplinedFront(attempts);
      SentIsPrefix(attempts[..n], ch);
      if attempts[n].chan == ch && attempts[n].sent {
        AllSent(attempts[..n], ch);
      }
    }
  }

  lemma {:induction false} TriedIncreases(attempts: seq<Attempt>, ch: ChanId)
    requires Disciplined(attempts)
    ensures forall j, k :: 0 <= j < k < |TriedOn(attempts, ch)| ==> TriedOn(attempts, ch)[j] < TriedOn(attempts, ch)[k]
  {
    if attempts != [] {
      var n := |attempts| - 1;
      var front := attempts[..n];
      DisciplinedFront(attempts);
      TriedIncreases(front, ch);
      TriedFrom(front, ch);
      if attempts[n].chan == ch {
        forall j | 0 <= j < |TriedOn(front, ch)|
          ensures TriedOn(front, ch)[j] < attempts[n].push
        {
          var x := TriedOn(front, ch)[j];
          assert x in TriedOn(front, ch);
          var i :| 0 <= i < |front| && front[i].chan == ch && front[i].push == x;
          assert attempts[i] == front[i];
        }
      }
    }
  }

  /** What the discipline of attempts means for one channel. */
  lemma DisciplinedRun(attempts: seq<Attempt>, ch: ChanId, pushes: nat)
    requires Disciplined(attempts)
    requires forall i :: 0 <= i < |attempts| ==> attempts[i].push < pushes
    ensures forall i :: 0 <= i < |TriedOn(attempts, ch)| ==> TriedOn(attempts, ch)[i] < pushes
    ensures forall i, x :: 0 <= i < |attempts| && attempts[i].chan == ch ==>
              !attempts[i].sent && x in SentOn(attempts, ch) ==> x < attempts[i].push
  {
    TriedFrom(attempts, ch);
    forall i | 0 <= i < |TriedOn(attempts, ch)|
      ensures TriedOn(attempts, ch)[i] < pushes
    {
      assert TriedOn(attempts, ch)[i] in TriedOn(attempts, ch);
    }
    forall i, x | 0 <= i < |attempts| && attempts[i].chan == ch && !attempts[i].sent && x in SentOn(attempts, ch)
      ensures x < attempts[i].push
    {
      var k :| 0 <= k < |attempts| && attempts[k] == Attempt(ch, x, true);
      assert !(i < k);
    }
  }

  /** The pushes of `p` in whose visit of a client `data_channel()` returned `ch`: a history of the
      run, in order. */
  function FoundOn(cfg: Config, steps: seq<Step>, p: PubId, ch: ChanId): seq<nat>
    decreases steps
  {
    if steps == [] then []
    else
      var fewer, step := steps[..|steps| - 1], steps[|steps| - 1];
      var before := After(cfg, fewer);
      FoundOn(cfg, fewer, p, ch) + if before.Some? then FoundIn(before.value, step, p, ch) else []
  }

  /** The push in which a step finds `ch`, if it does. */
  function FoundIn(s: State, step: Step, p: PubId, ch: ChanId): seq<nat> {
    var log := PublisherOf(s, p).log;
    if step.Visit? && step.publisher == p && log != []
       && step.client in s.clients && s.clients[step.client].slot == Some(ch)
    then [|log| - 1]
    else []
  }

  /** The push that has found `ch` and not yet come to an end there. */
  function Undecided(pub: Publisher, ch: ChanId): seq<nat> {
    if (pub.pc.Checking? || pub.pc.Sending?) && pub.pc.chan == ch && pub.log != [] then [|pub.log| - 1] else []
  }

  lemma FoundStep(cfg: Config, s: State, step: Step, p: PubId, ch: ChanId)
    requires PubWired(s, PublisherOf(s, p)) && Enabled(cfg, s, step)
    ensures var before, after := PublisherOf(s, p), PublisherOf(Apply(cfg, s, step), p);
            TriedOn(after.attempts, ch) + Undecided(after, ch)
              == TriedOn(before.attempts, ch) + Undecided(before, ch) + FoundIn(s, step, p, ch)
  {
    var before := PublisherOf(s, p);
    var tried := TriedOn(before.attempts, ch) + Undecided(before, ch);
    assert tried + [] == tried;
    if !IsPublisherStep(step) || p != step.publisher {
      OthersUnchanged(cfg, s, step, p);
    } else if step.Check? || step.Send? {
      ResolvedStep(cfg, s, step, ch);
    } else if step.Visit? {
      VisitedStep(cfg, s, step, ch);
      assert TriedOn(before.attempts, ch) + [] == TriedOn(before.attempts, ch);
    } else {
      MovedStep(cfg, s, step, ch);
    }
  }

  /** An undecided push becomes an attempt. */
  lemma Resolved(pub: Publisher, after: Publisher, a: Attempt, ch: ChanId)
    requires pub.log != [] && (pub.pc.Checking? || pub.pc.Sending?)
    requires a.chan == pub.pc.chan && a.push == |pub.log| - 1
    requires after.attempts == pub.attempts + [a] && !after.pc.Checking? && !after.pc.Sending?
    ensures TriedOn(after.attempts, ch) + Undecided(after, ch) == TriedOn(pub.attempts, ch) + Undecided(pub, ch)
  {
    AttemptStep(pub.attempts, a, ch);
    var tried := TriedOn(pub.attempts, ch) + Undecided(pub, ch);
    assert tried + [] == tried;
  }

  lemma ResolvedStep(cfg: Config, s: State, step: Step, ch: ChanId)
    requires Enabled(cfg, s, step) && (step.Check? || step.Send?)
    ensures var before, after := PublisherOf(s, step.publisher), PublisherOf(Apply(cfg, s, step), step.publisher);
            TriedOn(after.attempts, ch) + Undecided(after, ch) == TriedOn(before.attempts, ch) + Undecided(before, ch)
  {
    var pub, after := s.publishers[step.publisher], PublisherOf(Apply(cfg, s, step), step.publisher);
    if step.Send? || Full(cfg, s.chans[pub.pc.chan]) {
      var sent := step.Send? && !s.chans[pub.pc.chan].closed;
      Resolved(pub, after, Attempt(pub.pc.chan, |pub.log| - 1, sent), ch);
    } else {
      assert after.attempts == pub.attempts && Undecided(after, ch) == Undecided(pub, ch);
    }
  }

  lemma VisitedStep(cfg: Config, s: State, step: Step, ch: ChanId)
    requires Enabled(cfg, s, step) && step.Visit?
    requires PubWired(s, PublisherOf(s, step.publisher))
    ensures var before, after := PublisherOf(s, step.publisher), PublisherOf(Apply(cfg, s, step), step.publisher);
            && after.attempts == before.attempts && Undecided(before, ch) == []
            && Undecided(after, ch) == FoundIn(s, step, step.publisher, ch)
  {
  }

  lemma MovedStep(cfg: Config, s: State, step: Step, ch: ChanId)
    requires Enabled(cfg, s, step) && IsPublisherStep(step) && !step.Check? && !step.Send? && !step.Visit?
    ensures var before, after := PublisherOf(s, step.publisher), PublisherOf(Apply(cfg, s, step), step.publisher);
            && after.attempts == before.attempts && Undecided(before, ch) == [] && Undecided(after, ch) == []
  {
  }

  /** The attempts on record are the visits that found the channel, but for the one not yet decided. */
  lemma {:induction false} FoundIsTried(cfg: Config, steps: seq<Step>, s: State, p: PubId, ch: ChanId)
    requires After(cfg, steps) == Some(s)
    ensures var pub := PublisherOf(s, p);
            FoundOn(cfg, steps, p, ch) == TriedOn(pub.attempts, ch) + Undecided(pub, ch)
    decreases steps
  {
    if steps != [] {
      var fewer := steps[..|steps| - 1];
      var before := After(cfg, fewer).value;
      FoundIsTried(cfg, fewer, before, p, ch);
      ReachableInv(cfg, fewer);
      assert PubDelivery(before, p, PublisherOf(before, p));
      FoundStep(cfg, before, steps[|steps| - 1], p, ch);
    }
  }

  lemma FoundIncreases(s: State, p: PubId, pub: Publisher, ch: ChanId)
    requires PubDelivery(s, p, pub)
    ensures var found := TriedOn(pub.attempts, ch) + Undecided(pub, ch);
            && (forall j, k :: 0 <= j < k < |found| ==> found[j] < found[k])
            && (forall i :: 0 <= i < |found| ==> found[i] < |pub.log|)
  {
    TriedIncreases(pub.attempts, ch);
    DisciplinedRun(pub.attempts, ch, |pub.log|);
    if Undecided(pub, ch) != [] {
      EarlierPushes(s, p, pub);
      TriedFrom(pub.attempts, ch);
      forall i | 0 <= i < |TriedOn(pub.attempts, ch)|
        ensures TriedOn(pub.attempts, ch)[i] < |pub.log| - 1
      {
        assert TriedOn(pub.attempts, ch)[i] in TriedOn(pub.attempts, ch);
      }
    }
  }

  /** In every interleaving, what one publisher gets into one data-channel session is the first
      part, in order, without gaps or duplicates, of the pushes whose visit found that channel;
      after the first of them that fails, no later one enters. */
  lemma ContiguousRun(cfg: Config, steps: seq<Step>, s: State, p: PubId, ch: ChanId)
    requires After(cfg, steps) == Some(s)
    requires ch in s.chans
    ensures var pub := PublisherOf(s, p);
            var found, entered := FoundOn(cfg, steps, p, ch), EnteredBy(s.chans[ch].entered, p);
            && entered <= found
            && (forall j, k :: 0 <= j < k < |found| ==> found[j] < found[k])
            && (forall i :: 0 <= i < |found| ==> found[i] < |pub.log|)
            && found == TriedOn(pub.attempts, ch) + Undecided(pub, ch)
            && entered <= TriedOn(pub.attempts, ch)
            && (forall i, x :: 0 <= i < |pub.attempts| && pub.attempts[i].chan == ch ==>
                  !pub.attempts[i].sent && x in entered ==> x < pub.attempts[i].push)
  {
    ReachableInv(cfg, steps);
    var pub := PublisherOf(s, p);
    assert PubDelivery(s, p, pub);
    assert EnteredBy(s.chans[ch].entered, p) == SentOn(pub.attempts, ch);
    FoundIsTried(cfg, steps, s, p, ch);
    FoundIncreases(s, p, pub, ch);
    SentIsPrefix(pub.attempts, ch);
    DisciplinedRun(pub.attempts, ch, |pub.log|);
  }

  // ---------------------------------------------------------------- nobody is skipped

  /** The clients a publisher has visited since its latest push began. */
  function VisitedIn(steps: seq<Step>, p: PubId): set<ClientId>
    decreases steps
  {
    if steps == [] then {}
    else
      var before := VisitedIn(steps[..|steps| - 1], p);
      var step := steps[|steps| - 1];
      if step.Publish? && step.publisher == p then {}
      else if step.Visit? && step.publisher == p then before + {step.client}
      else before
  }

  /** Only a push and its visits change what is left to visit. */
  lemma LeftStep(cfg: Config, s: State, step: Step, p: PubId)
    requires Enabled(cfg, s, step)
    ensures var before, after := PublisherOf(s, p), PublisherOf(Apply(cfg, s, step), p);
            if step.Publish? && step.publisher == p then
              after.log != [] && LeftOf(after.pc) == after.log[|after.log| - 1].subscribers
            else
              && after.log == before.log
              && (if step.Visit? && step.publisher == p
                  then step.client in LeftOf(before.pc) && LeftOf(after.pc) == LeftOf(before.pc) - {step.client}
                  else LeftOf(after.pc) == LeftOf(before.pc))
  {
    if !IsPublisherStep(step) || p != step.publisher {
      OthersUnchanged(cfg, s, step, p);
    }
  }

  /** Of the subscribers in a push's snapshot, each is either visited, once, or still to be
      visited; when the push has returned, all have been. */
  lemma {:induction false} EveryoneVisited(cfg: Config, steps: seq<Step>, s: State, p: PubId)
    requires After(cfg, steps) == Some(s)
    ensures var pub := PublisherOf(s, p);
            && VisitedIn(steps, p) !! LeftOf(pub.pc)
            && (pub.log != [] ==> VisitedIn(steps, p) + LeftOf(pub.pc) == pub.log[|pub.log| - 1].subscribers)
            && (pub.log != [] && pub.pc.AtRest? ==> VisitedIn(steps, p) == pub.log[|pub.log| - 1].subscribers)
            && (pub.log == [] ==> VisitedIn(steps, p) == {} && LeftOf(pub.pc) == {})
    decreases steps
  {
    if steps != [] {
      var fewer := steps[..|steps| - 1];
      var before := After(cfg, fewer).value;
      EveryoneVisited(cfg, fewer, before, p);
      LeftStep(cfg, before, steps[|steps| - 1], p);
    }
  }
}
