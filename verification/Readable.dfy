/** A subscriber receives only topics its access list lets it read, over every run in which that
    list covers the filters stored for it. */
module Readable {
  import opened Wrappers
  import opened Bytes
  import opened Topic
  import opened PathMask
  import opened Server
  import opened Broker
  import opened Delivery
  import opened Vetting

  /** What a stored filter stands for; the empty one, which no mask parses from, for the empty path. */
  function FilterMask(filter: Text): PathMask {
    if filter == [] then EMPTY_PATH else ParseOf(filter).value
  }

  lemma FilterMeaning(filter: Text, path: seq<Chunk>)
    requires |path| >= 1
    ensures IsMask(FilterMask(filter))
    ensures Matches(FilterMask(filter), path) <==> ChunksMatch(Path(filter), path)
  {
    if filter == [] {
      EmptyTopic();
      FirstAnyIs([[]], 1);
    } else {
      ParseMeaning(filter, path);
    }
  }

  /** What is assumed of lookup: a filter reaches no topic outside its wildcard language. */
  ghost predicate FollowsMasks(cfg: Config) {
    forall f, t :: cfg.matches(f, t) ==> ChunksMatch(Path(f), Path(t))
  }

  /** The read masks of the access list, taken together, pass the check for the filter. */
  ghost predicate Careful(acl: Acl, filter: Text) {
    && acl.read.Some?
    && exists novel, longest ::
         Beyond(acl.read.value, novel, longest) && Covers(acl.read.value, FilterMask(filter), novel, longest)
  }

  /** In every subscription of client `c` in the run, its access list covers what is stored. */
  ghost predicate CarefulRun(cfg: Config, steps: seq<Step>, c: ClientId)
    decreases steps
  {
    steps == [] ||
    (var before := After(cfg, steps[..|steps| - 1]);
     && CarefulRun(cfg, steps[..|steps| - 1], c)
     && (before.Some? ==> CarefulStep(before.value, steps[|steps| - 1], c)))
  }

  ghost predicate CarefulStep(s: State, step: Step, c: ClientId) {
    step.Subscribe? && step.client == c && c in s.clients ==> Careful(s.clients[c].acl, Prepared(step.raw))
  }

  ghost predicate FilterReadable(s: State, c: ClientId, d: Text, f: Text) {
    d in s.index.submap.clients && s.index.submap.clients[d] == c ==> c in s.clients && Careful(s.clients[c].acl, f)
  }

  ghost predicate PushReadable(s: State, c: ClientId, push: Push) {
    c in push.subscribers ==> c in s.clients && AllowRead(s.clients[c].acl, push.message.topic)
  }

  ghost predicate LogReadable(s: State, c: ClientId, log: seq<Push>) {
    forall n :: 0 <= n < |log| ==> PushReadable(s, c, log[n])
  }

  /** Whatever is stored for the client is covered, and whatever was pushed to it is readable. */
  ghost predicate ReadableFor(s: State, c: ClientId) {
    && (forall d, f :: d in s.index.submap.filters && f in s.index.submap.filters[d] ==> FilterReadable(s, c, d, f))
    && (forall p :: p in s.publishers ==> LogReadable(s, c, s.publishers[p].log))
  }

  // ---------------------------------------------------------------- one subscription

  /** The check is exact: an access list lets its client read all topics of a filter iff it covers
      the filter. */
  lemma CarefulIff(acl: Acl, filter: Text)
    requires acl.read.Some? && forall m :: m in acl.read.value ==> IsMask(m)
    ensures (forall t: Text :: ChunksMatch(Path(filter), Path(t)) ==> AllowRead(acl, t)) <==> Careful(acl, filter)
  {
    var f := FilterMask(filter);
    FilterMeaning(filter, Path([]));
    forall t: Text
      ensures Matches(f, Path(t)) <==> ChunksMatch(Path(filter), Path(t))
    {
      FilterMeaning(filter, Path(t));
    }
    CarefulIsInclusion(acl, f);
    assert (forall t: Text :: ChunksMatch(Path(filter), Path(t)) ==> AllowRead(acl, t))
      <==> ListIncludes(acl.read.value, f);
  }

  lemma CarefulIsInclusion(acl: Acl, f: PathMask)
    requires acl.read.Some? && IsMask(f) && forall m :: m in acl.read.value ==> IsMask(m)
    ensures ListIncludes(acl.read.value, f) <==>
            exists novel, longest :: Beyond(acl.read.value, novel, longest) && Covers(acl.read.value, f, novel, longest)
  {
    if ListIncludes(acl.read.value, f) {
      var novel, longest := BeyondExists(acl.read.value);
      ListAcceptanceIsInclusion(acl.read.value, f, novel, longest);
    }
    if novel, longest :| Beyond(acl.read.value, novel, longest) && Covers(acl.read.value, f, novel, longest) {
      ListAcceptanceIsInclusion(acl.read.value, f, novel, longest);
    }
  }

  /** It is enough that one mask accepts the filter and has no `+` above its `#`. */
  lemma OneMaskIsCareful(acl: Acl, filter: Text, m: PathMask)
    requires acl.read.Some? && forall n :: n in acl.read.value ==> IsMask(n)
    requires m in acl.read.value && Matches(m, Path(Print(FilterMask(filter))))
    requires !HashUnderPlus(FilterMask(filter), m)
    ensures Careful(acl, filter)
  {
    FilterMeaning(filter, Path([]));
    OneMaskSuffices(acl.read.value, m, FilterMask(filter));
    CarefulIsInclusion(acl, FilterMask(filter));
  }

  /** A covered filter brings its client only readable topics. */
  lemma AdmittedIsReadable(cfg: Config, acl: Acl, filter: Text, topic: Text)
    requires FollowsMasks(cfg) && Careful(acl, filter)
    requires cfg.matches(filter, topic)
    ensures AllowRead(acl, topic)
  {
    var f := FilterMask(filter);
    var novel, longest :| Beyond(acl.read.value, novel, longest) && Covers(acl.read.value, f, novel, longest);
    FilterMeaning(filter, Path(topic));
    CoveredIsIncluded(acl.read.value, f, novel, longest, topic);
  }

  /** If lookup follows the wildcard language exactly, a stored filter that is not covered brings
      its client some publishable topic that the client may not read. */
  lemma UncoveredIsReached(cfg: Config, s: State, d: Text, filter: Text)
    requires forall t :: cfg.matches(filter, t) <==> ChunksMatch(Path(filter), Path(t))
    requires d in s.index.submap.clients && d in s.index.submap.filters && filter in s.index.submap.filters[d]
    requires PlainLiterals(FilterMask(filter))
    requires var c := s.index.submap.clients[d];
             && c in s.clients && s.clients[c].acl.read.Some?
             && (forall m :: m in s.clients[c].acl.read.value ==> IsMask(m))
             && !Careful(s.clients[c].acl, filter)
    ensures var c := s.index.submap.clients[d];
            exists t: Text :: IsPublishable(t) && c in Subscribers(cfg, s, t) && !AllowRead(s.clients[c].acl, t)
  {
    var c, f := s.index.submap.clients[d], FilterMask(filter);
    var masks := s.clients[c].acl.read.value;
    FilterMeaning(filter, Path([]));
    var novel, longest := BeyondExists(masks);
    ListAcceptanceIsPublishableInclusion(masks, f, novel, longest);
    var t: Text :| IsPublishable(t) && Matches(f, Path(t)) && !ListMatches(masks, t);
    FilterMeaning(filter, Path(t));
    assert c in Subscribers(cfg, s, t);
  }

  // ---------------------------------------------------------------- every step keeps it

  lemma FiltersStayReadable(cfg: Config, s: State, step: Step, c: ClientId)
    requires Wired(cfg, s) && ReadableFor(s, c) && Enabled(cfg, s, step) && CarefulStep(s, step, c)
    ensures var m := Apply(cfg, s, step).index.submap;
            forall d, f :: d in m.filters && f in m.filters[d] ==> FilterReadable(Apply(cfg, s, step), c, d, f)
  {
    StepGrows(cfg, s, step);
    if IsHandlerStep(step) {
      HandlerKeepsReadable(cfg, s, step, c);
    } else if IsPublisherStep(step) {
      PublisherFrame(cfg, s, step);
    } else {
      SessionFrame(cfg, s, step);
    }
  }

  lemma HandlerKeepsReadable(cfg: Config, s: State, step: Step, c: ClientId)
    requires Wired(cfg, s) && ReadableFor(s, c) && Enabled(cfg, s, step) && IsHandlerStep(step)
    requires CarefulStep(s, step, c) && Grows(s, ApplyHandler(cfg, s, step))
    ensures var m := ApplyHandler(cfg, s, step).index.submap;
            forall d, f :: d in m.filters && f in m.filters[d] ==> FilterReadable(ApplyHandler(cfg, s, step), c, d, f)
  {
    var t := ApplyHandler(cfg, s, step);
    forall d, f | d in t.index.submap.filters && f in t.index.submap.filters[d]
      ensures FilterReadable(t, c, d, f)
    {
      FilterOrigin(cfg, s, step, d, f);
      if f in s.index.submap.filters[d] {
        assert FilterReadable(s, c, d, f);
      }
    }
  }

  lemma NewPushReadable(cfg: Config, s: State, topic: Text, c: ClientId)
    requires FollowsMasks(cfg) && ReadableFor(s, c)
    requires c in Subscribers(cfg, s, topic)
    ensures c in s.clients && AllowRead(s.clients[c].acl, topic)
  {
    var filters, clients := s.index.submap.filters, s.index.submap.clients;
    var d, f :| d in clients && d in filters && clients[d] == c && f in filters[d] && cfg.matches(f, topic);
    assert FilterReadable(s, c, d, f);
    AdmittedIsReadable(cfg, s.clients[c].acl, f, topic);
  }

  lemma PushStaysReadable(s: State, t: State, c: ClientId, push: Push)
    requires Grows(s, t) && PushReadable(s, c, push)
    ensures PushReadable(t, c, push)
  {
  }

  lemma LogStaysReadable(cfg: Config, s: State, step: Step, c: ClientId, p: PubId)
    requires FollowsMasks(cfg) && Wired(cfg, s) && ReadableFor(s, c) && Enabled(cfg, s, step)
    requires p in Apply(cfg, s, step).publishers
    ensures LogReadable(Apply(cfg, s, step), c, Apply(cfg, s, step).publishers[p].log)
  {
    var t := Apply(cfg, s, step);
    StepGrows(cfg, s, step);
    LogsGrow(cfg, s, step, p);
    var before, log := PublisherOf(s, p).log, t.publishers[p].log;
    forall n | 0 <= n < |log|
      ensures PushReadable(t, c, log[n])
    {
      if n < |before| {
        assert log[n] == before[n];
      } else {
        PushedIsReadable(cfg, s, step, c);
      }
      PushStaysReadable(s, t, c, log[n]);
    }
  }

  lemma PushedIsReadable(cfg: Config, s: State, step: Step, c: ClientId)
    requires FollowsMasks(cfg) && ReadableFor(s, c) && Enabled(cfg, s, step) && step.Publish?
    ensures var log := Apply(cfg, s, step).publishers[step.publisher].log;
            |log| == |PublisherOf(s, step.publisher).log| + 1 && PushReadable(s, c, log[|log| - 1])
  {
    var topic := FrameVerdict(step.frame, step.priority, step.writeAcl, step.maxDepth).message.topic;
    if c in Subscribers(cfg, s, topic) {
      NewPushReadable(cfg, s, topic, c);
    }
  }

  lemma StepKeepsReadable(cfg: Config, s: State, step: Step, c: ClientId)
    requires FollowsMasks(cfg) && Wired(cfg, s) && ReadableFor(s, c) && Enabled(cfg, s, step)
    requires CarefulStep(s, step, c)
    ensures ReadableFor(Apply(cfg, s, step), c)
  {
    FiltersStayReadable(cfg, s, step, c);
    forall p | p in Apply(cfg, s, step).publishers
      ensures LogReadable(Apply(cfg, s, step), c, Apply(cfg, s, step).publishers[p].log)
    {
      LogStaysReadable(cfg, s, step, c, p);
    }
  }

  lemma {:induction false} ReachableReadable(cfg: Config, steps: seq<Step>, c: ClientId)
    requires FollowsMasks(cfg) && CarefulRun(cfg, steps, c) && After(cfg, steps).Some?
    ensures ReadableFor(After(cfg, steps).value, c)
    decreases steps
  {
    if steps != [] {
      var fewer := steps[..|steps| - 1];
      ReachableReadable(cfg, fewer, c);
      ReachableInv(cfg, fewer);
      StepKeepsReadable(cfg, After(cfg, fewer).value, steps[|steps| - 1], c);
    }
  }

  // ---------------------------------------------------------------- the main result

  /** Whatever waits in a client's queue, the client may read: for every interleaving in which its
      access list covered the filters stored for it, whatever other clients subscribed to. */
  lemma QueuedIsReadable(cfg: Config, steps: seq<Step>, s: State, ch: ChanId, i: nat)
    requires FollowsMasks(cfg) && After(cfg, steps) == Some(s)
    requires ch in s.chans && i < |s.chans[ch].entered| && s.chans[ch].entered[i].Note?
    requires CarefulRun(cfg, steps, s.chans[ch].owner)
    ensures GoodEntry(s, s.chans[ch].owner, s.chans[ch].entered[i])
    ensures var e := s.chans[ch].entered[i];
            && s.chans[ch].owner in s.clients
            && ReadMask(s.clients[s.chans[ch].owner].acl, s.publishers[e.publisher].log[e.push].message.topic)
  {
    QueuedIsVetted(cfg, steps, s, ch, i);
    ReachableReadable(cfg, steps, s.chans[ch].owner);
    var e := s.chans[ch].entered[i];
    assert PushReadable(s, s.chans[ch].owner, s.publishers[e.publisher].log[e.push]);
  }
}
