/** No session task outlives its client: the task lists of src/pubsub.rs over every run. */
module TaskLife {
  import opened Wrappers
  import opened Bytes
  import opened PathMask
  import opened Broker
  import opened Delivery

  /** A task ever registered is still listed or has been aborted; once the destructor has run,
      nobody holds the client and nothing is listed. */
  ghost predicate Tracked(s: State) {
    forall c :: c in s.clients ==>
      && s.clients[c].registered <= s.clients[c].tasks + s.aborted
      && (s.clients[c].dropped ==> !Held(s, c) && s.clients[c].tasks == {})
  }

  // ---------------------------------------------------------------- nobody gets hold of a released client

  lemma ChanHolds(cfg: Config, s: State, step: Step, c: ClientId, ch: ChanId)
    requires Inv(cfg, s) && Enabled(cfg, s, step) && c in s.clients
    requires var t := Apply(cfg, s, step);
             ch in t.chans && t.chans[ch].owner == c && !t.chans[ch].launcher.Launched?
    ensures IsRegistered(s, c) || (ch in s.chans && s.chans[ch].owner == c && !s.chans[ch].launcher.Launched?)
  {
    if IsHandlerStep(step) {
      HandlerFrame(cfg, s, step);
    } else if IsPublisherStep(step) {
      PublisherFrame(cfg, s, step);
    } else {
      SessionHolds(cfg, s, step, c, ch);
    }
  }

  lemma OpeningHolds(cfg: Config, s: State, step: Step)
    requires Wired(cfg, s) && Enabled(cfg, s, step) && step.OpenChannel?
    ensures step.chan in ApplySession(s, step).chans && IsRegistered(s, ApplySession(s, step).chans[step.chan].owner)
  {
  }

  lemma SessionHolds(cfg: Config, s: State, step: Step, c: ClientId, ch: ChanId)
    requires Wired(cfg, s) && Enabled(cfg, s, step) && c in s.clients && !IsHandlerStep(step) && !IsPublisherStep(step)
    requires var t := ApplySession(s, step);
             ch in t.chans && t.chans[ch].owner == c && !t.chans[ch].launcher.Launched?
    ensures IsRegistered(s, c) || (ch in s.chans && s.chans[ch].owner == c && !s.chans[ch].launcher.Launched?)
  {
    SessionFrame(cfg, s, step);
    if step.OpenChannel? && ch == step.chan {
      OpeningHolds(cfg, s, step);
    } else if ch == step.chan {
      LauncherEnds(cfg, s, step);
    }
  }

  /** A session keeps its client, and a launcher that has finished stays finished. */
  lemma LauncherEnds(cfg: Config, s: State, step: Step)
    requires EnabledSession(cfg, s, step) && !step.OpenChannel?
    ensures step.chan in s.chans
    ensures ChanAfter(s.chans[step.chan], step).owner == s.chans[step.chan].owner
    ensures s.chans[step.chan].launcher.Launched? ==> ChanAfter(s.chans[step.chan], step).launcher.Launched?
  {
  }

  /** A new snapshot holds registered clients. */
  lemma PublishHolds(cfg: Config, s: State, step: Step, c: ClientId)
    requires Wired(cfg, s) && Enabled(cfg, s, step) && step.Publish?
    requires InSnapshot(ApplyPublisher(cfg, s, step).publishers[step.publisher], c)
    ensures IsRegistered(s, c)
  {
  }

  /** No other step of a publisher puts a client into its snapshot. */
  lemma MoveHolds(cfg: Config, s: State, step: Step, c: ClientId)
    requires Enabled(cfg, s, step) && IsPublisherStep(step) && !step.Publish?
    requires step.publisher in s.publishers
    requires step.publisher in ApplyPublisher(cfg, s, step).publishers
    requires InSnapshot(ApplyPublisher(cfg, s, step).publishers[step.publisher], c)
    ensures InSnapshot(s.publishers[step.publisher], c)
  {
    LeftStep(cfg, s, step, step.publisher);
  }

  lemma SnapshotHolds(cfg: Config, s: State, step: Step, c: ClientId, p: PubId)
    requires Wired(cfg, s) && Enabled(cfg, s, step) && c in s.clients
    requires var t := Apply(cfg, s, step); p in t.publishers && InSnapshot(t.publishers[p], c)
    ensures IsRegistered(s, c) || (p in s.publishers && InSnapshot(s.publishers[p], c))
  {
    if !IsPublisherStep(step) || p != step.publisher {
      OthersUnchanged(cfg, s, step, p);
    } else if step.Publish? {
      PublishHolds(cfg, s, step, c);
    } else {
      MoveHolds(cfg, s, step, c);
    }
  }

  lemma HandlerHolds(cfg: Config, s: State, step: Step, c: ClientId)
    requires Enabled(cfg, s, step) && c in s.clients && c in Apply(cfg, s, step).clients
    requires !Apply(cfg, s, step).clients[c].handler.Gone?
    ensures !s.clients[c].handler.Gone?
  {
    if IsHandlerStep(step) {
      HandlerFrame(cfg, s, step);
    } else if IsPublisherStep(step) {
      PublisherFrame(cfg, s, step);
    } else {
      SessionFrame(cfg, s, step);
    }
  }

  /** References to a client are only ever copied from references. */
  lemma HeldShrinks(cfg: Config, s: State, step: Step, c: ClientId)
    requires Inv(cfg, s) && Enabled(cfg, s, step) && c in s.clients
    requires Held(Apply(cfg, s, step), c)
    ensures Held(s, c)
  {
    var t := Apply(cfg, s, step);
    StepGrows(cfg, s, step);
    if IsRegistered(t, c) {
    } else if c in t.clients && !t.clients[c].handler.Gone? {
      HandlerHolds(cfg, s, step, c);
    } else if ch :| ch in t.chans && t.chans[ch].owner == c && !t.chans[ch].launcher.Launched? {
      ChanHolds(cfg, s, step, c, ch);
    } else {
      var p :| p in t.publishers && InSnapshot(t.publishers[p], c);
      SnapshotHolds(cfg, s, step, c, p);
    }
  }

  // ---------------------------------------------------------------- every step keeps it

  /** The task list of a client is in order, and its destructor runs only in its own step. */
  ghost predicate ListedOrAborted(s: State, t: State, step: Step, c: ClientId) {
    && c in t.clients
    && t.clients[c].registered <= t.clients[c].tasks + t.aborted
    && (c in s.clients && t.clients[c].dropped ==>
        t.clients[c].tasks == {} && (s.clients[c].dropped || step == DropClient(c)))
  }

  lemma TasksByHandler(cfg: Config, s: State, step: Step, c: ClientId)
    requires Tracked(s) && Enabled(cfg, s, step) && c in s.clients && IsHandlerStep(step)
    ensures ListedOrAborted(s, ApplyHandler(cfg, s, step), step, c)
  {
    HandlerFrame(cfg, s, step);
    if c != step.client {
      assert s.clients[c].registered <= s.clients[c].tasks + s.aborted;
    }
  }

  lemma TasksByAbort(cfg: Config, s: State, step: Step, c: ClientId)
    requires Tracked(s) && Enabled(cfg, s, step) && c in s.clients && step.AbortTasks?
    ensures ListedOrAborted(s, ApplyPublisher(cfg, s, step), step, c)
  {
    assert s.clients[c].registered <= s.clients[c].tasks + s.aborted;
  }

  lemma TasksByPublisher(cfg: Config, s: State, step: Step, c: ClientId)
    requires Tracked(s) && Enabled(cfg, s, step) && c in s.clients && IsPublisherStep(step)
    ensures ListedOrAborted(s, ApplyPublisher(cfg, s, step), step, c)
  {
    if step.AbortTasks? {
      TasksByAbort(cfg, s, step, c);
    } else {
      PublisherFrame(cfg, s, step);
    }
  }

  lemma TasksBySession(cfg: Config, s: State, step: Step, c: ClientId)
    requires Tracked(s) && Enabled(cfg, s, step) && c in s.clients && !IsHandlerStep(step) && !IsPublisherStep(step)
    ensures ListedOrAborted(s, ApplySession(s, step), step, c)
  {
    SessionFrame(cfg, s, step);
    if step.RegisterPinger? || step.RegisterWriter? {
      assert !s.chans[step.chan].launcher.Launched?;
      assert Held(s, s.chans[step.chan].owner);
    }
  }

  /** What a step does to the task list of one client. */
  lemma TasksOf(cfg: Config, s: State, step: Step, c: ClientId)
    requires Tracked(s) && Enabled(cfg, s, step) && c in s.clients
    ensures ListedOrAborted(s, Apply(cfg, s, step), step, c)
  {
    if IsHandlerStep(step) {
      TasksByHandler(cfg, s, step, c);
    } else if IsPublisherStep(step) {
      TasksByPublisher(cfg, s, step, c);
    } else {
      TasksBySession(cfg, s, step, c);
    }
  }

  lemma StepKeepsTracked(cfg: Config, s: State, step: Step)
    requires Inv(cfg, s) && Tracked(s) && Enabled(cfg, s, step)
    ensures Tracked(Apply(cfg, s, step))
  {
    var t := Apply(cfg, s, step);
    forall c | c in t.clients
      ensures t.clients[c].registered <= t.clients[c].tasks + t.aborted
      ensures t.clients[c].dropped ==> !Held(t, c) && t.clients[c].tasks == {}
    {
      if c in s.clients {
        TasksOf(cfg, s, step, c);
        if Held(t, c) {
          HeldShrinks(cfg, s, step, c);
        }
      } else {
        NewClient(cfg, s, step, c);
      }
    }
  }

  lemma NewClient(cfg: Config, s: State, step: Step, c: ClientId)
    requires Enabled(cfg, s, step) && c !in s.clients && c in Apply(cfg, s, step).clients
    ensures Apply(cfg, s, step).clients[c].registered == {} && !Apply(cfg, s, step).clients[c].dropped
  {
    if IsHandlerStep(step) {
      HandlerFrame(cfg, s, step);
    } else if IsPublisherStep(step) {
      PublisherFrame(cfg, s, step);
    } else {
      SessionFrame(cfg, s, step);
    }
  }

  lemma {:induction false} ReachableTracked(cfg: Config, steps: seq<Step>)
    requires After(cfg, steps).Some?
    ensures Tracked(After(cfg, steps).value)
    decreases steps
  {
    if steps != [] {
      var fewer := steps[..|steps| - 1];
      ReachableTracked(cfg, fewer);
      ReachableInv(cfg, fewer);
      StepKeepsTracked(cfg, After(cfg, fewer).value, steps[|steps| - 1]);
    }
  }

  // ---------------------------------------------------------------- the main result

  /** In every reachable state a task ever registered on a client is in its task list or aborted;
      when the control handler is done and the last reference is gone, the destructor is due, and
      once it has run every task ever registered is aborted, whenever it was registered. */
  lemma NoTaskLeak(cfg: Config, steps: seq<Step>, s: State, c: ClientId)
    requires After(cfg, steps) == Some(s)
    requires c in s.clients
    ensures s.clients[c].registered <= s.clients[c].tasks + s.aborted
    ensures s.clients[c].dropped ==> s.clients[c].registered <= s.aborted && !Held(s, c)
    ensures !Held(s, c) && !s.clients[c].dropped ==>
              && Enabled(cfg, s, DropClient(c))
              && s.clients[c].registered <= Apply(cfg, s, DropClient(c)).aborted
  {
    ReachableTracked(cfg, steps);
  }

  /** Aborting a client's tasks, by its handler or by a publisher that found its queue full,
      reaches every task registered on it so far. */
  lemma AbortReachesAll(cfg: Config, steps: seq<Step>, s: State, step: Step)
    requires After(cfg, steps) == Some(s) && Enabled(cfg, s, step)
    requires step.HandlerAborts? || step.AbortTasks?
    ensures var c := if step.HandlerAborts? then step.client else s.publishers[step.publisher].pc.client;
            && s.clients[c].registered <= Apply(cfg, s, step).aborted
            && Apply(cfg, s, step).clients[c].tasks == {}
  {
    ReachableTracked(cfg, steps);
    var c := if step.HandlerAborts? then step.client else s.publishers[step.publisher].pc.client;
    assert s.clients[c].registered <= s.clients[c].tasks + s.aborted;
  }

  // ---------------------------------------------------------------- clients that outlive their handler

  /** The handler is gone and the client is still in the database. */
  predicate Stranded(s: State, c: ClientId) {
    c in s.clients && s.clients[c].handler.Gone? && IsRegistered(s, c)
  }

  lemma StrandedByRegister(cfg: Config, s: State, step: Step, c: ClientId)
    requires Wired(cfg, s) && Enabled(cfg, s, step) && step.Register?
    ensures Stranded(ApplyHandler(cfg, s, step), c) <==> Stranded(s, c)
  {
    FreshToken(cfg, s, step.token);
  }

  lemma StrandedByUnregister(cfg: Config, s: State, step: Step, c: ClientId)
    requires Wired(cfg, s) && Enabled(cfg, s, step) && step.Unregister?
    ensures Stranded(ApplyHandler(cfg, s, step), c) <==> Stranded(s, c)
  {
    assert IsRegistered(s, step.client);
  }

  lemma StrandedByHandler(cfg: Config, s: State, step: Step, c: ClientId)
    requires Wired(cfg, s) && Enabled(cfg, s, step) && IsHandlerStep(step)
    ensures Stranded(ApplyHandler(cfg, s, step), c) <==> Stranded(s, c) || step == TokenLost(c)
  {
    if step.Register? {
      StrandedByRegister(cfg, s, step, c);
    } else if step.Unregister? {
      StrandedByUnregister(cfg, s, step, c);
    } else {
      HandlerFrame(cfg, s, step);
    }
  }

  lemma StrandedStep(cfg: Config, s: State, step: Step, c: ClientId)
    requires Wired(cfg, s) && Enabled(cfg, s, step)
    ensures Stranded(Apply(cfg, s, step), c) <==> Stranded(s, c) || step == TokenLost(c)
  {
    if IsHandlerStep(step) {
      StrandedByHandler(cfg, s, step, c);
    } else if IsPublisherStep(step) {
      PublisherFrame(cfg, s, step);
    } else {
      SessionFrame(cfg, s, step);
    }
  }

  /** A client outlives its control handler exactly when writing its token to the peer failed. It
      then stays in the database for good, and is never released. */
  lemma {:induction false} OutlivesHandler(cfg: Config, steps: seq<Step>, s: State, c: ClientId)
    requires After(cfg, steps) == Some(s)
    ensures Stranded(s, c) <==> TokenLost(c) in steps
    ensures Stranded(s, c) ==> Held(s, c) && !s.clients[c].dropped
    decreases steps
  {
    ReachableTracked(cfg, steps);
    if steps != [] {
      var fewer := steps[..|steps| - 1];
      var before := After(cfg, fewer).value;
      OutlivesHandler(cfg, fewer, before, c);
      ReachableInv(cfg, fewer);
      StrandedStep(cfg, before, steps[|steps| - 1], c);
      assert steps == fewer + [steps[|steps| - 1]];
    }
  }

  /** A run that leaves a client behind. */
  lemma StrandingRun(cfg: Config, c: ClientId, token: Text, acl: Acl)
    ensures After(cfg, [Register(c, token, acl), TokenLost(c)]).Some?
    ensures Stranded(After(cfg, [Register(c, token, acl), TokenLost(c)]).value, c)
  {
    var steps := [Register(c, token, acl), TokenLost(c)];
    assert steps[..1] == [Register(c, token, acl)] && steps[..1][..0] == [];
    assert After(cfg, []) == Some(INITIAL);
    assert After(cfg, steps[..1]) == Some(Apply(cfg, INITIAL, Register(c, token, acl)));
  }
}
