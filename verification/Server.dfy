/** What the control handler of src/server.rs does with a request it has read. */
module Server {
  import opened Wrappers
  import opened Bytes
  import opened Topic
  import opened PathMask
  import opened Wire
  import opened ClientDb
  import DataStream

  const UNDERSCORE: Text := [0x5F]

  /** The name an access list is looked up by. */
  function LoginOrUnderscore(login: Text): Text {
    if login == [] then UNDERSCORE else login
  }

  /** What a control connection is served under. */
  datatype Session = Session(limits: Limits, acl: Acl, maxDepth: nat)

  // ---------------------------------------------------------------- subscribe and unsubscribe

  predicate WithinDepth(maxDepth: nat, topic: Text) {
    CountSlashes(Prepared(topic)) <= maxDepth
  }

  /** The reason a topic is refused, if it is: access first, depth second. */
  function Refusal(s: Session, topic: Text): Option<byte> {
    if !AllowRead(s.acl, topic) then Some(RESPONSE_ERR_ACCESS)
    else if !WithinDepth(s.maxDepth, topic) then Some(RESPONSE_ERR)
    else None
  }

  /** Length of the longest prefix of topics none of which is refused. */
  function AcceptedPrefix(s: Session, topics: seq<Text>): (n: nat)
    ensures n <= |topics|
    ensures forall i :: 0 <= i < n ==> Refusal(s, topics[i]) == None
    ensures n < |topics| ==> Refusal(s, topics[n]).Some?
  {
    if topics == [] || Refusal(s, topics[0]).Some? then 0 else 1 + AcceptedPrefix(s, topics[1..])
  }

  function SubscribeStatus(s: Session, topics: seq<Text>): byte {
    var n := AcceptedPrefix(s, topics);
    if n == |topics| then RESPONSE_OK else Refusal(s, topics[n]).value
  }

  function PreparedSet(topics: seq<Text>): set<Text> {
    set i | 0 <= i < |topics| :: Prepared(topics[i])
  }

  /** The filters of one client, with the prepared forms of `topics` added. */
  function Added<C>(m: SubMap<C>, digest: Digest, topics: seq<Text>): SubMap<C>
    requires digest in m.filters
  {
    m.(filters := m.filters[digest := m.filters[digest] + PreparedSet(topics)])
  }

  /** The filters of one client, with the prepared forms of `topics` removed. */
  function Removed<C>(m: SubMap<C>, digest: Digest, topics: seq<Text>): SubMap<C>
    requires digest in m.filters
  {
    m.(filters := m.filters[digest := m.filters[digest] - PreparedSet(topics)])
  }

  /** The changes of the first `i` turns of a loop over topics. */
  function AddEach<C>(m: SubMap<C>, digest: Digest, topics: seq<Text>, i: nat): SubMap<C>
    requires i <= |topics|
  {
    if i == 0 then m else SubSubscribe(AddEach(m, digest, topics, i - 1), digest, Prepared(topics[i - 1]))
  }

  function RemoveEach<C>(m: SubMap<C>, digest: Digest, topics: seq<Text>, i: nat): SubMap<C>
    requires i <= |topics|
  {
    if i == 0 then m else SubUnsubscribe(RemoveEach(m, digest, topics, i - 1), digest, Prepared(topics[i - 1]))
  }

  lemma {:induction false} AddEachIsAdded<C>(m: SubMap<C>, digest: Digest, topics: seq<Text>, i: nat)
    requires digest in m.filters && i <= |topics|
    ensures AddEach(m, digest, topics, i) == Added(m, digest, topics[..i])
  {
    var held := m.filters[digest];
    if i == 0 {
      assert PreparedSet(topics[..0]) == {};
      assert held + {} == held && m.filters[digest := held] == m.filters;
    } else {
      AddEachIsAdded(m, digest, topics, i - 1);
      PreparedSetStep(topics, i - 1);
      assert held + (PreparedSet(topics[..i - 1]) + {Prepared(topics[i - 1])})
          == held + PreparedSet(topics[..i - 1]) + {Prepared(topics[i - 1])};
    }
  }

  lemma {:induction false} RemoveEachIsRemoved<C>(m: SubMap<C>, digest: Digest, topics: seq<Text>, i: nat)
    requires digest in m.filters && i <= |topics|
    ensures RemoveEach(m, digest, topics, i) == Removed(m, digest, topics[..i])
  {
    var held := m.filters[digest];
    if i == 0 {
      assert PreparedSet(topics[..0]) == {};
      assert held - {} == held && m.filters[digest := held] == m.filters;
    } else {
      RemoveEachIsRemoved(m, digest, topics, i - 1);
      PreparedSetStep(topics, i - 1);
      assert held - (PreparedSet(topics[..i - 1]) + {Prepared(topics[i - 1])})
          == held - PreparedSet(topics[..i - 1]) - {Prepared(topics[i - 1])};
    }
  }

  /** One turn of the subscribe loop. */
  method SubscribeOne(s: Session, db: ServerClientDB, client: ServerClientData, topic: Text)
    returns (refusal: Option<byte>)
    modifies db`submap
    ensures refusal == Refusal(s, topic)
    ensures db.submap == if refusal == None then SubSubscribe(old(db.submap), client.digest, Prepared(topic))
                         else old(db.submap)
  {
    var readable := ListAllows(s.acl.read, topic);
    if !readable {
      return Some(RESPONSE_ERR_ACCESS);
    }
    var ok := db.Subscribe(topic, client, s.maxDepth);
    if !ok {
      return Some(RESPONSE_ERR);
    }
    return None;
  }

  /** The loop of the subscribe branch: it stops at the first refused topic. */
  method SubscribeLoop(s: Session, db: ServerClientDB, client: ServerClientData, topics: seq<Text>)
    returns (res: byte)
    modifies db`submap
    ensures res == SubscribeStatus(s, topics)
    ensures db.submap == AddEach(old(db.submap), client.digest, topics, AcceptedPrefix(s, topics))
  {
    res := RESPONSE_OK;
    ghost var n := AcceptedPrefix(s, topics);
    for i := 0 to |topics|
      invariant i <= n
      invariant res == RESPONSE_OK
      invariant db.submap == AddEach(old(db.submap), client.digest, topics, i)
    {
      var refusal := SubscribeOne(s, db, client, topics[i]);
      if refusal.Some? {
        res := refusal.value;
        break;
      }
    }
  }

  /** Some read mask of the access list matches the topic as spelled. */
  ghost predicate ReadMask(acl: Acl, topic: Text) {
    acl.read.Some? && exists m :: m in acl.read.value && Matches(m, Path(topic))
  }

  /** Some write mask of the access list matches the topic. */
  ghost predicate WriteMask(acl: Acl, topic: Text) {
    acl.write.Some? && exists m :: m in acl.write.value && Matches(m, Path(topic))
  }

  /** The first `k` topics all have a read mask and are within depth. */
  ghost predicate PassUpTo(s: Session, topics: seq<Text>, k: nat)
    requires k <= |topics|
  {
    forall i :: 0 <= i < k ==> ReadMask(s.acl, topics[i]) && CountSlashes(Prepared(topics[i])) <= s.maxDepth
  }

  /** The statuses of a subscribe, by value: OK when all topics pass, else access denied or error
      by what the first failing one fails first, its read masks or its depth. */
  lemma SubscribeStatusIff(s: Session, topics: seq<Text>)
    ensures SubscribeStatus(s, topics) == 0x01 <==> PassUpTo(s, topics, |topics|)
    ensures SubscribeStatus(s, topics) == 0xFE <==>
            exists k :: 0 <= k < |topics| && PassUpTo(s, topics, k) && !ReadMask(s.acl, topics[k])
    ensures SubscribeStatus(s, topics) == 0xFF <==>
            exists k :: 0 <= k < |topics| && PassUpTo(s, topics, k) && ReadMask(s.acl, topics[k])
                        && CountSlashes(Prepared(topics[k])) > s.maxDepth
    ensures PassUpTo(s, topics, AcceptedPrefix(s, topics))
  {
    var n := AcceptedPrefix(s, topics);
    forall i | 0 <= i < |topics|
      ensures Refusal(s, topics[i]) == None <==>
              ReadMask(s.acl, topics[i]) && CountSlashes(Prepared(topics[i])) <= s.maxDepth
      ensures Refusal(s, topics[i]) == Some(0xFE) <==> !ReadMask(s.acl, topics[i])
    {
    }
    assert PassUpTo(s, topics, n);
    if n < |topics| {
      assert !PassUpTo(s, topics, |topics|);
      forall k | 0 <= k < |topics| && PassUpTo(s, topics, k) && Refusal(s, topics[k]) != None
        ensures k == n
      {
      }
    }
  }

  /** The subscribe branch of `process_control`. */
  method HandleSubscribe(s: Session, db: ServerClientDB, client: ServerClientData, topics: seq<Text>)
    returns (res: byte)
    requires client.digest in db.submap.filters
    modifies db`submap
    ensures old(db.Valid()) ==> db.Valid()
    ensures client.digest in old(db.submap).filters
    ensures res == SubscribeStatus(s, topics)
    ensures res == 0x01 <==> PassUpTo(s, topics, |topics|)
    ensures res == 0xFE <==> exists k :: 0 <= k < |topics| && PassUpTo(s, topics, k) && !ReadMask(s.acl, topics[k])
    ensures res == 0xFF <==>
            exists k :: 0 <= k < |topics| && PassUpTo(s, topics, k) && ReadMask(s.acl, topics[k])
                        && CountSlashes(Prepared(topics[k])) > s.maxDepth
    ensures db.submap == Added(old(db.submap), client.digest, topics[..AcceptedPrefix(s, topics)])
  {
    SubscribeStatusIff(s, topics);
    res := SubscribeLoop(s, db, client, topics);
    AddEachIsAdded(old(db.submap), client.digest, topics, AcceptedPrefix(s, topics));
    if old(db.Valid()) {
      FiltersKeepBijection(old(db.Abs()), db.digestOf, db.submap);
    }
  }

  /** A mask of `n` single-level wildcards. */
  function Levels(n: nat): (m: PathMask)
    requires n >= 1
    ensures IsParsed(m)
    ensures forall p: seq<Text> :: Matches(m, p) <==> |p| == n
  {
    var chunks := seq(n, _ => WILDCARD_CHUNK);
    FirstAnyIs(chunks, n);
    assert forall p: seq<Text> :: Matches(PathMask(Some(chunks)), p) <==> |p| == n;
    PathMask(Some(chunks))
  }

  /** The access list that lets in topics of as many levels as `raw` has. */
  function AsDeepAs(raw: Text): Acl {
    Acl(false, false, Some({Levels(|Path(raw)|)}), None)
  }

  /** Every unprepared spelling is let in by some access list that refuses its stored form. */
  lemma CheckedButNotStored(raw: Text)
    requires !IsPrepared(raw)
    ensures AllowRead(AsDeepAs(raw), raw) && !AllowRead(AsDeepAs(raw), Prepared(raw))
  {
    PreparedCounts(raw);
    LevelCount(raw);
    LevelCount(Prepared(raw));
    assert Levels(|Path(raw)|) in AsDeepAs(raw).read.value;
  }

  /** A subscribe checks the topic as it was spelled and stores its prepared form. The check says
      the same of both under every access list exactly when the spelling was prepared already. */
  lemma CheckedIsStored(raw: Text)
    ensures (forall acl: Acl :: AllowRead(acl, raw) <==> AllowRead(acl, Prepared(raw))) <==> IsPrepared(raw)
  {
    PreparedFixedPoint(raw);
    if !IsPrepared(raw) {
      CheckedButNotStored(raw);
    }
  }

  method ListAllows(masks: Option<set<PathMask>>, topic: Text) returns (ok: bool)
    ensures ok <==> masks.Some? && ListMatches(masks.value, topic)
  {
    if masks.None? {
      return false;
    }
    ok := ListMatchesSplit(masks.value, topic);
  }

  lemma PreparedSetStep(topics: seq<Text>, i: nat)
    requires i < |topics|
    ensures PreparedSet(topics[..i + 1]) == PreparedSet(topics[..i]) + {Prepared(topics[i])}
  {
    var a, b := topics[..i], topics[..i + 1];
    forall j | 0 <= j < |b|
      ensures Prepared(b[j]) in PreparedSet(a) + {Prepared(topics[i])}
    {
      if j < i { assert a[j] == b[j]; }
    }
    forall j | 0 <= j < |a|
      ensures Prepared(a[j]) in PreparedSet(b)
    {
      assert a[j] == b[j];
    }
    assert b[i] == topics[i];
  }

  /** Length of the longest prefix of topics within depth. */
  function DepthPrefix(maxDepth: nat, topics: seq<Text>): (n: nat)
    ensures n <= |topics|
    ensures forall i :: 0 <= i < n ==> WithinDepth(maxDepth, topics[i])
    ensures n < |topics| ==> !WithinDepth(maxDepth, topics[n])
  {
    if topics == [] || !WithinDepth(maxDepth, topics[0]) then 0 else 1 + DepthPrefix(maxDepth, topics[1..])
  }

  function UnsubscribeStatus(s: Session, topics: seq<Text>): byte {
    if DepthPrefix(s.maxDepth, topics) == |topics| then RESPONSE_OK else RESPONSE_ERR
  }

  /** The loop of the unsubscribe branch. */
  method UnsubscribeLoop(s: Session, db: ServerClientDB, client: ServerClientData, topics: seq<Text>)
    returns (success: bool)
    modifies db`submap
    ensures success <==> DepthPrefix(s.maxDepth, topics) == |topics|
    ensures db.submap == RemoveEach(old(db.submap), client.digest, topics, DepthPrefix(s.maxDepth, topics))
  {
    success := true;
    ghost var n := DepthPrefix(s.maxDepth, topics);
    for i := 0 to |topics|
      invariant i <= n
      invariant success
      invariant db.submap == RemoveEach(old(db.submap), client.digest, topics, i)
    {
      var ok := db.Unsubscribe(topics[i], client, s.maxDepth);
      if !ok {
        success := false;
        break;
      }
    }
  }

  /** The unsubscribe branch of `process_control`. */
  method HandleUnsubscribe(s: Session, db: ServerClientDB, client: ServerClientData, topics: seq<Text>)
    returns (res: byte)
    requires client.digest in db.submap.filters
    modifies db`submap
    ensures old(db.Valid()) ==> db.Valid()
    ensures client.digest in old(db.submap).filters
    ensures res == UnsubscribeStatus(s, topics)
    ensures res == 0x01 <==> forall i :: 0 <= i < |topics| ==> CountSlashes(Prepared(topics[i])) <= s.maxDepth
    ensures res == 0x01 || res == 0xFF
    ensures db.submap == Removed(old(db.submap), client.digest, topics[..DepthPrefix(s.maxDepth, topics)])
  {
    var success := UnsubscribeLoop(s, db, client, topics);
    RemoveEachIsRemoved(old(db.submap), client.digest, topics, DepthPrefix(s.maxDepth, topics));
    if old(db.Valid()) {
      FiltersKeepBijection(old(db.Abs()), db.digestOf, db.submap);
    }
    if success {
      res := RESPONSE_OK;
    } else {
      res := RESPONSE_ERR;
    }
  }

  // ---------------------------------------------------------------- publish

  /** What becomes of a publish request. */
  datatype Verdict =
    | Forward(message: DataStream.Message)  // pushed, answered OK
    | TooDeep                               // answered with an error
    | Denied                                // answered with an access error
    | Fatal                                 // the connection is closed without an answer

  function VerdictOf(acl: Acl, maxDepth: nat, priority: byte, raw: Text, data: Text): Verdict {
    var topic := Prepared(raw);
    if CountSlashes(topic) > maxDepth then TooDeep
    else if HASH in topic || PLUS in topic then Fatal
    else if AllowWrite(acl, topic) then Forward(DataStream.Message(priority, topic, data))
    else Denied
  }

  /** When each verdict is given, by the prepared topic, the depth limit and the write masks. */
  lemma VerdictIff(acl: Acl, maxDepth: nat, priority: byte, raw: Text, data: Text)
    ensures var v, topic := VerdictOf(acl, maxDepth, priority, raw, data), Prepared(raw);
            var tooDeep, symbols := CountSlashes(topic) > maxDepth, HASH in topic || PLUS in topic;
            && (v.TooDeep? <==> tooDeep)
            && (v.Fatal? <==> !tooDeep && symbols)
            && (v.Denied? <==> !tooDeep && !symbols && !WriteMask(acl, topic))
            && (v.Forward? <==> !tooDeep && !symbols && WriteMask(acl, topic))
            && (v.Forward? ==> v.message == DataStream.Message(priority, topic, data))
  {
  }

  /** The decisions of the publish branch, in the order the code takes them. */
  method DecidePublish(acl: Acl, maxDepth: nat, priority: byte, raw: Text, data: Text) returns (v: Verdict)
    ensures v == VerdictOf(acl, maxDepth, priority, raw, data)
    ensures var topic := Prepared(raw);
            var tooDeep, symbols := CountSlashes(topic) > maxDepth, HASH in topic || PLUS in topic;
            && (v.TooDeep? <==> tooDeep)
            && (v.Fatal? <==> !tooDeep && symbols)
            && (v.Denied? <==> !tooDeep && !symbols && !WriteMask(acl, topic))
            && (v.Forward? <==> !tooDeep && !symbols && WriteMask(acl, topic))
            && (v.Forward? ==> v.message == DataStream.Message(priority, topic, data))
  {
    VerdictIff(acl, maxDepth, priority, raw, data);
    var prepared, _ := PrepareTopic(raw, maxDepth);
    if prepared.Ok? {
      var topic := prepared.value;
      if HASH in topic || PLUS in topic {
        return Fatal;
      }
      var allowed := ListAllows(acl.write, topic);
      if allowed {
        v := Forward(DataStream.Message(priority, topic, data));
      } else {
        v := Denied;
      }
    } else {
      v := TooDeep;
    }
  }

  /** What holds of every topic that is forwarded. */
  ghost predicate Vetted(acl: Acl, maxDepth: nat, topic: Text) {
    && IsPublishable(topic)
    && CountSlashes(topic) <= maxDepth
    && WriteMask(acl, topic)
  }

  lemma LengthField(m: DataStream.Message)
    ensures |DataStream.FrameOf(m).frame| >= 6
    ensures FromLe32(DataStream.FrameOf(m).frame[2..6]) == DataStream.BodyLength(m) % U32_LIMIT
  {
    var f := DataStream.FrameOf(m).frame;
    var len := Le32(DataStream.BodyLength(m));
    assert f == [RESPONSE_OK, m.priority] + len + (m.topic + [NUL]);
    assert f[2..6] == len;
  }

  /** A message forwarded from an inbound frame is vetted, can be framed without wrapping, and its
      frame body is no longer than the inbound frame was. */
  lemma ForwardedFits(acl: Acl, maxDepth: nat, priority: byte, frame: Text)
    requires PublishBody(frame).Ok?
    requires |frame| < U32_LIMIT
    ensures var (raw, data) := PublishBody(frame).value;
            var v := VerdictOf(acl, maxDepth, priority, raw, data);
            v.Forward? ==>
              && Vetted(acl, maxDepth, v.message.topic)
              && v.message == DataStream.Message(priority, Prepared(raw), data)
              && DataStream.Sendable(v.message)
              && |DataStream.FrameOf(v.message).frame| >= 6
              && FromLe32(DataStream.FrameOf(v.message).frame[2..6]) == |v.message.topic| + 1 + |v.message.data|
              && |v.message.topic| + 1 + |v.message.data| <= |frame|
  {
    var (raw, data) := PublishBody(frame).value;
    assert |frame| == |raw| + 1 + |data|;
    VerdictIff(acl, maxDepth, priority, raw, data);
    PreparedFits(priority, raw, data);
  }

  lemma PreparedFits(priority: byte, raw: Text, data: Text)
    requires raw != [] && NulFree(raw) && ValidUtf8(raw) && |raw| + 1 + |data| < U32_LIMIT
    ensures var m := DataStream.Message(priority, Prepared(raw), data);
            && |m.topic| <= |raw| && IsPrepared(m.topic) && DataStream.Sendable(m)
            && |DataStream.FrameOf(m).frame| >= 6
            && FromLe32(DataStream.FrameOf(m).frame[2..6]) == |m.topic| + 1 + |data|
  {
    PreparedIsPrepared(raw);
    PreparedSubset(raw, NUL);
    PreparedUtf8(raw);
    LengthField(DataStream.Message(priority, Prepared(raw), data));
  }

  /** Spellings with the same levels and the same trailing slash are one topic for publishing,
      subscribing and unsubscribing alike. */
  lemma SpellingsAreInterchangeable<C>(a: Text, b: Text, acl: Acl, maxDepth: nat, priority: byte, data: Text,
                                       m: SubMap<C>, digest: Digest)
    requires Segments(a) == Segments(b)
    requires Segments(a) != [] ==> EndsWithSlash(a) == EndsWithSlash(b)
    ensures VerdictOf(acl, maxDepth, priority, a, data) == VerdictOf(acl, maxDepth, priority, b, data)
    ensures WithinDepth(maxDepth, a) == WithinDepth(maxDepth, b)
    ensures SubSubscribe(m, digest, Prepared(a)) == SubSubscribe(m, digest, Prepared(b))
    ensures SubUnsubscribe(m, digest, Prepared(a)) == SubUnsubscribe(m, digest, Prepared(b))
  {
    SameTopic(a, b);
  }

  // ---------------------------------------------------------------- answers

  /** The status a request is answered with; `None` closes the connection instead. `wanted` tells
      whether a replicated topic has subscribers here. */
  function Answer(s: Session, request: Request, wanted: bool): Option<byte> {
    match request
    case NopRequest | ByeRequest => Some(RESPONSE_OK)
    case SubscribeRequest(topics) => Some(SubscribeStatus(s, topics))
    case UnsubscribeRequest(topics) => Some(UnsubscribeStatus(s, topics))
    case PublishRequest(priority, topic, data) =>
      (match VerdictOf(s.acl, s.maxDepth, priority, topic, data)
       case Forward(_) => Some(RESPONSE_OK)
       case TooDeep => Some(RESPONSE_ERR)
       case Denied => Some(RESPONSE_ERR_ACCESS)
       case Fatal => None)
    case ReplTopicRequest(_) =>
      if !s.acl.replicator then Some(RESPONSE_ERR_ACCESS)
      else if wanted then Some(RESPONSE_OK_WAITING)
      else Some(RESPONSE_NOT_REQUIRED)
    case ReplDataRequest(_, _, _, _) => Some(RESPONSE_OK)
  }

  /** The statuses, by value: what a client is told for each request, and when the connection is
      closed without a word. */
  lemma AnswerIff(s: Session, request: Request, wanted: bool)
    ensures var answer := Answer(s, request, wanted);
            match request
            case NopRequest => answer == Some(0x01)
            case ByeRequest => answer == Some(0x01)
            case SubscribeRequest(topics) =>
              && answer.Some?
              && (answer.value == 0x01 <==> PassUpTo(s, topics, |topics|))
              && (answer.value == 0xFE <==>
                  exists k :: 0 <= k < |topics| && PassUpTo(s, topics, k) && !ReadMask(s.acl, topics[k]))
              && (answer.value != 0x01 && answer.value != 0xFE ==> answer.value == 0xFF)
            case UnsubscribeRequest(topics) =>
              answer == if forall i :: 0 <= i < |topics| ==> CountSlashes(Prepared(topics[i])) <= s.maxDepth
                        then Some(0x01) else Some(0xFF)
            case PublishRequest(_, raw, _) =>
              var topic := Prepared(raw);
              if CountSlashes(topic) > s.maxDepth then answer == Some(0xFF)
              else if HASH in topic || PLUS in topic then answer == None
              else if WriteMask(s.acl, topic) then answer == Some(0x01)
              else answer == Some(0xFE)
            case ReplTopicRequest(_) =>
              answer == if !s.acl.replicator then Some(0xFE) else if wanted then Some(0x02) else Some(0xE0)
            case ReplDataRequest(_, _, _, _) => answer == Some(0x01)
  {
    if request.SubscribeRequest? {
      SubscribeStatusIff(s, request.topics);
    } else if request.PublishRequest? {
      VerdictIff(s.acl, s.maxDepth, request.priority, request.topic, request.data);
    }
  }
}
