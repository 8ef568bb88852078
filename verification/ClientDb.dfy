/** The client database of src/pubsub.rs: clients by token, the subscription index, and the data
    channel slot and task list of each client. */
module ClientDb {
  import opened Wrappers
  import opened Bytes
  import opened Topic

  type Token = Text
  type Digest = Text

  // ---------------------------------------------------------------- the subscription index

  /** The contract of the `submap` crate, whose source is not part of this model: a client is
      known by its digest and holds a set of topic filters. */
  datatype SubMap<!C> = SubMap(clients: map<Digest, C>, filters: map<Digest, set<Text>>)

  function EmptySubMap<C>(): SubMap<C> {
    SubMap(map[], map[])
  }

  /** `register_client`: false exactly when a client with an equal digest is present. */
  function SubRegister<C>(s: SubMap<C>, digest: Digest, client: C): (SubMap<C>, bool) {
    if digest in s.clients then (s, false)
    else (SubMap(s.clients[digest := client], s.filters[digest := {}]), true)
  }

  /** `unregister_client`: the client goes with all its filters. */
  function SubUnregister<C>(s: SubMap<C>, digest: Digest): SubMap<C> {
    SubMap(s.clients - {digest}, s.filters - {digest})
  }

  function SubSubscribe<C>(s: SubMap<C>, digest: Digest, filter: Text): SubMap<C> {
    if digest in s.filters then s.(filters := s.filters[digest := s.filters[digest] + {filter}]) else s
  }

  function SubUnsubscribe<C>(s: SubMap<C>, digest: Digest, filter: Text): SubMap<C> {
    if digest in s.filters then s.(filters := s.filters[digest := s.filters[digest] - {filter}]) else s
  }

  /** `get_subscribers`: the clients holding a filter that matches the topic. */
  function SubSubscribers<C>(s: SubMap<C>, matches: (Text, Text) -> bool, topic: Text): set<C> {
    set d | d in s.clients && d in s.filters && (exists f :: f in s.filters[d] && matches(f, topic)) :: s.clients[d]
  }

  // ---------------------------------------------------------------- clients

  /** A spawned task; aborting it is a request the runtime serves later. */
  class Task {
    var aborted: bool

    constructor ()
      ensures !aborted
    {
      aborted := false;
    }

    method Abort()
      modifies this
      ensures aborted
    {
      aborted := true;
    }
  }

  /** The sending half of a data channel, by identity. */
  type Channel = nat

  class ServerClientData {
    const login: Text
    const addr: Text
    const token: Token
    const digest: Digest
    var dataChannel: Option<Channel>
    var tasks: seq<Task>

    constructor (login: Text, addr: Text, token: Token, digest: Digest)
      ensures this.login == login && this.addr == addr && this.token == token && this.digest == digest
      ensures dataChannel == None && tasks == []
    {
      this.login, this.addr, this.token, this.digest := login, addr, token, digest;
      dataChannel, tasks := None, [];
    }

    /** `abort_tasks`: every task listed so far is asked to stop, and the list is emptied. */
    method AbortTasks()
      modifies this`tasks, tasks
      ensures tasks == []
      ensures forall t :: t in old(tasks) ==> t.aborted
    {
      for i := 0 to |tasks|
        invariant tasks == old(tasks)
        invariant forall j :: 0 <= j < i ==> tasks[j].aborted
      {
        tasks[i].Abort();
      }
      tasks := [];
    }

    /** `register_task`. */
    method RegisterTask(task: Task)
      modifies this`tasks
      ensures tasks == old(tasks) + [task]
    {
      tasks := tasks + [task];
    }
  }

  // ---------------------------------------------------------------- the database as a value

  /** The two maps of `ServerClientDB`. */
  datatype Index<!C> = Index(submap: SubMap<C>, byToken: map<Token, C>)

  function EmptyIndex<C>(): Index<C> {
    Index(EmptySubMap(), map[])
  }

  function Entered<C>(idx: Index<C>, token: Token, digest: Digest, client: C): Index<C> {
    Index(SubRegister(idx.submap, digest, client).0, idx.byToken[token := client])
  }

  function Left<C>(idx: Index<C>, token: Token, digest: Digest): Index<C> {
    Index(SubUnregister(idx.submap, digest), idx.byToken - {token})
  }

  /** Every token's client is indexed under the token's digest. */
  ghost predicate TokensIndexed<C>(idx: Index<C>, digestOf: Token -> Digest) {
    forall t :: t in idx.byToken ==>
      digestOf(t) in idx.submap.clients && idx.submap.clients[digestOf(t)] == idx.byToken[t]
  }

  /** Every indexed digest belongs to a token. */
  ghost predicate DigestsCovered<C>(idx: Index<C>, digestOf: Token -> Digest) {
    forall d :: d in idx.submap.clients ==> exists t :: t in idx.byToken && digestOf(t) == d
  }

  /** Different tokens have different digests and different clients. */
  ghost predicate TokensDistinct<C>(idx: Index<C>, digestOf: Token -> Digest) {
    forall t, u :: t in idx.byToken && u in idx.byToken && t != u ==>
      digestOf(t) != digestOf(u) && idx.byToken[t] != idx.byToken[u]
  }

  /** The token map is a bijection onto the clients of the subscription index. */
  ghost predicate Bijection<C>(idx: Index<C>, digestOf: Token -> Digest) {
    && idx.submap.filters.Keys == idx.submap.clients.Keys
    && TokensIndexed(idx, digestOf)
    && DigestsCovered(idx, digestOf)
    && TokensDistinct(idx, digestOf)
  }

  /** The first random token whose digest no registered client has. */
  function FirstFree<C>(idx: Index<C>, digestOf: Token -> Digest, tokens: seq<Token>): (k: nat)
    ensures k <= |tokens|
    ensures forall i :: 0 <= i < k ==> digestOf(tokens[i]) in idx.submap.clients
    ensures k < |tokens| ==> digestOf(tokens[k]) !in idx.submap.clients
  {
    if tokens == [] || digestOf(tokens[0]) !in idx.submap.clients then 0
    else 1 + FirstFree(idx, digestOf, tokens[1..])
  }

  // ---------------------------------------------------------------- the database

  class ServerClientDB {
    /** `submap::digest::sha256`; nothing is assumed about collisions. */
    ghost const digestOf: Token -> Digest
    var submap: SubMap<ServerClientData>
    var clientsByToken: map<Token, ServerClientData>

    ghost function Abs(): Index<ServerClientData>
      reads this
    {
      Index(submap, clientsByToken)
    }

    ghost predicate Valid()
      reads this
    {
      && Bijection(Abs(), digestOf)
      && forall t :: t in clientsByToken ==>
           clientsByToken[t].token == t && clientsByToken[t].digest == digestOf(t)
    }

    constructor (ghost digestOf: Token -> Digest)
      ensures this.digestOf == digestOf
      ensures Valid() && Abs() == EmptyIndex()
    {
      this.digestOf := digestOf;
      submap, clientsByToken := EmptySubMap(), map[];
    }

    /** `register_client`: draws random tokens, with their digests, until one is free; the random
        source may fail, here by running dry. */
    method RegisterClient(login: Text, addr: Text, random: seq<(Token, Digest)>)
      returns (r: Result<ServerClientData, ErrorKind>)
      requires Valid()
      requires forall i :: 0 <= i < |random| ==> random[i].1 == digestOf(random[i].0)
      modifies this
      ensures Valid()
      ensures var k := FirstFree(old(Abs()), digestOf, seq(|random|, i requires 0 <= i < |random| => random[i].0));
              if k < |random| then
                && r.Ok? && fresh(r.value)
                && r.value.token == random[k].0 && r.value.login == login && r.value.addr == addr
                && r.value.dataChannel == None && r.value.tasks == []
                && random[k].0 !in old(clientsByToken)
                && Abs() == Entered(old(Abs()), random[k].0, random[k].1, r.value)
              else r == Err(Io) && Abs() == old(Abs())
    {
      ghost var tokens := seq(|random|, i requires 0 <= i < |random| => random[i].0);
      ghost var k := FirstFree(Abs(), digestOf, tokens);
      for i := 0 to |random|
        invariant Abs() == old(Abs())
        invariant i <= k
      {
        var (token, digest) := random[i];
        assert tokens[i] == token;
        var client := new ServerClientData(login, addr, token, digest);
        var (after, isNew) := SubRegister(submap, digest, client);
        if isNew {
          assert i == k;
          assert token !in clientsByToken;
          EnterKeepsBijection(Abs(), digestOf, token, client);
          submap := after;
          clientsByToken := clientsByToken[token := client];
          return Ok(client);
        }
      }
      return Err(Io);
    }

    /** `unregister_client`: whoever holds the client's digest goes, and whoever holds its token.
        For a client no longer registered that is nobody, unless digests collide. */
    method UnregisterClient(client: ServerClientData)
      requires Valid()
      requires client.digest == digestOf(client.token)
      modifies this
      ensures Abs() == Left(old(Abs()), client.token, client.digest)
      ensures Valid() <==> client.token in old(clientsByToken) || client.digest !in old(submap.clients)
      ensures client.token !in old(clientsByToken) && client.digest !in old(submap.clients) ==> Abs() == old(Abs())
    {
      if client.token in clientsByToken {
        LeaveKeepsBijection(Abs(), digestOf, client.token);
      } else {
        LeaveUnknown(Abs(), digestOf, client.token);
      }
      submap := SubUnregister(submap, client.digest);
      clientsByToken := clientsByToken - {client.token};
    }

    /** `register_data_channel`: refused for an unknown token and for an occupied slot. */
    method RegisterDataChannel(token: Token, channel: Channel)
      returns (r: Result<(Channel, ServerClientData), ErrorKind>)
      requires Valid()
      modifies set t | t in clientsByToken :: clientsByToken[t]`dataChannel
      ensures Valid()
      ensures r.Ok? <==> token in clientsByToken && old(clientsByToken[token].dataChannel) == None
      ensures r.Ok? ==>
                && r.value == (channel, clientsByToken[token])
                && clientsByToken[token].dataChannel == Some(channel)
      ensures r.Err? ==> r.error == AccessDenied
      ensures forall t :: t in clientsByToken && (r.Err? || t != token) ==>
                clientsByToken[t].dataChannel == old(clientsByToken[t].dataChannel)
    {
      if token in clientsByToken {
        var client := clientsByToken[token];
        if client.dataChannel.Some? {
          return Err(AccessDenied);
        }
        client.dataChannel := Some(channel);
        r := Ok((channel, client));
      } else {
        r := Err(AccessDenied);
      }
    }

    /** `unregister_data_channel`: clears whatever the slot holds; nothing for an unknown token. */
    method UnregisterDataChannel(token: Token)
      requires Valid()
      modifies set t | t in clientsByToken :: clientsByToken[t]`dataChannel
      ensures Valid()
      ensures token in clientsByToken ==> clientsByToken[token].dataChannel == None
      ensures forall t :: t in clientsByToken && t != token ==>
              clientsByToken[t].dataChannel == old(clientsByToken[t].dataChannel)
    {
      if token in clientsByToken {
        clientsByToken[token].dataChannel := None;
      }
    }

    /** `subscribe`: the prepared form of the topic is stored. */
    method Subscribe(topic: Text, client: ServerClientData, maxDepth: nat) returns (ok: bool)
      modifies this`submap
      ensures old(Valid()) ==> Valid()
      ensures ok <==> CountSlashes(Prepared(topic)) <= maxDepth
      ensures submap == if ok then SubSubscribe(old(submap), client.digest, Prepared(topic)) else old(submap)
    {
      var prepared, _ := PrepareTopic(topic, maxDepth);
      if prepared.Err? {
        return false;
      }
      submap := SubSubscribe(submap, client.digest, prepared.value);
      return true;
    }

    /** `unsubscribe`. */
    method Unsubscribe(topic: Text, client: ServerClientData, maxDepth: nat) returns (ok: bool)
      modifies this`submap
      ensures old(Valid()) ==> Valid()
      ensures ok <==> CountSlashes(Prepared(topic)) <= maxDepth
      ensures submap == if ok then SubUnsubscribe(old(submap), client.digest, Prepared(topic)) else old(submap)
    {
      var prepared, _ := PrepareTopic(topic, maxDepth);
      if prepared.Err? {
        return false;
      }
      submap := SubUnsubscribe(submap, client.digest, prepared.value);
      return true;
    }

    /** `get_subscribers`. */
    method GetSubscribers(topic: Text, matches: (Text, Text) -> bool) returns (subscribers: set<ServerClientData>)
      requires Valid()
      ensures forall c :: c in subscribers ==> c.token in clientsByToken && clientsByToken[c.token] == c
      ensures forall t :: t in clientsByToken ==>
                (clientsByToken[t] in subscribers <==>
                 exists f :: f in submap.filters[clientsByToken[t].digest] && matches(f, topic))
    {
      subscribers := SubSubscribers(submap, matches, topic);
    }
  }

  // ---------------------------------------------------------------- the bijection over runs

  lemma EnterKeepsBijection<C>(idx: Index<C>, digestOf: Token -> Digest, token: Token, client: C)
    requires Bijection(idx, digestOf)
    requires digestOf(token) !in idx.submap.clients
    requires client !in idx.byToken.Values
    ensures token !in idx.byToken
    ensures Bijection(Entered(idx, token, digestOf(token), client), digestOf)
  {
    var after := Entered(idx, token, digestOf(token), client);
    assert token !in idx.byToken;
    assert TokensDistinct(after, digestOf) by {
      assert forall t :: t in idx.byToken ==> idx.byToken[t] in idx.byToken.Values;
    }
    forall d | d in after.submap.clients
      ensures exists t :: t in after.byToken && digestOf(t) == d
    {
      if d == digestOf(token) {
        assert token in after.byToken;
      } else {
        var t :| t in idx.byToken && digestOf(t) == d;
        assert t in after.byToken;
      }
    }
  }

  lemma FiltersKeepBijection<C>(idx: Index<C>, digestOf: Token -> Digest, m: SubMap<C>)
    requires Bijection(idx, digestOf)
    requires m.clients == idx.submap.clients && m.filters.Keys == idx.submap.filters.Keys
    ensures Bijection(idx.(submap := m), digestOf)
  {
  }

  lemma SubscribeKeepsBijection<C>(idx: Index<C>, digestOf: Token -> Digest, digest: Digest, filter: Text)
    requires Bijection(idx, digestOf)
    ensures Bijection(idx.(submap := SubSubscribe(idx.submap, digest, filter)), digestOf)
    ensures Bijection(idx.(submap := SubUnsubscribe(idx.submap, digest, filter)), digestOf)
  {
  }

  lemma LeaveKeepsBijection<C>(idx: Index<C>, digestOf: Token -> Digest, token: Token)
    requires Bijection(idx, digestOf)
    requires token in idx.byToken
    ensures Bijection(Left(idx, token, digestOf(token)), digestOf)
  {
    var after := Left(idx, token, digestOf(token));
    forall d | d in after.submap.clients
      ensures exists t :: t in after.byToken && digestOf(t) == d
    {
      var t :| t in idx.byToken && digestOf(t) == d;
      assert t in after.byToken;
    }
  }

  /** Removing a token nobody holds changes nothing, unless its digest is taken: then the client of
      the colliding digest is lost from one of the maps. */
  lemma LeaveUnknown<C>(idx: Index<C>, digestOf: Token -> Digest, token: Token)
    requires Bijection(idx, digestOf)
    requires token !in idx.byToken
    ensures digestOf(token) !in idx.submap.clients ==> Left(idx, token, digestOf(token)) == idx
    ensures digestOf(token) in idx.submap.clients ==> !Bijection(Left(idx, token, digestOf(token)), digestOf)
  {
    var after := Left(idx, token, digestOf(token));
    assert after.byToken == idx.byToken;
    if digestOf(token) in idx.submap.clients {
      var t :| t in idx.byToken && digestOf(t) == digestOf(token);
      assert t in after.byToken && digestOf(t) !in after.submap.clients;
    } else {
      assert after.submap.clients == idx.submap.clients && after.submap.filters == idx.submap.filters;
    }
  }

  /** One operation on the two maps; `Enter` carries the random tokens drawn. */
  datatype IndexOp<!C> =
    | Enter(client: C, random: seq<Token>)
    | Leave(token: Token)
    | AddFilter(token: Token, filter: Text)
    | DropFilter(token: Token, filter: Text)

  /** The methods of `ServerClientDB` on the two maps; a handler only ever removes a client it registered. */
  function Apply<C>(idx: Index<C>, digestOf: Token -> Digest, op: IndexOp<C>): Index<C> {
    match op
    case Enter(client, random) =>
      var k := FirstFree(idx, digestOf, random);
      if k < |random| then Entered(idx, random[k], digestOf(random[k]), client) else idx
    case Leave(token) =>
      if token in idx.byToken then Left(idx, token, digestOf(token)) else idx
    case AddFilter(token, filter) => idx.(submap := SubSubscribe(idx.submap, digestOf(token), filter))
    case DropFilter(token, filter) => idx.(submap := SubUnsubscribe(idx.submap, digestOf(token), filter))
  }

  function RunOps<C>(idx: Index<C>, digestOf: Token -> Digest, ops: seq<IndexOp<C>>): Index<C>
    decreases ops
  {
    if ops == [] then idx else RunOps(Apply(idx, digestOf, ops[0]), digestOf, ops[1..])
  }

  /** Clients are objects: `register_client` allocates a new one for each attempt. */
  ghost predicate EntersOnly<C>(ops: seq<IndexOp<C>>, taken: set<C>)
    decreases ops
  {
    ops == [] ||
    (if ops[0].Enter? then ops[0].client !in taken && EntersOnly(ops[1..], taken + {ops[0].client})
     else EntersOnly(ops[1..], taken))
  }

  lemma ApplyKeepsBijection<C>(idx: Index<C>, digestOf: Token -> Digest, op: IndexOp<C>)
    requires Bijection(idx, digestOf)
    requires op.Enter? ==> op.client !in idx.byToken.Values
    ensures var after := Apply(idx, digestOf, op);
            && Bijection(after, digestOf)
            && after.byToken.Values <= idx.byToken.Values + (if op.Enter? then {op.client} else {})
            && (op.Enter? ==> idx.byToken.Keys <= after.byToken.Keys &&
                              forall t :: t in idx.byToken ==> after.byToken[t] == idx.byToken[t])
  {
    match op {
      case Enter(client, random) =>
        var k := FirstFree(idx, digestOf, random);
        if k < |random| {
          EnterKeepsBijection(idx, digestOf, random[k], client);
        }
      case Leave(token) =>
        if token in idx.byToken {
          LeaveKeepsBijection(idx, digestOf, token);
        }
      case AddFilter(token, filter) =>
      case DropFilter(token, filter) =>
    }
  }

  /** Over any run of database operations the token map stays a bijection onto the indexed
      clients, even where digests collide, and no client outside `taken` or the run appears. */
  lemma {:induction false} RunKeepsBijection<C>(idx: Index<C>, digestOf: Token -> Digest, ops: seq<IndexOp<C>>,
                                                taken: set<C>)
    requires Bijection(idx, digestOf)
    requires idx.byToken.Values <= taken && EntersOnly(ops, taken)
    ensures Bijection(RunOps(idx, digestOf, ops), digestOf)
    decreases ops
  {
    if ops != [] {
      ApplyKeepsBijection(idx, digestOf, ops[0]);
      var more := if ops[0].Enter? then taken + {ops[0].client} else taken;
      RunKeepsBijection(Apply(idx, digestOf, ops[0]), digestOf, ops[1..], more);
    }
  }

  /** A client that has been unregistered is in no later subscriber set, whatever happens next. */
  lemma {:induction false} GoneForGood<C>(idx: Index<C>, digestOf: Token -> Digest, ops: seq<IndexOp<C>>, taken: set<C>,
                                          client: C, matches: (Text, Text) -> bool, topic: Text)
    requires Bijection(idx, digestOf)
    requires idx.byToken.Values <= taken && EntersOnly(ops, taken)
    requires client in taken && client !in idx.byToken.Values
    ensures client !in SubSubscribers(RunOps(idx, digestOf, ops).submap, matches, topic)
    decreases ops
  {
    if ops == [] {
      forall d | d in idx.submap.clients
        ensures idx.submap.clients[d] != client
      {
        var t :| t in idx.byToken && digestOf(t) == d;
        assert idx.byToken[t] in idx.byToken.Values;
      }
    } else {
      ApplyKeepsBijection(idx, digestOf, ops[0]);
      var more := if ops[0].Enter? then taken + {ops[0].client} else taken;
      GoneForGood(Apply(idx, digestOf, ops[0]), digestOf, ops[1..], more, client, matches, topic);
    }
  }
}
