/** One-shot UDP publishes: the packets of `UdpClient` (src/client.rs), their decryption
    (src/keys.rs), and the server's verdict and acknowledgement (src/server.rs). */
module Udp {
  import opened Wrappers
  import opened Bytes
  import opened Topic
  import opened PathMask
  import opened Wire
  import opened Server
  import DataStream

  const CONTROL_HEADER: Text := [0xEE, 0xAA]
  const VERSION_BYTES: Text := [0x01, 0x00]

  const AUTH_LOGIN_PASS: byte := 0x00
  const AUTH_KEY_AES128_GCM: byte := 0x02
  const AUTH_KEY_AES256_GCM: byte := 0x03

  datatype EncryptionType = No | Aes128Gcm | Aes256Gcm

  /** `EncryptionType::from_byte`. */
  function FromByte(b: byte): Result<EncryptionType, ErrorKind> {
    if b == AUTH_LOGIN_PASS then Ok(No)
    else if b == AUTH_KEY_AES128_GCM then Ok(Aes128Gcm)
    else if b == AUTH_KEY_AES256_GCM then Ok(Aes256Gcm)
    else Err(InvalidData)
  }

  /** An authenticated cipher, by key, nonce and text; encryption gives a ciphertext and a tag. */
  datatype Aead = Aead(encrypt: (Text, Text, Text) -> (Text, Text), decrypt: (Text, Text, Text, Text) -> Option<Text>)

  /** What is assumed of AES-GCM: lengths, and that decryption undoes encryption. */
  ghost predicate Lawful(a: Aead) {
    forall key, nonce, plain ::
      var (cipher, tag) := a.encrypt(key, nonce, plain);
      |cipher| == |plain| && |tag| == 16 && a.decrypt(key, nonce, cipher, tag) == Some(plain)
  }

  datatype Key = Key(aes128: Text, aes256: Text)

  /** What the server consults: its ciphers, keys, accounts and limits. */
  datatype Env = Env(
    gcm128: Aead,
    gcm256: Aead,
    keys: Option<map<Text, Key>>,
    allowAnonymous: bool,
    authenticate: (Text, Text) -> bool,
    aclOf: Text -> Option<Acl>,
    maxDepth: nat
  )

  // ---------------------------------------------------------------- the client

  datatype UdpClient = UdpClient(login: Text, password: Text, encrypt: bool)

  function Op(ack: bool): byte {
    if ack then OP_PUBLISH else OP_PUBLISH_NO_ACK
  }

  /** The block that carries the publish itself. */
  function Block(ack: bool, topic: Text, message: Text): Text {
    [Op(ack), DEFAULT_PRIORITY] + topic + [NUL] + message
  }

  function Packet(a: Aead, c: UdpClient, nonce: Text, ack: bool, topic: Text, message: Text): Text {
    var block := Block(ack, topic, message);
    CONTROL_HEADER + VERSION_BYTES +
    if c.encrypt then
      var (cipher, tag) := a.encrypt(c.password, nonce, block);
      [AUTH_KEY_AES256_GCM] + (c.login + [NUL] + (nonce + cipher + tag))
    else [AUTH_LOGIN_PASS] + (c.login + [NUL] + (c.password + [NUL] + block))
  }

  /** The packet built by `publish_impl`; `nonce` is the random draw. */
  method BuildPacket(a: Aead, c: UdpClient, nonce: Text, ack: bool, topic: Text, message: Text) returns (buf: Text)
    ensures buf == Packet(a, c, nonce, ack, topic, message)
  {
    buf := CONTROL_HEADER;
    buf := buf + VERSION_BYTES;
    ghost var head := buf;
    var op := if ack then OP_PUBLISH else OP_PUBLISH_NO_ACK;
    if c.encrypt {
      buf := buf + [AUTH_KEY_AES256_GCM];
      buf := buf + c.login;
      buf := buf + [NUL];
      var block: Text := [op];
      block := block + [DEFAULT_PRIORITY];
      block := block + topic;
      block := block + [NUL];
      block := block + message;
      assert block == Block(ack, topic, message);
      var (encrypted, digest) := a.encrypt(c.password, nonce, block);
      buf := buf + nonce;
      buf := buf + encrypted;
      buf := buf + digest;
      assert buf == head + ([AUTH_KEY_AES256_GCM] + (c.login + [NUL] + (nonce + encrypted + digest)));
    } else {
      buf := buf + [AUTH_LOGIN_PASS];
      buf := buf + c.login;
      buf := buf + [NUL];
      buf := buf + c.password;
      buf := buf + [NUL];
      ghost var before := buf;
      buf := buf + [op];
      buf := buf + [DEFAULT_PRIORITY];
      buf := buf + topic;
      buf := buf + [NUL];
      buf := buf + message;
      assert buf == before + Block(ack, topic, message);
      assert buf == head + ([AUTH_LOGIN_PASS] + (c.login + [NUL] + (c.password + [NUL] + Block(ack, topic, message))));
    }
  }

  // ---------------------------------------------------------------- the server

  /** An error and whether it is acknowledged. */
  datatype UdpError = UdpError(kind: ErrorKind, needAck: bool)

  /** A forwarded message and whether it is acknowledged. */
  datatype Accepted = Accepted(message: DataStream.Message, needAck: bool)

  type UdpResult = Result<Accepted, UdpError>

  /** `decrypt`: the tag is the last 16 bytes. */
  function Decrypt(a: Aead, key: Text, iv: Text, data: Text): Result<Text, ErrorKind>
    requires |data| >= 16
  {
    var digestPos := |data| - 16;
    match a.decrypt(key, iv, data[..digestPos], data[digestPos..])
    case Some(plain) => Ok(plain)
    case None => Err(Io)
  }

  /** `auth_and_decr`: 12 bytes of nonce, the ciphertext, the tag. */
  function AuthAndDecrypt(env: Env, block: Text, keyId: Text, tp: EncryptionType): Result<Text, ErrorKind>
    requires tp != No
  {
    if env.keys.None? || keyId !in env.keys.value then Err(AccessDenied)
    else if |block| < 29 then Err(InvalidData)
    else
      var key := env.keys.value[keyId];
      if tp == Aes128Gcm then Decrypt(env.gcm128, key.aes128, block[..12], block[12..])
      else Decrypt(env.gcm256, key.aes256, block[..12], block[12..])
  }

  /** Who may publish, and what becomes of the publish; `password` is absent behind a key. */
  function Admit(env: Env, login: Text, password: Option<Text>, priority: byte, topic: Text, data: Text)
    : Result<DataStream.Message, ErrorKind>
  {
    if password.Some? && login == [] && password.value == [] && !env.allowAnonymous then Err(AccessDenied)
    else if password.Some? && !(login == [] && password.value == []) && !env.authenticate(login, password.value)
    then Err(AccessDenied)
    else
      match env.aclOf(LoginOrUnderscore(login))
      case None => Err(AccessDenied)
      case Some(acl) =>
        match VerdictOf(acl, env.maxDepth, priority, topic, data)
        case Forward(m) => Ok(m)
        case Denied => Err(AccessDenied)
        case TooDeep | Fatal => Err(InvalidData)
  }

  /** `process_udp_block`. */
  function ProcessBlock(env: Env, login: Text, password: Option<Text>, block: Text): UdpResult {
    var (buf, rest) := CutAtNul(block);
    if |buf| < 3 then Err(UdpError(InvalidData, false))
    else if buf[0] != OP_PUBLISH && buf[0] != OP_PUBLISH_NO_ACK then Err(UdpError(InvalidData, false))
    else
      var needAck := buf[0] == OP_PUBLISH;
      if !ValidUtf8(buf[2..]) then Err(UdpError(InvalidData, needAck))
      else if rest.None? then Err(UdpError(InvalidData, needAck))
      else
        match Admit(env, login, password, buf[1], buf[2..], rest.value)
        case Ok(m) => Ok(Accepted(m, needAck))
        case Err(kind) => Err(UdpError(kind, needAck))
  }

  /** `process_udp_packet`. */
  function ProcessPacket(env: Env, frame: Text): UdpResult {
    if |frame| < 5 then Err(UdpError(InvalidData, false))
    else if frame[..2] != CONTROL_HEADER then Err(UdpError(InvalidData, false))
    else if frame[2..4] != VERSION_BYTES then Err(UdpError(InvalidData, false))
    else
      var etp := FromByte(frame[4]);
      if etp.Err? then Err(UdpError(etp.error, false)) else ProcessBody(env, etp.value, frame[5..])
  }

  function ProcessBody(env: Env, etp: EncryptionType, body: Text): UdpResult {
    var (login, rest) := CutAtNul(body);
    if !ValidUtf8(login) || rest.None? then Err(UdpError(InvalidData, false))
    else if etp != No then
      var block := AuthAndDecrypt(env, rest.value, LoginOrUnderscore(login), etp);
      if block.Err? then Err(UdpError(block.error, false)) else ProcessBlock(env, login, None, block.value)
    else
      var (password, block) := CutAtNul(rest.value);
      if !ValidUtf8(password) || block.None? then Err(UdpError(InvalidData, false))
      else ProcessBlock(env, login, Some(password), block.value)
  }

  /** The status `handle_udp_listener` acknowledges a packet with, if at all. */
  function AckOf(r: UdpResult): Option<byte> {
    match r
    case Ok(accepted) => if accepted.needAck then Some(RESPONSE_OK) else None
    case Err(e) =>
      if !e.needAck then None
      else if e.kind == AccessDenied then Some(RESPONSE_ERR_ACCESS)
      else Some(RESPONSE_ERR)
  }

  /** `recv_from` into a buffer of the configured size. */
  function Delivered(frameSize: nat, packet: Text): Text {
    if |packet| <= frameSize then packet else packet[..frameSize]
  }

  // ---------------------------------------------------------------- round trip

  /** Credentials and topic as the client API takes them, without NULs. */
  predicate Sound(c: UdpClient, topic: Text) {
    && ValidUtf8(c.login) && NulFree(c.login)
    && (!c.encrypt ==> ValidUtf8(c.password) && NulFree(c.password))
    && ValidUtf8(topic) && NulFree(topic)
  }

  /** The server holds the client's key under its login. */
  predicate KeyKnown(env: Env, c: UdpClient) {
    c.encrypt ==>
      && env.keys.Some?
      && LoginOrUnderscore(c.login) in env.keys.value
      && env.keys.value[LoginOrUnderscore(c.login)].aes256 == c.password
  }

  /** What should become of a publish with these credentials. */
  function Expected(env: Env, login: Text, password: Option<Text>, ack: bool, topic: Text, message: Text): UdpResult {
    if topic == [] then Err(UdpError(InvalidData, false))
    else
      match Admit(env, login, password, DEFAULT_PRIORITY, topic, message)
      case Ok(m) => Ok(Accepted(m, ack))
      case Err(kind) => Err(UdpError(kind, ack))
  }

  lemma BlockParses(env: Env, login: Text, password: Option<Text>, ack: bool, topic: Text, message: Text)
    requires ValidUtf8(topic) && NulFree(topic)
    ensures ProcessBlock(env, login, password, Block(ack, topic, message))
         == Expected(env, login, password, ack, topic, message)
    ensures var r := ProcessBlock(env, login, password, Block(ack, topic, message));
            var acl, t := ListFor(env, login), Prepared(topic);
            r.Ok? <==> topic != [] && Vouched(env, login, password) && acl.Some? && CountSlashes(t) <= env.maxDepth
                       && HASH !in t && PLUS !in t && WriteMask(acl.value, t)
  {
    ExpectedIff(env, login, password, ack, topic, message);
    var head := [Op(ack), DEFAULT_PRIORITY] + topic;
    CutAtNulJoint(head, message);
    assert Block(ack, topic, message) == head + [NUL] + message;
    assert head[2..] == topic;
  }

  lemma Opens(a: Aead, key: Text, nonce: Text, plain: Text)
    requires Lawful(a) && |nonce| == 12
    ensures var (cipher, tag) := a.encrypt(key, nonce, plain);
            var sealed := nonce + cipher + tag;
            && |sealed| == 28 + |plain|
            && Decrypt(a, key, sealed[..12], sealed[12..]) == Ok(plain)
  {
    var (cipher, tag) := a.encrypt(key, nonce, plain);
    assert |cipher| == |plain| && |tag| == 16 && a.decrypt(key, nonce, cipher, tag) == Some(plain);
    var sealed := nonce + cipher + tag;
    assert sealed[..12] == nonce;
    assert sealed[12..][..|cipher|] == cipher;
    assert sealed[12..][|cipher|..] == tag;
  }

  lemma PacketHead(env: Env, etp: byte, body: Text)
    requires FromByte(etp).Ok?
    ensures ProcessPacket(env, CONTROL_HEADER + VERSION_BYTES + ([etp] + body))
         == ProcessBody(env, FromByte(etp).value, body)
  {
    var frame := CONTROL_HEADER + VERSION_BYTES + ([etp] + body);
    assert frame[..2] == CONTROL_HEADER;
    assert frame[2..4] == VERSION_BYTES;
    assert frame[5..] == body;
  }

  lemma OpensUnderKey(env: Env, c: UdpClient, nonce: Text, block: Text)
    requires c.encrypt && KeyKnown(env, c) && Lawful(env.gcm256) && |nonce| == 12 && block != []
    ensures var (cipher, tag) := env.gcm256.encrypt(c.password, nonce, block);
            AuthAndDecrypt(env, nonce + cipher + tag, LoginOrUnderscore(c.login), Aes256Gcm) == Ok(block)
  {
    Opens(env.gcm256, c.password, nonce, block);
  }

  lemma SealedBody(env: Env, c: UdpClient, nonce: Text, block: Text)
    requires ValidUtf8(c.login) && NulFree(c.login) && c.encrypt && KeyKnown(env, c)
    requires Lawful(env.gcm256) && |nonce| == 12 && block != []
    ensures var (cipher, tag) := env.gcm256.encrypt(c.password, nonce, block);
            ProcessBody(env, Aes256Gcm, c.login + [NUL] + (nonce + cipher + tag))
                == ProcessBlock(env, c.login, None, block)
  {
    var (cipher, tag) := env.gcm256.encrypt(c.password, nonce, block);
    CutAtNulJoint(c.login, nonce + cipher + tag);
    OpensUnderKey(env, c, nonce, block);
  }

  lemma PlainBody(env: Env, login: Text, password: Text, block: Text)
    requires ValidUtf8(login) && NulFree(login) && ValidUtf8(password) && NulFree(password)
    ensures ProcessBody(env, No, login + [NUL] + (password + [NUL] + block))
         == ProcessBlock(env, login, Some(password), block)
  {
    CutAtNulJoint(login, password + [NUL] + block);
    CutAtNulJoint(password, block);
  }

  /** Every packet the client builds is read as the login, topic, priority and message it was
      built from, whatever NULs its nonce, ciphertext or message hold. */
  lemma PacketRoundTrip(env: Env, c: UdpClient, nonce: Text, ack: bool, topic: Text, message: Text, frameSize: nat)
    requires Sound(c, topic) && KeyKnown(env, c) && Lawful(env.gcm256) && |nonce| == 12
    requires |Packet(env.gcm256, c, nonce, ack, topic, message)| <= frameSize
    ensures ProcessPacket(env, Delivered(frameSize, Packet(env.gcm256, c, nonce, ack, topic, message)))
         == Expected(env, c.login, if c.encrypt then None else Some(c.password), ack, topic, message)
  {
    var block := Block(ack, topic, message);
    if c.encrypt {
      var (cipher, tag) := env.gcm256.encrypt(c.password, nonce, block);
      PacketHead(env, AUTH_KEY_AES256_GCM, c.login + [NUL] + (nonce + cipher + tag));
      SealedBody(env, c, nonce, block);
      BlockParses(env, c.login, None, ack, topic, message);
    } else {
      PacketHead(env, AUTH_LOGIN_PASS, c.login + [NUL] + (c.password + [NUL] + block));
      PlainBody(env, c.login, c.password, block);
      BlockParses(env, c.login, Some(c.password), ack, topic, message);
    }
  }

  lemma ExpectedAck(env: Env, login: Text, password: Option<Text>, ack: bool, topic: Text, message: Text)
    ensures var r := Expected(env, login, password, ack, topic, message);
            && (AckOf(r).Some? <==> ack && topic != [])
            && (AckOf(r) == Some(RESPONSE_OK) <==> ack && r.Ok?)
            && (r.Ok? ==> r.value.message == DataStream.Message(DEFAULT_PRIORITY, Prepared(topic), message))
  {
  }

  /** The server acknowledges exactly when asked to, on every exit behind the parse of a non-empty
      topic; an empty topic is never acknowledged. A positive status means the message was
      forwarded. */
  lemma AckIffAsked(env: Env, c: UdpClient, nonce: Text, ack: bool, topic: Text, message: Text, frameSize: nat)
    requires Sound(c, topic) && KeyKnown(env, c) && Lawful(env.gcm256) && |nonce| == 12
    requires |Packet(env.gcm256, c, nonce, ack, topic, message)| <= frameSize
    ensures var r := ProcessPacket(env, Delivered(frameSize, Packet(env.gcm256, c, nonce, ack, topic, message)));
            && (AckOf(r).Some? <==> ack && topic != [])
            && (AckOf(r) == Some(RESPONSE_OK) <==> ack && r.Ok?)
            && (r.Ok? ==> r.value.message == DataStream.Message(DEFAULT_PRIORITY, Prepared(topic), message))
  {
    PacketRoundTrip(env, c, nonce, ack, topic, message, frameSize);
    ExpectedAck(env, c.login, if c.encrypt then None else Some(c.password), ack, topic, message);
  }

  // ---------------------------------------------------------------- who may publish

  /** The credentials are good: the password is the login's, or both are empty and anonymous
      publishers are let in; behind a key nothing more is asked. */
  predicate Vouched(env: Env, login: Text, password: Option<Text>) {
    || password.None?
    || (if login == [] && password.value == [] then env.allowAnonymous else env.authenticate(login, password.value))
  }

  /** The access list of a login; the empty login has that of `_`. */
  function ListFor(env: Env, login: Text): Option<Acl> {
    env.aclOf(if login == [] then [0x5F] else login)
  }

  /** What `Admit` lets through and how it refuses the rest: credentials, access list, depth, wildcard
      symbols and write masks, the first, the second and the last of them as access denied. */
  lemma AdmitIff(env: Env, login: Text, password: Option<Text>, priority: byte, topic: Text, data: Text)
    ensures var r, acl, t := Admit(env, login, password, priority, topic, data), ListFor(env, login), Prepared(topic);
            var known := Vouched(env, login, password) && acl.Some?;
            var sound := CountSlashes(t) <= env.maxDepth && HASH !in t && PLUS !in t;
            && (r.Ok? <==> known && sound && WriteMask(acl.value, t))
            && (r.Ok? ==> r.value == DataStream.Message(priority, t, data))
            && (r == Err(AccessDenied) <==> !known || (sound && !WriteMask(acl.value, t)))
            && (r == Err(InvalidData) <==> known && !sound)
  {
    if ListFor(env, login).Some? {
      VerdictIff(ListFor(env, login).value, env.maxDepth, priority, topic, data);
    }
  }

  /** A client's packet is accepted, with the key known, iff its topic is not empty, its credentials
      are good, there is an access list, the prepared topic is within depth and free of wildcard
      symbols, and a write mask matches it; the status it gets is decided in the same way. */
  lemma AcceptedIff(env: Env, c: UdpClient, nonce: Text, ack: bool, topic: Text, message: Text, frameSize: nat)
    requires Sound(c, topic) && KeyKnown(env, c) && Lawful(env.gcm256) && |nonce| == 12
    requires |Packet(env.gcm256, c, nonce, ack, topic, message)| <= frameSize
    ensures var r := ProcessPacket(env, Delivered(frameSize, Packet(env.gcm256, c, nonce, ack, topic, message)));
            var acl, t := ListFor(env, c.login), Prepared(topic);
            var known := Vouched(env, c.login, if c.encrypt then None else Some(c.password)) && acl.Some?;
            var sound := CountSlashes(t) <= env.maxDepth && HASH !in t && PLUS !in t;
            && (r.Ok? <==> topic != [] && known && sound && WriteMask(acl.value, t))
            && (r.Ok? ==> r.value.message == DataStream.Message(0x7F, t, message))
            && (AckOf(r) == Some(0x01) <==> ack && topic != [] && known && sound && WriteMask(acl.value, t))
            && (AckOf(r) == Some(0xFE) <==> ack && topic != [] && (!known || (sound && !WriteMask(acl.value, t))))
            && (AckOf(r) == Some(0xFF) <==> ack && topic != [] && known && !sound)
            && (AckOf(r) == None <==> !ack || topic == [])
  {
    var password := if c.encrypt then None else Some(c.password);
    PacketRoundTrip(env, c, nonce, ack, topic, message, frameSize);
    ExpectedIff(env, c.login, password, ack, topic, message);
  }

  lemma ExpectedIff(env: Env, login: Text, password: Option<Text>, ack: bool, topic: Text, message: Text)
    ensures var r, acl, t := Expected(env, login, password, ack, topic, message), ListFor(env, login), Prepared(topic);
            var known := Vouched(env, login, password) && acl.Some?;
            var sound := CountSlashes(t) <= env.maxDepth && HASH !in t && PLUS !in t;
            && (r.Ok? <==> topic != [] && known && sound && WriteMask(acl.value, t))
            && (r.Ok? ==> r.value.message == DataStream.Message(0x7F, t, message))
            && (AckOf(r) == Some(0x01) <==> ack && topic != [] && known && sound && WriteMask(acl.value, t))
            && (AckOf(r) == Some(0xFE) <==> ack && topic != [] && (!known || (sound && !WriteMask(acl.value, t))))
            && (AckOf(r) == Some(0xFF) <==> ack && topic != [] && known && !sound)
            && (AckOf(r) == None <==> !ack || topic == [])
  {
    AdmitIff(env, login, password, DEFAULT_PRIORITY, topic, message);
  }

  /** Nothing without the right header, version and a known encryption byte is accepted or answered. */
  lemma HeaderIsRequired(env: Env, frame: Text)
    requires |frame| < 5 || frame[..4] != [0xEE, 0xAA, 0x01, 0x00] || frame[4] !in {0x00, 0x02, 0x03}
    ensures ProcessPacket(env, frame).Err? && AckOf(ProcessPacket(env, frame)) == None
  {
    if |frame| >= 5 && frame[..2] == CONTROL_HEADER && frame[2..4] == VERSION_BYTES {
      assert frame[..4] == frame[..2] + frame[2..4];
      assert frame[..4] == [0xEE, 0xAA, 0x01, 0x00];
    }
  }

  /** What either cipher sealed under the server's key for it is opened by it: 12 bytes of nonce, the
      text, 16 of tag, and at least one byte of text. */
  lemma OpensEither(env: Env, keyId: Text, tp: EncryptionType, nonce: Text, plain: Text)
    requires tp != No && env.keys.Some? && keyId in env.keys.value && |nonce| == 12
    requires Lawful(if tp == Aes128Gcm then env.gcm128 else env.gcm256)
    ensures var key := env.keys.value[keyId];
            var (cipher, tag) := if tp == Aes128Gcm then env.gcm128.encrypt(key.aes128, nonce, plain)
                                 else env.gcm256.encrypt(key.aes256, nonce, plain);
            AuthAndDecrypt(env, nonce + cipher + tag, keyId, tp) == if plain == [] then Err(InvalidData) else Ok(plain)
  {
    var key := env.keys.value[keyId];
    if tp == Aes128Gcm {
      Opens(env.gcm128, key.aes128, nonce, plain);
    } else {
      Opens(env.gcm256, key.aes256, nonce, plain);
    }
  }

  // ---------------------------------------------------------------- sealed packets

  /** A block that asks for an acknowledgement: a publish with one, and a topic of at least a byte. */
  predicate Asks(block: Text) {
    var buf := CutAtNul(block).0;
    |buf| >= 3 && buf[0] == OP_PUBLISH
  }

  lemma BlockAcknowledged(env: Env, login: Text, password: Option<Text>, block: Text)
    ensures AckOf(ProcessBlock(env, login, password, block)).Some? <==> Asks(block)
  {
  }

  /** What a sealed packet comes to on this server: the server's own key for the login must open it. */
  function Unsealed(env: Env, c: UdpClient, nonce: Text, block: Text): Result<Text, ErrorKind> {
    var (cipher, tag) := env.gcm256.encrypt(c.password, nonce, block);
    AuthAndDecrypt(env, nonce + cipher + tag, LoginOrUnderscore(c.login), Aes256Gcm)
  }

  /** Whatever key the server holds for the login, if any: a sealed packet is acknowledged iff that
      key opens it to a block that asks for it. */
  lemma SealedAckIff(env: Env, c: UdpClient, nonce: Text, ack: bool, topic: Text, message: Text)
    requires c.encrypt && NulFree(c.login)
    ensures var plain := Unsealed(env, c, nonce, Block(ack, topic, message));
            AckOf(ProcessPacket(env, Packet(env.gcm256, c, nonce, ack, topic, message))).Some?
            <==> ValidUtf8(c.login) && plain.Ok? && Asks(plain.value)
  {
    var block := Block(ack, topic, message);
    var (cipher, tag) := env.gcm256.encrypt(c.password, nonce, block);
    PacketHead(env, AUTH_KEY_AES256_GCM, c.login + [NUL] + (nonce + cipher + tag));
    CutAtNulJoint(c.login, nonce + cipher + tag);
    var plain := Unsealed(env, c, nonce, block);
    if plain.Ok? {
      BlockAcknowledged(env, c.login, None, plain.value);
    }
  }

  /** A client whose key the server does not hold gets no acknowledgement, whatever it asks for. */
  lemma UnknownKeyIsSilent(env: Env, c: UdpClient, nonce: Text, ack: bool, topic: Text, message: Text)
    requires c.encrypt && NulFree(c.login)
    requires env.keys.None? || LoginOrUnderscore(c.login) !in env.keys.value
    ensures AckOf(ProcessPacket(env, Packet(env.gcm256, c, nonce, ack, topic, message))) == None
  {
    SealedAckIff(env, c, nonce, ack, topic, message);
  }

  // ---------------------------------------------------------------- the same verdict as on a stream

  /** An accepted block is, behind its two first bytes, a publish frame, and is forwarded as that
      frame would be under the same access list. */
  lemma BlockIsFrame(env: Env, login: Text, password: Option<Text>, block: Text)
    requires ProcessBlock(env, login, password, block).Ok?
    ensures |block| >= 3 && PublishBody(block[2..]).Ok? && env.aclOf(LoginOrUnderscore(login)).Some?
    ensures var (topic, data) := PublishBody(block[2..]).value;
            VerdictOf(env.aclOf(LoginOrUnderscore(login)).value, env.maxDepth, block[1], topic, data)
              == Forward(ProcessBlock(env, login, password, block).value.message)
  {
    var (buf, rest) := CutAtNul(block);
    var topic := buf[2..];
    assert block[2..] == topic + [NUL] + rest.value;
    assert NulFree(topic);
    CutAtNulJoint(topic, rest.value);
    assert buf[1] == block[1];
  }

  /** What is assumed of decryption: a text as long as the ciphertext. */
  ghost predicate KeepsLength(a: Aead) {
    forall key, nonce, cipher, tag ::
      var plain := a.decrypt(key, nonce, cipher, tag); plain.Some? ==> |plain.value| == |cipher|
  }

  /** The login of a packet, or its key id. */
  function LoginOf(frame: Text): Text
    requires |frame| >= 5
  {
    CutAtNul(frame[5..]).0
  }

  /** An accepted packet carries a block that is accepted with the same result, under its login. */
  lemma PacketHasBlock(env: Env, frame: Text) returns (password: Option<Text>, block: Text)
    requires ProcessPacket(env, frame).Ok?
    requires KeepsLength(env.gcm128) && KeepsLength(env.gcm256)
    ensures |frame| >= 5
    ensures ProcessBlock(env, LoginOf(frame), password, block) == ProcessPacket(env, frame)
    ensures |block| <= |frame|
  {
    var etp, body := FromByte(frame[4]).value, frame[5..];
    var (login, rest) := CutAtNul(body);
    if etp != No {
      password := None;
      block := AuthAndDecrypt(env, rest.value, LoginOrUnderscore(login), etp).value;
      DecryptedLength(env, rest.value, LoginOrUnderscore(login), etp);
    } else {
      var (secret, text) := CutAtNul(rest.value);
      password, block := Some(secret), text.value;
    }
  }

  /** Whoever has a password may publish with it, and anonymous publishers if they are let in. */
  predicate Authentic(env: Env, login: Text, password: Text) {
    if login == [] && password == [] then env.allowAnonymous else env.authenticate(login, password)
  }

  lemma BlockIsAuthentic(env: Env, login: Text, password: Text, block: Text)
    requires ProcessBlock(env, login, Some(password), block).Ok?
    ensures Authentic(env, login, password)
  {
  }

  /** The server's key for the login opens the sealed part of a packet. */
  predicate KeyOpens(env: Env, login: Text, sealed: Text, etp: EncryptionType)
    requires etp != No
  {
    && env.keys.Some? && LoginOrUnderscore(login) in env.keys.value
    && AuthAndDecrypt(env, sealed, LoginOrUnderscore(login), etp).Ok?
  }

  lemma BodyIsAuthorized(env: Env, etp: EncryptionType, body: Text)
    requires ProcessBody(env, etp, body).Ok?
    ensures CutAtNul(body).1.Some?
    ensures var (login, rest) := CutAtNul(body);
            if etp == No then Authentic(env, login, CutAtNul(rest.value).0) else KeyOpens(env, login, rest.value, etp)
  {
    var (login, rest) := CutAtNul(body);
    if etp == No {
      var (password, block) := CutAtNul(rest.value);
      BlockIsAuthentic(env, login, password, block.value);
    }
  }

  /** Who vouches for an accepted packet: for a plain one its password, or the leave given to
      anonymous publishers when login and password are empty; for a sealed one the key held under
      its login, which opened it. */
  lemma AcceptedIsAuthorized(env: Env, frame: Text)
    requires ProcessPacket(env, frame).Ok?
    ensures |frame| >= 5 && FromByte(frame[4]).Ok? && CutAtNul(frame[5..]).1.Some?
    ensures var login, rest := LoginOf(frame), CutAtNul(frame[5..]).1.value;
            if FromByte(frame[4]).value == No then Authentic(env, login, CutAtNul(rest).0)
            else KeyOpens(env, login, rest, FromByte(frame[4]).value)
  {
    BodyIsAuthorized(env, FromByte(frame[4]).value, frame[5..]);
  }

  lemma DecryptedLength(env: Env, block: Text, keyId: Text, tp: EncryptionType)
    requires tp != No && KeepsLength(env.gcm128) && KeepsLength(env.gcm256)
    requires AuthAndDecrypt(env, block, keyId, tp).Ok?
    ensures |AuthAndDecrypt(env, block, keyId, tp).value| <= |block|
  {
  }

  // ---------------------------------------------------------------- acknowledgements

  /** The acknowledgement packet. */
  function AckPacket(code: byte): Text {
    CONTROL_HEADER + VERSION_BYTES + [code]
  }

  /** What `publish_confirmed` makes of a packet from its peer; packets are cut to five bytes. */
  function ReadAck(packet: Text): Result<(), ErrorKind> {
    var buf := if |packet| <= 5 then packet else packet[..5];
    if |buf| != 5 then Err(InvalidData)
    else if buf[..2] != CONTROL_HEADER then Err(InvalidData)
    else if buf[2..4] != VERSION_BYTES then Err(InvalidData)
    else if buf[4] == RESPONSE_OK then Ok(())
    else Err(Io)
  }

  lemma AckRoundTrip(code: byte)
    ensures ReadAck(AckPacket(code)).Ok? <==> code == RESPONSE_OK
  {
    var p := AckPacket(code);
    assert p[..2] == CONTROL_HEADER && p[2..4] == VERSION_BYTES;
  }

  /** The client takes exactly one packet for success: header, version, OK, whatever follows. */
  lemma AckReadIff(packet: Text)
    ensures ReadAck(packet).Ok? <==> |packet| >= 5 && packet[..5] == [0xEE, 0xAA, 0x01, 0x00, 0x01]
  {
    if |packet| >= 5 {
      assert packet[..5] == packet[..5][..2] + packet[..5][2..4] + [packet[4]];
      if packet[..5] == [0xEE, 0xAA, 0x01, 0x00, 0x01] {
        assert packet[..5][..2] == CONTROL_HEADER && packet[..5][2..4] == VERSION_BYTES && packet[4] == packet[..5][4];
      }
    }
  }

  /** A confirmed publish reports success exactly when the server forwarded the message. */
  lemma ConfirmedIffForwarded(env: Env, c: UdpClient, nonce: Text, topic: Text, message: Text, frameSize: nat)
    requires Sound(c, topic) && topic != [] && KeyKnown(env, c) && Lawful(env.gcm256) && |nonce| == 12
    requires |Packet(env.gcm256, c, nonce, true, topic, message)| <= frameSize
    ensures var r := ProcessPacket(env, Delivered(frameSize, Packet(env.gcm256, c, nonce, true, topic, message)));
            && AckOf(r).Some?
            && (ReadAck(AckPacket(AckOf(r).value)).Ok? <==> r.Ok?)
  {
    AckIffAsked(env, c, nonce, true, topic, message, frameSize);
    var packet := Packet(env.gcm256, c, nonce, true, topic, message);
    AckRoundTrip(AckOf(ProcessPacket(env, Delivered(frameSize, packet))).value);
  }
}
