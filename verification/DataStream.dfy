/** The data stream: frames built by `push_to_subscribers`, written by `handle_data_stream`
    (src/server.rs) and read back by the client's `run_data_stream` (src/client.rs). */
module DataStream {
  import opened Wrappers
  import opened Bytes
  import opened Wire
  import Timing

  datatype Message = Message(priority: byte, topic: Text, data: Text)

  /** `MessageFrame` without its timestamp, which serves analytics only. */
  datatype MessageFrame = MessageFrame(frame: Text, data: Option<Text>)

  const BEACON := MessageFrame([OP_NOP], None)

  function BodyLength(m: Message): nat {
    |m.topic| + 1 + |m.data|
  }

  function FrameOf(m: Message): (f: MessageFrame)
    ensures f.frame != [] && f.frame[0] == RESPONSE_OK
  {
    MessageFrame([RESPONSE_OK, m.priority] + Le32(BodyLength(m)) + m.topic + [NUL], Some(m.data))
  }

  /** The frame-building part of `push_to_subscribers`, in `u32` arithmetic. */
  method BuildFrame(m: Message) returns (f: MessageFrame)
    ensures f == FrameOf(m)
  {
    var frame: Text := [];
    frame := frame + [RESPONSE_OK];
    frame := frame + [m.priority];
    PublishLen(|m.topic|, |m.data|);
    frame := frame + Le32((AsU32(|m.topic|) + AsU32(|m.data|) + 1) % U32_LIMIT);
    frame := frame + m.topic;
    frame := frame + [NUL];
    f := MessageFrame(frame, Some(m.data));
  }

  // ---------------------------------------------------------------- the writer

  /** What waits in a data channel. */
  datatype Item = Beacon | Note(message: Message)

  function ItemFrame(item: Item): MessageFrame {
    match item
    case Beacon => BEACON
    case Note(m) => FrameOf(m)
  }

  /** The messages among the items. */
  function Notes(items: seq<Item>): seq<Message> {
    if items == [] then []
    else if items[0].Note? then [items[0].message] + Notes(items[1..])
    else Notes(items[1..])
  }

  /** Bytes of one item; `recent` tells that the last write is younger than the beacon interval. */
  function ItemBytes(item: Item, recent: bool): Text {
    match item
    case Beacon => if recent then [] else [OP_NOP]
    case Note(m) => FrameOf(m).frame + m.data
  }

  function Written(items: seq<Item>, recent: seq<bool>): Text
    requires |items| == |recent|
  {
    if items == [] then [] else ItemBytes(items[0], recent[0]) + Written(items[1..], recent[1..])
  }

  lemma {:induction false} WrittenSnoc(items: seq<Item>, recent: seq<bool>, item: Item, r: bool)
    requires |items| == |recent|
    ensures Written(items + [item], recent + [r]) == Written(items, recent) + ItemBytes(item, r)
  {
    var last := ItemBytes(item, r);
    if items == [] {
      assert items + [item] == [item] && recent + [r] == [r];
      assert Written([item][1..], [r][1..]) == [];
      assert [] + last == last + [];
    } else {
      WrittenSnoc(items[1..], recent[1..], item, r);
      assert (items + [item])[1..] == items[1..] + [item] && (recent + [r])[1..] == recent[1..] + [r];
      var first, rest := ItemBytes(items[0], recent[0]), Written(items[1..], recent[1..]);
      assert first + (rest + last) == first + rest + last;
    }
  }

  lemma WrittenStep(items: seq<Item>, recent: seq<bool>, i: nat)
    requires |items| == |recent| && i < |items|
    ensures Written(items[..i + 1], recent[..i + 1])
         == Written(items[..i], recent[..i]) + ItemBytes(items[i], recent[i])
  {
    assert items[..i + 1] == items[..i] + [items[i]];
    assert recent[..i + 1] == recent[..i] + [recent[i]];
    WrittenSnoc(items[..i], recent[..i], items[i], recent[i]);
  }

  /** When the last write before item `i` was, if item k is dequeued at `at[k]`: a message is always
      written, a beacon when the last write is an interval or more ago. */
  function LastWrite(items: seq<Item>, at: seq<nat>, start: nat, interval: nat, i: nat): (last: nat)
    requires |items| == |at| && i <= |items|
  {
    if i == 0 then start
    else
      var last := LastWrite(items, at, start, interval, i - 1);
      if items[i - 1].Note? || at[i - 1] >= last + interval then at[i - 1] else last
  }

  /** Which beacons come too soon after the last write. */
  function Recent(items: seq<Item>, at: seq<nat>, start: nat, interval: nat): (recent: seq<bool>)
    requires |items| == |at|
    ensures |recent| == |items|
    ensures forall i :: 0 <= i < |items| ==>
              (recent[i] <==> at[i] < LastWrite(items, at, start, interval, i) + interval)
  {
    seq(|items|, i requires 0 <= i < |items| => at[i] < LastWrite(items, at, start, interval, i) + interval)
  }

  /** What one item adds to the stream, by value. */
  lemma ItemBytesIs(item: Item, recent: bool)
    ensures item.Beacon? ==> ItemBytes(item, recent) == if recent then [] else [0x00]
    ensures item.Note? ==>
              var m := item.message;
              ItemBytes(item, recent)
              == [0x01, m.priority] + Le32(|m.topic| + 1 + |m.data|) + m.topic + [0x00] + m.data
  {
  }

  /** One turn of the loop: what is written, if anything is. */
  method WriteItem(item: Item, recent: bool) returns (bytes: Text, written: bool)
    ensures bytes == ItemBytes(item, recent)
    ensures written <==> item.Note? || !recent
  {
    var message := ItemFrame(item);
    if message.frame[0] == OP_NOP {
      if recent {
        return [], false;
      }
      return [OP_NOP], true;
    }
    bytes := message.frame;
    if message.data.Some? {
      bytes := bytes + message.data.value;
    }
    written := true;
  }

  /** The loop of `handle_data_stream` over the frames it dequeues, on a clock by which a frame is
      written when it is dequeued. */
  method WriteLoop(items: seq<Item>, at: seq<nat>, start: nat, interval: nat) returns (out: Text)
    requires |items| == |at|
    ensures out == Written(items, Recent(items, at, start, interval))
  {
    out := [];
    var last := start;
    ghost var recent := Recent(items, at, start, interval);
    for i := 0 to |items|
      invariant out == Written(items[..i], recent[..i])
      invariant last == LastWrite(items, at, start, interval, i)
    {
      WrittenStep(items, recent, i);
      var bytes, written := WriteItem(items[i], at[i] < last + interval);
      out := out + bytes;
      if written {
        last := at[i];
      }
    }
    assert items[..|items|] == items && recent[..|recent|] == recent;
  }

  /** A beacon adds its byte to the stream exactly when the last write is an interval or more ago. */
  lemma BeaconIff(items: seq<Item>, at: seq<nat>, start: nat, interval: nat, i: nat)
    requires |items| == |at| && i < |items| && items[i].Beacon?
    ensures var recent := Recent(items, at, start, interval);
            Written(items[..i + 1], recent[..i + 1])
            == Written(items[..i], recent[..i])
               + if at[i] >= LastWrite(items, at, start, interval, i) + interval then [0x00] else []
  {
    var recent := Recent(items, at, start, interval);
    WrittenStep(items, recent, i);
    ItemBytesIs(items[i], recent[i]);
  }

  /** The writer's clock is that of the beacon rule. */
  lemma SameRule(items: seq<Item>, at: seq<nat>, start: nat, interval: nat, i: nat, w: Timing.Writer)
    requires |items| == |at| && i < |items|
    requires w.now == at[i] && w.last == LastWrite(items, at, start, interval, i) && w.last <= w.now
    ensures var e := if items[i].Beacon? then Timing.Beacon else Timing.Message;
            Timing.Next(w, interval, e).last == LastWrite(items, at, start, interval, i + 1)
  {
  }

  // ---------------------------------------------------------------- the reader

  /** What `Message::from_buf` makes of a frame body. */
  function MessageOf(buf: Text, priority: byte): Result<Message, ErrorKind> {
    var (topic, data) := CutAtNul(buf);
    if data.None? || !ValidUtf8(topic) then Err(InvalidData) else Ok(Message(priority, topic, data.value))
  }

  /** A frame body is a message exactly when it is a UTF-8 topic without NULs, a NUL, and data. */
  lemma MessageIff(buf: Text, priority: byte, m: Message)
    ensures MessageOf(buf, priority) == Ok(m) <==>
            m.priority == priority && buf == m.topic + [NUL] + m.data && NulFree(m.topic) && ValidUtf8(m.topic)
  {
    if buf == m.topic + [NUL] + m.data && NulFree(m.topic) {
      CutAtNulJoint(m.topic, m.data);
    }
  }

  /** `Message::from_buf`: the buffer keeps the topic and its NUL, the data are split off. */
  method FromBuf(buf: Text, priority: byte) returns (r: Result<Message, ErrorKind>, rest: Text)
    ensures r == MessageOf(buf, priority)
    ensures rest == if NulFree(buf) then buf else CutAtNul(buf).0 + [NUL]
  {
    rest := buf;
    var npos := IndexOf(rest, NUL);
    if npos == |rest| {
      return Err(InvalidData), rest;
    }
    var data := rest[npos + 1..];
    rest := rest[..npos + 1];
    var topic := rest[..|rest| - 1];
    if !ValidUtf8(topic) {
      return Err(InvalidData), rest;
    }
    r := Ok(Message(priority, topic, data));
  }

  /** How reading stops: the reader wants more bytes, or met a byte no frame starts with. */
  datatype Ending = Waiting | Invalid

  /** The messages the reader hands on for the bytes `s`, and how it stops. */
  function Received(s: Text): (r: (seq<Message>, Ending))
    decreases |s|
  {
    if s == [] then ([], Waiting)
    else if s[0] == OP_NOP then Received(s[1..])
    else if s[0] != RESPONSE_OK then ([], Invalid)
    else if |s| < 2 then ([], Waiting)
    else
      var frame := FrameAt(None, s[2..]);
      if frame.Err? then ([], Waiting)
      else
        var (tail, ending) := Received(s[6 + |frame.value|..]);
        var m := MessageOf(frame.value, s[1]);
        (if m.Ok? then [m.value] + tail else tail, ending)
  }

  /** What follows a `RESPONSE_OK` byte: the priority and a frame; `None` when they are not all there. */
  method ReadNote(stream: Source) returns (r: Option<Result<Message, ErrorKind>>)
    modifies stream
    ensures var s := old(stream.pending);
            if s == [] || FrameAt(None, s[1..]).Err? then r == None
            else
              var frame := FrameAt(None, s[1..]).value;
              r == Some(MessageOf(frame, s[0])) && stream.pending == s[5 + |frame|..]
  {
    ghost var s := stream.pending;
    var prio := stream.ReadExact(1);
    if prio.Err? {
      return None;
    }
    var frame := stream.ReadFrame(None);
    if frame.Err? {
      return None;
    }
    assert stream.pending == s[5 + |frame.value|..];
    var m, _ := FromBuf(frame.value, prio.value[0]);
    r := Some(m);
  }

  function Prepend(head: seq<Message>, r: (seq<Message>, Ending)): (seq<Message>, Ending) {
    (head + r.0, r.1)
  }

  lemma ReceivedFrame(s: Text)
    requires s != [] && s[0] == RESPONSE_OK
    ensures var t := s[1..];
            if t == [] || FrameAt(None, t[1..]).Err? then Received(s) == ([], Waiting)
            else
              var frame := FrameAt(None, t[1..]).value;
              var m := MessageOf(frame, t[0]);
              Received(s) == Prepend(if m.Ok? then [m.value] else [], Received(t[5 + |frame|..]))
  {
    var t := s[1..];
    if t != [] {
      assert t[1..] == s[2..];
      var frame := FrameAt(None, t[1..]);
      if frame.Ok? {
        assert t[5 + |frame.value|..] == s[6 + |frame.value|..];
        var tail := Received(s[6 + |frame.value|..]);
        assert [] + tail.0 == tail.0;
      }
    }
  }

  lemma PrependPrepend(a: seq<Message>, b: seq<Message>, r: (seq<Message>, Ending))
    ensures Prepend(a, Prepend(b, r)) == Prepend(a + b, r)
    ensures Prepend([], r) == r
    ensures Prepend(a, ([], r.1)) == (a, r.1)
  {
    assert a + (b + r.0) == a + b + r.0;
    assert [] + r.0 == r.0;
    assert a + [] == a;
  }

  lemma ReceivedByte(b: byte, t: Text)
    ensures b == OP_NOP ==> Received([b] + t) == Prepend([], Received(t))
    ensures b != OP_NOP && b != RESPONSE_OK ==> Received([b] + t) == ([], Invalid)
  {
    assert ([b] + t)[1..] == t;
    PrependPrepend([], [], Received(t));
  }

  /** One turn of the loop: what it hands on, or how the loop ends. */
  method ReadItem(stream: Source) returns (got: seq<Message>, ending: Option<Ending>)
    modifies stream
    ensures var s := old(stream.pending);
            if ending.Some? then Received(s) == ([], ending.value)
            else |stream.pending| < |s| && Received(s) == Prepend(got, Received(stream.pending))
  {
    ghost var s := stream.pending;
    var buf := stream.ReadExact(1);
    if buf.Err? {
      assert s == [];
      return [], Some(Waiting);
    }
    ghost var t := stream.pending;
    assert s == [buf.value[0]] + t;
    ReceivedByte(buf.value[0], t);
    if buf.value[0] == OP_NOP {
      return [], None;
    } else if buf.value[0] == RESPONSE_OK {
      ReceivedFrame(s);
      assert s[1..] == t;
      var m := ReadNote(stream);
      if m.None? {
        return [], Some(Waiting);
      }
      return if m.value.Ok? then [m.value.value] else [], None;
    } else {
      return [], Some(Invalid);
    }
  }

  /** The loop of `run_data_stream`: it ends with the stream, or at an invalid byte. */
  method ReadLoop(stream: Source) returns (received: seq<Message>, ending: Ending)
    modifies stream
    ensures (received, ending) == Received(old(stream.pending))
  {
    ghost var all := Received(stream.pending);
    received := [];
    PrependPrepend([], [], all);
    while true
      invariant all == Prepend(received, Received(stream.pending))
      decreases |stream.pending|
    {
      ghost var before := stream.pending;
      var got, stop := ReadItem(stream);
      if stop.Some? {
        PrependPrepend(received, [], Received(before));
        return received, stop.value;
      }
      PrependPrepend(received, got, Received(stream.pending));
      received := received + got;
    }
  }

  // ---------------------------------------------------------------- round trip

  /** Holds of every message the publish paths push (see `Vetting.QueuedIsVetted`). */
  predicate Sendable(m: Message) {
    ValidUtf8(m.topic) && NulFree(m.topic) && BodyLength(m) < U32_LIMIT
  }

  predicate AllSendable(items: seq<Item>) {
    forall i :: 0 <= i < |items| && items[i].Note? ==> Sendable(items[i].message)
  }

  /** How many items are complete within the first `n` bytes. */
  function Complete(items: seq<Item>, recent: seq<bool>, n: nat): (k: nat)
    requires |items| == |recent|
    ensures k <= |items|
  {
    if items == [] then 0
    else
      var size := |ItemBytes(items[0], recent[0])|;
      if size > n then 0 else 1 + Complete(items[1..], recent[1..], n - size)
  }

  function Body(m: Message): Text {
    m.topic + [NUL] + m.data
  }

  lemma NoteBytes(m: Message)
    ensures ItemBytes(Note(m), false) == [RESPONSE_OK, m.priority] + (Le32(|Body(m)|) + Body(m))
  {
  }

  lemma FrameAtJoint(body: Text, tail: Text)
    requires |body| < U32_LIMIT
    ensures FrameAt(None, Le32(|body|) + body + tail) == Ok(body)
  {
    var s := Le32(|body|) + body + tail;
    assert s[..4] == Le32(|body|);
    assert s[4..4 + |body|] == body;
  }

  lemma ReceivedNote(m: Message, tail: Text)
    requires Sendable(m)
    ensures Received(ItemBytes(Note(m), false) + tail)
         == ([m] + Received(tail).0, Received(tail).1)
  {
    var framed := Le32(|Body(m)|) + Body(m) + tail;
    var s := [RESPONSE_OK, m.priority] + framed;
    NoteBytes(m);
    assert ItemBytes(Note(m), false) + tail == s;
    assert s[2..] == framed;
    FrameAtJoint(Body(m), tail);
    assert s[6 + |Body(m)|..] == tail;
    CutAtNulJoint(m.topic, m.data);
    assert MessageOf(Body(m), m.priority) == Ok(m);
  }

  lemma CutFrame(body: Text, k: nat)
    requires |body| < U32_LIMIT && k < 4 + |body|
    ensures FrameAt(None, (Le32(|body|) + body)[..k]) == Err(Eof)
  {
    var s := Le32(|body|) + body;
    if k >= 4 {
      assert s[..k][..4] == s[..4] == Le32(|body|);
    }
  }

  lemma ReceivedCutNote(m: Message, n: nat)
    requires Sendable(m)
    requires n < |ItemBytes(Note(m), false)|
    ensures Received(ItemBytes(Note(m), false)[..n]) == ([], Waiting)
  {
    NoteBytes(m);
    var framed := Le32(|Body(m)|) + Body(m);
    var s := [RESPONSE_OK, m.priority] + framed;
    if n >= 2 {
      CutFrame(Body(m), n - 2);
      assert s[..n][2..] == framed[..n - 2];
    }
  }

  /** Any prefix of the bytes written for a queue of items, beacons elided or not, reads back as
      exactly the messages of the items that are complete in it, in order, and the reader is
      left waiting for more. */
  lemma {:induction false} PrefixDecodes(items: seq<Item>, recent: seq<bool>, n: nat)
    requires |items| == |recent| && AllSendable(items)
    requires n <= |Written(items, recent)|
    ensures Received(Written(items, recent)[..n]) == (Notes(items[..Complete(items, recent, n)]), Waiting)
  {
    if items != [] {
      var first := ItemBytes(items[0], recent[0]);
      if |first| <= n {
        PrefixDecodes(items[1..], recent[1..], n - |first|);
        WholeItemFirst(items, recent, n);
      } else {
        CutItemFirst(items, recent, n);
      }
    }
  }

  lemma {:induction false} WholeItemFirst(items: seq<Item>, recent: seq<bool>, n: nat)
    requires |items| == |recent| && items != []
    requires items[0].Note? ==> Sendable(items[0].message)
    requires |ItemBytes(items[0], recent[0])| <= n <= |Written(items, recent)|
    requires var m := n - |ItemBytes(items[0], recent[0])|;
             Received(Written(items[1..], recent[1..])[..m])
               == (Notes(items[1..][..Complete(items[1..], recent[1..], m)]), Waiting)
    ensures Received(Written(items, recent)[..n]) == (Notes(items[..Complete(items, recent, n)]), Waiting)
  {
    var first, rest := ItemBytes(items[0], recent[0]), Written(items[1..], recent[1..]);
    var m := n - |first|;
    assert Received(Written(items, recent)[..n]) == Received(first + rest[..m]) by {
      TakePast(first, rest, n);
    }
    FirstItem(items[0], recent[0], rest[..m]);
    var k := Complete(items[1..], recent[1..], m);
    assert Complete(items, recent, n) == k + 1;
    NotesCons(items, k + 1);
  }

  lemma CutItemFirst(items: seq<Item>, recent: seq<bool>, n: nat)
    requires |items| == |recent| && items != []
    requires items[0].Note? ==> Sendable(items[0].message)
    requires n < |ItemBytes(items[0], recent[0])|
    ensures n <= |Written(items, recent)|
    ensures Received(Written(items, recent)[..n]) == (Notes(items[..Complete(items, recent, n)]), Waiting)
  {
    TakeWithin(ItemBytes(items[0], recent[0]), Written(items[1..], recent[1..]), n);
    CutItem(items[0], recent[0], n);
  }

  lemma TakePast(a: Text, b: Text, n: nat)
    requires |a| <= n <= |a| + |b|
    ensures (a + b)[..n] == a + b[..n - |a|]
  {
  }

  lemma TakeWithin(a: Text, b: Text, n: nat)
    requires n <= |a|
    ensures (a + b)[..n] == a[..n]
  {
  }

  lemma NotesCons(items: seq<Item>, k: nat)
    requires 1 <= k <= |items|
    ensures Notes(items[..k]) == Notes([items[0]]) + Notes(items[1..][..k - 1])
  {
    assert items[..k][1..] == items[1..][..k - 1];
    assert Notes([items[0]][1..]) == [];
  }

  lemma CutItem(item: Item, recent: bool, n: nat)
    requires item.Note? ==> Sendable(item.message)
    requires n < |ItemBytes(item, recent)|
    ensures Received(ItemBytes(item, recent)[..n]) == ([], Waiting)
  {
    if item.Note? {
      ReceivedCutNote(item.message, n);
    }
  }

  lemma FirstItem(item: Item, recent: bool, tail: Text)
    requires item.Note? ==> Sendable(item.message)
    ensures Received(ItemBytes(item, recent) + tail) == (Notes([item]) + Received(tail).0, Received(tail).1)
  {
    assert Notes([item][1..]) == [];
    if item.Note? {
      ReceivedNote(item.message, tail);
      assert Notes([item]) == [item.message];
    } else {
      assert Notes([item]) == [];
      assert [] + Received(tail).0 == Received(tail).0;
      if recent {
        assert ItemBytes(item, recent) + tail == tail;
      } else {
        assert ([OP_NOP] + tail)[1..] == tail;
      }
    }
  }

  /** The whole stream reads back as the queued messages. */
  lemma StreamDecodes(items: seq<Item>, recent: seq<bool>)
    requires |items| == |recent| && AllSendable(items)
    ensures Received(Written(items, recent)) == (Notes(items), Waiting)
  {
    var s := Written(items, recent);
    PrefixDecodes(items, recent, |s|);
    assert s[..|s|] == s;
    CompleteAll(items, recent);
    assert items[..|items|] == items;
  }

  lemma {:induction false} CompleteAll(items: seq<Item>, recent: seq<bool>)
    requires |items| == |recent|
    ensures Complete(items, recent, |Written(items, recent)|) == |items|
  {
    if items != [] {
      CompleteAll(items[1..], recent[1..]);
    }
  }
}
