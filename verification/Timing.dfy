/** Deadlines and beacons, on an ideal clock of whole milliseconds. */
module Timing {
  import opened Wrappers

  type Time = nat

  function Max(a: nat, b: nat): nat {
    if a > b then a else b
  }

  // ---------------------------------------------------------------- deadlines

  /** `reduce_timeout`: what is left of `timeout` at `now`. */
  function ReduceTimeout(timeout: nat, opStart: Time, now: Time): nat
    requires opStart <= now
  {
    var spent := now - opStart;
    if spent > timeout then 0 else timeout - spent
  }

  /** The budget reaches the deadline exactly, and is nothing once the deadline has passed. */
  lemma BudgetIsExact(timeout: nat, opStart: Time, now: Time)
    requires opStart <= now
    ensures now + ReduceTimeout(timeout, opStart, now) == Max(now, opStart + timeout)
    ensures now <= opStart + timeout ==> now + ReduceTimeout(timeout, opStart, now) == opStart + timeout
    ensures now > opStart + timeout ==> ReduceTimeout(timeout, opStart, now) == 0
  {
  }

  /** One exact read or write under `time::timeout`: it ends, or is given up, within its budget. */
  datatype Call = Call(start: Time, end: Time, budget: nat)

  predicate Timed(io: Call) {
    io.start <= io.end <= io.start + io.budget
  }

  /** A network operation of one command: a plain read or write, or a frame read, which reads a
      length and then, unless that failed, a body against its own start. Either is given what is
      left of the command's timeout. A status write takes the stream's whole timeout afresh. */
  datatype Op =
    | Plain(io: Call)
    | Frame(head: Call, body: Option<Call>)
    | Status(io: Call)

  function StartOf(op: Op): Time {
    if op.Frame? then op.head.start else op.io.start
  }

  function EndOf(op: Op): Time {
    if !op.Frame? then op.io.end
    else if op.body.Some? then op.body.value.end
    else op.head.end
  }

  /** When the last read or write of an operation begins. */
  function LastStart(op: Op): Time {
    if op.Frame? && op.body.Some? then op.body.value.start else StartOf(op)
  }

  /** The operation was given `budget`, and kept to it. */
  predicate Granted(op: Op, budget: nat) {
    match op
    case Plain(io) => io.budget == budget && Timed(io)
    case Status(io) => io.budget == budget && Timed(io)
    case Frame(head, body) =>
      && head.budget == budget && Timed(head)
      && (body.Some? ==>
            && head.end <= body.value.start
            && body.value.budget == ReduceTimeout(budget, head.start, body.value.start)
            && Timed(body.value))
  }

  /** What an operation is given of the timeout. */
  function BudgetOf(op: Op, opStart: Time, timeout: nat): nat
    requires opStart <= StartOf(op)
  {
    if op.Status? then timeout else ReduceTimeout(timeout, opStart, StartOf(op))
  }

  /** The operations of one command, one after the other. The first budget is the whole timeout
      when it begins at once. */
  predicate Chain(ops: seq<Op>, opStart: Time, timeout: nat) {
    && (forall i :: 0 <= i < |ops| ==>
          opStart <= StartOf(ops[i]) && Granted(ops[i], BudgetOf(ops[i], opStart, timeout)))
    && (forall i :: 0 <= i < |ops| - 1 ==> EndOf(ops[i]) <= StartOf(ops[i + 1]))
  }

  /** No time passes outside the network operations. */
  predicate GapFree(ops: seq<Op>, opStart: Time) {
    && (ops != [] ==> StartOf(ops[0]) == opStart)
    && (forall i :: 0 <= i < |ops| - 1 ==> EndOf(ops[i]) == StartOf(ops[i + 1]))
    && (forall i :: 0 <= i < |ops| && ops[i].Frame? && ops[i].body.Some? ==> ops[i].head.end == ops[i].body.value.start)
  }

  /** Status writes among the first `k` operations. */
  function StatusWrites(ops: seq<Op>, k: nat): (n: nat)
    requires k <= |ops|
  {
    if k == 0 then 0 else StatusWrites(ops, k - 1) + if ops[k - 1].Status? then 1 else 0
  }

  /** A single operation ends by the command's deadline, or, begun past it, in no time. */
  lemma OpDeadline(op: Op, opStart: Time, timeout: nat)
    requires !op.Status? && opStart <= StartOf(op) && Granted(op, ReduceTimeout(timeout, opStart, StartOf(op)))
    ensures EndOf(op) <= Max(LastStart(op), opStart + timeout)
  {
  }

  /** Timeouts compose: every operation of a command but its status writes ends by the deadline of
      the command or, if it was delayed past that, at the moment its last read or write begins. */
  lemma ChainDeadline(ops: seq<Op>, opStart: Time, timeout: nat, i: nat)
    requires Chain(ops, opStart, timeout) && i < |ops| && !ops[i].Status?
    ensures EndOf(ops[i]) <= Max(LastStart(ops[i]), opStart + timeout)
    // and no call is given less than reaches to the deadline
    ensures forall j :: 0 <= j < |CallsOf(ops[i])| ==>
              var call := CallsOf(ops[i])[j];
              call.start + call.budget == Max(call.start, opStart + timeout)
  {
    OpDeadline(ops[i], opStart, timeout);
    BudgetIsExact(timeout, opStart, StartOf(ops[i]));
    if ops[i].Frame? && ops[i].body.Some? {
      NestedBudget(timeout, opStart, ops[i].head.start, ops[i].body.value.start);
    }
  }

  /** A read or write that needs `need` is given up. */
  predicate GivenUp(call: Call, need: nat) {
    need > call.budget
  }

  /** The reads and writes of an operation. */
  function CallsOf(op: Op): seq<Call> {
    match op
    case Plain(io) => [io]
    case Status(io) => [io]
    case Frame(head, body) => if body.Some? then [head, body.value] else [head]
  }

  /** No operation of a command is cut short: each of its reads and writes, the nested ones of a frame
      included, may run to the deadline of the command, and is given up exactly when it needs
      longer; begun past the deadline, when it needs any time at all. A status write is given up
      exactly when it needs longer than the whole timeout. */
  lemma GivenUpIff(ops: seq<Op>, opStart: Time, timeout: nat, i: nat, j: nat, need: nat)
    requires Chain(ops, opStart, timeout) && i < |ops| && j < |CallsOf(ops[i])|
    ensures var call := CallsOf(ops[i])[j];
            GivenUp(call, need) <==>
            if ops[i].Status? then need > timeout else call.start + need > Max(call.start, opStart + timeout)
  {
    BudgetIsExact(timeout, opStart, StartOf(ops[i]));
    if ops[i].Frame? && ops[i].body.Some? {
      NestedBudget(timeout, opStart, ops[i].head.start, ops[i].body.value.start);
    }
  }

  /** The nested start of a frame read loses nothing. */
  lemma NestedBudget(timeout: nat, opStart: Time, head: Time, body: Time)
    requires opStart <= head <= body
    ensures body + ReduceTimeout(ReduceTimeout(timeout, opStart, head), head, body) == Max(body, opStart + timeout)
  {
  }

  /** A command whose reads and writes, left alone, would all end by op_start plus timeout loses none
      of them. */
  lemma NothingCutOff(ops: seq<Op>, opStart: Time, timeout: nat, needs: seq<seq<nat>>)
    requires Chain(ops, opStart, timeout) && |needs| == |ops|
    requires forall i :: 0 <= i < |ops| ==> |needs[i]| == |CallsOf(ops[i])|
    requires forall i, j :: 0 <= i < |ops| && 0 <= j < |needs[i]| ==>
               CallsOf(ops[i])[j].start + needs[i][j] <= opStart + timeout
    ensures forall i, j :: 0 <= i < |ops| && 0 <= j < |needs[i]| ==> !GivenUp(CallsOf(ops[i])[j], needs[i][j])
  {
    forall i, j | 0 <= i < |ops| && 0 <= j < |needs[i]|
      ensures !GivenUp(CallsOf(ops[i])[j], needs[i][j])
    {
      GivenUpIff(ops, opStart, timeout, i, j, needs[i][j]);
      StartsAfter(ops, opStart, timeout, i, j);
    }
  }

  lemma StartsAfter(ops: seq<Op>, opStart: Time, timeout: nat, i: nat, j: nat)
    requires Chain(ops, opStart, timeout) && i < |ops| && j < |CallsOf(ops[i])|
    ensures CallsOf(ops[i])[j].start >= opStart
  {
  }

  /** Without local delay, an operation begun in time ends in time, and one begun past the deadline
      ends where it began. */
  lemma OpInTime(op: Op, opStart: Time, timeout: nat)
    requires !op.Status? && opStart <= StartOf(op) && Granted(op, ReduceTimeout(timeout, opStart, StartOf(op)))
    requires op.Frame? && op.body.Some? ==> op.head.end == op.body.value.start
    ensures StartOf(op) <= EndOf(op) <= Max(StartOf(op), opStart + timeout)
  {
  }

  /** Without local delay every operation before the first status write has ended by op_start plus
      timeout: every read of a command's first phase, and a whole command of the client. */
  lemma {:induction false} CommandDeadline(ops: seq<Op>, opStart: Time, timeout: nat, i: nat)
    requires Chain(ops, opStart, timeout) && GapFree(ops, opStart) && i < |ops|
    requires forall j :: 0 <= j <= i ==> !ops[j].Status?
    ensures EndOf(ops[i]) <= opStart + timeout
  {
    if i > 0 {
      CommandDeadline(ops, opStart, timeout, i - 1);
      assert EndOf(ops[i - 1]) == StartOf(ops[i - 1 + 1]);
    }
    OpInTime(ops[i], opStart, timeout);
  }

  /** `n` timeouts. */
  function Times(n: nat, timeout: nat): (t: nat)
    ensures n >= 1 ==> t >= timeout
  {
    if n == 0 then 0 else timeout + Times(n - 1, timeout)
  }

  lemma {:induction false} TimesIsProduct(n: nat, timeout: nat)
    ensures Times(n, timeout) == n * timeout
  {
    if n > 0 {
      TimesIsProduct(n - 1, timeout);
    }
  }

  /** Local delay inside a frame read, between its length and its body. */
  function InnerGap(op: Op): int {
    if op.Frame? && op.body.Some? then op.body.value.start - op.head.end else 0
  }

  /** Local delay before and inside the first `k` operations: a push to subscribers, say, between
      the last read of a publish and its status. */
  function Gaps(ops: seq<Op>, opStart: Time, k: nat): int
    requires k <= |ops|
  {
    if k == 0 then 0
    else
      var before := if k == 1 then opStart else EndOf(ops[k - 2]);
      Gaps(ops, opStart, k - 1) + (StartOf(ops[k - 1]) - before) + InnerGap(ops[k - 1])
  }

  /** What one operation adds, when `n` status writes and a delay precede it. */
  lemma OpWithin(op: Op, opStart: Time, timeout: nat, n: nat, delay: nat)
    requires opStart <= StartOf(op) <= opStart + Times(1 + n, timeout) + delay
    requires Granted(op, BudgetOf(op, opStart, timeout))
    ensures InnerGap(op) >= 0
    ensures EndOf(op) <= opStart + Times(1 + n + if op.Status? then 1 else 0, timeout) + delay + InnerGap(op)
  {
  }

  lemma {:induction false} EndsWithin(ops: seq<Op>, opStart: Time, timeout: nat, i: nat)
    requires Chain(ops, opStart, timeout) && i < |ops|
    ensures Gaps(ops, opStart, i + 1) >= 0
    ensures EndOf(ops[i]) <= opStart + Times(1 + StatusWrites(ops, i + 1), timeout) + Gaps(ops, opStart, i + 1)
  {
    var before := if i == 0 then opStart else EndOf(ops[i - 1]);
    if i > 0 {
      EndsWithin(ops, opStart, timeout, i - 1);
      assert EndOf(ops[i - 1]) <= StartOf(ops[i - 1 + 1]);
    }
    OpWithin(ops[i], opStart, timeout, StatusWrites(ops, i), Gaps(ops, opStart, i) + (StartOf(ops[i]) - before));
  }

  /** Each status write may add one timeout, local delay adds itself, and nothing else does. */
  lemma CommandBound(ops: seq<Op>, opStart: Time, timeout: nat, i: nat)
    requires Chain(ops, opStart, timeout) && i < |ops|
    ensures EndOf(ops[i]) <= opStart + (1 + StatusWrites(ops, i + 1)) * timeout + Gaps(ops, opStart, i + 1)
  {
    var n, gaps := 1 + StatusWrites(ops, i + 1), Gaps(ops, opStart, i + 1);
    EndsWithin(ops, opStart, timeout, i);
    TimesIsProduct(n, timeout);
    assert EndOf(ops[i]) <= opStart + n * timeout + gaps;
  }

  /** Without local delay the two descriptions of it agree. */
  lemma {:induction false} NoGaps(ops: seq<Op>, opStart: Time, k: nat)
    requires GapFree(ops, opStart) && k <= |ops|
    ensures Gaps(ops, opStart, k) == 0
  {
    if k > 0 {
      NoGaps(ops, opStart, k - 1);
      if k > 1 {
        assert EndOf(ops[k - 2]) == StartOf(ops[k - 2 + 1]);
      }
    }
  }

  /** A replicated publish that is wanted: command byte, topic frame, status, priority, timestamp,
      data frame, push, status. The command byte and both status writes take all they are given,
      the push takes `wait`. */
  function Slow(timeout: nat, wait: nat): seq<Op> {
    var at2, at3 := 2 * timeout, 2 * timeout + wait;
    [Plain(Call(0, timeout, timeout)),
     Frame(Call(timeout, timeout, 0), Some(Call(timeout, timeout, 0))),
     Status(Call(timeout, at2, timeout)),
     Plain(Call(at2, at2, 0)),
     Plain(Call(at2, at2, 0)),
     Frame(Call(at2, at2, 0), Some(Call(at2, at2, 0))),
     Status(Call(at3, at3 + timeout, timeout))]
  }

  lemma Unfolds(ops: seq<Op>, opStart: Time, k: nat, before: Time)
    requires 0 < k <= |ops|
    requires before == if k == 1 then opStart else EndOf(ops[k - 2])
    ensures StatusWrites(ops, k) == StatusWrites(ops, k - 1) + if ops[k - 1].Status? then 1 else 0
    ensures Gaps(ops, opStart, k) == Gaps(ops, opStart, k - 1) + (StartOf(ops[k - 1]) - before) + InnerGap(ops[k - 1])
  {
  }

  /** The bound is met, whatever the delay. */
  lemma BoundIsReached(timeout: nat, wait: nat)
    ensures Chain(Slow(timeout, wait), 0, timeout)
    ensures Gaps(Slow(timeout, wait), 0, 7) == wait
    ensures EndOf(Slow(timeout, wait)[6])
         == (1 + StatusWrites(Slow(timeout, wait), 7)) * timeout + Gaps(Slow(timeout, wait), 0, 7)
  {
    var ops := Slow(timeout, wait);
    Unfolds(ops, 0, 1, 0);
    Unfolds(ops, 0, 2, timeout);
    Unfolds(ops, 0, 3, timeout);
    Unfolds(ops, 0, 4, 2 * timeout);
    Unfolds(ops, 0, 5, 2 * timeout);
    Unfolds(ops, 0, 6, 2 * timeout);
    Unfolds(ops, 0, 7, 2 * timeout);
    assert StatusWrites(ops, 7) == 2;
  }

  /** The reads behind a status write meet the deadline of the command exactly when that write did. */
  lemma {:induction false} BehindStatus(ops: seq<Op>, opStart: Time, timeout: nat, w: nat, i: nat)
    requires Chain(ops, opStart, timeout) && GapFree(ops, opStart) && w < i < |ops|
    requires forall j :: w < j <= i ==> !ops[j].Status?
    ensures EndOf(ops[i]) <= opStart + timeout <==> EndOf(ops[w]) <= opStart + timeout
    ensures EndOf(ops[w]) <= EndOf(ops[i])
  {
    if i > w + 1 {
      BehindStatus(ops, opStart, timeout, w, i - 1);
    }
    assert EndOf(ops[i - 1]) == StartOf(ops[i - 1 + 1]);
    OpInTime(ops[i], opStart, timeout);
  }

  // ---------------------------------------------------------------- beacons

  /** Whole seconds of the client's timeout, as one byte. */
  function TimeoutSecs(timeoutMs: nat): (secs: nat)
    ensures secs <= 255 && secs * 1000 <= timeoutMs
    ensures timeoutMs < (secs + 1) * 1000 || secs == 255
  {
    if timeoutMs / 1000 > 255 then 255 else timeoutMs / 1000
  }

  /** The beacon interval both sides derive from it, in milliseconds. */
  function BeaconInterval(secs: nat): nat {
    secs * 1000 / 2
  }

  /** The writer of a data stream: the time, the time of its last write, and the next beacon. */
  datatype Writer = Writer(now: Time, last: Time, tick: Time)

  datatype Event =
    | Elapse(delta: nat)  // time passes, not beyond the next beacon
    | Message          // a message is dequeued and written
    | Beacon           // the beacon is dequeued

  predicate Possible(w: Writer, e: Event) {
    match e
    case Elapse(delta) => w.now + delta <= w.tick
    case Message => true
    case Beacon => w.now == w.tick
  }

  /** The rule of `handle_data_stream`: a beacon is written unless the last write is younger than
      the interval. */
  function Next(w: Writer, interval: nat, e: Event): Writer {
    match e
    case Elapse(delta) => w.(now := w.now + delta)
    case Message => w.(last := w.now)
    case Beacon =>
      if w.now >= w.last && w.now - w.last < interval then w.(tick := w.now + interval)
      else w.(last := w.now, tick := w.now + interval)
  }

  /** The writer after a run of events, if each was possible in its turn. */
  function RunEvents(t0: Time, interval: nat, events: seq<Event>): Option<Writer>
    decreases events
  {
    if events == [] then Some(Writer(t0, t0, t0 + interval))
    else
      var before := RunEvents(t0, interval, events[..|events| - 1]);
      var e := events[|events| - 1];
      if before.Some? && Possible(before.value, e) then Some(Next(before.value, interval, e)) else None
  }

  /** Whatever messages are written when, the stream is never silent for two intervals. */
  lemma {:induction false} SilenceIsShort(t0: Time, interval: nat, events: seq<Event>)
    requires interval > 0
    requires RunEvents(t0, interval, events).Some?
    ensures var w := RunEvents(t0, interval, events).value;
            w.last <= w.now <= w.tick && w.now - w.last < 2 * interval && w.tick - w.last < 2 * interval
    decreases events
  {
    if events != [] {
      SilenceIsShort(t0, interval, events[..|events| - 1]);
    }
  }

  /** A beacon is written exactly when the last write is an interval or more ago; a message always. */
  lemma WrittenIff(w: Writer, interval: nat, e: Event)
    requires w.last <= w.now && Possible(w, e)
    ensures e.Beacon? ==> Next(w, interval, e).last == if w.now - w.last >= interval then w.now else w.last
    ensures e.Beacon? ==> Next(w, interval, e).tick == w.now + interval
    ensures e.Message? ==> Next(w, interval, e).last == w.now
    ensures e.Elapse? ==> Next(w, interval, e).last == w.last
  {
  }

  /** Two intervals never exceed the timeout the client reads with, after truncation and clamp. */
  lemma BeaconsInTime(timeoutMs: nat, t0: Time, events: seq<Event>)
    requires timeoutMs >= 1000
    requires RunEvents(t0, BeaconInterval(TimeoutSecs(timeoutMs)), events).Some?
    ensures 0 < 2 * BeaconInterval(TimeoutSecs(timeoutMs)) <= timeoutMs
    ensures timeoutMs < 255_000 ==> timeoutMs - 1000 < 2 * BeaconInterval(TimeoutSecs(timeoutMs))
    ensures timeoutMs >= 255_000 ==> 2 * BeaconInterval(TimeoutSecs(timeoutMs)) == 255_000
    ensures var w := RunEvents(t0, BeaconInterval(TimeoutSecs(timeoutMs)), events).value;
            w.now - w.last < timeoutMs
  {
    SilenceIsShort(t0, BeaconInterval(TimeoutSecs(timeoutMs)), events);
  }
}
