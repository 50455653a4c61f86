/** The bounded asynchronous logger: producers, one consumer, failure draining, and exact accounting. */
module SecureLog {
  import opened Common

  /** An entry is the JSON line it is written as. */
  type Line = string

  datatype Consumer = Idle | Writing(line: Line) | Failing(line: Line) | Stopped

  /** The logger with its history: how often it was called, what it accepted and what it wrote. */
  datatype State = State(
    capacity: nat, queue: seq<Line>, consumer: Consumer, closed: bool, failed: bool, dropped: nat,
    calls: nat, accepted: seq<Line>, written: seq<Line>, sink: string)

  datatype Action =
    | Call(line: Line)                    // a producer logs
    | Take                                // the consumer receives, or sees the end of a closed queue
    | Deliver(ok: bool, bytes: nat)       // the sink takes the line, or only some bytes of it
    | Drain                               // the consumer gives up after a failure
    | CloseQueue

  predicate Accepts(s: State) {
    !s.closed && !s.failed && |s.queue| < s.capacity
  }

  function Step(s: State, a: Action): State {
    match a
    case Call(line) =>
      if Accepts(s) then s.(queue := s.queue + [line], accepted := s.accepted + [line], calls := s.calls + 1)
      else s.(dropped := s.dropped + 1, calls := s.calls + 1)
    case Take =>
      if !s.consumer.Idle? then s
      else if s.queue != [] then s.(queue := s.queue[1..], consumer := Writing(s.queue[0]))
      else if s.closed then s.(consumer := Stopped)
      else s
    case Deliver(ok, bytes) =>
      if !s.consumer.Writing? then s
      else if ok then s.(consumer := Idle, written := s.written + [s.consumer.line], sink := s.sink + s.consumer.line)
      else
        var line := s.consumer.line;
        s.(consumer := Failing(line), sink := s.sink + (if bytes <= |line| then line[..bytes] else line))
    case Drain =>
      if !s.consumer.Failing? then s
      else s.(failed := true, dropped := s.dropped + 1 + |s.queue|, queue := [], consumer := Stopped)
    case CloseQueue => s.(closed := true)
  }

  function Start(capacity: nat): State {
    State(capacity, [], Idle, false, false, 0, 0, [], [], "")
  }

  /** Any interleaving of producers, consumer, sink and closing. */
  function Run(s: State, actions: seq<Action>): State
    decreases |actions|
  {
    if actions == [] then s else Step(Run(s, actions[..|actions| - 1]), actions[|actions| - 1])
  }

  function InFlight(s: State): seq<Line> {
    if s.consumer.Writing? || s.consumer.Failing? then [s.consumer.line] else []
  }

  function Lines(lines: seq<Line>): string {
    if lines == [] then "" else Lines(lines[..|lines| - 1]) + lines[|lines| - 1]
  }

  ghost predicate Inv(s: State) {
    && s.calls == |s.written| + s.dropped + |s.queue| + |InFlight(s)|
    && |s.queue| <= s.capacity
    && s.written <= s.accepted
    && (!s.failed ==> s.accepted == s.written + InFlight(s) + s.queue)
    && (s.failed ==> s.consumer.Stopped?)
    && (s.consumer.Stopped? ==> s.queue == [] && (s.closed || s.failed))
    && (!s.failed && !s.consumer.Failing? ==> s.sink == Lines(s.written))
    && Lines(s.written) <= s.sink
  }

  lemma LinesOfOneMore(lines: seq<Line>, line: Line)
    ensures Lines(lines + [line]) == Lines(lines) + line
  {
    assert (lines + [line])[..|lines|] == lines;
  }

  lemma CallKeepsInv(s: State, line: Line)
    requires Inv(s)
    ensures Inv(Step(s, Call(line)))
  {
    assert s.written + InFlight(s) + s.queue + [line] == s.written + InFlight(s) + (s.queue + [line]);
  }

  lemma TakeKeepsInv(s: State)
    requires Inv(s)
    ensures Inv(Step(s, Take))
  {
    if s.consumer.Idle? && s.queue != [] {
      assert s.queue == [s.queue[0]] + s.queue[1..];
    }
  }

  lemma DeliverKeepsInv(s: State, ok: bool, bytes: nat)
    requires Inv(s)
    ensures Inv(Step(s, Deliver(ok, bytes)))
  {
    if s.consumer.Writing? && ok {
      var line := s.consumer.line;
      LinesOfOneMore(s.written, line);
      assert s.accepted == s.written + [line] + s.queue;
    }
  }

  lemma StepKeepsInv(s: State, a: Action)
    requires Inv(s)
    ensures Inv(Step(s, a))
  {
    match a
    case Call(line) => CallKeepsInv(s, line);
    case Take => TakeKeepsInv(s);
    case Deliver(ok, bytes) => DeliverKeepsInv(s, ok, bytes);
    case Drain =>
    case CloseQueue =>
  }

  lemma {:induction false} RunKeepsInv(s: State, actions: seq<Action>)
    requires Inv(s)
    ensures Inv(Run(s, actions))
    decreases |actions|
  {
    if actions != [] {
      RunKeepsInv(s, actions[..|actions| - 1]);
      StepKeepsInv(Run(s, actions[..|actions| - 1]), actions[|actions| - 1]);
    }
  }

  /** In every interleaving: each call is written, dropped, queued or in flight, what is written is a prefix
      of what was accepted, in order, and the sink starts with exactly the written lines. */
  lemma ExactAccounting(capacity: nat, actions: seq<Action>)
    requires capacity > 0
    ensures var s := Run(Start(capacity), actions);
            && s.calls == |s.written| + s.dropped + |s.queue| + |InFlight(s)|
            && s.written <= s.accepted && |s.queue| <= capacity
            && Lines(s.written) <= s.sink
  {
    RunKeepsInv(Start(capacity), actions);
    CapacityStays(Start(capacity), actions);
  }

  lemma {:induction false} CapacityStays(s: State, actions: seq<Action>)
    ensures Run(s, actions).capacity == s.capacity
    decreases |actions|
  {
    if actions != [] {
      CapacityStays(s, actions[..|actions| - 1]);
    }
  }

  /** What a stopped consumer has left behind. */
  ghost predicate Settled(s: State, t: State) {
    && t.consumer.Stopped? && t.queue == [] && t.written == s.written && t.accepted == s.accepted && t.sink == s.sink
    && t.failed == s.failed && (t.closed || t.failed) && t.calls - t.dropped == |t.written|
  }

  /** Once the consumer has stopped, which is what Close waits for, nothing is queued or in flight and nothing is
      accepted or written any more; every later call is counted as dropped. */
  lemma {:induction false} StoppedIsFinal(capacity: nat, before: seq<Action>, after: seq<Action>)
    requires Run(Start(capacity), before).consumer.Stopped?
    ensures var s := Run(Start(capacity), before);
            Settled(s, Run(s, after)) && (!s.failed ==> s.written == s.accepted && s.sink == Lines(s.accepted))
    decreases |after|
  {
    var s := Run(Start(capacity), before);
    RunKeepsInv(Start(capacity), before);
    if after != [] {
      StoppedIsFinal(capacity, before, after[..|after| - 1]);
      StepKeepsSettled(s, Run(s, after[..|after| - 1]), after[|after| - 1]);
    }
  }

  lemma StepKeepsSettled(s: State, t: State, a: Action)
    requires Settled(s, t)
    ensures Settled(s, Step(t, a))
  {
  }

  lemma OneMore(s: State, actions: seq<Action>, a: Action)
    ensures Run(s, actions + [a]) == Step(Run(s, actions), a)
  {
    assert (actions + [a])[..|actions|] == actions;
  }

  // ----- The logger itself ------------------------------------------------------------------------

  class AsyncLogger {
    const capacity: nat
    var queue: seq<Line>
    var consumer: Consumer
    var closed: bool
    var failed: bool
    var dropped: nat
    var sink: string
    ghost var calls: nat
    ghost var accepted: seq<Line>
    ghost var written: seq<Line>

    ghost function Now(): State
      reads this
    {
      State(capacity, queue, consumer, closed, failed, dropped, calls, accepted, written, sink)
    }

    constructor (capacity: nat)
      requires capacity > 0
      ensures Now() == Start(capacity)
    {
      this.capacity, queue, consumer, closed, failed, dropped := capacity, [], Idle, false, false, 0;
      sink, calls, accepted, written := "", 0, [], [];
    }

    /** An accepted entry was accepted before closing began. */
    method Write(line: Line) returns (ok: bool)
      modifies this
      ensures Now() == Step(old(Now()), Call(line)) && ok == old(Accepts(Now()))
    {
      calls := calls + 1;
      if closed || failed {
        dropped := dropped + 1;
        return false;
      }
      if |queue| < capacity {
        queue, accepted := queue + [line], accepted + [line];
        return true;
      }
      dropped := dropped + 1;
      ok := false;
    }

    method Receive()
      modifies this
      ensures Now() == Step(old(Now()), Take)
    {
      if consumer.Idle? {
        if queue != [] {
          queue, consumer := queue[1..], Writing(queue[0]);
        } else if closed {
          consumer := Stopped;
        }
      }
    }

    /** What the sink does with some bytes: how many it reports as written, and whether it reports an error. */
    method SinkWrite(data: string) returns (count: int, error: bool)
    {
      count, error := *, *;
    }

    /** Writes the whole line in as many pieces as the sink takes. */
    method WriteData(line: Line) returns (ok: bool, bytes: nat)
      requires consumer == Writing(line)
      modifies `sink
      ensures bytes <= |line| && sink == old(sink) + line[..bytes]
      ensures ok ==> bytes == |line|
    {
      bytes := 0;
      while bytes < |line|
        invariant bytes <= |line| && sink == old(sink) + line[..bytes]
      {
        var data := line[bytes..];
        var count, error := SinkWrite(data);
        if error || count <= 0 || count > |data| {
          var kept: int := *;
          if 0 <= kept <= |data| {
            sink := sink + data[..kept];
            assert line[..bytes + kept] == line[..bytes] + data[..kept];
            bytes := bytes + kept;
          }
          return false, bytes;
        }
        sink := sink + data[..count];
        assert line[..bytes + count] == line[..bytes] + data[..count];
        bytes := bytes + count;
      }
      ok := true;
    }

    /** The consumer writes the entry it received; a failure is noted before the queue is drained. */
    method WriteEntry() returns (ok: bool, bytes: nat)
      requires consumer.Writing?
      modifies this
      ensures Now() == Step(old(Now()), Deliver(ok, bytes))
    {
      var line := consumer.line;
      ok, bytes := WriteData(line);
      assert line[..|line|] == line;
      if ok {
        consumer, written := Idle, written + [line];
      } else {
        consumer := Failing(line);
      }
    }

    /** Under the lock: counts the entry that failed and every entry still queued. */
    method GiveUp()
      requires consumer.Failing?
      modifies this
      ensures Now() == Step(old(Now()), Drain)
    {
      failed := true;
      dropped := dropped + 1;
      var queued := |queue|;
      for i := 0 to queued
        invariant |queue| == queued - i && dropped == old(dropped) + 1 + i
        invariant Now() == old(Now()).(failed := true, dropped := dropped, queue := queue)
      {
        queue := queue[1..];
        dropped := dropped + 1;
      }
      consumer := Stopped;
    }

    /** Stops acceptance, once and for all. */
    method Seal()
      modifies this
      ensures Now() == Step(old(Now()), CloseQueue)
    {
      closed := true;
    }

    /** Producers log and somebody closes, as often as they like, while the consumer is busy elsewhere. */
    method Meanwhile(ghost before: seq<Action>, ghost start: State) returns (ghost actions: seq<Action>)
      requires Now() == Run(start, before)
      modifies this
      ensures Now() == Run(start, actions) && before <= actions && consumer == old(consumer)
    {
      actions := before;
      var calls: seq<Option<Line>> := *;
      for i := 0 to |calls|
        invariant Now() == Run(start, actions) && before <= actions && consumer == old(consumer)
      {
        if calls[i].Some? {
          var _ := Write(calls[i].value);
          OneMore(start, actions, Call(calls[i].value));
          actions := actions + [Call(calls[i].value)];
        } else {
          Seal();
          OneMore(start, actions, CloseQueue);
          actions := actions + [CloseQueue];
        }
      }
    }

    /** The consumer: takes and writes entries until the closed queue is empty or the sink fails. Every run of
        it, with the producers in between, is one of the interleavings above. */
    method RunAsync() returns (ghost actions: seq<Action>, ended: bool)
      requires consumer.Idle?
      modifies this
      ensures Now() == Run(old(Now()), actions)
      ensures ended ==> consumer.Stopped?
    {
      ghost var start := Now();
      actions, ended := [], false;
      var turns: int := *;
      for i := 0 to if turns < 0 then 0 else turns
        invariant Now() == Run(start, actions) && consumer.Idle?
      {
        actions := Meanwhile(actions, start);
        Receive();
        OneMore(start, actions, Take);
        actions := actions + [Take];
        if consumer.Stopped? {
          ended := true;
          return;
        }
        if consumer.Writing? {
          actions := Meanwhile(actions, start);
          var ok, bytes := WriteEntry();
          OneMore(start, actions, Deliver(ok, bytes));
          actions := actions + [Deliver(ok, bytes)];
          if !ok {
            actions := Meanwhile(actions, start);
            GiveUp();
            OneMore(start, actions, Drain);
            actions := actions + [Drain];
            ended := true;
            return;
          }
        }
      }
    }

    /** The consumer's next step, whatever it is. */
    method ConsumerStep() returns (ghost a: Action)
      modifies this
      ensures Now() == Step(old(Now()), a)
    {
      match consumer {
        case Writing(_) =>
          var ok, bytes := WriteEntry();
          a := Deliver(ok, bytes);
        case Failing(_) =>
          GiveUp();
          a := Drain;
        case _ =>
          Receive();
          a := Take;
      }
    }

    /** Closing seals the queue and waits while producers and the consumer go on. It reports success only when it has
        seen the consumer stop, and it may report a timeout at any time, even when the consumer has stopped. After a
        success nothing is queued or in flight. */
    method Close() returns (done: bool, ghost actions: seq<Action>)
      requires Inv(Now())
      modifies this
      ensures Now() == Run(old(Now()), actions) && Inv(Now())
      ensures actions != [] && actions[0] == CloseQueue && closed
      ensures done ==> consumer.Stopped? && queue == [] && InFlight(Now()) == []
    {
      ghost var start := Now();
      Seal();
      OneMore(start, [], CloseQueue);
      actions := Wait(start, [] + [CloseQueue]);
      RunKeepsInv(start, actions);
      var noticed: bool := *;
      done := noticed && consumer.Stopped?;
    }

    /** Waits while producers and the consumer go on, until the consumer has stopped or the time is over. */
    method Wait(ghost start: State, ghost before: seq<Action>) returns (ghost actions: seq<Action>)
      requires Now() == Run(start, before) && closed
      modifies this
      ensures Now() == Run(start, actions) && before <= actions && closed
    {
      actions := before;
      var turns: int := *;
      for i := 0 to if turns < 0 then 0 else turns
        invariant Now() == Run(start, actions) && before <= actions && closed
      {
        if consumer.Stopped? {
          break;
        }
        ghost var more := Meanwhile(actions, start);
        KeepsClosed(start, actions, more);
        ghost var a := ConsumerStep();
        OneMore(start, more, a);
        actions := more + [a];
      }
    }

    lemma KeepsClosed(start: State, before: seq<Action>, after: seq<Action>)
      requires before <= after && Run(start, before).closed
      ensures Run(start, after).closed
    {
      StaysClosed(start, before, after, |after|);
      assert after[..|after|] == after;
    }

    lemma {:induction false} StaysClosed(start: State, before: seq<Action>, after: seq<Action>, k: nat)
      requires before <= after && |before| <= k <= |after| && Run(start, before).closed
      ensures Run(start, after[..k]).closed
      decreases k
    {
      if k == |before| {
        assert after[..k] == before;
      } else {
        StaysClosed(start, before, after, k - 1);
        assert after[..k][..k - 1] == after[..k - 1];
      }
    }
  }
}
