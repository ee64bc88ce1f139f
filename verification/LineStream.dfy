/** apps/server/src/remote/process-provider.ts, LineStream: a queue with one consumer, which
    suspends on an empty queue and leaves its wake-up function in a single slot. */
module Lines {
  import opened Basics

  /** Where the one call of `next` stands: none open, awaiting the slot's promise, or woken
      but not yet resumed by the event loop. */
  datatype Consumer = Idle | Suspended | Woken

  /** The fields and the exit codes reported to `onExit`, then the history: lines enqueued, lines
      yielded, and whether `next` has
      reported the end. */
  datatype Stream = Stream(
    queue: seq<string>, done: bool, slot: bool, listening: bool, consumer: Consumer,
    exits: seq<Option<int>>, accepted: seq<string>, yielded: seq<string>, ended: bool)

  datatype Op =
    | Enqueue(line: string)  // a stdout event of the process
    | Finish(code: Option<int>)  // exit event, or abort without a code
    | CallNext               // the consumer asks for the next line
    | ResumeNext             // the event loop resumes the consumer

  const NEW_STREAM := Stream([], false, false, true, Idle, [], [], [], false)

  function WakeUp(s: Stream): Stream {
    if s.slot then s.(slot := false, consumer := if s.consumer.Suspended? then Woken else s.consumer) else s
  }

  /** The loop of `next` from its condition on. */
  function Continue(s: Stream): Stream {
    if s.queue == [] && !s.done then s.(slot := true, consumer := Suspended)
    else if s.queue != [] then
      s.(queue := s.queue[1..], yielded := s.yielded + [s.queue[0]], consumer := Idle)
    else s.(listening := false, ended := true, consumer := Idle)
  }

  function Next(s: Stream, op: Op): Stream {
    match op
    case Enqueue(line) =>
      if !s.listening then s
      else WakeUp(s.(queue := s.queue + [line], accepted := s.accepted + [line]))
    case Finish(code) => if s.done then s else WakeUp(s.(done := true, exits := s.exits + [code]))
    case CallNext => if s.consumer.Idle? then Continue(s) else s
    case ResumeNext => if s.consumer.Woken? then Continue(s) else s
  }

  function Run(s: Stream, ops: seq<Op>): Stream
    decreases |ops|
  {
    if ops == [] then s else Run(Next(s, ops[0]), ops[1..])
  }

  predicate Inv(s: Stream) {
    && s.yielded + s.queue == s.accepted
    && (s.slot <==> s.consumer.Suspended?)
    && (s.slot ==> s.queue == [] && !s.done)
    && (s.consumer.Woken? ==> s.queue != [] || s.done)
    && (s.ended ==> s.done && s.queue == [] && !s.listening)
    && (!s.listening ==> s.ended)
    && |s.exits| == (if s.done then 1 else 0)
  }

  lemma StepKeepsInv(s: Stream, op: Op)
    requires Inv(s)
    ensures Inv(Next(s, op)) && s.yielded <= Next(s, op).yielded
  {
    match op
    case Enqueue(line) => assert s.yielded + (s.queue + [line]) == (s.yielded + s.queue) + [line];
    case _ => if s.queue != [] { assert s.yielded + [s.queue[0]] + s.queue[1..] == s.yielded + s.queue; }
  }

  lemma {:induction false} RunKeepsInv(s: Stream, ops: seq<Op>)
    requires Inv(s)
    ensures Inv(Run(s, ops)) && s.yielded <= Run(s, ops).yielded
    decreases |ops|
  {
    if ops != [] {
      StepKeepsInv(s, ops[0]);
      RunKeepsInv(Next(s, ops[0]), ops[1..]);
    }
  }

  /** In every interleaving: nothing is lost, doubled or reordered, the end is reported only
      when the stream is finished and drained, after everything was yielded, and a sleeping
      consumer has nothing to be woken for. The exit is reported once. */
  lemma NoLineAndNoWakeUpIsLost(ops: seq<Op>)
    ensures var s := Run(NEW_STREAM, ops);
      && s.yielded + s.queue == s.accepted
      && (s.ended ==> s.done && s.queue == [] && s.yielded == s.accepted)
      && (s.consumer.Suspended? ==> s.queue == [] && !s.done)
      && |s.exits| == (if s.done then 1 else 0)
  {
    RunKeepsInv(NEW_STREAM, ops);
  }

  /** Once the process has finished, a consumer that keeps asking gets every remaining line and then
      the end: n lines take n + 1 calls, however the last one was waiting. */
  lemma {:induction false} DrainsAfterFinish(s: Stream)
    requires Inv(s) && s.done && !s.consumer.Suspended?
    ensures var asks := seq(|s.queue| + 1, i => if i == 0 && s.consumer.Woken? then ResumeNext else CallNext);
      Run(s, asks).ended && Run(s, asks).yielded == s.accepted
    decreases |s.queue|
  {
    var asks := seq(|s.queue| + 1, i => if i == 0 && s.consumer.Woken? then ResumeNext else CallNext);
    var t := Next(s, asks[0]);
    StepKeepsInv(s, asks[0]);
    if s.queue == [] {
      assert Run(t, asks[1..]) == t;
    } else {
      assert t.consumer.Idle?;
      assert asks[1..] == seq(|t.queue| + 1, i => if i == 0 && t.consumer.Woken? then ResumeNext else CallNext);
      DrainsAfterFinish(t);
    }
  }

  /** The lines of the process's stdout, and the codes it finished with, in order. */
  function Written(ops: seq<Op>): seq<string> {
    if ops == [] then [] else (if ops[0].Enqueue? then [ops[0].line] else []) + Written(ops[1..])
  }

  function Codes(ops: seq<Op>): seq<Option<int>> {
    if ops == [] then [] else (if ops[0].Finish? then [ops[0].code] else []) + Codes(ops[1..])
  }

  lemma StepTakes(s: Stream, op: Op)
    requires Inv(s)
    ensures var t := Next(s, op);
      && t.accepted == s.accepted + (if op.Enqueue? && !s.ended then [op.line] else [])
      && t.exits == s.exits + (if op.Finish? && !s.done then [op.code] else [])
      && (t.done <==> s.done || op.Finish?) && (s.ended ==> t.ended)
  {
    assert s.accepted + [] == s.accepted && s.exits + [] == s.exits;
  }

  lemma {:induction false} EndStays(s: Stream, ops: seq<Op>)
    requires Inv(s) && s.ended
    ensures Run(s, ops).ended
    decreases |ops|
  {
    if ops != [] {
      StepKeepsInv(s, ops[0]);
      EndStays(Next(s, ops[0]), ops[1..]);
    }
  }

  lemma {:induction false} RunTakes(s: Stream, ops: seq<Op>)
    requires Inv(s) && !Run(s, ops).ended
    ensures Run(s, ops).accepted == s.accepted + Written(ops)
    decreases |ops|
  {
    if ops != [] {
      if s.ended { EndStays(s, ops); }
      StepKeepsInv(s, ops[0]);
      StepTakes(s, ops[0]);
      RunTakes(Next(s, ops[0]), ops[1..]);
      WrittenMore(s.accepted, ops);
    }
  }

  lemma WrittenMore(accepted: seq<string>, ops: seq<Op>)
    requires ops != []
    ensures accepted + (if ops[0].Enqueue? then [ops[0].line] else []) + Written(ops[1..]) == accepted + Written(ops)
  {}

  lemma {:induction false} RunExits(s: Stream, ops: seq<Op>)
    requires Inv(s)
    ensures Run(s, ops).exits == s.exits + (if s.done || Codes(ops) == [] then [] else [Codes(ops)[0]])
    decreases |ops|
  {
    if ops == [] {
      assert s.exits + [] == s.exits;
    } else {
      var t := Next(s, ops[0]);
      StepKeepsInv(s, ops[0]);
      StepTakes(s, ops[0]);
      RunExits(t, ops[1..]);
      assert [] + Codes(ops[1..]) == Codes(ops[1..]);
      assert s.exits + [] + [] == s.exits;
    }
  }

  /** In every interleaving every line is taken up until the end has been reported, also one that comes after the
      process has finished, and the exit is reported with the code of the first finish. */
  lemma EveryLineIsTaken(ops: seq<Op>)
    ensures var s := Run(NEW_STREAM, ops);
      && (!s.ended ==> s.yielded + s.queue == Written(ops))
      && s.exits == (if Codes(ops) == [] then [] else [Codes(ops)[0]])
  {
    if !Run(NEW_STREAM, ops).ended { RunTakes(NEW_STREAM, ops); }
    RunExits(NEW_STREAM, ops);
    RunKeepsInv(NEW_STREAM, ops);
    assert [] + Written(ops) == Written(ops);
  }

  lemma RunTwo(s: Stream, x: Op, y: Op)
    ensures Run(s, [x, y]) == Next(Next(s, x), y)
  {
    assert [x, y][1..] == [y];
    assert Run(Next(s, x), [y]) == Run(Next(Next(s, x), y), []);
  }

  /** A consumer gets the oldest line at once if there is one; else it sleeps, and the next line, or the finish,
      wakes it and reaches it. */
  lemma AskingGetsTheNextLine(s: Stream, line: string, code: Option<int>)
    requires Inv(s) && s.consumer.Idle? && !s.ended
    ensures s.queue != [] ==> Next(s, CallNext).yielded == s.yielded + [s.queue[0]]
    ensures s.queue == [] && s.done ==> Next(s, CallNext).ended
    ensures s.queue == [] && !s.done ==>
              && Next(s, CallNext).consumer.Suspended?
              && Run(Next(s, CallNext), [Enqueue(line), ResumeNext]).yielded == s.yielded + [line]
              && Run(Next(s, CallNext), [Finish(code), ResumeNext]).ended
  {
    if s.queue == [] && !s.done {
      var t := Next(s, CallNext);
      RunTwo(t, Enqueue(line), ResumeNext);
      RunTwo(t, Finish(code), ResumeNext);
      assert Next(t, Enqueue(line)).queue == [line];
    }
  }

  // ---- The class ----

  datatype IteratorResult = Value(line: string) | Done | Pending

  class LineStream {
    var queue: seq<string>
    var done: bool
    var resolve: bool       // the slot holds a function
    var listening: bool     // `cleanup` has not run
    var consumer: Consumer
    var exits: seq<Option<int>>  // calls of `onExit`
    ghost var accepted: seq<string>
    ghost var yielded: seq<string>
    ghost var ended: bool

    ghost function Model(): Stream
      reads this
    {
      Stream(queue, done, resolve, listening, consumer, exits, accepted, yielded, ended)
    }

    constructor ()
      ensures Model() == NEW_STREAM
    {
      queue, done, resolve, listening, consumer, exits := [], false, false, true, Idle, [];
      accepted, yielded, ended := [], [], false;
    }

    method CallResolve()
      modifies this`resolve, this`consumer
      ensures Model() == WakeUp(old(Model()))
    {
      if resolve && consumer.Suspended? { consumer := Woken; }
      resolve := false;
    }

    method OnLine(line: string)
      modifies this
      ensures Model() == Next(old(Model()), Enqueue(line))
    {
      if !listening { return; }
      queue := queue + [line];
      accepted := accepted + [line];
      CallResolve();
    }

    method OnFinish(code: Option<int>)
      modifies this`done, this`exits, this`resolve, this`consumer
      ensures Model() == Next(old(Model()), Finish(code))
    {
      if done { return; }
      done := true;
      exits := exits + [code];
      CallResolve();
    }

    /** One stretch of `next` between two awaits. */
    method NextStretch() returns (r: IteratorResult)
      requires Inv(Model()) && !consumer.Suspended?
      modifies this
      ensures Model() == Next(old(Model()), if old(consumer).Idle? then CallNext else ResumeNext)
      ensures yielded == old(yielded) + (if r.Value? then [r.line] else [])
      ensures r.Done? ==> done && queue == [] && yielded == accepted
      ensures r.Pending? <==> consumer.Suspended?
    {
      if |queue| == 0 && !done {
        resolve := true;
        consumer := Suspended;
        return Pending;
      }
      consumer := Idle;
      if |queue| > 0 {
        var value := queue[0];
        queue := queue[1..];
        yielded := yielded + [value];
        return Value(value);
      }
      listening := false;
      ended := true;
      return Done;
    }
  }
}
