/** packages/transport/src/rpc-channel.ts: one end of a request/response channel. Request
    ids are the decimal texts of a counter; the counter stands for its text. */
module Rpc {
  import opened Wire
  import opened Promises

  /** A handler that has been called and whose promise is still open. */
  datatype Job = Job(id: nat, call: Event)

  datatype Ran = Ran(call: Event, result: RpcResult)

  /** The fields of a channel, then its history: the calls issued through `request`
      (call i has id i + 1), the last request id received, and what the handlers called for
      the peer's requests returned. */
  datatype End = End(
    nextId: nat, closed: bool, book: Book<nat>, timers: set<nat>, handlers: set<string>, jobs: seq<Job>,
    issued: seq<Event>, seen: nat, ran: map<nat, Ran>)

  datatype Op =
    | Request(call: Event)
    | Receive(env: Envelope<nat>)
    | HandlerDone(index: nat, result: RpcResult)
    | Timeout(id: nat)
    | Close(threw: bool)          // whether a disconnect listener threw
    | Emit(event: Event)
    | OnRequest(name: string)
    | OffRequest(name: string)

  /** The new state and what is handed to `socket.send`. */
  datatype Effect = Effect(end: End, sent: seq<Envelope<nat>>)

  const UNSEQUENCED := 0

  function Decimal(n: nat): string {
    (if n < 10 then "" else Decimal(n / 10)) + ["0123456789"[n % 10]]
  }

  function TimedOut(event: string, id: nat): RpcResult { Err("RPC timeout: " + event + " (id=" + Decimal(id) + ")") }

  const NEW_END := End(1, false, Book([], []), {}, {}, [], [], 0, map[])

  function Answer(e: End, id: nat, result: RpcResult): End {
    e.(book := Settle(e.book, id, if result.Ok? then Resolved(result.data) else Rejected(result.error)),
       timers := e.timers - {id})
  }

  /** Every pending request is rejected and its timer disarmed. */
  function RejectPending(e: End): End {
    e.(book := SettleAll(e.book, Rejected("RpcChannel closed")), timers := e.timers - (set id | id in e.book.pending))
  }

  /** A listener that throws keeps the handlers from being dropped. */
  function Shut(e: End, threw: bool): End {
    RejectPending(e).(closed := true, handlers := if threw then e.handlers else {})
  }

  /** The timer's callback runs only while the timer has not been cleared; a closed channel
      refuses requests without taking an id. */
  function Next(e: End, op: Op): Effect {
    match op
    case Request(call) =>
      if e.closed then Effect(e, [])
      else Effect(e.(nextId := e.nextId + 1, issued := e.issued + [call], book := Await(e.book, e.nextId),
                     timers := e.timers + {e.nextId}),
                  [RequestEnv(e.nextId, call)])
    case Receive(RequestEnv(id, call)) =>
      var d := e.(seen := id);
      if call.name in e.handlers then Effect(d.(jobs := d.jobs + [Job(id, call)]), [])
      else Effect(d, [ResponseEnv(id, Err("Unknown method: " + call.name))])
    case Receive(ResponseEnv(id, result)) => Effect(if id in e.book.pending then Answer(e, id, result) else e, [])
    case Receive(Ping) => Effect(e, [Pong])
    case Receive(_) => Effect(e, [])
    case HandlerDone(i, result) =>
      if i >= |e.jobs| then Effect(e, [])
      else Effect(e.(jobs := e.jobs[..i] + e.jobs[i + 1..], ran := e.ran[e.jobs[i].id := Ran(e.jobs[i].call, result)]),
                  [ResponseEnv(e.jobs[i].id, result)])
    case Timeout(id) =>
      Effect(if id in e.timers && 1 <= id <= |e.issued| then Answer(e, id, TimedOut(e.issued[id - 1].name, id))
             else e, [])
    case Close(threw) => Effect(if e.closed then e else Shut(e, threw), [])
    case Emit(event) => Effect(e, if e.closed then [] else [EventEnv(UNSEQUENCED, event)])
    case OnRequest(name) => Effect(e.(handlers := e.handlers + {name}), [])
    case OffRequest(name) => Effect(e.(handlers := e.handlers - {name}), [])
  }

  function Run(e: End, ops: seq<Op>): End
    decreases |ops|
  {
    if ops == [] then e else Run(Next(e, ops[0]).end, ops[1..])
  }

  function IdsBelow(n: nat): (ids: set<nat>)
    ensures forall id :: id in ids <==> 1 <= id < n
  {
    if n <= 1 then {} else IdsBelow(n - 1) + {n - 1}
  }

  /** Every id handed out is pending or settled, once; exactly the pending ones have a timer
      armed; a closed channel has neither. */
  ghost predicate EndOk(e: End) {
    && e.nextId == |e.issued| + 1
    && Sound(e.book, IdsBelow(e.nextId))
    && (forall id :: id in e.timers <==> id in e.book.pending)
    && (e.closed ==> e.book.pending == [])
  }

  lemma AnswerKeepsEnd(e: End, id: nat, result: RpcResult)
    requires EndOk(e)
    ensures EndOk(Answer(e, id, result)) && e.book.settled <= Answer(e, id, result).book.settled
  {
    SettleSound(e.book, IdsBelow(e.nextId), id, if result.Ok? then Resolved(result.data) else Rejected(result.error));
  }

  lemma ShutKeepsEnd(e: End, threw: bool)
    requires EndOk(e)
    ensures EndOk(Shut(e, threw)) && e.book.settled <= Shut(e, threw).book.settled
  {
    SettleAllSound(e.book, IdsBelow(e.nextId), Rejected("RpcChannel closed"));
  }

  lemma RequestKeepsSound(book: Book<nat>, nextId: nat)
    requires nextId >= 1 && Sound(book, IdsBelow(nextId))
    ensures Sound(Await(book, nextId), IdsBelow(nextId + 1))
  {
    assert IdsBelow(nextId + 1) == IdsBelow(nextId) + {nextId};
    AwaitSound(book, IdsBelow(nextId), nextId);
  }

  lemma RequestKeepsEnd(e: End, call: Event)
    requires EndOk(e) && !e.closed
    ensures EndOk(Next(e, Request(call)).end)
  {
    RequestKeepsSound(e.book, e.nextId);
  }

  /** Operations that hand out or settle no promise. */
  lemma OthersKeepEnd(e: End, op: Op)
    requires EndOk(e) && !op.Request? && !op.Timeout? && !op.Close? && !(op.Receive? && op.env.ResponseEnv?)
    ensures EndOk(Next(e, op).end) && Next(e, op).end.book == e.book
  {}

  lemma StepKeepsEnd(e: End, op: Op)
    requires EndOk(e)
    ensures EndOk(Next(e, op).end)
  {
    match op
    case Request(call) => if !e.closed { RequestKeepsEnd(e, call); }
    case Receive(ResponseEnv(id, result)) => AnswerKeepsEnd(e, id, result);
    case Timeout(id) => if 1 <= id <= |e.issued| { AnswerKeepsEnd(e, id, TimedOut(e.issued[id - 1].name, id)); }
    case Close(threw) => ShutKeepsEnd(e, threw);
    case _ => OthersKeepEnd(e, op);
  }

  /** Nothing settled is taken back, and a closed channel settles nothing more. */
  lemma StepOnlySettles(e: End, op: Op)
    requires EndOk(e)
    ensures e.book.settled <= Next(e, op).end.book.settled
    ensures e.closed ==> Next(e, op).end.closed && Next(e, op).end.book == e.book
  {
    match op
    case Request(_) =>
    case Receive(ResponseEnv(id, result)) => AnswerKeepsEnd(e, id, result);
    case Timeout(id) => if 1 <= id <= |e.issued| { AnswerKeepsEnd(e, id, TimedOut(e.issued[id - 1].name, id)); }
    case Close(threw) => ShutKeepsEnd(e, threw);
    case _ => OthersKeepEnd(e, op);
  }

  /** Once closed, nothing is pending and no promise is settled any more. */
  lemma {:induction false} ClosedIsFinal(e: End, ops: seq<Op>)
    requires EndOk(e) && e.closed
    ensures var d := Run(e, ops); d.closed && d.book == e.book && d.book.pending == []
    decreases |ops|
  {
    if ops != [] {
      StepKeepsEnd(e, ops[0]);
      StepOnlySettles(e, ops[0]);
      ClosedIsFinal(Next(e, ops[0]).end, ops[1..]);
    }
  }

  lemma {:induction false} RunKeepsEnd(e: End, ops: seq<Op>)
    requires EndOk(e)
    ensures EndOk(Run(e, ops)) && e.book.settled <= Run(e, ops).book.settled
    decreases |ops|
  {
    if ops != [] {
      StepKeepsEnd(e, ops[0]);
      StepOnlySettles(e, ops[0]);
      RunKeepsEnd(Next(e, ops[0]).end, ops[1..]);
    }
  }

  /** In every run of requests, responses (late and repeated ones too), timeouts and closes, the
      ids 1, ..., nextId - 1 are each pending or settled once, and never both. */
  lemma EachRequestSettlesOnce(ops: seq<Op>)
    ensures var e := Run(NEW_END, ops);
      && (forall i, j :: 0 <= i < j < |e.book.settled| ==> e.book.settled[i].id != e.book.settled[j].id)
      && (forall i :: 0 <= i < |e.book.settled| ==> e.book.settled[i].id !in e.book.pending)
      && (forall id :: 1 <= id < e.nextId ==> id in e.book.pending || id in Ids(e.book.settled))
      && (forall id :: id in e.book.pending ==> 1 <= id < e.nextId)
      && (e.closed ==> e.book.pending == [])
  {
    assert IdsBelow(1) == {};
    RunKeepsEnd(NEW_END, ops);
    var e := Run(NEW_END, ops);
    SettledOnce(e.book, IdsBelow(e.nextId));
    assert forall id :: 1 <= id < e.nextId ==> id in IdsBelow(e.nextId);
  }

  // ---- How a request ends ----

  /** The promise of `id` has been settled with this outcome and its timer disarmed; nothing else of the
      bookkeeping has changed. */
  ghost predicate SettledNow(e: End, d: End, id: nat, outcome: Outcome) {
    && d.book.settled == e.book.settled + [Settlement(id, outcome)]
    && (forall x :: x in d.book.pending <==> x in e.book.pending && x != id)
    && (forall x :: x in d.timers <==> x in e.timers && x != id)
  }

  /** What the outcome of a request's handler makes of its promise. */
  predicate Ends(result: RpcResult, outcome: Outcome) {
    match result
    case Ok(data) => outcome == Resolved(data)
    case Err(error) => outcome == Rejected(error)
  }

  /** A response resolves the pending request with its data or rejects it with its text; a late or repeated
      one does nothing. */
  lemma ResponseSettles(e: End, id: nat, result: RpcResult, outcome: Outcome)
    requires EndOk(e) && Ends(result, outcome)
    ensures var d := Next(e, Receive(ResponseEnv(id, result))).end;
      if id in e.book.pending then SettledNow(e, d, id, outcome) else d == e
  {
    SettleSound(e.book, IdsBelow(e.nextId), id, outcome);
  }

  /** So does its timer, with the event and the id in the text. */
  lemma TimeoutSettles(e: End, id: nat)
    requires EndOk(e)
    ensures var d := Next(e, Timeout(id)).end;
      if id in e.book.pending
      then 1 <= id <= |e.issued| &&
           SettledNow(e, d, id, Rejected("RPC timeout: " + e.issued[id - 1].name + " (id=" + Decimal(id) + ")"))
      else d == e
  {
    SettledOnce(e.book, IdsBelow(e.nextId));
    if id in e.book.pending {
      assert 1 <= id <= |e.issued|;
      SettleSound(e.book, IdsBelow(e.nextId), id, Rejected(TimedOut(e.issued[id - 1].name, id).error));
    }
  }

  /** A close rejects what is pending, in the order it was asked; a request made afterwards is refused, and
      takes no id. */
  lemma CloseSettles(e: End, threw: bool, call: Event)
    requires EndOk(e) && !e.closed
    ensures var d := Next(e, Close(threw)).end;
      && d.closed && d.book.pending == [] && d.timers == {} && d.nextId == e.nextId
      && d.handlers == (if threw then e.handlers else {})
      && |d.book.settled| == |e.book.settled| + |e.book.pending| && e.book.settled <= d.book.settled
      && (forall i :: 0 <= i < |e.book.pending| ==>
            d.book.settled[|e.book.settled| + i] == Settlement(e.book.pending[i], Rejected("RpcChannel closed")))
      && Next(d, Request(call)) == Effect(d, []) && Next(d, Emit(call)) == Effect(d, [])
  {}

  function Digit(c: char): nat { if '0' <= c <= '9' then (c - '0') as nat else 0 }

  function Number(text: string): nat {
    if text == "" then 0 else 10 * Number(text[..|text| - 1]) + Digit(text[|text| - 1])
  }

  lemma DigitReadsBack(d: nat)
    requires d < 10
    ensures var c := "0123456789"[d]; '0' <= c <= '9' && Digit(c) == d
  {
    var c := "0123456789"[d];
    assert c == '0' + d as char;
  }

  lemma NumberAppend(text: string, c: char)
    ensures Number(text + [c]) == 10 * Number(text) + Digit(c)
  {
    assert (text + [c])[..|text|] == text;
  }

  /** Different ids have different texts, so the counter may stand for its text. */
  lemma {:induction false} DecimalReadsBack(n: nat)
    ensures Number(Decimal(n)) == n && forall c :: c in Decimal(n) ==> '0' <= c <= '9'
  {
    var front, last := if n < 10 then "" else Decimal(n / 10), "0123456789"[n % 10];
    DigitReadsBack(n % 10);
    if n >= 10 { DecimalReadsBack(n / 10); }
    assert Decimal(n) == front + [last];
    NumberAppend(front, last);
  }

  // ---- The class ----

  function Registered(listeners: map<string, seq<nat>>, event: string): seq<nat> {
    if event in listeners then listeners[event] else []
  }

  function Calls(event: string, fns: seq<nat>): seq<(string, nat)> {
    seq(|fns|, i requires 0 <= i < |fns| => (event, fns[i]))
  }

  const RESUME_EVENT := "__resume__"

  /** What callbacks do while they are called: which others of the set they take off, and who throws. */
  datatype Acts = Acts(drops: map<nat, set<nat>>, throws: set<nat>)

  function Dropped(acts: Acts, fn: nat): set<nat> { if fn in acts.drops then acts.drops[fn] else {} }

  /** What a walk over a set of callbacks calls, what has been taken off by its end, and whether the
      last one called threw. */
  datatype Walked = Walked(called: seq<nat>, gone: set<nat>, threw: bool)

  /** `for (const fn of set) fn()`: the set shrinks under it, and a callback that throws ends it. */
  function Walk(fns: seq<nat>, gone: set<nat>, acts: Acts): Walked {
    if fns == [] then Walked([], gone, false)
    else if fns[0] in gone then Walk(fns[1..], gone, acts)
    else if fns[0] in acts.throws then Walked([fns[0]], gone + Dropped(acts, fns[0]), true)
    else
      var w := Walk(fns[1..], gone + Dropped(acts, fns[0]), acts);
      Walked([fns[0]] + w.called, w.gone, w.threw)
  }

  function Remaining(fns: seq<nat>, gone: set<nat>): seq<nat> {
    if fns == [] then [] else (if fns[0] in gone then [] else [fns[0]]) + Remaining(fns[1..], gone)
  }

  /** An event without callbacks has no entry. */
  function TakeOff(listeners: map<string, seq<nat>>, event: string, gone: set<nat>): map<string, seq<nat>> {
    var left := Remaining(Registered(listeners, event), gone);
    if left == [] then listeners - {event} else listeners[event := left]
  }

  /** Exactly the callbacks taken off are no longer registered for the event, which has an entry only while it
      has a callback; nothing changes for other events. */
  lemma {:induction false} TakeOffLeaves(listeners: map<string, seq<nat>>, event: string, gone: set<nat>, fn: nat)
    ensures var after := TakeOff(listeners, event, gone);
      && (event in after && fn in after[event] <==> event in listeners && fn in listeners[event] && fn !in gone)
      && (event in after ==> after[event] != [])
      && (forall other :: other != event ==>
            (other in after <==> other in listeners) && (other in after ==> after[other] == listeners[other]))
  {
    RemainingHas(Registered(listeners, event), gone, fn);
  }

  lemma {:induction false} RemainingHas(fns: seq<nat>, gone: set<nat>, fn: nat)
    ensures fn in Remaining(fns, gone) <==> fn in fns && fn !in gone
  {
    if fns != [] { RemainingHas(fns[1..], gone, fn); }
  }

  /** Callbacks that leave each other alone are all called, in order of registration. */
  lemma {:induction false} WalkCallsAll(fns: seq<nat>, acts: Acts)
    requires forall f :: f in fns ==> f !in acts.throws && f !in acts.drops
    ensures Walk(fns, {}, acts) == Walked(fns, {}, false)
  {
    if fns != [] {
      assert fns == [fns[0]] + fns[1..] && {} + Dropped(acts, fns[0]) == {};
      WalkCallsAll(fns[1..], acts);
    }
  }

  predicate Distinct(fns: seq<nat>) { forall i, j :: 0 <= i < j < |fns| ==> fns[i] != fns[j] }

  /** Only registered callbacks are called, each at most once; the walk throws exactly if one of them
      does, and then that one was the last. */
  lemma {:induction false} WalkMembers(fns: seq<nat>, gone: set<nat>, acts: Acts)
    requires Distinct(fns)
    ensures var w := Walk(fns, gone, acts);
      && (forall f :: f in w.called ==> f in fns && f !in gone)
      && Distinct(w.called)
      && (forall k :: 0 <= k < |w.called| - 1 ==> w.called[k] !in acts.throws)
      && (w.threw <==> exists f :: f in w.called && f in acts.throws)
  {
    if fns != [] && fns[0] in gone {
      WalkMembers(fns[1..], gone, acts);
    } else if fns != [] && fns[0] !in acts.throws {
      var w, v := Walk(fns, gone, acts), Walk(fns[1..], gone + Dropped(acts, fns[0]), acts);
      WalkMembers(fns[1..], gone + Dropped(acts, fns[0]), acts);
      assert w.called == [fns[0]] + v.called;
      assert forall f :: f in w.called <==> f == fns[0] || f in v.called;
    }
  }

  /** What is off at the end was off before, or a callback that was called took it off. */
  lemma {:induction false} WalkTakesOff(fns: seq<nat>, gone: set<nat>, acts: Acts, f: nat)
    ensures var w := Walk(fns, gone, acts);
      f in w.gone <==> f in gone || exists g :: g in w.called && f in Dropped(acts, g)
  {
    if fns != [] {
      if fns[0] in gone {
        WalkTakesOff(fns[1..], gone, acts, f);
      } else {
        WalkTakesOff(fns[1..], gone + Dropped(acts, fns[0]), acts, f);
        assert fns[0] in Walk(fns, gone, acts).called;
      }
    }
  }

  /** None of the callbacks before number i that were called takes number i off, or throws. */
  predicate Spared(fns: seq<nat>, called: seq<nat>, acts: Acts, i: nat)
    requires i < |fns|
  {
    forall j :: 0 <= j < i && fns[j] in called ==> fns[i] !in Dropped(acts, fns[j]) && fns[j] !in acts.throws
  }

  /** A callback of the set is called exactly if it was not off before and none called before it
      took it off or threw. */
  lemma {:induction false} WalkCallsTheSpared(fns: seq<nat>, gone: set<nat>, acts: Acts, i: nat)
    requires Distinct(fns) && i < |fns|
    ensures var called := Walk(fns, gone, acts).called;
      fns[i] in called <==> fns[i] !in gone && Spared(fns, called, acts, i)
  {
    var first, rest, called := fns[0], fns[1..], Walk(fns, gone, acts).called;
    if first !in gone && first in acts.throws {
      assert called == [first];
    } else {
      var skip := first in gone;
      var gone' := if skip then gone else gone + Dropped(acts, first);
      var called' := Walk(rest, gone', acts).called;
      WalkMembers(rest, gone', acts);
      assert forall f :: f in called <==> f in called' || (!skip && f == first);
      if i > 0 {
        WalkCallsTheSpared(rest, gone', acts, i - 1);
        SparedByRest(fns, called, called', acts, i, skip);
      }
    }
  }

  lemma SparedByRest(fns: seq<nat>, called: seq<nat>, called': seq<nat>, acts: Acts, i: nat, skip: bool)
    requires Distinct(fns) && 0 < i < |fns| && (!skip ==> fns[0] !in acts.throws)
    requires forall f :: f in called <==> f in called' || (!skip && f == fns[0])
    requires fns[0] !in called'
    ensures Spared(fns, called, acts, i)
            <==> Spared(fns[1..], called', acts, i - 1) && (skip || fns[i] !in Dropped(acts, fns[0]))
  {
    var rest := fns[1..];
    assert forall j :: 1 <= j < i ==> fns[j] == rest[j - 1];
    if Spared(fns, called, acts, i) {
      forall j | 0 <= j < i - 1 && rest[j] in called'
        ensures rest[i - 1] !in Dropped(acts, rest[j]) && rest[j] !in acts.throws
      {
        assert fns[j + 1] == rest[j] && fns[j + 1] in called;
      }
      if !skip { assert fns[0] in called; }
    }
  }

  /** One turn of the loop. */
  lemma WalkFrom(fns: seq<nat>, i: nat, gone: set<nat>, called: seq<nat>, acts: Acts)
    requires i < |fns|
    ensures var v := Walk(fns[i..], gone, acts);
      Walked(called + v.called, v.gone, v.threw) ==
        if fns[i] in gone then
          var u := Walk(fns[i + 1..], gone, acts); Walked(called + u.called, u.gone, u.threw)
        else if fns[i] in acts.throws then Walked(called + [fns[i]], gone + Dropped(acts, fns[i]), true)
        else
          var u := Walk(fns[i + 1..], gone + Dropped(acts, fns[i]), acts);
          Walked(called + [fns[i]] + u.called, u.gone, u.threw)
  {
    assert fns[i..][1..] == fns[i + 1..];
    if fns[i] !in gone && fns[i] !in acts.throws {
      var u := Walk(fns[i + 1..], gone + Dropped(acts, fns[i]), acts);
      assert called + ([fns[i]] + u.called) == called + [fns[i]] + u.called;
    }
  }

  lemma CallsMore(event: string, fns: seq<nat>, fn: nat)
    ensures Calls(event, fns + [fn]) == Calls(event, fns) + [(event, fn)]
  {}

  class RpcChannel {
    var nextId: nat
    var closed: bool
    var pending: seq<nat>
    var timers: set<nat>
    var handlers: set<string>
    var listeners: map<string, seq<nat>>  // event name to callbacks, in order of registration
    var jobs: seq<Job>
    var sent: seq<Envelope<nat>>          // what went to socket.send
    var fired: seq<(string, nat)>         // listener calls
    ghost var settled: seq<Settlement<nat>>
    ghost var issued: seq<Event>
    ghost var seen: nat
    ghost var ran: map<nat, Ran>

    ghost function Model(): End
      reads this
    {
      End(nextId, closed, Book(pending, settled), timers, handlers, jobs, issued, seen, ran)
    }

    constructor ()
      ensures Model() == NEW_END && sent == [] && listeners == map[] && fired == []
    {
      nextId, closed, pending, timers, handlers, jobs := 1, false, [], {}, {}, [];
      listeners, sent, fired := map[], [], [];
      settled, issued, seen, ran := [], [], 0, map[];
    }

    /** A closed channel rejects at once; `accepted` tells. */
    method RequestCall(call: Event) returns (accepted: bool)
      modifies this`nextId, this`pending, this`timers, this`sent, this`issued
      ensures accepted <==> !old(closed)
      ensures old(sent) <= sent && Effect(Model(), sent[|old(sent)|..]) == Next(old(Model()), Request(call))
    {
      if closed { return false; }
      var id := nextId;
      nextId := nextId + 1;
      timers := timers + {id};
      pending := pending + [id];
      sent := sent + [RequestEnv(id, call)];
      issued := issued + [call];
      return true;
    }

    method SettlePending(id: nat, result: RpcResult)
      requires id in pending
      modifies this`pending, this`timers, this`settled
      ensures Model() == Answer(old(Model()), id, result)
    {
      timers := timers - {id};
      pending := Without(pending, id);
      settled := settled + [Settlement(id, if result.Ok? then Resolved(result.data) else Rejected(result.error))];
    }

    /** The timer's callback, which captured the event of the request. */
    method TimerFired(id: nat, event: string)
      requires EndOk(Model()) && 1 <= id <= |issued| && event == issued[id - 1].name
      modifies this`pending, this`timers, this`settled
      ensures Model() == Next(old(Model()), Timeout(id)).end
    {
      if id in timers { SettlePending(id, TimedOut(event, id)); }
    }

    method EmitEvent(event: Event)
      modifies this`sent
      ensures old(sent) <= sent && Effect(Model(), sent[|old(sent)|..]) == Next(old(Model()), Emit(event))
      ensures sent == old(sent) + (if closed then [] else [EventEnv(0, event)])
    {
      if closed { return; }
      sent := sent + [EventEnv(UNSEQUENCED, event)];
    }

    method OnRequestCall(name: string)
      modifies this`handlers
      ensures Model() == Next(old(Model()), OnRequest(name)).end && handlers == old(handlers) + {name}
    {
      handlers := handlers + {name};
    }

    /** The function `onRequest` returns. */
    method OffRequestCall(name: string)
      modifies this`handlers
      ensures Model() == Next(old(Model()), OffRequest(name)).end && handlers == old(handlers) - {name}
    {
      handlers := handlers - {name};
    }

    method FireEvent(event: string, acts: Acts) returns (threw: bool)
      modifies this`fired, this`listeners
      ensures var w := Walk(Registered(old(listeners), event), {}, acts);
        && fired == old(fired) + Calls(event, w.called) && threw == w.threw
        && listeners == TakeOff(old(listeners), event, w.gone)
    {
      if event !in listeners {
        assert old(fired) + [] == old(fired) && listeners - {event} == listeners;
        return false;
      }
      var gone;
      gone, threw := CallEach(event, listeners[event], acts);
      listeners := TakeOff(listeners, event, gone);
    }

    /** The loop of `fireEvent`. */
    method CallEach(event: string, fns: seq<nat>, acts: Acts) returns (gone: set<nat>, threw: bool)
      modifies this`fired
      ensures var w := Walk(fns, {}, acts);
        fired == old(fired) + Calls(event, w.called) && gone == w.gone && threw == w.threw
    {
      gone, threw := {}, false;
      ghost var called: seq<nat> := [];
      ghost var w := Walk(fns, {}, acts);
      assert fns[0..] == fns && [] + w.called == w.called;
      var i := 0;
      while i < |fns|
        invariant 0 <= i <= |fns| && fired == old(fired) + Calls(event, called) && !threw
        invariant var v := Walk(fns[i..], gone, acts); w == Walked(called + v.called, v.gone, v.threw)
      {
        WalkFrom(fns, i, gone, called, acts);
        if fns[i] !in gone {
          CallsMore(event, called, fns[i]);
          fired := fired + [(event, fns[i])];
          called := called + [fns[i]];
          gone := gone + Dropped(acts, fns[i]);
          if fns[i] in acts.throws { return gone, true; }
        }
        i := i + 1;
      }
      assert called + [] == called;
    }

    method HandleMessage(env: Envelope<nat>, acts: Acts) returns (threw: bool)
      modifies this`pending, this`timers, this`settled, this`jobs, this`seen, this`sent, this`fired, this`listeners
      ensures old(sent) <= sent && Effect(Model(), sent[|old(sent)|..]) == Next(old(Model()), Receive(env))
      ensures env.EventEnv? || env.ResumeEnv? ==>
                var event := if env.EventEnv? then env.event.name else "__resume__";
                var w := Walk(Registered(old(listeners), event), {}, acts);
                && fired == old(fired) + Calls(event, w.called) && threw == w.threw
                && listeners == TakeOff(old(listeners), event, w.gone)
      ensures env.Ping? ==> sent == old(sent) + [Pong]
      ensures !env.EventEnv? && !env.ResumeEnv? ==> fired == old(fired) && listeners == old(listeners) && !threw
    {
      threw := false;
      match env
      case Ping => sent := sent + [Pong];
      case Pong =>
      case ResumeEnv(_) => threw := FireEvent(RESUME_EVENT, acts);
      case EventEnv(_, event) => threw := FireEvent(event.name, acts);
      case RequestEnv(id, call) =>
        seen := id;
        if call.name in handlers {
          jobs := jobs + [Job(id, call)];
        } else {
          sent := sent + [ResponseEnv(id, Err("Unknown method: " + call.name))];
        }
      case ResponseEnv(id, result) =>
        if id in pending { SettlePending(id, result); }
    }

    /** The part of handleRequest after its await. */
    method HandlerSettled(index: nat, result: RpcResult)
      requires index < |jobs|
      modifies this`jobs, this`sent, this`ran
      ensures old(sent) <= sent
      ensures Effect(Model(), sent[|old(sent)|..]) == Next(old(Model()), HandlerDone(index, result))
    {
      var job := jobs[index];
      jobs := jobs[..index] + jobs[index + 1..];
      ran := ran[job.id := Ran(job.call, result)];
      sent := sent + [ResponseEnv(job.id, result)];
    }

    /** `on`, for callbacks named by numbers; a callback is in a set, so at most once. */
    method On(event: string, fn: nat)
      modifies this`listeners
      ensures event in old(listeners) && fn in old(listeners)[event] ==> listeners == old(listeners)
      ensures event in old(listeners) && fn !in old(listeners)[event] ==>
                listeners == old(listeners)[event := old(listeners)[event] + [fn]]
      ensures event !in old(listeners) ==> listeners == old(listeners)[event := [fn]]
    {
      var fns := Registered(listeners, event);
      assert [] + [fn] == [fn];
      if fn !in fns { fns := fns + [fn]; }
      listeners := listeners[event := fns];
    }

    /** If a disconnect listener throws, the remaining ones are not called, and listeners and handlers stay:
        the channel counts as closed, so no later call drops them. */
    method HandleClose(acts: Acts) returns (threw: bool)
      modifies this`closed, this`pending, this`timers, this`settled, this`fired, this`listeners, this`handlers
      ensures var w := Walk(Registered(old(listeners), "disconnect"), {}, acts);
        && threw == (!old(closed) && w.threw)
        && fired == old(fired) + (if old(closed) then [] else Calls("disconnect", w.called))
        && listeners == if old(closed) then old(listeners)
                        else if threw then TakeOff(old(listeners), "disconnect", w.gone) else map[]
      ensures closed && Model() == Next(old(Model()), Close(threw)).end
    {
      threw := false;
      if closed { return; }
      closed := true;
      RejectAll();
      threw := FireEvent("disconnect", acts);
      if threw { return; }
      listeners := map[];
      handlers := {};
    }

    method RejectAll()
      modifies this`pending, this`timers, this`settled
      ensures Model() == RejectPending(old(Model()))
    {
      var i := 0;
      while i < |pending|
        invariant 0 <= i <= |pending| && pending == old(pending)
        invariant settled == old(settled) + SettleAll(Book(pending[..i], []), Rejected("RpcChannel closed")).settled
        invariant timers == old(timers) - (set id | id in pending[..i])
      {
        timers := timers - {pending[i]};
        settled := settled + [Settlement(pending[i], Rejected("RpcChannel closed"))];
        assert pending[..i + 1] == pending[..i] + [pending[i]];
        assert SettleAll(Book(pending[..i + 1], []), Rejected("RpcChannel closed")).settled
            == SettleAll(Book(pending[..i], []), Rejected("RpcChannel closed")).settled
               + [Settlement(pending[i], Rejected("RpcChannel closed"))];
        i := i + 1;
      }
      assert pending[..i] == pending;
      pending := [];
    }
  }
}
