/** Two RpcChannels joined by a link, both issuing requests from the ids 1, 2, ... */
module RpcLink {
  import opened Wire
  import opened Promises
  import opened Rpc

  /** What each end has sent and the other has not processed yet. A link that is down
      carries nothing any more. */
  datatype Link = Link(a: End, b: End, ab: seq<Envelope<nat>>, ba: seq<Envelope<nat>>, up: bool)

  datatype Side = A | B

  datatype Step =
    | Local(side: Side, op: Op)   // anything but receiving
    | Deliver(to: Side)           // the oldest envelope on the way arrives
    | Cut                         // the socket closes; everything on the way is lost

  function Swap(l: Link): Link { Link(l.b, l.a, l.ba, l.ab, l.up) }

  /** The end `a` takes a step. */
  function Act(l: Link, op: Op): Link {
    var e := Next(l.a, op);
    l.(a := e.end, ab := if l.up then l.ab + e.sent else l.ab)
  }

  function DeliverToA(l: Link): Link {
    if l.ba == [] then l else Act(l.(ba := l.ba[1..]), Receive(l.ba[0]))
  }

  function Apply(l: Link, step: Step): Link {
    match step
    case Local(A, op) => if op.Receive? then l else Act(l, op)
    case Local(B, op) => if op.Receive? then l else Swap(Act(Swap(l), op))
    case Deliver(A) => DeliverToA(l)
    case Deliver(B) => Swap(DeliverToA(Swap(l)))
    case Cut => l.(ab := [], ba := [], up := false)
  }

  function Run(l: Link, steps: seq<Step>): Link
    decreases |steps|
  {
    if steps == [] then l else Run(Apply(l, steps[0]), steps[1..])
  }

  const NEW_LINK := Link(NEW_END, NEW_END, [], [], true)

  // ---- The invariant, for the requests `a` makes of `b` ----

  /** `id` names the call that `a` issued under it. */
  predicate Issued(a: End, id: nat, call: Event) { 1 <= id <= |a.issued| && a.issued[id - 1] == call }

  /** `b` has run its handler for request `id`, on what `a` asked, and got `result`. */
  predicate RanFor(a: End, b: End, id: nat, result: RpcResult) {
    id in b.ran && b.ran[id].result == result && Issued(a, id, b.ran[id].call)
  }

  /** An answer `b` may give to request `id`: what its handler returned, or that it has none. */
  predicate AnswerTo(a: End, b: End, id: nat, result: RpcResult) {
    || RanFor(a, b, id, result)
    || (1 <= id <= |a.issued| && result == Err("Unknown method: " + a.issued[id - 1].name))
  }

  /** What settled a promise of `a`: an answer of `b`, its own timer, or its own close. */
  predicate Caused(a: End, b: End, s: Settlement<nat>) {
    match s.outcome
    case Resolved(value) => RanFor(a, b, s.id, Ok(value))
    case Rejected(reason) =>
      || AnswerTo(a, b, s.id, Err(reason))
      || (1 <= s.id <= |a.issued| &&
          reason == "RPC timeout: " + a.issued[s.id - 1].name + " (id=" + Decimal(s.id) + ")")
      || (a.closed && reason == "RpcChannel closed")
  }

  /** Requests on the way: ids increase and are new to the receiver. */
  ghost predicate AsksOk(a: End, b: End, ab: seq<Envelope<nat>>) {
    && b.seen <= |a.issued| && a.nextId == |a.issued| + 1
    && (forall i :: 0 <= i < |ab| && ab[i].RequestEnv? ==> b.seen < ab[i].id && Issued(a, ab[i].id, ab[i].call))
    && (forall i, j :: 0 <= i < j < |ab| && ab[i].RequestEnv? && ab[j].RequestEnv? ==> ab[i].id < ab[j].id)
  }

  /** Handlers run once per request, on the call that was issued. */
  ghost predicate RunsOk(a: End, b: End) {
    && (forall i :: 0 <= i < |b.jobs| ==>
          b.jobs[i].id <= b.seen && b.jobs[i].id !in b.ran && Issued(a, b.jobs[i].id, b.jobs[i].call))
    && (forall i, j :: 0 <= i < j < |b.jobs| ==> b.jobs[i].id != b.jobs[j].id)
    && (forall id :: id in b.ran ==> id <= b.seen && Issued(a, id, b.ran[id].call))
  }

  /** Responses on the way back are answers, and what has been settled has its cause. */
  ghost predicate AnswersOk(a: End, b: End, ba: seq<Envelope<nat>>) {
    && (forall i :: 0 <= i < |ba| && ba[i].ResponseEnv? ==> AnswerTo(a, b, ba[i].reply, ba[i].result))
    && (forall i :: 0 <= i < |a.book.settled| ==> Caused(a, b, a.book.settled[i]))
  }

  ghost predicate Half(a: End, b: End, ab: seq<Envelope<nat>>, ba: seq<Envelope<nat>>) {
    AsksOk(a, b, ab) && RunsOk(a, b) && AnswersOk(a, b, ba)
  }

  ghost predicate Inv(l: Link) { Half(l.a, l.b, l.ab, l.ba) && Half(l.b, l.a, l.ba, l.ab) }

  /** A step of `a` seen as the asking side. */
  lemma AskerStep(a: End, b: End, ab: seq<Envelope<nat>>, ba: seq<Envelope<nat>>, op: Op, up: bool)
    requires Half(a, b, ab, ba)
    requires op.Receive? && op.env.ResponseEnv? ==> AnswerTo(a, b, op.env.reply, op.env.result)
    ensures var e := Next(a, op); Half(e.end, b, if up then ab + e.sent else ab, ba)
  {
    AskerIssues(a, op);
    AskerAsks(a, b, ab, op, up);
    AskerTakes(a, b, ba, op);
    assert RunsOk(Next(a, op).end, b);
  }

  /** What was issued stays issued. */
  lemma AskerIssues(a: End, op: Op)
    ensures var d := Next(a, op).end;
      && a.issued <= d.issued
      && (forall id, call :: Issued(a, id, call) ==> Issued(d, id, call))
      && (forall b: End, id, result :: RanFor(a, b, id, result) ==> RanFor(d, b, id, result))
      && (forall b: End, id, result :: AnswerTo(a, b, id, result) ==> AnswerTo(d, b, id, result))
      && (a.closed ==> d.closed)
  {}

  lemma AskerAsks(a: End, b: End, ab: seq<Envelope<nat>>, op: Op, up: bool)
    requires AsksOk(a, b, ab)
    ensures var e := Next(a, op); AsksOk(e.end, b, if up then ab + e.sent else ab)
  {
    AskerIssues(a, op);
  }

  lemma AskerTakes(a: End, b: End, ba: seq<Envelope<nat>>, op: Op)
    requires AnswersOk(a, b, ba)
    requires op.Receive? && op.env.ResponseEnv? ==> AnswerTo(a, b, op.env.reply, op.env.result)
    ensures AnswersOk(Next(a, op).end, b, ba)
  {
    AskerIssues(a, op);
    var d := Next(a, op).end;
    forall i | 0 <= i < |d.book.settled| ensures Caused(d, b, d.book.settled[i]) {
      if i < |a.book.settled| { assert d.book.settled[i] == a.book.settled[i]; }
    }
  }

  /** What `b` may be handed next, `ab` being what is left on the way to it. */
  ghost predicate NextInLine(a: End, b: End, ab: seq<Envelope<nat>>, op: Op) {
    op.Receive? && op.env.RequestEnv? ==>
      && b.seen < op.env.id && Issued(a, op.env.id, op.env.call)
      && forall i :: 0 <= i < |ab| && ab[i].RequestEnv? ==> op.env.id < ab[i].id
  }

  lemma AnswererRuns(a: End, b: End, op: Op)
    requires RunsOk(a, b) && b.seen <= |a.issued| && NextInLine(a, b, [], op)
    ensures RunsOk(a, Next(b, op).end)
    ensures forall id, result :: RanFor(a, b, id, result) ==> RanFor(a, Next(b, op).end, id, result)
    ensures op.HandlerDone? && op.index < |b.jobs| ==> RanFor(a, Next(b, op).end, b.jobs[op.index].id, op.result)
  {
    match op
    case HandlerDone(k, result) => if k < |b.jobs| { JobDoneRuns(a, b, k, result); }
    case Receive(RequestEnv(id, call)) => RequestTakenRuns(a, b, id, call);
    case _ => OthersLeaveRuns(b, op);
  }

  lemma RequestTakenRuns(a: End, b: End, id: nat, call: Event)
    requires RunsOk(a, b) && b.seen < id && Issued(a, id, call)
    ensures var d := Next(b, Receive(RequestEnv(id, call))).end; RunsOk(a, d) && d.ran == b.ran
  {}

  lemma OthersLeaveRuns(b: End, op: Op)
    requires !op.HandlerDone? && !(op.Receive? && op.env.RequestEnv?)
    ensures var d := Next(b, op).end; d.jobs == b.jobs && d.ran == b.ran && d.seen == b.seen
  {}

  lemma JobDoneRuns(a: End, b: End, k: nat, result: RpcResult)
    requires RunsOk(a, b) && k < |b.jobs|
    ensures var d := Next(b, HandlerDone(k, result)).end;
      && RunsOk(a, d)
      && RanFor(a, d, b.jobs[k].id, result)
      && forall id, r :: RanFor(a, b, id, r) ==> RanFor(a, d, id, r)
  {
    var rest := Next(b, HandlerDone(k, result)).end.jobs;
    assert forall i :: 0 <= i < |rest| ==> rest[i] == b.jobs[if i < k then i else i + 1];
  }

  /** A step of `b` seen as the answering side. */
  lemma AnswererStep(a: End, b: End, ab: seq<Envelope<nat>>, ba: seq<Envelope<nat>>, op: Op, up: bool)
    requires Half(a, b, ab, ba) && NextInLine(a, b, ab, op)
    ensures var e := Next(b, op); Half(a, e.end, ab, if up then ba + e.sent else ba)
  {
    AnswererRuns(a, b, op);
    var e := Next(b, op);
    assert AsksOk(a, e.end, ab);
    assert AnswersOk(a, e.end, ba);
    assert forall i :: 0 <= i < |e.sent| && e.sent[i].ResponseEnv? ==>
        AnswerTo(a, e.end, e.sent[i].reply, e.sent[i].result);
    AnswersAppend(a, e.end, ba, e.sent);
  }

  lemma AnswersAppend(a: End, b: End, ba: seq<Envelope<nat>>, more: seq<Envelope<nat>>)
    requires AnswersOk(a, b, ba)
    requires forall i :: 0 <= i < |more| && more[i].ResponseEnv? ==> AnswerTo(a, b, more[i].reply, more[i].result)
    ensures AnswersOk(a, b, ba + more)
  {}

  lemma ActKeepsInv(l: Link, op: Op)
    requires Inv(l)
    requires op.Receive? && op.env.ResponseEnv? ==> AnswerTo(l.a, l.b, op.env.reply, op.env.result)
    requires NextInLine(l.b, l.a, l.ba, op)
    ensures Inv(Act(l, op))
  {
    AskerStep(l.a, l.b, l.ab, l.ba, op, l.up);
    AnswererStep(l.b, l.a, l.ba, l.ab, op, l.up);
  }

  lemma DeliverKeepsInv(l: Link)
    requires Inv(l)
    ensures Inv(DeliverToA(l))
  {
    if l.ba != [] {
      var k := l.(ba := l.ba[1..]);
      assert forall i :: 0 <= i < |k.ba| ==> k.ba[i] == l.ba[i + 1];
      ActKeepsInv(k, Receive(l.ba[0]));
    }
  }

  lemma StepKeepsInv(l: Link, step: Step)
    requires Inv(l)
    ensures Inv(Apply(l, step))
  {
    match step
    case Local(A, op) => if !op.Receive? { ActKeepsInv(l, op); }
    case Local(B, op) => if !op.Receive? { ActKeepsInv(Swap(l), op); }
    case Deliver(A) => DeliverKeepsInv(l);
    case Deliver(B) => DeliverKeepsInv(Swap(l));
    case Cut =>
  }

  lemma {:induction false} RunKeepsInv(l: Link, steps: seq<Step>)
    requires Inv(l)
    ensures Inv(Run(l, steps))
    decreases |steps|
  {
    if steps != [] {
      StepKeepsInv(l, steps[0]);
      RunKeepsInv(Apply(l, steps[0]), steps[1..]);
    }
  }

  /** In every run, whichever end asks: a request resolved with v was answered by the peer's
      handler, run on exactly that request's event and data, with v. */
  lemma NoResponseCrosses(steps: seq<Step>, i: nat)
    ensures var l := Run(NEW_LINK, steps);
      && (i < |l.a.book.settled| && l.a.book.settled[i].outcome.Resolved? ==>
            RanFor(l.a, l.b, l.a.book.settled[i].id, Ok(l.a.book.settled[i].outcome.value)))
      && (i < |l.b.book.settled| && l.b.book.settled[i].outcome.Resolved? ==>
            RanFor(l.b, l.a, l.b.book.settled[i].id, Ok(l.b.book.settled[i].outcome.value)))
  {
    RunKeepsInv(NEW_LINK, steps);
  }

  /** Nothing else settles a request: every promise settled, at either end, was settled by the peer's answer
      to it, or rejected by its own timer, or by its channel's close. */
  lemma EverySettlementHasItsCause(steps: seq<Step>)
    ensures var l := Run(NEW_LINK, steps);
      && (forall i :: 0 <= i < |l.a.book.settled| ==> Caused(l.a, l.b, l.a.book.settled[i]))
      && (forall i :: 0 <= i < |l.b.book.settled| ==> Caused(l.b, l.a, l.b.book.settled[i]))
  {
    RunKeepsInv(NEW_LINK, steps);
  }

  /** No request has its handler started twice: open and finished runs never share an id, and
      every run is of a call the peer issued under that id. */
  lemma HandlersRunOncePerRequest(steps: seq<Step>)
    ensures var l := Run(NEW_LINK, steps); RunsOk(l.a, l.b) && RunsOk(l.b, l.a)
  {
    RunKeepsInv(NEW_LINK, steps);
  }

  // ---- No request is forgotten ----

  predicate Asking(ab: seq<Envelope<nat>>, id: nat) { exists e :: e in ab && e.RequestEnv? && e.id == id }

  predicate Running(b: End, id: nat) { exists j :: j in b.jobs && j.id == id }

  predicate Answering(ba: seq<Envelope<nat>>, id: nat) { exists e :: e in ba && e.ResponseEnv? && e.reply == id }

  /** What `a` waits for is on its way to `b`, or `b` has a handler running for it, or the answer is on its way. */
  ghost predicate Accounted(a: End, b: End, ab: seq<Envelope<nat>>, ba: seq<Envelope<nat>>) {
    forall id :: id in a.book.pending ==> Asking(ab, id) || Running(b, id) || Answering(ba, id)
  }

  ghost predicate AllAccounted(l: Link) {
    && EndOk(l.a) && EndOk(l.b)
    && (l.up ==> Accounted(l.a, l.b, l.ab, l.ba) && Accounted(l.b, l.a, l.ba, l.ab))
  }

  lemma HeadOrTail(s: seq<Envelope<nat>>)
    requires s != []
    ensures forall e :: e in s <==> e == s[0] || e in s[1..]
  {
    assert s == [s[0]] + s[1..];
  }

  lemma AskerActs(a: End, b: End, ab: seq<Envelope<nat>>, ba: seq<Envelope<nat>>, op: Op)
    requires EndOk(a) && Accounted(a, b, ab, ba) && !op.Receive?
    ensures var e := Next(a, op); Accounted(e.end, b, ab + e.sent, ba)
  {
    var e := Next(a, op);
    if op.Timeout? { TimeoutSettles(a, op.id); }
    if op.Request? && !a.closed { assert RequestEnv(a.nextId, op.call) in ab + e.sent; }
    forall id | id in e.end.book.pending ensures Asking(ab + e.sent, id) || Running(b, id) || Answering(ba, id) {
      if id in a.book.pending && Asking(ab, id) { assert forall x :: x in ab ==> x in ab + e.sent; }
    }
  }

  lemma AskerReceives(a: End, b: End, ab: seq<Envelope<nat>>, ba: seq<Envelope<nat>>)
    requires EndOk(a) && Accounted(a, b, ab, ba) && ba != []
    ensures var e := Next(a, Receive(ba[0])); Accounted(e.end, b, ab + e.sent, ba[1..])
  {
    var e := Next(a, Receive(ba[0]));
    HeadOrTail(ba);
    if ba[0].ResponseEnv? {
      SettleSound(a.book, IdsBelow(a.nextId), ba[0].reply,
                  if ba[0].result.Ok? then Resolved(ba[0].result.data) else Rejected(ba[0].result.error));
    }
    assert forall id :: id in e.end.book.pending ==> id in a.book.pending;
    forall id | id in e.end.book.pending ensures Asking(ab + e.sent, id) || Running(b, id) || Answering(ba[1..], id) {
      if Asking(ab, id) { assert forall x :: x in ab ==> x in ab + e.sent; }
    }
  }

  lemma AnswererActs(a: End, b: End, ab: seq<Envelope<nat>>, ba: seq<Envelope<nat>>, op: Op)
    requires Accounted(a, b, ab, ba) && !op.Receive?
    ensures var e := Next(b, op); Accounted(a, e.end, ab, ba + e.sent)
  {
    var e := Next(b, op);
    forall id | id in a.book.pending ensures Asking(ab, id) || Running(e.end, id) || Answering(ba + e.sent, id) {
      if Answering(ba, id) { assert forall x :: x in ba ==> x in ba + e.sent; }
      if Running(b, id) && op.HandlerDone? && op.index < |b.jobs| {
        var done := b.jobs[op.index];
        assert ResponseEnv(done.id, op.result) in ba + e.sent;
        var j :| j in b.jobs && j.id == id;
        if j != done { assert j in b.jobs[..op.index] || j in b.jobs[op.index + 1..]; }
      }
    }
  }

  lemma AnswererReceives(a: End, b: End, ab: seq<Envelope<nat>>, ba: seq<Envelope<nat>>)
    requires Accounted(a, b, ab, ba) && ab != []
    ensures var e := Next(b, Receive(ab[0])); Accounted(a, e.end, ab[1..], ba + e.sent)
  {
    var e := Next(b, Receive(ab[0]));
    HeadOrTail(ab);
    forall id | id in a.book.pending ensures Asking(ab[1..], id) || Running(e.end, id) || Answering(ba + e.sent, id) {
      if Answering(ba, id) { assert forall x :: x in ba ==> x in ba + e.sent; }
      if Running(b, id) { assert forall j :: j in b.jobs ==> j in e.end.jobs; }
      if ab[0].RequestEnv? && ab[0].id == id {
        var call := ab[0].call;
        assert call.name in b.handlers ==> Job(id, call) in e.end.jobs;
        assert call.name !in b.handlers ==> ResponseEnv(id, Err("Unknown method: " + call.name)) in ba + e.sent;
      }
    }
  }

  lemma ActAccounts(l: Link, op: Op)
    requires AllAccounted(l) && !op.Receive?
    ensures AllAccounted(Act(l, op))
  {
    StepKeepsEnd(l.a, op);
    if l.up {
      AskerActs(l.a, l.b, l.ab, l.ba, op);
      AnswererActs(l.b, l.a, l.ba, l.ab, op);
    }
  }

  lemma DeliverAccounts(l: Link)
    requires AllAccounted(l)
    ensures AllAccounted(DeliverToA(l))
  {
    if l.ba != [] {
      StepKeepsEnd(l.a, Receive(l.ba[0]));
      if l.up {
        AskerReceives(l.a, l.b, l.ab, l.ba);
        AnswererReceives(l.b, l.a, l.ba, l.ab);
      }
    }
  }

  lemma StepAccounts(l: Link, step: Step)
    requires AllAccounted(l)
    ensures AllAccounted(Apply(l, step))
  {
    match step
    case Local(A, op) => if !op.Receive? { ActAccounts(l, op); }
    case Local(B, op) => if !op.Receive? { ActAccounts(Swap(l), op); }
    case Deliver(A) => DeliverAccounts(l);
    case Deliver(B) => DeliverAccounts(Swap(l));
    case Cut =>
  }

  lemma {:induction false} RunAccounts(l: Link, steps: seq<Step>)
    requires AllAccounted(l)
    ensures AllAccounted(Run(l, steps))
    decreases |steps|
  {
    if steps != [] {
      StepAccounts(l, steps[0]);
      RunAccounts(Apply(l, steps[0]), steps[1..]);
    }
  }

  /** In every run, as long as the link is up: a pending request is on its way, or has its handler running, or
      its answer is on its way. So once nothing is on the way and no handler runs, every request has ended. */
  lemma NoRequestIsForgotten(steps: seq<Step>)
    ensures var l := Run(NEW_LINK, steps);
      l.up ==>
        && (forall id :: id in l.a.book.pending ==> Asking(l.ab, id) || Running(l.b, id) || Answering(l.ba, id))
        && (forall id :: id in l.b.book.pending ==> Asking(l.ba, id) || Running(l.a, id) || Answering(l.ab, id))
        && (l.ab == [] && l.ba == [] && l.a.jobs == [] && l.b.jobs == [] ==>
              l.a.book.pending == [] && l.b.book.pending == [])
  {
    assert EndOk(NEW_END) by { assert Ids(NEW_END.book.settled) == []; }
    RunAccounts(NEW_LINK, steps);
    var l := Run(NEW_LINK, steps);
    assert l.a.book.pending != [] ==> l.a.book.pending[0] in l.a.book.pending;
    assert l.b.book.pending != [] ==> l.b.book.pending[0] in l.b.book.pending;
  }

  lemma {:induction false} StaysCut(l: Link, steps: seq<Step>)
    requires !l.up && l.ab == [] && l.ba == []
    ensures var m := Run(l, steps);
      !m.up && m.ab == [] && m.ba == [] && m.a.seen == l.a.seen && m.b.seen == l.b.seen
    decreases |steps|
  {
    if steps != [] { StaysCut(Apply(l, steps[0]), steps[1..]); }
  }

  /** What a cut takes is gone: neither end is handed anything any more, so none of its requests is answered and
      no handler starts; timers and closes still end what is pending. */
  lemma AfterACut(l: Link, steps: seq<Step>)
    ensures var m := Run(Apply(l, Cut), steps);
      !m.up && m.ab == [] && m.ba == [] && m.a.seen == l.a.seen && m.b.seen == l.b.seen
  {
    StaysCut(Apply(l, Cut), steps);
  }

  // ---- There and back ----

  lemma RunFour(l: Link, w: Step, x: Step, y: Step, z: Step)
    ensures Run(l, [w, x, y, z]) == Apply(Apply(Apply(Apply(l, w), x), y), z)
  {
    var l1, l2, l3 := Apply(l, w), Apply(Apply(l, w), x), Apply(Apply(Apply(l, w), x), y);
    assert [w, x, y, z][1..] == [x, y, z] && [x, y, z][1..] == [y, z] && [y, z][1..] == [z];
    assert Run(l3, [z]) == Run(Apply(l3, z), []);
    assert Run(l2, [y, z]) == Run(l3, [z]);
    assert Run(l1, [x, y, z]) == Run(l2, [y, z]);
  }

  /** A request to a peer that has registered a handler for it ends as the handler does: with its value, or its
      error. */
  lemma RequestIsAnswered(l: Link, call: Event, result: RpcResult, outcome: Outcome)
    requires l.up && l.ab == [] && l.ba == [] && EndOk(l.a) && !l.a.closed && Ends(result, outcome)
    ensures var m := Run(Apply(l, Local(B, OnRequest(call.name))),
        [Local(A, Request(call)), Deliver(B), Local(B, HandlerDone(|l.b.jobs|, result)), Deliver(A)]);
      && m.a.book.settled == l.a.book.settled + [Settlement(l.a.nextId, outcome)]
      && (forall id :: id in m.a.book.pending <==> id in l.a.book.pending)
      && m.ab == [] && m.ba == [] && m.b.jobs == l.b.jobs && m.b.ran == l.b.ran[l.a.nextId := Ran(call, result)]
  {
    var id, l1 := l.a.nextId, Apply(l, Local(B, OnRequest(call.name)));
    var l2 := Apply(l1, Local(A, Request(call)));
    var l3 := Apply(l2, Deliver(B));
    var l4 := Apply(l3, Local(B, HandlerDone(|l.b.jobs|, result)));
    assert l2.ab == [RequestEnv(id, call)] && l2.ba == [];
    assert l3.b.jobs == l.b.jobs + [Job(id, call)] && l3.ab == [] && l3.ba == [];
    assert l4.b.jobs == l.b.jobs && l4.ba == [ResponseEnv(id, result)] && l4.a == l2.a && l4.ab == [];
    RequestKeepsEnd(l.a, call);
    ResponseSettles(l4.a, id, result, outcome);
    SettledOnce(l.a.book, IdsBelow(id));
    RunFour(l1, Local(A, Request(call)), Deliver(B), Local(B, HandlerDone(|l.b.jobs|, result)), Deliver(A));
  }

  /** A request to a peer that has taken its handler off is rejected with the name of the method. */
  lemma UnknownMethodIsRejected(l: Link, call: Event)
    requires l.up && l.ab == [] && l.ba == [] && EndOk(l.a) && !l.a.closed
    ensures var m := Run(l, [Local(B, OffRequest(call.name)), Local(A, Request(call)), Deliver(B), Deliver(A)]);
      && m.a.book.settled ==
           l.a.book.settled + [Settlement(l.a.nextId, Rejected("Unknown method: " + call.name))]
      && m.ab == [] && m.ba == [] && m.b.jobs == l.b.jobs && m.b.ran == l.b.ran
  {
    var id, text := l.a.nextId, "Unknown method: " + call.name;
    var l1 := Apply(l, Local(B, OffRequest(call.name)));
    var l2 := Apply(l1, Local(A, Request(call)));
    var l3 := Apply(l2, Deliver(B));
    assert l1 == l.(b := l.b.(handlers := l.b.handlers - {call.name}));
    assert l2.a == Next(l.a, Request(call)).end && l2.b == l1.b && l2.up;
    assert l2.ab == [RequestEnv(id, call)] && l2.ba == [];
    assert l3.ba == [ResponseEnv(id, Err(text))] && l3.a == l2.a && l3.ab == [];
    RequestKeepsEnd(l.a, call);
    ResponseSettles(l3.a, id, Err(text), Rejected(text));
    RunFour(l, Local(B, OffRequest(call.name)), Local(A, Request(call)), Deliver(B), Deliver(A));
  }
}
