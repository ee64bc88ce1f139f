/** packages/transport/src/ws-client.ts: outbox, pending requests, reconnect and the
    client's side of incoming requests. */
module WsClientModel {
  import opened Wire
  import opened Promises
  import ReconnectSession

  datatype Phase = NoSocket | Connecting | Open | Closing | Closed

  datatype Queued = QEvent(call: Event) | QRequest(id: string, call: Event)

  /** An envelope on one of the connections, which are numbered as they are opened. */
  datatype OnWire = OnWire(conn: nat, env: Envelope<string>)

  datatype Job = Job(conn: nat, id: string)

  /** The fields of the client, then its history: the events handed to the listeners, what was
      sent over the sockets, what was issued through `emit` and `request`, the positions of the issues an
      overflow evicted,
      and the requests the server has asked. */
  datatype Client = Client(
    limit: nat, phase: Phase, conn: nat, explicitlyClosed: bool, timer: bool,
    outbox: seq<Queued>, book: Book<string>, lastSeq: nat, jobs: seq<Job>,
    received: seq<Event>, wire: seq<OnWire>,
    issued: seq<Queued>, evicted: set<nat>, asked: set<Job>)

  datatype Op =
    | ConnectCall
    | Opened
    | StartsClosing               // readyState leaves OPEN before the close event
    | CloseEvent
    | TimerFires
    | Emit(call: Event)
    | Request(id: string, call: Event)
    | Message(env: Envelope<string>, handled: bool)  // handled: a handler is registered
    | HandlerDone(index: nat, result: RpcResult)
    | Disconnect

  function Init(limit: nat): Client {
    Client(limit, NoSocket, 0, false, false, [], Book([], []), 0, [], [], [], [], {}, {})
  }

  function ToEnvelope(q: Queued): Envelope<string> {
    match q
    case QEvent(call) => EventEnv(0, call)
    case QRequest(id, call) => RequestEnv(id, call)
  }

  function ToWire(conn: nat, qs: seq<Queued>): seq<OnWire> {
    seq(|qs|, i requires 0 <= i < |qs| => OnWire(conn, ToEnvelope(qs[i])))
  }

  /** `enqueue`: a full outbox evicts its oldest entry, and a pending request with it. */
  function PushOutbox(c: Client, q: Queued): Client {
    var d :=
      if |c.outbox| >= c.limit && c.outbox != [] && |c.outbox| <= |c.issued| then
        c.(outbox := c.outbox[1..], evicted := c.evicted + {|c.issued| - |c.outbox|},
           book := if c.outbox[0].QRequest? then Settle(c.book, c.outbox[0].id, Rejected("outbox overflow"))
                   else c.book)
      else c;
    d.(outbox := d.outbox + [q], issued := d.issued + [q])
  }

  function Issue(c: Client, q: Queued): Client {
    if c.phase.Open? then c.(wire := c.wire + ToWire(c.conn, [q]), issued := c.issued + [q])
    else PushOutbox(c, q)
  }

  function OpenSocket(c: Client): Client {
    c.(phase := Connecting, conn := c.conn + 1, timer := false)
  }

  /** Resume first, then everything that waited. */
  function HandleOpen(c: Client): Client {
    c.(phase := Open,
       wire := c.wire + [OnWire(c.conn, ResumeEnv(c.lastSeq))] + ToWire(c.conn, c.outbox),
       outbox := [])
  }

  function HandleMessage(c: Client, env: Envelope<string>, handled: bool): Client {
    match env
    case EventEnv(num, event) =>
      c.(lastSeq := if num > c.lastSeq then num else c.lastSeq, received := c.received + [event])
    case ResponseEnv(id, Ok(data)) => c.(book := Settle(c.book, id, Resolved(data)))
    case ResponseEnv(id, Err(error)) => c.(book := Settle(c.book, id, Rejected(error)))
    case RequestEnv(id, call) =>
      if !c.phase.Open? then c
      else
        var d := c.(asked := c.asked + {Job(c.conn, id)});
        if handled then d.(jobs := d.jobs + [Job(c.conn, id)])
        else d.(wire := d.wire + [OnWire(c.conn, ResponseEnv(id, Err("Unknown method: " + call.name)))])
    case _ => c
  }

  /** The response goes out only while the connection its request came in on is still open. */
  function FinishJob(c: Client, i: nat, result: RpcResult): Client
    requires i < |c.jobs|
  {
    var d := c.(jobs := c.jobs[..i] + c.jobs[i + 1..]);
    if c.jobs[i].conn == c.conn && c.phase.Open?
    then d.(wire := d.wire + [OnWire(c.conn, ResponseEnv(c.jobs[i].id, result))])
    else d
  }

  function Next(c: Client, op: Op): Client {
    match op
    case ConnectCall => if c.phase.NoSocket? || c.phase.Closed? then OpenSocket(c.(explicitlyClosed := false)) else c
    case Opened => if c.phase.Connecting? then HandleOpen(c) else c
    case StartsClosing => if c.phase.Open? then c.(phase := Closing) else c
    case CloseEvent =>
      if c.phase.NoSocket? || c.phase.Closed? then c
      else c.(phase := Closed, timer := !c.explicitlyClosed)
    case TimerFires => if c.timer then OpenSocket(c) else c
    case Emit(call) => Issue(c, QEvent(call))
    case Request(id, call) => Issue(c.(book := Await(c.book, id)), QRequest(id, call))
    case Message(env, handled) => if c.phase.Open? || c.phase.Closing? then HandleMessage(c, env, handled) else c
    case HandlerDone(i, result) => if i < |c.jobs| then FinishJob(c, i, result) else c
    case Disconnect =>
      c.(explicitlyClosed := true, timer := false, phase := NoSocket,
         book := SettleAll(c.book, Rejected("disconnected")))
  }

  function Run(c: Client, ops: seq<Op>): Client
    decreases |ops|
  {
    if ops == [] then c else Run(Next(c, ops[0]), ops[1..])
  }

  // ---- The invariant ----

  /** What went out for the application: everything but resumes and responses. */
  function Payload(wire: seq<OnWire>): seq<Envelope<string>> {
    if wire == [] then []
    else
      var last := wire[|wire| - 1].env;
      Payload(wire[..|wire| - 1]) + (if last.EventEnv? || last.RequestEnv? then [last] else [])
  }

  function RequestIds(issued: seq<Queued>): set<string> {
    set i | 0 <= i < |issued| && issued[i].QRequest? :: issued[i].id
  }

  /** The issues that were not evicted, in issue order. */
  function Kept(issued: seq<Queued>, evicted: set<nat>): seq<Queued> {
    if issued == [] then []
    else
      var n := |issued| - 1;
      Kept(issued[..n], evicted) + (if n in evicted then [] else [issued[n]])
  }

  function Envelopes(qs: seq<Queued>): seq<Envelope<string>> {
    seq(|qs|, i requires 0 <= i < |qs| => ToEnvelope(qs[i]))
  }

  /** The outbox is the newest part of what was issued; everything older was evicted or has
      gone out, in issue order, over one connection after another. */
  ghost predicate Queue(limit: nat, outbox: seq<Queued>, issued: seq<Queued>, evicted: set<nat>,
                        payload: seq<Envelope<string>>)
  {
    var m := |issued| - |outbox|;
    && 0 <= m && outbox == issued[m..]
    && (forall i :: i in evicted ==> i < m)
    && payload == Envelopes(Kept(issued[..m], evicted))
    && |outbox| <= (if limit == 0 then 1 else limit)
  }

  ghost predicate QueueOk(c: Client) {
    && Queue(c.limit, c.outbox, c.issued, c.evicted, Payload(c.wire))
    && (c.phase.Open? ==> c.outbox == [])
  }

  /** A response goes out on the connection its request came in on. */
  ghost predicate RepliesOk(c: Client) {
    && (forall j :: j in c.jobs ==> j in c.asked)
    && (forall w :: w in c.wire && w.env.ResponseEnv? ==> Job(w.conn, w.env.reply) in c.asked)
  }

  /** Each request is pending or settled once; an evicted one is not pending. */
  ghost predicate Books(book: Book<string>, issued: seq<Queued>, evicted: set<nat>) {
    && Sound(book, RequestIds(issued))
    && (forall i, j :: 0 <= i < j < |issued| && issued[i].QRequest? && issued[j].QRequest? ==>
        issued[i].id != issued[j].id)
    && (forall i :: i in evicted && i < |issued| && issued[i].QRequest? ==> issued[i].id !in book.pending)
  }

  ghost predicate BookOk(c: Client) { Books(c.book, c.issued, c.evicted) }

  ghost predicate Inv(c: Client) { QueueOk(c) && RepliesOk(c) && BookOk(c) }

  lemma {:induction false} PayloadAppend(a: seq<OnWire>, b: seq<OnWire>)
    ensures Payload(a + b) == Payload(a) + Payload(b)
    decreases |b|
  {
    if b == [] {
      assert a + b == a;
    } else {
      var n := |b| - 1;
      assert (a + b)[..|a + b| - 1] == a + b[..n];
      PayloadAppend(a, b[..n]);
    }
  }

  lemma {:induction false} PayloadToWire(conn: nat, qs: seq<Queued>)
    ensures Payload(ToWire(conn, qs)) == Envelopes(qs)
    decreases |qs|
  {
    if qs != [] {
      var n := |qs| - 1;
      assert ToWire(conn, qs)[..n] == ToWire(conn, qs[..n]);
      PayloadToWire(conn, qs[..n]);
    }
  }

  lemma {:induction false} KeptAgree(a: seq<Queued>, evicted: set<nat>, evicted': set<nat>)
    requires forall i :: 0 <= i < |a| ==> (i in evicted <==> i in evicted')
    ensures Kept(a, evicted') == Kept(a, evicted)
    decreases |a|
  {
    if a != [] { KeptAgree(a[..|a| - 1], evicted, evicted'); }
  }

  /** The newest issues were not evicted: flushing them keeps all of them. */
  lemma {:induction false} KeptAppend(a: seq<Queued>, b: seq<Queued>, evicted: set<nat>)
    requires forall i :: i in evicted ==> i < |a|
    ensures Kept(a + b, evicted) == Kept(a, evicted) + b
    decreases |b|
  {
    if b == [] {
      assert a + b == a;
    } else {
      var n := |b| - 1;
      assert (a + b)[..|a + b| - 1] == a + b[..n];
      KeptAppend(a, b[..n], evicted);
    }
  }

  lemma EnvelopesAppend(a: seq<Queued>, b: seq<Queued>)
    ensures Envelopes(a + b) == Envelopes(a) + Envelopes(b)
  {}

  lemma RequestIdsAppend(issued: seq<Queued>, q: Queued)
    ensures RequestIds(issued + [q]) == RequestIds(issued) + (if q.QRequest? then {q.id} else {})
  {
    var more := issued + [q];
    assert forall i :: 0 <= i < |issued| ==> more[i] == issued[i];
    assert q.QRequest? ==> more[|issued|].id == q.id;
  }

  // ---- Every operation keeps it ----

  /** Random request ids do not repeat; nothing else is asked of an operation. */
  predicate Fresh(c: Client, op: Op) { op.Request? ==> op.id !in RequestIds(c.issued) }

  lemma QueueFlush(limit: nat, outbox: seq<Queued>, issued: seq<Queued>, evicted: set<nat>,
      payload: seq<Envelope<string>>)
    requires Queue(limit, outbox, issued, evicted, payload)
    ensures Queue(limit, [], issued, evicted, payload + Envelopes(outbox))
  {
    var m := |issued| - |outbox|;
    KeptAppend(issued[..m], outbox, evicted);
    EnvelopesAppend(Kept(issued[..m], evicted), outbox);
    assert issued[..m] + outbox == issued;
    assert issued[..|issued|] == issued && issued[|issued|..] == [];
  }

  lemma QueueSend(limit: nat, issued: seq<Queued>, evicted: set<nat>, payload: seq<Envelope<string>>, q: Queued)
    requires Queue(limit, [], issued, evicted, payload)
    ensures Queue(limit, [], issued + [q], evicted, payload + Envelopes([q]))
  {
    KeptAppend(issued, [q], evicted);
    EnvelopesAppend(Kept(issued, evicted), [q]);
    assert issued[..|issued|] == issued;
    assert (issued + [q])[..|issued| + 1] == issued + [q];
  }

  lemma QueueWait(limit: nat, outbox: seq<Queued>, issued: seq<Queued>, evicted: set<nat>,
      payload: seq<Envelope<string>>, q: Queued)
    requires Queue(limit, outbox, issued, evicted, payload) && (|outbox| < limit || outbox == [])
    ensures Queue(limit, outbox + [q], issued + [q], evicted, payload)
  {
    var m := |issued| - |outbox|;
    assert (issued + [q])[..m] == issued[..m];
  }

  lemma QueueEvict(limit: nat, outbox: seq<Queued>, issued: seq<Queued>, evicted: set<nat>,
      payload: seq<Envelope<string>>)
    requires Queue(limit, outbox, issued, evicted, payload) && outbox != []
    ensures Queue(limit, outbox[1..], issued, evicted + {|issued| - |outbox|}, payload)
  {
    var m := |issued| - |outbox|;
    assert issued[..m + 1][..m] == issued[..m];
    KeptAgree(issued[..m], evicted, evicted + {m});
  }

  lemma SendKeepsQueue(c: Client, q: Queued)
    requires QueueOk(c) && c.phase.Open?
    ensures QueueOk(Issue(c, q))
  {
    PayloadAppend(c.wire, ToWire(c.conn, [q]));
    PayloadToWire(c.conn, [q]);
    QueueSend(c.limit, c.issued, c.evicted, Payload(c.wire), q);
  }

  lemma EvictKeepsQueue(c: Client, q: Queued)
    requires QueueOk(c) && !c.phase.Open? && |c.outbox| >= c.limit && c.outbox != []
    ensures QueueOk(Issue(c, q))
  {
    var d, m := Issue(c, q), |c.issued| - |c.outbox|;
    QueueEvict(c.limit, c.outbox, c.issued, c.evicted, Payload(c.wire));
    QueueWait(c.limit, c.outbox[1..], c.issued, c.evicted + {m}, Payload(c.wire), q);
    assert d.outbox == c.outbox[1..] + [q] && d.issued == c.issued + [q] && d.evicted == c.evicted + {m};
  }

  lemma WaitKeepsQueue(c: Client, q: Queued)
    requires QueueOk(c) && !c.phase.Open? && (|c.outbox| < c.limit || c.outbox == [])
    ensures QueueOk(Issue(c, q))
  {
    QueueWait(c.limit, c.outbox, c.issued, c.evicted, Payload(c.wire), q);
  }

  lemma IssueKeepsQueue(c: Client, q: Queued)
    requires QueueOk(c)
    ensures QueueOk(Issue(c, q))
  {
    if c.phase.Open? { SendKeepsQueue(c, q); }
    else if |c.outbox| >= c.limit && c.outbox != [] { EvictKeepsQueue(c, q); }
    else { WaitKeepsQueue(c, q); }
  }

  lemma OpenPayload(c: Client)
    ensures Payload(HandleOpen(c).wire) == Payload(c.wire) + Envelopes(c.outbox)
  {
    var resume := [OnWire(c.conn, ResumeEnv(c.lastSeq))];
    PayloadAppend(c.wire + resume, ToWire(c.conn, c.outbox));
    PayloadAppend(c.wire, resume);
    assert Payload(resume) == [] by { assert resume[..0] == []; }
    PayloadToWire(c.conn, c.outbox);
  }

  lemma ReplyPayload(wire: seq<OnWire>, w: OnWire)
    requires w.env.ResponseEnv?
    ensures Payload(wire + [w]) == Payload(wire)
  {
    assert (wire + [w])[..|wire|] == wire;
  }

  lemma OpenedKeepsQueue(c: Client)
    requires QueueOk(c) && c.phase.Connecting?
    ensures QueueOk(HandleOpen(c))
  {
    OpenPayload(c);
    QueueFlush(c.limit, c.outbox, c.issued, c.evicted, Payload(c.wire));
  }

  lemma ReplyKeepsQueue(c: Client, w: OnWire)
    requires QueueOk(c) && w.env.ResponseEnv?
    ensures QueueOk(c.(wire := c.wire + [w]))
  {
    ReplyPayload(c.wire, w);
  }

  lemma MessageKeepsQueue(c: Client, env: Envelope<string>, handled: bool)
    requires QueueOk(c)
    ensures QueueOk(HandleMessage(c, env, handled))
  {
    match env
    case RequestEnv(id, call) => ReplyKeepsQueue(c, OnWire(c.conn, ResponseEnv(id,
        Err("Unknown method: " + call.name))));
    case _ =>
  }

  lemma FinishJobKeepsQueue(c: Client, i: nat, result: RpcResult)
    requires QueueOk(c) && i < |c.jobs|
    ensures QueueOk(FinishJob(c, i, result))
  {
    var d := c.(jobs := c.jobs[..i] + c.jobs[i + 1..]);
    assert QueueOk(d);
    ReplyKeepsQueue(d, OnWire(c.conn, ResponseEnv(c.jobs[i].id, result)));
  }

  lemma StepKeepsQueue(c: Client, op: Op)
    requires QueueOk(c)
    ensures QueueOk(Next(c, op))
  {
    match op
    case Opened => if c.phase.Connecting? { OpenedKeepsQueue(c); }
    case Emit(call) => IssueKeepsQueue(c, QEvent(call));
    case Request(id, call) => IssueKeepsQueue(c.(book := Await(c.book, id)), QRequest(id, call));
    case Message(env, handled) => MessageKeepsQueue(c, env, handled);
    case HandlerDone(i, result) => if i < |c.jobs| { FinishJobKeepsQueue(c, i, result); }
    case _ =>
  }

  lemma AwaitKeepsBook(book: Book<string>, issued: seq<Queued>, evicted: set<nat>, id: string, call: Event)
    requires Books(book, issued, evicted) && id !in RequestIds(issued) && forall i :: i in evicted ==> i < |issued|
    ensures Books(Await(book, id), issued + [QRequest(id, call)], evicted)
  {
    RequestIdsAppend(issued, QRequest(id, call));
    AwaitSound(book, RequestIds(issued), id);
    forall i | 0 <= i < |issued| && issued[i].QRequest? ensures issued[i].id != id {
      assert issued[i].id in RequestIds(issued);
    }
  }

  lemma EventKeepsBook(book: Book<string>, issued: seq<Queued>, evicted: set<nat>, call: Event)
    requires Books(book, issued, evicted) && forall i :: i in evicted ==> i < |issued|
    ensures Books(book, issued + [QEvent(call)], evicted)
  {
    RequestIdsAppend(issued, QEvent(call));
  }

  lemma EvictKeepsBook(book: Book<string>, issued: seq<Queued>, evicted: set<nat>, i: nat)
    requires Books(book, issued, evicted) && i < |issued|
    ensures Books(if issued[i].QRequest? then Settle(book, issued[i].id, Rejected("outbox overflow")) else book,
                  issued, evicted + {i})
  {
    if issued[i].QRequest? { SettleSound(book, RequestIds(issued), issued[i].id, Rejected("outbox overflow")); }
  }

  lemma IssueKeepsBook(c: Client, q: Queued)
    requires QueueOk(c) && Books(c.book, c.issued + [q], c.evicted)
    ensures BookOk(Issue(c, q))
  {
    var m := |c.issued| - |c.outbox|;
    if !c.phase.Open? && |c.outbox| >= c.limit && c.outbox != [] {
      assert c.outbox[0] == (c.issued + [q])[m];
      EvictKeepsBook(c.book, c.issued + [q], c.evicted, m);
    }
  }

  lemma RequestKeepsBook(c: Client, id: string, call: Event)
    requires BookOk(c) && QueueOk(c) && id !in RequestIds(c.issued)
    ensures BookOk(Issue(c.(book := Await(c.book, id)), QRequest(id, call)))
  {
    AwaitKeepsBook(c.book, c.issued, c.evicted, id, call);
    IssueKeepsBook(c.(book := Await(c.book, id)), QRequest(id, call));
  }

  lemma EmitKeepsBook(c: Client, call: Event)
    requires BookOk(c) && QueueOk(c)
    ensures BookOk(Issue(c, QEvent(call)))
  {
    EventKeepsBook(c.book, c.issued, c.evicted, call);
    IssueKeepsBook(c, QEvent(call));
  }

  lemma MessageKeepsBook(c: Client, env: Envelope<string>, handled: bool)
    requires BookOk(c)
    ensures BookOk(HandleMessage(c, env, handled))
  {
    match env
    case ResponseEnv(id, Ok(data)) => SettleSound(c.book, RequestIds(c.issued), id, Resolved(data));
    case ResponseEnv(id, Err(error)) => SettleSound(c.book, RequestIds(c.issued), id, Rejected(error));
    case _ =>
  }

  lemma OthersLeaveBook(c: Client, op: Op)
    requires !op.Emit? && !op.Request? && !op.Message? && !op.Disconnect?
    ensures var d := Next(c, op); d.book == c.book && d.issued == c.issued && d.evicted == c.evicted
  {}

  lemma DisconnectKeepsBook(c: Client)
    requires BookOk(c)
    ensures BookOk(Next(c, Disconnect))
  {
    SettleAllSound(c.book, RequestIds(c.issued), Rejected("disconnected"));
  }

  lemma StepKeepsBook(c: Client, op: Op)
    requires BookOk(c) && QueueOk(c) && Fresh(c, op)
    ensures BookOk(Next(c, op))
  {
    match op
    case Emit(call) => EmitKeepsBook(c, call);
    case Request(id, call) => RequestKeepsBook(c, id, call);
    case Message(env, handled) => MessageKeepsBook(c, env, handled);
    case Disconnect => DisconnectKeepsBook(c);
    case _ => OthersLeaveBook(c, op);
  }

  lemma MessageKeepsReplies(c: Client, env: Envelope<string>, handled: bool)
    requires RepliesOk(c)
    ensures RepliesOk(HandleMessage(c, env, handled))
  {}

  lemma IssueKeepsReplies(c: Client, q: Queued)
    requires RepliesOk(c)
    ensures RepliesOk(Issue(c, q))
  {}

  lemma StepKeepsReplies(c: Client, op: Op)
    requires RepliesOk(c)
    ensures RepliesOk(Next(c, op))
  {
    match op
    case Emit(call) => IssueKeepsReplies(c, QEvent(call));
    case Request(id, call) => IssueKeepsReplies(c.(book := Await(c.book, id)), QRequest(id, call));
    case Message(env, handled) => MessageKeepsReplies(c, env, handled);
    case HandlerDone(i, _) => if i < |c.jobs| { assert c.jobs[i] in c.jobs; }
    case _ =>
  }

  // ---- Main results, over every run ----

  predicate FreshRun(c: Client, ops: seq<Op>)
    decreases |ops|
  {
    ops == [] || (Fresh(c, ops[0]) && FreshRun(Next(c, ops[0]), ops[1..]))
  }

  lemma {:induction false} RunKeepsInv(c: Client, ops: seq<Op>)
    requires Inv(c) && FreshRun(c, ops)
    ensures Inv(Run(c, ops))
    decreases |ops|
  {
    if ops != [] {
      StepKeepsQueue(c, ops[0]);
      StepKeepsBook(c, ops[0]);
      StepKeepsReplies(c, ops[0]);
      RunKeepsInv(Next(c, ops[0]), ops[1..]);
    }
  }

  lemma InitInv(limit: nat)
    ensures Inv(Init(limit))
  {
    var c := Init(limit);
    assert RequestIds(c.issued) == {} && Ids(c.book.settled) == [];
    assert Payload(c.wire) == [] == Envelopes(Kept(c.issued, c.evicted));
    assert c.issued[..0] == c.issued;
    assert QueueOk(c) && BookOk(c);
  }

  /** The envelope carries what was issued. */
  predicate Carries(env: Envelope<string>, q: Queued) {
    match q
    case QEvent(call) => env == EventEnv(0, call)
    case QRequest(id, call) => env == RequestEnv(id, call)
  }

  lemma EnvelopesCarry(qs: seq<Queued>)
    ensures |Envelopes(qs)| == |qs| && forall i :: 0 <= i < |qs| ==> Carries(Envelopes(qs)[i], qs[i])
  {}

  /** Every event and request ever issued is in exactly one place: the outbox holds the newest,
      and of the older ones those not evicted went out, in issue order, each once. With a
      limit of at least 1 the outbox stays within it, and it is empty while the socket is open. */
  lemma IssuesAreConserved(limit: nat, ops: seq<Op>)
    requires FreshRun(Init(limit), ops)
    ensures var c := Run(Init(limit), ops);
      var m := |c.issued| - |c.outbox|;
      && 0 <= m && c.outbox == c.issued[m..]
      && (forall i :: i in c.evicted ==> i < m)
      && Payload(c.wire) == Envelopes(Kept(c.issued[..m], c.evicted))
      && |Payload(c.wire)| == |Kept(c.issued[..m], c.evicted)|
      && (forall i :: 0 <= i < |Payload(c.wire)| ==> Carries(Payload(c.wire)[i], Kept(c.issued[..m], c.evicted)[i]))
      && (c.limit >= 1 ==> |c.outbox| <= c.limit)
      && (c.phase.Open? ==> c.outbox == [])
  {
    InitInv(limit);
    RunKeepsInv(Init(limit), ops);
    var c := Run(Init(limit), ops);
    assert QueueOk(c);
    EnvelopesCarry(Kept(c.issued[..|c.issued| - |c.outbox|], c.evicted));
  }

  /** No request is settled twice or both settled and pending, none is forgotten, and one
      still pending was not evicted: it waits in the outbox or has gone out. */
  lemma RequestsSettleOnce(limit: nat, ops: seq<Op>)
    requires FreshRun(Init(limit), ops)
    ensures var c := Run(Init(limit), ops);
      && (forall i, j :: 0 <= i < j < |c.book.settled| ==> c.book.settled[i].id != c.book.settled[j].id)
      && (forall i :: 0 <= i < |c.book.settled| ==> c.book.settled[i].id !in c.book.pending)
      && (forall id :: id in RequestIds(c.issued) ==> id in c.book.pending || id in Ids(c.book.settled))
      && (forall id :: id in c.book.pending ==>
            exists i :: 0 <= i < |c.issued| && c.issued[i].QRequest? && c.issued[i].id == id && i !in c.evicted)
  {
    InitInv(limit);
    RunKeepsInv(Init(limit), ops);
    var c := Run(Init(limit), ops);
    SettledOnce(c.book, RequestIds(c.issued));
    forall id | id in c.book.pending
      ensures exists i :: 0 <= i < |c.issued| && c.issued[i].QRequest? && c.issued[i].id == id && i !in c.evicted
    {
      assert id in RequestIds(c.issued);
      var i :| 0 <= i < |c.issued| && c.issued[i].QRequest? && c.issued[i].id == id;
      assert i !in c.evicted;
    }
  }

  /** A response to the server leaves on the connection that carried the request. */
  lemma RepliesStayOnTheirConnection(limit: nat, ops: seq<Op>)
    requires FreshRun(Init(limit), ops)
    ensures var c := Run(Init(limit), ops);
      forall w :: w in c.wire && w.env.ResponseEnv? ==> Job(w.conn, w.env.reply) in c.asked
  {
    InitInv(limit);
    RunKeepsInv(Init(limit), ops);
  }

  lemma IssueOnlyAdds(c: Client, q: Queued)
    ensures var d := Issue(c, q);
      c.book.settled <= d.book.settled && c.wire <= d.wire && c.issued <= d.issued && c.evicted <= d.evicted
  {}

  lemma MessageOnlyAdds(c: Client, env: Envelope<string>, handled: bool)
    ensures var d := HandleMessage(c, env, handled);
      c.book.settled <= d.book.settled && c.wire <= d.wire && c.issued == d.issued && c.evicted == d.evicted
  {}

  /** What has gone out and what has been settled is never taken back; disconnecting leaves
      nothing pending, but losing a connection and opening the next settle no promise. */
  lemma StepOnlyAdds(c: Client, op: Op)
    ensures var d := Next(c, op);
      && c.book.settled <= d.book.settled && c.wire <= d.wire && c.issued <= d.issued && c.evicted <= d.evicted
      && (op.Disconnect? ==> d.book.pending == [])
      && (op.CloseEvent? || op.TimerFires? || op.Opened? || op.ConnectCall? ==> d.book == c.book)
  {
    match op
    case Emit(call) => IssueOnlyAdds(c, QEvent(call));
    case Request(id, call) => IssueOnlyAdds(c.(book := Await(c.book, id)), QRequest(id, call));
    case Message(env, handled) => MessageOnlyAdds(c, env, handled);
    case _ =>
  }

  /** An overflow evicts the oldest waiting issue and rejects that request, if it is one and is still
      pending; no other promise is touched. */
  lemma OverflowRejectsOnlyTheEvicted(c: Client, q: Queued)
    requires Inv(c) && !c.phase.Open? && c.outbox != []
    ensures var d, oldest := Issue(c, q), c.issued[|c.issued| - |c.outbox|];
      if |c.outbox| < c.limit then d.book == c.book && d.evicted == c.evicted
      else
        && d.evicted == c.evicted + {|c.issued| - |c.outbox|}
        && (if oldest.QRequest? then RejectedOnly(c.book, d.book, oldest.id, "outbox overflow") else d.book == c.book)
  {
    var oldest := c.issued[|c.issued| - |c.outbox|];
    assert c.outbox[0] == oldest;
    if oldest.QRequest? {
      SettleRejectsOnly(c.book, RequestIds(c.issued), oldest.id, "outbox overflow");
    }
  }

  /** The promise of `id`, if pending, has been rejected, and no other promise was touched. */
  predicate RejectedOnly(before: Book<string>, after: Book<string>, id: string, reason: string) {
    && after.settled == before.settled + (if id in before.pending then [Settlement(id, Rejected(reason))] else [])
    && (forall x :: x in before.pending ==> x == id || x in after.pending)
    && (forall x :: x in after.pending ==> x != id && x in before.pending)
  }

  lemma SettleRejectsOnly(book: Book<string>, ids: set<string>, id: string, reason: string)
    requires Sound(book, ids)
    ensures RejectedOnly(book, Settle(book, id, Rejected(reason)), id, reason)
  {
    SettleSound(book, ids, id, Rejected(reason));
  }

  /** A request with this id is among the envelopes. */
  predicate Asks(envs: seq<Envelope<string>>, id: string) {
    exists i :: 0 <= i < |envs| && envs[i].RequestEnv? && envs[i].id == id
  }

  predicate Waits(outbox: seq<Queued>, id: string) {
    exists i :: 0 <= i < |outbox| && outbox[i].QRequest? && outbox[i].id == id
  }

  /** `disconnect` rejects every pending request but leaves the outbox alone: a rejected request is sent by
      the next connection, with nobody left to receive the answer, exactly when it was waiting there. */
  lemma RejectedIsSentIffWaiting(c: Client, id: string)
    requires id in c.book.pending
    ensures var d := Run(c, [Disconnect, CloseEvent, ConnectCall, Opened]);
      && d.book.pending == [] && Settlement(id, Rejected("disconnected")) in d.book.settled
      && Payload(d.wire) == Payload(c.wire) + Envelopes(c.outbox)
      && (Asks(Payload(d.wire)[|Payload(c.wire)|..], id) <==> Waits(c.outbox, id))
  {
    var d1 := Next(c, Disconnect);
    var d2 := Next(d1, CloseEvent);
    var d3 := Next(d2, ConnectCall);
    RunFour(c, Disconnect, CloseEvent, ConnectCall, Opened);
    assert d2 == d1 && d3.phase.Connecting? && d3.outbox == c.outbox && d3.wire == c.wire;
    OpenPayload(d3);
    SettleAllRecords(c.book, Rejected("disconnected"));
    assert (Payload(c.wire) + Envelopes(c.outbox))[|Payload(c.wire)|..] == Envelopes(c.outbox);
    EnvelopesAsk(c.outbox, id);
  }

  lemma EnvelopesAsk(outbox: seq<Queued>, id: string)
    ensures Asks(Envelopes(outbox), id) <==> Waits(outbox, id)
  {
    var envs := Envelopes(outbox);
    assert forall i :: 0 <= i < |envs| ==> envs[i] == ToEnvelope(outbox[i]);
  }

  lemma RunFour(c: Client, x: Op, y: Op, z: Op, w: Op)
    ensures Run(c, [x, y, z, w]) == Next(Next(Next(Next(c, x), y), z), w)
  {
    var d1, d2, d3 := Next(c, x), Next(Next(c, x), y), Next(Next(Next(c, x), y), z);
    assert [x, y, z, w][1..] == [y, z, w] && [y, z, w][1..] == [z, w] && [z, w][1..] == [w];
    assert Run(d3, [w]) == Run(Next(d3, w), []);
    assert Run(d2, [z, w]) == Run(d3, [w]);
    assert Run(d1, [y, z, w]) == Run(d2, [z, w]);
  }

  /** With a limit of 0 the outbox still keeps the newest issue, and only that. */
  lemma ZeroLimitKeepsTheNewest(c: Client, q: Queued)
    requires Inv(c) && c.limit == 0 && !c.phase.Open?
    ensures Issue(c, q).outbox == [q]
  {
    assert |c.outbox| <= 1;
  }

  // ---- The receiving half of the session ----

  /** The event frames the client processes. */
  function Frames(c: Client, ops: seq<Op>): seq<Frame>
    decreases |ops|
  {
    if ops == [] then []
    else
      var op := ops[0];
      (if op.Message? && op.env.EventEnv? && (c.phase.Open? || c.phase.Closing?)
       then [Frame(op.env.num, op.env.event)] else []) + Frames(Next(c, op), ops[1..])
  }

  /** A ReconnectSession client that receives the frames, under whatever log numbers. */
  function ReceiveAll(k: ReconnectSession.Client, frames: seq<Frame>, numbers: seq<nat>): ReconnectSession.Client
    requires |numbers| >= |frames|
    decreases |frames|
  {
    if frames == [] then k
    else ReceiveAll(ReconnectSession.Receive(k, frames[0], numbers[0]), frames[1..], numbers[1..])
  }

  /** Whatever else it does in between, the client receives like the client of ReconnectSession: the same
      events in the same order, and the same lastSeq. */
  lemma {:induction false} RefinesSessionClient(c: Client, ops: seq<Op>, k: ReconnectSession.Client, numbers: seq<nat>)
    requires c.lastSeq == k.lastSeq && c.received == k.received && |numbers| >= |Frames(c, ops)|
    ensures Run(c, ops).lastSeq == ReceiveAll(k, Frames(c, ops), numbers).lastSeq
    ensures Run(c, ops).received == ReceiveAll(k, Frames(c, ops), numbers).received
    decreases |ops|
  {
    if ops != [] {
      var d, rest := Next(c, ops[0]), Frames(Next(c, ops[0]), ops[1..]);
      if Frames(c, ops) == rest {
        OthersReceiveNothing(c, ops[0]);
        RefinesSessionClient(d, ops[1..], k, numbers);
      } else {
        var f := Frame(ops[0].env.num, ops[0].env.event);
        assert Frames(c, ops) == [f] + rest && Frames(c, ops)[1..] == rest;
        RefinesSessionClient(d, ops[1..], ReconnectSession.Receive(k, f, numbers[0]), numbers[1..]);
      }
    }
  }

  lemma OthersReceiveNothing(c: Client, op: Op)
    requires !(op.Message? && op.env.EventEnv? && (c.phase.Open? || c.phase.Closing?))
    ensures Next(c, op).lastSeq == c.lastSeq && Next(c, op).received == c.received
  {}

  /** A resume goes out exactly when a connection opens, first, with the number reached by then. */
  ghost predicate ResumesOnOpening(c: Client, op: Op) {
    forall i :: |c.wire| <= i < |Next(c, op).wire| ==>
      (Next(c, op).wire[i].env.ResumeEnv? <==> op.Opened? && c.phase.Connecting? && i == |c.wire|)
  }

  lemma ResumesFromLastSeq(c: Client, op: Op)
    ensures ResumesOnOpening(c, op)
    ensures op.Opened? && c.phase.Connecting? ==>
              |Next(c, op).wire| > |c.wire| && Next(c, op).wire[|c.wire|] == OnWire(c.conn, ResumeEnv(c.lastSeq))
  {
    if op.Opened? && c.phase.Connecting? {
      assert forall i :: |c.wire| < i < |Next(c, op).wire| ==>
          Next(c, op).wire[i] == ToWire(c.conn, c.outbox)[i - |c.wire| - 1];
    }
  }

  // ---- Losing the connection and getting it back ----

  /** The reconnect timer is set exactly while a lost connection has not been replaced, and a client that has
      been told to disconnect has no socket. */
  predicate OnItsWayBack(c: Client) {
    (c.timer <==> c.phase.Closed?) && (c.explicitlyClosed ==> c.phase.NoSocket?)
  }

  lemma {:induction false} RunKeepsTimer(c: Client, ops: seq<Op>)
    requires OnItsWayBack(c)
    ensures OnItsWayBack(Run(c, ops))
    decreases |ops|
  {
    if ops != [] { RunKeepsTimer(Next(c, ops[0]), ops[1..]); }
  }

  /** In every run a connection that has been lost has its reconnect timer set, and no other state has. */
  lemma LostConnectionsAreReplaced(limit: nat, ops: seq<Op>)
    ensures var c := Run(Init(limit), ops);
      && (c.timer <==> c.phase.Closed?)
      && (c.explicitlyClosed ==> c.phase.NoSocket?)
      && (c.phase.Closed? ==> var d := Next(c, TimerFires); d.phase.Connecting? && d.conn == c.conn + 1)
  {
    RunKeepsTimer(Init(limit), ops);
  }

  predicate IsIssue(op: Op) { op.Emit? || op.Request? }

  /** Without a connection nothing goes out; what is issued waits. */
  lemma {:induction false} IssuesWait(c: Client, ops: seq<Op>)
    requires c.phase.Closed? && forall k :: 0 <= k < |ops| ==> IsIssue(ops[k])
    ensures var d := Run(c, ops);
      && d.phase == c.phase && d.timer == c.timer && d.conn == c.conn && d.lastSeq == c.lastSeq && d.wire == c.wire
      && d.jobs == c.jobs && |d.issued| == |c.issued| + |ops|
    decreases |ops|
  {
    if ops != [] { IssuesWait(Next(c, ops[0]), ops[1..]); }
  }

  lemma RunTwo(c: Client, x: Op, y: Op)
    ensures Run(c, [x, y]) == Next(Next(c, x), y)
  {
    assert [x, y][1..] == [y];
    assert Run(Next(c, x), [y]) == Run(Next(Next(c, x), y), []);
  }

  /** A client that loses its connection without having been told to disconnect is connected again when the
      timer has fired and the socket has opened, over a connection of its own, which begins with the resume;
      then everything goes out that was waiting by then, whatever was issued in between. */
  lemma ConnectionComesBack(c: Client, issues: seq<Op>)
    requires (c.phase.Connecting? || c.phase.Open? || c.phase.Closing?) && !c.explicitlyClosed
    requires forall k :: 0 <= k < |issues| ==> IsIssue(issues[k])
    ensures var d := Run(Next(c, CloseEvent), issues);
      var e := Run(d, [TimerFires, Opened]);
      && d.wire == c.wire && |d.issued| == |c.issued| + |issues|
      && e.phase.Open? && e.conn == c.conn + 1 && e.outbox == [] && e.book == d.book
      && |e.wire| == |c.wire| + 1 + |d.outbox| && c.wire <= e.wire
      && e.wire[|c.wire|] == OnWire(c.conn + 1, ResumeEnv(c.lastSeq))
      && (forall i :: 0 <= i < |d.outbox| ==>
            e.wire[|c.wire| + 1 + i].conn == c.conn + 1 && Carries(e.wire[|c.wire| + 1 + i].env, d.outbox[i]))
  {
    IssuesWait(Next(c, CloseEvent), issues);
    RunTwo(Run(Next(c, CloseEvent), issues), TimerFires, Opened);
  }

  /** After `disconnect` no socket is opened and nothing is sent, whatever happens, until `connect` is called. */
  lemma StaysDisconnected(c: Client, ops: seq<Op>)
    requires forall k :: 0 <= k < |ops| ==> !ops[k].ConnectCall?
    ensures var d := Run(Next(c, Disconnect), ops);
      d.phase.NoSocket? && d.conn == c.conn && d.wire == c.wire
  {
    StaysOff(Next(c, Disconnect), ops);
  }

  lemma {:induction false} StaysOff(c: Client, ops: seq<Op>)
    requires c.phase.NoSocket? && !c.timer && forall k :: 0 <= k < |ops| ==> !ops[k].ConnectCall?
    ensures var d := Run(c, ops); d.phase.NoSocket? && !d.timer && d.conn == c.conn && d.wire == c.wire
    decreases |ops|
  {
    if ops != [] { StaysOff(Next(c, ops[0]), ops[1..]); }
  }

  /** Once a socket has left OPEN, what is issued waits for the next connection. */
  lemma ClosingSocketSendsNothing(c: Client, call: Event)
    requires c.phase.Open? && c.outbox == []
    ensures var d := Run(c, [StartsClosing, Emit(call)]);
      d.phase.Closing? && d.wire == c.wire && d.outbox == [QEvent(call)]
  {
    RunTwo(c, StartsClosing, Emit(call));
  }

  /** `connect` opens a socket exactly when none is alive, in place of a reconnect that is still to come. */
  lemma ConnectOpensIffNoneAlive(c: Client)
    ensures var d := Next(c, ConnectCall);
      if c.phase.NoSocket? || c.phase.Closed?
      then d.phase.Connecting? && d.conn == c.conn + 1 && !d.timer && !d.explicitlyClosed && d.outbox == c.outbox
      else d == c
  {}

  /** Whatever goes out goes out while the socket is open, on the connection it is. */
  lemma SendsOnlyWhileOpen(c: Client, op: Op)
    ensures var d := Next(c, op);
      forall i :: |c.wire| <= i < |d.wire| ==> d.phase.Open? && d.conn == c.conn && d.wire[i].conn == c.conn
  {}

  // ---- Requests and their answers ----

  /** A response resolves the pending request with its data or rejects it with its text, and touches no other
      promise; a late or repeated one does nothing. */
  lemma ResponseSettles(c: Client, id: string, result: RpcResult, handled: bool)
    requires BookOk(c) && (c.phase.Open? || c.phase.Closing?)
    ensures var d := Next(c, Message(ResponseEnv(id, result), handled));
      if id !in c.book.pending then d == c
      else
        && d == c.(book := d.book)
        && d.book.settled == c.book.settled +
             [Settlement(id, match result case Ok(data) => Resolved(data) case Err(error) => Rejected(error))]
        && (forall x :: x in d.book.pending <==> x in c.book.pending && x != id)
  {
    SettleSound(c.book, RequestIds(c.issued), id,
                match result case Ok(data) => Resolved(data) case Err(error) => Rejected(error));
  }

  /** A request of the server has its handler called, or is answered at once if there is none. */
  lemma ServerRequestIsTaken(c: Client, id: string, call: Event)
    requires c.phase.Open?
    ensures Next(c, Message(RequestEnv(id, call), true))
            == c.(asked := c.asked + {Job(c.conn, id)}, jobs := c.jobs + [Job(c.conn, id)])
    ensures Next(c, Message(RequestEnv(id, call), false)).wire
            == c.wire + [OnWire(c.conn, ResponseEnv(id, Err("Unknown method: " + call.name)))]
  {}

  /** What a handler returns goes out under the id of its request, if the connection that came in on is still the
      open one; else nothing does. */
  lemma HandlerAnswers(c: Client, i: nat, result: RpcResult)
    requires i < |c.jobs|
    ensures Next(c, HandlerDone(i, result)).wire
            == c.wire + (if c.jobs[i].conn == c.conn && c.phase == Open
                         then [OnWire(c.conn, ResponseEnv(c.jobs[i].id, result))] else [])
    ensures Next(c, HandlerDone(i, result)).jobs == c.jobs[..i] + c.jobs[i + 1..]
  {
    assert c.wire + [] == c.wire;
  }

  /** So a request of the server is answered with what its handler returns. */
  lemma ServerRequestIsAnswered(c: Client, id: string, call: Event, result: RpcResult)
    requires c.phase.Open?
    ensures Run(c, [Message(RequestEnv(id, call), true), HandlerDone(|c.jobs|, result)]).wire
            == c.wire + [OnWire(c.conn, ResponseEnv(id, result))]
  {
    var d := Next(c, Message(RequestEnv(id, call), true));
    ServerRequestIsTaken(c, id, call);
    HandlerAnswers(d, |c.jobs|, result);
    RunTwo(c, Message(RequestEnv(id, call), true), HandlerDone(|c.jobs|, result));
  }

  /** A handler that returns after the connection was lost, or replaced, is not heard. */
  lemma LateAnswerIsDropped(c: Client, id: string, call: Event, result: RpcResult)
    requires c.phase.Open? && !c.explicitlyClosed
    ensures var d := Run(Next(c, Message(RequestEnv(id, call), true)), [CloseEvent, TimerFires, Opened]);
      && Next(d, HandlerDone(|c.jobs|, result)).wire == d.wire
      && Next(Next(d, CloseEvent), HandlerDone(|c.jobs|, result)).wire == d.wire
  {
    var c1 := Next(c, Message(RequestEnv(id, call), true));
    var d := Run(c1, [CloseEvent, TimerFires, Opened]);
    ServerRequestIsTaken(c, id, call);
    RunThree(c1, CloseEvent, TimerFires, Opened);
    assert d.jobs == c1.jobs && d.conn == c.conn + 1;
    HandlerAnswers(d, |c.jobs|, result);
    HandlerAnswers(Next(d, CloseEvent), |c.jobs|, result);
  }

  lemma RunThree(c: Client, x: Op, y: Op, z: Op)
    ensures Run(c, [x, y, z]) == Next(Next(Next(c, x), y), z)
  {
    assert [x, y, z][1..] == [y, z];
    RunTwo(Next(c, x), y, z);
  }

  // ---- The class ----

  class WsClient {
    const outboxLimit: nat
    var phase: Phase
    var conn: nat
    var explicitlyClosed: bool
    var reconnectTimer: bool
    var outbox: seq<Queued>
    var pending: seq<string>
    var lastSeq: nat
    var requestHandlers: set<string>
    var jobs: seq<Job>
    var received: seq<Event>  // handed to the listeners
    var wire: seq<OnWire>
    ghost var settled: seq<Settlement<string>>
    ghost var issued: seq<Queued>
    ghost var evicted: set<nat>
    ghost var asked: set<Job>

    ghost function Model(): Client
      reads this
    {
      Client(outboxLimit, phase, conn, explicitlyClosed, reconnectTimer, outbox, Book(pending, settled),
             lastSeq, jobs, received, wire, issued, evicted, asked)
    }

    constructor (outboxLimit: nat)
      ensures Model() == Init(outboxLimit) && requestHandlers == {}
    {
      this.outboxLimit := outboxLimit;
      phase, conn, explicitlyClosed, reconnectTimer := NoSocket, 0, false, false;
      outbox, pending, lastSeq, requestHandlers, jobs, received, wire := [], [], 0, {}, [], [], [];
      settled, issued, evicted, asked := [], [], {}, {};
    }

    method SettlePending(id: string, outcome: Outcome)
      modifies this`pending, this`settled
      ensures Book(pending, settled) == Settle(old(Book(pending, settled)), id, outcome)
    {
      if id !in pending { return; }
      pending := Without(pending, id);
      settled := settled + [Settlement(id, outcome)];
    }

    method OpenSocket()
      modifies this`phase, this`conn, this`reconnectTimer
      ensures phase == Connecting && conn == old(conn) + 1 && !reconnectTimer
    {
      reconnectTimer := false;
      conn := conn + 1;
      phase := Connecting;
    }

    method Connect()
      modifies this`phase, this`conn, this`reconnectTimer, this`explicitlyClosed
      ensures Model() == Next(old(Model()), ConnectCall)
    {
      if !phase.NoSocket? && !phase.Closed? { return; }
      explicitlyClosed := false;
      OpenSocket();
    }

    method TimerFired()
      modifies this`phase, this`conn, this`reconnectTimer
      ensures Model() == Next(old(Model()), TimerFires)
    {
      if reconnectTimer { OpenSocket(); }
    }

    method SendNow(env: Envelope<string>)
      modifies this`wire
      ensures wire == old(wire) + [OnWire(conn, env)]
    {
      wire := wire + [OnWire(conn, env)];
    }

    method HandleOpen()
      requires phase.Connecting?
      modifies this`phase, this`wire, this`outbox
      ensures Model() == Next(old(Model()), Opened)
    {
      phase := Open;
      SendNow(ResumeEnv(lastSeq));
      var i := 0;
      while i < |outbox|
        invariant 0 <= i <= |outbox| && outbox == old(outbox) && phase.Open?
        invariant wire == old(wire) + [OnWire(conn, ResumeEnv(lastSeq))] + ToWire(conn, outbox[..i])
      {
        SendNow(ToEnvelope(outbox[i]));
        assert ToWire(conn, outbox[..i + 1]) == ToWire(conn, outbox[..i]) + [OnWire(conn, ToEnvelope(outbox[i]))];
        i := i + 1;
      }
      assert outbox[..i] == outbox;
      outbox := [];
    }

    method HandleClose()
      modifies this`phase, this`reconnectTimer
      ensures Model() == Next(old(Model()), CloseEvent)
    {
      if phase.NoSocket? || phase.Closed? { return; }
      phase := Closed;
      reconnectTimer := !explicitlyClosed;
    }

    method Enqueue(q: Queued)
      requires |outbox| <= |issued|
      modifies this`outbox, this`pending, this`settled, this`issued, this`evicted
      ensures Model() == PushOutbox(old(Model()), q)
    {
      if |outbox| >= outboxLimit && outbox != [] {
        var dropped := outbox[0];
        evicted := evicted + {|issued| - |outbox|};
        outbox := outbox[1..];
        if dropped.QRequest? { SettlePending(dropped.id, Rejected("outbox overflow")); }
      }
      outbox := outbox + [q];
      issued := issued + [q];
    }

    method EmitEvent(call: Event)
      requires |outbox| <= |issued|
      modifies this`wire, this`outbox, this`pending, this`settled, this`issued, this`evicted
      ensures Model() == Next(old(Model()), Emit(call))
    {
      var env := QEvent(call);
      if phase.Open? {
        SendNow(ToEnvelope(env));
        issued := issued + [env];
      } else {
        Enqueue(env);
      }
    }

    /** `id` is the random id drawn by the call. */
    method RequestCall(id: string, call: Event)
      requires |outbox| <= |issued|
      modifies this`wire, this`outbox, this`pending, this`settled, this`issued, this`evicted
      ensures Model() == Next(old(Model()), Request(id, call))
    {
      var queued := QRequest(id, call);
      pending := pending + [id];
      if phase.Open? {
        SendNow(ToEnvelope(queued));
        issued := issued + [queued];
      } else {
        Enqueue(queued);
      }
    }

    method HandleEnvelope(env: Envelope<string>)
      requires phase.Open? || phase.Closing?
      modifies this`lastSeq, this`received, this`pending, this`settled, this`wire, this`jobs, this`asked
      ensures Model() == Next(old(Model()), Message(env, env.RequestEnv? && env.call.name in requestHandlers))
    {
      match env
      case EventEnv(num, event) =>
        if num > lastSeq { lastSeq := num; }
        received := received + [event];
      case ResponseEnv(id, result) =>
        match result {
          case Ok(data) => SettlePending(id, Resolved(data));
          case Err(error) => SettlePending(id, Rejected(error));
        }
      case RequestEnv(id, call) => HandleIncomingRequest(id, call);
      case _ =>
    }

    /** The part of handleIncomingRequest before its await. */
    method HandleIncomingRequest(id: string, call: Event)
      requires phase.Open? || phase.Closing?
      modifies this`wire, this`jobs, this`asked
      ensures Model() == HandleMessage(old(Model()), RequestEnv(id, call), call.name in requestHandlers)
    {
      if !phase.Open? { return; }
      asked := asked + {Job(conn, id)};
      if call.name in requestHandlers {
        jobs := jobs + [Job(conn, id)];
      } else {
        SendNow(ResponseEnv(id, Err("Unknown method: " + call.name)));
      }
    }

    /** The part of handleIncomingRequest after its await. */
    method HandlerSettled(index: nat, result: RpcResult)
      requires index < |jobs|
      modifies this`jobs, this`wire
      ensures Model() == Next(old(Model()), HandlerDone(index, result))
    {
      var job := jobs[index];
      jobs := jobs[..index] + jobs[index + 1..];
      if job.conn == conn && phase.Open? { SendNow(ResponseEnv(job.id, result)); }
    }

    method DisconnectCall()
      modifies this`explicitlyClosed, this`reconnectTimer, this`phase, this`pending, this`settled
      ensures Model() == Next(old(Model()), Disconnect)
    {
      explicitlyClosed := true;
      reconnectTimer := false;
      phase := NoSocket;
      RejectAll();
    }

    /** The loop over the pending requests. */
    method RejectAll()
      modifies this`pending, this`settled
      ensures Book(pending, settled) == SettleAll(old(Book(pending, settled)), Rejected("disconnected"))
    {
      var i := 0;
      while i < |pending|
        invariant 0 <= i <= |pending| && pending == old(pending)
        invariant settled == old(settled) + SettleAll(Book(pending[..i], []), Rejected("disconnected")).settled
      {
        settled := settled + [Settlement(pending[i], Rejected("disconnected"))];
        assert SettleAll(Book(pending[..i + 1], []), Rejected("disconnected")).settled
            == SettleAll(Book(pending[..i], []), Rejected("disconnected")).settled
               + [Settlement(pending[i], Rejected("disconnected"))];
        i := i + 1;
      }
      assert pending[..i] == pending;
      pending := [];
    }
  }
}
