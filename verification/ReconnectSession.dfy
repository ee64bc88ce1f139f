/** One client session over any number of connections: the server side
    (packages/transport/src/middleware/resumable.ts over ResumableSocket and the
    per-connection socket of ws-transport.ts) and the receiving half of WsClient
    (packages/transport/src/ws-client.ts), as a transition system. */
module ReconnectSession {
  import opened Wire
  import opened Replay

  /** A connection. The client has sent `resume(base)` when it opened; `sent` is what the
      server-side socket stamped, `delivered` how much of it the client has processed.
      The second line is bookkeeping no code reads: the log length when the connection began, how
      many frames went out before the resume arrived, the number after which the
      frames sent from then on begin, and the number each frame has in the log. */
  datatype Conn =
    | Down
    | Up(open: bool, base: nat, resumed: bool, sent: seq<Frame>, delivered: nat,
         start: nat, early: nat, from: nat, gap: bool, origin: seq<nat>)

  /** `lastSeq` is the only field the client's code has; the rest is its history: the
      events it processed, their numbers in the log, and the number of the last
      refresh, which makes it reread everything up to there. */
  datatype Client = Client(lastSeq: nat, received: seq<Event>, got: seq<nat>, refreshedTo: nat)

  /** `log` holds what was emitted since the last expiry. `owed`, history too: an expiry has dropped an
      event the client was without, and no refresh has reached it since. */
  datatype Session = Session(size: nat, log: seq<Event>, conn: Conn, client: Client, owed: bool)

  datatype Step =
    | Emit(e: Event)   // the application emits on the ResumableSocket
    | Connect          // a new socket opens: rebind on the server, resume(lastSeq) on its way
    | ResumeArrives    // the resume envelope reaches the middleware
    | Deliver          // the client processes the next frame
    | Sever            // the server's socket leaves OPEN; frames already sent may still arrive
    | Drop             // the connection is gone, with every frame not yet delivered
    | Expire           // the TTL timer fires: the next connection gets a fresh ResumableSocket

  const EMPTY_CLIENT := Client(0, [], [], 0)

  function Init(size: nat): Session { Session(size, [], Down, EMPTY_CLIENT, false) }

  function Max(a: nat, b: nat): nat { if a < b then b else a }

  function Min(a: nat, b: nat): nat { if a < b then a else b }

  /** Hand events numbered n + 1, n + 2, ... to the connection's socket. */
  function Send(c: Conn, n: nat, events: seq<Event>): Conn {
    if c.Down? || !c.open then c
    else c.(sent := c.sent + Stamp(|c.sent|, events),
            origin := c.origin + seq(|events|, i requires 0 <= i => n + i + 1),
            early := if c.resumed then c.early else c.early + |events|)
  }

  function Receive(k: Client, f: Frame, number: nat): Client {
    Client(Max(k.lastSeq, f.num), k.received + [f.event], k.got + [number],
           if f.event.name == REFRESH.name then Max(k.refreshedTo, number) else k.refreshedTo)
  }

  function Resumed(s: Session): Session
    requires s.conn.Up?
  {
    var n := |s.log|;
    match Answer(n, s.size, s.conn.base)
    case Gap =>
      s.(log := s.log + [REFRESH],
         conn := Send(s.conn.(resumed := true, from := n, gap := true), n, [REFRESH]))
    case Replayed(_) =>
      s.(conn := Send(s.conn.(resumed := true, from := s.conn.base), s.conn.base,
                      Missed(s.log, s.size, s.conn.base)))
  }

  /** A step that is not possible in `s` changes nothing. */
  function Apply(s: Session, step: Step): Session {
    match step
    case Emit(e) => s.(log := s.log + [e], conn := Send(s.conn, |s.log|, [e]))
    case Connect =>
      if s.conn.Up? then s
      else s.(conn := Up(true, s.client.lastSeq, false, [], 0, |s.log|, 0, 0, false, []))
    case ResumeArrives =>
      if s.conn.Up? && s.conn.open && !s.conn.resumed then Resumed(s) else s
    case Deliver =>
      if s.conn.Up? && s.conn.delivered < |s.conn.sent| && |s.conn.origin| == |s.conn.sent| then
        s.(client := Receive(s.client, s.conn.sent[s.conn.delivered], s.conn.origin[s.conn.delivered]),
           conn := s.conn.(delivered := s.conn.delivered + 1),
           owed := s.owed && s.conn.sent[s.conn.delivered].event.name != REFRESH.name)
      else s
    case Sever => if s.conn.Up? then s.(conn := s.conn.(open := false)) else s
    case Drop => s.(conn := Down)
    case Expire =>
      if s.conn.Up? then s
      else s.(log := [], client := s.client.(received := [], got := [], refreshedTo := 0),
              owed := s.owed || !HasUpTo(s.client, |s.log|))
  }

  function Run(s: Session, steps: seq<Step>): Session
    decreases |steps|
  {
    if steps == [] then s else Run(Apply(s, steps[0]), steps[1..])
  }

  // ---- What the client should end up with ----

  /** The client has event number i, or has reread the state after it. */
  predicate Has(k: Client, i: nat) { i <= k.refreshedTo || i in k.got }

  predicate HasUpTo(k: Client, n: nat) { forall i :: 1 <= i <= n ==> Has(k, i) }

  /** Connected, resumed, and nothing on the way. */
  predicate CaughtUp(s: Session) {
    s.conn.Up? && s.conn.open && s.conn.resumed && s.conn.delivered == |s.conn.sent|
  }

  /** Caught up, yet without some event of the log, or one that an expiry has dropped from it. */
  predicate Lost(s: Session) { CaughtUp(s) && (s.owed || !HasUpTo(s.client, |s.log|)) }

  // ---- The guard ----

  /** An event numbered above n tells the client to reread the state. */
  predicate RefreshAbove(log: seq<Event>, n: nat) {
    exists j :: n <= j < |log| && log[j].name == REFRESH.name
  }

  /** The client has events 1 to n. The lenient reading also accepts a refresh above n, which
      makes up for them when it is received. */
  predicate Covered(k: Client, log: seq<Event>, n: nat, lenient: bool) {
    HasUpTo(k, n) || (lenient && RefreshAbove(log, n))
  }

  /** When an event may go out before the resume has arrived: fewer such events so far than
      the client's lastSeq; or a log longer than the buffer when the connection began (the
      resume is then answered by a refresh, or replays past them); or a log exactly as long as
      the buffer, if the client can do without the events the early ones stand in front of. */
  predicate EarlyOk(s: Session, e: Event, lenient: bool)
    requires s.conn.Up?
  {
    || s.conn.early < s.conn.base
    || s.size < s.conn.start
    || (s.size == s.conn.start && Covered(s.client, s.log + [e], Min(s.conn.early + 1, s.size), lenient))
  }

  predicate Guarded(s: Session, step: Step, lenient: bool) {
    match step
    case Emit(e) => s.conn.Up? && s.conn.open && !s.conn.resumed ==> EarlyOk(s, e, lenient)
    case Expire => s.conn.Down? ==> s.client.lastSeq == 0 && HasUpTo(s.client, |s.log|)
    case _ => true
  }

  predicate GuardedRun(s: Session, steps: seq<Step>, lenient: bool)
    decreases |steps|
  {
    steps == [] || (Guarded(s, steps[0], lenient) && GuardedRun(Apply(s, steps[0]), steps[1..], lenient))
  }

  // ---- The invariant ----

  ghost predicate ClientOk(s: Session) {
    var k, n := s.client, |s.log|;
    && k.refreshedTo <= n
    && |k.got| == |k.received|
    && (forall i :: 0 <= i < |k.got| ==> 1 <= k.got[i] <= n && k.received[i] == s.log[k.got[i] - 1])
  }

  /** A resume from `k` is harmless: the client can do without everything up to k, or the
      server will notice the gap. */
  predicate SafeFrom(s: Session, k: nat, lenient: bool) {
    Covered(s.client, s.log, k, lenient) || k + s.size < |s.log|
  }

  /** The frames are numbered from 1 and hold the events their origins name. */
  predicate Carries(sent: seq<Frame>, origin: seq<nat>, log: seq<Event>) {
    && |origin| == |sent|
    && (forall j :: 0 <= j < |sent| ==> sent[j].num == j + 1)
    && (forall j :: 0 <= j < |sent| ==> 1 <= origin[j] <= |log| && sent[j].event == log[origin[j] - 1])
  }

  ghost predicate FramesOk(s: Session)
    requires s.conn.Up?
  {
    var c, n := s.conn, |s.log|;
    && Carries(c.sent, c.origin, s.log) && c.delivered <= |c.sent|
    && c.early <= |c.sent| && (!c.resumed ==> c.early == |c.sent|)
    && c.start + c.early <= n
    && (forall j :: 0 <= j < c.early ==> c.origin[j] == c.start + j + 1)
    && (c.resumed ==> forall j :: c.early <= j < |c.sent| ==> c.origin[j] == c.from + (j - c.early) + 1)
    && (c.open && c.resumed ==> c.from + |c.sent| - c.early == n)
    && (c.open && !c.resumed ==> c.start + c.early == n)
  }

  /** Every frame processed has left its mark on the client. */
  ghost predicate Processed(c: Conn, k: Client)
    requires c.Up? && |c.origin| == |c.sent| && c.delivered <= |c.sent|
  {
    && k.lastSeq == Max(c.base, c.delivered)
    && (forall j :: 0 <= j < c.delivered ==> c.origin[j] in k.got)
    && (forall j :: 0 <= j < c.delivered && c.sent[j].event.name == REFRESH.name ==> c.origin[j] <= k.refreshedTo)
  }

  /** The frames sent early cannot carry lastSeq past something the client needs. */
  predicate EarlyFine(s: Session, lenient: bool)
    requires s.conn.Up?
  {
    || s.conn.early <= s.conn.base
    || s.size < s.conn.start
    || (s.size == s.conn.start && Covered(s.client, s.log, Min(s.conn.early, s.size), lenient))
  }

  ghost predicate ConnOk(s: Session, lenient: bool)
    requires s.conn.Up? && FramesOk(s)
  {
    var c, k := s.conn, s.client;
    && Processed(c, k)
    && SafeFrom(s, c.base, lenient)
    && EarlyFine(s, lenient)
    && (!c.resumed ==> !c.gap)
    && (c.resumed && !c.gap ==> c.from == c.base && c.early <= c.base && Covered(k, s.log, c.base, lenient))
    && (c.resumed && c.gap ==>
          c.start + c.early <= c.from && c.early < |c.sent| && c.sent[c.early].event == REFRESH)
  }

  ghost predicate Inv(s: Session, lenient: bool) {
    && s.size >= 1 && !s.owed
    && ClientOk(s)
    && SafeFrom(s, s.client.lastSeq, lenient)
    && (s.conn.Up? ==> FramesOk(s) && ConnOk(s, lenient))
  }

  // ---- Every guarded step keeps it ----

  lemma CoveredMonotone(k: Client, k': Client, log: seq<Event>, log': seq<Event>, n: nat, lenient: bool)
    requires k.refreshedTo <= k'.refreshedTo && (forall i :: i in k.got ==> i in k'.got) && log <= log'
    requires Covered(k, log, n, lenient)
    ensures Covered(k', log', n, lenient)
  {
    if HasUpTo(k, n) {
      forall i | 1 <= i <= n ensures Has(k', i) { assert Has(k, i); }
    } else {
      var j :| n <= j < |log| && log[j].name == REFRESH.name;
      assert log'[j] == log[j];
    }
  }

  /** What was harmless stays so when the client learns more and the log grows. */
  lemma StaysSafe(s: Session, t: Session, lenient: bool)
    requires s.size == t.size && s.log <= t.log
    requires s.client.refreshedTo <= t.client.refreshedTo && forall i :: i in s.client.got ==> i in t.client.got
    ensures forall n :: Covered(s.client, s.log, n, lenient) ==> Covered(t.client, t.log, n, lenient)
    ensures forall n :: SafeFrom(s, n, lenient) ==> SafeFrom(t, n, lenient)
  {
    forall n | Covered(s.client, s.log, n, lenient) ensures Covered(t.client, t.log, n, lenient) {
      CoveredMonotone(s.client, t.client, s.log, t.log, n, lenient);
    }
  }

  /** The i-th new frame carries the i-th new event and its number. */
  lemma SendAt(c: Conn, n: nat, events: seq<Event>)
    requires c.Up? && c.open && |c.origin| == |c.sent|
    ensures var d := Send(c, n, events);
      && |d.origin| == |d.sent| == |c.sent| + |events|
      && (forall j :: 0 <= j < |c.sent| ==> d.sent[j] == c.sent[j] && d.origin[j] == c.origin[j])
      && (forall j :: |c.sent| <= j < |d.sent| ==>
            d.sent[j] == Frame(j + 1, events[j - |c.sent|]) && d.origin[j] == n + j - |c.sent| + 1)
  {}

  lemma SendCarries(c: Conn, n: nat, events: seq<Event>, log: seq<Event>)
    requires c.Up? && c.open && Carries(c.sent, c.origin, log)
    requires n + |events| == |log| && log[n..] == events
    ensures Carries(Send(c, n, events).sent, Send(c, n, events).origin, log)
  {
    SendAt(c, n, events);
    assert forall k :: 0 <= k < |events| ==> events[k] == log[n..][k];
  }

  lemma EmitKeepsFrames(s: Session, e: Event)
    requires s.conn.Up? && FramesOk(s)
    ensures FramesOk(Apply(s, Emit(e)))
  {
    if s.conn.open { SendAt(s.conn, |s.log|, [e]); }
  }

  lemma SendKeepsProcessed(c: Conn, n: nat, events: seq<Event>, k: Client)
    requires c.Up? && |c.origin| == |c.sent| && c.delivered <= |c.sent| && Processed(c, k)
    ensures var d := Send(c, n, events);
      d.Up? && |d.origin| == |d.sent| && d.delivered == c.delivered && Processed(d, k)
  {
    if c.open { SendAt(c, n, events); }
  }

  lemma EmitKeepsEarlyFine(s: Session, e: Event, lenient: bool)
    requires s.conn.Up? && EarlyFine(s, lenient) && Guarded(s, Emit(e), lenient)
    ensures EarlyFine(Apply(s, Emit(e)), lenient)
  {
    StaysSafe(s, Apply(s, Emit(e)), lenient);
  }

  lemma EmitKeepsConn(s: Session, e: Event, lenient: bool)
    requires Inv(s, lenient) && Guarded(s, Emit(e), lenient) && s.conn.Up?
    ensures FramesOk(Apply(s, Emit(e))) && ConnOk(Apply(s, Emit(e)), lenient)
  {
    var t := Apply(s, Emit(e));
    StaysSafe(s, t, lenient);
    EmitKeepsFrames(s, e);
    SendKeepsProcessed(s.conn, |s.log|, [e], s.client);
    EmitKeepsEarlyFine(s, e, lenient);
    if s.conn.open { SendAt(s.conn, |s.log|, [e]); }
  }

  lemma EmitKeepsInv(s: Session, e: Event, lenient: bool)
    requires Inv(s, lenient) && Guarded(s, Emit(e), lenient)
    ensures Inv(Apply(s, Emit(e)), lenient)
  {
    StaysSafe(s, Apply(s, Emit(e)), lenient);
    assert ClientOk(Apply(s, Emit(e)));
    if s.conn.Up? { EmitKeepsConn(s, e, lenient); }
  }

  lemma GapKeepsFrames(s: Session)
    requires s.conn.Up? && FramesOk(s) && s.conn.open && !s.conn.resumed && Answer(|s.log|, s.size, s.conn.base).Gap?
    ensures FramesOk(Resumed(s)) && Resumed(s).client == s.client && Resumed(s).log == s.log + [REFRESH]
    ensures var c, d := s.conn, Resumed(s).conn;
      && d == c.(resumed := true, from := |s.log|, gap := true, sent := d.sent, origin := d.origin)
      && |d.sent| == |c.sent| + 1 && d.sent[|c.sent|].event == REFRESH
  {
    SendAt(s.conn.(resumed := true, from := |s.log|, gap := true), |s.log|, [REFRESH]);
  }

  lemma GapKeepsInv(s: Session, lenient: bool)
    requires Inv(s, lenient) && s.conn.Up? && s.conn.open && !s.conn.resumed
    requires Answer(|s.log|, s.size, s.conn.base).Gap?
    ensures Inv(Resumed(s), lenient)
  {
    var t := Resumed(s);
    GapKeepsFrames(s);
    SendKeepsProcessed(s.conn.(resumed := true, from := |s.log|, gap := true), |s.log|, [REFRESH], s.client);
    StaysSafe(s, t, lenient);
    assert ClientOk(t);
    assert EarlyFine(t, lenient);
    assert ConnOk(t, lenient);
  }

  /** An ok answer means that the client can do without everything up to the number it sent. */
  lemma ReplayIsSafe(s: Session, lenient: bool)
    requires Inv(s, lenient) && s.conn.Up? && s.conn.open && !s.conn.resumed
    requires !Answer(|s.log|, s.size, s.conn.base).Gap?
    ensures Covered(s.client, s.log, s.conn.base, lenient) && s.conn.early <= s.conn.base <= |s.log|
    ensures s.log[..s.conn.base] + Missed(s.log, s.size, s.conn.base) == s.log
  {
    GapIffNextEvicted(s.log, s.size, s.conn.base);
    SafeBaseInLog(s, lenient);
  }

  lemma SafeBaseInLog(s: Session, lenient: bool)
    requires Inv(s, lenient) && s.conn.Up?
    ensures s.conn.base <= |s.log|
  {
    if s.conn.base > 0 && HasUpTo(s.client, s.conn.base) { assert Has(s.client, s.conn.base); }
  }

  lemma ReplayEffect(s: Session)
    requires s.conn.Up? && s.conn.open && !s.conn.resumed && |s.conn.origin| == |s.conn.sent|
    requires !Answer(|s.log|, s.size, s.conn.base).Gap?
    ensures Resumed(s).log == s.log && Resumed(s).client == s.client && Resumed(s).size == s.size
    ensures Resumed(s).conn ==
            Send(s.conn.(resumed := true, from := s.conn.base), s.conn.base, Missed(s.log, s.size, s.conn.base))
    ensures var c, d := s.conn, Resumed(s).conn;
      d == c.(resumed := true, from := c.base, sent := d.sent, origin := d.origin)
  {}

  lemma ReplayKeepsFrames(s: Session)
    requires s.conn.Up? && FramesOk(s) && s.conn.open && !s.conn.resumed
    requires !Answer(|s.log|, s.size, s.conn.base).Gap?
    requires s.conn.base <= |s.log| && s.log[..s.conn.base] + Missed(s.log, s.size, s.conn.base) == s.log
    ensures FramesOk(Resumed(s)) && Resumed(s).log == s.log && Resumed(s).client == s.client
    ensures var c, d := s.conn, Resumed(s).conn;
      && d.Up? && d.open && d.resumed && d.base == c.base && d.from == c.base && d.gap == c.gap
      && d.start == c.start && d.early == c.early && d.delivered == c.delivered && c.origin <= d.origin
  {
    var c, missed := s.conn, Missed(s.log, s.size, s.conn.base);
    ReplayEffect(s);
    assert |missed| == |s.log| - c.base;
    assert s.log[c.base..] == missed by { assert (s.log[..c.base] + missed)[c.base..] == missed; }
    SendCarries(c.(resumed := true, from := c.base), c.base, missed, s.log);
    SendAt(c.(resumed := true, from := c.base), c.base, missed);
  }

  lemma ReplayKeepsInv(s: Session, lenient: bool)
    requires Inv(s, lenient) && s.conn.Up? && s.conn.open && !s.conn.resumed
    requires !Answer(|s.log|, s.size, s.conn.base).Gap?
    ensures Inv(Resumed(s), lenient)
  {
    ReplayIsSafe(s, lenient);
    ReplayKeepsFrames(s);
    ReplayEffect(s);
    SendAt(s.conn.(resumed := true, from := s.conn.base), s.conn.base, Missed(s.log, s.size, s.conn.base));
    var t := Resumed(s);
    assert Processed(t.conn, t.client);
    assert EarlyFine(t, lenient);
    assert ConnOk(t, lenient);
  }

  lemma ResumeKeepsInv(s: Session, lenient: bool)
    requires Inv(s, lenient) && s.conn.Up? && s.conn.open && !s.conn.resumed
    ensures Inv(Resumed(s), lenient)
  {
    if Answer(|s.log|, s.size, s.conn.base).Gap? { GapKeepsInv(s, lenient); } else { ReplayKeepsInv(s, lenient); }
  }

  /** Only early frames were processed, and more of them than the number resumed from. */
  lemma EarlyDeliveredIsSafe(s: Session, lenient: bool)
    requires s.size >= 1 && ClientOk(s) && s.conn.Up? && FramesOk(s) && ConnOk(s, lenient)
    requires s.conn.base < s.conn.delivered <= s.conn.early
    ensures SafeFrom(s, s.conn.delivered, lenient)
  {
    var c, k, d := s.conn, s.client, s.conn.delivered;
    if d + s.size >= |s.log| {
      var m := Min(c.early, s.size);
      assert d == c.early && c.start == s.size && Covered(k, s.log, m, lenient);
      if !lenient || !RefreshAbove(s.log, m) {
        forall i | 1 <= i <= d ensures Has(k, i) { if i > m { assert c.origin[i - s.size - 1] == i; } }
      } else if !RefreshAbove(s.log, d) {
        var j :| m <= j < |s.log| && s.log[j].name == REFRESH.name;
        assert m == s.size <= j < d && c.origin[j - s.size] == j + 1;
        forall i | 1 <= i <= d ensures Has(k, i) { if i > j + 1 { assert c.origin[i - s.size - 1] == i; } }
      }
    }
  }

  /** After an ok answer, processing d frames leaves nothing behind that no later frame covers. */
  lemma ReplayDeliveredIsSafe(s: Session, lenient: bool)
    requires ClientOk(s) && s.conn.Up? && FramesOk(s) && ConnOk(s, lenient)
    requires s.conn.resumed && !s.conn.gap && s.conn.early < s.conn.delivered && s.conn.base < s.conn.delivered
    ensures Covered(s.client, s.log, s.conn.delivered, lenient)
  {
    var c, k, d := s.conn, s.client, s.conn.delivered;
    var last := c.base + d - c.early;  // the last number processed
    if !lenient || !RefreshAbove(s.log, c.base) {
      forall i | 1 <= i <= d ensures Has(k, i) { if i > c.base { assert c.origin[i - c.base - 1 + c.early] == i; } }
    } else if !RefreshAbove(s.log, d) {
      var j :| c.base <= j < |s.log| && s.log[j].name == REFRESH.name;
      assert j < last && c.origin[j - c.base + c.early] == j + 1;
      forall i | 1 <= i <= d ensures Has(k, i) { if i > j + 1 { assert c.origin[i - c.base - 1 + c.early] == i; } }
    }
  }

  lemma GapDeliveredIsSafe(s: Session, lenient: bool)
    requires ClientOk(s) && s.conn.Up? && FramesOk(s) && ConnOk(s, lenient)
    requires s.conn.resumed && s.conn.gap && s.conn.early < s.conn.delivered
    ensures HasUpTo(s.client, s.conn.delivered)
  {
    var c := s.conn;
    assert c.origin[c.early] == c.from + 1;
    forall i | 1 <= i <= c.delivered ensures Has(s.client, i) {
      if i > c.from + 1 { assert c.origin[i - c.from - 1 + c.early] == i; }
    }
  }

  /** Whatever has been delivered, resuming from there is harmless. */
  lemma DeliveredIsSafe(s: Session, lenient: bool)
    requires s.size >= 1 && ClientOk(s) && s.conn.Up? && FramesOk(s) && ConnOk(s, lenient)
    ensures SafeFrom(s, s.client.lastSeq, lenient)
  {
    if s.conn.delivered > s.conn.base {
      if s.conn.delivered <= s.conn.early { EarlyDeliveredIsSafe(s, lenient); }
      else if s.conn.gap { GapDeliveredIsSafe(s, lenient); }
      else { ReplayDeliveredIsSafe(s, lenient); }
    }
  }

  lemma DeliverKeepsClient(s: Session)
    requires ClientOk(s) && s.conn.Up? && FramesOk(s) && s.conn.delivered < |s.conn.sent|
    ensures var t := Apply(s, Deliver);
      && ClientOk(t) && FramesOk(t)
      && t.client.got == s.client.got + [s.conn.origin[s.conn.delivered]]
      && (forall i :: i in s.client.got ==> i in t.client.got)
  {
    var t, c, k := Apply(s, Deliver), s.conn, s.client;
    assert t.client.got == k.got + [c.origin[c.delivered]];
  }

  lemma DeliverProcesses(s: Session)
    requires s.conn.Up? && FramesOk(s) && Processed(s.conn, s.client) && s.conn.delivered < |s.conn.sent|
    ensures Processed(Apply(s, Deliver).conn, Apply(s, Deliver).client)
  {}

  lemma DeliverKeepsInv(s: Session, lenient: bool)
    requires Inv(s, lenient) && s.conn.Up? && s.conn.delivered < |s.conn.sent|
    ensures Inv(Apply(s, Deliver), lenient)
  {
    DeliverKeepsClient(s);
    DeliverProcesses(s);
    var t := Apply(s, Deliver);
    StaysSafe(s, t, lenient);
    assert EarlyFine(t, lenient);
    assert ConnOk(t, lenient);
    DeliveredIsSafe(t, lenient);
  }

  lemma ConnectKeepsInv(s: Session, lenient: bool)
    requires Inv(s, lenient)
    ensures Inv(Apply(s, Connect), lenient)
  {}

  lemma SeverKeepsInv(s: Session, lenient: bool)
    requires Inv(s, lenient)
    ensures Inv(Apply(s, Sever), lenient)
  {}

  lemma StepKeepsInv(s: Session, step: Step, lenient: bool)
    requires Inv(s, lenient) && Guarded(s, step, lenient)
    ensures Inv(Apply(s, step), lenient)
  {
    match step
    case Emit(e) => EmitKeepsInv(s, e, lenient);
    case ResumeArrives => if s.conn.Up? && s.conn.open && !s.conn.resumed { ResumeKeepsInv(s, lenient); }
    case Deliver => if s.conn.Up? && s.conn.delivered < |s.conn.sent| { DeliverKeepsInv(s, lenient); }
    case Connect => ConnectKeepsInv(s, lenient);
    case Sever => SeverKeepsInv(s, lenient);
    case _ =>
  }

  lemma {:induction false} RunKeepsInv(s: Session, steps: seq<Step>, lenient: bool)
    requires Inv(s, lenient) && GuardedRun(s, steps, lenient)
    ensures Inv(Run(s, steps), lenient)
    decreases |steps|
  {
    if steps != [] {
      StepKeepsInv(s, steps[0], lenient);
      RunKeepsInv(Apply(s, steps[0]), steps[1..], lenient);
    }
  }

  // ---- Runs ----

  lemma {:induction false} RunKeepsSize(s: Session, steps: seq<Step>)
    ensures Run(s, steps).size == s.size
    decreases |steps|
  {
    if steps != [] { RunKeepsSize(Apply(s, steps[0]), steps[1..]); }
  }

  lemma {:induction false} RunAppend(s: Session, x: seq<Step>, y: seq<Step>)
    ensures Run(s, x + y) == Run(Run(s, x), y)
    ensures forall lenient :: GuardedRun(s, x, lenient) && GuardedRun(Run(s, x), y, lenient) ==>
        GuardedRun(s, x + y, lenient)
    decreases |x|
  {
    if x == [] {
      assert x + y == y;
    } else {
      assert (x + y)[1..] == x[1..] + y;
      RunAppend(Apply(s, x[0]), x[1..], y);
    }
  }

  lemma RunOne(s: Session, step: Step)
    ensures Run(s, [step]) == Apply(s, step)
    ensures forall lenient :: GuardedRun(s, [step], lenient) <==> Guarded(s, step, lenient)
  {
    assert Run(Apply(s, step), []) == Apply(s, step);
    assert [step][1..] == [];
  }

  // ---- Main results: safety over every guarded run ----

  lemma InitInv(size: nat, lenient: bool)
    requires size >= 1
    ensures Inv(Init(size), lenient)
  {}

  /** Whatever a connection lost, the next resume does not skip it: an ok answer replays
      exactly what follows a prefix the client already has. The connection counters that
      feed lastSeq restart every time, the log's numbers do not. */
  lemma ResumeSkipsNothing(size: nat, steps: seq<Step>)
    requires size >= 1 && GuardedRun(Init(size), steps, false)
    ensures var s := Run(Init(size), steps);
      s.conn.Up? && s.conn.open && !s.conn.resumed && !Answer(|s.log|, size, s.conn.base).Gap? ==>
        && s.conn.base <= |s.log|
        && HasUpTo(s.client, s.conn.base)
        && s.log[..s.conn.base] + Missed(s.log, size, s.conn.base) == s.log
  {
    InitInv(size, false);
    RunKeepsInv(Init(size), steps, false);
    RunKeepsSize(Init(size), steps);
    var s := Run(Init(size), steps);
    if s.conn.Up? && s.conn.open && !s.conn.resumed && !Answer(|s.log|, size, s.conn.base).Gap? {
      ReplayIsSafe(s, false);
    }
  }

  /** Caught up after an ok answer. */
  lemma ReplayNeverLost(s: Session, lenient: bool)
    requires Inv(s, lenient) && CaughtUp(s) && !s.conn.gap
    ensures HasUpTo(s.client, |s.log|)
  {
    var c, k, n := s.conn, s.client, |s.log|;
    if !lenient || !RefreshAbove(s.log, c.base) {
      forall i | 1 <= i <= n ensures Has(k, i) { if i > c.base { assert c.origin[i - c.base - 1 + c.early] == i; } }
    } else {
      var j :| c.base <= j < n && s.log[j].name == REFRESH.name;
      assert c.origin[j - c.base + c.early] == j + 1;
      forall i | 1 <= i <= n ensures Has(k, i) { if i > j + 1 { assert c.origin[i - c.base - 1 + c.early] == i; } }
    }
  }

  lemma NeverLost(s: Session, lenient: bool)
    requires Inv(s, lenient)
    ensures !Lost(s)
  {
    if CaughtUp(s) {
      var c, n := s.conn, |s.log|;
      if c.gap {
        assert c.origin[c.early] == c.from + 1;
        forall i | 1 <= i <= n ensures Has(s.client, i) {
          if i > c.from + 1 { assert c.origin[i - c.from - 1 + c.early] == i; }
        }
      } else {
        ReplayNeverLost(s, lenient);
      }
    }
  }

  /** After any number of drops and reconnects, a client that has caught up has received every
      event or a refresh after it, and what it received is what was emitted under that number. */
  lemma CaughtUpClientsHaveEverything(size: nat, steps: seq<Step>, lenient: bool)
    requires size >= 1 && GuardedRun(Init(size), steps, lenient)
    ensures var s := Run(Init(size), steps);
      && !Lost(s)
      && |s.client.received| == |s.client.got|
      && forall i :: 0 <= i < |s.client.got| ==>
           1 <= s.client.got[i] <= |s.log| && s.client.received[i] == s.log[s.client.got[i] - 1]
  {
    InitInv(size, lenient);
    RunKeepsInv(Init(size), steps, lenient);
    NeverLost(Run(Init(size), steps), lenient);
  }

  // ---- Events emitted while the connection is going ----

  /** Once the server's socket has left OPEN an event goes into the log only. If the buffer still holds what the
      client has not counted, the next connection's resume sends exactly that again, this event last. */
  lemma EmittedWhileGoingIsReplayed(s: Session, e: Event)
    requires s.conn.Up? && s.client.lastSeq <= |s.log| && |s.log| + 1 - s.client.lastSeq <= s.size
    ensures var t := Run(s, [Sever] + [Emit(e)]);
      && t.conn.Up? && t.conn.sent == s.conn.sent && t.log == s.log + [e]
      && var u := Run(t, [Drop] + ([Connect] + [ResumeArrives]));
         && u.conn.Up? && u.log == t.log && |u.conn.sent| == |t.log| - s.client.lastSeq
         && forall j :: 0 <= j < |u.conn.sent| ==> u.conn.sent[j] == Frame(j + 1, t.log[s.client.lastSeq + j])
  {
    var s1 := Apply(s, Sever);
    var t := Apply(s1, Emit(e));
    var t1 := Apply(t, Drop);
    var t2 := Apply(t1, Connect);
    RunOne(s, Sever);
    RunOne(s1, Emit(e));
    RunAppend(s, [Sever], [Emit(e)]);
    RunOne(t, Drop);
    RunOne(t1, Connect);
    RunOne(t2, ResumeArrives);
    RunAppend(t1, [Connect], [ResumeArrives]);
    RunAppend(t, [Drop], [Connect] + [ResumeArrives]);
    GapIffNextEvicted(t.log, s.size, s.client.lastSeq);
  }
}
