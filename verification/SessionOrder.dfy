/** What a client receives when every resume is answered ok: over any number of connections the
    events 1 to m, each at least once; over the first two, exactly once and in order. */
module SessionOrder {
  import opened Wire
  import opened Replay
  import opened ReconnectSession

  /** No expiry, nothing emitted while a resume is on its way, no gap. */
  predicate Plain(s: Session, step: Step) {
    match step
    case Emit(_) => s.conn.Up? && s.conn.open ==> s.conn.resumed
    case ResumeArrives => s.conn.Up? ==> !Answer(|s.log|, s.size, s.conn.base).Gap?
    case Expire => s.conn.Up?
    case _ => true
  }

  predicate PlainRun(s: Session, steps: seq<Step>)
    decreases |steps|
  {
    steps == [] || (Plain(s, steps[0]) && PlainRun(Apply(s, steps[0]), steps[1..]))
  }

  lemma PlainIsGuarded(s: Session, step: Step)
    requires Plain(s, step)
    ensures Guarded(s, step, false)
  {}

  // ---- Any number of connections ----

  /** The largest number among those received, 0 if there is none. */
  function Newest(got: seq<nat>): nat {
    if got == [] then 0 else Max(Newest(got[..|got| - 1]), got[|got| - 1])
  }

  lemma NewestOneMore(got: seq<nat>, i: nat)
    ensures Newest(got + [i]) == Max(Newest(got), i)
  {
    assert (got + [i])[..|got|] == got;
  }

  /** The client received exactly the events 1 to m, and the connection does not go on past m + 1. */
  ghost predicate NoHoles(s: Session) {
    var m := Newest(s.client.got);
    && Inv(s, false)
    && (forall i :: i in s.client.got <==> 1 <= i <= m)
    && s.client.lastSeq <= m
    && (s.conn.Up? ==> s.conn.early == 0 && !s.conn.gap && s.conn.base + s.conn.delivered <= m)
  }

  lemma DeliverKeepsNoHoles(s: Session)
    requires NoHoles(s) && s.conn.Up? && s.conn.delivered < |s.conn.sent|
    ensures NoHoles(Apply(s, Deliver))
  {
    var i := s.conn.base + s.conn.delivered + 1;
    DeliverKeepsClient(s);
    DeliverKeepsInv(s, false);
    assert s.conn.origin[s.conn.delivered] == i;
    OneMoreReceived(s.client.got, i);
    assert Apply(s, Deliver).client.got == s.client.got + [i];
  }

  /** Receiving a number within or just after 1 to m leaves no hole. */
  lemma OneMoreReceived(got: seq<nat>, i: nat)
    requires (forall k :: k in got <==> 1 <= k <= Newest(got)) && 1 <= i <= Newest(got) + 1
    ensures Newest(got + [i]) == Max(Newest(got), i)
    ensures forall k :: k in got + [i] <==> 1 <= k <= Max(Newest(got), i)
  {
    NewestOneMore(got, i);
    forall k ensures k in got + [i] <==> 1 <= k <= Max(Newest(got), i) {
      assert k in got + [i] <==> k in got || k == i;
    }
  }

  lemma EmitKeepsNoHoles(s: Session, e: Event)
    requires NoHoles(s) && Plain(s, Emit(e))
    ensures NoHoles(Apply(s, Emit(e)))
  {
    EmitKeepsInv(s, e, false);
  }

  lemma StepKeepsNoHoles(s: Session, step: Step)
    requires NoHoles(s) && Plain(s, step)
    ensures NoHoles(Apply(s, step))
  {
    PlainIsGuarded(s, step);
    StepKeepsInv(s, step, false);
    match step
    case Emit(e) => EmitKeepsNoHoles(s, e);
    case ResumeArrives =>
      if s.conn.Up? && s.conn.open && !s.conn.resumed { ReplayEffect(s); }
    case Deliver => if s.conn.Up? && s.conn.delivered < |s.conn.sent| { DeliverKeepsNoHoles(s); }
    case _ =>
  }

  lemma {:induction false} RunKeepsNoHoles(s: Session, steps: seq<Step>)
    requires NoHoles(s) && PlainRun(s, steps)
    ensures NoHoles(Run(s, steps))
    decreases |steps|
  {
    if steps != [] {
      StepKeepsNoHoles(s, steps[0]);
      RunKeepsNoHoles(Apply(s, steps[0]), steps[1..]);
    }
  }

  /** Over any number of drops and reconnects whose resumes are answered ok, what the client has
      received is exactly events 1 to m of the log, each at least once, and lastSeq never
      exceeds m. */
  lemma ReceivedIsAPrefix(size: nat, steps: seq<Step>)
    requires size >= 1 && PlainRun(Init(size), steps)
    ensures var s := Run(Init(size), steps);
      var m := Newest(s.client.got);
      && s.client.lastSeq <= m <= |s.log|
      && (forall i :: i in s.client.got <==> 1 <= i <= m)
      && |s.client.received| == |s.client.got|
      && (forall j :: 0 <= j < |s.client.got| ==>
            1 <= s.client.got[j] <= |s.log| && s.client.received[j] == s.log[s.client.got[j] - 1])
  {
    InitInv(size, false);
    RunKeepsNoHoles(Init(size), steps);
    var s := Run(Init(size), steps);
    var m := Newest(s.client.got);
    if m > 0 { assert m in s.client.got; }
  }

  /** In every state of such a run: lastSeq is within the fully received prefix. */
  lemma LastSeqIsReceived(size: nat, steps: seq<Step>)
    requires size >= 1 && PlainRun(Init(size), steps)
    ensures HasUpTo(Run(Init(size), steps).client, Run(Init(size), steps).client.lastSeq)
  {
    ReceivedIsAPrefix(size, steps);
  }

  // ---- Doubled events ----

  lemma FirstFrameAfterReconnect(s: Session)
    requires Inv(s, false) && s.conn.Down? && s.client.lastSeq < |s.log| <= s.client.lastSeq + s.size
    ensures Apply(Apply(Apply(s, Connect), ResumeArrives), Deliver).client.got
            == s.client.got + [s.client.lastSeq + 1]
  {
    var t := Apply(s, Connect);
    StepKeepsInv(s, Connect, false);
    GapIffNextEvicted(t.log, t.size, t.conn.base);
    ReplayIsSafe(t, false);
    SendAt(t.conn.(resumed := true, from := t.conn.base), t.conn.base, Missed(t.log, t.size, t.conn.base));
  }

  lemma RunFour(s: Session, a: Step, b: Step, c: Step, d: Step)
    ensures Run(s, [a, b, c, d]) == Apply(Apply(Apply(Apply(s, a), b), c), d)
  {
    var t, u, v := Apply(s, a), Apply(Apply(s, a), b), Apply(Apply(Apply(s, a), b), c);
    assert [a, b, c, d][1..] == [b, c, d] && [b, c, d][1..] == [c, d] && [c, d][1..] == [d];
    assert Run(v, [d]) == Run(Apply(v, d), []);
    assert Run(u, [c, d]) == Run(v, [d]);
    assert Run(t, [b, c, d]) == Run(u, [c, d]);
  }

  /** The next connection's first frame is event lastSeq + 1. */
  lemma NextFrame(s: Session, e: Event)
    requires NoHoles(s) && s.conn.Down? && |s.log| < s.client.lastSeq + s.size
    ensures Run(s, [Emit(e), Connect, ResumeArrives, Deliver]).client.got == s.client.got + [s.client.lastSeq + 1]
  {
    RunFour(s, Emit(e), Connect, ResumeArrives, Deliver);
    EmitKeepsInv(s, e, false);
    if s.client.lastSeq > 0 { assert s.client.lastSeq in s.client.got; }
    FirstFrameAfterReconnect(Apply(s, Emit(e)));
  }

  /** After any number of connections with ok resumes, the first frame after a reconnect is one the
      client has received before exactly when lastSeq, the largest frame number of any one
      connection, is behind m, the newest event received. */
  lemma ReplayDoublesIffBehind(size: nat, steps: seq<Step>, e: Event)
    requires size >= 1 && PlainRun(Init(size), steps)
    requires var s := Run(Init(size), steps); s.conn.Down? && |s.log| < s.client.lastSeq + size
    ensures var s := Run(Init(size), steps);
      var t := Run(s, [Emit(e), Connect, ResumeArrives, Deliver]);
      && t.client.got == s.client.got + [s.client.lastSeq + 1]
      && (s.client.lastSeq + 1 in s.client.got <==> s.client.lastSeq < Newest(s.client.got))
  {
    InitInv(size, false);
    RunKeepsNoHoles(Init(size), steps);
    RunKeepsSize(Init(size), steps);
    NextFrame(Run(Init(size), steps), e);
  }

  /** A whole connection that delivers one event to a client with nothing to catch up on. */
  function Round(e: Event): seq<Step> { [Connect, ResumeArrives, Emit(e), Deliver, Drop] }

  lemma NothingToResume(s: Session)
    requires s.conn.Down? && s.size >= 1 && |s.log| <= s.client.lastSeq
    ensures var n, base := |s.log|, s.client.lastSeq;
      Apply(Apply(s, Connect), ResumeArrives) == s.(conn := Up(true, base, true, [], 0, n, 0, base, false, []))
  {
    assert Missed(s.log, s.size, s.client.lastSeq) == [];
    var c := Apply(Apply(s, Connect), ResumeArrives).conn;
    assert c.sent == [] && c.origin == [];
  }

  lemma RoundEffect(s: Session, e: Event)
    requires s.conn.Down? && s.size >= 1 && e.name != REFRESH.name
    requires |s.log| <= s.client.lastSeq
    ensures Run(s, Round(e)) ==
            s.(log := s.log + [e], client := Receive(s.client, Frame(1, e), |s.log| + 1))
  {
    var s1 := Apply(s, Connect);
    NothingToResume(s);
    var s3 := Apply(Apply(s1, ResumeArrives), Emit(e));
    assert s3.conn.sent == [Frame(1, e)] && s3.conn.origin == [|s.log| + 1];
    RunFour(s1, ResumeArrives, Emit(e), Deliver, Drop);
    assert Round(e)[1..] == [ResumeArrives, Emit(e), Deliver, Drop];
  }

  /** Two connections that deliver one event each leave lastSeq at 1 with two events
      received, so the first frame of a third connection is the second event again. */
  lemma ThirdConnectionDoubles(a: Event, b: Event, c: Event)
    requires a.name != REFRESH.name && b.name != REFRESH.name
    ensures var s := Run(Init(9), Round(a) + Round(b) + [Emit(c), Connect, ResumeArrives, Deliver]);
      s.client.got == [1, 2, 2]
  {
    RunAppend(Init(9), Round(a), Round(b));
    RoundEffect(Init(9), a);
    var s1 := Session(9, [a], Down, Client(1, [a], [1], 0), false);
    assert Run(Init(9), Round(a)) == s1;
    RoundEffect(s1, b);
    var s := Session(9, [a, b], Down, Client(1, [a, b], [1, 2], 0), false);
    assert Run(s1, Round(b)) == s;
    TwoReceived(a, b);
    RunAppend(Init(9), Round(a) + Round(b), [Emit(c), Connect, ResumeArrives, Deliver]);
    NextFrame(s, c);
  }

  lemma TwoReceived(a: Event, b: Event)
    ensures NoHoles(Session(9, [a, b], Down, Client(1, [a, b], [1, 2], 0), false))
  {
    NewestOneMore([], 1);
    NewestOneMore([1], 2);
    assert [] + [1] == [1] && [1] + [2] == [1, 2];
  }

  // ---- Exactly once, in order ----

  /** The client received events 1, 2, ..., m, each once and in order. */
  predicate InOrder(s: Session) {
    |s.client.got| <= |s.log| && forall i :: 0 <= i < |s.client.got| ==> s.client.got[i] == i + 1
  }

  function Connects(s: Session, steps: seq<Step>): nat
    decreases |steps|
  {
    if steps == [] then 0
    else (if steps[0].Connect? && s.conn.Down? then 1 else 0) + Connects(Apply(s, steps[0]), steps[1..])
  }

  /** In order so far, and the current connection continues where the client stands. */
  ghost predicate Tidy(s: Session) {
    && Inv(s, false) && InOrder(s)
    && (s.conn.Down? || (s.conn.early == 0 && !s.conn.gap && s.conn.base + s.conn.delivered == |s.client.got|))
  }

  lemma ResumeKeepsTidy(s: Session)
    requires Tidy(s) && s.conn.Up? && s.conn.open && !s.conn.resumed && !Answer(|s.log|, s.size, s.conn.base).Gap?
    ensures Tidy(Resumed(s))
  {
    ReplayIsSafe(s, false);
    ReplayKeepsFrames(s);
    ReplayKeepsInv(s, false);
  }

  lemma DeliverKeepsTidy(s: Session)
    requires Tidy(s) && s.conn.Up? && s.conn.delivered < |s.conn.sent|
    ensures Tidy(Apply(s, Deliver))
  {
    DeliverKeepsClient(s);
    DeliverKeepsInv(s, false);
    assert s.conn.resumed && s.conn.origin[s.conn.delivered] == s.conn.base + s.conn.delivered + 1;
  }

  lemma EmitKeepsTidy(s: Session, e: Event)
    requires Tidy(s) && Plain(s, Emit(e))
    ensures Tidy(Apply(s, Emit(e)))
  {
    EmitKeepsInv(s, e, false);
  }

  lemma StepKeepsTidy(s: Session, step: Step)
    requires Tidy(s) && Plain(s, step)
    requires step.Connect? && s.conn.Down? ==> s.client.lastSeq == |s.client.got|
    ensures Tidy(Apply(s, step))
  {
    match step
    case Emit(e) => EmitKeepsTidy(s, e);
    case ResumeArrives => if s.conn.Up? && s.conn.open && !s.conn.resumed { ResumeKeepsTidy(s); }
    case Deliver => if s.conn.Up? && s.conn.delivered < |s.conn.sent| { DeliverKeepsTidy(s); }
    case _ => PlainIsGuarded(s, step); StepKeepsInv(s, step, false);
  }

  /** How many connections a run may still open without a frame coming twice: the first
      connection counts from nothing, the second from what the first delivered. */
  predicate Budget(s: Session, left: nat) {
    || left == 0
    || (s.client.lastSeq == |s.client.got| && (left == 1 || (s.conn.Down? && s.client.lastSeq == 0)))
  }

  lemma {:induction false} TidyRun(s: Session, steps: seq<Step>, left: nat)
    requires Tidy(s) && PlainRun(s, steps) && Connects(s, steps) <= left <= 2 && Budget(s, left)
    requires left == 1 && s.conn.Up? ==> s.conn.base == 0
    ensures Tidy(Run(s, steps))
    decreases |steps|
  {
    if steps != [] {
      var t := Apply(s, steps[0]);
      StepKeepsTidy(s, steps[0]);
      var opens := steps[0].Connect? && s.conn.Down?;
      TidyRun(t, steps[1..], if opens then left - 1 else left);
    }
  }

  /** Over the first connection, a drop and a first ok resume, what the client received is
      a prefix of the log: in order, nothing lost, nothing doubled. */
  lemma TwoConnectionsDeliverAPrefix(size: nat, steps: seq<Step>)
    requires size >= 1 && PlainRun(Init(size), steps) && Connects(Init(size), steps) <= 2
    ensures var s := Run(Init(size), steps); s.client.received <= s.log
  {
    InitInv(size, false);
    TidyRun(Init(size), steps, 2);
    var s := Run(Init(size), steps);
    assert s.client.received == s.log[..|s.client.received|];
  }
}
