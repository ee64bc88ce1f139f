/** What happens to a client session outside the guard of ReconnectSession: an event is passed
    over, and no later connection asks for it. */
module SessionLosses {
  import opened Wire
  import opened Replay
  import opened ReconnectSession

  // ---- Passed over ----

  /** The client counts past event i without having received it, and i is not on its way. */
  predicate Skipped(s: Session, i: nat) {
    && 1 <= i <= |s.log| && i <= s.client.lastSeq && i !in s.client.got
    && (s.conn.Up? ==>
          && (forall j :: s.conn.delivered <= j < |s.conn.origin| ==> s.conn.origin[j] != i)
          && (!s.conn.resumed ==> i <= s.conn.base))
  }

  lemma ResumeKeepsSkipped(s: Session, i: nat)
    requires Skipped(s, i) && s.conn.Up? && s.conn.open && !s.conn.resumed
    ensures Skipped(Resumed(s), i)
  {}

  lemma StepKeepsSkipped(s: Session, step: Step, i: nat)
    requires Skipped(s, i) && !step.Expire?
    ensures Skipped(Apply(s, step), i)
  {
    match step
    case ResumeArrives => if s.conn.Up? && s.conn.open && !s.conn.resumed { ResumeKeepsSkipped(s, i); }
    case _ =>
  }

  /** Whatever follows, short of an expiry, the client never receives the event itself: only a
      refresh numbered i or later can make up for it. */
  lemma {:induction false} SkippedForGood(s: Session, i: nat, steps: seq<Step>)
    requires Skipped(s, i) && forall k :: 0 <= k < |steps| ==> !steps[k].Expire?
    ensures Skipped(Run(s, steps), i)
    ensures i !in Run(s, steps).client.got
    ensures Has(Run(s, steps).client, i) <==> i <= Run(s, steps).client.refreshedTo
    decreases |steps|
  {
    if steps != [] {
      StepKeepsSkipped(s, steps[0], i);
      SkippedForGood(Apply(s, steps[0]), i, steps[1..]);
    }
  }

  /** Caught up, and without an event that has been passed over. */
  ghost predicate Gone(s: Session) { CaughtUp(s) && exists i :: Skipped(s, i) && !Has(s.client, i) }

  lemma GoneIsLost(s: Session)
    requires Gone(s)
    ensures Lost(s)
  {
    var i :| Skipped(s, i) && !Has(s.client, i);
  }

  // ---- Counting ahead of the log ----

  /** A client whose lastSeq has reached the end of a log it does not have is told ok and sent
      nothing. */
  lemma StaleResumeLoses(s: Session)
    requires s.conn.Down? && 1 <= |s.log| <= s.client.lastSeq && !Has(s.client, |s.log|)
    ensures GuardedRun(s, [Connect, ResumeArrives], true) && Gone(Run(s, [Connect, ResumeArrives]))
  {
    var t := Apply(s, Connect);
    assert Missed(t.log, t.size, t.conn.base) == [];
    var u := Apply(t, ResumeArrives);
    assert u == Resumed(t) && u.conn.sent == [] && u.client == s.client && u.log == s.log;
    assert Skipped(u, |s.log|);
    RunOne(t, ResumeArrives);
    assert [Connect, ResumeArrives][1..] == [ResumeArrives];
  }

  const LAST := Event("last", JNull)

  /** The next event is dropped with the connection, and then never asked for. */
  lemma AheadLoses(s: Session) returns (steps: seq<Step>)
    requires ClientOk(s) && |s.log| < s.client.lastSeq
    requires s.conn.Up? ==> s.conn.resumed
    ensures GuardedRun(s, steps, true) && Gone(Run(s, steps))
  {
    var t := Apply(s, Emit(LAST));
    var u := Apply(t, Drop);
    assert !Has(u.client, |u.log|);
    StaleResumeLoses(u);
    steps := [Emit(LAST), Drop] + [Connect, ResumeArrives];
    assert steps[1..] == [Drop] + [Connect, ResumeArrives];
    assert steps[1..][1..] == [Connect, ResumeArrives];
  }

  lemma {:induction false} DeliverAllThenLose(s: Session) returns (steps: seq<Step>)
    requires ClientOk(s) && s.conn.Up? && FramesOk(s)
    requires s.conn.resumed && s.conn.open && s.conn.from == s.conn.base < s.conn.early
    requires s.client.lastSeq == Max(s.conn.base, s.conn.delivered)
    ensures GuardedRun(s, steps, true) && Gone(Run(s, steps))
    decreases |s.conn.sent| - s.conn.delivered
  {
    if s.conn.delivered == |s.conn.sent| {
      steps := AheadLoses(s);
    } else {
      DeliverKeepsClient(s);
      var rest := DeliverAllThenLose(Apply(s, Deliver));
      steps := [Deliver] + rest;
      assert steps[1..] == rest;
    }
  }

  /** More frames went out than the number the client resumes from, and the resume will be
      answered by a replay: the frame numbers then end beyond the log. */
  lemma OvercountLoses(t: Session) returns (steps: seq<Step>)
    requires ClientOk(t) && t.conn.Up? && FramesOk(t) && t.conn.open && !t.conn.resumed
    requires t.conn.base < t.conn.early && t.conn.base <= |t.log| <= t.conn.base + t.size && t.size >= 1
    requires t.client.lastSeq == Max(t.conn.base, t.conn.delivered)
    ensures GuardedRun(t, steps, true) && Gone(Run(t, steps))
  {
    GapIffNextEvicted(t.log, t.size, t.conn.base);
    ReplayKeepsFrames(t);
    var u := Apply(t, ResumeArrives);
    var rest := DeliverAllThenLose(u);
    steps := [ResumeArrives] + rest;
    assert steps[1..] == rest;
  }

  // ---- Expiry ----

  /** A fresh ResumableSocket under a client that still counts from the old one passes over an event
      to come; under one that has counted nothing, the events it is without are gone at once. */
  lemma ExpireLoses(s: Session) returns (steps: seq<Step>)
    requires Inv(s, true) && !Guarded(s, Expire, true)
    ensures GuardedRun(Apply(s, Expire), steps, true) && Lost(Run(Apply(s, Expire), steps))
    ensures s.client.lastSeq > 0 ==> Gone(Run(Apply(s, Expire), steps))
  {
    var t := Apply(s, Expire);
    if s.client.lastSeq > 0 {
      steps := AheadLoses(t);
      GoneIsLost(Run(t, steps));
    } else {
      OwedLoses(t);
      steps := [Connect, ResumeArrives];
    }
  }

  /** A client that is owed an event from before an expiry catches up with a fresh log without it. */
  lemma OwedLoses(t: Session)
    requires t.owed && t.conn.Down? && t.log == []
    ensures GuardedRun(t, [Connect, ResumeArrives], true) && Lost(Run(t, [Connect, ResumeArrives]))
  {
    var u := Apply(t, Connect);
    assert Missed(u.log, u.size, u.conn.base) == [];
    var v := Apply(u, ResumeArrives);
    assert v == Resumed(u) && v.conn.sent == [];
    RunOne(u, ResumeArrives);
    assert [Connect, ResumeArrives][1..] == [ResumeArrives];
  }

  /** The client is owed something exactly until it processes a refresh. */
  ghost predicate OwedSince(s: Session) {
    && (s.owed <==> s.client.refreshedTo == 0)
    && (s.conn.Up? ==> forall j :: 0 <= j < |s.conn.origin| ==> s.conn.origin[j] >= 1)
  }

  lemma SendNumbers(c: Conn, n: nat, events: seq<Event>)
    requires c.Up? && forall j :: 0 <= j < |c.origin| ==> c.origin[j] >= 1
    ensures var d := Send(c, n, events); d.Up? && forall j :: 0 <= j < |d.origin| ==> d.origin[j] >= 1
  {}

  lemma StepKeepsOwedSince(s: Session, step: Step)
    requires OwedSince(s) && !step.Expire?
    ensures OwedSince(Apply(s, step))
  {
    match step
    case Emit(e) => if s.conn.Up? { SendNumbers(s.conn, |s.log|, [e]); }
    case ResumeArrives =>
      if s.conn.Up? && s.conn.open && !s.conn.resumed {
        SendNumbers(s.conn.(resumed := true, from := |s.log|, gap := true), |s.log|, [REFRESH]);
        SendNumbers(s.conn.(resumed := true, from := s.conn.base), s.conn.base, Missed(s.log, s.size, s.conn.base));
      }
    case _ =>
  }

  lemma {:induction false} OwedFrom(s: Session, steps: seq<Step>)
    requires OwedSince(s) && forall k :: 0 <= k < |steps| ==> !steps[k].Expire?
    ensures OwedSince(Run(s, steps))
    decreases |steps|
  {
    if steps != [] {
      StepKeepsOwedSince(s, steps[0]);
      OwedFrom(Apply(s, steps[0]), steps[1..]);
    }
  }

  /** An expiry under a client that is without some event: whatever follows, short of another expiry, the
      client stays without it exactly until it processes a refresh. */
  lemma OwedUntilRefresh(s: Session, steps: seq<Step>)
    requires s.conn.Down? && !HasUpTo(s.client, |s.log|) && forall k :: 0 <= k < |steps| ==> !steps[k].Expire?
    ensures var t := Run(Apply(s, Expire), steps); t.owed <==> t.client.refreshedTo == 0
  {
    OwedFrom(Apply(s, Expire), steps);
  }

  lemma RunTwo(s: Session, x: Step, y: Step)
    ensures Run(s, [x, y]) == Apply(Apply(s, x), y)
    ensures Guarded(s, x, true) && Guarded(Apply(s, x), y, true) ==> GuardedRun(s, [x, y], true)
  {
    assert [x, y] == [x] + [y];
    RunOne(s, x);
    RunOne(Apply(s, x), y);
    RunAppend(s, [x], [y]);
  }

  /** A first connection that breaks before its only frame is processed leaves a client that has counted
      nothing; an expiry then loses the event. */
  lemma UnprocessedThenExpired(size: nat, e: Event)
    requires size >= 1
    ensures var s := Run(Init(size), [Connect, ResumeArrives, Emit(e), Drop]);
      && GuardedRun(Init(size), [Connect, ResumeArrives, Emit(e), Drop], true)
      && s.client.lastSeq == 0 && s.log == [e] && !SafeFromHere(Apply(s, Expire))
  {
    var s1 := Apply(Init(size), Connect);
    var s2 := Apply(s1, ResumeArrives);
    assert Missed(s1.log, size, 0) == [];
    var s3 := Apply(s2, Emit(e));
    var s4 := Apply(s3, Drop);
    assert [Connect, ResumeArrives] + [Emit(e), Drop] == [Connect, ResumeArrives, Emit(e), Drop];
    RunTwo(Init(size), Connect, ResumeArrives);
    RunTwo(s2, Emit(e), Drop);
    RunAppend(Init(size), [Connect, ResumeArrives], [Emit(e), Drop]);
    assert !Has(s4.client, 1);
    OwedLoses(Apply(s4, Expire));
    NotSafe(Apply(s4, Expire), [Connect, ResumeArrives]);
  }

  // ---- A log exactly as long as the buffer ----

  /** Nothing still to be processed on this connection makes up for event i. */
  ghost predicate Pending(s: Session, i: nat)
    requires s.conn.Up? && FramesOk(s)
  {
    && !Has(s.client, i)
    && forall j :: s.conn.delivered <= j < |s.conn.sent| ==>
         s.conn.origin[j] != i && s.conn.sent[j].event.name != REFRESH.name
  }

  lemma {:induction false} DeliverAll(s: Session, i: nat) returns (steps: seq<Step>, u: Session)
    requires ClientOk(s) && s.conn.Up? && FramesOk(s) && Pending(s, i)
    ensures GuardedRun(s, steps, true) && Run(s, steps) == u
    ensures ClientOk(u) && !Has(u.client, i)
    ensures u == s.(conn := s.conn.(delivered := |s.conn.sent|), client := u.client)
    ensures s.client.lastSeq <= u.client.lastSeq <= Max(s.client.lastSeq, |s.conn.sent|)
    ensures s.conn.delivered < |s.conn.sent| ==> u.client.lastSeq >= |s.conn.sent|
    decreases |s.conn.sent| - s.conn.delivered
  {
    if s.conn.delivered == |s.conn.sent| {
      steps, u := [], s;
    } else {
      DeliverKeepsClient(s);
      var t := Apply(s, Deliver);
      var rest;
      rest, u := DeliverAll(t, i);
      steps := [Deliver] + rest;
      assert steps[1..] == rest;
    }
  }

  /** After the reconnect nothing on the way makes up for event i. */
  lemma ReplayPending(u: Session, i: nat)
    requires ClientOk(u) && u.size >= 1 && u.conn.Down? && !Has(u.client, i)
    requires 1 <= i <= u.client.lastSeq && |u.log| == u.client.lastSeq + u.size
    requires !RefreshAbove(u.log, u.client.lastSeq)
    ensures var w := Apply(Apply(u, Connect), ResumeArrives);
      && w.client == u.client && w.log == u.log && w.size == u.size
      && w.conn.Up? && w.conn.open && w.conn.resumed && FramesOk(w) && Pending(w, i)
  {
    var v := Apply(u, Connect);
    GapIffNextEvicted(v.log, v.size, v.conn.base);
    ReplayKeepsFrames(v);
    ReplayEffect(v);
    SendAt(v.conn.(resumed := true, from := v.conn.base), v.conn.base, Missed(v.log, v.size, v.conn.base));
  }

  /** The client is connected anew, resumes from the oldest number still answered ok, and
      catches up without event i. */
  lemma ReconnectLoses(u: Session, i: nat) returns (steps: seq<Step>)
    requires ClientOk(u) && u.size >= 1 && u.conn.Down? && !Has(u.client, i)
    requires 1 <= i <= u.client.lastSeq && |u.log| == u.client.lastSeq + u.size
    requires !RefreshAbove(u.log, u.client.lastSeq)
    ensures GuardedRun(u, steps, true) && Gone(Run(u, steps))
  {
    var w := Apply(Apply(u, Connect), ResumeArrives);
    ReplayPending(u, i);
    var rest, x := DeliverAll(w, i);
    assert Skipped(x, i);
    steps := [Connect, ResumeArrives] + rest;
    assert steps[1..] == [ResumeArrives] + rest;
    assert steps[1..][1..] == rest;
  }

  /** An early event is the last one the buffer has room for besides what the client needs. */
  lemma FullBufferLoses(t: Session, i: nat) returns (steps: seq<Step>)
    requires ClientOk(t) && t.size >= 1 && t.conn.Up? && FramesOk(t) && t.conn.open && !t.conn.resumed
    requires t.conn.start == t.size && t.client.lastSeq == Max(t.conn.base, t.conn.delivered) <= t.conn.early
    requires t.conn.delivered < t.conn.early
    requires 1 <= i <= Min(t.conn.early, t.size) && !Has(t.client, i) && !RefreshAbove(t.log, Min(t.conn.early, t.size))
    ensures GuardedRun(t, steps, true) && Gone(Run(t, steps))
  {
    assert forall j :: t.conn.delivered <= j < |t.conn.sent| ==> t.conn.origin[j] == t.size + j + 1;
    assert Pending(t, i);
    var first, u := DeliverAll(t, i);
    var d := Apply(u, Drop);
    assert u.client.lastSeq == t.conn.early;
    var rest := ReconnectLoses(d, i);
    RunOne(u, Drop);
    RunAppend(t, first, [Drop]);
    RunAppend(t, first + [Drop], rest);
    steps := first + [Drop] + rest;
  }

  // ---- The guard is exact ----

  /** One early event too many. */
  lemma EarlyEmitLoses(s: Session, e: Event) returns (steps: seq<Step>)
    requires Inv(s, true) && !Guarded(s, Emit(e), true)
    ensures GuardedRun(Apply(s, Emit(e)), steps, true) && Gone(Run(Apply(s, Emit(e)), steps))
  {
    var t := Apply(s, Emit(e));
    EmitKeepsFrames(s, e);
    SendAt(s.conn, |s.log|, [e]);
    assert ClientOk(t);
    SafeBaseInLog(s, true);
    if s.conn.start < s.size {
      steps := OvercountLoses(t);
    } else {
      var i :| 1 <= i <= Min(t.conn.early, t.size) && !Has(s.client, i);
      steps := FullBufferLoses(t, i);
    }
  }

  /** No guarded continuation leaves a caught-up client without an event. */
  ghost predicate SafeFromHere(s: Session) {
    forall steps :: GuardedRun(s, steps, true) ==> !Lost(Run(s, steps))
  }

  lemma NotSafe(s: Session, steps: seq<Step>)
    requires GuardedRun(s, steps, true) && Lost(Run(s, steps))
    ensures !SafeFromHere(s)
  {}

  /** In every state a guarded run can reach, a step is inside the guard exactly when no guarded
      continuation ever leaves a caught-up client without an event, be it in the log or dropped from
      it by an expiry. */
  lemma GuardIsExact(s: Session, step: Step)
    requires Inv(s, true)
    ensures Guarded(s, step, true) <==> SafeFromHere(Apply(s, step))
  {
    var t := Apply(s, step);
    if Guarded(s, step, true) {
      StepKeepsInv(s, step, true);
      forall steps | GuardedRun(t, steps, true) ensures !Lost(Run(t, steps)) {
        RunKeepsInv(t, steps, true);
        NeverLost(Run(t, steps), true);
      }
    } else if step.Emit? {
      var steps := EarlyEmitLoses(s, step.e);
      GoneIsLost(Run(t, steps));
      NotSafe(t, steps);
    } else {
      assert step == Expire;
      var steps := ExpireLoses(s);
      NotSafe(t, steps);
    }
  }

  /** A single event emitted on a first connection before the resume arrives is outside
      the guard, whatever the buffer size. */
  lemma FirstConnectionEarlyEmitLoses(size: nat, e: Event)
    requires size >= 1
    ensures !SafeFromHere(Run(Init(size), [Connect, Emit(e)]))
  {
    var s := Apply(Init(size), Connect);
    InitInv(size, true);
    StepKeepsInv(Init(size), Connect, true);
    GuardIsExact(s, Emit(e));
    RunOne(s, Emit(e));
    assert [Connect, Emit(e)][1..] == [Emit(e)];
  }

  // ---- A buffer just filled, of every size ----

  function Emits(events: seq<Event>): seq<Step> { seq(|events|, i requires 0 <= i < |events| => Emit(events[i])) }

  lemma {:induction false} EmitsWhileDown(s: Session, events: seq<Event>)
    requires s.conn.Down?
    ensures Run(s, Emits(events)) == s.(log := s.log + events) && GuardedRun(s, Emits(events), true)
    decreases |events|
  {
    if events == [] {
      assert s.log + [] == s.log;
    } else {
      EmitsWhileDown(Apply(s, Emit(events[0])), events[1..]);
      assert Emits(events)[1..] == Emits(events[1..]);
      assert s.log + [events[0]] + events[1..] == s.log + events;
    }
  }

  /** Events that just fill the buffer before the first connection: one more before the resume
      arrives, and the first of them is lost, unless one of the later ones is a refresh. */
  lemma FullBufferEarlyEmitIff(events: seq<Event>, e: Event)
    requires events != []
    ensures SafeFromHere(Run(Init(|events|), Emits(events) + [Connect, Emit(e)]))
            <==> RefreshAbove(events + [e], 1)
  {
    var size := |events|;
    EmitsWhileDown(Init(size), events);
    var u := Run(Init(size), Emits(events));
    assert u == Session(size, events, Down, EMPTY_CLIENT, false);
    var s := Apply(u, Connect);
    InitInv(size, true);
    RunKeepsInv(Init(size), Emits(events), true);
    StepKeepsInv(u, Connect, true);
    GuardIsExact(s, Emit(e));
    RunOne(s, Emit(e));
    RunAppend(Init(size), Emits(events), [Connect, Emit(e)]);
    assert [Connect, Emit(e)][1..] == [Emit(e)];
    assert !Has(s.client, 1);
  }

  // ---- No buffer ----

  /** Without room for any event, a new connection catches up without sending anything: whatever the
      client missed is lost. */
  lemma NoRoomLosesIff(s: Session)
    requires s.size == 0 && s.conn.Down?
    ensures Lost(Run(s, [Connect, ResumeArrives])) <==> s.owed || !HasUpTo(s.client, |s.log|)
  {
    var t := Apply(s, Connect);
    var u := Apply(t, ResumeArrives);
    assert u.log == s.log && u.client == s.client && u.conn.sent == [];
    RunOne(t, ResumeArrives);
    assert [Connect, ResumeArrives][1..] == [ResumeArrives];
  }
}
