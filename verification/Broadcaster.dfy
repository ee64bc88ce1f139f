/** packages/broadcaster/src/broadcaster.ts for one working directory and one broadcast type: a
    snapshot that is read at most once at a time and handed to every subscriber. */
module Broadcasting {
  import opened Basics
  import opened Wire

  /** A subscriber id with the callback of one subscription; callbacks are fresh. */
  datatype Sub = Sub(id: string, cb: nat)

  /** Which `.then` the read was started with. */
  datatype Kind = OnChange | Initial(sub: Sub)

  /** A read in flight, the entry that started it, and the subscribers chained to its promise. */
  datatype Read = Read(entry: nat, kind: Kind, waiters: seq<Sub>)

  /** `entry` numbers the entries made so far; the latest is in the map while `live`. `queue` holds
      chained callbacks whose promise has resolved and that the event loop has yet to run. The last line is
      history: the value each callback received last, the callbacks used, and whether a
      read of the current entry has failed. */
  datatype Caster = Caster(
    entry: nat, live: bool, subs: map<string, nat>, hasValue: bool, lastValue: Json,
    readPromise: Option<nat>, inFlight: map<nat, Read>, nextRead: nat, queue: seq<Sub>,
    got: map<nat, Json>, used: set<nat>, failed: bool)

  datatype Op =
    | Subscribe(sub: Sub)
    | Unsubscribe(id: string)
    | Change                       // the source reports a change
    | ReadDone(read: nat, v: Json)
    | ReadFails(read: nat)
    | RunQueued                    // the oldest resolved chained callback runs

  const NEW_CASTER := Caster(0, false, map[], false, JNull, None, map[], 0, [], map[], {}, false)

  function StartRead(c: Caster, kind: Kind): Caster {
    c.(readPromise := Some(c.nextRead), inFlight := c.inFlight[c.nextRead := Read(c.entry, kind, [])],
        nextRead := c.nextRead + 1)
  }

  /** What `deliverInitial` does for a subscription just stored. */
  function DeliverInitial(c: Caster, sub: Sub): Caster {
    if c.hasValue then c.(got := c.got[sub.cb := c.lastValue])
    else if c.readPromise.Some? then
      var n := c.readPromise.value;
      if n !in c.inFlight then c
      else c.(inFlight := c.inFlight[n := c.inFlight[n].(waiters := c.inFlight[n].waiters + [sub])])
    else StartRead(c, Initial(sub))
  }

  function InitEntry(c: Caster): Caster {
    c.(entry := c.entry + 1, live := true, subs := map[], hasValue := false, lastValue := JNull,
        readPromise := None, failed := false)
  }

  /** A read is over: its entry's slot is freed, and its chained callbacks become ready. */
  function EndRead(c: Caster, n: nat): Caster
    requires n in c.inFlight
  {
    c.(inFlight := c.inFlight - {n}, queue := c.queue + c.inFlight[n].waiters,
       readPromise := if c.inFlight[n].entry == c.entry then None else c.readPromise)
  }

  function GiveAll(got: map<nat, Json>, cbs: set<nat>, v: Json): map<nat, Json> {
    map cb | cb in got.Keys + cbs :: if cb in cbs then v else got[cb]
  }

  function Next(c: Caster, op: Op): Caster {
    match op
    case Subscribe(sub) =>
      var d := if c.live then c else InitEntry(c);
      DeliverInitial(d.(subs := d.subs[sub.id := sub.cb], used := d.used + {sub.cb}), sub)
    case Unsubscribe(id) =>
      if !c.live then c else c.(subs := c.subs - {id}, live := c.subs - {id} != map[])
    case Change => if !c.live || c.readPromise.Some? then c else StartRead(c, OnChange)
    case ReadDone(n, v) =>
      if n !in c.inFlight then c
      else
        var d := EndRead(c, n);
        if !c.live then d
        else
          var e := d.(hasValue := true, lastValue := v);
          match c.inFlight[n].kind {
            case OnChange => e.(got := GiveAll(c.got, c.subs.Values, v))
            case Initial(sub) => if sub.id in c.subs then e.(got := c.got[sub.cb := v]) else e
          }
    case ReadFails(n) => if n !in c.inFlight then c else EndRead(c, n).(failed := true)
    case RunQueued =>
      if c.queue == [] then c
      else
        var s := c.queue[0];
        var d := c.(queue := c.queue[1..]);
        if c.live && s.id in c.subs && c.hasValue then d.(got := c.got[s.cb := c.lastValue]) else d
  }

  function Run(c: Caster, ops: seq<Op>): Caster
    decreases |ops|
  {
    if ops == [] then c else Run(Next(c, ops[0]), ops[1..])
  }

  // ---- What holds without any guard ----

  /** The slot of the entry in the map names a read in flight that this entry started. */
  ghost predicate SlotOk(c: Caster) {
    c.readPromise.Some? ==> c.readPromise.value in c.inFlight && c.inFlight[c.readPromise.value].entry == c.entry
  }

  lemma StepKeepsSlot(c: Caster, op: Op)
    requires SlotOk(c)
    ensures SlotOk(Next(c, op))
  {}

  lemma {:induction false} RunKeepsSlot(c: Caster, ops: seq<Op>)
    requires SlotOk(c)
    ensures SlotOk(Run(c, ops))
    decreases |ops|
  {
    if ops != [] {
      StepKeepsSlot(c, ops[0]);
      RunKeepsSlot(Next(c, ops[0]), ops[1..]);
    }
  }

  // ---- The guard: no entry is torn down while a read of it is in flight ----

  predicate Guarded(c: Caster, op: Op) {
    match op
    case Subscribe(sub) => sub.cb !in c.used
    case Unsubscribe(id) => c.live && c.subs - {id} == map[] ==> c.readPromise.None?
    case _ => true
  }

  predicate GuardedRun(c: Caster, ops: seq<Op>)
    decreases |ops|
  {
    ops == [] || (Guarded(c, ops[0]) && GuardedRun(Next(c, ops[0]), ops[1..]))
  }

  // ---- The invariant ----

  /** The slot names the one read in flight, which belongs to the entry in the map. */
  ghost predicate SingleFlight(c: Caster) {
    && (forall n :: n in c.inFlight <==> c.readPromise == Some(n))
    && (c.readPromise.Some? ==> c.live && c.inFlight[c.readPromise.value].entry == c.entry)
  }

  /** This subscription has a delivery coming. */
  predicate Awaits(c: Caster, sub: Sub) {
    || (c.readPromise.Some? && c.readPromise.value in c.inFlight &&
        var r := c.inFlight[c.readPromise.value]; r.kind.OnChange? || r.kind.sub == sub || sub in r.waiters)
    || (c.hasValue && sub in c.queue)
  }

  /** Every callback there is came with a subscription, and reads are numbered as they start. */
  ghost predicate UsedOk(c: Caster) {
    && (forall n :: n in c.inFlight ==> n < c.nextRead)
    && (forall cb :: cb in c.got ==> cb in c.used)
    && (forall id :: id in c.subs ==> c.subs[id] in c.used)
    && (forall n :: n in c.inFlight ==>
          && (c.inFlight[n].kind.Initial? ==> c.inFlight[n].kind.sub.cb in c.used)
          && forall s :: s in c.inFlight[n].waiters ==> s.cb in c.used)
    && (forall s :: s in c.queue ==> s.cb in c.used)
  }

  ghost predicate Inv(c: Caster) {
    && SingleFlight(c)
    && (c.live ==> c.subs != map[])
    && (c.readPromise.Some? && c.inFlight[c.readPromise.value].kind.Initial? ==> !c.hasValue)
    && UsedOk(c)
    && (c.live ==> forall id :: id in c.subs && c.subs[id] in c.got ==> c.hasValue && c.got[c.subs[id]] == c.lastValue)
    && (c.live && !c.failed ==> forall id :: id in c.subs ==> c.subs[id] in c.got || Awaits(c, Sub(id, c.subs[id])))
  }

  lemma SubscribeKeepsUsed(c: Caster, sub: Sub)
    requires UsedOk(c)
    ensures UsedOk(Next(c, Subscribe(sub)))
  {}

  lemma SubscribeKeepsInv(c: Caster, sub: Sub)
    requires Inv(c) && Guarded(c, Subscribe(sub))
    ensures Inv(Next(c, Subscribe(sub)))
  {
    var d := if c.live then c else InitEntry(c);
    var e := d.(subs := d.subs[sub.id := sub.cb], used := d.used + {sub.cb});
    var f := DeliverInitial(e, sub);
    SubscribeKeepsUsed(c, sub);
    assert sub.id in f.subs;
    forall id | id in f.subs && !f.failed ensures f.subs[id] in f.got || Awaits(f, Sub(id, f.subs[id])) {
      if id != sub.id { assert id in c.subs && f.subs[id] == c.subs[id]; }
    }
  }

  lemma ChangeReadKeepsInv(c: Caster, n: nat, v: Json)
    requires Inv(c) && n in c.inFlight && c.inFlight[n].kind.OnChange?
    ensures Inv(Next(c, ReadDone(n, v)))
  {
    assert forall id :: id in c.subs ==> c.subs[id] in c.subs.Values;
    assert forall cb :: cb in c.subs.Values ==> cb in c.used;
  }

  lemma InitialReadKeepsInv(c: Caster, n: nat, v: Json)
    requires Inv(c) && n in c.inFlight && c.inFlight[n].kind.Initial?
    ensures Inv(Next(c, ReadDone(n, v)))
  {
    var d := Next(c, ReadDone(n, v));
    forall id | id in d.subs && !d.failed ensures d.subs[id] in d.got || Awaits(d, Sub(id, d.subs[id])) {
      assert c.subs[id] in c.got || Awaits(c, Sub(id, c.subs[id]));
    }
  }

  lemma UnsubscribeKeepsInv(c: Caster, id: string)
    requires Inv(c) && Guarded(c, Unsubscribe(id))
    ensures Inv(Next(c, Unsubscribe(id)))
  {
    var d := Next(c, Unsubscribe(id));
    forall i | i in d.subs && d.live && !d.failed ensures d.subs[i] in d.got || Awaits(d, Sub(i, d.subs[i])) {
      assert c.subs[i] in c.got || Awaits(c, Sub(i, c.subs[i]));
    }
  }

  lemma RunQueuedKeepsUsed(c: Caster)
    requires UsedOk(c)
    ensures UsedOk(Next(c, RunQueued))
  {}

  lemma RunQueuedKeepsInv(c: Caster)
    requires Inv(c)
    ensures Inv(Next(c, RunQueued))
  {
    if c.queue != [] {
      var d := Next(c, RunQueued);
      RunQueuedKeepsUsed(c);
      assert c.queue == [c.queue[0]] + c.queue[1..];
      forall i | i in d.subs && d.live && !d.failed ensures d.subs[i] in d.got || Awaits(d, Sub(i, d.subs[i])) {
        assert c.subs[i] in c.got || Awaits(c, Sub(i, c.subs[i]));
      }
    }
  }

  lemma StepKeepsInv(c: Caster, op: Op)
    requires Inv(c) && Guarded(c, op)
    ensures Inv(Next(c, op))
  {
    match op
    case Subscribe(sub) => SubscribeKeepsInv(c, sub);
    case ReadDone(n, v) =>
      if n in c.inFlight {
        if c.inFlight[n].kind.OnChange? { ChangeReadKeepsInv(c, n, v); } else { InitialReadKeepsInv(c, n, v); }
      }
    case Unsubscribe(id) => UnsubscribeKeepsInv(c, id);
    case RunQueued => RunQueuedKeepsInv(c);
    case _ =>
  }

  lemma {:induction false} RunKeepsInv(c: Caster, ops: seq<Op>)
    requires Inv(c) && GuardedRun(c, ops)
    ensures Inv(Run(c, ops))
    decreases |ops|
  {
    if ops != [] {
      StepKeepsInv(c, ops[0]);
      RunKeepsInv(Next(c, ops[0]), ops[1..]);
    }
  }

  // ---- Main results ----

  /** Who has received anything last received the cached value. */
  ghost predicate Shares(c: Caster) {
    c.live ==> forall id :: id in c.subs && c.subs[id] in c.got ==> c.hasValue && c.got[c.subs[id]] == c.lastValue
  }

  /** At most one read is in flight; a subscriber that has received anything last received the
      cached value, at every moment; and once reads and queued callbacks have drained, every
      subscriber has it, unless a read failed. */
  lemma SubscribersShareTheSnapshot(ops: seq<Op>)
    requires GuardedRun(NEW_CASTER, ops)
    ensures var c := Run(NEW_CASTER, ops);
      && |c.inFlight| <= 1
      && Shares(c)
      && (c.live && !c.failed && c.readPromise.None? && c.queue == [] ==>
            forall id :: id in c.subs ==> c.subs[id] in c.got)
  {
    RunKeepsInv(NEW_CASTER, ops);
    OneInFlight(Run(NEW_CASTER, ops));
    EveryoneServed(Run(NEW_CASTER, ops));
  }

  lemma EveryoneServed(c: Caster)
    requires Inv(c)
    ensures c.live && !c.failed && c.readPromise.None? && c.queue == [] ==>
              forall id :: id in c.subs ==> c.subs[id] in c.got
  {
    if c.live && !c.failed && c.readPromise.None? && c.queue == [] {
      forall id | id in c.subs ensures c.subs[id] in c.got {
        assert !Awaits(c, Sub(id, c.subs[id]));
      }
    }
  }

  lemma OneInFlight(c: Caster)
    requires SingleFlight(c)
    ensures |c.inFlight| <= 1
  {
    if c.readPromise.Some? {
      assert c.inFlight.Keys == {c.readPromise.value};
    } else {
      assert c.inFlight == map[];
    }
  }

  ghost predicate AlwaysSingle(c: Caster) {
    forall ops :: GuardedRun(c, ops) ==> |Run(c, ops).inFlight| <= 1
  }

  /** In a state a guarded run can reach, dropping the last subscriber is inside the guard exactly
      when there can never be two reads in flight afterwards. */
  lemma TeardownGuardIsExact(c: Caster, id: string)
    requires Inv(c)
    ensures Guarded(c, Unsubscribe(id)) <==> AlwaysSingle(Next(c, Unsubscribe(id)))
  {
    var d := Next(c, Unsubscribe(id));
    if Guarded(c, Unsubscribe(id)) {
      StepKeepsInv(c, Unsubscribe(id));
      forall ops | GuardedRun(d, ops) ensures |Run(d, ops).inFlight| <= 1 {
        RunKeepsInv(d, ops);
        OneInFlight(Run(d, ops));
      }
    } else {
      var cb := Unused(c.used);
      var ops := [Subscribe(Sub(id, cb))];
      var e := Next(d, ops[0]);
      assert Run(d, ops) == Run(e, []) == e;
      assert GuardedRun(e, []) && GuardedRun(d, ops);
      var n := c.readPromise.value;
      assert n in e.inFlight && c.nextRead in e.inFlight && n != c.nextRead;
      assert {n, c.nextRead} <= e.inFlight.Keys;
      assert |e.inFlight.Keys| >= |{n, c.nextRead}| by { SubsetSize({n, c.nextRead}, e.inFlight.Keys); }
    }
  }

  lemma {:induction false} SubsetSize(a: set<nat>, b: set<nat>)
    requires a <= b
    ensures |a| <= |b|
  {
    if a != {} {
      var x :| x in a;
      SubsetSize(a - {x}, b - {x});
    }
  }

  /** And then the old read can overwrite the new snapshot behind its subscriber's back: the first
      subscriber leaves during its own initial read, a second one comes, and the reads end in
      the other order. */
  lemma StaleReadOverwrites(v: Json, stale: Json)
    requires v != stale
    ensures var c := Run(NEW_CASTER, [Subscribe(Sub("a", 0)), Unsubscribe("a"), Subscribe(Sub("b", 1)),
                                      ReadDone(1, v), ReadDone(0, stale)]);
      c.live && c.subs == map["b" := 1] && c.got == map[1 := v] && c.lastValue == stale
  {
    var c1 := Next(NEW_CASTER, Subscribe(Sub("a", 0)));
    var c2 := Next(c1, Unsubscribe("a"));
    assert c1.subs == map["a" := 0] && c2.subs == map[] && !c2.live;
    var c3 := Next(c2, Subscribe(Sub("b", 1)));
    assert c3.inFlight == map[0 := Read(1, Initial(Sub("a", 0)), []), 1 := Read(2, Initial(Sub("b", 1)), [])];
    var c4 := Next(c3, ReadDone(1, v));
    var c5 := Next(c4, ReadDone(0, stale));
    var ops := [Subscribe(Sub("a", 0)), Unsubscribe("a"), Subscribe(Sub("b", 1)), ReadDone(1, v), ReadDone(0, stale)];
    assert ops[1..] == [Unsubscribe("a"), Subscribe(Sub("b", 1)), ReadDone(1, v), ReadDone(0, stale)];
    assert Run(c1, ops[1..]) == Run(c2, [Subscribe(Sub("b", 1)), ReadDone(1, v), ReadDone(0, stale)]);
    assert Run(c2, [Subscribe(Sub("b", 1)), ReadDone(1, v), ReadDone(0, stale)]) ==
        Run(c3, [ReadDone(1, v), ReadDone(0, stale)]);
    assert Run(c3, [ReadDone(1, v), ReadDone(0, stale)]) == Run(c4, [ReadDone(0, stale)]);
    assert Run(c4, [ReadDone(0, stale)]) == Run(c5, []);
  }

  ghost predicate AlwaysShares(c: Caster) {
    forall ops :: GuardedRun(c, ops) ==> Shares(Run(c, ops))
  }

  lemma RunOne(c: Caster, op: Op)
    ensures Run(c, [op]) == Next(c, op) && (GuardedRun(c, [op]) <==> Guarded(c, op))
  {
    assert [op][1..] == [] && Run(Next(c, op), []) == Next(c, op);
  }

  lemma RunMore(c: Caster, op: Op, ops: seq<Op>)
    ensures Run(c, [op] + ops) == Run(Next(c, op), ops)
    ensures GuardedRun(c, [op] + ops) <==> Guarded(c, op) && GuardedRun(Next(c, op), ops)
  {
    assert ([op] + ops)[1..] == ops;
  }

  /** The abandoned read was an initial one: the next subscriber gets the new read's value, and
      then the abandoned read replaces what is cached. */
  lemma AbandonedInitialRead(d: Caster, n: nat, id: string, cb: nat, v: Json, stale: Json)
    requires !d.live && n in d.inFlight && n < d.nextRead && d.inFlight[n].kind.Initial? && cb !in d.used
    requires d.inFlight[n].kind.sub.cb in d.used && v != stale
    ensures var ops := [Subscribe(Sub(id, cb))] + ([ReadDone(d.nextRead, v)] + [ReadDone(n, stale)]);
      GuardedRun(d, ops) && !Shares(Run(d, ops))
  {
    var e := Next(d, Subscribe(Sub(id, cb)));
    var f := Next(e, ReadDone(d.nextRead, v));
    var g := Next(f, ReadDone(n, stale));
    assert e.inFlight[d.nextRead] == Read(e.entry, Initial(Sub(id, cb)), []);
    assert f.live && f.subs == map[id := cb] && f.got[cb] == v && n in f.inFlight;
    assert g.subs[id] == cb && g.got[cb] == v && g.lastValue == stale;
    RunOne(f, ReadDone(n, stale));
    RunMore(e, ReadDone(d.nextRead, v), [ReadDone(n, stale)]);
    RunMore(d, Subscribe(Sub(id, cb)), [ReadDone(d.nextRead, v)] + [ReadDone(n, stale)]);
  }

  /** It was a read after a change: it serves the new subscriber and the one after, and then the
      new entry's own read replaces what is cached and tells the first of them only. */
  lemma AbandonedChangeRead(d: Caster, n: nat, a: Sub, b: Sub, v: Json, stale: Json)
    requires !d.live && n in d.inFlight && n < d.nextRead && d.inFlight[n].kind.OnChange?
    requires a.cb !in d.used && b.cb !in d.used && a.cb != b.cb && a.id != b.id && v != stale
    ensures var ops := [Subscribe(a)] + ([ReadDone(n, stale)] + ([Subscribe(b)] + [ReadDone(d.nextRead, v)]));
      GuardedRun(d, ops) && !Shares(Run(d, ops))
  {
    var e := Next(d, Subscribe(a));
    var f := Next(e, ReadDone(n, stale));
    var g := Next(f, Subscribe(b));
    var h := Next(g, ReadDone(d.nextRead, v));
    assert e.inFlight[d.nextRead] == Read(e.entry, Initial(a), []);
    assert f.live && f.hasValue && f.lastValue == stale && f.subs == map[a.id := a.cb] && d.nextRead in f.inFlight;
    assert g.got[b.cb] == stale && g.subs[b.id] == b.cb;
    assert h.lastValue == v && h.subs[b.id] == b.cb && h.got[b.cb] == stale;
    RunOne(g, ReadDone(d.nextRead, v));
    RunMore(f, Subscribe(b), [ReadDone(d.nextRead, v)]);
    RunMore(e, ReadDone(n, stale), [Subscribe(b)] + [ReadDone(d.nextRead, v)]);
    RunMore(d, Subscribe(a), [ReadDone(n, stale)] + ([Subscribe(b)] + [ReadDone(d.nextRead, v)]));
  }

  lemma AbandonedReadSplits(d: Caster, n: nat, id: string)
    requires !d.live && n in d.inFlight && n < d.nextRead
    requires d.inFlight[n].kind.Initial? ==> d.inFlight[n].kind.sub.cb in d.used
    ensures !AlwaysShares(d)
  {
    var cb := Unused(d.used);
    if d.inFlight[n].kind.Initial? {
      AbandonedInitialRead(d, n, id, cb, JBool(true), JNull);
    } else {
      AbandonedChangeRead(d, n, Sub(id, cb), Sub(id + "'", cb + 1), JBool(true), JNull);
    }
  }

  /** In a state a guarded run can reach, dropping the last subscriber is inside the guard exactly
      when no guarded continuation leaves a subscriber with anything but the cached value. */
  lemma SharingGuardIsExact(c: Caster, id: string)
    requires Inv(c)
    ensures Guarded(c, Unsubscribe(id)) <==> AlwaysShares(Next(c, Unsubscribe(id)))
  {
    var d := Next(c, Unsubscribe(id));
    if Guarded(c, Unsubscribe(id)) {
      StepKeepsInv(c, Unsubscribe(id));
      forall ops | GuardedRun(d, ops) ensures Shares(Run(d, ops)) {
        RunKeepsInv(d, ops);
      }
    } else {
      AbandonedReadSplits(d, c.readPromise.value, id);
    }
  }

  // ---- A change during a read ----

  /** The source reports no further change, no read fails, and the entry is not torn down. */
  predicate Quiet(c: Caster, op: Op) {
    match op
    case Change => false
    case ReadFails(_) => false
    case Unsubscribe(id) => c.subs - {id} != map[]
    case Subscribe(sub) => sub.cb !in c.used
    case _ => true
  }

  predicate QuietRun(c: Caster, ops: seq<Op>)
    decreases |ops|
  {
    ops == [] || (Quiet(c, ops[0]) && QuietRun(Next(c, ops[0]), ops[1..]))
  }

  /** What the first end of read n in `ops` brings; later ones do nothing. */
  function Found(n: nat, ops: seq<Op>): Option<Json> {
    if ops == [] then None
    else if ops[0].ReadDone? && ops[0].read == n then Some(ops[0].v)
    else Found(n, ops[1..])
  }

  /** Read n is the one in flight, or what it found is cached. If it was started by a change, then
      everyone subscribed when it ended, or later, has received a value. */
  ghost predicate Serves(c: Caster, n: nat, found: Option<Json>, change: bool) {
    && c.live
    && (c.readPromise.Some? ==>
          && c.readPromise.value == n && found.None?
          && (change ==> n in c.inFlight && c.inFlight[n].kind.OnChange?))
    && (c.readPromise.None? ==>
          && c.hasValue && found == Some(c.lastValue)
          && (change ==> forall id :: id in c.subs ==> c.subs[id] in c.got))
  }

  lemma QuietStep(c: Caster, n: nat, found: Option<Json>, change: bool, op: Op)
    requires SingleFlight(c) && Serves(c, n, found, change) && Quiet(c, op)
    ensures var d := Next(c, op);
      && Serves(d, n, if found.None? then Found(n, [op]) else found, change)
      && d.nextRead == c.nextRead && d.failed == c.failed
  {
    if op.ReadDone? && op.read == n && found.None? && change {
      forall id | id in c.subs ensures c.subs[id] in Next(c, op).got { assert c.subs[id] in c.subs.Values; }
    }
  }

  lemma QuietKeepsInv(c: Caster, op: Op)
    requires Inv(c) && Quiet(c, op)
    ensures Inv(Next(c, op)) && SingleFlight(c)
  {
    StepKeepsInv(c, op);
  }

  lemma {:induction false} QuietRunKeepsInv(c: Caster, ops: seq<Op>)
    requires Inv(c) && QuietRun(c, ops)
    ensures Inv(Run(c, ops))
    decreases |ops|
  {
    if ops != [] {
      QuietKeepsInv(c, ops[0]);
      QuietRunKeepsInv(Next(c, ops[0]), ops[1..]);
    }
  }

  lemma {:induction false} QuietRunServes(c: Caster, n: nat, found: Option<Json>, change: bool, ops: seq<Op>)
    requires Inv(c) && Serves(c, n, found, change) && QuietRun(c, ops)
    ensures var d := Run(c, ops);
      && Serves(d, n, if found.None? then Found(n, ops) else found, change)
      && d.nextRead == c.nextRead && d.failed == c.failed
    decreases |ops|
  {
    if ops != [] {
      QuietKeepsInv(c, ops[0]);
      QuietStep(c, n, found, change, ops[0]);
      assert Found(n, [ops[0]]) == if ops[0].ReadDone? && ops[0].read == n then Some(ops[0].v) else None by {
        assert [ops[0]][1..] == [];
      }
      QuietRunServes(Next(c, ops[0]), n, if found.None? then Found(n, [ops[0]]) else found, change, ops[1..]);
    }
  }

  /** The read that answers a change: the one in flight, or else the one it starts. */
  function AnsweringRead(c: Caster): nat { if c.readPromise.Some? then c.readPromise.value else c.nextRead }

  /** A change is answered by a read begun after it exactly when no read was in flight. Until the
      next change, failed read or teardown no other read starts, and once all has drained, what the
      answering read found is cached and is what every subscriber, old or new, last received. (After an
      earlier failure some may have received nothing, unless a change started the read.) */
  lemma ChangeIsServedIffIdle(c: Caster, ops: seq<Op>)
    requires Inv(c) && c.live && QuietRun(Next(c, Change), ops)
    ensures AnsweringRead(c) >= c.nextRead <==> c.readPromise.None?
    ensures var d, n := Run(c, [Change] + ops), AnsweringRead(c);
      && d.live && d.nextRead == (if c.readPromise.None? then c.nextRead + 1 else c.nextRead)
      && (d.readPromise.None? && d.queue == [] ==>
            && d.hasValue && Found(n, ops) == Some(d.lastValue)
            && (forall id :: id in d.subs && d.subs[id] in d.got ==> d.got[d.subs[id]] == d.lastValue)
            && (!c.failed || c.readPromise.None? ==> forall id :: id in d.subs ==> d.subs[id] in d.got))
  {
    var n, t := AnsweringRead(c), Next(c, Change);
    StepKeepsInv(c, Change);
    QuietRunKeepsInv(t, ops);
    QuietRunServes(t, n, None, c.readPromise.None?, ops);
    RunMore(c, Change, ops);
    EveryoneServed(Run(t, ops));
  }

  /** A subscription takes the place of an earlier one under its id and leaves the others; what is cached it
      gets at once. */
  lemma SubscribeTakesOver(c: Caster, sub: Sub)
    requires c.live
    ensures var d := Next(c, Subscribe(sub));
      && d.live && d.subs == c.subs[sub.id := sub.cb] && d.hasValue == c.hasValue && d.lastValue == c.lastValue
      && (if c.hasValue then sub.cb in d.got && d.got[sub.cb] == c.lastValue else d.got == c.got)
      && (c.hasValue || c.readPromise.Some? ==> d.nextRead == c.nextRead)
  {}

  /** The first subscriber gets nothing that was read for earlier ones: a read is started for it, and what that
      one finds is what it receives. */
  lemma FirstSubscriberReadsAnew(c: Caster, sub: Sub, v: Json)
    requires !c.live
    ensures var d := Next(c, Subscribe(sub));
      d.live && d.subs == map[sub.id := sub.cb] && !d.hasValue && d.readPromise == Some(c.nextRead) && d.got == c.got
    ensures var e := Run(c, [Subscribe(sub)] + [ReadDone(c.nextRead, v)]);
      && e.live && e.subs == map[sub.id := sub.cb] && e.readPromise.None?
      && e.hasValue && e.lastValue == v && e.got == c.got[sub.cb := v]
  {
    RunMore(c, Subscribe(sub), [ReadDone(c.nextRead, v)]);
    RunOne(Next(c, Subscribe(sub)), ReadDone(c.nextRead, v));
  }

  /** The chained callbacks that are ready all run, oldest first and each once, also when their entry has been torn
      down in the meantime; then nobody is called. */
  lemma {:induction false} ChainedCallbacksRun(c: Caster)
    ensures var d := Run(c, seq(|c.queue|, _ => RunQueued)); d.queue == [] && (!c.live ==> d.got == c.got)
    decreases |c.queue|
  {
    if c.queue != [] {
      var d, all := Next(c, RunQueued), seq(|c.queue|, _ => RunQueued);
      assert all[1..] == seq(|d.queue|, _ => RunQueued);
      ChainedCallbacksRun(d);
    }
  }

  /** The end of an abandoned read, whose entry has been torn down, leaves the new entry's slot alone, so the new
      entry's own read is not doubled by the next change. */
  lemma AbandonedReadKeepsSlot(c: Caster, n: nat, v: Json)
    requires n in c.inFlight && c.inFlight[n].entry != c.entry
    ensures Next(c, ReadDone(n, v)).readPromise == c.readPromise
    ensures Next(c, ReadFails(n)).readPromise == c.readPromise
    ensures c.readPromise.Some? ==> Run(c, [ReadDone(n, v)] + [Change]).nextRead == c.nextRead
  {
    RunMore(c, ReadDone(n, v), [Change]);
    RunOne(Next(c, ReadDone(n, v)), Change);
  }

  /** A failed read frees the slot and reaches nobody: the next change starts a new read, and what that one
      finds reaches every subscriber. */
  lemma FailedReadIsReplaced(c: Caster, n: nat, v: Json)
    requires SlotOk(c) && c.live && c.readPromise == Some(n) && n < c.nextRead
    ensures var d := Next(c, ReadFails(n));
      && d.readPromise.None? && n !in d.inFlight && d.got == c.got && d.subs == c.subs && d.hasValue == c.hasValue
      && d.queue == c.queue + c.inFlight[n].waiters
    ensures var e := Run(c, [ReadFails(n)] + ([Change] + [ReadDone(c.nextRead, v)]));
      && e.hasValue && e.lastValue == v && e.readPromise.None?
      && forall id :: id in c.subs ==> c.subs[id] in e.got && e.got[c.subs[id]] == v
  {
    var d := Next(c, ReadFails(n));
    RunMore(c, ReadFails(n), [Change] + [ReadDone(c.nextRead, v)]);
    RunMore(d, Change, [ReadDone(c.nextRead, v)]);
    RunOne(Next(d, Change), ReadDone(c.nextRead, v));
    assert forall id :: id in c.subs ==> c.subs[id] in c.subs.Values;
  }

  // ---- After an unsubscribe ----

  predicate FreshCallback(c: Caster, op: Op) { op.Subscribe? ==> op.sub.cb !in c.used }

  predicate FreshRun(c: Caster, ops: seq<Op>)
    decreases |ops|
  {
    ops == [] || (FreshCallback(c, ops[0]) && FreshRun(Next(c, ops[0]), ops[1..]))
  }

  /** The subscription has its own initial read in flight, or is chained to a read, in flight or over. */
  ghost predicate Outstanding(c: Caster, sub: Sub) {
    || (exists n :: n in c.inFlight && (c.inFlight[n].kind == Initial(sub) || sub in c.inFlight[n].waiters))
    || sub in c.queue
  }

  /** Wherever the callback still is, it is there for a subscription under this id. */
  ghost predicate Belongs(c: Caster, cb: nat, id: string) {
    && (forall i :: i in c.subs && c.subs[i] == cb ==> i == id)
    && (forall sub :: Outstanding(c, sub) && sub.cb == cb ==> sub.id == id)
  }

  /** Only a subscription makes itself outstanding. */
  lemma StepOutstanding(c: Caster, op: Op, sub: Sub)
    ensures Outstanding(Next(c, op), sub) ==> Outstanding(c, sub) || op == Subscribe(sub)
  {
    match op
    case Subscribe(s) => SubscribeOutstanding(c, s, sub);
    case Change => if c.live && c.readPromise.None? { StartOutstanding(c, OnChange, sub); }
    case ReadDone(n, v) => if n in c.inFlight { EndOutstanding(c, Next(c, op), n, sub); }
    case ReadFails(n) => if n in c.inFlight { EndOutstanding(c, Next(c, op), n, sub); }
    case RunQueued => if c.queue != [] { assert c.queue == [c.queue[0]] + c.queue[1..]; }
    case Unsubscribe(_) =>
  }

  lemma EndOutstanding(c: Caster, d: Caster, n: nat, sub: Sub)
    requires n in c.inFlight && d.inFlight == c.inFlight - {n} && d.queue == c.queue + c.inFlight[n].waiters
    ensures Outstanding(d, sub) ==> Outstanding(c, sub)
  {
    if m :| m in d.inFlight && (d.inFlight[m].kind == Initial(sub) || sub in d.inFlight[m].waiters) {
      assert m in c.inFlight && d.inFlight[m] == c.inFlight[m];
    } else if sub in d.queue {
      assert sub in c.queue || sub in c.inFlight[n].waiters;
    }
  }

  lemma StartOutstanding(c: Caster, kind: Kind, sub: Sub)
    ensures Outstanding(StartRead(c, kind), sub) ==> Outstanding(c, sub) || kind == Initial(sub)
  {
    var d := StartRead(c, kind);
    if m :| m in d.inFlight && (d.inFlight[m].kind == Initial(sub) || sub in d.inFlight[m].waiters) {
      assert m != c.nextRead ==> m in c.inFlight && d.inFlight[m] == c.inFlight[m];
    }
  }

  lemma SubscribeOutstanding(c: Caster, late: Sub, sub: Sub)
    ensures Outstanding(Next(c, Subscribe(late)), sub) ==> Outstanding(c, sub) || late == sub
  {
    var d := Next(c, Subscribe(late));
    if n :| n in d.inFlight && (d.inFlight[n].kind == Initial(sub) || sub in d.inFlight[n].waiters) {
      if n in c.inFlight {
        assert late == sub || c.inFlight[n].kind == Initial(sub) || sub in c.inFlight[n].waiters;
      }
    }
  }

  lemma SubsComeFrom(c: Caster, op: Op)
    ensures forall i :: i in Next(c, op).subs ==>
              (i in c.subs && Next(c, op).subs[i] == c.subs[i]) || op == Subscribe(Sub(i, Next(c, op).subs[i]))
  {}

  /** A step hands nothing to a callback that is neither subscribed nor outstanding for a subscribed id. */
  lemma StepHears(c: Caster, op: Op, cb: nat)
    requires cb !in c.subs.Values && (op.Subscribe? ==> op.sub.cb != cb)
    requires forall sub :: Outstanding(c, sub) && sub.cb == cb ==> sub.id !in c.subs
    ensures SameAt(c.got, Next(c, op).got, cb)
  {
    match op
    case ReadDone(n, v) =>
      if n in c.inFlight && c.inFlight[n].kind.Initial? { assert Outstanding(c, c.inFlight[n].kind.sub); }
    case RunQueued => if c.queue != [] { assert Outstanding(c, c.queue[0]); }
    case _ =>
  }

  lemma StepKeepsUsed(c: Caster, op: Op)
    requires UsedOk(c)
    ensures UsedOk(Next(c, op)) && c.used <= Next(c, op).used
  {
    match op
    case Subscribe(sub) => SubscribeKeepsUsed(c, sub);
    case RunQueued => RunQueuedKeepsUsed(c);
    case ReadDone(n, v) => if n in c.inFlight { ReadDoneKeepsUsed(c, n, v); }
    case ReadFails(n) => if n in c.inFlight { EndReadKeepsUsed(c, n); }
    case _ =>
  }

  lemma EndReadKeepsUsed(c: Caster, n: nat)
    requires UsedOk(c) && n in c.inFlight
    ensures UsedOk(EndRead(c, n))
  {}

  lemma ReadDoneKeepsUsed(c: Caster, n: nat, v: Json)
    requires UsedOk(c) && n in c.inFlight
    ensures UsedOk(Next(c, ReadDone(n, v)))
  {
    var d, e := EndRead(c, n), Next(c, ReadDone(n, v));
    EndReadKeepsUsed(c, n);
    assert e == d.(hasValue := e.hasValue, lastValue := e.lastValue, got := e.got);
    assert forall cb :: cb in c.subs.Values ==> cb in c.used;
    assert forall cb :: cb in e.got ==> cb in c.used;
  }

  lemma StepKeepsBelongs(c: Caster, op: Op, cb: nat, id: string)
    requires cb in c.used && Belongs(c, cb, id) && FreshCallback(c, op)
    ensures Belongs(Next(c, op), cb, id)
  {
    forall sub | Outstanding(Next(c, op), sub) && sub.cb == cb ensures sub.id == id { StepOutstanding(c, op, sub); }
    SubsComeFrom(c, op);
  }

  /** Every callback belongs to the id it was subscribed under, over every run that follows. */
  lemma {:induction false} RunKeepsBelongs(c: Caster, ops: seq<Op>, cb: nat, id: string)
    requires UsedOk(c) && cb in c.used && Belongs(c, cb, id) && FreshRun(c, ops)
    ensures UsedOk(Run(c, ops)) && Belongs(Run(c, ops), cb, id)
    decreases |ops|
  {
    if ops != [] {
      StepKeepsUsed(c, ops[0]);
      StepKeepsBelongs(c, ops[0], cb, id);
      RunKeepsBelongs(Next(c, ops[0]), ops[1..], cb, id);
    }
  }

  lemma {:induction false} RunKeepsUsed(c: Caster, ops: seq<Op>)
    requires SlotOk(c) && UsedOk(c)
    ensures SlotOk(Run(c, ops)) && UsedOk(Run(c, ops))
    decreases |ops|
  {
    if ops != [] {
      StepKeepsSlot(c, ops[0]);
      StepKeepsUsed(c, ops[0]);
      RunKeepsUsed(Next(c, ops[0]), ops[1..]);
    }
  }

  /** What the lemmas below ask of a state holds in every run, guarded or not, of a callback that was fresh. */
  lemma SubscribedBelongs(before: seq<Op>, sub: Sub, after: seq<Op>)
    requires var c := Run(NEW_CASTER, before);
      sub.cb !in c.used && FreshRun(Next(c, Subscribe(sub)), after)
    ensures var d := Run(Next(Run(NEW_CASTER, before), Subscribe(sub)), after);
      SlotOk(d) && UsedOk(d) && Belongs(d, sub.cb, sub.id)
  {
    var c := Run(NEW_CASTER, before);
    RunKeepsUsed(NEW_CASTER, before);
    StepKeepsUsed(c, Subscribe(sub));
    StepKeepsSlot(c, Subscribe(sub));
    JustSubscribed(c, sub);
    RunKeepsBelongs(Next(c, Subscribe(sub)), after, sub.cb, sub.id);
    RunKeepsUsed(Next(c, Subscribe(sub)), after);
  }

  lemma JustSubscribed(c: Caster, sub: Sub)
    requires UsedOk(c) && sub.cb !in c.used
    ensures Belongs(Next(c, Subscribe(sub)), sub.cb, sub.id)
  {
    SubsComeFrom(c, Subscribe(sub));
    forall s | Outstanding(Next(c, Subscribe(sub)), s) && s.cb == sub.cb ensures s.id == sub.id {
      StepOutstanding(c, Subscribe(sub), s);
    }
  }

  predicate SameAt(got: map<nat, Json>, got': map<nat, Json>, cb: nat) {
    (cb in got <==> cb in got') && (cb in got ==> got'[cb] == got[cb])
  }

  lemma UnsubscribeTakesOff(c: Caster, id: string)
    requires c.live
    ensures var d := Next(c, Unsubscribe(id));
      && id !in d.subs && d.got == c.got && d.inFlight == c.inFlight && d.queue == c.queue
      && (forall other :: other != id ==>
            (other in d.subs <==> other in c.subs) && (other in d.subs ==> d.subs[other] == c.subs[other]))
      && (d.live <==> exists other :: other in c.subs && other != id)
  {
    var rest := c.subs - {id};
    if rest != map[] {
      var other :| other in rest;
      assert other in c.subs && other != id;
    } else {
      assert forall other :: other in c.subs ==> other == id || other in rest;
    }
  }

  lemma SilentStep(c: Caster, op: Op, cb: nat, id: string)
    requires cb in c.used && Belongs(c, cb, id) && id !in c.subs && FreshCallback(c, op)
    requires op.Subscribe? ==> op.sub.id != id
    ensures id !in Next(c, op).subs && SameAt(c.got, Next(c, op).got, cb)
  {
    SubsComeFrom(c, op);
    StepHears(c, op, cb);
  }

  lemma {:induction false} SilentRun(c: Caster, ops: seq<Op>, cb: nat, id: string)
    requires UsedOk(c) && cb in c.used && Belongs(c, cb, id) && id !in c.subs && FreshRun(c, ops)
    requires forall k :: 0 <= k < |ops| && ops[k].Subscribe? ==> ops[k].sub.id != id
    ensures id !in Run(c, ops).subs && SameAt(c.got, Run(c, ops).got, cb)
    decreases |ops|
  {
    if ops != [] {
      var d := Next(c, ops[0]);
      StepKeepsUsed(c, ops[0]);
      StepKeepsBelongs(c, ops[0], cb, id);
      SilentStep(c, ops[0], cb, id);
      SilentRun(d, ops[1..], cb, id);
    }
  }

  /** An unsubscribe takes off that subscription and no other. Its callback then receives nothing in any
      run, guarded or not, in which nobody subscribes under its id again. */
  lemma UnsubscribedHearsNothing(c: Caster, id: string, ops: seq<Op>)
    requires UsedOk(c) && c.live && id in c.subs && Belongs(c, c.subs[id], id)
    requires FreshRun(Next(c, Unsubscribe(id)), ops)
    requires forall k :: 0 <= k < |ops| && ops[k].Subscribe? ==> ops[k].sub.id != id
    ensures var d := Next(c, Unsubscribe(id));
      && id !in d.subs
      && (forall other :: other != id ==>
            (other in d.subs <==> other in c.subs) && (other in d.subs ==> d.subs[other] == c.subs[other]))
      && (d.live <==> exists other :: other in c.subs && other != id)
    ensures var e := Run(Next(c, Unsubscribe(id)), ops); id !in e.subs && SameAt(c.got, e.got, c.subs[id])
  {
    UnsubscribeTakesOff(c, id);
    StepKeepsUsed(c, Unsubscribe(id));
    StepKeepsBelongs(c, Unsubscribe(id), c.subs[id], id);
    SilentRun(Next(c, Unsubscribe(id)), ops, c.subs[id], id);
  }

  // ---- Unless the id subscribes again ----

  /** Not subscribed, and nothing outstanding for it: no run reaches the callback any more. */
  ghost predicate Gone(c: Caster, sub: Sub) {
    !Outstanding(c, sub) && sub.cb !in c.subs.Values && Belongs(c, sub.cb, sub.id)
  }

  lemma StepKeepsGone(c: Caster, op: Op, sub: Sub)
    requires sub.cb in c.used && Gone(c, sub) && FreshCallback(c, op)
    ensures Gone(Next(c, op), sub) && SameAt(c.got, Next(c, op).got, sub.cb)
  {
    StepKeepsBelongs(c, op, sub.cb, sub.id);
    StepOutstanding(c, op, sub);
    StepHears(c, op, sub.cb);
    SubsComeFrom(c, op);
    assert forall i :: i in c.subs ==> c.subs[i] in c.subs.Values;
  }

  lemma {:induction false} GoneForGood(c: Caster, ops: seq<Op>, sub: Sub)
    requires UsedOk(c) && sub.cb in c.used && Gone(c, sub) && FreshRun(c, ops)
    ensures SameAt(c.got, Run(c, ops).got, sub.cb)
    decreases |ops|
  {
    if ops != [] {
      StepKeepsUsed(c, ops[0]);
      StepKeepsGone(c, ops[0], sub);
      GoneForGood(Next(c, ops[0]), ops[1..], sub);
    }
  }

  /** The k-th chained callback in the queue gets what is cached when its turn comes. */
  lemma {:induction false} QueueDrains(c: Caster, k: nat) returns (ops: seq<Op>)
    requires k < |c.queue| && c.live && c.hasValue && c.queue[k].id in c.subs
    ensures FreshRun(c, ops) && c.queue[k].cb in Run(c, ops).got && Run(c, ops).got[c.queue[k].cb] == c.lastValue
    decreases k
  {
    var d := Next(c, RunQueued);
    if k == 0 {
      ops := [RunQueued];
      RunOne(c, RunQueued);
      FreshMore(c, RunQueued, []);
    } else {
      assert d.queue[k - 1] == c.queue[k];
      var rest := QueueDrains(d, k - 1);
      ops := [RunQueued] + rest;
      RunMore(c, RunQueued, rest);
      FreshMore(c, RunQueued, rest);
    }
  }

  lemma FreshMore(c: Caster, op: Op, ops: seq<Op>)
    requires FreshCallback(c, op) && FreshRun(Next(c, op), ops)
    ensures FreshRun(c, [op] + ops) && ([op] + [] == [op])
  {
    assert ([op] + ops)[1..] == ops;
  }

  /** Read n ends with v, and so reaches a subscription outstanding with it whose id is subscribed. */
  lemma ReadReaches(c: Caster, n: nat, v: Json, sub: Sub) returns (ops: seq<Op>)
    requires c.live && n in c.inFlight && sub.id in c.subs
    requires c.inFlight[n].kind == Initial(sub) || sub in c.inFlight[n].waiters || sub in c.queue
    ensures FreshRun(c, ops) && sub.cb in Run(c, ops).got && Run(c, ops).got[sub.cb] == v
  {
    var d := Next(c, ReadDone(n, v));
    if c.inFlight[n].kind == Initial(sub) {
      ops := [ReadDone(n, v)];
      RunOne(c, ReadDone(n, v));
      FreshMore(c, ReadDone(n, v), []);
    } else {
      assert d.queue == c.queue + c.inFlight[n].waiters;
      assert sub in d.queue;
      var k :| 0 <= k < |d.queue| && d.queue[k] == sub;
      var rest := QueueDrains(d, k);
      ops := [ReadDone(n, v)] + rest;
      RunMore(c, ReadDone(n, v), rest);
      FreshMore(c, ReadDone(n, v), rest);
    }
  }

  /** As soon as the id is subscribed again, an outstanding delivery can reach the old callback. */
  lemma OutstandingReaches(c: Caster, v: Json, sub: Sub) returns (ops: seq<Op>)
    requires SlotOk(c) && c.live && sub.id in c.subs && Outstanding(c, sub)
    ensures FreshRun(c, ops) && sub.cb in Run(c, ops).got && Run(c, ops).got[sub.cb] == v
  {
    if n :| n in c.inFlight && (c.inFlight[n].kind == Initial(sub) || sub in c.inFlight[n].waiters) {
      ops := ReadReaches(c, n, v, sub);
    } else if c.readPromise.Some? {
      ops := ReadReaches(c, c.readPromise.value, v, sub);
    } else {
      var rest := ReadReaches(Next(c, Change), c.nextRead, v, sub);
      ops := [Change] + rest;
      RunMore(c, Change, rest);
      FreshMore(c, Change, rest);
    }
  }

  ghost predicate CalledAgain(c: Caster, cb: nat) {
    exists ops :: FreshRun(c, ops) && !SameAt(c.got, Run(c, ops).got, cb)
  }

  lemma SubscribeKeepsOutstanding(c: Caster, sub: Sub, again: Sub)
    requires SlotOk(c) && UsedOk(c) && Outstanding(c, sub)
    ensures Outstanding(Next(c, Subscribe(again)), sub)
  {
    var d := Next(c, Subscribe(again));
    if n :| n in c.inFlight && (c.inFlight[n].kind == Initial(sub) || sub in c.inFlight[n].waiters) {
      assert n in d.inFlight && (d.inFlight[n].kind == Initial(sub) || sub in d.inFlight[n].waiters);
    }
  }

  lemma CanBeCalledAgain(d: Caster, sub: Sub)
    requires SlotOk(d) && UsedOk(d) && Outstanding(d, sub)
    ensures CalledAgain(d, sub.cb)
  {
    var v := if sub.cb in d.got && d.got[sub.cb] == JNull then JBool(true) else JNull;
    var cb := Unused(d.used);
    var again := Sub(sub.id, cb);
    SubscribeKeepsOutstanding(d, sub, again);
    StepKeepsSlot(d, Subscribe(again));
    var rest := OutstandingReaches(Next(d, Subscribe(again)), v, sub);
    RunMore(d, Subscribe(again), rest);
    FreshMore(d, Subscribe(again), rest);
  }

  /** Some run calls an unsubscribed callback again exactly when a delivery to it was outstanding at the
      unsubscribe: its id subscribes again with another callback, and the old one is called with it. */
  lemma CalledAgainIffOutstanding(c: Caster, id: string)
    requires SlotOk(c) && UsedOk(c) && c.live && id in c.subs && Belongs(c, c.subs[id], id)
    ensures CalledAgain(Next(c, Unsubscribe(id)), c.subs[id]) <==> Outstanding(c, Sub(id, c.subs[id]))
  {
    var d, sub := Next(c, Unsubscribe(id)), Sub(id, c.subs[id]);
    UnsubscribeTakesOff(c, id);
    StepKeepsUsed(c, Unsubscribe(id));
    StepKeepsBelongs(c, Unsubscribe(id), sub.cb, id);
    if Outstanding(c, sub) {
      assert Outstanding(d, sub);
      CanBeCalledAgain(d, sub);
    } else {
      forall ops | FreshRun(d, ops) ensures SameAt(d.got, Run(d, ops).got, sub.cb) { GoneForGood(d, ops, sub); }
    }
  }

  // ---- The class ----

  class LocalBroadcaster {
    var entry: nat
    var live: bool
    var subs: map<string, nat>
    var hasValue: bool
    var lastValue: Json
    var readPromise: Option<nat>
    var inFlight: map<nat, Read>
    var nextRead: nat
    var queue: seq<Sub>
    var got: map<nat, Json>
    ghost var used: set<nat>
    ghost var failed: bool

    ghost function Model(): Caster
      reads this
    {
      Caster(entry, live, subs, hasValue, lastValue, readPromise, inFlight, nextRead, queue, got, used, failed)
    }

    constructor ()
      ensures Model() == NEW_CASTER
    {
      entry, live, subs, hasValue, lastValue := 0, false, map[], false, JNull;
      readPromise, inFlight, nextRead, queue, got := None, map[], 0, [], map[];
      used, failed := {}, false;
    }

    method BeginRead(kind: Kind)
      modifies this`readPromise, this`inFlight, this`nextRead
      ensures Model() == StartRead(old(Model()), kind)
    {
      inFlight := inFlight[nextRead := Read(entry, kind, [])];
      readPromise := Some(nextRead);
      nextRead := nextRead + 1;
    }

    method SubscribeCall(sub: Sub)
      requires SlotOk(Model())
      modifies this
      ensures Model() == Next(old(Model()), Subscribe(sub))
    {
      if !live { MakeEntry(); }
      subs := subs[sub.id := sub.cb];
      used := used + {sub.cb};
      DeliverFirst(sub);
    }

    /** `initCwdEntry` */
    method MakeEntry()
      modifies this`entry, this`live, this`subs, this`hasValue, this`lastValue, this`readPromise, this`failed
      ensures Model() == InitEntry(old(Model()))
    {
      entry, live, subs, hasValue, lastValue := entry + 1, true, map[], false, JNull;
      readPromise, failed := None, false;
    }

    /** `deliverInitial` */
    method DeliverFirst(sub: Sub)
      requires SlotOk(Model())
      modifies this`got, this`inFlight, this`readPromise, this`nextRead
      ensures Model() == DeliverInitial(old(Model()), sub)
    {
      if hasValue {
        got := got[sub.cb := lastValue];
      } else if readPromise.Some? {
        var n := readPromise.value;
        inFlight := inFlight[n := inFlight[n].(waiters := inFlight[n].waiters + [sub])];
      } else {
        BeginRead(Initial(sub));
      }
    }

    method UnsubscribeCall(id: string)
      modifies this`subs, this`live
      ensures Model() == Next(old(Model()), Unsubscribe(id))
    {
      if !live { return; }
      subs := subs - {id};
      if subs == map[] { live := false; }
    }

    method OnSourceChange()
      modifies this`readPromise, this`inFlight, this`nextRead
      ensures Model() == Next(old(Model()), Change)
    {
      if !live || readPromise.Some? { return; }
      BeginRead(OnChange);
    }

    method DeliverToAll(v: Json)
      modifies this`got
      ensures got == GiveAll(old(got), subs.Values, v)
    {
      var rest := subs.Keys;
      ghost var done: set<nat> := {};
      while rest != {}
        invariant rest <= subs.Keys
        invariant forall id :: id in subs && id !in rest ==> subs[id] in done
        invariant done <= subs.Values
        invariant got == GiveAll(old(got), done, v)
        decreases rest
      {
        var id :| id in rest;
        got := got[subs[id] := v];
        done := done + {subs[id]};
        rest := rest - {id};
      }
      assert done == subs.Values;
    }

    /** `typeEntry.readPromise = null`, and the chained callbacks become ready. */
    method FreeSlot(n: nat)
      requires n in inFlight
      modifies this`inFlight, this`queue, this`readPromise
      ensures Model() == EndRead(old(Model()), n)
    {
      var r := inFlight[n];
      inFlight := inFlight - {n};
      queue := queue + r.waiters;
      if r.entry == entry { readPromise := None; }
    }

    /** The callback of the first `.then`, whichever it is. */
    method OnReadDone(n: nat, v: Json)
      requires n in inFlight
      modifies this
      ensures Model() == Next(old(Model()), ReadDone(n, v))
    {
      var r := inFlight[n];
      FreeSlot(n);
      if !live { return; }
      hasValue := true;
      lastValue := v;
      match r.kind
      case OnChange => DeliverToAll(v);
      case Initial(sub) => if sub.id in subs { got := got[sub.cb := v]; }
    }

    /** The `.catch`. */
    method OnReadFailed(n: nat)
      requires n in inFlight
      modifies this
      ensures Model() == Next(old(Model()), ReadFails(n))
    {
      FreeSlot(n);
      failed := true;
    }

    /** The `.then` a subscriber chained to a read it did not start. */
    method RunQueuedCallback()
      requires queue != []
      modifies this`queue, this`got
      ensures Model() == Next(old(Model()), RunQueued)
    {
      var s := queue[0];
      queue := queue[1..];
      if !live || s.id !in subs { return; }
      if !hasValue { return; }
      got := got[s.cb := lastValue];
    }
  }
}
