/** packages/transport/src/middleware/resumable.ts: the registry of ResumableSockets by session key, and the
    proof that it drives each of them through the steps of ReconnectSession. */
module ResumableMiddleware {
  import opened Basics
  import opened Wire
  import opened Replay
  import opened ReconnectSession

  // ---- One key of the registry ----

  /** Whether the key has an entry, its connections whose end has not been noticed, the timer a
      reconnect would clear, and those that have been neither cleared nor fired. */
  datatype Key = Key(present: bool, live: set<nat>, stored: Option<nat>, armed: set<nat>)

  datatype Op =
    | Begin(conn: nat)             // transformSocket on a new connection
    | End(conn: nat, timer: nat)   // its end is noticed; a new timer is set
    | Fire(timer: nat)

  const NEW_KEY := Key(false, {}, None, {})

  /** A step that is not possible changes nothing. */
  function Next(k: Key, op: Op): Key {
    match op
    case Begin(c) =>
      if c in k.live then k
      else if k.present then
        Key(true, k.live + {c}, None, if k.stored.Some? then k.armed - {k.stored.value} else k.armed)
      else k.(present := true, live := k.live + {c})
    case End(c, t) =>
      if c !in k.live || t in k.armed then k
      else k.(live := k.live - {c}, stored := Some(t), armed := k.armed + {t})
    case Fire(t) => if t in k.armed then k.(present := false, stored := None, armed := k.armed - {t}) else k
  }

  function Run(k: Key, ops: seq<Op>): Key
    decreases |ops|
  {
    if ops == [] then k else Run(Next(k, ops[0]), ops[1..])
  }

  /** A connection begins only when the end of the one before has been noticed. */
  predicate Guarded(k: Key, op: Op) { op.Begin? && op.conn !in k.live ==> k.live == {} }

  predicate GuardedRun(k: Key, ops: seq<Op>)
    decreases |ops|
  {
    ops == [] || (Guarded(k, ops[0]) && GuardedRun(Next(k, ops[0]), ops[1..]))
  }

  /** A live connection has its entry. */
  predicate Held(k: Key) { k.live != {} ==> k.present }

  /** At most one connection is live; while one is, no timer is running, and otherwise at most the one
      that a reconnect would clear, which runs only while there is an entry. */
  ghost predicate Orderly(k: Key) {
    && (forall c, d :: c in k.live && d in k.live ==> c == d)
    && (k.live != {} ==> k.present && k.armed == {})
    && (forall t :: t in k.armed ==> k.present && k.stored == Some(t))
  }

  lemma StepKeepsOrderly(k: Key, op: Op)
    requires Orderly(k) && Guarded(k, op)
    ensures Orderly(Next(k, op))
  {
    if op.Fire? && op.timer in k.armed { assert forall t :: t in k.armed ==> t == op.timer; }
  }

  lemma {:induction false} RunKeepsOrderly(k: Key, ops: seq<Op>)
    requires Orderly(k) && GuardedRun(k, ops)
    ensures Orderly(Run(k, ops))
    decreases |ops|
  {
    if ops != [] {
      StepKeepsOrderly(k, ops[0]);
      RunKeepsOrderly(Next(k, ops[0]), ops[1..]);
    }
  }

  ghost predicate AlwaysHeld(k: Key) { forall ops :: GuardedRun(k, ops) ==> Held(Run(k, ops)) }

  /** The end of the older connection comes, and its timer fires, under the newer one. */
  lemma LateEndLetsGo(k: Key, older: nat, newer: nat, timer: nat)
    requires older in k.live && newer in k.live && older != newer && timer !in k.armed
    ensures GuardedRun(k, [End(older, timer), Fire(timer)]) && !Held(Run(k, [End(older, timer), Fire(timer)]))
  {
    var l := Next(k, End(older, timer));
    var m := Next(l, Fire(timer));
    assert newer in m.live && !m.present;
    assert [End(older, timer), Fire(timer)][1..] == [Fire(timer)];
    assert Run(l, [Fire(timer)]) == Run(m, []) == m;
    assert GuardedRun(l, [Fire(timer)]);
  }

  /** In every state guarded steps reach: a step is inside the guard exactly when no guarded
      continuation takes the entry away under a live connection. */
  lemma HoldIsExact(k: Key, op: Op)
    requires Orderly(k)
    ensures Guarded(k, op) <==> AlwaysHeld(Next(k, op))
  {
    var l := Next(k, op);
    if Guarded(k, op) {
      StepKeepsOrderly(k, op);
      forall ops | GuardedRun(l, ops) ensures Held(Run(l, ops)) { RunKeepsOrderly(l, ops); }
    } else {
      var older :| older in k.live;
      var timer := Unused(l.armed);
      LateEndLetsGo(l, older, op.conn, timer);
    }
  }

  /** Over every sequence of steps from the start that keeps the guard, a live connection has its entry. */
  lemma LiveSessionsDoNotExpire(ops: seq<Op>)
    requires GuardedRun(NEW_KEY, ops)
    ensures Held(Run(NEW_KEY, ops))
  {
    RunKeepsOrderly(NEW_KEY, ops);
  }

  // ---- The objects ----

  /** The objects are in the state the transition system says. */
  ghost predicate Matches(rs: ResumableSocket, s: Session)
    reads rs, rs.inner
  {
    && rs.Valid() && rs.log == s.log && rs.bufferSize == s.size
    && (s.conn.Up? ==> rs.inner.open == s.conn.open && rs.inner.sent == s.conn.sent)
    && (s.conn.Down? ==> !rs.inner.open)
  }

  class Middleware {
    const bufferSize: nat
    var registry: map<string, ResumableSocket>
    var ttlTimers: map<string, nat>   // session key to the timer a reconnect would clear
    var armed: map<nat, string>       // timers that have been neither cleared nor fired
    var nextTimer: nat
    var rebound: seq<string>          // previous socket ids handed to onRebind
    var expired: seq<string>          // socket ids handed to onExpire
    ghost var live: map<string, set<nat>>  // connections by key, until their end is noticed

    /** Timers are numbered as they are set, and a stored timer was set for its key. */
    ghost predicate Valid()
      reads this
    {
      && (forall t :: t in armed ==> t < nextTimer)
      && (forall k :: k in ttlTimers ==> ttlTimers[k] < nextTimer)
      && (forall k :: k in ttlTimers && ttlTimers[k] in armed ==> armed[ttlTimers[k]] == k)
    }

    ghost function State(key: string): Key
      reads `registry, `live, `ttlTimers, `armed
    {
      Key(key in registry, if key in live then live[key] else {},
          if key in ttlTimers then Some(ttlTimers[key]) else None,
          set t | t in armed && armed[t] == key)
    }

    constructor (bufferSize: nat)
      ensures Valid() && this.bufferSize == bufferSize && forall k :: State(k) == NEW_KEY
    {
      this.bufferSize := bufferSize;
      registry, ttlTimers, armed, nextTimer, rebound, expired, live := map[], map[], map[], 0, [], [], map[];
    }

    /** `clearTimeout` on the stored timer, if there is one. */
    method ClearTimer(key: string)
      requires Valid()
      modifies this`armed, this`ttlTimers
      ensures Valid()
      ensures var k := old(State(key));
        State(key) == k.(stored := None, armed := if k.stored.Some? then k.armed - {k.stored.value} else k.armed)
      ensures forall k :: k != key ==> State(k) == old(State(k))
    {
      if key in ttlTimers {
        armed := armed - {ttlTimers[key]};
        ttlTimers := ttlTimers - {key};
      }
    }

    ghost method NoteBegin(key: string, conn: nat)
      requires Valid()
      modifies this`live
      ensures Valid() && State(key) == old(State(key)).(live := old(State(key)).live + {conn})
      ensures forall k :: k != key ==> State(k) == old(State(k))
    {
      live := live[key := (if key in live then live[key] else {}) + {conn}];
    }

    /** A connection with a registered key rebinds the key's socket and clears its timer; any other
        gets a fresh socket, registered if it has a key. No other key is concerned. */
    method TransformSocket(key: Option<string>, typed: TypedSocket, ghost conn: nat) returns (rs: ResumableSocket)
      requires Valid() && typed.Valid()
      requires key.Some? ==> conn !in State(key.value).live
      requires key.Some? && key.value in registry ==> registry[key.value].Valid()
      modifies this, if key.Some? && key.value in registry then {registry[key.value]} else {}
      ensures Valid() && rs.Valid() && rs.inner == typed
      ensures key.Some? && key.value in old(registry) ==>
                && rs == old(registry)[key.value] && rs.log == old(registry[key.value].log)
                && registry == old(registry) && rebound == old(rebound) + [old(registry[key.value].inner.id)]
      ensures !(key.Some? && key.value in old(registry)) ==>
                && fresh(rs) && rs.log == [] && rs.bufferSize == bufferSize && rebound == old(rebound)
                && registry == if key.Some? then old(registry)[key.value := rs] else old(registry)
      ensures key.Some? ==> State(key.value) == Next(old(State(key.value)), Begin(conn))
      ensures forall k :: key.None? || k != key.value ==> State(k) == old(State(k))
      ensures expired == old(expired)
    {
      if key.Some? && key.value in registry {
        rs := registry[key.value];
        var previousSocketId := rs.inner.id;
        rs.Rebind(typed);
        ClearTimer(key.value);
        rebound := rebound + [previousSocketId];
      } else {
        rs := new ResumableSocket(typed, bufferSize);
        if key.Some? {
          registry := registry[key.value := rs];
          assert State(key.value) == old(State(key.value)).(present := true);
          assert forall k :: k != key.value ==> State(k) == old(State(k));
        }
      }
      if key.Some? { NoteBegin(key.value, conn); }
    }

    /** After the connection has ended: the TTL timer is set. */
    method ConnectionEnded(key: Option<string>, ghost conn: nat) returns (timer: nat)
      requires Valid() && (key.Some? ==> conn in State(key.value).live)
      modifies this`ttlTimers, this`armed, this`nextTimer, this`live
      ensures Valid() && timer == old(nextTimer) && timer !in old(armed)
      ensures key.Some? ==> timer in armed && armed[timer] == key.value
      ensures key.Some? ==> State(key.value) == Next(old(State(key.value)), End(conn, timer))
      ensures forall k :: key.None? || k != key.value ==> State(k) == old(State(k))
    {
      timer := nextTimer;
      if key.Some? {
        ttlTimers := ttlTimers[key.value := timer];
        armed := armed[timer := key.value];
        live := live[key.value := live[key.value] - {conn}];
      }
      nextTimer := nextTimer + 1;
    }

    /** The timer's callback. */
    method TimerFired(timer: nat)
      requires Valid() && timer in armed
      modifies this`registry, this`ttlTimers, this`armed, this`expired
      ensures Valid() && registry == old(registry) - {old(armed[timer])}
      ensures State(old(armed[timer])) == Next(old(State(armed[timer])), Fire(timer))
      ensures forall k :: k != old(armed[timer]) ==> State(k) == old(State(k))
      ensures expired == old(expired) + (if old(armed[timer]) in old(registry)
                                         then [old(registry[armed[timer]].inner.id)] else [])
    {
      var key := armed[timer];
      armed := armed - {timer};
      if key in registry { expired := expired + [registry[key].inner.id]; }
      registry := registry - {key};
      ttlTimers := ttlTimers - {key};
    }

    /** The listener on the resume event, whenever and however often it is called; a payload that is
        malformed, or has no number, counts as 0. */
    method OnResume(rs: ResumableSocket, payload: Option<nat>, ghost s: Session)
      requires rs.Valid()
      modifies rs, rs.inner
      ensures rs.Valid() && rs.inner == old(rs.inner) && rs.inner.open == old(rs.inner.open)
      ensures var lastSeq := if payload.Some? then payload.value else 0;
        var gap := Answer(|old(rs.log)|, rs.bufferSize, lastSeq).Gap?;
        var again := if gap then [REFRESH] else Missed(old(rs.log), rs.bufferSize, lastSeq);
        && rs.log == old(rs.log) + (if gap then [Event("state:refresh_required", JObj(map[]))] else [])
        && rs.inner.sent == old(rs.inner.sent) + (if rs.inner.open then Stamp(|old(rs.inner.sent)|, again) else [])
      ensures old(Matches(rs, s)) && s.conn.Up? && s.conn.open && !s.conn.resumed && Some(s.conn.base) == payload ==>
                Matches(rs, Apply(s, ResumeArrives))
    {
      var lastSeq := if payload.Some? then payload.value else 0;
      var result := rs.Resume(lastSeq);
      if result.Gap? {
        assert Missed(rs.log, rs.bufferSize, lastSeq) == [];
        StampNone(rs.inner.sent, |rs.inner.sent|);
        rs.Emit(REFRESH);
      } else {
        assert rs.log + [] == rs.log;
      }
    }

    /** A connection of a registered key takes the connect step, whether or not the connection before has been
        seen to end. */
    method Reconnect(key: string, typed: TypedSocket, ghost conn: nat, ghost s: Session) returns (rs: ResumableSocket)
      requires Valid() && key in registry && conn !in State(key).live
      requires typed.Valid() && typed.open && typed.sent == [] && Matches(registry[key], s)
      modifies this, registry[key]
      ensures Valid() && rs == old(registry[key]) && registry == old(registry)
      ensures Matches(rs, Apply(Apply(s, Drop), Connect))
      ensures old(Orderly(State(key))) ==> (old(State(key).live) == {} <==> AlwaysHeld(State(key)))
    {
      ghost var was := State(key);
      if Orderly(was) { HoldIsExact(was, Begin(conn)); }
      rs := TransformSocket(Some(key), typed, conn);
    }

    /** The first connection of a key, or the first after its entry has been removed, starts from nothing on
        the server's side, whatever the client has counted. */
    method FirstConnection(key: string, typed: TypedSocket, ghost conn: nat, ghost s: Session)
      returns (rs: ResumableSocket)
      requires Valid() && key !in registry && conn !in State(key).live
      requires typed.Valid() && typed.open && typed.sent == []
      requires s.conn.Down? && s.size == bufferSize
      modifies this
      ensures Valid() && registry == old(registry)[key := rs]
      ensures Matches(rs, Apply(Apply(s, Expire), Connect))
    {
      rs := TransformSocket(Some(key), typed, conn);
    }
  }

  /** An application emit, at any moment. */
  method EmitNow(rs: ResumableSocket, e: Event, ghost s: Session)
    requires Matches(rs, s)
    modifies rs, rs.inner
    ensures Matches(rs, Apply(s, Emit(e))) && rs.inner == old(rs.inner)
  {
    rs.Emit(e);
  }

  /** The instance outside the guard: when the end of an old connection is noticed only after the new one has
      come, its timer takes the entry away under the live connection, whose id is reported as expired. */
  method LateEndForgets(m: Middleware, key: string, before: TypedSocket, after: TypedSocket)
    returns (rs: ResumableSocket)
    requires m.Valid() && key !in m.registry && m.State(key).live == {} && before.Valid() && after.Valid()
    modifies m
    ensures m.Valid() && rs.inner == after && m.expired == old(m.expired) + [after.id]
    ensures m.State(key).live == {1} && !Held(m.State(key))
  {
    var first := m.TransformSocket(Some(key), before, 0);
    rs := m.TransformSocket(Some(key), after, 1);
    var timer := m.ConnectionEnded(Some(key), 0);
    m.TimerFired(timer);
  }
}
