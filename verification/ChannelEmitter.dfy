/** apps/server/src/socket/channel-emitter.ts: which socket is in which channel. A socket is an object, named
    here by a number; its id is that of the connection it stands for, and a rebind changes it. */
module Channels {

  datatype Sock = Sock(name: nat)
  type Id = string
  type Chan = string

  /** The three maps of the emitter, and what each socket object answers when asked for its id. */
  datatype World = World(channelSockets: map<Chan, set<Sock>>, socketChannels: map<Id, set<Chan>>,
                         refs: map<Id, Sock>, ids: map<Sock, Id>)

  const NEW_WORLD := World(map[], map[], map[], map[])

  function At<K(==), V>(m: map<K, set<V>>, k: K): set<V> { if k in m then m[k] else {} }

  function Members(w: World, c: Chan): set<Sock> { At(w.channelSockets, c) }

  /** The channels recorded under the id the socket has now. */
  function ChannelsOf(w: World, s: Sock): set<Chan> { if s in w.ids then At(w.socketChannels, w.ids[s]) else {} }

  /** The socket is kept under the id it has now. */
  predicate Tracked(w: World, s: Sock) { s in w.ids && w.ids[s] in w.refs && w.refs[w.ids[s]] == s }

  // ---- What the operations do ----

  function Track(w: World, s: Sock): World
    requires s in w.ids
  {
    w.(refs := w.refs[w.ids[s] := s])
  }

  function Join(w: World, c: Chan, s: Sock): World
    requires s in w.ids
  {
    Track(w, s).(channelSockets := w.channelSockets[c := Members(w, c) + {s}],
                 socketChannels := w.socketChannels[w.ids[s] := At(w.socketChannels, w.ids[s]) + {c}])
  }

  /** Join several channels. */
  function JoinAll(w: World, cs: set<Chan>, s: Sock): World
    requires s in w.ids
  {
    if cs == {} then w
    else Track(w, s).(channelSockets := AddEach(w.channelSockets, cs, s),
                      socketChannels := w.socketChannels[w.ids[s] := At(w.socketChannels, w.ids[s]) + cs])
  }

  function AddEach(m: map<Chan, set<Sock>>, cs: set<Chan>, s: Sock): map<Chan, set<Sock>> {
    map c | c in m.Keys + cs :: At(m, c) + (if c in cs then {s} else {})
  }

  function TakeOut(m: map<Chan, set<Sock>>, cs: set<Chan>, s: Sock): map<Chan, set<Sock>> {
    map c | c in m :: if c in cs then m[c] - {s} else m[c]
  }

  function Remove(w: World, id: Id): World {
    w.(refs := w.refs - {id},
       channelSockets := if id in w.socketChannels && id in w.refs
                         then TakeOut(w.channelSockets, w.socketChannels[id], w.refs[id]) else w.channelSockets)
  }

  function Reattach(w: World, s: Sock, previous: Id): World
    requires s in w.ids
  {
    JoinAll(w.(socketChannels := w.socketChannels - {previous}), At(w.socketChannels, previous), s)
  }

  function Expire(w: World, id: Id): World { w.(socketChannels := w.socketChannels - {id}) }

  /** A new connection of a socket that has had one: rebind, onRebind and handleConnection, in one go. */
  function Return(w: World, s: Sock, id: Id): World
    requires s in w.ids
  {
    Track(Reattach(w.(ids := w.ids[s := id]), s, w.ids[s]), s)
  }

  // ---- One relation ----

  /** The maps describe one relation: a channel holds a socket exactly while the socket is tracked and
      the channel is on record under its id. Each tracked socket is kept under one id, its own. */
  ghost predicate Agree(w: World) {
    && (forall s, c {:trigger s in Members(w, c)} {:trigger c in ChannelsOf(w, s)} ::
          s in Members(w, c) <==> Tracked(w, s) && c in ChannelsOf(w, s))
    && (forall i :: i in w.refs ==> w.refs[i] in w.ids && w.ids[w.refs[i]] == i)
    && (forall s, t :: s in w.ids && t in w.ids && w.ids[s] == w.ids[t] ==> s == t)
  }

  /** `handleConnection` keeps the maps in agreement exactly when the socket is tracked already or has
      nothing on record. */
  lemma ConnectKeepsAgreementIff(w: World, s: Sock)
    requires Agree(w) && s in w.ids
    ensures Agree(Track(w, s)) <==> Tracked(w, s) || ChannelsOf(w, s) == {}
  {
    var v := Track(w, s);
    if !Tracked(w, s) && ChannelsOf(w, s) != {} {
      var c :| c in ChannelsOf(w, s);
      assert s !in Members(w, c) && s !in Members(v, c);
      assert c in ChannelsOf(v, s) && Tracked(v, s);
    } else {
      assert forall t :: t != s ==> (Tracked(v, t) <==> Tracked(w, t));
      forall t, c ensures t in Members(v, c) <==> Tracked(v, t) && c in ChannelsOf(v, t) {
        assert t in Members(w, c) <==> Tracked(w, t) && c in ChannelsOf(w, t);
      }
    }
  }

  lemma JoinMembers(w: World, c: Chan, s: Sock)
    requires s in w.ids
    ensures forall t, d :: t in Members(Join(w, c, s), d) <==> t in Members(w, d) || (t == s && d == c)
    ensures ChannelsOf(Join(w, c, s), s) == ChannelsOf(w, s) + {c}
    ensures forall t :: t in w.ids && w.ids[t] != w.ids[s] ==> ChannelsOf(Join(w, c, s), t) == ChannelsOf(w, t)
  {}

  /** Joining a channel does exactly when the socket is tracked or has no other channel on record. */
  lemma JoinKeepsAgreementIff(w: World, c: Chan, s: Sock)
    requires Agree(w) && s in w.ids
    ensures Agree(Join(w, c, s)) <==> Tracked(w, s) || ChannelsOf(w, s) <= {c}
  {
    var v := Join(w, c, s);
    JoinMembers(w, c, s);
    if !Tracked(w, s) && !(ChannelsOf(w, s) <= {c}) {
      var d :| d in ChannelsOf(w, s) && d != c;
      assert s !in Members(w, d) && s !in Members(v, d);
      assert d in ChannelsOf(v, s) && Tracked(v, s);
    } else {
      assert forall t :: t != s ==> (Tracked(v, t) <==> Tracked(w, t));
      forall t, d ensures t in Members(v, d) <==> Tracked(v, t) && d in ChannelsOf(v, t) {
        assert t in Members(w, d) <==> Tracked(w, t) && d in ChannelsOf(w, t);
      }
    }
  }

  /** An expiry does exactly when no socket is kept under the id, or nothing is on record under it. */
  lemma ExpireKeepsAgreementIff(w: World, id: Id)
    requires Agree(w)
    ensures Agree(Expire(w, id)) <==> id !in w.refs || At(w.socketChannels, id) == {}
  {
    var v := Expire(w, id);
    assert forall s :: ChannelsOf(v, s) == if s in w.ids && w.ids[s] == id then {} else ChannelsOf(w, s);
    if id in w.refs && At(w.socketChannels, id) != {} {
      var c :| c in At(w.socketChannels, id);
      var s := w.refs[id];
      assert c in ChannelsOf(w, s) && s in Members(w, c);
      assert s in Members(v, c) && c !in ChannelsOf(v, s);
    } else {
      forall s, c ensures s in Members(v, c) <==> Tracked(v, s) && c in ChannelsOf(v, s) {
        assert s in Members(w, c) <==> Tracked(w, s) && c in ChannelsOf(w, s);
      }
    }
  }

  predicate HasId(w: World, s: Sock, id: Id) { s in w.ids && w.ids[s] == id }

  /** Taking the socket of an id off always does; the channels it was in stay on record. */
  lemma RemoveKeepsAgreement(w: World, id: Id)
    requires Agree(w)
    ensures var v := Remove(w, id);
      && Agree(v)
      && (forall s :: Tracked(v, s) <==> Tracked(w, s) && !HasId(w, s, id))
      && (forall s, c {:trigger s in Members(v, c)} ::
            s in Members(v, c) <==> s in Members(w, c) && !HasId(w, s, id))
      && (forall s :: ChannelsOf(v, s) == ChannelsOf(w, s))
  {
    var v := Remove(w, id);
    forall s, c {:trigger s in Members(v, c)} ensures s in Members(v, c) <==> s in Members(w, c) && !HasId(w, s, id) {
      assert s in Members(w, c) <==> Tracked(w, s) && c in ChannelsOf(w, s);
    }
    forall s, c ensures s in Members(v, c) <==> Tracked(v, s) && c in ChannelsOf(v, s) {
      assert s in Members(w, c) <==> Tracked(w, s) && c in ChannelsOf(w, s);
    }
  }

  /** The closing of a connection is noticed by two listeners; the second changes nothing. */
  lemma RemovingTwice(w: World, id: Id)
    ensures Remove(Remove(w, id), id) == Remove(w, id)
  {}

  lemma JoinAllMembers(w: World, cs: set<Chan>, s: Sock)
    requires s in w.ids
    ensures forall t, d :: t in Members(JoinAll(w, cs, s), d) <==> t in Members(w, d) || (t == s && d in cs)
    ensures ChannelsOf(JoinAll(w, cs, s), s) == ChannelsOf(w, s) + cs
    ensures forall t :: t in w.ids && w.ids[t] != w.ids[s] ==> ChannelsOf(JoinAll(w, cs, s), t) == ChannelsOf(w, t)
  {
    var v := JoinAll(w, cs, s);
    forall t, d ensures t in Members(v, d) <==> t in Members(w, d) || (t == s && d in cs) {
      if cs != {} && d in w.channelSockets.Keys + cs {
        assert Members(v, d) == Members(w, d) + (if d in cs then {s} else {});
      }
    }
  }

  /** An id no socket has had. */
  predicate Unused(w: World, id: Id) {
    id !in w.refs && id !in w.socketChannels && forall s :: s in w.ids ==> w.ids[s] != id
  }

  /** What a return does to members, records and tracking. */
  lemma ReturnEffect(w: World, s: Sock, id: Id)
    requires s in w.ids && Unused(w, id)
    requires forall t :: t in w.ids && w.ids[t] == w.ids[s] ==> t == s
    ensures var v := Return(w, s, id);
      && v.ids == w.ids[s := id] && v.refs == w.refs[id := s]
      && (forall t, c :: t in Members(v, c) <==> t in Members(w, c) || (t == s && c in ChannelsOf(w, s)))
      && (forall t :: ChannelsOf(v, t) == ChannelsOf(w, t))
  {
    var u := w.(ids := w.ids[s := id], socketChannels := w.socketChannels - {w.ids[s]});
    JoinAllMembers(u, ChannelsOf(w, s), s);
    assert ChannelsOf(u, s) == {};
    var v := Return(w, s, id);
    assert forall t, c :: t in Members(u, c) <==> t in Members(w, c);
    forall t ensures ChannelsOf(v, t) == ChannelsOf(w, t) {
      if t in w.ids && t != s { assert ChannelsOf(u, t) == ChannelsOf(w, t); }
    }
  }

  lemma ReturnKeepsAgreement(w: World, s: Sock, id: Id)
    requires Agree(w) && s in w.ids && Unused(w, id) && !Tracked(w, s)
    ensures Agree(Return(w, s, id))
    ensures forall t :: t != s ==> (Tracked(Return(w, s, id), t) <==> Tracked(w, t))
  {
    var v := Return(w, s, id);
    ReturnEffect(w, s, id);
    forall t | t != s ensures Tracked(v, t) <==> Tracked(w, t) {}
    forall t, c {:trigger t in Members(v, c)} ensures t in Members(v, c) <==> Tracked(v, t) && c in ChannelsOf(v, t) {
      assert t in Members(w, c) <==> Tracked(w, t) && c in ChannelsOf(w, t);
    }
  }

  /** A return keeps the maps in agreement exactly when the end of the connection before has been
      noticed. */
  lemma ReturnKeepsAgreementIff(w: World, s: Sock, id: Id)
    requires Agree(w) && s in w.ids && Unused(w, id)
    ensures Agree(Return(w, s, id)) <==> !Tracked(w, s)
  {
    if Tracked(w, s) {
      ReturnEffect(w, s, id);
      var v := Return(w, s, id);
      assert v.refs[w.ids[s]] == s && v.ids[s] != w.ids[s];
    } else {
      ReturnKeepsAgreement(w, s, id);
    }
  }

  // ---- The program's use of it ----

  /** The maps, the connections whose end has not been noticed, and the socket each connection was of. */
  datatype System = System(w: World, open: set<Id>, owner: map<Id, Sock>)

  datatype Op =
    | Appear(s: Sock, id: Id)      // the first connection of a new socket object
    | Come(s: Sock, id: Id)        // a further connection of the same one
    | Enter(s: Sock, c: Chan)      // a request handler puts the socket into a channel
    | Close(id: Id)                // the end of a connection is noticed
    | Lapse(id: Id)                // the session's TTL has run out

  const NEW_SYSTEM := System(NEW_WORLD, {}, map[])

  /** The disconnect listener of a connection asks the socket for its id when it runs. */
  function Next(x: System, op: Op): System {
    match op
    case Appear(s, id) =>
      if s in x.w.ids || id in x.owner then x
      else System(Track(x.w.(ids := x.w.ids[s := id]), s), x.open + {id}, x.owner[id := s])
    case Come(s, id) =>
      if s !in x.w.ids || id in x.owner then x
      else System(Return(x.w, s, id), x.open + {id}, x.owner[id := s])
    case Enter(s, c) => if s !in x.w.ids then x else x.(w := Join(x.w, c, s))
    case Close(id) =>
      if id !in x.open || id !in x.owner || x.owner[id] !in x.w.ids then x
      else x.(w := Remove(x.w, x.w.ids[x.owner[id]]), open := x.open - {id})
    case Lapse(id) => x.(w := Expire(x.w, id))
  }

  function Run(x: System, ops: seq<Op>): System
    decreases |ops|
  {
    if ops == [] then x else Run(Next(x, ops[0]), ops[1..])
  }

  /** The connection the socket stands for now is open, as far as has been noticed. */
  predicate Live(x: System, s: Sock) { s in x.w.ids && x.w.ids[s] in x.open }

  /** The maps agree, and the tracked sockets are the live ones. */
  ghost predicate Good(x: System) { Agree(x.w) && forall s :: Tracked(x.w, s) <==> Live(x, s) }

  /** A connection comes after the end of the one before; only a live socket enters a channel; a
      session lapses with no live socket in a channel. */
  predicate Guarded(x: System, op: Op) {
    match op
    case Come(s, id) => id !in x.owner ==> !Live(x, s)
    case Enter(s, _) => s in x.w.ids ==> Live(x, s)
    case Lapse(id) => id in x.open ==> At(x.w.socketChannels, id) == {}
    case _ => true
  }

  predicate GuardedRun(x: System, ops: seq<Op>)
    decreases |ops|
  {
    ops == [] || (Guarded(x, ops[0]) && GuardedRun(Next(x, ops[0]), ops[1..]))
  }

  /** Ids are used once, and each open connection is the one its socket stands for. */
  ghost predicate Orderly(x: System) {
    && Good(x)
    && (forall s :: s in x.w.ids ==> x.w.ids[s] in x.owner && x.owner[x.w.ids[s]] == s)
    && (forall i :: i in x.open ==> i in x.owner && x.owner[i] in x.w.ids && x.w.ids[x.owner[i]] == i)
    && (forall i :: i in x.w.socketChannels || i in x.w.refs ==> i in x.owner)
  }

  lemma AppearKeepsAgreement(w: World, s: Sock, id: Id)
    requires Agree(w) && s !in w.ids && Unused(w, id)
    ensures var v := Track(w.(ids := w.ids[s := id]), s);
      && Agree(v)
      && (forall t :: Tracked(v, t) <==> Tracked(w, t) || t == s)
  {
    var v := Track(w.(ids := w.ids[s := id]), s);
    assert forall t :: ChannelsOf(v, t) == ChannelsOf(w, t);
    assert forall t :: Tracked(v, t) <==> Tracked(w, t) || t == s;
    forall t, c ensures t in Members(v, c) <==> Tracked(v, t) && c in ChannelsOf(v, t) {
      assert t in Members(w, c) <==> Tracked(w, t) && c in ChannelsOf(w, t);
    }
  }

  lemma AppearKeepsOrderly(x: System, s: Sock, id: Id)
    requires Orderly(x) && s !in x.w.ids && id !in x.owner
    ensures Orderly(Next(x, Appear(s, id)))
  {
    AppearKeepsAgreement(x.w, s, id);
  }

  lemma ComeKeepsOrderly(x: System, s: Sock, id: Id)
    requires Orderly(x) && s in x.w.ids && id !in x.owner && !Live(x, s)
    ensures Orderly(Next(x, Come(s, id)))
  {
    var y := Next(x, Come(s, id));
    ReturnEffect(x.w, s, id);
    ReturnKeepsAgreement(x.w, s, id);
    ReturnRecords(x.w, s, id);
    assert forall t :: Tracked(y.w, t) <==> Live(y, t);
  }

  lemma ReturnRecords(w: World, s: Sock, id: Id)
    requires s in w.ids
    ensures forall i :: i in Return(w, s, id).socketChannels ==> i in w.socketChannels || i == id
  {}

  lemma CloseKeepsOrderly(x: System, id: Id)
    requires Orderly(x) && id in x.open
    ensures Orderly(Next(x, Close(id)))
  {
    RemoveKeepsAgreement(x.w, id);
  }

  lemma EnterKeepsOrderly(x: System, s: Sock, c: Chan)
    requires Orderly(x) && Live(x, s)
    ensures Orderly(Next(x, Enter(s, c)))
  {
    JoinKeepsAgreementIff(x.w, c, s);
    assert Tracked(x.w, s);
    assert forall t :: Tracked(Join(x.w, c, s), t) <==> Tracked(x.w, t);
  }

  lemma LapseKeepsOrderly(x: System, id: Id)
    requires Orderly(x) && Guarded(x, Lapse(id))
    ensures Orderly(Next(x, Lapse(id)))
  {
    ExpireKeepsAgreementIff(x.w, id);
    if id in x.w.refs { assert Tracked(x.w, x.w.refs[id]); }
    assert forall t :: Tracked(Expire(x.w, id), t) <==> Tracked(x.w, t);
  }

  lemma StepKeepsOrderly(x: System, op: Op)
    requires Orderly(x) && Guarded(x, op)
    ensures Orderly(Next(x, op))
  {
    match op
    case Appear(s, id) => if s !in x.w.ids && id !in x.owner { AppearKeepsOrderly(x, s, id); }
    case Come(s, id) => if s in x.w.ids && id !in x.owner { ComeKeepsOrderly(x, s, id); }
    case Enter(s, c) => if s in x.w.ids { EnterKeepsOrderly(x, s, c); }
    case Close(id) => if id in x.open { CloseKeepsOrderly(x, id); }
    case Lapse(id) => LapseKeepsOrderly(x, id);
  }

  lemma {:induction false} RunKeepsOrderly(x: System, ops: seq<Op>)
    requires Orderly(x) && GuardedRun(x, ops)
    ensures Orderly(Run(x, ops))
    decreases |ops|
  {
    if ops != [] {
      StepKeepsOrderly(x, ops[0]);
      RunKeepsOrderly(Next(x, ops[0]), ops[1..]);
    }
  }

  ghost predicate AlwaysGood(x: System) { forall ops :: GuardedRun(x, ops) ==> Good(Run(x, ops)) }

  lemma OutsideBreaks(x: System, op: Op)
    requires Orderly(x) && !Guarded(x, op)
    ensures !Good(Next(x, op))
  {
    match op
    case Come(s, id) => ReturnKeepsAgreementIff(x.w, s, id);
    case Enter(s, c) => assert Tracked(Next(x, op).w, s) && !Live(Next(x, op), s);
    case Lapse(id) =>
      assert Live(x, x.owner[id]);
      ExpireKeepsAgreementIff(x.w, id);
  }

  /** In every state guarded steps reach: a step is inside the guard exactly when after it, and after
      every guarded continuation, the maps agree and track the live sockets. */
  lemma AgreementIsExact(x: System, op: Op)
    requires Orderly(x)
    ensures Guarded(x, op) <==> AlwaysGood(Next(x, op))
  {
    var y := Next(x, op);
    if Guarded(x, op) {
      StepKeepsOrderly(x, op);
      forall ops | GuardedRun(y, ops) ensures Good(Run(y, ops)) { RunKeepsOrderly(y, ops); }
    } else {
      OutsideBreaks(x, op);
      assert GuardedRun(y, []) && Run(y, []) == y;
    }
  }

  /** Over every guarded sequence of steps from the start: a live socket is in exactly the channels on record
      for it, any other in none, and a broadcast reaches each live socket under one id. */
  lemma LiveSocketsAreInTheirChannels(ops: seq<Op>)
    requires GuardedRun(NEW_SYSTEM, ops)
    ensures var x := Run(NEW_SYSTEM, ops);
      && (forall s, c :: s in Members(x.w, c) <==> Live(x, s) && c in ChannelsOf(x.w, s))
      && (forall s :: Live(x, s) <==> exists i :: i in x.w.refs && x.w.refs[i] == s)
      && (forall i, j :: i in x.w.refs && j in x.w.refs && x.w.refs[i] == x.w.refs[j] ==> i == j)
  {
    RunKeepsOrderly(NEW_SYSTEM, ops);
    var x := Run(NEW_SYSTEM, ops);
    forall s ensures Live(x, s) <==> exists i :: i in x.w.refs && x.w.refs[i] == s {
      if Live(x, s) { assert x.w.refs[x.w.ids[s]] == s; }
      if i :| i in x.w.refs && x.w.refs[i] == s { assert Tracked(x.w, s); }
    }
  }

  lemma RunTwo(x: System, a: Op, b: Op)
    ensures Run(x, [a, b]) == Next(Next(x, a), b)
  {
    assert [a, b][1..] == [b];
    assert Run(Next(x, a), [b]) == Run(Next(Next(x, a), b), []);
  }

  /** A new socket that enters a channel is live, kept under its id, and in that channel alone; no other socket
      enters or leaves one. */
  lemma NewSocketEnters(x: System, s: Sock, id: Id, c: Chan)
    requires Orderly(x) && s !in x.w.ids && id !in x.owner
    ensures var y := Run(x, [Appear(s, id), Enter(s, c)]);
      && Orderly(y) && Live(y, s) && id in y.w.refs && y.w.refs[id] == s && y.open == x.open + {id}
      && (forall t, d :: t in Members(y.w, d) <==> t in Members(x.w, d) || (t == s && d == c))
      && ChannelsOf(y.w, s) == {c}
  {
    var m := Next(x, Appear(s, id));
    RunTwo(x, Appear(s, id), Enter(s, c));
    AppearKeepsOrderly(x, s, id);
    EnterKeepsOrderly(m, s, c);
    JoinMembers(m.w, c, s);
  }

  /** A socket that loses its connection and comes back: every channel has the members it had. */
  lemma LoseAndReturn(x: System, s: Sock, id: Id)
    requires Orderly(x) && Live(x, s) && id !in x.owner
    ensures var y := Run(x, [Close(x.w.ids[s]), Come(s, id)]);
      && Orderly(y) && Live(y, s)
      && (forall t, c :: t in Members(y.w, c) <==> t in Members(x.w, c))
      && (forall t :: ChannelsOf(y.w, t) == ChannelsOf(x.w, t))
  {
    var before := x.w.ids[s];
    var m := Next(x, Close(before));
    RunTwo(x, Close(before), Come(s, id));
    RemoveKeepsAgreement(x.w, before);
    CloseKeepsOrderly(x, before);
    ComeKeepsOrderly(m, s, id);
    ReturnEffect(m.w, s, id);
    forall t, c ensures t in Members(Next(m, Come(s, id)).w, c) <==> t in Members(x.w, c) {
      assert t in Members(x.w, c) <==> Tracked(x.w, t) && c in ChannelsOf(x.w, t);
    }
  }

  /** A lapse forgets what is on record under the id, whether or not a socket is kept under it, and nothing else. */
  lemma LapseForgets(x: System, id: Id)
    ensures var y := Next(x, Lapse(id));
      && (forall i :: i in y.w.socketChannels <==> i in x.w.socketChannels && i != id)
      && (forall s :: ChannelsOf(y.w, s) == if HasId(x.w, s, id) then {} else ChannelsOf(x.w, s))
      && (forall c :: Members(y.w, c) == Members(x.w, c))
  {}

  /** A socket that loses its connection and comes back only after its session has lapsed is in no channel; no
      other socket is moved. */
  lemma LapsedSocketReturnsToNoChannel(x: System, s: Sock, id: Id)
    requires Orderly(x) && Live(x, s) && id !in x.owner
    ensures var before := x.w.ids[s];
      var y := Run(Next(x, Close(before)), [Lapse(before), Come(s, id)]);
      && Orderly(y) && Live(y, s)
      && (forall t, c :: t in Members(y.w, c) <==> t in Members(x.w, c) && t != s)
      && (forall t :: ChannelsOf(y.w, t) == if t == s then {} else ChannelsOf(x.w, t))
  {
    var before := x.w.ids[s];
    var m := Next(x, Close(before));
    var n := Next(m, Lapse(before));
    RunTwo(m, Lapse(before), Come(s, id));
    CloseLeaves(x, s);
    LapseForgets(m, before);
    LapseKeepsOrderly(m, before);
    ComeKeepsOrderly(n, s, id);
    ReturnEffect(n.w, s, id);
    assert forall t :: HasId(m.w, t, before) <==> t == s;
  }

  lemma CloseLeaves(x: System, s: Sock)
    requires Orderly(x) && Live(x, s)
    ensures var m := Next(x, Close(x.w.ids[s]));
      && Orderly(m) && m.w.ids == x.w.ids && m.owner == x.owner && !Live(m, s)
      && (forall t, c :: t in Members(m.w, c) <==> t in Members(x.w, c) && t != s)
      && (forall t :: ChannelsOf(m.w, t) == ChannelsOf(x.w, t))
  {
    RemoveKeepsAgreement(x.w, x.w.ids[s]);
    CloseKeepsOrderly(x, x.w.ids[s]);
  }

  /** The other order, from every orderly state: after the new connection the socket is kept under two
      ids, so a broadcast reaches it twice; the late end of the old connection then takes the live socket
      out of all its channels, and leaves it kept under the old id alone. */
  lemma LateCloseTakesOut(x: System, s: Sock, id: Id)
    requires Orderly(x) && Live(x, s) && id !in x.owner
    ensures var before, y := x.w.ids[s], Next(x, Come(s, id));
      && y.w.refs[before] == y.w.refs[id] == s && before != id
      && (forall c :: s in Members(y.w, c) <==> s in Members(x.w, c))
    ensures var before, z := x.w.ids[s], Run(x, [Come(s, id), Close(x.w.ids[s])]);
      && Live(z, s) && ChannelsOf(z.w, s) == ChannelsOf(x.w, s)
      && (ChannelsOf(x.w, s) != {} ==> forall c :: s !in Members(z.w, c))
      && before in z.w.refs && z.w.refs[before] == s && id !in z.w.refs
  {
    var before, y := x.w.ids[s], Next(x, Come(s, id));
    RunTwo(x, Come(s, id), Close(before));
    ReturnEffect(x.w, s, id);
    forall c ensures s in Members(y.w, c) <==> s in Members(x.w, c) {
      assert s in Members(x.w, c) <==> Tracked(x.w, s) && c in ChannelsOf(x.w, s);
    }
    var z := Next(y, Close(before));
    assert z.w == Remove(y.w, id);
    forall c ensures s !in Members(z.w, c) {
      assert s in Members(x.w, c) <==> c in ChannelsOf(y.w, s);
    }
  }

  /** The end of a connection takes a live socket out of a channel exactly when it is not the connection
      the socket stands for, that one is open, and the socket is in a channel. This holds also in states
      outside the guard, as long as channels and records agree. */
  lemma CloseTakesOutLiveIff(x: System, id: Id)
    requires id in x.open && id in x.owner && x.owner[id] in x.w.ids
    requires forall s, c :: s in Members(x.w, c) <==> Tracked(x.w, s) && c in ChannelsOf(x.w, s)
    ensures var s, y := x.owner[id], Next(x, Close(id));
      (Live(y, s) && exists c :: s in Members(x.w, c) && s !in Members(y.w, c))
      <==> x.w.ids[s] != id && Live(x, s) && exists c :: s in Members(x.w, c)
  {
    var s, y := x.owner[id], Next(x, Close(id));
    if x.w.ids[s] != id && Live(x, s) {
      if c :| s in Members(x.w, c) {
        assert Tracked(x.w, s) && c in ChannelsOf(x.w, s);
        assert s !in Members(y.w, c);
      }
    }
  }

  // ---- The class ----

  lemma AddEachMore(m: map<Chan, set<Sock>>, cs: set<Chan>, s: Sock, c: Chan)
    ensures var n := AddEach(m, cs, s); n[c := At(n, c) + {s}] == AddEach(m, cs + {c}, s)
  {
    var n, more := AddEach(m, cs, s), AddEach(m, cs + {c}, s);
    var v := n[c := At(n, c) + {s}];
    assert v.Keys == more.Keys;
    forall d | d in more ensures v[d] == more[d] {}
  }

  lemma AddOne(m: map<Chan, set<Sock>>, s: Sock, c: Chan)
    ensures m[c := At(m, c) + {s}] == AddEach(m, {c}, s)
  {
    var v, one := m[c := At(m, c) + {s}], AddEach(m, {c}, s);
    assert v.Keys == one.Keys;
    forall d | d in one ensures v[d] == one[d] {}
  }

  lemma JoinAllOneMore(w: World, cs: set<Chan>, s: Sock, c: Chan)
    requires s in w.ids
    ensures Join(JoinAll(w, cs, s), c, s) == JoinAll(w, cs + {c}, s)
  {
    var at := At(w.socketChannels, w.ids[s]);
    AddEachMore(w.channelSockets, cs, s, c);
    assert at + cs + {c} == at + (cs + {c});
    if cs == {} {
      assert cs + {c} == {c};
      AddOne(w.channelSockets, s, c);
    } else {
      var v := JoinAll(w, cs, s);
      assert v.refs[w.ids[s] := s] == v.refs;
      assert v.socketChannels[w.ids[s] := at + (cs + {c})] == w.socketChannels[w.ids[s] := at + (cs + {c})];
    }
  }

  /** How often a broadcast reaches a socket. */
  ghost function Copies(refs: map<Id, Sock>, keys: set<Id>, s: Sock): nat {
    |set i | i in keys && i in refs && refs[i] == s|
  }

  lemma CopiesLess(refs: map<Id, Sock>, keys: set<Id>, i: Id, s: Sock)
    requires i in keys && i in refs
    ensures Copies(refs, keys, s) == Copies(refs, keys - {i}, s) + (if refs[i] == s then 1 else 0)
  {
    var all := set k | k in keys && k in refs && refs[k] == s;
    var less := set k | k in keys - {i} && k in refs && refs[k] == s;
    if refs[i] == s {
      assert all == less + {i};
    } else {
      assert all == less;
    }
  }

  /** In agreement, once if it is tracked, else not at all. */
  lemma OneCopyEach(w: World, s: Sock)
    requires Agree(w)
    ensures Copies(w.refs, w.refs.Keys, s) == if Tracked(w, s) then 1 else 0
  {
    var all := set i | i in w.refs.Keys && i in w.refs && w.refs[i] == s;
    if Tracked(w, s) {
      assert all == {w.ids[s]};
    } else {
      assert all == {};
    }
  }

  class ChannelEmitter {
    var channelSockets: map<Chan, set<Sock>>
    var socketChannels: map<Id, set<Chan>>
    var socketRefs: map<Id, Sock>
    var ids: map<Sock, Id>              // the sockets' own; only Rebind changes it
    var emitted: seq<(Sock, string)>

    ghost function Model(): World
      reads this
    {
      World(channelSockets, socketChannels, socketRefs, ids)
    }

    constructor ()
      ensures Model() == NEW_WORLD && emitted == []
    {
      channelSockets, socketChannels, socketRefs, ids, emitted := map[], map[], map[], map[], [];
    }

    /** The socket object now stands for another connection (ResumableSocket.rebind), or is new. */
    method Rebind(s: Sock, id: Id)
      modifies this`ids
      ensures Model() == old(Model()).(ids := old(ids)[s := id])
    {
      ids := ids[s := id];
    }

    method HandleConnection(s: Sock)
      requires s in ids
      modifies this`socketRefs
      ensures Model() == Track(old(Model()), s)
    {
      socketRefs := socketRefs[ids[s] := s];
    }

    method AddSocketToChannel(c: Chan, s: Sock)
      requires s in ids
      modifies this`channelSockets, this`socketChannels, this`socketRefs
      ensures Model() == Join(old(Model()), c, s)
    {
      channelSockets := channelSockets[c := At(channelSockets, c) + {s}];
      socketRefs := socketRefs[ids[s] := s];
      socketChannels := socketChannels[ids[s] := At(socketChannels, ids[s]) + {c}];
    }

    method RemoveSocketFromAll(socketId: Id) returns (channelIds: set<Chan>)
      modifies this`channelSockets, this`socketRefs
      ensures Model() == Remove(old(Model()), socketId) && channelIds == At(socketChannels, socketId)
    {
      channelIds := At(socketChannels, socketId);
      if socketId in socketChannels && socketId in socketRefs {
        var socket, rest := socketRefs[socketId], channelIds;
        assert TakeOut(channelSockets, {}, socket) == channelSockets;
        while rest != {}
          invariant rest <= channelIds && socketRefs == old(socketRefs)
          invariant channelSockets == TakeOut(old(channelSockets), channelIds - rest, socket)
          decreases rest
        {
          var c :| c in rest;
          if c in channelSockets { channelSockets := channelSockets[c := channelSockets[c] - {socket}]; }
          rest := rest - {c};
        }
        assert channelIds - rest == channelIds;
      }
      socketRefs := socketRefs - {socketId};
    }

    method ReattachSocket(newSocket: Sock, previousSocketId: Id)
      requires newSocket in ids
      modifies this`channelSockets, this`socketChannels, this`socketRefs
      ensures Model() == Reattach(old(Model()), newSocket, previousSocketId)
    {
      if previousSocketId !in socketChannels {
        assert socketChannels - {previousSocketId} == socketChannels;
        return;
      }
      var channelIds := socketChannels[previousSocketId];
      socketChannels := socketChannels - {previousSocketId};
      ghost var w := Model();
      var rest := channelIds;
      while rest != {}
        invariant rest <= channelIds && newSocket in w.ids
        invariant Model() == JoinAll(w, channelIds - rest, newSocket)
        decreases rest
      {
        var c :| c in rest;
        ghost var done := channelIds - rest;
        AddSocketToChannel(c, newSocket);
        JoinAllOneMore(w, done, newSocket, c);
        rest := rest - {c};
        assert channelIds - rest == done + {c};
      }
      assert channelIds - rest == channelIds;
    }

    method ExpireSocket(socketId: Id)
      modifies this`socketChannels
      ensures Model() == Expire(old(Model()), socketId)
      ensures socketId !in socketChannels && forall id :: id != socketId ==>
                (id in socketChannels <==> id in old(socketChannels))
                && (id in socketChannels ==> socketChannels[id] == old(socketChannels)[id])
    {
      socketChannels := socketChannels - {socketId};
    }

    /** Send to each socket of a set once. */
    method SendTo(sockets: set<Sock>, event: string)
      modifies this`emitted
      ensures old(emitted) <= emitted && |emitted| == |old(emitted)| + |sockets|
      ensures forall s :: (s, event) in emitted[|old(emitted)|..] <==> s in sockets
    {
      var rest := sockets;
      while rest != {}
        invariant rest <= sockets && old(emitted) <= emitted
        invariant |emitted| == |old(emitted)| + |sockets| - |rest|
        invariant forall s :: (s, event) in emitted[|old(emitted)|..] <==> s in sockets - rest
        decreases rest
      {
        var s :| s in rest;
        ghost var was := emitted;
        emitted := emitted + [(s, event)];
        assert emitted[|old(emitted)|..] == was[|old(emitted)|..] + [(s, event)];
        rest := rest - {s};
      }
    }

    /** Reaches exactly the members, each once; in agreement those are the tracked sockets with the channel
        on record. */
    method Emit(c: Chan, event: string)
      modifies this`emitted
      ensures old(emitted) <= emitted && |emitted| == |old(emitted)| + |Members(Model(), c)|
      ensures forall s :: (s, event) in emitted[|old(emitted)|..] <==> s in Members(Model(), c)
      ensures Agree(Model()) ==> forall s :: (s, event) in emitted[|old(emitted)|..] <==>
                Tracked(Model(), s) && c in ChannelsOf(Model(), s)
    {
      if c !in channelSockets {
        assert Members(Model(), c) == {};
        return;
      }
      SendTo(channelSockets[c], event);
    }

    /** Reaches the members but the one that has the excluded id now. */
    method EmitToOthers(c: Chan, excludeSocketId: Id, event: string)
      requires forall s :: s in Members(Model(), c) ==> s in ids
      modifies this`emitted
      ensures old(emitted) <= emitted
      ensures forall s :: (s, event) in emitted[|old(emitted)|..] <==>
                s in Members(Model(), c) && ids[s] != excludeSocketId
      ensures |emitted| == |old(emitted)| + |set s | s in Members(Model(), c) && ids[s] != excludeSocketId|
    {
      var others := set s | s in At(channelSockets, c) && ids[s] != excludeSocketId;
      assert others == set s | s in Members(Model(), c) && ids[s] != excludeSocketId;
      SendTo(others, event);
    }

    /** Reaches each socket as often as it is kept under some id; in agreement, each tracked socket once. */
    method BroadcastAll(event: string)
      modifies this`emitted
      ensures old(emitted) <= emitted && |emitted| == |old(emitted)| + |socketRefs|
      ensures forall s :: multiset(emitted[|old(emitted)|..])[(s, event)] == Copies(socketRefs, socketRefs.Keys, s)
      ensures Agree(Model()) ==> forall s ::
                multiset(emitted[|old(emitted)|..])[(s, event)] == if Tracked(Model(), s) then 1 else 0
    {
      var rest := socketRefs.Keys;
      while rest != {}
        invariant rest <= socketRefs.Keys && old(emitted) <= emitted
        invariant |emitted| == |old(emitted)| + |socketRefs| - |rest|
        invariant forall s :: multiset(emitted[|old(emitted)|..])[(s, event)] + Copies(socketRefs, rest, s)
                              == Copies(socketRefs, socketRefs.Keys, s)
        decreases rest
      {
        var i :| i in rest;
        ghost var was := emitted;
        emitted := emitted + [(socketRefs[i], event)];
        assert emitted[|old(emitted)|..] == was[|old(emitted)|..] + [(socketRefs[i], event)];
        forall s { CopiesLess(socketRefs, rest, i, s); }
        rest := rest - {i};
      }
      if Agree(Model()) { forall s { OneCopyEach(Model(), s); } }
    }

    /** A further connection of a socket, as the transport makes it. */
    method ComeBack(s: Sock, id: Id)
      requires s in ids
      modifies this`ids, this`channelSockets, this`socketChannels, this`socketRefs
      ensures Model() == Return(old(Model()), s, id)
    {
      var previousSocketId := ids[s];
      Rebind(s, id);
      ReattachSocket(s, previousSocketId);
      HandleConnection(s);
    }
  }
}
