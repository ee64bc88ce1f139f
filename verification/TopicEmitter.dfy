/** packages/utils/src/topic-emitter.ts */
module Topics {
  import opened Basics

  datatype Entry = Entry(cb: nat, refcount: int)

  /** One call of `subscribe`; the unsubscribe closure it returns holds topic and id. */
  datatype Handle<Topic> = Handle(topic: Topic, id: string, cb: nat)

  /** The numbers of the handles for (topic, id) that have not been released. */
  function Live<Topic(==)>(handles: seq<Handle<Topic>>, active: set<nat>, topic: Topic, id: string): set<nat> {
    set h | h in active && h < |handles| && handles[h].topic == topic && handles[h].id == id
  }

  /** The callback of the latest subscription for (topic, id), if there ever was one. */
  function Latest<Topic(==)>(handles: seq<Handle<Topic>>, topic: Topic, id: string): nat {
    if handles == [] then 0
    else
      var last := handles[|handles| - 1];
      if last.topic == topic && last.id == id then last.cb else Latest(handles[..|handles| - 1], topic, id)
  }

  type Table<Topic> = map<Topic, map<string, Entry>>

  /** What the nested maps hold for (topic, id). */
  function Stored<Topic(==)>(subs: Table<Topic>, topic: Topic, id: string): Option<Entry> {
    if topic in subs && id in subs[topic] then Some(subs[topic][id]) else None
  }

  /** What they should hold: nothing without an unreleased handle, else the number of those and the
      latest callback. */
  function Expected<Topic(==)>(handles: seq<Handle<Topic>>, active: set<nat>, topic: Topic, id: string): Option<Entry> {
    var live := Live(handles, active, topic, id);
    if live == {} then None else Some(Entry(Latest(handles, topic, id), |live|))
  }

  /** The maps agree with the handles everywhere, and keep no topic without entries. */
  ghost predicate Exact<Topic(!new)>(subs: Table<Topic>, handles: seq<Handle<Topic>>, active: set<nat>) {
    && (forall h :: h in active ==> h < |handles|)
    && (forall t :: t in subs ==> subs[t] != map[])
    && (forall t, id :: Stored(subs, t, id) == Expected(handles, active, t, id))
  }

  lemma LiveAdd<Topic>(handles: seq<Handle<Topic>>, active: set<nat>, h: Handle<Topic>, topic: Topic, id: string)
    requires forall x :: x in active ==> x < |handles|
    ensures Live(handles + [h], active + {|handles|}, topic, id)
            == Live(handles, active, topic, id) + (if h.topic == topic && h.id == id then {|handles|} else {})
    ensures |handles| !in Live(handles, active, topic, id)
  {}

  lemma ExpectedAdd<Topic>(handles: seq<Handle<Topic>>, active: set<nat>, h: Handle<Topic>, topic: Topic, id: string)
    requires forall x :: x in active ==> x < |handles|
    ensures Expected(handles + [h], active + {|handles|}, topic, id) ==
            var was := Expected(handles, active, topic, id);
            if h.topic == topic && h.id == id
            then Some(Entry(h.cb, if was.None? then 1 else was.value.refcount + 1)) else was
  {
    var more := handles + [h];
    assert more[..|more| - 1] == handles;
    LiveAdd(handles, active, h, topic, id);
  }

  lemma ExpectedRemove<Topic>(handles: seq<Handle<Topic>>, active: set<nat>, h: nat, topic: Topic, id: string)
    requires h in active && h < |handles|
    ensures Expected(handles, active - {h}, topic, id) ==
            var was := Expected(handles, active, topic, id);
            if handles[h].topic != topic || handles[h].id != id then was
            else if was.Some? && was.value.refcount > 1 then Some(was.value.(refcount := was.value.refcount - 1))
            else None
    ensures handles[h].topic == topic && handles[h].id == id ==> Expected(handles, active, topic, id).Some?
  {
    var live := Live(handles, active, topic, id);
    assert Live(handles, active - {h}, topic, id) == live - {h};
    if handles[h].topic == topic && handles[h].id == id {
      assert h in live && |live - {h}| == |live| - 1;
      assert |live| == 1 ==> live - {h} == {};
    } else {
      assert h !in live && live - {h} == live;
    }
  }

  class TopicEmitter<Topic(==,!new)> {
    var subs: Table<Topic>
    var handles: seq<Handle<Topic>>  // what the closures captured
    var active: set<nat>             // their `active` flags

    ghost predicate Valid()
      reads this
    {
      Exact(subs, handles, active)
    }

    constructor ()
      ensures Valid() && subs == map[] && handles == [] && active == {}
    {
      subs, handles, active := map[], [], {};
    }

    method Subscribe(topic: Topic, id: string, cb: nat) returns (handle: nat)
      requires Valid()
      modifies this
      ensures Valid() && handle == |old(handles)|
      ensures handles == old(handles) + [Handle(topic, id, cb)] && active == old(active) + {handle}
    {
      var perTopic := if topic in subs then subs[topic] else map[];
      var entry := if id in perTopic then Entry(cb, perTopic[id].refcount + 1) else Entry(cb, 1);
      forall t, i {
        ExpectedAdd(handles, active, Handle(topic, id, cb), t, i);
      }
      assert Stored(subs, topic, id) == if id in perTopic then Some(perTopic[id]) else None;
      subs := subs[topic := perTopic[id := entry]];
      assert forall t, i ::
          Stored(subs, t, i) == if t == topic && i == id then Some(entry) else Stored(old(subs), t, i);
      handle := |handles|;
      active := active + {handle};
      handles := handles + [Handle(topic, id, cb)];
    }

    /** The returned closure: only its first call has an effect. */
    method Release(handle: nat)
      requires Valid() && handle < |handles|
      modifies this
      ensures Valid() && handles == old(handles) && active == old(active) - {handle}
      ensures handle !in old(active) ==> subs == old(subs)
    {
      if handle !in active { return; }
      var topic, id := handles[handle].topic, handles[handle].id;
      forall t, i {
        ExpectedRemove(handles, active, handle, t, i);
      }
      assert Stored(subs, topic, id).Some?;
      active := active - {handle};
      var m := subs[topic];
      var e := m[id].(refcount := m[id].refcount - 1);
      if e.refcount <= 0 {
        ghost var m0 := m;
        m := m - {id};
        assert forall i :: i in m <==> i in m0 && i != id;
        subs := if m == map[] then subs - {topic} else subs[topic := m];
        assert forall t, i :: Stored(subs, t, i) == if t == topic && i == id then None else Stored(old(subs), t, i);
      } else {
        subs := subs[topic := m[id := e]];
        assert forall t, i :: Stored(subs, t, i) == if t == topic && i == id then Some(e) else Stored(old(subs), t, i);
      }
    }

    /** Calls each stored callback of the topic once; a callback that throws is logged and the
        rest are still called. `throws` says which do. */
    method Publish(topic: Topic, throws: set<nat>) returns (called: seq<(string, nat)>, logged: seq<nat>)
      requires Valid()
      ensures forall i, j :: 0 <= i < j < |called| ==> called[i].0 != called[j].0
      ensures forall id, cb :: (id, cb) in called <==>
                Live(handles, active, topic, id) != {} && cb == Latest(handles, topic, id)
      ensures forall cb :: cb in logged <==> cb in throws && exists c :: c in called && c.1 == cb
    {
      called, logged := [], [];
      if topic !in subs {
        forall id { RefcountCountsHandles(topic, id); }
        assert forall id :: Expected(handles, active, topic, id) == Stored(subs, topic, id) == None;
        return;
      }
      var m := subs[topic];
      var rest := m.Keys;
      while rest != {}
        invariant rest <= m.Keys
        invariant forall c :: c in called <==> c.0 in m && c.0 !in rest && c.1 == m[c.0].cb
        invariant forall i, j :: 0 <= i < j < |called| ==> called[i].0 != called[j].0
        invariant forall cb :: cb in logged <==> cb in throws && exists c :: c in called && c.1 == cb
        decreases rest
      {
        var id :| id in rest;
        var now := (id, m[id].cb);
        assert now !in called;
        ghost var was := called;
        called := called + [now];
        assert called[|was|] == now;
        assert forall c :: c in called <==> c in was || c == now;
        rest := rest - {id};
        if now.1 in throws { logged := logged + [now.1]; }
      }
      forall id ensures id in m <==> Live(handles, active, topic, id) != {}
                ensures id in m ==> m[id].cb == Latest(handles, topic, id)
      {
        assert Stored(subs, topic, id) == Expected(handles, active, topic, id);
      }
    }

    method HasSubscribers(topic: Topic) returns (b: bool)
      requires Valid()
      ensures b <==> exists h :: h in active && handles[h].topic == topic
    {
      b := topic in subs && |subs[topic]| > 0;
      TopicLivesWithHandles(topic);
    }

    /** Refcount exactness, in every state the class can reach. */
    lemma RefcountCountsHandles(topic: Topic, id: string)
      requires Valid()
      ensures topic in subs && id in subs[topic] <==>
              exists h :: h in active && handles[h].topic == topic && handles[h].id == id
      ensures topic in subs && id in subs[topic] ==> subs[topic][id].refcount == |Live(handles, active, topic, id)| > 0
    {
      assert Stored(subs, topic, id) == Expected(handles, active, topic, id);
      if topic in subs && id in subs[topic] {
        var h :| h in Live(handles, active, topic, id);
      }
      if h :| h in active && handles[h].topic == topic && handles[h].id == id {
        assert h in Live(handles, active, topic, id);
      }
    }

    lemma TopicLivesWithHandles(topic: Topic)
      requires Valid()
      ensures topic in subs <==> exists h :: h in active && handles[h].topic == topic
    {
      if topic in subs {
        var id :| id in subs[topic];
        RefcountCountsHandles(topic, id);
      }
      if h :| h in active && handles[h].topic == topic {
        RefcountCountsHandles(topic, handles[h].id);
      }
    }
  }
}
