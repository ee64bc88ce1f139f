/** apps/server/src/remote/reconnectable-rpc.ts: listeners that outlive the channels they are
    attached to. */
module Reconnectable {
  import opened Basics

  /** A user's callback, fresh for every registration, or the hook `replace` adds. */
  datatype Callback = User(n: nat) | Hook(rpc: nat)

  /** A callback in the listener table of a channel; channels are numbered. */
  datatype Attached = Attached(rpc: nat, event: string, fn: Callback)

  /** What the function returned by `on` has captured: the unsubscribe of the channel that was
      current then, if any. */
  datatype Registration = Registration(event: string, fn: Callback, on: Option<nat>)

  function Drop(s: seq<Callback>, fn: Callback): (r: seq<Callback>)
    ensures forall f :: f in r <==> f in s && f != fn
  {
    if s == [] then [] else (if s[0] == fn then [] else [s[0]]) + Drop(s[1..], fn)
  }

  class ReconnectableRpc {
    var current: Option<nat>
    var persistent: set<(string, Callback)>
    var unsubscribers: seq<Attached>
    /** The listener tables of all channels, as far as this object has touched them, and the
        order of the current channel's 'disconnect' callbacks around the hook. */
    var attached: set<Attached>
    var beforeHook: seq<Callback>
    var afterHook: seq<Callback>
    ghost var used: set<nat>  // channels handed to `replace` so far

    ghost predicate Valid()
      reads this
    {
      && (forall a :: a in attached ==> current == Some(a.rpc) && a in unsubscribers)
      && (forall p :: p in persistent ==> p.1.User?)
      && (current.None? ==> beforeHook == afterHook == [])
      && (current.Some? ==>
            var r := current.value;
            && r in used
            && (forall e, f :: (e, f) in persistent && e != "reconnect" ==> Attached(r, e, f) in attached)
            && (forall f :: Attached(r, "disconnect", f) in attached <==>
                f == Hook(r) || f in beforeHook || f in afterHook)
            && (forall f :: f in beforeHook || f in afterHook ==> f.User?))
    }

    constructor ()
      ensures Valid() && current == None && persistent == {} && attached == {} && used == {}
    {
      current, persistent, unsubscribers, attached := None, {}, [], {};
      beforeHook, afterHook, used := [], [], {};
    }

    method TeardownCurrent()
      modifies this`unsubscribers, this`attached, this`beforeHook, this`afterHook
      ensures unsubscribers == [] && attached == old(attached) - (set a | a in old(unsubscribers))
      ensures beforeHook == afterHook == []
    {
      var i := 0;
      while i < |unsubscribers|
        invariant 0 <= i <= |unsubscribers| && unsubscribers == old(unsubscribers)
        invariant attached == old(attached) - (set a | a in unsubscribers[..i])
      {
        attached := attached - {unsubscribers[i]};
        assert unsubscribers[..i + 1] == unsubscribers[..i] + [unsubscribers[i]];
        i := i + 1;
      }
      assert unsubscribers[..i] == unsubscribers;
      unsubscribers, beforeHook, afterHook := [], [], [];
    }

    /** `rpc.on(event, fn)` on the current channel. */
    method Attach(rpc: nat, event: string, fn: Callback)
      modifies this`unsubscribers, this`attached
      ensures attached == old(attached) + {Attached(rpc, event, fn)}
      ensures unsubscribers == old(unsubscribers) + [Attached(rpc, event, fn)]
    {
      attached := attached + {Attached(rpc, event, fn)};
      unsubscribers := unsubscribers + [Attached(rpc, event, fn)];
    }

    method On(event: string, fn: Callback) returns (reg: Registration)
      requires Valid() && fn.User? && forall e :: (e, fn) !in persistent
      modifies this
      ensures Valid() && reg == Registration(event, fn, current) && current == old(current) && used == old(used)
      ensures persistent == old(persistent) + {(event, fn)}
      ensures beforeHook == old(beforeHook)
      ensures attached == old(attached) + (if current.Some? then {Attached(current.value, event, fn)} else {})
    {
      persistent := persistent + {(event, fn)};
      if current.Some? {
        Attach(current.value, event, fn);
        if event == "disconnect" { afterHook := afterHook + [fn]; }
      }
      return Registration(event, fn, current);
    }

    /** The function returned by `on`. The callback leaves the channel it was registered on; on the
        current channel it stays attached exactly if it was re-wired there by a later replace. */
    method Release(reg: Registration)
      requires Valid() && reg.fn.User?
      modifies this`persistent, this`attached, this`beforeHook, this`afterHook
      ensures Valid() && persistent == old(persistent) - {(reg.event, reg.fn)}
      ensures forall a :: a in attached <==>
                a in old(attached) && !(reg.on.Some? && a == Attached(reg.on.value, reg.event, reg.fn))
      ensures current.Some? && (reg.event, reg.fn) in old(persistent) && reg.event != "reconnect" ==>
                (Attached(current.value, reg.event, reg.fn) in attached <==> reg.on != current)
    {
      persistent := persistent - {(reg.event, reg.fn)};
      if reg.on.Some? {
        attached := attached - {Attached(reg.on.value, reg.event, reg.fn)};
        if reg.event == "disconnect" && reg.on == current {
          beforeHook, afterHook := Drop(beforeHook, reg.fn), Drop(afterHook, reg.fn);
        }
      }
    }

    /** `resubscribe` is what the 'reconnect' callbacks register while they run. */
    method Replace(rpc: nat, resubscribe: seq<(string, Callback)>)
      requires Valid() && rpc !in used
      requires forall i :: 0 <= i < |resubscribe| ==>
                 resubscribe[i].1.User? && forall e :: (e, resubscribe[i].1) !in persistent
      requires forall i, j :: 0 <= i < j < |resubscribe| ==> resubscribe[i].1 != resubscribe[j].1
      modifies this
      ensures Valid() && current == Some(rpc) && used == old(used) + {rpc}
      ensures persistent == old(persistent) + (set i | 0 <= i < |resubscribe| :: resubscribe[i])
      // No earlier channel keeps a callback; the new one has exactly the persistent ones and the hook.
      ensures forall a :: a in attached ==> a.rpc == rpc
      ensures forall e, f :: e != "reconnect" ==>
                (Attached(rpc, e, f) in attached <==> (e, f) in persistent || (e, f) == ("disconnect", Hook(rpc)))
      ensures afterHook == [] && forall f :: f in beforeHook <==> ("disconnect", f) in persistent
    {
      TeardownCurrent();
      assert attached == {};
      current := Some(rpc);
      used := used + {rpc};
      Resubscribe(rpc, resubscribe);
      Rewire(rpc);
      Attach(rpc, "disconnect", Hook(rpc));
    }

    /** The 'reconnect' callbacks run; what they register is attached at once. */
    method Resubscribe(rpc: nat, resubscribe: seq<(string, Callback)>)
      requires attached == {} && current == Some(rpc)
      modifies this`persistent, this`attached, this`unsubscribers
      ensures persistent == old(persistent) + (set i | 0 <= i < |resubscribe| :: resubscribe[i])
      ensures forall a :: a in attached <==>
                a.rpc == rpc && exists i :: 0 <= i < |resubscribe| && resubscribe[i] == (a.event, a.fn)
      ensures forall a :: a in attached ==> a in unsubscribers
    {
      var i := 0;
      while i < |resubscribe|
        invariant 0 <= i <= |resubscribe|
        invariant persistent == old(persistent) + (set j | 0 <= j < i :: resubscribe[j])
        invariant forall a :: a in attached <==>
                    a.rpc == rpc && exists j :: 0 <= j < i && resubscribe[j] == (a.event, a.fn)
        invariant forall a :: a in attached ==> a in unsubscribers
      {
        persistent := persistent + {resubscribe[i]};
        Attach(rpc, resubscribe[i].0, resubscribe[i].1);
        i := i + 1;
      }
    }

    /** Attach every persistent callback but the synthetic 'reconnect' ones. */
    method Rewire(rpc: nat)
      requires forall a :: a in attached ==> a.rpc == rpc && (a.event, a.fn) in persistent && a in unsubscribers
      modifies this`attached, this`unsubscribers, this`beforeHook
      ensures forall a :: a in attached ==> a.rpc == rpc && (a.event, a.fn) in persistent && a in unsubscribers
      ensures forall e, f :: (e, f) in persistent && e != "reconnect" ==> Attached(rpc, e, f) in attached
      ensures forall f :: f in beforeHook <==> ("disconnect", f) in persistent
    {
      beforeHook := [];
      var rest := persistent;
      while rest != {}
        invariant rest <= persistent
        invariant forall a :: a in attached ==> a.rpc == rpc && (a.event, a.fn) in persistent && a in unsubscribers
        invariant forall p :: p in persistent && p !in rest && p.0 != "reconnect" ==>
            Attached(rpc, p.0, p.1) in attached
        invariant forall f :: f in beforeHook <==> ("disconnect", f) in persistent - rest
        decreases rest
      {
        var p :| p in rest;
        rest := rest - {p};
        if p.0 != "reconnect" {
          Attach(rpc, p.0, p.1);
          if p.0 == "disconnect" { beforeHook := beforeHook + [p.1]; }
        }
      }
    }

    /** The channel fires 'disconnect': it walks its set in order of registration and calls what is
        still attached. The hook takes every callback off, so those registered after the last
        replace are never told. */
    method ChannelDisconnects(rpc: nat) returns (notified: seq<Callback>)
      requires Valid() && Attached(rpc, "disconnect", Hook(rpc)) in attached
      modifies this
      ensures Valid() && current == None && attached == {} && persistent == old(persistent) && used == old(used)
      ensures notified == old(beforeHook)
    {
      notified := [];
      var order := beforeHook + [Hook(rpc)] + afterHook;
      var i := 0;
      while i < |order|
        invariant 0 <= i <= |order| && persistent == old(persistent) && used == old(used)
        invariant notified == old(beforeHook)[..if i < |old(beforeHook)| then i else |old(beforeHook)|]
        invariant i <= |old(beforeHook)| ==>
                    Valid() && current == Some(rpc) && attached == old(attached) && beforeHook == old(beforeHook)
        invariant i > |old(beforeHook)| ==> Valid() && current == None && attached == {}
      {
        var fn := order[i];
        assert i < |old(beforeHook)| ==> fn == old(beforeHook)[i] && fn in beforeHook;
        assert i == |old(beforeHook)| ==> fn == Hook(rpc);
        if Attached(rpc, "disconnect", fn) in attached {
          if fn == Hook(rpc) {
            if current == Some(rpc) {
              current := None;
              TeardownCurrent();
            }
          } else {
            notified := notified + [fn];
          }
        }
        i := i + 1;
      }
    }

    method Destroy()
      requires Valid()
      modifies this
      ensures Valid() && current == None && attached == {} && persistent == {} && used == old(used)
    {
      TeardownCurrent();
      persistent := {};
      current := None;
    }

    /** A request goes to the current channel or is refused. */
    method Request() returns (channel: Option<nat>)
      ensures channel == current
    {
      return current;
    }
  }

  /** A callback registered before a replace and released after it is still called on the new
      channel, until that one goes away. */
  method ReleasedYetAttached(r: ReconnectableRpc, event: string, fn: Callback, rpc: nat)
    requires r.Valid() && fn.User? && rpc !in r.used && event != "reconnect" && forall e :: (e, fn) !in r.persistent
    modifies r
    ensures r.Valid() && (event, fn) !in r.persistent && Attached(rpc, event, fn) in r.attached
  {
    var reg := r.On(event, fn);
    assert reg.on.Some? ==> reg.on.value in r.used;
    r.Replace(rpc, []);
    r.Release(reg);
  }
}
