/** apps/server/src/socket/control-request-tracker.ts */
module ControlRequests {
  import opened Basics
  import opened Wire
  import opened Promises

  /** What the sender is called with; the parameters may be absent. */
  datatype Sent = Sent(subtype: string, params: Option<Json>, requestId: string)

  class ControlRequestTracker<Meta> {
    var meta: map<string, Meta>
    var pending: seq<string>
    var timers: set<string>
    var sent: seq<Sent>  // calls of the sender
    ghost var settled: seq<Settlement<string>>
    ghost var issued: set<string>

    ghost function Promises(): Book<string>
      reads this
    {
      Book(pending, settled)
    }

    /** Every request id drawn is pending or settled, exactly once in all, and exactly the
        pending ones have their timer armed. */
    ghost predicate Valid()
      reads this
    {
      && Sound(Promises(), issued)
      && (forall id :: id in timers <==> id in pending)
    }

    constructor ()
      ensures Valid() && meta == map[] && Promises() == Book([], []) && issued == {} && sent == []
    {
      meta, pending, timers, sent, settled, issued := map[], [], {}, [], [], {};
    }

    method TrackInbound(requestId: string, m: Meta)
      requires Valid()
      modifies this`meta
      ensures Valid() && meta == old(meta)[requestId := m]
    {
      meta := meta[requestId := m];
    }

    method RemoveInbound(requestId: string)
      requires Valid()
      modifies this`meta
      ensures Valid() && meta == old(meta) - {requestId}
    {
      meta := meta - {requestId};
    }

    /** `requestId` is the random UUID the call draws. */
    method SendOutbound(subtype: string, params: Option<Json>, requestId: string)
      requires Valid() && requestId !in issued
      modifies this`pending, this`timers, this`sent, this`issued
      ensures Valid() && issued == old(issued) + {requestId} && sent == old(sent) + [Sent(subtype, params, requestId)]
      ensures Promises() == Await(old(Promises()), requestId)
    {
      AwaitSound(Promises(), issued, requestId);
      timers := timers + {requestId};
      pending := pending + [requestId];
      issued := issued + {requestId};
      sent := sent + [Sent(subtype, params, requestId)];
    }

    /** The promise of a pending request is settled and its timer disarmed; any other id, one
        already settled included, is ignored. */
    method SettleOne(requestId: string, outcome: Outcome)
      requires Valid()
      modifies this`pending, this`timers, this`settled
      ensures Valid()
      ensures Promises() == Settle(old(Promises()), requestId, outcome)
      ensures requestId !in pending && forall id :: id != requestId ==> (id in pending <==> id in old(pending))
    {
      SettleSound(Promises(), issued, requestId, outcome);
      if requestId !in pending { return; }
      timers := timers - {requestId};
      pending := Without(pending, requestId);
      settled := settled + [Settlement(requestId, outcome)];
    }

    method ResolveOutbound(requestId: string, response: Json)
      requires Valid()
      modifies this`pending, this`timers, this`settled
      ensures Valid()
      ensures Promises() == Settle(old(Promises()), requestId, Resolved(response)) && requestId !in pending
    {
      SettleOne(requestId, Resolved(response));
    }

    /** The timer's callback: it runs only while the timer is armed. */
    method TimerFired(requestId: string, subtype: string)
      requires Valid() && exists s :: s in sent && s.subtype == subtype && s.requestId == requestId
      modifies this`pending, this`timers, this`settled
      ensures Valid() && requestId !in pending
      ensures Promises() == Settle(old(Promises()), requestId, Rejected("Control request '" + subtype + "' timed out"))
    {
      if requestId in timers {
        SettleOne(requestId, Rejected("Control request '" + subtype + "' timed out"));
      } else {
        assert requestId !in pending;
      }
    }

    /** The loop deletes each entry it has rejected, so the map shrinks under the iteration. */
    method RejectAllPending(reason: string)
      requires Valid()
      modifies this`pending, this`timers, this`settled
      ensures Valid() && pending == [] && timers == {}
      ensures Promises() == SettleAll(old(Promises()), Rejected(reason))
    {
      SettleAllSound(Promises(), issued, Rejected(reason));
      ghost var all := pending;
      ghost var done := 0;
      while |pending| > 0
        invariant done <= |all| && pending == all[done..]
        invariant settled == old(settled) + SettleAll(Book(all[..done], []), Rejected(reason)).settled
        invariant timers == old(timers) - (set id | id in all[..done])
      {
        var id := pending[0];
        timers := timers - {id};
        settled := settled + [Settlement(id, Rejected(reason))];
        pending := Without(pending, id);
        assert all[..done + 1] == all[..done] + [id];
        assert SettleAll(Book(all[..done + 1], []), Rejected(reason)).settled
            == SettleAll(Book(all[..done], []), Rejected(reason)).settled + [Settlement(id, Rejected(reason))];
        done := done + 1;
      }
      assert all[..done] == all;
      assert Promises() == SettleAll(old(Promises()), Rejected(reason));
    }

    method Clear()
      requires Valid()
      modifies this`meta, this`pending, this`timers, this`settled
      ensures Valid() && meta == map[] && pending == [] && timers == {}
      ensures Promises() == SettleAll(old(Promises()), Rejected("Channel destroyed"))
    {
      meta := map[];
      RejectAllPending("Channel destroyed");
    }
  }

  /** What Valid says of the promises handed out: none settled twice, none both settled and
      pending, none forgotten. */
  lemma OutboundSettlesOnce<Meta>(t: ControlRequestTracker<Meta>)
    requires t.Valid()
    ensures forall i, j :: 0 <= i < j < |t.settled| ==> t.settled[i].id != t.settled[j].id
    ensures forall i :: 0 <= i < |t.settled| ==> t.settled[i].id !in t.pending && t.settled[i].id in t.issued
    ensures forall id :: id in t.issued ==> id in t.pending || id in Ids(t.settled)
  {
    SettledOnce(t.Promises(), t.issued);
  }
}
