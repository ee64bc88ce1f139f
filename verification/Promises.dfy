/** The bookkeeping shared by the three request/response correlators (RpcChannel, WsClient,
    ControlRequestTracker): a map of pending promises, in insertion order as a JavaScript
    Map keeps it, and a log of every call of a resolve or reject function. */
module Promises {
  import opened Wire

  datatype Outcome = Resolved(value: Json) | Rejected(reason: string)

  datatype Settlement<Id> = Settlement(id: Id, outcome: Outcome)

  datatype Book<Id> = Book(pending: seq<Id>, settled: seq<Settlement<Id>>)

  function Ids<Id>(log: seq<Settlement<Id>>): seq<Id> {
    seq(|log|, i requires 0 <= i < |log| => log[i].id)
  }

  /** `map.delete(id)` */
  function Without<Id(==)>(s: seq<Id>, id: Id): seq<Id> {
    if s == [] then [] else if s[0] == id then s[1..] else [s[0]] + Without(s[1..], id)
  }

  function Await<Id>(b: Book<Id>, id: Id): Book<Id> { b.(pending := b.pending + [id]) }

  /** Settle the promise of `id`; an id that is not pending is ignored. */
  function Settle<Id(==)>(b: Book<Id>, id: Id, outcome: Outcome): Book<Id> {
    if id !in b.pending then b
    else Book(Without(b.pending, id), b.settled + [Settlement(id, outcome)])
  }

  function SettleAll<Id>(b: Book<Id>, outcome: Outcome): Book<Id> {
    Book([], b.settled + seq(|b.pending|, i requires 0 <= i < |b.pending| => Settlement(b.pending[i], outcome)))
  }

  /** Every promise handed out is pending or has been settled, exactly once in all. */
  ghost predicate Sound<Id>(b: Book<Id>, issued: set<Id>) {
    multiset(b.pending) + multiset(Ids(b.settled)) == multiset(issued)
  }

  lemma {:induction false} WithoutRemovesOne<Id>(s: seq<Id>, id: Id)
    requires id in s
    ensures multiset(Without(s, id)) == multiset(s) - multiset{id}
  {
    assert s == [s[0]] + s[1..];
    if s[0] != id { WithoutRemovesOne(s[1..], id); }
  }

  /** The other promises keep their order. */
  lemma {:induction false} WithoutKeepsOrder<Id>(before: seq<Id>, id: Id, after: seq<Id>)
    requires id !in before
    ensures Without(before + [id] + after, id) == before + after
  {
    var all := before + [id] + after;
    if before == [] {
      assert all[1..] == after;
    } else {
      assert all[1..] == before[1..] + [id] + after;
      WithoutKeepsOrder(before[1..], id, after);
      assert [before[0]] + (before[1..] + after) == before + after;
    }
  }

  lemma AwaitSound<Id>(b: Book<Id>, issued: set<Id>, id: Id)
    requires Sound(b, issued) && id !in issued
    ensures Sound(Await(b, id), issued + {id})
    ensures Await(b, id).pending == b.pending + [id] && Await(b, id).settled == b.settled
  {
    assert multiset(issued + {id}) == multiset(issued) + multiset{id};
  }

  lemma SettleSound<Id>(b: Book<Id>, issued: set<Id>, id: Id, outcome: Outcome)
    requires Sound(b, issued)
    ensures Sound(Settle(b, id, outcome), issued)
    ensures b.settled <= Settle(b, id, outcome).settled && id !in Settle(b, id, outcome).pending
    ensures id in b.pending ==> Settlement(id, outcome) in Settle(b, id, outcome).settled
    ensures forall x :: x != id ==> (x in b.pending <==> x in Settle(b, id, outcome).pending)
  {
    if id in b.pending {
      var c := Settle(b, id, outcome);
      WithoutRemovesOne(b.pending, id);
      assert Ids(c.settled) == Ids(b.settled) + [id];
      assert multiset(b.pending)[id] <= multiset(issued)[id] <= 1;
      forall x | x != id ensures x in b.pending <==> x in c.pending {
        assert multiset(c.pending)[x] == multiset(b.pending)[x];
      }
      assert multiset(c.pending)[id] == 0;
      assert c.settled[|b.settled|] == Settlement(id, outcome);
    }
  }

  lemma SettleAllRecords<Id>(b: Book<Id>, outcome: Outcome)
    ensures forall id :: id in b.pending ==> Settlement(id, outcome) in SettleAll(b, outcome).settled
  {
    var c := SettleAll(b, outcome);
    forall id | id in b.pending ensures Settlement(id, outcome) in c.settled {
      var i :| 0 <= i < |b.pending| && b.pending[i] == id;
      assert c.settled[|b.settled| + i] == Settlement(id, outcome);
    }
  }

  lemma SettleAllSound<Id>(b: Book<Id>, issued: set<Id>, outcome: Outcome)
    requires Sound(b, issued)
    ensures Sound(SettleAll(b, outcome), issued)
    ensures SettleAll(b, outcome).pending == [] && b.settled <= SettleAll(b, outcome).settled
    ensures forall id :: id in b.pending ==> Settlement(id, outcome) in SettleAll(b, outcome).settled
  {
    var c := SettleAll(b, outcome);
    assert Ids(c.settled) == Ids(b.settled) + b.pending;
    SettleAllRecords(b, outcome);
  }

  lemma TwiceCountsTwo<Id>(ids: seq<Id>, i: nat, j: nat)
    requires i < j < |ids|
    ensures ids[i] == ids[j] ==> multiset(ids)[ids[i]] >= 2
  {
    assert ids == ids[..i] + [ids[i]] + ids[i + 1..j] + [ids[j]] + ids[j + 1..];
  }

  /** Sound means: no promise is settled twice, and a settled one is no longer pending. */
  lemma SettledOnce<Id>(b: Book<Id>, issued: set<Id>)
    requires Sound(b, issued)
    ensures forall i, j :: 0 <= i < j < |b.settled| ==> b.settled[i].id != b.settled[j].id
    ensures forall i :: 0 <= i < |b.settled| ==> b.settled[i].id !in b.pending && b.settled[i].id in issued
    ensures forall id :: id in issued ==> id in b.pending || id in Ids(b.settled)
    ensures forall id :: id in b.pending ==> id in issued
  {
    var ids := Ids(b.settled);
    forall i, j | 0 <= i < j < |b.settled| ensures b.settled[i].id != b.settled[j].id {
      assert ids[i] == b.settled[i].id && ids[j] == b.settled[j].id;
      TwiceCountsTwo(ids, i, j);
      assert multiset(issued)[ids[i]] <= 1;
    }
    forall i | 0 <= i < |b.settled| ensures b.settled[i].id !in b.pending && b.settled[i].id in issued {
      assert ids[i] == b.settled[i].id;
      assert multiset(ids)[ids[i]] >= 1;
      assert multiset(issued)[ids[i]] <= 1;
      assert ids[i] in multiset(issued);
    }
    forall id | id in issued ensures id in b.pending || id in ids {
      assert id in multiset(issued);
      assert id in multiset(b.pending) || id in multiset(ids);
    }
    forall id | id in b.pending ensures id in issued {
      assert id in multiset(b.pending) && id in multiset(issued);
    }
  }
}
