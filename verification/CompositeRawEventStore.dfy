/** apps/server/src/services/composite-raw-event-repository.ts over composite-store.ts: one id is chosen
    for all replicas, so they stay row-for-row identical. */
module CompositeRawEvents {
  import opened Basics
  import opened SessionEvents
  import opened RawEvents

  /** When a replica can make a clone, and what it then holds. */
  predicate Fits(rows: seq<Row>, from: string, to: string, ids: seq<string>)
    requires |ids| >= |Read(rows, from)|
  {
    from != to && MayInsert(rows, Clones(Read(rows, from), to, ids))
  }

  function AfterClone(rows: seq<Row>, from: string, to: string, ids: seq<string>): seq<Row>
    requires |ids| >= |Read(rows, from)|
  {
    if Fits(rows, from, to, ids) then rows + Clones(Read(rows, from), to, ids) else rows
  }

  class CompositeRawEventStore {
    const stores: seq<RawEventStore>

    /** Replicas are distinct objects with the same rows in the same order, primary keys included. */
    ghost predicate Valid()
      reads this, stores
    {
      && |stores| >= 1
      && (forall i, j :: 0 <= i < j < |stores| ==> stores[i] != stores[j])
      && (forall i :: 0 <= i < |stores| ==> stores[i].Valid() && stores[i].rows == stores[0].rows)
    }

    /** What any replica holds. */
    ghost function Rows(): seq<Row>
      requires |stores| >= 1
      reads this, stores
    {
      stores[0].rows
    }

    constructor (stores: seq<RawEventStore>)
      requires |stores| >= 1
      requires forall i, j :: 0 <= i < j < |stores| ==> stores[i] != stores[j]
      requires forall i :: 0 <= i < |stores| ==> stores[i].Valid() && stores[i].rows == []
      ensures Valid() && Rows() == [] && this.stores == stores
    {
      this.stores := stores;
    }

    /** `rowId` is the caller's id or the one drawn here, once, for all replicas. */
    method Append(event: RawEvent, rowId: string) returns (r: Result<string>)
      requires Valid()
      modifies stores
      ensures Valid() && (r.Ok? <==> forall x :: x in old(Rows()) ==> x.id != rowId)
      ensures r.Ok? ==> r.value == rowId && Rows() == old(Rows()) + [RowOf(event, rowId)]
      ensures r.Ok? ==> ReadsWith(old(Rows()), Rows(), event)
      ensures r.Err? ==> Rows() == old(Rows())
    {
      ghost var before, row := Rows(), RowOf(event, rowId);
      ghost var fits := forall x :: x in before ==> x.id != rowId;
      AppendReadsBack(before, event, rowId);
      var fulfilled := 0;
      for i := 0 to |stores|
        invariant forall j :: 0 <= j < |stores| ==> stores[j].Valid()
        invariant forall j :: i <= j < |stores| ==> stores[j].rows == before
        invariant forall j :: 0 <= j < i ==> stores[j].rows == if fits then before + [row] else before
        invariant fulfilled == if fits then i else 0
      {
        var one := stores[i].Append(event, rowId);
        if one.Ok? { fulfilled := fulfilled + 1; }
      }
      return if fulfilled == 0 then Err("All stores failed") else Ok(rowId);
    }

    /** `ids` are the ids drawn here, one for each row the primary reads, which includes the session's
        rows in the table of deltas. */
    method CloneEvents(from: string, to: string, deltas: nat, ids: seq<string>) returns (r: Result<()>)
      requires Valid() && |ids| == |Read(Rows(), from)| + deltas
      modifies stores
      ensures Valid()
      ensures r.Ok? <==> (Read(old(Rows()), from) == [] && deltas == 0)
                         || (from != to && MayInsert(old(Rows()), Clones(Read(old(Rows()), from), to, ids)))
      ensures Rows() == if r.Ok? then old(Rows()) + Clones(Read(old(Rows()), from), to, ids) else old(Rows())
    {
      var rows := stores[0].GetEventsBySession(from);
      if |rows| + deltas == 0 {
        assert Rows() + [] == Rows();
        return Ok(());
      }
      var fulfilled := CloneEach(from, to, ids, Rows(), AfterClone(Rows(), from, to, ids));
      return if fulfilled == 0 then Err("All stores failed") else Ok(());
    }

    /** The fan-out of `cloneEvents`, and how many replicas succeed. */
    method CloneEach(from: string, to: string, ids: seq<string>, ghost before: seq<Row>, ghost after: seq<Row>)
      returns (fulfilled: nat)
      requires Valid() && Rows() == before
      requires |ids| >= |Read(before, from)| && after == AfterClone(before, from, to, ids)
      modifies stores
      ensures Valid() && Rows() == after && fulfilled == if Fits(before, from, to, ids) then |stores| else 0
    {
      fulfilled := 0;
      for i := 0 to |stores|
        invariant forall j :: 0 <= j < |stores| ==> stores[j].Valid()
        invariant forall j :: i <= j < |stores| ==> stores[j].rows == before
        invariant forall j :: 0 <= j < i ==> stores[j].rows == after
        invariant fulfilled == if Fits(before, from, to, ids) then i else 0
      {
        var ok := CloneOne(stores[i], from, to, ids);
        if ok { fulfilled := fulfilled + 1; }
      }
    }

    static method CloneOne(store: RawEventStore, from: string, to: string, ids: seq<string>) returns (ok: bool)
      requires store.Valid() && |ids| >= |Read(store.rows, from)|
      modifies store
      ensures store.Valid() && store.rows == AfterClone(old(store.rows), from, to, ids)
      ensures ok <==> Fits(old(store.rows), from, to, ids)
    {
      var r := store.CloneEvents(from, to, ids);
      return r.Ok?;
    }

    method DeleteBySession(sessionId: string)
      requires Valid()
      modifies stores
      ensures Valid()
      ensures forall s :: InSession(Rows(), s) == if s == sessionId then [] else InSession(old(Rows()), s)
    {
      for i := 0 to |stores|
        invariant forall j :: 0 <= j < |stores| ==> stores[j].Valid()
        invariant forall j :: i <= j < |stores| ==> stores[j].rows == old(Rows())
        invariant forall j :: 0 <= j < i ==> stores[j].rows == Without(old(Rows()), sessionId)
      {
        stores[i].DeleteBySession(sessionId);
      }
      WithoutReads(old(Rows()), sessionId);
    }
  }

  /** A fork made through the composite: every replica then reads the new session like the
      source, and the source as before. */
  method Fork(c: CompositeRawEventStore, from: string, to: string, deltas: nat, ids: seq<string>)
    returns (r: Result<()>)
    requires c.Valid() && from != to && InSession(c.Rows(), to) == []
    requires |ids| == |Read(c.Rows(), from)| + deltas && KeepOrder(Read(c.Rows(), from), ids)
    modifies c.stores
    ensures c.Valid()
    ensures r.Ok? ==> forall i :: 0 <= i < |c.stores| ==>
              && ToRawEvents(Read(c.stores[i].rows, to))
                 == ToRawEvents(Clones(Read(old(c.Rows()), from), to, ids))
              && Read(c.stores[i].rows, from) == Read(old(c.Rows()), from)
  {
    r := c.CloneEvents(from, to, deltas, ids);
    if r.Ok? {
      CloneReadsLikeSource(old(c.Rows()), from, to, ids);
      CloneTouchesNoOtherSession(old(c.Rows()), from, to, ids, from);
    }
  }
}
