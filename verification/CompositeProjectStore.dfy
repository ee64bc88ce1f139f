/** apps/server/src/services/composite-project-store.ts over composite-store.ts: every write goes to the
    primary and is repeated on the other replicas, which know the same projects under other ids. */
module CompositeProjects {
  import opened Basics
  import opened Projects

  /** How a fan-out fails, also one over no stores: no promise was fulfilled. */
  const ALL_FAILED := "All stores failed"

  class CompositeProjectStore {
    const stores: seq<ProjectStore>

    ghost predicate Valid()
      reads this, stores
    {
      && |stores| >= 1
      && (forall i, j :: 0 <= i < j < |stores| ==> stores[i] != stores[j])
      && (forall i :: 0 <= i < |stores| ==> stores[i].Valid())
    }

    /** All replicas hold the same paths with the same name, pin and colour. */
    ghost predicate InStep()
      reads this, stores
    {
      forall i :: 0 <= i < |stores| ==> View(stores[i].rows) == View(stores[0].rows)
    }

    constructor (stores: seq<ProjectStore>)
      requires |stores| >= 1
      requires forall i, j :: 0 <= i < j < |stores| ==> stores[i] != stores[j]
      requires forall i :: 0 <= i < |stores| ==> stores[i].Valid() && stores[i].rows == []
      ensures Valid() && InStep() && this.stores == stores
    {
      this.stores := stores;
    }

    /** `now` and `newIds` are the clock reading and the random id of each replica. */
    method Upsert(path: string, now: seq<int>, newIds: seq<string>) returns (r: Result<Project>)
      requires Valid() && InStep() && |now| == |newIds| == |stores|
      requires forall i, p :: 0 <= i < |stores| && p in stores[i].rows ==> p.id != newIds[i]
      modifies stores
      ensures Valid() && InStep()
      ensures View(stores[0].rows) == AfterUpsert(old(View(stores[0].rows)), path)
      ensures r.Ok? <==> |stores| >= 2
      ensures r.Ok? ==> r.value in stores[0].rows && r.value.path == path
    {
      var result := stores[0].Upsert(path, now[0], newIds[0]);
      UpsertReplicas(path, now, newIds, old(View(stores[0].rows)));
      return if |stores| == 1 then Err(ALL_FAILED) else Ok(result);
    }

    /** The fan-out of `upsert`. */
    method UpsertReplicas(path: string, now: seq<int>, newIds: seq<string>, ghost before: map<string, Attrs>)
      requires Valid() && View(stores[0].rows) == AfterUpsert(before, path) && |now| == |newIds| == |stores|
      requires forall i :: 1 <= i < |stores| ==> View(stores[i].rows) == before
      requires forall i, p :: 1 <= i < |stores| && p in stores[i].rows ==> p.id != newIds[i]
      modifies stores[1..]
      ensures Valid() && InStep() && stores[0].rows == old(stores[0].rows)
    {
      ghost var after := View(stores[0].rows);
      for i := 1 to |stores|
        invariant Valid() && stores[0].rows == old(stores[0].rows)
        invariant forall j :: 0 <= j < i ==> View(stores[j].rows) == after
        invariant forall j :: i <= j < |stores| ==> stores[j].rows == old(stores[j].rows)
      {
        UpsertOne(stores[i], path, now[i], newIds[i]);
      }
    }

    static method UpsertOne(store: ProjectStore, path: string, now: int, newId: string)
      requires store.Valid() && forall p :: p in store.rows ==> p.id != newId
      modifies store
      ensures store.Valid() && View(store.rows) == AfterUpsert(old(View(store.rows)), path)
    {
      var _ := store.Upsert(path, now, newId);
    }

    /** `id` is an id of the primary. */
    method Update(id: string, patch: Patch) returns (r: Result<Option<Project>>)
      requires Valid() && InStep()
      modifies stores
      ensures Valid() && InStep()
      ensures r.Ok? <==> |stores| >= 2 || forall p :: p in old(stores[0].rows) ==> p.id != id
      ensures r.Ok? && r.value.None? ==> forall i :: 0 <= i < |stores| ==> stores[i].rows == old(stores[i].rows)
      ensures r.Ok? ==> (r.value.Some? <==> exists p :: p in old(stores[0].rows) && p.id == id)
      ensures r.Ok? && r.value.Some? ==>
                && (forall p :: p in old(stores[0].rows) && p.id == id ==> Changed(p, r.value.value, patch))
                && r.value.value.path in old(View(stores[0].rows))
                && View(stores[0].rows) == old(View(stores[0].rows))[r.value.value.path :=
                     Projects.Apply(old(View(stores[0].rows))[r.value.value.path], patch)]
    {
      var result := stores[0].Update(id, patch);
      if result.None? { return Ok(None); }
      var path := result.value.path;
      UpdateReplicas(path, patch, old(View(stores[0].rows)));
      return if |stores| == 1 then Err(ALL_FAILED) else Ok(result);
    }

    /** The fan-out of `update`: each replica looks the path up and updates its own row. */
    method UpdateReplicas(path: string, patch: Patch, ghost before: map<string, Attrs>)
      requires Valid() && path in before && View(stores[0].rows) == before[path := Projects.Apply(before[path], patch)]
      requires forall i :: 1 <= i < |stores| ==> View(stores[i].rows) == before
      modifies stores[1..]
      ensures Valid() && InStep() && stores[0].rows == old(stores[0].rows)
    {
      ghost var after := View(stores[0].rows);
      for i := 1 to |stores|
        invariant Valid() && stores[0].rows == old(stores[0].rows)
        invariant forall j :: 0 <= j < i ==> View(stores[j].rows) == after
        invariant forall j :: i <= j < |stores| ==> View(stores[j].rows) == before
      {
        UpdateByPath(stores[i], path, patch);
      }
    }

    static method UpdateByPath(store: ProjectStore, path: string, patch: Patch)
      requires store.Valid() && path in View(store.rows)
      modifies store
      ensures store.Valid()
      ensures View(store.rows) == var v := old(View(store.rows)); v[path := Projects.Apply(v[path], patch)]
    {
      var secRow := store.GetByPath(path);
      if secRow.Some? {
        var _ := store.Update(secRow.value.id, patch);
      }
    }

    method Remove(id: string) returns (r: Result<()>)
      requires Valid() && InStep()
      modifies stores
      ensures Valid() && InStep()
      ensures r.Ok? <==> |stores| >= 2 || forall p :: p in old(stores[0].rows) ==> p.id != id
      ensures forall p :: p in old(stores[0].rows) && p.id == id ==>
                View(stores[0].rows) == old(View(stores[0].rows)) - {p.path}
      ensures (forall p :: p in old(stores[0].rows) ==> p.id != id) ==>
                forall i :: 0 <= i < |stores| ==> stores[i].rows == old(stores[i].rows)
    {
      var target := stores[0].GetById(id);
      ghost var before := View(stores[0].rows);
      stores[0].Remove(id);
      if target.None? { return Ok(()); }
      PathOfRow(old(stores[0].rows), target.value);
      RemoveFromReplicas(target.value.path, before);
      return if |stores| == 1 then Err(ALL_FAILED) else Ok(());
    }

    /** The fan-out of `remove`: each replica looks the path up and removes its own row. */
    method RemoveFromReplicas(path: string, ghost before: map<string, Attrs>)
      requires Valid() && View(stores[0].rows) == before - {path}
      requires forall i :: 1 <= i < |stores| ==> View(stores[i].rows) == before
      modifies stores[1..]
      ensures Valid() && InStep() && stores[0].rows == old(stores[0].rows)
    {
      ghost var after := View(stores[0].rows);
      for i := 1 to |stores|
        invariant Valid() && stores[0].rows == old(stores[0].rows)
        invariant forall j :: 0 <= j < i ==> View(stores[j].rows) == after
        invariant forall j :: i <= j < |stores| ==> View(stores[j].rows) == before
      {
        RemoveByPath(stores[i], path);
      }
    }

    static method RemoveByPath(store: ProjectStore, path: string)
      requires store.Valid()
      modifies store
      ensures store.Valid() && View(store.rows) == old(View(store.rows)) - {path}
    {
      var secRow := store.GetByPath(path);
      if secRow.Some? { store.Remove(secRow.value.id); }
    }
  }

  lemma PathOfRow(rows: seq<Project>, p: Project)
    requires UniqueKeys(rows) && p in rows
    ensures p.path in View(rows)
  {
    ViewHas(rows);
  }
}
