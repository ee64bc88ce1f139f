/** apps/server/src/services/project-store.ts: one replica of the projects table. */
module Projects {
  import opened Basics

  /** Times are the instants their ISO texts denote. */
  datatype Project = Project(id: string, path: string, name: string, pinned: bool, color: Option<string>,
                             lastOpenedAt: int, createdAt: int)

  /** A field that is `None` is absent from the patch; a colour may be patched to null. */
  datatype Patch = Patch(name: Option<string>, pinned: Option<bool>, color: Option<Option<string>>)

  /** What the replicas have in common about a path. */
  datatype Attrs = Attrs(name: string, pinned: bool, color: Option<string>)

  function AttrsOf(p: Project): Attrs { Attrs(p.name, p.pinned, p.color) }

  function Apply(a: Attrs, patch: Patch): Attrs {
    Attrs(if patch.name.Some? then patch.name.value else a.name,
          if patch.pinned.Some? then patch.pinned.value else a.pinned,
          if patch.color.Some? then patch.color.value else a.color)
  }

  // ---- path.basename ----

  function StripSlashes(path: string): string {
    if path != "" && path[|path| - 1] == '/' then StripSlashes(path[..|path| - 1]) else path
  }

  function AfterSlash(path: string): string {
    if path == "" || path[|path| - 1] == '/' then ""
    else AfterSlash(path[..|path| - 1]) + [path[|path| - 1]]
  }

  function Basename(path: string): string { AfterSlash(StripSlashes(path)) }

  function DefaultName(path: string): string { if Basename(path) == "" then path else Basename(path) }

  lemma {:induction false} AfterSlashIsSuffix(path: string) returns (i: nat)
    ensures i <= |path| && AfterSlash(path) == path[i..] && '/' !in AfterSlash(path) && (i == 0 || path[i - 1] == '/')
    decreases |path|
  {
    var n := |path| - 1;
    if path == "" || path[n] == '/' {
      i := |path|;
    } else {
      i := AfterSlashIsSuffix(path[..n]);
      assert path[i..] == path[..n][i..] + [path[n]];
    }
  }

  lemma {:induction false} StripIsPrefix(path: string) returns (j: nat)
    ensures j <= |path| && StripSlashes(path) == path[..j] && forall k :: j <= k < |path| ==> path[k] == '/'
    ensures j == 0 || path[j - 1] != '/'
    decreases |path|
  {
    var n := |path| - 1;
    if path != "" && path[n] == '/' {
      j := StripIsPrefix(path[..n]);
      assert path[..n][..j] == path[..j];
      assert forall k :: j <= k < n ==> path[..n][k] == path[k];
    } else {
      j := |path|;
      assert path[..j] == path;
    }
  }

  /** A base name is what lies between the trailing slashes and the slash before them. */
  lemma BasenameIsLastSegment(path: string)
    ensures '/' !in Basename(path)
    ensures exists i, j :: 0 <= i <= j <= |path| && Basename(path) == path[i..j]
              && (forall k :: j <= k < |path| ==> path[k] == '/') && (j == 0 || path[j - 1] != '/')
              && (i == 0 || path[i - 1] == '/')
  {
    var j := StripIsPrefix(path);
    var i := AfterSlashIsSuffix(path[..j]);
    assert path[..j][i..] == path[i..j];
  }

  predicate Segment(path: string, i: nat, j: nat) {
    && i < j <= |path|
    && '/' !in path[i..j] && (i == 0 || path[i - 1] == '/') && forall k :: j <= k < |path| ==> path[k] == '/'
  }

  /** A project is named after the last segment of its path, or, if there is none, after the path. */
  lemma DefaultNameIs(path: string)
    ensures if exists k :: 0 <= k < |path| && path[k] != '/'
            then exists i: nat, j: nat :: Segment(path, i, j) && DefaultName(path) == path[i..j]
            else DefaultName(path) == path
  {
    var j := StripIsPrefix(path);
    var i := AfterSlashIsSuffix(path[..j]);
    assert path[..j][i..] == path[i..j];
    if j > 0 {
      assert i < j by { assert path[..j][j - 1] != '/'; }
      assert Segment(path, i, j);
    }
  }

  // ---- The table ----

  predicate UniqueKeys(rows: seq<Project>) {
    forall i, j :: 0 <= i < j < |rows| ==> rows[i].id != rows[j].id && rows[i].path != rows[j].path
  }

  function View(rows: seq<Project>): map<string, Attrs> {
    if rows == [] then map[]
    else View(rows[..|rows| - 1])[rows[|rows| - 1].path := AttrsOf(rows[|rows| - 1])]
  }

  lemma {:induction false} ViewHas(rows: seq<Project>)
    requires UniqueKeys(rows)
    ensures forall i :: 0 <= i < |rows| ==> rows[i].path in View(rows) && View(rows)[rows[i].path] == AttrsOf(rows[i])
    ensures forall p :: p in View(rows) ==> exists i :: 0 <= i < |rows| && rows[i].path == p
    decreases |rows|
  {
    if rows != [] {
      var n := |rows| - 1;
      ViewHas(rows[..n]);
      forall i | 0 <= i < |rows| ensures rows[i].path in View(rows) && View(rows)[rows[i].path] == AttrsOf(rows[i]) {
        if i < n { assert rows[..n][i] == rows[i]; }
      }
      forall p | p in View(rows) ensures exists i :: 0 <= i < |rows| && rows[i].path == p {
        if p != rows[n].path {
          var i :| 0 <= i < n && rows[..n][i].path == p;
          assert rows[i].path == p;
        }
      }
    }
  }

  lemma RowOfId(rows: seq<Project>, e: Project)
    requires UniqueKeys(rows) && e in rows
    ensures forall p :: p in rows && (p.id == e.id || p.path == e.path) ==> p == e
  {}

  /** `UPDATE ... WHERE id = ...` and `DELETE ... WHERE id = ...` */
  function SetWhere(rows: seq<Project>, id: string, with: Project): seq<Project> {
    seq(|rows|, i requires 0 <= i < |rows| => if rows[i].id == id then with else rows[i])
  }

  function DeleteWhere(rows: seq<Project>, id: string): seq<Project> {
    if rows == [] then []
    else DeleteWhere(rows[..|rows| - 1], id) + (if rows[|rows| - 1].id == id then [] else [rows[|rows| - 1]])
  }

  lemma {:induction false} DeleteHas(rows: seq<Project>, id: string)
    requires UniqueKeys(rows)
    ensures forall r :: r in DeleteWhere(rows, id) <==> r in rows && r.id != id
    ensures UniqueKeys(DeleteWhere(rows, id))
    decreases |rows|
  {
    if rows != [] {
      var n := |rows| - 1;
      DeleteHas(rows[..n], id);
      assert rows == rows[..n] + [rows[n]];
      assert forall r :: r in rows[..n] ==> r.id != rows[n].id && r.path != rows[n].path;
    }
  }

  lemma SameRowsSameView(rows: seq<Project>, v: map<string, Attrs>)
    requires UniqueKeys(rows)
    requires forall i :: 0 <= i < |rows| ==> rows[i].path in v && v[rows[i].path] == AttrsOf(rows[i])
    requires forall p :: p in v ==> exists i :: 0 <= i < |rows| && rows[i].path == p
    ensures View(rows) == v
  {
    ViewHas(rows);
    forall p ensures p in View(rows) <==> p in v {}
  }

  lemma ViewAppend(rows: seq<Project>, r: Project)
    ensures View(rows + [r]) == View(rows)[r.path := AttrsOf(r)]
  {
    assert (rows + [r])[..|rows|] == rows;
  }

  lemma DeleteAppend(rows: seq<Project>, last: Project, id: string)
    ensures DeleteWhere(rows + [last], id) == DeleteWhere(rows, id) + (if last.id == id then [] else [last])
  {
    assert (rows + [last])[..|rows|] == rows;
  }

  lemma AddRemove(m: map<string, Attrs>, p: string, a: Attrs, q: string)
    ensures p != q ==> (m - {q})[p := a] == m[p := a] - {q}
    ensures p == q && p !in m ==> m[p := a] - {q} == m
  {}

  lemma KeepLast(rows: seq<Project>, last: Project, id: string, path: string)
    requires last.id != id && last.path != path && View(DeleteWhere(rows, id)) == View(rows) - {path}
    ensures View(DeleteWhere(rows + [last], id)) == View(rows + [last]) - {path}
  {
    DeleteAppend(rows, last, id);
    ViewAppend(DeleteWhere(rows, id), last);
    ViewAppend(rows, last);
    AddRemove(View(rows), last.path, AttrsOf(last), path);
  }

  lemma DropLast(rows: seq<Project>, last: Project)
    requires last.path !in View(rows) && DeleteWhere(rows, last.id) == rows
    ensures View(DeleteWhere(rows + [last], last.id)) == View(rows + [last]) - {last.path}
  {
    DeleteAppend(rows, last, last.id);
    assert DeleteWhere(rows + [last], last.id) == rows;
    ViewAppend(rows, last);
    AddRemove(View(rows), last.path, AttrsOf(last), last.path);
  }

  lemma {:induction false} DeleteView(rows: seq<Project>, k: nat)
    requires UniqueKeys(rows) && k < |rows|
    ensures View(DeleteWhere(rows, rows[k].id)) == View(rows) - {rows[k].path}
    decreases |rows|
  {
    var n := |rows| - 1;
    assert rows == rows[..n] + [rows[n]];
    if k == n {
      ViewHas(rows[..n]);
      NothingToDelete(rows[..n], rows[n].id);
      DropLast(rows[..n], rows[n]);
    } else {
      DeleteView(rows[..n], k);
      KeepLast(rows[..n], rows[n], rows[k].id, rows[k].path);
    }
  }

  lemma {:induction false} NothingToDelete(rows: seq<Project>, id: string)
    requires forall i :: 0 <= i < |rows| ==> rows[i].id != id
    ensures DeleteWhere(rows, id) == rows
    decreases |rows|
  {
    if rows != [] {
      NothingToDelete(rows[..|rows| - 1], id);
      assert rows == rows[..|rows| - 1] + [rows[|rows| - 1]];
    }
  }

  lemma InsertView(rows: seq<Project>, r: Project)
    requires UniqueKeys(rows) && r.path !in View(rows) && forall p :: p in rows ==> p.id != r.id
    ensures UniqueKeys(rows + [r]) && View(rows + [r]) == View(rows)[r.path := AttrsOf(r)]
  {
    ViewHas(rows);
    assert (rows + [r])[..|rows|] == rows;
    assert forall i :: 0 <= i < |rows| ==> rows[i] in rows;
  }

  lemma SetView(rows: seq<Project>, k: nat, with: Project)
    requires UniqueKeys(rows) && k < |rows| && with.id == rows[k].id && with.path == rows[k].path
    ensures UniqueKeys(SetWhere(rows, with.id, with))
    ensures View(SetWhere(rows, with.id, with)) == View(rows)[with.path := AttrsOf(with)]
  {
    ViewHas(rows);
    var after := SetWhere(rows, with.id, with);
    assert after == rows[k := with];
    assert forall i :: 0 <= i < |rows| ==> after[i].path == rows[i].path && after[i].id == rows[i].id;
    SameRowsSameView(after, View(rows)[with.path := AttrsOf(with)]);
  }

  /** Tables with the same view hold the same projects, as far as replicas agree on them. */
  lemma SameViewSameProjects(a: seq<Project>, b: seq<Project>)
    requires UniqueKeys(a) && UniqueKeys(b) && View(a) == View(b)
    ensures forall p :: p in a ==>
              exists q :: q in b && q.path == p.path && q.name == p.name && q.pinned == p.pinned && q.color == p.color
  {
    ViewHas(a);
    ViewHas(b);
    forall p | p in a
      ensures exists q :: q in b && q.path == p.path && q.name == p.name && q.pinned == p.pinned && q.color == p.color
    {
      var i :| 0 <= i < |a| && a[i] == p;
      assert a[i].path in View(b);
      var j :| 0 <= j < |b| && b[j].path == p.path;
      assert b[j] in b && AttrsOf(b[j]) == AttrsOf(p);
    }
  }

  /** Each field the patch names has its value, null included; the others are as before. */
  predicate Changed(before: Project, after: Project, patch: Patch) {
    && after.id == before.id && after.path == before.path
    && after.lastOpenedAt == before.lastOpenedAt && after.createdAt == before.createdAt
    && (if patch.name == None then after.name == before.name else patch.name == Some(after.name))
    && (if patch.pinned == None then after.pinned == before.pinned else patch.pinned == Some(after.pinned))
    && (if patch.color == None then after.color == before.color else patch.color == Some(after.color))
  }

  /** A new path gets the default attributes; a known one keeps its own. */
  function AfterUpsert(v: map<string, Attrs>, path: string): map<string, Attrs> {
    if path in v then v else v[path := Attrs(DefaultName(path), false, None)]
  }

  function Patched(p: Project, patch: Patch): Project {
    var a := Apply(AttrsOf(p), patch);
    p.(name := a.name, pinned := a.pinned, color := a.color)
  }

  lemma PatchedIsChanged(p: Project, patch: Patch)
    ensures Changed(p, Patched(p, patch), patch)
    ensures patch == Patch(None, None, None) ==> Patched(p, patch) == p
  {}

  /** What an update of the row `e` comes to. */
  lemma UpdateEffect(rows: seq<Project>, e: Project, patch: Patch)
    requires UniqueKeys(rows) && e in rows
    ensures forall p :: p in rows && p.id == e.id ==> Changed(p, Patched(e, patch), patch)
    ensures e.path in View(rows) && AttrsOf(Patched(e, patch)) == Apply(View(rows)[e.path], patch)
    ensures patch == Patch(None, None, None) ==>
              && Patched(e, patch) == e && OnlyRow(rows, rows, e)
              && View(rows)[e.path := Apply(View(rows)[e.path], patch)] == View(rows)
  {
    RowOfId(rows, e);
    PatchedIsChanged(e, patch);
    ViewHas(rows);
    var k :| 0 <= k < |rows| && rows[k] == e;
    assert forall i :: 0 <= i < |rows| ==> rows[i] in rows;
  }

  /** The row with the id of `r` has become `r`; every other row is as before. */
  predicate OnlyRow(before: seq<Project>, after: seq<Project>, r: Project) {
    |after| == |before| && forall i :: 0 <= i < |after| ==> after[i] == if before[i].id == r.id then r else before[i]
  }

  /** A new row at the end, or the time of the row with the path moved to `now`. */
  predicate Upserted(before: seq<Project>, after: seq<Project>, r: Project, path: string, now: int, newId: string) {
    if path in View(before) then OnlyRow(before, after, r) && exists e :: e in before && r == e.(lastOpenedAt := now)
    else r == Project(newId, path, DefaultName(path), false, None, now, now) && after == before + [r]
  }

  class ProjectStore {
    var rows: seq<Project>

    ghost predicate Valid()
      reads this
    {
      UniqueKeys(rows)
    }

    constructor ()
      ensures Valid() && rows == []
    {
      rows := [];
    }

    method GetById(id: string) returns (r: Option<Project>)
      ensures r.Some? ==> r.value in rows && r.value.id == id
      ensures r.None? ==> forall p :: p in rows ==> p.id != id
    {
      for i := 0 to |rows|
        invariant forall k :: 0 <= k < i ==> rows[k].id != id
      {
        if rows[i].id == id { return Some(rows[i]); }
      }
      return None;
    }

    method GetByPath(path: string) returns (r: Option<Project>)
      requires Valid()
      ensures r.Some? <==> path in View(rows)
      ensures r.Some? ==> r.value in rows && r.value.path == path && AttrsOf(r.value) == View(rows)[path]
    {
      ViewHas(rows);
      for i := 0 to |rows|
        invariant forall k :: 0 <= k < i ==> rows[k].path != path
      {
        if rows[i].path == path { return Some(rows[i]); }
      }
      return None;
    }

    /** Of a known project only the time moves. */
    method Upsert(path: string, now: int, newId: string) returns (r: Project)
      requires Valid() && forall p :: p in rows ==> p.id != newId
      modifies this
      ensures Valid() && r in rows && r.path == path && r.lastOpenedAt == now
      ensures View(rows) == AfterUpsert(old(View(rows)), path)
      ensures Upserted(old(rows), rows, r, path, now, newId)
    {
      var existing := GetByPath(path);
      if existing.Some? {
        r := existing.value.(lastOpenedAt := now);
        Write(r);
      } else {
        r := Project(newId, path, DefaultName(path), false, None, now, now);
        InsertView(rows, r);
        rows := rows + [r];
      }
    }

    /** The row with this record's id, which has its path, becomes the record. */
    method Write(r: Project)
      requires Valid() && exists p :: p in rows && p.id == r.id && p.path == r.path
      modifies this
      ensures Valid() && r in rows && View(rows) == old(View(rows))[r.path := AttrsOf(r)]
      ensures OnlyRow(old(rows), rows, r)
    {
      ghost var p :| p in rows && p.id == r.id && p.path == r.path;
      ghost var k :| 0 <= k < |rows| && rows[k] == p;
      SetView(rows, k, r);
      rows := SetWhere(rows, r.id, r);
      assert rows[k] == r;
    }

    /** Only the fields the patch names change; an unknown id changes nothing. */
    method Update(id: string, patch: Patch) returns (r: Option<Project>)
      requires Valid()
      modifies this
      ensures Valid() && (r.Some? <==> exists p :: p in old(rows) && p.id == id)
      ensures r.None? ==> rows == old(rows)
      ensures r.Some? ==>
                && r.value in rows && r.value.id == id && r.value.path in old(View(rows))
                && View(rows) == old(View(rows))[r.value.path := Apply(old(View(rows))[r.value.path], patch)]
      ensures forall p :: p in old(rows) && p.id == id ==> r.Some? && Changed(p, r.value, patch)
      ensures r.Some? ==> OnlyRow(old(rows), rows, r.value)
    {
      var existing := GetById(id);
      if existing.None? { return None; }
      var e := existing.value;
      UpdateEffect(rows, e, patch);
      if patch == Patch(None, None, None) { return existing; }
      var changed := Patched(e, patch);
      Write(changed);
      return Some(changed);
    }

    /** An unknown id is no error. */
    method Remove(id: string)
      requires Valid()
      modifies this
      ensures Valid()
      ensures forall p :: p in rows <==> p in old(rows) && p.id != id
      ensures forall p :: p in old(rows) && p.id == id ==> View(rows) == old(View(rows)) - {p.path}
      ensures (forall p :: p in old(rows) ==> p.id != id) ==> rows == old(rows)
    {
      DeleteHas(rows, id);
      forall k | 0 <= k < |rows| && rows[k].id == id
        ensures View(DeleteWhere(rows, id)) == View(rows) - {rows[k].path}
      {
        DeleteView(rows, k);
      }
      if forall p :: p in rows ==> p.id != id {
        assert forall i :: 0 <= i < |rows| ==> rows[i] in rows;
        NothingToDelete(rows, id);
      }
      rows := DeleteWhere(rows, id);
    }
  }
}
