/** Creating, moving and deleting suite folders, which keeps them a forest of two levels. */
module FolderForest {
  import opened Common
  import opened FolderClosure

  type CaseId = string

  datatype Case = Case(folderId: Option<Id>, deleted: bool)

  datatype Error = NotFound | ParentNotFound | ParentIsSubfolder | OwnParent | HasChildren

  datatype Outcome = Ok | Failed(error: Error)

  /** Every parent exists and is itself at the top; ids are the keys of the table and never empty. */
  ghost predicate Forest(m: map<Id, Folder>) {
    && "" !in m
    && (forall id :: id in m ==> m[id].id == id)
    && (forall id :: id in m && m[id].parentId.Some? ==>
          m[id].parentId.value in m && m[m[id].parentId.value].parentId.None?)
  }

  /** Every case lies in a folder that exists, or in none. */
  ghost predicate Placed(m: map<Id, Folder>, cases: map<CaseId, Case>) {
    forall c :: c in cases && cases[c].folderId.Some? ==> cases[c].folderId.value in m
  }

  function ChildrenOf(m: map<Id, Folder>, id: Id): set<Id> {
    set c | c in m && m[c].parentId == Some(id)
  }

  /** The rows the delete query selects: the folder and its direct children. */
  function Removed(m: map<Id, Folder>, id: Id): set<Id> {
    (set x | x in m && x == id) + ChildrenOf(m, id)
  }

  /** A listing of the table, in any order. */
  ghost predicate Lists(folders: seq<Folder>, m: map<Id, Folder>) {
    forall f :: f in folders <==> f.id in m && m[f.id] == f
  }

  lemma ForestEdge(folders: seq<Folder>, m: map<Id, Folder>, parent: Id, child: Id)
    requires Forest(m) && Lists(folders, m) && parent != ""
    ensures Edge(folders, parent, child) <==> child in m && m[child].parentId == Some(parent)
  {
    if child in m && m[child].parentId == Some(parent) {
      assert m[child] in folders;
    }
    if Edge(folders, parent, child) {
      var f :| f in folders && ParentKey(f) == parent && f.id == child;
    }
  }

  /** In a forest the rows a delete selects are exactly the folder and everything below it. */
  lemma DeleteRemovesDescendants(folders: seq<Folder>, m: map<Id, Folder>, id: Id)
    requires Forest(m) && Lists(folders, m) && id in m
    ensures forall x :: x in Removed(m, id) <==> Reachable(folders, [id], x)
  {
    forall x
      ensures x in Removed(m, id) <==> Reachable(folders, [id], x)
    {
      if x in Removed(m, id) {
        RootReachable(folders, [id], id);
        if x != id {
          ForestEdge(folders, m, id, x);
          ReachableStep(folders, [id], id, x);
        }
      }
      if Reachable(folders, [id], x) {
        var path :| IsPath(folders, [id], path) && path[|path| - 1] == x;
        ShortPath(folders, m, id, path);
      }
    }
  }

  lemma ShortPath(folders: seq<Folder>, m: map<Id, Folder>, id: Id, path: seq<Id>)
    requires Forest(m) && Lists(folders, m) && id in m && IsPath(folders, [id], path)
    ensures path[|path| - 1] in Removed(m, id)
  {
    assert path[0] == id;
    if |path| > 1 {
      assert Edge(folders, path[0], path[1]);
      ForestEdge(folders, m, path[0], path[1]);
    }
    if |path| > 2 {
      assert Edge(folders, path[1], path[2]);
      ForestEdge(folders, m, path[1], path[2]);
      assert false;
    }
  }

  lemma ForestWithout(m: map<Id, Folder>, id: Id)
    requires Forest(m) && id in m
    ensures Forest(m - Removed(m, id))
  {
    var rest := m - Removed(m, id);
    forall x | x in rest && rest[x].parentId.Some?
      ensures rest[x].parentId.value in rest
    {
      assert x !in ChildrenOf(m, id);
      assert m[x].parentId.value !in Removed(m, id);
    }
  }

  class FolderTable {
    var folders: map<Id, Folder>
    var cases: map<CaseId, Case>

    constructor ()
      ensures Valid() && folders == map[] && cases == map[]
    {
      folders, cases := map[], map[];
    }

    ghost predicate Valid()
      reads this
    {
      Forest(folders) && Placed(folders, cases)
    }

    /** `createTcmsFolder`; `id` is the database's new id. */
    method Create(id: Id, name: string, parentId: Option<Id>) returns (r: Outcome)
      requires Valid() && id != "" && id !in folders && parentId != Some("")
      modifies this`folders
      ensures Valid()
      ensures r == if parentId.None? then Ok
                   else if parentId.value !in old(folders) then Failed(ParentNotFound)
                   else if old(folders)[parentId.value].parentId.Some? then Failed(ParentIsSubfolder)
                   else Ok
      ensures r != Ok ==> folders == old(folders)
      ensures r == Ok ==> folders == old(folders)[id := Folder(id, parentId, name,
                            if parentId.Some? then old(folders)[parentId.value].featureKey else None, None)]
    {
      var featureKey := None;
      if parentId.Some? {
        if parentId.value !in folders { return Failed(ParentNotFound); }
        var parent := folders[parentId.value];
        if parent.parentId.Some? { return Failed(ParentIsSubfolder); }
        featureKey := parent.featureKey;
      }
      folders := folders[id := Folder(id, parentId, name, featureKey, None)];
      r := Ok;
    }

    /** `updateTcmsFolder`; `move` is the new parent when one is given, `Some(None)` for the top. */
    method Update(id: Id, name: Option<string>, move: Option<Option<Id>>) returns (r: Outcome)
      requires Valid() && move != Some(Some(""))
      modifies this`folders
      ensures Valid()
      ensures r == if id !in old(folders) then Failed(NotFound)
                   else if move.None? || move.value.None? then Ok
                   else if move.value == Some(id) then Failed(OwnParent)
                   else if move.value.value !in old(folders) then Failed(ParentNotFound)
                   else if old(folders)[move.value.value].parentId.Some? then Failed(ParentIsSubfolder)
                   else if ChildrenOf(old(folders), id) != {} then Failed(HasChildren)
                   else Ok
      ensures r != Ok ==> folders == old(folders)
      ensures r == Ok ==> var f := old(folders)[id];
                          folders == old(folders)[id := f.(name := name.GetOr(f.name),
                                                           parentId := move.GetOr(f.parentId))]
    {
      if id !in folders { return Failed(NotFound); }
      var folder := folders[id];
      var parentId := folder.parentId;
      if move.Some? {
        parentId := move.value;
        if parentId == Some(id) { return Failed(OwnParent); }
        if parentId.Some? {
          if parentId.value !in folders { return Failed(ParentNotFound); }
          if folders[parentId.value].parentId.Some? { return Failed(ParentIsSubfolder); }
          if ChildrenOf(folders, id) != {} { return Failed(HasChildren); }
        }
      }
      assert forall c :: c in folders && folders[c].parentId == Some(id) ==> c in ChildrenOf(folders, id);
      folders := folders[id := folder.(name := name.GetOr(folder.name), parentId := parentId)];
      r := Ok;
    }

    /**
     `deleteTcmsFolder`. The cases of the removed folders are deleted, or move up to the removed
     folder's own parent; the database clears the folder of a case whose folder row goes away.
     */
    method Delete(id: Id, deleteCases: bool) returns (r: Outcome)
      requires Valid()
      modifies this
      ensures Valid()
      ensures r == if id in old(folders) then Ok else Failed(NotFound)
      ensures r != Ok ==> folders == old(folders) && cases == old(cases)
      ensures r == Ok ==> folders == old(folders) - Removed(old(folders), id)
      ensures r == Ok ==> cases.Keys == old(cases).Keys
      ensures r == Ok ==>
                forall c :: c in cases ==>
                  var was := old(cases)[c];
                  if was.folderId.None? || was.folderId.value !in Removed(old(folders), id) then cases[c] == was
                  else if deleteCases then cases[c] == Case(None, true)
                  else cases[c] == Case(old(folders)[id].parentId, was.deleted)
    {
      if id !in folders { return Failed(NotFound); }
      var folder := folders[id];
      var ids := Removed(folders, id);
      assert folder.parentId.Some? ==> folder.parentId.value in folders && folder.parentId.value !in ids;
      UpdateCasesIn(ids, deleteCases, folder.parentId);
      ForestWithout(folders, id);
      DeleteRows(ids);
      r := Ok;
    }

    method UpdateCasesIn(ids: set<Id>, deleteCases: bool, parentId: Option<Id>)
      modifies this`cases
      ensures cases == map c | c in old(cases) ::
                         if old(cases)[c].folderId.Some? && old(cases)[c].folderId.value in ids
                         then if deleteCases then old(cases)[c].(deleted := true)
                              else old(cases)[c].(folderId := parentId)
                         else old(cases)[c]
    {
      if deleteCases {
        cases := map c | c in cases ::
          if cases[c].folderId.Some? && cases[c].folderId.value in ids then cases[c].(deleted := true) else cases[c];
      } else {
        cases := map c | c in cases ::
          if cases[c].folderId.Some? && cases[c].folderId.value in ids
          then cases[c].(folderId := parentId) else cases[c];
      }
    }

    /** `deleteMany` on the folder rows, with the foreign key of the cases set to null. */
    method DeleteRows(ids: set<Id>)
      modifies this
      ensures folders == old(folders) - ids
      ensures cases == map c | c in old(cases) ::
                         if old(cases)[c].folderId.Some? && old(cases)[c].folderId.value in ids
                         then old(cases)[c].(folderId := None) else old(cases)[c]
    {
      folders := folders - ids;
      cases := map c | c in cases ::
        if cases[c].folderId.Some? && cases[c].folderId.value in ids
        then cases[c].(folderId := None) else cases[c];
    }

    /** The cycle builder's view of the table: every folder once, in some order. */
    method ExpandSelection(listing: seq<Folder>, roots: seq<Id>) returns (ids: seq<Id>)
      requires Valid() && Lists(listing, folders)
      ensures NoDuplicates(ids)
      ensures (forall r :: r in roots ==> r in folders) ==>
                forall x :: x in ids <==> exists r :: r in roots && x in Removed(folders, r)
    {
      ids := DescendantFolderIds(listing, roots);
      if forall r :: r in roots ==> r in folders {
        SelectionIsUnion(listing, folders, roots);
      }
    }
  }

  lemma SelectionIsUnion(folders: seq<Folder>, m: map<Id, Folder>, roots: seq<Id>)
    requires Forest(m) && Lists(folders, m) && forall r :: r in roots ==> r in m
    ensures forall x :: Reachable(folders, roots, x) <==> exists r :: r in roots && x in Removed(m, r)
  {
    forall x
      ensures Reachable(folders, roots, x) <==> exists r :: r in roots && x in Removed(m, r)
    {
      if Reachable(folders, roots, x) {
        var path :| IsPath(folders, roots, path) && path[|path| - 1] == x;
        assert IsPath(folders, [path[0]], path);
        ShortPath(folders, m, path[0], path);
      }
      if r :| r in roots && x in Removed(m, r) {
        DeleteRemovesDescendants(folders, m, r);
        var path :| IsPath(folders, [r], path) && path[|path| - 1] == x;
        assert IsPath(folders, roots, path);
      }
    }
  }
}
