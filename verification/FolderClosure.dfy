/** The suite folders of a project as rows, and the worklist that expands a selection of suites. */
module FolderClosure {
  import opened Common

  type Id = string

  datatype Folder = Folder(
    id: Id,
    parentId: Option<Id>,
    name: string,
    featureKey: Option<string>,
    requirementKey: Option<string>)

  /** The key a folder is filed under: the empty string stands for no parent. */
  function ParentKey(f: Folder): Id {
    f.parentId.GetOr("")
  }

  predicate Edge(folders: seq<Folder>, parent: Id, child: Id) {
    exists f :: f in folders && ParentKey(f) == parent && f.id == child
  }

  function ChildIds(folders: seq<Folder>, parent: Id): (ids: seq<Id>)
    ensures forall c :: c in ids <==> Edge(folders, parent, c)
  {
    if folders == [] then []
    else
      var last := folders[|folders| - 1];
      var before := ChildIds(folders[..|folders| - 1], parent);
      assert folders == folders[..|folders| - 1] + [last];
      if ParentKey(last) == parent then before + [last.id] else before
  }

  /** A path down the parent links from a root; the empty id is never followed. */
  predicate IsPath(folders: seq<Folder>, roots: seq<Id>, path: seq<Id>) {
    && path != [] && path[0] in roots
    && (forall i :: 0 <= i < |path| ==> path[i] != "")
    && (forall i :: 0 < i < |path| ==> Edge(folders, path[i - 1], path[i]))
  }

  ghost predicate Reachable(folders: seq<Folder>, roots: seq<Id>, id: Id) {
    exists path :: IsPath(folders, roots, path) && path[|path| - 1] == id
  }

  lemma ReachableStep(folders: seq<Folder>, roots: seq<Id>, id: Id, child: Id)
    requires Reachable(folders, roots, id) && Edge(folders, id, child) && child != ""
    ensures Reachable(folders, roots, child)
  {
    var path :| IsPath(folders, roots, path) && path[|path| - 1] == id;
    var longer := path + [child];
    assert IsPath(folders, roots, longer) && longer[|longer| - 1] == child;
  }

  lemma RootReachable(folders: seq<Folder>, roots: seq<Id>, id: Id)
    requires id in roots && id != ""
    ensures Reachable(folders, roots, id)
  {
    assert IsPath(folders, roots, [id]) && [id][|[id]| - 1] == id;
  }

  /** A set that holds the roots and is closed under the parent links holds every path. */
  lemma {:induction false} ClosedHoldsPath(folders: seq<Folder>, roots: seq<Id>, out: seq<Id>, path: seq<Id>)
    requires IsPath(folders, roots, path)
    requires forall r :: r in roots && r != "" ==> r in out
    requires forall id, c :: id in out && Edge(folders, id, c) && c != "" ==> c in out
    ensures path[|path| - 1] in out
    decreases |path|
  {
    if |path| > 1 {
      var shorter := path[..|path| - 1];
      assert IsPath(folders, roots, shorter);
      ClosedHoldsPath(folders, roots, out, shorter);
      assert Edge(folders, path[|path| - 2], path[|path| - 1]);
    }
  }

  function Children(byParent: map<Id, seq<Id>>, parent: Id): seq<Id> {
    if parent in byParent then byParent[parent] else []
  }

  method IndexByParent(folders: seq<Folder>) returns (byParent: map<Id, seq<Id>>)
    ensures forall p :: Children(byParent, p) == ChildIds(folders, p)
  {
    byParent := map[];
    for i := 0 to |folders|
      invariant forall p :: Children(byParent, p) == ChildIds(folders[..i], p)
    {
      var folder := folders[i];
      var parent := ParentKey(folder);
      ghost var before := byParent;
      byParent := byParent[parent := Children(byParent, parent) + [folder.id]];
      assert folders[..i + 1][..i] == folders[..i];
      assert forall p :: p != parent ==> Children(byParent, p) == Children(before, p);
    }
    assert folders[..|folders|] == folders;
  }

  ghost function Universe(folders: seq<Folder>, roots: seq<Id>): set<Id> {
    (set f | f in folders :: f.id) + (set r | r in roots)
  }

  ghost function Elements(s: seq<Id>): set<Id> {
    set x | x in s
  }

  ghost predicate SoFarReachable(folders: seq<Folder>, roots: seq<Id>, out: seq<Id>, stack: seq<Id>) {
    && (forall id :: id in out ==> Reachable(folders, roots, id))
    && (forall id :: id in stack && id != "" ==> Reachable(folders, roots, id))
    && (forall id :: id in stack ==> id in Universe(folders, roots))
  }

  /** Nothing is forgotten: roots, and children of what is done, are done or still on the stack. */
  ghost predicate NothingForgotten(folders: seq<Folder>, roots: seq<Id>, out: seq<Id>, stack: seq<Id>) {
    && (forall r :: r in roots && r != "" ==> r in out || r in stack)
    && (forall id, c :: id in out && Edge(folders, id, c) && c != "" ==> c in out || c in stack)
  }

  lemma ExpandReachable(folders: seq<Folder>, roots: seq<Id>, out: seq<Id>, stack: seq<Id>, id: Id)
    requires SoFarReachable(folders, roots, out, stack + [id]) && id != ""
    ensures SoFarReachable(folders, roots, out + [id], stack + ChildIds(folders, id))
  {
    assert id in stack + [id];
    forall c | c in ChildIds(folders, id)
      ensures c in Universe(folders, roots) && (c != "" ==> Reachable(folders, roots, c))
    {
      if c != "" {
        ReachableStep(folders, roots, id, c);
      }
    }
    assert forall x :: x in stack ==> x in stack + [id];
  }

  lemma ExpandForgetsNothing(folders: seq<Folder>, roots: seq<Id>, out: seq<Id>, stack: seq<Id>, id: Id)
    requires NothingForgotten(folders, roots, out, stack + [id])
    ensures NothingForgotten(folders, roots, out + [id], stack + ChildIds(folders, id))
  {
  }

  /** The state of the worklist loop. */
  ghost predicate Worklist(folders: seq<Folder>, roots: seq<Id>, out: seq<Id>, stack: seq<Id>) {
    NoDuplicates(out) && SoFarReachable(folders, roots, out, stack) && NothingForgotten(folders, roots, out, stack)
  }

  lemma WorklistStarts(folders: seq<Folder>, roots: seq<Id>)
    ensures Worklist(folders, roots, [], roots)
  {
    forall id | id in roots && id != "" { RootReachable(folders, roots, id); }
  }

  lemma Skip(folders: seq<Folder>, roots: seq<Id>, out: seq<Id>, stack: seq<Id>)
    requires stack != [] && Worklist(folders, roots, out, stack)
    requires stack[|stack| - 1] == "" || stack[|stack| - 1] in out
    ensures Worklist(folders, roots, out, stack[..|stack| - 1])
  {
    assert stack == stack[..|stack| - 1] + [stack[|stack| - 1]];
  }

  lemma Expand(folders: seq<Folder>, roots: seq<Id>, out: seq<Id>, stack: seq<Id>)
    requires stack != [] && Worklist(folders, roots, out, stack)
    requires stack[|stack| - 1] != "" && stack[|stack| - 1] !in out
    ensures var id := stack[|stack| - 1];
            && Worklist(folders, roots, out + [id], stack[..|stack| - 1] + ChildIds(folders, id))
            && |Universe(folders, roots) - Elements(out + [id])| < |Universe(folders, roots) - Elements(out)|
  {
    var id, rest := stack[|stack| - 1], stack[..|stack| - 1];
    assert stack == rest + [id];
    assert id in stack;
    ExpandReachable(folders, roots, out, rest, id);
    ExpandForgetsNothing(folders, roots, out, rest, id);
    var todo := Universe(folders, roots) - Elements(out);
    assert Universe(folders, roots) - Elements(out + [id]) == todo - {id};
    assert id in todo;
  }

  lemma WorklistDone(folders: seq<Folder>, roots: seq<Id>, out: seq<Id>)
    requires Worklist(folders, roots, out, [])
    ensures forall id :: id in out <==> Reachable(folders, roots, id)
  {
    forall id | Reachable(folders, roots, id)
      ensures id in out
    {
      var path :| IsPath(folders, roots, path) && path[|path| - 1] == id;
      ClosedHoldsPath(folders, roots, out, path);
    }
  }

  /** `descendantFolderIds`: exactly the ids that can be reached, each once, on any parent graph. */
  method DescendantFolderIds(folders: seq<Folder>, roots: seq<Id>) returns (out: seq<Id>)
    ensures NoDuplicates(out)
    ensures forall id :: id in out <==> Reachable(folders, roots, id)
  {
    var byParent := IndexByParent(folders);
    out := [];
    var stack := roots;
    WorklistStarts(folders, roots);
    while stack != []
      invariant Worklist(folders, roots, out, stack)
      decreases |Universe(folders, roots) - Elements(out)|, |stack|
    {
      ghost var whole := stack;
      var id := stack[|stack| - 1];
      stack := stack[..|stack| - 1];
      if id == "" || id in out {
        Skip(folders, roots, out, whole);
        continue;
      }
      Expand(folders, roots, out, whole);
      out := out + [id];
      stack := stack + Children(byParent, id);
    }
    WorklistDone(folders, roots, out);
  }
}
