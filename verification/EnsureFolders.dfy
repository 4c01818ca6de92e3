/**
 `ensureTcmsFolders`: bring the suite folders in line with the features, requirements and cases
 of a project. Missing top folders and requirement subfolders are created, and cases without a
 folder are put into one.
 */
module EnsureFolders {
  import opened Common
  import opened FolderClosure
  import opened FolderForest

  datatype Feature = Feature(key: string, name: string)

  datatype Requirement = Requirement(key: string, title: string, feature: Option<string>)

  /** What a test case says about its place. */
  datatype CaseKeys = CaseKeys(feature: Option<string>, requirement: Option<string>, moduleName: Option<string>)

  datatype Req = Req(key: string, title: string)

  /** The rows that are only read. `trim` is whatever the platform trims. */
  datatype Catalog = Catalog(features: seq<Feature>, requirements: seq<Requirement>, cases: seq<CaseKeys>,
                             trim: string -> string)
  {
    function Trimmed(key: Option<string>): Option<string> {
      if key.Some? && trim(key.value) != "" then Some(trim(key.value)) else None
    }

    predicate Needed(key: string) {
      (exists f :: f in features && f.key == key) || (exists c :: c in cases && Trimmed(c.feature) == Some(key))
    }

    /** The name a feature key's top folder gets: its last feature group's, else by the first case that names it. */
    function TopName(key: string): (name: Option<string>)
      ensures name.Some? <==> Needed(key)
    {
      var named := FeatureName(features, key);
      if named.Some? then named else CaseName(cases, key)
    }

    function CaseName(cs: seq<CaseKeys>, key: string): (name: Option<string>)
      ensures name.Some? <==> exists c :: c in cs && Trimmed(c.feature) == Some(key)
    {
      if cs == [] then None
      else
        var n := |cs| - 1;
        assert cs == cs[..n] + [cs[n]];
        var before := CaseName(cs[..n], key);
        if before.Some? then before
        else if Trimmed(cs[n].feature) == Some(key) then Some(Trimmed(cs[n].moduleName).GetOr(key))
        else None
    }

    /** The requirements listed for a feature: its own, then those only its cases mention. */
    function ReqsOf(feature: string): seq<Req> {
      FromCases(FromRequirements(requirements, feature), cases, feature)
    }

    function FromCases(reqs: seq<Req>, cs: seq<CaseKeys>, feature: string): seq<Req> {
      if cs == [] then reqs
      else WithCase(FromCases(reqs, cs[..|cs| - 1], feature), cs[|cs| - 1], feature)
    }

    function WithCase(reqs: seq<Req>, c: CaseKeys, feature: string): seq<Req> {
      var rk := Trimmed(c.requirement);
      if Trimmed(c.feature) == Some(feature) && rk.Some? && !HasKey(reqs, rk.value)
      then reqs + [Req(rk.value, rk.value)] else reqs
    }
  }

  function FeatureName(fs: seq<Feature>, key: string): (name: Option<string>)
    ensures name.Some? <==> exists f :: f in fs && f.key == key
  {
    if fs == [] then None
    else
      var n := |fs| - 1;
      assert fs == fs[..n] + [fs[n]];
      if fs[n].key == key then Some(fs[n].name) else FeatureName(fs[..n], key)
  }

  function Lookup<V>(m: map<string, V>, key: string): Option<V> {
    if key in m then Some(m[key]) else None
  }

  predicate HasKey(reqs: seq<Req>, key: string) {
    exists r :: r in reqs && r.key == key
  }

  function FromRequirements(rs: seq<Requirement>, feature: string): seq<Req> {
    if rs == [] then []
    else
      var last := rs[|rs| - 1];
      var before := FromRequirements(rs[..|rs| - 1], feature);
      if feature != "" && last.feature == Some(feature) then before + [Req(last.key, last.title)] else before
  }

  // ---------------------------------------------------------------------------------------
  // What a reconciled project looks like
  // ---------------------------------------------------------------------------------------

  predicate IsTop(f: Folder, key: string) {
    f.parentId.None? && f.featureKey == Some(key)
  }

  predicate HasTop(folders: seq<Folder>, key: string) {
    exists f :: f in folders && IsTop(f, key)
  }

  predicate HasSub(folders: seq<Folder>, parent: Id, key: string) {
    exists f :: f in folders && f.parentId == Some(parent) && f.requirementKey == Some(key)
  }

  predicate HasSubs(folders: seq<Folder>, parent: Id, reqs: seq<Req>) {
    forall r :: r in reqs ==> HasSub(folders, parent, r.key)
  }

  /** The top folder of a feature key that the source's index holds: the last row read. */
  function LastTop(folders: seq<Folder>, key: string): (t: Option<Folder>)
    ensures t.Some? <==> HasTop(folders, key)
    ensures t.Some? ==> t.value in folders && IsTop(t.value, key)
  {
    if folders == [] then None
    else
      var n := |folders| - 1;
      assert folders == folders[..n] + [folders[n]];
      if IsTop(folders[n], key) then Some(folders[n]) else LastTop(folders[..n], key)
  }

  /** At most one top folder per feature key; the empty key does not count as one. */
  ghost predicate UniqueTops(folders: seq<Folder>) {
    forall f, g, key :: f in folders && g in folders && key != "" && IsTop(f, key) && IsTop(g, key) ==> f == g
  }

  ghost predicate TopsComplete(cat: Catalog, folders: seq<Folder>) {
    forall key :: cat.Needed(key) ==> HasTop(folders, key)
  }

  /** The indexed top folder of every feature with several requirements has a subfolder for each. */
  ghost predicate SubsComplete(cat: Catalog, folders: seq<Folder>) {
    forall key :: key != "" && |cat.ReqsOf(key)| >= 2 && LastTop(folders, key).Some? ==>
      HasSubs(folders, LastTop(folders, key).value.id, cat.ReqsOf(key))
  }

  /** So has every other top folder of such a feature. */
  ghost predicate AllTopsSplit(cat: Catalog, folders: seq<Folder>) {
    forall t, key :: t in folders && key != "" && IsTop(t, key) && |cat.ReqsOf(key)| >= 2 ==>
      HasSubs(folders, t.id, cat.ReqsOf(key))
  }

  /** A case that names a feature lies in a folder. */
  predicate Settled(cat: Catalog, i: nat, folderOf: seq<Option<Id>>)
    requires i < |folderOf| == |cat.cases|
  {
    cat.Trimmed(cat.cases[i].feature).Some? ==> folderOf[i].Some?
  }

  predicate CasesComplete(cat: Catalog, folderOf: seq<Option<Id>>)
    requires |folderOf| == |cat.cases|
  {
    forall i :: 0 <= i < |folderOf| ==> Settled(cat, i, folderOf)
  }

  /** Nothing is left to do. */
  ghost predicate Saturated(cat: Catalog, folders: seq<Folder>, folderOf: seq<Option<Id>>)
    requires |folderOf| == |cat.cases|
  {
    !cat.Needed("") && TopsComplete(cat, folders) && SubsComplete(cat, folders) && CasesComplete(cat, folderOf)
  }

  /** The key under which a subfolder is found for a case. */
  function SubKey(feature: string, requirement: string): string {
    feature + "::" + requirement
  }

  predicate IsSubFor(f: Folder, k: string) {
    f.parentId.Some? && f.requirementKey.Some? && f.requirementKey.value != "" &&
    SubKey(f.featureKey.GetOr(""), f.requirementKey.value) == k
  }

  /** The subfolder that the source's index holds under a key: the last row read. */
  function LastSub(rows: seq<Folder>, k: string): (f: Option<Folder>)
    ensures f.Some? ==> f.value in rows && IsSubFor(f.value, k)
    ensures f.None? ==> forall g :: g in rows ==> !IsSubFor(g, k)
  {
    if rows == [] then None
    else
      var n := |rows| - 1;
      assert rows == rows[..n] + [rows[n]];
      if IsSubFor(rows[n], k) then Some(rows[n]) else LastSub(rows[..n], k)
  }

  /**
   Where a case without a folder goes: the last subfolder that matches its keys among the rows as
   they are read again, and only if none does the top folder indexed by the first read.
   */
  function HomeOf(cat: Catalog, folders: seq<Folder>, again: seq<Folder>, c: CaseKeys): Option<Id> {
    var fk := cat.Trimmed(c.feature);
    var rk := cat.Trimmed(c.requirement);
    if fk.None? then None
    else
      var sub := if rk.Some? then LastSub(again, SubKey(fk.value, rk.value)) else None;
      if sub.Some? then Some(sub.value.id)
      else if LastTop(folders, fk.value).Some? then Some(LastTop(folders, fk.value).value.id)
      else None
  }

  /** Every case keeps its folder, and one without goes where its keys say, if it names a feature. */
  predicate AllPlaced(cat: Catalog, folders: seq<Folder>, again: seq<Folder>, before: seq<Option<Id>>,
                      after: seq<Option<Id>>)
    requires |before| == |after| == |cat.cases|
  {
    forall i :: 0 <= i < |after| ==>
      after[i] == if before[i].Some? then before[i] else HomeOf(cat, folders, again, cat.cases[i])
  }

  // ---------------------------------------------------------------------------------------
  // Which rows may be created
  // ---------------------------------------------------------------------------------------

  /**
   A new top folder is for a key in use that has none, with that key's name. A blank key is never
   found among the rows of earlier runs; `start` is where this run's rows begin.
   */
  predicate WarrantedTop(cat: Catalog, start: nat, folders: seq<Folder>, f: Folder)
    requires start <= |folders|
  {
    && f.parentId.None? && f.requirementKey.None? && f.featureKey.Some?
    && cat.TopName(f.featureKey.value) == Some(f.name)
    && !HasTop(if f.featureKey.value == "" then folders[start..] else folders, f.featureKey.value)
  }

  /** A new subfolder is for a listed requirement of a feature with several, under its top folder, which has none. */
  predicate WarrantedSub(cat: Catalog, folders: seq<Folder>, f: Folder) {
    && f.parentId.Some? && f.requirementKey.Some? && f.featureKey.Some? && f.featureKey.value != ""
    && |cat.ReqsOf(f.featureKey.value)| >= 2
    && Req(f.requirementKey.value, f.name) in cat.ReqsOf(f.featureKey.value)
    && LastTop(folders, f.featureKey.value).Some?
    && LastTop(folders, f.featureKey.value).value.id == f.parentId.value
    && !HasSub(folders, f.parentId.value, f.requirementKey.value)
  }

  /** Rows were only added, each warranted by the rows that were there when it was. */
  predicate TopsAdded(cat: Catalog, before: seq<Folder>, after: seq<Folder>)
    ensures TopsAdded(cat, before, after) ==> before <= after
  {
    before == after ||
    (|before| < |after| && TopsAdded(cat, before, after[..|after| - 1]) &&
     WarrantedTop(cat, |before|, after[..|after| - 1], after[|after| - 1]))
  }

  predicate SubsAdded(cat: Catalog, before: seq<Folder>, after: seq<Folder>)
    ensures SubsAdded(cat, before, after) ==> before <= after
  {
    before == after ||
    (|before| < |after| && SubsAdded(cat, before, after[..|after| - 1]) &&
     WarrantedSub(cat, after[..|after| - 1], after[|after| - 1]))
  }

  lemma TopsAddedSnoc(cat: Catalog, before: seq<Folder>, after: seq<Folder>, f: Folder)
    requires TopsAdded(cat, before, after) && WarrantedTop(cat, |before|, after, f)
    ensures TopsAdded(cat, before, after + [f])
  {
    assert (after + [f])[..|after|] == after;
  }

  lemma OneSubAdded(cat: Catalog, folders: seq<Folder>, f: Folder)
    requires WarrantedSub(cat, folders, f)
    ensures SubsAdded(cat, folders, folders + [f])
  {
    assert (folders + [f])[..|folders|] == folders;
  }

  lemma {:induction false} SubsAddedTwice(cat: Catalog, first: seq<Folder>, middle: seq<Folder>, last: seq<Folder>)
    requires SubsAdded(cat, first, middle) && SubsAdded(cat, middle, last)
    ensures SubsAdded(cat, first, last)
    decreases |last|
  {
    if middle != last {
      SubsAddedTwice(cat, first, middle, last[..|last| - 1]);
    }
  }

  lemma LastTopSnoc(folders: seq<Folder>, f: Folder, key: string)
    ensures LastTop(folders + [f], key) == if IsTop(f, key) then Some(f) else LastTop(folders, key)
  {
    assert (folders + [f])[..|folders|] == folders;
  }

  /** Subfolders do not change which top folder is read last. */
  lemma {:induction false} SubsAddedKeepTop(cat: Catalog, folders: seq<Folder>, more: seq<Folder>, key: string)
    requires SubsAdded(cat, folders, more)
    ensures LastTop(more, key) == LastTop(folders, key)
    decreases |more|
  {
    if folders != more {
      var before, f := more[..|more| - 1], more[|more| - 1];
      assert more == before + [f];
      LastTopSnoc(before, f, key);
      SubsAddedKeepTop(cat, folders, before, key);
    }
  }

  lemma {:induction false} SubsAddedKeepUnique(cat: Catalog, folders: seq<Folder>, more: seq<Folder>)
    requires SubsAdded(cat, folders, more) && UniqueTops(folders)
    ensures UniqueTops(more)
    decreases |more|
  {
    if folders != more {
      var before, f := more[..|more| - 1], more[|more| - 1];
      assert more == before + [f];
      SubsAddedKeepUnique(cat, folders, before);
    }
  }

  /** The folder rows as a list: distinct ids, and every parent is there and at the top. */
  ghost predicate ForestRows(folders: seq<Folder>) {
    && (forall i, j :: 0 <= i < j < |folders| ==> folders[i].id != folders[j].id)
    && (forall f :: f in folders ==> f.id != "")
    && (forall f :: f in folders && f.parentId.Some? ==> TopRow(folders, f.parentId.value))
  }

  ghost predicate TopRow(folders: seq<Folder>, id: Id) {
    exists p :: p in folders && p.id == id && p.parentId.None?
  }

  lemma ForestRowsAreForest(folders: seq<Folder>, m: map<Id, Folder>)
    requires ForestRows(folders) && Lists(folders, m) && forall id :: id in m ==> m[id].id == id
    ensures Forest(m)
  {
    forall id | id in m
      ensures id != "" && (m[id].parentId.Some? ==> m[id].parentId.value in m && m[m[id].parentId.value].parentId.None?)
    {
      assert m[id] in folders;
      if m[id].parentId.Some? {
        var p :| p in folders && p.id == m[id].parentId.value && p.parentId.None?;
      }
    }
  }

  lemma AppendRow(folders: seq<Folder>, f: Folder)
    requires ForestRows(folders) && f.id != "" && forall g :: g in folders ==> g.id != f.id
    requires f.parentId.Some? ==> TopRow(folders, f.parentId.value)
    ensures ForestRows(folders + [f])
  {
    var more := folders + [f];
    forall g | g in more && g.parentId.Some?
      ensures TopRow(more, g.parentId.value)
    {
      var p :| p in folders && p.id == g.parentId.value && p.parentId.None?;
      assert p in more;
    }
  }

  lemma AppendTopKeepsUnique(folders: seq<Folder>, f: Folder)
    requires UniqueTops(folders)
    requires forall key :: key != "" && IsTop(f, key) ==> !HasTop(folders, key)
    ensures UniqueTops(folders + [f])
  {
  }

  lemma NoBlankTopAdded(start: nat, folders: seq<Folder>, f: Folder)
    requires start <= |folders| && !IsTop(f, "") && !HasTop(folders[start..], "")
    ensures !HasTop((folders + [f])[start..], "")
  {
    assert (folders + [f])[start..] == folders[start..] + [f];
  }

  /** A row made for a key that is not in the index becomes the indexed one. */
  lemma NewTop(top: map<string, Folder>, folders: seq<Folder>, f: Folder, key: string)
    requires TopIndex(top, folders) && key !in top && f.parentId.None? && f.featureKey == Some(key)
    ensures TopIndex(top[key := f], folders + [f])
    ensures key != "" ==> !HasTop(folders, key)
    ensures UniqueTops(folders) ==> UniqueTops(folders + [f])
  {
    IndexHas(top, folders, key);
    IndexAppend(top, folders, f, key);
    if UniqueTops(folders) {
      AppendTopKeepsUnique(folders, f);
    }
  }

  /** The names after the first `i` cases: those given by feature groups, then by the first case. */
  ghost predicate NamesSoFar(cat: Catalog, names0: map<string, string>, i: nat, names: map<string, string>)
    requires i <= |cat.cases|
  {
    forall key :: Lookup(names, key) == if key in names0 then Some(names0[key]) else cat.CaseName(cat.cases[..i], key)
  }

  lemma NamesStep(cat: Catalog, names0: map<string, string>, i: nat, names: map<string, string>)
    requires i < |cat.cases| && NamesSoFar(cat, names0, i, names)
    ensures var key := cat.Trimmed(cat.cases[i].feature);
            NamesSoFar(cat, names0, i + 1,
                       if key.Some? && key.value !in names
                       then names[key.value := cat.Trimmed(cat.cases[i].moduleName).GetOr(key.value)] else names)
  {
    assert cat.cases[..i + 1][..i] == cat.cases[..i];
    forall key
      ensures key in names <==> key in names0 || cat.CaseName(cat.cases[..i], key).Some?
    {
      assert Lookup(names, key).Some? <==> key in names;
    }
  }

  lemma NamesDone(cat: Catalog, names0: map<string, string>, names: map<string, string>)
    requires NamesSoFar(cat, names0, |cat.cases|, names)
    requires forall key :: Lookup(names0, key) == FeatureName(cat.features, key)
    ensures forall key :: Lookup(names, key) == cat.TopName(key)
    ensures forall key :: key in names <==> cat.Needed(key)
  {
    assert cat.cases[..|cat.cases|] == cat.cases;
    forall key
      ensures Lookup(names, key) == cat.TopName(key) && (key in names <==> cat.Needed(key))
    {
      assert Lookup(names0, key) == FeatureName(cat.features, key);
      assert Lookup(names, key).Some? <==> key in names;
    }
  }

  /** The ids the database will hand out are new. */
  ghost predicate Supply(newId: nat -> Id, next: nat, folders: seq<Folder>) {
    && (forall k :: k >= next ==> newId(k) != "")
    && (forall j, k :: next <= j < k ==> newId(j) != newId(k))
    && (forall k, f :: k >= next && f in folders ==> f.id != newId(k))
  }

  /** What the map of top folders built by the source holds. */
  ghost predicate TopIndex(top: map<string, Folder>, folders: seq<Folder>) {
    && (forall key :: key != "" ==> Lookup(top, key) == LastTop(folders, key))
    && ("" in top ==> top[""] in folders && IsTop(top[""], ""))
  }

  lemma IndexHas(top: map<string, Folder>, folders: seq<Folder>, key: string)
    requires TopIndex(top, folders)
    ensures key in top ==> top[key] in folders && IsTop(top[key], key)
    ensures key != "" ==> (key in top <==> HasTop(folders, key))
    ensures key in top && key != "" ==> LastTop(folders, key) == Some(top[key])
  {
    if key != "" {
      assert Lookup(top, key) == LastTop(folders, key);
    }
  }

  lemma IndexAppend(top: map<string, Folder>, folders: seq<Folder>, f: Folder, key: string)
    requires TopIndex(top, folders) && f.parentId.None? && f.featureKey == Some(key)
    ensures TopIndex(top[key := f], folders + [f])
  {
    forall k | k != ""
      ensures Lookup(top[key := f], k) == LastTop(folders + [f], k)
    {
      assert Lookup(top, k) == LastTop(folders, k);
      LastTopSnoc(folders, f, k);
    }
  }

  lemma IndexKept(cat: Catalog, top: map<string, Folder>, folders: seq<Folder>, more: seq<Folder>)
    requires TopIndex(top, folders) && SubsAdded(cat, folders, more)
    ensures TopIndex(top, more)
  {
    forall k | k != ""
      ensures Lookup(top, k) == LastTop(more, k)
    {
      assert Lookup(top, k) == LastTop(folders, k);
      SubsAddedKeepTop(cat, folders, more, k);
    }
  }

  class Reconciler {
    const cat: Catalog
    const newId: nat -> Id
    var next: nat
    var folders: seq<Folder>
    var folderOf: seq<Option<Id>>
    var writes: nat

    constructor (cat: Catalog, newId: nat -> Id, folders: seq<Folder>, folderOf: seq<Option<Id>>)
      requires ForestRows(folders) && |folderOf| == |cat.cases| && Supply(newId, 0, folders)
      ensures Valid() && this.cat == cat && this.folders == folders && this.folderOf == folderOf && writes == 0
    {
      this.cat, this.newId, this.folders, this.folderOf := cat, newId, folders, folderOf;
      next, writes := 0, 0;
    }

    ghost predicate Valid()
      reads this
    {
      ForestRows(folders) && |folderOf| == |cat.cases| && Supply(newId, next, folders)
    }

    method CreateFolder(parentId: Option<Id>, name: string, featureKey: string, requirementKey: Option<string>)
      returns (f: Folder)
      requires Valid() && (parentId.Some? ==> TopRow(folders, parentId.value))
      modifies this`folders, this`next, this`writes
      ensures Valid() && writes == old(writes) + 1
      ensures folders == old(folders) + [f]
      ensures f == Folder(f.id, parentId, name, Some(featureKey), requirementKey)
    {
      f := Folder(newId(next), parentId, name, Some(featureKey), requirementKey);
      AppendRow(folders, f);
      folders := folders + [f];
      next := next + 1;
      writes := writes + 1;
    }

    /** The features named by feature groups, then those only cases name, in that order. */
    method NeededFeatures() returns (order: seq<string>, names: map<string, string>)
      ensures forall key :: key in order <==> cat.Needed(key)
      ensures forall key :: key in order <==> key in names
      ensures forall key :: Lookup(names, key) == cat.TopName(key)
    {
      order, names := [], map[];
      for i := 0 to |cat.features|
        invariant forall key :: key in order <==> key in names
        invariant forall key :: Lookup(names, key) == FeatureName(cat.features[..i], key)
      {
        var f := cat.features[i];
        assert cat.features[..i + 1][..i] == cat.features[..i];
        if f.key !in names {
          order := order + [f.key];
        }
        names := names[f.key := f.name];
      }
      assert cat.features[..|cat.features|] == cat.features;
      order, names := AddCaseFeatures(order, names);
    }

    method AddCaseFeatures(order0: seq<string>, names0: map<string, string>)
      returns (order: seq<string>, names: map<string, string>)
      requires forall key :: key in order0 <==> key in names0
      requires forall key :: Lookup(names0, key) == FeatureName(cat.features, key)
      ensures forall key :: key in order <==> key in names
      ensures forall key :: Lookup(names, key) == cat.TopName(key)
      ensures forall key :: key in order <==> cat.Needed(key)
    {
      order, names := order0, names0;
      assert cat.cases[..0] == [];
      for i := 0 to |cat.cases|
        invariant forall key :: key in order <==> key in names
        invariant NamesSoFar(cat, names0, i, names)
      {
        var c := cat.cases[i];
        NamesStep(cat, names0, i, names);
        var key := cat.Trimmed(c.feature);
        if key.Some? && key.value !in names {
          order := order + [key.value];
          names := names[key.value := cat.Trimmed(c.moduleName).GetOr(key.value)];
        }
      }
      NamesDone(cat, names0, names);
    }

    method IndexTops() returns (top: map<string, Folder>)
      ensures TopIndex(top, folders) && "" !in top
    {
      top := map[];
      for i := 0 to |folders|
        invariant TopIndex(top, folders[..i]) && "" !in top
      {
        var f := folders[i];
        assert folders[..i + 1][..i] == folders[..i];
        if f.parentId.None? && f.featureKey.Some? && f.featureKey.value != "" {
          top := top[f.featureKey.value := f];
        }
      }
      assert folders[..|folders|] == folders;
    }

    /** A top folder for one needed feature, if the index has none. */
    method EnsureTop(key: string, name: string, before: map<string, Folder>, ghost start: seq<Folder>)
      returns (top: map<string, Folder>)
      requires Valid() && TopIndex(before, folders) && TopsAdded(cat, start, folders)
      requires cat.TopName(key) == Some(name) && ("" !in before ==> !HasTop(folders[|start|..], ""))
      modifies this`folders, this`next, this`writes
      ensures Valid() && TopIndex(top, folders) && TopsAdded(cat, start, folders)
      ensures "" !in top ==> !HasTop(folders[|start|..], "")
      ensures key in top && forall k :: k in before ==> k in top
      ensures old(folders) <= folders && writes == old(writes) + |folders| - |old(folders)|
      ensures folders == old(folders) <==> key in before
      ensures folders == old(folders) ==> top == before
      ensures UniqueTops(old(folders)) ==> UniqueTops(folders)
    {
      top := before;
      IndexHas(before, folders, key);
      if key in top {
        return;
      }
      var f := CreateFolder(None, name, key, None);
      NewTop(before, old(folders), f, key);
      TopsAddedSnoc(cat, start, old(folders), f);
      if key != "" && "" !in before {
        NoBlankTopAdded(|start|, old(folders), f);
      }
      top := top[key := f];
    }

    /** Creates a top folder for every needed feature that has none. */
    method CreateTops(order: seq<string>, names: map<string, string>) returns (top: map<string, Folder>)
      requires Valid()
      requires forall key :: key in order ==> key in names && cat.TopName(key) == Some(names[key])
      modifies this`folders, this`next, this`writes
      ensures Valid() && TopIndex(top, folders) && TopsAdded(cat, old(folders), folders)
      ensures forall key :: key in order ==> key in top
      ensures writes == old(writes) + |folders| - |old(folders)|
      ensures folders == old(folders) <==> forall key :: key in order ==> key != "" && HasTop(old(folders), key)
      ensures UniqueTops(old(folders)) ==> UniqueTops(folders)
    {
      top := IndexTops();
      ghost var first := top;
      for i := 0 to |order|
        invariant Valid() && TopIndex(top, folders) && TopsAdded(cat, old(folders), folders)
        invariant "" !in top ==> !HasTop(folders[|old(folders)|..], "")
        invariant forall key :: key in order[..i] ==> key in top
        invariant writes == old(writes) + |folders| - |old(folders)|
        invariant folders == old(folders) ==> top == first
        invariant folders == old(folders) <==> forall key :: key in order[..i] ==> key in first
        invariant UniqueTops(old(folders)) ==> UniqueTops(folders)
      {
        var key := order[i];
        assert order[..i + 1] == order[..i] + [key];
        assert key in order;
        top := EnsureTop(key, names[key], top, old(folders));
      }
      assert order[..|order|] == order;
      forall key | key in order
        ensures key in first <==> key != "" && HasTop(old(folders), key)
      {
        IndexHas(first, old(folders), key);
      }
    }

    static function ListOf(reqs: map<string, seq<Req>>, key: string): seq<Req> {
      if key in reqs then reqs[key] else []
    }

    method CollectRequirements() returns (order: seq<string>, reqs: map<string, seq<Req>>)
      ensures forall key :: ListOf(reqs, key) == cat.ReqsOf(key)
      ensures forall key :: key in order <==> key in reqs
      ensures "" !in reqs
    {
      order, reqs := [], map[];
      for i := 0 to |cat.requirements|
        invariant forall key :: ListOf(reqs, key) == FromRequirements(cat.requirements[..i], key)
        invariant forall key :: key in order <==> key in reqs
        invariant "" !in reqs
      {
        var r := cat.requirements[i];
        assert cat.requirements[..i + 1][..i] == cat.requirements[..i];
        if r.feature.None? || r.feature.value == "" {
          continue;
        }
        var key := r.feature.value;
        if key !in reqs {
          order := order + [key];
        }
        reqs := reqs[key := ListOf(reqs, key) + [Req(r.key, r.title)]];
      }
      assert cat.requirements[..|cat.requirements|] == cat.requirements;
      order, reqs := AddCaseRequirements(order, reqs);
    }

    method AddCaseRequirements(order0: seq<string>, reqs0: map<string, seq<Req>>)
      returns (order: seq<string>, reqs: map<string, seq<Req>>)
      requires forall key :: ListOf(reqs0, key) == FromRequirements(cat.requirements, key)
      requires (forall key :: key in order0 <==> key in reqs0) && "" !in reqs0
      ensures forall key :: ListOf(reqs, key) == cat.ReqsOf(key)
      ensures (forall key :: key in order <==> key in reqs) && "" !in reqs
    {
      order, reqs := order0, reqs0;
      for i := 0 to |cat.cases|
        invariant forall key :: ListOf(reqs, key) ==
                                cat.FromCases(FromRequirements(cat.requirements, key), cat.cases[..i], key)
        invariant forall key :: key in order <==> key in reqs
        invariant "" !in reqs
      {
        var c := cat.cases[i];
        assert cat.cases[..i + 1][..i] == cat.cases[..i];
        var fk := cat.Trimmed(c.feature);
        var rk := cat.Trimmed(c.requirement);
        if fk.None? || rk.None? {
          continue;
        }
        var list := ListOf(reqs, fk.value);
        assert forall key :: key != fk.value ==> cat.WithCase(ListOf(reqs, key), c, key) == ListOf(reqs, key);
        if !HasKey(list, rk.value) {
          if fk.value !in reqs {
            order := order + [fk.value];
          }
          reqs := reqs[fk.value := list + [Req(rk.value, rk.value)]];
        }
      }
      assert cat.cases[..|cat.cases|] == cat.cases;
    }

    /** The rows are those of `existing` under this parent. */
    ghost predicate SubsOf(existing: seq<Folder>, parent: Folder)
      reads this
    {
      forall f :: f in existing <==> f in folders && f.parentId == Some(parent.id)
    }

    /** Since `before` only warranted subfolders were added, each counted as a write. */
    ghost predicate OnlySubsAdded(before: seq<Folder>, written: nat)
      reads this
    {
      SubsAdded(cat, before, folders) && writes == written + |folders| - |before|
    }

    /** The parent is the indexed top folder of a feature with several requirements. */
    ghost predicate Splits(parent: Folder, key: string)
      reads this
    {
      key != "" && LastTop(folders, key) == Some(parent) && |cat.ReqsOf(key)| >= 2
    }

    method EnsureSub(parent: Folder, key: string, req: Req, existing: seq<Folder>) returns (now: seq<Folder>)
      requires Valid() && Splits(parent, key) && req in cat.ReqsOf(key) && SubsOf(existing, parent)
      modifies this`folders, this`next, this`writes
      ensures Valid() && Splits(parent, key) && SubsOf(now, parent) && OnlySubsAdded(old(folders), old(writes))
      ensures HasSub(folders, parent.id, req.key)
      ensures folders == old(folders) <==> HasSub(old(folders), parent.id, req.key)
    {
      now := existing;
      if exists s :: s in existing && s.requirementKey == Some(req.key) {
        return;
      }
      var f := CreateFolder(Some(parent.id), req.title, key, Some(req.key));
      assert f in folders;
      OneSubAdded(cat, old(folders), f);
      LastTopSnoc(old(folders), f, key);
      now := existing + [f];
    }

    method ExistingSubs(parent: Folder) returns (existing: seq<Folder>)
      ensures SubsOf(existing, parent)
    {
      existing := Filter(folders, (f: Folder) => f.parentId == Some(parent.id));
    }

    /** One subfolder per listed requirement of one feature. */
    method CreateSubsOf(parent: Folder, key: string, list: seq<Req>)
      requires Valid() && Splits(parent, key) && list == cat.ReqsOf(key)
      modifies this`folders, this`next, this`writes
      ensures Valid() && HasSubs(folders, parent.id, list) && OnlySubsAdded(old(folders), old(writes))
      ensures folders == old(folders) <==> HasSubs(old(folders), parent.id, list)
    {
      var existing := ExistingSubs(parent);
      for j := 0 to |list|
        invariant Valid() && Splits(parent, key) && SubsOf(existing, parent)
        invariant writes == old(writes) + |folders| - |old(folders)|
        invariant SubsSoFar(cat, old(folders), folders, parent.id, list[..j])
      {
        ghost var before := folders;
        existing := EnsureSub(parent, key, list[j], existing);
        SubStep(cat, old(folders), before, folders, parent.id, list, j);
      }
      assert list[..|list|] == list;
    }

    /** The subfolders of one feature, when it has at least two requirements and a top folder. */
    method EnsureSplit(top: map<string, Folder>, reqs: map<string, seq<Req>>, key: string)
      requires Valid() && TopIndex(top, folders) && key in reqs && key != "" && reqs[key] == cat.ReqsOf(key)
      modifies this`folders, this`next, this`writes
      ensures Valid() && TopIndex(top, folders) && OnlySubsAdded(old(folders), old(writes))
      ensures Split(cat, folders, key)
      ensures folders == old(folders) <==> Split(cat, old(folders), key)
    {
      IndexHas(top, folders, key);
      if |reqs[key]| < 2 || key !in top {
        return;
      }
      CreateSubsOf(top[key], key, reqs[key]);
      IndexKept(cat, top, old(folders), folders);
      SubsAddedKeepTop(cat, old(folders), folders, key);
    }

    method CreateSubs(top: map<string, Folder>, order: seq<string>, reqs: map<string, seq<Req>>)
      requires Valid() && TopIndex(top, folders)
      requires forall key :: key in order ==> key in reqs && key != "" && reqs[key] == cat.ReqsOf(key)
      modifies this`folders, this`next, this`writes
      ensures Valid() && TopIndex(top, folders) && OnlySubsAdded(old(folders), old(writes))
      ensures AllSplit(cat, folders, order)
      ensures folders == old(folders) <==> AllSplit(cat, old(folders), order)
    {
      for i := 0 to |order|
        invariant Valid() && TopIndex(top, folders) && writes == old(writes) + |folders| - |old(folders)|
        invariant SplitsSoFar(cat, old(folders), folders, order[..i])
      {
        ghost var before := folders;
        EnsureSplit(top, reqs, order[i]);
        SplitStep(cat, old(folders), before, folders, order, i);
      }
      assert order[..|order|] == order;
    }

    /** The subfolder index of the rows as they are read again. */
    static ghost predicate SubIndex(subs: map<string, Id>, rows: seq<Folder>) {
      forall k :: Lookup(subs, k) == if LastSub(rows, k).Some? then Some(LastSub(rows, k).value.id) else None
    }

    static method IndexSubs(rows: seq<Folder>) returns (subs: map<string, Id>)
      ensures SubIndex(subs, rows)
    {
      subs := map[];
      for i := 0 to |rows|
        invariant SubIndex(subs, rows[..i])
      {
        var f := rows[i];
        assert rows[..i + 1][..i] == rows[..i];
        if f.parentId.Some? && f.requirementKey.Some? && f.requirementKey.value != "" {
          subs := subs[SubKey(f.featureKey.GetOr(""), f.requirementKey.value) := f.id];
        }
      }
      assert rows[..|rows|] == rows;
    }

    /** Puts one case into a folder, if it has a feature and no folder yet. */
    method PlaceCase(top: map<string, Folder>, subs: map<string, Id>, again: seq<Folder>, i: nat)
      requires Valid() && i < |folderOf| && TopIndex(top, folders) && SubIndex(subs, again)
      requires cat.Trimmed(cat.cases[i].feature).Some? ==> cat.Trimmed(cat.cases[i].feature).value in top
      modifies this`folderOf, this`writes
      ensures |folderOf| == |old(folderOf)| && folderOf == old(folderOf)[i := folderOf[i]]
      ensures folderOf[i] == if old(folderOf)[i].Some? then old(folderOf)[i]
                             else HomeOf(cat, folders, again, cat.cases[i])
      ensures Settled(cat, i, folderOf)
      ensures writes == old(writes) + (if Settled(cat, i, old(folderOf)) then 0 else 1)
      ensures writes == old(writes) ==> folderOf == old(folderOf)
    {
      var c := cat.cases[i];
      var fk := cat.Trimmed(c.feature);
      if folderOf[i].Some? || fk.None? {
        return;
      }
      IndexHas(top, folders, fk.value);
      var rk := cat.Trimmed(c.requirement);
      var subId := if rk.Some? then Lookup(subs, SubKey(fk.value, rk.value)) else None;
      folderOf := folderOf[i := Some(subId.GetOr(top[fk.value].id))];
      writes := writes + 1;
    }

    /** Puts every case that has a feature and no folder into a folder, and writes no other row. */
    method PlaceCases(top: map<string, Folder>, again: seq<Folder>)
      requires Valid() && TopIndex(top, folders)
      requires forall c :: c in cat.cases && cat.Trimmed(c.feature).Some? ==> cat.Trimmed(c.feature).value in top
      modifies this`folderOf, this`writes
      ensures Valid() && CasesComplete(cat, folderOf)
      ensures AllPlaced(cat, folders, again, old(folderOf), folderOf)
      ensures writes >= old(writes)
      ensures writes == old(writes) <==> CasesComplete(cat, old(folderOf))
      ensures writes == old(writes) ==> folderOf == old(folderOf)
    {
      var subs := IndexSubs(again);
      for i := 0 to |cat.cases|
        invariant |folderOf| == |old(folderOf)| && folderOf[i..] == old(folderOf)[i..]
        invariant forall j :: 0 <= j < i ==>
                    folderOf[j] == (if old(folderOf)[j].Some? then old(folderOf)[j]
                                    else HomeOf(cat, folders, again, cat.cases[j])) && Settled(cat, j, folderOf)
        invariant writes >= old(writes)
        invariant writes == old(writes) <==> forall j :: 0 <= j < i ==> Settled(cat, j, old(folderOf))
        invariant writes == old(writes) ==> folderOf == old(folderOf)
      {
        assert cat.cases[i] in cat.cases && folderOf[i] == folderOf[i..][0] == old(folderOf)[i];
        assert Settled(cat, i, folderOf) <==> Settled(cat, i, old(folderOf));
        PlaceCase(top, subs, again, i);
      }
    }

    /** The folder rows: top folders first, then the subfolders under them. */
    method EnsureRows() returns (top: map<string, Folder>, ghost middle: seq<Folder>)
      requires Valid()
      modifies this`folders, this`next, this`writes
      ensures Valid() && TopIndex(top, folders)
      ensures TopsAdded(cat, old(folders), middle) && SubsAdded(cat, middle, folders)
      ensures UniqueTops(old(folders)) ==> UniqueTops(folders)
      ensures forall key :: cat.Needed(key) ==> key in top
      ensures SubsComplete(cat, folders) && writes == old(writes) + |folders| - |old(folders)|
      ensures folders == old(folders) <==>
              !cat.Needed("") && TopsComplete(cat, old(folders)) && SubsComplete(cat, old(folders))
    {
      var features, names := NeededFeatures();
      top := CreateTops(features, names);
      middle := folders;
      var withReqs, reqs := CollectRequirements();
      CreateSubs(top, withReqs, reqs);
      if UniqueTops(middle) {
        SubsAddedKeepUnique(cat, middle, folders);
      }
      SplitIsComplete(cat, middle, withReqs, reqs);
      SplitIsComplete(cat, folders, withReqs, reqs);
    }

    /**
     `ensureTcmsFolders`, for whatever order the rows come in when they are read again. What it
     writes and leaves is one run in the sense of `OneRun`.
     */
    method EnsureTcmsFolders(readAgain: seq<Folder> -> seq<Folder>)
      requires Valid() && forall rows :: multiset(readAgain(rows)) == multiset(rows)
      modifies this`folders, this`folderOf, this`next, this`writes
      ensures Valid() && writes >= old(writes)
      ensures OneRun(cat, Rows(old(folders), old(folderOf)), Rows(folders, folderOf), readAgain(folders),
                     writes - old(writes))
    {
      ghost var before := Rows(folders, folderOf);
      var top;
      ghost var middle;
      top, middle := EnsureRows();
      IndexedTopsComplete(cat, folders, top);
      PlaceCases(top, readAgain(folders));
      assert OnlyWarranted(cat, before.folders, folders);
    }
  }

  datatype Rows = Rows(folders: seq<Folder>, folderOf: seq<Option<Id>>)

  /** The new rows are warranted, top folders first. */
  ghost predicate OnlyWarranted(cat: Catalog, before: seq<Folder>, after: seq<Folder>) {
    exists middle :: TopsAdded(cat, before, middle) && SubsAdded(cat, middle, after)
  }

  /**
   All that one run does. Afterwards nothing is missing; the rows that were there are untouched, each
   new one was warranted; every case lies where its keys say; and nothing was written exactly when
   nothing was missing before and no feature group has a blank key.
   */
  ghost predicate OneRun(cat: Catalog, before: Rows, after: Rows, again: seq<Folder>, writes: nat) {
    && |before.folderOf| == |after.folderOf| == |cat.cases|
    && OnlyWarranted(cat, before.folders, after.folders)
    && (UniqueTops(before.folders) ==> UniqueTops(after.folders))
    && TopsComplete(cat, after.folders) && SubsComplete(cat, after.folders) && CasesComplete(cat, after.folderOf)
    && multiset(again) == multiset(after.folders)
    && AllPlaced(cat, after.folders, again, before.folderOf, after.folderOf)
    && writes >= |after.folders| - |before.folders|
    && (writes == 0 <==> Saturated(cat, before.folders, before.folderOf))
    && (writes == 0 ==> after == before)
  }

  lemma IndexedTopsComplete(cat: Catalog, folders: seq<Folder>, top: map<string, Folder>)
    requires TopIndex(top, folders) && forall key :: cat.Needed(key) ==> key in top
    ensures TopsComplete(cat, folders)
  {
    forall key | cat.Needed(key)
      ensures HasTop(folders, key)
    {
      IndexHas(top, folders, key);
      assert key in top;
    }
  }

  /** The subfolders this feature should have are there. */
  predicate Split(cat: Catalog, folders: seq<Folder>, key: string) {
    |cat.ReqsOf(key)| >= 2 && LastTop(folders, key).Some? ==>
      HasSubs(folders, LastTop(folders, key).value.id, cat.ReqsOf(key))
  }

  predicate AllSplit(cat: Catalog, folders: seq<Folder>, keys: seq<string>) {
    forall key :: key in keys ==> Split(cat, folders, key)
  }

  lemma SubsGrow(folders: seq<Folder>, more: seq<Folder>, parent: Id, reqs: seq<Req>)
    requires (forall f :: f in folders ==> f in more) && HasSubs(folders, parent, reqs)
    ensures HasSubs(more, parent, reqs)
  {
    forall r | r in reqs
      ensures HasSub(more, parent, r.key)
    {
      var f :| f in folders && f.parentId == Some(parent) && f.requirementKey == Some(r.key);
      assert f in more;
    }
  }

  lemma SplitsGrow(cat: Catalog, folders: seq<Folder>, more: seq<Folder>, keys: seq<string>)
    requires SubsAdded(cat, folders, more) && AllSplit(cat, folders, keys)
    ensures AllSplit(cat, more, keys)
  {
    forall key | key in keys && |cat.ReqsOf(key)| >= 2 && LastTop(more, key).Some?
      ensures HasSubs(more, LastTop(more, key).value.id, cat.ReqsOf(key))
    {
      SubsAddedKeepTop(cat, folders, more, key);
      assert Split(cat, folders, key);
      SubsGrow(folders, more, LastTop(more, key).value.id, cat.ReqsOf(key));
    }
  }

  lemma SplitsSnoc(cat: Catalog, folders: seq<Folder>, keys: seq<string>, i: nat)
    requires i < |keys|
    ensures AllSplit(cat, folders, keys[..i + 1]) <==>
            AllSplit(cat, folders, keys[..i]) && Split(cat, folders, keys[i])
  {
    assert keys[..i + 1] == keys[..i] + [keys[i]];
  }

  lemma SubsSnoc(folders: seq<Folder>, parent: Id, list: seq<Req>, j: nat)
    requires j < |list|
    ensures HasSubs(folders, parent, list[..j + 1]) <==>
            HasSubs(folders, parent, list[..j]) && HasSub(folders, parent, list[j].key)
  {
    assert list[..j + 1] == list[..j] + [list[j]];
  }

  /** Subfolders for these requirements are there, and rows were added exactly when some were not there first. */
  ghost predicate SubsSoFar(cat: Catalog, first: seq<Folder>, now: seq<Folder>, parent: Id, reqs: seq<Req>) {
    SubsAdded(cat, first, now) && HasSubs(now, parent, reqs) && (now == first <==> HasSubs(first, parent, reqs))
  }

  lemma SubStep(cat: Catalog, first: seq<Folder>, before: seq<Folder>, now: seq<Folder>, parent: Id, list: seq<Req>,
                j: nat)
    requires j < |list| && SubsSoFar(cat, first, before, parent, list[..j]) && SubsAdded(cat, before, now)
    requires HasSub(now, parent, list[j].key)
    requires now == before <==> HasSub(before, parent, list[j].key)
    ensures SubsSoFar(cat, first, now, parent, list[..j + 1])
  {
    SubsGrow(before, now, parent, list[..j]);
    SubsSnoc(now, parent, list, j);
    SubsSnoc(first, parent, list, j);
    SubsAddedTwice(cat, first, before, now);
  }

  ghost predicate SplitsSoFar(cat: Catalog, first: seq<Folder>, now: seq<Folder>, keys: seq<string>) {
    SubsAdded(cat, first, now) && AllSplit(cat, now, keys) && (now == first <==> AllSplit(cat, first, keys))
  }

  lemma SplitStep(cat: Catalog, first: seq<Folder>, before: seq<Folder>, now: seq<Folder>, keys: seq<string>, i: nat)
    requires i < |keys| && SplitsSoFar(cat, first, before, keys[..i]) && SubsAdded(cat, before, now)
    requires Split(cat, now, keys[i])
    requires now == before <==> Split(cat, before, keys[i])
    ensures SplitsSoFar(cat, first, now, keys[..i + 1])
  {
    SplitsGrow(cat, before, now, keys[..i]);
    SplitsSnoc(cat, now, keys, i);
    SplitsSnoc(cat, first, keys, i);
    SubsAddedTwice(cat, first, before, now);
  }

  /** Splitting the features that have requirements is all the splitting asked for. */
  lemma SplitIsComplete(cat: Catalog, folders: seq<Folder>, keys: seq<string>, reqs: map<string, seq<Req>>)
    requires (forall key :: Reconciler.ListOf(reqs, key) == cat.ReqsOf(key)) && "" !in reqs
    requires forall key :: key in keys <==> key in reqs
    ensures AllSplit(cat, folders, keys) <==> SubsComplete(cat, folders)
  {
    if AllSplit(cat, folders, keys) {
      forall key | key != "" && |cat.ReqsOf(key)| >= 2 && LastTop(folders, key).Some?
        ensures HasSubs(folders, LastTop(folders, key).value.id, cat.ReqsOf(key))
      {
        assert Reconciler.ListOf(reqs, key) == cat.ReqsOf(key);
        assert key in keys && Split(cat, folders, key);
      }
    }
    if SubsComplete(cat, folders) {
      forall key | key in keys
        ensures Split(cat, folders, key)
      {
        assert key != "";
      }
    }
  }

  // ---------------------------------------------------------------------------------------
  // Running it again
  // ---------------------------------------------------------------------------------------

  lemma UniqueTopsAreSplit(cat: Catalog, folders: seq<Folder>)
    requires UniqueTops(folders) && SubsComplete(cat, folders)
    ensures AllTopsSplit(cat, folders)
  {
    forall t, key | t in folders && key != "" && IsTop(t, key) && |cat.ReqsOf(key)| >= 2
      ensures HasSubs(folders, t.id, cat.ReqsOf(key))
    {
      assert LastTop(folders, key).value == t;
    }
  }

  lemma RowsInAnyOrder(folders: seq<Folder>, again: seq<Folder>)
    requires ForestRows(folders) && multiset(again) == multiset(folders)
    ensures ForestRows(again)
  {
    PermutationFacts(folders, again);
    forall i, j | 0 <= i < j < |again|
      ensures again[i].id != again[j].id
    {
      assert again[i] in folders && again[j] in folders && again[i] != again[j];
    }
    forall f | f in again && f.parentId.Some?
      ensures TopRow(again, f.parentId.value)
    {
      var p :| p in folders && p.id == f.parentId.value && p.parentId.None?;
      assert p in again;
    }
  }

  lemma AllTopsSplitInAnyOrder(cat: Catalog, folders: seq<Folder>, again: seq<Folder>)
    requires AllTopsSplit(cat, folders) && multiset(again) == multiset(folders)
    ensures SubsComplete(cat, again)
  {
    PermutationFacts(folders, again);
    forall key | key != "" && |cat.ReqsOf(key)| >= 2 && LastTop(again, key).Some?
      ensures HasSubs(again, LastTop(again, key).value.id, cat.ReqsOf(key))
    {
      var t := LastTop(again, key).value;
      assert t in folders && HasSubs(folders, t.id, cat.ReqsOf(key));
      SubsGrow(folders, again, t.id, cat.ReqsOf(key));
    }
  }

  lemma TopsCompleteInAnyOrder(cat: Catalog, folders: seq<Folder>, again: seq<Folder>)
    requires TopsComplete(cat, folders) && multiset(again) == multiset(folders)
    ensures TopsComplete(cat, again)
  {
    PermutationFacts(folders, again);
    forall key | cat.Needed(key)
      ensures HasTop(again, key)
    {
      var f :| f in folders && IsTop(f, key);
      assert f in again;
    }
  }

  /** The row at `i` read last. */
  function ReadLast(folders: seq<Folder>, i: nat): (again: seq<Folder>)
    requires i < |folders|
  {
    folders[..i] + folders[i + 1..] + [folders[i]]
  }

  lemma ReadLastFacts(folders: seq<Folder>, i: nat)
    requires i < |folders|
    ensures multiset(ReadLast(folders, i)) == multiset(folders)
    ensures forall key :: IsTop(folders[i], key) ==> LastTop(ReadLast(folders, i), key) == Some(folders[i])
  {
    assert folders == folders[..i] + [folders[i]] + folders[i + 1..];
  }

  /** The rows are saturated in whatever order they are read. */
  ghost predicate SaturatedInEveryOrder(cat: Catalog, folders: seq<Folder>, folderOf: seq<Option<Id>>)
    requires |folderOf| == |cat.cases|
  {
    forall again :: multiset(again) == multiset(folders) ==> Saturated(cat, again, folderOf)
  }

  /**
   What a run leaves is saturated in every order in which it can be read back exactly when no key
   is blank and every top folder of a feature with several requirements, not only the one the run
   indexed, has its subfolders; with unique top folders it is.
   */
  lemma EveryOrderIffAllTopsSplit(cat: Catalog, folders: seq<Folder>, folderOf: seq<Option<Id>>)
    requires |folderOf| == |cat.cases|
    requires TopsComplete(cat, folders) && SubsComplete(cat, folders) && CasesComplete(cat, folderOf)
    ensures SaturatedInEveryOrder(cat, folders, folderOf) <==> !cat.Needed("") && AllTopsSplit(cat, folders)
    ensures UniqueTops(folders) ==> AllTopsSplit(cat, folders)
  {
    if !cat.Needed("") && AllTopsSplit(cat, folders) {
      forall again | multiset(again) == multiset(folders)
        ensures Saturated(cat, again, folderOf)
      {
        AllTopsSplitInAnyOrder(cat, folders, again);
        TopsCompleteInAnyOrder(cat, folders, again);
      }
    }
    if SaturatedInEveryOrder(cat, folders, folderOf) {
      assert Saturated(cat, folders, folderOf);
      forall t, key | t in folders && key != "" && IsTop(t, key) && |cat.ReqsOf(key)| >= 2
        ensures HasSubs(folders, t.id, cat.ReqsOf(key))
      {
        var i :| 0 <= i < |folders| && folders[i] == t;
        var again := ReadLast(folders, i);
        ReadLastFacts(folders, i);
        assert Saturated(cat, again, folderOf);
        PermutationFacts(folders, again);
        SubsGrow(again, folders, t.id, cat.ReqsOf(key));
      }
    }
    if UniqueTops(folders) {
      UniqueTopsAreSplit(cat, folders);
    }
  }

  /**
   Two runs in a row, the rows read back in any order between them. With unique top folders the
   second writes nothing exactly when no feature group has a blank key; in general exactly when,
   besides, the rows as read back have the subfolders of the top folders that are indexed then.
   */
  lemma SecondRunIdleIff(cat: Catalog, first: Rows, left: Rows, back: seq<Folder>, last: Rows,
                         again1: seq<Folder>, again2: seq<Folder>, writes1: nat, writes2: nat)
    requires OneRun(cat, first, left, again1, writes1) && multiset(back) == multiset(left.folders)
    requires OneRun(cat, Rows(back, left.folderOf), last, again2, writes2)
    ensures writes2 == 0 <==> !cat.Needed("") && SubsComplete(cat, back)
    ensures AllTopsSplit(cat, left.folders) ==> SubsComplete(cat, back)
    ensures UniqueTops(first.folders) ==> (writes2 == 0 <==> !cat.Needed(""))
    ensures writes2 == 0 ==> last == Rows(back, left.folderOf)
  {
    TopsCompleteInAnyOrder(cat, left.folders, back);
    if AllTopsSplit(cat, left.folders) {
      AllTopsSplitInAnyOrder(cat, left.folders, back);
    }
    if UniqueTops(first.folders) {
      UniqueTopsAreSplit(cat, left.folders);
    }
  }

  /** The two runs as they are made. */
  method EnsureTwice(r: Reconciler, readBack: seq<Folder> -> seq<Folder>)
    returns (ghost left: Rows, ghost firstWrites: nat)
    requires r.Valid() && forall rows :: multiset(readBack(rows)) == multiset(rows)
    modifies r
    ensures r.Valid() && r.writes >= 0
    ensures OneRun(r.cat, old(Rows(r.folders, r.folderOf)), left, readBack(left.folders), firstWrites)
    ensures OneRun(r.cat, Rows(readBack(left.folders), left.folderOf), Rows(r.folders, r.folderOf),
                   readBack(r.folders), r.writes)
    ensures r.writes == 0 <==> !r.cat.Needed("") && SubsComplete(r.cat, readBack(left.folders))
    ensures UniqueTops(old(r.folders)) ==> (r.writes == 0 <==> !r.cat.Needed(""))
  {
    ghost var first, already := Rows(r.folders, r.folderOf), r.writes;
    r.EnsureTcmsFolders(readBack);
    left, firstWrites := Rows(r.folders, r.folderOf), r.writes - already;
    RowsInAnyOrder(left.folders, readBack(left.folders));
    PermutationFacts(left.folders, readBack(left.folders));
    r.folders, r.writes := readBack(r.folders), 0;
    r.EnsureTcmsFolders(readBack);
    SecondRunIdleIff(r.cat, first, left, readBack(left.folders), Rows(r.folders, r.folderOf),
                     readBack(left.folders), readBack(r.folders), firstWrites, r.writes);
  }

  /**
   Two runs that read the same rows before either writes. If each then adds the top folders it found
   missing, the top folders stay unique exactly when none was missing.
   */
  lemma OverlappingRunsKeepUniqueTopsIff(cat: Catalog, folders: seq<Folder>, a: seq<Folder>, b: seq<Folder>)
    requires UniqueTops(folders) && TopsAdded(cat, folders, folders + a) && TopsAdded(cat, folders, folders + b)
    requires TopsComplete(cat, folders + a) && TopsComplete(cat, folders + b)
    requires forall f, g :: f in a && g in b ==> f.id != g.id
    ensures UniqueTops(folders + a + b) <==> forall key :: key != "" && cat.Needed(key) ==> HasTop(folders, key)
  {
    if key :| key != "" && cat.Needed(key) && !HasTop(folders, key) {
      var f :| f in folders + a && IsTop(f, key);
      var g :| g in folders + b && IsTop(g, key);
      assert f in a && g in b && f in folders + a + b && g in folders + a + b;
      assert !UniqueTops(folders + a + b);
    } else {
      OnlyBlankTopsAdded(cat, folders, a);
      OnlyBlankTopsAdded(cat, folders, b);
    }
  }

  lemma {:induction false} OnlyBlankTopsAdded(cat: Catalog, folders: seq<Folder>, a: seq<Folder>)
    requires TopsAdded(cat, folders, folders + a)
    requires forall key :: key != "" && cat.Needed(key) ==> HasTop(folders, key)
    ensures forall f :: f in a ==> f.featureKey == Some("")
    decreases |a|
  {
    if a != [] {
      var before, f := a[..|a| - 1], a[|a| - 1];
      assert a == before + [f] && (folders + a)[..|folders + a| - 1] == folders + before;
      assert WarrantedTop(cat, |folders|, folders + before, f);
      OnlyBlankTopsAdded(cat, folders, before);
      assert HasTop(folders, f.featureKey.value) ==> HasTop(folders + before, f.featureKey.value);
    }
  }

  /**
   Moving a subfolder to the top keeps the top folders unique exactly when no other top folder has
   its feature key.
   */
  lemma MovingUpKeepsUniqueTops(folders: seq<Folder>, i: nat)
    requires ForestRows(folders) && UniqueTops(folders) && i < |folders| && folders[i].parentId.Some?
    ensures var f := folders[i];
            UniqueTops(folders[i := f.(parentId := None)]) <==>
            f.featureKey.GetOr("") == "" || !HasTop(folders, f.featureKey.value)
  {
    var f := folders[i].(parentId := None);
    var moved := folders[i := f];
    assert moved[i] == f;
    forall g | g in moved && g != f
      ensures g in folders
    {
      var j :| 0 <= j < |moved| && moved[j] == g;
      assert folders[j] == g;
    }
    if f.featureKey.GetOr("") != "" && HasTop(folders, f.featureKey.value) {
      var j :| 0 <= j < |folders| && IsTop(folders[j], f.featureKey.value);
      assert moved[j] == folders[j] && moved[j].id != f.id;
      assert moved[i] in moved && moved[j] in moved && !UniqueTops(moved);
    }
  }

  /** A subfolder made here, moved up while the folder it was made under still stands, always breaks it. */
  lemma MovingUpBesideItsParent(cat: Catalog, when: seq<Folder>, folders: seq<Folder>, i: nat)
    requires ForestRows(folders) && UniqueTops(folders) && i < |folders| && WarrantedSub(cat, when, folders[i])
    requires LastTop(when, folders[i].featureKey.value).value in folders
    ensures !UniqueTops(folders[i := folders[i].(parentId := None)])
  {
    MovingUpKeepsUniqueTops(folders, i);
  }

  /**
   A top folder without subfolders of its own, for a feature whose other top folder is the one
   indexed: nothing is missing as the rows were read, but much is once it is read last.
   */
  lemma SecondTopUndoesIdempotence(cat: Catalog, folders: seq<Folder>, folderOf: seq<Option<Id>>, i: nat, key: string)
    requires |folderOf| == |cat.cases| && Saturated(cat, folders, folderOf)
    requires i < |folders| && key != "" && IsTop(folders[i], key) && |cat.ReqsOf(key)| >= 2
    requires forall f :: f in folders ==> f.parentId != Some(folders[i].id)
    ensures multiset(ReadLast(folders, i)) == multiset(folders) && !Saturated(cat, ReadLast(folders, i), folderOf)
  {
    var again, r := ReadLast(folders, i), cat.ReqsOf(key)[0];
    ReadLastFacts(folders, i);
    PermutationFacts(folders, again);
    assert r in cat.ReqsOf(key) && !HasSub(again, folders[i].id, r.key);
    assert !HasSubs(again, LastTop(again, key).value.id, cat.ReqsOf(key));
  }

  /** The smallest such input: two requirements, a subfolder moved up, and a run that made it again. */
  function MovedUp(): (Catalog, seq<Folder>) {
    (Catalog([Feature("k", "n")], [Requirement("a", "x", Some("k")), Requirement("b", "y", Some("k"))], [],
             (s: string) => s),
     [Folder("m", None, "x", Some("k"), Some("a"))] +
     [Folder("t", None, "n", Some("k"), None)] +
     [Folder("b", Some("t"), "y", Some("k"), Some("b"))] +
     [Folder("c", Some("t"), "x", Some("k"), Some("a"))])
  }

  lemma MovedUpTops(key: string)
    ensures LastTop(MovedUp().1, key) == if key == "k" then Some(MovedUp().1[1]) else None
  {
    var rows := MovedUp().1;
    LastTopSnoc([], rows[0], key);
    LastTopSnoc([rows[0]], rows[1], key);
    LastTopSnoc([rows[0]] + [rows[1]], rows[2], key);
    LastTopSnoc([rows[0]] + [rows[1]] + [rows[2]], rows[3], key);
    assert [] + [rows[0]] == [rows[0]];
  }

  lemma MovedUpRequirements()
    ensures MovedUp().0.ReqsOf("k") == [Req("a", "x"), Req("b", "y")]
  {
    var rs := MovedUp().0.requirements;
    assert rs[..1] == [rs[0]] && rs[..1][..0] == [];
    assert FromRequirements(rs[..1], "k") == [Req("a", "x")];
  }

  lemma MovedUpSaturated()
    ensures Saturated(MovedUp().0, MovedUp().1, [])
  {
    var (cat, rows) := MovedUp();
    MovedUpRequirements();
    MovedUpTops("k");
    assert rows[2] in rows && rows[3] in rows;
    assert HasSub(rows, "t", "a") && HasSub(rows, "t", "b");
    assert HasTop(rows, "k");
    forall key | key != "" && LastTop(rows, key).Some?
      ensures key == "k"
    {
      MovedUpTops(key);
    }
  }

  lemma MovedUpHasNoSubfolders()
    ensures var (cat, rows) := MovedUp();
            && |rows| == 4 && IsTop(rows[0], "k") && |cat.ReqsOf("k")| >= 2 && |cat.cases| == 0
            && forall f :: f in rows ==> f.parentId != Some(rows[0].id)
  {
    MovedUpRequirements();
  }

  lemma MovedSubfolderUndoesIdempotence(cat: Catalog, rows: seq<Folder>)
    requires (cat, rows) == MovedUp()
    ensures |rows| == 4 && |cat.cases| == 0
    ensures Saturated(cat, rows, []) && !Saturated(cat, ReadLast(rows, 0), [])
  {
    MovedUpHasNoSubfolders();
    MovedUpSaturated();
    SecondTopUndoesIdempotence(cat, rows, [], 0, "k");
  }
}
