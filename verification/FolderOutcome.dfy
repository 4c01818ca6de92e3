/**
 What `ensureTcmsFolders` leaves, said of the rows it reads and the rows that are there
 afterwards: which requirements a feature is listed with, what a new folder is called, which
 folders exist, and where each case lies.
 */
module FolderOutcome {
  import opened Common
  import opened FolderClosure
  import opened EnsureFolders

  predicate NamesFeature(cat: Catalog, c: CaseKeys, key: string) {
    key != "" && c.feature.Some? && cat.trim(c.feature.value) == key
  }

  predicate NamesBoth(cat: Catalog, c: CaseKeys, key: string, rk: string) {
    NamesFeature(cat, c, key) && rk != "" && c.requirement.Some? && cat.trim(c.requirement.value) == rk
  }

  predicate RowOf(r: Requirement, key: string) {
    key != "" && r.feature == Some(key)
  }

  /** A requirement row of the feature has this key. */
  predicate InRows(cat: Catalog, key: string, rk: string) {
    exists r :: r in cat.requirements && RowOf(r, key) && r.key == rk
  }

  predicate InCases(cs: seq<CaseKeys>, cat: Catalog, key: string, rk: string) {
    exists c :: c in cs && NamesBoth(cat, c, key, rk)
  }

  // ---------------------------------------------------------------------------------------
  // The requirements a feature is listed with
  // ---------------------------------------------------------------------------------------

  function OwnRows(rs: seq<Requirement>, key: string): seq<Requirement> {
    Filter(rs, (r: Requirement) => RowOf(r, key))
  }

  /** The rows come first, each with its own title, in the order they were read. */
  lemma {:induction false} RowsAsListed(rs: seq<Requirement>, key: string)
    ensures |FromRequirements(rs, key)| == |OwnRows(rs, key)|
    ensures forall i :: 0 <= i < |OwnRows(rs, key)| ==>
              FromRequirements(rs, key)[i] == Req(OwnRows(rs, key)[i].key, OwnRows(rs, key)[i].title)
  {
    if rs != [] {
      var n := |rs| - 1;
      var keep := (r: Requirement) => RowOf(r, key);
      assert rs == rs[..n] + [rs[n]];
      FilterAppend(rs[..n], [rs[n]], keep);
      FilterOne(rs[n], keep);
      RowsAsListed(rs[..n], key);
    }
  }

  /** What the first cases add: keys that are their own titles and were not listed before. */
  ghost predicate Extends(own: seq<Req>, list: seq<Req>) {
    && own <= list
    && (forall j :: |own| <= j < |list| ==> list[j].title == list[j].key)
    && (forall i, j :: 0 <= i < j < |list| && j >= |own| ==> list[i].key != list[j].key)
  }

  lemma {:induction false} CasesExtend(cat: Catalog, own: seq<Req>, cs: seq<CaseKeys>, key: string)
    ensures Extends(own, cat.FromCases(own, cs, key))
    ensures forall rk :: HasKey(cat.FromCases(own, cs, key), rk) <==> HasKey(own, rk) || InCases(cs, cat, key, rk)
  {
    if cs != [] {
      var n := |cs| - 1;
      assert cs == cs[..n] + [cs[n]];
      CasesExtend(cat, own, cs[..n], key);
      var before, after := cat.FromCases(own, cs[..n], key), cat.FromCases(own, cs, key);
      assert before <= after;
      forall rk
        ensures HasKey(after, rk) <==> HasKey(before, rk) || NamesBoth(cat, cs[n], key, rk)
      {
        if after != before {
          assert after[|before|] in after;
        }
      }
      forall rk
        ensures InCases(cs, cat, key, rk) <==> InCases(cs[..n], cat, key, rk) || NamesBoth(cat, cs[n], key, rk)
      {
        assert cs[n] in cs;
      }
    }
  }

  /**
   A feature is listed with exactly the keys its requirement rows and its cases name. The rows come
   first, in order and with their titles; a key that only cases name stands once and is its own title.
   */
  lemma ListedRequirements(cat: Catalog, key: string)
    ensures var own, list := OwnRows(cat.requirements, key), cat.ReqsOf(key);
            && |own| <= |list|
            && (forall i :: 0 <= i < |own| ==> list[i] == Req(own[i].key, own[i].title))
            && (forall j :: |own| <= j < |list| ==> list[j].title == list[j].key)
            && (forall i, j :: 0 <= i < j < |list| && j >= |own| ==> list[i].key != list[j].key)
    ensures forall rk :: HasKey(cat.ReqsOf(key), rk) <==>
                         InRows(cat, key, rk) || InCases(cat.cases, cat, key, rk)
  {
    var own := OwnRows(cat.requirements, key);
    RowsAsListed(cat.requirements, key);
    var first := FromRequirements(cat.requirements, key);
    CasesExtend(cat, first, cat.cases, key);
    forall rk
      ensures HasKey(first, rk) <==> InRows(cat, key, rk)
    {
      if q :| q in first && q.key == rk {
        var i :| 0 <= i < |first| && first[i] == q;
        assert own[i] in own;
      }
      if r :| r in cat.requirements && RowOf(r, key) && r.key == rk {
        var i :| 0 <= i < |own| && own[i] == r;
        assert first[i] in first;
      }
    }
  }

  predicate Asked(cat: Catalog, key: string, rk: string) {
    InRows(cat, key, rk) || InCases(cat.cases, cat, key, rk)
  }

  predicate BothAsked(cat: Catalog, key: string, rk: string, other: string) {
    Asked(cat, key, rk) && Asked(cat, key, other) && rk != other
  }

  lemma TwoAreListed(cat: Catalog, key: string, rk: string, other: string)
    requires BothAsked(cat, key, rk, other)
    ensures HasKey(cat.ReqsOf(key), rk) && HasKey(cat.ReqsOf(key), other) && |cat.ReqsOf(key)| >= 2 && key != ""
  {
    ListedRequirements(cat, key);
    var q :| q in cat.ReqsOf(key) && q.key == rk;
    var p :| p in cat.ReqsOf(key) && p.key == other;
  }

  // ---------------------------------------------------------------------------------------
  // The name of a top folder
  // ---------------------------------------------------------------------------------------

  lemma {:induction false} LastNameCounts(fs: seq<Feature>, i: nat, key: string)
    requires i < |fs| && fs[i].key == key && forall j :: i < j < |fs| ==> fs[j].key != key
    ensures FeatureName(fs, key) == Some(fs[i].name)
  {
    var n := |fs| - 1;
    if i < n {
      assert fs[n].key != key;
      LastNameCounts(fs[..n], i, key);
    }
  }

  lemma {:induction false} FirstCaseCounts(cat: Catalog, cs: seq<CaseKeys>, i: nat, key: string)
    requires i < |cs| && NamesFeature(cat, cs[i], key) && forall j :: 0 <= j < i ==> !NamesFeature(cat, cs[j], key)
    ensures cat.CaseName(cs, key) == Some(cat.Trimmed(cs[i].moduleName).GetOr(key))
  {
    var n := |cs| - 1;
    if i < n {
      FirstCaseCounts(cat, cs[..n], i, key);
    } else if c :| c in cs[..n] && cat.Trimmed(c.feature) == Some(key) {
      var j :| 0 <= j < n && cs[j] == c;
      assert NamesFeature(cat, cs[j], key);
    }
  }

  /**
   A new top folder is called as the last feature group with its key; without one, after the module
   of the first case that names the key, or by the key itself if that case has no module.
   */
  lemma NameOfTop(cat: Catalog, i: nat, key: string)
    ensures i < |cat.features| && cat.features[i].key == key &&
            (forall j :: i < j < |cat.features| ==> cat.features[j].key != key) ==>
              cat.TopName(key) == Some(cat.features[i].name)
    ensures (forall f :: f in cat.features ==> f.key != key) &&
            i < |cat.cases| && NamesFeature(cat, cat.cases[i], key) &&
            (forall j :: 0 <= j < i ==> !NamesFeature(cat, cat.cases[j], key)) ==>
              var m := cat.cases[i].moduleName;
              cat.TopName(key) == Some(if m.Some? && cat.trim(m.value) != "" then cat.trim(m.value) else key)
  {
    if i < |cat.features| && cat.features[i].key == key &&
       (forall j :: i < j < |cat.features| ==> cat.features[j].key != key) {
      LastNameCounts(cat.features, i, key);
    }
    if i < |cat.cases| && NamesFeature(cat, cat.cases[i], key) &&
       (forall j :: 0 <= j < i ==> !NamesFeature(cat, cat.cases[j], key)) {
      FirstCaseCounts(cat, cat.cases, i, key);
    }
  }

  // ---------------------------------------------------------------------------------------
  // Two features whose subfolder keys collide
  // ---------------------------------------------------------------------------------------

  /** `f` with the separator is a prefix of what the other key and the first colon make. */
  predicate RunsInto(f: string, g: string) {
    f + "::" <= g + ":"
  }

  predicate Clash(f: string, g: string) {
    RunsInto(f, g) || RunsInto(g, f)
  }

  lemma ShorterRunsInto(f: string, g: string, r: string, q: string)
    requires |f| < |g| && SubKey(f, r) == SubKey(g, q)
    ensures RunsInto(f, g)
  {
    var k := SubKey(f, r);
    assert k[..|g| + 1] == g + ":" && k[..|f| + 2] == f + "::";
    assert |f| + 2 <= |g| + 1;
    assert (g + ":")[..|f| + 2] == k[..|g| + 1][..|f| + 2] == k[..|f| + 2];
  }

  lemma SameLengthSameKeys(f: string, g: string, r: string, q: string)
    requires |f| == |g| && SubKey(f, r) == SubKey(g, q)
    ensures f == g && r == q
  {
    var k := SubKey(f, r);
    assert f == k[..|f|] == SubKey(g, q)[..|g|] == g;
    assert r == k[|f| + 2..] == SubKey(g, q)[|g| + 2..] == q;
  }

  lemma RunningIntoCollides(f: string, g: string) returns (r: string, q: string)
    requires RunsInto(f, g)
    ensures r != "" && q != "" && SubKey(f, r) == SubKey(g, q)
  {
    q := "r";
    var k := SubKey(g, q);
    assert (g + ":")[..|f| + 2] == k[..|f| + 2];
    r := k[|f| + 2..];
    assert k == k[..|f| + 2] + r;
  }

  ghost predicate CanCollide(f: string, g: string) {
    exists r, q :: r != "" && q != "" && SubKey(f, r) == SubKey(g, q)
  }

  /**
   A case is looked up under its two keys joined by two colons. Subfolders of two features can be
   taken for each other exactly when one key, with the separator, runs into the other.
   */
  lemma SubKeysCollideIffClash(f: string, g: string)
    requires f != g
    ensures CanCollide(f, g) <==> Clash(f, g)
  {
    if r, q :| r != "" && q != "" && SubKey(f, r) == SubKey(g, q) {
      if |f| == |g| {
        SameLengthSameKeys(f, g, r, q);
      } else if |f| < |g| {
        ShorterRunsInto(f, g, r, q);
      } else {
        ShorterRunsInto(g, f, q, r);
      }
    }
    if RunsInto(f, g) {
      var r, q := RunningIntoCollides(f, g);
    } else if RunsInto(g, f) {
      var q, r := RunningIntoCollides(g, f);
    }
  }

  /** A subfolder found for a case has the case's own keys, unless its feature key clashes. */
  lemma FoundByItsKeys(f: Folder, key: string, rk: string)
    requires IsSubFor(f, SubKey(key, rk)) && rk != "" && !Clash(f.featureKey.GetOr(""), key)
    ensures f.featureKey.GetOr("") == key && f.requirementKey == Some(rk)
  {
    var g := f.featureKey.GetOr("");
    if g != key {
      assert CanCollide(g, key);
      SubKeysCollideIffClash(g, key);
    } else {
      SameLengthSameKeys(g, key, f.requirementKey.value, rk);
    }
  }

  /** For a clashing key the case lands in the other feature's subfolder. */
  lemma ClashMisplaces(cat: Catalog, folders: seq<Folder>, again: seq<Folder>, f: Folder, key: string)
    returns (c: CaseKeys, rk: string, g: Folder)
    requires f.parentId.Some? && f.featureKey.GetOr("") != key && Clash(f.featureKey.GetOr(""), key)
    requires key != "" && forall s: string :: cat.trim(s) == s
    ensures NamesBoth(cat, c, key, rk) && g == f.(requirementKey := g.requirementKey)
    ensures HomeOf(cat, folders, again + [g], c) == Some(f.id)
  {
    var other := f.featureKey.GetOr("");
    SubKeysCollideIffClash(other, key);
    var q, r :| q != "" && r != "" && SubKey(other, q) == SubKey(key, r);
    rk, g := r, f.(requirementKey := Some(q));
    c := CaseKeys(Some(key), Some(rk), None);
    assert (again + [g])[..|again|] == again;
  }

  // ---------------------------------------------------------------------------------------
  // What one run leaves
  // ---------------------------------------------------------------------------------------

  /** The subfolder of one requirement of one feature. */
  predicate IsSubRow(f: Folder, key: string, rk: string) {
    f.parentId.Some? && f.featureKey == Some(key) && f.requirementKey == Some(rk)
  }

  predicate HasSubRow(rows: seq<Folder>, key: string, rk: string) {
    exists f :: f in rows && IsSubRow(f, key, rk)
  }

  predicate IsTopRow(f: Folder, key: string) {
    f.parentId.None? && f.featureKey == Some(key)
  }

  predicate HasTopRow(rows: seq<Folder>, key: string) {
    exists f :: f in rows && IsTopRow(f, key)
  }

  predicate IsUnder(rows: seq<Folder>, f: Folder, key: string) {
    f.parentId.Some? && exists t :: t in rows && IsTopRow(t, key) && t.id == f.parentId.value
  }

  /** Under some top folder of the feature there is a folder for the requirement. */
  predicate HasUnder(rows: seq<Folder>, key: string, rk: string) {
    exists f :: f in rows && IsUnder(rows, f, key) && f.requirementKey == Some(rk)
  }

  /** The folders a run leaves: those that were there, and one for all that is named. */
  lemma FoldersAfterRun(cat: Catalog, before: Rows, after: Rows, again: seq<Folder>, writes: nat)
    requires OneRun(cat, before, after, again, writes)
    ensures before.folders <= after.folders
    ensures forall f :: f in cat.features ==> HasTopRow(after.folders, f.key)
    ensures forall c, key :: c in cat.cases && NamesFeature(cat, c, key) ==> HasTopRow(after.folders, key)
    ensures forall key, rk, other ::
              HasTopRow(after.folders, key) && BothAsked(cat, key, rk, other) ==> HasUnder(after.folders, key, rk)
  {
    var rows := after.folders;
    forall key | cat.Needed(key)
      ensures HasTopRow(rows, key)
    {
      var f :| f in rows && IsTop(f, key);
      assert IsTopRow(f, key);
    }
    forall c, key | c in cat.cases && NamesFeature(cat, c, key)
      ensures HasTopRow(rows, key)
    {
      assert cat.Needed(key);
    }
    forall key, rk, other | HasTopRow(rows, key) && BothAsked(cat, key, rk, other)
      ensures HasUnder(rows, key, rk)
    {
      var f := SubUnderTop(cat, rows, key, rk, other);
    }
  }

  /** The subfolder of a requirement under the indexed top folder. */
  lemma SubUnderTop(cat: Catalog, rows: seq<Folder>, key: string, rk: string, other: string) returns (f: Folder)
    requires SubsComplete(cat, rows) && HasTopRow(rows, key)
    requires BothAsked(cat, key, rk, other)
    ensures f in rows && f.requirementKey == Some(rk) && LastTop(rows, key).Some?
    ensures f.parentId == Some(LastTop(rows, key).value.id) && IsUnder(rows, f, key)
  {
    TwoAreListed(cat, key, rk, other);
    var first :| first in rows && IsTopRow(first, key);
    assert IsTop(first, key);
    var t := LastTop(rows, key).value;
    var q :| q in cat.ReqsOf(key) && q.key == rk;
    assert HasSub(rows, t.id, q.key);
    f :| f in rows && f.parentId == Some(t.id) && f.requirementKey == Some(rk);
    assert IsTopRow(t, key);
  }

  predicate NoClash(rows: seq<Folder>, key: string) {
    forall f :: f in rows && f.parentId.Some? ==> !Clash(f.featureKey.GetOr(""), key)
  }

  /** The case lies in a folder with this feature key and, if one is given, this requirement key. */
  predicate LiesIn(rows: seq<Folder>, at: Option<Id>, key: string, rk: Option<string>) {
    exists f :: f in rows && at == Some(f.id) && (if rk.Some? then IsSubRow(f, key, rk.value) else IsTopRow(f, key))
  }

  /** The requirement key a case names. */
  function Named(cat: Catalog, c: CaseKeys): Option<string> {
    if c.requirement.Some? && cat.trim(c.requirement.value) != "" then Some(cat.trim(c.requirement.value)) else None
  }

  /**
   A case that had a folder keeps it, and one that names no feature gets none. Any other lies in the
   subfolder of its own feature and requirement if there is one, and else in the feature's top folder,
   unless the key of a subfolder clashes with its feature's.
   */
  lemma CasesAfterRun(cat: Catalog, before: Rows, after: Rows, again: seq<Folder>, writes: nat, i: nat, key: string)
    requires OneRun(cat, before, after, again, writes) && i < |cat.cases|
    ensures before.folderOf[i].Some? ==> after.folderOf[i] == before.folderOf[i]
    ensures before.folderOf[i].None? && (forall k: string :: !NamesFeature(cat, cat.cases[i], k)) ==>
              after.folderOf[i].None?
    ensures before.folderOf[i].None? && NamesFeature(cat, cat.cases[i], key) && NoClash(after.folders, key) ==>
              var rk := Named(cat, cat.cases[i]);
              LiesIn(after.folders, after.folderOf[i], key,
                     if rk.Some? && HasSubRow(after.folders, key, rk.value) then rk else None)
  {
    var c := cat.cases[i];
    var rows := after.folders;
    PermutationFacts(rows, again);
    assert Settled(cat, i, after.folderOf);
    if cat.Trimmed(c.feature).Some? {
      assert NamesFeature(cat, c, cat.Trimmed(c.feature).value);
    }
    if before.folderOf[i].None? && NamesFeature(cat, c, key) && NoClash(rows, key) {
      HomeByKeys(cat, rows, again, c, key);
      assert after.folderOf[i] == HomeOf(cat, rows, again, c);
    }
  }

  lemma HomeByKeys(cat: Catalog, rows: seq<Folder>, again: seq<Folder>, c: CaseKeys, key: string)
    requires (forall f :: f in again <==> f in rows) && NamesFeature(cat, c, key) && NoClash(rows, key)
    requires HomeOf(cat, rows, again, c).Some?
    ensures var rk := Named(cat, c);
            LiesIn(rows, HomeOf(cat, rows, again, c), key,
                   if rk.Some? && HasSubRow(rows, key, rk.value) then rk else None)
  {
    var rk := Named(cat, c);
    assert cat.Trimmed(c.feature) == Some(key) && cat.Trimmed(c.requirement) == rk;
    if rk.Some? {
      var sub := LastSub(again, SubKey(key, rk.value));
      if f :| f in rows && IsSubRow(f, key, rk.value) {
        assert IsSubFor(f, SubKey(key, rk.value));
      }
      if sub.Some? {
        FoundByItsKeys(sub.value, key, rk.value);
        assert IsSubRow(sub.value, key, rk.value);
      }
    }
  }

  /** Of several rows that fit, the one read last counts. */
  lemma {:induction false} LastRowCounts(rows: seq<Folder>, i: nat, key: string, k: string)
    requires i < |rows|
    ensures IsTopRow(rows[i], key) && (forall j :: i < j < |rows| ==> !IsTopRow(rows[j], key)) ==>
              LastTop(rows, key) == Some(rows[i])
    ensures IsSubFor(rows[i], k) && (forall j :: i < j < |rows| ==> !IsSubFor(rows[j], k)) ==>
              LastSub(rows, k) == Some(rows[i])
  {
    var n := |rows| - 1;
    if i < n {
      LastRowCounts(rows[..n], i, key, k);
    }
  }

  // ---------------------------------------------------------------------------------------
  // Nothing is made that was not asked for
  // ---------------------------------------------------------------------------------------

  predicate InUse(cat: Catalog, key: string) {
    (exists f :: f in cat.features && f.key == key) || (exists c :: c in cat.cases && NamesFeature(cat, c, key))
  }

  /** A new top folder is for a key in use; one that is not blank had no top folder before. */
  predicate TopAskedFor(cat: Catalog, before: seq<Folder>, f: Folder) {
    && f.parentId.None? && f.featureKey.Some? && f.requirementKey.None? && InUse(cat, f.featureKey.value)
    && (f.featureKey.value != "" ==> !HasTopRow(before, f.featureKey.value))
  }

  /** A new subfolder is for one of two or more listed entries of its feature, which asks for its requirement. */
  predicate SubAskedFor(cat: Catalog, f: Folder) {
    && f.parentId.Some? && f.featureKey.Some? && f.requirementKey.Some? && |cat.ReqsOf(f.featureKey.value)| >= 2
    && Asked(cat, f.featureKey.value, f.requirementKey.value)
  }

  lemma {:induction false} NewTopsAskedFor(cat: Catalog, before: seq<Folder>, after: seq<Folder>, f: Folder)
    requires TopsAdded(cat, before, after) && f in after && f !in before
    ensures TopAskedFor(cat, before, f)
    decreases |after|
  {
    var n := |after| - 1;
    assert after == after[..n] + [after[n]];
    if f in after[..n] {
      NewTopsAskedFor(cat, before, after[..n], f);
    } else {
      var key := f.featureKey.value;
      assert cat.Needed(key);
      if t :| t in before && IsTopRow(t, key) {
        assert t in after[..n] && IsTop(t, key);
      }
    }
  }

  lemma {:induction false} NewSubsAskedFor(cat: Catalog, before: seq<Folder>, after: seq<Folder>, f: Folder)
    requires SubsAdded(cat, before, after) && f in after && f !in before
    ensures SubAskedFor(cat, f)
    decreases |after|
  {
    var n := |after| - 1;
    assert after == after[..n] + [after[n]];
    if f in after[..n] {
      NewSubsAskedFor(cat, before, after[..n], f);
    } else {
      ListedRequirements(cat, f.featureKey.value);
      assert HasKey(cat.ReqsOf(f.featureKey.value), f.requirementKey.value);
    }
  }

  /** Every row a run adds is asked for. */
  lemma NewRowsAskedFor(cat: Catalog, before: Rows, after: Rows, again: seq<Folder>, writes: nat, f: Folder)
    requires OneRun(cat, before, after, again, writes) && f in after.folders && f !in before.folders
    ensures TopAskedFor(cat, before.folders, f) || SubAskedFor(cat, f)
  {
    var middle :| TopsAdded(cat, before.folders, middle) && SubsAdded(cat, middle, after.folders);
    if f in middle {
      NewTopsAskedFor(cat, before.folders, middle, f);
    } else {
      NewSubsAskedFor(cat, middle, after.folders, f);
    }
  }

  // ---------------------------------------------------------------------------------------
  // Two requirements, two subfolders
  // ---------------------------------------------------------------------------------------

  lemma {:induction false} NewTopsAreTops(cat: Catalog, before: seq<Folder>, after: seq<Folder>)
    requires TopsAdded(cat, before, after)
    ensures forall f :: f in after && f !in before ==> f.parentId.None?
    decreases |after|
  {
    if before != after {
      assert after == after[..|after| - 1] + [after[|after| - 1]];
      NewTopsAreTops(cat, before, after[..|after| - 1]);
    }
  }

  /** A subfolder a run makes carries the feature key of the top folder it is under. */
  lemma {:induction false} NewSubsCarryKeys(cat: Catalog, middle: seq<Folder>, now: seq<Folder>, f: Folder)
    requires SubsAdded(cat, middle, now) && f in now && f !in middle
    ensures f.featureKey.Some? && LastTop(now, f.featureKey.value).Some?
    ensures f.parentId == Some(LastTop(now, f.featureKey.value).value.id)
    decreases |now|
  {
    var before, last := now[..|now| - 1], now[|now| - 1];
    assert now == before + [last];
    if f in before {
      NewSubsCarryKeys(cat, middle, before, f);
    }
    LastTopSnoc(before, last, f.featureKey.value);
  }

  lemma SameRow(rows: seq<Folder>, f: Folder, g: Folder)
    requires ForestRows(rows) && f in rows && g in rows && f.id == g.id
    ensures f == g
  {
    var i :| 0 <= i < |rows| && rows[i] == f;
    var j :| 0 <= j < |rows| && rows[j] == g;
  }

  /** The folders for this requirement that were under the feature's top folders carry its key. */
  predicate KeysAgree(rows: seq<Folder>, key: string, rk: string) {
    forall f :: f in rows && IsUnder(rows, f, key) && f.requirementKey == Some(rk) ==> f.featureKey == Some(key)
  }

  lemma UnderIsOwn(cat: Catalog, before: seq<Folder>, rows: seq<Folder>, f: Folder, key: string, rk: string)
    requires OnlyWarranted(cat, before, rows) && ForestRows(before) && ForestRows(rows) && KeysAgree(before, key, rk)
    requires f in rows && f.requirementKey == Some(rk) && LastTop(rows, key).Some?
    requires f.parentId == Some(LastTop(rows, key).value.id)
    ensures f.featureKey == Some(key)
  {
    var t := LastTop(rows, key).value;
    var middle :| TopsAdded(cat, before, middle) && SubsAdded(cat, middle, rows);
    if f in before {
      var p :| p in before && p.id == f.parentId.value && p.parentId.None?;
      SameRow(rows, p, t);
      assert IsTopRow(p, key) && IsUnder(before, f, key);
    } else if f in middle {
      NewTopsAreTops(cat, before, middle);
      assert false;
    } else {
      NewSubsCarryKeys(cat, middle, rows, f);
      SameRow(rows, LastTop(rows, f.featureKey.value).value, t);
    }
  }

  /**
   A case without a folder whose feature has another requirement besides the one it names, listed by
   a row or by any case, lies after one run in the subfolder of its own feature and requirement.
   */
  lemma TwoRequirementsSplit(cat: Catalog, before: Rows, after: Rows, again: seq<Folder>, writes: nat, i: nat,
                             key: string, rk: string, other: string)
    requires OneRun(cat, before, after, again, writes) && ForestRows(before.folders) && ForestRows(after.folders)
    requires i < |cat.cases| && before.folderOf[i].None? && NamesBoth(cat, cat.cases[i], key, rk)
    requires Asked(cat, key, other) && other != rk
    requires KeysAgree(before.folders, key, rk) && NoClash(after.folders, key)
    ensures LiesIn(after.folders, after.folderOf[i], key, Some(rk))
  {
    assert cat.cases[i] in cat.cases;
    FoldersAfterRun(cat, before, after, again, writes);
    var f := SubUnderTop(cat, after.folders, key, rk, other);
    UnderIsOwn(cat, before.folders, after.folders, f, key, rk);
    assert IsSubRow(f, key, rk);
    CasesAfterRun(cat, before, after, again, writes, i, key);
  }
}
