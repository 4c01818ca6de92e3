/** Choosing the cases of the next automation run from the catalogue, with a model's help or without. */
module Roster {
  import opened Common

  type Id = string

  datatype Priority = High | Medium | Other

  datatype Case = Case(id: Id, priority: Priority)

  /** One entry of the model's answer; an entry that is no object makes the source throw. */
  datatype Row = Null | Row(id: Option<Id>, why: Option<string>)

  /** What the model's answer parses to; a failed call or an unreadable answer throws. */
  datatype Answer = Thrown | Parsed(rows: seq<Row>)

  datatype Strategy = Sprint | Kanban

  datatype Proposal = BlankSource | NoReadyCases | Proposal(selectedIds: seq<Id>, reasons: map<Id, string>)

  function Rank(c: Case): nat {
    match c.priority
    case High => 0
    case Medium => 1
    case Other => 2
  }

  /** High comes before medium, and medium before every other priority. */
  predicate Outranks(c: Case, d: Case) {
    (c.priority == High && d.priority != High) || (c.priority == Medium && d.priority == Other)
  }

  function Ids(cases: seq<Case>): (ids: seq<Id>)
    ensures |ids| == |cases| && forall i :: 0 <= i < |cases| ==> ids[i] == cases[i].id
  {
    seq(|cases|, i requires 0 <= i < |cases| => cases[i].id)
  }

  /** The work-in-progress limit: eight by default, and between one and two hundred. */
  function Wip(limit: Option<int>): (wip: nat)
    ensures 1 <= wip <= 200
    ensures limit.None? ==> wip == 8
    ensures limit.Some? && 1 <= limit.value <= 200 ==> wip == limit.value
    ensures limit.Some? && limit.value < 1 ==> wip == 1
    ensures limit.Some? && limit.value > 200 ==> wip == 200
  {
    var asked := limit.GetOr(8);
    if asked < 1 then 1 else if asked > 200 then 200 else asked
  }

  function Cut(strategy: Strategy, limit: Option<int>, ids: seq<Id>): (r: seq<Id>)
    ensures r <= ids && (ids != [] ==> r != [])
    ensures strategy.Kanban? ==> |r| <= Wip(limit)
    ensures r != ids ==> strategy.Kanban? && |r| == Wip(limit)
  {
    if strategy.Kanban? && |ids| > Wip(limit) then ids[..Wip(limit)] else ids
  }

  // ---------------------------------------------------------------------------------------
  // The model's picks
  // ---------------------------------------------------------------------------------------

  predicate Readable(answer: Answer) {
    answer.Parsed? && forall row :: row in answer.rows ==> row.Row?
  }

  /** An entry that names a case of the catalogue. */
  predicate Names(row: Row, catalog: seq<Id>, id: Id) {
    row.Row? && row.id == Some(id) && id != "" && id in catalog
  }

  /** The catalogue cases the entries name, each where it is named first. */
  function Picked(rows: seq<Row>, catalog: seq<Id>): seq<Id> {
    if rows == [] then []
    else WithRow(Picked(rows[..|rows| - 1], catalog), rows[|rows| - 1], catalog)
  }

  function WithRow(picked: seq<Id>, row: Row, catalog: seq<Id>): seq<Id> {
    if row.Row? && row.id.Some? && Names(row, catalog, row.id.value) && row.id.value !in picked
    then picked + [row.id.value] else picked
  }

  /** The picks are the catalogue cases named, once each, and a longer answer only adds at the end. */
  lemma {:induction false} PickedFacts(rows: seq<Row>, catalog: seq<Id>, i: nat)
    requires i <= |rows|
    ensures NoDuplicates(Picked(rows, catalog))
    ensures forall id :: id in Picked(rows, catalog) <==> exists row :: row in rows && Names(row, catalog, id)
    ensures Picked(rows[..i], catalog) <= Picked(rows, catalog)
  {
    if rows != [] {
      var n := |rows| - 1;
      var last := rows[n];
      assert rows == rows[..n] + [last];
      PickedFacts(rows[..n], catalog, if i <= n then i else n);
      if i <= n {
        assert rows[..n][..i] == rows[..i];
      } else {
        assert rows[..i] == rows;
      }
    } else {
      assert rows[..i] == rows;
    }
  }

  // ---------------------------------------------------------------------------------------
  // The fallback
  // ---------------------------------------------------------------------------------------

  /** The source sorts with the platform's stable sort: the one stable order by rank. */
  function StableByRank(pool: seq<Case>): seq<Case> {
    OfRank(pool, 0) + OfRank(pool, 1) + OfRank(pool, 2)
  }

  function InRank(rank: nat): Case -> bool {
    (c: Case) => Rank(c) == rank
  }

  function OfRank(pool: seq<Case>, rank: nat): seq<Case> {
    Filter(pool, InRank(rank))
  }

  lemma {:induction false} RanksPartition(pool: seq<Case>)
    ensures multiset(OfRank(pool, 0)) + multiset(OfRank(pool, 1)) + multiset(OfRank(pool, 2)) == multiset(pool)
  {
    if pool != [] {
      assert pool == [pool[0]] + pool[1..];
      RanksPartition(pool[1..]);
    }
  }

  lemma SortIsPermutation(pool: seq<Case>)
    ensures multiset(StableByRank(pool)) == multiset(pool) && |StableByRank(pool)| == |pool|
  {
    RanksPartition(pool);
    PermutationFacts(pool, StableByRank(pool));
  }

  lemma RanksOfRank(pool: seq<Case>, rank: nat)
    ensures forall i :: 0 <= i < |OfRank(pool, rank)| ==> Rank(OfRank(pool, rank)[i]) == rank
  {
    forall i | 0 <= i < |OfRank(pool, rank)|
      ensures Rank(OfRank(pool, rank)[i]) == rank
    {
      assert OfRank(pool, rank)[i] in OfRank(pool, rank);
    }
  }

  lemma SortIsOrdered(pool: seq<Case>, i: nat, j: nat)
    requires i <= j < |StableByRank(pool)|
    ensures Rank(StableByRank(pool)[i]) <= Rank(StableByRank(pool)[j])
  {
    RanksOfRank(pool, 0);
    RanksOfRank(pool, 1);
    RanksOfRank(pool, 2);
  }

  lemma {:induction false} OneRank(pool: seq<Case>, rank: nat, asked: nat)
    requires forall i :: 0 <= i < |pool| ==> Rank(pool[i]) == rank
    ensures OfRank(pool, asked) == if rank == asked then pool else []
  {
    if pool != [] {
      OneRank(pool[1..], rank, asked);
      assert pool == [pool[0]] + pool[1..];
    }
  }

  /** The catalogue's order is kept inside every rank. */
  lemma SortIsStable(pool: seq<Case>, rank: nat)
    requires rank <= 2
    ensures OfRank(StableByRank(pool), rank) == OfRank(pool, rank)
  {
    var (a, b, c) := (OfRank(pool, 0), OfRank(pool, 1), OfRank(pool, 2));
    FilterAppend(a + b, c, InRank(rank));
    FilterAppend(a, b, InRank(rank));
    RanksOfRank(pool, 0);
    OneRank(a, 0, rank);
    RanksOfRank(pool, 1);
    OneRank(b, 1, rank);
    RanksOfRank(pool, 2);
    OneRank(c, 2, rank);
  }

  function OfPriority(cases: seq<Case>, p: Priority): seq<Case> {
    Filter(cases, (c: Case) => c.priority == p)
  }

  lemma {:induction false} RankIsPriority(pool: seq<Case>, p: Priority)
    ensures OfPriority(pool, p) == OfRank(pool, match p case High => 0 case Medium => 1 case Other => 2)
  {
    if pool != [] {
      RankIsPriority(pool[1..], p);
    }
  }

  /** The fallback order puts no case after one it outranks, and keeps the catalogue's order among equals. */
  lemma FallbackOrder(pool: seq<Case>)
    ensures var order := StableByRank(pool);
            && |order| == |pool|
            && (forall i, j :: 0 <= i < j < |order| ==> !Outranks(order[j], order[i]))
            && (forall p :: OfPriority(order, p) == OfPriority(pool, p))
  {
    var order := StableByRank(pool);
    SortIsPermutation(pool);
    forall i, j | 0 <= i < j < |order|
      ensures !Outranks(order[j], order[i])
    {
      SortIsOrdered(pool, i, j);
    }
    forall p
      ensures OfPriority(order, p) == OfPriority(pool, p)
    {
      RankIsPriority(order, p);
      RankIsPriority(pool, p);
      SortIsStable(pool, match p case High => 0 case Medium => 1 case Other => 2);
    }
  }

  /** No other order is sorted by rank and keeps the catalogue's order inside every rank. */
  lemma StableOrderIsUnique(pool: seq<Case>, order: seq<Case>)
    requires forall i, j :: 0 <= i <= j < |order| ==> Rank(order[i]) <= Rank(order[j])
    requires forall rank :: 0 <= rank <= 2 ==> OfRank(order, rank) == OfRank(pool, rank)
    ensures order == StableByRank(pool)
  {
    SortedIsItsRanks(order);
  }

  lemma {:induction false} SortedIsItsRanks(order: seq<Case>)
    requires forall i, j :: 0 <= i <= j < |order| ==> Rank(order[i]) <= Rank(order[j])
    ensures order == StableByRank(order)
  {
    if order != [] {
      var c, later := order[0], order[1..];
      SortedIsItsRanks(later);
      forall rank | 0 <= rank < Rank(c)
        ensures OfRank(later, rank) == []
      {
        NoneOfRank(later, rank, Rank(c));
      }
      LowestFirst(c, later);
      assert order == [c] + later;
    }
  }

  lemma {:induction false} NoneOfRank(pool: seq<Case>, rank: nat, least: nat)
    requires rank < least && forall i :: 0 <= i < |pool| ==> least <= Rank(pool[i])
    ensures OfRank(pool, rank) == []
  {
    if pool != [] {
      NoneOfRank(pool[1..], rank, least);
    }
  }

  lemma OfRankCons(c: Case, later: seq<Case>, rank: nat)
    ensures OfRank([c] + later, rank) == (if Rank(c) == rank then [c] else []) + OfRank(later, rank)
  {
    assert ([c] + later)[1..] == later;
  }

  lemma LowestFirst(c: Case, later: seq<Case>)
    requires forall rank :: 0 <= rank < Rank(c) ==> OfRank(later, rank) == []
    ensures StableByRank([c] + later) == [c] + StableByRank(later)
  {
    OfRankCons(c, later, 0);
    OfRankCons(c, later, 1);
    OfRankCons(c, later, 2);
    PutFirst(c, Rank(c), OfRank(later, 0), OfRank(later, 1), OfRank(later, 2));
  }

  /** Put before its own rank, with nothing of a lower one, the case comes first. */
  lemma PutFirst(c: Case, rank: nat, high: seq<Case>, medium: seq<Case>, other: seq<Case>)
    requires rank <= 2 && (rank > 0 ==> high == []) && (rank > 1 ==> medium == [])
    ensures ((if rank == 0 then [c] else []) + high) + ((if rank == 1 then [c] else []) + medium) +
            ((if rank == 2 then [c] else []) + other) == [c] + (high + medium + other)
  {
  }

  /** The fallback chooses among the cases that match the requirements, or among all if none does. */
  function Pool(cases: seq<Case>, matches: Case -> bool): (pool: seq<Case>)
    ensures cases != [] ==> pool != []
    ensures forall c :: c in pool ==> c in cases
    ensures (exists c :: c in cases && matches(c)) ==> forall c :: c in pool <==> c in cases && matches(c)
    ensures (forall c :: c in cases ==> !matches(c)) ==> pool == cases
  {
    var matched := Filter(cases, matches);
    assert matched != [] ==> matched[0] in matched;
    if matched != [] then matched else cases
  }

  predicate UniqueIds(cases: seq<Case>) {
    NoDuplicates(Ids(cases))
  }

  /** Nobody left out outranks a chosen case, and the chosen ones are in stable order. */
  ghost predicate BestFirst(pool: seq<Case>, chosen: seq<Id>) {
    && chosen <= Ids(StableByRank(pool))
    && (forall c, d :: c in pool && d in pool && c.id !in chosen && d.id in chosen ==> !Outranks(c, d))
  }

  lemma CutIsBestFirst(pool: seq<Case>, chosen: seq<Id>)
    requires UniqueIds(pool) && chosen <= Ids(StableByRank(pool))
    ensures BestFirst(pool, chosen)
  {
    var sorted := StableByRank(pool);
    SortIsPermutation(pool);
    forall c, d | c in pool && d in pool && c.id !in chosen && d.id in chosen
      ensures !Outranks(c, d)
    {
      var i := PlaceOf(pool, c);
      var m :| 0 <= m < |chosen| && chosen[m] == d.id;
      assert sorted[m] in multiset(sorted);
      SameIdSameCase(pool, sorted[m], d);
      assert Ids(sorted)[i] == c.id;
      SortIsOrdered(pool, m, i);
    }
  }

  lemma PlaceOf(pool: seq<Case>, c: Case) returns (i: nat)
    requires c in pool
    ensures i < |StableByRank(pool)| && StableByRank(pool)[i] == c
  {
    SortIsPermutation(pool);
    assert c in multiset(StableByRank(pool));
    i :| 0 <= i < |StableByRank(pool)| && StableByRank(pool)[i] == c;
  }

  lemma SameIdSameCase(pool: seq<Case>, c: Case, d: Case)
    requires UniqueIds(pool) && c in pool && d in pool && c.id == d.id
    ensures c == d
  {
    var i :| 0 <= i < |pool| && pool[i] == c;
    var j :| 0 <= j < |pool| && pool[j] == d;
    assert Ids(pool)[i] == Ids(pool)[j];
  }

  lemma ChosenAreUnique(pool: seq<Case>)
    requires UniqueIds(pool)
    ensures NoDuplicates(Ids(StableByRank(pool)))
  {
    var sorted := StableByRank(pool);
    SortIsPermutation(pool);
    assert NoDuplicates(pool) by {
      assert forall i, j :: 0 <= i < j < |pool| ==> Ids(pool)[i] != Ids(pool)[j];
    }
    PermutationFacts(pool, sorted);
    forall i, j | 0 <= i < j < |sorted|
      ensures Ids(sorted)[i] != Ids(sorted)[j]
    {
      if sorted[i].id == sorted[j].id {
        assert sorted[i] in sorted && sorted[j] in sorted;
        SameIdSameCase(pool, sorted[i], sorted[j]);
      }
    }
  }

  lemma {:induction false} FilterKeepsUnique(cases: seq<Case>, keep: Case -> bool)
    requires UniqueIds(cases)
    ensures UniqueIds(Filter(cases, keep))
  {
    if cases != [] {
      var c, later := cases[0], cases[1..];
      assert Ids(later) == Ids(cases)[1..];
      FilterKeepsUnique(later, keep);
      var kept := Filter(later, keep);
      forall i | 0 <= i < |kept|
        ensures kept[i].id != c.id
      {
        assert kept[i] in later;
        var k :| 0 <= k < |later| && later[k] == kept[i];
        assert Ids(cases)[k + 1] == kept[i].id;
      }
    }
  }

  lemma CutFacts(all: seq<Id>, cut: seq<Id>)
    requires cut <= all
    ensures NoDuplicates(all) ==> NoDuplicates(cut)
    ensures forall id :: id in cut ==> id in all
  {
  }

  /** If any case matches the requirements, only such cases are chosen. */
  predicate OnlyMatching(cases: seq<Case>, matches: Case -> bool, chosen: seq<Id>) {
    (exists c :: c in cases && matches(c)) ==> forall id :: id in chosen ==> Fits(cases, matches, id)
  }

  predicate Fits(cases: seq<Case>, matches: Case -> bool, id: Id) {
    exists c :: c in cases && matches(c) && c.id == id
  }

  lemma CutMatches(cases: seq<Case>, matches: Case -> bool, cut: seq<Id>)
    requires cut <= Ids(StableByRank(Pool(cases, matches)))
    ensures OnlyMatching(cases, matches, cut)
  {
    var pool := Pool(cases, matches);
    SortIsPermutation(pool);
    if exists c :: c in cases && matches(c) {
      forall id | id in cut
        ensures Fits(cases, matches, id)
      {
        var i :| 0 <= i < |cut| && cut[i] == id;
        var c := StableByRank(pool)[i];
        assert c in multiset(pool) && c in pool && Ids(StableByRank(pool))[i] == c.id;
      }
    }
  }

  /** The fallback order lists pool cases, each once, and any cut of it leaves out no better case. */
  lemma FallbackFacts(cases: seq<Case>, matches: Case -> bool, cut: seq<Id>)
    requires cases != [] && cut <= Ids(StableByRank(Pool(cases, matches)))
    ensures StableByRank(Pool(cases, matches)) != []
    ensures forall id :: id in Ids(StableByRank(Pool(cases, matches))) ==> id in Ids(cases)
    ensures UniqueIds(cases) ==>
              NoDuplicates(Ids(StableByRank(Pool(cases, matches)))) && BestFirst(Pool(cases, matches), cut)
  {
    var pool := Pool(cases, matches);
    SortIsPermutation(pool);
    forall k | 0 <= k < |pool|
      ensures StableByRank(pool)[k].id in Ids(cases)
    {
      assert StableByRank(pool)[k] in multiset(pool);
      assert StableByRank(pool)[k] in cases;
      var m :| 0 <= m < |cases| && cases[m] == StableByRank(pool)[k];
      assert Ids(cases)[m] == StableByRank(pool)[k].id;
    }
    if UniqueIds(cases) {
      FilterKeepsUnique(cases, matches);
      ChosenAreUnique(pool);
      CutIsBestFirst(pool, cut);
    }
  }

  // ---------------------------------------------------------------------------------------
  // The proposal
  // ---------------------------------------------------------------------------------------

  /** The first entry that names the case. */
  predicate FirstNaming(rows: seq<Row>, catalog: seq<Id>, id: Id, j: nat) {
    j < |rows| && Names(rows[j], catalog, id) && forall i :: 0 <= i < j ==> !Names(rows[i], catalog, id)
  }

  /** The reason an entry gives, cut to 240 characters. */
  predicate GivesReason(row: Row, text: string) {
    row.Row? && var why := row.why.GetOr("Matches requirements");
    text <= why && |text| == if |why| < 240 then |why| else 240
  }

  ghost predicate ReasonFromAnswer(answer: Answer, catalog: seq<Id>, id: Id, text: string) {
    answer.Parsed? && exists j: nat :: FirstNaming(answer.rows, catalog, id, j) && GivesReason(answer.rows[j], text)
  }

  lemma FirstNamed(rows: seq<Row>, catalog: seq<Id>, i: nat, id: Id)
    requires i < |rows| && Names(rows[i], catalog, id) && id !in Picked(rows[..i], catalog)
    ensures FirstNaming(rows, catalog, id, i)
  {
    PickedFacts(rows[..i], catalog, 0);
    forall j | 0 <= j < i
      ensures !Names(rows[j], catalog, id)
    {
      assert rows[j] in rows[..i];
    }
  }

  ghost predicate AllReasoned(answer: Answer, catalog: seq<Id>, reasons: map<Id, string>) {
    forall id :: id in reasons ==> ReasonFromAnswer(answer, catalog, id, reasons[id])
  }

  lemma OneMoreReason(answer: Answer, catalog: seq<Id>, reasons: map<Id, string>, i: nat, id: Id, text: string)
    requires answer.Parsed? && i < |answer.rows| && AllReasoned(answer, catalog, reasons)
    requires Names(answer.rows[i], catalog, id) && id !in Picked(answer.rows[..i], catalog)
    requires GivesReason(answer.rows[i], text)
    ensures AllReasoned(answer, catalog, reasons[id := text])
  {
    FirstNamed(answer.rows, catalog, i, id);
  }

  const LIBRARY: string := "Included from Ready library"

  /** The fallback keeps a reason that an answer gave before it broke off, unless it is blank. */
  ghost predicate FallbackReason(answer: Answer, catalog: seq<Id>, id: Id, text: string) {
    text == LIBRARY || (!Readable(answer) && text != "" && ReasonFromAnswer(answer, catalog, id, text))
  }

  /** Reads the model's answer; an entry that is no object throws away the picks but not the reasons. */
  method ReadAnswer(answer: Answer, catalog: seq<Id>) returns (ids: seq<Id>, reasons: map<Id, string>)
    ensures ids == if Readable(answer) then Picked(answer.rows, catalog) else []
    ensures forall id :: id in ids ==> id in reasons
    ensures AllReasoned(answer, catalog, reasons)
    ensures Readable(answer) ==> forall id :: id in reasons ==> id in ids
  {
    ids, reasons := [], map[];
    if answer.Thrown? {
      return;
    }
    for i := 0 to |answer.rows|
      invariant ids == Picked(answer.rows[..i], catalog)
      invariant forall id :: id in ids ==> id in reasons
      invariant forall j :: 0 <= j < i ==> answer.rows[j].Row?
      invariant forall id :: id in reasons ==> id in ids
      invariant AllReasoned(answer, catalog, reasons)
    {
      var row := answer.rows[i];
      assert answer.rows[..i + 1][..i] == answer.rows[..i];
      if row.Null? {
        assert row in answer.rows;
        return [], reasons;
      }
      if row.id.Some? && row.id.value != "" && row.id.value in catalog && row.id.value !in ids {
        var why := row.why.GetOr("Matches requirements");
        var text := if |why| > 240 then why[..240] else why;
        OneMoreReason(answer, catalog, reasons, i, row.id.value, text);
        ids := ids + [row.id.value];
        reasons := reasons[row.id.value := text];
      }
    }
    assert answer.rows[..|answer.rows|] == answer.rows;
  }

  /** `proposeRunCases`. The model's picks when it makes any, and otherwise the best of the pool. */
  method ProposeRunCases(blank: bool, strategy: Strategy, limit: Option<int>, cases: seq<Case>, answer: Answer,
                         matches: Case -> bool) returns (r: Proposal)
    ensures r.BlankSource? <==> blank
    ensures r.NoReadyCases? <==> !blank && cases == []
    ensures r.Proposal? ==> r.selectedIds != []
    ensures r.Proposal? ==> forall id :: id in r.selectedIds ==> id in Ids(cases) && id in r.reasons
    ensures r.Proposal? && strategy.Kanban? ==> |r.selectedIds| <= Wip(limit) <= 200
    ensures r.Proposal? && strategy.Kanban? && limit.None? ==> |r.selectedIds| <= 8
    ensures r.Proposal? && strategy.Kanban? && limit.Some? && limit.value >= 1 ==> |r.selectedIds| <= limit.value
    ensures r.Proposal? && UniqueIds(cases) ==> NoDuplicates(r.selectedIds)
    ensures r.Proposal? && Readable(answer) && Picked(answer.rows, Ids(cases)) != [] ==>
              && r.selectedIds == Cut(strategy, limit, Picked(answer.rows, Ids(cases)))
              && forall id :: id in r.selectedIds ==> ReasonFromAnswer(answer, Ids(cases), id, r.reasons[id])
    ensures r.Proposal? && !(Readable(answer) && Picked(answer.rows, Ids(cases)) != []) && UniqueIds(cases) ==>
              && r.selectedIds == Cut(strategy, limit, Ids(StableByRank(Pool(cases, matches))))
              && BestFirst(Pool(cases, matches), r.selectedIds)
              && OnlyMatching(cases, matches, r.selectedIds)
    ensures r.Proposal? && !(Readable(answer) && Picked(answer.rows, Ids(cases)) != []) ==>
              forall id :: id in r.selectedIds ==> FallbackReason(answer, Ids(cases), id, r.reasons[id])
  {
    if blank { return BlankSource; }
    if |cases| == 0 { return NoReadyCases; }
    var selectedIds, reasons := ReadAnswer(answer, Ids(cases));
    if Readable(answer) {
      PickedFacts(answer.rows, Ids(cases), 0);
    }
    if |selectedIds| == 0 {
      var pool := Pool(cases, matches);
      selectedIds := Ids(StableByRank(pool));
      reasons := FillReasons(selectedIds, reasons);
      FallbackFacts(cases, matches, Cut(strategy, limit, selectedIds));
      CutMatches(cases, matches, Cut(strategy, limit, selectedIds));
    }
    ghost var all := selectedIds;
    selectedIds := Cut(strategy, limit, selectedIds);
    CutFacts(all, selectedIds);
    r := Proposal(selectedIds, reasons);
  }

  method FillReasons(ids: seq<Id>, before: map<Id, string>) returns (reasons: map<Id, string>)
    ensures forall id :: id in ids ==> id in reasons
    ensures forall id :: id in before && before[id] != "" ==> id in reasons && reasons[id] == before[id]
    ensures forall id :: id in ids && (id !in before || before[id] == "") ==>
              reasons[id] == LIBRARY
  {
    reasons := before;
    for i := 0 to |ids|
      invariant forall j :: 0 <= j < i ==> ids[j] in reasons
      invariant forall id :: id in before && before[id] != "" ==> id in reasons && reasons[id] == before[id]
      invariant forall id :: (id in reasons <==> id in before || id in ids[..i])
      invariant forall id :: id in ids[..i] && (id !in before || before[id] == "") ==>
                  reasons[id] == LIBRARY
      invariant forall id :: id in before && id !in ids[..i] ==> reasons[id] == before[id]
    {
      assert ids[..i + 1] == ids[..i] + [ids[i]];
      if ids[i] !in reasons || reasons[ids[i]] == "" {
        reasons := reasons[ids[i] := LIBRARY];
      }
    }
  }
}
