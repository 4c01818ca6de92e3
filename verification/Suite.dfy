/** Running the manual suite, running its failures again, and the totals that are reported. */
module Suite {
  import opened Common

  type Id = string

  /**
   What happens to one case: whether its steps run through, and whether each write and event that
   follows succeeds. The failure fields matter only when the case is handled as failed.
   */
  datatype Happening = Happening(stepsRun: bool, passSaved: bool, passAnnounced: bool, failSaved: bool,
                                 failAnnounced: bool)

  datatype Result = Result(testCaseId: Id, passed: bool)

  datatype Run = Run(passed: nat, failed: nat, failures: seq<Id>)

  predicate Passes(h: Happening) {
    h.stepsRun && h.passSaved
  }

  /** Anything that goes wrong, announcing a pass included, is handled as a failure of the case. */
  predicate Fails(h: Happening) {
    !(Passes(h) && h.passAnnounced)
  }

  /** A pass that could not be announced is counted as a pass and as a failure. */
  predicate CountsTwice(h: Happening) {
    Passes(h) && Fails(h)
  }

  /** A failure that cannot be saved or announced ends the execution. */
  predicate Aborts(h: Happening) {
    Fails(h) && !(h.failSaved && h.failAnnounced)
  }

  function Count(hs: seq<Happening>, p: Happening -> bool): (n: nat)
    ensures n <= |hs|
  {
    if hs == [] then 0 else Count(hs[..|hs| - 1], p) + (if p(hs[|hs| - 1]) then 1 else 0)
  }

  function FailingIds(cases: seq<Id>, hs: seq<Happening>): (ids: seq<Id>)
    requires |cases| == |hs|
    ensures |ids| == Count(hs, Fails)
  {
    if cases == [] then []
    else
      var n := |cases| - 1;
      FailingIds(cases[..n], hs[..n]) + (if Fails(hs[n]) then [cases[n]] else [])
  }

  function ResultsOf(id: Id, h: Happening): seq<Result> {
    (if Passes(h) then [Result(id, true)] else []) + (if Fails(h) && h.failSaved then [Result(id, false)] else [])
  }

  function Results(cases: seq<Id>, hs: seq<Happening>): seq<Result>
    requires |cases| == |hs|
  {
    if cases == [] then []
    else
      var n := |cases| - 1;
      Results(cases[..n], hs[..n]) + ResultsOf(cases[n], hs[n])
  }

  /** Every case is counted once, and once more if it counts twice. */
  lemma {:induction false} Conservation(hs: seq<Happening>)
    ensures Count(hs, Passes) + Count(hs, Fails) == |hs| + Count(hs, CountsTwice)
  {
    if hs != [] {
      Conservation(hs[..|hs| - 1]);
    }
  }

  lemma {:induction false} FailingMember(cases: seq<Id>, hs: seq<Happening>, i: nat)
    requires |cases| == |hs| && NoDuplicates(cases) && i < |cases|
    ensures cases[i] in FailingIds(cases, hs) <==> Fails(hs[i])
  {
    var n := |cases| - 1;
    FailingAmong(cases[..n], hs[..n]);
    if i < n {
      FailingMember(cases[..n], hs[..n], i);
    }
  }

  lemma {:induction false} FailingAmong(cases: seq<Id>, hs: seq<Happening>)
    requires |cases| == |hs|
    ensures forall id :: id in FailingIds(cases, hs) ==> id in cases
  {
    if cases != [] {
      FailingAmong(cases[..|cases| - 1], hs[..|cases| - 1]);
    }
  }

  lemma {:induction false} FilterFailing(cases: seq<Id>, hs: seq<Happening>, keep: Id -> bool)
    requires |cases| == |hs| && forall i :: 0 <= i < |cases| ==> (keep(cases[i]) <==> Fails(hs[i]))
    ensures Filter(cases, keep) == FailingIds(cases, hs)
  {
    if cases != [] {
      var n := |cases| - 1;
      assert cases == cases[..n] + [cases[n]];
      FilterAppend(cases[..n], [cases[n]], keep);
      FilterOne(cases[n], keep);
      FilterFailing(cases[..n], hs[..n], keep);
    }
  }

  /** The cases looked up again by the ids of the failures are the failing cases, in the suite's order. */
  lemma RetestIsExactlyTheFailures(cases: seq<Id>, hs: seq<Happening>)
    requires |cases| == |hs| && NoDuplicates(cases)
    ensures Filter(cases, (id: Id) => id in FailingIds(cases, hs)) == FailingIds(cases, hs)
    ensures NoDuplicates(FailingIds(cases, hs))
  {
    var keep := (id: Id) => id in FailingIds(cases, hs);
    forall i | 0 <= i < |cases|
      ensures keep(cases[i]) <==> Fails(hs[i])
    {
      FailingMember(cases, hs, i);
    }
    FilterFailing(cases, hs, keep);
    FailingUnique(cases, hs);
  }

  lemma {:induction false} FailingUnique(cases: seq<Id>, hs: seq<Happening>)
    requires |cases| == |hs| && NoDuplicates(cases)
    ensures NoDuplicates(FailingIds(cases, hs))
  {
    if cases != [] {
      var n := |cases| - 1;
      FailingUnique(cases[..n], hs[..n]);
      FailingAmong(cases[..n], hs[..n]);
      var before := FailingIds(cases[..n], hs[..n]);
      assert cases[n] !in before;
      assert FailingIds(cases, hs) == before || FailingIds(cases, hs) == before + [cases[n]];
    }
  }

  /**
   Which verdicts a case ends with: a pass row just when its steps ran and the pass was saved, and,
   unless that was announced too, a place among the failures and a failure row.
   */
  predicate Judged(id: Id, h: Happening, failures: seq<Id>, rows: seq<Result>) {
    (id in failures <==> !(h.stepsRun && h.passSaved && h.passAnnounced)) && Recorded(id, h, rows)
  }

  predicate AllJudged(cases: seq<Id>, hs: seq<Happening>, failures: seq<Id>, rows: seq<Result>)
    requires |cases| == |hs|
  {
    forall i :: 0 <= i < |cases| ==> Judged(cases[i], hs[i], failures, rows)
  }

  /** Each case passes and says so, or its failure is saved and announced. */
  predicate NoneEscapes(hs: seq<Happening>) {
    forall h :: h in hs ==> (h.stepsRun && h.passSaved && h.passAnnounced) || (h.failSaved && h.failAnnounced)
  }

  predicate Recorded(id: Id, h: Happening, rows: seq<Result>) {
    && (Result(id, true) in rows <==> h.stepsRun && h.passSaved)
    && (Result(id, false) in rows <==> !(h.stepsRun && h.passSaved && h.passAnnounced) && h.failSaved)
  }

  lemma RowsOfOne(id: Id, h: Happening, row: Result)
    ensures row in ResultsOf(id, h) <==>
            row.testCaseId == id && if row.passed then Passes(h) else Fails(h) && h.failSaved
  {
  }

  lemma RowsSnoc(cases: seq<Id>, hs: seq<Happening>, row: Result)
    requires |cases| == |hs| > 0
    ensures var n := |cases| - 1;
            row in Results(cases, hs) <==> row in Results(cases[..n], hs[..n]) || row in ResultsOf(cases[n], hs[n])
  {
  }

  lemma {:induction false} ResultsAmong(cases: seq<Id>, hs: seq<Happening>, row: Result)
    requires |cases| == |hs| && row in Results(cases, hs)
    ensures row.testCaseId in cases
  {
    var n := |cases| - 1;
    assert cases == cases[..n] + [cases[n]];
    RowsSnoc(cases, hs, row);
    RowsOfOne(cases[n], hs[n], row);
    if row in Results(cases[..n], hs[..n]) {
      ResultsAmong(cases[..n], hs[..n], row);
    }
  }

  lemma {:induction false} RowsAreCounted(cases: seq<Id>, hs: seq<Happening>)
    requires |cases| == |hs| && forall i :: 0 <= i < |hs| ==> !Aborts(hs[i])
    ensures |Results(cases, hs)| == Count(hs, Passes) + Count(hs, Fails)
  {
    if cases != [] {
      assert !Aborts(hs[|hs| - 1]);
      RowsAreCounted(cases[..|cases| - 1], hs[..|cases| - 1]);
    }
  }

  lemma {:induction false} RowOfCase(cases: seq<Id>, hs: seq<Happening>, i: nat, passed: bool)
    requires |cases| == |hs| && NoDuplicates(cases) && i < |cases|
    ensures Result(cases[i], passed) in Results(cases, hs) <==>
            if passed then Passes(hs[i]) else Fails(hs[i]) && hs[i].failSaved
  {
    var n := |cases| - 1;
    var row := Result(cases[i], passed);
    RowsSnoc(cases, hs, row);
    RowsOfOne(cases[n], hs[n], row);
    if i < n {
      RowOfCase(cases[..n], hs[..n], i, passed);
    } else if row in Results(cases[..n], hs[..n]) {
      ResultsAmong(cases[..n], hs[..n], row);
      assert false;
    }
  }

  /** Every case is judged by what happened to it and to no other. */
  lemma EachIsJudged(cases: seq<Id>, hs: seq<Happening>, i: nat)
    requires |cases| == |hs| && NoDuplicates(cases) && i < |cases|
    ensures Judged(cases[i], hs[i], FailingIds(cases, hs), Results(cases, hs))
  {
    FailingMember(cases, hs, i);
    RowOfCase(cases, hs, i, true);
    RowOfCase(cases, hs, i, false);
  }

  /** In the retest the `i`th failure meets `again(i)`. */
  predicate AllRecorded(failures: seq<Id>, again: nat -> Happening, rows: seq<Result>) {
    forall i :: 0 <= i < |failures| ==> Recorded(failures[i], again(i), rows)
  }

  lemma NothingToRetest(cases: seq<Id>, hs: seq<Happening>, again: nat -> Happening)
    requires |cases| == |hs| && FailingIds(cases, hs) == []
    ensures Retest(cases, hs, again) == [] && NoneEscapes([]) && AllRecorded(FailingIds(cases, hs), again, [])
  {
  }

  /** How the counters of the two runs make up what is reported. */
  lemma ScoresAddUp(passed: nat, failed: nat, total: nat, again: Run, twice: nat, twiceAgain: nat, scores: Scores)
    requires passed + failed == total + twice && again.passed + again.failed == failed + twiceAgain
    requires scores.passed == passed + again.passed && scores.retestFailed == again.failed && scores.total == total
    requires scores.failed == if again.failed != 0 then again.failed else failed
    ensures scores.passed + scores.retestFailed == total + twice + twiceAgain
    ensures scores.passed <= total <==> twice + twiceAgain <= scores.retestFailed
    ensures scores.passed + scores.failed == total <==>
            twice + twiceAgain == 0 && (failed == 0 || scores.retestFailed > 0)
  {
  }

  /** The counters, the failures and the rows after the first `i` cases. */
  ghost predicate SoFar(cases: seq<Id>, hs: seq<Happening>, i: nat, run: Run, before: seq<Result>, now: seq<Result>)
    requires i <= |cases| == |hs|
  {
    && run.passed == Count(hs[..i], Passes) && run.failed == Count(hs[..i], Fails)
    && run.failures == FailingIds(cases[..i], hs[..i])
    && now == before + Results(cases[..i], hs[..i])
  }

  lemma SoFarStep(cases: seq<Id>, hs: seq<Happening>, i: nat, run: Run, before: seq<Result>, now: seq<Result>)
    requires i < |cases| == |hs| && SoFar(cases, hs, i, run, before, now)
    ensures var more := Run(run.passed + (if Passes(hs[i]) then 1 else 0), run.failed + (if Fails(hs[i]) then 1 else 0),
                            run.failures + (if Fails(hs[i]) then [cases[i]] else []));
            SoFar(cases, hs, i + 1, more, before, now + ResultsOf(cases[i], hs[i]))
  {
    assert hs[..i + 1][..i] == hs[..i] && cases[..i + 1][..i] == cases[..i];
  }

  lemma SoFarAll(cases: seq<Id>, hs: seq<Happening>, run: Run, before: seq<Result>, now: seq<Result>)
    requires |cases| == |hs| && SoFar(cases, hs, |cases|, run, before, now)
    ensures run.failures == FailingIds(cases, hs) && run.failed == |run.failures|
    ensures run.passed + run.failed == |cases| + Count(hs, CountsTwice)
    ensures now == before + Results(cases, hs)
  {
    assert hs[..|hs|] == hs && cases[..|cases|] == cases;
    Conservation(hs);
  }

  datatype Scores = Scores(passed: nat, failed: nat, total: nat, retestPassed: nat, retestFailed: nat)

  class Execution {
    var results: seq<Result>

    constructor ()
      ensures results == []
    {
      results := [];
    }

    /** One case: its pass, or whatever went wrong. */
    method RunCase(id: Id, h: Happening) returns (passed: bool, failed: bool, escaped: bool)
      modifies this
      ensures escaped <==> Aborts(h)
      ensures !escaped ==> (passed <==> Passes(h)) && (failed <==> Fails(h))
      ensures !escaped ==> results == old(results) + ResultsOf(id, h)
      ensures old(results) <= results
    {
      passed, failed, escaped := false, false, false;
      var thrown := !h.stepsRun || !h.passSaved;
      if !thrown {
        results := results + [Result(id, true)];
        passed := true;
        thrown := !h.passAnnounced;
      }
      if thrown {
        if !h.failSaved {
          escaped := true;
          return;
        }
        results := results + [Result(id, false)];
        failed := true;
        escaped := !h.failAnnounced;
      }
    }

    /**
     `runManualSuite`; no result when an exception escapes. The failures are the failing cases in
     order, and the counters add up to the cases run plus those counted twice.
     */
    method RunManualSuite(cases: seq<Id>, hs: seq<Happening>, hasUrl: bool) returns (r: Option<Run>)
      requires |cases| == |hs|
      modifies this
      ensures r.Some? <==> hasUrl && NoneEscapes(hs)
      ensures r.Some? ==> r.value.failures == FailingIds(cases, hs) && r.value.failed == |r.value.failures|
      ensures r.Some? ==> r.value.passed + r.value.failed == |cases| + Count(hs, CountsTwice)
      ensures r.Some? ==> results == old(results) + Results(cases, hs)
      ensures old(results) <= results
      ensures r.Some? && NoDuplicates(cases) ==>
                AllJudged(cases, hs, r.value.failures, results[|old(results)|..])
      ensures r.Some? ==> |results| == |old(results)| + r.value.passed + r.value.failed
    {
      if !hasUrl { return None; }
      var passed, failed: nat, failures := 0, 0, [];
      for i := 0 to |cases|
        invariant SoFar(cases, hs, i, Run(passed, failed, failures), old(results), results)
        invariant forall j :: 0 <= j < i ==> !Aborts(hs[j])
      {
        ghost var before := results;
        assert hs[i] in hs;
        var passes, fails, escaped := RunCase(cases[i], hs[i]);
        if escaped { return None; }
        SoFarStep(cases, hs, i, Run(passed, failed, failures), old(results), before);
        passed := passed + (if passes then 1 else 0);
        failed := failed + (if fails then 1 else 0);
        failures := failures + (if fails then [cases[i]] else []);
      }
      SoFarAll(cases, hs, Run(passed, failed, failures), old(results), results);
      RowsAreCounted(cases, hs);
      assert hs[..|hs|] == hs && results[|old(results)|..] == Results(cases, hs);
      if NoDuplicates(cases) {
        forall i | 0 <= i < |cases|
          ensures Judged(cases[i], hs[i], failures, Results(cases, hs))
        {
          EachIsJudged(cases, hs, i);
        }
      }
      r := Some(Run(passed, failed, failures));
    }

    /**
     The failing cases run once more, found again by their ids: the `i`th of them meets `again(i)`.
     Without failures nothing is run.
     */
    method RetestFailures(cases: seq<Id>, hs: seq<Happening>, again: nat -> Happening, failures: seq<Id>, hasUrl: bool)
      returns (r: Option<Run>, ghost more: seq<Result>)
      requires |cases| == |hs| && NoDuplicates(cases) && failures == FailingIds(cases, hs)
      modifies this
      ensures r.Some? <==> (failures == [] || hasUrl) && NoneEscapes(Retest(cases, hs, again))
      ensures r.Some? ==> r.value.failed == Count(Retest(cases, hs, again), Fails)
      ensures r.Some? ==> r.value.passed + r.value.failed ==
                          |failures| + Count(Retest(cases, hs, again), CountsTwice)
      ensures r.Some? ==> results == old(results) + more && AllRecorded(failures, again, more)
    {
      more := [];
      if |failures| == 0 {
        NothingToRetest(cases, hs, again);
        assert results + more == results;
        return Some(Run(0, 0, [])), more;
      }
      var retestCases := Filter(cases, (id: Id) => id in failures);
      RetestIsExactlyTheFailures(cases, hs);
      ghost var later := Retest(cases, hs, again);
      r := RunManualSuite(retestCases, Retest(cases, hs, again), hasUrl);
      if r.Some? {
        more := results[|old(results)|..];
        forall i | 0 <= i < |failures|
          ensures Recorded(failures[i], again(i), more)
        {
          assert Judged(retestCases[i], later[i], r.value.failures, more);
        }
      }
    }

    /**
     The suite, the retest of its failures, which writes the rows `more`, and the reported scores.
     With nothing counted twice the first run's passes and both retest counts make up the cases run;
     the reported pass and fail totals add up exactly when, besides, nothing failed or something
     failed again.
     */
    method RunAndScore(cases: seq<Id>, hs: seq<Happening>, again: nat -> Happening, hasUrl: bool)
      returns (r: Option<Scores>, ghost more: seq<Result>)
      requires |cases| == |hs| && NoDuplicates(cases)
      modifies this
      ensures r.Some? <==> hasUrl && NoneEscapes(hs) && NoneEscapes(Retest(cases, hs, again))
      ensures r.Some? ==> r.value.total == |cases|
      ensures r.Some? ==> r.value.retestFailed == Count(Retest(cases, hs, again), Fails)
      ensures r.Some? ==> r.value.failed == if r.value.retestFailed > 0 then r.value.retestFailed else Count(hs, Fails)
      ensures r.Some? ==>
                var twice := Count(hs, CountsTwice) + Count(Retest(cases, hs, again), CountsTwice);
                && r.value.passed + r.value.retestFailed == r.value.total + twice
                && (r.value.passed <= r.value.total <==> twice <= r.value.retestFailed)
                && (r.value.passed + r.value.failed == r.value.total <==>
                    twice == 0 && (Count(hs, Fails) == 0 || r.value.retestFailed > 0))
      ensures r.Some? ==> r.value.retestPassed + r.value.retestFailed ==
                          Count(hs, Fails) + Count(Retest(cases, hs, again), CountsTwice)
      ensures r.Some? ==> results == old(results) + Results(cases, hs) + more
      ensures r.Some? ==> AllRecorded(FailingIds(cases, hs), again, more)
    {
      var manual := RunManualSuite(cases, hs, hasUrl);
      if manual.None? { return None, []; }
      var retest;
      retest, more := RetestFailures(cases, hs, again, manual.value.failures, hasUrl);
      if retest.None? { return None, more; }
      var retestPassed, retestFailed := retest.value.passed, retest.value.failed;
      var totalFailed := if retestFailed != 0 then retestFailed else manual.value.failed;
      r := Some(Scores(manual.value.passed + retestPassed, totalFailed, |cases|, retestPassed, retestFailed));
      ScoresAddUp(manual.value.passed, manual.value.failed, |cases|, retest.value,
                  Count(hs, CountsTwice), Count(Retest(cases, hs, again), CountsTwice), r.value);
    }
  }

  /** A case fails and passes its retest: one case run is reported as one passed and one failed. */
  method RetestedPassIsCountedAsFailure(id: Id) returns (r: Option<Scores>)
    ensures r == Some(Scores(1, 1, 1, 1, 0))
  {
    var failing := Happening(false, true, true, true, true);
    var passing := Happening(true, true, true, true, true);
    var again := (i: nat) => passing;
    var run := new Execution();
    OneFailure(id, failing, passing, again);
    ghost var more;
    r, more := run.RunAndScore([id], [failing], again, true);
  }

  lemma CountOne(h: Happening, p: Happening -> bool)
    ensures Count([h], p) == if p(h) then 1 else 0
  {
    assert [h][..0] == [];
  }

  lemma OneFailure(id: Id, failing: Happening, passing: Happening, again: nat -> Happening)
    requires again(0) == passing
    requires Fails(failing) && !Passes(failing) && !Fails(passing)
    ensures FailingIds([id], [failing]) == [id] && Retest([id], [failing], again) == [passing]
    ensures Count([failing], CountsTwice) == 0 && Count([failing], Fails) == 1
    ensures Count([passing], CountsTwice) == 0 && Count([passing], Fails) == 0
  {
    CountOne(failing, CountsTwice);
    CountOne(failing, Fails);
    CountOne(passing, CountsTwice);
    CountOne(passing, Fails);
    OneFailingId(id, failing);
  }

  lemma OneFailingId(id: Id, failing: Happening)
    requires Fails(failing)
    ensures FailingIds([id], [failing]) == [id]
  {
    assert [failing][..0] == [] && [id][..0] == [];
  }

  /** What happens in the retest, one entry per failure. */
  function Retest(cases: seq<Id>, hs: seq<Happening>, again: nat -> Happening): seq<Happening>
    requires |cases| == |hs|
  {
    seq(|FailingIds(cases, hs)|, i requires 0 <= i < |FailingIds(cases, hs)| => again(i))
  }
}
