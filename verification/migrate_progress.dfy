/** That the migration runners get somewhere: a runner left alone commits file after file, a lone runner does
    what the loop of `main` does, and no state is a dead end. */
module MigrateProgress {
  import opened Migrate

  // --- One runner left alone ---------------------------------------------------------------------

  /** n statements of runner r in a row, all successful. */
  function Go(files: seq<string>, s: State, r: nat, n: nat): (s': State)
    requires r < |s.runners|
    ensures |s'.runners| == |s.runners|
  {
    if n == 0 then s else AdvanceRunner(files, Go(files, s, r, n - 1), r)
  }

  lemma {:induction false} GoAdds(files: seq<string>, s: State, r: nat, m: nat, n: nat)
    requires r < |s.runners|
    ensures Go(files, s, r, m + n) == Go(files, Go(files, s, r, m), r, n)
  {
    if 0 < n {
      GoAdds(files, s, r, m, n - 1);
      assert m + n - 1 == m + (n - 1);
    }
  }

  lemma {:induction false} GoKeeps(files: seq<string>, s: State, r: nat, n: nat)
    requires Distinct(files) && Ok(files, s) && r < |s.runners|
    ensures Ok(files, Go(files, s, r, n))
  {
    if 0 < n {
      GoKeeps(files, s, r, n - 1);
      AdvanceKeeps(files, Go(files, s, r, n - 1), r);
    }
  }

  /** No runner holds an uncommitted name. */
  predicate NoneRecorded(s: State)
  {
    forall q :: 0 <= q < |s.runners| ==> !s.runners[q].Recorded?
  }

  /** Runner r is about to check file k, and nobody is in its way. */
  predicate FreeAt(s: State, r: nat, k: nat)
  {
    NoneRecorded(s) && r < |s.runners| && s.runners[r] == Checking(k)
  }

  /** `s` with runner r moved to `q` over the database `db`; the other runners stand where they stood. */
  function Moved(s: State, r: nat, q: Runner, db: Database): State
    requires r < |s.runners|
  {
    State(db, s.runners[r := q])
  }

  /** A committed file is passed over. */
  lemma {:induction false} PassesCommitted(files: seq<string>, s: State, r: nat, k: nat)
    requires Distinct(files) && Ok(files, s) && FreeAt(s, r, k) && k < |s.db.schema|
    ensures Go(files, s, r, 1) == Moved(s, r, Checking(k + 1), s.db)
  {
    RecordedIsBelow(files, s, k);
    assert Go(files, s, r, 0) == s;
  }

  /** Where a runner is after j statements of the script of file k. */
  function Inside(k: nat, j: nat): Runner
  {
    if j == 0 then Checking(k) else if j == 1 then Beginning(k) else if j == 2 then Applied(k) else Recorded(k)
  }

  /** At the next file: the first three statements of its script commit nothing. */
  lemma {:induction false} EntersScript(files: seq<string>, s: State, r: nat, j: nat)
    requires Distinct(files) && Ok(files, s) && FreeAt(s, r, |s.db.schema|) && |s.db.schema| < |files| && j <= 3
    ensures Go(files, s, r, j) == Moved(s, r, Inside(|s.db.schema|, j), s.db)
  {
    if 0 < j {
      EntersScript(files, s, r, j - 1);
      RecordedIsBelow(files, s, |s.db.schema|);
    }
  }

  /** Its fourth statement commits script and name together. */
  lemma {:induction false} CommitsScript(files: seq<string>, s: State, r: nat)
    requires Distinct(files) && Ok(files, s) && FreeAt(s, r, |s.db.schema|) && |s.db.schema| < |files|
    ensures var k := |s.db.schema|;
            Go(files, s, r, 4) ==
            Moved(s, r, Checking(k + 1), Database(files[..k + 1], s.db.recorded + {files[k]}))
  {
    var k := |s.db.schema|;
    EntersScript(files, s, r, 3);
    assert files[..k] + [files[k]] == files[..k + 1];
  }

  /** The larger of two counts. */
  function Max(a: nat, b: nat): nat
  {
    if a < b then b else a
  }

  /** How many statements a runner needs from file k to file `end`: one for a committed file, four for another. */
  function Needed(committed: nat, k: nat, end: nat): nat
    requires k <= end
    decreases end - k
  {
    if k == end then 0 else (if k < committed then 1 else 4) + Needed(Max(committed, k + 1), k + 1, end)
  }

  /** Runner r has got to file `end`; the files before it are committed. */
  predicate Reached(s: State, s': State, r: nat, end: nat)
  {
    |s'.db.schema| == Max(|s.db.schema|, end) && FreeAt(s', r, end)
  }

  lemma {:induction false} Arrived(files: seq<string>, s: State, r: nat, k: nat)
    requires Ok(files, s) && FreeAt(s, r, k)
    ensures Reached(s, s, r, k)
  {
    assert Behind(s, s.runners[r]);
  }

  lemma {:induction false} OneFile(files: seq<string>, s: State, r: nat, k: nat, n: nat)
    requires Distinct(files) && Ok(files, s) && FreeAt(s, r, k) && k < |files|
    requires n == if k < |s.db.schema| then 1 else 4
    ensures Reached(s, Go(files, s, r, n), r, k + 1) && Ok(files, Go(files, s, r, n))
  {
    Arrived(files, s, r, k);
    GoKeeps(files, s, r, n);
    if k < |s.db.schema| { PassesCommitted(files, s, r, k); } else { CommitsScript(files, s, r); }
  }

  lemma {:induction false} ReachedFurther(s: State, s1: State, s2: State, r: nat, k: nat, end: nat)
    requires Reached(s, s1, r, k) && Reached(s1, s2, r, end) && k <= end
    ensures Reached(s, s2, r, end)
  {
  }

  lemma {:induction false} NeededStep(committed: nat, k: nat, end: nat)
    requires k < end
    ensures Needed(committed, k, end) ==
            (if k < committed then 1 else 4) + Needed(Max(committed, k + 1), k + 1, end)
  {
  }

  lemma {:induction false} GoOnFrom(files: seq<string>, s: State, s1: State, r: nat, m: nat, n: nat, k: nat, end: nat)
    requires r < |s.runners| && s1 == Go(files, s, r, m) && m <= n && k <= end
    requires Reached(s, s1, r, k) && Reached(s1, Go(files, s1, r, n - m), r, end)
    ensures Reached(s, Go(files, s, r, n), r, end)
  {
    GoAdds(files, s, r, m, n - m);
    ReachedFurther(s, s1, Go(files, s1, r, n - m), r, k, end);
  }

  lemma {:induction false} GoesOn(files: seq<string>, s: State, r: nat, k: nat, end: nat, n: nat)
    requires Distinct(files) && Ok(files, s) && FreeAt(s, r, k) && k <= end <= |files|
    requires n == Needed(|s.db.schema|, k, end)
    ensures Reached(s, Go(files, s, r, n), r, end)
    decreases end - k
  {
    if k == end {
      Arrived(files, s, r, k);
    } else {
      var m := if k < |s.db.schema| then 1 else 4;
      var s1 := Go(files, s, r, m);
      OneFile(files, s, r, k, m);
      NeededStep(|s.db.schema|, k, end);
      GoesOn(files, s1, r, k + 1, end, n - m);
      GoOnFrom(files, s, s1, r, m, n, k + 1, end);
    }
  }

  // --- In runs -----------------------------------------------------------------------------------------

  lemma {:induction false} RunSnoc(files: seq<string>, acts: seq<Action>, a: Action)
    ensures Run(files, acts + [a]) == Apply(files, Run(files, acts), a)
  {
    assert (acts + [a])[..|acts|] == acts;
  }

  function Advances(r: nat, n: nat): (acts: seq<Action>)
  {
    if n == 0 then [] else Advances(r, n - 1) + [Advance(r)]
  }

  lemma {:induction false} AdvancesGo(files: seq<string>, acts: seq<Action>, r: nat, n: nat)
    requires r < |Run(files, acts).runners|
    ensures Run(files, acts + Advances(r, n)) == Go(files, Run(files, acts), r, n)
  {
    if n == 0 {
      assert acts + Advances(r, 0) == acts;
    } else {
      AdvancesGo(files, acts, r, n - 1);
      RunSnoc(files, acts + Advances(r, n - 1), Advance(r));
      assert acts + Advances(r, n) == acts + Advances(r, n - 1) + [Advance(r)];
    }
  }

  /** From any reachable state in which no runner holds an uncommitted name: a runner at the next file commits
      its script and its name with four statements of its own, touches nothing else, and goes on to the file
      after it. */
  lemma {:induction false} CommitsNext(files: seq<string>, acts: seq<Action>, r: nat)
    requires Distinct(files) && |Run(files, acts).db.schema| < |files|
    requires FreeAt(Run(files, acts), r, |Run(files, acts).db.schema|)
    ensures var s := Run(files, acts);
            var k := |s.db.schema|;
            Run(files, acts + Advances(r, 4)) ==
            Moved(s, r, Checking(k + 1), Database(files[..k + 1], s.db.recorded + {files[k]}))
  {
    RunOk(files, acts);
    CommitsScript(files, Run(files, acts), r);
    AdvancesGo(files, acts, r, 4);
  }

  /** Every script is committed and recorded, and runner r has finished. */
  predicate AllDone(files: seq<string>, s: State, r: nat)
  {
    && s.db == Database(files, Names(files))
    && r < |s.runners| && s.runners[r] == Checking(|files|)
  }

  lemma {:induction false} FullDatabase(files: seq<string>, acts: seq<Action>)
    requires Distinct(files) && |Run(files, acts).db.schema| == |files|
    ensures Run(files, acts).db == Database(files, Names(files))
  {
    MigrationsCommitInOrder(files, acts);
    assert files[..|files|] == files;
  }

  /** From any reachable state in which no runner holds an uncommitted name, a runner that is left alone goes
      through the rest of the list and leaves it complete. */
  lemma {:induction false} RunnerFinishes(files: seq<string>, acts: seq<Action>, r: nat, k: nat)
    requires Distinct(files) && k <= |files| && FreeAt(Run(files, acts), r, k)
    ensures AllDone(files, Run(files, acts + Advances(r, Needed(|Run(files, acts).db.schema|, k, |files|))), r)
  {
    var n := Needed(|Run(files, acts).db.schema|, k, |files|);
    RunOk(files, acts);
    GoesOn(files, Run(files, acts), r, k, |files|, n);
    AdvancesGo(files, acts, r, n);
    FullDatabase(files, acts + Advances(r, n));
  }

  // --- No dead end ---------------------------------------------------------------------------------------

  /** No statement fails and no process dies. */
  predicate NoFailure(acts: seq<Action>)
  {
    forall m :: 0 <= m < |acts| ==> !acts[m].Fail?
  }

  lemma {:induction false} AdvancesDoNotFail(r: nat, n: nat)
    ensures NoFailure(Advances(r, n))
  {
    if 0 < n { AdvancesDoNotFail(r, n - 1); }
  }

  /** Whoever holds an uncommitted name holds it alone, and its next statement commits it. */
  lemma {:induction false} HolderCommits(files: seq<string>, acts: seq<Action>, r: nat)
    requires Distinct(files) && r < |Run(files, acts).runners| && Run(files, acts).runners[r].Recorded?
    ensures NoneRecorded(Run(files, acts + [Advance(r)]))
  {
    var s := Run(files, acts);
    RunOk(files, acts);
    RunSnoc(files, acts, Advance(r));
    HoldersAtNext(files, s);
    assert InRange(files, s.runners[r]);
  }

  lemma {:induction false} NewcomerFinishes(files: seq<string>, acts: seq<Action>) returns (more: seq<Action>)
    requires Distinct(files) && NoneRecorded(Run(files, acts))
    ensures NoFailure(more) && AllDone(files, Run(files, acts + more), |Run(files, acts).runners|)
  {
    var r, n := |Run(files, acts).runners|, Needed(|Run(files, acts).db.schema|, 0, |files|);
    RunSnoc(files, acts, Launch);
    RunnerFinishes(files, acts + [Launch], r, 0);
    AdvancesDoNotFail(r, n);
    more := [Launch] + Advances(r, n);
    assert acts + more == acts + [Launch] + Advances(r, n);
  }

  /** Whatever has failed and whoever has died: from every reachable state some continuation without further
      failures commits and records every script and lets a runner finish. */
  lemma {:induction false} NoDeadEnd(files: seq<string>, acts: seq<Action>)
    requires Distinct(files)
    ensures exists more, r :: NoFailure(more) && AllDone(files, Run(files, acts + more), r)
  {
    if NoneRecorded(Run(files, acts)) {
      var more := NewcomerFinishes(files, acts);
    } else {
      var r: nat :| r < |Run(files, acts).runners| && Run(files, acts).runners[r].Recorded?;
      HolderCommits(files, acts, r);
      var rest := NewcomerFinishes(files, acts + [Advance(r)]);
      var more := [Advance(r)] + rest;
      assert acts + more == acts + [Advance(r)] + rest;
      assert NoFailure(more) && AllDone(files, Run(files, acts + more), |Run(files, acts + [Advance(r)]).runners|);
    }
  }

  // --- The loop of `main` ------------------------------------------------------------------------------------

  /** `recorded` holds the names of the first `committed` files, and of no other file. */
  predicate RecordedBelow(files: seq<string>, committed: nat, recorded: set<string>)
  {
    forall j :: 0 <= j < |files| ==> (files[j] in recorded <==> j < committed)
  }

  lemma {:induction false} MissingSlice(files: seq<string>, committed: nat, k: nat)
    requires k < |files|
    ensures (if k <= committed then [] else files[committed..k]) + (if k < committed then [] else [files[k]]) ==
            if k + 1 <= committed then [] else files[committed..k + 1]
  {
  }

  lemma {:induction false} MissingAfter(files: seq<string>, committed: nat, done: nat, recorded: set<string>)
    requires Distinct(files) && done <= |files| && RecordedBelow(files, committed, recorded)
    ensures Missing(files[..done], recorded) == if done <= committed then [] else files[committed..done]
  {
    if 0 < done {
      var k := done - 1;
      MissingAfter(files, committed, k, recorded);
      OneMore(files, k, recorded);
      assert files[k] in recorded <==> k < committed;
      MissingSlice(files, committed, k);
    }
  }

  lemma {:induction false} CommittedAfter(files: seq<string>, committed: nat, done: nat, recorded: set<string>)
    requires Distinct(files) && committed <= |files| && done <= |files| && RecordedBelow(files, committed, recorded)
    ensures files[..committed] + Missing(files[..done], recorded) == files[..Max(committed, done)]
  {
    MissingAfter(files, committed, done, recorded);
    if committed < done { assert files[..committed] + files[committed..done] == files[..done]; }
  }

  lemma {:induction false} NamesOfMax(files: seq<string>, a: nat, b: nat)
    requires a <= |files| && b <= |files|
    ensures Names(files[..Max(a, b)]) == Names(files[..a]) + Names(files[..b])
  {
  }

  lemma {:induction false} RecordedNames(files: seq<string>, acts: seq<Action>)
    requires Distinct(files)
    ensures var db := Run(files, acts).db;
            && |db.schema| <= |files| && db == Database(files[..|db.schema|], Names(files[..|db.schema|]))
            && RecordedBelow(files, |db.schema|, db.recorded)
  {
    var s := Run(files, acts);
    RunOk(files, acts);
    MigrationsCommitInOrder(files, acts);
    forall j | 0 <= j < |files| ensures files[j] in s.db.recorded <==> j < |s.db.schema| {
      RecordedIsBelow(files, s, j);
    }
  }

  /** What a lone runner does before it fails or finishes: it goes through the files before `done`. */
  function LoneRun(files: seq<string>, s: State, done: nat): seq<Action>
  {
    [Launch] + Advances(|s.runners|, Needed(|s.db.schema|, 0, done))
  }

  /** What a runner that has gone through the files before `done` leaves, in one piece. */
  lemma {:induction false} ThroughIs(files: seq<string>, trouble: seq<Trouble>, done: nat, committed: nat,
                                     recorded: set<string>, schema': seq<string>, recorded': set<string>)
    requires Distinct(files) && |trouble| == |files| && committed <= |files|
    requires RecordedBelow(files, committed, recorded) && recorded == Names(files[..committed])
    requires Through(files, trouble, done, files[..committed], recorded, schema', recorded')
    ensures schema' == files[..Max(committed, done)] && recorded' == Names(files[..Max(committed, done)])
  {
    CommittedAfter(files, committed, done, recorded);
    NamesOfMax(files, committed, done);
  }

  lemma {:induction false} LoneRunReaches(files: seq<string>, acts: seq<Action>, done: nat)
    requires Distinct(files) && NoneRecorded(Run(files, acts)) && done <= |files|
    ensures var s := Run(files, acts);
            Reached(s, Run(files, acts + LoneRun(files, s, done)), |s.runners|, done)
  {
    var s, launched := Run(files, acts), acts + [Launch];
    var r, n := |s.runners|, Needed(|s.db.schema|, 0, done);
    RunSnoc(files, acts, Launch);
    RunOk(files, launched);
    GoesOn(files, Run(files, launched), r, 0, done, n);
    AdvancesGo(files, launched, r, n);
    assert acts + LoneRun(files, s, done) == launched + Advances(r, n);
    LaunchFree(s, Run(files, launched), Run(files, acts + LoneRun(files, s, done)), r, done);
  }

  lemma {:induction false} LaunchFree(s: State, s1: State, s2: State, r: nat, done: nat)
    requires s1.db == s.db && Reached(s1, s2, r, done)
    ensures Reached(s, s2, r, done)
  {
  }

  /** From every reachable state in which no runner holds an uncommitted name: a runner that is launched and
      left alone gets to the file at which `Migrate` stops, or through the list, with exactly the database
      that `Migrate` leaves. */
  lemma {:induction false} LoneRunnerMigrates(files: seq<string>, acts: seq<Action>, trouble: seq<Trouble>, done: nat,
                                              schema': seq<string>, recorded': set<string>)
    requires Distinct(files) && |trouble| == |files| && NoneRecorded(Run(files, acts))
    requires var db := Run(files, acts).db; Through(files, trouble, done, db.schema, db.recorded, schema', recorded')
    ensures var s := Run(files, acts);
            var s' := Run(files, acts + LoneRun(files, s, done));
            s'.db == Database(schema', recorded') && FreeAt(s', |s.runners|, done)
  {
    var s := Run(files, acts);
    RecordedNames(files, acts);
    ThroughIs(files, trouble, done, |s.db.schema|, s.db.recorded, schema', recorded');
    LoneRunReaches(files, acts, done);
    RecordedNames(files, acts + LoneRun(files, s, done));
  }

  /** A runner at a file that is not committed can fail after any number of statements short of the commit,
      and one at a committed file at the check: the database stays what it was. */
  lemma {:induction false} FailsClean(files: seq<string>, acts: seq<Action>, r: nat, k: nat, j: nat)
    requires Distinct(files) && k < |files| && FreeAt(Run(files, acts), r, k) && j <= 3
    requires files[k] in Run(files, acts).db.recorded ==> j == 0
    ensures Run(files, acts + (Advances(r, j) + [Fail(r)])).db == Run(files, acts).db
    ensures Run(files, acts + (Advances(r, j) + [Fail(r)])).runners == Run(files, acts).runners[r := Dead]
  {
    var s := Run(files, acts);
    RunOk(files, acts);
    RecordedIsBelow(files, s, k);
    assert Behind(s, s.runners[r]);
    AdvancesGo(files, acts, r, j);
    if 0 < j { EntersScript(files, s, r, j); }
    RunSnoc(files, acts + Advances(r, j), Fail(r));
    assert acts + (Advances(r, j) + [Fail(r)]) == acts + Advances(r, j) + [Fail(r)];
  }
}
