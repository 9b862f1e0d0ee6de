/** The migration runner: every replica runs it before serving, so several may run at once. */
module Migrate {

  // --- Many runners ---------------------------------------------------------------

  /** Where a runner stands: at file `k` (`k == |files|` means it has finished), or dead.
      Applying and recording happen inside a transaction of its own. */
  datatype Runner =
    | Checking(k: nat)
    | Beginning(k: nat)
    | Applied(k: nat)              // the script ran, uncommitted
    | Recorded(k: nat)             // the row of schema_migrations is inserted, uncommitted
    | Dead

  /** `schema` lists the committed scripts in commit order, `recorded` the committed names. */
  datatype Database = Database(schema: seq<string>, recorded: set<string>)

  datatype State = State(db: Database, runners: seq<Runner>)

  datatype Action =
    | Launch                       // a replica starts
    | Advance(r: nat)              // its next statement succeeds
    | Fail(r: nat)                 // its next statement fails, or the process dies: the transaction is lost

  /** The primary key of schema_migrations: nobody else has inserted the name, committed or not.
      An INSERT of a name with an open twin waits; of a committed name it fails. */
  predicate Insertable(files: seq<string>, s: State, k: nat)
    requires k < |files|
  {
    && files[k] !in s.db.recorded
    && forall q :: 0 <= q < |s.runners| && s.runners[q].Recorded? && s.runners[q].k < |files| ==>
         files[s.runners[q].k] != files[k]
  }

  /** The next statement of one runner: check, begin, apply, record, commit. */
  function AdvanceRunner(files: seq<string>, s: State, r: nat): State
    requires r < |s.runners|
  {
    match s.runners[r]
    case Checking(k) =>
      if |files| <= k then s
      else if files[k] in s.db.recorded then s.(runners := s.runners[r := Checking(k + 1)])
      else s.(runners := s.runners[r := Beginning(k)])
    case Beginning(k) => s.(runners := s.runners[r := Applied(k)])
    case Applied(k) =>
      if |files| <= k then s
      else if Insertable(files, s, k) then s.(runners := s.runners[r := Recorded(k)])
      else if files[k] in s.db.recorded then s.(runners := s.runners[r := Dead])
      else s
    case Recorded(k) =>
      if |files| <= k then s
      else State(Database(s.db.schema + [files[k]], s.db.recorded + {files[k]}), s.runners[r := Checking(k + 1)])
    case Dead => s
  }

  function Apply(files: seq<string>, s: State, a: Action): State
  {
    match a
    case Launch => s.(runners := s.runners + [Checking(0)])
    case Advance(r) => if r < |s.runners| then AdvanceRunner(files, s, r) else s
    case Fail(r) =>
      if r < |s.runners| && !(s.runners[r].Checking? && |files| <= s.runners[r].k)
        then s.(runners := s.runners[r := Dead]) else s
  }

  const EMPTY := State(Database([], {}), [])

  function Run(files: seq<string>, acts: seq<Action>): State
  {
    if |acts| == 0 then EMPTY else Apply(files, Run(files, acts[..|acts| - 1]), acts[|acts| - 1])
  }

  /** `filepath.Glob` lists a directory: no name twice. */
  ghost predicate Distinct(files: seq<string>)
  {
    forall i, j :: 0 <= i < j < |files| ==> files[i] != files[j]
  }

  ghost predicate InRange(files: seq<string>, q: Runner)
  {
    !q.Dead? ==> q.k <= |files| && (!q.Checking? ==> q.k < |files|)
  }

  /** Everything before index `k` is committed. */
  ghost predicate Behind(s: State, q: Runner)
  {
    !q.Dead? ==> q.k <= |s.db.schema|
  }

  ghost predicate Ok(files: seq<string>, s: State)
  {
    && |s.db.schema| <= |files| && s.db.schema == files[..|s.db.schema|]
    && s.db.recorded == (set i | 0 <= i < |s.db.schema| :: files[i])
    && (forall q :: 0 <= q < |s.runners| ==> InRange(files, s.runners[q]) && Behind(s, s.runners[q]))
    && (forall q :: 0 <= q < |s.runners| && s.runners[q].Recorded? ==> files[s.runners[q].k] !in s.db.recorded)
    && (forall p, q :: 0 <= p < q < |s.runners| && s.runners[p].Recorded? && s.runners[q].Recorded? ==>
        s.runners[p].k != s.runners[q].k)
  }

  /** A name is recorded exactly when its index is below the committed prefix. */
  lemma {:induction false} RecordedIsBelow(files: seq<string>, s: State, k: nat)
    requires Distinct(files) && Ok(files, s) && k < |files|
    ensures files[k] in s.db.recorded <==> k < |s.db.schema|
  {
    if files[k] in s.db.recorded {
      var i :| 0 <= i < |s.db.schema| && files[i] == files[k];
    }
    if k < |s.db.schema| {
      assert files[k] in (set i | 0 <= i < |s.db.schema| :: files[i]);
    }
  }

  /** Whoever holds an uncommitted name holds the next one. */
  lemma {:induction false} HoldersAtNext(files: seq<string>, s: State)
    requires Distinct(files) && Ok(files, s)
    ensures forall q :: 0 <= q < |s.runners| && s.runners[q].Recorded? ==> s.runners[q].k == |s.db.schema|
  {
    forall q | 0 <= q < |s.runners| && s.runners[q].Recorded? ensures s.runners[q].k == |s.db.schema| {
      assert InRange(files, s.runners[q]) && Behind(s, s.runners[q]);
      RecordedIsBelow(files, s, s.runners[q].k);
    }
  }

  lemma {:induction false} CommitKeeps(files: seq<string>, s: State, r: nat)
    requires Distinct(files) && Ok(files, s) && r < |s.runners| && s.runners[r].Recorded?
    ensures Ok(files, AdvanceRunner(files, s, r)) && s.runners[r].k == |s.db.schema|
  {
    var k, s' := s.runners[r].k, AdvanceRunner(files, s, r);
    RecordedIsBelow(files, s, k);
    assert s'.db.schema == files[..k + 1];
    assert s'.db.recorded == set i | 0 <= i < k + 1 :: files[i];
    HoldersAtNext(files, s);
  }

  lemma {:induction false} AdvanceKeeps(files: seq<string>, s: State, r: nat)
    requires Distinct(files) && Ok(files, s) && r < |s.runners|
    ensures Ok(files, AdvanceRunner(files, s, r))
  {
    match s.runners[r]
    case Checking(k) =>
      if k < |files| {
        RecordedIsBelow(files, s, k);
      }
    case Recorded(k) => CommitKeeps(files, s, r);
    case _ =>
  }

  lemma {:induction false} RunOk(files: seq<string>, acts: seq<Action>)
    requires Distinct(files)
    ensures Ok(files, Run(files, acts))
  {
    if 0 < |acts| {
      RunOk(files, acts[..|acts| - 1]);
      var s, a := Run(files, acts[..|acts| - 1]), acts[|acts| - 1];
      if a.Advance? && a.r < |s.runners| {
        AdvanceKeeps(files, s, a.r);
      }
    }
  }

  // --- What every run guarantees -------------------------------------------------------

  /** However many runners start, interleave, fail and die: the committed scripts are a prefix of the
      file list in order, hence each at most once; a name is recorded if and only if its script is
      committed; a runner at file k has every earlier file committed and recorded; and at most one
      runner holds the next name. */
  lemma {:induction false} MigrationsCommitInOrder(files: seq<string>, acts: seq<Action>)
    requires Distinct(files)
    ensures var s := Run(files, acts);
            && s.db.schema <= files
            && (forall name :: name in s.db.recorded <==> name in s.db.schema)
            && (forall q :: 0 <= q < |s.runners| && !s.runners[q].Dead? ==>
                  s.runners[q].k <= |files| && forall j :: 0 <= j < s.runners[q].k ==> files[j] in s.db.recorded)
            && (forall q :: 0 <= q < |s.runners| && s.runners[q].Recorded? ==> s.runners[q].k == |s.db.schema|)
  {
    RunOk(files, acts);
    var s := Run(files, acts);
    forall name ensures name in s.db.recorded <==> name in s.db.schema {
      if name in s.db.recorded {
        var i :| 0 <= i < |s.db.schema| && files[i] == name;
        assert s.db.schema[i] == name;
      }
      if name in s.db.schema {
        var i :| 0 <= i < |s.db.schema| && s.db.schema[i] == name;
        assert files[i] == name;
      }
    }
    forall q | 0 <= q < |s.runners| && !s.runners[q].Dead?
      ensures s.runners[q].k <= |files| && forall j :: 0 <= j < s.runners[q].k ==> files[j] in s.db.recorded
    {
      assert InRange(files, s.runners[q]) && Behind(s, s.runners[q]);
      forall j | 0 <= j < s.runners[q].k ensures files[j] in s.db.recorded {
        RecordedIsBelow(files, s, j);
      }
    }
    HoldersAtNext(files, s);
  }

  /** Some runner has gone through the whole list. */
  ghost predicate Finished(files: seq<string>, s: State)
  {
    exists q :: 0 <= q < |s.runners| && s.runners[q] == Checking(|files|)
  }

  lemma {:induction false} FullKeeps(files: seq<string>, s: State, a: Action)
    requires Distinct(files) && Ok(files, s) && |s.db.schema| == |files|
    ensures Apply(files, s, a).db == s.db
  {
    if a.Advance? && a.r < |s.runners| && s.runners[a.r].Recorded? {
      RecordedIsBelow(files, s, s.runners[a.r].k);
    }
  }

  /** After one runner has finished, the database is complete and no later action of any runner,
      launched before or after, changes it. */
  lemma {:induction false} FinishedIsFinal(files: seq<string>, acts: seq<Action>, more: seq<Action>)
    requires Distinct(files) && Finished(files, Run(files, acts))
    ensures Run(files, acts).db.schema == files
    ensures Run(files, acts + more).db == Run(files, acts).db
  {
    RunOk(files, acts);
    var q :| 0 <= q < |Run(files, acts).runners| && Run(files, acts).runners[q] == Checking(|files|);
    assert Behind(Run(files, acts), Run(files, acts).runners[q]);
    assert files[..|files|] == files;
    if |more| == 0 {
      assert acts + more == acts;
    } else {
      var m, a := more[..|more| - 1], more[|more| - 1];
      assert acts + more == (acts + m) + [a];
      assert ((acts + m) + [a])[..|acts + m|] == acts + m;
      FinishedIsFinal(files, acts, m);
      RunOk(files, acts + m);
      FullKeeps(files, Run(files, acts + m), a);
    }
  }

  // --- One runner, as it is written ------------------------------------------------------

  /** The files not yet recorded, in order. */
  function Missing(files: seq<string>, recorded: set<string>): (r: seq<string>)
    ensures forall name :: name in r ==> name in files && name !in recorded
  {
    if |files| == 0 then []
    else
      var before := Missing(files[..|files| - 1], recorded);
      if files[|files| - 1] in recorded then before else before + [files[|files| - 1]]
  }

  function Names(files: seq<string>): set<string>
  {
    set name | name in files
  }

  lemma {:induction false} OneMore(files: seq<string>, k: nat, recorded: set<string>)
    requires Distinct(files) && k < |files|
    ensures files[k] !in files[..k]
    ensures Names(files[..k + 1]) == Names(files[..k]) + {files[k]}
    ensures Missing(files[..k + 1], recorded) ==
            Missing(files[..k], recorded) + (if files[k] in recorded then [] else [files[k]])
  {
    assert files[..k + 1][..k] == files[..k];
    assert files[..k + 1] == files[..k] + [files[k]];
  }

  /** What goes wrong at one file: nothing, the check whether it is recorded, or one of reading, beginning,
      applying, recording and committing it. */
  datatype Trouble = Fine | CheckFails | ScriptFails

  /** The process exits at this file. */
  predicate Stops(name: string, t: Trouble, recorded: set<string>)
  {
    t.CheckFails? || (t.ScriptFails? && name !in recorded)
  }

  /** What a runner that has gone through the first `done` files leaves behind. */
  predicate Through(files: seq<string>, trouble: seq<Trouble>, done: nat, schema: seq<string>, recorded: set<string>,
                    schema': seq<string>, recorded': set<string>)
    requires |trouble| == |files|
  {
    && done <= |files|
    && (forall k :: 0 <= k < done ==> !Stops(files[k], trouble[k], recorded))
    && schema' == schema + Missing(files[..done], recorded)
    && recorded' == recorded + Names(files[..done])
  }

  lemma {:induction false} ThroughNext(files: seq<string>, trouble: seq<Trouble>, done: nat, schema: seq<string>,
                                       recorded: set<string>, schema': seq<string>, recorded': set<string>)
    requires |trouble| == |files| && Distinct(files) && done < |files| && !Stops(files[done], trouble[done], recorded)
    requires Through(files, trouble, done, schema, recorded, schema', recorded')
    ensures files[done] in recorded' <==> files[done] in recorded
    ensures if files[done] in recorded then Through(files, trouble, done + 1, schema, recorded, schema', recorded')
            else Through(files, trouble, done + 1, schema, recorded, schema' + [files[done]], recorded' + {files[done]})
  {
    OneMore(files, done, recorded);
    NotYet(files, done, recorded);
    if files[done] in recorded {
      assert recorded' == recorded + Names(files[..done + 1]);
    } else {
      assert recorded' + {files[done]} == recorded + Names(files[..done + 1]);
    }
  }

  lemma {:induction false} NotYet(files: seq<string>, done: nat, recorded: set<string>)
    requires Distinct(files) && done < |files|
    ensures files[done] in recorded + Names(files[..done]) <==> files[done] in recorded
  {
    OneMore(files, done, recorded);
  }

  class Migrator {
    var schema: seq<string>        // committed scripts, in order
    var recorded: set<string>      // schema_migrations

    /** `main`'s loop over the sorted files; a failure rolls the open transaction back and ends the process.
        It gets to the first file that stops it, recorded or not, or through the list; of the files before,
        exactly the missing scripts are applied, each once and in order. */
    method Migrate(files: seq<string>, trouble: seq<Trouble>) returns (done: nat)
      requires Distinct(files) && |trouble| == |files|
      modifies this
      ensures Through(files, trouble, done, old(schema), old(recorded), schema, recorded)
      ensures done < |files| ==> Stops(files[done], trouble[done], old(recorded))
    {
      done := 0;
      while done < |files|
        invariant Through(files, trouble, done, old(schema), old(recorded), schema, recorded)
      {
        var name := files[done];
        if trouble[done].CheckFails? {
          return;
        }
        NotYet(files, done, old(recorded));
        if name in recorded {
          ThroughNext(files, trouble, done, old(schema), old(recorded), schema, recorded);
          done := done + 1;
          continue;
        }
        if trouble[done].ScriptFails? {
          return;
        }
        ThroughNext(files, trouble, done, old(schema), old(recorded), schema, recorded);
        schema := schema + [name];
        recorded := recorded + {name};
        done := done + 1;
      }
    }
  }

  /** Running again after a complete run finds nothing to do. */
  lemma {:induction false} NothingMissing(files: seq<string>, recorded: set<string>)
    requires Names(files) <= recorded
    ensures Missing(files, recorded) == []
  {
    if 0 < |files| {
      NothingMissing(files[..|files| - 1], recorded);
      assert files[|files| - 1] in Names(files);
    }
  }
}
