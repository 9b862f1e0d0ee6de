/** A handler that runs alone is a run of the interleaved machine, so all its guarantees apply. */
module HandlerRuns {
  import opened Model
  import opened Table
  import opened Ledger
  import opened Invariant
  import opened Runs
  import opened Handler

  /** The actions of program `tid` alone, from the i-th choice on. */
  function Solo(tid: nat, env: seq<Choice>, i: nat): seq<Action>
    requires i <= |env|
    decreases |env| - i
  {
    if i == |env| then [] else [Step(tid, env[i])] + Solo(tid, env, i + 1)
  }

  lemma {:induction false} SoloRun(acts: seq<Action>, tid: nat, env: seq<Choice>, i: nat)
    requires tid < |Run(acts).procs| && i <= |env|
    ensures Run(acts + Solo(tid, env, i)).w == Serve(Run(acts).w, Run(acts).procs[tid], env, i)
    decreases |env| - i
  {
    if i == |env| {
      assert acts + Solo(tid, env, i) == acts;
    } else {
      var a := Step(tid, env[i]);
      assert acts + Solo(tid, env, i) == (acts + [a]) + Solo(tid, env, i + 1);
      RunSnoc(acts, a);
      SoloRun(acts + [a], tid, env, i + 1);
      if Run(acts).procs[tid].Done? {
        DoneStays(Run(acts).w, env, i);
      }
    }
  }

  lemma {:induction false} DoneStays(w: World, env: seq<Choice>, i: nat)
    requires i < |env|
    ensures Local(w, Done, env[i]) == Outcome(Done, Nothing)
    ensures Serve(w, Done, env, i + 1) == w
  {
  }

  /** A request that arrives and runs alone. */
  function Request(acts: seq<Action>, p: Proc, env: seq<Choice>): seq<Action>
  {
    [Start(p)] + Solo(|Run(acts).procs|, env, 0)
  }

  lemma {:induction false} RequestRuns(acts: seq<Action>, p: Proc, env: seq<Choice>)
    requires Entry(p)
    ensures Run(acts + Request(acts, p, env)).w == Serve(Run(acts).w, p, env, 0)
  {
    var tid := |Run(acts).procs|;
    RunSnoc(acts, Start(p));
    SoloRun(acts + [Start(p)], tid, env, 0);
    assert acts + Request(acts, p, env) == (acts + [Start(p)]) + Solo(tid, env, 0);
  }

  /** What a handler does to a reachable world is what some run of the machine does to it: it keeps
      the invariant and everything a row has fixed. */
  lemma {:induction false} HandlerIsARun(acts: seq<Action>, p: Proc, env: seq<Choice>)
    requires Entry(p)
    ensures exists more :: Serve(Run(acts).w, p, env, 0) == Run(acts + more).w
    ensures WorldOk(Serve(Run(acts).w, p, env, 0)) && Extends(Run(acts).w, Serve(Run(acts).w, p, env, 0))
  {
    var more := Request(acts, p, env);
    RequestRuns(acts, p, env);
    RunKeeps(acts + more);
    RunExtends(acts, more);
  }
}
