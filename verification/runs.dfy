/** Whole runs: any number of requests, interleaved statement by statement, with crashes,
    failing statements, lost gateway answers and processes with different rates. */
module Runs {
  import opened Fees
  import opened Model
  import opened Table
  import opened Ledger
  import opened Invariant
  import opened Steps

  // --- One action ------------------------------------------------------------------

  lemma {:induction false} StepKeepsProcs(s: State, tid: nat, c: Choice)
    requires StateOk(s) && tid < |s.procs|
    ensures var s' := Apply(s, Step(tid, c));
            && WorldOk(s'.w) && Extends(s.w, s'.w)
            && forall t :: 0 <= t < |s'.procs| ==> ProcOk(s'.w, s'.procs[t])
  {
    var p, s' := s.procs[tid], Apply(s, Step(tid, c));
    var o := Local(s.w, p, c);
    LocalOk(s.w, p, c);
    ExecKeeps(s.w, o.effect);
    forall t | 0 <= t < |s'.procs| ensures ProcOk(s'.w, s'.procs[t]) {
      if t != tid {
        ProcStable(s.w, s'.w, s.procs[t]);
      } else if !o.effect.Insert? {
        ProcStable(s.w, s'.w, o.next);
      }
    }
  }

  /** A ref another program still has to call stays uncalled. */
  lemma {:induction false} StepKeepsUncalled(s: State, tid: nat, c: Choice)
    requires StateOk(s) && tid < |s.procs|
    ensures var s' := Apply(s, Step(tid, c));
            forall t :: 0 <= t < |s'.procs| && Sending(s'.procs[t]) ==> NotCalled(s'.w, s'.procs[t].uuid)
  {
    var p, s' := s.procs[tid], Apply(s, Step(tid, c));
    var o := Local(s.w, p, c);
    LocalOk(s.w, p, c);
    forall t | 0 <= t < |s'.procs| && Sending(s'.procs[t]) ensures NotCalled(s'.w, s'.procs[t].uuid) {
      if t != tid {
        CallStep(s.w, o.effect, s.procs[t].uuid);
      } else {
        CallStep(s.w, o.effect, o.next.uuid);
      }
    }
  }

  lemma {:induction false} CallStep(w: World, e: Effect, ref: string)
    requires NotCalled(w, ref)
    requires e.Send? && MovesOut(e.call) ==> e.call.ref != ref
    ensures NotCalled(Exec(w, e), ref)
  {
  }

  /** Two programs never hold the same ref for a money call. */
  lemma {:induction false} StepKeepsApart(s: State, tid: nat, c: Choice)
    requires StateOk(s) && tid < |s.procs|
    ensures var s' := Apply(s, Step(tid, c));
            forall t, u :: 0 <= t < u < |s'.procs| && Sending(s'.procs[t]) && Sending(s'.procs[u]) ==>
              s'.procs[t].uuid != s'.procs[u].uuid
  {
    var p, s' := s.procs[tid], Apply(s, Step(tid, c));
    var o := Local(s.w, p, c);
    LocalOk(s.w, p, c);
    if Sending(o.next) {
      forall t | 0 <= t < |s.procs| && Sending(s.procs[t]) ensures s.procs[t].uuid != o.next.uuid {
        HeldByARow(s.w, s.procs[t], o.effect.row, o.effect.byAdmin);
      }
    }
  }

  lemma {:induction false} HeldByARow(w: World, p: Proc, row: Payment, admin: bool)
    requires ProcOk(w, p) && Sending(p) && EffectOk(w, Insert(row, admin))
    ensures p.uuid != row.diarraRef
  {
    assert w.table[p.id].diarraRef == p.uuid;
  }

  lemma {:induction false} StepKeeps(s: State, tid: nat, c: Choice)
    requires StateOk(s) && tid < |s.procs|
    ensures StateOk(Apply(s, Step(tid, c))) && Extends(s.w, Apply(s, Step(tid, c)).w)
  {
    StepKeepsProcs(s, tid, c);
    StepKeepsUncalled(s, tid, c);
    StepKeepsApart(s, tid, c);
  }

  /** The clock, the admin's app changes and the gateway leave rows, calls and relays alone. */
  ghost predicate OnlySurroundings(w: World, w': World)
  {
    && w'.table == w.table && w'.calls == w.calls && w.apps.Keys <= w'.apps.Keys
    && w'.h.completed == w.h.completed && w.h.verified <= w'.h.verified && w'.h.adminMade == w.h.adminMade
    && w'.h.relays == w.h.relays
    && (forall a :: a in w'.apps && w'.apps[a].KYCVerified? ==> a in w'.h.verified)
  }

  lemma {:induction false} SurroundingsKeep(w: World, w': World)
    requires WorldOk(w) && OnlySurroundings(w, w')
    ensures WorldOk(w') && Extends(w, w')
  {
    CallsStable(w, w');
    forall i | 0 <= i < |w'.table| ensures LinkOk(w', w'.table[i]) {
      assert LinkOk(w, w.table[i]);
    }
  }

  /** Outside a step, programs are added at an entry point or die. */
  ghost predicate OnlyEntriesAndCrashes(s: State, s': State)
  {
    && |s.procs| <= |s'.procs| <= |s.procs| + 1
    && (forall t :: 0 <= t < |s.procs| ==> s'.procs[t] == s.procs[t] || s'.procs[t] == Done)
    && (|s.procs| < |s'.procs| ==> Entry(s'.procs[|s.procs|]))
  }

  lemma {:induction false} ProcsStable(s: State, s': State)
    requires StateOk(s) && Extends(s.w, s'.w) && OnlyEntriesAndCrashes(s, s')
    ensures forall t :: 0 <= t < |s'.procs| ==> ProcOk(s'.w, s'.procs[t])
  {
    forall t | 0 <= t < |s'.procs| ensures ProcOk(s'.w, s'.procs[t]) {
      if t < |s.procs| {
        ProcStable(s.w, s'.w, s.procs[t]);
      }
    }
  }

  lemma {:induction false} SendersStable(s: State, s': State)
    requires StateOk(s) && s'.w.calls == s.w.calls && OnlyEntriesAndCrashes(s, s')
    ensures forall t :: 0 <= t < |s'.procs| && Sending(s'.procs[t]) ==> NotCalled(s'.w, s'.procs[t].uuid)
    ensures forall t, u :: 0 <= t < u < |s'.procs| && Sending(s'.procs[t]) && Sending(s'.procs[u]) ==>
            s'.procs[t].uuid != s'.procs[u].uuid
  {
    assert forall t :: 0 <= t < |s'.procs| && Sending(s'.procs[t]) ==> t < |s.procs| && s'.procs[t] == s.procs[t];
  }

  lemma {:induction false} ApplyKeeps(s: State, a: Action)
    requires StateOk(s)
    ensures StateOk(Apply(s, a)) && Extends(s.w, Apply(s, a).w)
  {
    if a.Step? {
      if a.tid < |s.procs| {
        StepKeeps(s, a.tid, a.c);
      }
    } else {
      var s' := Apply(s, a);
      OutsideAction(s, a);
      SurroundingsKeep(s.w, s'.w);
      ProcsStable(s, s');
      SendersStable(s, s');
    }
  }

  lemma {:induction false} OutsideAction(s: State, a: Action)
    requires StateOk(s) && !a.Step?
    ensures var s' := Apply(s, a);
            OnlySurroundings(s.w, s'.w) && OnlyEntriesAndCrashes(s, s')
  {
  }

  // --- Runs --------------------------------------------------------------------------

  lemma {:induction false} RunKeeps(acts: seq<Action>)
    ensures StateOk(Run(acts))
  {
    if 0 < |acts| {
      RunKeeps(acts[..|acts| - 1]);
      ApplyKeeps(Run(acts[..|acts| - 1]), acts[|acts| - 1]);
    }
  }

  /** Nothing a run has fixed changes when it goes on. */
  lemma {:induction false} RunExtends(acts: seq<Action>, more: seq<Action>)
    ensures Extends(Run(acts).w, Run(acts + more).w)
  {
    if |more| == 0 {
      assert acts + more == acts;
    } else {
      var m, a := more[..|more| - 1], more[|more| - 1];
      assert acts + more == (acts + m) + [a];
      RunExtends(acts, m);
      RunSnoc(acts + m, a);
      RunKeeps(acts + m);
      ApplyKeeps(Run(acts + m), a);
      ExtendsTransitive(Run(acts).w, Run(acts + m).w, Run(acts + more).w);
    }
  }
}
