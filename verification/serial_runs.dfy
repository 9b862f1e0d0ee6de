/** Orderly runs: a completed deposit is final, links and gateway agree, refunds name paid deposits. */
module SerialRuns {
  import opened Fees
  import opened Model
  import opened Table
  import opened Ledger
  import opened Invariant
  import opened Steps
  import opened Runs
  import opened Serial
  import opened SerialSteps
  import opened SerialLocal

  // --- One step of one program -----------------------------------------------------------

  lemma {:induction false} StepFacts(s: State, tid: nat, c: Choice)
    requires SerialOk(s) && tid < |s.procs| && Orderly(s, Step(tid, c))
    ensures var p := s.procs[tid]; var o := Local(s.w, p, c); var w' := Exec(s.w, o.effect);
            && SerialStep(s.w, p, c, o)
            && Frame(s.w, w', LockOf(s.w.table, p), HeldRef(p))
            && AgreementOk(w') && Unique(w'.table)
  {
    var p := s.procs[tid];
    var o := Local(s.w, p, c);
    LocalOk(s.w, p, c);
    SerialLocalOk(s.w, p, c);
    FrameHolds(s.w, o.effect, LockOf(s.w.table, p), HeldRef(p));
    ExecKeeps(s.w, o.effect);
    EffectAgrees(s.w, o.effect, LockOf(s.w.table, p), HeldRef(p));
  }

  lemma {:induction false} OthersApart(s: State, tid: nat, t: nat)
    requires LocksApart(s) && RefsApart(s) && tid < |s.procs| && t < |s.procs| && t != tid
    ensures Disjoint(s.w.table, s.procs[t], LockOf(s.w.table, s.procs[tid]), HeldRef(s.procs[tid]))
  {
  }

  lemma {:induction false} StepOthers(s: State, tid: nat, c: Choice)
    requires SerialOk(s) && tid < |s.procs| && Orderly(s, Step(tid, c))
    ensures var s' := Apply(s, Step(tid, c));
            && ProcsAgree(s'.w, s'.procs)
            && (forall t :: 0 <= t < |s.procs| && t != tid ==>
                LockOf(s'.w.table, s'.procs[t]) == LockOf(s.w.table, s.procs[t]))
  {
    var s', p := Apply(s, Step(tid, c)), s.procs[tid];
    StepFacts(s, tid, c);
    forall t | 0 <= t < |s.procs|
      ensures SerialProcOk(s'.w, s'.procs[t])
      ensures t != tid ==> LockOf(s'.w.table, s'.procs[t]) == LockOf(s.w.table, s.procs[t])
    {
      if t != tid {
        OthersApart(s, tid, t);
        OtherProcStable(s.w, s'.w, LockOf(s.w.table, p), HeldRef(p), s.procs[t]);
        LockStable(s.w, s'.w, LockOf(s.w.table, p), HeldRef(p), s.procs[t]);
      }
    }
  }

  /** The claims of one program change to `k` and `h`; everybody else keeps theirs. */
  lemma {:induction false} ClaimsApart(s: State, s': State, tid: nat)
    requires LocksApart(s) && RefsApart(s) && tid < |s.procs| == |s'.procs|
    requires forall t :: 0 <= t < |s.procs| && t != tid ==>
               s'.procs[t] == s.procs[t] && LockOf(s'.w.table, s'.procs[t]) == LockOf(s.w.table, s.procs[t])
    requires var k := LockOf(s'.w.table, s'.procs[tid]);
             k.None? || k == LockOf(s.w.table, s.procs[tid]) || Unlocked(s, k.value)
    requires var h := HeldRef(s'.procs[tid]);
             h.None? || h == HeldRef(s.procs[tid])
             || (NotHeld(s, h.value) && forall t :: 0 <= t < |s.procs| && s.procs[t].CallbackFind? ==>
                 s.procs[t].ref != h.value)
    requires !s'.procs[tid].CallbackFind?
    ensures LocksApart(s') && RefsApart(s')
  {
    LockClaimsApart(s, s', tid);
    RefClaimsApart(s, s', tid);
  }

  lemma {:induction false} LockClaimsApart(s: State, s': State, tid: nat)
    requires LocksApart(s) && tid < |s.procs| == |s'.procs|
    requires forall t :: 0 <= t < |s.procs| && t != tid ==>
             LockOf(s'.w.table, s'.procs[t]) == LockOf(s.w.table, s.procs[t])
    requires var k := LockOf(s'.w.table, s'.procs[tid]);
             k.None? || k == LockOf(s.w.table, s.procs[tid]) || Unlocked(s, k.value)
    ensures LocksApart(s')
  {
  }

  lemma {:induction false} RefClaimsApart(s: State, s': State, tid: nat)
    requires RefsApart(s) && tid < |s.procs| == |s'.procs|
    requires forall t :: 0 <= t < |s.procs| && t != tid ==> s'.procs[t] == s.procs[t]
    requires var h := HeldRef(s'.procs[tid]);
             h.None? || h == HeldRef(s.procs[tid])
             || (NotHeld(s, h.value) && forall t :: 0 <= t < |s.procs| && s.procs[t].CallbackFind? ==>
                 s.procs[t].ref != h.value)
    requires !s'.procs[tid].CallbackFind?
    ensures RefsApart(s')
  {
  }

  lemma {:induction false} SerialStepKeeps(s: State, tid: nat, c: Choice)
    requires SerialOk(s) && tid < |s.procs| && Orderly(s, Step(tid, c))
    ensures SerialOk(Apply(s, Step(tid, c)))
  {
    StepKeeps(s, tid, c);
    StepFacts(s, tid, c);
    StepOthers(s, tid, c);
    StepClaims(s, tid, c);
  }

  lemma {:induction false} StepClaims(s: State, tid: nat, c: Choice)
    requires SerialOk(s) && tid < |s.procs| && Orderly(s, Step(tid, c))
    ensures LocksApart(Apply(s, Step(tid, c))) && RefsApart(Apply(s, Step(tid, c)))
  {
    StepFacts(s, tid, c);
    StepOthers(s, tid, c);
    ClaimsApart(s, Apply(s, Step(tid, c)), tid);
  }

  // --- The surroundings --------------------------------------------------------------------

  /** Rows, calls and issued deposits are the same; a gateway deposit keeps its amount and link. */
  ghost predicate SameLedger(w: World, w': World)
  {
    && w'.table == w.table && w'.calls == w.calls && w'.h.issuedFor == w.h.issuedFor
    && w'.deposits.Keys == w.deposits.Keys
    && forall r :: r in w.deposits ==>
       w'.deposits[r].amount == w.deposits[r].amount && w'.deposits[r].link == w.deposits[r].link
  }

  lemma {:induction false} LedgerAgrees(w: World, w': World)
    requires AgreementOk(w) && SameLedger(w, w')
    requires forall r :: r in w.deposits ==> NeverLeavesCompleted(w'.deposits[r])
    requires forall r :: r in w.deposits && Delivered(w, r, Completed) ==> Delivered(w', r, Completed)
    ensures AgreementOk(w')
  {
    forall i | 0 <= i < |w'.table| ensures RowAgrees(w', w'.table[i]) {
      assert RowAgrees(w, w.table[i]);
    }
    forall ref | ref in w'.deposits ensures IssuedOk(w', ref) {
      assert IssuedOk(w, ref);
    }
    forall c | 0 <= c < |w'.calls| ensures RefundCallOk(w', w'.calls[c]) {
      assert RefundCallOk(w, w.calls[c]);
      SameTableRefundCall(w, w', w.calls[c]);
    }
  }

  /** Only the last delivered status of a deposit matters to a waiting callback. */
  lemma {:induction false} LedgerProcStable(w: World, w': World, q: Proc)
    requires SameLedger(w, w') && SerialProcOk(w, q)
    requires q.CallbackFind? && Delivered(w, q.ref, q.status) && RowLock(FindRef(w.table, q.ref)).Some? ==>
             Delivered(w', q.ref, q.status)
    requires q.CallbackUpdate? && q.p.typ.Deposit? ==> Delivered(w', q.p.diarraRef, q.status)
    requires Unique(w.table)
    ensures SerialProcOk(w', q)
  {
    if q.CallbackFind? {
      forall i | 0 <= i < |w'.table| && w'.table[i].diarraRef == q.ref && w'.table[i].typ.Deposit?
        ensures Delivered(w', q.ref, q.status)
      {
        FindExact(w.table, i);
      }
    }
  }

  /** The clock and the admin change neither rows nor gateway. */
  lemma {:induction false} QuietKeeps(w: World, w': World, procs: seq<Proc>)
    requires Unique(w.table) && AgreementOk(w) && ProcsAgree(w, procs) && SameLedger(w, w') && w'.deposits == w.deposits
    ensures AgreementOk(w') && ProcsAgree(w', procs)
  {
    assert forall r :: r in w.deposits ==> IssuedOk(w, r);
    LedgerAgrees(w, w');
    forall t | 0 <= t < |procs| ensures SerialProcOk(w', procs[t]) {
      LedgerProcStable(w, w', procs[t]);
    }
  }

  lemma {:induction false} MoveAgrees(w: World, ref: string, status: Status)
    requires AgreementOk(w) && ref in w.deposits && (Completed in w.deposits[ref].history ==> status == Completed)
    ensures AgreementOk(MoveDeposit(w, ref, status))
  {
    assert forall r :: r in w.deposits ==> IssuedOk(w, r);
    LedgerAgrees(w, MoveDeposit(w, ref, status));
  }

  lemma {:induction false} MoveProcs(w: World, ref: string, status: Status, procs: seq<Proc>)
    requires Unique(w.table) && ref in w.deposits && ProcsAgree(w, procs)
    ensures ProcsAgree(MoveDeposit(w, ref, status), procs)
  {
    forall t | 0 <= t < |procs| ensures SerialProcOk(MoveDeposit(w, ref, status), procs[t]) {
      LedgerProcStable(w, MoveDeposit(w, ref, status), procs[t]);
    }
  }

  lemma {:induction false} DeliveryAgrees(w: World, ref: string, index: nat)
    requires AgreementOk(w) && ref in w.deposits && w.deposits[ref].delivered <= index < |w.deposits[ref].history|
    ensures AgreementOk(MarkDelivered(w, ref, index))
  {
    assert forall r :: r in w.deposits ==> IssuedOk(w, r);
    LedgerAgrees(w, MarkDelivered(w, ref, index));
  }

  /** A waiting callback is not about the deposit row of `ref`, whose key nobody holds. */
  lemma {:induction false} NotWaiting(w: World, ref: string, q: Proc)
    requires Unique(w.table) && SerialProcOk(w, q)
    requires RowLock(FindRef(w.table, ref)).Some? ==> LockOf(w.table, q) != RowLock(FindRef(w.table, ref))
    ensures q.CallbackFind? && RowLock(FindRef(w.table, q.ref)).Some? ==> q.ref != ref
    ensures q.CallbackUpdate? && q.p.typ.Deposit? ==> q.p.diarraRef != ref
  {
    if q.CallbackUpdate? && q.p.typ.Deposit? {
      FindExact(w.table, q.p.id);
    }
  }

  lemma {:induction false} DeliveryProcs(w: World, ref: string, index: nat, procs: seq<Proc>)
    requires Unique(w.table) && ref in w.deposits && ProcsAgree(w, procs)
    requires var k := RowLock(FindRef(w.table, ref));
             k.Some? ==> forall t :: 0 <= t < |procs| ==> LockOf(w.table, procs[t]) != k
    ensures ProcsAgree(MarkDelivered(w, ref, index), procs)
  {
    forall t | 0 <= t < |procs| ensures SerialProcOk(MarkDelivered(w, ref, index), procs[t]) {
      NotWaiting(w, ref, procs[t]);
      LedgerProcStable(w, MarkDelivered(w, ref, index), procs[t]);
    }
  }

  /** One more program, whose claims are free. */
  lemma {:induction false} AddedClaims(s: State, w': World, p: Proc)
    requires LocksApart(s) && RefsApart(s) && w'.table == s.w.table
    requires LockOf(s.w.table, p).Some? ==> Unlocked(s, LockOf(s.w.table, p).value)
    requires HeldRef(p).None? && (p.CallbackFind? ==> NotHeld(s, p.ref))
    ensures LocksApart(State(w', s.procs + [p])) && RefsApart(State(w', s.procs + [p]))
  {
  }

  lemma {:induction false} AddedAgrees(w: World, procs: seq<Proc>, p: Proc)
    requires ProcsAgree(w, procs) && SerialProcOk(w, p)
    ensures ProcsAgree(w, procs + [p])
  {
  }

  lemma {:induction false} GatewayMovesKeeps(s: State, ref: string, status: Status)
    requires SerialOk(s) && Orderly(s, GatewayMoves(ref, status)) && ref in s.w.deposits
    ensures var s' := s.(w := MoveDeposit(s.w, ref, status));
            AgreementOk(s'.w) && ProcsAgree(s'.w, s'.procs) && LocksApart(s') && RefsApart(s')
  {
    MoveAgrees(s.w, ref, status);
    MoveProcs(s.w, ref, status, s.procs);
  }

  lemma {:induction false} DeliverKeeps(s: State, ref: string, index: nat, reason: string)
    requires Unique(s.w.table) && AgreementOk(s.w) && ProcsAgree(s.w, s.procs) && LocksApart(s) && RefsApart(s)
    requires Orderly(s, Deliver(ref, index, reason)) && ref in s.w.deposits && index < |s.w.deposits[ref].history|
    ensures var s' := State(MarkDelivered(s.w, ref, index),
                            s.procs + [CallbackFind(ref, s.w.deposits[ref].history[index], reason)]);
            AgreementOk(s'.w) && ProcsAgree(s'.w, s'.procs) && LocksApart(s') && RefsApart(s')
  {
    var w', p := MarkDelivered(s.w, ref, index), CallbackFind(ref, s.w.deposits[ref].history[index], reason);
    DeliveryAgrees(s.w, ref, index);
    DeliveryProcs(s.w, ref, index, s.procs);
    AddedAgrees(w', s.procs, p);
    AddedClaims(s, w', p);
  }

  lemma {:induction false} StartKeeps(s: State, p: Proc)
    requires Unique(s.w.table) && AgreementOk(s.w) && ProcsAgree(s.w, s.procs) && LocksApart(s) && RefsApart(s)
    requires Entry(p) && Orderly(s, Start(p))
    ensures var s' := State(s.w, s.procs + [p]); ProcsAgree(s'.w, s'.procs) && LocksApart(s') && RefsApart(s')
  {
    if p.CallbackFind? {
      FoundRef(s.w.table, p.ref);
    }
    AddedAgrees(s.w, s.procs, p);
    AddedClaims(s, s.w, p);
  }

  lemma {:induction false} CrashKeeps(s: State, tid: nat)
    requires ProcsAgree(s.w, s.procs) && LocksApart(s) && RefsApart(s) && tid < |s.procs|
    ensures var s' := s.(procs := s.procs[tid := Done]); ProcsAgree(s'.w, s'.procs) && LocksApart(s') && RefsApart(s')
  {
    ClaimsApart(s, s.(procs := s.procs[tid := Done]), tid);
  }

  /** The part of the invariant that goes beyond `StateOk`. */
  ghost predicate Agreement(s: State)
  {
    AgreementOk(s.w) && ProcsAgree(s.w, s.procs) && LocksApart(s) && RefsApart(s)
  }

  lemma {:induction false} GatewayAction(s: State, a: Action)
    requires SerialOk(s) && Orderly(s, a) && (a.GatewayMoves? || a.Deliver?)
    ensures Agreement(Apply(s, a))
  {
    if a.GatewayMoves? && a.ref in s.w.deposits {
      GatewayMovesKeeps(s, a.ref, a.status);
    } else if a.Deliver? && a.ref in s.w.deposits && a.index < |s.w.deposits[a.ref].history| {
      DeliverKeeps(s, a.ref, a.index, a.reason);
    }
  }

  lemma {:induction false} RequestAction(s: State, a: Action)
    requires SerialOk(s) && Orderly(s, a) && (a.Start? || a.Crash?)
    ensures Agreement(Apply(s, a))
  {
    if a.Start? && Entry(a.p) {
      StartKeeps(s, a.p);
    } else if a.Crash? && a.tid < |s.procs| {
      CrashKeeps(s, a.tid);
    }
  }

  lemma {:induction false} QuietAction(s: State, a: Action)
    requires SerialOk(s) && (a.Tick? || a.CreateApp? || a.SetKYCLevel?)
    ensures Agreement(Apply(s, a))
  {
    QuietKeeps(s.w, Apply(s, a).w, s.procs);
  }

  lemma {:induction false} SerialApply(s: State, a: Action)
    requires SerialOk(s) && Orderly(s, a)
    ensures SerialOk(Apply(s, a))
  {
    if a.Step? {
      if a.tid < |s.procs| {
        SerialStepKeeps(s, a.tid, a.c);
      }
    } else {
      ApplyKeeps(s, a);
      if a.GatewayMoves? || a.Deliver? { GatewayAction(s, a); }
      else if a.Start? || a.Crash? { RequestAction(s, a); }
      else { QuietAction(s, a); }
    }
  }

  lemma {:induction false} OrderlyKeeps(acts: seq<Action>)
    requires OrderlyRun(acts)
    ensures SerialOk(Run(acts))
  {
    if 0 < |acts| {
      OrderlyKeeps(acts[..|acts| - 1]);
      SerialApply(Run(acts[..|acts| - 1]), acts[|acts| - 1]);
    }
  }
}
