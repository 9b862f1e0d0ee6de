/** What orderly runs guarantee about deposits, their links and their refunds. */
module SerialGuarantees {
  import opened Fees
  import opened Model
  import opened Table
  import opened Ledger
  import opened Invariant
  import opened Steps
  import opened Runs
  import opened Serial
  import opened SerialSteps
  import opened SerialLocal
  import opened SerialRuns

  /** What an orderly action may do to a deposit that is already completed: nothing that matters. */
  lemma {:induction false} CompletedKept(s: State, a: Action, i: nat)
    requires SerialOk(s) && Orderly(s, a) && IsDeposit(s.w, i) && s.w.table[i].status.Completed?
    ensures var w' := Apply(s, a).w;
            IsDeposit(w', i) && w'.table[i].status.Completed? && w'.table[i].diarraRef == s.w.table[i].diarraRef
  {
    ApplyKeeps(s, a);
    SameReferences(s.w.table[i], Apply(s, a).w.table[i]);
    if a.Step? {
      if a.tid < |s.procs| {
        StepFacts(s, a.tid, a.c);
      }
    } else {
      OutsideAction(s, a);
    }
  }

  lemma {:induction false} OrderlySplit(acts: seq<Action>, more: seq<Action>)
    requires OrderlyRun(acts + more)
    ensures OrderlyRun(acts)
  {
    if |more| == 0 {
      assert acts + more == acts;
    } else {
      assert (acts + more)[..|acts + more| - 1] == acts + more[..|more| - 1];
      OrderlySplit(acts, more[..|more| - 1]);
    }
  }

  /** Once completed, a deposit row keeps its status and its client ref for the rest of an orderly
      run; that ref is one the gateway reported completed, for exactly the row's amount. */
  lemma {:induction false} CompletedIsFinal(acts: seq<Action>, more: seq<Action>, i: nat)
    requires OrderlyRun(acts + more) && IsDeposit(Run(acts).w, i) && Run(acts).w.table[i].status == Completed
    ensures var p, w := Run(acts).w.table[i], Run(acts + more).w;
            && IsDeposit(w, i) && w.table[i].status == Completed && w.table[i].diarraRef == p.diarraRef
            && p.diarraRef in w.deposits && Completed in w.deposits[p.diarraRef].history
            && w.deposits[p.diarraRef].amount == w.table[i].amount
  {
    if |more| == 0 {
      assert acts + more == acts;
    } else {
      var m, a := more[..|more| - 1], more[|more| - 1];
      assert acts + more == (acts + m) + [a];
      OrderlySplit(acts + m, [a]);
      CompletedIsFinal(acts, m, i);
      OrderlyKeeps(acts + m);
      RunSnoc(acts + m, a);
      LastOrderly(acts + m, a);
      CompletedKept(Run(acts + m), a, i);
    }
    OrderlyKeeps(acts + more);
    CompletedAtGateway(Run(acts + more).w, i);
  }

  lemma {:induction false} LastOrderly(acts: seq<Action>, a: Action)
    requires OrderlyRun(acts + [a])
    ensures Orderly(Run(acts), a)
  {
    assert (acts + [a])[..|acts|] == acts;
  }

  lemma {:induction false} CompletedAtGateway(w: World, i: nat)
    requires Unique(w.table) && AgreementOk(w) && IsDeposit(w, i) && w.table[i].status.Completed?
    ensures var ref := w.table[i].diarraRef;
            ref in w.deposits && Completed in w.deposits[ref].history && w.deposits[ref].amount == w.table[i].amount
  {
    assert RowAgrees(w, w.table[i]);
    assert IssuedOk(w, w.table[i].diarraRef);
  }

  /** Row `x` is the refund row of the call, and the deposit named is paid, for the same amount. */
  ghost predicate NamesPaidDeposit(w: World, call: Call, x: nat)
    requires call.RefundCall?
  {
    && x < |w.table| && w.table[x].typ == Refund && w.table[x].diarraRef == call.ref
    && call.depositRef in w.deposits && Completed in w.deposits[call.depositRef].history
    && w.table[x].amount == w.deposits[call.depositRef].amount
  }

  lemma {:induction false} RefundCallNamesPaid(w: World, call: Call) returns (x: nat)
    requires TableOk(w) && AgreementOk(w) && call.RefundCall? && RefundCallOk(w, call)
    ensures NamesPaidDeposit(w, call, x)
  {
    x :| Matches(w.table, x, call) && RefundsRef(w, x, call.depositRef);
    assert LinkOk(w, w.table[x]);
    CompletedAtGateway(w, w.table[x].refundOf.value);
  }

  /** In an orderly run every refund call names a gateway deposit that was completed, whose amount is
      exactly that of the refund row the call was made for. */
  lemma {:induction false} RefundsNamePaidDeposits(acts: seq<Action>, c: nat)
    requires OrderlyRun(acts) && c < |Run(acts).w.calls| && Run(acts).w.calls[c].RefundCall?
    ensures exists x: nat :: NamesPaidDeposit(Run(acts).w, Run(acts).w.calls[c], x)
  {
    OrderlyKeeps(acts);
    var x := RefundCallNamesPaid(Run(acts).w, Run(acts).w.calls[c]);
  }

  /** A deposit row shows no link, or the one the gateway issued for its current client ref; and
      that gateway deposit was created for this row. */
  ghost predicate LinkAgrees(w: World, i: nat)
    requires i < |w.table|
  {
    var p := w.table[i];
    p.redirect.Some? ==>
      && p.diarraRef in w.deposits && p.redirect.value == w.deposits[p.diarraRef].link
      && p.diarraRef in w.h.issuedFor && w.h.issuedFor[p.diarraRef] == i
  }

  /** In an orderly run every deposit row agrees with its link, and every gateway deposit was issued
      for one deposit row, with that row's amount. */
  lemma {:induction false} LinksAgree(acts: seq<Action>)
    requires OrderlyRun(acts)
    ensures var w := Run(acts).w;
            && (forall i: nat :: IsDeposit(w, i) ==> LinkAgrees(w, i))
            && (forall ref :: ref in w.deposits ==>
                  && ref in w.h.issuedFor && IsDeposit(w, w.h.issuedFor[ref])
                  && w.deposits[ref].amount == w.table[w.h.issuedFor[ref]].amount)
  {
    OrderlyKeeps(acts);
    AgreementLinks(Run(acts).w);
  }

  lemma {:induction false} AgreementLinks(w: World)
    requires Unique(w.table) && AgreementOk(w)
    ensures forall i: nat :: IsDeposit(w, i) ==> LinkAgrees(w, i)
    ensures forall ref :: ref in w.deposits ==>
              && ref in w.h.issuedFor && IsDeposit(w, w.h.issuedFor[ref])
              && w.deposits[ref].amount == w.table[w.h.issuedFor[ref]].amount
  {
    forall i: nat | IsDeposit(w, i) ensures LinkAgrees(w, i) {
      assert RowAgrees(w, w.table[i]);
    }
    assert forall ref :: ref in w.deposits ==> IssuedOk(w, ref);
  }

  // --- Superseded links --------------------------------------------------------------------

  /** The gateway knows `ref`, but no row carries it and no program is about to attach it:
      a refresh replaced it, or its program died. */
  ghost predicate Retired(s: State, ref: string)
  {
    ref in s.w.deposits && NoRowHas(s.w.table, ref) && NotHeld(s, ref)
  }

  lemma {:induction false} RetiredStays(s: State, a: Action, ref: string)
    requires SerialOk(s) && Orderly(s, a) && Retired(s, ref)
    ensures Retired(Apply(s, a), ref)
  {
    if a.Step? {
      if a.tid < |s.procs| {
        RetiredStep(s, a.tid, a.c, ref);
      }
    } else {
      RetiredOutside(s, a, ref);
    }
  }

  lemma {:induction false} RetiredOutside(s: State, a: Action, ref: string)
    requires !a.Step? && Retired(s, ref)
    ensures Retired(Apply(s, a), ref)
  {
  }

  lemma {:induction false} RetiredStep(s: State, tid: nat, c: Choice, ref: string)
    requires SerialOk(s) && tid < |s.procs| && Orderly(s, Step(tid, c)) && Retired(s, ref)
    ensures Retired(Apply(s, Step(tid, c)), ref)
  {
    var s' := Apply(s, Step(tid, c));
    StepKeepsRetired(s, tid, c, ref);
    NotHeldAfter(s, s', tid, ref);
  }

  lemma {:induction false} StepKeepsRetired(s: State, tid: nat, c: Choice, ref: string)
    requires SerialOk(s) && tid < |s.procs| && Orderly(s, Step(tid, c)) && Retired(s, ref)
    ensures var o := Local(s.w, s.procs[tid], c); var w' := Exec(s.w, o.effect);
            ref in w'.deposits && NoRowHas(w'.table, ref) && HeldRef(o.next) != Some(ref)
  {
    StepFacts(s, tid, c);
    var p := s.procs[tid];
    var o := Local(s.w, p, c);
    NewRefStable(s.w, Exec(s.w, o.effect), LockOf(s.w.table, p), HeldRef(p), ref);
    StillKnown(s.w, Exec(s.w, o.effect), LockOf(s.w.table, p), HeldRef(p), ref);
    NextHolds(s.w, p, c, o, ref);
  }

  lemma {:induction false} NextHolds(w: World, p: Proc, c: Choice, o: Outcome, ref: string)
    requires KeepsClaims(w, p, c, o) && HeldRef(p) != Some(ref) && (Draws(p) ==> c.uuid != ref)
    ensures HeldRef(o.next) != Some(ref)
  {
  }

  /** The known gateway deposits only grow. */
  lemma {:induction false} StillKnown(w: World, w': World, k: Option<Key>, h: Option<string>, ref: string)
    requires Frame(w, w', k, h) && ref in w.deposits
    ensures ref in w'.deposits
  {
  }

  lemma {:induction false} NotHeldAfter(s: State, s': State, tid: nat, ref: string)
    requires NotHeld(s, ref) && tid < |s.procs| == |s'.procs|
    requires forall t :: 0 <= t < |s.procs| && t != tid ==> s'.procs[t] == s.procs[t]
    requires HeldRef(s'.procs[tid]) != Some(ref)
    ensures NotHeld(s', ref)
  {
  }

  /** Callback programs waiting on `ref` end at their lookup. */
  ghost predicate CallbacksOrphaned(s: State, ref: string)
  {
    forall t, c :: 0 <= t < |s.procs| && s.procs[t].CallbackFind? && s.procs[t].ref == ref ==>
      (Local(s.w, s.procs[t], c) == Outcome(Done, Nothing))
  }

  /** A retired ref never comes back: however an orderly run goes on, no row carries it again, and a
      callback on it ends at its lookup without touching anything. */
  lemma {:induction false} RetiredForever(acts: seq<Action>, more: seq<Action>, ref: string)
    requires OrderlyRun(acts + more) && Retired(Run(acts), ref)
    ensures Retired(Run(acts + more), ref)
    ensures CallbacksOrphaned(Run(acts + more), ref)
  {
    if |more| == 0 {
      assert acts + more == acts;
    } else {
      var m, a := more[..|more| - 1], more[|more| - 1];
      assert acts + more == (acts + m) + [a];
      OrderlySplit(acts + m, [a]);
      RetiredForever(acts, m, ref);
      OrderlyKeeps(acts + m);
      RunSnoc(acts + m, a);
      LastOrderly(acts + m, a);
      RetiredStays(Run(acts + m), a, ref);
    }
    OrphanCallbacks(Run(acts + more), ref);
  }

  lemma {:induction false} OrphanCallbacks(s: State, ref: string)
    requires NoRowHas(s.w.table, ref)
    ensures CallbacksOrphaned(s, ref)
  {
  }

  lemma {:induction false} HeldElsewhere(w: World, p: Proc, q: Proc)
    requires Unique(w.table) && SerialProcOk(w, p) && p.RefreshSave? && SerialProcOk(w, q)
    requires LockOf(w.table, p) != LockOf(w.table, q) && ProcOk(w, q)
    ensures HeldRef(q) != Some(w.table[p.id].diarraRef)
  {
  }

  /** Nobody holds the ref of a row that is about to be refreshed. */
  lemma {:induction false} RowRefNotHeld(s: State, tid: nat)
    requires SerialOk(s) && tid < |s.procs| && s.procs[tid].RefreshSave?
    ensures s.procs[tid].id < |s.w.table| && NotHeld(s, s.w.table[s.procs[tid].id].diarraRef)
  {
    var p := s.procs[tid];
    assert SerialProcOk(s.w, p);
    forall t | 0 <= t < |s.procs| ensures HeldRef(s.procs[t]) != Some(s.w.table[p.id].diarraRef) {
      if t != tid { HeldElsewhere(s.w, p, s.procs[t]); }
    }
  }

  lemma {:induction false} RefreshSaved(s: State, tid: nat, c: Choice)
    requires tid < |s.procs| && s.procs[tid].RefreshSave? && !c.fault
    ensures var p := s.procs[tid];
            Apply(s, Step(tid, c)) ==
            State(s.w.(table := UpdateRefAndRedirect(s.w.table, p.id, p.uuid, p.url)), s.procs[tid := Done])
  {
  }

  /** A refresh attaches the new ref and link to the row it was asked for and takes the old ref off every
      row; when the gateway knows the old ref, it is retired. */
  lemma {:induction false} RefreshRetires(s: State, tid: nat, c: Choice)
    requires SerialOk(s) && tid < |s.procs| && s.procs[tid].RefreshSave? && !c.fault
    ensures var p := s.procs[tid]; var s' := Apply(s, Step(tid, c));
            && p.id < |s.w.table| && p.id < |s'.w.table|
            && s'.w.table[p.id].diarraRef == p.uuid && s'.w.table[p.id].redirect == Some(p.url)
            && NoRowHas(s'.w.table, s.w.table[p.id].diarraRef)
            && (s.w.table[p.id].diarraRef in s.w.deposits ==> Retired(s', s.w.table[p.id].diarraRef))
  {
    var p := s.procs[tid];
    assert SerialProcOk(s.w, p);
    RowRefNotHeld(s, tid);
    RekeyReplaces(s.w.table, p.id, p.uuid, p.url);
    RefreshSaved(s, tid, c);
    NotHeldAfter(s, Apply(s, Step(tid, c)), tid, s.w.table[p.id].diarraRef);
  }

  lemma {:induction false} RekeyReplaces(t: Rows, id: nat, ref: string, url: string)
    requires Unique(t) && id < |t| && NoRowHas(t, ref)
    ensures var t' := UpdateRefAndRedirect(t, id, ref, url);
            |t'| == |t| && t'[id].diarraRef == ref && t'[id].redirect == Some(url) && NoRowHas(t', t[id].diarraRef)
  {
  }
}
