/** Every step of every program keeps the invariant. */
module Steps {
  import opened Fees
  import opened Model
  import opened Table
  import opened Ledger
  import opened Invariant

  // --- Inserted rows ------------------------------------------------------------

  ghost predicate Inserts(w: World, row: Payment, onConflict: bool)
  {
    InsertOutcomeOf(w.table, w.apps.Keys, row, onConflict).Inserted?
  }

  /** A fresh row that the table accepts has exact money columns. */
  lemma {:induction false} FreshRowOk(w: World, row: Payment, onConflict: bool, amount: GoInt, usdRate: GoInt)
    requires Inserts(w, row, onConflict) && 0 < amount
    requires var c := Compute(amount, usdRate);
             row.amount == c.amount && row.fee == c.fee && row.net == Some(c.net) && row.rate == Some(c.rate)
    requires row.typ.Payout? ==> 0 < Compute(amount, usdRate).net
    ensures MoneyOk(row) && row.amount == amount
  {
    var c := Compute(amount, usdRate);
    assert c.amount == amount && c.rate == EffectiveRate(usdRate);
    ComputeIsCommission(amount, usdRate);
  }

  lemma {:induction false} DepositRowOk(w: World, d: DepositReq, uuid: string, row: Payment)
    requires row == DepositRow(d, uuid, w.now) && Inserts(w, row, true) && DepositReqOk(w.h, d)
    ensures EffectOk(w, Insert(row.(id := |w.table|), false))
  {
    FreshRowOk(w, row, true, d.amount, d.rate);
    InsertExact(w.table, w.apps.Keys, row, true);
  }

  lemma {:induction false} PayoutRowOk(w: World, o: PayoutReq, uuid: string, admin: bool, row: Payment)
    requires row == PayoutRow(o, uuid, w.now) && Inserts(w, row, false) && PayoutReqOk(w.h, o, admin)
    ensures EffectOk(w, Insert(row.(id := |w.table|), admin))
    ensures row.net == Some(Compute(o.amount, o.rate).net)
  {
    FreshRowOk(w, row, false, o.amount, o.rate);
    InsertExact(w.table, w.apps.Keys, row, false);
  }

  lemma {:induction false} RefundRowOk(w: World, dep: Payment, refundRef: string, callback: Option<string>, rate: GoInt,
                                       uuid: string, row: Payment)
    requires WorldOk(w) && RefundableSnapshot(w, dep)
    requires row == RefundRow(dep, refundRef, callback, rate, uuid, w.now) && Inserts(w, row, false)
    ensures EffectOk(w, Insert(row.(id := |w.table|), false))
  {
    SameReferences(dep, w.table[dep.id]);
    assert RowOk(w.table[dep.id]);
    FreshRowOk(w, row, false, dep.amount, rate);
    InsertExact(w.table, w.apps.Keys, row, false);
  }

  // --- Steps, program by program ---------------------------------------------------

  /** A program reaches a money call only through its own INSERT, with a ref no row had. */
  ghost predicate Handover(w: World, o: Outcome)
  {
    Sending(o.next) ==>
      && o.effect.Insert? && o.effect.row.diarraRef == o.next.uuid
      && NotCalled(w, o.next.uuid)
  }

  ghost predicate StepOk(w: World, p: Proc, o: Outcome)
  {
    && EffectOk(w, o.effect)
    && (if o.effect.Insert? then ProcOk(Exec(w, o.effect), o.next) else ProcOk(w, o.next))
    && Handover(w, o)
    && (o.effect.Send? && MovesOut(o.effect.call) ==> Sending(p) && o.effect.call.ref == p.uuid)
  }

  /** No call has used a ref that no row carries. */
  lemma {:induction false} FreshRefNotCalled(w: World, row: Payment, admin: bool)
    requires WorldOk(w) && EffectOk(w, Insert(row, admin))
    ensures NotCalled(w, row.diarraRef)
  {
    forall c | 0 <= c < |w.calls| && MovesOut(w.calls[c]) ensures w.calls[c].ref != row.diarraRef {
      var i :| Matches(w.table, i, w.calls[c]);
    }
  }

  /** A sound INSERT that goes on to a call the new row asks for is a sound step. */
  lemma {:induction false} InsertStepOk(w: World, p: Proc, next: Proc, row: Payment, admin: bool)
    requires WorldOk(w) && EffectOk(w, Insert(row, admin))
    requires next.DepositSend? ==> next.id == |w.table| && row.typ.Deposit?
    requires next.PayoutSend? ==>
             next.id == |w.table|
               && Matches([row], 0, PayoutCall(next.uuid, next.net, next.phone, next.operator, next.country))
    requires next.RefundSend? ==> next.id == |w.table| && Matches([row], 0, RefundCall(next.uuid, next.depositRef))
    requires next.DepositSend? || next.PayoutSend? || next.RefundSend?
    ensures StepOk(w, p, Outcome(next, Insert(row, admin)))
  {
    assert Exec(w, Insert(row, admin)).table[|w.table|] == row;
    FreshRefNotCalled(w, row, admin);
  }

  lemma {:induction false} DepositInsertStep(w: World, p: Proc, c: Choice)
    requires WorldOk(w) && p.DepositInsert? && DepositReqOk(w.h, p.d)
    ensures StepOk(w, p, LocalDeposit(w, p, c))
  {
    var row := DepositRow(p.d, p.uuid, w.now);
    if !c.fault && Inserts(w, row, true) {
      DepositRowOk(w, p.d, p.uuid, row);
      InsertStepOk(w, p, DepositSend(p.d, p.uuid, |w.table|), row.(id := |w.table|), false);
    }
  }

  lemma {:induction false} DepositLookupStep(w: World, p: Proc, c: Choice)
    requires Unique(w.table) && ProcOk(w, p) && (p.PayFind? || p.DepositReread?)
    ensures StepOk(w, p, LocalDeposit(w, p, c))
  {
    FoundKey(w.table, Key(p.d.appId, p.d.appRef, Deposit));
  }

  lemma {:induction false} DepositCapStep(w: World, p: Proc, c: Choice)
    requires forall a :: a in w.apps && w.apps[a].KYCVerified? ==> a in w.h.verified
    requires ProcOk(w, p) && (p.PayCap? || p.TestCap?)
    ensures StepOk(w, p, LocalDeposit(w, p, c))
  {
  }

  lemma {:induction false} DepositSendStep(w: World, p: Proc, c: Choice)
    requires ProcOk(w, p)
    requires p.DepositSend? || p.DepositFail? || p.DepositLink? || p.RefreshSend? || p.RefreshSave?
    ensures StepOk(w, p, LocalDeposit(w, p, c))
  {
  }

  lemma {:induction false} PayoutInsertStep(w: World, p: Proc, c: Choice)
    requires WorldOk(w) && p.PayoutInsert? && PayoutReqOk(w.h, p.o, p.admin)
    ensures StepOk(w, p, LocalPayout(w, p, c))
  {
    var row, net := PayoutRow(p.o, p.uuid, w.now), Compute(p.o.amount, p.o.rate).net;
    if !c.fault && Inserts(w, row, false) {
      PayoutRowOk(w, p.o, p.uuid, p.admin, row);
      InsertStepOk(w, p, PayoutSend(|w.table|, p.uuid, net, p.o.phone, p.o.operator, p.o.country),
                   row.(id := |w.table|), p.admin);
    }
  }

  lemma {:induction false} PayoutFindStep(w: World, p: Proc, c: Choice)
    requires ProcOk(w, p) && (p.PayoutFind? || p.Mark?)
    ensures StepOk(w, p, LocalPayout(w, p, c))
  {
  }

  lemma {:induction false} PayoutCheckStep(w: World, p: Proc, c: Choice)
    requires forall a :: a in w.apps && w.apps[a].KYCVerified? ==> a in w.h.verified
    requires ProcOk(w, p) && (p.PayoutCap? || p.AdminPayout?)
    ensures StepOk(w, p, LocalPayout(w, p, c))
  {
  }

  lemma {:induction false} PayoutSendStep(w: World, p: Proc, c: Choice)
    requires ProcOk(w, p) && p.PayoutSend? && NotCalled(w, p.uuid)
    ensures StepOk(w, p, LocalPayout(w, p, c))
  {
  }

  lemma {:induction false} RefundInsertStep(w: World, p: Proc, c: Choice)
    requires WorldOk(w) && p.RefundInsert? && RefundableSnapshot(w, p.dep)
    ensures StepOk(w, p, LocalRefund(w, p, c))
  {
    var row := RefundRow(p.dep, p.refundRef, p.callback, p.rate, p.uuid, w.now);
    if !c.fault && Inserts(w, row, false) {
      RefundRowOk(w, p.dep, p.refundRef, p.callback, p.rate, p.uuid, row);
      InsertStepOk(w, p, RefundSend(|w.table|, p.uuid, p.dep.diarraRef), row.(id := |w.table|), false);
    }
  }

  lemma {:induction false} RefundLookupStep(w: World, p: Proc, c: Choice)
    requires Unique(w.table) && forall i :: 0 <= i < |w.table| && w.table[i].status == Completed ==> i in w.h.completed
    requires p.RefundFind? || p.RefundLoad?
    ensures StepOk(w, p, LocalRefund(w, p, c))
  {
    FoundKey(w.table, Key(p.r.appId, p.r.depositAppRef, Deposit));
  }

  lemma {:induction false} AdminRefundStep(w: World, p: Proc, c: Choice)
    requires Unique(w.table) && forall i :: 0 <= i < |w.table| && w.table[i].status == Completed ==> i in w.h.completed
    requires ProcOk(w, p) && (p.AdminRefundLoad? || p.AdminRefundFind?)
    ensures StepOk(w, p, LocalRefund(w, p, c))
  {
  }

  lemma {:induction false} RefundSendStep(w: World, p: Proc, c: Choice)
    requires ProcOk(w, p) && p.RefundSend? && NotCalled(w, p.uuid)
    ensures StepOk(w, p, LocalRefund(w, p, c))
  {
  }

  lemma {:induction false} RelayLookupStep(w: World, p: Proc, c: Choice)
    requires Unique(w.table) && (p.CallbackFind? || p.AdminRelay?)
    ensures StepOk(w, p, LocalRelay(w, p, c))
  {
    if p.CallbackFind? {
      FoundRef(w.table, p.ref);
    }
  }

  lemma {:induction false} CallbackAgrees(w: World, row: Payment)
    requires SnapshotOk(w, row)
    ensures NoCallback(w.table[row.id]) == NoCallback(row)
  {
    SameReferences(row, w.table[row.id]);
  }

  lemma {:induction false} RelayStartStep(w: World, p: Proc, c: Choice)
    requires ProcOk(w, p) && p.RelayStart?
    ensures StepOk(w, p, LocalRelay(w, p, c))
  {
    CallbackAgrees(w, p.p);
  }

  lemma {:induction false} RelayAppStep(w: World, p: Proc, c: Choice)
    requires ProcOk(w, p) && p.RelayApp?
    ensures StepOk(w, p, LocalRelay(w, p, c))
  {
    CallbackAgrees(w, p.p);
  }

  lemma {:induction false} RelayPostStep(w: World, p: Proc, c: Choice)
    requires ProcOk(w, p) && p.RelayPost?
    ensures StepOk(w, p, LocalRelay(w, p, c))
  {
    CallbackAgrees(w, p.p);
  }

  lemma {:induction false} RelayWriteStep(w: World, p: Proc, c: Choice)
    requires ProcOk(w, p) && (p.CallbackUpdate? || p.RelaySave? || p.Done?)
    ensures StepOk(w, p, LocalRelay(w, p, c))
  {
  }

  lemma {:induction false} DepositStep(w: World, p: Proc, c: Choice)
    requires WorldOk(w) && ProcOk(w, p) && DepositPoint(p)
    ensures StepOk(w, p, LocalDeposit(w, p, c))
  {
    if p.PayFind? || p.DepositReread? { DepositLookupStep(w, p, c); }
    else if p.PayCap? || p.TestCap? { DepositCapStep(w, p, c); }
    else if p.DepositInsert? { DepositInsertStep(w, p, c); }
    else { DepositSendStep(w, p, c); }
  }

  lemma {:induction false} PayoutStep(w: World, p: Proc, c: Choice)
    requires WorldOk(w) && ProcOk(w, p) && PayoutPoint(p)
    requires Sending(p) ==> NotCalled(w, p.uuid)
    ensures StepOk(w, p, LocalPayout(w, p, c))
  {
    if p.PayoutInsert? { PayoutInsertStep(w, p, c); }
    else if p.PayoutSend? { PayoutSendStep(w, p, c); }
    else if p.PayoutFind? || p.Mark? { PayoutFindStep(w, p, c); }
    else { PayoutCheckStep(w, p, c); }
  }

  lemma {:induction false} RefundStep(w: World, p: Proc, c: Choice)
    requires WorldOk(w) && ProcOk(w, p) && RefundPoint(p)
    requires Sending(p) ==> NotCalled(w, p.uuid)
    ensures StepOk(w, p, LocalRefund(w, p, c))
  {
    if p.RefundInsert? { RefundInsertStep(w, p, c); }
    else if p.RefundSend? { RefundSendStep(w, p, c); }
    else if p.RefundFind? || p.RefundLoad? { RefundLookupStep(w, p, c); }
    else { AdminRefundStep(w, p, c); }
  }

  lemma {:induction false} RelayStep(w: World, p: Proc, c: Choice)
    requires WorldOk(w) && ProcOk(w, p) && !DepositPoint(p) && !PayoutPoint(p) && !RefundPoint(p)
    ensures StepOk(w, p, LocalRelay(w, p, c))
  {
    if p.CallbackFind? || p.AdminRelay? { RelayLookupStep(w, p, c); }
    else if p.RelayStart? { RelayStartStep(w, p, c); }
    else if p.RelayApp? { RelayAppStep(w, p, c); }
    else if p.RelayPost? { RelayPostStep(w, p, c); }
    else { RelayWriteStep(w, p, c); }
  }

  lemma {:induction false} LocalOk(w: World, p: Proc, c: Choice)
    requires WorldOk(w) && ProcOk(w, p)
    requires Sending(p) ==> NotCalled(w, p.uuid)
    ensures StepOk(w, p, Local(w, p, c))
  {
    if DepositPoint(p) { DepositStep(w, p, c); }
    else if PayoutPoint(p) { PayoutStep(w, p, c); }
    else if RefundPoint(p) { RefundStep(w, p, c); }
    else { RelayStep(w, p, c); }
  }
}
