/** Each program point under the serial assumptions. */
module SerialLocal {
  import opened Fees
  import opened Model
  import opened Table
  import opened Ledger
  import opened Invariant
  import opened Steps
  import opened Serial
  import opened SerialSteps

  /** What `Orderly` grants to one step, seen from the shared world. */
  ghost predicate Granted(w: World, p: Proc, c: Choice)
  {
    && (p.PayFind? ==> !c.fault)
    && (Draws(p) ==> NewRef(w, c.uuid))
    && (p.TestCap? ==> NoRowFor(w.table, Key(p.d.appId, "test-" + c.token, Deposit)))
  }

  /** The lock and the ref a program goes on with are the old ones, none, or the ones just drawn. */
  ghost predicate KeepsClaims(w: World, p: Proc, c: Choice, o: Outcome)
  {
    && (var k := LockOf(Exec(w, o.effect).table, o.next);
        k.None? || k == LockOf(w.table, p) || (p.TestCap? && k == Some(Key(p.d.appId, "test-" + c.token, Deposit))))
    && (HeldRef(o.next).None? || HeldRef(o.next) == HeldRef(p) || (Draws(p) && HeldRef(o.next) == Some(c.uuid)))
    && !o.next.CallbackFind?
  }

  ghost predicate SerialStep(w: World, p: Proc, c: Choice, o: Outcome)
  {
    && Respects(w, o.effect, LockOf(w.table, p), HeldRef(p))
    && Agrees(w, o.effect)
    && SerialProcOk(Exec(w, o.effect), o.next)
    && KeepsClaims(w, p, c, o)
  }

  // --- Pay and TestPay ------------------------------------------------------------------

  lemma {:induction false} SerialPayFind(w: World, p: Proc, c: Choice)
    requires Unique(w.table) && p.PayFind? && Granted(w, p, c)
    ensures SerialStep(w, p, c, LocalDeposit(w, p, c))
  {
    FoundKey(w.table, Key(p.d.appId, p.d.appRef, Deposit));
  }

  lemma {:induction false} SerialCap(w: World, p: Proc, c: Choice)
    requires (p.PayCap? || p.TestCap?) && SerialProcOk(w, p) && Granted(w, p, c)
    ensures SerialStep(w, p, c, LocalDeposit(w, p, c))
  {
  }

  lemma {:induction false} SerialDepositInsert(w: World, p: Proc, c: Choice)
    requires p.DepositInsert? && SerialProcOk(w, p)
    ensures SerialStep(w, p, c, LocalDeposit(w, p, c))
  {
    var row := DepositRow(p.d, p.uuid, w.now);
    InsertExact(w.table, w.apps.Keys, row, true);
    if !c.fault && Inserts(w, row, true) {
      assert Exec(w, LocalDeposit(w, p, c).effect).table[|w.table|] == row.(id := |w.table|);
    }
  }

  lemma {:induction false} SerialDepositSend(w: World, p: Proc, c: Choice)
    requires Unique(w.table) && p.DepositSend? && SerialProcOk(w, p)
    ensures SerialStep(w, p, c, LocalDeposit(w, p, c))
  {
    assert forall i :: 0 <= i < |w.table| && w.table[i].diarraRef == p.uuid ==> i == p.id;
  }

  lemma {:induction false} SerialDepositEnd(w: World, p: Proc, c: Choice)
    requires (p.DepositFail? || p.DepositLink?) && SerialProcOk(w, p)
    ensures SerialStep(w, p, c, LocalDeposit(w, p, c))
  {
  }

  lemma {:induction false} SerialRefreshSend(w: World, p: Proc, c: Choice)
    requires p.RefreshSend? && SerialProcOk(w, p)
    ensures SerialStep(w, p, c, LocalDeposit(w, p, c))
  {
  }

  lemma {:induction false} SerialRefreshSave(w: World, p: Proc, c: Choice)
    requires p.RefreshSave? && SerialProcOk(w, p)
    ensures SerialStep(w, p, c, LocalDeposit(w, p, c))
  {
  }

  lemma {:induction false} SerialDeposit(w: World, p: Proc, c: Choice)
    requires Unique(w.table) && SerialProcOk(w, p) && Granted(w, p, c) && DepositPoint(p)
    ensures SerialStep(w, p, c, LocalDeposit(w, p, c))
  {
    if p.PayFind? { SerialPayFind(w, p, c); }
    else if p.PayCap? || p.TestCap? { SerialCap(w, p, c); }
    else if p.DepositInsert? { SerialDepositInsert(w, p, c); }
    else if p.DepositSend? { SerialDepositSend(w, p, c); }
    else if p.RefreshSend? { SerialRefreshSend(w, p, c); }
    else if p.RefreshSave? { SerialRefreshSave(w, p, c); }
    else { SerialDepositEnd(w, p, c); }
  }

  // --- Payouts -----------------------------------------------------------------------------

  lemma {:induction false} SerialPayoutInsert(w: World, p: Proc, c: Choice)
    requires p.PayoutInsert? && SerialProcOk(w, p)
    ensures SerialStep(w, p, c, LocalPayout(w, p, c))
  {
    var row := PayoutRow(p.o, p.uuid, w.now);
    InsertExact(w.table, w.apps.Keys, row, false);
  }

  lemma {:induction false} SerialPayoutSend(w: World, p: Proc, c: Choice)
    requires p.PayoutSend? && ProcOk(w, p)
    ensures SerialStep(w, p, c, LocalPayout(w, p, c))
  {
  }

  lemma {:induction false} SerialPayoutPlain(w: World, p: Proc, c: Choice)
    requires (p.PayoutFind? || p.PayoutCap? || p.AdminPayout? || p.Mark?) && SerialProcOk(w, p) && Granted(w, p, c)
    ensures SerialStep(w, p, c, LocalPayout(w, p, c))
  {
  }

  lemma {:induction false} SerialPayout(w: World, p: Proc, c: Choice)
    requires ProcOk(w, p) && SerialProcOk(w, p) && Granted(w, p, c) && PayoutPoint(p)
    ensures SerialStep(w, p, c, LocalPayout(w, p, c))
  {
    if p.PayoutInsert? { SerialPayoutInsert(w, p, c); }
    else if p.PayoutSend? { SerialPayoutSend(w, p, c); }
    else { SerialPayoutPlain(w, p, c); }
  }

  // --- Refunds -------------------------------------------------------------------------------

  lemma {:induction false} SerialRefundFind(w: World, p: Proc, c: Choice)
    requires p.RefundFind?
    ensures SerialStep(w, p, c, LocalRefund(w, p, c))
  {
  }

  lemma {:induction false} SerialRefundLoad(w: World, p: Proc, c: Choice)
    requires Unique(w.table) && p.RefundLoad? && Granted(w, p, c)
    ensures SerialStep(w, p, c, LocalRefund(w, p, c))
  {
    FoundKey(w.table, Key(p.r.appId, p.r.depositAppRef, Deposit));
  }

  lemma {:induction false} SerialAdminRefund(w: World, p: Proc, c: Choice)
    requires Unique(w.table) && (p.AdminRefundLoad? || p.AdminRefundFind?) && SerialProcOk(w, p) && Granted(w, p, c)
    ensures SerialStep(w, p, c, LocalRefund(w, p, c))
  {
  }

  lemma {:induction false} SerialRefundInsert(w: World, p: Proc, c: Choice)
    requires p.RefundInsert? && SerialProcOk(w, p)
    ensures SerialStep(w, p, c, LocalRefund(w, p, c))
  {
    var row := RefundRow(p.dep, p.refundRef, p.callback, p.rate, p.uuid, w.now);
    InsertExact(w.table, w.apps.Keys, row, false);
    if !c.fault && Inserts(w, row, false) {
      var w' := Exec(w, LocalRefund(w, p, c).effect);
      assert w'.table[|w.table|] == row.(id := |w.table|);
      assert w'.table[p.dep.id] == w.table[p.dep.id];
    }
  }

  lemma {:induction false} SerialRefundSend(w: World, p: Proc, c: Choice)
    requires p.RefundSend? && ProcOk(w, p) && SerialProcOk(w, p)
    ensures SerialStep(w, p, c, LocalRefund(w, p, c))
  {
  }

  lemma {:induction false} SerialRefund(w: World, p: Proc, c: Choice)
    requires Unique(w.table) && ProcOk(w, p) && SerialProcOk(w, p) && Granted(w, p, c) && RefundPoint(p)
    ensures SerialStep(w, p, c, LocalRefund(w, p, c))
  {
    if p.RefundInsert? { SerialRefundInsert(w, p, c); }
    else if p.RefundSend? { SerialRefundSend(w, p, c); }
    else if p.RefundFind? { SerialRefundFind(w, p, c); }
    else if p.RefundLoad? { SerialRefundLoad(w, p, c); }
    else { SerialAdminRefund(w, p, c); }
  }

  // --- Callbacks and relays ---------------------------------------------------------------------

  lemma {:induction false} SerialCallbackFind(w: World, p: Proc, c: Choice)
    requires Unique(w.table) && p.CallbackFind? && SerialProcOk(w, p)
    ensures SerialStep(w, p, c, LocalRelay(w, p, c))
  {
    FoundRef(w.table, p.ref);
  }

  /** A callback never takes a deposit row out of 'completed'. */
  lemma {:induction false} SerialCallbackUpdate(w: World, p: Proc, c: Choice)
    requires p.CallbackUpdate? && ProcOk(w, p) && SerialProcOk(w, p) && AgreementOk(w)
    ensures SerialStep(w, p, c, LocalRelay(w, p, c))
  {
    SameReferences(w.table[p.p.id], p.p);
    assert RowAgrees(w, w.table[p.p.id]);
  }

  lemma {:induction false} SerialAdminRelay(w: World, p: Proc, c: Choice)
    requires p.AdminRelay?
    ensures SerialStep(w, p, c, LocalRelay(w, p, c))
  {
  }

  lemma {:induction false} SerialRelayStart(w: World, p: Proc, c: Choice)
    requires p.RelayStart?
    ensures SerialStep(w, p, c, LocalRelay(w, p, c))
  {
  }

  lemma {:induction false} SerialRelayApp(w: World, p: Proc, c: Choice)
    requires p.RelayApp?
    ensures SerialStep(w, p, c, LocalRelay(w, p, c))
  {
  }

  lemma {:induction false} SerialRelayPost(w: World, p: Proc, c: Choice)
    requires p.RelayPost?
    ensures SerialStep(w, p, c, LocalRelay(w, p, c))
  {
  }

  lemma {:induction false} SerialRelaySave(w: World, p: Proc, c: Choice)
    requires p.RelaySave? || p.Done?
    ensures SerialStep(w, p, c, LocalRelay(w, p, c))
  {
  }

  lemma {:induction false} SerialLocalOk(w: World, p: Proc, c: Choice)
    requires Unique(w.table) && AgreementOk(w) && ProcOk(w, p) && SerialProcOk(w, p) && Granted(w, p, c)
    ensures SerialStep(w, p, c, Local(w, p, c))
  {
    if DepositPoint(p) { SerialDeposit(w, p, c); }
    else if PayoutPoint(p) { SerialPayout(w, p, c); }
    else if RefundPoint(p) { SerialRefund(w, p, c); }
    else if p.CallbackFind? { SerialCallbackFind(w, p, c); }
    else if p.CallbackUpdate? { SerialCallbackUpdate(w, p, c); }
    else if p.RelayPost? { SerialRelayPost(w, p, c); }
    else if p.RelaySave? || p.Done? { SerialRelaySave(w, p, c); }
    else if p.AdminRelay? { SerialAdminRelay(w, p, c); }
    else if p.RelayStart? { SerialRelayStart(w, p, c); }
    else { SerialRelayApp(w, p, c); }
  }
}
