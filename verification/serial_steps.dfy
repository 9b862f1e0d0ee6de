/** Every orderly action keeps deposit rows, links and gateway in agreement. */
module SerialSteps {
  import opened Fees
  import opened Model
  import opened Table
  import opened Ledger
  import opened Invariant
  import opened Steps
  import opened Runs
  import opened Serial

  // --- Other programs are not disturbed -------------------------------------------------

  ghost predicate Disjoint(t: Rows, q: Proc, k: Option<Key>, h: Option<string>)
  {
    && (LockOf(t, q).Some? ==> LockOf(t, q) != k)
    && (HeldRef(q).Some? ==> HeldRef(q) != h)
    && (q.CallbackFind? ==> Some(q.ref) != h)
  }

  lemma {:induction false} NewRefStable(w: World, w': World, k: Option<Key>, h: Option<string>, ref: string)
    requires Frame(w, w', k, h) && Some(ref) != h
    ensures NoRowHas(w.table, ref) ==> NoRowHas(w'.table, ref)
    ensures ref !in w.deposits ==> ref !in w'.deposits
  {
  }

  lemma {:induction false} NoRowForStable(w: World, w': World, k: Option<Key>, h: Option<string>, key: Key)
    requires Frame(w, w', k, h) && Some(key) != k && key.typ.Deposit? && NoRowFor(w.table, key)
    ensures NoRowFor(w'.table, key)
  {
    forall i | 0 <= i < |w'.table| ensures KeyOf(w'.table[i]) != key {
      if i < |w.table| {
        SameReferences(w.table[i], w'.table[i]);
      }
    }
  }

  /** What stays true of a deposit row another program has locked. */
  lemma {:induction false} LockedRowStable(w: World, w': World, k: Option<Key>, h: Option<string>, id: nat)
    requires Frame(w, w', k, h) && IsDeposit(w, id) && Some(KeyOf(w.table[id])) != k
    ensures IsDeposit(w', id) && KeyOf(w'.table[id]) == KeyOf(w.table[id]) && w'.table[id].amount == w.table[id].amount
    ensures SameLink(w.table[id], w'.table[id])
  {
    SameReferences(w.table[id], w'.table[id]);
  }

  lemma {:induction false} RefundsRefStable(w: World, w': World, k: Option<Key>, h: Option<string>, x: nat,
                                            depositRef: string)
    requires Frame(w, w', k, h) && RefundsRef(w, x, depositRef)
    ensures RefundsRef(w', x, depositRef)
  {
    SameReferences(w.table[x], w'.table[x]);
    var d := w.table[x].refundOf.value;
    SameReferences(w.table[d], w'.table[d]);
  }

  lemma {:induction false} StillCompletedStable(w: World, w': World, k: Option<Key>, h: Option<string>, dep: Payment)
    requires Frame(w, w', k, h) && StillCompleted(w, dep)
    ensures StillCompleted(w', dep)
  {
    SameReferences(w.table[dep.id], w'.table[dep.id]);
  }

  lemma {:induction false} FindRefStable(w: World, w': World, k: Option<Key>, h: Option<string>, ref: string)
    requires Frame(w, w', k, h) && Unique(w.table) && Unique(w'.table)
    requires Some(ref) != h && (RowLock(FindRef(w.table, ref)).Some? ==> RowLock(FindRef(w.table, ref)) != k)
    ensures RowLock(FindRef(w'.table, ref)) == RowLock(FindRef(w.table, ref))
    ensures forall i :: 0 <= i < |w'.table| && w'.table[i].diarraRef == ref && w'.table[i].typ.Deposit? ==>
              i < |w.table| && w.table[i].diarraRef == ref && w.table[i].typ.Deposit?
  {
    FoundRef(w.table, ref);
    FoundRef(w'.table, ref);
    if FindRef(w.table, ref).Some? {
      var i := FindRef(w.table, ref).value.id;
      SameReferences(w.table[i], w'.table[i]);
      FindExact(w'.table, i);
    }
    forall i | 0 <= i < |w'.table| && w'.table[i].diarraRef == ref && w'.table[i].typ.Deposit?
      ensures i < |w.table| && w.table[i].diarraRef == ref && w.table[i].typ.Deposit?
    {
      assert i < |w.table|;
      SameReferences(w.table[i], w'.table[i]);
    }
  }

  lemma {:induction false} LockStable(w: World, w': World, k: Option<Key>, h: Option<string>, q: Proc)
    requires Frame(w, w', k, h) && Unique(w.table) && Unique(w'.table)
    requires ProcOk(w, q) && Disjoint(w.table, q, k, h)
    ensures LockOf(w'.table, q) == LockOf(w.table, q)
  {
    if q.DepositFail? || q.DepositLink? || q.RefreshSend? || q.RefreshSave? {
      SameReferences(w.table[q.id], w'.table[q.id]);
    } else if q.CallbackFind? {
      FindRefStable(w, w', k, h, q.ref);
    }
  }

  lemma {:induction false} CallbackProcStable(w: World, w': World, k: Option<Key>, h: Option<string>, q: Proc)
    requires Frame(w, w', k, h) && Unique(w.table) && Unique(w'.table)
    requires SerialProcOk(w, q) && Disjoint(w.table, q, k, h)
    requires q.CallbackFind? || q.CallbackUpdate?
    ensures SerialProcOk(w', q)
  {
    if q.CallbackFind? {
      FindRefStable(w, w', k, h, q.ref);
    } else if q.p.typ.Deposit? {
      LockedRowStable(w, w', k, h, q.p.id);
    }
  }

  lemma {:induction false} RowProcStable(w: World, w': World, k: Option<Key>, h: Option<string>, q: Proc)
    requires Frame(w, w', k, h) && ProcOk(w, q)
    requires SerialProcOk(w, q) && Disjoint(w.table, q, k, h)
    requires q.DepositSend? || q.DepositFail? || q.DepositLink? || q.RefreshSend? || q.RefreshSave?
    ensures SerialProcOk(w', q)
  {
    LockedRowStable(w, w', k, h, q.id);
    if q.DepositSend? || q.RefreshSend? || q.RefreshSave? {
      NewRefStable(w, w', k, h, q.uuid);
    }
  }

  lemma {:induction false} RefundProcStable(w: World, w': World, k: Option<Key>, h: Option<string>, q: Proc)
    requires Frame(w, w', k, h)
    requires SerialProcOk(w, q) && Disjoint(w.table, q, k, h)
    requires q.AdminRefundFind? || q.RefundInsert? || q.RefundSend?
    ensures SerialProcOk(w', q)
  {
    if q.AdminRefundFind? || q.RefundInsert? {
      StillCompletedStable(w, w', k, h, q.dep);
    }
    if q.RefundInsert? || q.RefundSend? {
      NewRefStable(w, w', k, h, q.uuid);
    }
    if q.RefundSend? {
      RefundsRefStable(w, w', k, h, q.id, q.depositRef);
    }
  }

  lemma {:induction false} PlainProcStable(w: World, w': World, k: Option<Key>, h: Option<string>, q: Proc)
    requires Frame(w, w', k, h)
    requires SerialProcOk(w, q) && Disjoint(w.table, q, k, h)
    requires q.PayCap? || q.DepositInsert? || q.PayoutInsert? || q.PayoutSend? || q.Mark?
    ensures SerialProcOk(w', q)
  {
    if q.PayCap? || q.DepositInsert? {
      NoRowForStable(w, w', k, h, Key(q.d.appId, q.d.appRef, Deposit));
    }
    if q.DepositInsert? || q.PayoutInsert? || q.PayoutSend? {
      NewRefStable(w, w', k, h, q.uuid);
    }
    if q.Mark? {
      SameReferences(w.table[q.id], w'.table[q.id]);
    }
  }

  lemma {:induction false} OtherProcStable(w: World, w': World, k: Option<Key>, h: Option<string>, q: Proc)
    requires Frame(w, w', k, h) && Unique(w.table) && Unique(w'.table)
    requires ProcOk(w, q) && SerialProcOk(w, q) && Disjoint(w.table, q, k, h)
    ensures SerialProcOk(w', q)
  {
    if q.CallbackFind? || q.CallbackUpdate? {
      CallbackProcStable(w, w', k, h, q);
    } else if q.DepositSend? || q.DepositFail? || q.DepositLink? || q.RefreshSend? || q.RefreshSave? {
      RowProcStable(w, w', k, h, q);
    } else if q.AdminRefundFind? || q.RefundInsert? || q.RefundSend? {
      RefundProcStable(w, w', k, h, q);
    } else if q.PayCap? || q.DepositInsert? || q.PayoutInsert? || q.PayoutSend? || q.Mark? {
      PlainProcStable(w, w', k, h, q);
    }
  }

  // --- Agreement, effect by effect ---------------------------------------------------------

  /** What an effect must respect for rows and gateway to go on agreeing. */
  ghost predicate Agrees(w: World, e: Effect)
  {
    match e
    case Nothing => true
    case Insert(row, _) => row.diarraRef !in w.deposits && row.redirect.None? && row.status.Pending?
    case SetStatus(id, status, _, _) =>
      IsDeposit(w, id) && status.Completed? ==> Delivered(w, w.table[id].diarraRef, Completed)
    case SetRedirect(id, url) =>
      IsDeposit(w, id) && w.table[id].diarraRef in w.deposits && w.deposits[w.table[id].diarraRef].link == url
    case Rekey(id, ref, url) =>
      && Open(w, id) && ref in w.deposits && w.deposits[ref].link == url
      && ref in w.h.issuedFor && w.h.issuedFor[ref] == id
    case SaveRelay(_, _, _) => true
    case Send(call, _, forRow) =>
      && (call.DepositCall? ==>
            && call.ref !in w.deposits && IsDeposit(w, forRow) && w.table[forRow].amount == call.amount
            && (forall i :: 0 <= i < |w.table| && w.table[i].diarraRef == call.ref ==> i == forRow))
      && (call.RefundCall? ==> exists x :: Matches(w.table, x, call) && RefundsRef(w, x, call.depositRef))
  }

  lemma {:induction false} RefundCallsStable(w: World, w': World, k: Option<Key>, h: Option<string>)
    requires Frame(w, w', k, h) && AgreementOk(w) && w'.calls == w.calls
    ensures forall c :: 0 <= c < |w'.calls| ==> RefundCallOk(w', w'.calls[c])
  {
    forall c | 0 <= c < |w'.calls| ensures RefundCallOk(w', w'.calls[c]) {
      RefundCallStable(w, w', k, h, w.calls[c]);
    }
  }

  lemma {:induction false} RefundCallStable(w: World, w': World, k: Option<Key>, h: Option<string>, call: Call)
    requires Frame(w, w', k, h) && RefundCallOk(w, call)
    ensures RefundCallOk(w', call)
  {
    if call.RefundCall? {
      var x :| Matches(w.table, x, call) && RefundsRef(w, x, call.depositRef);
      MatchStable(w, w', x, call);
      RefundsRefStable(w, w', k, h, x, call.depositRef);
    }
  }

  lemma {:induction false} IssuedStable(w: World, w': World)
    requires Extends(w, w') && (forall ref :: ref in w.deposits ==> IssuedOk(w, ref))
    requires w'.deposits == w.deposits && w'.h.issuedFor == w.h.issuedFor
    ensures forall ref :: ref in w'.deposits ==> IssuedOk(w', ref)
  {
    forall ref | ref in w'.deposits ensures IssuedOk(w', ref) {
      assert IssuedOk(w, ref);
      var i := w.h.issuedFor[ref];
      SameReferences(w.table[i], w'.table[i]);
    }
  }

  /** One row after an effect. */
  lemma {:induction false} RowAgreesAfter(w: World, e: Effect, i: nat)
    requires i < |w.table| && w.table[i].id == i && RowAgrees(w, w.table[i]) && Agrees(w, e)
    ensures RowAgrees(Exec(w, e), Exec(w, e).table[i])
  {
    if e.Insert? {
      assert Exec(w, e).table[i] == w.table[i];
    }
  }

  lemma {:induction false} RowsAgree(w: World, e: Effect)
    requires Unique(w.table) && Agrees(w, e)
    requires forall i :: 0 <= i < |w.table| ==> RowAgrees(w, w.table[i])
    ensures var w' := Exec(w, e); forall i :: 0 <= i < |w'.table| ==> RowAgrees(w', w'.table[i])
  {
    var w' := Exec(w, e);
    forall i | 0 <= i < |w'.table| ensures RowAgrees(w', w'.table[i]) {
      if i < |w.table| {
        RowAgreesAfter(w, e, i);
      }
    }
  }

  lemma {:induction false} SendIssuedOk(w: World, e: Effect)
    requires AgreementOk(w) && Agrees(w, e) && e.Send?
    ensures var w' := Exec(w, e); forall ref :: ref in w'.deposits ==> IssuedOk(w', ref)
  {
    var w' := Exec(w, e);
    forall ref | ref in w'.deposits ensures IssuedOk(w', ref) {
      if ref in w.deposits {
        assert IssuedOk(w, ref);
      }
    }
  }

  lemma {:induction false} SendCallsOk(w: World, e: Effect)
    requires AgreementOk(w) && Agrees(w, e) && e.Send?
    ensures var w' := Exec(w, e); forall c :: 0 <= c < |w'.calls| ==> RefundCallOk(w', w'.calls[c])
  {
    var w' := Exec(w, e);
    forall c | 0 <= c < |w'.calls| ensures RefundCallOk(w', w'.calls[c]) {
      if c < |w.calls| {
        assert RefundCallOk(w, w.calls[c]);
        SameTableRefundCall(w, w', w.calls[c]);
      } else {
        SameTableRefundCall(w, w', e.call);
      }
    }
  }

  lemma {:induction false} SameTableRefundCall(w: World, w': World, call: Call)
    requires w'.table == w.table && RefundCallOk(w, call)
    ensures RefundCallOk(w', call)
  {
    if call.RefundCall? {
      var x :| Matches(w.table, x, call) && RefundsRef(w, x, call.depositRef);
      assert RefundsRef(w', x, call.depositRef);
    }
  }

  lemma {:induction false} SendAgrees(w: World, e: Effect)
    requires Unique(w.table) && AgreementOk(w) && Agrees(w, e) && e.Send?
    ensures AgreementOk(Exec(w, e))
  {
    RowsAgree(w, e);
    SendIssuedOk(w, e);
    SendCallsOk(w, e);
  }

  lemma {:induction false} OtherEffects(w: World, e: Effect)
    requires !e.Send?
    ensures var w' := Exec(w, e); w'.calls == w.calls && w'.deposits == w.deposits && w'.h.issuedFor == w.h.issuedFor
  {
  }

  lemma {:induction false} RestAgrees(w: World, w': World, k: Option<Key>, h: Option<string>)
    requires AgreementOk(w) && Frame(w, w', k, h)
    requires w'.calls == w.calls && w'.deposits == w.deposits && w'.h.issuedFor == w.h.issuedFor
    requires forall i :: 0 <= i < |w'.table| ==> RowAgrees(w', w'.table[i])
    ensures AgreementOk(w')
  {
    IssuedStable(w, w');
    RefundCallsStable(w, w', k, h);
  }

  lemma {:induction false} EffectAgrees(w: World, e: Effect, k: Option<Key>, h: Option<string>)
    requires Unique(w.table) && AgreementOk(w) && Agrees(w, e) && Frame(w, Exec(w, e), k, h)
    ensures AgreementOk(Exec(w, e))
  {
    if e.Send? {
      SendAgrees(w, e);
    } else {
      RowsAgree(w, e);
      OtherEffects(w, e);
      RestAgrees(w, Exec(w, e), k, h);
    }
  }
}
