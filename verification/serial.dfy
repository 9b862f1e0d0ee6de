/** Runs in which programs on the same deposit row do not overlap and the gateway behaves:
    what then holds between a deposit row, its payment link and the gateway. */
module Serial {
  import opened Fees
  import opened Model
  import opened Table
  import opened Ledger
  import opened Invariant
  import opened Steps
  import opened Runs

  // --- Which deposit row a program works on ---------------------------------------------

  /** The (app, app_ref) of the deposit a program may read and then write. */
  function LockOf(t: Rows, p: Proc): Option<Key>
  {
    match p
    case PayFind(d) => Some(Key(d.appId, d.appRef, Deposit))
    case PayCap(d) => Some(Key(d.appId, d.appRef, Deposit))
    case DepositInsert(d, _) => Some(Key(d.appId, d.appRef, Deposit))
    case DepositReread(d, _) => Some(Key(d.appId, d.appRef, Deposit))
    case DepositSend(d, _, _) => Some(Key(d.appId, d.appRef, Deposit))
    case DepositFail(id) => RowLock(FindId(t, id))
    case DepositLink(id, _) => RowLock(FindId(t, id))
    case RefreshSend(id, _, _, _) => RowLock(FindId(t, id))
    case RefreshSave(id, _, _) => RowLock(FindId(t, id))
    case CallbackFind(ref, _, _) => RowLock(FindRef(t, ref))
    case CallbackUpdate(row, _, _) => RowLock(Some(row))
    case _ => None
  }

  function RowLock(p: Option<Payment>): Option<Key>
  {
    if p.Some? && p.value.typ.Deposit? then Some(KeyOf(p.value)) else None
  }

  /** The client ref a program has drawn and not yet given up. */
  function HeldRef(p: Proc): Option<string>
  {
    match p
    case DepositInsert(_, uuid) => Some(uuid)
    case DepositReread(_, uuid) => Some(uuid)
    case DepositSend(_, uuid, _) => Some(uuid)
    case RefreshSend(_, uuid, _, _) => Some(uuid)
    case RefreshSave(_, uuid, _) => Some(uuid)
    case PayoutInsert(_, uuid, _) => Some(uuid)
    case PayoutSend(_, uuid, _, _, _, _) => Some(uuid)
    case RefundInsert(_, _, _, _, uuid) => Some(uuid)
    case RefundSend(_, uuid, _) => Some(uuid)
    case _ => None
  }

  /** Points whose next step draws a client ref. */
  predicate Draws(p: Proc)
  {
    p.PayFind? || p.PayCap? || p.TestCap? || p.PayoutCap? || p.AdminPayout? || p.RefundLoad? || p.AdminRefundFind?
  }

  ghost predicate NoRowHas(t: Rows, ref: string)
  {
    forall i :: 0 <= i < |t| ==> t[i].diarraRef != ref
  }

  ghost predicate NoRowFor(t: Rows, k: Key)
  {
    forall i :: 0 <= i < |t| ==> KeyOf(t[i]) != k
  }

  ghost predicate Unlocked(s: State, k: Key)
  {
    forall t :: 0 <= t < |s.procs| ==> LockOf(s.w.table, s.procs[t]) != Some(k)
  }

  ghost predicate NotHeld(s: State, ref: string)
  {
    forall t :: 0 <= t < |s.procs| ==> HeldRef(s.procs[t]) != Some(ref)
  }

  /** A UUID nobody has used. */
  ghost predicate FreshRef(s: State, ref: string)
  {
    && ref !in s.w.deposits && NoRowHas(s.w.table, ref) && NotHeld(s, ref)
    && forall t :: 0 <= t < |s.procs| && s.procs[t].CallbackFind? ==> s.procs[t].ref != ref
  }

  // --- The assumptions ------------------------------------------------------------------------

  /** Programs on one deposit row do not overlap, the idempotence lookup of `Pay` fails only for a
      missing row, UUIDs and test refs are new, the gateway never leaves 'completed', and it sends
      the callbacks of a deposit in order, after the request that created it has returned. */
  ghost predicate Orderly(s: State, a: Action)
  {
    match a
    case Start(p) =>
      && (p.PayFind? ==> Unlocked(s, Key(p.d.appId, p.d.appRef, Deposit)))
      && (p.CallbackFind? ==>
            && p.ref !in s.w.deposits && NotHeld(s, p.ref)
            && forall i :: 0 <= i < |s.w.table| && s.w.table[i].diarraRef == p.ref ==> !s.w.table[i].typ.Deposit?)
    case Step(tid, c) =>
      tid < |s.procs| ==>
        var p := s.procs[tid];
        && (p.PayFind? ==> !c.fault)
        && (Draws(p) ==> FreshRef(s, c.uuid))
        && (p.TestCap? ==>
              var k := Key(p.d.appId, "test-" + c.token, Deposit); NoRowFor(s.w.table, k) && Unlocked(s, k))
    case GatewayMoves(ref, status) =>
      ref in s.w.deposits && Completed in s.w.deposits[ref].history ==> status == Completed
    case Deliver(ref, index, _) =>
      ref in s.w.deposits ==>
        && s.w.deposits[ref].delivered <= index && NotHeld(s, ref)
        && var k := RowLock(FindRef(s.w.table, ref)); k.Some? ==> Unlocked(s, k.value)
    case _ => true
  }

  ghost predicate OrderlyRun(acts: seq<Action>)
  {
    |acts| == 0 || (OrderlyRun(acts[..|acts| - 1]) && Orderly(Run(acts[..|acts| - 1]), acts[|acts| - 1]))
  }

  // --- The invariant ----------------------------------------------------------------------------

  /** The last callback sent for `ref` said `status`. */
  ghost predicate Delivered(w: World, ref: string, status: Status)
  {
    ref in w.deposits && w.deposits[ref].delivered < |w.deposits[ref].history|
    && w.deposits[ref].history[w.deposits[ref].delivered] == status
  }

  /** A deposit row and the gateway agree. */
  ghost predicate DepositAgrees(w: World, p: Payment)
  {
    && (p.redirect.Some? ==> p.diarraRef in w.deposits && w.deposits[p.diarraRef].link == p.redirect.value)
    && (p.status.Completed? ==> Delivered(w, p.diarraRef, Completed))
    && (p.diarraRef in w.deposits ==> p.diarraRef in w.h.issuedFor && w.h.issuedFor[p.diarraRef] == p.id)
  }

  ghost predicate RowAgrees(w: World, p: Payment)
  {
    if p.typ.Deposit? then DepositAgrees(w, p) else p.diarraRef !in w.deposits
  }

  ghost predicate NeverLeavesCompleted(g: GatewayDeposit)
  {
    forall i, j :: 0 <= i < j < |g.history| && g.history[i].Completed? ==> g.history[j].Completed?
  }

  /** A gateway deposit was created for one deposit row, with that row's amount. */
  ghost predicate IssuedOk(w: World, ref: string)
    requires ref in w.deposits
  {
    && NeverLeavesCompleted(w.deposits[ref])
    && ref in w.h.issuedFor && IsDeposit(w, w.h.issuedFor[ref])
    && w.deposits[ref].amount == w.table[w.h.issuedFor[ref]].amount
  }

  /** Row `x` refunds a deposit that is completed under `depositRef`. */
  ghost predicate RefundsRef(w: World, x: nat, depositRef: string)
  {
    && x < |w.table| && w.table[x].refundOf.Some? && w.table[x].refundOf.value < |w.table|
    && var d := w.table[w.table[x].refundOf.value];
    && d.typ.Deposit? && d.status.Completed? && d.diarraRef == depositRef
  }

  ghost predicate RefundCallOk(w: World, call: Call)
  {
    call.RefundCall? ==> exists x :: Matches(w.table, x, call) && RefundsRef(w, x, call.depositRef)
  }

  ghost predicate AgreementOk(w: World)
  {
    && (forall i :: 0 <= i < |w.table| ==> RowAgrees(w, w.table[i]))
    && (forall ref :: ref in w.deposits ==> IssuedOk(w, ref))
    && (forall c :: 0 <= c < |w.calls| ==> RefundCallOk(w, w.calls[c]))
  }

  ghost predicate Open(w: World, id: nat)
  {
    IsDeposit(w, id) && (w.table[id].status.Pending? || w.table[id].status.Processing?)
  }

  ghost predicate NewRef(w: World, ref: string)
  {
    NoRowHas(w.table, ref) && ref !in w.deposits
  }

  /** The snapshot of a completed deposit is still the row. */
  ghost predicate StillCompleted(w: World, dep: Payment)
  {
    IsDeposit(w, dep.id) && w.table[dep.id].status.Completed? && w.table[dep.id].diarraRef == dep.diarraRef
  }

  ghost predicate SerialProcOk(w: World, p: Proc)
  {
    match p
    case PayCap(d) => NoRowFor(w.table, Key(d.appId, d.appRef, Deposit))
    case DepositInsert(d, uuid) => NoRowFor(w.table, Key(d.appId, d.appRef, Deposit)) && NewRef(w, uuid)
    case DepositReread(_, _) => false
    case DepositSend(d, uuid, id) =>
      && IsDeposit(w, id) && KeyOf(w.table[id]) == Key(d.appId, d.appRef, Deposit) && w.table[id].diarraRef == uuid
      && w.table[id].amount == d.amount && w.table[id].status.Pending? && uuid !in w.deposits
    case DepositFail(id) => Open(w, id)
    case DepositLink(id, url) =>
      IsDeposit(w, id) && w.table[id].diarraRef in w.deposits && w.deposits[w.table[id].diarraRef].link == url
    case RefreshSend(id, uuid, amount, _) => Open(w, id) && amount == w.table[id].amount && NewRef(w, uuid)
    case RefreshSave(id, uuid, url) =>
      && Open(w, id) && NoRowHas(w.table, uuid)
      && uuid in w.deposits && w.deposits[uuid].link == url && uuid in w.h.issuedFor && w.h.issuedFor[uuid] == id
    case PayoutInsert(_, uuid, _) => NewRef(w, uuid)
    case PayoutSend(_, uuid, _, _, _, _) => uuid !in w.deposits
    case Mark(id, _, _, _) => id < |w.table| && !w.table[id].typ.Deposit?
    case AdminRefundFind(dep, _) => StillCompleted(w, dep)
    case RefundInsert(dep, _, _, _, uuid) => StillCompleted(w, dep) && NewRef(w, uuid)
    case RefundSend(id, uuid, depositRef) => uuid !in w.deposits && RefundsRef(w, id, depositRef)
    case CallbackFind(ref, status, _) =>
      forall i :: 0 <= i < |w.table| && w.table[i].diarraRef == ref && w.table[i].typ.Deposit? ==>
        Delivered(w, ref, status)
    case CallbackUpdate(row, status, _) =>
      row.typ.Deposit? ==>
        IsDeposit(w, row.id) && w.table[row.id].diarraRef == row.diarraRef && KeyOf(w.table[row.id]) == KeyOf(row)
        && Delivered(w, row.diarraRef, status)
    case _ => true
  }

  ghost predicate LocksApart(s: State)
  {
    forall t, u :: 0 <= t < u < |s.procs| && LockOf(s.w.table, s.procs[t]).Some? ==>
      LockOf(s.w.table, s.procs[t]) != LockOf(s.w.table, s.procs[u])
  }

  ghost predicate RefsApart(s: State)
  {
    && (forall t, u :: 0 <= t < u < |s.procs| && HeldRef(s.procs[t]).Some? ==>
        HeldRef(s.procs[t]) != HeldRef(s.procs[u]))
    && (forall t, u :: 0 <= t < |s.procs| && 0 <= u < |s.procs| && s.procs[t].CallbackFind? ==>
        HeldRef(s.procs[u]) != Some(s.procs[t].ref))
  }

  ghost predicate ProcsAgree(w: World, procs: seq<Proc>)
  {
    forall t :: 0 <= t < |procs| ==> SerialProcOk(w, procs[t])
  }

  ghost predicate SerialOk(s: State)
  {
    StateOk(s) && AgreementOk(s.w) && ProcsAgree(s.w, s.procs) && LocksApart(s) && RefsApart(s)
  }

  // --- What a step leaves alone ---------------------------------------------------------------------

  ghost predicate SameLink(p: Payment, q: Payment)
  {
    q.status == p.status && q.diarraRef == p.diarraRef && q.redirect == p.redirect
  }

  /** Rows after a step by a program with lock `k` and held ref `h`: other deposits keep status and
      link, completed ones keep status and ref, and the only new ref is `h`. */
  ghost predicate RowFrame(t: Rows, t': Rows, k: Option<Key>, h: Option<string>)
  {
    && |t| <= |t'|
    && (forall i :: 0 <= i < |t| && t[i].typ.Deposit? && Some(KeyOf(t[i])) != k ==> SameLink(t[i], t'[i]))
    && (forall i :: 0 <= i < |t| && t[i].typ.Deposit? && t[i].status.Completed? ==>
          t'[i].status.Completed? && t'[i].diarraRef == t[i].diarraRef)
    && (forall i :: 0 <= i < |t| ==> t'[i].diarraRef == t[i].diarraRef || Some(t'[i].diarraRef) == h)
    && (forall i :: |t| <= i < |t'| ==> Some(t'[i].diarraRef) == h && (t'[i].typ.Deposit? ==> Some(KeyOf(t'[i])) == k))
  }

  ghost predicate GatewayFrame(w: World, w': World, h: Option<string>)
  {
    && (forall r :: r in w.deposits ==> r in w'.deposits && w'.deposits[r] == w.deposits[r])
    && (forall r :: r in w.deposits && r in w.h.issuedFor ==>
        r in w'.h.issuedFor && w'.h.issuedFor[r] == w.h.issuedFor[r])
    && (forall r :: r in w'.deposits ==> r in w.deposits || Some(r) == h)
  }

  ghost predicate Frame(w: World, w': World, k: Option<Key>, h: Option<string>)
  {
    Extends(w, w') && RowFrame(w.table, w'.table, k, h) && GatewayFrame(w, w', h)
  }

  /** An effect that respects the lock `k` and the held ref `h`. */
  ghost predicate Respects(w: World, e: Effect, k: Option<Key>, h: Option<string>)
  {
    match e
    case Nothing => true
    case Insert(row, _) => Some(row.diarraRef) == h && (row.typ.Deposit? ==> Some(KeyOf(row)) == k)
    case SetStatus(id, status, _, _) =>
      IsDeposit(w, id) ==>
        Some(KeyOf(w.table[id])) == k && (w.table[id].status.Completed? ==> status.Completed? || !AllowedStatus(status))
    case SetRedirect(id, _) => IsDeposit(w, id) ==> Some(KeyOf(w.table[id])) == k
    case Rekey(id, ref, _) => Some(ref) == h
      && (IsDeposit(w, id) ==> Some(KeyOf(w.table[id])) == k && !w.table[id].status.Completed?)
    case SaveRelay(_, _, _) => true
    case Send(call, _, _) => call.DepositCall? ==> Some(call.ref) == h
  }

  lemma {:induction false} RowFrameHolds(w: World, e: Effect, k: Option<Key>, h: Option<string>)
    requires Respects(w, e, k, h)
    ensures RowFrame(w.table, Exec(w, e).table, k, h)
  {
    var t, t' := w.table, Exec(w, e).table;
    if e.Insert? {
      assert forall i :: 0 <= i < |t| ==> t'[i] == t[i];
    }
  }

  lemma {:induction false} GatewayFrameHolds(w: World, e: Effect, k: Option<Key>, h: Option<string>)
    requires Respects(w, e, k, h)
    ensures GatewayFrame(w, Exec(w, e), h)
  {
  }

  lemma {:induction false} FrameHolds(w: World, e: Effect, k: Option<Key>, h: Option<string>)
    requires WorldOk(w) && EffectOk(w, e) && Respects(w, e, k, h)
    ensures Frame(w, Exec(w, e), k, h)
  {
    ExecKeeps(w, e);
    RowFrameHolds(w, e, k, h);
    GatewayFrameHolds(w, e, k, h);
  }
}
