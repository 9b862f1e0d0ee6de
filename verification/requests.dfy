/** Requests in whole runs: which request asked for which row, and how often a request moves money. */
module Requests {
  import opened Fees
  import opened Model
  import opened Table
  import opened Ledger
  import opened Invariant
  import opened Steps
  import opened Runs
  import opened Guarantees
  import opened Filing

  // --- The request behind a program ------------------------------------------------------------

  /** The entry point of every program of the run, in the order in which they arrived. */
  function Entries(acts: seq<Action>): (qs: seq<Proc>)
  {
    if |acts| == 0 then []
    else
      var before, procs := Entries(acts[..|acts| - 1]), Run(acts).procs;
      if |before| < |procs| then before + [procs[|before|]] else before
  }

  /** The row is one the request asked for. */
  predicate AskedFor(t: Rows, p: Payment, q: Proc)
  {
    match q
    case PayFind(d) => Names(p, d.appId, d.appRef, Deposit, d.amount, d.rate, "XOF", d.callback)
    case TestCap(d) =>
      && "test-" <= p.appRef
      && Names(p, d.appId, p.appRef, Deposit, if 0 < d.amount then d.amount else 500, d.rate, "XOF", "")
    case PayoutFind(o) =>
      && Names(p, o.appId, o.appRef, Payout, o.amount, o.rate, "XOF", o.callback)
      && p.phone == Some(o.phone) && p.operator == Some(o.operator) && p.country == Some(o.country)
    case AdminPayout(o) =>
      && "admin-payout-" <= p.appRef && Names(p, o.appId, p.appRef, Payout, o.amount, o.rate, "XOF", "")
      && p.phone == Some(o.phone) && p.operator == Some(o.operator) && p.country == Some(o.country)
    case RefundFind(r) =>
      && p.refundOf.Some? && p.refundOf.value < |t|
      && var dep := t[p.refundOf.value];
      && dep.appId == r.appId && dep.appRef == r.depositAppRef && dep.typ == Deposit
      && Names(p, r.appId, RefundName(r), Refund, dep.amount, r.rate, dep.currency, r.callback)
    case AdminRefundLoad(id, rate) =>
      && p.refundOf == Some(id) && id < |t| && t[id].typ == Deposit
      && Names(p, t[id].appId, "refund-" + t[id].appRef, Refund, t[id].amount, rate, t[id].currency, "")
    case _ => false
  }

  /** The deposit request that a test page's input becomes. */
  predicate TestOf(d: DepositReq, input: DepositReq)
  {
    && d.appId == input.appId && "test-" <= d.appRef && d.amount == (if 0 < input.amount then input.amount else 500)
    && d.rate == input.rate && d.callback == ""
  }

  predicate AdminOf(o: PayoutReq, input: PayoutReq)
  {
    && o.appId == input.appId && "admin-payout-" <= o.appRef && o.amount == input.amount && o.rate == input.rate
    && o.phone == input.phone && o.operator == input.operator && o.country == input.country && o.callback == ""
  }

  /** The program holds a row of the table, under its own ref, that the request asked for. */
  predicate HoldsRow(t: Rows, id: nat, uuid: string, q: Proc)
  {
    id < |t| && t[id].diarraRef == uuid && AskedFor(t, t[id], q)
  }

  /** A program `p` that a request `q` has led to. */
  ghost predicate Follows(w: World, q: Proc, p: Proc)
  {
    match p
    case PayFind(d) => q == p
    case TestCap(d) => q == p
    case PayCap(d) => q == PayFind(d)
    case DepositInsert(d, _) => DepositAsked(d, q)
    case DepositReread(d, _) => DepositAsked(d, q)
    case DepositSend(d, _, _) => DepositAsked(d, q)
    case RefreshSend(_, _, _, _) => q.PayFind?
    case PayoutFind(o) => q == p
    case AdminPayout(o) => q == p
    case PayoutCap(o) => q == PayoutFind(o)
    case PayoutInsert(o, _, admin) => if admin then q.AdminPayout? && AdminOf(o, q.o) else q == PayoutFind(o)
    case PayoutSend(id, uuid, _, _, _, _) => HoldsRow(w.table, id, uuid, q)
    case RefundFind(r) => q == p
    case AdminRefundLoad(id, rate) => q == p
    case RefundLoad(r) => q == RefundFind(r)
    case AdminRefundFind(dep, rate) => SnapshotOk(w, dep) && dep.typ.Deposit? && q == AdminRefundLoad(dep.id, rate)
    case RefundInsert(dep, refundRef, callback, rate, uuid) =>
      && SnapshotOk(w, dep) && dep.typ.Deposit? && RefundAsked(dep, refundRef, callback, rate, q)
    case RefundSend(id, uuid, _) => HoldsRow(w.table, id, uuid, q)
    case _ => true
  }

  predicate DepositAsked(d: DepositReq, q: Proc)
  {
    q == PayFind(d) || (q.TestCap? && TestOf(d, q.d))
  }

  predicate RefundAsked(dep: Payment, refundRef: string, callback: Option<string>, rate: GoInt, q: Proc)
  {
    match q
    case RefundFind(r) =>
      && dep.appId == r.appId && dep.appRef == r.depositAppRef && refundRef == RefundName(r) && rate == r.rate
      && Stored(callback, r.callback)
    case AdminRefundLoad(id, r) => id == dep.id && refundRef == "refund-" + dep.appRef && rate == r && callback.None?
    case _ => false
  }

  // --- Rows keep the request that asked for them ----------------------------------------------------

  lemma {:induction false} SameNames(p: Payment, p': Payment)
    requires Frozen(p') == Frozen(p)
    ensures p'.appRef == p.appRef && p'.rate == p.rate && p'.callback == p.callback
  {
    SameReferences(p, p');
    assert Frozen(p').appRef == p'.appRef && Frozen(p).appRef == p.appRef;
  }

  lemma {:induction false} AskedStays(a: World, b: World, i: nat, q: Proc)
    requires Extends(a, b) && i < |a.table| && AskedFor(a.table, a.table[i], q)
    ensures AskedFor(b.table, b.table[i], q)
  {
    SameReferences(a.table[i], b.table[i]);
    SameNames(a.table[i], b.table[i]);
    if q.RefundFind? || q.AdminRefundLoad? {
      var j := a.table[i].refundOf.value;
      SameReferences(a.table[j], b.table[j]);
      SameNames(a.table[j], b.table[j]);
    }
  }

  lemma {:induction false} HoldingStays(a: World, b: World, id: nat, uuid: string, q: Proc)
    requires Extends(a, b) && HoldsRow(a.table, id, uuid, q) && !a.table[id].typ.Deposit?
    ensures HoldsRow(b.table, id, uuid, q)
  {
    AskedStays(a, b, id, q);
    SameReferences(a.table[id], b.table[id]);
  }

  lemma {:induction false} SnapshotStays(a: World, b: World, p: Payment)
    requires Extends(a, b) && SnapshotOk(a, p)
    ensures SnapshotOk(b, p)
  {
  }

  lemma {:induction false} FollowStays(a: World, b: World, q: Proc, p: Proc)
    requires Extends(a, b) && Follows(a, q, p) && ProcOk(a, p)
    ensures Follows(b, q, p)
  {
    match p
    case PayoutSend(id, uuid, _, _, _, _) => HoldingStays(a, b, id, uuid, q);
    case RefundSend(id, uuid, _) => HoldingStays(a, b, id, uuid, q);
    case AdminRefundFind(dep, _) => SnapshotStays(a, b, dep);
    case RefundInsert(dep, _, _, _, _) => SnapshotStays(a, b, dep);
    case _ =>
  }

  // --- One step ------------------------------------------------------------------------------------------

  /** A step goes on following the request, and a row it inserts is one the request asked for. */
  ghost predicate StepFollows(w: World, q: Proc, o: Outcome)
  {
    var w' := Exec(w, o.effect);
    && Follows(w', q, o.next)
    && (o.effect.Insert? ==> AskedFor(w'.table, o.effect.row, q))
  }

  lemma {:induction false} DepositAskedRow(d: DepositReq, uuid: string, now: int, id: nat, q: Proc, t: Rows)
    requires DepositAsked(d, q)
    ensures AskedFor(t, DepositRow(d, uuid, now).(id := id), q)
  {
  }

  lemma {:induction false} DepositChecks(w: World, q: Proc, p: Proc, c: Choice)
    requires (p.PayFind? || p.PayCap? || p.TestCap? || p.DepositReread?) && Follows(w, q, p)
    ensures LocalDeposit(w, p, c).effect.Nothing? && Follows(w, q, LocalDeposit(w, p, c).next)
  {
  }

  lemma {:induction false} DepositInserts(w: World, q: Proc, p: Proc, c: Choice)
    requires p.DepositInsert? && Follows(w, q, p)
    ensures StepFollows(w, q, LocalDeposit(w, p, c))
  {
    DepositAskedRow(p.d, p.uuid, w.now, |w.table|, q, Exec(w, LocalDeposit(w, p, c).effect).table);
  }

  /** From here on nothing is inserted and nobody is called. */
  predicate Closing(p: Proc)
  {
    || p.DepositFail? || p.DepositLink? || p.RefreshSave? || p.Mark? || p.CallbackFind? || p.CallbackUpdate?
    || p.AdminRelay? || p.RelayStart? || p.RelayApp? || p.RelayPost? || p.RelaySave? || p.Done?
  }

  predicate Ends(o: Outcome)
  {
    !o.effect.Insert? && Closing(o.next)
  }

  lemma {:induction false} EndingFollows(w: World, q: Proc, o: Outcome)
    requires Ends(o)
    ensures StepFollows(w, q, o)
  {
  }

  lemma {:induction false} CheckFollows(w: World, q: Proc, o: Outcome)
    requires o.effect.Nothing? && Follows(w, q, o.next)
    ensures StepFollows(w, q, o)
  {
  }

  lemma {:induction false} DepositEnds(w: World, p: Proc, c: Choice)
    requires p.DepositSend? || p.RefreshSend? || (DepositPoint(p) && Closing(p))
    ensures Ends(LocalDeposit(w, p, c))
  {
  }

  lemma {:induction false} DepositFollows(w: World, q: Proc, p: Proc, c: Choice, o: Outcome)
    requires DepositPoint(p) && Follows(w, q, p) && o == LocalDeposit(w, p, c)
    ensures StepFollows(w, q, o)
  {
    if p.DepositInsert? {
      DepositInserts(w, q, p, c);
    } else if p.DepositSend? || p.RefreshSend? || Closing(p) {
      DepositEnds(w, p, c);
      EndingFollows(w, q, o);
    } else {
      DepositChecks(w, q, p, c);
      CheckFollows(w, q, o);
    }
  }

  lemma {:induction false} PayoutAskedRow(o: PayoutReq, uuid: string, now: int, id: nat, q: Proc, t: Rows)
    requires q == PayoutFind(o) || (q.AdminPayout? && AdminOf(o, q.o))
    ensures AskedFor(t, PayoutRow(o, uuid, now).(id := id), q)
  {
  }

  lemma {:induction false} PayoutChecks(w: World, q: Proc, p: Proc, c: Choice)
    requires (p.PayoutFind? || p.PayoutCap? || p.AdminPayout?) && Follows(w, q, p)
    ensures LocalPayout(w, p, c).effect.Nothing? && Follows(w, q, LocalPayout(w, p, c).next)
  {
  }

  lemma {:induction false} PayoutInserts(w: World, q: Proc, p: Proc, c: Choice)
    requires p.PayoutInsert? && Follows(w, q, p)
    ensures StepFollows(w, q, LocalPayout(w, p, c))
  {
    PayoutAskedRow(p.o, p.uuid, w.now, |w.table|, q, Exec(w, LocalPayout(w, p, c).effect).table);
  }

  lemma {:induction false} PayoutEnds(w: World, p: Proc, c: Choice)
    requires p.PayoutSend? || p.Mark?
    ensures Ends(LocalPayout(w, p, c))
  {
  }

  lemma {:induction false} PayoutFollows(w: World, q: Proc, p: Proc, c: Choice, o: Outcome)
    requires PayoutPoint(p) && Follows(w, q, p) && o == LocalPayout(w, p, c)
    ensures StepFollows(w, q, o)
  {
    if p.PayoutInsert? {
      PayoutInserts(w, q, p, c);
    } else if p.PayoutSend? || p.Mark? {
      PayoutEnds(w, p, c);
      EndingFollows(w, q, o);
    } else {
      PayoutChecks(w, q, p, c);
      CheckFollows(w, q, o);
    }
  }

  lemma {:induction false} RefundAskedRow(w: World, dep: Payment, refundRef: string, callback: Option<string>,
                                          rate: GoInt, uuid: string, now: int, id: nat, q: Proc, t: Rows)
    requires SnapshotOk(w, dep) && dep.typ.Deposit? && RefundAsked(dep, refundRef, callback, rate, q)
    requires w.table <= t
    ensures AskedFor(t, RefundRow(dep, refundRef, callback, rate, uuid, now).(id := id), q)
  {
    SameReferences(dep, w.table[dep.id]);
    SameNames(dep, w.table[dep.id]);
  }

  lemma {:induction false} RefundFound(w: World, q: Proc, p: Proc, c: Choice)
    requires p.RefundLoad? && Follows(w, q, p) && Unique(w.table)
    ensures LocalRefund(w, p, c).effect.Nothing? && Follows(w, q, LocalRefund(w, p, c).next)
  {
    FoundKey(w.table, Key(p.r.appId, p.r.depositAppRef, Deposit));
  }

  lemma {:induction false} RefundChecks(w: World, q: Proc, p: Proc, c: Choice)
    requires (p.RefundFind? || p.AdminRefundLoad? || p.AdminRefundFind?) && Follows(w, q, p) && Unique(w.table)
    ensures LocalRefund(w, p, c).effect.Nothing? && Follows(w, q, LocalRefund(w, p, c).next)
  {
  }

  lemma {:induction false} RefundInserts(w: World, q: Proc, p: Proc, c: Choice)
    requires p.RefundInsert? && Follows(w, q, p)
    ensures StepFollows(w, q, LocalRefund(w, p, c))
  {
    RefundAskedRow(w, p.dep, p.refundRef, p.callback, p.rate, p.uuid, w.now, |w.table|, q,
                   Exec(w, LocalRefund(w, p, c).effect).table);
  }

  lemma {:induction false} RefundEnds(w: World, p: Proc, c: Choice)
    requires p.RefundSend?
    ensures Ends(LocalRefund(w, p, c))
  {
  }

  lemma {:induction false} RefundFollows(w: World, q: Proc, p: Proc, c: Choice, o: Outcome)
    requires RefundPoint(p) && Follows(w, q, p) && Unique(w.table) && o == LocalRefund(w, p, c)
    ensures StepFollows(w, q, o)
  {
    if p.RefundInsert? {
      RefundInserts(w, q, p, c);
    } else if p.RefundSend? {
      RefundEnds(w, p, c);
      EndingFollows(w, q, o);
    } else {
      if p.RefundLoad? { RefundFound(w, q, p, c); } else { RefundChecks(w, q, p, c); }
      CheckFollows(w, q, o);
    }
  }

  lemma {:induction false} RelayEnds(w: World, p: Proc, c: Choice)
    requires !DepositPoint(p) && !PayoutPoint(p) && !RefundPoint(p)
    ensures Ends(LocalRelay(w, p, c))
  {
  }

  lemma {:induction false} LocalFollows(w: World, q: Proc, p: Proc, c: Choice, o: Outcome)
    requires Follows(w, q, p) && Unique(w.table) && o == Local(w, p, c)
    ensures StepFollows(w, q, o)
  {
    if DepositPoint(p) {
      DepositFollows(w, q, p, c, o);
    } else if PayoutPoint(p) {
      PayoutFollows(w, q, p, c, o);
    } else if RefundPoint(p) {
      RefundFollows(w, q, p, c, o);
    } else {
      RelayEnds(w, p, c);
      EndingFollows(w, q, o);
    }
  }

  // --- Runs -----------------------------------------------------------------------------------------------

  ghost predicate AllFollow(s: State, qs: seq<Proc>)
  {
    |qs| == |s.procs| && forall t :: 0 <= t < |qs| ==> Follows(s.w, qs[t], s.procs[t])
  }

  /** The entry points after one more action. */
  function Joined(qs: seq<Proc>, procs: seq<Proc>): seq<Proc>
  {
    if |qs| < |procs| then qs + [procs[|qs|]] else qs
  }

  lemma {:induction false} EntriesSnoc(acts: seq<Action>, a: Action)
    ensures Entries(acts + [a]) == Joined(Entries(acts), Run(acts + [a]).procs)
  {
    assert (acts + [a])[..|acts|] == acts;
  }

  lemma {:induction false} EntryFollows(w: World, p: Proc)
    requires Entry(p)
    ensures Follows(w, p, p)
  {
  }

  lemma {:induction false} StepAllFollow(s: State, tid: nat, c: Choice, qs: seq<Proc>)
    requires StateOk(s) && AllFollow(s, qs) && tid < |s.procs|
    ensures AllFollow(Apply(s, Step(tid, c)), qs)
  {
    var s' := Apply(s, Step(tid, c));
    ApplyKeeps(s, Step(tid, c));
    forall t | 0 <= t < |qs| ensures Follows(s'.w, qs[t], s'.procs[t]) {
      if t == tid {
        LocalFollows(s.w, qs[t], s.procs[t], c, Local(s.w, s.procs[t], c));
      } else {
        FollowStays(s.w, s'.w, qs[t], s.procs[t]);
      }
    }
  }

  lemma {:induction false} OutsideAllFollow(s: State, s': State, qs: seq<Proc>)
    requires StateOk(s) && AllFollow(s, qs) && Extends(s.w, s'.w) && OnlyEntriesAndCrashes(s, s')
    ensures AllFollow(s', Joined(qs, s'.procs))
  {
    var qs' := Joined(qs, s'.procs);
    forall t | 0 <= t < |qs'| ensures Follows(s'.w, qs'[t], s'.procs[t]) {
      if t == |qs| {
        EntryFollows(s'.w, s'.procs[t]);
      } else if s'.procs[t] == s.procs[t] {
        FollowStays(s.w, s'.w, qs[t], s.procs[t]);
      }
    }
  }

  lemma {:induction false} ActionAllFollow(s: State, a: Action, qs: seq<Proc>)
    requires StateOk(s) && AllFollow(s, qs)
    ensures AllFollow(Apply(s, a), Joined(qs, Apply(s, a).procs))
  {
    if a.Step? {
      if a.tid < |s.procs| { StepAllFollow(s, a.tid, a.c, qs); }
    } else {
      OutsideAction(s, a);
      ApplyKeeps(s, a);
      OutsideAllFollow(s, Apply(s, a), qs);
    }
  }

  /** Every program of every run follows the request it entered with. */
  lemma {:induction false} RunFollows(acts: seq<Action>)
    ensures AllFollow(Run(acts), Entries(acts))
  {
    if 0 < |acts| {
      var before, a := acts[..|acts| - 1], acts[|acts| - 1];
      assert before + [a] == acts;
      RunFollows(before);
      RunKeeps(before);
      RunSnoc(before, a);
      EntriesSnoc(before, a);
      ActionAllFollow(Run(before), a, Entries(before));
    }
  }

  /** Row i is one that request t of the run asked for. */
  ghost predicate AskedBy(w: World, qs: seq<Proc>, i: nat, t: nat)
  {
    i < |w.table| && t < |qs| && AskedFor(w.table, w.table[i], qs[t])
  }

  lemma {:induction false} AskedStill(w: World, w': World, qs: seq<Proc>, procs: seq<Proc>, i: nat, t: nat)
    requires AskedBy(w, qs, i, t) && Extends(w, w')
    ensures AskedBy(w', Joined(qs, procs), i, t)
  {
    AskedStays(w, w', i, qs[t]);
  }

  lemma {:induction false} NewRowAsked(s: State, a: Action, qs: seq<Proc>, i: nat)
    requires StateOk(s) && AllFollow(s, qs) && |s.w.table| <= i < |Apply(s, a).w.table|
    ensures a.Step? && a.tid < |qs| && AskedBy(Apply(s, a).w, Joined(qs, Apply(s, a).procs), i, a.tid)
  {
    if a.Step? && a.tid < |s.procs| {
      var o := Local(s.w, s.procs[a.tid], a.c);
      LocalFollows(s.w, qs[a.tid], s.procs[a.tid], a.c, o);
      InsertedLast(s.w, o.effect);
    } else if !a.Step? {
      OutsideAction(s, a);
    }
  }

  lemma {:induction false} InsertedLast(w: World, e: Effect)
    ensures |w.table| < |Exec(w, e).table| ==> e.Insert? && Exec(w, e).table == w.table + [e.row]
  {
  }

  /** However requests interleave, fail, crash and repeat: every row of the table is one that a request of the
      run asked for, under the name and with the amount, rate, currency, callback and recipient the request
      stated; a refund row refunds the deposit the request named. */
  lemma {:induction false} EveryRowWasAsked(acts: seq<Action>, i: nat)
    requires i < |Run(acts).w.table|
    ensures exists t: nat :: AskedBy(Run(acts).w, Entries(acts), i, t)
  {
    var before, a := acts[..|acts| - 1], acts[|acts| - 1];
    assert before + [a] == acts;
    var s := Run(before);
    RunKeeps(before);
    RunFollows(before);
    RunSnoc(before, a);
    EntriesSnoc(before, a);
    if i < |s.w.table| {
      EveryRowWasAsked(before, i);
      var t: nat :| AskedBy(s.w, Entries(before), i, t);
      ApplyKeeps(s, a);
      AskedStill(s.w, Run(acts).w, Entries(before), Run(acts).procs, i, t);
    } else {
      NewRowAsked(s, a, Entries(before), i);
    }
  }

  // --- Money, once per name ---------------------------------------------------------------------------------

  /** The request is for a payout or a refund of this name. */
  predicate Wants(q: Proc, appId: string, name: string, typ: PaymentType)
  {
    || (q.PayoutFind? && q.o.appId == appId && q.o.appRef == name && typ == Payout)
    || (q.RefundFind? && q.r.appId == appId && RefundName(q.r) == name && typ == Refund)
  }

  /** The action makes a call for such a request. */
  ghost predicate MovesFor(s: State, qs: seq<Proc>, a: Action, appId: string, name: string, typ: PaymentType)
  {
    && a.Step? && a.tid < |s.procs| && a.tid < |qs| && Wants(qs[a.tid], appId, name, typ)
    && Apply(s, a).w.calls != s.w.calls
  }

  /** How many calls a run makes for the requests of this name, all requests of the name together. */
  ghost function MovesMade(acts: seq<Action>, appId: string, name: string, typ: PaymentType): nat
  {
    if |acts| == 0 then 0
    else
      var before, a := acts[..|acts| - 1], acts[|acts| - 1];
      MovesMade(before, appId, name, typ)
      + (if MovesFor(Run(before), Entries(before), a, appId, name, typ) then 1 else 0)
  }

  /** The calls under the ref of the row of this name. */
  function CallsForRow(w: World, appId: string, name: string, typ: PaymentType): nat
  {
    match FindKey(w.table, Key(appId, name, typ))
    case None => 0
    case Some(p) => TimesCalled(w.calls, p.diarraRef)
  }

  lemma {:induction false} TimesGrow(calls: seq<Call>, calls': seq<Call>, ref: string)
    requires calls <= calls'
    ensures TimesCalled(calls, ref) <= TimesCalled(calls', ref)
  {
    if |calls| < |calls'| {
      assert calls <= calls'[..|calls'| - 1];
      TimesGrow(calls, calls'[..|calls'| - 1], ref);
    } else {
      assert calls == calls';
    }
  }

  lemma {:induction false} CallsForRowGrow(w: World, w': World, appId: string, name: string, typ: PaymentType)
    requires Unique(w.table) && Unique(w'.table) && Extends(w, w') && !typ.Deposit?
    ensures CallsForRow(w, appId, name, typ) <= CallsForRow(w', appId, name, typ)
  {
    var k := Key(appId, name, typ);
    FoundKey(w.table, k);
    if FindKey(w.table, k).Some? {
      var p := FindKey(w.table, k).value;
      SameReferences(p, w'.table[p.id]);
      FindExact(w'.table, p.id);
      TimesGrow(w.calls, w'.calls, p.diarraRef);
    }
  }

  /** The points from which a call is made. */
  predicate Caller(p: Proc)
  {
    p.DepositSend? || p.RefreshSend? || p.PayoutSend? || p.RefundSend?
  }

  /** A call is made only from there, under the ref the program holds; it moves money out only for a payout or
      a refund. */
  predicate CallsAs(p: Proc, e: Effect)
  {
    e.Send? ==> Caller(p) && e.call.ref == p.uuid && (e.call.DepositCall? <==> p.DepositSend? || p.RefreshSend?)
  }

  lemma {:induction false} DepositCalls(w: World, p: Proc, c: Choice)
    requires DepositPoint(p)
    ensures CallsAs(p, LocalDeposit(w, p, c).effect)
  {
  }

  lemma {:induction false} PayoutCalls(w: World, p: Proc, c: Choice)
    requires PayoutPoint(p)
    ensures CallsAs(p, LocalPayout(w, p, c).effect)
  {
  }

  lemma {:induction false} RefundCalls(w: World, p: Proc, c: Choice)
    requires RefundPoint(p)
    ensures CallsAs(p, LocalRefund(w, p, c).effect)
  {
  }

  lemma {:induction false} RelayCalls(w: World, p: Proc, c: Choice)
    requires !DepositPoint(p) && !PayoutPoint(p) && !RefundPoint(p)
    ensures CallsAs(p, LocalRelay(w, p, c).effect)
  {
  }

  lemma {:induction false} LocalCalls(w: World, p: Proc, c: Choice)
    ensures CallsAs(p, Local(w, p, c).effect)
  {
    if DepositPoint(p) { DepositCalls(w, p, c); }
    else if PayoutPoint(p) { PayoutCalls(w, p, c); }
    else if RefundPoint(p) { RefundCalls(w, p, c); }
    else { RelayCalls(w, p, c); }
  }

  lemma {:induction false} CallsGrow(w: World, e: Effect)
    ensures if e.Send? then Exec(w, e).table == w.table && Exec(w, e).calls == w.calls + [e.call]
            else Exec(w, e).calls == w.calls
  {
  }

  /** The call of a payout or refund request comes only once the request holds its row, and under its ref. */
  lemma {:induction false} MoverSends(w: World, q: Proc, p: Proc, c: Choice)
    requires (q.PayoutFind? || q.RefundFind?) && Follows(w, q, p) && Exec(w, Local(w, p, c).effect).calls != w.calls
    ensures Sending(p) && HoldsRow(w.table, p.id, p.uuid, q)
    ensures var e := Local(w, p, c).effect; e.Send? && MovesOut(e.call) && e.call.ref == p.uuid
  {
    LocalCalls(w, p, c);
    CallsGrow(w, Local(w, p, c).effect);
  }

  lemma {:induction false} TimesSnoc(calls: seq<Call>, call: Call, ref: string)
    ensures TimesCalled(calls + [call], ref) ==
            TimesCalled(calls, ref) + (if MovesOut(call) && call.ref == ref then 1 else 0)
  {
    assert (calls + [call])[..|calls|] == calls;
  }

  lemma {:induction false} WantedRow(t: Rows, p: Payment, q: Proc, appId: string, name: string, typ: PaymentType)
    requires AskedFor(t, p, q) && Wants(q, appId, name, typ)
    ensures KeyOf(p) == Key(appId, name, typ) && !typ.Deposit?
  {
  }

  lemma {:induction false} MoveCounts(s: State, qs: seq<Proc>, a: Action, appId: string, name: string, typ: PaymentType)
    requires StateOk(s) && AllFollow(s, qs) && MovesFor(s, qs, a, appId, name, typ)
    ensures CallsForRow(Apply(s, a).w, appId, name, typ) == CallsForRow(s.w, appId, name, typ) + 1
  {
    var p, q := s.procs[a.tid], qs[a.tid];
    var e := Local(s.w, p, a.c).effect;
    MoverSends(s.w, q, p, a.c);
    CallsGrow(s.w, e);
    WantedRow(s.w.table, s.w.table[p.id], q, appId, name, typ);
    FindExact(s.w.table, p.id);
    TimesSnoc(s.w.calls, e.call, p.uuid);
  }

  lemma {:induction false} MovesCount(s: State, qs: seq<Proc>, a: Action, appId: string, name: string, typ: PaymentType)
    requires StateOk(s) && AllFollow(s, qs) && !typ.Deposit?
    ensures CallsForRow(s.w, appId, name, typ) + (if MovesFor(s, qs, a, appId, name, typ) then 1 else 0)
            <= CallsForRow(Apply(s, a).w, appId, name, typ)
  {
    if MovesFor(s, qs, a, appId, name, typ) {
      MoveCounts(s, qs, a, appId, name, typ);
    } else {
      ApplyKeeps(s, a);
      CallsForRowGrow(s.w, Apply(s, a).w, appId, name, typ);
    }
  }

  lemma {:induction false} MovesAreOfRow(acts: seq<Action>, appId: string, name: string, typ: PaymentType)
    requires !typ.Deposit?
    ensures MovesMade(acts, appId, name, typ) <= CallsForRow(Run(acts).w, appId, name, typ)
  {
    if 0 < |acts| {
      var before, a := acts[..|acts| - 1], acts[|acts| - 1];
      assert before + [a] == acts;
      MovesAreOfRow(before, appId, name, typ);
      RunKeeps(before);
      RunFollows(before);
      RunSnoc(before, a);
      MovesCount(Run(before), Entries(before), a, appId, name, typ);
    }
  }

  lemma {:induction false} CallsForRowOnce(w: World, appId: string, name: string, typ: PaymentType)
    requires WorldOk(w)
    ensures CallsForRow(w, appId, name, typ) <= 1
    ensures 0 < CallsForRow(w, appId, name, typ) ==>
            exists i :: 0 <= i < |w.table| && KeyOf(w.table[i]) == Key(appId, name, typ)
                        && TimesCalled(w.calls, w.table[i].diarraRef) == 1
  {
    var k := Key(appId, name, typ);
    FoundKey(w.table, k);
    if FindKey(w.table, k).Some? {
      var p := FindKey(w.table, k).value;
      AtMostOnce(w.calls, p.diarraRef);
    }
  }

  /** In every interleaving, and however often a payout or refund of one name is requested, at the same time or
      later, by whichever replicas and whatever fails in between: all requests of that name together make the
      gateway move money at most once. */
  lemma {:induction false} NameMovesMoneyOnce(acts: seq<Action>, appId: string, name: string, typ: PaymentType)
    requires !typ.Deposit?
    ensures MovesMade(acts, appId, name, typ) <= 1
    ensures MovesMade(acts, appId, name, typ) == 1 ==>
            var w := Run(acts).w;
            exists i :: 0 <= i < |w.table| && KeyOf(w.table[i]) == Key(appId, name, typ)
                        && TimesCalled(w.calls, w.table[i].diarraRef) == 1
  {
    RunKeeps(acts);
    MovesAreOfRow(acts, appId, name, typ);
    CallsForRowOnce(Run(acts).w, appId, name, typ);
  }

  // --- Money that never leaves ----------------------------------------------------------------------------

  /** A payout or refund row has this ref, nobody has called under it, and no program is about to. */
  ghost predicate Abandoned(s: State, i: nat, uuid: string)
  {
    && i < |s.w.table| && !s.w.table[i].typ.Deposit? && s.w.table[i].diarraRef == uuid && NotCalled(s.w, uuid)
    && forall t :: 0 <= t < |s.procs| && Sending(s.procs[t]) ==> s.procs[t].uuid != uuid
  }

  lemma {:induction false} StepAbandons(s: State, tid: nat, c: Choice, i: nat, uuid: string)
    requires StateOk(s) && Abandoned(s, i, uuid) && tid < |s.procs|
    ensures Abandoned(Apply(s, Step(tid, c)), i, uuid)
  {
    var o := Local(s.w, s.procs[tid], c);
    LocalOk(s.w, s.procs[tid], c);
    ApplyKeeps(s, Step(tid, c));
    SameReferences(s.w.table[i], Exec(s.w, o.effect).table[i]);
    CallStep(s.w, o.effect, uuid);
  }

  lemma {:induction false} ActionAbandons(s: State, a: Action, i: nat, uuid: string)
    requires StateOk(s) && Abandoned(s, i, uuid)
    ensures Abandoned(Apply(s, a), i, uuid)
  {
    if a.Step? {
      if a.tid < |s.procs| { StepAbandons(s, a.tid, a.c, i, uuid); }
    } else {
      OutsideAction(s, a);
    }
  }

  lemma {:induction false} StaysAbandoned(acts: seq<Action>, more: seq<Action>, i: nat, uuid: string)
    requires Abandoned(Run(acts), i, uuid)
    ensures Abandoned(Run(acts + more), i, uuid)
  {
    if |more| == 0 {
      assert acts + more == acts;
    } else {
      var m, a := more[..|more| - 1], more[|more| - 1];
      assert acts + more == (acts + m) + [a];
      StaysAbandoned(acts, m, i, uuid);
      RunKeeps(acts + m);
      RunSnoc(acts + m, a);
      ActionAbandons(Run(acts + m), a, i, uuid);
    }
  }

  lemma {:induction false} CrashAbandons(s: State, tid: nat)
    requires StateOk(s) && tid < |s.procs| && Sending(s.procs[tid])
    ensures Abandoned(Apply(s, Crash(tid)), s.procs[tid].id, s.procs[tid].uuid)
  {
    var p := s.procs[tid];
    assert ProcOk(s.w, p);
  }

  /** At most once is not exactly once: when a process dies after the INSERT of a payout or refund and before
      its call, the row stays, and nothing that can happen afterwards, requests of the same name included,
      ever makes the gateway move its money. */
  lemma {:induction false} CrashLosesMoney(acts: seq<Action>, tid: nat, more: seq<Action>)
    requires tid < |Run(acts).procs| && Sending(Run(acts).procs[tid])
    ensures var p := Run(acts).procs[tid];
            var w := Run(acts + [Crash(tid)] + more).w;
            && p.id < |w.table| && w.table[p.id].diarraRef == p.uuid && TimesCalled(w.calls, p.uuid) == 0
  {
    var p := Run(acts).procs[tid];
    RunKeeps(acts);
    RunSnoc(acts, Crash(tid));
    CrashAbandons(Run(acts), tid);
    StaysAbandoned(acts + [Crash(tid)], more, p.id, p.uuid);
    var w := Run(acts + [Crash(tid)] + more).w;
    NeverCalled(w.calls, p.uuid);
  }

  lemma {:induction false} NeverCalled(calls: seq<Call>, ref: string)
    requires forall c :: 0 <= c < |calls| && MovesOut(calls[c]) ==> calls[c].ref != ref
    ensures TimesCalled(calls, ref) == 0
  {
    if 0 < |calls| { NeverCalled(calls[..|calls| - 1], ref); }
  }
}
