/** What holds in every reachable state of every interleaving. */
module Guarantees {
  import opened Fees
  import opened Model
  import opened Table
  import opened Ledger
  import opened Invariant
  import opened Steps
  import opened Runs

  // --- From history back to the run ---------------------------------------------------

  /** Row `i` is 'completed' after the first m actions. */
  ghost predicate CompletedAt(acts: seq<Action>, m: nat, i: nat)
  {
    m <= |acts| && i < |Run(acts[..m]).w.table| && Run(acts[..m]).w.table[i].status == Completed
  }

  ghost predicate VerifiedAt(acts: seq<Action>, m: nat, appId: string)
  {
    m <= |acts| && appId in Run(acts[..m]).w.apps && Run(acts[..m]).w.apps[appId] == KYCVerified
  }

  lemma {:induction false} Prefixes(acts: seq<Action>, m: nat)
    requires m < |acts|
    ensures acts[..|acts| - 1][..m] == acts[..m]
  {
  }

  lemma {:induction false} CompletedInRun(acts: seq<Action>, i: nat)
    ensures i in Run(acts).w.h.completed <==> exists m: nat :: CompletedAt(acts, m, i)
  {
    if i in Run(acts).w.h.completed {
      CompletedWasSeen(acts, i);
    }
    if m: nat :| CompletedAt(acts, m, i) {
      RunKeeps(acts[..m]);
      RunExtends(acts[..m], acts[m..]);
      assert acts[..m] + acts[m..] == acts;
    }
  }

  lemma {:induction false} CompletedWasSeen(acts: seq<Action>, i: nat)
    requires i in Run(acts).w.h.completed
    ensures exists m: nat :: CompletedAt(acts, m, i)
  {
    assert acts[..|acts|] == acts;
    var before := acts[..|acts| - 1];
    if i in Run(before).w.h.completed {
      CompletedWasSeen(before, i);
      var m: nat :| CompletedAt(before, m, i);
      Prefixes(acts, m);
      assert CompletedAt(acts, m, i);
    } else {
      assert CompletedAt(acts, |acts|, i);
    }
  }

  lemma {:induction false} VerifiedWasSeen(acts: seq<Action>, appId: string)
    requires appId in Run(acts).w.h.verified
    ensures exists m: nat :: VerifiedAt(acts, m, appId)
  {
    assert acts[..|acts|] == acts;
    var before := acts[..|acts| - 1];
    if appId in Run(before).w.h.verified {
      VerifiedWasSeen(before, appId);
      var m: nat :| VerifiedAt(before, m, appId);
      Prefixes(acts, m);
      assert VerifiedAt(acts, m, appId);
    } else {
      assert VerifiedAt(acts, |acts|, appId);
    }
  }

  // --- Payouts and refunds: at most once ------------------------------------------------

  /** How often money was moved out under one client ref. */
  function TimesCalled(calls: seq<Call>, ref: string): nat
  {
    if |calls| == 0 then 0
    else
      var last := calls[|calls| - 1];
      TimesCalled(calls[..|calls| - 1], ref) + (if !last.DepositCall? && last.ref == ref then 1 else 0)
  }

  lemma {:induction false} AtMostOnce(calls: seq<Call>, ref: string)
    requires forall c, d :: 0 <= c < d < |calls| && MovesOut(calls[c]) && MovesOut(calls[d]) ==>
             calls[c].ref != calls[d].ref
    ensures TimesCalled(calls, ref) <= 1
    ensures (forall c :: 0 <= c < |calls| && MovesOut(calls[c]) ==> calls[c].ref != ref) ==>
            TimesCalled(calls, ref) == 0
  {
    if 0 < |calls| {
      AtMostOnce(calls[..|calls| - 1], ref);
    }
  }

  /** In every interleaving the gateway is asked at most once to pay out a payout row, and at most
      once to refund a refund row; the row is the only one with its (app, ref), and a payout call
      carries that row's client ref, recipient and exactly its net amount. */
  lemma {:induction false} MoneyMovesOutOnce(acts: seq<Action>)
    ensures var w := Run(acts).w;
            && (forall c :: 0 <= c < |w.calls| && MovesOut(w.calls[c]) ==> exists i :: Matches(w.table, i, w.calls[c]))
            && (forall i :: 0 <= i < |w.table| ==> TimesCalled(w.calls, w.table[i].diarraRef) <= 1)
            && (forall i, j :: 0 <= i < j < |w.table| ==> KeyOf(w.table[i]) != KeyOf(w.table[j]))
  {
    RunKeeps(acts);
    var w := Run(acts).w;
    forall i | 0 <= i < |w.table| ensures TimesCalled(w.calls, w.table[i].diarraRef) <= 1 {
      AtMostOnce(w.calls, w.table[i].diarraRef);
    }
  }

  // --- Conservation of payouts ------------------------------------------------------------

  function TotalSent(calls: seq<Call>): int
  {
    if |calls| == 0 then 0
    else
      var last := calls[|calls| - 1];
      TotalSent(calls[..|calls| - 1]) + (if last.PayoutCall? then last.amount else 0)
  }

  function SentTo(calls: seq<Call>, ref: string): int
  {
    if |calls| == 0 then 0
    else
      var last := calls[|calls| - 1];
      SentTo(calls[..|calls| - 1], ref) + (if last.PayoutCall? && last.ref == ref then last.amount else 0)
  }

  /** What payout rows debit, and what they keep as commission. */
  function Debited(t: Rows): int
  {
    if |t| == 0 then 0 else Debited(t[..|t| - 1]) + (if t[|t| - 1].typ.Payout? then t[|t| - 1].amount else 0)
  }

  function Commissions(t: Rows): int
  {
    if |t| == 0 then 0 else Commissions(t[..|t| - 1]) + (if t[|t| - 1].typ.Payout? then t[|t| - 1].fee else 0)
  }

  function SentToRows(calls: seq<Call>, t: Rows): int
  {
    if |t| == 0 then 0
    else SentToRows(calls, t[..|t| - 1]) + (if t[|t| - 1].typ.Payout? then SentTo(calls, t[|t| - 1].diarraRef) else 0)
  }

  lemma {:induction false} SentToNobody(t: Rows)
    ensures SentToRows([], t) == 0
  {
    if 0 < |t| { SentToNobody(t[..|t| - 1]); }
  }

  /** One more payout call is counted for exactly one row. */
  lemma {:induction false} SentToRowsStep(calls: seq<Call>, call: Call, t: Rows)
    requires forall i, j :: 0 <= i < j < |t| ==> t[i].diarraRef != t[j].diarraRef
    ensures SentToRows(calls + [call], t) == SentToRows(calls, t) +
            (if call.PayoutCall? && exists i :: 0 <= i < |t| && t[i].typ.Payout? && t[i].diarraRef == call.ref
             then call.amount else 0)
  {
    if 0 < |t| {
      var n := |t| - 1;
      SentToRowsStep(calls, call, t[..n]);
      assert (calls + [call])[..|calls|] == calls;
      assert forall i :: 0 <= i < n ==> t[..n][i] == t[i];
      if call.PayoutCall? && (exists i :: 0 <= i < n && t[i].typ.Payout? && t[i].diarraRef == call.ref) {
        var i :| 0 <= i < n && t[i].typ.Payout? && t[i].diarraRef == call.ref;
        assert t[..n][i].diarraRef == call.ref;
        assert t[n].diarraRef != call.ref;
      }
    }
  }

  lemma {:induction false} SentIsSentToRows(calls: seq<Call>, t: Rows)
    requires forall i, j :: 0 <= i < j < |t| ==> t[i].diarraRef != t[j].diarraRef
    requires forall c :: 0 <= c < |calls| && MovesOut(calls[c]) ==> exists i :: Matches(t, i, calls[c])
    ensures TotalSent(calls) == SentToRows(calls, t)
  {
    if |calls| == 0 {
      SentToNobody(t);
    } else {
      var n := |calls| - 1;
      SentIsSentToRows(calls[..n], t);
      assert calls[..n] + [calls[n]] == calls;
      SentToRowsStep(calls[..n], calls[n], t);
    }
  }

  lemma {:induction false} SentAtMostNet(calls: seq<Call>, ref: string, net: int)
    requires 0 <= net
    requires forall c, d :: 0 <= c < d < |calls| && MovesOut(calls[c]) && MovesOut(calls[d]) ==>
             calls[c].ref != calls[d].ref
    requires forall c :: 0 <= c < |calls| && calls[c].PayoutCall? && calls[c].ref == ref ==> calls[c].amount == net
    ensures SentTo(calls, ref) <= net
    ensures (forall c :: 0 <= c < |calls| && MovesOut(calls[c]) ==> calls[c].ref != ref) ==> SentTo(calls, ref) == 0
  {
    if 0 < |calls| {
      SentAtMostNet(calls[..|calls| - 1], ref, net);
    }
  }

  lemma {:induction false} RowsCoverSent(w: World, k: nat)
    requires WorldOk(w) && k <= |w.table|
    ensures SentToRows(w.calls, w.table[..k]) <= Debited(w.table[..k]) - Commissions(w.table[..k])
  {
    if 0 < k {
      RowsCoverSent(w, k - 1);
      assert w.table[..k][..k - 1] == w.table[..k - 1];
      var p := w.table[k - 1];
      assert RowOk(p);
      if p.typ.Payout? {
        forall c | 0 <= c < |w.calls| && w.calls[c].PayoutCall? && w.calls[c].ref == p.diarraRef
          ensures w.calls[c].amount == p.net.value
        {
          var i :| Matches(w.table, i, w.calls[c]);
        }
        SentAtMostNet(w.calls, p.diarraRef, p.net.value);
      }
    }
  }

  /** In every run, what the gateway was told to send never exceeds what payout rows debit
      less their commissions. */
  lemma {:induction false} PayoutsConserved(acts: seq<Action>)
    ensures var w := Run(acts).w; TotalSent(w.calls) <= Debited(w.table) - Commissions(w.table)
  {
    RunKeeps(acts);
    var w := Run(acts).w;
    SentIsSentToRows(w.calls, w.table);
    RowsCoverSent(w, |w.table|);
    assert w.table[..|w.table|] == w.table;
  }

  // --- Refund links ---------------------------------------------------------------------------

  /** Row `d` is completed after the first m actions, when row `r` does not exist yet. */
  ghost predicate CompletedBefore(acts: seq<Action>, m: nat, d: nat, r: nat)
  {
    CompletedAt(acts, m, d) && |Run(acts[..m]).w.table| <= r
  }

  /** Row `r` refunds row `d`, which was completed before `r` existed. */
  ghost predicate RefundsCompletedDeposit(acts: seq<Action>, r: nat)
  {
    var t := Run(acts).w.table;
    && r < |t| && t[r].refundOf.Some? && t[r].refundOf.value < r
    && var d := t[r].refundOf.value;
    && t[d].typ.Deposit? && t[d].refundOf.None?
    && t[d].appId == t[r].appId && t[d].amount == t[r].amount && t[d].currency == t[r].currency
    && exists m: nat :: CompletedBefore(acts, m, d, r)
  }

  lemma {:induction false} RefundWasCompletedBefore(acts: seq<Action>, r: nat)
    requires r < |Run(acts).w.table| && Run(acts).w.table[r].refundOf.Some?
    ensures exists m: nat :: CompletedBefore(acts, m, Run(acts).w.table[r].refundOf.value, r)
  {
    var before, a := acts[..|acts| - 1], acts[|acts| - 1];
    var d := Run(acts).w.table[r].refundOf.value;
    RunKeeps(before);
    if r < |Run(before).w.table| {
      ApplyKeeps(Run(before), a);
      SameReferences(Run(before).w.table[r], Run(acts).w.table[r]);
      RefundWasCompletedBefore(before, r);
      var m: nat :| CompletedBefore(before, m, d, r);
      Prefixes(acts, m);
      assert CompletedBefore(acts, m, d, r);
    } else {
      NewRowIsRefundOf(Run(before), a, r);
      CompletedWasSeen(before, d);
      var m: nat :| CompletedAt(before, m, d);
      assert before + [a] == acts;
      SeenBeforeNow(before, a, m, d, r);
    }
  }

  lemma {:induction false} SeenBeforeNow(before: seq<Action>, a: Action, m: nat, d: nat, r: nat)
    requires CompletedAt(before, m, d) && |Run(before).w.table| <= r
    ensures CompletedBefore(before + [a], m, d, r)
  {
    RunExtends(before[..m], before[m..]);
    assert before[..m] + before[m..] == before;
    assert (before + [a])[..m] == before[..m];
  }

  /** The action that creates a refund row finds its deposit already completed once. */
  lemma {:induction false} NewRowIsRefundOf(s: State, a: Action, r: nat)
    requires StateOk(s) && |s.w.table| <= r < |Apply(s, a).w.table| && Apply(s, a).w.table[r].refundOf.Some?
    ensures Apply(s, a).w.table[r].refundOf.value in s.w.h.completed
  {
    if a.Step? && a.tid < |s.procs| {
      LocalOk(s.w, s.procs[a.tid], a.c);
      var e := Local(s.w, s.procs[a.tid], a.c).effect;
      assert LinkOk(s.w, e.row);
    }
  }

  /** In every interleaving, app refunds racing admin refunds included, every refund row points
      to an older deposit row of the same app, amount and currency that was completed before the
      refund row existed; deposits refund nothing, so the links form a forest of depth one. */
  lemma {:induction false} RefundLinks(acts: seq<Action>, r: nat)
    requires r < |Run(acts).w.table| && Run(acts).w.table[r].typ.Refund?
    ensures RefundsCompletedDeposit(acts, r)
  {
    RunKeeps(acts);
    var w := Run(acts).w;
    assert RowOk(w.table[r]) && LinkOk(w, w.table[r]);
    assert RowOk(w.table[w.table[r].refundOf.value]);
    RefundWasCompletedBefore(acts, r);
  }

  /** The admin refund and the app's default refund of a deposit use one ref, so one row at most. */
  lemma {:induction false} DefaultRefundsShareOneRow(acts: seq<Action>, r: RefundReq, i: nat, j: nat)
    requires r.refundAppRef == ""
    requires i < |Run(acts).w.table| && j < |Run(acts).w.table|
    requires KeyOf(Run(acts).w.table[i]) == Key(r.appId, RefundRefOf(r), Refund)
    requires KeyOf(Run(acts).w.table[j]) == Key(r.appId, REFUND_PREFIX + r.depositAppRef, Refund)
    ensures i == j && TimesCalled(Run(acts).w.calls, Run(acts).w.table[i].diarraRef) <= 1
  {
    RunKeeps(acts);
    MoneyMovesOutOnce(acts);
  }

  // --- Columns that never change ------------------------------------------------------------------

  /** In every reachable state a row's identity and money columns are those of its insertion, the
      fee is what `Compute` gives for the recorded rate, fee and net split the amount, a payout
      sends at least 1 FCFA, and the status is one of the five. */
  lemma {:induction false} MoneyFrozen(acts: seq<Action>, more: seq<Action>, i: nat)
    requires i < |Run(acts).w.table|
    ensures i < |Run(acts + more).w.table|
    ensures var p, q := Run(acts).w.table[i], Run(acts + more).w.table[i];
            && KeyOf(q) == KeyOf(p) && q.amount == p.amount && q.fee == p.fee && q.net == p.net && q.rate == p.rate
            && q.currency == p.currency && q.refundOf == p.refundOf && q.callback == p.callback
               && q.createdAt == p.createdAt
            && (!p.typ.Deposit? ==> q.diarraRef == p.diarraRef)
    ensures var q := Run(acts + more).w.table[i];
            && q.rate.Some? && q.net.Some?
            && Compute(q.amount, q.rate.value) == Result(q.amount, q.fee, q.net.value, q.rate.value)
            && q.fee + q.net.value == q.amount
            && q.status in {Pending, Processing, Completed, Status.Failed, Cancelled}
            && (q.typ.Payout? ==> 1 <= q.net.value)
  {
    RunExtends(acts, more);
    RunKeeps(acts + more);
    var p, q := Run(acts).w.table[i], Run(acts + more).w.table[i];
    SameReferences(p, q);
    assert RowOk(q);
    ComputeIsCommission(q.amount, q.rate.value);
  }

  // --- KYC ceilings ----------------------------------------------------------------------------------

  /** A row not made by `PayoutForAdmin` stays under the ceilings: 1,000,000 for everybody, and
      200,000 unless its app was verified in some state of the run. */
  lemma {:induction false} KYCCeilings(acts: seq<Action>, i: nat)
    requires i < |Run(acts).w.table| && i !in Run(acts).w.h.adminMade
    ensures var p := Run(acts).w.table[i];
            && p.amount <= 1_000_000
            && (p.amount <= 200_000 || exists m: nat :: VerifiedAt(acts, m, p.appId))
  {
    RunKeeps(acts);
    var w := Run(acts).w;
    assert WithinCap(w.h, w.table[i].appId, w.table[i].amount);
    if 200_000 < w.table[i].amount {
      VerifiedWasSeen(acts, w.table[i].appId);
    }
  }

  /** Action m is `PayoutForAdmin` inserting row i. */
  ghost predicate AdminInsertAt(acts: seq<Action>, m: nat, i: nat)
  {
    && m < |acts| && acts[m].Step?
    && var s := Run(acts[..m]);
    && acts[m].tid < |s.procs| && s.procs[acts[m].tid].PayoutInsert? && s.procs[acts[m].tid].admin
    && |s.w.table| == i
  }

  /** Only `PayoutForAdmin` escapes the ceilings. */
  lemma {:induction false} AdminMadeByAdmin(acts: seq<Action>, i: nat)
    requires i in Run(acts).w.h.adminMade
    ensures exists m: nat :: AdminInsertAt(acts, m, i)
  {
    var before := acts[..|acts| - 1];
    if i in Run(before).w.h.adminMade {
      AdminMadeByAdmin(before, i);
      var m: nat :| AdminInsertAt(before, m, i);
      Prefixes(acts, m);
      assert AdminInsertAt(acts, m, i);
    } else {
      AdminInsertOnly(Run(before), acts[|acts| - 1], i);
      assert AdminInsertAt(acts, |acts| - 1, i);
    }
  }

  /** The step inserts a row for `PayoutForAdmin`. */
  predicate InsertsForAdmin(e: Effect)
  {
    e.Insert? && e.byAdmin
  }

  lemma {:induction false} DepositInsertsPlain(w: World, p: Proc, c: Choice)
    ensures !InsertsForAdmin(LocalDeposit(w, p, c).effect)
  {
  }

  lemma {:induction false} PayoutInsertsForAdmin(w: World, p: Proc, c: Choice)
    ensures InsertsForAdmin(LocalPayout(w, p, c).effect) ==> p.PayoutInsert? && p.admin
  {
  }

  lemma {:induction false} RefundInsertsPlain(w: World, p: Proc, c: Choice)
    ensures !InsertsForAdmin(LocalRefund(w, p, c).effect)
  {
  }

  lemma {:induction false} RelayInsertsPlain(w: World, p: Proc, c: Choice)
    ensures !InsertsForAdmin(LocalRelay(w, p, c).effect)
  {
  }

  lemma {:induction false} OnlyAdminPayout(w: World, p: Proc, c: Choice)
    ensures InsertsForAdmin(Local(w, p, c).effect) ==> p.PayoutInsert? && p.admin
  {
    DepositInsertsPlain(w, p, c);
    PayoutInsertsForAdmin(w, p, c);
    RefundInsertsPlain(w, p, c);
    RelayInsertsPlain(w, p, c);
  }

  lemma {:induction false} AdminMadeGrows(w: World, e: Effect, i: nat)
    ensures i in Exec(w, e).h.adminMade && i !in w.h.adminMade ==> InsertsForAdmin(e) && |w.table| == i
  {
  }

  lemma {:induction false} AdminInsertOnly(s: State, a: Action, i: nat)
    requires i in Apply(s, a).w.h.adminMade && i !in s.w.h.adminMade
    ensures a.Step? && a.tid < |s.procs| && s.procs[a.tid].PayoutInsert? && s.procs[a.tid].admin && |s.w.table| == i
  {
    if a.Step? && a.tid < |s.procs| {
      OnlyAdminPayout(s.w, s.procs[a.tid], a.c);
      AdminMadeGrows(s.w, Local(s.w, s.procs[a.tid], a.c).effect, i);
    }
  }

  // --- Relay bookkeeping --------------------------------------------------------------------------------

  /** However callback relays and admin re-sends interleave: the attempts counter counts the recorded
      outcomes, the status and error are those of the last one, and 'pending', zero attempts and no
      last-attempt time mean the same. */
  lemma {:induction false} RelayBookkeeping(acts: seq<Action>, i: nat)
    requires i < |Run(acts).w.table|
    ensures var w := Run(acts).w; var p := w.table[i];
            && p.relayAttempts == CountRelays(w.h.relays, i)
            && (p.relayStatus == RelayPending <==> p.relayAttempts == 0)
            && (p.relayStatus == RelayPending <==> p.relayLastAt == None)
            && (p.relayStatus == RelayFailed <==> p.relayLastError.Some?)
            && (0 < p.relayAttempts ==>
                  && LastRelay(w.h.relays, i) == Some(RelayRecord(i, p.relayStatus, p.relayLastError))
                  && (p.relayStatus == RelaySkipped <==> p.callback == None || p.callback == Some("")))
  {
    RunKeeps(acts);
    var w := Run(acts).w;
    assert RowOk(w.table[i]) && RelaysRecorded(w.h.relays, w.table[i], i);
  }

  /** Every payout row names its operator, as the dashboard's by-operator view assumes. */
  lemma {:induction false} PayoutsNameTheirOperator(acts: seq<Action>, i: nat)
    requires i < |Run(acts).w.table|
    ensures Run(acts).w.table[i].typ.Payout? ==> Run(acts).w.table[i].operator.Some?
  {
    RunKeeps(acts);
    assert RowOk(Run(acts).w.table[i]);
  }

  // --- When a completed deposit does not stay completed --------------------------------------------------

  /** Row `i` is about to be taken out of 'completed': the creating request gives up on its own
      gateway call, or a callback reports another status. */
  predicate Undoes(p: Proc, i: nat)
  {
    || (p.DepositFail? && p.id == i)
    || (p.CallbackUpdate? && p.p.id == i && AllowedStatus(p.status) && p.status != Completed)
  }

  /** Row `i` is about to change its client ref: a refresh saves a ref no other row carries. */
  predicate Rekeys(t: Rows, p: Proc, i: nat)
    requires i < |t|
  {
    p.RefreshSave? && p.id == i && p.uuid != t[i].diarraRef && !RekeyClash(t, i, p.uuid)
  }

  /** The status update is unconditional, so in a reachable state a step takes a completed deposit out
      of 'completed' exactly when it is one of two writes, and re-keys it exactly in a refresh. */
  lemma {:induction false} CompletedUndoneExactly(s: State, tid: nat, c: Choice, i: nat)
    requires StateOk(s) && tid < |s.procs| && IsDeposit(s.w, i) && s.w.table[i].status == Completed
    ensures var t' := Apply(s, Step(tid, c)).w.table;
            && i < |t'|
            && (t'[i].status != Completed <==> !c.fault && Undoes(s.procs[tid], i))
            && (t'[i].diarraRef != s.w.table[i].diarraRef <==> !c.fault && Rekeys(s.w.table, s.procs[tid], i))
  {
    assert ProcOk(s.w, s.procs[tid]);
    WriteOf(s.w, s.procs[tid], c);
    WrittenRow(s.w, Local(s.w, s.procs[tid], c).effect, i);
  }

  /** The effect of a step on statuses and refs of deposit rows. */
  ghost predicate WritesOnly(w: World, p: Proc, c: Choice, e: Effect)
  {
    && (e.SetStatus? && IsDeposit(w, e.id) <==>
          !c.fault && ((p.DepositFail? && IsDeposit(w, p.id))
                       || (p.CallbackUpdate? && IsDeposit(w, p.p.id) && AllowedStatus(p.status))))
    && (e.SetStatus? && p.DepositFail? ==> e.id == p.id && e.status == Failed)
    && (e.SetStatus? && p.CallbackUpdate? ==> e.id == p.p.id && e.status == p.status)
    && (e.Rekey? <==> !c.fault && p.RefreshSave?)
    && (e.Rekey? ==> e.id == p.id && e.ref == p.uuid)
  }

  lemma {:induction false} WriteOfDeposit(w: World, p: Proc, c: Choice)
    requires DepositPoint(p)
    ensures WritesOnly(w, p, c, LocalDeposit(w, p, c).effect)
  {
  }

  lemma {:induction false} WriteOfPayout(w: World, p: Proc, c: Choice)
    requires PayoutPoint(p) && ProcOk(w, p)
    ensures WritesOnly(w, p, c, LocalPayout(w, p, c).effect)
  {
  }

  lemma {:induction false} WriteOfRefund(w: World, p: Proc, c: Choice)
    requires RefundPoint(p)
    ensures WritesOnly(w, p, c, LocalRefund(w, p, c).effect)
  {
  }

  lemma {:induction false} WriteOfRelay(w: World, p: Proc, c: Choice)
    requires !DepositPoint(p) && !PayoutPoint(p) && !RefundPoint(p)
    ensures WritesOnly(w, p, c, LocalRelay(w, p, c).effect)
  {
  }

  lemma {:induction false} WriteOf(w: World, p: Proc, c: Choice)
    requires ProcOk(w, p)
    ensures WritesOnly(w, p, c, Local(w, p, c).effect)
  {
    if DepositPoint(p) { WriteOfDeposit(w, p, c); }
    else if PayoutPoint(p) { WriteOfPayout(w, p, c); }
    else if RefundPoint(p) { WriteOfRefund(w, p, c); }
    else { WriteOfRelay(w, p, c); }
  }

  lemma {:induction false} WrittenRow(w: World, e: Effect, i: nat)
    requires IsDeposit(w, i)
    ensures var t' := Exec(w, e).table;
            && i < |t'|
            && t'[i].status == (if e.SetStatus? && e.id == i && AllowedStatus(e.status) then e.status
                                else w.table[i].status)
            && t'[i].diarraRef == (if e.Rekey? && e.id == i && !RekeyClash(w.table, i, e.ref) then e.ref
                                   else w.table[i].diarraRef)
  {
  }

  // --- KYC levels ------------------------------------------------------------------------------------

  /** Nothing but an admin's decision about this very app changes its level. */
  lemma {:induction false} LevelsAreSet(s: State, a: Action, appId: string)
    requires appId in s.w.apps
    ensures appId in Apply(s, a).w.apps
    ensures Apply(s, a).w.apps[appId] ==
            if a.SetKYCLevel? && a.appId == appId then a.level else s.w.apps[appId]
  {
    if a.Step? && a.tid < |s.procs| { AppsStay(s.w, Local(s.w, s.procs[a.tid], a.c).effect); }
  }

  lemma {:induction false} AppsStay(w: World, e: Effect)
    ensures Exec(w, e).apps == w.apps
  {
  }
}
