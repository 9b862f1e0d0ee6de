/** What repeating a request does: the idempotence the integration guide promises per app_ref. */
module Idempotence {
  import opened Fees
  import opened Model
  import opened Table
  import opened Ledger
  import opened Invariant
  import opened Runs
  import opened Handler

  ghost predicate HasRow(w: World, k: Key)
  {
    exists i :: 0 <= i < |w.table| && KeyOf(w.table[i]) == k
  }

  lemma {:induction false} HasRowFound(w: World, k: Key)
    ensures HasRow(w, k) <==> FindKey(w.table, k).Some?
  {
    var i := ScanKey(w.table, k, 0);
    if i.Some? { assert KeyOf(w.table[i.value]) == k; }
  }

  lemma {:induction false} HasRowStays(w: World, w': World, k: Key)
    requires Extends(w, w') && HasRow(w, k)
    ensures HasRow(w', k)
  {
    var i :| 0 <= i < |w.table| && KeyOf(w.table[i]) == k;
    SameReferences(w.table[i], w'.table[i]);
    assert KeyOf(w'.table[i]) == k;
  }

  // --- Payouts -----------------------------------------------------------------------

  /** The request passes every check of `Payout` and its INSERT is accepted. */
  ghost predicate PayoutAccepted(w: World, o: PayoutReq, env: seq<Choice>)
    requires 4 <= |env|
  {
    && o.appRef != "" && 0 < o.amount && o.phone != "" && o.operator != "" && o.country != ""
    && Lookup(w, Key(o.appId, o.appRef, Payout), env[0].fault).None?
    && WithinCeiling(w, o.appId, o.amount, env[1].fault) && 0 < Compute(o.amount, o.rate).net
    && !env[2].fault && InsertOutcomeOf(w.table, w.apps.Keys, PayoutRow(o, env[1].uuid, w.now), false).Inserted?
  }

  lemma {:induction false} InsertsOrEnds(w: World, row: Payment, admin: bool, fault: bool, next: Proc)
    ensures var r := InsertOutcomeOf(w.table, w.apps.Keys, row, false);
            InsertStep(w, row, false, admin, fault, next, Done) ==
            if fault || !r.Inserted? then Go(Done) else Outcome(next, Insert(r.row, admin))
  {
  }

  lemma {:induction false} ServeInsert(w: World, p: Proc, row: Payment, admin: bool, next: Proc, env: seq<Choice>,
                                       i: nat)
    requires i < |env| && !p.Done? && Local(w, p, env[i]) == InsertStep(w, row, false, admin, env[i].fault, next, Done)
    ensures var r := InsertOutcomeOf(w.table, w.apps.Keys, row, false);
            Serve(w, p, env, i) ==
            if env[i].fault || !r.Inserted? then w else Serve(Exec(w, Insert(r.row, admin)), next, env, i + 1)
  {
    InsertsOrEnds(w, row, admin, env[i].fault, next);
    ServeAs(w, p, env, i, InsertStep(w, row, false, admin, env[i].fault, next, Done));
  }

  lemma {:induction false} PayoutInserts(w: World, o: PayoutReq, uuid: string, c: Choice)
    ensures Local(w, PayoutInsert(o, uuid, false), c) ==
            InsertStep(w, PayoutRow(o, uuid, w.now), false, false, c.fault,
                       PayoutSend(|w.table|, uuid, Compute(o.amount, o.rate).net, o.phone, o.operator, o.country), Done)
  {
  }

  lemma {:induction false} ServePayoutInsert(w: World, o: PayoutReq, uuid: string, env: seq<Choice>)
    requires 4 <= |env|
    ensures var row := InsertOutcomeOf(w.table, w.apps.Keys, PayoutRow(o, uuid, w.now), false);
            var p := PayoutSend(|w.table|, uuid, Compute(o.amount, o.rate).net, o.phone, o.operator, o.country);
            Serve(w, PayoutInsert(o, uuid, false), env, 2) ==
            if env[2].fault || !row.Inserted? then w else Serve(Exec(w, Insert(row.row, false)), p, env, 3)
  {
    PayoutInserts(w, o, uuid, env[2]);
    ServeInsert(w, PayoutInsert(o, uuid, false), PayoutRow(o, uuid, w.now), false,
                PayoutSend(|w.table|, uuid, Compute(o.amount, o.rate).net, o.phone, o.operator, o.country), env, 2);
  }

  /** Recording the gateway's status makes no call. */
  lemma {:induction false} ServeMarkedCalls(w: World, id: nat, reply: Reply, env: seq<Choice>, i: nat)
    requires i <= |env|
    ensures Serve(w, MarkFrom(id, reply), env, i).calls == w.calls
  {
    if MarkFrom(id, reply).Mark? && i < |env| {
      ServeMark(w, MarkFrom(id, reply), env, i);
    }
  }

  /** A payout request reaches the gateway exactly when it is accepted and the call gets through, and
      then it sends the net amount to the recipient; refused, it changes nothing at all. */
  lemma {:induction false} PayoutOutcome(w: World, o: PayoutReq, env: seq<Choice>)
    requires 5 <= |env|
    ensures var w' := Serve(w, PayoutFind(o), env, 0);
            && (PayoutAccepted(w, o, env) ==>
                  w'.calls == if env[3].reply.Unreached? then w.calls
                              else w.calls + [PayoutCall(env[1].uuid, Compute(o.amount, o.rate).net, o.phone,
                                                         o.operator, o.country)])
            && (!PayoutAccepted(w, o, env) ==> w' == w)
  {
    ServePayout(w, o, env);
    ServePayoutInsert(w, o, env[1].uuid, env);
    if PayoutAccepted(w, o, env) {
      var row := InsertOutcomeOf(w.table, w.apps.Keys, PayoutRow(o, env[1].uuid, w.now), false).row;
      PayoutSendCalls(Exec(w, Insert(row, false)),
                      PayoutSend(|w.table|, env[1].uuid, Compute(o.amount, o.rate).net, o.phone, o.operator, o.country),
                        env, 3);
    }
  }

  lemma {:induction false} AfterCallCalls(w: World, call: Call, forRow: nat, reply: Reply)
    ensures AfterCall(w, call, forRow, reply).calls == if reply.Unreached? then w.calls else w.calls + [call]
  {
  }

  lemma {:induction false} PayoutSendCalls(w: World, p: Proc, env: seq<Choice>, i: nat)
    requires p.PayoutSend? && i + 2 <= |env|
    ensures Serve(w, p, env, i).calls ==
            if env[i].reply.Unreached? then w.calls
              else w.calls + [PayoutCall(p.uuid, p.net, p.phone, p.operator, p.country)]
  {
    var call := PayoutCall(p.uuid, p.net, p.phone, p.operator, p.country);
    ServePayoutSend(w, p, env, i);
    AfterCallCalls(w, call, p.id, env[i].reply);
    ServeMarkedCalls(AfterCall(w, call, p.id, env[i].reply), p.id, env[i].reply, env, i + 1);
  }

  lemma {:induction false} RefundSendCalls(w: World, p: Proc, env: seq<Choice>, i: nat)
    requires p.RefundSend? && i + 2 <= |env|
    ensures Serve(w, p, env, i).calls ==
            if env[i].reply.Unreached? then w.calls else w.calls + [RefundCall(p.uuid, p.depositRef)]
  {
    var call := RefundCall(p.uuid, p.depositRef);
    ServeRefundSend(w, p, env, i);
    AfterCallCalls(w, call, p.id, env[i].reply);
    ServeMarkedCalls(AfterCall(w, call, p.id, env[i].reply), p.id, env[i].reply, env, i + 1);
  }

  /** Once a payout row exists, repeating its app_ref changes nothing, whatever ran in between, even when the
      lookup fails. */
  lemma {:induction false} PayoutRepeated(acts: seq<Action>, more: seq<Action>, o: PayoutReq, env: seq<Choice>)
    requires HasRow(Run(acts).w, Key(o.appId, o.appRef, Payout)) && 2 <= |env| && (env[0].fault ==> 5 <= |env|)
    ensures Serve(Run(acts + more).w, PayoutFind(o), env, 0) == Run(acts + more).w
  {
    RunExtends(acts, more);
    HasRowStays(Run(acts).w, Run(acts + more).w, Key(o.appId, o.appRef, Payout));
    HasRowFound(Run(acts + more).w, Key(o.appId, o.appRef, Payout));
    if env[0].fault { PayoutOutcome(Run(acts + more).w, o, env); } else { ServePayout(Run(acts + more).w, o, env); }
  }

  // --- Refunds ------------------------------------------------------------------------

  ghost predicate RefundAccepted(w: World, r: RefundReq, env: seq<Choice>)
    requires 4 <= |env|
  {
    var dep := Lookup(w, Key(r.appId, r.depositAppRef, Deposit), env[1].fault);
    && r.depositAppRef != ""
    && Lookup(w, Key(r.appId, RefundRefOf(r), Refund), env[0].fault).None?
    && dep.Some? && dep.value.status.Completed? && !env[2].fault
    && InsertOutcomeOf(w.table, w.apps.Keys,
                       RefundRow(dep.value, RefundRefOf(r), StrPtr(r.callback), r.rate, env[1].uuid, w.now),
                         false).Inserted?
  }

  lemma {:induction false} RefundInserts(w: World, dep: Payment, refundRef: string, callback: Option<string>,
                                         rate: GoInt, uuid: string, c: Choice)
    ensures Local(w, RefundInsert(dep, refundRef, callback, rate, uuid), c) ==
            InsertStep(w, RefundRow(dep, refundRef, callback, rate, uuid, w.now), false, false, c.fault,
                       RefundSend(|w.table|, uuid, dep.diarraRef), Done)
  {
  }

  lemma {:induction false} ServeRefundInsert(w: World, dep: Payment, refundRef: string, callback: Option<string>,
                                             rate: GoInt, uuid: string, env: seq<Choice>)
    requires 4 <= |env|
    ensures var row := InsertOutcomeOf(w.table, w.apps.Keys, RefundRow(dep, refundRef, callback, rate, uuid, w.now),
                                       false);
            Serve(w, RefundInsert(dep, refundRef, callback, rate, uuid), env, 2) ==
            if env[2].fault || !row.Inserted? then w
            else Serve(Exec(w, Insert(row.row, false)), RefundSend(|w.table|, uuid, dep.diarraRef), env, 3)
  {
    RefundInserts(w, dep, refundRef, callback, rate, uuid, env[2]);
    ServeInsert(w, RefundInsert(dep, refundRef, callback, rate, uuid),
                RefundRow(dep, refundRef, callback, rate, uuid, w.now), false,
                RefundSend(|w.table|, uuid, dep.diarraRef), env, 2);
  }

  /** The refund of a completed deposit names the deposit by its current client ref. How often the
      deposit was refunded before plays no part: a new refund ref is refunded again. */
  lemma {:induction false} RefundOutcome(w: World, r: RefundReq, env: seq<Choice>)
    requires 5 <= |env|
    ensures var w' := Serve(w, RefundFind(r), env, 0);
            && (RefundAccepted(w, r, env) ==>
                  w'.calls == if env[3].reply.Unreached? then w.calls
                              else var k := Key(r.appId, r.depositAppRef, Deposit);
                                   w.calls + [RefundCall(env[1].uuid, FindKey(w.table, k).value.diarraRef)])
            && (!RefundAccepted(w, r, env) ==> w' == w)
  {
    ServeRefund(w, r, env);
    ServeRefundLoad(w, r, env);
    var dep := Lookup(w, Key(r.appId, r.depositAppRef, Deposit), env[1].fault);
    if dep.Some? {
      ServeRefundInsert(w, dep.value, RefundRefOf(r), StrPtr(r.callback), r.rate, env[1].uuid, env);
    }
    if RefundAccepted(w, r, env) {
      var row := RefundRow(dep.value, RefundRefOf(r), StrPtr(r.callback), r.rate, env[1].uuid, w.now);
      RefundSendCalls(Exec(w, Insert(InsertOutcomeOf(w.table, w.apps.Keys, row, false).row, false)),
                      RefundSend(|w.table|, env[1].uuid, dep.value.diarraRef), env, 3);
    }
  }

  lemma {:induction false} RefundRepeated(acts: seq<Action>, more: seq<Action>, r: RefundReq, env: seq<Choice>)
    requires HasRow(Run(acts).w, Key(r.appId, RefundRefOf(r), Refund)) && 2 <= |env| && (env[0].fault ==> 5 <= |env|)
    ensures Serve(Run(acts + more).w, RefundFind(r), env, 0) == Run(acts + more).w
  {
    RunExtends(acts, more);
    HasRowStays(Run(acts).w, Run(acts + more).w, Key(r.appId, RefundRefOf(r), Refund));
    HasRowFound(Run(acts + more).w, Key(r.appId, RefundRefOf(r), Refund));
    if env[0].fault { RefundOutcome(Run(acts + more).w, r, env); } else { ServeRefund(Run(acts + more).w, r, env); }
  }

  // --- Deposits -------------------------------------------------------------------------

  /** The deposit is open, and it has no link or is older than 23 hours. */
  predicate Due(p: Payment, now: int)
  {
    && (p.status == Pending || p.status == Processing)
    && (p.redirect == None || p.redirect == Some("") || 82_800 < now - p.createdAt)
  }

  /** The request is complete and the deposit is due for a new link. */
  predicate Refreshes(w: World, d: DepositReq, p: Payment)
  {
    d.appRef != "" && 0 < d.amount && d.country != "" && Due(p, w.now)
  }

  /** `Pay` on an app_ref that already has its deposit: refresh the link or do nothing. */
  lemma {:induction false} ServePayFound(w: World, d: DepositReq, env: seq<Choice>, i: nat)
    requires Unique(w.table) && i < |w.table| && KeyOf(w.table[i]) == Key(d.appId, d.appRef, Deposit)
    requires 1 <= |env| && !env[0].fault
    ensures w.table[i].id == i
    ensures Serve(w, PayFind(d), env, 0) ==
            if Refreshes(w, d, w.table[i])
              then Serve(w, RefreshSend(i, env[0].uuid, w.table[i].amount, d.country), env, 1) else w
  {
    FindExact(w.table, i);
    ServeLookup(w, d, env);
  }

  /** What the gateway has received after one more call. */
  function Reached(calls: seq<Call>, call: Call, reply: Reply): seq<Call>
  {
    if reply.Unreached? then calls else calls + [call]
  }

  lemma {:induction false} RefreshOutcome(w: World, id: nat, uuid: string, amount: GoInt, country: string,
                                          env: seq<Choice>, i: nat)
    requires i + 2 <= |env|
    ensures var w' := Serve(w, RefreshSend(id, uuid, amount, country), env, i);
            && w'.table == (if env[i].reply.Answer? && !env[i + 1].fault
                            then UpdateRefAndRedirect(w.table, id, uuid, env[i].reply.link) else w.table)
            && w'.calls == Reached(w.calls, DepositCall(uuid, amount, country), env[i].reply)
            && w'.now == w.now
  {
    ServeRefreshSend(w, id, uuid, amount, country, env, i);
    AfterCallCalls(w, DepositCall(uuid, amount, country), id, env[i].reply);
  }

  /** One more gateway deposit for the row's own amount, or nothing. */
  predicate RefreshedAs(w: World, w': World, i: nat, refreshes: bool, uuid: string, country: string, reply: Reply,
                        fault: bool)
    requires i < |w.table|
  {
    && (w'.calls != w.calls <==> refreshes && !reply.Unreached?)
    && (w'.calls != w.calls ==> w'.calls == w.calls + [DepositCall(uuid, w.table[i].amount, country)])
    && (!refreshes ==> w' == w)
    && w'.table == (if refreshes && reply.Answer? && !fault
                    then UpdateRefAndRedirect(w.table, i, uuid, reply.link) else w.table)
  }

  lemma {:induction false} RefreshedFrom(w: World, w': World, i: nat, refreshes: bool, uuid: string, country: string,
                                         env: seq<Choice>)
    requires i < |w.table| && 3 <= |env|
    requires w' == if refreshes then Serve(w, RefreshSend(i, uuid, w.table[i].amount, country), env, 1) else w
    ensures RefreshedAs(w, w', i, refreshes, uuid, country, env[1].reply, env[2].fault) && w'.now == w.now
  {
    RefreshOutcome(w, i, uuid, w.table[i].amount, country, env, 1);
  }

  /** `Pay` on an app_ref that already has its deposit is idempotent exactly when the request is refused,
      the deposit is closed, its link is still young, or the gateway is not reached. Otherwise exactly one
      more gateway deposit is created, for the row's own amount, not the request's. The table changes
      exactly by the re-keying write, when the call is answered and the write goes through. */
  lemma {:induction false} PayRepeated(w: World, d: DepositReq, env: seq<Choice>, i: nat)
    requires Unique(w.table) && i < |w.table| && KeyOf(w.table[i]) == Key(d.appId, d.appRef, Deposit)
    requires 3 <= |env| && !env[0].fault
    ensures RefreshedAs(w, Serve(w, PayFind(d), env, 0), i, Refreshes(w, d, w.table[i]), env[0].uuid, d.country,
                        env[1].reply, env[2].fault)
    ensures Serve(w, PayFind(d), env, 0).now == w.now
  {
    ServePayFound(w, d, env, i);
    RefreshedFrom(w, Serve(w, PayFind(d), env, 0), i, Refreshes(w, d, w.table[i]), env[0].uuid, d.country, env);
  }

  /** The call is answered with a link, and the re-keying write goes through. */
  predicate LinkSaved(t: Rows, i: nat, env: seq<Choice>)
    requires 3 <= |env|
  {
    env[1].reply.Answer? && env[1].reply.link != "" && !env[2].fault && !RekeyClash(t, i, env[0].uuid)
  }

  /** The link clock runs from the creation of the row, not of the link. So after a `Pay` the deposit still
      needs a link exactly when it did before and either no new link was saved or the row is older than
      23 hours: from then on a refresh never helps, and every further `Pay` makes one more gateway deposit. */
  lemma {:induction false} RefreshHelpsExactly(w: World, d: DepositReq, env: seq<Choice>, i: nat)
    requires Unique(w.table) && i < |w.table| && KeyOf(w.table[i]) == Key(d.appId, d.appRef, Deposit)
    requires 3 <= |env| && !env[0].fault
    ensures var w' := Serve(w, PayFind(d), env, 0);
            && i < |w'.table|
            && (Due(w'.table[i], w'.now) <==>
                  && Due(w.table[i], w.now)
                  && !(Refreshes(w, d, w.table[i]) && LinkSaved(w.table, i, env)
                       && w.now - w.table[i].createdAt <= 82_800))
  {
    PayRepeated(w, d, env, i);
  }

  /** A deposit that has its link asks for no new one until it is 23 hours old: after any number of seconds,
      a repeated `Pay` makes one more gateway deposit if and only if by then the row is older than that (and
      the request is complete, the deposit still open and the gateway reached). */
  lemma {:induction false} TimeMakesDue(acts: seq<Action>, seconds: nat, d: DepositReq, env: seq<Choice>, i: nat)
    requires i < |Run(acts).w.table| && KeyOf(Run(acts).w.table[i]) == Key(d.appId, d.appRef, Deposit)
    requires Run(acts).w.table[i].redirect.Some? && Run(acts).w.table[i].redirect.value != ""
    requires 3 <= |env| && !env[0].fault && d.appRef != "" && 0 < d.amount && d.country != ""
    ensures var w := Run(acts + [Tick(seconds)]).w;
            var p := Run(acts).w.table[i];
            Serve(w, PayFind(d), env, 0).calls != w.calls <==>
              && 82_800 < Run(acts).w.now + seconds - p.createdAt
              && (p.status == Pending || p.status == Processing) && !env[1].reply.Unreached?
  {
    var w := Run(acts + [Tick(seconds)]).w;
    RunKeeps(acts);
    RunSnoc(acts, Tick(seconds));
    PayRepeated(w, d, env, i);
  }
}
