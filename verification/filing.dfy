/** How an accepted request is filed: under which key and with which columns, when it is accepted, and what a
    second request of the same name then does. */
module Filing {
  import opened Fees
  import opened Model
  import opened Table
  import opened Ledger
  import opened Invariant
  import opened Runs
  import opened Handler
  import opened HandlerRuns
  import opened Idempotence
  import opened Outcomes

  // --- Columns ---------------------------------------------------------------------------------

  /** The rate a request is charged at. */
  function RateUsed(rate: GoInt): GoInt
  {
    if 0 < rate then rate else 600
  }

  /** An empty text is stored as NULL. */
  predicate Stored(column: Option<string>, text: string)
  {
    match column
    case None => text == ""
    case Some(s) => s == text && text != ""
  }

  /** Identity, money and callback of a row, column by column. */
  predicate Names(p: Payment, appId: string, appRef: string, typ: PaymentType, amount: int, rate: GoInt,
                  currency: string, callback: string)
  {
    && p.appId == appId && p.appRef == appRef && p.typ == typ
    && p.amount == amount && p.rate == Some(RateUsed(rate)) && p.currency == currency && Stored(p.callback, callback)
  }

  /** Fee and net are those of the tariff. */
  predicate Charged(p: Payment)
  {
    && 0 < p.amount && p.rate.Some? && 0 < p.rate.value
    && p.fee == Commission(p.amount, p.rate.value) && p.net == Some(p.amount - p.fee)
  }

  /** No relay has been recorded, and the row is as old as the request. */
  predicate Untold(p: Payment, now: int)
  {
    && p.relayStatus.RelayPending? && p.relayAttempts == 0 && p.relayLastError.None? && p.relayLastAt.None?
    && p.createdAt == now
  }

  predicate OneOfFive(s: Status)
  {
    s == Pending || s == Processing || s == Completed || s == Status.Failed || s == Cancelled
  }

  /** The status columns after the call of a payout or refund: pending when the answer names no status or the
      last write is lost, failed when there is no answer, else what the answer says, with an unknown status
      as processing. */
  predicate MarkedBy(p: Payment, reply: Reply, reason: string, lost: bool)
  {
    if lost || (reply.Answer? && reply.status == Other("")) then
      p.status == Pending && p.provider.None? && p.failureReason.None?
    else if !reply.Answer? then
      p.status == Status.Failed && p.provider.None? && p.failureReason == Some(reason)
    else
      && p.status == (if OneOfFive(reply.status) then reply.status else Processing)
      && Stored(p.provider, reply.provider) && p.failureReason.None?
  }

  /** One row more, at the end. */
  predicate Grows(t: Rows, t': Rows)
  {
    t <= t' && |t'| == |t| + 1 && t'[|t|].id == |t|
  }

  // --- When an INSERT goes through ---------------------------------------------------------------

  /** Neither the name nor the client ref is taken. */
  ghost predicate Free(t: Rows, appId: string, appRef: string, typ: PaymentType, ref: string)
  {
    forall i :: 0 <= i < |t| ==>
      !(t[i].appId == appId && t[i].appRef == appRef && t[i].typ == typ) && t[i].diarraRef != ref
  }

  /** The app exists and the amount is within its ceiling. */
  predicate UnderCeiling(w: World, appId: string, amount: int)
  {
    appId in w.apps && amount <= (if w.apps[appId].KYCVerified? then 1_000_000 else 200_000)
  }

  lemma {:induction false} CeilingIs(w: World, appId: string, amount: int, fault: bool)
    ensures WithinCeiling(w, appId, amount, fault) <==> !fault && UnderCeiling(w, appId, amount)
  {
  }

  /** An amount that a column can hold is charged by the tariff and leaves room for its fee and net. */
  lemma {:induction false} ChargeFits(row: Payment, amount: GoInt, rate: GoInt)
    requires 0 < amount <= 0x7FFF_FFFF
    requires var c := Compute(amount, rate);
             row.amount == c.amount && row.fee == c.fee && row.net == Some(c.net) && row.rate == Some(c.rate)
    ensures row.rate == Some(RateUsed(rate)) && row.amount == amount
    ensures Fits(row) <==> RateUsed(rate) <= 0x7FFF_FFFF
    ensures Fits(row) ==> Charged(row)
  {
    ComputeExactly(amount, rate);
    if rate <= INT4_MAX { ComputeIsCommission(amount, rate); }
  }

  /** A fresh row is inserted exactly when it fits, its app exists and nothing it names is taken. */
  lemma {:induction false} InsertsFresh(w: World, row: Payment, onConflict: bool)
    requires row.refundOf.Some? ==> row.refundOf.value < |w.table|
    ensures InsertOutcomeOf(w.table, w.apps.Keys, row, onConflict).Inserted? <==>
            Fits(row) && row.appId in w.apps && Free(w.table, row.appId, row.appRef, row.typ, row.diarraRef)
    ensures InsertOutcomeOf(w.table, w.apps.Keys, row, onConflict).Inserted? ==>
            InsertOutcomeOf(w.table, w.apps.Keys, row, onConflict).row == row.(id := |w.table|)
  {
    InsertExact(w.table, w.apps.Keys, row, onConflict);
    forall i | 0 <= i < |w.table|
      ensures KeyOf(w.table[i]) == KeyOf(row) <==>
              w.table[i].appId == row.appId && w.table[i].appRef == row.appRef && w.table[i].typ == row.typ
    {
    }
  }

  lemma {:induction false} FreeIsUnfound(t: Rows, appId: string, appRef: string, typ: PaymentType, ref: string)
    ensures Free(t, appId, appRef, typ, ref) ==> FindKey(t, Key(appId, appRef, typ)).None?
  {
    var i := ScanKey(t, Key(appId, appRef, typ), 0);
    if i.Some? { assert KeyOf(t[i.value]) == Key(appId, appRef, typ); }
  }

  // --- Payouts --------------------------------------------------------------------------------------

  /** When a payout request goes through: it is complete, its app exists and may move the amount, something
      is left after the commission, the rate fits its column, no read or INSERT fails, and its name is free. */
  ghost predicate PayoutAdmitted(w: World, o: PayoutReq, uuid: string, capFault: bool, insertFault: bool)
  {
    && o.appRef != "" && 0 < o.amount && o.phone != "" && o.operator != "" && o.country != ""
    && !capFault && UnderCeiling(w, o.appId, o.amount)
    && RateUsed(o.rate) <= 0x7FFF_FFFF && Commission(o.amount, RateUsed(o.rate)) < o.amount
    && !insertFault && Free(w.table, o.appId, o.appRef, Payout, uuid)
  }

  lemma {:induction false} PayoutRowFits(o: PayoutReq, uuid: string, now: int)
    requires 0 < o.amount <= 1_000_000
    ensures var row := PayoutRow(o, uuid, now);
            && (Fits(row) <==> RateUsed(o.rate) <= 0x7FFF_FFFF)
            && (Fits(row) ==> (0 < Compute(o.amount, o.rate).net <==>
                               Commission(o.amount, RateUsed(o.rate)) < o.amount))
            && row.appId == o.appId && row.appRef == o.appRef && row.typ == Payout && row.diarraRef == uuid
            && row.refundOf.None?
  {
    ChargeFits(PayoutRow(o, uuid, now), o.amount, o.rate);
  }

  lemma {:induction false} PayoutAdmittedExactly(w: World, o: PayoutReq, env: seq<Choice>)
    requires 4 <= |env|
    ensures PayoutAccepted(w, o, env) <==> PayoutAdmitted(w, o, env[1].uuid, env[1].fault, env[2].fault)
  {
    CeilingIs(w, o.appId, o.amount, env[1].fault);
    FreeIsUnfound(w.table, o.appId, o.appRef, Payout, env[1].uuid);
    if 0 < o.amount && UnderCeiling(w, o.appId, o.amount) {
      PayoutRowFits(o, env[1].uuid, w.now);
      InsertsFresh(w, PayoutRow(o, env[1].uuid, w.now), false);
    }
  }

  /** The row of a payout request, column by column. */
  predicate PayoutFor(p: Payment, o: PayoutReq, uuid: string, now: int)
  {
    && Names(p, o.appId, o.appRef, Payout, o.amount, o.rate, "XOF", o.callback) && Charged(p)
    && p.diarraRef == uuid && p.redirect.None? && p.refundOf.None?
    && p.phone == Some(o.phone) && p.operator == Some(o.operator) && p.country == Some(o.country)
    && Untold(p, now)
  }

  lemma {:induction false} PayoutColumns(o: PayoutReq, uuid: string, now: int, id: nat)
    requires 0 < o.amount <= 1_000_000 && Fits(PayoutRow(o, uuid, now))
    ensures PayoutFor(PayoutRow(o, uuid, now).(id := id), o, uuid, now)
    ensures PayoutRow(o, uuid, now).status == Pending && PayoutRow(o, uuid, now).provider.None?
    ensures PayoutRow(o, uuid, now).failureReason.None?
  {
    ChargeFits(PayoutRow(o, uuid, now), o.amount, o.rate);
  }

  /** Marking touches only the status columns of the row. */
  lemma {:induction false} MarkedLast(t: Rows, row: Payment, reply: Reply, reason: string, lost: bool)
    requires row.status == Pending && row.provider.None? && row.failureReason.None?
    ensures var t' := Marked(t + [row], |t|, reply, reason, lost);
            && |t'| == |t| + 1 && t'[..|t|] == t
            && t'[|t|] == row.(status := t'[|t|].status, provider := t'[|t|].provider,
                               failureReason := t'[|t|].failureReason)
            && MarkedBy(t'[|t|], reply, reason, lost)
  {
  }

  lemma {:induction false} StaysPayout(p: Payment, q: Payment, o: PayoutReq, uuid: string, now: int)
    requires PayoutFor(p, o, uuid, now)
    requires q == p.(status := q.status, provider := q.provider, failureReason := q.failureReason)
    ensures PayoutFor(q, o, uuid, now)
  {
  }

  /** An admitted payout adds one row, filed under the request's own app_ref with the request's own columns;
      the row says what became of the call, and the call asks for the row's net amount, for its recipient,
      under its ref. A request that is not admitted changes nothing. */
  lemma {:induction false} PayoutFiled(w: World, o: PayoutReq, env: seq<Choice>)
    requires 5 <= |env|
    ensures var w' := Serve(w, PayoutFind(o), env, 0);
            if PayoutAdmitted(w, o, env[1].uuid, env[1].fault, env[2].fault) then
              && Grows(w.table, w'.table)
              && PayoutFor(w'.table[|w.table|], o, env[1].uuid, w.now)
              && MarkedBy(w'.table[|w.table|], env[3].reply, "diarra_payout_failed", env[4].fault)
              && w'.calls == Reached(w.calls, PayoutCall(env[1].uuid, o.amount - Commission(o.amount, RateUsed(o.rate)),
                                                         o.phone, o.operator, o.country), env[3].reply)
            else w' == w
  {
    PayoutAdmittedExactly(w, o, env);
    PayoutOutcome(w, o, env);
    if PayoutAccepted(w, o, env) {
      PayoutFiledRow(w, o, env);
    }
  }

  lemma {:induction false} NetOfPayout(o: PayoutReq, uuid: string, now: int)
    requires 0 < o.amount <= 1_000_000 && RateUsed(o.rate) <= 0x7FFF_FFFF
    ensures Compute(o.amount, o.rate).net == o.amount - Commission(o.amount, RateUsed(o.rate))
  {
    ChargeFits(PayoutRow(o, uuid, now), o.amount, o.rate);
  }

  lemma {:induction false} PayoutTable(w: World, o: PayoutReq, env: seq<Choice>)
    requires 5 <= |env| && PayoutAccepted(w, o, env)
    ensures Serve(w, PayoutFind(o), env, 0).table ==
            Marked(w.table + [PayoutRow(o, env[1].uuid, w.now).(id := |w.table|)], |w.table|, env[3].reply,
                   "diarra_payout_failed", env[4].fault)
  {
    ServePayout(w, o, env);
    PayoutRowOutcome(w, o, env[1].uuid, env, 2);
    RowInserted(w, PayoutRow(o, env[1].uuid, w.now));
  }

  lemma {:induction false} RowInserted(w: World, row: Payment)
    requires InsertOutcomeOf(w.table, w.apps.Keys, row, false).Inserted?
    ensures InsertOutcomeOf(w.table, w.apps.Keys, row, false).row == row.(id := |w.table|)
  {
  }

  lemma {:induction false} PayoutLast(t: Rows, o: PayoutReq, uuid: string, now: int, reply: Reply, lost: bool)
    requires 0 < o.amount <= 1_000_000 && Fits(PayoutRow(o, uuid, now))
    ensures var t' := Marked(t + [PayoutRow(o, uuid, now).(id := |t|)], |t|, reply, "diarra_payout_failed", lost);
            && Grows(t, t') && PayoutFor(t'[|t|], o, uuid, now)
            && MarkedBy(t'[|t|], reply, "diarra_payout_failed", lost)
  {
    var filed := PayoutRow(o, uuid, now).(id := |t|);
    var t' := Marked(t + [filed], |t|, reply, "diarra_payout_failed", lost);
    PayoutColumns(o, uuid, now, |t|);
    MarkedLast(t, filed, reply, "diarra_payout_failed", lost);
    StaysPayout(filed, t'[|t|], o, uuid, now);
  }

  lemma {:induction false} PayoutFiledRow(w: World, o: PayoutReq, env: seq<Choice>)
    requires 5 <= |env| && PayoutAccepted(w, o, env)
    ensures var t' := Serve(w, PayoutFind(o), env, 0).table;
            && Grows(w.table, t') && PayoutFor(t'[|w.table|], o, env[1].uuid, w.now)
            && MarkedBy(t'[|w.table|], env[3].reply, "diarra_payout_failed", env[4].fault)
    ensures Compute(o.amount, o.rate).net == o.amount - Commission(o.amount, RateUsed(o.rate))
  {
    PayoutAdmittedExactly(w, o, env);
    NetOfPayout(o, env[1].uuid, w.now);
    PayoutRowFits(o, env[1].uuid, w.now);
    PayoutTable(w, o, env);
    PayoutLast(w.table, o, env[1].uuid, w.now, env[3].reply, env[4].fault);
  }

  /** A payout request of the same name, whatever else it says and whatever the environment answers, even when
      its lookup fails, changes nothing and calls nobody. */
  lemma {:induction false} NameTaken(w: World, o: PayoutReq, env: seq<Choice>, i: nat)
    requires 5 <= |env| && i < |w.table|
    requires w.table[i].appId == o.appId && w.table[i].appRef == o.appRef && w.table[i].typ == Payout
    ensures Serve(w, PayoutFind(o), env, 0) == w
  {
    PayoutFiled(w, o, env);
  }

  /** So once a payout request has been admitted, no request of the same name, then or after any further
      run of any number of programs, moves money or changes a row. */
  lemma {:induction false} PayoutOnce(acts: seq<Action>, o: PayoutReq, env: seq<Choice>, more: seq<Action>,
                                      again: PayoutReq, env2: seq<Choice>)
    requires 5 <= |env| && 5 <= |env2| && again.appId == o.appId && again.appRef == o.appRef
    requires PayoutAdmitted(Run(acts).w, o, env[1].uuid, env[1].fault, env[2].fault)
    ensures var w := Run(acts + Request(acts, PayoutFind(o), env) + more).w;
            Serve(w, PayoutFind(again), env2, 0) == w
  {
    var served := acts + Request(acts, PayoutFind(o), env);
    var i := |Run(acts).w.table|;
    PayoutFiled(Run(acts).w, o, env);
    RequestRuns(acts, PayoutFind(o), env);
    RunExtends(served, more);
    SameReferences(Run(served).w.table[i], Run(served + more).w.table[i]);
    NameTaken(Run(served + more).w, again, env2, i);
  }

  // --- Deposits -----------------------------------------------------------------------------------------

  /** No row has this name. */
  ghost predicate Unnamed(t: Rows, appId: string, appRef: string, typ: PaymentType)
  {
    forall i :: 0 <= i < |t| ==> !(t[i].appId == appId && t[i].appRef == appRef && t[i].typ == typ)
  }

  lemma {:induction false} UnnamedIsUnfound(t: Rows, appId: string, appRef: string, typ: PaymentType)
    ensures Unnamed(t, appId, appRef, typ) <==> FindKey(t, Key(appId, appRef, typ)).None?
  {
    var i := ScanKey(t, Key(appId, appRef, typ), 0);
    if i.Some? { assert KeyOf(t[i.value]) == Key(appId, appRef, typ); }
    forall i | 0 <= i < |t|
      ensures KeyOf(t[i]) == Key(appId, appRef, typ) <==>
              t[i].appId == appId && t[i].appRef == appRef && t[i].typ == typ
    {
    }
  }

  /** The row of a new deposit, column by column. */
  predicate DepositFor(p: Payment, appId: string, appRef: string, amount: int, rate: GoInt, callback: string,
                       uuid: string, now: int)
  {
    && Names(p, appId, appRef, Deposit, amount, rate, "XOF", callback) && Charged(p)
    && p.diarraRef == uuid && p.provider.None? && p.refundOf.None?
    && p.phone.None? && p.operator.None? && p.country.None? && Untold(p, now)
  }

  /** Status and link after the gateway call of a new deposit. */
  predicate LinkedBy(p: Payment, reply: Reply, lost: bool)
  {
    if lost then p.status == Pending && p.redirect.None? && p.failureReason.None?
    else if reply.Answer? then p.status == Pending && p.redirect == Some(reply.link) && p.failureReason.None?
    else p.status == Status.Failed && p.redirect.None? && p.failureReason == Some("diarra_init_failed")
  }

  /** The INSERT of a new deposit goes through: the app exists and may take the amount, the rate fits its
      column and the name is free. */
  ghost predicate DepositAdmitted(w: World, appId: string, appRef: string, amount: int, rate: GoInt, uuid: string,
                                  capFault: bool, insertFault: bool)
  {
    && !capFault && UnderCeiling(w, appId, amount) && RateUsed(rate) <= 0x7FFF_FFFF
    && !insertFault && Free(w.table, appId, appRef, Deposit, uuid)
  }

  lemma {:induction false} DepositRowFits(d: DepositReq, uuid: string, now: int, id: nat)
    requires 0 < d.amount <= 1_000_000
    ensures var row := DepositRow(d, uuid, now);
            && (Fits(row) <==> RateUsed(d.rate) <= 0x7FFF_FFFF)
            && row.appId == d.appId && row.appRef == d.appRef && row.typ == Deposit && row.diarraRef == uuid
            && row.refundOf.None?
            && (Fits(row) ==> DepositFor(row.(id := id), d.appId, d.appRef, d.amount, d.rate, d.callback, uuid, now))
            && row.status == Pending && row.redirect.None? && row.failureReason.None?
  {
    ChargeFits(DepositRow(d, uuid, now), d.amount, d.rate);
  }

  lemma {:induction false} DepositAccepted(w: World, d: DepositReq, uuid: string, capFault: bool, insertFault: bool)
    requires 0 < d.amount
    ensures WithinCeiling(w, d.appId, d.amount, capFault) && Accepts(w, d, uuid, insertFault) <==>
            DepositAdmitted(w, d.appId, d.appRef, d.amount, d.rate, uuid, capFault, insertFault)
  {
    CeilingIs(w, d.appId, d.amount, capFault);
    if UnderCeiling(w, d.appId, d.amount) {
      DepositRowFits(d, uuid, w.now, 0);
      InsertsFresh(w, DepositRow(d, uuid, w.now), true);
    }
  }

  lemma {:induction false} DepositLast(d: DepositReq, uuid: string, now: int, id: nat, reply: Reply, lost: bool)
    requires 0 < d.amount <= 1_000_000 && RateUsed(d.rate) <= 0x7FFF_FFFF
    ensures var p := DepositAfter(d, uuid, id, now, reply, lost);
            && DepositFor(p, d.appId, d.appRef, d.amount, d.rate, d.callback, uuid, now) && p.id == id
            && LinkedBy(p, reply, lost)
  {
    DepositRowFits(d, uuid, now, id);
  }

  /** One deposit more in table and gateway, or nothing. */
  predicate FilesDeposit(w: World, w': World, appId: string, appRef: string, amount: GoInt, country: string,
                         rate: GoInt, callback: string, uuid: string, reply: Reply, lost: bool)
  {
    && Grows(w.table, w'.table) && DepositFor(w'.table[|w.table|], appId, appRef, amount, rate, callback, uuid, w.now)
    && LinkedBy(w'.table[|w.table|], reply, lost)
    && w'.calls == (if reply.Unreached? then w.calls else w.calls + [DepositCall(uuid, amount, country)])
  }

  lemma {:induction false} CreatedIsFiled(w: World, w': World, d: DepositReq, uuid: string, reply: Reply, lost: bool)
    requires Creates(w, w', d, uuid, true, reply, lost)
    requires 0 < d.amount <= 1_000_000 && RateUsed(d.rate) <= 0x7FFF_FFFF
    ensures FilesDeposit(w, w', d.appId, d.appRef, d.amount, d.country, d.rate, d.callback, uuid, reply, lost)
  {
    DepositLast(d, uuid, w.now, |w.table|, reply, lost);
  }

  ghost predicate PayAdmitted(w: World, d: DepositReq, uuid: string, capFault: bool, insertFault: bool)
  {
    && d.appRef != "" && 0 < d.amount && d.country != ""
    && DepositAdmitted(w, d.appId, d.appRef, d.amount, d.rate, uuid, capFault, insertFault)
  }

  /** An admitted `Pay` of a new name adds one row, filed under the request's own app_ref with the request's
      own columns; the row gets the link, is failed or stays as it is, and one gateway deposit of its amount
      is asked for under its ref. A request that is not admitted changes nothing. */
  lemma {:induction false} PayFiled(w: World, d: DepositReq, env: seq<Choice>)
    requires 6 <= |env| && Unnamed(w.table, d.appId, d.appRef, Deposit)
    ensures var w' := Serve(w, PayFind(d), env, 0);
            if PayAdmitted(w, d, env[1].uuid, env[1].fault, env[2].fault) then
              FilesDeposit(w, w', d.appId, d.appRef, d.amount, d.country, d.rate, d.callback, env[1].uuid,
                           env[3].reply, env[4].fault)
            else w' == w
  {
    UnnamedIsUnfound(w.table, d.appId, d.appRef, Deposit);
    PayOutcome(w, d, env);
    if ValidPay(d) {
      DepositAccepted(w, d, env[1].uuid, env[1].fault, env[2].fault);
      if PayAccepted(w, d, env) {
        CreatedIsFiled(w, Serve(w, PayFind(d), env, 0), d, env[1].uuid, env[3].reply, env[4].fault);
      }
    }
  }

  /** So does the test page, under a name of its own, for 500 in Senegal unless told otherwise, and without a
      callback. */
  lemma {:induction false} TestFiled(w: World, d: DepositReq, env: seq<Choice>)
    requires 6 <= |env| && Unnamed(w.table, d.appId, "test-" + env[0].token, Deposit)
    ensures var w' := Serve(w, TestCap(d), env, 0);
            var name, amount := "test-" + env[0].token, if 0 < d.amount then d.amount else 500;
            if DepositAdmitted(w, d.appId, name, amount, d.rate, env[0].uuid, env[0].fault, env[1].fault) then
              FilesDeposit(w, w', d.appId, name, amount, if d.country == "" then "SEN" else d.country, d.rate, "",
                           env[0].uuid, env[2].reply, env[3].fault)
            else w' == w
  {
    var t := TestRequest(d, env[0].token);
    UnnamedIsUnfound(w.table, d.appId, "test-" + env[0].token, Deposit);
    TestPayOutcome(w, d, env);
    DepositAccepted(w, t, env[0].uuid, env[0].fault, env[1].fault);
    if TestAccepted(w, d, env) {
      CreatedIsFiled(w, Serve(w, TestCap(d), env, 0), t, env[0].uuid, env[2].reply, env[3].fault);
    }
  }

  // --- Refunds ------------------------------------------------------------------------------------------

  /** The app_ref of a refund: the one asked for, or "refund-" and the deposit's. */
  function RefundName(r: RefundReq): string
  {
    if r.refundAppRef != "" then r.refundAppRef else "refund-" + r.depositAppRef
  }

  /** When a refund of row i goes through: the row is completed and its app exists, no read of it and no INSERT
      fails, the rate fits its column and the refund's name is free. */
  ghost predicate RefundAdmitted(w: World, r: RefundReq, i: nat, uuid: string, loadFault: bool, insertFault: bool)
    requires i < |w.table|
  {
    && r.depositAppRef != "" && !loadFault && w.table[i].status == Completed && r.appId in w.apps
    && RateUsed(r.rate) <= 0x7FFF_FFFF && !insertFault && Free(w.table, r.appId, RefundName(r), Refund, uuid)
  }

  /** The row of a refund of row i, column by column. */
  predicate RefundFor(p: Payment, r: RefundReq, dep: Payment, i: nat, uuid: string, now: int)
  {
    && Names(p, r.appId, RefundName(r), Refund, dep.amount, r.rate, dep.currency, r.callback) && Charged(p)
    && p.refundOf == Some(i) && p.diarraRef == uuid && p.redirect.None?
    && p.phone.None? && p.operator.None? && p.country.None? && Untold(p, now)
  }

  /** The deposit row of a refund request, with an amount its column can hold. */
  predicate Refunds(t: Rows, r: RefundReq, i: nat)
  {
    && i < |t| && t[i].appId == r.appId && t[i].appRef == r.depositAppRef && t[i].typ == Deposit
    && 0 < t[i].amount <= 0x7FFF_FFFF
  }

  function RefundRowOf(r: RefundReq, dep: Payment, uuid: string, now: int): Payment
  {
    RefundRow(dep, RefundRefOf(r), StrPtr(r.callback), r.rate, uuid, now)
  }

  lemma {:induction false} RefundRowFits(r: RefundReq, dep: Payment, i: nat, uuid: string, now: int, id: nat)
    requires 0 < dep.amount <= 0x7FFF_FFFF && dep.appId == r.appId && dep.id == i
    ensures var row := RefundRowOf(r, dep, uuid, now);
            && (Fits(row) <==> RateUsed(r.rate) <= 0x7FFF_FFFF)
            && row.appId == r.appId && row.appRef == RefundName(r) && row.typ == Refund && row.diarraRef == uuid
            && row.refundOf == Some(i)
            && (Fits(row) ==> RefundFor(row.(id := id), r, dep, i, uuid, now))
            && row.status == Pending && row.provider.None? && row.failureReason.None?
  {
    ChargeFits(RefundRowOf(r, dep, uuid, now), dep.amount, r.rate);
  }

  lemma {:induction false} FoundDeposit(w: World, r: RefundReq, i: nat, fault: bool)
    requires Unique(w.table) && Refunds(w.table, r, i)
    ensures Lookup(w, Key(r.appId, r.depositAppRef, Deposit), fault) == if fault then None else Some(w.table[i])
    ensures w.table[i].id == i
  {
    FindExact(w.table, i);
    assert KeyOf(w.table[i]) == Key(r.appId, r.depositAppRef, Deposit);
  }

  lemma {:induction false} RefundAdmittedExactly(w: World, r: RefundReq, i: nat, env: seq<Choice>)
    requires 4 <= |env| && Unique(w.table) && Refunds(w.table, r, i)
    ensures RefundAccepted(w, r, env) <==> RefundAdmitted(w, r, i, env[1].uuid, env[1].fault, env[2].fault)
  {
    FoundDeposit(w, r, i, env[1].fault);
    FreeIsUnfound(w.table, r.appId, RefundName(r), Refund, env[1].uuid);
    RefundRowFits(r, w.table[i], i, env[1].uuid, w.now, 0);
    InsertsFresh(w, RefundRowOf(r, w.table[i], env[1].uuid, w.now), false);
  }

  lemma {:induction false} RefundTable(w: World, r: RefundReq, i: nat, env: seq<Choice>)
    requires 5 <= |env| && Unique(w.table) && Refunds(w.table, r, i) && RefundAccepted(w, r, env)
    ensures Serve(w, RefundFind(r), env, 0).table ==
            Marked(w.table + [RefundRowOf(r, w.table[i], env[1].uuid, w.now).(id := |w.table|)], |w.table|,
                   env[3].reply, "diarra_refund_failed", env[4].fault)
  {
    FoundDeposit(w, r, i, env[1].fault);
    ServeRefund(w, r, env);
    ServeRefundLoad(w, r, env);
    RefundRowOutcome(w, w.table[i], RefundRefOf(r), StrPtr(r.callback), r.rate, env[1].uuid, env, 2);
    RowInserted(w, RefundRowOf(r, w.table[i], env[1].uuid, w.now));
  }

  lemma {:induction false} RefundLast(t: Rows, r: RefundReq, dep: Payment, i: nat, uuid: string, now: int,
                                      reply: Reply, lost: bool)
    requires 0 < dep.amount <= 0x7FFF_FFFF && dep.appId == r.appId && dep.id == i
    requires Fits(RefundRowOf(r, dep, uuid, now))
    ensures var filed := RefundRowOf(r, dep, uuid, now).(id := |t|);
            var t' := Marked(t + [filed], |t|, reply, "diarra_refund_failed", lost);
            && Grows(t, t') && RefundFor(t'[|t|], r, dep, i, uuid, now)
            && MarkedBy(t'[|t|], reply, "diarra_refund_failed", lost)
  {
    var filed := RefundRowOf(r, dep, uuid, now).(id := |t|);
    RefundRowFits(r, dep, i, uuid, now, |t|);
    MarkedLast(t, filed, reply, "diarra_refund_failed", lost);
  }

  /** An admitted refund of row i adds one row, filed under the refund's own name, for the deposit's amount and
      currency, with a commission of its own; the row says what became of the call, and the call names the
      deposit by its current ref. A refund that is not admitted changes nothing. */
  lemma {:induction false} RefundFiled(w: World, r: RefundReq, i: nat, env: seq<Choice>)
    requires 5 <= |env| && Unique(w.table) && Refunds(w.table, r, i)
    ensures var w' := Serve(w, RefundFind(r), env, 0);
            if RefundAdmitted(w, r, i, env[1].uuid, env[1].fault, env[2].fault) then
              && Grows(w.table, w'.table)
              && RefundFor(w'.table[|w.table|], r, w.table[i], i, env[1].uuid, w.now)
              && MarkedBy(w'.table[|w.table|], env[3].reply, "diarra_refund_failed", env[4].fault)
              && w'.calls == Reached(w.calls, RefundCall(env[1].uuid, w.table[i].diarraRef), env[3].reply)
            else w' == w
  {
    RefundAdmittedExactly(w, r, i, env);
    RefundOutcome(w, r, env);
    FoundDeposit(w, r, i, false);
    if RefundAccepted(w, r, env) {
      RefundRowFits(r, w.table[i], i, env[1].uuid, w.now, 0);
      RefundTable(w, r, i, env);
      RefundLast(w.table, r, w.table[i], i, env[1].uuid, w.now, env[3].reply, env[4].fault);
    }
  }

  /** A refund of a deposit that is not there changes nothing. */
  lemma {:induction false} NothingToRefund(w: World, r: RefundReq, env: seq<Choice>)
    requires 5 <= |env| && Unnamed(w.table, r.appId, r.depositAppRef, Deposit)
    ensures Serve(w, RefundFind(r), env, 0) == w
  {
    UnnamedIsUnfound(w.table, r.appId, r.depositAppRef, Deposit);
    RefundOutcome(w, r, env);
  }
}
