/** Why orderly runs make the assumptions they make: what each one excludes, exactly. */
module Assumptions {
  import opened Fees
  import opened Model
  import opened Table
  import opened Ledger
  import opened Invariant
  import opened Serial
  import opened Handler
  import opened Idempotence
  import opened Outcomes

  // --- The lookup of Pay must not fail ------------------------------------------------------

  /** The request is valid, within the app's ceiling, and its amounts fit their columns. */
  predicate PassesChecks(w: World, d: DepositReq, env: seq<Choice>)
    requires 6 <= |env|
  {
    PayChecked(w, d, env) && Fits(DepositRow(d, env[1].uuid, w.now))
  }

  lemma {:induction false} KeyTaken(w: World, d: DepositReq, uuid: string, i: nat)
    requires Unique(w.table) && i < |w.table| && KeyOf(w.table[i]) == Key(d.appId, d.appRef, Deposit)
    ensures var o := InsertOutcomeOf(w.table, w.apps.Keys, DepositRow(d, uuid, w.now), true);
            if Fits(DepositRow(d, uuid, w.now)) then o.Conflict? else o.Refused?
    ensures FindKey(w.table, Key(d.appId, d.appRef, Deposit)) == Some(w.table[i]) && w.table[i].id == i
  {
    FindExact(w.table, i);
  }

  /** A gateway deposit for row `i` under a ref of its own. */
  predicate Strays(w: World, w': World, d: DepositReq, i: nat, uuid: string, through: bool, reply: Reply, fault: bool)
  {
    && (w'.calls != w.calls <==> through && !reply.Unreached?)
    && (w'.calls != w.calls ==> w'.calls == w.calls + [DepositCall(uuid, d.amount, d.country)])
    && w'.table == if through then Recorded(w.table, i, reply, fault) else w.table
  }

  lemma {:induction false} StraysFrom(w: World, w': World, checked: bool, through: bool, d: DepositReq, i: nat,
                                      uuid: string, env: seq<Choice>, n: nat)
    requires Unique(w.table) && i < |w.table| && KeyOf(w.table[i]) == Key(d.appId, d.appRef, Deposit) && n + 4 <= |env|
    requires w' == if checked then Serve(w, DepositInsert(d, uuid), env, n) else w
    requires through == (checked && Fits(DepositRow(d, uuid, w.now)) && !env[n].fault && !env[n + 1].fault)
    ensures Strays(w, w', d, i, uuid, through, env[n + 2].reply, env[n + 3].fault)
  {
    KeyTaken(w, d, uuid, i);
    CreateOutcome(w, d, uuid, env, n);
  }

  lemma {:induction false} PastLookup(w: World, w': World, d: DepositReq, env: seq<Choice>, i: nat)
    requires Unique(w.table) && i < |w.table| && KeyOf(w.table[i]) == Key(d.appId, d.appRef, Deposit)
    requires 6 <= |env|
    requires w' == if PayChecked(w, d, env) then Serve(w, DepositInsert(d, env[1].uuid), env, 2) else w
    ensures Strays(w, w', d, i, env[1].uuid,
                   PassesChecks(w, d, env) && !env[2].fault && !env[3].fault, env[4].reply, env[5].fault)
  {
    StraysFrom(w, w', PayChecked(w, d, env), PassesChecks(w, d, env) && !env[2].fault && !env[3].fault,
               d, i, env[1].uuid, env, 2);
  }

  /** When the lookup fails although the deposit exists, whatever its status, a request that runs all alone
      creates a stray gateway deposit, for its own amount, under a ref that is not the row's: exactly when it
      passes the remaining checks, no later read fails and the gateway is reached. The row then gets the
      stray's link, or is marked failed. */
  lemma {:induction false} FailedLookupStrays(w: World, d: DepositReq, env: seq<Choice>, i: nat)
    requires Unique(w.table) && i < |w.table| && KeyOf(w.table[i]) == Key(d.appId, d.appRef, Deposit)
    requires 6 <= |env| && env[0].fault
    ensures Strays(w, Serve(w, PayFind(d), env, 0), d, i, env[1].uuid,
                   PassesChecks(w, d, env) && !env[2].fault && !env[3].fault, env[4].reply, env[5].fault)
  {
    ServePayFresh(w, d, env);
    PastLookup(w, Serve(w, PayFind(d), env, 0), d, env, i);
  }

  // --- Test refs must be new ------------------------------------------------------------------

  /** When the drawn test ref is already that of a deposit, the test page creates a stray gateway deposit for
      that deposit's row in the same way: exactly when the amount is within the ceiling and fits, no
      statement fails and the gateway is reached. */
  lemma {:induction false} TakenTestRefStrays(w: World, d: DepositReq, env: seq<Choice>, i: nat)
    requires 6 <= |env| && Unique(w.table) && i < |w.table|
    requires KeyOf(w.table[i]) == Key(d.appId, "test-" + env[0].token, Deposit)
    ensures var t := TestRequest(d, env[0].token);
            Strays(w, Serve(w, TestCap(d), env, 0), t, i, env[0].uuid,
                   && WithinCeiling(w, d.appId, t.amount, env[0].fault) && Fits(DepositRow(t, env[0].uuid, w.now))
                   && !env[1].fault && !env[2].fault, env[3].reply, env[4].fault)
  {
    var t := TestRequest(d, env[0].token);
    var checked := WithinCeiling(w, d.appId, t.amount, env[0].fault);
    ServeTest(w, d, env);
    StraysFrom(w, Serve(w, TestCap(d), env, 0), checked,
               checked && Fits(DepositRow(t, env[0].uuid, w.now)) && !env[1].fault && !env[2].fault,
               t, i, env[0].uuid, env, 1);
  }

  // --- Refs must be new ------------------------------------------------------------------------

  /** The link a row shows is the one the gateway has for the row's client ref. */
  predicate ShowsGatewayLink(w: World, i: nat)
    requires i < |w.table|
  {
    var p := w.table[i];
    p.diarraRef in w.deposits && p.redirect == Some(w.deposits[p.diarraRef].link)
  }

  /** A refresh that is answered and saved leaves the row with the gateway's link for its ref exactly when
      the ref it drew was new to the gateway, or happens to stand for the very same link. */
  lemma {:induction false} RefreshNeedsNewRef(w: World, id: nat, uuid: string, amount: GoInt, country: string,
                                              env: seq<Choice>, i: nat)
    requires i + 2 <= |env| && id < |w.table| && !RekeyClash(w.table, id, uuid)
    requires env[i].reply.Answer? && !env[i + 1].fault
    ensures var w' := Serve(w, RefreshSend(id, uuid, amount, country), env, i);
            && id < |w'.table| && w'.table[id].diarraRef == uuid
            && (ShowsGatewayLink(w', id) <==> uuid !in w.deposits || w.deposits[uuid].link == env[i].reply.link)
  {
    ServeRefreshSend(w, id, uuid, amount, country, env, i);
  }

  // --- Callbacks in order, and a gateway that never leaves 'completed' ---------------------------------

  /** The status update is unconditional, so after a callback on its ref a completed deposit is completed
      exactly when the callback was not applied or said 'completed': a late callback of an earlier status
      undoes it just like a gateway that goes on to another status. */
  lemma {:induction false} CallbackKeepsCompletedExactly(w: World, i: nat, status: Status, detail: string,
                                                         env: seq<Choice>)
    requires Unique(w.table) && IsDeposit(w, i) && w.table[i].status == Completed && 6 <= |env|
    ensures var ref := w.table[i].diarraRef;
            var w' := Serve(w, CallbackFind(ref, status, detail), env, 0);
            && i < |w'.table|
            && (w'.table[i].status == Completed <==> !CallbackApplied(w, ref, status, env) || status == Completed)
  {
    FindExact(w.table, i);
    CallbackOutcome(w, w.table[i].diarraRef, status, detail, env);
  }
}
