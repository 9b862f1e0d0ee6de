/** What each request does to table and gateway when it runs alone, whatever the environment answers. */
module Outcomes {
  import opened Fees
  import opened Model
  import opened Table
  import opened Ledger
  import opened Invariant
  import opened Serial
  import opened Handler
  import opened Idempotence

  // --- A deposit is created ---------------------------------------------------------------

  /** What is written into row `id` after the gateway call of a new deposit. */
  function Recorded(t: Rows, id: nat, reply: Reply, fault: bool): Rows
  {
    if fault then t
    else if reply.Answer? then UpdateRedirect(t, id, reply.link)
    else UpdateStatus(t, id, Failed, None, Some("diarra_init_failed"))
  }

  lemma {:induction false} SendOutcome(w: World, d: DepositReq, uuid: string, id: nat, env: seq<Choice>, i: nat)
    requires i + 2 <= |env|
    ensures var w' := Serve(w, DepositSend(d, uuid, id), env, i);
            && w'.table == Recorded(w.table, id, env[i].reply, env[i + 1].fault)
            && w'.calls == Reached(w.calls, DepositCall(uuid, d.amount, d.country), env[i].reply)
  {
    ServeDepositSend(w, d, uuid, id, env, i);
    AfterCallCalls(w, DepositCall(uuid, d.amount, d.country), id, env[i].reply);
  }

  /** The INSERT of a deposit is accepted. */
  predicate Accepts(w: World, d: DepositReq, uuid: string, fault: bool)
  {
    !fault && InsertOutcomeOf(w.table, w.apps.Keys, DepositRow(d, uuid, w.now), true).Inserted?
  }

  /** The INSERT meets a row with the request's key, and the reread returns it. */
  predicate Rejoins(w: World, d: DepositReq, uuid: string, fault: bool, rereadFault: bool)
  {
    && !fault && InsertOutcomeOf(w.table, w.apps.Keys, DepositRow(d, uuid, w.now), true).Conflict?
    && Lookup(w, Key(d.appId, d.appRef, Deposit), rereadFault).Some?
  }

  lemma {:induction false} AcceptedRow(w: World, d: DepositReq, uuid: string, fault: bool)
    requires Accepts(w, d, uuid, fault)
    ensures InsertOutcomeOf(w.table, w.apps.Keys, DepositRow(d, uuid, w.now), true) ==
            Inserted(DepositRow(d, uuid, w.now).(id := |w.table|))
  {
  }

  lemma {:induction false} InsertedWorld(w: World, row: Payment)
    ensures Exec(w, Insert(row, false)) == w.(table := w.table + [row])
  {
  }

  /** From the INSERT on, `Pay` and `TestPay` add a row and create a gateway deposit for it, or create a
      gateway deposit for the row they collided with, or do nothing. */
  lemma {:induction false} CreateOutcome(w: World, d: DepositReq, uuid: string, env: seq<Choice>, i: nat)
    requires i + 4 <= |env|
    ensures var w' := Serve(w, DepositInsert(d, uuid), env, i);
            var found := Lookup(w, Key(d.appId, d.appRef, Deposit), env[i + 1].fault);
            var call := DepositCall(uuid, d.amount, d.country);
            && (Accepts(w, d, uuid, env[i].fault) ==>
                  && w'.table == Recorded(w.table + [DepositRow(d, uuid, w.now).(id := |w.table|)], |w.table|,
                                          env[i + 1].reply, env[i + 2].fault)
                  && w'.calls == Reached(w.calls, call, env[i + 1].reply))
            && (Rejoins(w, d, uuid, env[i].fault, env[i + 1].fault) ==>
                  && w'.table == Recorded(w.table, found.value.id, env[i + 2].reply, env[i + 3].fault)
                  && w'.calls == Reached(w.calls, call, env[i + 2].reply))
            && (!Accepts(w, d, uuid, env[i].fault) && !Rejoins(w, d, uuid, env[i].fault, env[i + 1].fault) ==> w' == w)
  {
    ServeDepositInsert(w, d, uuid, env, i);
    if Accepts(w, d, uuid, env[i].fault) {
      var row := DepositRow(d, uuid, w.now).(id := |w.table|);
      AcceptedRow(w, d, uuid, env[i].fault);
      InsertedWorld(w, row);
      SendOutcome(w.(table := w.table + [row]), d, uuid, |w.table|, env, i + 1);
    } else if Rejoins(w, d, uuid, env[i].fault, env[i + 1].fault) {
      SendOutcome(w, d, uuid, Lookup(w, Key(d.appId, d.appRef, Deposit), env[i + 1].fault).value.id, env, i + 2);
    }
  }

  // --- Pay and TestPay on a new app_ref --------------------------------------------------------

  /** A new deposit row after its request: with the link when the gateway answered, failed when it did not,
      untouched when the last write was lost. */
  function DepositAfter(d: DepositReq, uuid: string, id: nat, now: int, reply: Reply, fault: bool): Payment
  {
    var row := DepositRow(d, uuid, now).(id := id);
    if fault then row
    else if reply.Answer? then row.(redirect := Some(reply.link))
    else row.(status := Failed, failureReason := Some("diarra_init_failed"))
  }

  lemma {:induction false} RecordedAppended(t: Rows, d: DepositReq, uuid: string, now: int, reply: Reply, fault: bool)
    ensures var row := DepositRow(d, uuid, now).(id := |t|);
            Recorded(t + [row], |t|, reply, fault) == t + [DepositAfter(d, uuid, |t|, now, reply, fault)]
  {
  }

  /** From the INSERT on, when no row has the request's key. */
  lemma {:induction false} FreshOutcome(w: World, d: DepositReq, uuid: string, env: seq<Choice>, i: nat)
    requires i + 4 <= |env| && FindKey(w.table, Key(d.appId, d.appRef, Deposit)).None?
    ensures var w' := Serve(w, DepositInsert(d, uuid), env, i);
            if Accepts(w, d, uuid, env[i].fault) then
              && w'.table == w.table + [DepositAfter(d, uuid, |w.table|, w.now, env[i + 1].reply, env[i + 2].fault)]
              && w'.calls == Reached(w.calls, DepositCall(uuid, d.amount, d.country), env[i + 1].reply)
            else w' == w
  {
    CreateOutcome(w, d, uuid, env, i);
    RecordedAppended(w.table, d, uuid, w.now, env[i + 1].reply, env[i + 2].fault);
  }

  predicate PayChecked(w: World, d: DepositReq, env: seq<Choice>)
    requires 6 <= |env|
  {
    ValidPay(d) && WithinCeiling(w, d.appId, d.amount, env[1].fault)
  }

  /** `Pay` passes its checks and its INSERT is accepted. */
  predicate PayAccepted(w: World, d: DepositReq, env: seq<Choice>)
    requires 6 <= |env|
  {
    PayChecked(w, d, env) && Accepts(w, d, env[1].uuid, env[2].fault)
  }

  lemma {:induction false} ServePayFresh(w: World, d: DepositReq, env: seq<Choice>)
    requires 6 <= |env| && Lookup(w, Key(d.appId, d.appRef, Deposit), env[0].fault).None?
    ensures Serve(w, PayFind(d), env, 0) ==
            if PayChecked(w, d, env) then Serve(w, DepositInsert(d, env[1].uuid), env, 2) else w
  {
    ServeLookup(w, d, env);
    ServeCap(w, d, env, 1);
  }

  /** A new deposit and its gateway deposit, or nothing. */
  predicate Creates(w: World, w': World, d: DepositReq, uuid: string, accepted: bool, reply: Reply, fault: bool)
  {
    if accepted then
      && w'.table == w.table + [DepositAfter(d, uuid, |w.table|, w.now, reply, fault)]
      && w'.calls == Reached(w.calls, DepositCall(uuid, d.amount, d.country), reply)
    else w' == w
  }

  lemma {:induction false} CreatesFrom(w: World, w': World, checked: bool, accepted: bool, d: DepositReq, uuid: string,
                                       env: seq<Choice>, i: nat)
    requires i + 4 <= |env| && FindKey(w.table, Key(d.appId, d.appRef, Deposit)).None?
    requires w' == if checked then Serve(w, DepositInsert(d, uuid), env, i) else w
    requires accepted == (checked && Accepts(w, d, uuid, env[i].fault))
    ensures Creates(w, w', d, uuid, accepted, env[i + 1].reply, env[i + 2].fault)
  {
    if checked { FreshOutcome(w, d, uuid, env, i); }
  }

  /** With no deposit under its app_ref, `Pay` adds exactly one row and asks for exactly one gateway deposit
      of the requested amount under the row's own ref, if it is accepted; the row ends with the link it was
      given, failed, or as inserted. If it is not accepted, nothing happens at all. */
  lemma {:induction false} PayOutcome(w: World, d: DepositReq, env: seq<Choice>)
    requires 6 <= |env| && FindKey(w.table, Key(d.appId, d.appRef, Deposit)).None?
    ensures Creates(w, Serve(w, PayFind(d), env, 0), d, env[1].uuid, PayAccepted(w, d, env), env[3].reply, env[4].fault)
  {
    ServePayFresh(w, d, env);
    CreatesFrom(w, Serve(w, PayFind(d), env, 0), PayChecked(w, d, env), PayAccepted(w, d, env), d, env[1].uuid, env, 2);
  }

  /** The request the test page makes of its input. */
  function TestRequest(d: DepositReq, token: string): DepositReq
  {
    d.(appRef := "test-" + token, amount := if d.amount <= 0 then 500 else d.amount,
       country := if d.country == "" then "SEN" else d.country, callback := "")
  }

  predicate TestAccepted(w: World, d: DepositReq, env: seq<Choice>)
    requires 6 <= |env|
  {
    var t := TestRequest(d, env[0].token);
    WithinCeiling(w, d.appId, t.amount, env[0].fault) && Accepts(w, t, env[0].uuid, env[1].fault)
  }

  lemma {:induction false} ServeTest(w: World, d: DepositReq, env: seq<Choice>)
    requires 6 <= |env|
    ensures var t := TestRequest(d, env[0].token);
            Serve(w, TestCap(d), env, 0) ==
            if WithinCeiling(w, d.appId, t.amount, env[0].fault) then Serve(w, DepositInsert(t, env[0].uuid), env, 1)
              else w
  {
    var t := TestRequest(d, env[0].token);
    var within := WithinCeiling(w, d.appId, t.amount, env[0].fault);
    ServeAs(w, TestCap(d), env, 0, if within then Go(DepositInsert(t, env[0].uuid)) else Go(Done));
  }

  /** The test page's deposit, when its ref is new: the same, for 500 and Senegal by default, without a
      callback. */
  lemma {:induction false} TestPayOutcome(w: World, d: DepositReq, env: seq<Choice>)
    requires 6 <= |env| && FindKey(w.table, Key(d.appId, "test-" + env[0].token, Deposit)).None?
    ensures Creates(w, Serve(w, TestCap(d), env, 0), TestRequest(d, env[0].token), env[0].uuid, TestAccepted(w, d, env),
                    env[2].reply, env[3].fault)
  {
    var t := TestRequest(d, env[0].token);
    ServeTest(w, d, env);
    CreatesFrom(w, Serve(w, TestCap(d), env, 0), WithinCeiling(w, d.appId, t.amount, env[0].fault),
                TestAccepted(w, d, env),
                t, env[0].uuid, env, 1);
  }

  // --- A gateway deposit under a ref the row does not carry ---------------------------------------

  lemma {:induction false} RecordedKeeps(t: Rows, id: nat, reply: Reply, fault: bool)
    requires Unique(t)
    ensures Unique(Recorded(t, id, reply, fault)) && |Recorded(t, id, reply, fault)| == |t|
    ensures forall x :: 0 <= x < |t| ==> KeyOf(Recorded(t, id, reply, fault)[x]) == KeyOf(t[x])
                                         && Recorded(t, id, reply, fault)[x].diarraRef == t[x].diarraRef
  {
  }

  lemma {:induction false} RefOfKey(t: Rows, x: nat)
    requires Unique(t) && x < |t|
    ensures FindKey(t, KeyOf(t[x])) == Some(t[x])
  {
    FindExact(t, x);
  }

  /** The row of a key carries `ref`. */
  predicate RowCarries(t: Rows, k: Key, ref: string)
  {
    FindKey(t, k).Some? && FindKey(t, k).value.diarraRef == ref
  }

  lemma {:induction false} CarriedByNew(t: Rows, d: DepositReq, uuid: string, now: int, reply: Reply, fault: bool)
    requires Unique(t + [DepositRow(d, uuid, now).(id := |t|)])
    ensures RowCarries(t + [DepositAfter(d, uuid, |t|, now, reply, fault)], Key(d.appId, d.appRef, Deposit), uuid)
  {
    var row := DepositRow(d, uuid, now).(id := |t|);
    RecordedKeeps(t + [row], |t|, reply, fault);
    RecordedAppended(t, d, uuid, now, reply, fault);
    RefOfKey(t + [DepositAfter(d, uuid, |t|, now, reply, fault)], |t|);
  }

  lemma {:induction false} NotCarriedByOld(t: Rows, k: Key, ref: string, id: nat, reply: Reply, fault: bool)
    requires Unique(t) && NoRowHas(t, ref)
    ensures !RowCarries(Recorded(t, id, reply, fault), k, ref)
  {
    RecordedKeeps(t, id, reply, fault);
    FoundKey(Recorded(t, id, reply, fault), k);
  }

  /** When nothing else runs from the INSERT on, the gateway deposit of a request is the one its row names if
      and only if the INSERT meets no row with the request's key: that is, unless an earlier overlap or a
      failed lookup has let two requests for one app_ref through. */
  lemma {:induction false} OwnDepositAlone(w: World, d: DepositReq, uuid: string, env: seq<Choice>, i: nat)
    requires Unique(w.table) && NoRowHas(w.table, uuid) && i + 4 <= |env|
    requires Serve(w, DepositInsert(d, uuid), env, i).calls != w.calls
    ensures var w' := Serve(w, DepositInsert(d, uuid), env, i);
            var k := Key(d.appId, d.appRef, Deposit);
            && w'.calls == w.calls + [DepositCall(uuid, d.amount, d.country)]
            && (RowCarries(w'.table, k, uuid) <==> NoRowFor(w.table, k))
  {
    var row := DepositRow(d, uuid, w.now);
    CreateOutcome(w, d, uuid, env, i);
    InsertExact(w.table, w.apps.Keys, row, true);
    HasRowFound(w, Key(d.appId, d.appRef, Deposit));
    if Accepts(w, d, uuid, env[i].fault) {
      InsertKeepsUnique(w.table, w.apps.Keys, row, true);
      AcceptedRow(w, d, uuid, env[i].fault);
      RecordedAppended(w.table, d, uuid, w.now, env[i + 1].reply, env[i + 2].fault);
      CarriedByNew(w.table, d, uuid, w.now, env[i + 1].reply, env[i + 2].fault);
    } else {
      var id := Lookup(w, Key(d.appId, d.appRef, Deposit), env[i + 1].fault).value.id;
      NotCarriedByOld(w.table, Key(d.appId, d.appRef, Deposit), uuid, id, env[i + 2].reply, env[i + 3].fault);
    }
  }

  // --- Relays and callbacks ----------------------------------------------------------------------------

  /** The outcome is recorded on the row, and nothing else happens. */
  predicate Records(w: World, w': World, id: nat, relay: RelayStatus, err: Option<string>)
  {
    w' == Exec(w, SaveRelay(id, relay, err))
  }

  /** The merchant is notified: there is a callback URL and the app is found. */
  predicate Notifies(w: World, p: Payment, fault: bool)
  {
    !NoCallback(p) && !fault && p.appId in w.apps
  }

  /** What `RelayPayment` records when its last write goes through; None when there is nothing to record
      because the request cannot be built. */
  datatype Relayed = Relayed(relay: RelayStatus, err: Option<string>)

  function PostResult(post: Post): Option<Relayed>
  {
    match post
    case CannotBuild => None
    case PostError(msg) => Some(Relayed(RelayFailed, Some(msg)))
    case Response(code) =>
      if code < 300 then Some(Relayed(RelayDelivered, None))
      else Some(Relayed(RelayFailed, Some(HttpError(code))))
  }

  function Written(w: World, id: nat, r: Option<Relayed>, fault: bool): World
  {
    if fault || r.None? then w else Exec(w, SaveRelay(id, r.value.relay, r.value.err))
  }

  lemma {:induction false} PostServed(w: World, p: Payment, env: seq<Choice>, i: nat)
    requires i + 2 <= |env|
    ensures Serve(w, RelayPost(p), env, i) == Written(w, p.id, PostResult(env[i].post), env[i + 1].fault)
  {
    var r := PostResult(env[i].post);
    ServeAs(w, RelayPost(p), env, i, if r.None? then Go(Done) else Go(RelaySave(p.id, r.value.relay, r.value.err)));
    if r.Some? { ServeRelaySave(w, RelaySave(p.id, r.value.relay, r.value.err), env, i + 1); }
  }

  lemma {:induction false} RelayServed(w: World, p: Payment, env: seq<Choice>, i: nat)
    requires i + 4 <= |env|
    ensures Serve(w, RelayStart(p), env, i) ==
            if NoCallback(p) then Written(w, p.id, Some(Relayed(RelaySkipped, None)), env[i + 1].fault)
            else if !Notifies(w, p, env[i + 1].fault)
              then Written(w, p.id, Some(Relayed(RelayFailed, Some(NO_APP))), env[i + 2].fault)
            else Written(w, p.id, PostResult(env[i + 2].post), env[i + 3].fault)
  {
    ServeRelayStart(w, p, env, i);
    ServeRelayApp(w, p, env, i + 1);
    PostServed(w, p, env, i + 2);
  }

  /** At most one relay outcome is recorded, on this row, and nothing else in the world changes. */
  ghost predicate OnlyRelay(w: World, w': World, id: nat)
  {
    w' == w || exists relay, err :: Records(w, w', id, relay, err)
  }

  predicate IsRelayed(w: World, w': World, id: nat, r: Relayed)
  {
    Records(w, w', id, r.relay, r.err)
  }

  lemma {:induction false} WrittenOnce(w: World, id: nat, r: Option<Relayed>, fault: bool, q: Relayed)
    requires id < |w.table|
    ensures OnlyRelay(w, Written(w, id, r, fault), id)
    ensures IsRelayed(w, Written(w, id, r, fault), id, q) <==> !fault && r == Some(q)
    ensures Written(w, id, r, fault) == w <==> fault || r.None?
  {
    var w' := Written(w, id, r, fault);
    if !fault && r.Some? {
      assert Records(w, w', id, r.value.relay, r.value.err);
      assert w'.h.relays[|w.h.relays|] == RelayRecord(id, r.value.relay, r.value.err);
    }
    assert Exec(w, SaveRelay(id, q.relay, q.err)).h.relays[|w.h.relays|] == RelayRecord(id, q.relay, q.err);
  }

  /** Exactly which outcome a relay records: skipped when there is no callback URL, delivered when the
      merchant answers below 300, failed with the reason otherwise; nothing at all exactly when the request
      cannot be built or the last write is lost. */
  lemma {:induction false} RelayOutcome(w: World, p: Payment, env: seq<Choice>, i: nat, q: Relayed)
    requires i + 4 <= |env| && p.id < |w.table|
    ensures var w' := Serve(w, RelayStart(p), env, i);
            var notifies := Notifies(w, p, env[i + 1].fault);
            && OnlyRelay(w, w', p.id)
            && (IsRelayed(w, w', p.id, q) <==>
                  if NoCallback(p) then q == Relayed(RelaySkipped, None) && !env[i + 1].fault
                  else if !notifies then q == Relayed(RelayFailed, Some(NO_APP)) && !env[i + 2].fault
                  else Some(q) == PostResult(env[i + 2].post) && !env[i + 3].fault)
            && (w' == w <==>
                  if NoCallback(p) then env[i + 1].fault
                  else if !notifies then env[i + 2].fault
                  else env[i + 2].post.CannotBuild? || env[i + 3].fault)
  {
    RelayServed(w, p, env, i);
    if NoCallback(p) {
      WrittenOnce(w, p.id, Some(Relayed(RelaySkipped, None)), env[i + 1].fault, q);
    } else if !Notifies(w, p, env[i + 1].fault) {
      WrittenOnce(w, p.id, Some(Relayed(RelayFailed, Some(NO_APP))), env[i + 2].fault, q);
    } else {
      WrittenOnce(w, p.id, PostResult(env[i + 2].post), env[i + 3].fault, q);
    }
  }

  /** A callback on a known ref, with a status the schema allows, is applied. */
  predicate CallbackApplied(w: World, ref: string, status: Status, env: seq<Choice>)
    requires 6 <= |env|
  {
    !env[0].fault && FindRef(w.table, ref).Some? && !env[1].fault && AllowedStatus(status)
  }

  /** The status columns of row `id` are the given ones; its other columns but the relay's, and all other
      rows, are as before. */
  predicate OnlyStatus(t: Rows, t': Rows, id: nat, status: Status, reason: Option<string>)
  {
    && |t'| == |t| && id < |t| && (forall x :: 0 <= x < |t| && x != id ==> t'[x] == t[x])
    && t'[id] == t[id].(status := status, failureReason := reason, relayStatus := t'[id].relayStatus,
                        relayAttempts := t'[id].relayAttempts, relayLastError := t'[id].relayLastError,
                        relayLastAt := t'[id].relayLastAt)
  }

  lemma {:induction false} RelayKeepsStatus(t: Rows, w: World, w': World, id: nat, status: Status,
                                            reason: Option<string>)
    requires OnlyStatus(t, w.table, id, status, reason) && OnlyRelay(w, w', id)
    ensures OnlyStatus(t, w'.table, id, status, reason) && w'.calls == w.calls && |w'.h.relays| <= |w.h.relays| + 1
  {
  }

  lemma {:induction false} StatusApplied(w: World, id: nat, status: Status, reason: Option<string>)
    requires id < |w.table| && AllowedStatus(status)
    ensures var w' := Exec(w, SetStatus(id, status, None, reason));
            OnlyStatus(w.table, w'.table, id, status, reason) && w'.calls == w.calls && w'.h.relays == w.h.relays
  {
  }

  /** A callback that is applied gives the row of its ref exactly the status and reason it reports, makes no
      gateway call, leaves every other row alone and records at most one relay; one that is not applied
      changes nothing. */
  lemma {:induction false} CallbackOutcome(w: World, ref: string, status: Status, detail: string, env: seq<Choice>)
    requires Unique(w.table) && 6 <= |env|
    ensures var w' := Serve(w, CallbackFind(ref, status, detail), env, 0);
            && (CallbackApplied(w, ref, status, env) ==>
                  && FindRef(w.table, ref).value.id < |w.table|
                  && OnlyStatus(w.table, w'.table, FindRef(w.table, ref).value.id, status, StrPtr(detail))
                  && w'.calls == w.calls && |w'.h.relays| <= |w.h.relays| + 1)
            && (!CallbackApplied(w, ref, status, env) ==> w' == w)
  {
    ServeCallback(w, ref, status, detail, env);
    FoundRef(w.table, ref);
    if !env[0].fault && FindRef(w.table, ref).Some? {
      var p := FindRef(w.table, ref).value;
      ServeCallbackUpdate(w, p, status, detail, env);
      if CallbackApplied(w, ref, status, env) {
        var w1 := Exec(w, SetStatus(p.id, status, None, StrPtr(detail)));
        var q := p.(status := status, failureReason := StrPtr(detail));
        StatusApplied(w, p.id, status, StrPtr(detail));
        RelayOutcome(w1, q, env, 2, Relayed(RelaySkipped, None));
        RelayKeepsStatus(w.table, w1, Serve(w1, RelayStart(q), env, 2), p.id, status, StrPtr(detail));
      }
    }
  }

  // --- The admin routes --------------------------------------------------------------------------------

  /** The request the admin route makes of its input. */
  function AdminRequest(o: PayoutReq, token: string): PayoutReq
  {
    o.(appRef := "admin-payout-" + token, callback := "")
  }

  predicate AdminAccepted(w: World, o: PayoutReq, env: seq<Choice>)
    requires 4 <= |env|
  {
    && 0 < o.amount && o.phone != "" && o.operator != "" && o.country != "" && 0 < Compute(o.amount, o.rate).net
    && !env[1].fault
    && InsertOutcomeOf(w.table, w.apps.Keys, PayoutRow(AdminRequest(o, env[0].token), env[0].uuid, w.now),
                       false).Inserted?
  }

  lemma {:induction false} ServeAdmin(w: World, o: PayoutReq, env: seq<Choice>)
    requires 4 <= |env|
    ensures Serve(w, AdminPayout(o), env, 0) ==
            if 0 < o.amount && o.phone != "" && o.operator != "" && o.country != "" && 0 < Compute(o.amount, o.rate).net
            then Serve(w, PayoutInsert(AdminRequest(o, env[0].token), env[0].uuid, true), env, 1) else w
  {
    var valid := 0 < o.amount && o.phone != "" && o.operator != "" && o.country != ""
      && 0 < Compute(o.amount, o.rate).net;
    ServeAs(w, AdminPayout(o), env, 0,
            if valid then Go(PayoutInsert(AdminRequest(o, env[0].token), env[0].uuid, true)) else Go(Done));
  }

  lemma {:induction false} AdminInserts(w: World, o: PayoutReq, uuid: string, c: Choice)
    ensures Local(w, PayoutInsert(o, uuid, true), c) ==
            InsertStep(w, PayoutRow(o, uuid, w.now), false, true, c.fault,
                       PayoutSend(|w.table|, uuid, Compute(o.amount, o.rate).net, o.phone, o.operator, o.country), Done)
  {
  }

  lemma {:induction false} InsertCalls(w: World, row: Payment, admin: bool)
    ensures Exec(w, Insert(row, admin)).calls == w.calls
  {
  }

  /** An admin payout calls the gateway for the net amount exactly when it is accepted and the call gets
      through, whatever the app's level; refused, it changes nothing. */
  lemma {:induction false} AdminPayoutOutcome(w: World, o: PayoutReq, env: seq<Choice>)
    requires 4 <= |env|
    ensures var w' := Serve(w, AdminPayout(o), env, 0);
            && (AdminAccepted(w, o, env) ==>
                  w'.calls == Reached(w.calls,
                                      PayoutCall(env[0].uuid, Compute(o.amount, o.rate).net, o.phone, o.operator,
                                                 o.country), env[2].reply))
            && (!AdminAccepted(w, o, env) ==> w' == w)
  {
    var r := AdminRequest(o, env[0].token);
    var row := PayoutRow(r, env[0].uuid, w.now);
    var next := PayoutSend(|w.table|, env[0].uuid, Compute(o.amount, o.rate).net, o.phone, o.operator, o.country);
    ServeAdmin(w, o, env);
    AdminInserts(w, r, env[0].uuid, env[1]);
    ServeInsert(w, PayoutInsert(r, env[0].uuid, true), row, true, next, env, 1);
    if AdminAccepted(w, o, env) {
      var w1 := Exec(w, Insert(InsertOutcomeOf(w.table, w.apps.Keys, row, false).row, true));
      InsertCalls(w, InsertOutcomeOf(w.table, w.apps.Keys, row, false).row, true);
      PayoutSendCalls(w1, next, env, 2);
    }
  }

  predicate AdminRefundAccepted(w: World, id: nat, rate: GoInt, env: seq<Choice>)
    requires 5 <= |env|
  {
    && !env[0].fault && id < |w.table| && w.table[id].typ.Deposit? && w.table[id].status.Completed?
    && Lookup(w, Key(w.table[id].appId, REFUND_PREFIX + w.table[id].appRef, Refund), env[1].fault).None?
    && !env[2].fault
    && InsertOutcomeOf(w.table, w.apps.Keys,
                       RefundRow(w.table[id], REFUND_PREFIX + w.table[id].appRef, None, rate, env[1].uuid, w.now),
                         false).Inserted?
  }

  /** An admin refund calls the gateway with the deposit's current ref exactly when the deposit is completed,
      has no default refund yet, and the call gets through; refused, it changes nothing. */
  lemma {:induction false} AdminRefundOutcome(w: World, id: nat, rate: GoInt, env: seq<Choice>)
    requires 5 <= |env|
    ensures var w' := Serve(w, AdminRefundLoad(id, rate), env, 0);
            && (AdminRefundAccepted(w, id, rate, env) ==>
                  w'.calls == Reached(w.calls, RefundCall(env[1].uuid, w.table[id].diarraRef), env[3].reply))
            && (!AdminRefundAccepted(w, id, rate, env) ==> w' == w)
  {
    ServeAdminRefund(w, id, rate, env);
    if !env[0].fault && id < |w.table| && w.table[id].typ.Deposit? && w.table[id].status.Completed? {
      var dep, refundRef := w.table[id], REFUND_PREFIX + w.table[id].appRef;
      ServeAdminRefundFind(w, dep, rate, env);
      ServeRefundInsert(w, dep, refundRef, None, rate, env[1].uuid, env);
      if AdminRefundAccepted(w, id, rate, env) {
        var o := InsertOutcomeOf(w.table, w.apps.Keys, RefundRow(dep, refundRef, None, rate, env[1].uuid, w.now),
                                 false);
        InsertCalls(w, o.row, false);
        RefundSendCalls(Exec(w, Insert(o.row, false)), RefundSend(|w.table|, env[1].uuid, dep.diarraRef), env, 3);
      }
    }
  }

  // --- The rows of payouts and refunds ------------------------------------------------------------------

  /** What is written into row `id` after a payout or refund call: failed when it was not answered, the
      gateway's status when it sent one, with unknown ones as processing. */
  function Marked(t: Rows, id: nat, reply: Reply, reason: string, fault: bool): Rows
  {
    if fault then t
    else if !reply.Answer? then UpdateStatus(t, id, Failed, None, Some(reason))
    else if reply.status == Other("") then t
    else UpdateStatus(t, id, NormalizeStatus(reply.status), StrPtr(reply.provider), None)
  }

  lemma {:induction false} AfterCallTable(w: World, call: Call, forRow: nat, reply: Reply)
    ensures AfterCall(w, call, forRow, reply).table == w.table
  {
  }

  lemma {:induction false} MarkedTable(w: World, id: nat, reply: Reply, env: seq<Choice>, i: nat)
    requires i < |env| && reply.Answer?
    ensures Serve(w, MarkFrom(id, reply), env, i).table == Marked(w.table, id, reply, "", env[i].fault)
  {
    if reply.status != Other("") { ServeMark(w, MarkFrom(id, reply), env, i); } else { ServeEnds(w, env, i); }
  }

  lemma {:induction false} PayoutSendTable(w: World, p: Proc, env: seq<Choice>, i: nat)
    requires p.PayoutSend? && i + 2 <= |env|
    ensures Serve(w, p, env, i).table == Marked(w.table, p.id, env[i].reply, "diarra_payout_failed", env[i + 1].fault)
  {
    var call := PayoutCall(p.uuid, p.net, p.phone, p.operator, p.country);
    ServePayoutSend(w, p, env, i);
    AfterCallTable(w, call, p.id, env[i].reply);
    if env[i].reply.Answer? { MarkedTable(AfterCall(w, call, p.id, env[i].reply), p.id, env[i].reply, env, i + 1); }
  }

  lemma {:induction false} RefundSendTable(w: World, p: Proc, env: seq<Choice>, i: nat)
    requires p.RefundSend? && i + 2 <= |env|
    ensures Serve(w, p, env, i).table == Marked(w.table, p.id, env[i].reply, "diarra_refund_failed", env[i + 1].fault)
  {
    var call := RefundCall(p.uuid, p.depositRef);
    ServeRefundSend(w, p, env, i);
    AfterCallTable(w, call, p.id, env[i].reply);
    if env[i].reply.Answer? { MarkedTable(AfterCall(w, call, p.id, env[i].reply), p.id, env[i].reply, env, i + 1); }
  }

  lemma {:induction false} InsertTable(w: World, row: Payment, admin: bool)
    ensures Exec(w, Insert(row, admin)).table == w.table + [row]
  {
  }

  /** From the INSERT of a payout on: one new row, marked with what became of the call, or nothing. */
  lemma {:induction false} PayoutRowOutcome(w: World, o: PayoutReq, uuid: string, env: seq<Choice>, i: nat)
    requires i + 3 <= |env|
    ensures var t' := Serve(w, PayoutInsert(o, uuid, false), env, i).table;
            var r := InsertOutcomeOf(w.table, w.apps.Keys, PayoutRow(o, uuid, w.now), false);
            t' == if env[i].fault || !r.Inserted? then w.table
                  else Marked(w.table + [r.row], |w.table|, env[i + 1].reply, "diarra_payout_failed", env[i + 2].fault)
  {
    var next := PayoutSend(|w.table|, uuid, Compute(o.amount, o.rate).net, o.phone, o.operator, o.country);
    var r := InsertOutcomeOf(w.table, w.apps.Keys, PayoutRow(o, uuid, w.now), false);
    PayoutInserts(w, o, uuid, env[i]);
    ServeInsert(w, PayoutInsert(o, uuid, false), PayoutRow(o, uuid, w.now), false, next, env, i);
    if !env[i].fault && r.Inserted? {
      InsertTable(w, r.row, false);
      PayoutSendTable(Exec(w, Insert(r.row, false)), next, env, i + 1);
    }
  }

  /** From the INSERT of a refund on: one new row, marked with what became of the call, or nothing. */
  lemma {:induction false} RefundRowOutcome(w: World, dep: Payment, refundRef: string, callback: Option<string>,
                                            rate: GoInt,
                                            uuid: string, env: seq<Choice>, i: nat)
    requires i + 3 <= |env|
    ensures var t' := Serve(w, RefundInsert(dep, refundRef, callback, rate, uuid), env, i).table;
            var r := InsertOutcomeOf(w.table, w.apps.Keys, RefundRow(dep, refundRef, callback, rate, uuid, w.now),
                                     false);
            t' == if env[i].fault || !r.Inserted? then w.table
                  else Marked(w.table + [r.row], |w.table|, env[i + 1].reply, "diarra_refund_failed", env[i + 2].fault)
  {
    var row := RefundRow(dep, refundRef, callback, rate, uuid, w.now);
    var r := InsertOutcomeOf(w.table, w.apps.Keys, row, false);
    var next := RefundSend(|w.table|, uuid, dep.diarraRef);
    RefundInserts(w, dep, refundRef, callback, rate, uuid, env[i]);
    ServeInsert(w, RefundInsert(dep, refundRef, callback, rate, uuid), row, false, next, env, i);
    if !env[i].fault && r.Inserted? {
      InsertTable(w, r.row, false);
      RefundSendTable(Exec(w, Insert(r.row, false)), next, env, i + 1);
    }
  }
}
