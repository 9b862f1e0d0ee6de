/** `PaymentHandler`: the handlers as they are written, one statement after the other, over the
    store and the gateway. Each is proved to do what its program does when it runs alone. */
module Handler {
  import opened Fees
  import opened Model
  import opened Table
  import opened Repo
  import opened Ledger

  /** One program run alone from point `p`: step j takes the environment's choice `env[i + j]`. */
  function Serve(w: World, p: Proc, env: seq<Choice>, i: nat): World
    requires i <= |env|
    decreases |env| - i
  {
    if p.Done? || i == |env| then w
    else
      var o := Local(w, p, env[i]);
      Serve(Exec(w, o.effect), o.next, env, i + 1)
  }

  // --- The tails of the programs, unrolled -----------------------------------------

  /** What is left of a program that has one statement to run, or none. */
  function LastStatement(w: World, e: Effect, fault: bool): World
  {
    if fault then w else Exec(w, e)
  }

  function AfterCall(w: World, call: Call, forRow: nat, reply: Reply): World
  {
    match reply
    case Unreached => w
    case Lost(link) => Exec(w, Send(call, link, forRow))
    case Answer(_, _, link) => Exec(w, Send(call, link, forRow))
  }

  lemma {:induction false} ServeOne(w: World, p: Proc, env: seq<Choice>, i: nat)
    requires i < |env| && !p.Done?
    ensures var o := Local(w, p, env[i]); Serve(w, p, env, i) == Serve(Exec(w, o.effect), o.next, env, i + 1)
  {
  }

  lemma {:induction false} ServeEnds(w: World, env: seq<Choice>, i: nat)
    requires i <= |env|
    ensures Serve(w, Done, env, i) == w
  {
  }

  /** One step, with its outcome named. */
  lemma {:induction false} ServeAs(w: World, p: Proc, env: seq<Choice>, i: nat, o: Outcome)
    requires i < |env| && !p.Done? && o == Local(w, p, env[i])
    ensures Serve(w, p, env, i) == if o == Go(Done) then w else Serve(Exec(w, o.effect), o.next, env, i + 1)
  {
    ServeOne(w, p, env, i);
    ServeEnds(w, env, i + 1);
  }

  lemma {:induction false} ServeDepositSend(w: World, d: DepositReq, uuid: string, id: nat, env: seq<Choice>, i: nat)
    requires i + 2 <= |env|
    ensures var w1 := AfterCall(w, DepositCall(uuid, d.amount, d.country), id, env[i].reply);
            Serve(w, DepositSend(d, uuid, id), env, i) ==
            LastStatement(w1, if env[i].reply.Answer? then SetRedirect(id, env[i].reply.link)
                              else SetStatus(id, Failed, None, Some("diarra_init_failed")), env[i + 1].fault)
  {
    ServeOne(w, DepositSend(d, uuid, id), env, i);
    var w1 := AfterCall(w, DepositCall(uuid, d.amount, d.country), id, env[i].reply);
    var next := if env[i].reply.Answer? then DepositLink(id, env[i].reply.link) else DepositFail(id);
    ServeOne(w1, next, env, i + 1);
  }

  lemma {:induction false} ServeRefreshSend(w: World, id: nat, uuid: string, amount: GoInt, country: string,
                                            env: seq<Choice>, i: nat)
    requires i + 2 <= |env|
    ensures var w1 := AfterCall(w, DepositCall(uuid, amount, country), id, env[i].reply);
            Serve(w, RefreshSend(id, uuid, amount, country), env, i) ==
            if env[i].reply.Answer? then LastStatement(w1, Rekey(id, uuid, env[i].reply.link), env[i + 1].fault) else w1
  {
    ServeOne(w, RefreshSend(id, uuid, amount, country), env, i);
    if env[i].reply.Answer? {
      var w1 := AfterCall(w, DepositCall(uuid, amount, country), id, env[i].reply);
      ServeOne(w1, RefreshSave(id, uuid, env[i].reply.link), env, i + 1);
    }
  }

  lemma {:induction false} ServePayoutSend(w: World, p: Proc, env: seq<Choice>, i: nat)
    requires p.PayoutSend? && i + 2 <= |env|
    ensures var w1 := AfterCall(w, PayoutCall(p.uuid, p.net, p.phone, p.operator, p.country), p.id, env[i].reply);
            Serve(w, p, env, i) ==
            if env[i].reply.Answer? then Serve(w1, MarkFrom(p.id, env[i].reply), env, i + 1)
            else LastStatement(w1, SetStatus(p.id, Failed, None, Some("diarra_payout_failed")), env[i + 1].fault)
  {
    ServeOne(w, p, env, i);
    var w1 := AfterCall(w, PayoutCall(p.uuid, p.net, p.phone, p.operator, p.country), p.id, env[i].reply);
    ServeMark(w1, MarkFailed(p.id, "diarra_payout_failed"), env, i + 1);
  }

  lemma {:induction false} ServeRefundSend(w: World, p: Proc, env: seq<Choice>, i: nat)
    requires p.RefundSend? && i + 2 <= |env|
    ensures var w1 := AfterCall(w, RefundCall(p.uuid, p.depositRef), p.id, env[i].reply);
            Serve(w, p, env, i) ==
            if env[i].reply.Answer? then Serve(w1, MarkFrom(p.id, env[i].reply), env, i + 1)
            else LastStatement(w1, SetStatus(p.id, Failed, None, Some("diarra_refund_failed")), env[i + 1].fault)
  {
    ServeOne(w, p, env, i);
    var w1 := AfterCall(w, RefundCall(p.uuid, p.depositRef), p.id, env[i].reply);
    ServeMark(w1, MarkFailed(p.id, "diarra_refund_failed"), env, i + 1);
  }

  // --- The heads of the programs, unrolled -------------------------------------------

  /** What a lookup that may fail finds. */
  function Lookup(w: World, k: Key, fault: bool): Option<Payment>
  {
    if fault then None else FindKey(w.table, k)
  }

  predicate WithinCeiling(w: World, appId: string, amount: int, fault: bool)
  {
    !fault && appId in w.apps && amount <= MaxAmountFor(w.apps[appId])
  }

  predicate ValidPay(d: DepositReq)
  {
    d.appRef != "" && 0 < d.amount && d.country != ""
  }

  /** The deposit is open and its link is missing or old. */
  predicate NeedsLink(p: Payment, now: int)
  {
    (p.status.Pending? || p.status.Processing?) && LinkLikelyExpired(p, now)
  }

  /** Where the lookup of `Pay` leads. */
  function AfterLookup(w: World, d: DepositReq, found: Option<Payment>, uuid: string): Proc
  {
    if !ValidPay(d) then Done
    else if found.None? then PayCap(d)
    else if NeedsLink(found.value, w.now) then RefreshSend(found.value.id, uuid, found.value.amount, d.country)
    else Done
  }

  lemma {:induction false} LookupStep(w: World, d: DepositReq, c: Choice)
    ensures Local(w, PayFind(d), c)
            == Go(AfterLookup(w, d, Lookup(w, Key(d.appId, d.appRef, Deposit), c.fault), c.uuid))
  {
  }

  lemma {:induction false} ServeLookup(w: World, d: DepositReq, env: seq<Choice>)
    requires 1 <= |env|
    ensures var next := AfterLookup(w, d, Lookup(w, Key(d.appId, d.appRef, Deposit), env[0].fault), env[0].uuid);
            Serve(w, PayFind(d), env, 0) == if next.Done? then w else Serve(w, next, env, 1)
  {
    LookupStep(w, d, env[0]);
    ServeAs(w, PayFind(d), env, 0,
            Go(AfterLookup(w, d, Lookup(w, Key(d.appId, d.appRef, Deposit), env[0].fault), env[0].uuid)));
  }

  lemma {:induction false} ServeCap(w: World, d: DepositReq, env: seq<Choice>, i: nat)
    requires i < |env|
    ensures Serve(w, PayCap(d), env, i) ==
            if WithinCeiling(w, d.appId, d.amount, env[i].fault)
              then Serve(w, DepositInsert(d, env[i].uuid), env, i + 1) else w
  {
    var within := WithinCeiling(w, d.appId, d.amount, env[i].fault);
    ServeAs(w, PayCap(d), env, i, if within then Go(DepositInsert(d, env[i].uuid)) else Go(Done));
  }

  lemma {:induction false} ServePayout(w: World, o: PayoutReq, env: seq<Choice>)
    requires 2 <= |env|
    ensures Serve(w, PayoutFind(o), env, 0) ==
            if o.appRef == "" || o.amount <= 0 || o.phone == "" || o.operator == "" || o.country == "" then w
            else if Lookup(w, Key(o.appId, o.appRef, Payout), env[0].fault).Some? then w
            else if WithinCeiling(w, o.appId, o.amount, env[1].fault) && 0 < Compute(o.amount, o.rate).net
            then Serve(w, PayoutInsert(o, env[1].uuid, false), env, 2)
            else w
  {
    ServeOne(w, PayoutFind(o), env, 0);
    ServeOne(w, PayoutCap(o), env, 1);
  }

  lemma {:induction false} ServeRefundLoad(w: World, r: RefundReq, env: seq<Choice>)
    requires 2 <= |env|
    ensures var dep := Lookup(w, Key(r.appId, r.depositAppRef, Deposit), env[1].fault);
            Serve(w, RefundLoad(r), env, 1) ==
            if dep.Some? && dep.value.status.Completed?
            then Serve(w, RefundInsert(dep.value, RefundRefOf(r), StrPtr(r.callback), r.rate, env[1].uuid), env, 2)
            else w
  {
    ServeOne(w, RefundLoad(r), env, 1);
  }

  lemma {:induction false} ServeRefund(w: World, r: RefundReq, env: seq<Choice>)
    requires 2 <= |env|
    ensures Serve(w, RefundFind(r), env, 0) ==
            if r.depositAppRef == "" || Lookup(w, Key(r.appId, RefundRefOf(r), Refund), env[0].fault).Some? then w
            else Serve(w, RefundLoad(r), env, 1)
  {
    ServeOne(w, RefundFind(r), env, 0);
  }

  lemma {:induction false} ServeAdminRefund(w: World, id: nat, rate: GoInt, env: seq<Choice>)
    requires 2 <= |env|
    ensures Serve(w, AdminRefundLoad(id, rate), env, 0) ==
            if env[0].fault || |w.table| <= id || !w.table[id].typ.Deposit? || !w.table[id].status.Completed? then w
            else Serve(w, AdminRefundFind(w.table[id], rate), env, 1)
  {
    ServeOne(w, AdminRefundLoad(id, rate), env, 0);
  }

  lemma {:induction false} ServeAdminRefundFind(w: World, dep: Payment, rate: GoInt, env: seq<Choice>)
    requires 2 <= |env|
    ensures Serve(w, AdminRefundFind(dep, rate), env, 1) ==
            if Lookup(w, Key(dep.appId, REFUND_PREFIX + dep.appRef, Refund), env[1].fault).Some? then w
            else Serve(w, RefundInsert(dep, REFUND_PREFIX + dep.appRef, None, rate, env[1].uuid), env, 2)
  {
    ServeOne(w, AdminRefundFind(dep, rate), env, 1);
  }

  lemma {:induction false} ServeCallback(w: World, ref: string, status: Status, detail: string, env: seq<Choice>)
    requires 2 <= |env|
    ensures Serve(w, CallbackFind(ref, status, detail), env, 0) ==
            if env[0].fault || FindRef(w.table, ref).None? then w
            else Serve(w, CallbackUpdate(FindRef(w.table, ref).value, status, detail), env, 1)
  {
    ServeOne(w, CallbackFind(ref, status, detail), env, 0);
  }

  lemma {:induction false} ServeCallbackUpdate(w: World, p: Payment, status: Status, detail: string, env: seq<Choice>)
    requires 2 <= |env|
    ensures Serve(w, CallbackUpdate(p, status, detail), env, 1) ==
            if env[1].fault || !AllowedStatus(status) then w
            else Serve(Exec(w, SetStatus(p.id, status, None, StrPtr(detail))),
                       RelayStart(p.(status := status, failureReason := StrPtr(detail))), env, 2)
  {
    ServeOne(w, CallbackUpdate(p, status, detail), env, 1);
  }

  lemma {:induction false} ServeRelayStart(w: World, p: Payment, env: seq<Choice>, i: nat)
    requires i + 2 <= |env|
    ensures Serve(w, RelayStart(p), env, i) ==
            if NoCallback(p) then LastStatement(w, SaveRelay(p.id, RelaySkipped, None), env[i + 1].fault)
            else Serve(w, RelayApp(p), env, i + 1)
  {
    ServeOne(w, RelayStart(p), env, i);
    ServeRelaySave(w, RelaySave(p.id, RelaySkipped, None), env, i + 1);
  }

  const NO_APP := "app introuvable pour la signature du relais"

  lemma {:induction false} ServeRelayApp(w: World, p: Payment, env: seq<Choice>, i: nat)
    requires i + 2 <= |env|
    ensures Serve(w, RelayApp(p), env, i) ==
            if env[i].fault || p.appId !in w.apps
              then LastStatement(w, SaveRelay(p.id, RelayFailed, Some(NO_APP)), env[i + 1].fault)
            else Serve(w, RelayPost(p), env, i + 1)
  {
    ServeOne(w, RelayApp(p), env, i);
    ServeRelaySave(w, RelaySave(p.id, RelayFailed, Some(NO_APP)), env, i + 1);
  }

  lemma {:induction false} ServeDepositInsert(w: World, d: DepositReq, uuid: string, env: seq<Choice>, i: nat)
    requires i + 2 <= |env|
    ensures var o := InsertOutcomeOf(w.table, w.apps.Keys, DepositRow(d, uuid, w.now), true);
            var found := Lookup(w, Key(d.appId, d.appRef, Deposit), env[i + 1].fault);
            Serve(w, DepositInsert(d, uuid), env, i) ==
            if env[i].fault || o.Refused? then w
            else if o.Inserted? then Serve(Exec(w, Insert(o.row, false)), DepositSend(d, uuid, |w.table|), env, i + 1)
            else if found.Some? then Serve(w, DepositSend(d, uuid, found.value.id), env, i + 2)
            else w
  {
    ServeOne(w, DepositInsert(d, uuid), env, i);
    ServeOne(w, DepositReread(d, uuid), env, i + 1);
  }

  lemma {:induction false} ServeMark(w: World, p: Proc, env: seq<Choice>, i: nat)
    requires p.Mark? && i < |env|
    ensures Serve(w, p, env, i) == LastStatement(w, SetStatus(p.id, p.status, p.provider, p.reason), env[i].fault)
  {
    ServeOne(w, p, env, i);
  }

  lemma {:induction false} ServeRelaySave(w: World, p: Proc, env: seq<Choice>, i: nat)
    requires p.RelaySave? && i < |env|
    ensures Serve(w, p, env, i) == LastStatement(w, SaveRelay(p.id, p.relay, p.err), env[i].fault)
  {
    ServeOne(w, p, env, i);
  }

  class PaymentHandler {
    const repo: AppRepo
    const usdRate: GoInt
    var now: int
    var calls: seq<Call>
    var deposits: map<string, GatewayDeposit>
    ghost var h: History

    constructor (repo: AppRepo, usdRate: GoInt, now: int)
      ensures this.repo == repo && this.usdRate == (if 0 < usdRate then usdRate else 600) && this.now == now
      ensures calls == [] && deposits == map[]
    {
      this.repo := repo;
      this.usdRate := EffectiveRate(usdRate);
      this.now, calls, deposits := now, [], map[];
      h := History({}, {}, {}, [], map[]);
    }

    ghost function W(): World
      reads this, repo
    {
      World(now, repo.apps, repo.rows, calls, deposits, h)
    }

    // --- Single statements and calls -----------------------------------------------

    method Find(k: Key, fault: bool) returns (p: Option<Payment>)
      requires repo.Valid()
      ensures p == if fault then None else FindKey(W().table, k)
    {
      if fault {
        return None;
      }
      p := repo.FindPaymentByAppRefType(k.appId, k.appRef, k.typ);
    }

    method InsertRow(row: Payment, onConflict: bool, admin: bool) returns (o: InsertOutcome)
      requires repo.Valid()
      modifies repo`rows, repo`byKey, repo`byRef, this`h
      ensures repo.Valid()
      ensures o == InsertOutcomeOf(old(W()).table, old(W()).apps.Keys, row, onConflict)
      ensures W() == if o.Inserted? then Exec(old(W()), Insert(o.row, admin)) else old(W())
    {
      o := repo.Insert(row, onConflict);
      if o.Inserted? && admin {
        h := h.(adminMade := h.adminMade + {|old(repo.rows)|});
      }
    }

    method SetPaymentStatus(id: nat, status: Status, provider: Option<string>, reason: Option<string>, fault: bool)
      requires repo.Valid()
      modifies repo`rows, this`h
      ensures repo.Valid()
      ensures W() == LastStatement(old(W()), SetStatus(id, status, provider, reason), fault)
    {
      if fault {
        return;
      }
      if id < |repo.rows| && status == Completed {
        h := h.(completed := h.completed + {id});
      }
      repo.UpdatePaymentStatus(id, status, provider, reason);
    }

    method SetRedirectUrl(id: nat, url: string, fault: bool)
      requires repo.Valid()
      modifies repo`rows
      ensures repo.Valid()
      ensures W() == LastStatement(old(W()), SetRedirect(id, url), fault)
    {
      if fault {
        return;
      }
      repo.UpdatePaymentRedirect(id, url);
    }

    method SaveLink(id: nat, ref: string, url: string, fault: bool)
      requires repo.Valid()
      modifies repo`rows, repo`byRef
      ensures repo.Valid()
      ensures W() == LastStatement(old(W()), Rekey(id, ref, url), fault)
    {
      if fault {
        return;
      }
      repo.UpdateDiarraRefAndRedirect(id, ref, url);
    }

    method RecordRelay(id: nat, relay: RelayStatus, err: Option<string>, fault: bool)
      requires repo.Valid()
      modifies repo`rows, this`h
      ensures repo.Valid()
      ensures W() == LastStatement(old(W()), SaveRelay(id, relay, err), fault)
    {
      if fault {
        return;
      }
      if id < |repo.rows| {
        h := h.(relays := h.relays + [RelayRecord(id, relay, err)]);
      }
      repo.SetRelayResult(id, relay, err, now);
    }

    /** A gateway call; `ok` says whether the caller got an answer. */
    method CallGateway(call: Call, forRow: nat, reply: Reply) returns (ok: bool)
      modifies this`calls, this`deposits, this`h
      ensures ok == reply.Answer?
      ensures W() == AfterCall(old(W()), call, forRow, reply)
    {
      ok := reply.Answer?;
      if reply.Unreached? {
        return;
      }
      var link := if reply.Lost? then reply.lostLink else reply.link;
      calls := calls + [call];
      if call.DepositCall? && call.ref !in deposits {
        deposits := deposits[call.ref := GatewayDeposit(call.amount, link, [], 0)];
        h := h.(issuedFor := h.issuedFor[call.ref := forRow]);
      }
    }

    // --- Pay --------------------------------------------------------------------------

    method RefreshDepositLink(p: Payment, country: string, newRef: string, env: seq<Choice>, i: nat)
      requires repo.Valid() && i + 2 <= |env|
      modifies repo`rows, repo`byRef, this`calls, this`deposits, this`h
      ensures repo.Valid()
      ensures W() == Serve(old(W()), RefreshSend(p.id, newRef, p.amount, country), env, i)
    {
      ServeRefreshSend(W(), p.id, newRef, p.amount, country, env, i);
      var ok := CallGateway(DepositCall(newRef, p.amount, country), p.id, env[i].reply);
      if ok {
        SaveLink(p.id, newRef, env[i].reply.link, env[i + 1].fault);
      }
    }

    method Pay(d: DepositReq, env: seq<Choice>)
      requires repo.Valid() && d.rate == usdRate && 6 <= |env|
      modifies repo`rows, repo`byKey, repo`byRef, this`calls, this`deposits, this`h
      ensures repo.Valid()
      ensures W() == Serve(old(W()), PayFind(d), env, 0)
    {
      ServeLookup(W(), d, env);
      ServeCap(W(), d, env, 1);
      if d.appRef == "" || d.amount <= 0 || d.country == "" {
        return;
      }
      var existing := Find(Key(d.appId, d.appRef, Deposit), env[0].fault);
      if existing.Some? {
        var e := existing.value;
        if (e.status.Pending? || e.status.Processing?) && LinkLikelyExpired(e, now) {
          RefreshDepositLink(e, d.country, env[0].uuid, env, 1);
        }
        return;
      }
      if env[1].fault || d.appId !in repo.apps {
        return;
      }
      if d.amount > MaxAmountFor(repo.apps[d.appId]) {
        return;
      }
      CreateDeposit(d, env[1].uuid, env, 2);
    }

    /** The part `Pay` and `TestPay` share: insert, call the gateway, record the outcome. */
    method CreateDeposit(d: DepositReq, uuid: string, env: seq<Choice>, i: nat)
      requires repo.Valid() && i + 4 <= |env|
      modifies repo`rows, repo`byKey, repo`byRef, this`calls, this`deposits, this`h
      ensures repo.Valid()
      ensures W() == Serve(old(W()), DepositInsert(d, uuid), env, i)
    {
      if env[i].fault {
        return;
      }
      ServeDepositInsert(W(), d, uuid, env, i);
      var o := InsertRow(DepositRow(d, uuid, now), true, false);
      match o {
        case Refused => return;
        case Inserted(row) => SendDeposit(d, uuid, row.id, env, i + 1);
        case Conflict =>
          var existing := Find(Key(d.appId, d.appRef, Deposit), env[i + 1].fault);
          if existing.Some? {
            SendDeposit(d, uuid, existing.value.id, env, i + 2);
          }
      }
    }

    method SendDeposit(d: DepositReq, uuid: string, id: nat, env: seq<Choice>, i: nat)
      requires repo.Valid() && i + 2 <= |env|
      modifies repo`rows, this`calls, this`deposits, this`h
      ensures repo.Valid()
      ensures W() == Serve(old(W()), DepositSend(d, uuid, id), env, i)
    {
      ServeDepositSend(W(), d, uuid, id, env, i);
      var ok := CallGateway(DepositCall(uuid, d.amount, d.country), id, env[i].reply);
      if !ok {
        SetPaymentStatus(id, Failed, None, Some("diarra_init_failed"), env[i + 1].fault);
        return;
      }
      SetRedirectUrl(id, env[i].reply.link, env[i + 1].fault);
    }

    method TestPay(d: DepositReq, env: seq<Choice>)
      requires repo.Valid() && d.rate == usdRate && 6 <= |env|
      modifies repo`rows, repo`byKey, repo`byRef, this`calls, this`deposits, this`h
      ensures repo.Valid()
      ensures W() == Serve(old(W()), TestCap(d), env, 0)
    {
      if env[0].fault || d.appId !in repo.apps {
        return;
      }
      var country := if d.country == "" then "SEN" else d.country;
      var amount: GoInt := if d.amount <= 0 then 500 else d.amount;
      if amount > MaxAmountFor(repo.apps[d.appId]) {
        return;
      }
      CreateDeposit(d.(appRef := "test-" + env[0].token, amount := amount, country := country, callback := ""),
                    env[0].uuid, env, 1);
    }

    // --- Payout and PayoutForAdmin ---------------------------------------------------------

    /** After an accepted call: record the gateway's status, if it sent one. */
    method MarkReply(id: nat, reply: Reply, env: seq<Choice>, i: nat)
      requires repo.Valid() && i + 1 <= |env| && reply.Answer?
      modifies repo`rows, this`h
      ensures repo.Valid()
      ensures W() == Serve(old(W()), MarkFrom(id, reply), env, i)
    {
      if reply.status != Other("") {
        ServeMark(W(), MarkFrom(id, reply), env, i);
        SetPaymentStatus(id, NormalizeStatus(reply.status), StrPtr(reply.provider), None, env[i].fault);
      }
    }

    method Payout(o: PayoutReq, env: seq<Choice>)
      requires repo.Valid() && o.rate == usdRate && 5 <= |env|
      modifies repo`rows, repo`byKey, repo`byRef, this`calls, this`deposits, this`h
      ensures repo.Valid()
      ensures W() == Serve(old(W()), PayoutFind(o), env, 0)
    {
      ServePayout(W(), o, env);
      if o.appRef == "" || o.amount <= 0 || o.phone == "" || o.operator == "" || o.country == "" {
        return;
      }
      var existing := Find(Key(o.appId, o.appRef, PaymentType.Payout), env[0].fault);
      if existing.Some? {
        return;
      }
      if env[1].fault || o.appId !in repo.apps {
        return;
      }
      if o.amount > MaxAmountFor(repo.apps[o.appId]) {
        return;
      }
      if Compute(o.amount, o.rate).net <= 0 {
        return;
      }
      CreatePayout(o, env[1].uuid, false, env, 2);
    }

    method PayoutForAdmin(o: PayoutReq, env: seq<Choice>)
      requires repo.Valid() && o.rate == usdRate && 4 <= |env|
      modifies repo`rows, repo`byKey, repo`byRef, this`calls, this`deposits, this`h
      ensures repo.Valid()
      ensures W() == Serve(old(W()), AdminPayout(o), env, 0)
    {
      if o.amount <= 0 || o.phone == "" || o.operator == "" || o.country == "" {
        return;
      }
      if Compute(o.amount, o.rate).net <= 0 {
        return;
      }
      CreatePayout(o.(appRef := "admin-payout-" + env[0].token, callback := ""), env[0].uuid, true, env, 1);
    }

    method CreatePayout(o: PayoutReq, uuid: string, admin: bool, env: seq<Choice>, i: nat)
      requires repo.Valid() && i + 3 <= |env|
      modifies repo`rows, repo`byKey, repo`byRef, this`calls, this`deposits, this`h
      ensures repo.Valid()
      ensures W() == Serve(old(W()), PayoutInsert(o, uuid, admin), env, i)
    {
      if env[i].fault {
        return;
      }
      var net := Compute(o.amount, o.rate).net;
      var inserted := InsertRow(PayoutRow(o, uuid, now), false, admin);
      if inserted.Inserted? {
        SendPayout(inserted.row.id, uuid, net, o, env, i + 1);
      }
    }

    method SendPayout(id: nat, uuid: string, net: GoInt, o: PayoutReq, env: seq<Choice>, i: nat)
      requires repo.Valid() && i + 2 <= |env|
      modifies repo`rows, this`calls, this`deposits, this`h
      ensures repo.Valid()
      ensures W() == Serve(old(W()), PayoutSend(id, uuid, net, o.phone, o.operator, o.country), env, i)
    {
      ServePayoutSend(W(), PayoutSend(id, uuid, net, o.phone, o.operator, o.country), env, i);
      var ok := CallGateway(PayoutCall(uuid, net, o.phone, o.operator, o.country), id, env[i].reply);
      if !ok {
        SetPaymentStatus(id, Failed, None, Some("diarra_payout_failed"), env[i + 1].fault);
        return;
      }
      MarkReply(id, env[i].reply, env, i + 1);
    }

    // --- Refund and RefundDeposit ------------------------------------------------------------

    method Refund(r: RefundReq, env: seq<Choice>)
      requires repo.Valid() && r.rate == usdRate && 5 <= |env|
      modifies repo`rows, repo`byKey, repo`byRef, this`calls, this`deposits, this`h
      ensures repo.Valid()
      ensures W() == Serve(old(W()), RefundFind(r), env, 0)
    {
      ServeRefund(W(), r, env);
      ServeRefundLoad(W(), r, env);
      if r.depositAppRef == "" {
        return;
      }
      var refundRef := if r.refundAppRef == "" then REFUND_PREFIX + r.depositAppRef else r.refundAppRef;
      var existing := Find(Key(r.appId, refundRef, PaymentType.Refund), env[0].fault);
      if existing.Some? {
        return;
      }
      var deposit := Find(Key(r.appId, r.depositAppRef, Deposit), env[1].fault);
      if deposit.None? {
        return;
      }
      if !deposit.value.status.Completed? {
        return;
      }
      CreateRefund(deposit.value, refundRef, StrPtr(r.callback), r.rate, env[1].uuid, env, 2);
    }

    /** The admin route: load the deposit by id, then `RefundDeposit`. */
    method RefundDeposit(id: nat, env: seq<Choice>)
      requires repo.Valid() && 5 <= |env|
      modifies repo`rows, repo`byKey, repo`byRef, this`calls, this`deposits, this`h
      ensures repo.Valid()
      ensures W() == Serve(old(W()), AdminRefundLoad(id, usdRate), env, 0)
    {
      ServeAdminRefund(W(), id, usdRate, env);
      if env[0].fault {
        return;
      }
      var found := repo.FindPaymentByID(id);
      if found.None? {
        return;
      }
      var deposit := found.value;
      if !deposit.typ.Deposit? || !deposit.status.Completed? {
        return;
      }
      var refundRef := REFUND_PREFIX + deposit.appRef;
      ServeAdminRefundFind(W(), deposit, usdRate, env);
      var existing := Find(Key(deposit.appId, refundRef, PaymentType.Refund), env[1].fault);
      if existing.Some? {
        return;
      }
      CreateRefund(deposit, refundRef, None, usdRate, env[1].uuid, env, 2);
    }

    method CreateRefund(dep: Payment, refundRef: string, callback: Option<string>, rate: GoInt, uuid: string,
                        env: seq<Choice>, i: nat)
      requires repo.Valid() && i + 3 <= |env|
      modifies repo`rows, repo`byKey, repo`byRef, this`calls, this`deposits, this`h
      ensures repo.Valid()
      ensures W() == Serve(old(W()), RefundInsert(dep, refundRef, callback, rate, uuid), env, i)
    {
      if env[i].fault {
        return;
      }
      ServeOne(W(), RefundInsert(dep, refundRef, callback, rate, uuid), env, i);
      var inserted := InsertRow(RefundRow(dep, refundRef, callback, rate, uuid, now), false, false);
      if inserted.Inserted? {
        SendRefund(inserted.row.id, uuid, dep.diarraRef, env, i + 1);
      }
    }

    method SendRefund(id: nat, uuid: string, depositRef: string, env: seq<Choice>, i: nat)
      requires repo.Valid() && i + 2 <= |env|
      modifies repo`rows, this`calls, this`deposits, this`h
      ensures repo.Valid()
      ensures W() == Serve(old(W()), RefundSend(id, uuid, depositRef), env, i)
    {
      ServeRefundSend(W(), RefundSend(id, uuid, depositRef), env, i);
      var ok := CallGateway(RefundCall(uuid, depositRef), id, env[i].reply);
      if !ok {
        SetPaymentStatus(id, Failed, None, Some("diarra_refund_failed"), env[i + 1].fault);
        return;
      }
      MarkReply(id, env[i].reply, env, i + 1);
    }

    // --- DiarraCallback and RelayPayment --------------------------------------------------------

    method DiarraCallback(ref: string, status: Status, detail: string, env: seq<Choice>)
      requires repo.Valid() && 6 <= |env|
      modifies repo`rows, this`h
      ensures repo.Valid()
      ensures W() == Serve(old(W()), CallbackFind(ref, status, detail), env, 0)
    {
      ServeCallback(W(), ref, status, detail, env);
      if env[0].fault {
        return;
      }
      var found := repo.FindPaymentByDiarraRef(ref);
      if found.None? {
        return;
      }
      var payment := found.value;
      ServeCallbackUpdate(W(), payment, status, detail, env);
      if env[1].fault || !AllowedStatus(status) {
        return;
      }
      SetPaymentStatus(payment.id, status, None, StrPtr(detail), false);
      payment := payment.(status := status, failureReason := StrPtr(detail));
      RelayPayment(payment, env, 2);
    }

    method RelayPayment(p: Payment, env: seq<Choice>, i: nat)
      requires repo.Valid() && i + 4 <= |env|
      modifies repo`rows, this`h
      ensures repo.Valid()
      ensures W() == Serve(old(W()), RelayStart(p), env, i)
    {
      ServeRelayStart(W(), p, env, i);
      ServeRelayApp(W(), p, env, i + 1);
      if NoCallback(p) {
        RecordRelay(p.id, RelaySkipped, None, env[i + 1].fault);
        return;
      }
      if env[i + 1].fault || p.appId !in repo.apps {
        RecordRelay(p.id, RelayFailed, Some(NO_APP), env[i + 2].fault);
        return;
      }
      PostAndRecord(p, env, i + 2);
    }

    /** The POST to the merchant, and the record of its outcome. */
    method PostAndRecord(p: Payment, env: seq<Choice>, i: nat)
      requires repo.Valid() && i + 2 <= |env|
      modifies repo`rows, this`h
      ensures repo.Valid()
      ensures W() == Serve(old(W()), RelayPost(p), env, i)
    {
      ServeOne(W(), RelayPost(p), env, i);
      var relay, err := RelayDelivered, None;
      match env[i].post {
        case CannotBuild => return;
        case PostError(msg) => relay, err := RelayFailed, Some(msg);
        case Response(code) =>
          if code >= 300 {
            relay, err := RelayFailed, Some(HttpError(code));
          }
      }
      ServeRelaySave(W(), RelaySave(p.id, relay, err), env, i + 1);
      RecordRelay(p.id, relay, err, env[i + 1].fault);
    }
  }
}
