/** The payment handlers as small programs over one shared world. A step of a program is one
    SQL statement or one gateway call; between two steps any other program may run. */
module Ledger {
  import opened Fees
  import opened Model
  import opened Table
  import Grouping

  // --- The world the handlers share -----------------------------------------

  /** A call the gateway received. */
  datatype Call =
    | DepositCall(ref: string, amount: GoInt, country: string)
    | PayoutCall(ref: string, amount: GoInt, phone: string, operator: string, country: string)
    | RefundCall(ref: string, depositRef: string)

  /** A deposit at the gateway: `history` lists the statuses it went through and
      `delivered` is the position of the last one sent back by callback. */
  datatype GatewayDeposit = GatewayDeposit(amount: GoInt, link: string, history: seq<Status>, delivered: nat)

  /** One call of `SetRelayResult`. */
  datatype RelayRecord = RelayRecord(id: nat, status: RelayStatus, err: Option<string>)

  /** What has happened so far. No handler reads it. */
  datatype History = History(
    completed: set<nat>,          // rows that were 'completed' in some state
    verified: set<string>,        // apps that were KYC-verified in some state
    adminMade: set<nat>,          // rows inserted by PayoutForAdmin
    relays: seq<RelayRecord>,     // recorded relay outcomes
    issuedFor: map<string, nat>)  // gateway deposit -> the row it was created for

  datatype World = World(
    now: int,
    apps: map<string, KYCLevel>,
    table: Rows,
    calls: seq<Call>,
    deposits: map<string, GatewayDeposit>,
    h: History)

  // --- What the environment decides in one step ------------------------------

  /** `Unreached`: the gateway never saw the call. `Lost`: it acted, the caller got an error. */
  datatype Reply =
    | Unreached
    | Lost(lostLink: string)
    | Answer(status: Status, provider: string, link: string)

  /** The outcome of the POST to the merchant's callback URL. */
  datatype Post = CannotBuild | PostError(msg: string) | Response(code: int)

  /** `fault`: the SQL statement fails. `uuid` and `token` are freshly drawn. */
  datatype Choice = Choice(fault: bool, uuid: string, token: string, reply: Reply, post: Post)

  // --- The programs -----------------------------------------------------------

  datatype DepositReq = DepositReq(appId: string, appRef: string, amount: GoInt, country: string,
                                   callback: string, rate: GoInt)

  datatype PayoutReq = PayoutReq(appId: string, appRef: string, amount: GoInt, phone: string, operator: string,
                                 country: string, callback: string, rate: GoInt)

  datatype RefundReq = RefundReq(appId: string, depositAppRef: string, refundAppRef: string,
                                 callback: string, rate: GoInt)

  /** A program point: the statement to run next, with the local variables it needs. */
  datatype Proc =
    // Pay, TestPay
    | PayFind(d: DepositReq)
    | PayCap(d: DepositReq)
    | TestCap(d: DepositReq)
    | DepositInsert(d: DepositReq, uuid: string)
    | DepositReread(d: DepositReq, uuid: string)
    | DepositSend(d: DepositReq, uuid: string, id: nat)
    | DepositFail(id: nat)
    | DepositLink(id: nat, url: string)
    // refreshDepositLink
    | RefreshSend(id: nat, uuid: string, amount: GoInt, country: string)
    | RefreshSave(id: nat, uuid: string, url: string)
    // Payout, PayoutForAdmin
    | PayoutFind(o: PayoutReq)
    | PayoutCap(o: PayoutReq)
    | AdminPayout(o: PayoutReq)
    | PayoutInsert(o: PayoutReq, uuid: string, admin: bool)
    | PayoutSend(id: nat, uuid: string, net: GoInt, phone: string, operator: string, country: string)
    // Refund, RefundDeposit
    | RefundFind(r: RefundReq)
    | RefundLoad(r: RefundReq)
    | AdminRefundLoad(id: nat, rate: GoInt)
    | AdminRefundFind(dep: Payment, rate: GoInt)
    | RefundInsert(dep: Payment, refundRef: string, callback: Option<string>, rate: GoInt, uuid: string)
    | RefundSend(id: nat, uuid: string, depositRef: string)
    // the status update after a payout or refund call
    | Mark(id: nat, status: Status, provider: Option<string>, reason: Option<string>)
    // DiarraCallback, RelayPayment
    | CallbackFind(ref: string, status: Status, detail: string)
    | CallbackUpdate(p: Payment, status: Status, detail: string)
    | AdminRelay(id: nat)
    | RelayStart(p: Payment)
    | RelayApp(p: Payment)
    | RelayPost(p: Payment)
    | RelaySave(id: nat, relay: RelayStatus, err: Option<string>)
    | Done

  /** The points at which a request enters. */
  predicate Entry(p: Proc)
  {
    || p.PayFind? || p.TestCap? || p.PayoutFind? || p.AdminPayout? || p.RefundFind? || p.AdminRefundLoad?
    || p.CallbackFind? || p.AdminRelay?
  }

  /** What one step does to the world. */
  datatype Effect =
    | Nothing
    | Insert(row: Payment, byAdmin: bool)
    | SetStatus(id: nat, status: Status, provider: Option<string>, reason: Option<string>)
    | SetRedirect(id: nat, url: string)
    | Rekey(id: nat, ref: string, url: string)
    | SaveRelay(id: nat, relay: RelayStatus, err: Option<string>)
    | Send(call: Call, link: string, forRow: nat)

  datatype Outcome = Outcome(next: Proc, effect: Effect)

  function Go(next: Proc): Outcome
  {
    Outcome(next, Nothing)
  }

  /** `strPtrOrNil`, and the `if s != "" { p = &s }` of the handlers. */
  function StrPtr(s: string): Option<string>
  {
    if s == "" then None else Some(s)
  }

  const LINK_LIFETIME := 23 * 3600

  /** `linkLikelyExpired`, in seconds; `created_at` is never moved by a refresh. */
  predicate LinkLikelyExpired(p: Payment, now: int)
  {
    p.redirect == None || p.redirect == Some("") || now - p.createdAt > LINK_LIFETIME
  }

  function DepositRow(d: DepositReq, uuid: string, now: int): Payment
  {
    FreshRow(d.appId, d.appRef, uuid, Deposit, Compute(d.amount, d.rate), "XOF", StrPtr(d.callback), now)
  }

  function PayoutRow(o: PayoutReq, uuid: string, now: int): Payment
  {
    FreshRow(o.appId, o.appRef, uuid, Payout, Compute(o.amount, o.rate), "XOF", StrPtr(o.callback), now)
    .(phone := Some(o.phone), operator := Some(o.operator), country := Some(o.country))
  }

  /** The refund of a deposit: its full amount, with a commission of its own. */
  function RefundRow(dep: Payment, refundRef: string, callback: Option<string>, rate: GoInt, uuid: string,
                     now: int): Payment
  {
    FreshRow(dep.appId, refundRef, uuid, Refund, Compute(dep.amount, rate), dep.currency, callback, now)
    .(refundOf := Some(dep.id))
  }

  const REFUND_PREFIX := "refund-"

  /** One INSERT: go on with the new row (its id is the table's length), reread on conflict,
      give up on an error. */
  function InsertStep(w: World, row: Payment, onConflict: bool, admin: bool, fault: bool,
                      next: Proc, reread: Proc): Outcome
  {
    if fault then Go(Done)
    else match InsertOutcomeOf(w.table, w.apps.Keys, row, onConflict)
      case Inserted(r) => Outcome(next, Insert(r, admin))
      case Conflict => Go(reread)
      case Refused => Go(Done)
  }

  function LinkOf(reply: Reply): string
  {
    if reply.Answer? then reply.link else ""
  }

  /** One gateway call: go to `accepted` on an answer, to `failed` on an error. */
  function SendStep(call: Call, forRow: nat, reply: Reply, accepted: Proc, failed: Proc): Outcome
  {
    match reply
    case Unreached => Go(failed)
    case Lost(link) => Outcome(failed, Send(call, link, forRow))
    case Answer(_, _, link) => Outcome(accepted, Send(call, link, forRow))
  }

  /** The update after an accepted payout or refund call. */
  function MarkFrom(id: nat, reply: Reply): Proc
  {
    if reply.Answer? && reply.status != Other("") then
      Mark(id, NormalizeStatus(reply.status), StrPtr(reply.provider), None)
    else Done
  }

  function MarkFailed(id: nat, reason: string): Proc
  {
    Mark(id, Failed, None, Some(reason))
  }

  // --- Pay and TestPay --------------------------------------------------------

  function LocalDeposit(w: World, p: Proc, c: Choice): Outcome
  {
    match p
    case PayFind(d) =>
      if d.appRef == "" || d.amount <= 0 || d.country == "" then Go(Done)
      else
        var found := if c.fault then None else FindKey(w.table, Key(d.appId, d.appRef, Deposit));
        if found.None? then Go(PayCap(d))
        else
          var e := found.value;
          if (e.status.Pending? || e.status.Processing?) && LinkLikelyExpired(e, w.now)
          then Go(RefreshSend(e.id, c.uuid, e.amount, d.country))
          else Go(Done)
    case PayCap(d) =>
      if c.fault || d.appId !in w.apps then Go(Done)
      else if d.amount > MaxAmountFor(w.apps[d.appId]) then Go(Done)
      else Go(DepositInsert(d, c.uuid))
    case TestCap(d) =>
      if c.fault || d.appId !in w.apps then Go(Done)
      else
        var amount: GoInt := if d.amount <= 0 then 500 else d.amount;
        if amount > MaxAmountFor(w.apps[d.appId]) then Go(Done)
        else
          var country := if d.country == "" then "SEN" else d.country;
          Go(DepositInsert(d.(appRef := "test-" + c.token, amount := amount, country := country, callback := ""),
                           c.uuid))
    case DepositInsert(d, uuid) =>
      InsertStep(w, DepositRow(d, uuid, w.now), true, false, c.fault,
                 DepositSend(d, uuid, |w.table|), DepositReread(d, uuid))
    case DepositReread(d, uuid) =>
      var found := if c.fault then None else FindKey(w.table, Key(d.appId, d.appRef, Deposit));
      if found.None? then Go(Done) else Go(DepositSend(d, uuid, found.value.id))
    case DepositSend(d, uuid, id) =>
      SendStep(DepositCall(uuid, d.amount, d.country), id, c.reply,
               DepositLink(id, LinkOf(c.reply)), DepositFail(id))
    case DepositFail(id) =>
      if c.fault then Go(Done) else Outcome(Done, SetStatus(id, Failed, None, Some("diarra_init_failed")))
    case DepositLink(id, url) =>
      if c.fault then Go(Done) else Outcome(Done, SetRedirect(id, url))
    case RefreshSend(id, uuid, amount, country) =>
      SendStep(DepositCall(uuid, amount, country), id, c.reply,
               RefreshSave(id, uuid, LinkOf(c.reply)), Done)
    case RefreshSave(id, uuid, url) =>
      if c.fault then Go(Done) else Outcome(Done, Rekey(id, uuid, url))
    case _ => Go(p)
  }

  // --- Payout and PayoutForAdmin ----------------------------------------------

  function LocalPayout(w: World, p: Proc, c: Choice): Outcome
  {
    match p
    case PayoutFind(o) =>
      if o.appRef == "" || o.amount <= 0 || o.phone == "" || o.operator == "" || o.country == "" then Go(Done)
      else
        var found := if c.fault then None else FindKey(w.table, Key(o.appId, o.appRef, Payout));
        if found.Some? then Go(Done) else Go(PayoutCap(o))
    case PayoutCap(o) =>
      if c.fault || o.appId !in w.apps then Go(Done)
      else if o.amount > MaxAmountFor(w.apps[o.appId]) then Go(Done)
      else if Compute(o.amount, o.rate).net <= 0 then Go(Done)
      else Go(PayoutInsert(o, c.uuid, false))
    case AdminPayout(o) =>
      if o.amount <= 0 || o.phone == "" || o.operator == "" || o.country == "" then Go(Done)
      else if Compute(o.amount, o.rate).net <= 0 then Go(Done)
      else Go(PayoutInsert(o.(appRef := "admin-payout-" + c.token, callback := ""), c.uuid, true))
    case PayoutInsert(o, uuid, admin) =>
      InsertStep(w, PayoutRow(o, uuid, w.now), false, admin, c.fault,
                 PayoutSend(|w.table|, uuid, Compute(o.amount, o.rate).net, o.phone, o.operator, o.country), Done)
    case PayoutSend(id, uuid, net, phone, operator, country) =>
      SendStep(PayoutCall(uuid, net, phone, operator, country), id, c.reply,
               MarkFrom(id, c.reply), MarkFailed(id, "diarra_payout_failed"))
    case Mark(id, status, provider, reason) =>
      if c.fault then Go(Done) else Outcome(Done, SetStatus(id, status, provider, reason))
    case _ => Go(p)
  }

  // --- Refund and RefundDeposit -----------------------------------------------

  function RefundRefOf(r: RefundReq): string
  {
    if r.refundAppRef == "" then REFUND_PREFIX + r.depositAppRef else r.refundAppRef
  }

  function LocalRefund(w: World, p: Proc, c: Choice): Outcome
  {
    match p
    case RefundFind(r) =>
      if r.depositAppRef == "" then Go(Done)
      else
        var found := if c.fault then None else FindKey(w.table, Key(r.appId, RefundRefOf(r), Refund));
        if found.Some? then Go(Done) else Go(RefundLoad(r))
    case RefundLoad(r) =>
      var found := if c.fault then None else FindKey(w.table, Key(r.appId, r.depositAppRef, Deposit));
      if found.None? || !found.value.status.Completed? then Go(Done)
      else Go(RefundInsert(found.value, RefundRefOf(r), StrPtr(r.callback), r.rate, c.uuid))
    case AdminRefundLoad(id, rate) =>
      var found := if c.fault then None else FindId(w.table, id);
      if found.None? || !found.value.typ.Deposit? || !found.value.status.Completed? then Go(Done)
      else Go(AdminRefundFind(found.value, rate))
    case AdminRefundFind(dep, rate) =>
      var refundRef := REFUND_PREFIX + dep.appRef;
      var found := if c.fault then None else FindKey(w.table, Key(dep.appId, refundRef, Refund));
      if found.Some? then Go(Done) else Go(RefundInsert(dep, refundRef, None, rate, c.uuid))
    case RefundInsert(dep, refundRef, callback, rate, uuid) =>
      InsertStep(w, RefundRow(dep, refundRef, callback, rate, uuid, w.now), false, false, c.fault,
                 RefundSend(|w.table|, uuid, dep.diarraRef), Done)
    case RefundSend(id, uuid, depositRef) =>
      SendStep(RefundCall(uuid, depositRef), id, c.reply,
               MarkFrom(id, c.reply), MarkFailed(id, "diarra_refund_failed"))
    case _ => Go(p)
  }

  // --- DiarraCallback and RelayPayment ----------------------------------------

  function HttpError(code: int): string
  {
    "callback a répondu HTTP " + Grouping.Decimal(code)
  }

  function LocalRelay(w: World, p: Proc, c: Choice): Outcome
  {
    match p
    case CallbackFind(ref, status, reason) =>
      var found := if c.fault then None else FindRef(w.table, ref);
      if found.None? then Go(Done) else Go(CallbackUpdate(found.value, status, reason))
    case CallbackUpdate(row, status, reason) =>
      if c.fault || !AllowedStatus(status) then Go(Done)
      else Outcome(RelayStart(row.(status := status, failureReason := StrPtr(reason))),
                   SetStatus(row.id, status, None, StrPtr(reason)))
    case AdminRelay(id) =>
      var found := if c.fault then None else FindId(w.table, id);
      if found.None? then Go(Done) else Go(RelayStart(found.value))
    case RelayStart(row) =>
      if NoCallback(row) then Go(RelaySave(row.id, RelaySkipped, None)) else Go(RelayApp(row))
    case RelayApp(row) =>
      if c.fault || row.appId !in w.apps
      then Go(RelaySave(row.id, RelayFailed, Some("app introuvable pour la signature du relais")))
      else Go(RelayPost(row))
    case RelayPost(row) =>
      (match c.post
       case CannotBuild => Go(Done)
       case PostError(msg) => Go(RelaySave(row.id, RelayFailed, Some(msg)))
       case Response(code) =>
         if code >= 300 then Go(RelaySave(row.id, RelayFailed, Some(HttpError(code))))
         else Go(RelaySave(row.id, RelayDelivered, None)))
    case RelaySave(id, relay, err) =>
      if c.fault then Go(Done) else Outcome(Done, SaveRelay(id, relay, err))
    case _ => Go(p)
  }

  predicate DepositPoint(p: Proc)
  {
    || p.PayFind? || p.PayCap? || p.TestCap? || p.DepositInsert? || p.DepositReread? || p.DepositSend?
    || p.DepositFail? || p.DepositLink? || p.RefreshSend? || p.RefreshSave?
  }

  predicate PayoutPoint(p: Proc)
  {
    p.PayoutFind? || p.PayoutCap? || p.AdminPayout? || p.PayoutInsert? || p.PayoutSend? || p.Mark?
  }

  predicate RefundPoint(p: Proc)
  {
    p.RefundFind? || p.RefundLoad? || p.AdminRefundLoad? || p.AdminRefundFind? || p.RefundInsert? || p.RefundSend?
  }

  /** One step of one program. */
  function Local(w: World, p: Proc, c: Choice): Outcome
  {
    if DepositPoint(p) then LocalDeposit(w, p, c)
    else if PayoutPoint(p) then LocalPayout(w, p, c)
    else if RefundPoint(p) then LocalRefund(w, p, c)
    else LocalRelay(w, p, c)
  }

  function Exec(w: World, e: Effect): World
  {
    match e
    case Nothing => w
    case Insert(row, admin) =>
      w.(table := w.table + [row],
         h := if admin then w.h.(adminMade := w.h.adminMade + {|w.table|}) else w.h)
    case SetStatus(id, status, provider, reason) =>
      w.(table := UpdateStatus(w.table, id, status, provider, reason),
         h := if id < |w.table| && status == Completed then w.h.(completed := w.h.completed + {id}) else w.h)
    case SetRedirect(id, url) => w.(table := UpdateRedirect(w.table, id, url))
    case Rekey(id, ref, url) => w.(table := UpdateRefAndRedirect(w.table, id, ref, url))
    case SaveRelay(id, relay, err) =>
      w.(table := UpdateRelay(w.table, id, relay, err, w.now),
         h := if id < |w.table| then w.h.(relays := w.h.relays + [RelayRecord(id, relay, err)]) else w.h)
    case Send(call, link, forRow) =>
      var w' := w.(calls := w.calls + [call]);
      if call.DepositCall? && call.ref !in w.deposits then
        w'.(deposits := w.deposits[call.ref := GatewayDeposit(call.amount, link, [], 0)],
            h := w.h.(issuedFor := w.h.issuedFor[call.ref := forRow]))
      else w'
  }

  // --- Runs --------------------------------------------------------------------

  datatype State = State(w: World, procs: seq<Proc>)

  datatype Action =
    | Start(p: Proc)                                          // a request arrives at some process
    | Step(tid: nat, c: Choice)                               // one statement or call of a running request
    | Crash(tid: nat)                                         // its process dies
    | Tick(seconds: nat)                                      // the clock advances
    | CreateApp(appId: string)
    | SetKYCLevel(appId: string, level: KYCLevel)
    | GatewayMoves(ref: string, status: Status)               // a deposit changes status at the gateway
    | Deliver(ref: string, index: nat, reason: string)        // the gateway sends a callback of its history

  const INITIAL := State(World(0, map[], [], [], map[], History({}, {}, {}, [], map[])), [])

  function MoveDeposit(w: World, ref: string, status: Status): World
    requires ref in w.deposits
  {
    var g := w.deposits[ref];
    w.(deposits := w.deposits[ref := g.(history := g.history + [status])])
  }

  function MarkDelivered(w: World, ref: string, index: nat): World
    requires ref in w.deposits
  {
    w.(deposits := w.deposits[ref := w.deposits[ref].(delivered := index)])
  }

  /** An action that is not enabled changes nothing. */
  function Apply(s: State, a: Action): State
  {
    match a
    case Start(p) => if Entry(p) then s.(procs := s.procs + [p]) else s
    case Step(tid, c) =>
      if tid < |s.procs| then
        var o := Local(s.w, s.procs[tid], c);
        State(Exec(s.w, o.effect), s.procs[tid := o.next])
      else s
    case Crash(tid) => if tid < |s.procs| then s.(procs := s.procs[tid := Done]) else s
    case Tick(seconds) => s.(w := s.w.(now := s.w.now + seconds))
    case CreateApp(appId) =>
      if appId in s.w.apps then s else s.(w := s.w.(apps := s.w.apps[appId := KYCNone]))
    case SetKYCLevel(appId, level) =>
      if appId !in s.w.apps then s
      else s.(w := s.w.(apps := s.w.apps[appId := level],
                        h := if level.KYCVerified? then s.w.h.(verified := s.w.h.verified + {appId}) else s.w.h))
    case GatewayMoves(ref, status) =>
      if ref in s.w.deposits then s.(w := MoveDeposit(s.w, ref, status)) else s
    case Deliver(ref, index, reason) =>
      if ref in s.w.deposits && index < |s.w.deposits[ref].history| then
        State(MarkDelivered(s.w, ref, index), s.procs + [CallbackFind(ref, s.w.deposits[ref].history[index], reason)])
      else s
  }

  /** The state after a run, from an empty ledger. */
  function Run(acts: seq<Action>): State
  {
    if |acts| == 0 then INITIAL else Apply(Run(acts[..|acts| - 1]), acts[|acts| - 1])
  }

  lemma {:induction false} RunSnoc(acts: seq<Action>, a: Action)
    ensures Run(acts + [a]) == Apply(Run(acts), a)
  {
    assert (acts + [a])[..|acts|] == acts;
  }
}
