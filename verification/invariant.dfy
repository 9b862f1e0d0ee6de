/** What every step of every interleaving keeps. */
module Invariant {
  import opened Fees
  import opened Model
  import opened Table
  import opened Ledger

  // --- Rows -------------------------------------------------------------------

  /** Relay tracking of one row. */
  ghost predicate RelayOk(p: Payment)
  {
    && (p.relayStatus.RelayPending? <==> p.relayAttempts == 0)
    && (p.relayStatus.RelayPending? <==> p.relayLastAt.None?)
    && (p.relayStatus.RelayFailed? <==> p.relayLastError.Some?)
    && (0 < p.relayAttempts ==> (p.relayStatus.RelaySkipped? <==> NoCallback(p)))
  }

  /** The money columns of one row. */
  ghost predicate MoneyOk(p: Payment)
  {
    && Fits(p) && 0 < p.amount && p.net.Some? && p.rate.Some? && 0 < p.rate.value
    && p.fee == Commission(p.amount, p.rate.value)
    && p.fee + p.net.value == p.amount
    && (p.typ.Payout? ==> 1 <= p.net.value)
  }

  ghost predicate RowOk(p: Payment)
  {
    && MoneyOk(p) && RelayOk(p) && AllowedStatus(p.status)
    && (p.refundOf.Some? <==> p.typ.Refund?)
    && (p.typ.Payout? ==> p.phone.Some? && p.operator.Some? && p.country.Some?)
  }

  /** The KYC ceiling, with the level the app had in some state of the run. */
  ghost predicate WithinCap(h: History, appId: string, amount: int)
  {
    amount <= MAX_AMOUNT_VERIFIED && (amount <= MAX_AMOUNT_NO_KYC || appId in h.verified)
  }

  /** A refund points to a deposit of the same app, amount and currency that was once completed. */
  ghost predicate LinkOk(w: World, p: Payment)
  {
    p.refundOf.Some? ==>
      && p.refundOf.value < |w.table| && p.refundOf.value < p.id
      && p.refundOf.value in w.h.completed
      && var d := w.table[p.refundOf.value];
      && d.typ.Deposit? && d.appId == p.appId && d.amount == p.amount && d.currency == p.currency
  }

  function CountRelays(rs: seq<RelayRecord>, id: nat): nat
  {
    if |rs| == 0 then 0 else CountRelays(rs[..|rs| - 1], id) + (if rs[|rs| - 1].id == id then 1 else 0)
  }

  function LastRelay(rs: seq<RelayRecord>, id: nat): Option<RelayRecord>
  {
    if |rs| == 0 then None else if rs[|rs| - 1].id == id then Some(rs[|rs| - 1]) else LastRelay(rs[..|rs| - 1], id)
  }

  /** The relay columns of a row are the count and the last of its recorded outcomes. */
  ghost predicate RelaysRecorded(rs: seq<RelayRecord>, p: Payment, id: nat)
  {
    && p.relayAttempts == CountRelays(rs, id)
    && LastRelay(rs, id) == (if p.relayAttempts == 0 then None
                             else Some(RelayRecord(id, p.relayStatus, p.relayLastError)))
  }

  ghost predicate TableOk(w: World)
  {
    && Unique(w.table)
    && (forall i :: 0 <= i < |w.table| ==> RowOk(w.table[i]))
    && (forall i :: 0 <= i < |w.table| ==> w.table[i].appId in w.apps)
    && (forall i :: 0 <= i < |w.table| ==> LinkOk(w, w.table[i]))
  }

  ghost predicate HistoryOk(w: World)
  {
    && (forall i :: 0 <= i < |w.table| && w.table[i].status == Completed ==> i in w.h.completed)
    && (forall i :: 0 <= i < |w.table| && i !in w.h.adminMade ==> WithinCap(w.h, w.table[i].appId, w.table[i].amount))
    && (forall i :: i in w.h.adminMade ==> i < |w.table| && w.table[i].typ.Payout?)
    && (forall a :: a in w.apps && w.apps[a].KYCVerified? ==> a in w.h.verified)
    && (forall i :: 0 <= i < |w.h.relays| ==> w.h.relays[i].id < |w.table|)
    && (forall i :: 0 <= i < |w.table| ==> RelaysRecorded(w.h.relays, w.table[i], i))
  }

  // --- Calls that move money out ------------------------------------------------

  ghost predicate MovesOut(call: Call)
  {
    !call.DepositCall?
  }

  /** The call is the one row i asks for. */
  ghost predicate Matches(t: Rows, i: nat, call: Call)
  {
    && i < |t| && t[i].diarraRef == call.ref
    && (call.PayoutCall? ==>
          && t[i].typ.Payout? && t[i].net == Some(call.amount) && t[i].phone == Some(call.phone)
          && t[i].operator == Some(call.operator) && t[i].country == Some(call.country))
    && (call.RefundCall? ==> t[i].typ.Refund?)
  }

  ghost predicate NotCalled(w: World, ref: string)
  {
    forall c :: 0 <= c < |w.calls| && MovesOut(w.calls[c]) ==> w.calls[c].ref != ref
  }

  ghost predicate CallsOk(w: World)
  {
    && (forall c :: 0 <= c < |w.calls| && MovesOut(w.calls[c]) ==> exists i :: Matches(w.table, i, w.calls[c]))
    && (forall c, d :: 0 <= c < d < |w.calls| && MovesOut(w.calls[c]) && MovesOut(w.calls[d]) ==>
        w.calls[c].ref != w.calls[d].ref)
  }

  ghost predicate WorldOk(w: World)
  {
    TableOk(w) && HistoryOk(w) && CallsOk(w)
  }

  // --- What never goes back -----------------------------------------------------

  ghost predicate Extends(a: World, b: World)
  {
    && |a.table| <= |b.table|
    && (forall i :: 0 <= i < |a.table| ==> Frozen(b.table[i]) == Frozen(a.table[i]))
    && a.calls <= b.calls
    && a.h.completed <= b.h.completed && a.h.verified <= b.h.verified
    && a.h.relays <= b.h.relays
    && a.apps.Keys <= b.apps.Keys
  }

  lemma {:induction false} ExtendsTransitive(a: World, b: World, c: World)
    requires Extends(a, b) && Extends(b, c)
    ensures Extends(a, c)
  {
    forall i | 0 <= i < |a.table| ensures Frozen(c.table[i]) == Frozen(a.table[i]) {
      assert Frozen(b.table[i]) == Frozen(a.table[i]);
    }
  }

  // --- Programs -------------------------------------------------------------------

  ghost predicate SnapshotOk(w: World, p: Payment)
  {
    p.id < |w.table| && Frozen(w.table[p.id]) == Frozen(p)
  }

  ghost predicate RefundableSnapshot(w: World, p: Payment)
  {
    SnapshotOk(w, p) && p.typ.Deposit? && p.id in w.h.completed
  }

  ghost predicate PayoutReqOk(h: History, o: PayoutReq, admin: bool)
  {
    && 0 < o.amount && 0 < Compute(o.amount, o.rate).net
    && (!admin ==> WithinCap(h, o.appId, o.amount))
  }

  ghost predicate DepositReqOk(h: History, d: DepositReq)
  {
    0 < d.amount && WithinCap(h, d.appId, d.amount)
  }

  ghost predicate IsDeposit(w: World, id: nat)
  {
    id < |w.table| && w.table[id].typ.Deposit?
  }

  ghost predicate RelayResultOk(w: World, id: nat, relay: RelayStatus, err: Option<string>)
  {
    && id < |w.table| && !relay.RelayPending?
    && (relay.RelayFailed? <==> err.Some?)
    && (relay.RelaySkipped? <==> NoCallback(w.table[id]))
  }

  /** What the local variables of a program are known to say about the shared world. */
  ghost predicate ProcOk(w: World, p: Proc)
  {
    match p
    case PayCap(d) => 0 < d.amount
    case DepositInsert(d, _) => DepositReqOk(w.h, d)
    case DepositReread(d, _) => DepositReqOk(w.h, d)
    case DepositSend(_, _, id) => IsDeposit(w, id)
    case DepositFail(id) => IsDeposit(w, id)
    case DepositLink(id, _) => IsDeposit(w, id)
    case RefreshSend(id, _, _, _) => IsDeposit(w, id)
    case RefreshSave(id, _, _) => IsDeposit(w, id)
    case PayoutCap(o) => 0 < o.amount
    case PayoutInsert(o, _, admin) => PayoutReqOk(w.h, o, admin)
    case PayoutSend(id, uuid, net, phone, operator, country) =>
      Matches(w.table, id, PayoutCall(uuid, net, phone, operator, country))
    case Mark(id, _, _, _) => id < |w.table| && !w.table[id].typ.Deposit?
    case AdminRefundFind(dep, _) => RefundableSnapshot(w, dep)
    case RefundInsert(dep, _, _, _, _) => RefundableSnapshot(w, dep)
    case RefundSend(id, uuid, depositRef) => Matches(w.table, id, RefundCall(uuid, depositRef))
    case CallbackUpdate(row, _, _) => SnapshotOk(w, row)
    case RelayStart(row) => SnapshotOk(w, row)
    case RelayApp(row) => SnapshotOk(w, row) && !NoCallback(row)
    case RelayPost(row) => SnapshotOk(w, row) && !NoCallback(row)
    case RelaySave(id, relay, err) => RelayResultOk(w, id, relay, err)
    case _ => true
  }

  /** About to make a call that moves money out. */
  ghost predicate Sending(p: Proc)
  {
    p.PayoutSend? || p.RefundSend?
  }

  ghost predicate StateOk(s: State)
  {
    && WorldOk(s.w)
    && (forall t :: 0 <= t < |s.procs| ==> ProcOk(s.w, s.procs[t]))
    && (forall t :: 0 <= t < |s.procs| && Sending(s.procs[t]) ==> NotCalled(s.w, s.procs[t].uuid))
    && (forall t, u :: 0 <= t < u < |s.procs| && Sending(s.procs[t]) && Sending(s.procs[u]) ==>
        s.procs[t].uuid != s.procs[u].uuid)
  }

  lemma {:induction false} ProcStable(a: World, b: World, p: Proc)
    requires Extends(a, b) && ProcOk(a, p)
    ensures ProcOk(b, p)
  {
    if p.DepositSend? || p.DepositFail? || p.DepositLink? || p.RefreshSend? || p.RefreshSave? || p.PayoutSend?
      || p.RefundSend? || p.RelaySave? || p.Mark? {
      assert Frozen(b.table[p.id]) == Frozen(a.table[p.id]);
    }
  }

  // --- One effect at a time -------------------------------------------------------

  ghost predicate EffectOk(w: World, e: Effect)
  {
    match e
    case Insert(row, admin) =>
      && row.id == |w.table| && RowOk(row) && row.appId in w.apps && row.relayAttempts == 0 && !row.status.Completed?
      && (forall i :: 0 <= i < |w.table| ==> KeyOf(w.table[i]) != KeyOf(row) && w.table[i].diarraRef != row.diarraRef)
      && LinkOk(w, row)
      && (if admin then row.typ.Payout? else WithinCap(w.h, row.appId, row.amount))
    case Rekey(id, _, _) => IsDeposit(w, id)
    case SaveRelay(id, relay, err) => RelayResultOk(w, id, relay, err)
    case Send(call, _, _) => MovesOut(call) ==> NotCalled(w, call.ref) && exists i :: Matches(w.table, i, call)
    case _ => true
  }

  lemma {:induction false} MatchStable(a: World, b: World, i: nat, call: Call)
    requires Extends(a, b) && Matches(a.table, i, call) && MovesOut(call)
    ensures Matches(b.table, i, call)
  {
    assert Frozen(b.table[i]) == Frozen(a.table[i]);
  }

  lemma {:induction false} CallsStable(a: World, b: World)
    requires Extends(a, b) && a.calls == b.calls && CallsOk(a)
    ensures CallsOk(b)
  {
    forall c | 0 <= c < |b.calls| && MovesOut(b.calls[c]) ensures exists i :: Matches(b.table, i, b.calls[c]) {
      var i :| Matches(a.table, i, a.calls[c]);
      MatchStable(a, b, i, a.calls[c]);
    }
  }

  lemma {:induction false} CountFresh(rs: seq<RelayRecord>, id: nat)
    requires forall i :: 0 <= i < |rs| ==> rs[i].id < id
    ensures CountRelays(rs, id) == 0 && LastRelay(rs, id) == None
  {
    if 0 < |rs| { CountFresh(rs[..|rs| - 1], id); }
  }

  lemma {:induction false} InsertKeeps(w: World, row: Payment, admin: bool)
    requires WorldOk(w) && EffectOk(w, Insert(row, admin))
    ensures WorldOk(Exec(w, Insert(row, admin))) && Extends(w, Exec(w, Insert(row, admin)))
  {
    var w' := Exec(w, Insert(row, admin));
    CallsStable(w, w');
    InsertKeepsTable(w, row, admin);
    InsertKeepsHistory(w, row, admin);
  }

  lemma {:induction false} InsertKeepsTable(w: World, row: Payment, admin: bool)
    requires WorldOk(w) && EffectOk(w, Insert(row, admin))
    ensures TableOk(Exec(w, Insert(row, admin)))
  {
    var w' := Exec(w, Insert(row, admin));
    forall i | 0 <= i < |w'.table|
      ensures RowOk(w'.table[i]) && w'.table[i].appId in w'.apps && LinkOk(w', w'.table[i])
    {
      if i < |w.table| {
        assert w'.table[i] == w.table[i] && RowOk(w.table[i]) && LinkOk(w, w.table[i]);
      }
    }
    assert Unique(w'.table) by {
      forall i, j | 0 <= i < j < |w'.table|
        ensures KeyOf(w'.table[i]) != KeyOf(w'.table[j]) && w'.table[i].diarraRef != w'.table[j].diarraRef
      {
        assert w'.table[i] == w.table[i];
      }
    }
  }

  lemma {:induction false} InsertKeepsHistory(w: World, row: Payment, admin: bool)
    requires WorldOk(w) && EffectOk(w, Insert(row, admin))
    ensures HistoryOk(Exec(w, Insert(row, admin)))
  {
    var w' := Exec(w, Insert(row, admin));
    CountFresh(w.h.relays, |w.table|);
    forall i | 0 <= i < |w'.table|
      ensures w'.table[i].status == Completed ==> i in w'.h.completed
      ensures i !in w'.h.adminMade ==> WithinCap(w'.h, w'.table[i].appId, w'.table[i].amount)
      ensures i in w'.h.adminMade ==> w'.table[i].typ.Payout?
      ensures RelaysRecorded(w'.h.relays, w'.table[i], i)
    {
      if i < |w.table| {
        assert w'.table[i] == w.table[i];
      } else {
        assert w'.table[i] == row;
      }
    }
  }

  /** An UPDATE touches row `id` only, leaves its frozen part alone and keeps it well formed. */
  ghost predicate OneRowUpdate(w: World, w': World, id: nat)
  {
    && id < |w.table| == |w'.table|
    && (forall i :: 0 <= i < |w.table| && i != id ==> w'.table[i] == w.table[i])
    && Frozen(w'.table[id]) == Frozen(w.table[id])
    && Unique(w'.table)
    && w'.apps == w.apps && w'.calls == w.calls
  }

  lemma {:induction false} UpdateExtends(w: World, w': World, id: nat)
    requires OneRowUpdate(w, w', id)
    requires w.h.completed <= w'.h.completed && w.h.verified <= w'.h.verified && w.h.relays <= w'.h.relays
    ensures Extends(w, w')
  {
  }

  lemma {:induction false} UpdateKeepsTable(w: World, w': World, id: nat)
    requires TableOk(w) && OneRowUpdate(w, w', id)
    requires w.h.completed <= w'.h.completed
    requires AllowedStatus(w'.table[id].status) && RelayOk(w'.table[id])
    ensures TableOk(w')
  {
    RowStays(w.table[id], w'.table[id]);
    forall i | 0 <= i < |w'.table|
      ensures RowOk(w'.table[i]) && w'.table[i].appId in w'.apps && LinkOk(w', w'.table[i])
    {
      assert RowOk(w.table[i]) && LinkOk(w, w.table[i]);
      SameReferences(w.table[id], w'.table[id]);
    }
  }

  lemma {:induction false} RowStays(p: Payment, p': Payment)
    requires RowOk(p) && Frozen(p') == Frozen(p) && AllowedStatus(p'.status) && RelayOk(p')
    ensures RowOk(p')
  {
    SameReferences(p, p');
  }

  lemma {:induction false} SameReferences(p: Payment, p': Payment)
    requires Frozen(p') == Frozen(p)
    ensures p'.id == p.id && p'.appId == p.appId && p'.typ == p.typ && p'.amount == p.amount && p'.fee == p.fee
    ensures p'.net == p.net && p'.rate == p.rate && p'.currency == p.currency && p'.refundOf == p.refundOf
    ensures p'.phone == p.phone && p'.operator == p.operator && p'.country == p.country && p'.callback == p.callback
    ensures KeyOf(p') == KeyOf(p) && (!p.typ.Deposit? ==> p'.diarraRef == p.diarraRef)
    ensures p'.createdAt == p.createdAt
  {
    var f, f' := Frozen(p), Frozen(p');
    assert f.id == p.id && f'.id == p'.id && f.appId == p.appId && f'.appId == p'.appId && f.appRef == p.appRef
           && f'.appRef == p'.appRef;
  }

  lemma {:induction false} UpdateKeepsHistory(w: World, w': World, id: nat)
    requires HistoryOk(w) && OneRowUpdate(w, w', id)
    requires w'.h.adminMade == w.h.adminMade && w'.h.verified == w.h.verified && w.h.completed <= w'.h.completed
    requires w'.table[id].status == Completed ==> id in w'.h.completed
    requires w'.h.relays == w.h.relays
             || w'.h.relays == w.h.relays + [RelayRecord(id, w'.table[id].relayStatus, w'.table[id].relayLastError)]
    requires w'.table[id].relayAttempts == w.table[id].relayAttempts + |w'.h.relays| - |w.h.relays|
    requires w'.h.relays == w.h.relays ==>
             w'.table[id].relayStatus == w.table[id].relayStatus
               && w'.table[id].relayLastError == w.table[id].relayLastError
    ensures HistoryOk(w')
  {
    SameReferences(w.table[id], w'.table[id]);
    if |w.h.relays| < |w'.h.relays| {
      assert w'.h.relays[..|w.h.relays|] == w.h.relays;
    }
  }

  lemma {:induction false} StatusKeeps(w: World, id: nat, status: Status, provider: Option<string>,
                                       reason: Option<string>)
    requires WorldOk(w)
    ensures var w' := Exec(w, SetStatus(id, status, provider, reason)); WorldOk(w') && Extends(w, w')
  {
    var w' := Exec(w, SetStatus(id, status, provider, reason));
    if id < |w.table| && AllowedStatus(status) {
      assert RowOk(w.table[id]);
      UpdatesKeepUnique(w.table, w'.table);
      UpdateExtends(w, w', id);
      UpdateKeepsTable(w, w', id);
      UpdateKeepsHistory(w, w', id);
      CallsStable(w, w');
    }
  }

  lemma {:induction false} RedirectKeeps(w: World, id: nat, url: string)
    requires WorldOk(w)
    ensures var w' := Exec(w, SetRedirect(id, url)); WorldOk(w') && Extends(w, w')
  {
    var w' := Exec(w, SetRedirect(id, url));
    if id < |w.table| {
      assert RowOk(w.table[id]);
      UpdatesKeepUnique(w.table, w'.table);
      UpdateExtends(w, w', id);
      UpdateKeepsTable(w, w', id);
      UpdateKeepsHistory(w, w', id);
      CallsStable(w, w');
    }
  }

  lemma {:induction false} RekeyKeeps(w: World, id: nat, ref: string, url: string)
    requires WorldOk(w) && EffectOk(w, Rekey(id, ref, url))
    ensures var w' := Exec(w, Rekey(id, ref, url)); WorldOk(w') && Extends(w, w')
  {
    var w' := Exec(w, Rekey(id, ref, url));
    if !RekeyClash(w.table, id, ref) {
      assert RowOk(w.table[id]);
      RekeyMovesTheRef(w.table, id, ref, url);
      UpdateExtends(w, w', id);
      UpdateKeepsTable(w, w', id);
      UpdateKeepsHistory(w, w', id);
      CallsStable(w, w');
    }
  }

  lemma {:induction false} RelayKeeps(w: World, id: nat, relay: RelayStatus, err: Option<string>)
    requires WorldOk(w) && EffectOk(w, SaveRelay(id, relay, err))
    ensures var w' := Exec(w, SaveRelay(id, relay, err)); WorldOk(w') && Extends(w, w')
  {
    var w' := Exec(w, SaveRelay(id, relay, err));
    assert RowOk(w.table[id]);
    UpdatesKeepUnique(w.table, w'.table);
    UpdateExtends(w, w', id);
    UpdateKeepsTable(w, w', id);
    UpdateKeepsHistory(w, w', id);
    CallsStable(w, w');
  }

  lemma {:induction false} SendKeepsCalls(w: World, w': World, call: Call)
    requires CallsOk(w) && w'.table == w.table && w'.calls == w.calls + [call]
    requires MovesOut(call) ==> NotCalled(w, call.ref) && exists i :: Matches(w.table, i, call)
    ensures CallsOk(w')
  {
    assert forall c :: 0 <= c < |w.calls| ==> w'.calls[c] == w.calls[c];
  }

  lemma {:induction false} SendKeeps(w: World, call: Call, link: string, forRow: nat)
    requires WorldOk(w) && EffectOk(w, Send(call, link, forRow))
    ensures var w' := Exec(w, Send(call, link, forRow)); WorldOk(w') && Extends(w, w')
  {
    var w' := Exec(w, Send(call, link, forRow));
    SendKeepsCalls(w, w', call);
    SendKeepsRest(w, w');
  }

  lemma {:induction false} SendKeepsRest(w: World, w': World)
    requires TableOk(w) && HistoryOk(w)
    requires w'.table == w.table && w'.apps == w.apps && w.calls <= w'.calls
    requires w'.h.completed == w.h.completed && w'.h.verified == w.h.verified && w'.h.adminMade == w.h.adminMade
             && w'.h.relays == w.h.relays
    ensures TableOk(w') && HistoryOk(w') && Extends(w, w')
  {
    forall i | 0 <= i < |w'.table| ensures LinkOk(w', w'.table[i]) {
      assert LinkOk(w, w.table[i]);
    }
  }

  lemma {:induction false} ExecKeeps(w: World, e: Effect)
    requires WorldOk(w) && EffectOk(w, e)
    ensures WorldOk(Exec(w, e)) && Extends(w, Exec(w, e))
  {
    match e
    case Nothing =>
    case Insert(row, admin) => InsertKeeps(w, row, admin);
    case SetStatus(id, status, provider, reason) => StatusKeeps(w, id, status, provider, reason);
    case SetRedirect(id, url) => RedirectKeeps(w, id, url);
    case Rekey(id, ref, url) => RekeyKeeps(w, id, ref, url);
    case SaveRelay(id, relay, err) => RelayKeeps(w, id, relay, err);
    case Send(call, link, forRow) => SendKeeps(w, call, link, forRow);
  }
}
