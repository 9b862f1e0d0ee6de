/** What a merchant is told: the columns a callback leaves, the messages that are posted, and that they are true. */
module Notify {
  import opened Fees
  import opened Model
  import opened Table
  import opened Ledger
  import opened Invariant
  import opened Steps
  import opened Runs
  import opened Guarantees
  import opened Handler
  import opened HandlerRuns
  import opened Outcomes
  import opened Filing
  import Grouping

  // --- The columns a callback leaves --------------------------------------------------------------

  /** There is a URL to notify. */
  predicate HasUrl(p: Payment)
  {
    match p.callback
    case None => false
    case Some(url) => url != ""
  }

  /** The columns of `p` after a relay: skipped when there is no URL, failed with what went wrong, delivered
      otherwise; as they were when the request could not be built. */
  predicate RelayedBy(p: Payment, p': Payment, post: Post, now: int)
  {
    if HasUrl(p) && post.CannotBuild? then
      && p'.relayStatus == p.relayStatus && p'.relayAttempts == p.relayAttempts
      && p'.relayLastError == p.relayLastError && p'.relayLastAt == p.relayLastAt
    else
      && p'.relayAttempts == p.relayAttempts + 1 && p'.relayLastAt == Some(now)
      && if !HasUrl(p) then p'.relayStatus == RelaySkipped && p'.relayLastError.None?
         else match post
           case CannotBuild => true
           case PostError(msg) => p'.relayStatus == RelayFailed && p'.relayLastError == Some(msg)
           case Response(code) =>
             if code < 300 then p'.relayStatus == RelayDelivered && p'.relayLastError.None?
             else p'.relayStatus == RelayFailed
                  && p'.relayLastError == Some("callback a répondu HTTP " + Grouping.Decimal(code))
  }

  /** The columns of `p` after a callback. */
  predicate ToldOf(p: Payment, p': Payment, status: Status, detail: string, post: Post, now: int)
  {
    && p'.status == status && Stored(p'.failureReason, detail) && RelayedBy(p, p', post, now)
    && p' == p.(status := p'.status, failureReason := p'.failureReason, relayStatus := p'.relayStatus,
                relayAttempts := p'.relayAttempts, relayLastError := p'.relayLastError, relayLastAt := p'.relayLastAt)
  }

  /** No statement of the first n fails. */
  predicate NoFault(env: seq<Choice>, n: nat)
    requires n <= |env|
  {
    forall k :: 0 <= k < n ==> !env[k].fault
  }

  /** What is recorded of the relay of row `p`. */
  function ResultFor(p: Payment, post: Post): Option<Relayed>
  {
    if HasUrl(p) then PostResult(post) else Some(Relayed(RelaySkipped, None))
  }

  lemma {:induction false} RelayOf(w: World, p: Payment, env: seq<Choice>, i: nat)
    requires i + 4 <= |env| && NoFault(env, i + 4) && p.appId in w.apps
    ensures Serve(w, RelayStart(p), env, i) == Written(w, p.id, ResultFor(p, env[i + 2].post), false)
  {
    RelayServed(w, p, env, i);
  }

  lemma {:induction false} WrittenRow(w: World, p: Payment, q: Payment, id: nat, post: Post)
    requires id < |w.table| && w.table[id] == p && q.callback == p.callback
    ensures var w' := Written(w, id, ResultFor(q, post), false);
            && |w'.table| == |w.table| && (forall x :: 0 <= x < |w.table| && x != id ==> w'.table[x] == w.table[x])
            && RelayedBy(p, w'.table[id], post, w.now)
            && w'.table[id] == p.(relayStatus := w'.table[id].relayStatus, relayAttempts := w'.table[id].relayAttempts,
                                  relayLastError := w'.table[id].relayLastError,
                                  relayLastAt := w'.table[id].relayLastAt)
  {
  }

  lemma {:induction false} WrittenCalls(w: World, id: nat, r: Option<Relayed>)
    ensures Written(w, id, r, false).calls == w.calls
  {
  }

  lemma {:induction false} CallbackUpdates(w: World, i: nat, status: Status, detail: string, env: seq<Choice>)
    requires 2 <= |env| && !env[0].fault && !env[1].fault && Unique(w.table) && i < |w.table| && OneOfFive(status)
    ensures Serve(w, CallbackFind(w.table[i].diarraRef, status, detail), env, 0) ==
            Serve(Exec(w, SetStatus(i, status, None, StrPtr(detail))),
                  RelayStart(w.table[i].(status := status, failureReason := StrPtr(detail))), env, 2)
    ensures w.table[i].id == i
  {
    FindExact(w.table, i);
    ServeCallback(w, w.table[i].diarraRef, status, detail, env);
    ServeCallbackUpdate(w, w.table[i], status, detail, env);
  }

  lemma {:induction false} StatusSet(w: World, i: nat, status: Status, detail: string)
    requires i < |w.table| && OneOfFive(status)
    ensures var w1 := Exec(w, SetStatus(i, status, None, StrPtr(detail)));
            && |w1.table| == |w.table| && (forall x :: 0 <= x < |w.table| && x != i ==> w1.table[x] == w.table[x])
            && w1.table[i] == w.table[i].(status := status, failureReason := StrPtr(detail))
            && w1.calls == w.calls && w1.now == w.now && w1.apps == w.apps
  {
  }

  lemma {:induction false} CallbackServed(w: World, w1: World, i: nat, q: Payment, status: Status, detail: string,
                                          env: seq<Choice>)
    requires 6 <= |env| && NoFault(env, 6) && Unique(w.table) && i < |w.table| && OneOfFive(status)
    requires w1 == Exec(w, SetStatus(i, status, None, StrPtr(detail))) && q.appId in w1.apps
    requires q == w.table[i].(status := status, failureReason := StrPtr(detail))
    ensures Serve(w, CallbackFind(w.table[i].diarraRef, status, detail), env, 0) ==
            Written(w1, i, ResultFor(q, env[4].post), false)
  {
    assert !env[0].fault && !env[1].fault;
    CallbackUpdates(w, i, status, detail, env);
    assert q.id == i;
    RelayOf(w1, q, env, 2);
  }

  lemma {:induction false} ToldRow(p: Payment, p1: Payment, p': Payment, status: Status, detail: string, post: Post,
                                   now: int)
    requires p1 == p.(status := status, failureReason := StrPtr(detail))
    requires RelayedBy(p1, p', post, now)
    requires p' == p1.(relayStatus := p'.relayStatus, relayAttempts := p'.relayAttempts,
                       relayLastError := p'.relayLastError, relayLastAt := p'.relayLastAt)
    ensures ToldOf(p, p', status, detail, post, now)
  {
  }

  /** The gateway's callback on the ref of row i, when nothing is lost and the app is there: the row gets the
      status and reason, and the relay is recorded as what became of it; no other row changes and nobody else
      is called. */
  lemma {:induction false} CallbackRecorded(w: World, i: nat, status: Status, detail: string, env: seq<Choice>)
    requires 6 <= |env| && NoFault(env, 6) && Unique(w.table) && i < |w.table| && w.table[i].appId in w.apps
    requires OneOfFive(status)
    ensures var w' := Serve(w, CallbackFind(w.table[i].diarraRef, status, detail), env, 0);
            && |w'.table| == |w.table| && ToldOf(w.table[i], w'.table[i], status, detail, env[4].post, w.now)
            && (forall x :: 0 <= x < |w.table| && x != i ==> w'.table[x] == w.table[x]) && w'.calls == w.calls
  {
    var p := w.table[i];
    var w1 := Exec(w, SetStatus(i, status, None, StrPtr(detail)));
    var q := p.(status := status, failureReason := StrPtr(detail));
    var w' := Written(w1, i, ResultFor(q, env[4].post), false);
    StatusSet(w, i, status, detail);
    CallbackServed(w, w1, i, q, status, detail, env);
    WrittenRow(w1, w1.table[i], q, i, env[4].post);
    WrittenCalls(w1, i, ResultFor(q, env[4].post));
    ToldRow(p, w1.table[i], w'.table[i], status, detail, env[4].post, w.now);
  }

  // --- From the request to the merchant ---------------------------------------------------------------

  lemma {:induction false} PayRowStays(acts: seq<Action>, d: DepositReq, env: seq<Choice>, more: seq<Action>)
    requires 6 <= |env| && Unnamed(Run(acts).w.table, d.appId, d.appRef, Deposit)
    requires PayAdmitted(Run(acts).w, d, env[1].uuid, env[1].fault, env[2].fault)
    ensures var t := Run(acts + Request(acts, PayFind(d), env) + more).w.table;
            var i := |Run(acts).w.table|;
            i < |t| && t[i].appId == d.appId && Stored(t[i].callback, d.callback)
  {
    var served := acts + Request(acts, PayFind(d), env);
    var i := |Run(acts).w.table|;
    PayFiled(Run(acts).w, d, env);
    RequestRuns(acts, PayFind(d), env);
    RunExtends(served, more);
    SameReferences(Run(served).w.table[i], Run(served + more).w.table[i]);
  }

  /** From a `Pay` to the merchant: the deposit an admitted request has filed, whatever ran since, refreshes and
      earlier callbacks included. When the gateway calls back on its current ref and nothing is lost, the row
      gets the status; and the relay is skipped if and only if the request named no callback URL, otherwise
      recorded as what became of the POST. */
  lemma {:induction false} PayIsNotified(acts: seq<Action>, d: DepositReq, env: seq<Choice>, more: seq<Action>,
                                         status: Status, detail: string, env2: seq<Choice>)
    requires 6 <= |env| && Unnamed(Run(acts).w.table, d.appId, d.appRef, Deposit)
    requires PayAdmitted(Run(acts).w, d, env[1].uuid, env[1].fault, env[2].fault)
    requires 6 <= |env2| && NoFault(env2, 6) && OneOfFive(status)
    ensures var w := Run(acts + Request(acts, PayFind(d), env) + more).w;
            var i := |Run(acts).w.table|;
            && i < |w.table|
            && var w' := Serve(w, CallbackFind(w.table[i].diarraRef, status, detail), env2, 0);
            && |w'.table| == |w.table| && ToldOf(w.table[i], w'.table[i], status, detail, env2[4].post, w.now)
            && (HasUrl(w.table[i]) <==> d.callback != "")
            && (d.callback != "" && !env2[4].post.CannotBuild? ==> !w'.table[i].relayStatus.RelaySkipped?)
            && (d.callback == "" ==> w'.table[i].relayStatus.RelaySkipped?)
  {
    var all := acts + Request(acts, PayFind(d), env) + more;
    var w, i := Run(all).w, |Run(acts).w.table|;
    PayRowStays(acts, d, env, more);
    RunKeeps(all);
    CallbackRecorded(w, i, status, detail, env2);
    NotSkipped(w.table[i], Serve(w, CallbackFind(w.table[i].diarraRef, status, detail), env2, 0).table[i], d.callback,
               env2[4].post, w.now);
  }

  lemma {:induction false} NotSkipped(p: Payment, p': Payment, url: string, post: Post, now: int)
    requires Stored(p.callback, url) && RelayedBy(p, p', post, now)
    ensures HasUrl(p) <==> url != ""
    ensures url != "" && !post.CannotBuild? ==> !p'.relayStatus.RelaySkipped?
    ensures url == "" ==> p'.relayStatus.RelaySkipped?
  {
  }

  // --- Messages -------------------------------------------------------------------------------------------

  /** The body of a relay and where it goes. */
  datatype Message = Message(url: string, appRef: string, status: Status, amount: GoInt, reason: Option<string>)

  /** What a step posts: nothing, unless it stands at the POST and the request can be built. */
  function Posted(p: Proc, c: Choice): (m: Option<Message>)
  {
    if p.RelayPost? && p.p.callback.Some? && !c.post.CannotBuild? then
      Some(Message(p.p.callback.value, p.p.appRef, p.p.status, p.p.amount, p.p.failureReason))
    else None
  }

  /** A program that holds the payment it is going to tell of. */
  predicate Telling(p: Proc)
  {
    p.RelayStart? || p.RelayApp? || p.RelayPost?
  }

  /** After the first m actions the row of `p` said what `p` says. */
  ghost predicate SaidSo(acts: seq<Action>, m: nat, p: Payment)
  {
    && m <= |acts| && p.id < |Run(acts[..m]).w.table|
    && var row := Run(acts[..m]).w.table[p.id];
    && row.status == p.status && row.failureReason == p.failureReason && Frozen(row) == Frozen(p)
  }

  ghost predicate WasSaid(acts: seq<Action>, p: Payment)
  {
    exists m: nat :: SaidSo(acts, m, p)
  }

  lemma {:induction false} StillSaid(acts: seq<Action>, a: Action, p: Payment)
    requires WasSaid(acts, p)
    ensures WasSaid(acts + [a], p)
  {
    var m: nat :| SaidSo(acts, m, p);
    assert (acts + [a])[..m] == acts[..m];
    assert SaidSo(acts + [a], m, p);
  }

  /** The payment comes from the row as it is now, or as the step leaves it, or was there before. */
  lemma {:induction false} TellsOf(w: World, p: Proc, c: Choice)
    requires ProcOk(w, p) && Unique(w.table) && Telling(LocalRelay(w, p, c).next)
    requires !DepositPoint(p) && !PayoutPoint(p) && !RefundPoint(p)
    ensures var q := LocalRelay(w, p, c).next.p;
            || (Telling(p) && q == p.p)
            || (p.AdminRelay? && q.id < |w.table| && q == w.table[q.id] && LocalRelay(w, p, c).effect.Nothing?)
            || (p.CallbackUpdate? && q.id < |w.table| && Frozen(w.table[q.id]) == Frozen(q) && OneOfFive(q.status)
                && LocalRelay(w, p, c).effect == SetStatus(q.id, q.status, None, q.failureReason))
  {
  }

  lemma {:induction false} DepositTellsNothing(w: World, p: Proc, c: Choice)
    requires DepositPoint(p)
    ensures !Telling(LocalDeposit(w, p, c).next)
  {
  }

  lemma {:induction false} PayoutTellsNothing(w: World, p: Proc, c: Choice)
    requires PayoutPoint(p)
    ensures !Telling(LocalPayout(w, p, c).next)
  {
  }

  lemma {:induction false} RefundTellsNothing(w: World, p: Proc, c: Choice)
    requires RefundPoint(p)
    ensures !Telling(LocalRefund(w, p, c).next)
  {
  }

  lemma {:induction false} OthersTellNothing(w: World, p: Proc, c: Choice)
    requires DepositPoint(p) || PayoutPoint(p) || RefundPoint(p)
    ensures !Telling(Local(w, p, c).next)
  {
    if DepositPoint(p) { DepositTellsNothing(w, p, c); }
    else if PayoutPoint(p) { PayoutTellsNothing(w, p, c); }
    else { RefundTellsNothing(w, p, c); }
  }

  lemma {:induction false} NowSaid(acts: seq<Action>, p: Payment)
    requires SaidSo(acts, |acts|, p)
    ensures WasSaid(acts, p)
  {
  }

  lemma {:induction false} TellingStep(acts: seq<Action>, tid: nat, c: Choice)
    requires tid < |Run(acts).procs| && Telling(Local(Run(acts).w, Run(acts).procs[tid], c).next)
    requires Telling(Run(acts).procs[tid]) ==> WasSaid(acts, Run(acts).procs[tid].p)
    ensures WasSaid(acts + [Step(tid, c)], Local(Run(acts).w, Run(acts).procs[tid], c).next.p)
  {
    var s, a := Run(acts), Step(tid, c);
    var p := s.procs[tid];
    RunKeeps(acts);
    if DepositPoint(p) || PayoutPoint(p) || RefundPoint(p) { OthersTellNothing(s.w, p, c); }
    TellsOf(s.w, p, c);
    var q := Local(s.w, p, c).next.p;
    if Telling(p) && q == p.p {
      StillSaid(acts, a, q);
    } else {
      RunSnoc(acts, a);
      assert (acts + [a])[..|acts| + 1] == acts + [a];
      SaidByStep(s.w, Local(s.w, p, c).effect, q);
      NowSaid(acts + [a], q);
    }
  }

  /** Nothing is written, or just what `q` says. */
  lemma {:induction false} SaidByStep(w: World, e: Effect, q: Payment)
    requires q.id < |w.table| && Frozen(w.table[q.id]) == Frozen(q)
    requires (e.Nothing? && w.table[q.id] == q)
             || (OneOfFive(q.status) && e == SetStatus(q.id, q.status, None, q.failureReason))
    ensures var t' := Exec(w, e).table;
            q.id < |t'| && t'[q.id].status == q.status && t'[q.id].failureReason == q.failureReason
            && Frozen(t'[q.id]) == Frozen(q)
  {
  }

  lemma {:induction false} TellersSaid(acts: seq<Action>, tid: nat)
    requires tid < |Run(acts).procs| && Telling(Run(acts).procs[tid])
    ensures WasSaid(acts, Run(acts).procs[tid].p)
  {
    var before, a := acts[..|acts| - 1], acts[|acts| - 1];
    assert before + [a] == acts;
    var s := Run(before);
    RunSnoc(before, a);
    if a.Step? && a.tid == tid {
      if tid < |s.procs| && Telling(s.procs[tid]) { TellersSaid(before, tid); }
      TellingStep(before, tid, a.c);
    } else {
      TellerStood(s, a, tid);
      TellersSaid(before, tid);
      StillSaid(before, a, s.procs[tid].p);
    }
  }

  lemma {:induction false} TellerStood(s: State, a: Action, tid: nat)
    requires tid < |Apply(s, a).procs| && Telling(Apply(s, a).procs[tid]) && !(a.Step? && a.tid == tid)
    ensures tid < |s.procs| && s.procs[tid] == Apply(s, a).procs[tid]
  {
  }

  /** Whatever runs at the same time: a message posted to a merchant goes to the URL of a row, under its name,
      with its amount, and says a status and a reason that the row had in some state of the run. */
  lemma {:induction false} MessagesAreTrue(acts: seq<Action>, tid: nat, c: Choice)
    requires tid < |Run(acts).procs| && Posted(Run(acts).procs[tid], c).Some?
    ensures var m := Posted(Run(acts).procs[tid], c).value;
            exists k: nat, id: nat :: SaysOf(acts, k, id, m)
  {
    var p := Run(acts).procs[tid].p;
    TellersSaid(acts, tid);
    var k: nat :| SaidSo(acts, k, p);
    RowSays(Run(acts[..k]).w.table[p.id], p);
    assert SaysOf(acts, k, p.id, Posted(Run(acts).procs[tid], c).value);
  }

  /** After the first k actions row `id` is as the message says. */
  ghost predicate SaysOf(acts: seq<Action>, k: nat, id: nat, m: Message)
  {
    && k <= |acts| && id < |Run(acts[..k]).w.table|
    && var row := Run(acts[..k]).w.table[id];
    && row.status == m.status && row.failureReason == m.reason && row.amount == m.amount && row.appRef == m.appRef
    && row.callback == Some(m.url)
  }

  lemma {:induction false} RowSays(row: Payment, p: Payment)
    requires Frozen(row) == Frozen(p)
    ensures row.amount == p.amount && row.appRef == p.appRef && row.callback == p.callback
  {
    SameReferences(p, row);
    assert Frozen(row).appRef == row.appRef && Frozen(p).appRef == p.appRef;
  }

  // --- The message of a callback -------------------------------------------------------------------------

  /** The messages a program posts when it runs alone. */
  function Posts(w: World, p: Proc, env: seq<Choice>, i: nat): seq<Message>
    requires i <= |env|
    decreases |env| - i
  {
    if p.Done? || i == |env| then []
    else
      var o := Local(w, p, env[i]);
      (match Posted(p, env[i]) case None => [] case Some(m) => [m]) + Posts(Exec(w, o.effect), o.next, env, i + 1)
  }

  lemma {:induction false} PostsLater(w: World, p: Proc, env: seq<Choice>, i: nat, o: Outcome)
    requires i < |env| && !p.Done? && !p.RelayPost? && o == Local(w, p, env[i])
    ensures Posts(w, p, env, i) == Posts(Exec(w, o.effect), o.next, env, i + 1)
  {
  }

  lemma {:induction false} NothingLeft(w: World, p: Proc, env: seq<Choice>, i: nat)
    requires i < |env| && (p.Done? || p.RelaySave?)
    ensures Posts(w, p, env, i) == []
  {
    if p.RelaySave? { PostsLater(w, p, env, i, Local(w, p, env[i])); }
  }

  lemma {:induction false} PostsAt(w: World, q: Payment, env: seq<Choice>, i: nat)
    requires i + 2 <= |env| && HasUrl(q)
    ensures Posts(w, RelayPost(q), env, i) ==
            if env[i].post.CannotBuild? then []
            else [Message(q.callback.value, q.appRef, q.status, q.amount, q.failureReason)]
  {
    var o := Local(w, RelayPost(q), env[i]);
    NothingLeft(w, o.next, env, i + 1);
  }

  lemma {:induction false} RelayPosts(w: World, q: Payment, env: seq<Choice>, i: nat)
    requires i + 4 <= |env| && !env[i + 1].fault && q.appId in w.apps
    ensures Posts(w, RelayStart(q), env, i) ==
            if !HasUrl(q) || env[i + 2].post.CannotBuild? then []
            else [Message(q.callback.value, q.appRef, q.status, q.amount, q.failureReason)]
  {
    if HasUrl(q) {
      PostsLater(w, RelayStart(q), env, i, Go(RelayApp(q)));
      PostsLater(w, RelayApp(q), env, i + 1, Go(RelayPost(q)));
      PostsAt(w, q, env, i + 2);
    } else {
      PostsLater(w, RelayStart(q), env, i, Go(RelaySave(q.id, RelaySkipped, None)));
      NothingLeft(w, RelaySave(q.id, RelaySkipped, None), env, i + 1);
    }
  }

  lemma {:induction false} UpdateLeads(w: World, p: Payment, status: Status, detail: string, env: seq<Choice>)
    requires 2 <= |env| && !env[1].fault && OneOfFive(status)
    ensures Posts(w, CallbackUpdate(p, status, detail), env, 1) ==
            Posts(Exec(w, SetStatus(p.id, status, None, StrPtr(detail))),
                  RelayStart(p.(status := status, failureReason := StrPtr(detail))), env, 2)
  {
    PostsLater(w, CallbackUpdate(p, status, detail), env, 1,
               Outcome(RelayStart(p.(status := status, failureReason := StrPtr(detail))),
                       SetStatus(p.id, status, None, StrPtr(detail))));
  }

  lemma {:induction false} FindLeads(w: World, p: Payment, status: Status, detail: string, env: seq<Choice>)
    requires 2 <= |env| && !env[0].fault && FindRef(w.table, p.diarraRef) == Some(p)
    ensures Posts(w, CallbackFind(p.diarraRef, status, detail), env, 0) ==
            Posts(w, CallbackUpdate(p, status, detail), env, 1)
  {
    PostsLater(w, CallbackFind(p.diarraRef, status, detail), env, 0, Go(CallbackUpdate(p, status, detail)));
  }

  lemma {:induction false} TellsStatus(w1: World, q: Payment, p: Payment, status: Status, detail: string,
                                       env: seq<Choice>)
    requires 6 <= |env| && !env[3].fault && p.appId in w1.apps
    requires q == p.(status := status, failureReason := StrPtr(detail))
    ensures Posts(w1, RelayStart(q), env, 2) ==
            if !HasUrl(p) || env[4].post.CannotBuild? then []
            else [Message(p.callback.value, p.appRef, status, p.amount, if detail == "" then None else Some(detail))]
  {
    RelayPosts(w1, q, env, 2);
  }

  /** What the merchant is told of a callback: to the row's URL, when there is one, exactly one message with the
      row's name and amount and the status and reason the gateway reported. */
  lemma {:induction false} CallbackPosts(w: World, i: nat, status: Status, detail: string, env: seq<Choice>)
    requires 6 <= |env| && !env[0].fault && !env[1].fault && !env[3].fault
    requires Unique(w.table) && i < |w.table| && w.table[i].appId in w.apps && OneOfFive(status)
    ensures var p := w.table[i];
            Posts(w, CallbackFind(p.diarraRef, status, detail), env, 0) ==
            if !HasUrl(p) || env[4].post.CannotBuild? then []
            else [Message(p.callback.value, p.appRef, status, p.amount, if detail == "" then None else Some(detail))]
  {
    var p := w.table[i];
    FindExact(w.table, i);
    FindLeads(w, p, status, detail, env);
    UpdateLeads(w, p, status, detail, env);
    StatusSet(w, i, status, detail);
    TellsStatus(Exec(w, SetStatus(i, status, None, StrPtr(detail))),
                p.(status := status, failureReason := StrPtr(detail)), p, status, detail, env);
  }

  // --- The admin's re-send ----------------------------------------------------------------------------

  lemma {:induction false} ResendLeads(w: World, i: nat, env: seq<Choice>)
    requires 1 <= |env| && !env[0].fault && i < |w.table|
    ensures Serve(w, AdminRelay(i), env, 0) == Serve(w, RelayStart(w.table[i]), env, 1)
    ensures Posts(w, AdminRelay(i), env, 0) == Posts(w, RelayStart(w.table[i]), env, 1)
  {
    ServeAs(w, AdminRelay(i), env, 0, Go(RelayStart(w.table[i])));
    PostsLater(w, AdminRelay(i), env, 0, Go(RelayStart(w.table[i])));
  }

  lemma {:induction false} ResendServed(w: World, i: nat, env: seq<Choice>)
    requires 5 <= |env| && NoFault(env, 5) && i < |w.table| && w.table[i].id == i && w.table[i].appId in w.apps
    ensures Serve(w, AdminRelay(i), env, 0) == Written(w, i, ResultFor(w.table[i], env[3].post), false)
  {
    assert !env[0].fault;
    ResendLeads(w, i, env);
    RelayOf(w, w.table[i], env, 1);
  }

  /** Sending a relay again records what became of it: one attempt more, and nothing but the relay columns of
      this row changes. */
  lemma {:induction false} ResendRecorded(w: World, i: nat, env: seq<Choice>)
    requires 5 <= |env| && NoFault(env, 5) && i < |w.table| && w.table[i].id == i && w.table[i].appId in w.apps
    ensures var p := w.table[i];
            var w' := Serve(w, AdminRelay(i), env, 0);
            && |w'.table| == |w.table| && (forall x :: 0 <= x < |w.table| && x != i ==> w'.table[x] == w.table[x])
            && RelayedBy(p, w'.table[i], env[3].post, w.now)
            && w'.table[i].status == p.status && w'.table[i].failureReason == p.failureReason && w'.calls == w.calls
  {
    ResendServed(w, i, env);
    WrittenRow(w, w.table[i], w.table[i], i, env[3].post);
    WrittenCalls(w, i, ResultFor(w.table[i], env[3].post));
  }

  /** And it posts the row as it is now, when it has a URL. */
  lemma {:induction false} ResendPosts(w: World, i: nat, env: seq<Choice>)
    requires 5 <= |env| && !env[0].fault && !env[2].fault && i < |w.table| && w.table[i].appId in w.apps
    ensures var p := w.table[i];
            Posts(w, AdminRelay(i), env, 0) ==
            if !HasUrl(p) || env[3].post.CannotBuild? then []
            else [Message(p.callback.value, p.appRef, p.status, p.amount, p.failureReason)]
  {
    ResendLeads(w, i, env);
    RelayPosts(w, w.table[i], env, 1);
  }
}
