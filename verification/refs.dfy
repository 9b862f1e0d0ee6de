/** Which client ref a deposit row carries in the course of a run, which gateway deposits are the ones their
    rows name, and which steps leave a row with a link that is not that of its ref, however requests overlap. */
module Refs {
  import opened Model
  import opened Table
  import opened Ledger
  import opened Invariant
  import opened Steps
  import opened Runs
  import opened Guarantees
  import opened Serial
  import opened Outcomes

  // --- Refreshes that are saved -----------------------------------------------------------

  /** The action saves a refresh of row `i` under another ref. */
  predicate SavesRefresh(s: State, a: Action, i: nat)
  {
    && a.Step? && !a.c.fault && a.tid < |s.procs| && i < |s.w.table|
    && Rekeys(s.w.table, s.procs[a.tid], i)
  }

  /** Action m of `more`, after `acts`, saves a refresh of row `i`. */
  ghost predicate RefreshSavedAt(acts: seq<Action>, more: seq<Action>, m: nat, i: nat)
  {
    m < |more| && SavesRefresh(Run(acts + more[..m]), more[m], i)
  }

  ghost predicate RefreshSaved(acts: seq<Action>, more: seq<Action>, i: nat)
  {
    exists m: nat :: RefreshSavedAt(acts, more, m, i)
  }

  /** No refresh is about to use `uuid`. */
  ghost predicate NoRefreshHolds(procs: seq<Proc>, uuid: string)
  {
    forall t :: 0 <= t < |procs| && (procs[t].RefreshSend? || procs[t].RefreshSave?) ==> procs[t].uuid != uuid
  }

  predicate DrawsOther(s: State, a: Action, uuid: string)
  {
    a.Step? && a.tid < |s.procs| && Draws(s.procs[a.tid]) ==> a.c.uuid != uuid
  }

  /** UUIDs drawn in `more` are not `uuid`. */
  ghost predicate DrawsOthers(acts: seq<Action>, more: seq<Action>, uuid: string)
  {
    forall m: nat :: m < |more| ==> DrawsOther(Run(acts + more[..m]), more[m], uuid)
  }

  // --- One action -----------------------------------------------------------------------------

  predicate Refreshing(p: Proc, uuid: string)
  {
    (p.RefreshSend? || p.RefreshSave?) && p.uuid == uuid
  }

  lemma {:induction false} RefreshFromDeposit(w: World, p: Proc, c: Choice, uuid: string)
    ensures Refreshing(LocalDeposit(w, p, c).next, uuid) ==> Refreshing(p, uuid) || (Draws(p) && c.uuid == uuid)
  {
  }

  lemma {:induction false} RefreshFromPayout(w: World, p: Proc, c: Choice, uuid: string)
    ensures Refreshing(LocalPayout(w, p, c).next, uuid) ==> Refreshing(p, uuid)
  {
  }

  lemma {:induction false} RefreshFromRefund(w: World, p: Proc, c: Choice, uuid: string)
    ensures Refreshing(LocalRefund(w, p, c).next, uuid) ==> Refreshing(p, uuid)
  {
  }

  lemma {:induction false} RefreshFromRelay(w: World, p: Proc, c: Choice, uuid: string)
    ensures Refreshing(LocalRelay(w, p, c).next, uuid) ==> Refreshing(p, uuid)
  {
  }

  /** A program refreshes under a ref it has drawn. */
  lemma {:induction false} RefreshFrom(w: World, p: Proc, c: Choice, uuid: string)
    ensures Refreshing(Local(w, p, c).next, uuid) ==> Refreshing(p, uuid) || (Draws(p) && c.uuid == uuid)
  {
    RefreshFromDeposit(w, p, c, uuid);
    RefreshFromPayout(w, p, c, uuid);
    RefreshFromRefund(w, p, c, uuid);
    RefreshFromRelay(w, p, c, uuid);
  }

  lemma {:induction false} HoldersOutside(s: State, a: Action, uuid: string)
    requires !a.Step? && NoRefreshHolds(s.procs, uuid)
    ensures NoRefreshHolds(Apply(s, a).procs, uuid)
  {
  }

  lemma {:induction false} HoldersStay(s: State, a: Action, uuid: string)
    requires NoRefreshHolds(s.procs, uuid) && DrawsOther(s, a, uuid)
    ensures NoRefreshHolds(Apply(s, a).procs, uuid)
  {
    if a.Step? {
      if a.tid < |s.procs| { RefreshFrom(s.w, s.procs[a.tid], a.c, uuid); }
    } else {
      HoldersOutside(s, a, uuid);
    }
  }

  /** A step leaves the ref of a deposit row alone unless it saves a refresh of it. */
  lemma {:induction false} RefStep(s: State, a: Action, i: nat)
    requires StateOk(s) && IsDeposit(s.w, i) && a.Step? && a.tid < |s.procs|
    ensures var t' := Apply(s, a).w.table;
            i < |t'| && t'[i].diarraRef == if SavesRefresh(s, a, i) then s.procs[a.tid].uuid else s.w.table[i].diarraRef
  {
    WriteOf(s.w, s.procs[a.tid], a.c);
    WrittenRow(s.w, Local(s.w, s.procs[a.tid], a.c).effect, i);
  }

  /** What an action does to the question whether a deposit row carries `uuid`. */
  lemma {:induction false} CarriesStep(s: State, a: Action, i: nat, uuid: string)
    requires StateOk(s) && IsDeposit(s.w, i) && NoRefreshHolds(s.procs, uuid)
    ensures var t' := Apply(s, a).w.table;
            i < |t'| && (t'[i].diarraRef == uuid <==> s.w.table[i].diarraRef == uuid && !SavesRefresh(s, a, i))
  {
    if a.Step? && a.tid < |s.procs| {
      RefStep(s, a, i);
    } else if !a.Step? {
      OutsideAction(s, a);
    }
  }

  // --- Over runs ------------------------------------------------------------------------------------

  lemma {:induction false} PrefixOfSum(acts: seq<Action>, m: seq<Action>, a: Action)
    ensures acts + (m + [a]) == (acts + m) + [a]
    ensures forall k: nat :: k <= |m| ==> (m + [a])[..k] == m[..k]
  {
  }

  /** Saved in one action more: saved before, or by that action. */
  lemma {:induction false} SavedSnoc(acts: seq<Action>, m: seq<Action>, a: Action, i: nat)
    ensures RefreshSaved(acts, m + [a], i) <==> RefreshSaved(acts, m, i) || SavesRefresh(Run(acts + m), a, i)
  {
    var more := m + [a];
    PrefixOfSum(acts, m, a);
    assert more[..|m|] == m;
    if RefreshSaved(acts, m, i) {
      var k: nat :| RefreshSavedAt(acts, m, k, i);
      assert RefreshSavedAt(acts, more, k, i);
    }
    if SavesRefresh(Run(acts + m), a, i) {
      assert RefreshSavedAt(acts, more, |m|, i);
    }
    if RefreshSaved(acts, more, i) {
      var k: nat :| RefreshSavedAt(acts, more, k, i);
      assert k < |m| ==> RefreshSavedAt(acts, m, k, i);
    }
  }

  lemma {:induction false} DrawsSnoc(acts: seq<Action>, m: seq<Action>, a: Action, uuid: string)
    requires DrawsOthers(acts, m + [a], uuid)
    ensures DrawsOthers(acts, m, uuid) && DrawsOther(Run(acts + m), a, uuid)
  {
    var more := m + [a];
    PrefixOfSum(acts, m, a);
    assert more[..|m|] == m && more[|m|] == a;
    forall k: nat | k < |m| ensures DrawsOther(Run(acts + m[..k]), m[k], uuid) {
      assert more[k] == m[k] && more[..k] == m[..k];
    }
  }

  lemma {:induction false} HoldersInRun(acts: seq<Action>, more: seq<Action>, uuid: string)
    requires NoRefreshHolds(Run(acts).procs, uuid) && DrawsOthers(acts, more, uuid)
    ensures NoRefreshHolds(Run(acts + more).procs, uuid)
  {
    if |more| == 0 {
      assert acts + more == acts;
    } else {
      var m, a := more[..|more| - 1], more[|more| - 1];
      assert more == m + [a];
      PrefixOfSum(acts, m, a);
      DrawsSnoc(acts, m, a, uuid);
      HoldersInRun(acts, m, uuid);
      RunSnoc(acts + m, a);
      HoldersStay(Run(acts + m), a, uuid);
    }
  }

  lemma {:induction false} DepositStays(acts: seq<Action>, more: seq<Action>, i: nat)
    requires IsDeposit(Run(acts).w, i)
    ensures IsDeposit(Run(acts + more).w, i) && KeyOf(Run(acts + more).w.table[i]) == KeyOf(Run(acts).w.table[i])
  {
    RunExtends(acts, more);
    SameReferences(Run(acts).w.table[i], Run(acts + more).w.table[i]);
  }

  /** For a ref that nobody else draws: however a run goes on, a deposit row carries it at the end exactly
      when it did at the start and no refresh of the row has been saved since. */
  lemma {:induction false} RefInRun(acts: seq<Action>, more: seq<Action>, i: nat, uuid: string)
    requires IsDeposit(Run(acts).w, i) && NoRefreshHolds(Run(acts).procs, uuid) && DrawsOthers(acts, more, uuid)
    ensures i < |Run(acts + more).w.table|
    ensures Run(acts + more).w.table[i].diarraRef == uuid
            <==> Run(acts).w.table[i].diarraRef == uuid && !RefreshSaved(acts, more, i)
  {
    if |more| == 0 {
      assert acts + more == acts;
    } else {
      var m, a := more[..|more| - 1], more[|more| - 1];
      assert more == m + [a];
      PrefixOfSum(acts, m, a);
      DrawsSnoc(acts, m, a, uuid);
      RefInRun(acts, m, i, uuid);
      HoldersInRun(acts, m, uuid);
      DepositStays(acts, m, i);
      RunKeeps(acts + m);
      RunSnoc(acts + m, a);
      CarriesStep(Run(acts + m), a, i, uuid);
      SavedSnoc(acts, m, a, i);
    }
  }

  // --- The request that inserts ------------------------------------------------------------------------

  /** Where a request can be after its INSERT of a deposit. */
  predicate Creating(p: Proc, d: DepositReq, uuid: string)
  {
    || p == DepositReread(d, uuid) || (p.DepositSend? && p.d == d && p.uuid == uuid)
    || p.DepositFail? || p.DepositLink? || p.Done?
  }

  lemma {:induction false} CreatingStep(w: World, p: Proc, c: Choice, d: DepositReq, uuid: string)
    requires Creating(p, d, uuid)
    ensures Creating(Local(w, p, c).next, d, uuid) && (p.Done? ==> Local(w, p, c).next.Done?)
  {
  }

  lemma {:induction false} CreatingApply(s: State, a: Action, tid: nat, d: DepositReq, uuid: string)
    requires tid < |s.procs| && Creating(s.procs[tid], d, uuid)
    ensures var s' := Apply(s, a);
            tid < |s'.procs| && Creating(s'.procs[tid], d, uuid) && (s.procs[tid].Done? ==> s'.procs[tid].Done?)
  {
    CreatingStep(s.w, s.procs[tid], if a.Step? then a.c else Choice(false, "", "", Unreached, CannotBuild), d, uuid);
  }

  lemma {:induction false} CreatingInRun(acts: seq<Action>, more: seq<Action>, tid: nat, d: DepositReq, uuid: string)
    requires tid < |Run(acts).procs| && Creating(Run(acts).procs[tid], d, uuid)
    ensures tid < |Run(acts + more).procs| && Creating(Run(acts + more).procs[tid], d, uuid)
    ensures Run(acts).procs[tid].Done? ==> Run(acts + more).procs[tid].Done?
  {
    if |more| == 0 {
      assert acts + more == acts;
    } else {
      var m, a := more[..|more| - 1], more[|more| - 1];
      assert more == m + [a];
      PrefixOfSum(acts, m, a);
      CreatingInRun(acts, m, tid, d, uuid);
      RunSnoc(acts + m, a);
      CreatingApply(Run(acts + m), a, tid, d, uuid);
    }
  }

  /** The INSERT has gone through or met a row. */
  lemma {:induction false} InsertStepped(s: State, tid: nat, c: Choice)
    requires tid < |s.procs| && s.procs[tid].DepositInsert?
    ensures var p := s.procs[tid];
            var s' := Apply(s, Step(tid, c));
            var row := DepositRow(p.d, p.uuid, s.w.now);
            var o := InsertOutcomeOf(s.w.table, s.w.apps.Keys, row, true);
            && |s'.procs| == |s.procs| && Creating(s'.procs[tid], p.d, p.uuid)
            && (forall t :: 0 <= t < |s.procs| && t != tid ==> s'.procs[t] == s.procs[t])
            && (!s'.procs[tid].Done? ==> o.Inserted? || o.Conflict?)
            && (!s'.procs[tid].Done? && o.Inserted? ==> s'.w.table == s.w.table + [row.(id := |s.w.table|)])
            && (!s'.procs[tid].Done? && o.Conflict? ==> s'.w.table == s.w.table)
  {
  }

  /** `uuid` is new when the request has drawn it: no row has it, no refresh is about to use it, and nobody
      draws it again. */
  ghost predicate NewTo(acts: seq<Action>, more: seq<Action>, uuid: string)
  {
    NoRowHas(Run(acts).w.table, uuid) && NoRefreshHolds(Run(acts).procs, uuid) && DrawsOthers(acts, more, uuid)
  }

  lemma {:induction false} RowOfKey(t: Rows, i: nat, k: Key, uuid: string)
    requires Unique(t) && i < |t| && KeyOf(t[i]) == k
    ensures FindKey(t, k) == Some(t[i]) && t[i].id == i && (RowCarries(t, k, uuid) <==> t[i].diarraRef == uuid)
  {
    FindExact(t, i);
  }

  /** The row of a request: the one it inserts, or the one it meets. */
  lemma {:induction false} RowMet(s: State, tid: nat, c: Choice) returns (i: nat)
    requires tid < |s.procs| && s.procs[tid].DepositInsert? && NoRowHas(s.w.table, s.procs[tid].uuid)
    requires !Apply(s, Step(tid, c)).procs[tid].Done?
    ensures var p := s.procs[tid];
            var t' := Apply(s, Step(tid, c)).w.table;
            var k := Key(p.d.appId, p.d.appRef, Deposit);
            && i < |t'| && KeyOf(t'[i]) == k && t'[i].typ.Deposit?
            && (t'[i].diarraRef == p.uuid <==> NoRowFor(s.w.table, k))
  {
    var p := s.procs[tid];
    var row := DepositRow(p.d, p.uuid, s.w.now);
    InsertStepped(s, tid, c);
    InsertExact(s.w.table, s.w.apps.Keys, row, true);
    if InsertOutcomeOf(s.w.table, s.w.apps.Keys, row, true).Inserted? {
      i := |s.w.table|;
    } else {
      i :| 0 <= i < |s.w.table| && KeyOf(s.w.table[i]) == KeyOf(row);
    }
  }

  /** Once a request has its row: however the run goes on, other requests on the same app_ref included, the
      row of its app_ref carries its ref exactly when its INSERT met no row and no refresh of that row has
      been saved since. */
  lemma {:induction false} OwnRefInRun(acts: seq<Action>, tid: nat, c: Choice, more: seq<Action>)
    requires tid < |Run(acts).procs| && Run(acts).procs[tid].DepositInsert?
    requires !Run(acts + [Step(tid, c)]).procs[tid].Done?
    requires NewTo(acts, [Step(tid, c)] + more, Run(acts).procs[tid].uuid)
    ensures var p := Run(acts).procs[tid];
            var k := Key(p.d.appId, p.d.appRef, Deposit);
            var t' := Run(acts + [Step(tid, c)] + more).w.table;
            && FindKey(t', k).Some?
            && (RowCarries(t', k, p.uuid) <==>
                  NoRowFor(Run(acts).w.table, k) && !RefreshSaved(acts + [Step(tid, c)], more, FindKey(t', k).value.id))
  {
    var a, p := Step(tid, c), Run(acts).procs[tid];
    var k := Key(p.d.appId, p.d.appRef, Deposit);
    RunSnoc(acts, a);
    var i := RowMet(Run(acts), tid, c);
    FirstDraw(acts, a, more, p.uuid);
    RefInRun(acts + [a], more, i, p.uuid);
    DepositStays(acts + [a], more, i);
    RunKeeps(acts + [a] + more);
    RowOfKey(Run(acts + [a] + more).w.table, i, k, p.uuid);
  }

  lemma {:induction false} FirstDraw(acts: seq<Action>, a: Action, more: seq<Action>, uuid: string)
    requires NoRefreshHolds(Run(acts).procs, uuid) && DrawsOthers(acts, [a] + more, uuid)
    ensures NoRefreshHolds(Run(acts + [a]).procs, uuid) && DrawsOthers(acts + [a], more, uuid)
  {
    var all := [a] + more;
    assert all[..0] == [] && acts + [] == acts && all[0] == a;
    assert DrawsOther(Run(acts + all[..0]), all[0], uuid);
    RunSnoc(acts, a);
    HoldersStay(Run(acts), a, uuid);
    forall m: nat | m < |more| ensures DrawsOther(Run(acts + [a] + more[..m]), more[m], uuid) {
      assert all[..m + 1] == [a] + more[..m] && all[m + 1] == more[m];
      assert acts + all[..m + 1] == acts + [a] + more[..m];
      assert DrawsOther(Run(acts + all[..m + 1]), all[m + 1], uuid);
    }
  }

  lemma {:induction false} SendStepped(s: State, tid: nat, c: Choice)
    requires tid < |s.procs| && s.procs[tid].DepositSend? && !c.reply.Unreached?
    ensures var p := s.procs[tid];
            var s' := Apply(s, Step(tid, c));
            s'.w.table == s.w.table && s'.w.calls == s.w.calls + [DepositCall(p.uuid, p.d.amount, p.d.country)]
  {
  }

  /** Whatever runs between the INSERT of a `Pay` and its gateway call: the gateway deposit the call creates
      is the one the row of its app_ref names if and only if the INSERT met no row and no refresh of that row
      was saved before the call. */
  lemma {:induction false} OwnDepositExactly(acts: seq<Action>, tid: nat, c: Choice, more: seq<Action>, c2: Choice)
    requires tid < |Run(acts).procs| && Run(acts).procs[tid].DepositInsert?
    requires NewTo(acts, [Step(tid, c)] + more, Run(acts).procs[tid].uuid)
    requires tid < |Run(acts + [Step(tid, c)] + more).procs|
             && Run(acts + [Step(tid, c)] + more).procs[tid].DepositSend?
    requires !c2.reply.Unreached?
    ensures var p := Run(acts).procs[tid];
            var k := Key(p.d.appId, p.d.appRef, Deposit);
            var s := Run(acts + [Step(tid, c)] + more);
            var w' := Apply(s, Step(tid, c2)).w;
            && w'.calls == s.w.calls + [DepositCall(p.uuid, p.d.amount, p.d.country)]
            && FindKey(w'.table, k).Some?
            && (RowCarries(w'.table, k, p.uuid) <==>
                  NoRowFor(Run(acts).w.table, k)
                    && !RefreshSaved(acts + [Step(tid, c)], more, FindKey(w'.table, k).value.id))
  {
    var a, p := Step(tid, c), Run(acts).procs[tid];
    RunSnoc(acts, a);
    InsertStepped(Run(acts), tid, c);
    CreatingInRun(acts + [a], more, tid, p.d, p.uuid);
    OwnRefInRun(acts, tid, c, more);
    SendStepped(Run(acts + [a] + more), tid, c2);
  }

  // --- Links -----------------------------------------------------------------------------------------------

  /** `link` is the one the gateway issued for `ref`. */
  predicate IssuedFor(w: World, ref: string, link: string)
  {
    ref in w.deposits && w.deposits[ref].link == link
  }

  /** Row `i` has no link, or the one issued for its current client ref. */
  predicate OwnLink(w: World, i: nat)
    requires i < |w.table|
  {
    w.table[i].redirect.Some? ==> IssuedFor(w, w.table[i].diarraRef, w.table[i].redirect.value)
  }

  /** The program is about to save, for row `i`, a link that is not that of the ref the row then carries. */
  predicate SavesForeignLink(w: World, p: Proc, i: nat)
    requires i < |w.table|
  {
    || (p.DepositLink? && p.id == i && !IssuedFor(w, w.table[i].diarraRef, p.url))
    || (p.RefreshSave? && p.id == i && !RekeyClash(w.table, i, p.uuid) && !IssuedFor(w, p.uuid, p.url))
  }

  /** The effect of a step on links. */
  predicate WritesLink(p: Proc, c: Choice, e: Effect)
  {
    && (e.SetRedirect? <==> !c.fault && p.DepositLink?)
    && (e.SetRedirect? ==> e.id == p.id && e.url == p.url)
    && (e.Rekey? <==> !c.fault && p.RefreshSave?)
    && (e.Rekey? ==> e.id == p.id && e.ref == p.uuid && e.url == p.url)
  }

  lemma {:induction false} LinkOfDeposit(w: World, p: Proc, c: Choice)
    requires DepositPoint(p)
    ensures WritesLink(p, c, LocalDeposit(w, p, c).effect)
  {
  }

  lemma {:induction false} LinkOfPayout(w: World, p: Proc, c: Choice)
    requires PayoutPoint(p)
    ensures WritesLink(p, c, LocalPayout(w, p, c).effect)
  {
  }

  lemma {:induction false} LinkOfRefund(w: World, p: Proc, c: Choice)
    requires RefundPoint(p)
    ensures WritesLink(p, c, LocalRefund(w, p, c).effect)
  {
  }

  lemma {:induction false} LinkOfRelay(w: World, p: Proc, c: Choice)
    requires !DepositPoint(p) && !PayoutPoint(p) && !RefundPoint(p)
    ensures WritesLink(p, c, LocalRelay(w, p, c).effect)
  {
  }

  lemma {:induction false} LinkOfStep(w: World, p: Proc, c: Choice)
    ensures WritesLink(p, c, Local(w, p, c).effect)
  {
    if DepositPoint(p) { LinkOfDeposit(w, p, c); }
    else if PayoutPoint(p) { LinkOfPayout(w, p, c); }
    else if RefundPoint(p) { LinkOfRefund(w, p, c); }
    else { LinkOfRelay(w, p, c); }
  }

  lemma {:induction false} LinkAfter(w: World, e: Effect, i: nat)
    requires i < |w.table| && OwnLink(w, i)
    ensures var w' := Exec(w, e);
            && i < |w'.table|
            && (!OwnLink(w', i) <==>
                  || (e.SetRedirect? && e.id == i && !IssuedFor(w, w.table[i].diarraRef, e.url))
                  || (e.Rekey? && e.id == i && !RekeyClash(w.table, i, e.ref) && !IssuedFor(w, e.ref, e.url)))
  {
  }

  /** From any state, whatever runs at the same time: a step makes a row show a link that is not its current
      ref's exactly when it saves such a link. */
  lemma {:induction false} LinkBreaksExactly(s: State, tid: nat, c: Choice, i: nat)
    requires tid < |s.procs| && i < |s.w.table| && OwnLink(s.w, i)
    ensures var w' := Apply(s, Step(tid, c)).w;
            i < |w'.table| && (!OwnLink(w', i) <==> !c.fault && SavesForeignLink(s.w, s.procs[tid], i))
  {
    LinkOfStep(s.w, s.procs[tid], c);
    LinkAfter(s.w, Local(s.w, s.procs[tid], c).effect, i);
  }
}
