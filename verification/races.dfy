/** Runs that the serial assumptions rule out, and what goes wrong in them. */
module Races {
  import opened Fees
  import opened Model
  import opened Table
  import opened Ledger
  import opened Invariant
  import opened Runs
  import opened Serial
  import opened Outcomes
  import opened Refs

  /** One more action of a run whose state is known. */
  lemma {:induction false} StepTo(acts: seq<Action>, a: Action, s: State, s': State)
    requires Run(acts) == s && Apply(s, a) == s'
    ensures Run(acts + [a]) == s'
  {
    RunSnoc(acts, a);
  }

  const FIRST := DepositReq("shop", "order-1", 1000, "SEN", "", 600)
  const SECOND := DepositReq("shop", "order-1", 2000, "SEN", "", 600)

  const NO_HISTORY := History({}, {}, {}, [], map[])

  function Draw(uuid: string): Choice
  {
    Choice(false, uuid, "", Unreached, CannotBuild)
  }

  function Gets(reply: Reply): Choice
  {
    Choice(false, "", "", reply, CannotBuild)
  }

  /** Row 0 of both stories, under its client ref "r1". */
  function OrderRow(status: Status, reason: Option<string>, redirect: Option<string>): Payment
  {
    DepositRow(FIRST, "r1", 0).(status := status, failureReason := reason, redirect := redirect)
  }

  lemma {:induction false} OrderRowFits(t: Rows, apps: set<string>)
    requires "shop" in apps
    ensures InsertOutcomeOf([], apps, DepositRow(FIRST, "r1", 0), true) == Inserted(OrderRow(Pending, None, None))
    ensures |t| == 1 && t[0] == OrderRow(Pending, None, None) ==>
              InsertOutcomeOf(t, apps, DepositRow(SECOND, "r2", 0), true) == Conflict
    ensures OrderRow(Pending, None, None).amount == 1000
  {
    ComputeIsCommission(1000, 600);
    ComputeIsCommission(2000, 600);
    InsertExact([], apps, DepositRow(FIRST, "r1", 0), true);
    InsertExact(t, apps, DepositRow(SECOND, "r2", 0), true);
    if |t| == 1 && t[0] == OrderRow(Pending, None, None) {
      assert KeyOf(t[0]) == KeyOf(DepositRow(SECOND, "r2", 0));
    }
  }

  // --- Two Pay requests for one app_ref -----------------------------------------------------

  const SHOP := World(0, map["shop" := KYCNone], [], [], map[], NO_HISTORY)

  const BOTH_LOOK := [CreateApp("shop"), Start(PayFind(FIRST)), Start(PayFind(SECOND)), Step(0, Draw("")),
                      Step(1, Draw(""))]
  const BOTH_CAP := BOTH_LOOK + [Step(0, Draw("r1"))] + [Step(1, Draw("r2"))]
  const BOTH_INSERT := BOTH_CAP + [Step(0, Draw(""))] + [Step(1, Draw(""))]
  const REREAD := BOTH_INSERT + [Step(1, Draw(""))]
  const FIRST_SENT := REREAD + [Step(0, Gets(Answer(Pending, "", "link-1")))] + [Step(0, Draw(""))]
  const SECOND_SENT := FIRST_SENT + [Step(1, Gets(Answer(Pending, "", "link-2")))] + [Step(1, Draw(""))]

  lemma {:induction false} AfterArrivals()
    ensures Run([CreateApp("shop"), Start(PayFind(FIRST)), Start(PayFind(SECOND))])
            == State(SHOP, [PayFind(FIRST), PayFind(SECOND)])
  {
    var a1 := [CreateApp("shop")];
    assert [] + [CreateApp("shop")] == a1;
    RunSnoc([], CreateApp("shop"));
    assert Run(a1) == State(SHOP, []);
    RunSnoc(a1, Start(PayFind(FIRST)));
    RunSnoc(a1 + [Start(PayFind(FIRST))], Start(PayFind(SECOND)));
    assert a1 + [Start(PayFind(FIRST))] + [Start(PayFind(SECOND))]
           == [CreateApp("shop"), Start(PayFind(FIRST)), Start(PayFind(SECOND))];
  }

  /** On an empty table `PayFind` goes on to the cap check. */
  lemma {:induction false} LookMisses(d: DepositReq)
    requires d.appRef != "" && 0 < d.amount && d.country != ""
    ensures Local(SHOP, PayFind(d), Draw("")) == Go(PayCap(d))
  {
  }

  lemma {:induction false} AfterLook()
    ensures Run(BOTH_LOOK) == State(SHOP, [PayCap(FIRST), PayCap(SECOND)])
  {
    var a3 := [CreateApp("shop"), Start(PayFind(FIRST)), Start(PayFind(SECOND))];
    AfterArrivals();
    LookMisses(FIRST);
    LookMisses(SECOND);
    RunSnoc(a3, Step(0, Draw("")));
    RunSnoc(a3 + [Step(0, Draw(""))], Step(1, Draw("")));
    assert BOTH_LOOK == a3 + [Step(0, Draw(""))] + [Step(1, Draw(""))];
  }

  lemma {:induction false} AfterCap()
    ensures Run(BOTH_CAP) == State(SHOP, [DepositInsert(FIRST, "r1"), DepositInsert(SECOND, "r2")])
  {
    AfterLook();
    RunSnoc(BOTH_LOOK, Step(0, Draw("r1")));
    RunSnoc(BOTH_LOOK + [Step(0, Draw("r1"))], Step(1, Draw("r2")));
  }

  const ONE_ROW := SHOP.(table := [OrderRow(Pending, None, None)])

  lemma {:induction false} AfterInsert()
    ensures Run(BOTH_INSERT) == State(ONE_ROW, [DepositSend(FIRST, "r1", 0), DepositReread(SECOND, "r2")])
  {
    AfterCap();
    OrderRowFits(ONE_ROW.table, SHOP.apps.Keys);
    RunSnoc(BOTH_CAP, Step(0, Draw("")));
    assert Run(BOTH_CAP + [Step(0, Draw(""))])
           == State(ONE_ROW, [DepositSend(FIRST, "r1", 0), DepositInsert(SECOND, "r2")]);
    RunSnoc(BOTH_CAP + [Step(0, Draw(""))], Step(1, Draw("")));
  }

  lemma {:induction false} AfterReread()
    ensures Run(REREAD) == State(ONE_ROW, [DepositSend(FIRST, "r1", 0), DepositSend(SECOND, "r2", 0)])
  {
    AfterInsert();
    RunSnoc(BOTH_INSERT, Step(1, Draw("")));
    FindExact(ONE_ROW.table, 0);
  }

  const ONE_LINK := World(0, SHOP.apps, [OrderRow(Pending, None, Some("link-1"))], [DepositCall("r1", 1000, "SEN")],
                          map["r1" := GatewayDeposit(1000, "link-1", [], 0)], NO_HISTORY.(issuedFor := map["r1" := 0]))

  lemma {:induction false} AfterFirst()
    ensures Run(FIRST_SENT) == State(ONE_LINK, [Done, DepositSend(SECOND, "r2", 0)])
  {
    AfterReread();
    var sent := REREAD + [Step(0, Gets(Answer(Pending, "", "link-1")))];
    RunSnoc(REREAD, Step(0, Gets(Answer(Pending, "", "link-1"))));
    assert Run(sent) == State(ONE_LINK.(table := ONE_ROW.table),
                              [DepositLink(0, "link-1"), DepositSend(SECOND, "r2", 0)]);
    RunSnoc(sent, Step(0, Draw("")));
  }

  /** Two overlapping `Pay` requests on one app_ref create two gateway deposits; the second one is for
      another amount, and its link ends up on the row that still carries the first ref. */
  lemma {:induction false} OverlappingPaysDisagree()
    ensures var w := Run(SECOND_SENT).w;
            && |w.table| == 1 && |w.calls| == 2 && "r1" in w.deposits && "r2" in w.deposits && "r2" in w.h.issuedFor
            && w.table[0].diarraRef == "r1" && w.deposits["r1"].link == "link-1"
            && w.table[0].redirect == Some("link-2")
            && w.table[0].amount == 1000 && w.h.issuedFor["r2"] == 0 && w.deposits["r2"].amount == 2000
  {
    AfterSecond();
    OrderRowFits([], {"shop"});
    RunSnoc(FIRST_SENT + [Step(1, Gets(Answer(Pending, "", "link-2")))], Step(1, Draw("")));
  }

  lemma {:induction false} AfterSecond()
    ensures Run(FIRST_SENT + [Step(1, Gets(Answer(Pending, "", "link-2")))]) ==
            State(World(0, SHOP.apps, ONE_LINK.table, ONE_LINK.calls + [DepositCall("r2", 2000, "SEN")],
                        ONE_LINK.deposits["r2" := GatewayDeposit(2000, "link-2", [], 0)],
                        NO_HISTORY.(issuedFor := map["r1" := 0, "r2" := 0])),
                  [Done, DepositLink(0, "link-2")])
  {
    AfterFirst();
    RunSnoc(FIRST_SENT, Step(1, Gets(Answer(Pending, "", "link-2"))));
  }

  // --- A callback before the creating request has returned ------------------------------------

  const ONE_LOOKS := [CreateApp("shop"), Start(PayFind(FIRST)), Step(0, Draw(""))]
  const BEFORE := ONE_LOOKS + [Step(0, Draw("r1"))]
  const ALONE := BEFORE + [Step(0, Draw(""))]
  const LOST := ALONE + [Step(0, Gets(Lost("link-1")))]
  const PAID := LOST + [GatewayMoves("r1", Completed)] + [Deliver("r1", 0, "")]
  const FOUND := PAID + [Step(1, Draw(""))]
  const RECORDED := FOUND + [Step(1, Draw(""))]
  const OVERWRITTEN := RECORDED + [Step(0, Draw(""))]

  lemma {:induction false} AfterOneLooks()
    ensures Run(ONE_LOOKS) == State(SHOP, [PayCap(FIRST)])
  {
    var a1 := [CreateApp("shop")];
    var a2 := a1 + [Start(PayFind(FIRST))];
    assert ONE_LOOKS == a2 + [Step(0, Draw(""))];
    assert [] + [CreateApp("shop")] == a1;
    RunSnoc([], CreateApp("shop"));
    assert Run(a1) == State(SHOP, []);
    RunSnoc(a1, Start(PayFind(FIRST)));
    assert Run(a2) == State(SHOP, [PayFind(FIRST)]);
    RunSnoc(a2, Step(0, Draw("")));
  }

  lemma {:induction false} AfterBefore()
    ensures Run(BEFORE) == State(SHOP, [DepositInsert(FIRST, "r1")])
  {
    AfterOneLooks();
    RunSnoc(ONE_LOOKS, Step(0, Draw("r1")));
  }

  lemma {:induction false} AfterAlone()
    ensures Run(ALONE) == State(ONE_ROW, [DepositSend(FIRST, "r1", 0)])
  {
    AfterBefore();
    OrderRowFits([], SHOP.apps.Keys);
    RunSnoc(BEFORE, Step(0, Draw("")));
  }

  function PaidWorld(history: seq<Status>, row: Payment, completed: set<nat>): World
  {
    World(0, SHOP.apps, [row], [DepositCall("r1", 1000, "SEN")],
          map["r1" := GatewayDeposit(1000, "link-1", history, 0)],
            NO_HISTORY.(completed := completed, issuedFor := map["r1" := 0]))
  }

  lemma {:induction false} LostStep()
    ensures Apply(State(ONE_ROW, [DepositSend(FIRST, "r1", 0)]), Step(0, Gets(Lost("link-1")))) ==
            State(PaidWorld([], OrderRow(Pending, None, None), {}), [DepositFail(0)])
  {
  }

  lemma {:induction false} AfterLost()
    ensures Run(LOST) == State(PaidWorld([], OrderRow(Pending, None, None), {}), [DepositFail(0)])
  {
    AfterAlone();
    LostStep();
    StepTo(ALONE, Step(0, Gets(Lost("link-1"))), State(ONE_ROW, [DepositSend(FIRST, "r1", 0)]),
           State(PaidWorld([], OrderRow(Pending, None, None), {}), [DepositFail(0)]));
  }

  lemma {:induction false} AfterMove()
    ensures Run(LOST + [GatewayMoves("r1", Completed)])
            == State(PaidWorld([Completed], OrderRow(Pending, None, None), {}), [DepositFail(0)])
  {
    AfterLost();
    RunSnoc(LOST, GatewayMoves("r1", Completed));
    var w := PaidWorld([], OrderRow(Pending, None, None), {});
    assert [] + [Completed] == [Completed];
    assert MoveDeposit(w, "r1", Completed).deposits == map["r1" := GatewayDeposit(1000, "link-1", [Completed], 0)];
  }

  lemma {:induction false} AfterPaid()
    ensures Run(PAID) == State(PaidWorld([Completed], OrderRow(Pending, None, None), {}),
                               [DepositFail(0), CallbackFind("r1", Completed, "")])
  {
    AfterMove();
    RunSnoc(LOST + [GatewayMoves("r1", Completed)], Deliver("r1", 0, ""));
    var w := PaidWorld([Completed], OrderRow(Pending, None, None), {});
    assert MarkDelivered(w, "r1", 0).deposits == w.deposits;
  }

  lemma {:induction false} AfterFound()
    ensures Run(FOUND) == State(PaidWorld([Completed], OrderRow(Pending, None, None), {}),
                                [DepositFail(0), CallbackUpdate(OrderRow(Pending, None, None), Completed, "")])
  {
    AfterPaid();
    FindExact([OrderRow(Pending, None, None)], 0);
    RunSnoc(PAID, Step(1, Draw("")));
  }

  lemma {:induction false} AfterRecorded()
    ensures Run(RECORDED).w == PaidWorld([Completed], OrderRow(Completed, None, None), {0})
    ensures |Run(RECORDED).procs| == 2 && Run(RECORDED).procs[0] == DepositFail(0)
  {
    AfterFound();
    RunSnoc(FOUND, Step(1, Draw("")));
  }

  /** The gateway acts, the answer is lost, the customer pays and the callback marks the row completed;
      then the waiting `Pay` marks the very same row failed. */
  lemma {:induction false} CompletedCanBeOverwritten()
    ensures Run(RECORDED).w == PaidWorld([Completed], OrderRow(Completed, None, None), {0})
    ensures Run(OVERWRITTEN).w == PaidWorld([Completed], OrderRow(Failed, Some("diarra_init_failed"), None), {0})
  {
    AfterRecorded();
    RunSnoc(RECORDED, Step(0, Draw("")));
  }

  // --- A refresh between the INSERT and the gateway call --------------------------------------

  const LOOKED := ALONE + [Start(PayFind(SECOND))] + [Step(1, Draw("r2"))]
  const REFRESHED := LOOKED + [Step(1, Gets(Answer(Pending, "", "link-2")))] + [Step(1, Draw(""))]
  const OVERTAKEN := REFRESHED + [Step(0, Gets(Answer(Pending, "", "link-1")))] + [Step(0, Draw(""))]

  /** Row 0 once the second request has refreshed it, with the given link. */
  function RefreshedRow(link: string): Payment
  {
    OrderRow(Pending, None, Some(link)).(diarraRef := "r2")
  }

  const ONE_REFRESH := World(0, SHOP.apps, ONE_ROW.table, [DepositCall("r2", 1000, "SEN")],
                             map["r2" := GatewayDeposit(1000, "link-2", [], 0)],
                             NO_HISTORY.(issuedFor := map["r2" := 0]))

  const TWO_DEPOSITS := World(0, SHOP.apps, [RefreshedRow("link-2")],
                              [DepositCall("r2", 1000, "SEN"), DepositCall("r1", 1000, "SEN")],
                              map["r2" := GatewayDeposit(1000, "link-2", [], 0),
                                  "r1" := GatewayDeposit(1000, "link-1", [], 0)],
                              NO_HISTORY.(issuedFor := map["r2" := 0, "r1" := 0]))

  /** The second request finds the row without a link and refreshes at once. */
  lemma {:induction false} LookRefreshes()
    ensures Local(ONE_ROW, PayFind(SECOND), Draw("r2")) == Go(RefreshSend(0, "r2", 1000, "SEN"))
  {
    FindExact(ONE_ROW.table, 0);
    OrderRowFits(ONE_ROW.table, SHOP.apps.Keys);
  }

  lemma {:induction false} AfterLooked()
    ensures Run(LOOKED) == State(ONE_ROW, [DepositSend(FIRST, "r1", 0), RefreshSend(0, "r2", 1000, "SEN")])
  {
    AfterAlone();
    LookRefreshes();
    RunSnoc(ALONE, Start(PayFind(SECOND)));
    RunSnoc(ALONE + [Start(PayFind(SECOND))], Step(1, Draw("r2")));
  }

  lemma {:induction false} RefreshSent()
    ensures Local(ONE_ROW, RefreshSend(0, "r2", 1000, "SEN"), Gets(Answer(Pending, "", "link-2"))) ==
            Outcome(RefreshSave(0, "r2", "link-2"), Send(DepositCall("r2", 1000, "SEN"), "link-2", 0))
    ensures Exec(ONE_ROW, Send(DepositCall("r2", 1000, "SEN"), "link-2", 0)) == ONE_REFRESH
  {
  }

  lemma {:induction false} AfterRefreshSent()
    ensures Run(LOOKED + [Step(1, Gets(Answer(Pending, "", "link-2")))]) ==
            State(ONE_REFRESH, [DepositSend(FIRST, "r1", 0), RefreshSave(0, "r2", "link-2")])
  {
    AfterLooked();
    RefreshSent();
    RunSnoc(LOOKED, Step(1, Gets(Answer(Pending, "", "link-2"))));
  }

  lemma {:induction false} RefreshWritten()
    ensures Local(ONE_REFRESH, RefreshSave(0, "r2", "link-2"), Draw("")) == Outcome(Done, Rekey(0, "r2", "link-2"))
    ensures Exec(ONE_REFRESH, Rekey(0, "r2", "link-2")) == ONE_REFRESH.(table := [RefreshedRow("link-2")])
  {
    assert !RekeyClash(ONE_REFRESH.table, 0, "r2");
  }

  lemma {:induction false} AfterRefreshed()
    ensures Run(REFRESHED) == State(ONE_REFRESH.(table := [RefreshedRow("link-2")]),
                                    [DepositSend(FIRST, "r1", 0), Done])
  {
    AfterRefreshSent();
    RefreshWritten();
    RunSnoc(LOOKED + [Step(1, Gets(Answer(Pending, "", "link-2")))], Step(1, Draw("")));
  }

  lemma {:induction false} FirstSent()
    ensures var w := ONE_REFRESH.(table := [RefreshedRow("link-2")]);
            && Local(w, DepositSend(FIRST, "r1", 0), Gets(Answer(Pending, "", "link-1"))) ==
               Outcome(DepositLink(0, "link-1"), Send(DepositCall("r1", 1000, "SEN"), "link-1", 0))
            && Exec(w, Send(DepositCall("r1", 1000, "SEN"), "link-1", 0)) == TWO_DEPOSITS
  {
  }

  lemma {:induction false} AfterFirstSent()
    ensures Run(REFRESHED + [Step(0, Gets(Answer(Pending, "", "link-1")))])
            == State(TWO_DEPOSITS, [DepositLink(0, "link-1"), Done])
  {
    AfterRefreshed();
    FirstSent();
    RunSnoc(REFRESHED, Step(0, Gets(Answer(Pending, "", "link-1"))));
  }

  lemma {:induction false} FirstWritten()
    ensures Local(TWO_DEPOSITS, DepositLink(0, "link-1"), Draw("")) == Outcome(Done, SetRedirect(0, "link-1"))
    ensures Exec(TWO_DEPOSITS, SetRedirect(0, "link-1")) == TWO_DEPOSITS.(table := [RefreshedRow("link-1")])
  {
  }

  /** A second `Pay` finds the first one's row before it has a link, refreshes it and is overtaken by the
      first one's link: the row ends with the second's ref and the first's link, although the INSERT of the
      first met no row. */
  lemma {:induction false} RefreshOvertakesFirst()
    ensures var w := Run(OVERTAKEN).w;
            && |w.table| == 1 && w.table[0].diarraRef == "r2" && w.table[0].redirect == Some("link-1")
            && "r1" in w.deposits && w.deposits["r1"].link == "link-1" && "r2" in w.deposits
               && w.deposits["r2"].link == "link-2"
  {
    AfterFirstSent();
    FirstWritten();
    RunSnoc(REFRESHED + [Step(0, Gets(Answer(Pending, "", "link-1")))], Step(0, Draw("")));
  }

  const MEANWHILE := [Start(PayFind(SECOND)), Step(1, Draw("r2")), Step(1, Gets(Answer(Pending, "", "link-2"))),
                      Step(1, Draw(""))]

  lemma {:induction false} MeanwhileRefreshed()
    ensures BEFORE + [Step(0, Draw(""))] == ALONE && ALONE + MEANWHILE == REFRESHED
  {
  }

  /** Nobody draws "r1" in the second story, so its first request is one that `OwnDepositExactly` speaks of. */
  lemma {:induction false} FirstRefIsNew()
    ensures NewTo(BEFORE, [Step(0, Draw(""))] + MEANWHILE, "r1")
  {
    AfterBefore();
    var more := [Step(0, Draw(""))] + MEANWHILE;
    forall m: nat | m < |more| ensures DrawsOther(Run(BEFORE + more[..m]), more[m], "r1") {
      assert more[m].Step? ==> more[m].c.uuid != "r1";
    }
  }

  /** The INSERT of the first request met no row; its deposit is not its row's because a refresh was saved. */
  lemma {:induction false} OvertakenByRefresh()
    ensures NoRowFor(Run(BEFORE).w.table, Key("shop", "order-1", Deposit)) && RefreshSaved(ALONE, MEANWHILE, 0)
  {
    AfterBefore();
    AfterRefreshed();
    MeanwhileRefreshed();
    FirstRefIsNew();
    FirstSent();
    OwnDepositExactly(BEFORE, 0, Draw(""), MEANWHILE, Gets(Answer(Pending, "", "link-1")));
  }
}
