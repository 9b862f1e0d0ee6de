/** The dashboard's aggregates: four grouped views of one table, and why they agree. */
module Stats {
  import opened Fees
  import opened Model
  import opened Table
  import opened Ledger
  import opened Invariant
  import opened Runs

  // --- What the queries sum and how they group -----------------------------------------

  datatype Measure = Count | Amount | Fee | Net | CompletedOnly | FailedOnly | Terminal

  function One(b: bool): int
  {
    if b then 1 else 0
  }

  /** The contribution of one row; a null net counts as amount - fee. */
  function Of(m: Measure, p: Payment): int
  {
    match m
    case Count => 1
    case Amount => p.amount
    case Fee => p.fee
    case Net => if p.net.Some? then p.net.value else p.amount - p.fee
    case CompletedOnly => One(p.status.Completed?)
    case FailedOnly => One(p.status.Failed?)
    case Terminal => One(p.status.Completed? || p.status.Failed?)
  }

  datatype View = ViewByType | ViewByApp | ViewByOperator

  datatype Group = TypeGroup(typ: PaymentType) | AppGroup(appId: string) | OperatorGroup(operator: Option<string>)

  function GroupOf(v: View, p: Payment): Group
  {
    match v
    case ViewByType => TypeGroup(p.typ)
    case ViewByApp => AppGroup(p.appId)
    case ViewByOperator => OperatorGroup(p.operator)
  }

  function Sum(rows: Rows, m: Measure): int
  {
    if |rows| == 0 then 0 else Sum(rows[..|rows| - 1], m) + Of(m, rows[|rows| - 1])
  }

  /** The sum over one group. */
  function SumAt(rows: Rows, v: View, g: Group, m: Measure): int
  {
    if |rows| == 0 then 0
    else SumAt(rows[..|rows| - 1], v, g, m) + (if GroupOf(v, rows[|rows| - 1]) == g then Of(m, rows[|rows| - 1]) else 0)
  }

  function SumGroups(rows: Rows, v: View, gs: seq<Group>, m: Measure): int
  {
    if |gs| == 0 then 0 else SumGroups(rows, v, gs[..|gs| - 1], m) + SumAt(rows, v, gs[|gs| - 1], m)
  }

  const DAY := 24 * 3600

  predicate InWindow(p: Payment, sinceDays: int, now: int)
  {
    sinceDays <= 0 || p.createdAt >= now - sinceDays * DAY
  }

  /** `WHERE created_at >= $1`, or every row when `sinceDays` is not positive. */
  function Window(rows: Rows, sinceDays: int, now: int): (r: Rows)
    ensures forall p :: p in r <==> p in rows && InWindow(p, sinceDays, now)
  {
    if |rows| == 0 then []
    else
      var before, p := Window(rows[..|rows| - 1], sinceDays, now), rows[|rows| - 1];
      if InWindow(p, sinceDays, now) then before + [p] else before
  }

  /** The by-operator query looks at payouts that name an operator. */
  function OperatorRows(rows: Rows): (r: Rows)
    ensures forall p :: p in r <==> p in rows && p.typ.Payout? && p.operator.Some?
  {
    if |rows| == 0 then []
    else
      var before, p := OperatorRows(rows[..|rows| - 1]), rows[|rows| - 1];
      if p.typ.Payout? && p.operator.Some? then before + [p] else before
  }

  /** `GROUP BY`: the groups that occur, each once, in some order. */
  ghost predicate Groups(rows: Rows, v: View, gs: seq<Group>)
  {
    && (forall i, j :: 0 <= i < j < |gs| ==> gs[i] != gs[j])
    && (forall p :: p in rows ==> GroupOf(v, p) in gs)
    && (forall i :: 0 <= i < |gs| ==> exists p :: p in rows && GroupOf(v, p) == gs[i])
  }

  lemma {:induction false} GroupsExist(rows: Rows, v: View)
    ensures exists gs :: Groups(rows, v, gs)
  {
    if |rows| == 0 {
      assert Groups(rows, v, []);
    } else {
      var n := |rows| - 1;
      GroupsExist(rows[..n], v);
      var gs :| Groups(rows[..n], v, gs);
      assert rows == rows[..n] + [rows[n]];
      var g := GroupOf(v, rows[n]);
      if g in gs {
        assert Groups(rows, v, gs);
      } else {
        assert Groups(rows, v, gs + [g]);
      }
    }
  }

  // --- Partition sums ---------------------------------------------------------------------

  lemma {:induction false} SumGroupsEmpty(v: View, gs: seq<Group>, m: Measure)
    ensures SumGroups([], v, gs, m) == 0
  {
    if 0 < |gs| { SumGroupsEmpty(v, gs[..|gs| - 1], m); }
  }

  /** One more row lands in exactly one group. */
  lemma {:induction false} SumGroupsStep(rows: Rows, v: View, gs: seq<Group>, m: Measure)
    requires 0 < |rows| && forall i, j :: 0 <= i < j < |gs| ==> gs[i] != gs[j]
    ensures var n := |rows| - 1;
            SumGroups(rows, v, gs, m) == SumGroups(rows[..n], v, gs, m)
            + (if GroupOf(v, rows[n]) in gs then Of(m, rows[n]) else 0)
  {
    if 0 < |gs| {
      var k, g := |gs| - 1, GroupOf(v, rows[|rows| - 1]);
      SumGroupsStep(rows, v, gs[..k], m);
      assert gs == gs[..k] + [gs[k]];
      if gs[k] == g {
        assert g !in gs[..k];
      }
    }
  }

  lemma {:induction false} Partition(rows: Rows, v: View, gs: seq<Group>, m: Measure)
    requires forall i, j :: 0 <= i < j < |gs| ==> gs[i] != gs[j]
    requires forall p :: p in rows ==> GroupOf(v, p) in gs
    ensures SumGroups(rows, v, gs, m) == Sum(rows, m)
  {
    if |rows| == 0 {
      SumGroupsEmpty(v, gs, m);
    } else {
      Partition(rows[..|rows| - 1], v, gs, m);
      SumGroupsStep(rows, v, gs, m);
    }
  }

  // --- The query results and the dashboard ---------------------------------------------------

  datatype ByType = ByType(typ: PaymentType, count: int, amount: int, fee: int)
  datatype AppResult = AppResult(appId: string, count: int, amount: int, fee: int, completed: int, terminal: int)
  datatype ByApp = ByApp(appId: string, count: int, amount: int, fee: int, successRate: real)
  datatype ByOperator = ByOperator(operator: string, count: int, amount: int)

  datatype Totals = Totals(count: int, amount: int, fee: int, net: int, completed: int, failed: int, successRate: real)

  datatype Dashboard = Dashboard(totals: Totals, byType: seq<ByType>, byApp: seq<ByApp>, byOperator: seq<ByOperator>)

  function TypeRow(rows: Rows, g: Group): ByType
    requires g.TypeGroup?
  {
    ByType(g.typ, SumAt(rows, ViewByType, g, Count), SumAt(rows, ViewByType, g, Amount),
           SumAt(rows, ViewByType, g, Fee))
  }

  function AppRow(rows: Rows, g: Group): AppResult
    requires g.AppGroup?
  {
    AppResult(g.appId, SumAt(rows, ViewByApp, g, Count), SumAt(rows, ViewByApp, g, Amount),
              SumAt(rows, ViewByApp, g, Fee),
              SumAt(rows, ViewByApp, g, CompletedOnly), SumAt(rows, ViewByApp, g, Terminal))
  }

  function OperatorRow(rows: Rows, g: Group): ByOperator
    requires g.OperatorGroup? && g.operator.Some?
  {
    ByOperator(g.operator.value, SumAt(rows, ViewByOperator, g, Count), SumAt(rows, ViewByOperator, g, Amount))
  }

  // The answers of the three GROUP BY queries, in whatever order the database lists the groups.

  ghost predicate AnswersTypes(rows: Rows, types: seq<Group>, typeRows: seq<ByType>)
  {
    && Groups(rows, ViewByType, types) && |typeRows| == |types|
    && forall i :: 0 <= i < |types| ==> types[i].TypeGroup? && typeRows[i] == TypeRow(rows, types[i])
  }

  ghost predicate AnswersApps(rows: Rows, apps: seq<Group>, appRows: seq<AppResult>)
  {
    && Groups(rows, ViewByApp, apps) && |appRows| == |apps|
    && forall i :: 0 <= i < |apps| ==> apps[i].AppGroup? && appRows[i] == AppRow(rows, apps[i])
  }

  ghost predicate AnswersOperators(rows: Rows, operators: seq<Group>, operatorRows: seq<ByOperator>)
  {
    && Groups(rows, ViewByOperator, operators) && |operatorRows| == |operators|
    && forall i :: 0 <= i < |operators| ==>
         operators[i].OperatorGroup? && operators[i].operator.Some?
           && operatorRows[i] == OperatorRow(rows, operators[i])
  }

  function Rate(completed: int, terminal: int): real
  {
    if terminal > 0 then completed as real / terminal as real else 0.0
  }

  function ToByApp(r: AppResult): ByApp
  {
    ByApp(r.appId, r.count, r.amount, r.fee, Rate(r.completed, r.terminal))
  }

  /** The one row of the totals query, before the rate is filled in. */
  function CountsOf(rows: Rows): Totals
  {
    Totals(Sum(rows, Count), Sum(rows, Amount), Sum(rows, Fee), Sum(rows, Net), Sum(rows, CompletedOnly),
           Sum(rows, FailedOnly), 0.0)
  }

  function WithRate(t: Totals): Totals
  {
    t.(successRate := Rate(t.completed, t.completed + t.failed))
  }

  function TotalsOf(rows: Rows): Totals
  {
    WithRate(CountsOf(rows))
  }

  /** The by-app list, entry by entry. */
  ghost predicate ListsApps(rows: Rows, apps: seq<Group>, shown: seq<ByApp>)
  {
    && Groups(rows, ViewByApp, apps) && |shown| == |apps|
    && forall i :: 0 <= i < |apps| ==> apps[i].AppGroup? && shown[i] == ToByApp(AppRow(rows, apps[i]))
  }

  /** `d` is a dashboard of `rows`. */
  ghost predicate Shows(d: Dashboard, rows: Rows, types: seq<Group>, apps: seq<Group>, operators: seq<Group>)
  {
    && AnswersTypes(rows, types, d.byType)
    && ListsApps(rows, apps, d.byApp)
    && AnswersOperators(OperatorRows(rows), operators, d.byOperator)
    && d.totals == TotalsOf(rows)
  }

  lemma {:induction false} MadeLists(rows: Rows, apps: seq<Group>, appRows: seq<AppResult>, shown: seq<ByApp>)
    requires AnswersApps(rows, apps, appRows) && |shown| == |appRows|
    requires forall i :: 0 <= i < |appRows| ==> shown[i] == ToByApp(appRows[i])
    ensures ListsApps(rows, apps, shown)
  {
  }

  /** The by-app loop: the rate is filled in only when there is a completed or failed row. */
  method ScanApps(appRows: seq<AppResult>) returns (byApp: seq<ByApp>)
    ensures |byApp| == |appRows| && forall i :: 0 <= i < |appRows| ==> byApp[i] == ToByApp(appRows[i])
  {
    byApp := [];
    var i := 0;
    while i < |appRows|
      invariant 0 <= i <= |appRows| && |byApp| == i
      invariant forall j :: 0 <= j < i ==> byApp[j] == ToByApp(appRows[j])
    {
      var b := ByApp(appRows[i].appId, appRows[i].count, appRows[i].amount, appRows[i].fee, 0.0);
      if appRows[i].terminal > 0 {
        b := b.(successRate := appRows[i].completed as real / appRows[i].terminal as real);
      }
      byApp := byApp + [b];
      i := i + 1;
    }
  }

  method ScanTotals(row: Totals) returns (t: Totals)
    requires row.successRate == 0.0
    ensures t == WithRate(row)
  {
    t := row;
    if t.completed + t.failed > 0 {
      t := t.(successRate := t.completed as real / (t.completed + t.failed) as real);
    }
  }

  method ScanList<T>(answer: seq<T>) returns (list: seq<T>)
    ensures list == answer
  {
    list := [];
    var i := 0;
    while i < |answer|
      invariant 0 <= i <= |answer| && list == answer[..i]
    {
      list := list + [answer[i]];
      i := i + 1;
    }
  }

  /** `Dashboard`: fill the totals, then scan the result sets row by row. Whatever rows the four queries
      were asked about, and in whatever order they list the groups, it returns a dashboard of those rows. */
  method MakeDashboard(totals: Totals, typeRows: seq<ByType>, appRows: seq<AppResult>, operatorRows: seq<ByOperator>,
                       ghost rows: Rows, ghost types: seq<Group>, ghost apps: seq<Group>, ghost operators: seq<Group>)
    returns (d: Dashboard)
    requires totals == CountsOf(rows) && AnswersTypes(rows, types, typeRows) && AnswersApps(rows, apps, appRows)
    requires AnswersOperators(OperatorRows(rows), operators, operatorRows)
    ensures Shows(d, rows, types, apps, operators)
  {
    var t := ScanTotals(totals);
    var byType := ScanList(typeRows);
    var byApp := ScanApps(appRows);
    var byOperator := ScanList(operatorRows);
    MadeLists(rows, apps, appRows, byApp);
    d := Dashboard(t, byType, byApp, byOperator);
  }

  // --- Sums over a view ------------------------------------------------------------------------

  function TypeCounts(rs: seq<ByType>): int
  {
    if |rs| == 0 then 0 else TypeCounts(rs[..|rs| - 1]) + rs[|rs| - 1].count
  }

  function TypeAmounts(rs: seq<ByType>): int
  {
    if |rs| == 0 then 0 else TypeAmounts(rs[..|rs| - 1]) + rs[|rs| - 1].amount
  }

  function TypeFees(rs: seq<ByType>): int
  {
    if |rs| == 0 then 0 else TypeFees(rs[..|rs| - 1]) + rs[|rs| - 1].fee
  }

  function AppCounts(rs: seq<ByApp>): int
  {
    if |rs| == 0 then 0 else AppCounts(rs[..|rs| - 1]) + rs[|rs| - 1].count
  }

  function AppAmounts(rs: seq<ByApp>): int
  {
    if |rs| == 0 then 0 else AppAmounts(rs[..|rs| - 1]) + rs[|rs| - 1].amount
  }

  function AppFees(rs: seq<ByApp>): int
  {
    if |rs| == 0 then 0 else AppFees(rs[..|rs| - 1]) + rs[|rs| - 1].fee
  }

  function OperatorCounts(rs: seq<ByOperator>): int
  {
    if |rs| == 0 then 0 else OperatorCounts(rs[..|rs| - 1]) + rs[|rs| - 1].count
  }

  function OperatorAmounts(rs: seq<ByOperator>): int
  {
    if |rs| == 0 then 0 else OperatorAmounts(rs[..|rs| - 1]) + rs[|rs| - 1].amount
  }

  lemma {:induction false} TypeSums(rows: Rows, gs: seq<Group>, rs: seq<ByType>)
    requires |rs| == |gs| && forall i :: 0 <= i < |gs| ==> gs[i].TypeGroup? && rs[i] == TypeRow(rows, gs[i])
    ensures TypeCounts(rs) == SumGroups(rows, ViewByType, gs, Count)
    ensures TypeAmounts(rs) == SumGroups(rows, ViewByType, gs, Amount)
    ensures TypeFees(rs) == SumGroups(rows, ViewByType, gs, Fee)
  {
    if 0 < |gs| { TypeSums(rows, gs[..|gs| - 1], rs[..|rs| - 1]); }
  }

  lemma {:induction false} AppSums(rows: Rows, gs: seq<Group>, rs: seq<ByApp>)
    requires |rs| == |gs| && forall i :: 0 <= i < |gs| ==> gs[i].AppGroup? && rs[i] == ToByApp(AppRow(rows, gs[i]))
    ensures AppCounts(rs) == SumGroups(rows, ViewByApp, gs, Count)
    ensures AppAmounts(rs) == SumGroups(rows, ViewByApp, gs, Amount)
    ensures AppFees(rs) == SumGroups(rows, ViewByApp, gs, Fee)
  {
    if 0 < |gs| { AppSums(rows, gs[..|gs| - 1], rs[..|rs| - 1]); }
  }

  lemma {:induction false} OperatorSums(rows: Rows, gs: seq<Group>, rs: seq<ByOperator>)
    requires |rs| == |gs|
    requires forall i :: 0 <= i < |gs| ==>
             gs[i].OperatorGroup? && gs[i].operator.Some? && rs[i] == OperatorRow(rows, gs[i])
    ensures OperatorCounts(rs) == SumGroups(rows, ViewByOperator, gs, Count)
    ensures OperatorAmounts(rs) == SumGroups(rows, ViewByOperator, gs, Amount)
  {
    if 0 < |gs| { OperatorSums(rows, gs[..|gs| - 1], rs[..|rs| - 1]); }
  }

  lemma {:induction false} TypeListAddsUp(rows: Rows, types: seq<Group>, rs: seq<ByType>)
    requires AnswersTypes(rows, types, rs)
    ensures TypeCounts(rs) == Sum(rows, Count) && TypeAmounts(rs) == Sum(rows, Amount) && TypeFees(rs) == Sum(rows, Fee)
  {
    TypeSums(rows, types, rs);
    Partition(rows, ViewByType, types, Count);
    Partition(rows, ViewByType, types, Amount);
    Partition(rows, ViewByType, types, Fee);
  }

  lemma {:induction false} AppListAddsUp(rows: Rows, apps: seq<Group>, rs: seq<ByApp>)
    requires ListsApps(rows, apps, rs)
    ensures AppCounts(rs) == Sum(rows, Count) && AppAmounts(rs) == Sum(rows, Amount) && AppFees(rs) == Sum(rows, Fee)
  {
    AppSums(rows, apps, rs);
    Partition(rows, ViewByApp, apps, Count);
    Partition(rows, ViewByApp, apps, Amount);
    Partition(rows, ViewByApp, apps, Fee);
  }

  /** By-type and by-app counts, amounts and fees each add up to the totals, whatever the order in which
      the database lists the groups. */
  lemma {:induction false} ViewsAddUp(d: Dashboard, rows: Rows, types: seq<Group>, apps: seq<Group>,
                                      operators: seq<Group>)
    requires Shows(d, rows, types, apps, operators)
    ensures TypeCounts(d.byType) == d.totals.count == AppCounts(d.byApp) == |rows|
    ensures TypeAmounts(d.byType) == d.totals.amount == AppAmounts(d.byApp)
    ensures TypeFees(d.byType) == d.totals.fee == AppFees(d.byApp)
  {
    TypeListAddsUp(rows, types, d.byType);
    AppListAddsUp(rows, apps, d.byApp);
    CountIsLength(rows);
  }

  lemma {:induction false} CountIsLength(rows: Rows)
    ensures Sum(rows, Count) == |rows|
  {
    if 0 < |rows| { CountIsLength(rows[..|rows| - 1]); }
  }

  // --- Operators against the payout entry --------------------------------------------------------

  /** Every payout names its operator. */
  predicate NamesOperators(rows: Rows)
  {
    forall p :: p in rows && p.typ.Payout? ==> p.operator.Some?
  }

  lemma {:induction false} NamesOperatorsSnoc(rows: Rows)
    requires 0 < |rows|
    ensures var n := |rows| - 1;
            NamesOperators(rows) <==> NamesOperators(rows[..n]) && (rows[n].typ.Payout? ==> rows[n].operator.Some?)
  {
    assert rows == rows[..|rows| - 1] + [rows[|rows| - 1]];
  }

  lemma {:induction false} OperatorRowsSnoc(rows: Rows, m: Measure)
    requires 0 < |rows|
    ensures var n := |rows| - 1; var p := rows[n];
            Sum(OperatorRows(rows), m) ==
            Sum(OperatorRows(rows[..n]), m) + (if p.typ.Payout? && p.operator.Some? then Of(m, p) else 0)
  {
    var before, p := OperatorRows(rows[..|rows| - 1]), rows[|rows| - 1];
    assert (before + [p])[..|before|] == before;
  }

  /** Payout rows without an operator are in the payout entry and in no operator entry. */
  lemma {:induction false} OperatorCountAgainstPayouts(rows: Rows)
    ensures Sum(OperatorRows(rows), Count) <= SumAt(rows, ViewByType, TypeGroup(Payout), Count)
    ensures Sum(OperatorRows(rows), Count) == SumAt(rows, ViewByType, TypeGroup(Payout), Count)
            <==> NamesOperators(rows)
  {
    if 0 < |rows| {
      OperatorCountAgainstPayouts(rows[..|rows| - 1]);
      OperatorRowsSnoc(rows, Count);
      NamesOperatorsSnoc(rows);
    }
  }

  lemma {:induction false} OperatorAmountAgainstPayouts(rows: Rows)
    requires NamesOperators(rows)
    ensures Sum(OperatorRows(rows), Amount) == SumAt(rows, ViewByType, TypeGroup(Payout), Amount)
  {
    if 0 < |rows| {
      NamesOperatorsSnoc(rows);
      OperatorAmountAgainstPayouts(rows[..|rows| - 1]);
      OperatorRowsSnoc(rows, Amount);
    }
  }

  lemma {:induction false} OperatorAmountAtMost(rows: Rows)
    requires forall p :: p in rows ==> 0 <= p.amount
    ensures Sum(OperatorRows(rows), Amount) <= SumAt(rows, ViewByType, TypeGroup(Payout), Amount)
  {
    if 0 < |rows| {
      OperatorAmountAtMost(rows[..|rows| - 1]);
      OperatorRowsSnoc(rows, Amount);
    }
  }

  /** The entry of a type in the by-type view; all zero when the view has none. */
  function EntryOf(rs: seq<ByType>, typ: PaymentType): ByType
  {
    if |rs| == 0 then ByType(typ, 0, 0, 0)
    else if rs[|rs| - 1].typ == typ then rs[|rs| - 1]
    else EntryOf(rs[..|rs| - 1], typ)
  }

  lemma {:induction false} NoRowsNoSum(rows: Rows, v: View, g: Group, m: Measure)
    requires forall p :: p in rows ==> GroupOf(v, p) != g
    ensures SumAt(rows, v, g, m) == 0
  {
    if 0 < |rows| { NoRowsNoSum(rows[..|rows| - 1], v, g, m); }
  }

  lemma {:induction false} EntryFound(rows: Rows, gs: seq<Group>, rs: seq<ByType>, typ: PaymentType)
    requires |rs| == |gs| && forall i :: 0 <= i < |gs| ==> gs[i].TypeGroup? && rs[i] == TypeRow(rows, gs[i])
    ensures EntryOf(rs, typ) == if TypeGroup(typ) in gs then TypeRow(rows, TypeGroup(typ)) else ByType(typ, 0, 0, 0)
  {
    var n := |gs| - 1;
    if 0 <= n {
      EntryFound(rows, gs[..n], rs[..n], typ);
      assert gs == gs[..n] + [gs[n]];
    }
  }

  /** The payout entry holds the sums over all payout rows. */
  lemma {:induction false} EntryIsSum(rows: Rows, types: seq<Group>, rs: seq<ByType>, typ: PaymentType)
    requires AnswersTypes(rows, types, rs)
    ensures EntryOf(rs, typ) == TypeRow(rows, TypeGroup(typ))
  {
    EntryFound(rows, types, rs, typ);
    if TypeGroup(typ) !in types {
      NoRowsNoSum(rows, ViewByType, TypeGroup(typ), Count);
      NoRowsNoSum(rows, ViewByType, TypeGroup(typ), Amount);
      NoRowsNoSum(rows, ViewByType, TypeGroup(typ), Fee);
    }
  }

  lemma {:induction false} OperatorListAddsUp(rows: Rows, operators: seq<Group>, rs: seq<ByOperator>)
    requires AnswersOperators(OperatorRows(rows), operators, rs)
    ensures OperatorCounts(rs) == Sum(OperatorRows(rows), Count)
    ensures OperatorAmounts(rs) == Sum(OperatorRows(rows), Amount)
  {
    OperatorSums(OperatorRows(rows), operators, rs);
    Partition(OperatorRows(rows), ViewByOperator, operators, Count);
    Partition(OperatorRows(rows), ViewByOperator, operators, Amount);
  }

  /** The by-operator view adds up to the payout entry of the by-type view exactly when every payout
      in the window names its operator. */
  lemma {:induction false} OperatorsAddUp(d: Dashboard, rows: Rows, types: seq<Group>, apps: seq<Group>,
                                          operators: seq<Group>)
    requires Shows(d, rows, types, apps, operators)
    ensures OperatorCounts(d.byOperator) == EntryOf(d.byType, Payout).count <==> NamesOperators(rows)
    ensures NamesOperators(rows) ==> OperatorAmounts(d.byOperator) == EntryOf(d.byType, Payout).amount
  {
    OperatorListAddsUp(rows, operators, d.byOperator);
    EntryIsSum(rows, types, d.byType, Payout);
    OperatorCountAgainstPayouts(rows);
    if NamesOperators(rows) { OperatorAmountAgainstPayouts(rows); }
  }

  // --- Amount, fee and net -----------------------------------------------------------------------

  lemma {:induction false} AmountSplits(rows: Rows)
    requires forall p :: p in rows && p.net.Some? ==> p.fee + p.net.value == p.amount
    ensures Sum(rows, Amount) == Sum(rows, Fee) + Sum(rows, Net)
  {
    if 0 < |rows| { AmountSplits(rows[..|rows| - 1]); }
  }

  lemma {:induction false} TerminalSplits(rows: Rows)
    ensures Sum(rows, Terminal) == Sum(rows, CompletedOnly) + Sum(rows, FailedOnly)
    ensures 0 <= Sum(rows, CompletedOnly) && 0 <= Sum(rows, FailedOnly)
  {
    if 0 < |rows| { TerminalSplits(rows[..|rows| - 1]); }
  }

  // --- Success rates -------------------------------------------------------------------------------

  lemma {:induction false} CompletedAmongTerminal(rows: Rows, v: View, g: Group)
    ensures 0 <= SumAt(rows, v, g, CompletedOnly) <= SumAt(rows, v, g, Terminal)
  {
    if 0 < |rows| { CompletedAmongTerminal(rows[..|rows| - 1], v, g); }
  }

  lemma {:induction false} RateTimes(completed: int, terminal: int)
    requires 0 <= completed <= terminal
    ensures Rate(completed, terminal) * terminal as real == completed as real
    ensures 0.0 <= Rate(completed, terminal) <= 1.0
  {
    if 0 < terminal {
      var c, t := completed as real, terminal as real;
      assert c / t * t == c;
      assert c / t <= t / t;
    }
  }

  /** An app's rate times its completed-or-failed rows. */
  function Weight(r: AppResult): real
  {
    Rate(r.completed, r.terminal) * r.terminal as real
  }

  /** The sum of the weighted rates over the apps. */
  function Weighted(rows: Rows, gs: seq<Group>): real
    requires forall i :: 0 <= i < |gs| ==> gs[i].AppGroup?
  {
    if |gs| == 0 then 0.0 else Weighted(rows, gs[..|gs| - 1]) + Weight(AppRow(rows, gs[|gs| - 1]))
  }

  lemma {:induction false} WeightIsCompleted(rows: Rows, g: Group)
    requires g.AppGroup?
    ensures Weight(AppRow(rows, g)) == SumAt(rows, ViewByApp, g, CompletedOnly) as real
    ensures 0.0 <= Rate(AppRow(rows, g).completed, AppRow(rows, g).terminal) <= 1.0
  {
    CompletedAmongTerminal(rows, ViewByApp, g);
    RateTimes(AppRow(rows, g).completed, AppRow(rows, g).terminal);
  }

  lemma {:induction false} WeightedIsCompleted(rows: Rows, gs: seq<Group>)
    requires forall i :: 0 <= i < |gs| ==> gs[i].AppGroup?
    ensures Weighted(rows, gs) == SumGroups(rows, ViewByApp, gs, CompletedOnly) as real
  {
    if 0 < |gs| {
      WeightedIsCompleted(rows, gs[..|gs| - 1]);
      WeightIsCompleted(rows, gs[|gs| - 1]);
    }
  }

  /** `rate * n`, as a sum of n equal parts. */
  function Scaled(rate: real, n: nat): real
  {
    if n == 0 then 0.0 else Scaled(rate, n - 1) + rate
  }

  lemma {:induction false} ScaledIs(rate: real, n: nat)
    ensures Scaled(rate, n) == rate * n as real
  {
    if 0 < n { ScaledIs(rate, n - 1); }
  }

  lemma {:induction false} ScaledAdds(rate: real, s: nat, t: nat)
    ensures Scaled(rate, s + t) == Scaled(rate, s) + Scaled(rate, t)
  {
    if 0 < t {
      ScaledAdds(rate, s, t - 1);
      assert s + t - 1 == s + (t - 1);
    }
  }

  lemma {:induction false} ScaledGrows(a: real, b: real, n: nat)
    requires a < b && 0 < n
    ensures Scaled(a, n) < Scaled(b, n)
  {
    if 1 < n { ScaledGrows(a, b, n - 1); } else { assert Scaled(a, 0) == 0.0 == Scaled(b, 0); }
  }

  lemma {:induction false} ScaledRate(completed: int, terminal: nat)
    requires 0 <= completed <= terminal
    ensures Scaled(Rate(completed, terminal), terminal) == completed as real
  {
    ScaledIs(Rate(completed, terminal), terminal);
    RateTimes(completed, terminal);
  }

  predicate Above(rate: real, c: int, t: int)
  {
    0 < t ==> rate < Rate(c, t)
  }

  predicate Below(rate: real, c: int, t: int)
  {
    0 < t ==> Rate(c, t) < rate
  }

  lemma {:induction false} RateAgainst(rate: real, c: int, t: nat)
    requires 0 <= c <= t
    ensures Above(rate, c, t) ==> Scaled(rate, t) <= c as real && (0 < t ==> Scaled(rate, t) < c as real)
    ensures Below(rate, c, t) ==> Scaled(rate, t) >= c as real && (0 < t ==> Scaled(rate, t) > c as real)
  {
    ScaledRate(c, t);
    if 0 < t && rate < Rate(c, t) { ScaledGrows(rate, Rate(c, t), t); }
    if 0 < t && rate > Rate(c, t) { ScaledGrows(Rate(c, t), rate, t); }
  }

  predicate AppAbove(rows: Rows, g: Group, rate: real)
  {
    Above(rate, SumAt(rows, ViewByApp, g, CompletedOnly), SumAt(rows, ViewByApp, g, Terminal))
  }

  predicate AppBelow(rows: Rows, g: Group, rate: real)
  {
    Below(rate, SumAt(rows, ViewByApp, g, CompletedOnly), SumAt(rows, ViewByApp, g, Terminal))
  }

  lemma {:induction false} AllAbove(rows: Rows, gs: seq<Group>, rate: real)
    requires forall i :: 0 <= i < |gs| ==> AppAbove(rows, gs[i], rate)
    ensures var c, t := SumGroups(rows, ViewByApp, gs, CompletedOnly), SumGroups(rows, ViewByApp, gs, Terminal);
            0 <= t && Scaled(rate, t) <= c as real && (0 < t ==> Scaled(rate, t) < c as real)
  {
    if 0 < |gs| {
      var k := |gs| - 1;
      AllAbove(rows, gs[..k], rate);
      CompletedAmongTerminal(rows, ViewByApp, gs[k]);
      assert AppAbove(rows, gs[k], rate);
      RateAgainst(rate, SumAt(rows, ViewByApp, gs[k], CompletedOnly), SumAt(rows, ViewByApp, gs[k], Terminal));
      ScaledAdds(rate, SumGroups(rows, ViewByApp, gs[..k], Terminal), SumAt(rows, ViewByApp, gs[k], Terminal));
    }
  }

  lemma {:induction false} AllBelow(rows: Rows, gs: seq<Group>, rate: real)
    requires forall i :: 0 <= i < |gs| ==> AppBelow(rows, gs[i], rate)
    ensures var c, t := SumGroups(rows, ViewByApp, gs, CompletedOnly), SumGroups(rows, ViewByApp, gs, Terminal);
            0 <= t && Scaled(rate, t) >= c as real && (0 < t ==> Scaled(rate, t) > c as real)
  {
    if 0 < |gs| {
      var k := |gs| - 1;
      AllBelow(rows, gs[..k], rate);
      CompletedAmongTerminal(rows, ViewByApp, gs[k]);
      assert AppBelow(rows, gs[k], rate);
      RateAgainst(rate, SumAt(rows, ViewByApp, gs[k], CompletedOnly), SumAt(rows, ViewByApp, gs[k], Terminal));
      ScaledAdds(rate, SumGroups(rows, ViewByApp, gs[..k], Terminal), SumAt(rows, ViewByApp, gs[k], Terminal));
    }
  }

  /** Per-app completed and terminal counts add up to the totals. */
  lemma {:induction false} AppsAddUp(rows: Rows, apps: seq<Group>)
    requires Groups(rows, ViewByApp, apps)
    ensures SumGroups(rows, ViewByApp, apps, CompletedOnly) == Sum(rows, CompletedOnly)
    ensures SumGroups(rows, ViewByApp, apps, Terminal) == Sum(rows, Terminal)
            == Sum(rows, CompletedOnly) + Sum(rows, FailedOnly)
    ensures 0 <= Sum(rows, CompletedOnly) <= Sum(rows, Terminal)
  {
    Partition(rows, ViewByApp, apps, CompletedOnly);
    Partition(rows, ViewByApp, apps, Terminal);
    TerminalSplits(rows);
  }

  predicate Fraction(rate: real)
  {
    0.0 <= rate <= 1.0
  }

  /** Completed rows over completed-or-failed rows. */
  function Overall(rows: Rows): real
  {
    Rate(Sum(rows, CompletedOnly), Sum(rows, Terminal))
  }

  lemma {:induction false} OverallIsShown(rows: Rows)
    ensures TotalsOf(rows).successRate == Overall(rows)
  {
    TerminalSplits(rows);
  }

  lemma {:induction false} OverallTimes(rows: Rows)
    ensures Overall(rows) * Sum(rows, Terminal) as real == Sum(rows, CompletedOnly) as real
    ensures Fraction(Overall(rows))
  {
    TerminalSplits(rows);
    RateTimes(Sum(rows, CompletedOnly), Sum(rows, Terminal));
  }

  /** The overall success rate is the average of the per-app rates weighted by their completed-or-failed rows. */
  lemma {:induction false} OverallIsTheAverage(rows: Rows, apps: seq<Group>)
    requires Groups(rows, ViewByApp, apps) && forall i :: 0 <= i < |apps| ==> apps[i].AppGroup?
    ensures Overall(rows) * Sum(rows, Terminal) as real == Weighted(rows, apps)
  {
    OverallTimes(rows);
    assert Weighted(rows, apps) == Sum(rows, CompletedOnly) as real by {
      WeightedIsCompleted(rows, apps);
      Partition(rows, ViewByApp, apps, CompletedOnly);
    }
  }

  lemma {:induction false} SomeAppNotAbove(rows: Rows, apps: seq<Group>, rate: real)
    requires Groups(rows, ViewByApp, apps) && 0 < Sum(rows, Terminal)
    requires Scaled(rate, Sum(rows, Terminal)) == Sum(rows, CompletedOnly) as real
    ensures exists i :: 0 <= i < |apps| && !AppAbove(rows, apps[i], rate)
    ensures exists i :: 0 <= i < |apps| && !AppBelow(rows, apps[i], rate)
  {
    AppsAddUp(rows, apps);
    if forall i :: 0 <= i < |apps| ==> AppAbove(rows, apps[i], rate) { AllAbove(rows, apps, rate); }
    if forall i :: 0 <= i < |apps| ==> AppBelow(rows, apps[i], rate) { AllBelow(rows, apps, rate); }
  }

  lemma {:induction false} AppShowsFraction(rows: Rows, g: Group)
    requires g.AppGroup?
    ensures 0.0 <= ToByApp(AppRow(rows, g)).successRate <= 1.0
  {
    CompletedAmongTerminal(rows, ViewByApp, g);
    RateTimes(AppRow(rows, g).completed, AppRow(rows, g).terminal);
  }

  predicate Fractions(shown: seq<ByApp>)
  {
    forall i :: 0 <= i < |shown| ==> Fraction(shown[i].successRate)
  }

  /** The rate lies between the smallest and the largest rate shown for an app with a completed or failed row. */
  ghost predicate Bracketed(rows: Rows, shown: seq<ByApp>, rate: real)
  {
    && (exists lo ::
          && 0 <= lo < |shown| && 0 < SumAt(rows, ViewByApp, AppGroup(shown[lo].appId), Terminal)
          && shown[lo].successRate <= rate)
    && (exists hi ::
          && 0 <= hi < |shown| && 0 < SumAt(rows, ViewByApp, AppGroup(shown[hi].appId), Terminal)
          && shown[hi].successRate >= rate)
  }

  lemma {:induction false} FractionApps(rows: Rows, apps: seq<Group>, shown: seq<ByApp>)
    requires ListsApps(rows, apps, shown)
    ensures Fractions(shown)
  {
    forall i | 0 <= i < |shown| ensures Fraction(shown[i].successRate) {
      AppShowsFraction(rows, apps[i]);
    }
  }

  lemma {:induction false} NotAboveShows(rows: Rows, g: Group, rate: real)
    requires g.AppGroup?
    ensures !AppAbove(rows, g, rate) ==>
            0 < SumAt(rows, ViewByApp, AppGroup(g.appId), Terminal) && ToByApp(AppRow(rows, g)).successRate <= rate
    ensures !AppBelow(rows, g, rate) ==>
            0 < SumAt(rows, ViewByApp, AppGroup(g.appId), Terminal) && ToByApp(AppRow(rows, g)).successRate >= rate
  {
  }

  lemma {:induction false} BracketApps(rows: Rows, apps: seq<Group>, shown: seq<ByApp>, rate: real)
    requires ListsApps(rows, apps, shown) && 0 < Sum(rows, Terminal)
    requires Scaled(rate, Sum(rows, Terminal)) == Sum(rows, CompletedOnly) as real
    ensures Bracketed(rows, shown, rate)
  {
    SomeAppNotAbove(rows, apps, rate);
    var lo :| 0 <= lo < |apps| && !AppAbove(rows, apps[lo], rate);
    var hi :| 0 <= hi < |apps| && !AppBelow(rows, apps[hi], rate);
    NotAboveShows(rows, apps[lo], rate);
    NotAboveShows(rows, apps[hi], rate);
    assert shown[lo].appId == apps[lo].appId && shown[hi].appId == apps[hi].appId;
  }

  lemma {:induction false} OverallScaled(rows: Rows)
    ensures 0 <= Sum(rows, Terminal)
    ensures Scaled(Overall(rows), Sum(rows, Terminal)) == Sum(rows, CompletedOnly) as real
  {
    TerminalSplits(rows);
    ScaledRate(Sum(rows, CompletedOnly), Sum(rows, Terminal));
  }

  lemma {:induction false} ListIsBracketed(rows: Rows, apps: seq<Group>, shown: seq<ByApp>)
    requires ListsApps(rows, apps, shown)
    ensures Fraction(Overall(rows)) && Fractions(shown)
    ensures 0 < Sum(rows, Terminal) ==> Bracketed(rows, shown, Overall(rows))
  {
    OverallTimes(rows);
    FractionApps(rows, apps, shown);
    OverallScaled(rows);
    if 0 < Sum(rows, Terminal) { BracketApps(rows, apps, shown, Overall(rows)); }
  }

  /** Every rate on the dashboard lies in [0, 1], and as soon as one row is completed or failed the overall
      rate lies between the smallest and the largest rate shown for an app that has such a row. */
  lemma {:induction false} OverallRateIsBracketed(d: Dashboard, rows: Rows, types: seq<Group>, apps: seq<Group>,
                                                  operators: seq<Group>)
    requires Shows(d, rows, types, apps, operators)
    ensures Fraction(d.totals.successRate) && Fractions(d.byApp)
    ensures 0 < Sum(rows, Terminal) ==> Bracketed(rows, d.byApp, d.totals.successRate)
  {
    OverallIsShown(rows);
    ListIsBracketed(rows, apps, d.byApp);
  }

  // --- Ledgers built by the handlers ------------------------------------------------------------------

  /** In every run, whatever the window: the operator entries add up to the payout entry in count and
      amount, and the total amount is the total fee plus the total net. */
  lemma {:induction false} RunsAddUp(acts: seq<Action>, sinceDays: int, now: int, d: Dashboard,
                  types: seq<Group>, apps: seq<Group>, operators: seq<Group>)
    requires Shows(d, Window(Run(acts).w.table, sinceDays, now), types, apps, operators)
    ensures && OperatorCounts(d.byOperator) == EntryOf(d.byType, Payout).count
            && OperatorAmounts(d.byOperator) == EntryOf(d.byType, Payout).amount
            && d.totals.amount == d.totals.fee + d.totals.net
  {
    RunKeeps(acts);
    var rows := Window(Run(acts).w.table, sinceDays, now);
    assert forall p :: p in rows ==> RowOk(p);
    OperatorsAddUp(d, rows, types, apps, operators);
    AmountSplits(rows);
  }

  lemma {:induction false} TypesAnswer(rows: Rows)
    ensures exists types, typeRows :: AnswersTypes(rows, types, typeRows)
  {
    GroupsExist(rows, ViewByType);
    var types: seq<Group> :| Groups(rows, ViewByType, types);
    assert forall i :: 0 <= i < |types| ==> types[i].TypeGroup?;
    var typeRows := seq(|types|, i requires 0 <= i < |types| => TypeRow(rows, types[i]));
    assert AnswersTypes(rows, types, typeRows);
  }

  lemma {:induction false} AppsAnswer(rows: Rows)
    ensures exists apps, shown :: ListsApps(rows, apps, shown)
  {
    GroupsExist(rows, ViewByApp);
    var apps: seq<Group> :| Groups(rows, ViewByApp, apps);
    assert forall i :: 0 <= i < |apps| ==> apps[i].AppGroup?;
    var shown := seq(|apps|, i requires 0 <= i < |apps| => ToByApp(AppRow(rows, apps[i])));
    assert ListsApps(rows, apps, shown);
  }

  lemma {:induction false} OperatorsAnswer(rows: Rows)
    requires forall p :: p in rows ==> p.operator.Some?
    ensures exists operators, operatorRows :: AnswersOperators(rows, operators, operatorRows)
  {
    GroupsExist(rows, ViewByOperator);
    var operators: seq<Group> :| Groups(rows, ViewByOperator, operators);
    assert forall i :: 0 <= i < |operators| ==> operators[i].OperatorGroup? && operators[i].operator.Some?;
    var operatorRows := seq(|operators|, i requires 0 <= i < |operators| => OperatorRow(rows, operators[i]));
    assert AnswersOperators(rows, operators, operatorRows);
  }

  /** Every table and window has a dashboard. */
  lemma {:induction false} DashboardExists(rows: Rows)
    ensures exists d, types, apps, operators :: Shows(d, rows, types, apps, operators)
  {
    TypesAnswer(rows);
    AppsAnswer(rows);
    OperatorsAnswer(OperatorRows(rows));
    var types, typeRows :| AnswersTypes(rows, types, typeRows);
    var apps, shown :| ListsApps(rows, apps, shown);
    var operators, operatorRows :| AnswersOperators(OperatorRows(rows), operators, operatorRows);
    assert Shows(Dashboard(TotalsOf(rows), typeRows, shown, operatorRows), rows, types, apps, operators);
  }
}
