/** What the figures on the dashboard count: rows by their columns, whatever the queries call their measures. */
module StatsCounts {
  import opened Model
  import opened Table
  import opened Stats

  // --- Plain counts and sums over rows ----------------------------------------------------------

  /** How many rows satisfy `p`: the size of the set of their positions. */
  function HowMany(rows: Rows, p: Payment -> bool): nat
  {
    |set i | 0 <= i < |rows| && p(rows[i])|
  }

  /** x1 + ... + xn. */
  function Total(xs: seq<int>): int
  {
    if |xs| == 0 then 0 else Total(xs[..|xs| - 1]) + xs[|xs| - 1]
  }

  /** The values `f` takes on the rows that satisfy `p`, and 0 on the others. */
  function Column(rows: Rows, p: Payment -> bool, f: Payment -> int): seq<int>
  {
    seq(|rows|, i requires 0 <= i < |rows| => if p(rows[i]) then f(rows[i]) else 0)
  }

  lemma {:induction false} CountSnoc(rows: Rows, p: Payment -> bool)
    requires 0 < |rows|
    ensures var n := |rows| - 1; HowMany(rows, p) == HowMany(rows[..n], p) + (if p(rows[n]) then 1 else 0)
  {
    var n := |rows| - 1;
    var before := set i | 0 <= i < n && p(rows[..n][i]);
    var all := set i | 0 <= i < |rows| && p(rows[i]);
    assert forall i :: 0 <= i < n ==> rows[..n][i] == rows[i];
    assert all == before + (if p(rows[n]) then {n} else {});
  }

  lemma {:induction false} ColumnSnoc(rows: Rows, p: Payment -> bool, f: Payment -> int)
    requires 0 < |rows|
    ensures var n := |rows| - 1;
            Total(Column(rows, p, f)) == Total(Column(rows[..n], p, f)) + (if p(rows[n]) then f(rows[n]) else 0)
  {
    var n := |rows| - 1;
    assert Column(rows, p, f)[..n] == Column(rows[..n], p, f);
  }

  // --- The sums of the queries -------------------------------------------------------------------------

  predicate Any(p: Payment)
  {
    true
  }

  predicate Succeeded(p: Payment)
  {
    p.status == Completed
  }

  predicate Broke(p: Payment)
  {
    p.status == Status.Failed
  }

  function AmountOf(p: Payment): int
  {
    p.amount
  }

  function FeeOf(p: Payment): int
  {
    p.fee
  }

  /** The net column, or amount less fee where there is none. */
  function NetOf(p: Payment): int
  {
    match p.net
    case Some(net) => net
    case None => p.amount - p.fee
  }

  lemma {:induction false} SumsCount(rows: Rows)
    ensures Sum(rows, Count) == |rows|
    ensures Sum(rows, CompletedOnly) == HowMany(rows, Succeeded) && Sum(rows, FailedOnly) == HowMany(rows, Broke)
  {
    if 0 < |rows| {
      SumsCount(rows[..|rows| - 1]);
      CountSnoc(rows, Succeeded);
      CountSnoc(rows, Broke);
    }
  }

  lemma {:induction false} SumsAdd(rows: Rows)
    ensures Sum(rows, Amount) == Total(Column(rows, Any, AmountOf))
    ensures Sum(rows, Fee) == Total(Column(rows, Any, FeeOf))
    ensures Sum(rows, Net) == Total(Column(rows, Any, NetOf))
  {
    if 0 < |rows| {
      SumsAdd(rows[..|rows| - 1]);
      ColumnSnoc(rows, Any, AmountOf);
      ColumnSnoc(rows, Any, FeeOf);
      ColumnSnoc(rows, Any, NetOf);
    }
  }

  function OfApp(appId: string): Payment -> bool
  {
    (p: Payment) => p.appId == appId
  }

  function OfType(typ: PaymentType): Payment -> bool
  {
    (p: Payment) => p.typ == typ
  }

  /** A payout that names this operator. */
  function OfOperator(operator: string): Payment -> bool
  {
    (p: Payment) => p.typ.Payout? && p.operator == Some(operator)
  }

  function Both(p: Payment -> bool, q: Payment -> bool): Payment -> bool
  {
    (r: Payment) => p(r) && q(r)
  }

  lemma {:induction false} GroupCounts(rows: Rows, v: View, g: Group, p: Payment -> bool)
    requires forall r :: GroupOf(v, r) == g <==> p(r)
    ensures SumAt(rows, v, g, Count) == HowMany(rows, p)
  {
    if 0 < |rows| {
      GroupCounts(rows[..|rows| - 1], v, g, p);
      CountSnoc(rows, p);
    }
  }

  lemma {:induction false} GroupSucceeds(rows: Rows, v: View, g: Group, p: Payment -> bool)
    requires forall r :: GroupOf(v, r) == g <==> p(r)
    ensures SumAt(rows, v, g, CompletedOnly) == HowMany(rows, Both(p, Succeeded))
    ensures SumAt(rows, v, g, Terminal) == HowMany(rows, Both(p, Succeeded)) + HowMany(rows, Both(p, Broke))
  {
    if 0 < |rows| {
      GroupSucceeds(rows[..|rows| - 1], v, g, p);
      CountSnoc(rows, Both(p, Succeeded));
      CountSnoc(rows, Both(p, Broke));
    }
  }

  lemma {:induction false} GroupAdds(rows: Rows, v: View, g: Group, p: Payment -> bool)
    requires forall r :: GroupOf(v, r) == g <==> p(r)
    ensures SumAt(rows, v, g, Amount) == Total(Column(rows, p, AmountOf))
    ensures SumAt(rows, v, g, Fee) == Total(Column(rows, p, FeeOf))
  {
    if 0 < |rows| {
      GroupAdds(rows[..|rows| - 1], v, g, p);
      ColumnSnoc(rows, p, AmountOf);
      ColumnSnoc(rows, p, FeeOf);
    }
  }

  // --- The totals ---------------------------------------------------------------------------------------

  /** A success rate over `done` completed and `broken` failed rows. */
  predicate RateOf(rate: real, done: nat, broken: nat)
  {
    if done + broken == 0 then rate == 0.0 else rate * (done + broken) as real == done as real
  }

  lemma {:induction false} RateOfIs(done: nat, broken: nat)
    ensures RateOf(Rate(done, done + broken), done, broken)
  {
    RateTimes(done, done + broken);
  }

  /** Once something is completed or failed, the rate is 1 exactly when nothing failed and 0 exactly when
      nothing is completed. */
  lemma {:induction false} RateEnds(rate: real, done: nat, broken: nat)
    requires RateOf(rate, done, broken) && 0 < done + broken
    ensures rate == 1.0 <==> broken == 0
    ensures rate == 0.0 <==> done == 0
  {
    var n := (done + broken) as real;
    assert n == done as real + broken as real && 0.0 < n;
    assert rate == 1.0 ==> rate * n == n;
    assert rate == 0.0 ==> rate * n == 0.0;
    assert rate * n - n == (rate - 1.0) * n;
  }

  /** The totals count the rows, the completed and the failed ones, and add up the amounts, fees and nets of
      the rows; the rate is the share of the completed among the two. */
  predicate TotalsCounted(rows: Rows, t: Totals)
  {
    && t.count == |rows| && t.completed == HowMany(rows, Succeeded) && t.failed == HowMany(rows, Broke)
    && t.amount == Total(Column(rows, Any, AmountOf)) && t.fee == Total(Column(rows, Any, FeeOf))
    && t.net == Total(Column(rows, Any, NetOf))
    && RateOf(t.successRate, HowMany(rows, Succeeded), HowMany(rows, Broke))
  }

  lemma {:induction false} TotalsCount(rows: Rows)
    ensures TotalsCounted(rows, TotalsOf(rows))
  {
    SumsCount(rows);
    SumsAdd(rows);
    RateOfIs(HowMany(rows, Succeeded), HowMany(rows, Broke));
  }

  // --- The entries of the lists ----------------------------------------------------------------------

  /** By type: as many rows as have the type, their amounts and their fees. */
  predicate TypeCounted(rows: Rows, e: ByType)
  {
    && e.count == HowMany(rows, OfType(e.typ))
    && e.amount == Total(Column(rows, OfType(e.typ), AmountOf))
    && e.fee == Total(Column(rows, OfType(e.typ), FeeOf))
  }

  /** By app: the same over the rows of the app, and the share of the completed among the completed and failed. */
  predicate AppCounted(rows: Rows, e: ByApp)
  {
    && e.count == HowMany(rows, OfApp(e.appId))
    && e.amount == Total(Column(rows, OfApp(e.appId), AmountOf))
    && e.fee == Total(Column(rows, OfApp(e.appId), FeeOf))
    && RateOf(e.successRate, HowMany(rows, Both(OfApp(e.appId), Succeeded)),
              HowMany(rows, Both(OfApp(e.appId), Broke)))
  }

  /** By operator: the payouts that name the operator, and their amounts. */
  predicate OperatorCounted(rows: Rows, e: ByOperator)
  {
    && e.count == HowMany(rows, OfOperator(e.operator))
    && e.amount == Total(Column(rows, OfOperator(e.operator), AmountOf))
  }

  lemma {:induction false} TypeRowCounts(rows: Rows, typ: PaymentType)
    ensures TypeCounted(rows, TypeRow(rows, TypeGroup(typ)))
  {
    GroupCounts(rows, ViewByType, TypeGroup(typ), OfType(typ));
    GroupAdds(rows, ViewByType, TypeGroup(typ), OfType(typ));
  }

  lemma {:induction false} AppRowCounts(rows: Rows, appId: string)
    ensures AppCounted(rows, ToByApp(AppRow(rows, AppGroup(appId))))
  {
    GroupCounts(rows, ViewByApp, AppGroup(appId), OfApp(appId));
    GroupAdds(rows, ViewByApp, AppGroup(appId), OfApp(appId));
    GroupSucceeds(rows, ViewByApp, AppGroup(appId), OfApp(appId));
    RateOfIs(HowMany(rows, Both(OfApp(appId), Succeeded)), HowMany(rows, Both(OfApp(appId), Broke)));
  }

  lemma {:induction false} OperatorSnoc(rows: Rows, operator: string, m: Measure)
    requires 0 < |rows|
    ensures var n := |rows| - 1;
            var g := OperatorGroup(Some(operator));
            SumAt(OperatorRows(rows), ViewByOperator, g, m) ==
            SumAt(OperatorRows(rows[..n]), ViewByOperator, g, m)
            + (if OfOperator(operator)(rows[n]) then Of(m, rows[n]) else 0)
  {
    var before, p := OperatorRows(rows[..|rows| - 1]), rows[|rows| - 1];
    assert (before + [p])[..|before|] == before;
  }

  lemma {:induction false} OperatorSums(rows: Rows, operator: string)
    ensures var g := OperatorGroup(Some(operator));
            && SumAt(OperatorRows(rows), ViewByOperator, g, Count) == HowMany(rows, OfOperator(operator))
            && SumAt(OperatorRows(rows), ViewByOperator, g, Amount) ==
               Total(Column(rows, OfOperator(operator), AmountOf))
  {
    if 0 < |rows| {
      OperatorSums(rows[..|rows| - 1], operator);
      OperatorSnoc(rows, operator, Count);
      OperatorSnoc(rows, operator, Amount);
      CountSnoc(rows, OfOperator(operator));
      ColumnSnoc(rows, OfOperator(operator), AmountOf);
    }
  }

  ghost predicate TypesCounted(rows: Rows, list: seq<ByType>)
  {
    forall i :: 0 <= i < |list| ==> TypeCounted(rows, list[i])
  }

  ghost predicate AppsCounted(rows: Rows, list: seq<ByApp>)
  {
    forall i :: 0 <= i < |list| ==> AppCounted(rows, list[i])
  }

  ghost predicate OperatorsCounted(rows: Rows, list: seq<ByOperator>)
  {
    forall i :: 0 <= i < |list| ==> OperatorCounted(rows, list[i])
  }

  lemma {:induction false} TypesCount(rows: Rows, types: seq<Group>, list: seq<ByType>)
    requires AnswersTypes(rows, types, list)
    ensures TypesCounted(rows, list)
  {
    forall i | 0 <= i < |list| ensures TypeCounted(rows, list[i]) {
      TypeRowCounts(rows, types[i].typ);
    }
  }

  lemma {:induction false} AppsCount(rows: Rows, apps: seq<Group>, list: seq<ByApp>)
    requires ListsApps(rows, apps, list)
    ensures AppsCounted(rows, list)
  {
    forall i | 0 <= i < |list| ensures AppCounted(rows, list[i]) {
      AppRowCounts(rows, apps[i].appId);
    }
  }

  lemma {:induction false} OperatorsCount(rows: Rows, operators: seq<Group>, list: seq<ByOperator>)
    requires AnswersOperators(OperatorRows(rows), operators, list)
    ensures OperatorsCounted(rows, list)
  {
    forall i | 0 <= i < |list| ensures OperatorCounted(rows, list[i]) {
      OperatorSums(rows, operators[i].operator.value);
    }
  }

  /** On every dashboard the totals and every entry of the three lists count exactly the rows they are about. */
  lemma {:induction false} DashboardCounts(d: Dashboard, rows: Rows, types: seq<Group>, apps: seq<Group>,
                                           operators: seq<Group>)
    requires Shows(d, rows, types, apps, operators)
    ensures TotalsCounted(rows, d.totals)
    ensures TypesCounted(rows, d.byType) && AppsCounted(rows, d.byApp) && OperatorsCounted(rows, d.byOperator)
  {
    TotalsCount(rows);
    TypesCount(rows, types, d.byType);
    AppsCount(rows, apps, d.byApp);
    OperatorsCount(rows, operators, d.byOperator);
  }

  // --- The rates at their ends --------------------------------------------------------------------------

  /** The rate over the rows of `p` is 1 exactly when one of them is completed and none failed, and 0 exactly
      when none of them is completed. */
  ghost predicate RateSays(rows: Rows, p: Payment -> bool, rate: real)
  {
    && (rate == 1.0 <==> (exists r :: r in rows && p(r) && r.status == Completed)
                         && forall r :: r in rows && p(r) ==> r.status != Status.Failed)
    && (rate == 0.0 <==> forall r :: r in rows && p(r) ==> r.status != Completed)
  }

  lemma {:induction false} SomeCounted(rows: Rows, p: Payment -> bool)
    ensures 0 < HowMany(rows, p) <==> exists r :: r in rows && p(r)
  {
    var s := set i | 0 <= i < |rows| && p(rows[i]);
    if 0 < |s| {
      var i :| i in s;
    }
    if r :| r in rows && p(r) {
      var i :| 0 <= i < |rows| && rows[i] == r;
      assert i in s;
    }
  }

  lemma {:induction false} RateOfRows(rows: Rows, p: Payment -> bool, rate: real)
    requires RateOf(rate, HowMany(rows, Both(p, Succeeded)), HowMany(rows, Both(p, Broke)))
    ensures RateSays(rows, p, rate)
  {
    var good, bad := Both(p, Succeeded), Both(p, Broke);
    SomeCounted(rows, good);
    SomeCounted(rows, bad);
    assert forall r :: good(r) <==> p(r) && r.status == Completed;
    assert forall r :: bad(r) <==> p(r) && r.status == Status.Failed;
    if 0 < HowMany(rows, good) + HowMany(rows, bad) {
      RateEnds(rate, HowMany(rows, good), HowMany(rows, bad));
    }
  }

  lemma {:induction false} AllOfThem(rows: Rows, p: Payment -> bool)
    ensures HowMany(rows, Both(Any, p)) == HowMany(rows, p)
  {
    if 0 < |rows| {
      AllOfThem(rows[..|rows| - 1], p);
      CountSnoc(rows, p);
      CountSnoc(rows, Both(Any, p));
    }
  }

  /** So are the rates the dashboard shows, overall and for every app. */
  lemma {:induction false} RatesAtTheEnds(d: Dashboard, rows: Rows, types: seq<Group>, apps: seq<Group>,
                                          operators: seq<Group>)
    requires Shows(d, rows, types, apps, operators)
    ensures RateSays(rows, Any, d.totals.successRate)
    ensures forall i :: 0 <= i < |d.byApp| ==> RateSays(rows, OfApp(d.byApp[i].appId), d.byApp[i].successRate)
  {
    DashboardCounts(d, rows, types, apps, operators);
    AllOfThem(rows, Succeeded);
    AllOfThem(rows, Broke);
    RateOfRows(rows, Any, d.totals.successRate);
    AppRatesSay(rows, d.byApp);
  }

  lemma {:induction false} AppRatesSay(rows: Rows, list: seq<ByApp>)
    requires AppsCounted(rows, list)
    ensures forall i :: 0 <= i < |list| ==> RateSays(rows, OfApp(list[i].appId), list[i].successRate)
  {
    forall i | 0 <= i < |list| ensures RateSays(rows, OfApp(list[i].appId), list[i].successRate) {
      assert AppCounted(rows, list[i]);
      RateOfRows(rows, OfApp(list[i].appId), list[i].successRate);
    }
  }

  // --- Windows ------------------------------------------------------------------------------------------

  /** A window of n days, n positive, keeps each row as often as it occurs, exactly when it was created in the
      last n times 86,400 seconds; any other window keeps all rows. */
  lemma {:induction false} WindowKeeps(rows: Rows, sinceDays: int, now: int, p: Payment)
    ensures multiset(Window(rows, sinceDays, now))[p] ==
            if sinceDays <= 0 || now - 86_400 * sinceDays <= p.createdAt then multiset(rows)[p] else 0
  {
    if 0 < |rows| {
      WindowKeeps(rows[..|rows| - 1], sinceDays, now, p);
      assert rows == rows[..|rows| - 1] + [rows[|rows| - 1]];
    }
  }
}
