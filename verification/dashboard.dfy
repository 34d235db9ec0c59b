/** The dashboard: per-status tallies, the budget roll-up and the list of
    contracts that need attention, critical ones first. */
module Dashboard {
  import opened Wrappers
  import opened Text
  import opened Domain
  import opened Constants
  import opened Store

  /** The keys of `statusSummary`. */
  const LiveLabels: set<string> := {"시작 전", "진행 중", "대기", "지연", "완료"}

  datatype Tally = Tally(count: nat, amount: nat)

  // ---------------------------------------------------------------------
  // What each contract contributes

  /** `budget > 0 ? budget : amount`: the budget, or the legacy amount when no budget is set. */
  function DisplayAmount(c: Contract): nat {
    if c.budget > 0 then c.budget else c.amount
  }

  /** `executionAmount > 0 ? executionAmount : amount`. */
  function SpentAmount(c: Contract): nat {
    if c.executionAmount > 0 then c.executionAmount else c.amount
  }

  /** IN_PROGRESS, WAITING and DELAYED hold allocated budget. */
  predicate Active(c: Contract) {
    c.status == InProgress || c.status == Waiting || c.status == Delayed
  }

  /** The sum of `f` over `cs`. */
  function Sum(cs: seq<Contract>, f: Contract -> nat): nat {
    if cs == [] then 0 else Sum(cs[..|cs| - 1], f) + f(cs[|cs| - 1])
  }

  function Count(cs: seq<Contract>, s: Status): nat {
    Sum(cs, (c: Contract) => if c.status == s then 1 else 0)
  }

  function StatusAmount(cs: seq<Contract>, s: Status): nat {
    Sum(cs, (c: Contract) => if c.status == s then DisplayAmount(c) else 0)
  }

  function Allocated(cs: seq<Contract>): nat {
    Sum(cs, (c: Contract) => if Active(c) then DisplayAmount(c) else 0)
  }

  function Contracted(cs: seq<Contract>): nat {
    Sum(cs, (c: Contract) => if Active(c) then c.contractAmount else 0)
  }

  function Executed(cs: seq<Contract>): nat {
    Sum(cs, (c: Contract) => if c.status == Completed then SpentAmount(c) else 0)
  }

  /** A sum of pointwise sums is the sum of the sums. */
  lemma {:induction false} SumSplits(cs: seq<Contract>, f: Contract -> nat, g: Contract -> nat, h: Contract -> nat)
    requires forall c :: h(c) == f(c) + g(c)
    ensures Sum(cs, h) == Sum(cs, f) + Sum(cs, g)
  {
    if cs != [] {
      SumSplits(cs[..|cs| - 1], f, g, h);
    }
  }

  /** The allocated budget is exactly the summary amount of the three active
      statuses. */
  lemma AllocatedIsActiveAmounts(cs: seq<Contract>)
    ensures Allocated(cs) == StatusAmount(cs, InProgress) + StatusAmount(cs, Waiting) + StatusAmount(cs, Delayed)
  {
    var inProgress := (c: Contract) => if c.status == InProgress then DisplayAmount(c) else 0;
    var waiting := (c: Contract) => if c.status == Waiting then DisplayAmount(c) else 0;
    var delayed := (c: Contract) => if c.status == Delayed then DisplayAmount(c) else 0;
    var first := (c: Contract) => inProgress(c) + waiting(c);
    SumSplits(cs, inProgress, waiting, first);
    SumSplits(cs, first, delayed, c => if Active(c) then DisplayAmount(c) else 0);
  }

  /** Over live contracts the five counts add up to the number of contracts. */
  lemma {:induction false} CountsAddUp(cs: seq<Contract>)
    requires forall i :: 0 <= i < |cs| ==> cs[i].status != Deleted
    ensures Count(cs, BeforeStart) + Count(cs, InProgress) + Count(cs, Waiting)
      + Count(cs, Delayed) + Count(cs, Completed) == |cs|
  {
    if cs != [] {
      CountsAddUp(cs[..|cs| - 1]);
    }
  }

  // ---------------------------------------------------------------------
  // The budget figures

  /** `executedAmount * 1000n / totalBudget`: the execution rate in tenths of
      a percent, 0 without a budget. */
  function RatePermille(total: int, executed: nat): nat {
    if total > 0 then executed * 1000 / total else 0
  }

  /** Spending within the budget is a rate of at most 100.0%, and the whole
      budget is exactly 100.0%. */
  lemma RateBounds(total: int, executed: nat)
    requires total > 0 && executed <= total
    ensures RatePermille(total, executed) <= 1000
    ensures executed == total ==> RatePermille(total, executed) == 1000
  {
    var q := executed * 1000 / total;
    assert executed * 1000 == q * total + executed * 1000 % total;
    MulMono(executed, total, 1000);
    if q > 1000 {
      MulMono(1001, q, total);
    }
    if executed == total {
      QuotientIs(executed * 1000, total, 1000);
    }
  }

  datatype Budget = Budget(total: int, allocatedAmount: nat, contractedAmount: nat, executedAmount: nat, remaining: int, ratePermille: nat)

  /** The budget block: `remaining` is not clamped and goes negative when
      allocations and spending exceed the budget. */
  function BudgetOf(total: int, cs: seq<Contract>): (b: Budget)
    ensures b.remaining == b.total - b.allocatedAmount - b.executedAmount
    ensures b.total <= 0 ==> b.ratePermille == 0
  {
    Budget(total, Allocated(cs), Contracted(cs), Executed(cs), total - Allocated(cs) - Executed(cs),
      RatePermille(total, Executed(cs)))
  }

  /** `statusSummary` after tallying `cs`: one entry per live status label,
      holding how many contracts have that status and their display amounts. */
  predicate SummaryOf(summary: map<string, Tally>, cs: seq<Contract>) {
    && summary.Keys == LiveLabels
    && forall s :: s != Deleted ==>
         StatusLabel(s) in summary && summary[StatusLabel(s)] == Tally(Count(cs, s), StatusAmount(cs, s))
  }

  /** One contract counted into the summary; a label outside the summary
      (that of DELETED) is skipped. */
  function Tallied(summary: map<string, Tally>, c: Contract): map<string, Tally> {
    var statusLabel := StatusLabel(c.status);
    if statusLabel in summary then
      summary[statusLabel := Tally(summary[statusLabel].count + 1, summary[statusLabel].amount + DisplayAmount(c))]
    else summary
  }

  lemma TalliedStep(summary: map<string, Tally>, cs: seq<Contract>, c: Contract)
    requires SummaryOf(summary, cs)
    ensures SummaryOf(Tallied(summary, c), cs + [c])
  {
    StatusLabelsDistinct();
    assert (cs + [c])[..|cs|] == cs;
    forall s | s != Deleted
      ensures Count(cs + [c], s) == Count(cs, s) + (if c.status == s then 1 else 0)
      ensures StatusAmount(cs + [c], s) == StatusAmount(cs, s) + (if c.status == s then DisplayAmount(c) else 0)
    {
    }
  }

  /** The tally loop: every contract counts once under its label and adds its
      display amount; the active ones add to the allocated and contracted
      sums and the completed ones to the executed sum. */
  method Aggregate(cs: seq<Contract>) returns (summary: map<string, Tally>, allocatedAmount: nat, contractedAmount: nat, executedAmount: nat)
    ensures SummaryOf(summary, cs)
    ensures allocatedAmount == Allocated(cs) && contractedAmount == Contracted(cs) && executedAmount == Executed(cs)
  {
    summary := map[
      StatusLabel(BeforeStart) := Tally(0, 0), StatusLabel(InProgress) := Tally(0, 0),
      StatusLabel(Waiting) := Tally(0, 0), StatusLabel(Delayed) := Tally(0, 0),
      StatusLabel(Completed) := Tally(0, 0)];
    allocatedAmount, contractedAmount, executedAmount := 0, 0, 0;
    for k := 0 to |cs|
      invariant SummaryOf(summary, cs[..k])
      invariant allocatedAmount == Allocated(cs[..k]) && contractedAmount == Contracted(cs[..k]) && executedAmount == Executed(cs[..k])
    {
      var c := cs[k];
      assert cs[..k + 1] == cs[..k] + [c];
      TalliedStep(summary, cs[..k], c);
      var statusLabel := StatusLabel(c.status);
      var displayAmount := DisplayAmount(c);
      if statusLabel in summary {
        summary := summary[statusLabel := Tally(summary[statusLabel].count + 1, summary[statusLabel].amount + displayAmount)];
      }
      if Active(c) {
        allocatedAmount := allocatedAmount + DisplayAmount(c);
        contractedAmount := contractedAmount + c.contractAmount;
      }
      if c.status == Completed {
        executedAmount := executedAmount + SpentAmount(c);
      }
    }
    assert cs[..|cs|] == cs;
  }

  // ---------------------------------------------------------------------
  // Alerts

  datatype Level = Critical | Warning

  /** Which branch of the alert cascade fired. */
  datatype Rule = DelayedStatus | EndPassed | EndSoon | DeadlineCritical | DeadlineWarning | LongWait

  /** Day counts the caller supplies for a contract: `ceil` of the days until
      the contract end and until the deadline, and `floor` of the days since
      the last update. */
  datatype DayCounts = DayCounts(toEnd: int, toDeadline: int, sinceUpdate: int)

  datatype Alert = Alert(contractId: string, title: string, level: Level, reason: string, deadline: Option<string>)

  /** The cascade: the first rule that applies, if any. `endWarning` is
      `ALERT_THRESHOLDS.CONTRACT_END_WARNING`; `None` is `undefined`, against
      which every comparison is false. */
  function RuleFor(c: Contract, d: DayCounts, endWarning: Option<int>): Option<Rule> {
    if c.status == Completed || c.status == BeforeStart then None
    else if c.status == Delayed then Some(DelayedStatus)
    else if c.stage == Signed && c.contractEnd.Some? && d.toEnd < 0 then Some(EndPassed)
    else if c.stage == Signed && c.contractEnd.Some? && endWarning.Some? && d.toEnd <= endWarning.value then Some(EndSoon)
    else if c.deadline.Some? && d.toDeadline <= CriticalDays && d.toDeadline >= 0 then Some(DeadlineCritical)
    else if c.deadline.Some? && d.toDeadline <= WarningDays && d.toDeadline > CriticalDays then Some(DeadlineWarning)
    else if c.status == Waiting && d.sinceUpdate >= WaitingDays then Some(LongWait)
    else None
  }

  function LevelOf(rule: Rule): Level {
    match rule
    case DelayedStatus => Critical
    case EndPassed => Critical
    case DeadlineCritical => Critical
    case _ => Warning
  }

  /** `date?.toISOString().split('T')[0] || null`. */
  function DayText(t: Option<int>, host: Host): Option<string> {
    match t
    case Some(v) => Some(host.isoDay(v))
    case None => None
  }

  /** The alert pushed for a contract under `rule`. */
  function AlertOf(c: Contract, rule: Rule, d: DayCounts, host: Host): (a: Alert)
    ensures a.contractId == c.id && a.title == c.title && a.level == LevelOf(rule)
  {
    match rule
    case DelayedStatus => Alert(c.id, c.title, Critical, "상태: 지연", DayText(c.deadline, host))
    case EndPassed => Alert(c.id, c.title, Critical, "계약종료 " + IntToString(-d.toEnd) + "일 경과", DayText(c.contractEnd, host))
    case EndSoon => Alert(c.id, c.title, Warning, "계약종료 D-" + IntToString(d.toEnd), DayText(c.contractEnd, host))
    case DeadlineCritical => Alert(c.id, c.title, Critical, "마감 D-" + IntToString(d.toDeadline), DayText(c.deadline, host))
    case DeadlineWarning => Alert(c.id, c.title, Warning, "마감 D-" + IntToString(d.toDeadline), DayText(c.deadline, host))
    case LongWait => Alert(c.id, c.title, Warning, "대기 " + IntToString(d.sinceUpdate) + "일", DayText(c.deadline, host))
  }

  /** The text of the alert the cascade raises. A passed contract end is
      reported as a positive number of days, the other counts are written
      without a sign, and a deadline count is a single digit. The date shown
      is the contract end for the contract-end rules and the deadline
      otherwise. */
  lemma AlertTexts(c: Contract, d: DayCounts, endWarning: Option<int>, host: Host)
    requires RuleFor(c, d, endWarning).Some?
    ensures var rule := RuleFor(c, d, endWarning).value; var a := AlertOf(c, rule, d, host);
      rule == DelayedStatus ==> a.reason == "상태: 지연" && a.deadline == DayText(c.deadline, host)
    ensures var rule := RuleFor(c, d, endWarning).value; var a := AlertOf(c, rule, d, host);
      rule == EndPassed ==>
        && -d.toEnd > 0 && a.reason == "계약종료 " + NatToString(-d.toEnd) + "일 경과"
        && a.deadline == DayText(c.contractEnd, host) && a.deadline.Some?
    ensures var rule := RuleFor(c, d, endWarning).value; var a := AlertOf(c, rule, d, host);
      rule == EndSoon ==>
        && d.toEnd >= 0 && a.reason == "계약종료 D-" + NatToString(d.toEnd)
        && a.deadline == DayText(c.contractEnd, host) && a.deadline.Some?
    ensures var rule := RuleFor(c, d, endWarning).value; var a := AlertOf(c, rule, d, host);
      (rule == DeadlineCritical || rule == DeadlineWarning) ==>
        && 0 <= d.toDeadline <= 7 && a.reason == "마감 D-" + [DigitChar(d.toDeadline)]
        && a.deadline == DayText(c.deadline, host) && a.deadline.Some?
    ensures var rule := RuleFor(c, d, endWarning).value; var a := AlertOf(c, rule, d, host);
      rule == LongWait ==>
        && d.sinceUpdate >= 7 && a.reason == "대기 " + NatToString(d.sinceUpdate) + "일"
        && a.deadline == DayText(c.deadline, host)
  {
  }

  /** The alerts of `cs` in contract order, at most one per contract. */
  function AlertsOf(cs: seq<Contract>, clock: Contract -> DayCounts, endWarning: Option<int>, host: Host): (r: seq<Alert>)
    ensures |r| <= |cs|
  {
    if cs == [] then []
    else
      var c := cs[|cs| - 1];
      AlertsOf(cs[..|cs| - 1], clock, endWarning, host)
      + match RuleFor(c, clock(c), endWarning)
        case Some(rule) => [AlertOf(c, rule, clock(c), host)]
        case None => []
  }

  /** The alert loop: each branch pushes and moves on to the next contract. */
  method CollectAlerts(cs: seq<Contract>, clock: Contract -> DayCounts, endWarning: Option<int>, host: Host)
    returns (alerts: seq<Alert>)
    ensures alerts == AlertsOf(cs, clock, endWarning, host)
  {
    alerts := [];
    for k := 0 to |cs|
      invariant alerts == AlertsOf(cs[..k], clock, endWarning, host)
    {
      assert cs[..k + 1][..k] == cs[..k];
      var c := cs[k];
      var d := clock(c);
      if c.status == Completed || c.status == BeforeStart {
        continue;
      }
      if c.status == Delayed {
        alerts := alerts + [AlertOf(c, DelayedStatus, d, host)];
        continue;
      }
      if c.stage == Signed && c.contractEnd.Some? {
        if d.toEnd < 0 {
          alerts := alerts + [AlertOf(c, EndPassed, d, host)];
          continue;
        }
        if endWarning.Some? && d.toEnd <= endWarning.value {
          alerts := alerts + [AlertOf(c, EndSoon, d, host)];
          continue;
        }
      }
      if c.deadline.Some? {
        if d.toDeadline <= CriticalDays && d.toDeadline >= 0 {
          alerts := alerts + [AlertOf(c, DeadlineCritical, d, host)];
          continue;
        }
        if d.toDeadline <= WarningDays && d.toDeadline > CriticalDays {
          alerts := alerts + [AlertOf(c, DeadlineWarning, d, host)];
          continue;
        }
      }
      if c.status == Waiting && d.sinceUpdate >= WaitingDays {
        alerts := alerts + [AlertOf(c, LongWait, d, host)];
      }
    }
    assert cs[..|cs|] == cs;
  }

  /** Completed and not-yet-started contracts never alert; a delayed one
      always gets the critical status alert, whatever its dates. */
  lemma CascadeHead(c: Contract, d: DayCounts, endWarning: Option<int>)
    ensures c.status == Completed || c.status == BeforeStart ==> RuleFor(c, d, endWarning) == None
    ensures c.status == Delayed ==> RuleFor(c, d, endWarning) == Some(DelayedStatus)
  {
  }

  /** Away from the contract-end rules, a deadline 0..3 days ahead is critical,
      4..7 days ahead a warning, and a passed or distant deadline gives no
      deadline alert. */
  lemma DeadlineWindows(c: Contract, d: DayCounts, endWarning: Option<int>)
    requires c.status == InProgress && c.stage != Signed && c.deadline.Some?
    ensures RuleFor(c, d, endWarning) == Some(DeadlineCritical) <==> 0 <= d.toDeadline <= 3
    ensures RuleFor(c, d, endWarning) == Some(DeadlineWarning) <==> 3 < d.toDeadline <= 7
    ensures d.toDeadline < 0 || d.toDeadline > 7 ==> RuleFor(c, d, endWarning) == None
  {
  }

  /** A waiting contract untouched for a week or more is flagged when no
      earlier rule applies. */
  lemma LongWaitRule(c: Contract, d: DayCounts, endWarning: Option<int>)
    requires c.status == Waiting && c.stage != Signed && c.deadline.None?
    ensures RuleFor(c, d, endWarning) == Some(LongWait) <==> d.sinceUpdate >= 7
    ensures d.sinceUpdate < 7 ==> RuleFor(c, d, endWarning) == None
  {
  }

  /** As written the threshold is undefined: the contract-end warning never
      fires, and a signed contract ending soon falls through to the deadline
      rules. */
  lemma EndWarningNeverFires(c: Contract, d: DayCounts)
    ensures RuleFor(c, d, None) != Some(EndSoon)
    ensures c.status == InProgress && c.stage == Signed && c.contractEnd.Some? && c.deadline.None? && d.toEnd >= 0
      ==> RuleFor(c, d, None) == None
  {
  }

  /** With the intended five-day threshold a signed contract ending within
      0..5 days gets the warning, ahead of any deadline rule. */
  lemma EndWarningWithThreshold(c: Contract, d: DayCounts)
    requires c.status == InProgress || c.status == Waiting
    requires c.stage == Signed && c.contractEnd.Some?
    ensures RuleFor(c, d, Some(5)) == Some(EndSoon) <==> 0 <= d.toEnd <= 5
  {
  }

  // ---------------------------------------------------------------------
  // The critical-first order

  function OfLevel(alerts: seq<Alert>, level: Level): (r: seq<Alert>)
    ensures |r| <= |alerts|
    ensures forall i :: 0 <= i < |r| ==> r[i].level == level
    ensures multiset(r) <= multiset(alerts)
  {
    if alerts == [] then []
    else
      var last := alerts[|alerts| - 1];
      assert alerts == alerts[..|alerts| - 1] + [last];
      OfLevel(alerts[..|alerts| - 1], level) + (if last.level == level then [last] else [])
  }

  /** `alerts.sort` with the critical-before-warning comparator: the sort is
      stable, so each level keeps its input order. */
  function CriticalFirst(alerts: seq<Alert>): seq<Alert> {
    OfLevel(alerts, Critical) + OfLevel(alerts, Warning)
  }

  lemma {:induction false} LevelsPartition(alerts: seq<Alert>)
    ensures multiset(OfLevel(alerts, Critical)) + multiset(OfLevel(alerts, Warning)) == multiset(alerts)
  {
    if alerts != [] {
      var front := alerts[..|alerts| - 1];
      LevelsPartition(front);
      PartitionStep(front, alerts[|alerts| - 1]);
      assert front + [alerts[|alerts| - 1]] == alerts;
    }
  }

  /** One more alert goes to the list of its own level. */
  lemma PartitionStep(front: seq<Alert>, last: Alert)
    requires multiset(OfLevel(front, Critical)) + multiset(OfLevel(front, Warning)) == multiset(front)
    ensures var alerts := front + [last];
      multiset(OfLevel(alerts, Critical)) + multiset(OfLevel(alerts, Warning)) == multiset(alerts)
  {
    OfLevelSnoc(front, last, Critical);
    OfLevelSnoc(front, last, Warning);
  }

  /** Filtering a list with one more alert filters the list, then that alert. */
  lemma OfLevelSnoc(front: seq<Alert>, last: Alert, level: Level)
    ensures OfLevel(front + [last], level) == OfLevel(front, level) + (if last.level == level then [last] else [])
  {
    var alerts := front + [last];
    assert alerts[..|alerts| - 1] == front && alerts[|alerts| - 1] == last;
  }



  lemma {:induction false} OfLevelAppend(a: seq<Alert>, b: seq<Alert>, level: Level)
    ensures OfLevel(a + b, level) == OfLevel(a, level) + OfLevel(b, level)
    decreases |b|
  {
    if b != [] {
      var last := b[|b| - 1];
      assert (a + b)[..|a + b| - 1] == a + b[..|b| - 1];
      assert (a + b)[|a + b| - 1] == last;
      OfLevelAppend(a, b[..|b| - 1], level);
    } else {
      assert a + b == a;
    }
  }

  lemma {:induction false} OfLevelOfLevel(alerts: seq<Alert>, level: Level, other: Level)
    ensures OfLevel(OfLevel(alerts, level), other) == if level == other then OfLevel(alerts, level) else []
  {
    if alerts != [] {
      var last := alerts[|alerts| - 1];
      var front := alerts[..|alerts| - 1];
      OfLevelOfLevel(front, level, other);
      OfLevelAppend(OfLevel(front, level), if last.level == level then [last] else [], other);
    }
  }

  /** The sorted list is a permutation of the alerts. */
  lemma CriticalFirstPermutes(alerts: seq<Alert>)
    ensures multiset(CriticalFirst(alerts)) == multiset(alerts)
  {
    LevelsPartition(alerts);
  }

  /** The sorted list puts every critical alert before every warning. */
  lemma CriticalFirstOrdered(alerts: seq<Alert>)
    ensures forall i, j :: 0 <= i < j < |CriticalFirst(alerts)| ==>
      !(CriticalFirst(alerts)[i].level == Warning && CriticalFirst(alerts)[j].level == Critical)
  {
    var crit, warn := OfLevel(alerts, Critical), OfLevel(alerts, Warning);
    var sorted: seq<Alert> := crit + warn;
    forall i, j | 0 <= i < j < |sorted|
      ensures !(sorted[i].level == Warning && sorted[j].level == Critical)
    {
      if i < |crit| {
        assert sorted[i] == crit[i];
      } else {
        assert sorted[j] == warn[j - |crit|];
      }
    }
  }

  /** The sort is stable: within each level the alerts keep their input order. */
  lemma CriticalFirstStable(alerts: seq<Alert>, level: Level)
    ensures OfLevel(CriticalFirst(alerts), level) == OfLevel(alerts, level)
  {
    var crit, warn := OfLevel(alerts, Critical), OfLevel(alerts, Warning);
    OfLevelAppend(crit, warn, level);
    OfLevelOfLevel(alerts, Critical, level);
    OfLevelOfLevel(alerts, Warning, level);
  }

  // ---------------------------------------------------------------------
  // GET

  datatype DashboardData = DashboardData(budget: Budget, summary: map<string, Tally>, alerts: seq<Alert>)

  const BudgetKey: string := "annual_budget"

  /** GET: read the annual budget (`toBigInt` is `BigInt(value)`), load the
      live contracts, tally, collect the alerts and sort them. */
  method GetDashboard(db: Db, toBigInt: string -> int, clock: Contract -> DayCounts, endWarning: Option<int>, host: Host)
    returns (r: DashboardData)
    ensures var cs := FilterBy(db.contracts, (c: Contract) => c.status != Deleted);
      var total := if BudgetKey in db.config then toBigInt(db.config[BudgetKey]) else 0;
      && r.budget == BudgetOf(total, cs)
      && SummaryOf(r.summary, cs)
      && r.alerts == CriticalFirst(AlertsOf(cs, clock, endWarning, host))
  {
    var total := if BudgetKey in db.config then toBigInt(db.config[BudgetKey]) else 0;
    var contracts := FilterBy(db.contracts, (c: Contract) => c.status != Deleted);
    var summary, allocatedAmount, contractedAmount, executedAmount := Aggregate(contracts);
    var remaining := total - allocatedAmount - executedAmount;
    var rate := RatePermille(total, executedAmount);
    var alerts := CollectAlerts(contracts, clock, endWarning, host);
    alerts := CriticalFirst(alerts);
    r := DashboardData(Budget(total, allocatedAmount, contractedAmount, executedAmount, remaining, rate), summary, alerts);
  }
}
