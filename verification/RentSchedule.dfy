/** The payment schedule of a tenancy against the months that it lasts. */
module RentSchedules {
  import opened Calendar
  import opened Wrappers

  datatype Schedule = Monthly | Quarterly | SemiAnnual | Annual | OneTime

  datatype PaymentKind = Rent | Deposit

  datatype PaymentState = Pending | Overdue | Paid | OtherState

  datatype Payment = Payment(due: Date, amount: real, kind: PaymentKind, state: PaymentState)

  datatype Refusal = MissingDates | MissingRent

  function Interval(schedule: Schedule): int {
    match schedule
    case Monthly => 1
    case Quarterly => 3
    case SemiAnnual => 6
    case Annual => 12
    case OneTime => 0
  }

  function PeriodAmount(rent: real, schedule: Schedule): real {
    match schedule
    case Monthly | OneTime => rent
    case Quarterly => rent * 3.0
    case SemiAnnual => rent * 6.0
    case Annual => rent * 12.0
  }

  function TotalMonths(start: Date, end: Date): int
    requires Valid(start) && Valid(end)
  {
    MonthsBetween(start, end) + 1
  }

  // ---------------------------------------------------------------- the due dates

  /** The k-th due date: every date comes from the one before it, so a day once lost is not regained. */
  function Due(start: Date, interval: int, k: nat): (d: Date)
    requires Valid(start)
    ensures Valid(d)
  {
    if k == 0 then start else AddMonths(Due(start, interval, k - 1), interval)
  }

  /** The shortest month on the way, or the day of the start if that is smaller. */
  function LeastDay(start: Date, interval: int, k: nat): int {
    if k == 0 then start.day else Min(LeastDay(start, interval, k - 1), DaysIn(start.month + k * interval))
  }

  lemma {:induction false} DueIs(start: Date, interval: int, k: nat)
    requires Valid(start)
    ensures Due(start, interval, k) == Date(start.month + k * interval, LeastDay(start, interval, k))
    ensures LeastDay(start, interval, k) <= Min(start.day, DaysIn(start.month + k * interval))
    ensures start.day <= 28 ==> LeastDay(start, interval, k) == start.day
  {
    if k > 0 {
      DueIs(start, interval, k - 1);
      assert start.month + (k - 1) * interval + interval == start.month + k * interval;
    }
  }

  /** The number of due dates from the k-th on that are not after the end. */
  function PeriodsFrom(start: Date, end: Date, interval: int, k: nat): nat
    requires Valid(start) && interval > 0
    decreases end.month - Due(start, interval, k).month + 1
  {
    if AtMost(Due(start, interval, k), end) then 1 + PeriodsFrom(start, end, interval, k + 1) else 0
  }

  /** The number of due dates that are not after the end. */
  function Periods(start: Date, end: Date, interval: int): nat
    requires Valid(start) && interval > 0
  {
    PeriodsFrom(start, end, interval, 0)
  }

  /** The same in closed form. */
  function PeriodCount(start: Date, end: Date, interval: int): int
    requires Valid(start) && interval > 0
  {
    var months := end.month - start.month;
    if months < 0 then 0
    else
      var q := months / interval;
      if q * interval < months || LeastDay(start, interval, q) <= end.day then q + 1 else q
  }

  lemma MoreIsMore(a: int, b: int, interval: int)
    requires a <= b && interval > 0
    ensures a * interval <= b * interval && a * interval == (a - 1) * interval + interval
  {}

  lemma Multiples(months: int, interval: int, k: int)
    requires months >= 0 && interval > 0
    ensures var q := months / interval;
            && q >= 0 && q * interval <= months < q * interval + interval
            && (k < q ==> k * interval + interval <= q * interval)
            && (k > q ==> k * interval >= q * interval + interval)
            && (months % interval == 0 <==> q * interval == months)
  {
    var q := months / interval;
    if k < q {
      MoreIsMore(k + 1, q, interval);
    } else if k > q {
      MoreIsMore(q + 1, k, interval);
    }
  }

  lemma DueInTime(start: Date, end: Date, interval: int, k: nat)
    requires Valid(start) && interval > 0
    ensures AtMost(Due(start, interval, k), end) <==> k < PeriodCount(start, end, interval)
  {
    DueIs(start, interval, k);
    var months := end.month - start.month;
    if months >= 0 {
      Multiples(months, interval, k);
    }
  }

  lemma {:induction false} PeriodsInClosedForm(start: Date, end: Date, interval: int, k: nat)
    requires Valid(start) && interval > 0 && k <= PeriodCount(start, end, interval)
    ensures k + PeriodsFrom(start, end, interval, k) == PeriodCount(start, end, interval)
    decreases PeriodCount(start, end, interval) - k
  {
    DueInTime(start, end, interval, k);
    if k < PeriodCount(start, end, interval) {
      PeriodsInClosedForm(start, end, interval, k + 1);
    }
  }

  lemma PeriodsIs(start: Date, end: Date, interval: int)
    requires Valid(start) && interval > 0
    ensures Periods(start, end, interval) == PeriodCount(start, end, interval)
  {
    if end.month >= start.month {
      Multiples(end.month - start.month, interval, 0);
    }
    PeriodsInClosedForm(start, end, interval, 0);
  }

  // ---------------------------------------------------------------- what is billed

  /** A due date falls in time into the last month only because it has lost days on the way. */
  ghost predicate Drifts(start: Date, end: Date, interval: int)
    requires Valid(start) && interval > 0
  {
    exists k: nat ::
      && Due(start, interval, k).month == end.month
      && Due(start, interval, k).day <= end.day < Min(start.day, DaysIn(end.month))
  }

  lemma DueInLastMonth(start: Date, end: Date, interval: int, k: nat)
    requires Valid(start) && interval > 0
    ensures var months := end.month - start.month;
            Due(start, interval, k).month == end.month <==>
              months >= 0 && months % interval == 0 && k == months / interval
  {
    var months := end.month - start.month;
    DueIs(start, interval, k);
    if months >= 0 {
      Multiples(months, interval, k);
    } else {
      assert k * interval >= 0;
    }
  }

  /** The same for the one due date that can fall into the last month. */
  lemma DriftsInClosedForm(start: Date, end: Date, interval: int)
    requires Valid(start) && interval > 0
    ensures var months := end.month - start.month;
            Drifts(start, end, interval) <==>
              && months >= 0 && months % interval == 0
              && LeastDay(start, interval, months / interval) <= end.day < Min(start.day, DaysIn(end.month))
  {
    var months := end.month - start.month;
    forall k: nat ensures Due(start, interval, k).month == end.month <==>
                          months >= 0 && months % interval == 0 && k == months / interval {
      DueInLastMonth(start, end, interval, k);
    }
    if months >= 0 && months % interval == 0 {
      DueIs(start, interval, months / interval);
    }
  }

  /**
   * The periods cover the months of the tenancy and less than one period more. The one exception:
   * where the due dates drift, exactly one whole period is billed too much.
   */
  lemma PeriodsCoverMonths(start: Date, end: Date, interval: int)
    requires Valid(start) && Valid(end) && AtMost(start, end) && interval > 0
    ensures var extra := Periods(start, end, interval) * interval - TotalMonths(start, end);
            && 0 <= extra <= interval
            && (extra == interval <==> Drifts(start, end, interval))
    ensures start.day <= 28 ==> !Drifts(start, end, interval)
  {
    var months := end.month - start.month;
    var q := months / interval;
    var p := q * interval;
    Multiples(months, interval, 0);
    DueIs(start, interval, q);
    PeriodsIs(start, end, interval);
    DriftsInClosedForm(start, end, interval);
    TimesInterval(start, end, interval);
    assert TotalMonths(start, end) == months + if Min(start.day, DaysIn(end.month)) <= end.day then 1 else 0;
  }

  lemma TimesInterval(start: Date, end: Date, interval: int)
    requires Valid(start) && interval > 0 && start.month <= end.month
    ensures var q := (end.month - start.month) / interval;
            PeriodCount(start, end, interval) * interval == q * interval +
              if q * interval < end.month - start.month || LeastDay(start, interval, q) <= end.day then interval else 0
  {
    var q := (end.month - start.month) / interval;
    assert (q + 1) * interval == q * interval + interval;
  }

  lemma DriftsMonthly(start: Date, end: Date)
    requires Valid(start)
    ensures Drifts(start, end, 1) <==>
            && start.month <= end.month
            && LeastDay(start, 1, end.month - start.month) <= end.day < Min(start.day, DaysIn(end.month))
  {
    DriftsInClosedForm(start, end, 1);
    assert (end.month - start.month) / 1 == end.month - start.month;
  }

  /** Monthly payments match the months of the tenancy unless the due dates drift; then there is one too many. */
  lemma MonthlyPayments(start: Date, end: Date)
    requires Valid(start) && Valid(end) && AtMost(start, end)
    ensures Periods(start, end, 1) == TotalMonths(start, end) + if Drifts(start, end, 1) then 1 else 0
    ensures start.day <= 28 ==> Periods(start, end, 1) == TotalMonths(start, end)
  {
    PeriodsCoverMonths(start, end, 1);
  }

  /** From 31 January to 30 March is two months, and three months are billed. */
  lemma DriftExample()
    ensures var start, end := Date(12 * 2025, 31), Date(12 * 2025 + 2, 30);
            Valid(start) && Valid(end) && TotalMonths(start, end) == 2 && Periods(start, end, 1) == 3
  {
    var start := Date(12 * 2025, 31);
    assert LeastDay(start, 1, 0) == 31;
    assert LeastDay(start, 1, 1) == 28;
    assert LeastDay(start, 1, 2) == 28;
    PeriodsIs(start, Date(12 * 2025 + 2, 30), 1);
  }

  // ---------------------------------------------------------------- generating the schedule

  /** The same amount n times over. */
  function Times(n: nat, amount: real): real {
    if n == 0 then 0.0 else Times(n - 1, amount) + amount
  }

  lemma {:induction false} TimesIs(n: nat, amount: real)
    ensures Times(n, amount) == n as real * amount
  {
    if n > 0 {
      TimesIs(n - 1, amount);
      assert n as real * amount == (n - 1) as real * amount + amount;
    }
  }

  function Sum(ps: seq<Payment>): real {
    if ps == [] then 0.0 else Sum(ps[..|ps| - 1]) + ps[|ps| - 1].amount
  }

  lemma {:induction false} SumOfEqual(ps: seq<Payment>, amount: real)
    requires forall k | 0 <= k < |ps| :: ps[k].amount == amount
    ensures Sum(ps) == Times(|ps|, amount)
  {
    if ps != [] {
      SumOfEqual(ps[..|ps| - 1], amount);
    }
  }

  /** Rent payments of one amount on the due dates, up to the end. */
  method RentPayments(start: Date, end: Date, interval: int, amount: real) returns (ps: seq<Payment>)
    requires Valid(start) && interval > 0
    ensures |ps| == Periods(start, end, interval)
    ensures forall k | 0 <= k < |ps| :: ps[k] == Payment(Due(start, interval, k), amount, Rent, Pending)
  {
    ps := [];
    var current := start;
    while AtMost(current, end)
      invariant current == Due(start, interval, |ps|)
      invariant |ps| + PeriodsFrom(start, end, interval, |ps|) == Periods(start, end, interval)
      invariant forall k | 0 <= k < |ps| :: ps[k] == Payment(Due(start, interval, k), amount, Rent, Pending)
      decreases PeriodsFrom(start, end, interval, |ps|)
    {
      ps := ps + [Payment(current, amount, Rent, Pending)];
      current := AddMonths(current, interval);
    }
  }

  /** The rent payments of a schedule. */
  method NewRents(start: Date, end: Date, rent: real, schedule: Schedule) returns (ps: seq<Payment>)
    requires Valid(start) && Valid(end)
    ensures AreRents(ps, start, end, rent, schedule) && Sum(ps) == Billed(start, end, rent, schedule)
  {
    if schedule == OneTime {
      ps := [Payment(start, rent * TotalMonths(start, end) as real, Rent, Pending)];
      assert ps[..0] == [];
    } else {
      ps := RentPayments(start, end, Interval(schedule), PeriodAmount(rent, schedule));
      SumOfEqual(ps, PeriodAmount(rent, schedule));
    }
  }

  /** One payment at the start for all months, or one for every period on its due date. */
  ghost predicate AreRents(ps: seq<Payment>, start: Date, end: Date, rent: real, schedule: Schedule)
    requires Valid(start) && Valid(end)
  {
    if schedule == OneTime then ps == [Payment(start, rent * TotalMonths(start, end) as real, Rent, Pending)]
    else
      && |ps| == Periods(start, end, Interval(schedule))
      && forall k | 0 <= k < |ps| ::
           ps[k] == Payment(Due(start, Interval(schedule), k), PeriodAmount(rent, schedule), Rent, Pending)
  }

  /** The rent that a schedule bills in all. */
  function Billed(start: Date, end: Date, rent: real, schedule: Schedule): real
    requires Valid(start) && Valid(end)
  {
    match schedule
    case OneTime => rent * TotalMonths(start, end) as real
    case _ => Times(Periods(start, end, Interval(schedule)), PeriodAmount(rent, schedule))
  }

  /**
   * Every schedule bills at least the rent of all months, and less than the rent of one period more,
   * unless its due dates drift: then it bills exactly one period too much.
   */
  lemma BilledCoversMonths(start: Date, end: Date, rent: real, schedule: Schedule)
    requires Valid(start) && Valid(end) && AtMost(start, end) && rent > 0.0 && schedule != OneTime
    ensures TotalMonths(start, end) >= 0
    ensures var due, period := Times(TotalMonths(start, end), rent), PeriodAmount(rent, schedule);
            && due <= Billed(start, end, rent, schedule) <= due + period
            && (Billed(start, end, rent, schedule) == due + period <==> Drifts(start, end, Interval(schedule)))
    ensures start.day <= 28 ==> !Drifts(start, end, Interval(schedule))
  {
    PeriodsCoverTimes(start, end, rent, Interval(schedule));
    IsPeriodAmount(rent, schedule);
  }

  lemma PeriodsCoverTimes(start: Date, end: Date, rent: real, n: nat)
    requires Valid(start) && Valid(end) && AtMost(start, end) && rent > 0.0 && n > 0
    ensures TotalMonths(start, end) >= 0
    ensures var due, period := Times(TotalMonths(start, end), rent), Times(n, rent);
            var billed := Times(Periods(start, end, n), period);
            && due <= billed <= due + period
            && (billed == due + period <==> Drifts(start, end, n))
    ensures start.day <= 28 ==> !Drifts(start, end, n)
  {
    PeriodsCoverMonths(start, end, n);
    InMoney(rent, Periods(start, end, n), n, TotalMonths(start, end));
  }

  lemma IsPeriodAmount(rent: real, schedule: Schedule)
    requires schedule != OneTime
    ensures PeriodAmount(rent, schedule) == Times(Interval(schedule), rent)
  {
    TimesIs(Interval(schedule), rent);
  }

  /** The same in money as in months. */
  lemma InMoney(rent: real, periods: nat, n: nat, total: nat)
    requires rent > 0.0 && total <= periods * n <= total + n
    ensures var due, period, billed := Times(total, rent), Times(n, rent), Times(periods, Times(n, rent));
            && due <= billed <= due + period
            && (billed == due + period <==> periods * n - total == n)
  {
    TimesOfTimes(periods, n, rent);
    Between(rent, periods * n, n, total);
  }

  lemma Between(rent: real, months: nat, n: nat, total: nat)
    requires rent > 0.0 && total <= months <= total + n
    ensures Times(total, rent) <= Times(months, rent) <= Times(total, rent) + Times(n, rent)
    ensures Times(months, rent) == Times(total, rent) + Times(n, rent) <==> months - total == n
  {
    TimesOfSum(total, months - total, rent);
    TimesGrows(months - total, n, rent);
  }

  lemma {:induction false} TimesOfSum(a: nat, b: nat, amount: real)
    ensures Times(a + b, amount) == Times(a, amount) + Times(b, amount)
  {
    if b > 0 {
      TimesOfSum(a, b - 1, amount);
    }
  }

  lemma {:induction false} TimesOfTimes(k: nat, n: nat, amount: real)
    ensures k * n >= 0 && Times(k, Times(n, amount)) == Times(k * n, amount)
  {
    if k > 0 {
      TimesOfTimes(k - 1, n, amount);
      assert k * n == (k - 1) * n + n;
      TimesOfSum((k - 1) * n, n, amount);
    } else {
      assert k * n == 0;
    }
  }

  lemma {:induction false} TimesGrows(a: nat, b: nat, amount: real)
    requires a <= b && amount > 0.0
    ensures 0.0 <= Times(a, amount) <= Times(b, amount)
    ensures Times(a, amount) == Times(b, amount) <==> a == b
  {
    if a < b {
      TimesGrows(a, b - 1, amount);
    } else if a > 0 {
      TimesGrows(a - 1, b - 1, amount);
    }
  }

  /** Paying all at once is the rent of all months. */
  lemma OneTimeIs(start: Date, end: Date, rent: real)
    requires Valid(start) && Valid(end) && AtMost(start, end)
    ensures TotalMonths(start, end) >= 0 && Billed(start, end, rent, OneTime) == Times(TotalMonths(start, end), rent)
  {
    TimesIs(TotalMonths(start, end), rent);
  }

  /** On start days up to 28, paying monthly comes to the same as paying all at once. */
  lemma MonthlyIsOneTime(start: Date, end: Date, rent: real)
    requires Valid(start) && Valid(end) && AtMost(start, end) && start.day <= 28
    ensures Billed(start, end, rent, Monthly) == Billed(start, end, rent, OneTime)
  {
    MonthlyPayments(start, end);
    OneTimeIs(start, end, rent);
  }

  // ---------------------------------------------------------------- the tenancy

  class Tenancy {
    var startDate: Option<Date>
    var endDate: Option<Date>
    var rent: real
    var deposit: real
    var schedule: Option<Schedule>
    var payments: seq<Payment>
    var confirmed: bool

    constructor (startDate: Option<Date>, endDate: Option<Date>, rent: real, deposit: real, schedule: Option<Schedule>)
      ensures this.startDate == startDate && this.endDate == endDate && this.rent == rent
      ensures this.deposit == deposit && this.schedule == schedule && payments == [] && !confirmed
    {
      this.startDate, this.endDate, this.rent := startDate, endDate, rent;
      this.deposit, this.schedule, payments := deposit, schedule, [];
      confirmed := false;
    }

    /** Replaces the payments that are still open by the payments of the schedule. */
    method GeneratePaymentSchedule() returns (refused: Option<Refusal>, ghost rents: seq<Payment>)
      requires startDate.Some? ==> Valid(startDate.value)
      requires endDate.Some? ==> Valid(endDate.value)
      modifies this`payments, this`confirmed
      ensures refused == if startDate.None? || endDate.None? then Some(MissingDates)
                         else if rent == 0.0 then Some(MissingRent) else None
      ensures refused.Some? ==> payments == old(payments) && confirmed == old(confirmed)
      ensures refused.None? ==>
                var plan := if schedule.None? then Monthly else schedule.value;
                && confirmed && AreRents(rents, startDate.value, endDate.value, rent, plan)
                && Sum(rents) == Billed(startDate.value, endDate.value, rent, plan)
                && payments == Kept(old(payments)) + Deposits(startDate.value, deposit) + rents
                && forall p :: multiset(payments)[p] ==
                     (if p.state == Pending || p.state == Overdue then 0 else multiset(old(payments))[p])
                     + (if deposit != 0.0 && p == Payment(startDate.value, deposit, Deposit, Pending) then 1 else 0)
                     + multiset(rents)[p]
    {
      refused, rents := None, [];
      if startDate.None? || endDate.None? {
        refused := Some(MissingDates);
      } else if rent == 0.0 {
        refused := Some(MissingRent);
      } else {
        var due := NewRents(startDate.value, endDate.value, rent, Plan());
        rents := due;
        PaymentsAre(payments, startDate.value, deposit, due);
        payments := Kept(payments) + Deposits(startDate.value, deposit) + due;
        confirmed := true;
      }
    }

    /** A tenancy without a schedule pays monthly. */
    function Plan(): Schedule
      reads this
    {
      if schedule.None? then Monthly else schedule.value
    }
  }

  function Deposits(start: Date, deposit: real): seq<Payment> {
    if deposit == 0.0 then [] else [Payment(start, deposit, Deposit, Pending)]
  }

  predicate IsOpen(p: Payment) {
    p.state == Pending || p.state == Overdue
  }

  function Kept(ps: seq<Payment>): seq<Payment> {
    if ps == [] then [] else Kept(ps[..|ps| - 1]) + if IsOpen(ps[|ps| - 1]) then [] else [ps[|ps| - 1]]
  }

  /** What is kept are exactly the payments that are not open, as often as they were there. */
  lemma {:induction false} KeptExactly(ps: seq<Payment>, p: Payment)
    ensures multiset(Kept(ps))[p] == if p.state == Pending || p.state == Overdue then 0 else multiset(ps)[p]
  {
    if ps != [] {
      var n := |ps| - 1;
      KeptExactly(ps[..n], p);
      assert ps == ps[..n] + [ps[n]];
    }
  }

  /** They are kept in their order. */
  lemma {:induction false} KeptInOrder(ps: seq<Payment>, qs: seq<Payment>)
    ensures Kept(ps + qs) == Kept(ps) + Kept(qs)
  {
    if qs == [] {
      assert ps + qs == ps;
    } else {
      var n := |qs| - 1;
      KeptInOrder(ps, qs[..n]);
      assert (ps + qs)[..|ps| + n] == ps + qs[..n];
    }
  }

  lemma {:induction false} PaymentsAre(before: seq<Payment>, start: Date, deposit: real, rents: seq<Payment>)
    ensures forall p :: multiset(Kept(before) + Deposits(start, deposit) + rents)[p] ==
              (if p.state == Pending || p.state == Overdue then 0 else multiset(before)[p])
              + (if deposit != 0.0 && p == Payment(start, deposit, Deposit, Pending) then 1 else 0)
              + multiset(rents)[p]
  {
    forall p
      ensures multiset(Kept(before) + Deposits(start, deposit) + rents)[p] ==
                (if p.state == Pending || p.state == Overdue then 0 else multiset(before)[p])
                + (if deposit != 0.0 && p == Payment(start, deposit, Deposit, Pending) then 1 else 0)
                + multiset(rents)[p]
    {
      KeptExactly(before, p);
    }
  }

  // ---------------------------------------------------------------- the schedules

  function PaymentsInYear(schedule: Schedule): nat {
    match schedule
    case Monthly => 12
    case Quarterly => 4
    case SemiAnnual => 2
    case Annual => 1
    case OneTime => 0
  }

  /** In every periodic schedule, the payments of a year cover twelve months and come to the rent of a year. */
  lemma YearIsYear(rent: real, schedule: Schedule)
    requires schedule != OneTime
    ensures PaymentsInYear(schedule) * Interval(schedule) == 12
    ensures PaymentsInYear(schedule) as real * PeriodAmount(rent, schedule) == 12.0 * rent
  {}
}
