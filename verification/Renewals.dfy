/** Renewing tenancies: the dates, the links between them, and what a chain of renewals bills. */
module Renewals {
  import opened Calendar
  import opened RentSchedules
  import opened Wrappers

  /** A tenancy as far as its renewal goes; numbers that are 0 are not set. */
  datatype Lease = Lease(
    start: Option<Date>, end: Option<Date>, rent: real,
    periodMonths: int, increasePct: real, rentFrozen: bool,
    renewedFrom: Option<nat>, renewedTo: Option<nat>, cycle: Cycle)

  /** How far a tenancy is in its cycle, as far as renewals set it. */
  datatype Cycle = Initial | Renewed

  predicate DatesOk(l: Lease) {
    (l.start.Some? ==> Valid(l.start.value)) && (l.end.Some? ==> Valid(l.end.value))
  }

  function EndOf(start: Date, period: int): Date
    requires Valid(start)
  {
    PreviousDay(AddMonths(start, period))
  }

  /** A given start counts only if the old tenancy has an end; without an end the renewal starts today. */
  function StartOf(end: Option<Date>, newStart: Option<Date>, today: Date): Date
    requires end.Some? ==> Valid(end.value)
  {
    match end
    case None => today
    case Some(last) => if newStart.Some? then newStart.value else NextDay(last)
  }

  function PeriodOf(l: Lease, period: int): int {
    if period != 0 then period else if l.periodMonths != 0 then l.periodMonths else 12
  }

  function BuildRenewal(
    l: Lease, i: nat, newRent: Option<real>, period: int, newStart: Option<Date>, today: Date): Lease
    requires DatesOk(l) && Valid(today) && (newStart.Some? ==> Valid(newStart.value))
  {
    var start := StartOf(l.end, newStart, today);
    var rent := match newRent
      case Some(r) => r
      case None => l.rent * (1.0 + (if l.rentFrozen then 0.0 else l.increasePct) / 100.0);
    l.(start := Some(start), end := Some(EndOf(start, PeriodOf(l, period))), rent := rent,
       renewedFrom := Some(i), renewedTo := None, cycle := Initial)
  }

  /** A lease is renewed at most once, by a later one that knows where it comes from. */
  ghost predicate AllLinked(leases: seq<Lease>) {
    && (forall i | 0 <= i < |leases| :: DatesOk(leases[i]))
    && (forall i | 0 <= i < |leases| && leases[i].renewedTo.Some? ::
          var k := leases[i].renewedTo.value; i < k < |leases| && leases[k].renewedFrom == Some(i))
    && (forall k | 0 <= k < |leases| && leases[k].renewedFrom.Some? ::
          var i := leases[k].renewedFrom.value; i < k && leases[i].renewedTo == Some(k))
  }

  lemma {:induction false} OneMoreLinked(leases: seq<Lease>, i: nat, lease: Lease)
    requires AllLinked(leases) && i < |leases| && leases[i].renewedTo.None?
    requires DatesOk(lease) && lease.renewedFrom == Some(i) && lease.renewedTo.None?
    ensures AllLinked(leases[i := leases[i].(renewedTo := Some(|leases|), cycle := Renewed)] + [lease])
  {}

  class LeaseBook {
    var leases: seq<Lease>

    ghost predicate Linked()
      reads this
    {
      AllLinked(leases)
    }

    constructor ()
      ensures Linked() && leases == []
    {
      leases := [];
    }

    /** Renews a lease, unless it has been renewed already. */
    method DoRenewal(
      i: nat, newRent: Option<real>, period: int, newStart: Option<Date>, today: Date) returns (renewal: Option<nat>)
      requires Linked() && i < |leases| && Valid(today) && (newStart.Some? ==> Valid(newStart.value))
      modifies this
      ensures Linked() && (renewal.None? <==> old(leases)[i].renewedTo.Some?)
      ensures renewal.None? ==> leases == old(leases)
      ensures renewal.Some? ==>
                && renewal.value == |old(leases)|
                && leases == old(leases)[i := old(leases)[i].(renewedTo := renewal, cycle := Renewed)]
                             + [BuildRenewal(old(leases)[i], i, newRent, period, newStart, today)]
    {
      renewal := None;
      if leases[i].renewedTo.None? {
        var lease := BuildRenewal(leases[i], i, newRent, period, newStart, today);
        renewal := Some(|leases|);
        OneMoreLinked(leases, i, lease);
        leases := leases[i := leases[i].(renewedTo := renewal, cycle := Renewed)] + [lease];
      }
    }
  }

  // ---------------------------------------------------------------- the terms of a renewal

  /**
   * A renewal lasts the months asked for, or else those of the lease, or else twelve; its rent is the
   * one asked for, or else the old one, raised by the percentage of the lease unless rents are frozen.
   */
  lemma RenewalTerms(l: Lease, i: nat, newRent: Option<real>, period: int, newStart: Option<Date>, today: Date)
    requires DatesOk(l) && Valid(today) && (newStart.Some? ==> Valid(newStart.value))
    ensures var r := BuildRenewal(l, i, newRent, period, newStart, today);
            && r.start.Some? && r.end.Some? && Valid(r.start.value) && Valid(r.end.value)
            && (period != 0 ==> NextDay(r.end.value) == AddMonths(r.start.value, period))
            && (period == 0 && l.periodMonths != 0 ==> NextDay(r.end.value) == AddMonths(r.start.value, l.periodMonths))
            && (period == 0 && l.periodMonths == 0 ==> NextDay(r.end.value) == AddMonths(r.start.value, 12))
            && (newRent.Some? ==> r.rent == newRent.value)
            && (newRent.None? && l.rentFrozen ==> r.rent == l.rent)
            && (newRent.None? && !l.rentFrozen ==> r.rent - l.rent == l.rent * l.increasePct / 100.0)
            && r.periodMonths == l.periodMonths && r.increasePct == l.increasePct && r.rentFrozen == l.rentFrozen
            && r.renewedFrom == Some(i) && r.renewedTo == None
    ensures l.end.None? ==> BuildRenewal(l, i, newRent, period, newStart, today).start == Some(today)
    ensures l.end.Some? && newStart.None? ==>
              BuildRenewal(l, i, newRent, period, newStart, today).start == Some(NextDay(l.end.value))
  {
    var start := StartOf(l.end, newStart, today);
    NextAndPrevious(AddMonths(start, PeriodOf(l, period)), start);
  }

  // ---------------------------------------------------------------- a given start

  /** A given start is used exactly if the old lease has an end, or the start happens to be today. */
  lemma GivenStart(l: Lease, i: nat, newRent: Option<real>, period: int, start: Date, today: Date)
    requires DatesOk(l) && Valid(today) && Valid(start)
    ensures BuildRenewal(l, i, newRent, period, Some(start), today).start == Some(start) <==>
            l.end.Some? || start == today
  {}

  /** A lease without an end that is to be renewed from 1 February on is renewed from today, 15 January, on. */
  lemma GivenStartIgnored(l: Lease)
    requires DatesOk(l) && l.end.None?
    ensures var start, today := Date(12 * 2025 + 1, 1), Date(12 * 2025, 15);
            && BuildRenewal(l, 0, None, 12, Some(start), today).start == Some(today) != Some(start)
            && BuildRenewal(l, 0, None, 12, Some(start), today).end == Some(Date(12 * 2026, 14))
  {}

  // ---------------------------------------------------------------- one renewal

  /** A month on the way is too short for the day that the last month of the renewal has. */
  predicate CutShort(start: Date, p: int)
    requires p > 0
  {
    LeastDay(start, 1, p) < Min(start.day, DaysIn(start.month + p))
  }

  /**
   * A renewal of p months lasts p months and is billed p monthly payments; it is billed one more
   * exactly if a month on the way is too short for the day on which it would end.
   */
  lemma RenewalBills(start: Date, p: int)
    requires Valid(start) && p > 0
    ensures var end := EndOf(start, p);
            && Valid(end) && AtMost(start, end)
            && TotalMonths(start, end) == p && NextDay(end) == AddMonths(start, p)
            && Periods(start, end, 1) == p + (if CutShort(start, p) then 1 else 0)
            && (start.day <= 28 ==> Periods(start, end, 1) == p)
  {
    var end := EndOf(start, p);
    RenewalDates(start, p);
    RenewalDrifts(start, p);
    MonthlyPayments(start, end);
    DueIs(start, 1, p);
  }

  lemma RenewalDates(start: Date, p: int)
    requires Valid(start) && p > 0
    ensures var end := EndOf(start, p);
            Valid(end) && AtMost(start, end) && TotalMonths(start, end) == p && NextDay(end) == AddMonths(start, p)
  {
    NextAndPrevious(AddMonths(start, p), start);
  }

  lemma RenewalDrifts(start: Date, p: int)
    requires Valid(start) && p > 0
    ensures Drifts(start, EndOf(start, p), 1) <==> CutShort(start, p)
  {
    var end := EndOf(start, p);
    DueIs(start, 1, p);
    if start.day == 1 {
      RenewalDates(start, p);
      PeriodsCoverMonths(start, end, 1);
    } else {
      DriftsMonthly(start, end);
      EndsInLastMonth(start, p);
    }
  }

  lemma EndsInLastMonth(start: Date, p: int)
    requires Valid(start) && p > 0 && start.day > 1
    ensures EndOf(start, p) == Date(start.month + p, Min(start.day, DaysIn(start.month + p)) - 1)
  {}

  /** A renewal from 30 January for three months is billed four times. */
  lemma RenewalBilledTwice()
    ensures var start := Date(12 * 2025, 30); Valid(start) && Periods(start, EndOf(start, 3), 1) == 4
  {
    var start := Date(12 * 2025, 30);
    assert LeastDay(start, 1, 0) == 30;
    assert LeastDay(start, 1, 1) == 28;
    assert LeastDay(start, 1, 2) == 28;
    assert LeastDay(start, 1, 3) == 28;
    RenewalBills(start, 3);
  }

  // ---------------------------------------------------------------- chains of renewals

  datatype Span = Span(start: Date, end: Date)

  /** The spans of a chain of renewals of some periods, the first starting on a given date. */
  function Chain(start: Date, periods: seq<int>): (spans: seq<Span>)
    requires Valid(start)
    ensures |spans| == |periods| && forall i | 0 <= i < |spans| :: Valid(spans[i].start) && Valid(spans[i].end)
    decreases |periods|
  {
    if periods == [] then []
    else [Span(start, EndOf(start, periods[0]))] + Chain(NextDay(EndOf(start, periods[0])), periods[1..])
  }

  ghost predicate Covers(s: Span, d: Date) {
    AtMost(s.start, d) && AtMost(d, s.end)
  }

  function SumOf(periods: seq<int>): int {
    if periods == [] then 0 else periods[0] + SumOf(periods[1..])
  }

  function PaymentsOf(spans: seq<Span>): int
    requires forall i | 0 <= i < |spans| :: Valid(spans[i].start)
  {
    if spans == [] then 0 else Periods(spans[0].start, spans[0].end, 1) + PaymentsOf(spans[1..])
  }

  /** What renewing a lease without naming a start yields is the first span of a chain that starts the day after. */
  lemma RenewalContinues(l: Lease, i: nat, newRent: Option<real>, period: int, today: Date)
    requires DatesOk(l) && Valid(today) && l.end.Some?
    ensures var r := BuildRenewal(l, i, newRent, period, None, today);
            Chain(NextDay(l.end.value), [PeriodOf(l, period)]) == [Span(r.start.value, r.end.value)]
  {}

  /** A chain covers every day from its start to its end, each by exactly one of its spans. */
  lemma {:induction false} ChainTiles(start: Date, periods: seq<int>, d: Date) returns (i: nat)
    requires Valid(start) && Valid(d) && periods != [] && forall k | 0 <= k < |periods| :: periods[k] > 0
    requires AtMost(start, d) && AtMost(d, Chain(start, periods)[|periods| - 1].end)
    ensures i < |periods| && Covers(Chain(start, periods)[i], d)
    ensures forall k | 0 <= k < |periods| && Covers(Chain(start, periods)[k], d) :: k == i
    decreases |periods|
  {
    var first, next := Span(start, EndOf(start, periods[0])), NextDay(EndOf(start, periods[0]));
    RenewalBills(start, periods[0]);
    NextAndPrevious(first.end, d);
    ChainIsLater(next, periods[1..]);
    if Covers(first, d) {
      i := 0;
      forall k | 0 < k < |periods| ensures !Covers(Chain(start, periods)[k], d) {
        assert Chain(start, periods)[k] == Chain(next, periods[1..])[k - 1];
      }
    } else {
      assert |periods| > 1 ==> Chain(start, periods)[|periods| - 1] == Chain(next, periods[1..])[|periods| - 2];
      var k := ChainTiles(next, periods[1..], d);
      i := k + 1;
      forall k | 0 < k < |periods| ensures Chain(start, periods)[k] == Chain(next, periods[1..])[k - 1] {}
    }
  }

  /** No span starts before the chain does, and none ends before it starts. */
  lemma {:induction false} ChainIsLater(start: Date, periods: seq<int>)
    requires Valid(start) && forall k | 0 <= k < |periods| :: periods[k] > 0
    ensures forall k | 0 <= k < |periods| :: var s := Chain(start, periods)[k];
              AtMost(start, s.start) && AtMost(s.start, s.end)
    decreases |periods|
  {
    if periods != [] {
      var next := NextDay(EndOf(start, periods[0]));
      RenewalBills(start, periods[0]);
      ChainIsLater(next, periods[1..]);
      forall k | 0 < k < |periods| ensures Chain(start, periods)[k] == Chain(next, periods[1..])[k - 1] {}
    }
  }

  /** From a start day up to 28, a chain bills as many payments as it has months, and ends where they end. */
  lemma {:induction false} ChainBills(start: Date, periods: seq<int>)
    requires Valid(start) && start.day <= 28 && forall k | 0 <= k < |periods| :: periods[k] > 0
    ensures PaymentsOf(Chain(start, periods)) == SumOf(periods)
    ensures periods != [] ==> NextDay(Chain(start, periods)[|periods| - 1].end) == AddMonths(start, SumOf(periods))
    decreases |periods|
  {
    ChainIsLater(start, periods);
    if periods != [] {
      var next := NextDay(EndOf(start, periods[0]));
      RenewalBills(start, periods[0]);
      ChainBills(next, periods[1..]);
      assert Chain(start, periods)[1..] == Chain(next, periods[1..]);
    }
  }
}
