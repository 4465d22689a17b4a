/*
 * The admin dashboard's payroll schedule: for each active employee the next
 * payment date (this month's occurrence of the payment day if it has not
 * passed, otherwise next month's), the whole days until it, the monthly
 * payroll total, the list sorted by payment date, and its grouping into
 * This Week / Next Week / Later This Month / Next Month.
 */
module PayrollSchedule {

  import opened Calendar
  import opened DefisalaryContract

  /** One row of the schedule. */
  datatype ScheduledPayment = ScheduledPayment(
    id: nat,
    name: string,
    walletAddress: Address,
    paymentDate: CalendarDate,
    salaryUSD: nat,
    daysUntilPayment: int)

  datatype PaymentGroup = ThisWeek | NextWeek | LaterThisMonth | NextMonth

  /**
   * The next payment date: `new Date(year, month, paymentDay)` when the payment
   * day has not passed yet this month, `new Date(year, month + 1, paymentDay)`
   * otherwise. It is never before today.
   */
  function NextPaymentDate(today: CalendarDate, paymentDay: nat): (r: CalendarDate)
    requires ValidPaymentDay(paymentDay)
    ensures DayNumber(today) <= DayNumber(r)
    ensures paymentDay >= today.day && paymentDay <= DaysInMonth(today.year, today.month) ==>
              r == Date(today.year, today.month, paymentDay)
    ensures paymentDay < today.day ==>
              var (y, m) := MonthAfter(today.year, today.month);
              paymentDay <= DaysInMonth(y, m) ==> r == Date(y, m, paymentDay)
    ensures today.month == 12 && paymentDay < today.day ==> r == Date(today.year + 1, 1, paymentDay)
  {
    if paymentDay >= today.day then
      JsDate(today.year, today.month, paymentDay)
    else
      MonthStartStep(today.year, today.month);
      JsDate(today.year, today.month + 1, paymentDay)
  }

  /** Whole days from today to `date`. */
  function DaysUntil(today: CalendarDate, date: CalendarDate): int {
    DayNumber(date) - DayNumber(today)
  }

  /**
   * Days-until is zero exactly on today and positive exactly for the dates
   * after today in calendar order.
   */
  lemma DaysUntilSign(today: CalendarDate, date: CalendarDate)
    ensures DaysUntil(today, date) == 0 <==> date == today
    ensures DaysUntil(today, date) > 0 <==> Ordinal(today) < Ordinal(date)
  {
    OrdinalOrdersLikeDayNumber(today, date);
    OrdinalOrdersLikeDayNumber(date, today);
    if Ordinal(today) == Ordinal(date) {
      OrdinalInjective(today, date);
    }
  }

  /**
   * Days until the next payment, in calendar terms: the payment day minus
   * today's day when it is still ahead this month, otherwise the rest of this
   * month plus the payment day. Hence 0 <= days <= length of this month.
   */
  lemma DaysUntilNextPayment(today: CalendarDate, paymentDay: nat)
    requires ValidPaymentDay(paymentDay)
    ensures DaysUntil(today, NextPaymentDate(today, paymentDay)) ==
              if paymentDay >= today.day then paymentDay - today.day
              else DaysInMonth(today.year, today.month) - today.day + paymentDay
    ensures 0 <= DaysUntil(today, NextPaymentDate(today, paymentDay)) <= DaysInMonth(today.year, today.month)
    ensures DaysUntil(today, NextPaymentDate(today, paymentDay)) == 0 <==> paymentDay == today.day
  {
    MonthStartStep(today.year, today.month);
  }

  /**
   * The next payment date falls in today's month, in the month after, or, when
   * a 29th does not exist in February, on the first of the month after that.
   */
  lemma NextPaymentMonth(today: CalendarDate, paymentDay: nat)
    requires ValidPaymentDay(paymentDay)
    ensures var r := NextPaymentDate(today, paymentDay);
            var next := MonthAfter(today.year, today.month);
            || (r.year, r.month) == (today.year, today.month)
            || (r.year, r.month) == next
            || ((r.year, r.month) == MonthAfter(next.0, next.1) && r.day == 1 && paymentDay == 29
                && next.1 == 2 && !IsLeapYear(next.0))
  {
  }

  /** January 30, 2025: the 29th of February 2025 does not exist, so the date rolls to March 1. */
  lemma FebruaryRollsOver()
    ensures NextPaymentDate(Date(2025, 1, 30), 29) == Date(2025, 3, 1)
    ensures DaysUntil(Date(2025, 1, 30), Date(2025, 3, 1)) == 30
  {
    DaysUntilNextPayment(Date(2025, 1, 30), 29);
  }

  /** The schedule row of one active employee. */
  function ScheduleEntry(e: Employee, today: CalendarDate): (p: ScheduledPayment)
    requires ValidPaymentDay(e.salaryPaymentDay)
    ensures p.daysUntilPayment >= 0
    ensures p.id == e.id && p.name == e.name && p.walletAddress == e.walletAddress
            && p.salaryUSD == e.salaryUSD
  {
    var date := NextPaymentDate(today, e.salaryPaymentDay);
    ScheduledPayment(e.id, e.name, e.walletAddress, date, e.salaryUSD, DaysUntil(today, date))
  }

  function ScheduleEntries(active: seq<Employee>, today: CalendarDate): (r: seq<ScheduledPayment>)
    requires forall e :: e in active ==> ValidPaymentDay(e.salaryPaymentDay)
    ensures |r| == |active|
    ensures forall i :: 0 <= i < |r| ==> r[i] == ScheduleEntry(active[i], today)
  {
    seq(|active|, i requires 0 <= i < |active| => ScheduleEntry(active[i], today))
  }

  /** The sum of salaryUSD over `employees`; it is at least each salary in it. */
  function TotalSalary(employees: seq<Employee>): (total: nat)
    ensures forall i :: 0 <= i < |employees| ==> employees[i].salaryUSD <= total
  {
    if employees == [] then 0
    else TotalSalary(employees[..|employees| - 1]) + employees[|employees| - 1].salaryUSD
  }

  /**
   * The sort key of a row: the calendar position of its payment date, which
   * orders dates as `getTime()` does (OrdinalOrdersLikeDayNumber).
   */
  function DateKey(p: ScheduledPayment): int {
    Ordinal(p.paymentDate)
  }

  predicate SortedByDate(s: seq<ScheduledPayment>) {
    forall i, j :: 0 <= i < j < |s| ==> DateKey(s[i]) <= DateKey(s[j])
  }

  /** A row no later than the head of a sorted list can go in front of it. */
  lemma SortedCons(h: ScheduledPayment, t: seq<ScheduledPayment>)
    requires SortedByDate(t)
    requires t != [] ==> DateKey(h) <= DateKey(t[0])
    ensures SortedByDate([h] + t)
  {
  }

  /**
   * Inserts x into a list sorted by date, after the rows not later than it.
   * The head of the result is x or the old head.
   */
  function InsertByDate(x: ScheduledPayment, s: seq<ScheduledPayment>): (r: seq<ScheduledPayment>)
    requires SortedByDate(s)
    ensures SortedByDate(r)
    ensures |r| == |s| + 1
    ensures r[0] == x || (s != [] && r[0] == s[0])
  {
    if s == [] then [x]
    else if DateKey(x) <= DateKey(s[0]) then
      SortedCons(x, s);
      [x] + s
    else
      var rest := InsertByDate(x, s[1..]);
      SortedCons(s[0], rest);
      [s[0]] + rest
  }

  /** Insertion adds exactly the inserted row. */
  lemma {:induction false} InsertByDatePermutes(x: ScheduledPayment, s: seq<ScheduledPayment>)
    requires SortedByDate(s)
    ensures multiset(InsertByDate(x, s)) == multiset(s) + multiset{x}
  {
    if s != [] && DateKey(s[0]) < DateKey(x) {
      InsertByDatePermutes(x, s[1..]);
      assert s == [s[0]] + s[1..];
    }
  }

  /**
   * Sorts the rows ascending by payment date, as the dashboard's comparator on
   * `getTime()` does; insertion sort keyed on the calendar position.
   */
  function SortByDate(s: seq<ScheduledPayment>): (r: seq<ScheduledPayment>)
    ensures SortedByDate(r)
    ensures multiset(r) == multiset(s)
  {
    if s == [] then []
    else
      var sorted := SortByDate(s[1..]);
      InsertByDatePermutes(s[0], sorted);
      assert s == [s[0]] + s[1..];
      InsertByDate(s[0], sorted)
  }

  /** A list sorted by DateKey is sorted by `getTime()`: its day numbers ascend. */
  lemma SortedByTime(s: seq<ScheduledPayment>)
    requires SortedByDate(s)
    ensures forall i, j :: 0 <= i < j < |s| ==> DayNumber(s[i].paymentDate) <= DayNumber(s[j].paymentDate)
  {
    forall i, j | 0 <= i < j < |s|
      ensures DayNumber(s[i].paymentDate) <= DayNumber(s[j].paymentDate)
    {
      OrdinalOrdersLikeDayNumber(s[i].paymentDate, s[j].paymentDate);
    }
  }

  /**
   * fetchEmployees: one row per active employee, sorted by payment date, and
   * the monthly payroll total accumulated over the same employees.
   */
  method FetchEmployees(active: seq<Employee>, today: CalendarDate)
    returns (upcomingPayments: seq<ScheduledPayment>, monthlyPayrollTotal: nat)
    requires forall e :: e in active ==> ValidPaymentDay(e.salaryPaymentDay)
    ensures monthlyPayrollTotal == TotalSalary(active)
    ensures multiset(upcomingPayments) == multiset(ScheduleEntries(active, today))
    ensures SortedByDate(upcomingPayments)
    ensures forall p :: p in upcomingPayments ==> 0 <= p.daysUntilPayment
  {
    monthlyPayrollTotal := 0;
    var payments := [];
    var i := 0;
    while i < |active|
      invariant 0 <= i <= |active|
      invariant monthlyPayrollTotal == TotalSalary(active[..i])
      invariant |payments| == i
      invariant forall k :: 0 <= k < i ==> payments[k] == ScheduleEntry(active[k], today)
    {
      var e := active[i];
      assert active[..i + 1][..i] == active[..i];
      monthlyPayrollTotal := monthlyPayrollTotal + e.salaryUSD;
      payments := payments + [ScheduleEntry(e, today)];
      i := i + 1;
    }
    assert active[..i] == active;
    assert payments == ScheduleEntries(active, today);
    upcomingPayments := SortByDate(payments);
    forall p | p in upcomingPayments
      ensures 0 <= p.daysUntilPayment
    {
      assert p in multiset(payments);
    }
  }

  /**
   * The bucket groupPaymentsByWeek puts a row in: the four buckets split the
   * days-until axis at 7 and 14, and past 14 days the month number alone
   * (not the year) decides between this month and next (see GroupMeaning).
   */
  function GroupOf(p: ScheduledPayment, today: CalendarDate): (g: PaymentGroup)
    ensures g == ThisWeek <==> p.daysUntilPayment < 7
    ensures g == NextWeek <==> 7 <= p.daysUntilPayment < 14
    ensures g == LaterThisMonth <==> 14 <= p.daysUntilPayment && p.paymentDate.month == today.month
    ensures g == NextMonth <==> 14 <= p.daysUntilPayment && p.paymentDate.month != today.month
  {
    if p.daysUntilPayment < 7 then ThisWeek
    else if p.daysUntilPayment < 14 then NextWeek
    else if p.paymentDate.month == today.month then LaterThisMonth
    else NextMonth
  }

  /** The rows of s in group g, in their order in s. */
  function Filter(s: seq<ScheduledPayment>, g: PaymentGroup, today: CalendarDate): (r: seq<ScheduledPayment>)
    ensures |r| <= |s|
  {
    if s == [] then []
    else
      var last := s[|s| - 1];
      Filter(s[..|s| - 1], g, today) + (if GroupOf(last, today) == g then [last] else [])
  }

  /** A group holds exactly the rows of s that belong to it. */
  lemma {:induction false} FilterMembers(s: seq<ScheduledPayment>, g: PaymentGroup, today: CalendarDate)
    ensures forall p :: p in Filter(s, g, today) <==> p in s && GroupOf(p, today) == g
  {
    if s != [] {
      var init := s[..|s| - 1];
      assert s == init + [s[|s| - 1]];
      FilterMembers(init, g, today);
    }
  }

  /** Filtering one more row extends the group by that row exactly when it belongs to it. */
  lemma FilterAppend(s: seq<ScheduledPayment>, p: ScheduledPayment, g: PaymentGroup, today: CalendarDate)
    ensures Filter(s + [p], g, today) == Filter(s, g, today) + (if GroupOf(p, today) == g then [p] else [])
  {
    assert (s + [p])[..|s|] == s;
  }

  /**
   * groupPaymentsByWeek: pushes each row, in list order, into the bucket its
   * days-until and month select.
   */
  method GroupPaymentsByWeek(upcomingPayments: seq<ScheduledPayment>, today: CalendarDate)
    returns (thisWeek: seq<ScheduledPayment>, nextWeek: seq<ScheduledPayment>,
             laterThisMonth: seq<ScheduledPayment>, nextMonth: seq<ScheduledPayment>)
    ensures thisWeek == Filter(upcomingPayments, ThisWeek, today)
    ensures nextWeek == Filter(upcomingPayments, NextWeek, today)
    ensures laterThisMonth == Filter(upcomingPayments, LaterThisMonth, today)
    ensures nextMonth == Filter(upcomingPayments, NextMonth, today)
  {
    thisWeek, nextWeek, laterThisMonth, nextMonth := [], [], [], [];
    var i := 0;
    while i < |upcomingPayments|
      invariant 0 <= i <= |upcomingPayments|
      invariant thisWeek == Filter(upcomingPayments[..i], ThisWeek, today)
      invariant nextWeek == Filter(upcomingPayments[..i], NextWeek, today)
      invariant laterThisMonth == Filter(upcomingPayments[..i], LaterThisMonth, today)
      invariant nextMonth == Filter(upcomingPayments[..i], NextMonth, today)
    {
      var payment := upcomingPayments[i];
      assert upcomingPayments[..i + 1] == upcomingPayments[..i] + [payment];
      FilterAppend(upcomingPayments[..i], payment, ThisWeek, today);
      FilterAppend(upcomingPayments[..i], payment, NextWeek, today);
      FilterAppend(upcomingPayments[..i], payment, LaterThisMonth, today);
      FilterAppend(upcomingPayments[..i], payment, NextMonth, today);
      var daysUntil := payment.daysUntilPayment;
      if daysUntil < 7 {
        thisWeek := thisWeek + [payment];
      } else if daysUntil < 14 {
        nextWeek := nextWeek + [payment];
      } else if payment.paymentDate.month == today.month {
        laterThisMonth := laterThisMonth + [payment];
      } else {
        nextMonth := nextMonth + [payment];
      }
      i := i + 1;
    }
    assert upcomingPayments[..i] == upcomingPayments;
  }

  /** Every row lands in exactly one of the four groups: together they are a rearrangement of s. */
  lemma {:induction false} GroupsPartition(s: seq<ScheduledPayment>, today: CalendarDate)
    ensures multiset(s) == multiset(Filter(s, ThisWeek, today)) + multiset(Filter(s, NextWeek, today))
                           + multiset(Filter(s, LaterThisMonth, today)) + multiset(Filter(s, NextMonth, today))
    ensures |s| == |Filter(s, ThisWeek, today)| + |Filter(s, NextWeek, today)|
                   + |Filter(s, LaterThisMonth, today)| + |Filter(s, NextMonth, today)|
  {
    if s != [] {
      var init := s[..|s| - 1];
      assert s == init + [s[|s| - 1]];
      GroupsPartition(init, today);
    }
  }

  /** Pushing in list order keeps each group sorted by date when the list is. */
  lemma {:induction false} GroupKeepsOrder(s: seq<ScheduledPayment>, g: PaymentGroup, today: CalendarDate)
    requires SortedByDate(s)
    ensures SortedByDate(Filter(s, g, today))
  {
    if s != [] {
      var init, last := s[..|s| - 1], s[|s| - 1];
      assert SortedByDate(init);
      GroupKeepsOrder(init, g, today);
      FilterMembers(init, g, today);
      var f := Filter(init, g, today);
      assert forall p :: p in f ==> p in init && DateKey(p) <= DateKey(last);
    }
  }

  /**
   * For a row built from today's date, the bucket names are accurate about
   * the calendar: This Week and Next Week by days, Later This Month is in
   * today's month of today's year, Next Month lies in a later month.
   */
  lemma GroupMeaning(e: Employee, today: CalendarDate)
    requires ValidPaymentDay(e.salaryPaymentDay)
    ensures var p := ScheduleEntry(e, today);
            match GroupOf(p, today)
            case ThisWeek => 0 <= p.daysUntilPayment < 7
            case NextWeek => 7 <= p.daysUntilPayment < 14
            case LaterThisMonth =>
              14 <= p.daysUntilPayment && p.paymentDate.year == today.year
              && p.paymentDate.month == today.month
            case NextMonth =>
              14 <= p.daysUntilPayment
              && (p.paymentDate.year, p.paymentDate.month) != (today.year, today.month)
              && DayNumber(today) < DayNumber(p.paymentDate)
  {
    NextPaymentMonth(today, e.salaryPaymentDay);
    DaysUntilNextPayment(today, e.salaryPaymentDay);
  }
}
