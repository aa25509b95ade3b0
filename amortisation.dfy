/** `create_amortization_schedule` (amortisation_schedules.py): payment
    dates per loan (one payment a year after the start for an off-balance
    loan, monthly payments up to the end date otherwise), then a linear,
    bullet or annuity schedule over them. Money is modelled as exact
    reals; dates as calendar dates with `relativedelta` clamping. */
module Amortisation {
  import opened Wrappers
  import opened Text

  // ---------------------------------------------------------------------------
  // Calendar

  /** A timestamp at midnight. */
  datatype Date = Date(year: int, month: int, day: int)

  predicate IsLeap(y: int) { y % 4 == 0 && (y % 100 != 0 || y % 400 == 0) }

  function DaysIn(y: int, m: int): (r: int)
    ensures 28 <= r <= 31
    ensures m == 2 ==> (r == 29 <==> IsLeap(y))
  {
    if m == 2 then (if IsLeap(y) then 29 else 28)
    else if m == 4 || m == 6 || m == 9 || m == 11 then 30
    else 31
  }

  predicate ValidDate(d: Date) { 1 <= d.year && 1 <= d.month <= 12 && 1 <= d.day <= DaysIn(d.year, d.month) }

  /** Calendar order, the order of pandas timestamps. */
  predicate Before(a: Date, b: Date)
  {
    a.year < b.year || (a.year == b.year && (a.month < b.month || (a.month == b.month && a.day < b.day)))
  }

  /** Months counted from year 0; each month step adds one. */
  function MonthIndex(d: Date): int { d.year * 12 + (d.month - 1) }

  function MinInt(a: int, b: int): int { if a <= b then a else b }

  /** `d + relativedelta(months=1)`: the next month, keeping the day of the
      month unless that month is shorter. */
  function AddMonth(d: Date): (r: Date)
    ensures ValidDate(d) ==> ValidDate(r) && Before(d, r) && MonthIndex(r) == MonthIndex(d) + 1
    ensures ValidDate(d) ==> r.day == d.day || (r.day == DaysIn(r.year, r.month) < d.day)
  {
    var y := if d.month == 12 then d.year + 1 else d.year;
    var m := if d.month == 12 then 1 else d.month + 1;
    Date(y, m, MinInt(d.day, DaysIn(y, m)))
  }

  /** `d + relativedelta(years=1)`: the same month a year later, 29 February
      becoming 28 February. */
  function AddYear(d: Date): (r: Date)
    ensures r.year == d.year + 1 && r.month == d.month
    ensures ValidDate(d) ==> ValidDate(r) && Before(d, r)
    ensures ValidDate(d) ==> r.day == d.day || (d.month == 2 && d.day == 29 && r.day == 28)
  {
    Date(d.year + 1, d.month, MinInt(d.day, DaysIn(d.year + 1, d.month)))
  }

  /** Stepping from the previous date rather than from the start lets the
      day of the month drop for good after a short month: 31 January, then
      28 February, then 28 March. */
  lemma ShortMonthDrift()
    ensures AddMonth(Date(2023, 1, 31)) == Date(2023, 2, 28)
    ensures AddMonth(Date(2023, 2, 28)) == Date(2023, 3, 28)
  {
  }

  /** Days before month `m` of year `y`. */
  function DaysBeforeMonth(y: int, m: int): (r: int)
    requires 1 <= m <= 13
    ensures r >= 0
    decreases m
  {
    if m == 1 then 0 else DaysBeforeMonth(y, m - 1) + DaysIn(y, m - 1)
  }

  function YearLength(y: int): int { if IsLeap(y) then 366 else 365 }

  /** Days before the first of January of year `y`, counted from
      1 January of year 1. */
  function YearStart(y: int): (r: int)
    requires y >= 1
    ensures r >= 0
    decreases y
  {
    if y == 1 then 0 else YearStart(y - 1) + YearLength(y - 1)
  }

  /** The proleptic Gregorian day number (`date.toordinal()`). */
  function Ordinal(d: Date): int
    requires ValidDate(d)
  {
    YearStart(d.year) + DaysBeforeMonth(d.year, d.month) + d.day
  }

  /** `(b - a).days`. */
  function DaysBetween(a: Date, b: Date): int
    requires ValidDate(a) && ValidDate(b)
  {
    Ordinal(b) - Ordinal(a)
  }

  /** A year has 365 days, 366 in a leap year. */
  lemma DaysInYear(y: int)
    ensures DaysBeforeMonth(y, 13) == YearLength(y)
  {
    assert DaysBeforeMonth(y, 3) == 31 + DaysIn(y, 2);
    assert DaysBeforeMonth(y, 7) == DaysBeforeMonth(y, 3) + 122;
    assert DaysBeforeMonth(y, 13) == DaysBeforeMonth(y, 7) + 184;
  }

  /** Later months of a year start after earlier ones end. */
  lemma {:induction false} MonthsInOrder(y: int, m1: int, m2: int)
    requires 1 <= m1 < m2 <= 13
    ensures DaysBeforeMonth(y, m1) + DaysIn(y, m1) <= DaysBeforeMonth(y, m2)
    decreases m2
  {
    if m2 > m1 + 1 {
      MonthsInOrder(y, m1, m2 - 1);
    }
  }

  lemma {:induction false} YearStartsInOrder(y1: int, y2: int)
    requires 1 <= y1 < y2
    ensures YearStart(y1) + YearLength(y1) <= YearStart(y2)
    decreases y2 - y1
  {
    if y2 > y1 + 1 {
      YearStartsInOrder(y1, y2 - 1);
    }
  }

  /** Calendar order is day-number order: `(b - a).days` is positive
      exactly when `a` is before `b`. */
  lemma OrdinalOrder(a: Date, b: Date)
    requires ValidDate(a) && ValidDate(b)
    ensures Before(a, b) <==> Ordinal(a) < Ordinal(b)
  {
    if Before(a, b) {
      OrdinalBefore(a, b);
    } else if Before(b, a) {
      OrdinalBefore(b, a);
    }
  }

  lemma OrdinalBefore(a: Date, b: Date)
    requires ValidDate(a) && ValidDate(b) && Before(a, b)
    ensures Ordinal(a) < Ordinal(b)
  {
    if a.year < b.year {
      MonthsInOrder(a.year, a.month, 13);
      DaysInYear(a.year);
      YearStartsInOrder(a.year, b.year);
      assert Ordinal(a) <= YearStart(a.year) + YearLength(a.year);
      assert YearStart(b.year) <= Ordinal(b);
    } else if a.month < b.month {
      MonthsInOrder(a.year, a.month, b.month);
    }
  }

  /** Strictly increasing. */
  predicate Increasing(dates: seq<Date>)
  {
    forall i, j :: 0 <= i < j < |dates| ==> Before(dates[i], dates[j])
  }

  // ---------------------------------------------------------------------------
  // Loans and rows

  /** One loan record; `balanceType` after the default has been filled in. */
  datatype Loan = Loan(amortisationType: string, interestRate: real, startingAmount: real,
                       start: Date, end: Date, balanceType: string)

  predicate ValidLoan(loan: Loan) { ValidDate(loan.start) && ValidDate(loan.end) }

  /** The input frame: its loans, and whether it has a `balance_type`
      column at all. */
  datatype LoanFrame = LoanFrame(loans: seq<Loan>, hasBalanceType: bool)

  /** A frame without a `balance_type` column gets `on_balance` for every
      loan; a frame with one keeps its values. */
  function WithBalanceType(frame: LoanFrame): (r: seq<Loan>)
    ensures |r| == |frame.loans|
    ensures forall i :: 0 <= i < |r| ==>
      r[i] == if frame.hasBalanceType then frame.loans[i] else frame.loans[i].(balanceType := "on_balance")
  {
    if frame.hasBalanceType then frame.loans
    else seq(|frame.loans|, i requires 0 <= i < |frame.loans| => frame.loans[i].(balanceType := "on_balance"))
  }

  predicate IsOffBalance(loan: Loan) { Lower(loan.balanceType) == "off_balance" }

  /** One schedule row; the loan's details are carried in `loan`. */
  datatype Row = Row(loanId: nat, loan: Loan, paymentDate: Date,
                     principal: real, interest: real, total: real, remaining: real)

  /** Actual-days interest on `balance` from `from` to `to`. */
  function Interest(balance: real, rate: real, from: Date, to: Date): real
    requires ValidDate(from) && ValidDate(to)
  {
    balance * (rate / 100.0) * (DaysBetween(from, to) as real / 365.0)
  }

  /** Interest is never negative on a non-negative balance at a
      non-negative rate over a period that does not run backwards. */
  lemma InterestNonNegative(balance: real, rate: real, from: Date, to: Date)
    requires ValidDate(from) && ValidDate(to) && !Before(to, from)
    requires balance >= 0.0 && rate >= 0.0
    ensures Interest(balance, rate, from, to) >= 0.0
  {
    OrdinalOrder(to, from);
    ProductNonNegative(balance, rate, DaysBetween(from, to) as real);
  }

  lemma ProductNonNegative(balance: real, rate: real, days: real)
    requires balance >= 0.0 && rate >= 0.0 && days >= 0.0
    ensures balance * (rate / 100.0) * (days / 365.0) >= 0.0
  {
    var scaled := balance * (rate / 100.0);
    assert scaled >= 0.0;
  }

  /** The row at time 0. */
  function InitialRow(loan: Loan, id: nat): Row
  {
    Row(id, loan, loan.start, 0.0, 0.0, 0.0, loan.startingAmount)
  }

  function PrevDate(start: Date, dates: seq<Date>, k: nat): Date
    requires k <= |dates|
  {
    if k == 0 then start else dates[k - 1]
  }

  /** The balance before payment `k`. */
  function BalanceBefore(amount: real, rows: seq<Row>, k: nat): real
    requires k <= |rows|
  {
    if k == 0 then amount else rows[k - 1].remaining
  }

  /** Payment `k` is due on `dates[k]`, charges interest on the balance
      before it since the previous date, totals principal plus interest,
      and lowers the balance by its principal. */
  ghost predicate PaymentRowAt(loan: Loan, id: nat, dates: seq<Date>, rows: seq<Row>, k: nat)
    requires ValidLoan(loan) && forall d :: d in dates ==> ValidDate(d)
  {
    k < |rows| && k < |dates| &&
    var before := BalanceBefore(loan.startingAmount, rows, k);
    var interest := Interest(before, loan.interestRate, PrevDate(loan.start, dates, k), dates[k]);
    rows[k] == Row(id, loan, dates[k], rows[k].principal, interest, rows[k].principal + interest, before - rows[k].principal)
  }

  /** The first `|rows|` payments are built as `PaymentRowAt` says. */
  ghost predicate RowsSoFar(loan: Loan, id: nat, dates: seq<Date>, rows: seq<Row>)
    requires ValidLoan(loan) && forall d :: d in dates ==> ValidDate(d)
  {
    |rows| <= |dates| && forall k :: 0 <= k < |rows| ==> PaymentRowAt(loan, id, dates, rows, k)
  }

  ghost predicate PaymentRows(loan: Loan, id: nat, dates: seq<Date>, rows: seq<Row>)
    requires ValidLoan(loan) && forall d :: d in dates ==> ValidDate(d)
  {
    |rows| == |dates| && RowsSoFar(loan, id, dates, rows)
  }

  /** The next payment row, given its principal. */
  function PaymentRow(loan: Loan, id: nat, dates: seq<Date>, rows: seq<Row>, principal: real): (r: Row)
    requires ValidLoan(loan) && (forall d :: d in dates ==> ValidDate(d)) && |rows| < |dates|
    ensures r.principal == principal && r.paymentDate == dates[|rows|]
    ensures r.remaining == BalanceBefore(loan.startingAmount, rows, |rows|) - principal
  {
    var before := BalanceBefore(loan.startingAmount, rows, |rows|);
    var interest := Interest(before, loan.interestRate, PrevDate(loan.start, dates, |rows|), dates[|rows|]);
    Row(id, loan, dates[|rows|], principal, interest, principal + interest, before - principal)
  }

  lemma RowAtAppend(loan: Loan, id: nat, dates: seq<Date>, rows: seq<Row>, r: Row, k: nat)
    requires ValidLoan(loan) && forall d :: d in dates ==> ValidDate(d)
    requires PaymentRowAt(loan, id, dates, rows, k)
    ensures PaymentRowAt(loan, id, dates, rows + [r], k)
  {
    assert (rows + [r])[k] == rows[k];
    if k > 0 {
      assert (rows + [r])[k - 1] == rows[k - 1];
    }
  }

  lemma AppendPaymentRow(loan: Loan, id: nat, dates: seq<Date>, rows: seq<Row>, principal: real)
    requires ValidLoan(loan) && (forall d :: d in dates ==> ValidDate(d)) && |rows| < |dates|
    requires RowsSoFar(loan, id, dates, rows)
    ensures RowsSoFar(loan, id, dates, rows + [PaymentRow(loan, id, dates, rows, principal)])
  {
    var r := PaymentRow(loan, id, dates, rows, principal);
    forall k | 0 <= k < |rows|
      ensures PaymentRowAt(loan, id, dates, rows + [r], k)
    {
      RowAtAppend(loan, id, dates, rows, r, k);
    }
    assert (rows + [r])[|rows|] == r;
    if |rows| > 0 {
      assert (rows + [r])[|rows| - 1] == rows[|rows| - 1];
    }
  }

  /** On dates in order from the start, a payment on a non-negative
      balance at a non-negative rate never charges negative interest. */
  lemma PaymentInterestNonNegative(loan: Loan, id: nat, dates: seq<Date>, rows: seq<Row>, k: nat)
    requires ValidLoan(loan) && (forall d :: d in dates ==> ValidDate(d)) && PaymentRows(loan, id, dates, rows)
    requires Increasing(dates) && dates != [] && !Before(dates[0], loan.start)
    requires k < |rows| && loan.interestRate >= 0.0 && BalanceBefore(loan.startingAmount, rows, k) >= 0.0
    ensures rows[k].interest >= 0.0
  {
    assert PaymentRowAt(loan, id, dates, rows, k);
    if k > 0 {
      assert Before(dates[k - 1], dates[k]);
    }
    InterestNonNegative(BalanceBefore(loan.startingAmount, rows, k), loan.interestRate, PrevDate(loan.start, dates, k), dates[k]);
  }

  /** The principals of `rows`. */
  function SumPrincipal(rows: seq<Row>): real
  {
    if rows == [] then 0.0 else SumPrincipal(rows[..|rows| - 1]) + rows[|rows| - 1].principal
  }

  /** Payments lower the balance by exactly their principals: the first `k`
      principals add up to the starting amount less the balance left. */
  lemma {:induction false} PrincipalsTelescope(loan: Loan, id: nat, dates: seq<Date>, rows: seq<Row>, k: nat)
    requires ValidLoan(loan) && (forall d :: d in dates ==> ValidDate(d)) && PaymentRows(loan, id, dates, rows)
    requires k <= |rows|
    ensures SumPrincipal(rows[..k]) == loan.startingAmount - BalanceBefore(loan.startingAmount, rows, k)
  {
    if k > 0 {
      PrincipalsTelescope(loan, id, dates, rows, k - 1);
      assert rows[..k][..k - 1] == rows[..k - 1];
      assert PaymentRowAt(loan, id, dates, rows, k - 1);
    }
  }

  /** A schedule whose last balance is zero has paid back the starting
      amount in principal. */
  lemma PrincipalsRepay(loan: Loan, id: nat, dates: seq<Date>, rows: seq<Row>)
    requires ValidLoan(loan) && (forall d :: d in dates ==> ValidDate(d)) && PaymentRows(loan, id, dates, rows)
    requires rows != [] && rows[|rows| - 1].remaining == 0.0
    ensures SumPrincipal(rows) == loan.startingAmount
  {
    PrincipalsTelescope(loan, id, dates, rows, |rows|);
    assert rows[..|rows|] == rows;
  }

  // ---------------------------------------------------------------------------
  // Payment dates

  /** On-balance dates: each a month after the one before (the first a month
      after the start), except the last, which is the end date and at most a
      month after the one before. */
  ghost predicate Monthly(start: Date, end: Date, dates: seq<Date>)
  {
    dates != [] && dates[|dates| - 1] == end &&
    (forall i {:trigger PrevDate(start, dates, i)} :: 0 <= i < |dates| - 1 ==> dates[i] == AddMonth(PrevDate(start, dates, i))) &&
    !Before(AddMonth(PrevDate(start, dates, |dates| - 1)), end)
  }

  /** Every date a month after the one before, the first a month after the
      start. */
  ghost predicate MonthChain(start: Date, dates: seq<Date>)
  {
    forall i {:trigger PrevDate(start, dates, i)} :: 0 <= i < |dates| ==> dates[i] == AddMonth(PrevDate(start, dates, i))
  }

  lemma ChainAppend(start: Date, dates: seq<Date>, x: Date)
    requires MonthChain(start, dates) && x == AddMonth(PrevDate(start, dates, |dates|))
    ensures MonthChain(start, dates + [x])
  {
    var e := dates + [x];
    forall i | 0 <= i < |e|
      ensures e[i] == AddMonth(PrevDate(start, e, i))
    {
      assert PrevDate(start, e, i) == PrevDate(start, dates, i) by {
        if i > 0 { assert e[i - 1] == dates[i - 1]; }
      }
      if i < |dates| {
        assert e[i] == dates[i];
      }
    }
  }

  /** A chain that ends on the end date is monthly. */
  lemma ChainReachesEnd(start: Date, dates: seq<Date>)
    requires MonthChain(start, dates) && dates != []
    ensures Monthly(start, dates[|dates| - 1], dates)
  {
  }

  /** A chain followed by an end date before the next monthly date is
      monthly. */
  lemma ChainThenEnd(start: Date, dates: seq<Date>, end: Date)
    requires MonthChain(start, dates) && Before(end, AddMonth(PrevDate(start, dates, |dates|)))
    ensures Monthly(start, end, dates + [end])
  {
    var e := dates + [end];
    forall i | 0 <= i < |e| - 1
      ensures e[i] == AddMonth(PrevDate(start, e, i))
    {
      assert e[i] == dates[i];
      assert PrevDate(start, e, i) == PrevDate(start, dates, i) by {
        if i > 0 { assert e[i - 1] == dates[i - 1]; }
      }
    }
    if dates != [] { assert e[|e| - 2] == dates[|dates| - 1]; }
  }

  /** What the on-balance date loop promises. */
  ghost predicate OnBalanceDates(start: Date, end: Date, dates: seq<Date>)
  {
    dates != [] && Increasing(dates) && (forall d :: d in dates ==> ValidDate(d)) &&
    (Before(start, end) ==> forall i :: 0 <= i < |dates| ==> Before(start, dates[i])) &&
    Monthly(start, end, dates) && forall i :: 0 <= i < |dates| ==> !Before(end, dates[i])
  }

  /** The invariant of the on-balance date loop, `current` being the last
      date appended (or the start). */
  ghost predicate DatesSoFar(start: Date, end: Date, dates: seq<Date>, current: Date)
  {
    ValidDate(start) && ValidDate(end) && ValidDate(current) && (forall d :: d in dates ==> ValidDate(d)) &&
    current == PrevDate(start, dates, |dates|) &&
    (dates != [] ==> !Before(end, current) && Before(start, end)) &&
    MonthChain(start, dates) &&
    (forall i :: 0 <= i < |dates| ==> Before(start, dates[i]) && !Before(current, dates[i])) &&
    Increasing(dates)
  }

  /** Appending the next monthly date when it does not pass the end. */
  lemma DatesStep(start: Date, end: Date, dates: seq<Date>, current: Date)
    requires DatesSoFar(start, end, dates, current) && Before(current, end) && !Before(end, AddMonth(current))
    ensures DatesSoFar(start, end, dates + [AddMonth(current)], AddMonth(current))
  {
    ChainAppend(start, dates, AddMonth(current));
  }

  /** Appending the end date when the next monthly date passes it. */
  lemma DatesBreak(start: Date, end: Date, dates: seq<Date>, current: Date)
    requires DatesSoFar(start, end, dates, current) && Before(current, end) && Before(end, AddMonth(current))
    ensures OnBalanceDates(start, end, dates + [end])
  {
    ChainThenEnd(start, dates, end);
  }

  /** Leaving the loop because the end date has been reached. */
  lemma DatesExit(start: Date, end: Date, dates: seq<Date>, current: Date)
    requires DatesSoFar(start, end, dates, current) && !Before(current, end)
    ensures dates != [] ==> OnBalanceDates(start, end, dates)
    ensures dates == [] ==> OnBalanceDates(start, end, [end])
  {
    if dates != [] {
      ChainReachesEnd(start, dates);
    }
  }

  /** The one payment date of an off-balance loan: a year after the start,
      or the end date when that comes first. */
  function OffBalanceDate(loan: Loan): Date
  {
    if Before(loan.end, AddYear(loan.start)) then loan.end else AddYear(loan.start)
  }

  /** The payment dates of one loan. */
  method PaymentDates(loan: Loan) returns (dates: seq<Date>)
    requires ValidLoan(loan)
    ensures dates != [] && Increasing(dates)
    ensures forall d :: d in dates ==> ValidDate(d)
    ensures Before(loan.start, loan.end) ==> forall i :: 0 <= i < |dates| ==> Before(loan.start, dates[i])
    ensures IsOffBalance(loan) ==> dates == [OffBalanceDate(loan)]
    ensures !IsOffBalance(loan) ==> OnBalanceDates(loan.start, loan.end, dates)
  {
    if IsOffBalance(loan) {
      var date := AddYear(loan.start);
      if Before(loan.end, date) {
        date := loan.end;
      }
      return [date];
    }
    var end := loan.end;
    var current := loan.start;
    dates := [];
    while Before(current, end)
      invariant DatesSoFar(loan.start, end, dates, current)
      decreases MonthIndex(end) - MonthIndex(current)
    {
      var next := AddMonth(current);
      if Before(end, next) {
        DatesBreak(loan.start, end, dates, current);
        return dates + [end];
      }
      DatesStep(loan.start, end, dates, current);
      dates := dates + [next];
      current := next;
    }
    DatesExit(loan.start, end, dates, current);
    if dates == [] {
      dates := [end];
    }
  }

  // ---------------------------------------------------------------------------
  // The schedules

  /** The linear loop: equal principals of `amount / n`, the last payment
      taking whatever balance is left. */
  method LinearRows(loan: Loan, id: nat, dates: seq<Date>) returns (rows: seq<Row>)
    requires ValidLoan(loan) && (forall d :: d in dates ==> ValidDate(d)) && dates != [] && Increasing(dates)
    ensures PaymentRows(loan, id, dates, rows)
    ensures forall k :: 0 <= k < |rows| - 1 ==> rows[k].principal == loan.startingAmount / (|dates| as real)
    ensures rows[|rows| - 1].principal == BalanceBefore(loan.startingAmount, rows, |rows| - 1)
    ensures rows[|rows| - 1].remaining == 0.0
  {
    var n := |dates|;
    var principal := loan.startingAmount / (n as real);
    var remaining := loan.startingAmount;
    var previous := loan.start;
    rows := [];
    for k := 0 to n
      invariant |rows| == k && remaining == BalanceBefore(loan.startingAmount, rows, k)
      invariant previous == PrevDate(loan.start, dates, k)
      invariant RowsSoFar(loan, id, dates, rows)
      invariant k < n ==> principal == loan.startingAmount / (n as real)
      invariant forall j :: 0 <= j < k && j < n - 1 ==> rows[j].principal == loan.startingAmount / (n as real)
      invariant k == n ==> rows[n - 1].principal == BalanceBefore(loan.startingAmount, rows, n - 1)
      invariant k == n ==> rows[n - 1].remaining == 0.0
    {
      if dates[k] == dates[n - 1] {
        assert k == n - 1;
        principal := remaining;
      }
      var row := PaymentRow(loan, id, dates, rows, principal);
      AppendPaymentRow(loan, id, dates, rows, principal);
      rows := rows + [row];
      remaining := remaining - principal;
      previous := dates[k];
    }
  }

  /** The bullet loop: interest only, the whole balance with the last
      payment. */
  method BulletRows(loan: Loan, id: nat, dates: seq<Date>) returns (rows: seq<Row>)
    requires ValidLoan(loan) && (forall d :: d in dates ==> ValidDate(d)) && dates != []
    ensures PaymentRows(loan, id, dates, rows)
    ensures forall k :: 0 <= k < |rows| - 1 ==> rows[k].principal == 0.0 && rows[k].remaining == loan.startingAmount
    ensures rows[|rows| - 1].principal == loan.startingAmount && rows[|rows| - 1].remaining == 0.0
  {
    var n := |dates|;
    var remaining := loan.startingAmount;
    var previous := loan.start;
    rows := [];
    for k := 0 to n
      invariant |rows| == k && remaining == BalanceBefore(loan.startingAmount, rows, k)
      invariant k < n ==> remaining == loan.startingAmount
      invariant previous == PrevDate(loan.start, dates, k)
      invariant RowsSoFar(loan, id, dates, rows)
      invariant forall j :: 0 <= j < k && j < n - 1 ==> rows[j].principal == 0.0 && rows[j].remaining == loan.startingAmount
      invariant k == n ==> rows[n - 1].principal == loan.startingAmount && rows[n - 1].remaining == 0.0
    {
      var principal := if k < n - 1 then 0.0 else remaining;
      var row := PaymentRow(loan, id, dates, rows, principal);
      AppendPaymentRow(loan, id, dates, rows, principal);
      rows := rows + [row];
      remaining := row.remaining;
      previous := dates[k];
    }
  }

  /** `x ** n` for a natural exponent. */
  function Pow(x: real, n: nat): real
  {
    if n == 0 then 1.0 else x * Pow(x, n - 1)
  }

  /** A base above one raised to a positive power is above one. */
  lemma {:induction false} PowAboveOne(x: real, n: nat)
    requires x > 1.0 && n > 0
    ensures Pow(x, n) > 1.0
  {
    if n > 1 {
      PowAboveOne(x, n - 1);
      assert x * Pow(x, n - 1) > 1.0 * Pow(x, n - 1);
    }
  }

  /** The fixed payment of an annuity over `n` monthly periods, or the
      simple share `amount / n` when the monthly rate is not positive. */
  function AnnuityPayment(loan: Loan, n: nat): real
    requires n > 0
  {
    var r := loan.interestRate / 100.0 / 12.0;
    if r > 0.0 then
      PowAboveOne(1.0 + r, n);
      loan.startingAmount * r * Pow(1.0 + r, n) / (Pow(1.0 + r, n) - 1.0)
    else loan.startingAmount / (n as real)
  }

  function MinReal(a: real, b: real): real { if a <= b then a else b }

  /** Every payment so far repays at most the balance before it, and each
      one before the last repays the annuity less its interest, capped at
      that balance. */
  ghost predicate AnnuitySoFar(loan: Loan, n: nat, rows: seq<Row>)
    requires n > 0
  {
    forall j :: 0 <= j < |rows| ==>
      rows[j].principal <= BalanceBefore(loan.startingAmount, rows, j) &&
      (j < n - 1 ==> rows[j].principal == MinReal(AnnuityPayment(loan, n) - rows[j].interest, BalanceBefore(loan.startingAmount, rows, j)))
  }

  lemma AnnuityStep(loan: Loan, n: nat, rows: seq<Row>, row: Row)
    requires n > 0 && AnnuitySoFar(loan, n, rows)
    requires row.principal <= BalanceBefore(loan.startingAmount, rows, |rows|)
    requires |rows| < n - 1 ==> row.principal == MinReal(AnnuityPayment(loan, n) - row.interest, BalanceBefore(loan.startingAmount, rows, |rows|))
    ensures AnnuitySoFar(loan, n, rows + [row])
  {
    var r := rows + [row];
    var a := loan.startingAmount;
    forall j | 0 <= j < |r|
      ensures r[j].principal <= BalanceBefore(a, r, j)
      ensures j < n - 1 ==> r[j].principal == MinReal(AnnuityPayment(loan, n) - r[j].interest, BalanceBefore(a, r, j))
    {
      assert BalanceBefore(a, r, j) == BalanceBefore(a, rows, j) by {
        if 0 < j { assert r[j - 1] == rows[j - 1]; }
      }
      if j < |rows| {
        assert r[j] == rows[j];
      } else {
        assert r[j] == row;
      }
    }
  }

  /** The annuity loop: the principal is the fixed payment less the
      interest, capped at the balance; the last payment takes the balance. */
  method AnnuityRows(loan: Loan, id: nat, dates: seq<Date>) returns (rows: seq<Row>)
    requires ValidLoan(loan) && (forall d :: d in dates ==> ValidDate(d)) && dates != [] && Increasing(dates)
    ensures PaymentRows(loan, id, dates, rows)
    ensures forall k :: 0 <= k < |rows| ==> rows[k].principal <= BalanceBefore(loan.startingAmount, rows, k)
    ensures forall k :: 0 <= k < |rows| - 1 ==>
      rows[k].principal == MinReal(AnnuityPayment(loan, |dates|) - rows[k].interest, BalanceBefore(loan.startingAmount, rows, k))
    ensures rows[|rows| - 1].principal == BalanceBefore(loan.startingAmount, rows, |rows| - 1)
    ensures rows[|rows| - 1].remaining == 0.0
  {
    var n := |dates|;
    var annuity := AnnuityPayment(loan, n);
    var remaining := loan.startingAmount;
    var previous := loan.start;
    rows := [];
    for k := 0 to n
      invariant |rows| == k && remaining == BalanceBefore(loan.startingAmount, rows, k)
      invariant k < n ==> annuity == AnnuityPayment(loan, n)
      invariant previous == PrevDate(loan.start, dates, k)
      invariant RowsSoFar(loan, id, dates, rows)
      invariant AnnuitySoFar(loan, n, rows)
      invariant k == n ==> rows[n - 1].principal == BalanceBefore(loan.startingAmount, rows, n - 1)
      invariant k == n ==> rows[n - 1].remaining == 0.0
    {
      var interest := Interest(remaining, loan.interestRate, previous, dates[k]);
      var principal := annuity - interest;
      if dates[k] == dates[n - 1] {
        assert k == n - 1;
        principal := remaining;
        annuity := principal + interest;
      }
      principal := MinReal(principal, remaining);
      var row := PaymentRow(loan, id, dates, rows, principal);
      assert row.interest == interest;
      AppendPaymentRow(loan, id, dates, rows, principal);
      AnnuityStep(loan, n, rows, row);
      rows := rows + [row];
      remaining := remaining - principal;
      previous := dates[k];
    }
  }

  // ---------------------------------------------------------------------------
  // One loan, all loans

  /** An on-balance loan whose type is none of the three raises. */
  predicate Unsupported(loan: Loan)
  {
    !IsOffBalance(loan) && Lower(loan.amortisationType) != "linear" &&
    Lower(loan.amortisationType) != "bullet" && Lower(loan.amortisationType) != "annuity"
  }

  function UnsupportedMessage(loan: Loan): string
  {
    "Unsupported amortisation type: " + loan.amortisationType
  }

  /** The payment dates of a run of rows. */
  function DatesOf(rows: seq<Row>): (dates: seq<Date>)
    ensures |dates| == |rows| && forall k :: 0 <= k < |rows| ==> dates[k] == rows[k].paymentDate
  {
    seq(|rows|, k requires 0 <= k < |rows| => rows[k].paymentDate)
  }

  /** Payment rows are due on their dates. */
  lemma DatesOfPayments(loan: Loan, id: nat, dates: seq<Date>, rows: seq<Row>)
    requires ValidLoan(loan) && (forall d :: d in dates ==> ValidDate(d)) && PaymentRows(loan, id, dates, rows)
    ensures DatesOf(rows) == dates
  {
    forall k | 0 <= k < |rows|
      ensures DatesOf(rows)[k] == dates[k]
    {
      assert PaymentRowAt(loan, id, dates, rows, k);
    }
  }

  /** What every loan's rows promise: the time-0 row, then one payment row
      per payment date with the balance paid off by the last; an off-balance
      loan pays everything once, on its one date; an on-balance loan pays
      monthly up to its end date, with the principals of its type. */
  ghost predicate LoanSchedule(loan: Loan, id: nat, rows: seq<Row>)
  {
    ValidLoan(loan) && |rows| >= 2 && rows[0] == InitialRow(loan, id) &&
    var payments := rows[1..];
    var dates := DatesOf(payments);
    var n := |payments|;
    (forall d :: d in dates ==> ValidDate(d)) && PaymentRows(loan, id, dates, payments) &&
    rows[|rows| - 1].remaining == 0.0 &&
    (IsOffBalance(loan) ==> dates == [OffBalanceDate(loan)] && payments[0].principal == loan.startingAmount) &&
    (!IsOffBalance(loan) ==> OnBalanceDates(loan.start, loan.end, dates)) &&
    (!IsOffBalance(loan) && Lower(loan.amortisationType) == "linear" ==>
      forall k :: 0 <= k < n - 1 ==> payments[k].principal == loan.startingAmount / (n as real)) &&
    (!IsOffBalance(loan) && Lower(loan.amortisationType) == "bullet" ==>
      (forall k :: 0 <= k < n - 1 ==> payments[k].principal == 0.0 && payments[k].remaining == loan.startingAmount) &&
      payments[n - 1].principal == loan.startingAmount) &&
    (!IsOffBalance(loan) && Lower(loan.amortisationType) == "annuity" ==>
      (forall k :: 0 <= k < n ==> payments[k].principal <= BalanceBefore(loan.startingAmount, payments, k)) &&
      forall k :: 0 <= k < n - 1 ==>
        payments[k].principal == MinReal(AnnuityPayment(loan, n) - payments[k].interest, BalanceBefore(loan.startingAmount, payments, k)))
  }

  /** The payment rows of one loan keep the promises of its balance and
      amortisation type: one row per date, the balance paid off by the last;
      an off-balance loan repays everything at once; linear loans repay
      `amount / n` each month, bullet loans nothing until the last month,
      and annuity loans the fixed payment less interest, capped at the
      balance. */
  ghost predicate TypedPayments(loan: Loan, id: nat, dates: seq<Date>, payments: seq<Row>)
    requires ValidLoan(loan) && forall d :: d in dates ==> ValidDate(d)
  {
    var n := |payments|;
    PaymentRows(loan, id, dates, payments) && payments != [] && payments[n - 1].remaining == 0.0 &&
    (IsOffBalance(loan) ==> payments[0].principal == loan.startingAmount) &&
    (!IsOffBalance(loan) && Lower(loan.amortisationType) == "linear" ==>
      forall k :: 0 <= k < n - 1 ==> payments[k].principal == loan.startingAmount / (n as real)) &&
    (!IsOffBalance(loan) && Lower(loan.amortisationType) == "bullet" ==>
      (forall k :: 0 <= k < n - 1 ==> payments[k].principal == 0.0 && payments[k].remaining == loan.startingAmount) &&
      payments[n - 1].principal == loan.startingAmount) &&
    (!IsOffBalance(loan) && Lower(loan.amortisationType) == "annuity" ==>
      (forall k :: 0 <= k < n ==> payments[k].principal <= BalanceBefore(loan.startingAmount, payments, k)) &&
      forall k :: 0 <= k < n - 1 ==>
        payments[k].principal == MinReal(AnnuityPayment(loan, n) - payments[k].interest, BalanceBefore(loan.startingAmount, payments, k)))
  }

  /** The time-0 row followed by typed payment rows, due on the loan's
      payment dates, is the loan's schedule. */
  lemma ScheduleFrom(loan: Loan, id: nat, dates: seq<Date>, payments: seq<Row>)
    requires ValidLoan(loan) && (forall d :: d in dates ==> ValidDate(d)) && DatesOf(payments) == dates
    requires IsOffBalance(loan) ==> dates == [OffBalanceDate(loan)]
    requires !IsOffBalance(loan) ==> OnBalanceDates(loan.start, loan.end, dates)
    requires TypedPayments(loan, id, dates, payments)
    ensures LoanSchedule(loan, id, [InitialRow(loan, id)] + payments)
  {
    var rows := [InitialRow(loan, id)] + payments;
    assert rows[1..] == payments;
  }

  /** The branch on balance and amortisation type: None for an unsupported
      on-balance type, otherwise the payment rows of that type. */
  method Payments(loan: Loan, id: nat, dates: seq<Date>) returns (payments: Option<seq<Row>>)
    requires ValidLoan(loan) && (forall d :: d in dates ==> ValidDate(d)) && dates != [] && Increasing(dates)
    requires IsOffBalance(loan) ==> |dates| == 1
    ensures payments.None? <==> Unsupported(loan)
    ensures payments.Some? ==> TypedPayments(loan, id, dates, payments.value)
  {
    if IsOffBalance(loan) {
      var interest := Interest(loan.startingAmount, loan.interestRate, loan.start, dates[0]);
      var row := Row(id, loan, dates[0], loan.startingAmount, interest, loan.startingAmount + interest, 0.0);
      assert PaymentRowAt(loan, id, dates, [row], 0);
      return Some([row]);
    } else if Lower(loan.amortisationType) == "linear" {
      var rows := LinearRows(loan, id, dates);
      return Some(rows);
    } else if Lower(loan.amortisationType) == "bullet" {
      var rows := BulletRows(loan, id, dates);
      return Some(rows);
    } else if Lower(loan.amortisationType) == "annuity" {
      var rows := AnnuityRows(loan, id, dates);
      return Some(rows);
    }
    return None;
  }

  /** The rows of one loan. */
  method LoanRows(loan: Loan, id: nat) returns (r: Result<seq<Row>, string>)
    requires ValidLoan(loan)
    ensures r.Err? <==> Unsupported(loan)
    ensures r.Err? ==> r.error == UnsupportedMessage(loan)
    ensures r.Ok? ==> LoanSchedule(loan, id, r.value)
    ensures r.Ok? ==> SumPrincipal(r.value[1..]) == loan.startingAmount
    ensures r.Ok? && Before(loan.start, loan.end) ==>
      forall i, j :: 0 <= i < j < |r.value| ==> Before(r.value[i].paymentDate, r.value[j].paymentDate)
  {
    var dates := PaymentDates(loan);
    var payments := Payments(loan, id, dates);
    if payments.None? {
      return Err(UnsupportedMessage(loan));
    }
    var rows := [InitialRow(loan, id)] + payments.value;
    DatesOfPayments(loan, id, dates, payments.value);
    ScheduleFrom(loan, id, dates, payments.value);
    ScheduleFacts(loan, id, dates, payments.value);
    return Ok(rows);
  }

  /** The time-0 row followed by finished payment rows is a schedule that
      repays the loan, in date order when the loan ends after it starts. */
  lemma ScheduleFacts(loan: Loan, id: nat, dates: seq<Date>, payments: seq<Row>)
    requires ValidLoan(loan) && (forall d :: d in dates ==> ValidDate(d)) && Increasing(dates)
    requires Before(loan.start, loan.end) ==> forall i :: 0 <= i < |dates| ==> Before(loan.start, dates[i])
    requires PaymentRows(loan, id, dates, payments) && payments != [] && payments[|payments| - 1].remaining == 0.0
    ensures var rows := [InitialRow(loan, id)] + payments;
      rows[1..] == payments && SumPrincipal(rows[1..]) == loan.startingAmount &&
      (Before(loan.start, loan.end) ==>
        forall i, j :: 0 <= i < j < |rows| ==> Before(rows[i].paymentDate, rows[j].paymentDate))
  {
    PrincipalsRepay(loan, id, dates, payments);
    var rows := [InitialRow(loan, id)] + payments;
    assert rows[1..] == payments;
    forall i, j | 0 <= i < j < |rows| && Before(loan.start, loan.end)
      ensures Before(rows[i].paymentDate, rows[j].paymentDate)
    {
      assert PaymentRowAt(loan, id, dates, payments, j - 1);
      if i > 0 {
        assert PaymentRowAt(loan, id, dates, payments, i - 1);
      }
    }
  }

  /** Block `j` is the schedule of loan `j`, for every block so far. */
  ghost predicate SchedulesOf(loans: seq<Loan>, blocks: seq<seq<Row>>)
  {
    |blocks| <= |loans| && forall j :: 0 <= j < |blocks| ==> LoanSchedule(loans[j], j, blocks[j])
  }

  lemma SchedulesAppend(loans: seq<Loan>, blocks: seq<seq<Row>>, b: seq<Row>)
    requires SchedulesOf(loans, blocks) && |blocks| < |loans| && LoanSchedule(loans[|blocks|], |blocks|, b)
    ensures SchedulesOf(loans, blocks + [b])
  {
    forall j | 0 <= j < |blocks| + 1
      ensures LoanSchedule(loans[j], j, (blocks + [b])[j])
    {
      if j < |blocks| { assert (blocks + [b])[j] == blocks[j]; }
    }
  }

  /** All rows, loan after loan. */
  function Flatten(blocks: seq<seq<Row>>): seq<Row>
  {
    if blocks == [] then [] else Flatten(blocks[..|blocks| - 1]) + blocks[|blocks| - 1]
  }

  /** `create_amortization_schedule` before its final sort and rounding:
      the first unsupported on-balance loan aborts the whole run. */
  method CreateSchedule(frame: LoanFrame) returns (r: Result<seq<Row>, string>, ghost blocks: seq<seq<Row>>)
    requires forall i :: 0 <= i < |frame.loans| ==> ValidLoan(frame.loans[i])
    ensures var loans := WithBalanceType(frame);
      r.Err? <==> exists i :: 0 <= i < |loans| && Unsupported(loans[i])
    ensures var loans := WithBalanceType(frame);
      r.Err? ==> (exists i :: 0 <= i < |loans| && Unsupported(loans[i]) && r.error == UnsupportedMessage(loans[i]) &&
                    forall j :: 0 <= j < i ==> !Unsupported(loans[j]))
    ensures var loans := WithBalanceType(frame);
      r.Ok? ==> (|blocks| == |loans| && r.value == Flatten(blocks) &&
                 forall i :: 0 <= i < |loans| ==> LoanSchedule(loans[i], i, blocks[i]))
  {
    var loans := WithBalanceType(frame);
    var all: seq<Row> := [];
    blocks := [];
    for i := 0 to |loans|
      invariant |blocks| == i && all == Flatten(blocks)
      invariant forall j :: 0 <= j < i ==> !Unsupported(loans[j])
      invariant SchedulesOf(loans, blocks)
    {
      var rows := LoanRows(loans[i], i);
      if rows.Err? {
        return Err(rows.error), blocks;
      }
      assert Flatten(blocks + [rows.value]) == all + rows.value by {
        assert (blocks + [rows.value])[..|blocks|] == blocks;
      }
      SchedulesAppend(loans, blocks, rows.value);
      all := all + rows.value;
      blocks := blocks + [rows.value];
    }
    return Ok(all), blocks;
  }
}
