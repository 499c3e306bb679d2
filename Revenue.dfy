/** The revenue figures of the owner's property details page: what one tenancy
    earns at the property's monthly price, and the total over the property's
    tenancies. Amounts are exact integers. */
module Revenue {
  import opened Core
  import opened Entities

  /** Calendar months from the start month to the end month; the days and
      times are not looked at, and the count may be zero or negative. */
  function RawMonths(startDate: DateTime, endDate: DateTime): int
  {
    (endDate.year - startDate.year) * 12 + endDate.month - startDate.month
  }

  /** The number of months billed: the month difference, at least one. */
  function MonthsBilled(startDate: DateTime, endDate: DateTime): (n: int)
    ensures n >= 1
    ensures n >= RawMonths(startDate, endDate)
    ensures n == 1 || n == RawMonths(startDate, endDate)
  {
    var months := RawMonths(startDate, endDate);
    if months < 1 then 1 else months
  }

  function CalculateTenancyRevenue(startDate: DateTime, endDate: DateTime, monthlyPrice: int): (r: int)
  {
    MonthsBilled(startDate, endDate) * monthlyPrice
  }

  /** A tenancy never earns less than one month's price (for a price that is
      not negative), and earns a whole number of months' prices. */
  lemma AtLeastOneMonth(startDate: DateTime, endDate: DateTime, monthlyPrice: int)
    requires monthlyPrice >= 0
    ensures CalculateTenancyRevenue(startDate, endDate, monthlyPrice) >= monthlyPrice
    ensures exists n :: n >= 1 && CalculateTenancyRevenue(startDate, endDate, monthlyPrice) == n * monthlyPrice
  {
    var n := MonthsBilled(startDate, endDate);
    assert n * monthlyPrice >= 1 * monthlyPrice;
  }

  /** Only the year and month of either date matter. */
  lemma DayIgnored(startDate: DateTime, endDate: DateTime, startDate': DateTime, endDate': DateTime, monthlyPrice: int)
    requires startDate.year == startDate'.year && startDate.month == startDate'.month
    requires endDate.year == endDate'.year && endDate.month == endDate'.month
    ensures CalculateTenancyRevenue(startDate, endDate, monthlyPrice) == CalculateTenancyRevenue(startDate', endDate', monthlyPrice)
  {
  }

  /** An end not in a later calendar month than the start (months numbered
      1 to 12) is billed exactly one month, even an end before the start. */
  lemma NotLaterMonthIsOneMonth(startDate: DateTime, endDate: DateTime, monthlyPrice: int)
    requires 1 <= startDate.month <= 12 && 1 <= endDate.month <= 12
    requires endDate.year < startDate.year || (endDate.year == startDate.year && endDate.month <= startDate.month)
    ensures CalculateTenancyRevenue(startDate, endDate, monthlyPrice) == monthlyPrice
  {
    if endDate.year < startDate.year {
      assert (endDate.year - startDate.year) * 12 <= -12;
    }
    assert RawMonths(startDate, endDate) <= 0;
  }

  /** Once past the first month, each further calendar month of the end date
      adds one month's price. */
  lemma EachFurtherMonthAddsOnePrice(startDate: DateTime, endDate: DateTime, laterEnd: DateTime, monthlyPrice: int)
    requires RawMonths(startDate, endDate) >= 1
    requires RawMonths(startDate, laterEnd) == RawMonths(startDate, endDate) + 1
    ensures CalculateTenancyRevenue(startDate, laterEnd, monthlyPrice) ==
            CalculateTenancyRevenue(startDate, endDate, monthlyPrice) + monthlyPrice
  {
    var n := RawMonths(startDate, endDate);
    assert (n + 1) * monthlyPrice == n * monthlyPrice + monthlyPrice;
  }

  /** The tenancies whose revenue counts: active and expired ones. */
  predicate Earns(t: Tenancy)
  {
    t.status == Active || t.status == Expired
  }

  /** How many of the listed tenancies earn. */
  function CountEarning(ts: seq<Tenancy>): (n: nat)
    ensures n <= |ts|
  {
    if ts == [] then 0 else (if Earns(ts[0]) then 1 else 0) + CountEarning(ts[1..])
  }

  /** The count is the number of positions holding an active or expired tenancy. */
  lemma CountEarningCounts(ts: seq<Tenancy>)
    ensures CountEarning(ts) == |set i | 0 <= i < |ts| && Earns(ts[i])|
  {
    CountEarningFrom(ts, 0);
    assert ts[0..] == ts;
  }

  /** The same count over the suffix from `lo`, by induction on its length. */
  lemma {:induction false} CountEarningFrom(ts: seq<Tenancy>, lo: nat)
    requires lo <= |ts|
    ensures CountEarning(ts[lo..]) == |set i | lo <= i < |ts| && Earns(ts[i])|
    decreases |ts| - lo
  {
    var all := set i | lo <= i < |ts| && Earns(ts[i]);
    if lo == |ts| {
      assert all == {};
    } else {
      CountEarningFrom(ts, lo + 1);
      assert ts[lo..][1..] == ts[lo + 1..];
      var rest := set i | lo + 1 <= i < |ts| && Earns(ts[i]);
      if Earns(ts[lo]) {
        assert all == rest + {lo};
      } else {
        assert all == rest;
      }
    }
  }

  /** None of the listed tenancies earns exactly when none is active or expired. */
  lemma {:induction false} NoneEarning(ts: seq<Tenancy>)
    ensures CountEarning(ts) == 0 <==> forall i :: 0 <= i < |ts| ==> !Earns(ts[i])
    decreases |ts|
  {
    if ts != [] {
      NoneEarning(ts[1..]);
      assert forall i :: 1 <= i < |ts| ==> ts[i] == ts[1..][i - 1];
    }
  }

  /** At least one month's price on top of `count` prices is at least `count + 1` prices. */
  lemma OneMorePrice(months: int, count: int, price: int)
    requires months >= 1
    ensures price >= 0 ==> months * price + count * price >= (1 + count) * price
  {
    if price >= 0 {
      assert months * price >= price;
      assert (1 + count) * price == price + count * price;
    }
  }

  /** TotalRevenue: the sum over the listed tenancies that earn, each billed
      at the property's current monthly price; pending and cancelled
      tenancies add nothing. */
  function TotalRevenue(ts: seq<Tenancy>, monthlyPrice: int): (r: int)
    ensures monthlyPrice >= 0 ==> r >= CountEarning(ts) * monthlyPrice
    ensures CountEarning(ts) == 0 ==> r == 0
  {
    if ts == [] then 0
    else
      var rest := TotalRevenue(ts[1..], monthlyPrice);
      if Earns(ts[0]) then
        var own := CalculateTenancyRevenue(ts[0].startDate, ts[0].endDate, monthlyPrice);
        OneMorePrice(MonthsBilled(ts[0].startDate, ts[0].endDate), CountEarning(ts[1..]), monthlyPrice);
        own + rest
      else rest
  }

  /** The total over a concatenation is the sum of the totals: the order and
      grouping of the listed tenancies do not matter. */
  lemma {:induction false} TotalRevenueAppend(a: seq<Tenancy>, b: seq<Tenancy>, monthlyPrice: int)
    ensures TotalRevenue(a + b, monthlyPrice) == TotalRevenue(a, monthlyPrice) + TotalRevenue(b, monthlyPrice)
    decreases |a|
  {
    if a != [] {
      assert (a + b)[0] == a[0];
      assert (a + b)[1..] == a[1..] + b;
      TotalRevenueAppend(a[1..], b, monthlyPrice);
    } else {
      assert a + b == b;
    }
  }

  /** Adding a tenancy that does not earn leaves the total unchanged; adding
      one that does adds its own revenue. */
  lemma AddingATenancy(ts: seq<Tenancy>, t: Tenancy, monthlyPrice: int)
    ensures !Earns(t) ==> TotalRevenue(ts + [t], monthlyPrice) == TotalRevenue(ts, monthlyPrice)
    ensures Earns(t) ==>
      TotalRevenue(ts + [t], monthlyPrice) ==
      TotalRevenue(ts, monthlyPrice) + CalculateTenancyRevenue(t.startDate, t.endDate, monthlyPrice)
  {
    TotalRevenueAppend(ts, [t], monthlyPrice);
    assert [t][1..] == [];
  }
}
