/** The maintenance record as the record pages receive it from the records
    collection: a visit with its itemized parts. Costs are integer cents. */
module Records {

  /** One serviced or replaced component; `replaced` is the text "Yes" or "No". */
  datatype Part = Part(
    partType: string,
    replaced: string,
    brandName: string,
    supplier: string,
    manufactureDate: string,
    expiryDate: string,
    changeDate: string,
    cost: int)

  /** A calendar date; `month` counts from 0 (January) to 11, as `getMonth` does. */
  datatype Date = Date(year: int, month: int, day: int)

  predicate ValidDate(d: Date)
  {
    0 <= d.month < 12 && 1 <= d.day <= 31
  }

  predicate IsLeapYear(year: int)
  {
    (year % 4 == 0 && year % 100 != 0) || year % 400 == 0
  }

  /** The number of days in `month` (0..11) of `year`, leap years included. */
  function DaysInMonth(year: int, month: int): (n: int)
    ensures 28 <= n <= 31
    ensures n == 31 <==> month !in {1, 3, 5, 8, 10}
    ensures n < 30 <==> month == 1
  {
    if month == 1 then (if IsLeapYear(year) then 29 else 28)
    else if month == 3 || month == 5 || month == 8 || month == 10 then 30
    else 31
  }

  /** A date that exists on the calendar, as a clock reading does. */
  predicate CalendarDate(d: Date)
  {
    ValidDate(d) && d.day <= DaysInMonth(d.year, d.month)
  }

  /** The instant a date stands for, as `new Date(date).getTime()` orders them. */
  function Timestamp(d: Date): int
  {
    (d.year * 12 + d.month) * 31 + d.day
  }

  /** Valid dates are ordered by their timestamps exactly as calendar dates are. */
  lemma TimestampOrdersDates(a: Date, b: Date)
    requires ValidDate(a) && ValidDate(b)
    ensures Timestamp(a) < Timestamp(b) <==>
      (a.year < b.year || (a.year == b.year && (a.month < b.month || (a.month == b.month && a.day < b.day))))
  {
    var ka, kb := a.year * 12 + a.month, b.year * 12 + b.month;
    assert ka < kb <==> (a.year < b.year || (a.year == b.year && a.month < b.month));
    if ka < kb {
      assert ka * 31 + 31 <= kb * 31;
    } else if kb < ka {
      assert kb * 31 + 31 <= ka * 31;
    }
  }

  datatype Record = Record(
    id: int,
    driverName: string,
    carPlate: string,
    carModel: string,
    partsCount: int,
    totalCost: int,
    date: Date,
    status: string,
    parts: seq<Part>)

  /** Sum of `totalCost` over a list of records. */
  function SumCost(rs: seq<Record>): int
  {
    if rs == [] then 0 else SumCost(rs[..|rs| - 1]) + rs[|rs| - 1].totalCost
  }

  /** Sum of part costs. */
  function SumPartCost(ps: seq<Part>): int
  {
    if ps == [] then 0 else SumPartCost(ps[..|ps| - 1]) + ps[|ps| - 1].cost
  }

  lemma {:induction false} SumCostAppend(a: seq<Record>, b: seq<Record>)
    ensures SumCost(a + b) == SumCost(a) + SumCost(b)
    decreases |b|
  {
    if b == [] {
      assert a + b == a;
    } else {
      assert (a + b)[..|a + b| - 1] == a + b[..|b| - 1];
      SumCostAppend(a, b[..|b| - 1]);
    }
  }
}
