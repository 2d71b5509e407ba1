/** The dashboard: record and part totals, the service count per
    "plate - model" key with its most-serviced winner, the replaced-part
    histogram, the six-month cost trend and the recent-records list. */
module Dashboard {
  import opened Common
  import opened Records
  import opened Sorting
  import opened Sequences
  import ViewRecords

  /** The reducer's starting value, shown when there are no records. */
  const NoData: string := "No data"

  // ---------------------------------------------------------------------------
  // Dictionaries filled key by key

  /** How many times `k` occurs in `ks`. */
  function Occurrences(ks: seq<string>, k: string): nat
  {
    if ks == [] then 0 else Occurrences(ks[..|ks| - 1], k) + (if ks[|ks| - 1] == k then 1 else 0)
  }

  lemma {:induction false} OccurrencesPositive(ks: seq<string>, k: string)
    ensures Occurrences(ks, k) > 0 <==> k in ks
  {
    if ks != [] {
      OccurrencesPositive(ks[..|ks| - 1], k);
      assert ks == ks[..|ks| - 1] + [ks[|ks| - 1]];
    }
  }

  lemma OccurrencesSnoc(ks: seq<string>, x: string, k: string)
    ensures Occurrences(ks + [x], k) == Occurrences(ks, k) + (if x == k then 1 else 0)
  {
    assert (ks + [x])[..|ks|] == ks;
  }

  ghost predicate Distinct(s: seq<string>)
  {
    forall i, j :: 0 <= i < j < |s| ==> s[i] != s[j]
  }

  /** The key order of a dictionary filled from `ks`: each key once, where it
      first appears. */
  function FirstOccurrenceOrder(ks: seq<string>): (r: seq<string>)
    ensures forall k :: k in r <==> k in ks
  {
    if ks == [] then []
    else
      var o := FirstOccurrenceOrder(ks[..|ks| - 1]);
      var x := ks[|ks| - 1];
      assert ks == ks[..|ks| - 1] + [x];
      if x in o then o else o + [x]
  }

  /** No key appears twice in the key order. */
  lemma {:induction false} FirstOccurrenceOrderKeys(ks: seq<string>)
    ensures Distinct(FirstOccurrenceOrder(ks))
  {
    if ks != [] {
      FirstOccurrenceOrderKeys(ks[..|ks| - 1]);
      assert ks == ks[..|ks| - 1] + [ks[|ks| - 1]];
    }
  }

  /** The dictionary `d[k] = (d[k] || 0) + 1` builds from `ks`. */
  function CountMap(ks: seq<string>): map<string, nat>
  {
    map k | k in ks :: Occurrences(ks, k)
  }

  /** The `forEach` loops that fill a counting dictionary: the key order is
      the order of first appearance and each count is the number of
      occurrences, never zero. */
  method Tally(ks: seq<string>) returns (order: seq<string>, counts: map<string, nat>)
    ensures order == FirstOccurrenceOrder(ks)
    ensures counts == CountMap(ks)
    ensures forall k :: k in counts <==> k in ks
    ensures forall k :: k in counts ==> counts[k] > 0
  {
    order, counts := [], map[];
    var i := 0;
    while i < |ks|
      invariant 0 <= i <= |ks|
      invariant Tallied(ks[..i], order, counts)
    {
      var k := ks[i];
      var order', counts' := order, counts;
      if k in counts {
        counts' := counts[k := counts[k] + 1];
      } else {
        counts' := counts[k := 1];
        order' := order + [k];
      }
      TallyStep(ks, i, order, counts, order', counts');
      order, counts := order', counts';
      i := i + 1;
    }
    assert ks[..|ks|] == ks;
    CountMapUnique(counts, ks);
    CountMapKeys(ks);
  }

  /** `order` and `counts` are the dictionary filled from `done`. */
  ghost predicate Tallied(done: seq<string>, order: seq<string>, counts: map<string, nat>)
  {
    order == FirstOccurrenceOrder(done)
    && (forall k :: k in counts <==> k in done)
    && (forall k :: k in counts ==> counts[k] == Occurrences(done, k))
  }

  /** One more key: a new key goes to the end of the key order with count one,
      a known key keeps its place and gains one. */
  lemma TallyStep(ks: seq<string>, i: int, order: seq<string>, counts: map<string, nat>,
                  order': seq<string>, counts': map<string, nat>)
    requires 0 <= i < |ks| && Tallied(ks[..i], order, counts)
    requires order' == if ks[i] in counts then order else order + [ks[i]]
    requires counts' == if ks[i] in counts then counts[ks[i] := counts[ks[i]] + 1] else counts[ks[i] := 1]
    ensures Tallied(ks[..i + 1], order', counts')
  {
    var done, k := ks[..i], ks[i];
    assert ks[..i + 1] == done + [k];
    assert (done + [k])[..|done|] == done;
    forall j ensures Occurrences(done + [k], j) == Occurrences(done, j) + (if k == j then 1 else 0) {
      OccurrencesSnoc(done, k, j);
    }
    OccurrencesPositive(done, k);
  }

  /** The dictionary's keys are the listed keys, each with a count of at least one. */
  lemma CountMapKeys(ks: seq<string>)
    ensures forall k :: k in CountMap(ks) <==> k in ks
    ensures forall k :: k in CountMap(ks) ==> CountMap(ks)[k] > 0
  {
    forall k | k in ks ensures Occurrences(ks, k) > 0 {
      OccurrencesPositive(ks, k);
    }
  }

  /** A dictionary whose keys are the listed keys and whose values are their
      occurrence counts is the counting dictionary. */
  lemma CountMapUnique(m: map<string, nat>, ks: seq<string>)
    requires forall k :: k in m <==> k in ks
    requires forall k :: k in m ==> m[k] == Occurrences(ks, k)
    ensures m == CountMap(ks)
  {
  }

  /** Sum of the counts of the listed keys. */
  function SumCounts(order: seq<string>, m: map<string, nat>): int
    requires forall k :: k in order ==> k in m
  {
    if order == [] then 0 else SumCounts(order[..|order| - 1], m) + m[order[|order| - 1]]
  }

  /** Sum of the occurrences in `ks` of the keys listed in `o`. */
  function SumOccurrences(o: seq<string>, ks: seq<string>): int
  {
    if o == [] then 0 else SumOccurrences(o[..|o| - 1], ks) + Occurrences(ks, o[|o| - 1])
  }

  lemma {:induction false} SumCountsIsSumOccurrences(o: seq<string>, ks: seq<string>)
    requires forall k :: k in o ==> k in ks
    ensures SumCounts(o, CountMap(ks)) == SumOccurrences(o, ks)
  {
    if o != [] {
      assert forall k :: k in o[..|o| - 1] ==> k in o;
      SumCountsIsSumOccurrences(o[..|o| - 1], ks);
    }
  }

  lemma {:induction false} SumOccurrencesSnoc(o: seq<string>, ks: seq<string>, x: string)
    requires Distinct(o)
    ensures SumOccurrences(o, ks + [x]) == SumOccurrences(o, ks) + (if x in o then 1 else 0)
  {
    if o != [] {
      var init, y := o[..|o| - 1], o[|o| - 1];
      assert o == init + [y];
      SumOccurrencesSnoc(init, ks, x);
      OccurrencesSnoc(ks, x, y);
    }
  }

  /** Every occurrence is counted once: the counts of a dictionary filled from
      `ks` add up to the length of `ks`. */
  lemma {:induction false} CountsSumToLength(ks: seq<string>)
    ensures SumCounts(FirstOccurrenceOrder(ks), CountMap(ks)) == |ks|
  {
    FirstOccurrenceOrderKeys(ks);
    SumCountsIsSumOccurrences(FirstOccurrenceOrder(ks), ks);
    SumOccurrencesToLength(ks);
  }

  lemma {:induction false} SumOccurrencesToLength(ks: seq<string>)
    ensures SumOccurrences(FirstOccurrenceOrder(ks), ks) == |ks|
  {
    if ks != [] {
      var init, x := ks[..|ks| - 1], ks[|ks| - 1];
      assert ks == init + [x];
      var o := FirstOccurrenceOrder(init);
      SumOccurrencesToLength(init);
      FirstOccurrenceOrderKeys(init);
      SumOccurrencesSnoc(o, init, x);
      if x !in o {
        assert (o + [x])[..|o|] == o;
        OccurrencesPositive(init, x);
        OccurrencesSnoc(init, x, x);
      }
    }
  }

  // ---------------------------------------------------------------------------
  // Most serviced car

  function ServiceKey(r: Record): string
  {
    r.carPlate + " - " + r.carModel
  }

  function ServiceKeys(rs: seq<Record>): (r: seq<string>)
    ensures |r| == |rs| && forall i :: 0 <= i < |rs| ==> r[i] == ServiceKey(rs[i])
  {
    if rs == [] then [] else ServiceKeys(rs[..|rs| - 1]) + [ServiceKey(rs[|rs| - 1])]
  }

  /** The reducer's step: keeps `a` only when its count is strictly larger than
      `b`'s; a starting value that is not a key has no count and always loses. */
  function Step(a: string, b: string, counts: map<string, nat>): string
    requires b in counts
  {
    if a in counts && counts[a] > counts[b] then a else b
  }

  /** `Object.keys(counts).reduce(Step, "No data")`. */
  function MostServiced(keys: seq<string>, counts: map<string, nat>): (r: string)
    requires forall k :: k in keys ==> k in counts
    ensures keys == [] ==> r == NoData
    ensures r == NoData || r in keys
  {
    if keys == [] then NoData
    else Step(MostServiced(keys[..|keys| - 1], counts), keys[|keys| - 1], counts)
  }

  /** `keys[i]` has the largest count and every later key a strictly smaller one. */
  ghost predicate LastMaximumAt(keys: seq<string>, counts: map<string, nat>, i: int)
    requires forall k :: k in keys ==> k in counts
  {
    0 <= i < |keys|
    && (forall j :: 0 <= j < |keys| ==> counts[keys[j]] <= counts[keys[i]])
    && (forall j :: i < j < |keys| ==> counts[keys[j]] < counts[keys[i]])
  }

  /** The reducer returns a key of largest count; among keys tied for the
      largest count, the last one in key order wins. */
  lemma {:induction false} MostServicedIsLastMaximum(keys: seq<string>, counts: map<string, nat>)
    requires forall k :: k in keys ==> k in counts
    requires NoData !in counts
    requires keys != []
    ensures exists i :: LastMaximumAt(keys, counts, i) && keys[i] == MostServiced(keys, counts)
  {
    var init, x := keys[..|keys| - 1], keys[|keys| - 1];
    assert keys == init + [x];
    assert forall k :: k in init ==> k in keys;
    if init == [] {
      assert LastMaximumAt(keys, counts, 0);
    } else {
      MostServicedIsLastMaximum(init, counts);
      var i :| LastMaximumAt(init, counts, i) && init[i] == MostServiced(init, counts);
      assert MostServiced(keys, counts) == Step(init[i], x, counts);
      ExtendLastMaximum(init, x, counts, i);
      var j := if counts[init[i]] > counts[x] then i else |init|;
      assert LastMaximumAt(keys, counts, j) && keys[j] == MostServiced(keys, counts);
    }
  }

  /** One more key: it takes over unless the current winner has a strictly
      larger count. */
  lemma ExtendLastMaximum(init: seq<string>, x: string, counts: map<string, nat>, i: int)
    requires forall k :: k in init ==> k in counts
    requires x in counts
    requires LastMaximumAt(init, counts, i)
    ensures forall k :: k in init + [x] ==> k in counts
    ensures LastMaximumAt(init + [x], counts, if counts[init[i]] > counts[x] then i else |init|)
    ensures (init + [x])[if counts[init[i]] > counts[x] then i else |init|] == Step(init[i], x, counts)
  {
    var keys := init + [x];
    assert forall j :: 0 <= j < |init| ==> keys[j] == init[j];
  }

  /** Service keys always contain " - ", so none of them is "No data". */
  lemma NoDataIsNotAKey(rs: seq<Record>)
    ensures NoData !in CountMap(ServiceKeys(rs))
  {
    forall i | 0 <= i < |rs| ensures ServiceKeys(rs)[i] != NoData {
      var k := ServiceKeys(rs)[i];
      assert k[|rs[i].carPlate| + 1] == '-';
      assert '-' !in NoData;
    }
  }

  function MostServicedKey(rs: seq<Record>): string
  {
    var ks := ServiceKeys(rs);
    MostServiced(FirstOccurrenceOrder(ks), CountMap(ks))
  }

  datatype Stats = Stats(totalRecords: int, partsReplaced: int, totalCost: int, mostServicedCar: string)

  function IsReplaced(): Part -> bool
  {
    (p: Part) => p.replaced == "Yes"
  }

  /** Number of parts with `replaced == "Yes"` over all records. */
  function PartsReplaced(rs: seq<Record>): nat
  {
    if rs == [] then 0 else PartsReplaced(rs[..|rs| - 1]) + |Filter(rs[|rs| - 1].parts, IsReplaced())|
  }

  /** Number of parts over all records (the "Out of" figure). */
  function TotalParts(rs: seq<Record>): nat
  {
    if rs == [] then 0 else TotalParts(rs[..|rs| - 1]) + |rs[|rs| - 1].parts|
  }

  lemma {:induction false} PartsReplacedAtMostTotal(rs: seq<Record>)
    ensures PartsReplaced(rs) <= TotalParts(rs)
  {
    if rs != [] {
      PartsReplacedAtMostTotal(rs[..|rs| - 1]);
    }
  }

  /** The statistics `calculateStats` stores. */
  function DashboardStats(rs: seq<Record>): Stats
  {
    Stats(|rs|, PartsReplaced(rs), SumCost(rs), BeforeFirst(MostServicedKey(rs), " - "))
  }

  /** `calculateStats`, with the service counts filled by a loop. */
  method CalculateStats(rs: seq<Record>) returns (s: Stats)
    ensures s == DashboardStats(rs)
  {
    var order, counts := Tally(ServiceKeys(rs));
    var top := MostServiced(order, counts);
    s := Stats(|rs|, PartsReplaced(rs), SumCost(rs), BeforeFirst(top, " - "));
  }

  /** No records: every figure is zero and the car reads "No data". */
  lemma EmptyDashboard()
    ensures DashboardStats([]) == Stats(0, 0, 0, NoData)
  {
    MissingCharNotContained(NoData, " - ", '-');
    BeforeFirstWhole(NoData, " - ");
  }

  /** Each record adds one to its own key, so the service counts add up to
      the number of records. */
  lemma ServiceCountsSumToRecords(rs: seq<Record>)
    ensures SumCounts(FirstOccurrenceOrder(ServiceKeys(rs)), CountMap(ServiceKeys(rs))) == |rs|
  {
    CountsSumToLength(ServiceKeys(rs));
  }

  /** With records, the winner is the "plate - model" key of some record, no
      key has more visits, every key after it in insertion order has fewer,
      and the stored text is that record's plate when the plate has no '-'. */
  lemma MostServicedCarIsMaximal(rs: seq<Record>)
    requires rs != []
    ensures LastMaximumIn(FirstOccurrenceOrder(ServiceKeys(rs)), ServiceKeys(rs), MostServicedKey(rs))
    ensures exists i :: (0 <= i < |rs| && ServiceKey(rs[i]) == MostServicedKey(rs)
      && ('-' !in rs[i].carPlate ==> DashboardStats(rs).mostServicedCar == rs[i].carPlate))
  {
    var ks := ServiceKeys(rs);
    var order := FirstOccurrenceOrder(ks);
    var counts := CountMap(ks);
    var top := MostServicedKey(rs);
    NoDataIsNotAKey(rs);
    FirstOccurrenceOrderKeys(ks);
    assert ks[0] in order;
    MostServicedIsLastMaximum(order, counts);
    var i :| LastMaximumAt(order, counts, i) && order[i] == top;
    WinnerIsLastMaximum(order, ks, i);
    assert top in ks;
    var k :| 0 <= k < |ks| && ks[k] == top;
    if '-' !in rs[k].carPlate {
      BeforeDashJoin(rs[k].carPlate, rs[k].carModel);
    }
  }

  lemma WinnerIsLastMaximum(order: seq<string>, ks: seq<string>, i: int)
    requires forall k :: k in order ==> k in ks
    requires LastMaximumAt(order, CountMap(ks), i)
    ensures LastMaximumIn(order, ks, order[i])
  {
    var counts := CountMap(ks);
    assert forall j :: 0 <= j < |order| ==> counts[order[j]] == Occurrences(ks, order[j]);
  }

  /** `key` sits at index `i` of `order`, has the most occurrences in `ks`, and
      every key after it has fewer. */
  ghost predicate LastMaximumIn(order: seq<string>, ks: seq<string>, key: string)
  {
    exists i :: 0 <= i < |order| && order[i] == key
      && (forall j :: 0 <= j < |order| ==> Occurrences(ks, order[j]) <= Occurrences(ks, key))
      && (forall j :: i < j < |order| ==> Occurrences(ks, order[j]) < Occurrences(ks, key))
  }

  function PlateIs(plate: string): Record -> bool
  {
    (r: Record) => r.carPlate == plate
  }

  /** The "visits" figure: records whose plate equals the stored text. */
  function Visits(rs: seq<Record>, shown: string): nat
  {
    |Filter(rs, PlateIs(shown))|
  }

  /** Visits are counted by plate alone, so when no plate contains '-' the
      figure shown is at least the count of the "plate - model" key. */
  lemma {:induction false} VisitsCoverKeyCount(rs: seq<Record>, plate: string, model: string)
    requires '-' !in plate
    requires forall i :: 0 <= i < |rs| ==> '-' !in rs[i].carPlate
    ensures Visits(rs, plate) >= Occurrences(ServiceKeys(rs), plate + " - " + model)
  {
    if rs != [] {
      var init, r := rs[..|rs| - 1], rs[|rs| - 1];
      VisitsCoverKeyCount(init, plate, model);
      assert ServiceKeys(rs)[..|rs| - 1] == ServiceKeys(init);
      BeforeDashJoin(plate, model);
      BeforeDashJoin(r.carPlate, r.carModel);
    }
  }

  // ---------------------------------------------------------------------------
  // Parts breakdown

  function PartTypes(ps: seq<Part>): (r: seq<string>)
    ensures |r| == |ps| && forall i :: 0 <= i < |ps| ==> r[i] == ps[i].partType
  {
    if ps == [] then [] else PartTypes(ps[..|ps| - 1]) + [ps[|ps| - 1].partType]
  }

  /** The types of the replaced parts, record by record, part by part. */
  function ReplacedTypes(rs: seq<Record>): seq<string>
  {
    if rs == [] then [] else ReplacedTypes(rs[..|rs| - 1]) + PartTypes(Filter(rs[|rs| - 1].parts, IsReplaced()))
  }

  /** Record `r` has a replaced part of type `t`. */
  predicate HasReplaced(r: Record, t: string)
  {
    exists j :: 0 <= j < |r.parts| && r.parts[j].replaced == "Yes" && r.parts[j].partType == t
  }

  lemma {:induction false} ReplacedTypesCount(rs: seq<Record>)
    ensures |ReplacedTypes(rs)| == PartsReplaced(rs)
  {
    if rs != [] {
      ReplacedTypesCount(rs[..|rs| - 1]);
    }
  }

  lemma {:induction false} ReplacedTypesMembers(rs: seq<Record>, t: string)
    ensures t in ReplacedTypes(rs) <==> exists i :: 0 <= i < |rs| && HasReplaced(rs[i], t)
  {
    if rs != [] {
      var init, r := rs[..|rs| - 1], rs[|rs| - 1];
      ReplacedTypesMembers(init, t);
      ReplacedTypesOfRecord(r, t);
      assert forall i :: 0 <= i < |init| ==> init[i] == rs[i];
    }
  }

  lemma ReplacedTypesOfRecord(r: Record, t: string)
    ensures t in PartTypes(Filter(r.parts, IsReplaced())) <==> HasReplaced(r, t)
  {
    var kept := Filter(r.parts, IsReplaced());
    if t in PartTypes(kept) {
      var k :| 0 <= k < |kept| && kept[k].partType == t;
      FilterMembers(r.parts, IsReplaced(), kept[k]);
    }
    if HasReplaced(r, t) {
      var j :| 0 <= j < |r.parts| && r.parts[j].replaced == "Yes" && r.parts[j].partType == t;
      FilterMembers(r.parts, IsReplaced(), r.parts[j]);
      var k :| 0 <= k < |kept| && kept[k] == r.parts[j];
      assert PartTypes(kept)[k] == t;
    }
  }

  /** `getPartsBreakdown`, filled by the same counting loop. */
  method PartsBreakdown(rs: seq<Record>) returns (order: seq<string>, counts: map<string, nat>)
    ensures order == FirstOccurrenceOrder(ReplacedTypes(rs))
    ensures counts == CountMap(ReplacedTypes(rs))
  {
    order, counts := Tally(ReplacedTypes(rs));
  }

  /** A part type is a key exactly when some record has a replaced part of that
      type, every count is at least one, and the counts add up to
      `partsReplaced`. */
  lemma BreakdownProperties(rs: seq<Record>)
    ensures var counts := CountMap(ReplacedTypes(rs));
      (forall t :: t in counts <==> exists i :: 0 <= i < |rs| && HasReplaced(rs[i], t))
      && (forall t :: t in counts ==> counts[t] >= 1)
      && SumCounts(FirstOccurrenceOrder(ReplacedTypes(rs)), counts) == PartsReplaced(rs)
  {
    var ts := ReplacedTypes(rs);
    forall t ensures t in CountMap(ts) <==> exists i :: 0 <= i < |rs| && HasReplaced(rs[i], t) {
      ReplacedTypesMembers(rs, t);
    }
    forall t | t in CountMap(ts) ensures CountMap(ts)[t] >= 1 {
      OccurrencesPositive(ts, t);
    }
    CountsSumToLength(ts);
    ReplacedTypesCount(rs);
  }

  datatype Entry = Entry(partType: string, count: int)

  function Entries(order: seq<string>, counts: map<string, nat>): (r: seq<Entry>)
    requires forall k :: k in order ==> k in counts
    ensures |r| == |order| && forall i :: 0 <= i < |order| ==> r[i] == Entry(order[i], counts[order[i]])
  {
    if order == [] then [] else [Entry(order[0], counts[order[0]])] + Entries(order[1..], counts)
  }

  function DescendingCount(e: Entry): int { -e.count }

  /** The bars under "Parts Breakdown": the same entries, largest count
      first; entries with equal counts keep their order of first appearance. */
  function SortedBreakdown(order: seq<string>, counts: map<string, nat>): (r: seq<Entry>)
    requires forall k :: k in order ==> k in counts
    ensures multiset(r) == multiset(Entries(order, counts))
    ensures forall i, j :: 0 <= i < j < |r| ==> r[i].count >= r[j].count
    ensures forall c :: WithKey(r, DescendingCount, c) == WithKey(Entries(order, counts), DescendingCount, c)
  {
    var r := SortBy(Entries(order, counts), DescendingCount);
    assert forall i, j :: 0 <= i < j < |r| ==> DescendingCount(r[i]) <= DescendingCount(r[j]);
    assert forall c :: WithKey(r, DescendingCount, c) == WithKey(Entries(order, counts), DescendingCount, c) by {
      forall c ensures WithKey(r, DescendingCount, c) == WithKey(Entries(order, counts), DescendingCount, c) {
        SortByIsStable(Entries(order, counts), DescendingCount, c);
      }
    }
    r
  }

  // ---------------------------------------------------------------------------
  // Cost trend

  datatype TrendPoint = TrendPoint(month: int, cost: int)

  function InMonth(m: int): Record -> bool
  {
    (r: Record) => r.date.month == m
  }

  /** Cost of the records dated in month `m` of any year. */
  function MonthCost(rs: seq<Record>, m: int): int
  {
    SumCost(Filter(rs, InMonth(m)))
  }

  /** The month `back` months before `current`, wrapping past January. */
  function MonthsBack(current: int, back: int): int
  {
    if current - back >= 0 then current - back else current - back + 12
  }

  function NextMonth(m: int): int
  {
    if m == 11 then 0 else m + 1
  }

  /** The year of the month `back` months before `today`'s, for `back` below 12. */
  function YearBack(today: Date, back: int): int
  {
    if today.month - back >= 0 then today.year else today.year - 1
  }

  /** The month of `new Date()` after `setMonth(getMonth() - back)`: the date
      moves to the target month but keeps its day, and a day the target month
      lacks runs over into the month after it. */
  function SetMonthBack(today: Date, back: int): (m: int)
    requires CalendarDate(today) && 0 <= back < 12
    ensures 0 <= m < 12
  {
    var target := MonthsBack(today.month, back);
    if today.day <= DaysInMonth(YearBack(today, back), target) then target else NextMonth(target)
  }

  /** The six month labels of the trend for a clock reading `today`, oldest
      first. Each is the month it stands for or, when today's day is past the
      end of that month, the month after it; the last is today's month. */
  function TrendMonths(today: Date): (ms: seq<int>)
    requires CalendarDate(today)
    ensures |ms| == 6 && ms[5] == today.month
    ensures forall i :: 0 <= i < 6 ==> 0 <= ms[i] < 12
    ensures forall i :: 0 <= i < 6 ==>
              ms[i] == MonthsBack(today.month, 5 - i) || ms[i] == NextMonth(MonthsBack(today.month, 5 - i))
    ensures forall i :: 0 <= i < 6 ==>
              (ms[i] == MonthsBack(today.month, 5 - i)
               <==> today.day <= DaysInMonth(YearBack(today, 5 - i), MonthsBack(today.month, 5 - i)))
  {
    seq(6, i requires 0 <= i < 6 => SetMonthBack(today, 5 - i))
  }

  /** Up to the 28th of a month every month has the day, so the labels are
      six consecutive months of the calendar, each named once. */
  lemma TrendMonthsEarlyInMonth(today: Date)
    requires CalendarDate(today) && today.day <= 28
    ensures var ms := TrendMonths(today);
            (forall i :: 0 <= i < 6 ==> ms[i] == MonthsBack(today.month, 5 - i))
            && (forall i :: 0 <= i < 5 ==> ms[i + 1] == NextMonth(ms[i]))
            && (forall i, j :: 0 <= i < j < 6 ==> ms[i] != ms[j])
  {
  }

  /** On the 31st of October the labels are May, July, July, August,
      October, October: June and September are skipped, because the 31st of
      June and of September run over into the next month. */
  lemma TrendMonthsAtMonthEnd()
    ensures TrendMonths(Date(2025, 9, 31)) == [4, 6, 6, 7, 9, 9]
  {
    var today := Date(2025, 9, 31);
    var ms := TrendMonths(today);
    assert ms[0] == 4 && ms[1] == 6 && ms[2] == 6;
    assert ms[3] == 7 && ms[4] == 9 && ms[5] == 9;
  }

  /** `getCostTrend` for a clock reading `today`: the six month labels, oldest
      first, each with the cost of the records dated in that month, whatever
      the year. A label that repeats carries the same cost each time. */
  function CostTrend(rs: seq<Record>, today: Date): (r: seq<TrendPoint>)
    requires CalendarDate(today)
    ensures |r| == 6
    ensures forall i :: 0 <= i < 6 ==> r[i].month == TrendMonths(today)[i] && r[i].cost == MonthCost(rs, r[i].month)
  {
    var ms := TrendMonths(today);
    seq(6, i requires 0 <= i < 6 => TrendPoint(ms[i], MonthCost(rs, ms[i])))
  }

  lemma MonthCostSnoc(rs: seq<Record>, r: Record, m: int)
    ensures MonthCost(rs + [r], m) == MonthCost(rs, m) + (if r.date.month == m then r.totalCost else 0)
  {
    assert (rs + [r])[..|rs|] == rs;
    var f := Filter(rs, InMonth(m));
    assert (f + [r])[..|f|] == f;
  }

  /** Sum of the month costs of months 0..n-1. */
  function MonthsTotal(rs: seq<Record>, n: nat): int
  {
    if n == 0 then 0 else MonthsTotal(rs, n - 1) + MonthCost(rs, n - 1)
  }

  lemma {:induction false} MonthsTotalSnoc(rs: seq<Record>, r: Record, n: nat)
    ensures MonthsTotal(rs + [r], n) == MonthsTotal(rs, n) + (if 0 <= r.date.month < n then r.totalCost else 0)
  {
    if n > 0 {
      MonthsTotalSnoc(rs, r, n - 1);
      MonthCostSnoc(rs, r, n - 1);
    }
  }

  /** Every validly dated record falls in exactly one month, so the twelve
      month costs add up to the total cost. */
  lemma {:induction false} MonthsPartitionCost(rs: seq<Record>)
    requires forall i :: 0 <= i < |rs| ==> ValidDate(rs[i].date)
    ensures MonthsTotal(rs, 12) == SumCost(rs)
  {
    if rs != [] {
      var init, r := rs[..|rs| - 1], rs[|rs| - 1];
      MonthsPartitionCost(init);
      assert rs == init + [r];
      MonthsTotalSnoc(init, r, 12);
    } else {
      assert forall m :: MonthCost([], m) == 0;
    }
  }

  // ---------------------------------------------------------------------------
  // Recent records

  /** `records.slice(0, 5)`: the first five records in fetched order, or all
      of them when there are fewer. */
  function Recent(rs: seq<Record>): (r: seq<Record>)
  {
    ViewRecords.Slice(rs, 0, 5)
  }

  lemma RecentIsFirstFive(rs: seq<Record>)
    ensures Recent(rs) == rs[..ViewRecords.Min(5, |rs|)]
    ensures |Recent(rs)| == ViewRecords.Min(5, |rs|)
  {
  }
}
