/** The sums behind the operator dashboard: growth by day, new revenue by day, revenue by currency. Money is in cents. */
module Analytics {
  import opened Common
  import opened JsCollections

  // ----- gap filling -----

  /** A row of an aggregation by day. */
  datatype Entry<V> = Entry(date: string, value: V)

  /** `new Map(rows)` read at a date: the last row with that date wins. */
  function LastFor<V>(rows: seq<Entry<V>>, date: string): Option<V> {
    if rows == [] then None
    else if rows[|rows| - 1].date == date then Some(rows[|rows| - 1].value)
    else LastFor(rows[..|rows| - 1], date)
  }

  /** What the rows give for a day: the weight of the row found, or nothing. */
  function OnDay<V>(rows: seq<Entry<V>>, date: string, weight: V -> int): int {
    var found := LastFor(rows, date);
    if found.Some? then weight(found.value) else 0
  }

  /** The sum of the first `days` days. `dayKey` writes the date of a day number. */
  function PrefixSum<V>(rows: seq<Entry<V>>, dayKey: int -> string, from: int, days: nat, weight: V -> int): int {
    if days == 0 then 0
    else PrefixSum(rows, dayKey, from, days - 1, weight) + OnDay(rows, dayKey(from + days - 1), weight)
  }

  /** A day has the value of the last row of its date. */
  lemma {:induction false} LastOutcome<V>(rows: seq<Entry<V>>, date: string)
    ensures match LastFor(rows, date)
            case None => forall i :: 0 <= i < |rows| ==> rows[i].date != date
            case Some(value) =>
              exists i :: 0 <= i < |rows| && rows[i] == Entry(date, value) && forall k :: i < k < |rows| ==> rows[k].date != date
  {
    if rows != [] && rows[|rows| - 1].date != date {
      var front := rows[..|rows| - 1];
      LastOutcome(front, date);
      if LastFor(front, date).Some? {
        var i :| 0 <= i < |front| && front[i] == Entry(date, LastFor(front, date).value) && forall k :: i < k < |front| ==> front[k].date != date;
        assert rows[i] == front[i] && forall k :: i < k < |rows| ==> rows[k].date != date;
      } else {
        assert forall i :: 0 <= i < |front| ==> rows[i] == front[i];
      }
    } else if rows != [] {
      assert rows[|rows| - 1] == Entry(date, rows[|rows| - 1].value);
    }
  }

  ghost predicate InWindow(dayKey: int -> string, from: int, days: nat, date: string) {
    exists day :: from <= day < from + days && dayKey(day) == date
  }

  /** Everything the rows of the window hold, rows with an equal date included. */
  ghost function WindowSum<V>(rows: seq<Entry<V>>, dayKey: int -> string, from: int, days: nat, weight: V -> int): int {
    if rows == [] then 0
    else
      var last := rows[|rows| - 1];
      WindowSum(rows[..|rows| - 1], dayKey, from, days, weight)
      + if InWindow(dayKey, from, days, last.date) then weight(last.value) else 0
  }

  /** What the rows of the window overwrite: each replaces the row that its date had before. */
  ghost function ShadowedSum<V>(rows: seq<Entry<V>>, dayKey: int -> string, from: int, days: nat, weight: V -> int): int {
    if rows == [] then 0
    else
      var front, last := rows[..|rows| - 1], rows[|rows| - 1];
      ShadowedSum(front, dayKey, from, days, weight)
      + if InWindow(dayKey, from, days, last.date) then OnDay(front, last.date, weight) else 0
  }

  ghost predicate DatesDiffer(dayKey: int -> string, from: int, days: nat) {
    forall a, b :: from <= a < b < from + days ==> dayKey(a) != dayKey(b)
  }

  lemma {:induction false} PrefixSumOfLonger<V>(rows: seq<Entry<V>>, dayKey: int -> string, from: int, days: nat, weight: V -> int)
    requires rows != [] && DatesDiffer(dayKey, from, days)
    ensures var front, last := rows[..|rows| - 1], rows[|rows| - 1];
            PrefixSum(rows, dayKey, from, days, weight)
            == PrefixSum(front, dayKey, from, days, weight)
               + if InWindow(dayKey, from, days, last.date) then weight(last.value) - OnDay(front, last.date, weight) else 0
  {
    var front, last := rows[..|rows| - 1], rows[|rows| - 1];
    if days > 0 {
      PrefixSumOfLonger(rows, dayKey, from, days - 1, weight);
      if dayKey(from + days - 1) == last.date {
        assert InWindow(dayKey, from, days, last.date);
        assert !InWindow(dayKey, from, days - 1, last.date);
      } else {
        assert InWindow(dayKey, from, days, last.date) <==> InWindow(dayKey, from, days - 1, last.date);
      }
    }
  }

  /** The days of the window add up to the rows of the window less what was overwritten. */
  lemma {:induction false} WindowIsConserved<V>(rows: seq<Entry<V>>, dayKey: int -> string, from: int, days: nat, weight: V -> int)
    requires DatesDiffer(dayKey, from, days)
    ensures PrefixSum(rows, dayKey, from, days, weight)
            == WindowSum(rows, dayKey, from, days, weight) - ShadowedSum(rows, dayKey, from, days, weight)
  {
    if rows == [] {
      EmptySum<V>(dayKey, from, days, weight);
    } else {
      WindowIsConserved(rows[..|rows| - 1], dayKey, from, days, weight);
      PrefixSumOfLonger(rows, dayKey, from, days, weight);
    }
  }

  lemma {:induction false} EmptySum<V>(dayKey: int -> string, from: int, days: nat, weight: V -> int)
    ensures PrefixSum<V>([], dayKey, from, days, weight) == 0
  {
    if days > 0 {
      EmptySum<V>(dayKey, from, days - 1, weight);
    }
  }

  ghost predicate DistinctDates<V>(rows: seq<Entry<V>>) {
    forall i, k :: 0 <= i < k < |rows| ==> rows[i].date != rows[k].date
  }

  lemma {:induction false} NoRowFor<V>(rows: seq<Entry<V>>, date: string)
    requires forall i :: 0 <= i < |rows| ==> rows[i].date != date
    ensures LastFor(rows, date) == None
  {
    if rows != [] {
      NoRowFor(rows[..|rows| - 1], date);
    }
  }

  /** A grouping by day yields each date once, and then nothing is overwritten. */
  lemma {:induction false} DistinctDatesShadowNothing<V>(rows: seq<Entry<V>>, dayKey: int -> string, from: int, days: nat, weight: V -> int)
    requires DistinctDates(rows)
    ensures ShadowedSum(rows, dayKey, from, days, weight) == 0
  {
    if rows != [] {
      var front, last := rows[..|rows| - 1], rows[|rows| - 1];
      DistinctDatesShadowNothing(front, dayKey, from, days, weight);
      NoRowFor(front, last.date);
    }
  }

  datatype GrowthBucket = GrowthBucket(date: string, newTenants: nat, cumulativeTenants: int)
  datatype NewMrr = NewMrr(newSubscriptions: nat, newMrr: int)
  datatype NewMrrBucket = NewMrrBucket(date: string, newMrr: int, newSubscriptions: nat)

  const Count: nat -> int := n => n

  /** One bucket for each of `days` consecutive days, each with the running total up to it. */
  method DensifyTenantGrowth(dayKey: int -> string, from: int, days: int, seed: int, rows: seq<Entry<nat>>)
    returns (result: seq<GrowthBucket>)
    ensures |result| == if days > 0 then days else 0
    ensures forall i :: 0 <= i < |result| ==>
              && result[i].date == dayKey(from + i)
              && result[i].newTenants == OnDay(rows, dayKey(from + i), Count)
              && result[i].cumulativeTenants == seed + PrefixSum(rows, dayKey, from, i + 1, Count)
    ensures days > 0 && DatesDiffer(dayKey, from, days) ==>
              && result[days - 1].cumulativeTenants
                 == seed + WindowSum(rows, dayKey, from, days, Count) - ShadowedSum(rows, dayKey, from, days, Count)
              && (DistinctDates(rows) ==> result[days - 1].cumulativeTenants == seed + WindowSum(rows, dayKey, from, days, Count))
  {
    result := [];
    var cumulative := seed;
    var i := 0;
    while i < days
      invariant |result| == i && (i <= days || (i == 0 && days < 0))
      invariant cumulative == seed + PrefixSum(rows, dayKey, from, i, Count)
      invariant forall k :: 0 <= k < i ==>
                  && result[k].date == dayKey(from + k)
                  && result[k].newTenants == OnDay(rows, dayKey(from + k), Count)
                  && result[k].cumulativeTenants == seed + PrefixSum(rows, dayKey, from, k + 1, Count)
    {
      var date := dayKey(from + i);
      var newTenants := LastFor(rows, date).GetOr(0);
      cumulative := cumulative + newTenants;
      result := result + [GrowthBucket(date, newTenants, cumulative)];
      i := i + 1;
    }
    if days > 0 && DatesDiffer(dayKey, from, days) {
      WindowIsConserved(rows, dayKey, from, days, Count);
      if DistinctDates(rows) {
        DistinctDatesShadowNothing(rows, dayKey, from, days, Count);
      }
    }
  }

  /**
   * A hypothetical: the aggregation groups by date and never yields two rows of one date. If it did, only the later one
   * would reach the chart, and the last total would fall short of the rows.
   */
  lemma OverwrittenRowsAreLost(dayKey: int -> string, from: int, a: nat, b: nat)
    ensures var rows := [Entry(dayKey(from), a), Entry(dayKey(from), b)];
            && PrefixSum(rows, dayKey, from, 1, Count) == b
            && WindowSum(rows, dayKey, from, 1, Count) == a + b
  {
    var rows := [Entry(dayKey(from), a), Entry(dayKey(from), b)];
    assert dayKey(from + 0) == dayKey(from);
    assert InWindow(dayKey, from, 1, dayKey(from));
    var one := rows[..1];
    assert one == [Entry(dayKey(from), a)] && one[..0] == [];
    assert WindowSum(one, dayKey, from, 1, Count) == a;
  }

  method DensifyNewMrr(dayKey: int -> string, from: int, days: int, rows: seq<Entry<NewMrr>>) returns (result: seq<NewMrrBucket>)
    ensures |result| == if days > 0 then days else 0
    ensures forall i :: 0 <= i < |result| ==>
              result[i] == NewMrrBucket(dayKey(from + i), OnDay(rows, dayKey(from + i), (r: NewMrr) => r.newMrr),
                                        LastFor(rows, dayKey(from + i)).GetOr(NewMrr(0, 0)).newSubscriptions)
  {
    result := [];
    var i := 0;
    while i < days
      invariant |result| == i && (i <= days || (i == 0 && days < 0))
      invariant forall k :: 0 <= k < i ==>
                  result[k] == NewMrrBucket(dayKey(from + k), OnDay(rows, dayKey(from + k), (r: NewMrr) => r.newMrr),
                                            LastFor(rows, dayKey(from + k)).GetOr(NewMrr(0, 0)).newSubscriptions)
    {
      var date := dayKey(from + i);
      var row := LastFor(rows, date);
      result := result + [NewMrrBucket(date, if row.Some? then row.value.newMrr else 0,
                                       if row.Some? then row.value.newSubscriptions else 0)];
      i := i + 1;
    }
  }

  // ----- revenue by currency -----

  datatype PlanRow = PlanRow(currency: string, monthlyRevenue: int, subscribers: nat)
  datatype Slot = Slot(currency: string, mrr: int, subscribers: nat)
  datatype Revenue = Revenue(currency: string, mrr: int, arr: int, subscribers: nat)

  function SlotOf(slots: seq<Slot>, currency: string): (i: nat)
    ensures i <= |slots|
    ensures i < |slots| ==> slots[i].currency == currency
    ensures forall k :: 0 <= k < i ==> slots[k].currency != currency
  {
    if slots == [] || slots[0].currency == currency then 0 else 1 + SlotOf(slots[1..], currency)
  }

  function AddRow(slots: seq<Slot>, row: PlanRow, lower: string -> string): seq<Slot> {
    var currency := lower(row.currency);
    var i := SlotOf(slots, currency);
    if i < |slots| then slots[i := Slot(currency, slots[i].mrr + row.monthlyRevenue, slots[i].subscribers + row.subscribers)]
    else slots + [Slot(currency, row.monthlyRevenue, row.subscribers)]
  }

  /** The entries of the map, in the order in which their currencies first occur. */
  function Grouped(rows: seq<PlanRow>, lower: string -> string): seq<Slot> {
    if rows == [] then [] else AddRow(Grouped(rows[..|rows| - 1], lower), rows[|rows| - 1], lower)
  }

  function RowsRevenue(rows: seq<PlanRow>): int {
    if rows == [] then 0 else RowsRevenue(rows[..|rows| - 1]) + rows[|rows| - 1].monthlyRevenue
  }

  function RowsSubscribers(rows: seq<PlanRow>): nat {
    if rows == [] then 0 else RowsSubscribers(rows[..|rows| - 1]) + rows[|rows| - 1].subscribers
  }

  function CurrencyRevenue(rows: seq<PlanRow>, currency: string, lower: string -> string): int {
    if rows == [] then 0
    else
      var last := rows[|rows| - 1];
      CurrencyRevenue(rows[..|rows| - 1], currency, lower) + if lower(last.currency) == currency then last.monthlyRevenue else 0
  }

  function CurrencySubscribers(rows: seq<PlanRow>, currency: string, lower: string -> string): nat {
    if rows == [] then 0
    else
      var last := rows[|rows| - 1];
      CurrencySubscribers(rows[..|rows| - 1], currency, lower) + if lower(last.currency) == currency then last.subscribers else 0
  }

  function SlotsMrr(slots: seq<Slot>): int {
    if slots == [] then 0 else SlotsMrr(slots[..|slots| - 1]) + slots[|slots| - 1].mrr
  }

  function SlotsSubscribers(slots: seq<Slot>): nat {
    if slots == [] then 0 else SlotsSubscribers(slots[..|slots| - 1]) + slots[|slots| - 1].subscribers
  }

  lemma {:induction false} ReplacedSlotSums(slots: seq<Slot>, i: nat, slot: Slot)
    requires i < |slots|
    ensures SlotsMrr(slots[i := slot]) == SlotsMrr(slots) - slots[i].mrr + slot.mrr
    ensures SlotsSubscribers(slots[i := slot]) == SlotsSubscribers(slots) - slots[i].subscribers + slot.subscribers
  {
    var front := slots[..|slots| - 1];
    if i < |front| {
      ReplacedSlotSums(front, i, slot);
      assert slots[i := slot][..|slots| - 1] == front[i := slot];
    } else {
      assert slots[i := slot][..|slots| - 1] == front;
    }
  }

  ghost predicate OneSlotEach(slots: seq<Slot>) {
    forall i, k :: 0 <= i < k < |slots| ==> slots[i].currency != slots[k].currency
  }

  ghost predicate SlotsHoldTheirRows(slots: seq<Slot>, rows: seq<PlanRow>, lower: string -> string) {
    forall i :: 0 <= i < |slots| ==>
      && slots[i].mrr == CurrencyRevenue(rows, slots[i].currency, lower)
      && slots[i].subscribers == CurrencySubscribers(rows, slots[i].currency, lower)
  }

  lemma AddRowConserves(slots: seq<Slot>, row: PlanRow, lower: string -> string)
    requires OneSlotEach(slots)
    ensures var after := AddRow(slots, row, lower);
            && after != [] && OneSlotEach(after)
            && SlotsMrr(after) == SlotsMrr(slots) + row.monthlyRevenue
            && SlotsSubscribers(after) == SlotsSubscribers(slots) + row.subscribers
  {
    var after := AddRow(slots, row, lower);
    var i := SlotOf(slots, lower(row.currency));
    if i < |slots| {
      ReplacedSlotSums(slots, i, after[i]);
    } else {
      assert after[..|after| - 1] == slots;
    }
  }

  lemma AddRowGoesHome(rows: seq<PlanRow>, lower: string -> string)
    requires rows != []
    requires var front := rows[..|rows| - 1];
             OneSlotEach(Grouped(front, lower)) && SlotsHoldTheirRows(Grouped(front, lower), front, lower)
    ensures SlotsHoldTheirRows(Grouped(rows, lower), rows, lower)
  {
    var front, last := rows[..|rows| - 1], rows[|rows| - 1];
    var before := Grouped(front, lower);
    if SlotOf(before, lower(last.currency)) == |before| {
      CurrencyWithoutSlot(front, lower, lower(last.currency));
    }
  }

  /** Grouping keeps the totals, has each currency once, and gives each exactly its own rows. */
  lemma {:induction false} GroupingConserves(rows: seq<PlanRow>, lower: string -> string)
    ensures var slots := Grouped(rows, lower);
            && SlotsMrr(slots) == RowsRevenue(rows)
            && SlotsSubscribers(slots) == RowsSubscribers(rows)
            && OneSlotEach(slots)
            && SlotsHoldTheirRows(slots, rows, lower)
            && (rows == [] <==> slots == [])
  {
    if rows != [] {
      var front, last := rows[..|rows| - 1], rows[|rows| - 1];
      GroupingConserves(front, lower);
      AddRowConserves(Grouped(front, lower), last, lower);
      AddRowGoesHome(rows, lower);
    }
  }

  lemma {:induction false} CurrencyWithoutSlot(rows: seq<PlanRow>, lower: string -> string, currency: string)
    requires SlotOf(Grouped(rows, lower), currency) == |Grouped(rows, lower)|
    ensures CurrencyRevenue(rows, currency, lower) == 0 && CurrencySubscribers(rows, currency, lower) == 0
  {
    if rows != [] {
      var front := rows[..|rows| - 1];
      var before, slots := Grouped(front, lower), Grouped(rows, lower);
      assert forall k :: 0 <= k < |before| ==> slots[k].currency == before[k].currency;
      assert slots[SlotOf(before, lower(rows[|rows| - 1].currency))].currency == lower(rows[|rows| - 1].currency);
      CurrencyWithoutSlot(front, lower, currency);
    }
  }

  const ByMrr: (Revenue, Revenue) -> bool := (a: Revenue, b: Revenue) => b.mrr <= a.mrr

  function Report(slots: seq<Slot>): (report: seq<Revenue>)
    ensures |report| == |slots|
    ensures forall i :: 0 <= i < |slots| ==> report[i] == Revenue(slots[i].currency, slots[i].mrr, slots[i].mrr * 12, slots[i].subscribers)
  {
    seq(|slots|, i requires 0 <= i < |slots| => Revenue(slots[i].currency, slots[i].mrr, slots[i].mrr * 12, slots[i].subscribers))
  }

  lemma GroupedNext(rows: seq<PlanRow>, n: nat, lower: string -> string)
    requires n < |rows|
    ensures Grouped(rows[..n + 1], lower) == AddRow(Grouped(rows[..n], lower), rows[n], lower)
  {
    assert rows[..n + 1][..n] == rows[..n];
  }

  lemma NoReport(slots: seq<Slot>, revenue: seq<Revenue>)
    requires multiset(revenue) == multiset(Report(slots)) && revenue == []
    ensures slots == []
  {
    assert |multiset(revenue)| == |multiset(Report(slots))|;
  }

  /** The year's revenue is twelve months', and nothing is behind what has less. */
  lemma ReportOutcome(slots: seq<Slot>, revenue: seq<Revenue>)
    requires multiset(revenue) == multiset(Report(slots)) && Sorted(revenue, ByMrr)
    ensures forall i :: 0 <= i < |revenue| ==> revenue[i].arr == 12 * revenue[i].mrr
    ensures forall i, k :: 0 <= i < k < |revenue| ==> revenue[k].mrr <= revenue[i].mrr
  {
    forall i | 0 <= i < |revenue| ensures revenue[i].arr == 12 * revenue[i].mrr {
      assert revenue[i] in multiset(revenue);
      assert revenue[i] in Report(slots);
    }
    forall i, k | 0 <= i < k < |revenue| ensures revenue[k].mrr <= revenue[i].mrr {
      assert ByMrr(revenue[i], revenue[k]);
    }
  }

  /** The loop that fills the currency map. */
  method GroupByCurrency(rows: seq<PlanRow>, lower: string -> string) returns (slots: seq<Slot>)
    ensures slots == Grouped(rows, lower)
  {
    slots := [];
    for n := 0 to |rows|
      invariant slots == Grouped(rows[..n], lower)
    {
      var currency := lower(rows[n].currency);
      var i := SlotOf(slots, currency);
      var slot := if i < |slots| then slots[i] else Slot(currency, 0, 0);
      slot := slot.(mrr := slot.mrr + rows[n].monthlyRevenue, subscribers := slot.subscribers + rows[n].subscribers);
      GroupedNext(rows, n, lower);
      slots := if i < |slots| then slots[i := slot] else slots + [slot];
    }
    assert rows[..|rows|] == rows;
  }

  /** The map's report in falling order, and the currency in front. */
  method RevenueByCurrency(rows: seq<PlanRow>, lower: string -> string) returns (revenue: seq<Revenue>, dominant: Option<string>)
    ensures multiset(revenue) == multiset(Report(Grouped(rows, lower)))
    ensures forall i :: 0 <= i < |revenue| ==> revenue[i].arr == 12 * revenue[i].mrr
    ensures forall i, k :: 0 <= i < k < |revenue| ==> revenue[k].mrr <= revenue[i].mrr
    ensures dominant == None <==> rows == []
    ensures dominant.Some? ==>
              exists t :: 0 <= t < |Grouped(rows, lower)| && IsFirstLargest(Grouped(rows, lower), t)
                          && Grouped(rows, lower)[t].currency == dominant.value
  {
    var slots := GroupByCurrency(rows, lower);
    GroupingConserves(rows, lower);
    revenue := Sort(Report(slots), ByMrr);
    SortCorrect(Report(slots), ByMrr);
    ReportOutcome(slots, revenue);
    dominant := None;
    if |revenue| > 0 {
      dominant := Some(revenue[0].currency);
      FrontIsLargest(slots, revenue);
    } else {
      NoReport(slots, revenue);
    }
  }

  /** No slot has more, and none before it has as much. */
  ghost predicate IsFirstLargest(slots: seq<Slot>, t: nat)
    requires t < |slots|
  {
    && (forall i :: 0 <= i < |slots| ==> slots[i].mrr <= slots[t].mrr)
    && (forall i :: 0 <= i < t ==> slots[i].mrr < slots[t].mrr)
  }

  lemma FrontHasMost(slots: seq<Slot>, revenue: seq<Revenue>, i: nat)
    requires multiset(revenue) == multiset(Report(slots)) && Sorted(revenue, ByMrr) && revenue != [] && i < |slots|
    ensures slots[i].mrr <= revenue[0].mrr
  {
    assert Report(slots)[i] in multiset(revenue);
    var k :| 0 <= k < |revenue| && revenue[k] == Report(slots)[i];
    assert k > 0 ==> ByMrr(revenue[0], revenue[k]);
  }

  lemma FrontIsLargest(slots: seq<Slot>, revenue: seq<Revenue>)
    requires revenue == Sort(Report(slots), ByMrr) && multiset(revenue) == multiset(Report(slots))
    requires Sorted(revenue, ByMrr) && revenue != []
    ensures exists t :: 0 <= t < |slots| && IsFirstLargest(slots, t) && slots[t].currency == revenue[0].currency
  {
    SortKeepsTies(Report(slots), revenue[0], ByMrr);
    var t := FirstTie(Report(slots), revenue[0]);
    forall i | 0 <= i < |slots| ensures slots[i].mrr <= slots[t].mrr {
      FrontHasMost(slots, revenue, i);
    }
    forall i | 0 <= i < t ensures slots[i].mrr < slots[t].mrr {
      FrontHasMost(slots, revenue, i);
      assert Report(slots)[i].mrr != revenue[0].mrr;
    }
  }

  lemma {:induction false} FirstTie(report: seq<Revenue>, x: Revenue) returns (t: nat)
    requires Ties(report, x, ByMrr) != []
    ensures t < |report| && report[t] == Ties(report, x, ByMrr)[0] && report[t].mrr == x.mrr
    ensures forall i :: 0 <= i < t ==> report[i].mrr != x.mrr
  {
    if report[0].mrr == x.mrr {
      t := 0;
    } else {
      var rest := FirstTie(report[1..], x);
      t := rest + 1;
      assert forall i :: 1 <= i < |report| ==> report[i] == report[1..][i - 1];
    }
  }

  // ----- subscriptions by status -----

  datatype StatusSlice = StatusSlice(status: string, count: nat)

  const ACTIVE: set<string> := {"active", "trialing"}
  const AT_RISK: set<string> := {"past_due", "unpaid", "incomplete", "incomplete_expired", "paused"}
  const CANCELED: set<string> := {"canceled"}

  /** `filter` and then `reduce`. */
  function CountIn(slices: seq<StatusSlice>, statuses: set<string>): nat {
    if slices == [] then 0 else (if slices[0].status in statuses then slices[0].count else 0) + CountIn(slices[1..], statuses)
  }

  function CountAll(slices: seq<StatusSlice>): nat {
    if slices == [] then 0 else slices[0].count + CountAll(slices[1..])
  }

  /** The statuses under each heading. */
  lemma HeadingStatuses(status: string)
    ensures status in ACTIVE <==> status == "active" || status == "trialing"
    ensures status in AT_RISK <==>
            || status == "past_due" || status == "unpaid" || status == "incomplete" || status == "incomplete_expired" || status == "paused"
    ensures status in CANCELED <==> status == "canceled"
  {
  }

  /** Each slice counts in full under a heading that lists its status. */
  lemma CountOutcome(slices: seq<StatusSlice>, statuses: set<string>)
    ensures slices == [] ==> CountIn(slices, statuses) == 0
    ensures slices != [] ==>
              CountIn(slices, statuses) == CountIn(slices[1..], statuses) + if slices[0].status in statuses then slices[0].count else 0
  {
  }

  /** No subscription is counted under two headings; the ones counted under none are those of unlisted statuses. */
  lemma {:induction false} HeadingsAreApart(slices: seq<StatusSlice>)
    ensures CountIn(slices, ACTIVE) + CountIn(slices, AT_RISK) + CountIn(slices, CANCELED) <= CountAll(slices)
    ensures CountIn(slices, ACTIVE) + CountIn(slices, AT_RISK) + CountIn(slices, CANCELED) == CountAll(slices)
            <==> forall i :: 0 <= i < |slices| && slices[i].count > 0 ==> slices[i].status in ACTIVE + AT_RISK + CANCELED
  {
    if slices != [] {
      HeadingsAreApart(slices[1..]);
      assert forall i :: 1 <= i < |slices| ==> slices[i] == slices[1..][i - 1];
      ListsAreDisjoint(slices[0].status);
    }
  }

  lemma ListsAreDisjoint(status: string)
    ensures !(status in ACTIVE && status in AT_RISK) && !(status in ACTIVE && status in CANCELED) && !(status in AT_RISK && status in CANCELED)
  {
  }
}
