/**
 * The four reports of `reports.py`, as the filters, sorts and groupings they perform over the
 * loaded rows: the rotation history of a plot, the harvest calendar by month, the market
 * listing and the input history of the traceability report. Their printing and the report
 * file are not modelled; the rows they would print are.
 */
module Reports {
  import opened Common
  import opened Dates
  import opened Sorting
  import opened Schema
  import opened Prompts
  import opened Plantings
  import opened Loaders
  import Certification

  /** `datetime.date.min`, the sort key of a missing date. */
  const MinDate: Date := Ymd(1, 1, 1)

  /** Every other date sorts after `datetime.date.min`. */
  lemma AfterMinDate(d: Date)
    ensures Ordinal(MinDate) == 1
    ensures d.year > 1 ==> Ordinal(d) > 1
  {
    OrdinalOrder(MinDate, d);
  }

  // ---------------------------------------------------------------------------
  // Rotation history

  function DatedOnPlot(uid: Id): Planting -> bool
  {
    (x: Planting) => x.plot == uid && x.planted.Some?
  }

  /** The ascending key for `sort(key=data_plantio, reverse=True)`. */
  function PlantedLatestFirst(x: Planting): int
  {
    -Ordinal(x.planted.GetOr(MinDate))
  }

  /** `visualizar_historico_rotacao`: the plot's dated plantings, latest planting first. */
  function RotationHistory(plantings: seq<Planting>, uid: Id): (r: seq<Planting>)
    ensures multiset(r) == multiset(Filter(plantings, DatedOnPlot(uid)))
    ensures forall i :: 0 <= i < |r| ==> r[i].plot == uid && r[i].planted.Some?
  {
    var rows := Filter(plantings, DatedOnPlot(uid));
    var r := SortByKey(rows, PlantedLatestFirst);
    assert forall i :: 0 <= i < |r| ==> r[i].plot == uid && r[i].planted.Some? by {
      forall i | 0 <= i < |r| ensures r[i].plot == uid && r[i].planted.Some? {
        assert r[i] in multiset(r);
        FilterHolds(plantings, DatedOnPlot(uid), r[i]);
      }
    }
    r
  }

  /** The history holds exactly the plot's plantings that have a planting date. */
  lemma RotationMembers(plantings: seq<Planting>, uid: Id, x: Planting)
    ensures x in RotationHistory(plantings, uid) <==> x in plantings && x.plot == uid && x.planted.Some?
  {
    assert x in RotationHistory(plantings, uid) <==> x in multiset(Filter(plantings, DatedOnPlot(uid)));
    FilterCount(plantings, DatedOnPlot(uid), x);
  }

  /** Later rows of the history were planted no later than earlier ones. */
  lemma RotationOrder(plantings: seq<Planting>, uid: Id, i: int, j: int)
    requires 0 <= i < j < |RotationHistory(plantings, uid)|
    ensures NotAfter(RotationHistory(plantings, uid)[j].planted.value,
                     RotationHistory(plantings, uid)[i].planted.value)
  {
    var r := RotationHistory(plantings, uid);
    assert PlantedLatestFirst(r[i]) <= PlantedLatestFirst(r[j]);
    OrdinalOrder(r[j].planted.value, r[i].planted.value);
  }

  // ---------------------------------------------------------------------------
  // Harvest calendar

  /** One line of the calendar. */
  datatype CalendarEntry = CalendarEntry(date: Date, crop: string, producer: string)

  /** The name shown for a producer the loader did not return. */
  const Unknown := "Desconhecido"

  function NameIn(tree: map<Id, ProducerView>, id: Id): string
  {
    if id in tree then tree[id].info.name else Unknown
  }

  /** A planned planting with an expected harvest date. */
  predicate Expecting(x: Planting)
  {
    x.status == Planned && x.expected.Some?
  }

  function EntryOf(tree: map<Id, ProducerView>): Planting -> CalendarEntry
  {
    (x: Planting) => CalendarEntry(x.expected.GetOr(MinDate), x.crop, NameIn(tree, x.producer))
  }

  function EntryDay(e: CalendarEntry): int
  {
    Ordinal(e.date)
  }

  /** The `%Y-%m` bucket of an entry, as one number. */
  function EntryMonth(e: CalendarEntry): int
  {
    MonthIndex(e.date)
  }

  /** The selected entries, ordered by expected harvest date. */
  function CalendarEntries(plantings: seq<Planting>, tree: map<Id, ProducerView>): (r: seq<CalendarEntry>)
    ensures multiset(r) == multiset(Map(Filter(plantings, Expecting), EntryOf(tree)))
    ensures SortedBy(r, EntryDay)
  {
    SortByKey(Map(Filter(plantings, Expecting), EntryOf(tree)), EntryDay)
  }

  /** An entry is in the calendar exactly when it comes from a planned planting with an expected date. */
  lemma CalendarEntryMembers(plantings: seq<Planting>, tree: map<Id, ProducerView>, e: CalendarEntry)
    ensures e in CalendarEntries(plantings, tree)
        <==> exists i :: 0 <= i < |plantings| && Expecting(plantings[i]) && e == EntryOf(tree)(plantings[i])
  {
    if e in CalendarEntries(plantings, tree) {
      var i := CalendarSource(plantings, tree, e);
    }
    if exists i :: 0 <= i < |plantings| && Expecting(plantings[i]) && e == EntryOf(tree)(plantings[i]) {
      var i :| 0 <= i < |plantings| && Expecting(plantings[i]) && e == EntryOf(tree)(plantings[i]);
      CalendarTarget(plantings, tree, i);
    }
  }

  /** The planting a calendar entry comes from. */
  lemma CalendarSource(plantings: seq<Planting>, tree: map<Id, ProducerView>, e: CalendarEntry) returns (i: int)
    requires e in CalendarEntries(plantings, tree)
    ensures 0 <= i < |plantings| && Expecting(plantings[i]) && e == EntryOf(tree)(plantings[i])
  {
    var rows := Filter(plantings, Expecting);
    var mapped := Map(rows, EntryOf(tree));
    assert e in multiset(mapped);
    var k :| 0 <= k < |mapped| && mapped[k] == e;
    assert rows[k] in plantings && Expecting(rows[k]);
    i :| 0 <= i < |plantings| && plantings[i] == rows[k];
  }

  /** The entry of a planned planting with an expected date is in the calendar. */
  lemma CalendarTarget(plantings: seq<Planting>, tree: map<Id, ProducerView>, i: int)
    requires 0 <= i < |plantings| && Expecting(plantings[i])
    ensures EntryOf(tree)(plantings[i]) in CalendarEntries(plantings, tree)
  {
    var rows := Filter(plantings, Expecting);
    var mapped := Map(rows, EntryOf(tree));
    var k :| 0 <= k < |rows| && rows[k] == plantings[i];
    assert mapped[k] == EntryOf(tree)(plantings[i]);
    assert mapped[k] in multiset(mapped);
  }

  /** The entries of one month. */
  datatype MonthGroup = MonthGroup(month: int, entries: seq<CalendarEntry>)

  function Flatten(gs: seq<MonthGroup>): seq<CalendarEntry>
  {
    if |gs| == 0 then [] else gs[0].entries + Flatten(gs[1..])
  }

  /** Each group holds entries of its own month only. */
  predicate Homogeneous(gs: seq<MonthGroup>)
  {
    forall i, k :: 0 <= i < |gs| && 0 <= k < |gs[i].entries| ==> EntryMonth(gs[i].entries[k]) == gs[i].month
  }

  /** Months strictly ascending, so that no month has two groups. */
  predicate Ascending(gs: seq<MonthGroup>)
  {
    forall i, j :: 0 <= i < j < |gs| ==> gs[i].month < gs[j].month
  }

  /** Cutting a list into its runs of one month, as the buckets see a date-ordered list. */
  function GroupByMonth(es: seq<CalendarEntry>): seq<MonthGroup>
    decreases |es|
  {
    if |es| == 0 then []
    else
      var rest := GroupByMonth(es[1..]);
      if |rest| > 0 && rest[0].month == EntryMonth(es[0]) then
        [MonthGroup(rest[0].month, [es[0]] + rest[0].entries)] + rest[1..]
      else
        [MonthGroup(EntryMonth(es[0]), [es[0]])] + rest
  }

  /** The groups, read in order, give back the list; the first group is the first entry's month. */
  lemma {:induction false} GroupFlatten(es: seq<CalendarEntry>)
    ensures Flatten(GroupByMonth(es)) == es
    ensures |es| > 0 ==> |GroupByMonth(es)| > 0 && GroupByMonth(es)[0].month == EntryMonth(es[0])
    decreases |es|
  {
    if |es| > 0 {
      GroupFlatten(es[1..]);
      var rest := GroupByMonth(es[1..]);
      if |rest| > 0 && rest[0].month == EntryMonth(es[0]) {
        var gs := GroupByMonth(es);
        assert gs[1..] == rest[1..];
        assert Flatten(rest) == rest[0].entries + Flatten(rest[1..]);
        assert Flatten(gs) == ([es[0]] + rest[0].entries) + Flatten(rest[1..]);
      } else {
        assert GroupByMonth(es)[1..] == rest;
      }
    }
  }

  /** A non-empty group of entries of its own month, all taken from `es`. */
  predicate GoodGroup(g: MonthGroup, es: seq<CalendarEntry>)
  {
    && |g.entries| > 0
    && forall k :: 0 <= k < |g.entries| ==> EntryMonth(g.entries[k]) == g.month && g.entries[k] in es
  }

  /** Each group is non-empty, holds entries of its month only, and only entries of the list. */
  lemma {:induction false} GroupsGood(es: seq<CalendarEntry>)
    ensures forall i :: 0 <= i < |GroupByMonth(es)| ==> GoodGroup(GroupByMonth(es)[i], es)
    decreases |es|
  {
    if |es| > 0 {
      GroupsGood(es[1..]);
      var rest := GroupByMonth(es[1..]);
      var head, tail := GroupCons(es);
      assert forall i :: 0 <= i < |rest| ==> GoodGroup(rest[i], es) by {
        forall i | 0 <= i < |rest| ensures GoodGroup(rest[i], es) {
          GoodGroupWider(rest[i], es[1..], es);
        }
      }
      if |rest| > 0 && rest[0].month == EntryMonth(es[0]) {
        var later := rest[0].entries;
        assert forall k :: 0 < k < |head.entries| ==> head.entries[k] == later[k - 1];
        assert forall i :: 0 <= i < |tail| ==> tail[i] == rest[i + 1];
      }
      assert GoodGroup(head, es);
      var gs := GroupByMonth(es);
      assert forall i :: 0 < i < |gs| ==> gs[i] == tail[i - 1];
    }
  }

  lemma GoodGroupWider(g: MonthGroup, tail: seq<CalendarEntry>, es: seq<CalendarEntry>)
    requires |es| > 0 && tail == es[1..] && GoodGroup(g, tail)
    ensures GoodGroup(g, es)
  {
    assert forall x :: x in tail ==> x in es;
  }

  /** Each group is non-empty and holds entries of its month only. */
  lemma GroupHomogeneous(es: seq<CalendarEntry>)
    ensures Homogeneous(GroupByMonth(es))
    ensures forall i :: 0 <= i < |GroupByMonth(es)| ==> |GroupByMonth(es)[i].entries| > 0
  {
    GroupsGood(es);
  }

  /** Each group holds only entries of the list. */
  lemma GroupMembers(es: seq<CalendarEntry>)
    ensures forall i, k :: 0 <= i < |GroupByMonth(es)| && 0 <= k < |GroupByMonth(es)[i].entries| ==>
              GroupByMonth(es)[i].entries[k] in es
  {
    GroupsGood(es);
  }

  /** One step of the grouping: the first entry opens a group or joins the next one. */
  lemma GroupCons(es: seq<CalendarEntry>) returns (head: MonthGroup, tail: seq<MonthGroup>)
    requires |es| > 0
    ensures GroupByMonth(es) == [head] + tail
    ensures var rest := GroupByMonth(es[1..]);
            if |rest| > 0 && rest[0].month == EntryMonth(es[0])
            then head == MonthGroup(rest[0].month, [es[0]] + rest[0].entries) && tail == rest[1..]
            else head == MonthGroup(EntryMonth(es[0]), [es[0]]) && tail == rest
  {
    var rest := GroupByMonth(es[1..]);
    if |rest| > 0 && rest[0].month == EntryMonth(es[0]) {
      head, tail := MonthGroup(rest[0].month, [es[0]] + rest[0].entries), rest[1..];
    } else {
      head, tail := MonthGroup(EntryMonth(es[0]), [es[0]]), rest;
    }
  }

  lemma EntriesTail(es: seq<CalendarEntry>)
    requires |es| > 0 && SortedBy(es, EntryDay)
    ensures SortedBy(es[1..], EntryDay)
    ensures forall k :: 0 <= k < |es[1..]| ==> EntryDay(es[0]) <= EntryDay(es[1..][k])
  {
    assert forall k :: 0 <= k < |es[1..]| ==> es[1..][k] == es[k + 1];
  }

  /** On a date-ordered list, months strictly ascend from group to group. */
  lemma {:induction false} GroupAscending(es: seq<CalendarEntry>)
    requires SortedBy(es, EntryDay)
    ensures Ascending(GroupByMonth(es))
    decreases |es|
  {
    if |es| > 0 {
      EntriesTail(es);
      GroupAscending(es[1..]);
      GroupFlatten(es[1..]);
      var rest := GroupByMonth(es[1..]);
      var head, tail := GroupCons(es);
      assert Ascending(tail) by {
        if tail != rest {
          assert forall i :: 0 <= i < |tail| ==> tail[i] == rest[i + 1];
        }
      }
      if |rest| > 0 {
        assert rest[0].month == EntryMonth(es[1..][0]);
        MonthIndexMonotone(es[0].date, es[1].date);
        assert head.month <= rest[0].month;
      }
      assert forall j :: 0 <= j < |tail| ==> head.month < tail[j].month by {
        forall j | 0 <= j < |tail| ensures head.month < tail[j].month {
          if tail == rest[1..] {
            assert tail[j] == rest[j + 1];
          } else {
            assert tail[j] == rest[j];
          }
        }
      }
      AscendingCons(head, tail);
    }
  }

  lemma AscendingCons(head: MonthGroup, tail: seq<MonthGroup>)
    requires Ascending(tail)
    requires forall j :: 0 <= j < |tail| ==> head.month < tail[j].month
    ensures Ascending([head] + tail)
  {
    var gs := [head] + tail;
    forall i, j | 0 <= i < j < |gs| ensures gs[i].month < gs[j].month {
      assert gs[j] == tail[j - 1];
      if i > 0 {
        assert gs[i] == tail[i - 1];
      }
    }
  }

  /** On a date-ordered list, each group is date-ordered. */
  lemma {:induction false} GroupSorted(es: seq<CalendarEntry>)
    requires SortedBy(es, EntryDay)
    ensures forall i :: 0 <= i < |GroupByMonth(es)| ==> SortedBy(GroupByMonth(es)[i].entries, EntryDay)
    decreases |es|
  {
    if |es| > 0 {
      EntriesTail(es);
      GroupSorted(es[1..]);
      GroupMembers(es[1..]);
      var rest := GroupByMonth(es[1..]);
      var head, tail := GroupCons(es);
      var gs := GroupByMonth(es);
      assert forall i :: 0 <= i < |tail| ==> SortedBy(tail[i].entries, EntryDay) by {
        if tail != rest {
          assert forall i :: 0 <= i < |tail| ==> tail[i] == rest[i + 1];
        }
      }
      if |rest| > 0 && rest[0].month == EntryMonth(es[0]) {
        var later := rest[0].entries;
        assert forall k :: 0 <= k < |later| ==> EntryDay(es[0]) <= EntryDay(later[k]) by {
          forall k | 0 <= k < |later| ensures EntryDay(es[0]) <= EntryDay(later[k]) {
            assert later[k] in es[1..];
          }
        }
        SortedConsEntry(es[0], later);
      }
      forall i | 0 <= i < |gs| ensures SortedBy(gs[i].entries, EntryDay) {
        if i > 0 {
          assert gs[i] == tail[i - 1];
        }
      }
    }
  }

  lemma SortedConsEntry(e: CalendarEntry, later: seq<CalendarEntry>)
    requires SortedBy(later, EntryDay)
    requires forall k :: 0 <= k < |later| ==> EntryDay(e) <= EntryDay(later[k])
    ensures SortedBy([e] + later, EntryDay)
  {
    var es := [e] + later;
    forall a, b | 0 <= a < b < |es| ensures EntryDay(es[a]) <= EntryDay(es[b]) {
      assert es[b] == later[b - 1];
      if a > 0 {
        assert es[a] == later[a - 1];
      }
    }
  }

  /** The rows of one month, re-sorted by date as the report does before printing them. */
  function Resorted(g: MonthGroup): MonthGroup
  {
    MonthGroup(g.month, SortByKey(g.entries, EntryDay))
  }

  /**
   * `visualizar_calendario_colheitas`: the months that have a planned harvest, ascending, each
   * with its entries ascending by date, and together exactly the selected entries in date order.
   */
  function HarvestCalendar(plantings: seq<Planting>, tree: map<Id, ProducerView>): (gs: seq<MonthGroup>)
    ensures Flatten(gs) == CalendarEntries(plantings, tree)
    ensures Homogeneous(gs) && Ascending(gs)
    ensures forall i :: 0 <= i < |gs| ==> |gs[i].entries| > 0 && SortedBy(gs[i].entries, EntryDay)
  {
    var es := CalendarEntries(plantings, tree);
    var gs := GroupByMonth(es);
    GroupFlatten(es);
    GroupHomogeneous(es);
    GroupAscending(es);
    GroupSorted(es);
    ResortedKeeps(gs);
    Map(gs, Resorted)
  }

  /** Re-sorting groups that are already in date order changes nothing. */
  lemma ResortedKeeps(gs: seq<MonthGroup>)
    requires forall i :: 0 <= i < |gs| ==> SortedBy(gs[i].entries, EntryDay)
    ensures Map(gs, Resorted) == gs
  {
    var printed := Map(gs, Resorted);
    forall i | 0 <= i < |gs| ensures printed[i] == gs[i] {
      SortSorted(gs[i].entries, EntryDay);
    }
  }

  function InMonth(m: int): CalendarEntry -> bool
  {
    (e: CalendarEntry) => EntryMonth(e) == m
  }

  lemma TailShape(gs: seq<MonthGroup>)
    requires |gs| > 0 && Homogeneous(gs) && Ascending(gs)
    ensures Homogeneous(gs[1..]) && Ascending(gs[1..])
    ensures forall i :: 0 <= i < |gs[1..]| ==> gs[0].month < gs[1..][i].month
  {
    assert forall i :: 0 <= i < |gs[1..]| ==> gs[1..][i] == gs[i + 1];
  }

  /** Groups all of months other than `m` hold no entry of month `m`. */
  lemma {:induction false} FlattenMonthAbsent(gs: seq<MonthGroup>, m: int)
    requires Homogeneous(gs)
    requires forall i :: 0 <= i < |gs| ==> gs[i].month != m
    ensures Filter(Flatten(gs), InMonth(m)) == []
  {
    if |gs| > 0 {
      assert Homogeneous(gs[1..]) by {
        assert forall i :: 0 <= i < |gs[1..]| ==> gs[1..][i] == gs[i + 1];
      }
      assert forall i :: 0 <= i < |gs[1..]| ==> gs[1..][i].month != m by {
        assert forall i :: 0 <= i < |gs[1..]| ==> gs[1..][i] == gs[i + 1];
      }
      FlattenMonthAbsent(gs[1..], m);
      FlattenFilterCons(gs, m);
    }
  }

  /** A group of one month keeps all its entries under that month's filter and none under another's. */
  lemma GroupFilter(g: MonthGroup, m: int)
    requires forall k :: 0 <= k < |g.entries| ==> EntryMonth(g.entries[k]) == g.month
    ensures Filter(g.entries, InMonth(m)) == if g.month == m then g.entries else []
  {
    if g.month == m {
      FilterAll(g.entries, InMonth(m));
    } else {
      FilterNone(g.entries, InMonth(m));
    }
  }

  /** Filtering the flattened groups by month filters the first group and the rest apart. */
  lemma FlattenFilterCons(gs: seq<MonthGroup>, m: int)
    requires |gs| > 0 && Homogeneous(gs)
    ensures Filter(Flatten(gs), InMonth(m))
         == (if gs[0].month == m then gs[0].entries else []) + Filter(Flatten(gs[1..]), InMonth(m))
  {
    assert Flatten(gs) == gs[0].entries + Flatten(gs[1..]);
    FilterConcat(gs[0].entries, Flatten(gs[1..]), InMonth(m));
    assert forall k :: 0 <= k < |gs[0].entries| ==> EntryMonth(gs[0].entries[k]) == gs[0].month;
    GroupFilter(gs[0], m);
  }

  /** In groups of distinct ascending months, a month's entries are exactly its group's. */
  lemma {:induction false} FlattenMonthFound(gs: seq<MonthGroup>, m: int, i: int)
    requires Homogeneous(gs) && Ascending(gs)
    requires 0 <= i < |gs| && gs[i].month == m
    ensures Filter(Flatten(gs), InMonth(m)) == gs[i].entries
  {
    TailShape(gs);
    FlattenFilterCons(gs, m);
    var rest := gs[1..];
    if i == 0 {
      assert forall j :: 0 <= j < |rest| ==> rest[j].month != m;
      FlattenMonthAbsent(rest, m);
    } else {
      assert gs[0].month < m;
      assert rest[i - 1] == gs[i];
      FlattenMonthFound(rest, m, i - 1);
    }
  }

  /**
   * The calendar is the `defaultdict` of the source read back: each month's group holds exactly
   * the entries of that month, in date order, and a month without a group has no entry.
   */
  lemma CalendarBuckets(plantings: seq<Planting>, tree: map<Id, ProducerView>, m: int)
    ensures var gs := HarvestCalendar(plantings, tree);
            forall i :: 0 <= i < |gs| && gs[i].month == m ==>
              gs[i].entries == Filter(CalendarEntries(plantings, tree), InMonth(m))
    ensures var gs := HarvestCalendar(plantings, tree);
            (forall i :: 0 <= i < |gs| ==> gs[i].month != m) ==>
              Filter(CalendarEntries(plantings, tree), InMonth(m)) == []
  {
    var gs := HarvestCalendar(plantings, tree);
    forall i | 0 <= i < |gs| && gs[i].month == m
      ensures gs[i].entries == Filter(CalendarEntries(plantings, tree), InMonth(m))
    {
      FlattenMonthFound(gs, m, i);
    }
    if forall i :: 0 <= i < |gs| ==> gs[i].month != m {
      FlattenMonthAbsent(gs, m);
    }
  }

  // ---------------------------------------------------------------------------
  // Market listing

  /** One line of the market listing. */
  datatype MarketRow = MarketRow(
    id: Id, crop: string, status: Status, ref: string, quantity: string, unit: string,
    producer: string, certified: bool)

  /** On offer: available now, or planned. */
  predicate Offered(x: Planting)
  {
    x.status == Available || x.status == Planned
  }

  function CertifiedIn(certs: map<Id, CertView>, id: Id): bool
  {
    id in certs && certs[id].certified
  }

  /** The quantity column: `---` while planned; for an available planting the amount, or `N/A`. */
  function QuantityText(x: Planting): (r: string)
    ensures x.status == Planned ==> r == "---"
    ensures x.status != Planned && x.quantity.Some? ==> r == x.quantity.value.repr
    ensures x.status != Planned && x.quantity.None? ==> r == "N/A"
  {
    if x.status == Planned then "---"
    else match x.quantity
      case None => "N/A"
      case Some(q) => q.repr
  }

  /** The unit column: the stored unit only for an available planting with a quantity. */
  function UnitText(x: Planting): (r: string)
    ensures r != "" ==> x.status == Available && x.quantity.Some? && x.unit == Some(r)
    ensures x.status == Available && x.quantity.Some? && x.unit.Some? ==> r == x.unit.value
  {
    if x.status == Available && x.quantity.Some? && x.unit.Some? then x.unit.value else ""
  }

  function RowOf(tree: map<Id, ProducerView>, certs: map<Id, CertView>): Planting -> MarketRow
  {
    (x: Planting) => MarketRow(x.id, x.crop, x.status, FormatOrNA(RefDate(x)), QuantityText(x), UnitText(x),
                               NameIn(tree, x.producer), CertifiedIn(certs, x.producer))
  }

  /**
   * A row the listing cannot show: its reference date prints with fewer than four year digits
   * and so does not parse back for the sort, or it has a quantity but no unit to print.
   */
  predicate RowFails(x: Planting)
  {
    || (RefDate(x).Some? && RefDate(x).value.year < 1000)
    || (x.status == Available && x.quantity.Some? && x.unit.None?)
  }

  /** The sort key of a reference text: the date parsed back, and `datetime.min` for `N/A`. */
  function TextKey(t: string): int
  {
    if t == "N/A" then Ordinal(MinDate)
    else match ParseBr(t)
      case Some(d) => Ordinal(d)
      case None => Ordinal(MinDate)
  }

  function RefKey(row: MarketRow): int
  {
    TextKey(row.ref)
  }

  /**
   * `buscar_produtos_mercado`: the rows of the plantings on offer, in ascending order of
   * reference date; `None` where the source would stop with an exception.
   */
  function MarketListing(plantings: seq<Planting>, tree: map<Id, ProducerView>, certs: map<Id, CertView>)
    : (r: Option<seq<MarketRow>>)
    ensures r.None? <==> exists i :: 0 <= i < |plantings| && Offered(plantings[i]) && RowFails(plantings[i])
    ensures r.Some? ==> multiset(r.value) == multiset(Map(Filter(plantings, Offered), RowOf(tree, certs)))
    ensures r.Some? ==> SortedBy(r.value, RefKey)
  {
    var offered := Filter(plantings, Offered);
    if |Filter(offered, RowFails)| > 0 then
      assert Filter(offered, RowFails)[0] in offered;
      None
    else
      assert forall i :: 0 <= i < |plantings| && Offered(plantings[i]) ==> !RowFails(plantings[i]) by {
        forall i | 0 <= i < |plantings| && Offered(plantings[i]) ensures !RowFails(plantings[i]) {
          var k :| 0 <= k < |offered| && offered[k] == plantings[i];
        }
      }
      Some(SortByKey(Map(offered, RowOf(tree, certs)), RefKey))
  }

  /** A missing reference date prints as `N/A`, which sorts first. */
  lemma UndatedRefKey()
    ensures FormatOrNA(None) == "N/A" && TextKey("N/A") == 1
  {
    assert TextKey("N/A") == Ordinal(MinDate);
    AfterMinDate(MinDate);
  }

  /** A printed reference date parses back, and its sort key is its day number, after `N/A`'s. */
  lemma DatedRefKey(d: Date)
    requires d.year >= 1000
    ensures FormatOrNA(Some(d)) != "N/A"
    ensures ParseBr(FormatOrNA(Some(d))) == Some(d)
    ensures TextKey(FormatOrNA(Some(d))) == Ordinal(d) > 1
  {
    var t := FormatOrNA(Some(d));
    assert t != "N/A";
    assert ParseBr(t) == Some(d);
    assert TextKey(t) == Ordinal(d);
    AfterMinDate(d);
  }

  lemma RefKeyOf(d: Option<Date>)
    requires d.Some? ==> d.value.year >= 1000
    ensures FormatOrNA(d) == "N/A" <==> d.None?
    ensures d.None? ==> TextKey(FormatOrNA(d)) == 1
    ensures d.Some? ==> ParseBr(FormatOrNA(d)) == d && TextKey(FormatOrNA(d)) == Ordinal(d.value) > 1
  {
    if d.Some? {
      DatedRefKey(d.value);
    } else {
      UndatedRefKey();
    }
  }

  /** Every listed row is the row of a planting on offer. */
  lemma ListedRow(plantings: seq<Planting>, tree: map<Id, ProducerView>, certs: map<Id, CertView>, i: int)
    returns (x: Planting)
    requires MarketListing(plantings, tree, certs).Some?
    requires 0 <= i < |MarketListing(plantings, tree, certs).value|
    ensures x in plantings && Offered(x) && !RowFails(x)
    ensures MarketListing(plantings, tree, certs).value[i] == RowOf(tree, certs)(x)
  {
    var r := MarketListing(plantings, tree, certs).value;
    var offered := Filter(plantings, Offered);
    var rows := Map(offered, RowOf(tree, certs));
    assert r[i] in multiset(rows);
    var k :| 0 <= k < |rows| && rows[k] == r[i];
    x := offered[k];
  }

  /** Rows without a reference date come first; dated rows follow in calendar order. */
  lemma MarketOrder(plantings: seq<Planting>, tree: map<Id, ProducerView>, certs: map<Id, CertView>, i: int, j: int)
    requires MarketListing(plantings, tree, certs).Some?
    requires 0 <= i < j < |MarketListing(plantings, tree, certs).value|
    ensures var r := MarketListing(plantings, tree, certs).value;
            r[j].ref == "N/A" ==> r[i].ref == "N/A"
    ensures var r := MarketListing(plantings, tree, certs).value;
            r[i].ref != "N/A" ==> && ParseBr(r[i].ref).Some? && ParseBr(r[j].ref).Some?
                                  && NotAfter(ParseBr(r[i].ref).value, ParseBr(r[j].ref).value)
  {
    var r := MarketListing(plantings, tree, certs).value;
    assert RefKey(r[i]) <= RefKey(r[j]);
    var x := ListedRow(plantings, tree, certs, i);
    var y := ListedRow(plantings, tree, certs, j);
    RefKeyOf(RefDate(x));
    RefKeyOf(RefDate(y));
    if r[i].ref != "N/A" {
      OrdinalOrder(RefDate(x).value, RefDate(y).value);
    }
  }

  /** The listing holds a row for each planting on offer and for nothing else. */
  lemma MarketMembers(plantings: seq<Planting>, tree: map<Id, ProducerView>, certs: map<Id, CertView>, x: Planting)
    requires MarketListing(plantings, tree, certs).Some?
    requires x in plantings && Offered(x)
    ensures RowOf(tree, certs)(x) in MarketListing(plantings, tree, certs).value
  {
    var offered := Filter(plantings, Offered);
    var rows := Map(offered, RowOf(tree, certs));
    var k :| 0 <= k < |offered| && offered[k] == x;
    assert rows[k] in multiset(rows);
  }

  /**
   * The columns of a market row as the loaders feed them: the registered producer's name and
   * stored certified flag, `Desconhecido` and not certified for a producer without a row, and
   * the harvest date of an available planting or the expected date of a planned one.
   */
  lemma MarketRowSources(db: Db, x: Planting)
    requires Distinct(db.producers, ProducerKey) && Distinct(db.certs, CertKey)
    ensures var row := RowOf(ProducerTree(db), LoadCertifications(Fetched(db)))(x);
            && row.id == x.id && row.crop == x.crop && row.status == x.status
            && row.ref == FormatOrNA(if x.status == Available then x.harvested else x.expected)
            && (x.status == Planned ==> row.quantity == "---")
            && (x.status != Planned ==> row.quantity == if x.quantity.Some? then x.quantity.value.repr else "N/A")
            && (x.status == Available && x.quantity.Some? && x.unit.Some? ==> row.unit == x.unit.value)
            && (x.status != Available || x.quantity.None? ==> row.unit == "")
            && (x.producer !in ProducerIds(db) ==> row.producer == Unknown)
            && (x.producer !in KeySet(db.certs, CertKey) ==> !row.certified)
            && (forall i :: 0 <= i < |db.producers| && db.producers[i].id == x.producer ==>
                  row.producer == db.producers[i].name)
            && (forall j :: 0 <= j < |db.certs| && db.certs[j].producer == x.producer ==>
                  (row.certified <==> db.certs[j].certified != 0))
  {
    var tree := ProducerTree(db);
    var certs := LoadCertifications(Fetched(db));
    ProducerTreeShape(db, x.producer);
    forall i | 0 <= i < |db.producers| && db.producers[i].id == x.producer
      ensures NameIn(tree, x.producer) == db.producers[i].name
    {
      ProducerRowFound(db, i);
    }
    forall j | 0 <= j < |db.certs| && db.certs[j].producer == x.producer
      ensures CertifiedIn(certs, x.producer) <==> db.certs[j].certified != 0
    {
      CertificationsRead(db, j, Certification.Documentation);
    }
  }

  // ---------------------------------------------------------------------------
  // Traceability

  /** The last day whose inputs count: the actual harvest date, or today. */
  function TraceLimit(x: Planting, today: Date): Date
  {
    x.harvested.GetOr(today)
  }

  /** An input applied on the plot with a date on or before the limit. */
  function AppliedBy(uid: Id, limit: Date): InputRecord -> bool
  {
    (r: InputRecord) => r.plot == uid && r.applied.Some? && NotAfter(r.applied.value, limit)
  }

  function AppliedLatestFirst(r: InputRecord): int
  {
    -Ordinal(r.applied.GetOr(MinDate))
  }

  /** The relevant inputs of the planting's plot, latest application first. */
  function RelevantInputs(inputs: seq<InputRecord>, x: Planting, today: Date): (r: seq<InputRecord>)
    ensures multiset(r) == multiset(Filter(inputs, AppliedBy(x.plot, TraceLimit(x, today))))
    ensures SortedBy(r, AppliedLatestFirst)
    ensures |r| == |Filter(inputs, AppliedBy(x.plot, TraceLimit(x, today)))|
    ensures forall i :: 0 <= i < |r| ==> r[i] in inputs && AppliedBy(x.plot, TraceLimit(x, today))(r[i])
  {
    var r := SortByKey(Filter(inputs, AppliedBy(x.plot, TraceLimit(x, today))), AppliedLatestFirst);
    assert forall i :: 0 <= i < |r| ==> r[i] in inputs && AppliedBy(x.plot, TraceLimit(x, today))(r[i]) by {
      forall i | 0 <= i < |r| ensures r[i] in inputs && AppliedBy(x.plot, TraceLimit(x, today))(r[i]) {
        assert r[i] in multiset(r);
        FilterHolds(inputs, AppliedBy(x.plot, TraceLimit(x, today)), r[i]);
      }
    }
    r
  }

  /** The inputs the traceability report lists: the five most recent relevant ones. */
  function TraceInputs(inputs: seq<InputRecord>, x: Planting, today: Date): (r: seq<InputRecord>)
    ensures |r| <= 5
    ensures |r| == if |Filter(inputs, AppliedBy(x.plot, TraceLimit(x, today)))| < 5
                   then |Filter(inputs, AppliedBy(x.plot, TraceLimit(x, today)))| else 5
    ensures forall i :: 0 <= i < |r| ==>
              && r[i] in inputs && r[i].plot == x.plot && r[i].applied.Some?
              && NotAfter(r[i].applied.value, TraceLimit(x, today))
  {
    var all := RelevantInputs(inputs, x, today);
    if |all| <= 5 then all else all[..5]
  }

  /** Listed inputs are in order of application, latest first. */
  lemma TraceOrder(inputs: seq<InputRecord>, x: Planting, today: Date, i: int, j: int)
    requires 0 <= i < j < |TraceInputs(inputs, x, today)|
    ensures NotAfter(TraceInputs(inputs, x, today)[j].applied.value, TraceInputs(inputs, x, today)[i].applied.value)
  {
    var all := RelevantInputs(inputs, x, today);
    var r := TraceInputs(inputs, x, today);
    assert r[i] == all[i] && r[j] == all[j];
    OrdinalOrder(r[j].applied.value, r[i].applied.value);
  }

  /** A relevant input left off the report was applied no later than any listed one. */
  lemma TraceKeepsMostRecent(inputs: seq<InputRecord>, x: Planting, today: Date, y: InputRecord, i: int)
    requires y in inputs && AppliedBy(x.plot, TraceLimit(x, today))(y)
    requires y !in TraceInputs(inputs, x, today)
    requires 0 <= i < |TraceInputs(inputs, x, today)|
    ensures NotAfter(y.applied.value, TraceInputs(inputs, x, today)[i].applied.value)
  {
    var all := RelevantInputs(inputs, x, today);
    var r := TraceInputs(inputs, x, today);
    var k := RelevantIndex(inputs, x, today, y);
    assert r == all[..|r|];
    assert i < |r| <= k;
    assert AppliedLatestFirst(all[i]) <= AppliedLatestFirst(all[k]);
    OrdinalOrder(y.applied.value, r[i].applied.value);
  }

  /** Every relevant input has a place in the ordered list. */
  lemma RelevantIndex(inputs: seq<InputRecord>, x: Planting, today: Date, y: InputRecord) returns (k: int)
    requires y in inputs && AppliedBy(x.plot, TraceLimit(x, today))(y)
    ensures 0 <= k < |RelevantInputs(inputs, x, today)| && RelevantInputs(inputs, x, today)[k] == y
  {
    var all := RelevantInputs(inputs, x, today);
    FilterCount(inputs, AppliedBy(x.plot, TraceLimit(x, today)), y);
    assert y in multiset(all);
    k :| 0 <= k < |all| && all[k] == y;
  }

  /**
   * `gerar_relatorio_rastreabilidade` for a picked planting id: the first planting with that
   * id and its listed inputs, or `None` when no planting has it.
   */
  function Traceability(plantings: seq<Planting>, inputs: seq<InputRecord>, id: Id, today: Date)
    : (r: Option<(Planting, seq<InputRecord>)>)
    ensures r.None? <==> forall i :: 0 <= i < |plantings| ==> plantings[i].id != id
    ensures r.Some? ==> r.value.0 in plantings && r.value.0.id == id
                        && r.value.1 == TraceInputs(inputs, r.value.0, today)
  {
    match FindPlanting(plantings, id)
    case None => None
    case Some(x) => Some((x, TraceInputs(inputs, x, today)))
  }
}
