/**
 * Plantings in `crud_operations.py`: the previous crop of a plot, registering a planting with
 * its date rules, the list a planting is picked from, harvest confirmation (the only status
 * change the program makes, `Planejado` to `Disponível`) and deletion.
 */
module Plantings {
  import opened Common
  import opened Dates
  import opened Text
  import opened Sorting
  import opened Schema

  /** What `obter_cultura_anterior` reports for a plot with no planting. */
  const NoPreviousCrop := "Nenhuma registrada"

  /**
   * `a` comes no later than `b` under `ORDER BY data_plantio DESC`, which in Oracle puts a
   * missing date first and then later dates before earlier ones.
   */
  predicate RanksFirst(a: Option<Date>, b: Option<Date>)
  {
    a.None? || (b.Some? && NotAfter(b.value, a.value))
  }

  lemma RanksFirstTotal(a: Option<Date>, b: Option<Date>)
    ensures RanksFirst(a, b) || RanksFirst(b, a)
  {
    if a.Some? && b.Some? {
      OrdinalOrder(a.value, b.value);
      OrdinalOrder(b.value, a.value);
    }
  }

  lemma RanksFirstTransitive(a: Option<Date>, b: Option<Date>, c: Option<Date>)
    requires RanksFirst(a, b) && RanksFirst(b, c)
    ensures RanksFirst(a, c)
  {
    if a.Some? {
      OrdinalOrder(c.value, b.value);
      OrdinalOrder(b.value, a.value);
      OrdinalOrder(c.value, a.value);
    }
  }

  /** The row `FETCH FIRST 1 ROW ONLY` returns after that ordering; ties go to the earliest row. */
  function Latest(rows: seq<Planting>): (r: Option<Planting>)
    ensures r.None? <==> |rows| == 0
    ensures r.Some? ==> r.value in rows
    ensures r.Some? ==> forall i :: 0 <= i < |rows| ==> RanksFirst(r.value.planted, rows[i].planted)
  {
    if |rows| == 0 then None
    else
      var rest := Latest(rows[1..]);
      if rest.None? then
        Some(rows[0])
      else if RanksFirst(rows[0].planted, rest.value.planted) then
        assert forall i :: 1 <= i < |rows| ==> RanksFirst(rows[0].planted, rows[i].planted) by {
          forall i | 1 <= i < |rows| ensures RanksFirst(rows[0].planted, rows[i].planted) {
            assert rows[i] == rows[1..][i - 1];
            RanksFirstTransitive(rows[0].planted, rest.value.planted, rows[i].planted);
          }
        }
        Some(rows[0])
      else
        RanksFirstTotal(rows[0].planted, rest.value.planted);
        assert forall i :: 1 <= i < |rows| ==> RanksFirst(rest.value.planted, rows[i].planted) by {
          forall i | 1 <= i < |rows| ensures RanksFirst(rest.value.planted, rows[i].planted) {
            assert rows[i] == rows[1..][i - 1];
          }
        }
        rest
  }

  function OnPlot(uid: Id): Planting -> bool
  {
    (x: Planting) => x.plot == uid
  }

  /**
   * `obter_cultura_anterior`: the crop of the plot's planting that ranks first by planting date
   * (a planting without a date outranks every dated one), or `Nenhuma registrada`.
   */
  function PreviousCrop(db: Db, uid: Id): (r: string)
    ensures (forall i :: 0 <= i < |db.plantings| ==> db.plantings[i].plot != uid) ==> r == NoPreviousCrop
    ensures (exists i :: 0 <= i < |db.plantings| && db.plantings[i].plot == uid) ==>
              exists i :: && 0 <= i < |db.plantings| && db.plantings[i].plot == uid
                          && db.plantings[i].crop == r
                          && forall j :: 0 <= j < |db.plantings| && db.plantings[j].plot == uid ==>
                               RanksFirst(db.plantings[i].planted, db.plantings[j].planted)
  {
    var rows := Filter(db.plantings, OnPlot(uid));
    match Latest(rows)
    case None => NoPreviousCrop
    case Some(x) =>
      LatestOnPlot(db, uid);
      x.crop
  }

  /** The planting `Latest` picks among the plot's plantings ranks first among all of them. */
  lemma LatestOnPlot(db: Db, uid: Id)
    requires Latest(Filter(db.plantings, OnPlot(uid))).Some?
    ensures var x := Latest(Filter(db.plantings, OnPlot(uid))).value;
            exists i :: && 0 <= i < |db.plantings| && db.plantings[i] == x && x.plot == uid
                        && forall j :: 0 <= j < |db.plantings| && db.plantings[j].plot == uid ==>
                             RanksFirst(x.planted, db.plantings[j].planted)
  {
    var rows := Filter(db.plantings, OnPlot(uid));
    var x := Latest(rows).value;
    var k :| 0 <= k < |rows| && rows[k] == x;
    var i :| 0 <= i < |db.plantings| && db.plantings[i] == x;
    forall j | 0 <= j < |db.plantings| && db.plantings[j].plot == uid
      ensures RanksFirst(x.planted, db.plantings[j].planted)
    {
      var k :| 0 <= k < |rows| && rows[k] == db.plantings[j];
    }
  }

  /** The repeat-crop warning: the same crop as last time, ignoring case, when there was a last time. */
  predicate RepeatsCrop(crop: string, previous: string)
  {
    LowerText(crop) == LowerText(previous) && previous != NoPreviousCrop
  }

  /** The planting-date rule: not before two days ago, and not after today. */
  predicate InPlantingWindow(d: Date, today: Date)
  {
    Ordinal(today) - 2 <= Ordinal(d) <= Ordinal(today)
  }

  /** The row `registrar_plantio` inserts. */
  function NewPlanting(db: Db, id: Id, producer: Id, uid: Id, crop: string, planted: Date,
                       expected: Date, notes: Option<string>): Planting
  {
    Planting(id, producer, uid, crop, Some(planted), Some(expected), None, None, None,
             Planned, notes, Some(PreviousCrop(db, uid)))
  }

  /**
   * `registrar_plantio` for one answer per prompt: `proceed` is the answer to the repeat-crop
   * warning, asked only when it fires; a planting date outside the window is asked again.
   */
  function RegisterPlanting(db: Db, id: Id, producer: Id, uid: Id, crop: string, proceed: bool,
                            planted: Date, expected: Option<Date>, notes: Option<string>, today: Date)
    : (r: Result<Db, Failure>)
    ensures crop == [] ==> r == Err(MissingField)
    ensures crop != [] && RepeatsCrop(crop, PreviousCrop(db, uid)) && !proceed ==> r == Err(Declined)
    ensures r.Ok? <==> && crop != [] && (RepeatsCrop(crop, PreviousCrop(db, uid)) ==> proceed)
                       && InPlantingWindow(planted, today)
                       && expected.Some? && Before(planted, expected.value)
                       && id !in KeySet(db.plantings, PlantingKey)
                       && producer in ProducerIds(db) && uid in PlotIds(db)
    ensures r.Ok? ==> r.value == db.(plantings := db.plantings +
                        [NewPlanting(db, id, producer, uid, crop, planted, expected.value, notes)])
    // the new row: planned, not harvested, and remembering the plot's previous crop
    ensures r.Ok? ==> && |r.value.plantings| == |db.plantings| + 1
                      && var x := r.value.plantings[|db.plantings|];
                         && x.id == id && x.producer == producer && x.plot == uid && x.crop == crop
                         && x.status == Planned && x.planted == Some(planted) && x.expected == expected
                         && x.harvested.None? && x.quantity.None? && x.unit.None?
                         && x.previousCrop == Some(PreviousCrop(db, uid))
  {
    if crop == [] then Err(MissingField)
    else if RepeatsCrop(crop, PreviousCrop(db, uid)) && !proceed then Err(Declined)
    else if !InPlantingWindow(planted, today) then Err(PlantingDateOutOfWindow)
    else if expected.None? then Err(MissingField)
    else if !Before(planted, expected.value) then Err(ExpectedNotAfterPlanting)
    else if id in KeySet(db.plantings, PlantingKey) then Err(KeyViolation)
    else if producer !in ProducerIds(db) || uid !in PlotIds(db) then Err(ReferenceViolation)
    else Ok(db.(plantings := db.plantings + [NewPlanting(db, id, producer, uid, crop, planted, expected.value, notes)]))
  }

  /** The date rules the program enforces on every planting it writes. */
  predicate DatesConsistent(x: Planting)
  {
    && (x.planted.Some? && x.expected.Some? ==> Before(x.planted.value, x.expected.value))
    && (x.planted.Some? && x.harvested.Some? ==> NotAfter(x.planted.value, x.harvested.value))
  }

  predicate AllDatesConsistent(db: Db)
  {
    forall i :: 0 <= i < |db.plantings| ==> DatesConsistent(db.plantings[i])
  }

  lemma RegisterPlantingPreserves(db: Db, id: Id, producer: Id, uid: Id, crop: string, proceed: bool,
                                  planted: Date, expected: Option<Date>, notes: Option<string>, today: Date)
    requires WellFormed(db) && Certified(db) && AllDatesConsistent(db)
    requires RegisterPlanting(db, id, producer, uid, crop, proceed, planted, expected, notes, today).Ok?
    ensures var db' := RegisterPlanting(db, id, producer, uid, crop, proceed, planted, expected, notes, today).value;
            WellFormed(db') && Certified(db') && AllDatesConsistent(db')
  {
    var x := NewPlanting(db, id, producer, uid, crop, planted, expected.value, notes);
    assert DatesConsistent(x);
    AppendPlantingKeeps(db, x);
  }

  /** Appending a planting with a new key, resolving references and consistent dates keeps the invariants. */
  lemma AppendPlantingKeeps(db: Db, x: Planting)
    requires WellFormed(db) && Certified(db) && AllDatesConsistent(db)
    requires x.id !in KeySet(db.plantings, PlantingKey)
    requires x.producer in ProducerIds(db) && x.plot in PlotIds(db) && DatesConsistent(x)
    ensures var db' := db.(plantings := db.plantings + [x]);
            WellFormed(db') && Certified(db') && AllDatesConsistent(db')
  {
    DistinctAppend(db.plantings, PlantingKey, x);
    var db' := db.(plantings := db.plantings + [x]);
    assert ProducerIds(db') == ProducerIds(db) && PlotIds(db') == PlotIds(db);
    forall i | 0 <= i < |db'.plantings|
      ensures db'.plantings[i].producer in ProducerIds(db) && db'.plantings[i].plot in PlotIds(db)
      ensures DatesConsistent(db'.plantings[i])
    {
      if i < |db.plantings| {
        assert db'.plantings[i] == db.plantings[i];
      } else {
        assert db'.plantings[i] == x;
      }
    }
  }

  // ---------------------------------------------------------------------------
  // Picking a planting

  /** `data_ref` of the selection query: the actual harvest date when available, else the expected one. */
  function RefDate(x: Planting): Option<Date>
  {
    if x.status == Available then x.harvested else x.expected
  }

  /** Ascending key for `ORDER BY data_ref DESC NULLS LAST`. */
  function DescNullsLast(x: Planting): int
  {
    match RefDate(x)
    case None => 0
    case Some(d) => -Ordinal(d)
  }

  /** A row of the selection query: the producer's, in an allowed status, joined with its plot. */
  function Listed(db: Db, producer: Id, allowed: set<Status>): Planting -> bool
  {
    (x: Planting) => x.producer == producer && x.status in allowed && x.plot in PlotIds(db)
  }

  /** The numbered list `selecionar_plantio` shows, latest reference date first, undated last. */
  function SelectionList(db: Db, producer: Id, allowed: set<Status>): (r: seq<Planting>)
    ensures multiset(r) == multiset(Filter(db.plantings, Listed(db, producer, allowed)))
    ensures SortedBy(r, DescNullsLast)
  {
    SortByKey(Filter(db.plantings, Listed(db, producer, allowed)), DescNullsLast)
  }

  /** The list holds exactly the producer's plantings in the allowed statuses. */
  lemma SelectionListMembers(db: Db, producer: Id, allowed: set<Status>, x: Planting)
    ensures x in SelectionList(db, producer, allowed)
        <==> x in db.plantings && x.producer == producer && x.status in allowed && x.plot in PlotIds(db)
  {
    var rows := Filter(db.plantings, Listed(db, producer, allowed));
    assert x in SelectionList(db, producer, allowed) <==> x in multiset(rows);
    FilterCount(db.plantings, Listed(db, producer, allowed), x);
  }

  /** Dated rows are listed latest first, and an undated row is never above a dated one. */
  lemma SelectionOrder(db: Db, producer: Id, allowed: set<Status>, i: int, j: int)
    requires 0 <= i < j < |SelectionList(db, producer, allowed)|
    requires RefDate(SelectionList(db, producer, allowed)[j]).Some?
    ensures RefDate(SelectionList(db, producer, allowed)[i]).Some?
    ensures NotAfter(RefDate(SelectionList(db, producer, allowed)[j]).value,
                     RefDate(SelectionList(db, producer, allowed)[i]).value)
  {
    var r := SelectionList(db, producer, allowed);
    assert DescNullsLast(r[i]) <= DescNullsLast(r[j]);
    OrdinalOrder(RefDate(r[j]).value, RefDate(r[i]).value);
  }

  /** The answer to "Digite o número": cancel, a listed planting, or ask again. */
  datatype Pick = Cancel | Picked(id: Id) | Again

  /**
   * One typed answer to the numbered list: `None` for text that is empty or not an integer.
   * An empty list returns at once, before any prompt.
   */
  function Choose(list: seq<Planting>, n: Option<int>): (r: Pick)
    ensures |list| == 0 ==> r == Cancel
    ensures r.Picked? <==> |list| > 0 && n.Some? && 1 <= n.value <= |list|
    ensures r.Picked? ==> r.id == list[n.value - 1].id
    ensures r == Cancel <==> |list| == 0 || n == Some(0)
  {
    if |list| == 0 then Cancel
    else match n
      case None => Again
      case Some(k) =>
        if k == 0 then Cancel
        else if 1 <= k <= |list| then Picked(list[k - 1].id)
        else Again
  }

  /** The ids of the plantings the list offers. */
  function SelectableIds(db: Db, producer: Id, allowed: set<Status>): set<Id>
  {
    set i | 0 <= i < |db.plantings| && Listed(db, producer, allowed)(db.plantings[i]) :: db.plantings[i].id
  }

  /** A picked id always names a planting the list offered. */
  lemma PickedIsSelectable(db: Db, producer: Id, allowed: set<Status>, n: Option<int>)
    requires Choose(SelectionList(db, producer, allowed), n).Picked?
    ensures Choose(SelectionList(db, producer, allowed), n).id in SelectableIds(db, producer, allowed)
  {
    var list := SelectionList(db, producer, allowed);
    var x := list[n.value - 1];
    assert x in list;
    SelectionListMembers(db, producer, allowed, x);
    var j :| 0 <= j < |db.plantings| && db.plantings[j] == x;
    assert Listed(db, producer, allowed)(db.plantings[j]);
  }

  /** The row `SELECT ... WHERE id_plantio = :1` fetches first. */
  function FindPlanting(rows: seq<Planting>, id: Id): (r: Option<Planting>)
    ensures r.Some? ==> r.value in rows && r.value.id == id
    ensures r.None? ==> forall i :: 0 <= i < |rows| ==> rows[i].id != id
  {
    if |rows| == 0 then None
    else if rows[0].id == id then Some(rows[0])
    else
      var rest := FindPlanting(rows[1..], id);
      assert forall i :: 1 <= i < |rows| ==> rows[i] == rows[1..][i - 1];
      rest
  }

  function WithId(id: Id): Planting -> bool
  {
    (x: Planting) => x.id == id
  }

  // ---------------------------------------------------------------------------
  // Harvest

  /** The row after `UPDATE ... SET status = 'Disponível', data_colheita_real, quantidade_colhida, unidade_medida`. */
  function Harvested(h: Date, q: Quantity, unit: string): Planting -> Planting
  {
    (x: Planting) => x.(status := Available, harvested := Some(h), quantity := Some(q), unit := Some(unit))
  }

  /**
   * `confirmar_colheita`: only a planned planting of the producer can be picked; date, quantity
   * and unit are all required; a harvest before the planting date read for the picked id is
   * refused; success makes the planting available with the three harvest fields stamped.
   */
  function ConfirmHarvest(db: Db, producer: Id, id: Id, harvested: Option<Date>,
                          quantity: Option<Quantity>, unit: string): (r: Result<Db, Failure>)
    ensures id !in SelectableIds(db, producer, {Planned}) ==> r == Err(NotSelectable)
    ensures id in SelectableIds(db, producer, {Planned}) && (harvested.None? || quantity.None? || unit == [])
            ==> r == Err(MissingField)
    ensures r.Ok? <==> && id in SelectableIds(db, producer, {Planned})
                       && harvested.Some? && quantity.Some? && unit != []
                       && FindPlanting(db.plantings, id).Some?
                       && (FindPlanting(db.plantings, id).value.planted.Some? ==>
                             NotAfter(FindPlanting(db.plantings, id).value.planted.value, harvested.value))
    ensures r.Ok? ==> && id in SelectableIds(db, producer, {Planned})
                      && harvested.Some? && quantity.Some? && unit != []
                      && FindPlanting(db.plantings, id).Some?
                      && (FindPlanting(db.plantings, id).value.planted.Some? ==>
                            NotAfter(FindPlanting(db.plantings, id).value.planted.value, harvested.value))
                      && r.value == db.(plantings := r.value.plantings)
                      && |r.value.plantings| == |db.plantings|
    ensures r.Ok? ==> forall i :: 0 <= i < |db.plantings| ==>
              var before, after := db.plantings[i], r.value.plantings[i];
              if before.id == id then
                after == before.(status := Available, harvested := harvested,
                                 quantity := quantity, unit := Some(unit))
              else after == before
  {
    if id !in SelectableIds(db, producer, {Planned}) then Err(NotSelectable)
    else if harvested.None? || quantity.None? || unit == [] then Err(MissingField)
    else
      var x := FindPlanting(db.plantings, id);
      assert x.Some? by {
        var j :| 0 <= j < |db.plantings| && Listed(db, producer, {Planned})(db.plantings[j])
                 && db.plantings[j].id == id;
      }
      if x.value.planted.Some? && Before(harvested.value, x.value.planted.value) then Err(HarvestBeforePlanting)
      else
        assert x.value.planted.Some? ==> NotAfter(x.value.planted.value, harvested.value) by {
          if x.value.planted.Some? {
            OrdinalOrder(harvested.value, x.value.planted.value);
            OrdinalOrder(x.value.planted.value, harvested.value);
          }
        }
        Ok(db.(plantings := Update(db.plantings, WithId(id), Harvested(harvested.value, quantity.value, unit))))
  }

  /** Under the primary key, the first row with an id is the only one. */
  lemma FindPlantingUnique(rows: seq<Planting>, i: int)
    requires Distinct(rows, PlantingKey) && 0 <= i < |rows|
    ensures FindPlanting(rows, rows[i].id) == Some(rows[i])
  {
    var x := FindPlanting(rows, rows[i].id).value;
    var j :| 0 <= j < |rows| && rows[j] == x;
    assert PlantingKey(rows[i]) == PlantingKey(rows[j]);
  }

  lemma ConfirmHarvestPreserves(db: Db, producer: Id, id: Id, harvested: Option<Date>,
                                quantity: Option<Quantity>, unit: string)
    requires WellFormed(db) && Certified(db) && AllDatesConsistent(db)
    requires ConfirmHarvest(db, producer, id, harvested, quantity, unit).Ok?
    ensures var db' := ConfirmHarvest(db, producer, id, harvested, quantity, unit).value;
            WellFormed(db') && Certified(db') && AllDatesConsistent(db')
  {
    var db' := ConfirmHarvest(db, producer, id, harvested, quantity, unit).value;
    DistinctUpdate(db.plantings, PlantingKey, WithId(id), Harvested(harvested.value, quantity.value, unit));
    forall i | 0 <= i < |db'.plantings|
      ensures db'.plantings[i].producer in ProducerIds(db') && db'.plantings[i].plot in PlotIds(db')
      ensures DatesConsistent(db'.plantings[i])
    {
      assert DatesConsistent(db.plantings[i]);
      if db.plantings[i].id == id {
        FindPlantingUnique(db.plantings, i);
      }
    }
  }

  /** The only status change the program makes: a planned planting becomes available. */
  lemma HarvestOnlyTransition(db: Db, producer: Id, id: Id, harvested: Option<Date>,
                              quantity: Option<Quantity>, unit: string, i: int)
    requires ConfirmHarvest(db, producer, id, harvested, quantity, unit).Ok?
    requires 0 <= i < |db.plantings|
    requires ConfirmHarvest(db, producer, id, harvested, quantity, unit).value.plantings[i].status != db.plantings[i].status
    ensures db.plantings[i].id == id
    ensures ConfirmHarvest(db, producer, id, harvested, quantity, unit).value.plantings[i].status == Available
  {
  }

  // ---------------------------------------------------------------------------
  // Deletion

  /** `excluir_plantio`: a planned, available or cancelled planting of the producer, once confirmed. */
  function DeletePlanting(db: Db, producer: Id, id: Id, confirmed: bool): (r: Result<Db, Failure>)
    ensures r.Ok? <==> confirmed && id in SelectableIds(db, producer, {Planned, Available, Cancelled})
    ensures r.Ok? ==> r.value == db.(plantings := Filter(db.plantings, (x: Planting) => x.id != id))
  {
    if id !in SelectableIds(db, producer, {Planned, Available, Cancelled}) then Err(NotSelectable)
    else if !confirmed then Err(Declined)
    else Ok(db.(plantings := Filter(db.plantings, (x: Planting) => x.id != id)))
  }

  /** Removing a planting keeps every schema constraint and every producer's certification row. */
  lemma DeletePlantingPreserves(db: Db, producer: Id, id: Id, confirmed: bool)
    requires WellFormed(db) && Certified(db) && DeletePlanting(db, producer, id, confirmed).Ok?
    ensures WellFormed(DeletePlanting(db, producer, id, confirmed).value)
    ensures Certified(DeletePlanting(db, producer, id, confirmed).value)
  {
    var keep := (x: Planting) => x.id != id;
    var r := DeletePlanting(db, producer, id, confirmed).value;
    assert r == db.(plantings := Filter(db.plantings, keep));
    DistinctFilter(db.plantings, PlantingKey, keep);
    assert KeysDistinct(r);
    assert ProducerIds(r) == ProducerIds(db) && PlotIds(r) == PlotIds(db);
    FilterKeepsRefs(db.plantings, keep, (x: Planting) => x.producer, ProducerIds(db));
    FilterKeepsRefs(db.plantings, keep, (x: Planting) => x.plot, PlotIds(db));
  }

  /** A sold planting is never deleted, in a state where planting ids are unique. */
  lemma SoldIsKept(db: Db, producer: Id, id: Id, confirmed: bool, i: int)
    requires Distinct(db.plantings, PlantingKey)
    requires 0 <= i < |db.plantings| && db.plantings[i].status == Sold
    requires DeletePlanting(db, producer, id, confirmed).Ok?
    ensures db.plantings[i] in DeletePlanting(db, producer, id, confirmed).value.plantings
  {
    var j :| 0 <= j < |db.plantings| && Listed(db, producer, {Planned, Available, Cancelled})(db.plantings[j])
             && db.plantings[j].id == id;
  }
}
