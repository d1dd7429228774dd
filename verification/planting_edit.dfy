/**
 * `editar_plantio` in `crud_operations.py`: every prompt offers the stored value as its
 * default, the harvest fields are editable only once the planting is available, and the
 * date rules of registration and harvest are checked again before the single `UPDATE`.
 *
 * The planting-date prompt runs the two-day window check on the value it returns, and an
 * empty answer returns the stored date, so keeping the stored date of a planting older than
 * two days is refused although the loop's own comment says it is allowed. The model carries
 * both readings: `EditPlantingAsWritten` and the corrected `EditPlanting`.
 */
module PlantingEdit {
  import opened Common
  import opened Dates
  import opened Schema
  import opened Plantings

  /** One answer to a prompt with a stored default: press Enter, or type a new value. */
  datatype Entry<T> = Keep | Enter(value: T)

  /** The value a prompt returns, given the stored one. */
  function Resolve<T>(e: Entry<T>, current: Option<T>): Option<T>
  {
    match e
    case Keep => current
    case Enter(v) => Some(v)
  }

  /**
   * A typed text is stripped before it is looked at, and an empty one returns the stored
   * default: it is the same answer as pressing Enter.
   */
  function TextEntry(e: Entry<string>): (t: Entry<string>)
    ensures t.Keep? <==> e.Keep? || e.value == []
    ensures t.Enter? ==> t == e && t.value != []
  {
    if e.Enter? && e.value == [] then Keep else e
  }

  /** One answer for each prompt of the edit, in the order they are asked. */
  datatype PlantingEdit = PlantingEdit(
    crop: Entry<string>, planted: Entry<Date>, expected: Entry<Date>,
    previousCrop: Entry<string>, notes: Entry<string>,
    harvested: Entry<Date>, quantity: Entry<Quantity>, unit: Entry<string>)

  const AllKeep := PlantingEdit(Keep, Keep, Keep, Keep, Keep, Keep, Keep, Keep)

  /** The stored row with the answers applied; harvest answers count only for an available planting. */
  function Edited(x: Planting, e: PlantingEdit): (y: Planting)
    ensures y.id == x.id && y.producer == x.producer && y.plot == x.plot && y.status == x.status
    ensures x.status != Available ==> y.harvested == x.harvested && y.quantity == x.quantity && y.unit == x.unit
    ensures e == AllKeep ==> y == x
    ensures y.crop == (if e.crop.Enter? && e.crop.value != [] then e.crop.value else x.crop)
    ensures x.crop != [] ==> y.crop != []
    ensures e.previousCrop == Enter([]) ==> y.previousCrop == x.previousCrop
    ensures e.notes == Enter([]) ==> y.notes == x.notes
    ensures e.unit == Enter([]) ==> y.unit == x.unit
    ensures y.previousCrop != x.previousCrop ==> y.previousCrop.Some? && y.previousCrop.value != []
    ensures y.notes != x.notes ==> y.notes.Some? && y.notes.value != []
    ensures y.unit != x.unit ==> y.unit.Some? && y.unit.value != []
  {
    var harvest := x.status == Available;
    x.(crop := match TextEntry(e.crop) case Keep => x.crop case Enter(v) => v,
       planted := Resolve(e.planted, x.planted),
       expected := Resolve(e.expected, x.expected),
       previousCrop := Resolve(TextEntry(e.previousCrop), x.previousCrop),
       notes := Resolve(TextEntry(e.notes), x.notes),
       harvested := if harvest then Resolve(e.harvested, x.harvested) else x.harvested,
       quantity := if harvest then Resolve(e.quantity, x.quantity) else x.quantity,
       unit := if harvest then Resolve(TextEntry(e.unit), x.unit) else x.unit)
  }

  /** The columns the `UPDATE` writes, taken from `y`; key, owner, plot and status stay. */
  function Rewritten(y: Planting): Planting -> Planting
  {
    (z: Planting) => z.(crop := y.crop, planted := y.planted, expected := y.expected,
                        harvested := y.harvested, quantity := y.quantity, unit := y.unit,
                        notes := y.notes, previousCrop := y.previousCrop)
  }

  /** The required prompts all end with a value: planting and expected dates, and the harvest fields when editable. */
  predicate Complete(x: Planting, y: Planting)
  {
    && y.planted.Some? && y.expected.Some?
    && (x.status == Available ==> y.harvested.Some? && y.quantity.Some? && y.unit.Some?)
  }

  /**
   * The edit, with the window check applied to the returned planting date always
   * (`windowOnKept`) or only to a typed one.
   */
  function EditWith(db: Db, producer: Id, id: Id, e: PlantingEdit, today: Date, windowOnKept: bool)
    : (r: Result<Db, Failure>)
    ensures id !in SelectableIds(db, producer, {Planned, Available}) ==> r == Err(NotSelectable)
    ensures r.Ok? ==> FindPlanting(db.plantings, id).Some?
    ensures r.Ok? <==> && id in SelectableIds(db, producer, {Planned, Available})
                       && FindPlanting(db.plantings, id).Some?
                       && var y := Edited(FindPlanting(db.plantings, id).value, e);
                          && Complete(FindPlanting(db.plantings, id).value, y)
                          && Before(y.planted.value, y.expected.value)
                          && (y.harvested.Some? ==> NotAfter(y.planted.value, y.harvested.value))
                          && (windowOnKept || e.planted.Enter? ==> InPlantingWindow(y.planted.value, today))
    ensures r.Ok? ==>
              var y := Edited(FindPlanting(db.plantings, id).value, e);
              && Complete(FindPlanting(db.plantings, id).value, y)
              && Before(y.planted.value, y.expected.value)
              && (y.harvested.Some? ==> NotAfter(y.planted.value, y.harvested.value))
              && (windowOnKept || e.planted.Enter? ==> InPlantingWindow(y.planted.value, today))
              && r.value == db.(plantings := Update(db.plantings, WithId(id), Rewritten(y)))
  {
    if id !in SelectableIds(db, producer, {Planned, Available}) then Err(NotSelectable)
    else
      var found := FindPlanting(db.plantings, id);
      assert found.Some? by {
        var j :| 0 <= j < |db.plantings| && Listed(db, producer, {Planned, Available})(db.plantings[j])
                 && db.plantings[j].id == id;
      }
      var x := found.value;
      var y := Edited(x, e);
      if y.planted.None? then Err(MissingField)
      else if (windowOnKept || e.planted.Enter?) && !InPlantingWindow(y.planted.value, today) then
        Err(PlantingDateOutOfWindow)
      else if !Complete(x, y) then Err(MissingField)
      else if !Before(y.planted.value, y.expected.value) then Err(ExpectedNotAfterPlanting)
      else if y.harvested.Some? && Before(y.harvested.value, y.planted.value) then
        assert !NotAfter(y.planted.value, y.harvested.value) by {
          OrdinalOrder(y.harvested.value, y.planted.value);
          OrdinalOrder(y.planted.value, y.harvested.value);
        }
        Err(HarvestBeforePlanting)
      else
        assert y.harvested.Some? ==> NotAfter(y.planted.value, y.harvested.value) by {
          if y.harvested.Some? {
            OrdinalOrder(y.harvested.value, y.planted.value);
            OrdinalOrder(y.planted.value, y.harvested.value);
          }
        }
        Ok(db.(plantings := Update(db.plantings, WithId(id), Rewritten(y))))
  }

  /** `editar_plantio` as written: the window check runs on the kept planting date as well. */
  function EditPlantingAsWritten(db: Db, producer: Id, id: Id, e: PlantingEdit, today: Date)
    : (r: Result<Db, Failure>)
    ensures r.Ok? ==> FindPlanting(db.plantings, id).Some?
    ensures r.Ok? ==>
              var y := Edited(FindPlanting(db.plantings, id).value, e);
              y.planted.Some? && InPlantingWindow(y.planted.value, today)
  {
    EditWith(db, producer, id, e, today, true)
  }

  /** `editar_plantio` as its comment intends: a kept planting date is not checked against the window. */
  function EditPlanting(db: Db, producer: Id, id: Id, e: PlantingEdit, today: Date)
    : (r: Result<Db, Failure>)
    ensures e.planted.Keep? ==> r != Err(PlantingDateOutOfWindow)
    ensures (&& e.planted.Enter? && !InPlantingWindow(e.planted.value, today)
             && id in SelectableIds(db, producer, {Planned, Available})) ==> r == Err(PlantingDateOutOfWindow)
    ensures r.Ok? ==> FindPlanting(db.plantings, id).Some?
    ensures r.Ok? <==> && id in SelectableIds(db, producer, {Planned, Available})
                       && FindPlanting(db.plantings, id).Some?
                       && var y := Edited(FindPlanting(db.plantings, id).value, e);
                          && Complete(FindPlanting(db.plantings, id).value, y)
                          && Before(y.planted.value, y.expected.value)
                          && (y.harvested.Some? ==> NotAfter(y.planted.value, y.harvested.value))
                          && (e.planted.Enter? ==> InPlantingWindow(y.planted.value, today))
    ensures r.Ok? ==>
              var y := Edited(FindPlanting(db.plantings, id).value, e);
              r.value == db.(plantings := Update(db.plantings, WithId(id), Rewritten(y)))
    ensures r.Ok? ==> |r.value.plantings| == |db.plantings| && r.value == db.(plantings := r.value.plantings)
    ensures r.Ok? ==> forall i :: 0 <= i < |db.plantings| ==>
              var before, after := db.plantings[i], r.value.plantings[i];
              && after.id == before.id && after.producer == before.producer
              && after.plot == before.plot && after.status == before.status
              && (before.id != id ==> after == before)
  {
    EditWith(db, producer, id, e, today, false)
  }

  /** A planned planting sown on 01/05/2024, expected on 01/08/2024. */
  const Sown := Planting("p1", "c1", "t1", "milho", Some(Ymd(2024, 5, 1)), Some(Ymd(2024, 8, 1)),
                         None, None, None, Planned, None, None)

  /** A state holding that planting alone, under a registered producer and plot. */
  const SownDb := Db([Producer("c1", "Ana", None, None, None)], [Plot("t1", "c1", "A", None, None)],
                     [Sown], [], [CertRow("c1", 0, 0, 0, 0)], [])

  /** The planting can be chosen for editing, and 01/06/2024 falls outside its two-day window. */
  lemma SownSelectable()
    ensures Sown.id in SelectableIds(SownDb, "c1", {Planned, Available})
    ensures FindPlanting(SownDb.plantings, "p1") == Some(Sown)
    ensures !InPlantingWindow(Sown.planted.value, Ymd(2024, 6, 1))
  {
    assert "t1" in PlotIds(SownDb) by { InKeySet(SownDb.plots, PlotKey, SownDb.plots[0]); }
    assert Listed(SownDb, "c1", {Planned, Available})(SownDb.plantings[0]);
    assert Ordinal(Ymd(2024, 6, 1)) - Ordinal(Ymd(2024, 5, 1)) == 31 by {
      assert DaysBeforeMonth(2024, 6) - DaysBeforeMonth(2024, 5) == 31;
    }
  }

  /**
   * Editing that planting on 01/06/2024 with every answer left empty: the program as written
   * refuses the edit, the corrected one writes back the same state.
   */
  lemma KeptDateRefused()
    ensures EditPlantingAsWritten(SownDb, "c1", "p1", AllKeep, Ymd(2024, 6, 1)) == Err(PlantingDateOutOfWindow)
    ensures EditPlanting(SownDb, "c1", "p1", AllKeep, Ymd(2024, 6, 1)) == Ok(SownDb)
  {
    SownSelectable();
    OrdinalOrder(Ymd(2024, 5, 1), Ymd(2024, 8, 1));
    assert Update(SownDb.plantings, WithId("p1"), Rewritten(Sown)) == SownDb.plantings;
  }

  /** Keeping every answer writes back the state unchanged when the stored row is complete and consistent. */
  /** The edit sees the answers only through the planting-date answer and the edited row. */
  lemma EditSeesEdited(db: Db, producer: Id, id: Id, e1: PlantingEdit, e2: PlantingEdit, today: Date)
    requires e1.planted == e2.planted
    requires forall x :: Edited(x, e1) == Edited(x, e2)
    ensures EditPlanting(db, producer, id, e1, today) == EditPlanting(db, producer, id, e2, today)
  {
    if id in SelectableIds(db, producer, {Planned, Available}) {
      var found := FindPlanting(db.plantings, id);
      if found.Some? {
        assert Edited(found.value, e1) == Edited(found.value, e2);
      }
    }
  }

  /** Typing an empty text at any text prompt is the same edit as pressing Enter there. */
  lemma EmptyTextIsKeep(db: Db, producer: Id, id: Id, e: PlantingEdit, today: Date)
    ensures EditPlanting(db, producer, id, e.(crop := Enter([])), today)
         == EditPlanting(db, producer, id, e.(crop := Keep), today)
    ensures EditPlanting(db, producer, id, e.(previousCrop := Enter([])), today)
         == EditPlanting(db, producer, id, e.(previousCrop := Keep), today)
    ensures EditPlanting(db, producer, id, e.(notes := Enter([])), today)
         == EditPlanting(db, producer, id, e.(notes := Keep), today)
    ensures EditPlanting(db, producer, id, e.(unit := Enter([])), today)
         == EditPlanting(db, producer, id, e.(unit := Keep), today)
  {
    forall x ensures Edited(x, e.(crop := Enter([]))) == Edited(x, e.(crop := Keep)) {
      EmptyTextEdited(x, e);
    }
    EditSeesEdited(db, producer, id, e.(crop := Enter([])), e.(crop := Keep), today);
    forall x ensures Edited(x, e.(previousCrop := Enter([]))) == Edited(x, e.(previousCrop := Keep)) {
      EmptyTextEdited(x, e);
    }
    EditSeesEdited(db, producer, id, e.(previousCrop := Enter([])), e.(previousCrop := Keep), today);
    forall x ensures Edited(x, e.(notes := Enter([]))) == Edited(x, e.(notes := Keep)) {
      EmptyTextEdited(x, e);
    }
    EditSeesEdited(db, producer, id, e.(notes := Enter([])), e.(notes := Keep), today);
    forall x ensures Edited(x, e.(unit := Enter([]))) == Edited(x, e.(unit := Keep)) {
      EmptyTextEdited(x, e);
    }
    EditSeesEdited(db, producer, id, e.(unit := Enter([])), e.(unit := Keep), today);
  }

  /** The row-level fact behind `EmptyTextIsKeep`. */
  lemma EmptyTextEdited(x: Planting, e: PlantingEdit)
    ensures Edited(x, e.(crop := Enter([]))) == Edited(x, e.(crop := Keep))
    ensures Edited(x, e.(previousCrop := Enter([]))) == Edited(x, e.(previousCrop := Keep))
    ensures Edited(x, e.(notes := Enter([]))) == Edited(x, e.(notes := Keep))
    ensures Edited(x, e.(unit := Enter([]))) == Edited(x, e.(unit := Keep))
  {
  }

  lemma EditAllKeep(db: Db, producer: Id, id: Id, today: Date, i: int)
    requires Distinct(db.plantings, PlantingKey)
    requires 0 <= i < |db.plantings| && db.plantings[i].id == id
    requires id in SelectableIds(db, producer, {Planned, Available})
    requires Complete(db.plantings[i], db.plantings[i]) && DatesConsistent(db.plantings[i])
    ensures EditPlanting(db, producer, id, AllKeep, today) == Ok(db)
  {
    var x := db.plantings[i];
    FindPlantingUnique(db.plantings, i);
    OrdinalOrder(x.planted.value, x.expected.value);
    if x.harvested.Some? {
      OrdinalOrder(x.planted.value, x.harvested.value);
      OrdinalOrder(x.harvested.value, x.planted.value);
    }
    var rows := Update(db.plantings, WithId(id), Rewritten(x));
    forall k | 0 <= k < |rows| ensures rows[k] == db.plantings[k] {
      if db.plantings[k].id == id {
        assert PlantingKey(db.plantings[k]) == PlantingKey(db.plantings[i]);
      }
    }
    assert rows == db.plantings;
  }

  lemma EditPlantingPreserves(db: Db, producer: Id, id: Id, e: PlantingEdit, today: Date)
    requires WellFormed(db) && Certified(db) && AllDatesConsistent(db)
    requires EditPlanting(db, producer, id, e, today).Ok?
    ensures var db' := EditPlanting(db, producer, id, e, today).value;
            WellFormed(db') && Certified(db') && AllDatesConsistent(db')
  {
    var db' := EditPlanting(db, producer, id, e, today).value;
    var y := Edited(FindPlanting(db.plantings, id).value, e);
    DistinctUpdate(db.plantings, PlantingKey, WithId(id), Rewritten(y));
    forall i | 0 <= i < |db'.plantings|
      ensures db'.plantings[i].producer in ProducerIds(db') && db'.plantings[i].plot in PlotIds(db')
      ensures DatesConsistent(db'.plantings[i])
    {
      assert DatesConsistent(db.plantings[i]);
    }
  }
}
