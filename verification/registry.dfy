/**
 * Producers and plots in `crud_operations.py`: registering a producer together with its
 * certification row, registering a plot under a producer-scoped code, and the deletes whose
 * `ON DELETE CASCADE` clauses carry away every dependent row.
 */
module Registry {
  import opened Common
  import opened Schema

  /** The certification row a new producer starts with: not certified, no stage done. */
  function FreshCert(id: Id): CertRow
  {
    CertRow(id, 0, 0, 0, 0)
  }

  /**
   * `cadastrar_produtor`: an empty or already registered id is refused (the source asks for
   * another), and so is a missing or empty name or location (both are asked for as required fields);
   * otherwise the producer row and its certification row are inserted in one transaction, so
   * a refused second insert leaves neither behind.
   */
  function CreateProducer(db: Db, p: Producer): (r: Result<Db, Failure>)
    ensures p.id == [] ==> r == Err(MissingField)
    ensures p.id != [] && p.id in ProducerIds(db) ==> r == Err(DuplicateProducer)
    ensures p.id != [] && p.id !in ProducerIds(db) && (p.name == [] || p.location.None? || p.location == Some([])) ==> r == Err(MissingField)
    ensures r.Ok? <==> && p.id != [] && p.id !in ProducerIds(db) && p.name != [] && p.location.Some? && p.location.value != []
                       && p.id !in KeySet(db.certs, CertKey)
    ensures r.Ok? ==> (&& r.value.producers == db.producers + [p]
                       && r.value.certs == db.certs + [FreshCert(p.id)]
                       && r.value.plots == db.plots && r.value.plantings == db.plantings
                       && r.value.inputs == db.inputs && r.value.demands == db.demands)
  {
    if p.id == [] then Err(MissingField)
    else if p.id in ProducerIds(db) then Err(DuplicateProducer)
    else if p.name == [] || p.location.None? || p.location == Some([]) then Err(MissingField)
    else if p.id in KeySet(db.certs, CertKey) then Err(KeyViolation)
    else Ok(db.(producers := db.producers + [p], certs := db.certs + [FreshCert(p.id)]))
  }

  /**
   * In a state the schema admits, a non-empty id is accepted exactly when it is new and the
   * name and location are given and not empty.
   */
  lemma CreateProducerAcceptsFresh(db: Db, p: Producer)
    requires WellFormed(db) && p.id != []
    ensures CreateProducer(db, p).Ok? <==> && p.id !in ProducerIds(db) && p.name != []
                                           && p.location.Some? && p.location.value != []
  {
    if p.id in KeySet(db.certs, CertKey) {
      var i :| 0 <= i < |db.certs| && db.certs[i].producer == p.id;
    }
  }

  lemma CreateProducerPreserves(db: Db, p: Producer)
    requires WellFormed(db) && Certified(db) && CreateProducer(db, p).Ok?
    ensures WellFormed(CreateProducer(db, p).value)
    ensures Certified(CreateProducer(db, p).value)
  {
    var db' := CreateProducer(db, p).value;
    DistinctAppend(db.producers, ProducerKey, p);
    DistinctAppend(db.certs, CertKey, FreshCert(p.id));
    KeySetAppend(db.producers, ProducerKey, p);
    KeySetAppend(db.certs, CertKey, FreshCert(p.id));
    CreateProducerCerts(db, p, db');
    CreateProducerCertified(db, p, db');
  }

  /** The appended certification row names the new producer and holds flags only. */
  lemma CreateProducerCerts(db: Db, p: Producer, db': Db)
    requires ReferencesResolve(db) && FlagsValid(db)
    requires db'.producers == db.producers + [p] && db'.certs == db.certs + [FreshCert(p.id)]
    requires ProducerIds(db) <= ProducerIds(db') && p.id in ProducerIds(db')
    ensures forall i :: 0 <= i < |db'.certs| ==> db'.certs[i].producer in ProducerIds(db')
    ensures FlagsValid(db')
  {
    forall i | 0 <= i < |db'.certs| ensures db'.certs[i].producer in ProducerIds(db') && FlagsOk(db'.certs[i]) {
      if i < |db.certs| {
        assert db'.certs[i] == db.certs[i];
      }
    }
  }

  /** Every producer, the new one included, has a certification row after the insert. */
  lemma CreateProducerCertified(db: Db, p: Producer, db': Db)
    requires Certified(db)
    requires db'.producers == db.producers + [p] && db'.certs == db.certs + [FreshCert(p.id)]
    requires KeySet(db.certs, CertKey) <= KeySet(db'.certs, CertKey) && p.id in KeySet(db'.certs, CertKey)
    ensures Certified(db')
  {
    forall i | 0 <= i < |db'.producers| ensures db'.producers[i].id in KeySet(db'.certs, CertKey) {
      if i < |db.producers| {
        assert db'.producers[i] == db.producers[i];
      }
    }
  }

  /**
   * `cadastrar_talhao` for producer `owner`: an empty code, or one the producer already uses,
   * is refused (the source asks again); the row is inserted under a fresh `uid`.
   */
  function CreatePlot(db: Db, owner: Id, code: string, uid: Id, area: Quantity, soil: Option<string>)
    : (r: Result<Db, Failure>)
    ensures code == [] ==> r == Err(MissingField)
    ensures code != [] && (owner, code) in KeySet(db.plots, PlotCodeKey) ==> r == Err(DuplicatePlotCode)
    ensures r.Ok? <==> && code != [] && (owner, code) !in KeySet(db.plots, PlotCodeKey)
                       && uid !in PlotIds(db) && owner in ProducerIds(db)
    ensures r.Ok? ==> r.value == db.(plots := db.plots + [Plot(uid, owner, code, Some(area), soil)])
  {
    if code == [] then Err(MissingField)
    else if (owner, code) in KeySet(db.plots, PlotCodeKey) then Err(DuplicatePlotCode)
    else if uid in PlotIds(db) then Err(KeyViolation)
    else if owner !in ProducerIds(db) then Err(ReferenceViolation)
    else Ok(db.(plots := db.plots + [Plot(uid, owner, code, Some(area), soil)]))
  }

  lemma CreatePlotPreserves(db: Db, owner: Id, code: string, uid: Id, area: Quantity, soil: Option<string>)
    requires WellFormed(db) && Certified(db)
    requires CreatePlot(db, owner, code, uid, area, soil).Ok?
    ensures WellFormed(CreatePlot(db, owner, code, uid, area, soil).value)
    ensures Certified(CreatePlot(db, owner, code, uid, area, soil).value)
  {
    var t := Plot(uid, owner, code, Some(area), soil);
    var db' := CreatePlot(db, owner, code, uid, area, soil).value;
    DistinctAppend(db.plots, PlotKey, t);
    DistinctAppend(db.plots, PlotCodeKey, t);
    KeySetAppend(db.plots, PlotKey, t);
    assert PlotIds(db) <= PlotIds(db');
    forall i | 0 <= i < |db'.plots| ensures db'.plots[i].owner in ProducerIds(db') {
      if i < |db.plots| {
        assert db'.plots[i] == db.plots[i];
      }
    }
  }

  /** A plot's code is unique per producer, so a (producer, code) pair names at most one plot. */
  lemma PlotCodeNamesOnePlot(db: Db, a: Plot, b: Plot)
    requires WellFormed(db) && a in db.plots && b in db.plots
    requires a.owner == b.owner && a.code == b.code
    ensures a == b
  {
    DistinctSameKey(db.plots, PlotCodeKey, a, b);
  }

  // ---------------------------------------------------------------------------
  // Cascading deletes

  /** The system keys of the plots a producer owns. */
  function OwnedPlots(db: Db, owner: Id): set<Id>
  {
    set i | 0 <= i < |db.plots| && db.plots[i].owner == owner :: db.plots[i].uid
  }

  /** `DELETE FROM PRODUTORES` with every `ON DELETE CASCADE` the schema declares carried out. */
  function CascadeProducer(db: Db, id: Id): (r: Db)
    ensures forall i :: 0 <= i < |r.producers| ==> r.producers[i].id != id
    ensures forall i :: 0 <= i < |r.plots| ==> r.plots[i].owner != id
    ensures forall i :: 0 <= i < |r.plantings| ==>
              r.plantings[i].producer != id && r.plantings[i].plot !in OwnedPlots(db, id)
    ensures forall i :: 0 <= i < |r.inputs| ==>
              r.inputs[i].producer != id && r.inputs[i].plot !in OwnedPlots(db, id)
    ensures forall i :: 0 <= i < |r.certs| ==> r.certs[i].producer != id
    ensures r.demands == db.demands
  {
    var gone := OwnedPlots(db, id);
    db.(producers := Filter(db.producers, (p: Producer) => p.id != id),
        plots := Filter(db.plots, (t: Plot) => t.owner != id),
        plantings := Filter(db.plantings, (x: Planting) => x.producer != id && x.plot !in gone),
        inputs := Filter(db.inputs, (x: InputRecord) => x.producer != id && x.plot !in gone),
        certs := Filter(db.certs, (c: CertRow) => c.producer != id))
  }

  /** The cascade removes nothing unrelated to the producer. */
  lemma CascadeProducerKeepsOthers(db: Db, id: Id)
    ensures var r := CascadeProducer(db, id);
      && (forall i :: 0 <= i < |db.producers| && db.producers[i].id != id ==> db.producers[i] in r.producers)
      && (forall i :: 0 <= i < |db.plots| && db.plots[i].owner != id ==> db.plots[i] in r.plots)
      && (forall i :: (0 <= i < |db.plantings| && db.plantings[i].producer != id
                       && db.plantings[i].plot !in OwnedPlots(db, id)) ==> db.plantings[i] in r.plantings)
      && (forall i :: (0 <= i < |db.inputs| && db.inputs[i].producer != id
                       && db.inputs[i].plot !in OwnedPlots(db, id)) ==> db.inputs[i] in r.inputs)
      && (forall i :: 0 <= i < |db.certs| && db.certs[i].producer != id ==> db.certs[i] in r.certs)
  {
  }

  /**
   * `excluir_produtor`: the answer `0` cancels the selection; otherwise the producer must be
   * listed (registered) and the deletion confirmed; it then goes with its plots, its and its plots' plantings and input records, and its
   * certification row.
   */
  function DeleteProducer(db: Db, id: Id, confirmed: bool): (r: Result<Db, Failure>)
    ensures id == "0" ==> r == Err(SelectionCancelled)
    ensures id != "0" && id !in ProducerIds(db) ==> r == Err(NotFound)
    ensures r.Ok? <==> id != "0" && id in ProducerIds(db) && confirmed
    ensures r.Ok? ==> r.value == CascadeProducer(db, id)
  {
    if id == "0" then Err(SelectionCancelled)
    else if id !in ProducerIds(db) then Err(NotFound)
    else if !confirmed then Err(Declined)
    else Ok(CascadeProducer(db, id))
  }

  lemma CascadeProducerPreserves(db: Db, id: Id)
    requires WellFormed(db) && Certified(db)
    ensures WellFormed(CascadeProducer(db, id))
    ensures Certified(CascadeProducer(db, id))
    ensures id !in ProducerIds(CascadeProducer(db, id))
  {
    CascadeProducerKeys(db, id);
    CascadeProducerRefs(db, id);
    CascadeProducerCerts(db, id);
  }

  lemma CascadeProducerKeys(db: Db, id: Id)
    requires KeysDistinct(db)
    ensures KeysDistinct(CascadeProducer(db, id))
  {
    var gone := OwnedPlots(db, id);
    DistinctFilter(db.producers, ProducerKey, (p: Producer) => p.id != id);
    DistinctFilter(db.plots, PlotKey, (t: Plot) => t.owner != id);
    DistinctFilter(db.plots, PlotCodeKey, (t: Plot) => t.owner != id);
    DistinctFilter(db.plantings, PlantingKey, (x: Planting) => x.producer != id && x.plot !in gone);
    DistinctFilter(db.inputs, InputKey, (x: InputRecord) => x.producer != id && x.plot !in gone);
    DistinctFilter(db.certs, CertKey, (c: CertRow) => c.producer != id);
  }

  /** A producer other than the deleted one is still registered afterwards. */
  lemma ProducerSurvives(db: Db, id: Id, k: Id)
    requires k in ProducerIds(db) && k != id
    ensures k in ProducerIds(CascadeProducer(db, id))
  {
    var j :| 0 <= j < |db.producers| && db.producers[j].id == k;
    CascadeProducerKeepsOthers(db, id);
    InKeySet(CascadeProducer(db, id).producers, ProducerKey, db.producers[j]);
  }

  /** A plot the deleted producer did not own is still there afterwards. */
  lemma PlotSurvives(db: Db, id: Id, k: Id)
    requires k in PlotIds(db) && k !in OwnedPlots(db, id)
    ensures k in PlotIds(CascadeProducer(db, id))
  {
    var j :| 0 <= j < |db.plots| && db.plots[j].uid == k;
    CascadeProducerKeepsOthers(db, id);
    InKeySet(CascadeProducer(db, id).plots, PlotKey, db.plots[j]);
  }

  lemma CascadeProducerRefs(db: Db, id: Id)
    requires ReferencesResolve(db)
    ensures ReferencesResolve(CascadeProducer(db, id))
  {
    CascadeKeepsPlotOwners(db, id);
    CascadeKeepsPlantingRefs(db, id);
    CascadeKeepsInputRefs(db, id);
    CascadeKeepsCertOwners(db, id);
  }

  lemma CascadeKeepsPlotOwners(db: Db, id: Id)
    requires ReferencesResolve(db)
    ensures var r := CascadeProducer(db, id);
            forall i :: 0 <= i < |r.plots| ==> r.plots[i].owner in ProducerIds(r)
  {
    var r := CascadeProducer(db, id);
    forall i | 0 <= i < |r.plots| ensures r.plots[i].owner in ProducerIds(r) {
      var j :| 0 <= j < |db.plots| && db.plots[j] == r.plots[i];
      ProducerSurvives(db, id, db.plots[j].owner);
    }
  }

  lemma CascadeKeepsPlantingRefs(db: Db, id: Id)
    requires ReferencesResolve(db)
    ensures var r := CascadeProducer(db, id);
            forall i :: 0 <= i < |r.plantings| ==>
              r.plantings[i].producer in ProducerIds(r) && r.plantings[i].plot in PlotIds(r)
  {
    var r := CascadeProducer(db, id);
    forall i | 0 <= i < |r.plantings|
      ensures r.plantings[i].producer in ProducerIds(r) && r.plantings[i].plot in PlotIds(r)
    {
      var j :| 0 <= j < |db.plantings| && db.plantings[j] == r.plantings[i];
      ProducerSurvives(db, id, db.plantings[j].producer);
      PlotSurvives(db, id, db.plantings[j].plot);
    }
  }

  lemma CascadeKeepsInputRefs(db: Db, id: Id)
    requires ReferencesResolve(db)
    ensures var r := CascadeProducer(db, id);
            forall i :: 0 <= i < |r.inputs| ==>
              r.inputs[i].producer in ProducerIds(r) && r.inputs[i].plot in PlotIds(r)
  {
    var r := CascadeProducer(db, id);
    forall i | 0 <= i < |r.inputs|
      ensures r.inputs[i].producer in ProducerIds(r) && r.inputs[i].plot in PlotIds(r)
    {
      var j :| 0 <= j < |db.inputs| && db.inputs[j] == r.inputs[i];
      ProducerSurvives(db, id, db.inputs[j].producer);
      PlotSurvives(db, id, db.inputs[j].plot);
    }
  }

  lemma CascadeKeepsCertOwners(db: Db, id: Id)
    requires ReferencesResolve(db)
    ensures var r := CascadeProducer(db, id);
            forall i :: 0 <= i < |r.certs| ==> r.certs[i].producer in ProducerIds(r)
  {
    var r := CascadeProducer(db, id);
    forall i | 0 <= i < |r.certs| ensures r.certs[i].producer in ProducerIds(r) {
      var j :| 0 <= j < |db.certs| && db.certs[j] == r.certs[i];
      ProducerSurvives(db, id, db.certs[j].producer);
    }
  }

  lemma CascadeProducerCerts(db: Db, id: Id)
    requires FlagsValid(db) && Certified(db)
    ensures FlagsValid(CascadeProducer(db, id)) && Certified(CascadeProducer(db, id))
  {
    CascadeProducerFlags(db, id);
    CascadeProducerCertified(db, id);
  }

  lemma CascadeProducerFlags(db: Db, id: Id)
    requires FlagsValid(db)
    ensures FlagsValid(CascadeProducer(db, id))
  {
    var r := CascadeProducer(db, id);
    forall i | 0 <= i < |r.certs| ensures FlagsOk(r.certs[i]) {
      var j :| 0 <= j < |db.certs| && db.certs[j] == r.certs[i];
    }
  }

  lemma CascadeProducerCertified(db: Db, id: Id)
    requires Certified(db)
    ensures Certified(CascadeProducer(db, id))
  {
    var r := CascadeProducer(db, id);
    CascadeProducerKeepsOthers(db, id);
    forall i | 0 <= i < |r.producers| ensures r.producers[i].id in KeySet(r.certs, CertKey) {
      var k := r.producers[i].id;
      var p :| 0 <= p < |db.producers| && db.producers[p] == r.producers[i];
      var j :| 0 <= j < |db.certs| && db.certs[j].producer == k;
      InKeySet(r.certs, CertKey, db.certs[j]);
    }
  }

  /** The first of `owner`'s plots whose code is `code`. */
  function FindPlot(plots: seq<Plot>, owner: Id, code: string): (r: Option<Plot>)
    ensures r.Some? ==> r.value in plots && r.value.owner == owner && r.value.code == code
    ensures r.None? <==> (owner, code) !in KeySet(plots, PlotCodeKey)
  {
    if |plots| == 0 then None
    else if plots[0].owner == owner && plots[0].code == code then Some(plots[0])
    else
      var rest := FindPlot(plots[1..], owner, code);
      assert KeySet(plots, PlotCodeKey) == {PlotCodeKey(plots[0])} + KeySet(plots[1..], PlotCodeKey) by {
        assert plots == [plots[0]] + plots[1..];
        KeySetCons(plots[0], plots[1..], PlotCodeKey);
      }
      rest
  }

  /**
   * `selecionar_talhao` for one typed answer: `0` cancels before any lookup, any other answer
   * resolves through the producer's plot codes.
   */
  function SelectPlot(plots: seq<Plot>, owner: Id, code: string): (r: Option<Plot>)
    ensures code == "0" ==> r.None?
    ensures r.Some? ==> r.value in plots && r.value.owner == owner && r.value.code == code
    ensures r.None? <==> code == "0" || (owner, code) !in KeySet(plots, PlotCodeKey)
  {
    if code == "0" then None else FindPlot(plots, owner, code)
  }

  /** `DELETE FROM TALHOES` for one plot, with its plantings and input records cascading. */
  function CascadePlot(db: Db, uid: Id): (r: Db)
    ensures forall i :: 0 <= i < |r.plots| ==> r.plots[i].uid != uid
    ensures forall i :: 0 <= i < |r.plantings| ==> r.plantings[i].plot != uid
    ensures forall i :: 0 <= i < |r.inputs| ==> r.inputs[i].plot != uid
    ensures r.producers == db.producers && r.certs == db.certs && r.demands == db.demands
  {
    db.(plots := Filter(db.plots, (t: Plot) => t.uid != uid),
        plantings := Filter(db.plantings, (x: Planting) => x.plot != uid),
        inputs := Filter(db.inputs, (x: InputRecord) => x.plot != uid))
  }

  /** Deleting a plot removes nothing but the plot and the rows that refer to it. */
  lemma CascadePlotKeepsOthers(db: Db, uid: Id)
    ensures var r := CascadePlot(db, uid);
      && (forall i :: 0 <= i < |db.plots| && db.plots[i].uid != uid ==> db.plots[i] in r.plots)
      && (forall i :: 0 <= i < |db.plantings| && db.plantings[i].plot != uid ==> db.plantings[i] in r.plantings)
      && (forall i :: 0 <= i < |db.inputs| && db.inputs[i].plot != uid ==> db.inputs[i] in r.inputs)
  {
  }

  /**
   * `excluir_talhao` for a producer: the answer `0` cancels the selection; otherwise the code
   * must name one of the producer's plots and the deletion be confirmed; the plot goes with its plantings and input records.
   */
  function DeletePlot(db: Db, owner: Id, code: string, confirmed: bool): (r: Result<Db, Failure>)
    ensures code == "0" ==> r == Err(SelectionCancelled)
    ensures code != "0" && (owner, code) !in KeySet(db.plots, PlotCodeKey) ==> r == Err(NotFound)
    ensures r.Ok? <==> code != "0" && (owner, code) in KeySet(db.plots, PlotCodeKey) && confirmed
    ensures r.Ok? ==> exists t :: t in db.plots && t.owner == owner && t.code == code
                                 && r.value == CascadePlot(db, t.uid)
  {
    match SelectPlot(db.plots, owner, code)
    case None => if code == "0" then Err(SelectionCancelled) else Err(NotFound)
    case Some(t) => if confirmed then Ok(CascadePlot(db, t.uid)) else Err(Declined)
  }

  lemma CascadePlotPreserves(db: Db, uid: Id)
    requires WellFormed(db) && Certified(db)
    ensures WellFormed(CascadePlot(db, uid)) && Certified(CascadePlot(db, uid))
    ensures uid !in PlotIds(CascadePlot(db, uid))
  {
    var r := CascadePlot(db, uid);
    DistinctFilter(db.plots, PlotKey, (t: Plot) => t.uid != uid);
    DistinctFilter(db.plots, PlotCodeKey, (t: Plot) => t.uid != uid);
    DistinctFilter(db.plantings, PlantingKey, (x: Planting) => x.plot != uid);
    DistinctFilter(db.inputs, InputKey, (x: InputRecord) => x.plot != uid);
    CascadePlotRefs(db, uid);
  }

  lemma CascadePlotRefs(db: Db, uid: Id)
    requires ReferencesResolve(db)
    ensures ReferencesResolve(CascadePlot(db, uid))
  {
    var r := CascadePlot(db, uid);
    assert ProducerIds(r) == ProducerIds(db);
    assert forall i :: 0 <= i < |r.certs| ==> r.certs[i].producer in ProducerIds(r);
    CascadePlotKeepsOwners(db, uid);
    CascadePlotKeepsRefs(db, uid);
  }

  lemma CascadePlotKeepsOwners(db: Db, uid: Id)
    requires ReferencesResolve(db)
    ensures var r := CascadePlot(db, uid);
            forall i :: 0 <= i < |r.plots| ==> r.plots[i].owner in ProducerIds(r)
  {
    var r := CascadePlot(db, uid);
    forall i | 0 <= i < |r.plots| ensures r.plots[i].owner in ProducerIds(r) {
      var j :| 0 <= j < |db.plots| && db.plots[j] == r.plots[i];
    }
  }

  /** A plot other than the deleted one is still there afterwards. */
  lemma OtherPlotSurvives(db: Db, uid: Id, k: Id)
    requires k in PlotIds(db) && k != uid
    ensures k in PlotIds(CascadePlot(db, uid))
  {
    var j :| 0 <= j < |db.plots| && db.plots[j].uid == k;
    CascadePlotKeepsOthers(db, uid);
    InKeySet(CascadePlot(db, uid).plots, PlotKey, db.plots[j]);
  }

  lemma CascadePlotKeepsRefs(db: Db, uid: Id)
    requires ReferencesResolve(db)
    ensures var r := CascadePlot(db, uid);
            && (forall i :: 0 <= i < |r.plantings| ==>
                  r.plantings[i].producer in ProducerIds(r) && r.plantings[i].plot in PlotIds(r))
            && (forall i :: 0 <= i < |r.inputs| ==>
                  r.inputs[i].producer in ProducerIds(r) && r.inputs[i].plot in PlotIds(r))
  {
    CascadePlotKeepsPlantingRefs(db, uid);
    CascadePlotKeepsInputRefs(db, uid);
  }

  lemma CascadePlotKeepsPlantingRefs(db: Db, uid: Id)
    requires ReferencesResolve(db)
    ensures var r := CascadePlot(db, uid);
            forall i :: 0 <= i < |r.plantings| ==>
              r.plantings[i].producer in ProducerIds(r) && r.plantings[i].plot in PlotIds(r)
  {
    var r := CascadePlot(db, uid);
    forall i | 0 <= i < |r.plantings|
      ensures r.plantings[i].producer in ProducerIds(r) && r.plantings[i].plot in PlotIds(r)
    {
      var j :| 0 <= j < |db.plantings| && db.plantings[j] == r.plantings[i];
      OtherPlotSurvives(db, uid, db.plantings[j].plot);
    }
  }

  lemma CascadePlotKeepsInputRefs(db: Db, uid: Id)
    requires ReferencesResolve(db)
    ensures var r := CascadePlot(db, uid);
            forall i :: 0 <= i < |r.inputs| ==>
              r.inputs[i].producer in ProducerIds(r) && r.inputs[i].plot in PlotIds(r)
  {
    var r := CascadePlot(db, uid);
    forall i | 0 <= i < |r.inputs|
      ensures r.inputs[i].producer in ProducerIds(r) && r.inputs[i].plot in PlotIds(r)
    {
      var j :| 0 <= j < |db.inputs| && db.inputs[j] == r.inputs[i];
      OtherPlotSurvives(db, uid, db.inputs[j].plot);
    }
  }

  // ---------------------------------------------------------------------------
  // Input records

  /** The ids of the input records `selecionar_insumo` lists: the producer's, joined with an existing plot. */
  function ListedInputs(db: Db, producer: Id): set<Id>
  {
    set i | 0 <= i < |db.inputs| && db.inputs[i].producer == producer && db.inputs[i].plot in PlotIds(db)
      :: db.inputs[i].id
  }

  /** `excluir_insumo`: a listed record of the producer, once confirmed, is the only row removed. */
  function DeleteInput(db: Db, producer: Id, id: Id, confirmed: bool): (r: Result<Db, Failure>)
    ensures r.Ok? <==> confirmed && exists i :: (&& 0 <= i < |db.inputs| && db.inputs[i].id == id
                                                 && db.inputs[i].producer == producer
                                                 && db.inputs[i].plot in PlotIds(db))
    ensures r.Ok? ==> r.value == db.(inputs := Filter(db.inputs, (x: InputRecord) => x.id != id))
    ensures r.Ok? ==> id !in KeySet(r.value.inputs, InputKey)
  {
    if id !in ListedInputs(db, producer) then Err(NotSelectable)
    else if !confirmed then Err(Declined)
    else
      var rest := Filter(db.inputs, (x: InputRecord) => x.id != id);
      assert id !in KeySet(rest, InputKey);
      Ok(db.(inputs := rest))
  }

  /** Removing an input record keeps every schema constraint and every producer's certification row. */
  lemma DeleteInputPreserves(db: Db, producer: Id, id: Id, confirmed: bool)
    requires WellFormed(db) && Certified(db) && DeleteInput(db, producer, id, confirmed).Ok?
    ensures WellFormed(DeleteInput(db, producer, id, confirmed).value)
    ensures Certified(DeleteInput(db, producer, id, confirmed).value)
  {
    var keep := (x: InputRecord) => x.id != id;
    var r := DeleteInput(db, producer, id, confirmed).value;
    assert r == db.(inputs := Filter(db.inputs, keep));
    DistinctFilter(db.inputs, InputKey, keep);
    assert KeysDistinct(r);
    assert ProducerIds(r) == ProducerIds(db) && PlotIds(r) == PlotIds(db);
    FilterKeepsRefs(db.inputs, keep, (x: InputRecord) => x.producer, ProducerIds(db));
    FilterKeepsRefs(db.inputs, keep, (x: InputRecord) => x.plot, PlotIds(db));
    assert forall i :: 0 <= i < |r.inputs| ==> r.inputs[i].producer in ProducerIds(r) && r.inputs[i].plot in PlotIds(r);
  }

  // ---------------------------------------------------------------------------
  // Demands

  /**
   * `registrar_demanda`: a need date before today is refused (asked again), then crop,
   * quantity and unit are all required; the row is stamped with today's date, as the
   * column's `DEFAULT SYSDATE` does.
   */
  function RegisterDemand(db: Db, id: Id, crop: string, quantity: Option<Quantity>, unit: string,
                          needed: Dates.Date, notes: Option<string>, today: Dates.Date): (r: Result<Db, Failure>)
    ensures Dates.Before(needed, today) ==> r == Err(PastNeedDate)
    ensures !Dates.Before(needed, today) && (crop == [] || quantity.None? || unit == []) ==> r == Err(MissingField)
    ensures r.Ok? <==> && !Dates.Before(needed, today) && crop != [] && quantity.Some? && unit != []
                       && id !in KeySet(db.demands, DemandKey)
    ensures r.Ok? ==> r.value == db.(demands := db.demands + [Demand(id, crop, quantity.value, unit, needed, notes, Some(today))])
  {
    if Dates.Before(needed, today) then Err(PastNeedDate)
    else if crop == [] || quantity.None? || unit == [] then Err(MissingField)
    else if id in KeySet(db.demands, DemandKey) then Err(KeyViolation)
    else Ok(db.(demands := db.demands + [Demand(id, crop, quantity.value, unit, needed, notes, Some(today))]))
  }

  lemma RegisterDemandPreserves(db: Db, id: Id, crop: string, quantity: Option<Quantity>, unit: string,
                                needed: Dates.Date, notes: Option<string>, today: Dates.Date)
    requires WellFormed(db) && Certified(db)
    requires RegisterDemand(db, id, crop, quantity, unit, needed, notes, today).Ok?
    ensures WellFormed(RegisterDemand(db, id, crop, quantity, unit, needed, notes, today).value)
    ensures Certified(RegisterDemand(db, id, crop, quantity, unit, needed, notes, today).value)
  {
    DistinctAppend(db.demands, DemandKey, Demand(id, crop, quantity.value, unit, needed, notes, Some(today)));
  }

  /** `excluir_demanda`: a listed demand, once confirmed, is the only row removed. */
  function DeleteDemand(db: Db, id: Id, confirmed: bool): (r: Result<Db, Failure>)
    ensures r.Ok? <==> confirmed && id in KeySet(db.demands, DemandKey)
    ensures r.Ok? ==> r.value == db.(demands := Filter(db.demands, (d: Demand) => d.id != id))
    ensures r.Ok? ==> id !in KeySet(r.value.demands, DemandKey)
  {
    if id !in KeySet(db.demands, DemandKey) then Err(NotSelectable)
    else if !confirmed then Err(Declined)
    else
      var rest := Filter(db.demands, (d: Demand) => d.id != id);
      assert id !in KeySet(rest, DemandKey);
      Ok(db.(demands := rest))
  }

  /** Removing a demand keeps every schema constraint and every producer's certification row. */
  lemma DeleteDemandPreserves(db: Db, id: Id, confirmed: bool)
    requires WellFormed(db) && Certified(db) && DeleteDemand(db, id, confirmed).Ok?
    ensures WellFormed(DeleteDemand(db, id, confirmed).value)
    ensures Certified(DeleteDemand(db, id, confirmed).value)
  {
    var keep := (d: Demand) => d.id != id;
    var r := DeleteDemand(db, id, confirmed).value;
    assert r == db.(demands := Filter(db.demands, keep));
    DistinctFilter(db.demands, DemandKey, keep);
    assert KeysDistinct(r);
    assert ReferencesResolve(r) by {
      assert ProducerIds(r) == ProducerIds(db) && PlotIds(r) == PlotIds(db);
    }
  }
}
