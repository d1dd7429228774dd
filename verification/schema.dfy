/**
 * The six tables the program keeps in Oracle, as rows in storage order, and the constraints
 * their `CREATE TABLE` statements declare: primary keys, the per-producer uniqueness of plot
 * codes, the foreign keys, the status domain and the 0/1 certification flags.
 */
module Schema {
  import opened Common
  import opened Dates

  /** Every key column holds text (`VARCHAR2`): typed codes, CPF/CNPJ numbers or `uuid4` texts. */
  type Id = string

  /** A `NUMBER` column (area, harvested or demanded quantity) the program stores and shows but never computes with. */
  datatype Quantity = Quantity(repr: string)

  /** The values the `status` CHECK constraint admits. */
  datatype Status = Planned | Available | Sold | Cancelled

  function StatusName(s: Status): string
  {
    match s
    case Planned => "Planejado"
    case Available => "Dispon\U{00ED}vel"
    case Sold => "Vendido"
    case Cancelled => "Cancelado"
  }

  /** The CHECK constraint on `status`: the texts it lets through, read back as a `Status`. */
  function ParseStatus(t: string): (r: Option<Status>)
    ensures r.Some? ==> StatusName(r.value) == t
  {
    if t == "Planejado" then Some(Planned)
    else if t == "Dispon\U{00ED}vel" then Some(Available)
    else if t == "Vendido" then Some(Sold)
    else if t == "Cancelado" then Some(Cancelled)
    else None
  }

  /** The CHECK constraint admits exactly the four status names, each naming one status. */
  lemma StatusNames(t: string, s: Status)
    ensures ParseStatus(t) == Some(s) <==> t == StatusName(s)
  {
  }

  /** A row of PRODUTORES. */
  datatype Producer = Producer(
    id: Id, name: string, location: Option<string>, contact: Option<string>, association: Option<string>)

  /** A row of TALHOES: `uid` is the system key, `code` the producer's own name for the plot. */
  datatype Plot = Plot(uid: Id, owner: Id, code: string, area: Option<Quantity>, soil: Option<string>)

  /** A row of PLANTIOS_PRODUTOS. */
  datatype Planting = Planting(
    id: Id, producer: Id, plot: Id, crop: string,
    planted: Option<Date>, expected: Option<Date>, harvested: Option<Date>,
    quantity: Option<Quantity>, unit: Option<string>,
    status: Status, notes: Option<string>, previousCrop: Option<string>)

  /** A row of REGISTROS_INSUMOS. */
  datatype InputRecord = InputRecord(
    id: Id, producer: Id, plot: Id, applied: Option<Date>,
    kind: Option<string>, amount: Option<string>, notes: Option<string>)

  /** A row of STATUS_CERTIFICACAO: the overall flag and the three stage flags, as stored numbers. */
  datatype CertRow = CertRow(producer: Id, certified: int, documentation: int, inspection: int, approval: int)

  /** A row of DEMANDAS. */
  datatype Demand = Demand(
    id: Id, crop: string, quantity: Quantity, unit: string, needed: Date,
    notes: Option<string>, registeredOn: Option<Date>)

  datatype Db = Db(
    producers: seq<Producer>, plots: seq<Plot>, plantings: seq<Planting>,
    inputs: seq<InputRecord>, certs: seq<CertRow>, demands: seq<Demand>)

  // Keys

  function ProducerKey(p: Producer): Id { p.id }
  function PlotKey(t: Plot): Id { t.uid }
  /** The UNIQUE (id_produtor, id_talhao_produtor) constraint's key. */
  function PlotCodeKey(t: Plot): (Id, string) { (t.owner, t.code) }
  function PlantingKey(x: Planting): Id { x.id }
  function InputKey(x: InputRecord): Id { x.id }
  function CertKey(c: CertRow): Id { c.producer }
  function DemandKey(d: Demand): Id { d.id }

  function ProducerIds(db: Db): set<Id> { KeySet(db.producers, ProducerKey) }
  function PlotIds(db: Db): set<Id> { KeySet(db.plots, PlotKey) }

  predicate IsFlag(n: int) { n == 0 || n == 1 }

  predicate FlagsOk(c: CertRow)
  {
    IsFlag(c.certified) && IsFlag(c.documentation) && IsFlag(c.inspection) && IsFlag(c.approval)
  }

  predicate KeysDistinct(db: Db)
  {
    && Distinct(db.producers, ProducerKey)
    && Distinct(db.plots, PlotKey)
    && Distinct(db.plots, PlotCodeKey)
    && Distinct(db.plantings, PlantingKey)
    && Distinct(db.inputs, InputKey)
    && Distinct(db.certs, CertKey)
    && Distinct(db.demands, DemandKey)
  }

  /** Every REFERENCES clause: each child row names an existing parent row. */
  predicate ReferencesResolve(db: Db)
  {
    && (forall i :: 0 <= i < |db.plots| ==> db.plots[i].owner in ProducerIds(db))
    && (forall i :: 0 <= i < |db.plantings| ==>
          db.plantings[i].producer in ProducerIds(db) && db.plantings[i].plot in PlotIds(db))
    && (forall i :: 0 <= i < |db.inputs| ==>
          db.inputs[i].producer in ProducerIds(db) && db.inputs[i].plot in PlotIds(db))
    && (forall i :: 0 <= i < |db.certs| ==> db.certs[i].producer in ProducerIds(db))
  }

  /** The CHECK constraints on the certification flags. */
  predicate FlagsValid(db: Db)
  {
    forall i :: 0 <= i < |db.certs| ==> FlagsOk(db.certs[i])
  }

  /** A state the schema admits. */
  predicate WellFormed(db: Db)
  {
    KeysDistinct(db) && ReferencesResolve(db) && FlagsValid(db)
  }

  /** What the program adds to the schema: every producer it registers has a certification row. */
  predicate Certified(db: Db)
  {
    forall i :: 0 <= i < |db.producers| ==> db.producers[i].id in KeySet(db.certs, CertKey)
  }

  /** Why an operation wrote nothing. */
  datatype Failure =
    | DuplicateProducer        // the typed producer id exists: the source asks again
    | DuplicatePlotCode        // the producer already has a plot with that code: asks again
    | KeyViolation             // a PRIMARY KEY or UNIQUE constraint refused the insert
    | ReferenceViolation       // a REFERENCES constraint refused the insert
    | NotFound                 // no row to act on (zero rows affected, or nothing loaded)
    | NotSelectable            // the row is not in the list the user picks from
    | Declined                 // the user answered N to a confirmation
    | SelectionCancelled       // the user answered 0 to a selection prompt
    | MissingField             // a required answer is absent
    | PlantingDateOutOfWindow  // planting date earlier than two days ago, or in the future
    | ExpectedNotAfterPlanting // expected harvest on or before the planting date
    | HarvestBeforePlanting    // actual harvest before the planting date
    | PastNeedDate             // a demand needed before today
    | InvalidStage             // a stage number outside 1..3
}
