/**
 * `gerenciar_certificacao` in `crud_operations.py`: option `C` sets the overall certified flag
 * to the user's answer, option `M` flips one chosen stage. Both act on the producer's row of
 * STATUS_CERTIFICACAO and nothing else.
 */
module Certification {
  import opened Common
  import opened Schema

  /** The three stages, in the order the menu numbers them. */
  datatype Stage = Documentation | Inspection | Approval

  /** The stage a typed menu number picks; numbers outside 1..3 are refused. */
  function StageOf(n: int): (r: Option<Stage>)
    ensures r.Some? <==> 1 <= n <= 3
    ensures r == Some(Documentation) <==> n == 1
    ensures r == Some(Inspection) <==> n == 2
    ensures r == Some(Approval) <==> n == 3
  {
    if n == 1 then Some(Documentation)
    else if n == 2 then Some(Inspection)
    else if n == 3 then Some(Approval)
    else None
  }

  /** The label the stage carries on screen and in the loaded certification view. */
  function StageName(s: Stage): string
  {
    match s
    case Documentation => "Documenta\U{00E7}\U{00E3}o"
    case Inspection => "Inspe\U{00E7}\U{00E3}o"
    case Approval => "Aprova\U{00E7}\U{00E3}o"
  }

  /** The stored number of a stage's column. */
  function StageFlag(c: CertRow, s: Stage): int
  {
    match s
    case Documentation => c.documentation
    case Inspection => c.inspection
    case Approval => c.approval
  }

  /** The row with one stage column set to `v`. */
  function WithStage(c: CertRow, s: Stage, v: int): (r: CertRow)
    ensures StageFlag(r, s) == v
    ensures forall t: Stage :: t != s ==> StageFlag(r, t) == StageFlag(c, t)
    ensures r.producer == c.producer && r.certified == c.certified
  {
    match s
    case Documentation => c.(documentation := v)
    case Inspection => c.(inspection := v)
    case Approval => c.(approval := v)
  }

  /** `not bool(x)`, written back as `1` or `0`. */
  function Negated(x: int): (r: int)
    ensures IsFlag(r) && ((r != 0) <==> (x == 0))
  {
    if x == 0 then 1 else 0
  }

  /** The stage flipped in the row of one producer. */
  function Toggled(producer: Id, s: Stage): CertRow -> CertRow
  {
    (c: CertRow) => WithStage(c, s, Negated(StageFlag(c, s)))
  }

  function OfProducer(producer: Id): CertRow -> bool
  {
    (c: CertRow) => c.producer == producer
  }

  /**
   * Option `M` with stage number `n`: the chosen stage of the producer's row reads as the
   * opposite of what it read before, and every other flag and row is left as it was.
   */
  function ToggleStage(db: Db, producer: Id, n: int): (r: Result<Db, Failure>)
    ensures producer !in KeySet(db.certs, CertKey) ==> r == Err(NotFound)
    ensures r.Ok? <==> producer in KeySet(db.certs, CertKey) && 1 <= n <= 3
    ensures r.Ok? ==> r.value == db.(certs := r.value.certs) && |r.value.certs| == |db.certs|
    ensures r.Ok? ==> forall i :: 0 <= i < |db.certs| ==>
              var before, after := db.certs[i], r.value.certs[i];
              if before.producer == producer then
                && after.producer == before.producer && after.certified == before.certified
                && ((StageFlag(after, StageOf(n).value) != 0) <==> (StageFlag(before, StageOf(n).value) == 0))
                && (forall t: Stage :: t != StageOf(n).value ==> StageFlag(after, t) == StageFlag(before, t))
              else after == before
  {
    if producer !in KeySet(db.certs, CertKey) then Err(NotFound)
    else match StageOf(n)
      case None => Err(InvalidStage)
      case Some(s) => Ok(db.(certs := Update(db.certs, OfProducer(producer), Toggled(producer, s))))
  }

  /**
   * Option `C` with answer `answer`: the overall flag of the producer's row becomes `1` or `0`,
   * whatever the stages say, and nothing else changes.
   */
  function SetCertified(db: Db, producer: Id, answer: bool): (r: Result<Db, Failure>)
    ensures r.Ok? <==> producer in KeySet(db.certs, CertKey)
    ensures r.Ok? ==> r.value == db.(certs := r.value.certs) && |r.value.certs| == |db.certs|
    ensures r.Ok? ==> forall i :: 0 <= i < |db.certs| ==>
              var before, after := db.certs[i], r.value.certs[i];
              if before.producer == producer then
                after == before.(certified := if answer then 1 else 0)
              else after == before
  {
    if producer !in KeySet(db.certs, CertKey) then Err(NotFound)
    else Ok(db.(certs := Update(db.certs, OfProducer(producer),
                                (c: CertRow) => c.(certified := if answer then 1 else 0))))
  }

  lemma ToggleStagePreserves(db: Db, producer: Id, n: int)
    requires WellFormed(db) && Certified(db) && ToggleStage(db, producer, n).Ok?
    ensures WellFormed(ToggleStage(db, producer, n).value)
    ensures Certified(ToggleStage(db, producer, n).value)
  {
    var s := StageOf(n).value;
    DistinctUpdate(db.certs, CertKey, OfProducer(producer), Toggled(producer, s));
    CertKeysKept(db, ToggleStage(db, producer, n).value);
    var r := ToggleStage(db, producer, n).value;
    forall i | 0 <= i < |r.certs| ensures FlagsOk(r.certs[i]) {
      if db.certs[i].producer == producer {
        assert IsFlag(StageFlag(r.certs[i], s));
        assert FlagsOk(db.certs[i]);
        StagesAreFlags(db.certs[i], r.certs[i], s);
      }
    }
  }

  /** A row whose other columns are kept and whose chosen stage is a flag has only flags. */
  lemma StagesAreFlags(before: CertRow, after: CertRow, s: Stage)
    requires FlagsOk(before) && IsFlag(StageFlag(after, s)) && after.certified == before.certified
    requires forall t: Stage :: t != s ==> StageFlag(after, t) == StageFlag(before, t)
    ensures FlagsOk(after)
  {
    assert StageFlag(after, Documentation) == after.documentation;
    assert StageFlag(after, Inspection) == after.inspection;
    assert StageFlag(after, Approval) == after.approval;
  }

  /** A change to the certification rows alone, keeping their producers, keeps the other invariants. */
  lemma CertKeysKept(db: Db, db': Db)
    requires WellFormed(db) && Certified(db)
    requires db' == db.(certs := db'.certs) && |db'.certs| == |db.certs|
    requires forall i :: 0 <= i < |db.certs| ==> db'.certs[i].producer == db.certs[i].producer
    ensures KeySet(db'.certs, CertKey) == KeySet(db.certs, CertKey)
    ensures Distinct(db'.certs, CertKey) && Certified(db') && ReferencesResolve(db')
  {
    forall k | k in KeySet(db'.certs, CertKey) ensures k in KeySet(db.certs, CertKey) {
      var i :| 0 <= i < |db'.certs| && db'.certs[i].producer == k;
      assert db.certs[i].producer == k;
    }
    forall k | k in KeySet(db.certs, CertKey) ensures k in KeySet(db'.certs, CertKey) {
      var i :| 0 <= i < |db.certs| && db.certs[i].producer == k;
      assert db'.certs[i].producer == k;
    }
    forall i, j | 0 <= i < j < |db'.certs| ensures db'.certs[i].producer != db'.certs[j].producer {
      assert db.certs[i].producer != db.certs[j].producer;
    }
  }

  lemma SetCertifiedPreserves(db: Db, producer: Id, answer: bool)
    requires WellFormed(db) && Certified(db) && SetCertified(db, producer, answer).Ok?
    ensures WellFormed(SetCertified(db, producer, answer).value)
    ensures Certified(SetCertified(db, producer, answer).value)
  {
    var r := SetCertified(db, producer, answer).value;
    CertKeysKept(db, r);
    forall i | 0 <= i < |r.certs| ensures FlagsOk(r.certs[i]) {
      assert FlagsOk(db.certs[i]);
    }
  }

  /** Flipping the same stage twice gives back the state it started from. */
  lemma ToggleTwice(db: Db, producer: Id, n: int)
    requires FlagsValid(db) && ToggleStage(db, producer, n).Ok?
    ensures ToggleStage(ToggleStage(db, producer, n).value, producer, n) == Ok(db)
  {
    var once := ToggleStage(db, producer, n).value;
    var twice := ToggleStage(once, producer, n);
    var s := StageOf(n).value;
    assert producer in KeySet(once.certs, CertKey) by {
      var i :| 0 <= i < |db.certs| && db.certs[i].producer == producer;
      assert once.certs[i].producer == producer;
    }
    forall i | 0 <= i < |db.certs| ensures twice.value.certs[i] == db.certs[i] {
      if db.certs[i].producer == producer {
        assert FlagsOk(db.certs[i]);
        SameStages(db.certs[i], twice.value.certs[i]);
      }
    }
    assert twice.value.certs == db.certs;
  }

  /** Two rows that agree on producer, overall flag and every stage are the same row. */
  lemma SameStages(a: CertRow, b: CertRow)
    requires a.producer == b.producer && a.certified == b.certified
    requires forall t: Stage :: StageFlag(a, t) == StageFlag(b, t)
    ensures a == b
  {
    assert StageFlag(a, Documentation) == StageFlag(b, Documentation);
    assert StageFlag(a, Inspection) == StageFlag(b, Inspection);
    assert StageFlag(a, Approval) == StageFlag(b, Approval);
  }

  /** The producer's row is still there after the answer is written. */
  lemma SetCertifiedKeepsRow(db: Db, producer: Id, answer: bool)
    requires SetCertified(db, producer, answer).Ok?
    ensures producer in KeySet(SetCertified(db, producer, answer).value.certs, CertKey)
  {
    var once := SetCertified(db, producer, answer).value;
    var i :| 0 <= i < |db.certs| && db.certs[i].producer == producer;
    assert once.certs[i].producer == producer;
  }

  /** Giving the same answer twice is the same as giving it once. */
  lemma SetCertifiedIdempotent(db: Db, producer: Id, answer: bool)
    requires SetCertified(db, producer, answer).Ok?
    ensures SetCertified(SetCertified(db, producer, answer).value, producer, answer)
         == SetCertified(db, producer, answer)
  {
    var once := SetCertified(db, producer, answer).value;
    SetCertifiedKeepsRow(db, producer, answer);
    var twice := SetCertified(once, producer, answer).value;
    forall i | 0 <= i < |once.certs| ensures twice.certs[i] == once.certs[i] {
      assert once.certs[i].producer == db.certs[i].producer;
    }
    assert twice.certs == once.certs;
  }
}
