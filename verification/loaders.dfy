/**
 * The loaders of `database.py`, which turn the rows of a table into the dictionaries the
 * reports read, and the start-up step that creates the missing tables. A loader that has no
 * connection or meets a database error returns an empty result; `Fetch` carries that choice.
 */
module Loaders {
  import opened Common
  import opened Dates
  import opened Sorting
  import opened Schema
  import opened Certification

  /** What a `SELECT` gave the loader: the store as read, or nothing (no connection, or an error). */
  datatype Fetch<T> = Fetched(rows: T) | Failed

  /**
   * A dictionary built row by row, later rows overwriting earlier ones under the same key,
   * starting from `m`.
   */
  function Index<T, K, V>(xs: seq<T>, key: T -> K, val: T -> V, m: map<K, V>): map<K, V>
    decreases |xs|
  {
    if |xs| == 0 then m else Index(xs[1..], key, val, m[key(xs[0]) := val(xs[0])])
  }

  /** The dictionary's keys are the starting keys and the keys of the rows. */
  lemma {:induction false} IndexKeys<T, K, V>(xs: seq<T>, key: T -> K, val: T -> V, m: map<K, V>)
    ensures Index(xs, key, val, m).Keys == m.Keys + KeySet(xs, key)
    decreases |xs|
  {
    if |xs| > 0 {
      IndexKeys(xs[1..], key, val, m[key(xs[0]) := val(xs[0])]);
      assert xs == [xs[0]] + xs[1..];
      KeySetCons(xs[0], xs[1..], key);
    }
  }

  /** A starting entry no row overwrites is kept. */
  lemma {:induction false} IndexOutside<T, K, V>(xs: seq<T>, key: T -> K, val: T -> V, m: map<K, V>, k: K)
    requires k in m && k !in KeySet(xs, key)
    ensures k in Index(xs, key, val, m) && Index(xs, key, val, m)[k] == m[k]
    decreases |xs|
  {
    if |xs| > 0 {
      assert xs == [xs[0]] + xs[1..];
      KeySetCons(xs[0], xs[1..], key);
      IndexOutside(xs[1..], key, val, m[key(xs[0]) := val(xs[0])], k);
    }
  }

  /** When the keys are distinct, every row is found under its own key. */
  lemma {:induction false} IndexFinds<T, K, V>(xs: seq<T>, key: T -> K, val: T -> V, m: map<K, V>, i: int)
    requires Distinct(xs, key) && 0 <= i < |xs|
    ensures key(xs[i]) in Index(xs, key, val, m) && Index(xs, key, val, m)[key(xs[i])] == val(xs[i])
    decreases |xs|
  {
    DistinctHead(xs, key);
    var m' := m[key(xs[0]) := val(xs[0])];
    if i == 0 {
      IndexOutside(xs[1..], key, val, m', key(xs[0]));
    } else {
      assert xs[i] == xs[1..][i - 1];
      IndexFinds(xs[1..], key, val, m', i - 1);
    }
  }

  // ---------------------------------------------------------------------------
  // Producers and their plots

  /** A plot as the loader keeps it: the row without its `id_produtor` column. */
  datatype PlotView = PlotView(uid: Id, code: string, area: Option<Quantity>, soil: Option<string>)

  /** A producer as the loader keeps it: the row and a `talhoes` dictionary keyed by plot code. */
  datatype ProducerView = ProducerView(info: Producer, plots: map<string, PlotView>)

  function PlotViewOf(t: Plot): PlotView
  {
    PlotView(t.uid, t.code, t.area, t.soil)
  }

  function FreshView(p: Producer): ProducerView
  {
    ProducerView(p, map[])
  }

  function PlotCode(t: Plot): string
  {
    t.code
  }

  function OwnedBy(owner: Id): Plot -> bool
  {
    (t: Plot) => t.owner == owner
  }

  /** The plot loop: a plot is attached under its owner's code when the owner was loaded, and dropped otherwise. */
  function AttachPlots(tree: map<Id, ProducerView>, plots: seq<Plot>): map<Id, ProducerView>
    decreases |plots|
  {
    if |plots| == 0 then tree
    else
      var t := plots[0];
      var tree' := if t.owner in tree
                   then tree[t.owner := tree[t.owner].(plots := tree[t.owner].plots[t.code := PlotViewOf(t)])]
                   else tree;
      AttachPlots(tree', plots[1..])
  }

  /** The plot loop, read per owner: each loaded owner's dictionary gets that owner's plots, in order. */
  lemma {:induction false} AttachPlotsPerOwner(tree: map<Id, ProducerView>, plots: seq<Plot>, o: Id)
    requires o in tree
    ensures AttachPlots(tree, plots).Keys == tree.Keys
    ensures AttachPlots(tree, plots)[o]
         == tree[o].(plots := Index(Filter(plots, OwnedBy(o)), PlotCode, PlotViewOf, tree[o].plots))
    decreases |plots|
  {
    if |plots| > 0 {
      var t := plots[0];
      var tree' := if t.owner in tree
                   then tree[t.owner := tree[t.owner].(plots := tree[t.owner].plots[t.code := PlotViewOf(t)])]
                   else tree;
      AttachPlotsPerOwner(tree', plots[1..], o);
      var rest := Filter(plots[1..], OwnedBy(o));
      if t.owner == o {
        assert Filter(plots, OwnedBy(o)) == [t] + rest;
        assert ([t] + rest)[1..] == rest;
      } else {
        assert Filter(plots, OwnedBy(o)) == rest;
      }
    }
  }

  /** `carregar_produtores_talhoes` on a successful read. */
  function ProducerTree(db: Db): map<Id, ProducerView>
  {
    AttachPlots(Index(db.producers, ProducerKey, FreshView, map[]), db.plots)
  }

  /**
   * `carregar_produtores_talhoes`: `{}` when the read fails; otherwise one entry per producer
   * id, holding that producer's row and its plots keyed by their producer-scoped code.
   */
  function LoadProducerTree(f: Fetch<Db>): (r: map<Id, ProducerView>)
    ensures f.Failed? ==> r == map[]
    ensures f.Fetched? ==> r.Keys == ProducerIds(f.rows)
    ensures f.Fetched? ==> forall o :: o in r ==>
              && r[o].info.id == o
              && r[o].plots == Index(Filter(f.rows.plots, OwnedBy(o)), PlotCode, PlotViewOf, map[])
    ensures f.Fetched? && Distinct(f.rows.producers, ProducerKey) ==>
              forall i :: 0 <= i < |f.rows.producers| ==> r[f.rows.producers[i].id].info == f.rows.producers[i]
  {
    match f
    case Failed => map[]
    case Fetched(db) =>
      var t := ProducerTree(db);
      ProducerTreeShape(db, []);
      assert forall o :: o in t ==>
               && t[o].info.id == o
               && t[o].plots == Index(Filter(db.plots, OwnedBy(o)), PlotCode, PlotViewOf, map[]) by {
        forall o | o in t
          ensures t[o].info.id == o
          ensures t[o].plots == Index(Filter(db.plots, OwnedBy(o)), PlotCode, PlotViewOf, map[])
        {
          ProducerTreeShape(db, o);
        }
      }
      assert Distinct(db.producers, ProducerKey) ==>
               forall i :: 0 <= i < |db.producers| ==> t[db.producers[i].id].info == db.producers[i] by {
        if Distinct(db.producers, ProducerKey) {
          forall i | 0 <= i < |db.producers| ensures t[db.producers[i].id].info == db.producers[i] {
            ProducerRowFound(db, i);
          }
        }
      }
      t
  }

  /**
   * The tree's shape: one entry per producer id, holding that producer's row and, keyed by
   * code, its plots (a later row with the same code overwriting an earlier one).
   */
  lemma ProducerTreeShape(db: Db, o: Id)
    ensures ProducerTree(db).Keys == ProducerIds(db)
    ensures o in ProducerIds(db) ==>
              && ProducerTree(db)[o].info.id == o
              && ProducerTree(db)[o].plots == Index(Filter(db.plots, OwnedBy(o)), PlotCode, PlotViewOf, map[])
  {
    var base := Index(db.producers, ProducerKey, FreshView, map[]);
    IndexKeys(db.producers, ProducerKey, FreshView, map[]);
    if o in ProducerIds(db) {
      ProducerRowUnder(db.producers, map[], o);
      AttachPlotsPerOwner(base, db.plots, o);
    } else if |db.producers| > 0 {
      AttachPlotsPerOwner(base, db.plots, db.producers[0].id);
    } else {
      assert base == map[];
      EmptyTreeStays(db.plots);
    }
  }

  lemma {:induction false} EmptyTreeStays(plots: seq<Plot>)
    ensures AttachPlots(map[], plots) == map[]
    decreases |plots|
  {
    if |plots| > 0 {
      EmptyTreeStays(plots[1..]);
    }
  }

  /** Every entry of the producer dictionary holds a row with that id and no plots yet. */
  lemma {:induction false} ProducerRowUnder(ps: seq<Producer>, m: map<Id, ProducerView>, o: Id)
    requires forall k :: k in m ==> m[k].info.id == k && m[k].plots == map[]
    requires o in m || o in KeySet(ps, ProducerKey)
    ensures o in Index(ps, ProducerKey, FreshView, m)
    ensures Index(ps, ProducerKey, FreshView, m)[o].info.id == o
    ensures Index(ps, ProducerKey, FreshView, m)[o].plots == map[]
    decreases |ps|
  {
    if |ps| > 0 {
      assert ps == [ps[0]] + ps[1..];
      KeySetCons(ps[0], ps[1..], ProducerKey);
      ProducerRowUnder(ps[1..], m[ps[0].id := FreshView(ps[0])], o);
    }
  }

  /** Under the schema's keys, each producer row and each plot row is found where the reports look for it. */
  lemma ProducerTreeFinds(db: Db, i: int, j: int)
    requires Distinct(db.producers, ProducerKey) && Distinct(db.plots, PlotCodeKey)
    requires 0 <= i < |db.producers| && 0 <= j < |db.plots| && db.plots[j].owner == db.producers[i].id
    ensures db.producers[i].id in ProducerTree(db)
    ensures ProducerTree(db)[db.producers[i].id].info == db.producers[i]
    ensures db.plots[j].code in ProducerTree(db)[db.producers[i].id].plots
    ensures ProducerTree(db)[db.producers[i].id].plots[db.plots[j].code] == PlotViewOf(db.plots[j])
  {
    var o := db.producers[i].id;
    var base := Index(db.producers, ProducerKey, FreshView, map[]);
    IndexFinds(db.producers, ProducerKey, FreshView, map[], i);
    AttachPlotsPerOwner(base, db.plots, o);
    var mine := Filter(db.plots, OwnedBy(o));
    DistinctFilter(db.plots, PlotCodeKey, OwnedBy(o));
    assert Distinct(mine, PlotCode) by {
      forall a, b | 0 <= a < b < |mine| ensures PlotCode(mine[a]) != PlotCode(mine[b]) {
        assert PlotCodeKey(mine[a]) != PlotCodeKey(mine[b]);
      }
    }
    var k :| 0 <= k < |mine| && mine[k] == db.plots[j];
    IndexFinds(mine, PlotCode, PlotViewOf, base[o].plots, k);
  }

  /** Under the primary key, each producer's entry holds that producer's own row. */
  lemma ProducerRowFound(db: Db, i: int)
    requires Distinct(db.producers, ProducerKey) && 0 <= i < |db.producers|
    ensures db.producers[i].id in ProducerTree(db)
    ensures ProducerTree(db)[db.producers[i].id].info == db.producers[i]
  {
    var base := Index(db.producers, ProducerKey, FreshView, map[]);
    IndexFinds(db.producers, ProducerKey, FreshView, map[], i);
    AttachPlotsPerOwner(base, db.plots, db.producers[i].id);
  }

  /** A plot whose owner was not loaded appears nowhere in the tree. */
  lemma OrphanPlotDropped(db: Db, o: Id)
    requires o !in ProducerIds(db)
    ensures o !in ProducerTree(db)
  {
    ProducerTreeShape(db, o);
  }

  // ---------------------------------------------------------------------------
  // Certification

  /** A certification row as loaded: the overall flag and a dictionary of stage flags by stage name. */
  datatype CertView = CertView(certified: bool, stages: map<string, bool>)

  function CertViewOf(c: CertRow): CertView
  {
    CertView(c.certified != 0,
             map[StageName(Documentation) := c.documentation != 0,
                 StageName(Inspection) := c.inspection != 0,
                 StageName(Approval) := c.approval != 0])
  }

  /** `carregar_status_certificacao`: one entry per producer row, or `{}` when the read fails. */
  function LoadCertifications(f: Fetch<Db>): (r: map<Id, CertView>)
    ensures f.Failed? ==> r == map[]
    ensures f.Fetched? ==> r.Keys == KeySet(f.rows.certs, CertKey)
  {
    match f
    case Failed => map[]
    case Fetched(db) =>
      IndexKeys(db.certs, CertKey, CertViewOf, map[]);
      Index(db.certs, CertKey, CertViewOf, map[])
  }

  /** Each loaded flag is true exactly when the stored number is not zero, stage by stage. */
  lemma CertificationsRead(db: Db, i: int, s: Stage)
    requires Distinct(db.certs, CertKey) && 0 <= i < |db.certs|
    ensures var m := LoadCertifications(Fetched(db));
            var c := db.certs[i];
            && c.producer in m
            && (m[c.producer].certified <==> c.certified != 0)
            && StageName(s) in m[c.producer].stages
            && (m[c.producer].stages[StageName(s)] <==> StageFlag(c, s) != 0)
  {
    IndexFinds(db.certs, CertKey, CertViewOf, map[], i);
    assert StageName(Documentation) != StageName(Inspection);
    assert StageName(Documentation) != StageName(Approval);
    assert StageName(Inspection) != StageName(Approval);
  }

  // ---------------------------------------------------------------------------
  // Demands

  function NeededKey(d: Demand): int
  {
    Ordinal(d.needed)
  }

  /** `carregar_demandas`: every demand, ordered by the date it is needed; `[]` when the read fails. */
  function LoadDemands(f: Fetch<Db>): (r: seq<Demand>)
    ensures f.Failed? ==> r == []
    ensures f.Fetched? ==> multiset(r) == multiset(f.rows.demands)
    ensures forall i, j :: 0 <= i < j < |r| ==> NeededKey(r[i]) <= NeededKey(r[j])
  {
    match f
    case Failed => []
    case Fetched(db) => SortByKey(db.demands, NeededKey)
  }

  /** Loaded demands are in calendar order of the date they are needed. */
  lemma DemandsInOrder(f: Fetch<Db>, i: int, j: int)
    requires 0 <= i < j < |LoadDemands(f)|
    ensures NotAfter(LoadDemands(f)[i].needed, LoadDemands(f)[j].needed)
  {
    OrdinalOrder(LoadDemands(f)[i].needed, LoadDemands(f)[j].needed);
  }

  // ---------------------------------------------------------------------------
  // Tables

  /** The tables the program needs, in the order it checks them. */
  const RequiredTables: seq<string> :=
    ["PRODUTORES", "TALHOES", "PLANTIOS_PRODUTOS", "REGISTROS_INSUMOS", "STATUS_CERTIFICACAO", "DEMANDAS"]

  function Absent(existing: set<string>): string -> bool
  {
    (name: string) => name !in existing
  }

  /**
   * `criar_tabelas_se_nao_existir`: the `CREATE TABLE` statements it runs, given the names in
   * `user_tables` (none when that query fails).
   */
  function Bootstrap(existing: Fetch<set<string>>): (created: seq<string>)
    ensures existing.Failed? ==> created == []
    ensures existing.Fetched? ==> forall t :: t in created <==> t in RequiredTables && t !in existing.rows
  {
    match existing
    case Failed => []
    case Fetched(names) => Filter(RequiredTables, Absent(names))
  }

  /** After one start-up, a second one creates nothing. */
  lemma BootstrapTwice(existing: set<string>, after: set<string>)
    requires forall t :: t in after <==> t in existing || t in Bootstrap(Fetched(existing))
    ensures Bootstrap(Fetched(after)) == []
  {
  }

  /** Each required table is created at most once. */
  lemma BootstrapNoRepeat(existing: set<string>)
    ensures var created := Bootstrap(Fetched(existing));
            forall i, j :: 0 <= i < j < |created| ==> created[i] != created[j]
  {
    assert Distinct(RequiredTables, (t: string) => t);
    DistinctFilter(RequiredTables, (t: string) => t, Absent(existing));
  }
}
