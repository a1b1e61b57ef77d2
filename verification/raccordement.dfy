/**
 * raccordement-electrique.py and raccordement-electrique-2.py: the two
 * scripts define their own `Infra` and `Batiment`.  A segment carries its
 * total price and duration as read from the table and a boolean `reparee`;
 * its difficulty is its length per house served, infinite when it serves
 * none.  A building's difficulty is the sum over its segments not yet
 * repaired.  The objects are built from the table the way both scripts do.
 */
module Raccordement {
  import opened ExtReals
  import opened Lists
  import Planification

  const InfraIntacte: string := "infra_intacte"

  /** One row of `Data_final`, with the columns the scripts read. */
  datatype Row = Row(infraId: string, idBatiment: string, typeBatiment: string, longueur: real, nbMaisons: int,
                     infraType: string, typeInfra: string, prixTotal: real, dureeTotale: real)

  class Infra {
    const infraId: string
    const longueur: real
    const nbMaisons: int
    const infraType: string
    const typeInfra: string
    const prixTotal: real
    const dureeTotale: real
    var reparee: bool

    /** A segment starts repaired exactly when its state is "infra_intacte". */
    constructor (infraId: string, longueur: real, nbMaisons: int, infraType: string, typeInfra: string,
                 prixTotal: real, dureeTotale: real)
      ensures this.infraId == infraId && this.longueur == longueur && this.nbMaisons == nbMaisons
      ensures this.infraType == infraType && this.typeInfra == typeInfra
      ensures this.prixTotal == prixTotal && this.dureeTotale == dureeTotale
      ensures reparee <==> infraType == InfraIntacte
    {
      this.infraId := infraId;
      this.longueur := longueur;
      this.nbMaisons := nbMaisons;
      this.infraType := infraType;
      this.typeInfra := typeInfra;
      this.prixTotal := prixTotal;
      this.dureeTotale := dureeTotale;
      this.reparee := infraType == InfraIntacte;
    }

    /** Infinite for a segment serving no house; otherwise the length shared out among the houses. */
    function GetInfraDifficulty(): (d: ExtReal)
      ensures d.Inf? <==> nbMaisons == 0
      ensures d.Finite? ==> d.value * nbMaisons as real == longueur
    {
      if nbMaisons == 0 then Inf else Finite(longueur / nbMaisons as real)
    }

    method RepairInfra()
      modifies this`reparee
      ensures reparee
    {
      reparee := true;
    }
  }

  /** The sum of the difficulties of the segments of `xs` that are in `pend`, in list order, from 0. */
  function DifficultyOf(xs: seq<Infra>, pend: set<Infra>): ExtReal
  {
    if xs == [] then Finite(0.0)
    else Add(if xs[0] in pend then xs[0].GetInfraDifficulty() else Finite(0.0), DifficultyOf(xs[1..], pend))
  }

  /** No pending segment: difficulty 0. */
  lemma {:induction false} NothingPendingIsEasy(xs: seq<Infra>, pend: set<Infra>)
    requires forall i | i in xs :: i !in pend
    ensures DifficultyOf(xs, pend) == Finite(0.0)
  {
    if xs != [] {
      assert forall i | i in xs[1..] :: i in xs;
      NothingPendingIsEasy(xs[1..], pend);
    }
  }

  /**
   * A pending segment serving no house makes the building infinitely
   * difficult; otherwise the difficulty is finite.
   */
  lemma {:induction false} InfiniteDifficulty(xs: seq<Infra>, pend: set<Infra>)
    ensures DifficultyOf(xs, pend).Inf? <==> exists i | i in xs && i in pend :: i.nbMaisons == 0
  {
    if xs != [] {
      InfiniteDifficulty(xs[1..], pend);
      var h := if xs[0] in pend then xs[0].GetInfraDifficulty() else Finite(0.0);
      assert h.Inf? <==> xs[0] in pend && xs[0].nbMaisons == 0;
      assert DifficultyOf(xs, pend) == Add(h, DifficultyOf(xs[1..], pend));
      if exists i | i in xs && i in pend :: i.nbMaisons == 0 {
        var i :| i in xs && i in pend && i.nbMaisons == 0;
        if i != xs[0] {
          assert i in xs[1..];
        }
      }
      if exists i | i in xs[1..] && i in pend :: i.nbMaisons == 0 {
        var i :| i in xs[1..] && i in pend && i.nbMaisons == 0;
        assert i in xs;
      }
    }
  }

  /** With lengths and house counts non-negative, so is the difficulty: repairing can only make a building easier. */
  lemma {:induction false} DifficultyNonNegative(xs: seq<Infra>, pend: set<Infra>)
    requires forall i | i in xs :: i.longueur >= 0.0 && i.nbMaisons >= 0
    ensures NonNegative(DifficultyOf(xs, pend))
  {
    if xs != [] {
      assert forall i | i in xs[1..] :: i in xs;
      DifficultyNonNegative(xs[1..], pend);
      var h := if xs[0] in pend then xs[0].GetInfraDifficulty() else Finite(0.0);
      assert NonNegative(h) by {
        if xs[0] in pend && xs[0].nbMaisons != 0 {
          var n := xs[0].nbMaisons as real;
          assert n > 0.0 && h.value == xs[0].longueur / n;
          assert xs[0].longueur / n >= 0.0;
        }
      }
      AddNonNegative(h, DifficultyOf(xs[1..], pend));
    }
  }

  class Batiment {
    const idBatiment: string
    const typeBatiment: string
    const listInfras: seq<Infra>

    /** Unlike `Batiment.py`, the type is kept as given. */
    constructor (idBatiment: string, typeBatiment: string, listInfras: seq<Infra>)
      ensures this.idBatiment == idBatiment && this.typeBatiment == typeBatiment && this.listInfras == listInfras
    {
      this.idBatiment := idBatiment;
      this.typeBatiment := typeBatiment;
      this.listInfras := listInfras;
    }

    /** The segments of the building not yet repaired. */
    function Unrepaired(): set<Infra>
      reads listInfras
    {
      set i | i in listInfras && !i.reparee
    }

    function GetBuildingDifficulty(): ExtReal
      reads listInfras
    {
      DifficultyOf(listInfras, Unrepaired())
    }

    /** `__lt__`: compares the current difficulties. */
    predicate Lt(other: Batiment)
      reads listInfras, other.listInfras
    {
      Less(GetBuildingDifficulty(), other.GetBuildingDifficulty())
    }

    /** `all(i.reparee for i in self.list_infras)`. */
    predicate AllRepaired()
      reads listInfras
    {
      forall i | i in listInfras :: i.reparee
    }
  }

  /** `__lt__` is irreflexive, and transitive between comparisons made in the same state. */
  lemma LtIsStrictOrder(a: Batiment, b: Batiment, c: Batiment)
    ensures !a.Lt(a)
    ensures a.Lt(b) && b.Lt(c) ==> a.Lt(c)
  {
    LessIsStrictWeakOrder(a.GetBuildingDifficulty(), b.GetBuildingDifficulty(), c.GetBuildingDifficulty());
  }

  // ---------------------------------------------------------------------
  // Building the objects
  // ---------------------------------------------------------------------

  /** The (segment, building) pair a row is about. */
  function PairOf(x: Row): (string, string)
  {
    (x.infraId, x.idBatiment)
  }

  function Pairs(rows: seq<Row>): set<(string, string)>
  {
    set x | x in rows :: PairOf(x)
  }

  /** `drop_duplicates(subset=["infra_id", "id_batiment"], keep="first")`: a row is kept when no earlier row has its pair. */
  function DropDuplicates(rows: seq<Row>): (r: seq<Row>)
    ensures forall x | x in r :: x in rows
  {
    if rows == [] then []
    else
      var front := rows[..|rows| - 1];
      var last := rows[|rows| - 1];
      var d := DropDuplicates(front);
      assert forall x | x in d :: x in rows;
      if PairOf(last) in Pairs(front) then d else d + [last]
  }

  /** Every (segment, building) pair of the table keeps a row, and no pair keeps two. */
  lemma {:induction false} DropDuplicatesSpec(rows: seq<Row>)
    ensures var r := DropDuplicates(rows);
      && Pairs(r) == Pairs(rows)
      && forall i, j | 0 <= i < j < |r| :: PairOf(r[i]) != PairOf(r[j])
  {
    if rows != [] {
      var n := |rows| - 1;
      DropDuplicatesSpec(rows[..n]);
      assert rows == rows[..n] + [rows[n]];
      var d := DropDuplicates(rows[..n]);
      if PairOf(rows[n]) !in Pairs(rows[..n]) {
        assert Pairs(d + [rows[n]]) == Pairs(d) + {PairOf(rows[n])};
      }
    }
  }

  /** Index of the last row describing segment `id`, or -1. */
  function LastIndex(rows: seq<Row>, id: string): (j: int)
    ensures -1 <= j < |rows|
    ensures j >= 0 ==> rows[j].infraId == id
    ensures forall k | j < k < |rows| :: rows[k].infraId != id
    ensures (exists k | 0 <= k < |rows| :: rows[k].infraId == id) ==> j >= 0
  {
    if rows == [] then -1
    else if rows[|rows| - 1].infraId == id then |rows| - 1
    else LastIndex(rows[..|rows| - 1], id)
  }

  /** Segment `i` is the one built from row `r`. */
  predicate BuiltFrom(i: Infra, r: Row)
  {
    && i.infraId == r.infraId && i.longueur == r.longueur && i.nbMaisons == r.nbMaisons
    && i.infraType == r.infraType && i.typeInfra == r.typeInfra
    && i.prixTotal == r.prixTotal && i.dureeTotale == r.dureeTotale
  }

  /** `infras_dict`: one object per segment id, built from the id's last row, no two ids sharing one. */
  ghost predicate SegmentTable(rows: seq<Row>, infrasDict: map<string, Infra>)
  {
    && infrasDict.Keys == (set k | 0 <= k < |rows| :: rows[k].infraId)
    && (forall id | id in infrasDict :: var j := LastIndex(rows, id); j >= 0 && BuiltFrom(infrasDict[id], rows[j]))
    && (forall a, b | a in infrasDict && b in infrasDict && a != b :: infrasDict[a] != infrasDict[b])
  }

  /**
   * Every row creates an object and stores it under its id, so the last row
   * of an id wins and the objects of earlier rows are dropped.
   */
  method BuildInfras(rows: seq<Row>) returns (infrasDict: map<string, Infra>)
    ensures SegmentTable(rows, infrasDict)
    ensures forall id | id in infrasDict :: fresh(infrasDict[id])
    ensures forall id | id in infrasDict :: infrasDict[id].reparee <==> infrasDict[id].infraType == InfraIntacte
  {
    infrasDict := map[];
    for k := 0 to |rows|
      invariant infrasDict.Keys == set j | 0 <= j < k :: rows[j].infraId
      invariant forall id | id in infrasDict :: var j := LastIndex(rows[..k], id); j >= 0 && BuiltFrom(infrasDict[id], rows[j])
      invariant forall a, b | a in infrasDict && b in infrasDict && a != b :: infrasDict[a] != infrasDict[b]
      invariant forall id | id in infrasDict :: fresh(infrasDict[id])
      invariant forall id | id in infrasDict :: infrasDict[id].reparee <==> infrasDict[id].infraType == InfraIntacte
    {
      var row := rows[k];
      var infra := new Infra(row.infraId, row.longueur, row.nbMaisons, row.infraType, row.typeInfra,
                             row.prixTotal, row.dureeTotale);
      TableStep(rows, k, infrasDict, infra);
      infrasDict := infrasDict[row.infraId := infra];
    }
    assert rows[..|rows|] == rows;
  }

  /** Storing the object of row k under its id keeps the table right for the first k + 1 rows. */
  lemma TableStep(rows: seq<Row>, k: int, d: map<string, Infra>, infra: Infra)
    requires 0 <= k < |rows|
    requires d.Keys == set j | 0 <= j < k :: rows[j].infraId
    requires forall id | id in d :: var j := LastIndex(rows[..k], id); j >= 0 && BuiltFrom(d[id], rows[j])
    requires forall a, b | a in d && b in d && a != b :: d[a] != d[b]
    requires infra !in d.Values && BuiltFrom(infra, rows[k])
    ensures var d1 := d[rows[k].infraId := infra];
      && d1.Keys == (set j | 0 <= j < k + 1 :: rows[j].infraId)
      && (forall id | id in d1 :: var j := LastIndex(rows[..k + 1], id); j >= 0 && BuiltFrom(d1[id], rows[j]))
      && (forall a, b | a in d1 && b in d1 && a != b :: d1[a] != d1[b])
  {
    assert rows[..k + 1][..k] == rows[..k];
  }

  /** The columns `groupby` and `unique` look at. */
  function Keyed(rows: seq<Row>): (t: seq<Planification.Row>)
    ensures |t| == |rows|
    ensures forall k | 0 <= k < |rows| ::
      t[k].idBatiment == rows[k].idBatiment && t[k].infraId == rows[k].infraId && t[k].typeBatiment == rows[k].typeBatiment
  {
    seq(|rows|, k requires 0 <= k < |rows| =>
      Planification.Row(rows[k].idBatiment, rows[k].typeBatiment, rows[k].nbMaisons, rows[k].infraId,
                        rows[k].infraType, rows[k].typeInfra, rows[k].longueur))
  }

  /** `b` is the building of group `id`: its id, the type of its first row, its segments looked up by id in order. */
  ghost predicate BuildingOf(rows: seq<Row>, infrasDict: map<string, Infra>, id: string, b: Batiment)
  {
    var t := Keyed(rows);
    var ids := Planification.SegmentIdsOf(t, id);
    && b.idBatiment == id
    && id in Planification.BuildingIds(t)
    && b.typeBatiment == Planification.GroupOf(t, id)[0].typeBatiment
    && |b.listInfras| == |ids|
    && (forall j | 0 <= j < |ids| :: ids[j] in infrasDict && b.listInfras[j] == infrasDict[ids[j]])
  }

  /** `batiments_dict`: one building per group, in the order of the group keys. */
  method BuildBatiments(rows: seq<Row>, infrasDict: map<string, Infra>) returns (batiments: seq<Batiment>)
    requires infrasDict.Keys == (set k | 0 <= k < |rows| :: rows[k].infraId)
    ensures |batiments| == |Planification.GroupKeys(Keyed(rows))|
    ensures forall k | 0 <= k < |batiments| ::
      fresh(batiments[k]) && BuildingOf(rows, infrasDict, Planification.GroupKeys(Keyed(rows))[k], batiments[k])
  {
    var keys := Planification.GroupKeys(Keyed(rows));
    batiments := [];
    for k := 0 to |keys|
      invariant |batiments| == k
      invariant forall m | 0 <= m < k :: fresh(batiments[m])
      invariant forall m | 0 <= m < k :: BuildingOf(rows, infrasDict, keys[m], batiments[m])
    {
      var b := NewBatiment(rows, infrasDict, keys[k]);
      ghost var before := batiments;
      batiments := batiments + [b];
      forall m | 0 <= m < k + 1
        ensures BuildingOf(rows, infrasDict, keys[m], batiments[m])
      {
        if m < k {
          assert batiments[m] == before[m];
        } else {
          assert batiments[m] == b;
        }
      }
    }
  }

  /** `Batiment(id_bat, sub_df["type_batiment"].iloc[0], infras)`. */
  method NewBatiment(rows: seq<Row>, infrasDict: map<string, Infra>, id: string) returns (b: Batiment)
    requires infrasDict.Keys == (set k | 0 <= k < |rows| :: rows[k].infraId)
    requires id in Planification.GroupKeys(Keyed(rows))
    ensures fresh(b) && BuildingOf(rows, infrasDict, id, b)
  {
    var t := Keyed(rows);
    var ids := Planification.SegmentIdsOf(t, id);
    assert infrasDict.Keys == (set k | 0 <= k < |t| :: t[k].infraId);
    Planification.SegmentIdsKnown(t, infrasDict, id);
    var infras := Lookup(ids, infrasDict);
    b := new Batiment(id, Planification.GroupOf(t, id)[0].typeBatiment, infras);
  }
}
