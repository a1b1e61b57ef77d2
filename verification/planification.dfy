/**
 * planification_raccordement.py, `planifier_reparations`: builds one shared
 * `Infra` object per segment id and one `Batiment` per building id, splits
 * the buildings on their number of houses, then repeatedly sorts the
 * buildings still to repair by `Batiment.__lt__`, pops the head, records its
 * metrics and repairs it.
 *
 * The state of the network is the `infraType` of every segment.  The proofs
 * mirror it in a ghost map `st` from segment to state; `Run` is the loop
 * written as a recursive function over that map, and the method is proved to
 * compute exactly what `Run` computes.
 *
 * The methods the source calls but does not define (`get_building_houses`,
 * `get_total_cost`, `get_real_duration`, `get_priority_ratio`/`last_score`
 * and `Infra.get_infra_difficulty`) are the fields of `Externals`: arbitrary
 * total functions of a building and the current states of its segments.
 */
module Planification {
  import opened ExtReals
  import opened Lists
  import opened Text
  import opened Infras
  import opened Batiments

  /** One row of the network table. */
  datatype Row = Row(idBatiment: string, typeBatiment: string, nbMaisons: int,
                     infraId: string, infraType: string, typeInfra: string, longueur: real)

  /** The methods called on segments and buildings without a definition in the modelled files. */
  datatype Externals = Externals(
    difficulty: Infra -> ExtReal,                 // Infra.get_infra_difficulty, only asked of a segment "a_remplacer"
    houses: (Batiment, seq<string>) -> int,       // Batiment.get_building_houses
    totalCost: (Batiment, seq<string>) -> real,   // Batiment.get_total_cost
    realDuration: (Batiment, seq<string>) -> real, // Batiment.get_real_duration
    lastScore: (Batiment, seq<string>) -> real)   // Batiment.last_score, as set by get_priority_ratio

  /** One element of `plan`. */
  datatype Entry = Entry(phase: int, idBatiment: string, typeBatiment: string, coutTotal: real,
                         dureeTotaleH: real, nbMaisons: int, ratio: real, score: real)

  // ---------------------------------------------------------------------
  // Steps 1 and 2: the objects
  // ---------------------------------------------------------------------

  /** Index of the first row describing segment `id`, or `|rows|`. */
  function FirstIndex(rows: seq<Row>, id: string): (j: nat)
    ensures j <= |rows|
    ensures j < |rows| ==> rows[j].infraId == id
    ensures forall k | 0 <= k < j :: rows[k].infraId != id
    ensures (exists k | 0 <= k < |rows| :: rows[k].infraId == id) ==> j < |rows|
  {
    if rows == [] then 0
    else if rows[0].infraId == id then 0
    else
      var j := FirstIndex(rows[1..], id);
      assert forall k | 1 <= k < |rows| :: rows[k] == rows[1..][k - 1];
      j + 1
  }

  /** The segment ids of `rows`, in row order. */
  function InfraIds(rows: seq<Row>): (r: seq<string>)
    ensures |r| == |rows| && forall k | 0 <= k < |rows| :: r[k] == rows[k].infraId
  {
    seq(|rows|, k requires 0 <= k < |rows| => rows[k].infraId)
  }

  /** The building ids of `rows`, in row order. */
  function BuildingIds(rows: seq<Row>): (r: seq<string>)
    ensures |r| == |rows| && forall k | 0 <= k < |rows| :: r[k] == rows[k].idBatiment
  {
    seq(|rows|, k requires 0 <= k < |rows| => rows[k].idBatiment)
  }

  /** The keys `groupby('id_batiment')` visits: each building id once, sorted. */
  function GroupKeys(rows: seq<Row>): (r: seq<string>)
    ensures forall id | id in r :: id in BuildingIds(rows)
  {
    var d := Distinct(BuildingIds(rows));
    var r := Sort(d, LexLess);
    assert forall x | x in r :: x in d by {
      forall x | x in r ensures x in d { assert x in multiset(r); }
    }
    r
  }

  /**
   * Every building id of the table is a group key, and the keys are
   * strictly increasing: no building is visited twice and the order is the
   * string order.
   */
  lemma GroupKeysIncreasing(rows: seq<Row>)
    ensures var r := GroupKeys(rows);
      && (forall k | 0 <= k < |rows| :: rows[k].idBatiment in r)
      && (forall i, j | 0 <= i < j < |r| :: LexLess(r[i], r[j]))
  {
    var d := Distinct(BuildingIds(rows));
    var r := Sort(d, LexLess);
    forall k | 0 <= k < |rows| ensures rows[k].idBatiment in r {
      assert BuildingIds(rows)[k] in BuildingIds(rows);
      assert rows[k].idBatiment in multiset(d);
    }
    LexLessIsStrictWeakOrder(d);
    SortIsSorted(d, LexLess);
    forall i, j | 0 <= i < j < |r| ensures LexLess(r[i], r[j]) {
      assert !LexLess(r[j], r[i]);
      DistinctAfterSort(d, r, i, j);
      LexLessTotal(r[i], r[j]);
    }
  }

  /** The rows of building `id`, in row order (`group`); there is at least one when `id` is a building id of the table. */
  function GroupOf(rows: seq<Row>, id: string): (g: seq<Row>)
    ensures forall r | r in g :: r in rows && r.idBatiment == id
    ensures id in BuildingIds(rows) ==> |g| > 0
  {
    if rows == [] then []
    else
      var front := rows[..|rows| - 1];
      var g := GroupOf(front, id);
      var last := rows[|rows| - 1];
      assert forall r | r in front :: r in rows;
      assert id in BuildingIds(rows) && last.idBatiment != id ==> id in BuildingIds(front) by {
        if id in BuildingIds(rows) && last.idBatiment != id {
          var k :| 0 <= k < |rows| && BuildingIds(rows)[k] == id;
          assert BuildingIds(front)[k] == id;
        }
      }
      if last.idBatiment == id then g + [last] else g
  }

  /** Every row of the building is in its group. */
  lemma {:induction false} GroupComplete(rows: seq<Row>, id: string)
    ensures forall k | 0 <= k < |rows| && rows[k].idBatiment == id :: rows[k] in GroupOf(rows, id)
  {
    if rows != [] {
      var front := rows[..|rows| - 1];
      GroupComplete(front, id);
      forall k | 0 <= k < |rows| && rows[k].idBatiment == id ensures rows[k] in GroupOf(rows, id) {
        if k < |front| {
          assert front[k] == rows[k];
        }
      }
    }
  }

  /** `group['infra_id'].unique()`: the segment ids of the building, first occurrences in row order. */
  function SegmentIdsOf(rows: seq<Row>, id: string): (r: seq<string>)
    ensures forall x | x in r :: exists k | 0 <= k < |rows| :: rows[k].idBatiment == id && rows[k].infraId == x
    ensures forall i, j | 0 <= i < j < |r| :: r[i] != r[j]
  {
    var g := GroupOf(rows, id);
    var r := Distinct(InfraIds(g));
    assert forall x | x in r :: exists k | 0 <= k < |rows| :: rows[k].idBatiment == id && rows[k].infraId == x by {
      forall x | x in r ensures exists k | 0 <= k < |rows| :: rows[k].idBatiment == id && rows[k].infraId == x {
        var m :| 0 <= m < |g| && InfraIds(g)[m] == x;
        assert g[m] in rows;
        var k :| 0 <= k < |rows| && rows[k] == g[m];
      }
    }
    r
  }

  /** Every segment id of a row of the building is one of its segment ids. */
  lemma SegmentIdsComplete(rows: seq<Row>, id: string)
    ensures forall k | 0 <= k < |rows| && rows[k].idBatiment == id :: rows[k].infraId in SegmentIdsOf(rows, id)
  {
    var g := GroupOf(rows, id);
    GroupComplete(rows, id);
    forall k | 0 <= k < |rows| && rows[k].idBatiment == id ensures rows[k].infraId in SegmentIdsOf(rows, id) {
      var m :| 0 <= m < |g| && g[m] == rows[k];
      assert InfraIds(g)[m] == rows[k].infraId;
    }
  }

  /** The segment ids of a building come in the order they first appear among the building's rows. */
  lemma SegmentIdsInRowOrder(rows: seq<Row>, id: string)
    ensures var ids := InfraIds(GroupOf(rows, id)); var r := SegmentIdsOf(rows, id);
      && (forall x | x in r :: x in ids)
      && (forall i, j | 0 <= i < j < |r| :: IndexOf(ids, r[i]) < IndexOf(ids, r[j]))
  {
    DistinctOrder(InfraIds(GroupOf(rows, id)));
  }

  /** `str(group['type_batiment'].iloc[0]).strip().lower()`: the type of the building's first row. */
  function GroupType(rows: seq<Row>, id: string): string
    requires id in BuildingIds(rows)
  {
    Lower(Strip(GroupOf(rows, id)[0].typeBatiment))
  }

  /** Segment `i` is the one built from row `rows[j]`. */
  ghost predicate BuiltFrom(i: Infra, r: Row)
  {
    i.infraId == r.infraId && i.length == r.longueur && i.nbHouses == r.nbMaisons && i.typeInfra == r.typeInfra
  }

  /** `infraDict` holds one object per segment id of `rows`, built from the id's first row, no two ids sharing one. */
  ghost predicate SegmentIndex(rows: seq<Row>, infraDict: map<string, Infra>)
  {
    && infraDict.Keys == (set k | 0 <= k < |rows| :: rows[k].infraId)
    && (forall id | id in infraDict :: var j := FirstIndex(rows, id); j < |rows| && BuiltFrom(infraDict[id], rows[j]))
    && (forall a, b | a in infraDict && b in infraDict && a != b :: infraDict[a] != infraDict[b])
  }

  /** The table as step 1 leaves it: every object also still has the state of its id's first row. */
  ghost predicate SegmentTable(rows: seq<Row>, infraDict: map<string, Infra>)
    reads infraDict.Values
  {
    SegmentIndex(rows, infraDict) && forall id | id in infraDict :: infraDict[id].infraType == FirstState(rows, id)
  }

  /** Step 1: the first row of each segment id creates its object; later rows with that id are ignored. */
  method BuildInfras(rows: seq<Row>) returns (infraDict: map<string, Infra>)
    ensures SegmentTable(rows, infraDict)
    ensures forall id | id in infraDict :: fresh(infraDict[id])
  {
    infraDict := map[];
    for k := 0 to |rows|
      invariant infraDict.Keys == set j | 0 <= j < k :: rows[j].infraId
      invariant forall id | id in infraDict ::
        var j := FirstIndex(rows, id); j < k && BuiltFrom(infraDict[id], rows[j]) && infraDict[id].infraType == rows[j].infraType
      invariant forall a, b | a in infraDict && b in infraDict && a != b :: infraDict[a] != infraDict[b]
      invariant forall id | id in infraDict :: fresh(infraDict[id])
    {
      var row := rows[k];
      if row.infraId !in infraDict {
        var infra := new Infra(row.infraId, row.longueur, row.infraType, row.nbMaisons, row.typeInfra);
        TableStep(rows, k, infraDict, infra);
        infraDict := infraDict[row.infraId := infra];
      } else {
        KnownIdStep(rows, k, infraDict.Keys);
      }
    }
  }

  /** A row whose id already has an object adds no id. */
  lemma KnownIdStep(rows: seq<Row>, k: int, ids: set<string>)
    requires 0 <= k < |rows| && rows[k].infraId in ids
    requires ids == set j | 0 <= j < k :: rows[j].infraId
    ensures ids == set j | 0 <= j < k + 1 :: rows[j].infraId
  {
  }

  /** The first row of a new id creates its object: the table stays right for the first k + 1 rows. */
  lemma TableStep(rows: seq<Row>, k: int, d: map<string, Infra>, infra: Infra)
    requires 0 <= k < |rows| && rows[k].infraId !in d
    requires d.Keys == set j | 0 <= j < k :: rows[j].infraId
    requires forall id | id in d ::
      var j := FirstIndex(rows, id); j < k && BuiltFrom(d[id], rows[j]) && d[id].infraType == rows[j].infraType
    requires forall a, b | a in d && b in d && a != b :: d[a] != d[b]
    requires infra !in d.Values && BuiltFrom(infra, rows[k]) && infra.infraType == rows[k].infraType
    ensures var d1 := d[rows[k].infraId := infra];
      && d1.Keys == (set j | 0 <= j < k + 1 :: rows[j].infraId)
      && (forall id | id in d1 ::
           var j := FirstIndex(rows, id); j < k + 1 && BuiltFrom(d1[id], rows[j]) && d1[id].infraType == rows[j].infraType)
      && (forall a, b | a in d1 && b in d1 && a != b :: d1[a] != d1[b])
  {
    assert FirstIndex(rows, rows[k].infraId) == k;
  }

  /** `b` is the building of group `id`: its id, its normalised type and its segments, looked up by id in list order. */
  ghost predicate BuildingOf(rows: seq<Row>, infraDict: map<string, Infra>, id: string, b: Batiment)
  {
    var ids := SegmentIdsOf(rows, id);
    && b.idBuilding == id
    && id in BuildingIds(rows)
    && b.typeBatiment == Normalize(GroupType(rows, id))
    && |b.listInfras| == |ids|
    && (forall j | 0 <= j < |ids| :: ids[j] in infraDict && b.listInfras[j] == infraDict[ids[j]])
  }

  /** Every segment id of a group has an object. */
  lemma SegmentIdsKnown<V>(rows: seq<Row>, infraDict: map<string, V>, id: string)
    requires infraDict.Keys == (set k | 0 <= k < |rows| :: rows[k].infraId)
    ensures forall x | x in SegmentIdsOf(rows, id) :: x in infraDict
  {
    forall x | x in SegmentIdsOf(rows, id) ensures x in infraDict {
      var r :| 0 <= r < |rows| && rows[r].idBatiment == id && rows[r].infraId == x;
    }
  }

  /** Step 2: one building per group, in the order of the group keys. */
  method BuildBatiments(rows: seq<Row>, infraDict: map<string, Infra>) returns (batiments: seq<Batiment>)
    requires infraDict.Keys == (set k | 0 <= k < |rows| :: rows[k].infraId)
    ensures |batiments| == |GroupKeys(rows)|
    ensures forall k | 0 <= k < |batiments| :: fresh(batiments[k]) && BuildingOf(rows, infraDict, GroupKeys(rows)[k], batiments[k])
  {
    var keys := GroupKeys(rows);
    batiments := [];
    for k := 0 to |keys|
      invariant |batiments| == k
      invariant forall m | 0 <= m < k :: fresh(batiments[m])
      invariant forall m | 0 <= m < k :: BuildingOf(rows, infraDict, keys[m], batiments[m])
    {
      var b := NewBatiment(rows, infraDict, keys[k]);
      ghost var before := batiments;
      batiments := batiments + [b];
      forall m | 0 <= m < k + 1
        ensures BuildingOf(rows, infraDict, keys[m], batiments[m])
      {
        if m < k {
          assert batiments[m] == before[m];
        } else {
          assert batiments[m] == b;
        }
      }
    }
  }

  /** The building of group `id`: `Batiment(id, type_bat, infras)`. */
  method NewBatiment(rows: seq<Row>, infraDict: map<string, Infra>, id: string) returns (b: Batiment)
    requires infraDict.Keys == (set k | 0 <= k < |rows| :: rows[k].infraId)
    requires id in GroupKeys(rows)
    ensures fresh(b) && BuildingOf(rows, infraDict, id, b)
  {
    var ids := SegmentIdsOf(rows, id);
    SegmentIdsKnown(rows, infraDict, id);
    var infras := Lookup(ids, infraDict);
    var typeBat := GroupType(rows, id);
    NormalizeStable(typeBat);
    b := new Batiment(id, typeBat, infras);
  }

  // ---------------------------------------------------------------------
  // The state of the network and the quantities read from it
  // ---------------------------------------------------------------------

  /** The state of every segment. */
  type State = map<Infra, string>

  /** The states of the segments `xs` in `st`, in list order. */
  function StatesIn(xs: seq<Infra>, st: State): (r: seq<string>)
    ensures |r| == |xs|
  {
    seq(|xs|, k requires 0 <= k < |xs| => if xs[k] in st then st[xs[k]] else "")
  }

  /** The current states of the segments `xs`, read from the heap. */
  function TypesOf(xs: seq<Infra>): (r: seq<string>)
    reads xs
    ensures |r| == |xs| && forall k | 0 <= k < |xs| :: r[k] == xs[k].infraType
  {
    if xs == [] then [] else [xs[0].infraType] + TypesOf(xs[1..])
  }

  /** The segments of `xs` still "a_remplacer" in `st`. */
  function PendingIn(xs: seq<Infra>, st: State): set<Infra>
  {
    set i | i in xs && i in st && st[i] == ARemplacer
  }

  /** `b.get_priority_score()` in state `st`. */
  function Score(b: Batiment, st: State, difficulty: Infra -> ExtReal): ExtReal
  {
    ScoreAt(b, PendingIn(b.listInfras, st), difficulty)
  }

  /** The scores the sort compares, all taken in the same state. */
  function Keys(todo: seq<Batiment>, st: State, difficulty: Infra -> ExtReal): map<Batiment, ExtReal>
  {
    map b | b in todo :: Score(b, st, difficulty)
  }

  /** `st` after `repair_infra` on every segment of `xs`. */
  function Repaired(st: State, xs: seq<Infra>): (r: State)
    ensures r.Keys == st.Keys
    ensures forall i | i in st :: r[i] == (if i in xs then InfraIntacte else st[i])
  {
    map i | i in st :: if i in xs then InfraIntacte else st[i]
  }

  /** Every segment of a building in `bs`. */
  function Universe(bs: seq<Batiment>): set<Infra>
  {
    set b, i | b in bs && i in b.listInfras :: i
  }

  lemma InUniverse(bs: seq<Batiment>, b: Batiment)
    requires b in bs
    ensures forall i | i in b.listInfras :: i in Universe(bs)
  {
  }

  /** `st` describes the heap: every segment of `u` has in `st` the state it has in the heap. */
  ghost predicate Mirrors(st: State, u: set<Infra>)
    reads u
  {
    st.Keys == u && forall i | i in u :: st[i] == i.infraType
  }

  /** Where `st` agrees with the heap on the segments of `b`, reading the heap is reading `st`. */
  lemma HeapReadsState(b: Batiment, st: State)
    requires forall i | i in b.listInfras :: i in st && st[i] == i.infraType
    ensures TypesOf(b.listInfras) == StatesIn(b.listInfras, st)
  {
  }

  lemma HeapReadsScore(b: Batiment, st: State, difficulty: Infra -> ExtReal)
    requires forall i | i in b.listInfras :: i in st && st[i] == i.infraType
    ensures b.GetPriorityScore(difficulty) == Score(b, st, difficulty)
  {
    assert b.Pending() == PendingIn(b.listInfras, st);
  }

  // ---------------------------------------------------------------------
  // Step 3: the split on the number of houses
  // ---------------------------------------------------------------------

  function HousesIn(b: Batiment, st: State, ext: Externals): int
  {
    ext.houses(b, StatesIn(b.listInfras, st))
  }

  /** `batiments_intacts`: the buildings with no house, in order. */
  function Intacts(bs: seq<Batiment>, st: State, ext: Externals): (r: seq<Batiment>)
    ensures forall b | b in r :: b in bs && HousesIn(b, st, ext) == 0
    ensures forall b | b in bs && HousesIn(b, st, ext) == 0 :: b in r
  {
    if bs == [] then []
    else
      var front := bs[..|bs| - 1];
      var last := bs[|bs| - 1];
      assert bs == front + [last];
      Intacts(front, st, ext) + (if HousesIn(last, st, ext) == 0 then [last] else [])
  }

  /** `batiments_a_reparer`: the buildings with at least one house, in order. */
  function ToRepair(bs: seq<Batiment>, st: State, ext: Externals): (r: seq<Batiment>)
    ensures forall b | b in r :: b in bs && HousesIn(b, st, ext) > 0
    ensures forall b | b in bs && HousesIn(b, st, ext) > 0 :: b in r
  {
    if bs == [] then []
    else
      var front := bs[..|bs| - 1];
      var last := bs[|bs| - 1];
      assert bs == front + [last];
      ToRepair(front, st, ext) + (if HousesIn(last, st, ext) > 0 then [last] else [])
  }

  // ---------------------------------------------------------------------
  // Step 4: the loop, as a function of the state
  // ---------------------------------------------------------------------

  /** `sort()` then `pop(0)`: the building taken and the list left behind. */
  function Select(todo: seq<Batiment>, st: State, difficulty: Infra -> ExtReal): (r: (Batiment, seq<Batiment>))
    requires |todo| > 0
    ensures multiset(r.1) + multiset{r.0} == multiset(todo)
    ensures |r.1| == |todo| - 1
  {
    var keys := Keys(todo, st, difficulty);
    var s := Sort(todo, ByKey(keys));
    assert s == [s[0]] + s[1..];
    (s[0], s[1..])
  }

  /**
   * The building `Select` takes has the least score in the current state,
   * and is strictly better than every building in front of it: among equal
   * scores the earliest wins.
   */
  lemma SelectTakesMinimum(todo: seq<Batiment>, st: State, difficulty: Infra -> ExtReal)
    requires |todo| > 0
    ensures var best := Select(todo, st, difficulty).0;
      && (forall b | b in todo :: !Less(Score(b, st, difficulty), Score(best, st, difficulty)))
      && exists m | 0 <= m < |todo| :: todo[m] == best && forall j | 0 <= j < m :: Less(Score(best, st, difficulty), Score(todo[j], st, difficulty))
  {
    var keys := Keys(todo, st, difficulty);
    PopFirstMin(todo, keys);
    var m := FirstMin(todo, ByKey(keys));
    forall b | b in todo
      ensures !Less(Score(b, st, difficulty), Score(todo[m], st, difficulty))
    {
      var j :| 0 <= j < |todo| && todo[j] == b;
    }
  }

  /** The entry recorded for `b` in state `st`, before `b.repair()`. */
  function EntryOf(b: Batiment, st: State, phase: int, ext: Externals): Entry
  {
    var s := StatesIn(b.listInfras, st);
    Entry(phase, b.idBuilding, b.typeBatiment, ext.totalCost(b, s), ext.realDuration(b, s),
          ext.houses(b, s), ext.lastScore(b, s), ext.lastScore(b, s))
  }

  datatype Outcome = Outcome(plan: seq<Entry>, order: seq<Batiment>, states: State)

  /** The `while batiments_a_reparer` loop from list `todo`, state `st` and counter `phase`. */
  function Run(todo: seq<Batiment>, st: State, phase: int, ext: Externals): Outcome
    decreases |todo|
  {
    if todo == [] then Outcome([], [], st)
    else
      var (best, rest) := Select(todo, st, ext.difficulty);
      var r := Run(rest, Repaired(st, best.listInfras), phase + 1, ext);
      Outcome([EntryOf(best, st, phase, ext)] + r.plan, [best] + r.order, r.states)
  }

  /** `st` after repairing, in turn, every building of `bs`. */
  function After(st: State, bs: seq<Batiment>): State
  {
    if bs == [] then st else After(Repaired(st, bs[0].listInfras), bs[1..])
  }

  function SumCost(plan: seq<Entry>): real
  {
    if plan == [] then 0.0 else plan[0].coutTotal + SumCost(plan[1..])
  }

  function SumDuration(plan: seq<Entry>): real
  {
    if plan == [] then 0.0 else plan[0].dureeTotaleH + SumDuration(plan[1..])
  }

  function SumHouses(plan: seq<Entry>): int
  {
    if plan == [] then 0 else plan[0].nbMaisons + SumHouses(plan[1..])
  }

  // ---------------------------------------------------------------------
  // What the loop guarantees
  // ---------------------------------------------------------------------

  /** One turn of the loop: the entry of the building taken, then the rest of the run from the repaired state. */
  lemma RunUnfold(todo: seq<Batiment>, st: State, phase: int, ext: Externals)
    requires todo != []
    ensures var sel := Select(todo, st, ext.difficulty);
      var r1 := Run(sel.1, Repaired(st, sel.0.listInfras), phase + 1, ext);
      Run(todo, st, phase, ext) == Outcome([EntryOf(sel.0, st, phase, ext)] + r1.plan, [sel.0] + r1.order, r1.states)
  {
  }

  /**
   * The loop runs once per building to repair: one entry each, the buildings
   * taken are a permutation of the list, and the phases are consecutive.
   */
  lemma {:induction false} RunShape(todo: seq<Batiment>, st: State, phase: int, ext: Externals)
    ensures var r := Run(todo, st, phase, ext);
      && |r.plan| == |todo| && |r.order| == |todo|
      && multiset(r.order) == multiset(todo)
      && forall k | 0 <= k < |todo| ::
           r.plan[k].phase == phase + k && r.plan[k].idBatiment == r.order[k].idBuilding
           && r.plan[k].typeBatiment == r.order[k].typeBatiment
    decreases |todo|
  {
    if todo != [] {
      var sel := Select(todo, st, ext.difficulty);
      var st1 := Repaired(st, sel.0.listInfras);
      RunShape(sel.1, st1, phase + 1, ext);
      RunUnfold(todo, st, phase, ext);
      ShapeStep(Run(todo, st, phase, ext), Run(sel.1, st1, phase + 1, ext), EntryOf(sel.0, st, phase, ext), sel.0, phase, todo, sel.1);
    }
  }

  lemma ShapeStep(r: Outcome, r1: Outcome, e: Entry, best: Batiment, phase: int, todo: seq<Batiment>, rest: seq<Batiment>)
    requires r == Outcome([e] + r1.plan, [best] + r1.order, r1.states)
    requires e.phase == phase && e.idBatiment == best.idBuilding && e.typeBatiment == best.typeBatiment
    requires multiset(rest) + multiset{best} == multiset(todo) && |rest| == |todo| - 1
    requires |r1.plan| == |rest| && |r1.order| == |rest| && multiset(r1.order) == multiset(rest)
    requires forall k | 0 <= k < |rest| ::
      r1.plan[k].phase == phase + 1 + k && r1.plan[k].idBatiment == r1.order[k].idBuilding
      && r1.plan[k].typeBatiment == r1.order[k].typeBatiment
    ensures |r.plan| == |todo| && |r.order| == |todo|
    ensures multiset(r.order) == multiset(todo)
    ensures forall k | 0 <= k < |todo| ::
      r.plan[k].phase == phase + k && r.plan[k].idBatiment == r.order[k].idBuilding
      && r.plan[k].typeBatiment == r.order[k].typeBatiment
  {
    assert multiset(r.order) == multiset{best} + multiset(r1.order);
    forall k | 0 <= k < |todo|
      ensures r.plan[k].phase == phase + k && r.plan[k].idBatiment == r.order[k].idBuilding
           && r.plan[k].typeBatiment == r.order[k].typeBatiment
    {
      if k > 0 {
        assert r.plan[k] == r1.plan[k - 1] && r.order[k] == r1.order[k - 1];
      }
    }
  }

  /**
   * The k-th entry is read in the state where exactly the first k buildings
   * taken have been repaired, so before the k-th building's own repair; the
   * final state is the one after all of them.
   */
  lemma {:induction false} RunEntries(todo: seq<Batiment>, st: State, phase: int, ext: Externals)
    ensures var r := Run(todo, st, phase, ext);
      && |r.plan| == |r.order|
      && (forall k | 0 <= k < |r.plan| :: r.plan[k] == EntryOf(r.order[k], After(st, r.order[..k]), phase + k, ext))
      && r.states == After(st, r.order)
    decreases |todo|
  {
    if todo != [] {
      var sel := Select(todo, st, ext.difficulty);
      var st1 := Repaired(st, sel.0.listInfras);
      RunEntries(sel.1, st1, phase + 1, ext);
      RunUnfold(todo, st, phase, ext);
      EntriesStep(Run(todo, st, phase, ext), Run(sel.1, st1, phase + 1, ext), sel.0, st, phase, ext);
    }
  }

  lemma EntriesStep(r: Outcome, r1: Outcome, best: Batiment, st: State, phase: int, ext: Externals)
    requires r == Outcome([EntryOf(best, st, phase, ext)] + r1.plan, [best] + r1.order, r1.states)
    requires |r1.plan| == |r1.order|
    requires forall k | 0 <= k < |r1.plan| ::
      r1.plan[k] == EntryOf(r1.order[k], After(Repaired(st, best.listInfras), r1.order[..k]), phase + 1 + k, ext)
    requires r1.states == After(Repaired(st, best.listInfras), r1.order)
    ensures |r.plan| == |r.order|
    ensures forall k | 0 <= k < |r.plan| :: r.plan[k] == EntryOf(r.order[k], After(st, r.order[..k]), phase + k, ext)
    ensures r.states == After(st, r.order)
  {
    assert r.order[1..] == r1.order;
    forall k | 0 <= k < |r.plan|
      ensures r.plan[k] == EntryOf(r.order[k], After(st, r.order[..k]), phase + k, ext)
    {
      if k == 0 {
        assert r.order[..0] == [];
      } else {
        assert r.order[..k][1..] == r1.order[..k - 1];
        assert r.plan[k] == r1.plan[k - 1];
      }
    }
  }

  /**
   * The building taken at step k has the least score, in the state of step
   * k, among the buildings not yet taken (those taken at step k or later).
   */
  lemma {:induction false} RunSelectsMinimum(todo: seq<Batiment>, st: State, phase: int, ext: Externals)
    ensures var r := Run(todo, st, phase, ext);
      |r.order| == |todo| &&
      forall k, j | 0 <= k <= j < |todo| ::
        !Less(Score(r.order[j], After(st, r.order[..k]), ext.difficulty), Score(r.order[k], After(st, r.order[..k]), ext.difficulty))
    decreases |todo|
  {
    RunShape(todo, st, phase, ext);
    if todo != [] {
      var d := ext.difficulty;
      var sel := Select(todo, st, d);
      var st1 := Repaired(st, sel.0.listInfras);
      RunSelectsMinimum(sel.1, st1, phase + 1, ext);
      RunUnfold(todo, st, phase, ext);
      SelectTakesMinimum(todo, st, d);
      var order := Run(todo, st, phase, ext).order;
      forall j | 0 <= j < |order|
        ensures !Less(Score(order[j], st, d), Score(sel.0, st, d))
      {
        assert order[j] in multiset(todo);
      }
      MinimumStep(order, Run(sel.1, st1, phase + 1, ext).order, sel.0, st, d);
    }
  }

  lemma MinimumStep(order: seq<Batiment>, order1: seq<Batiment>, best: Batiment, st: State, d: Infra -> ExtReal)
    requires order == [best] + order1
    requires forall j | 0 <= j < |order| :: !Less(Score(order[j], st, d), Score(best, st, d))
    requires forall k, j | 0 <= k <= j < |order1| ::
      !Less(Score(order1[j], After(Repaired(st, best.listInfras), order1[..k]), d),
            Score(order1[k], After(Repaired(st, best.listInfras), order1[..k]), d))
    ensures forall k, j | 0 <= k <= j < |order| ::
      !Less(Score(order[j], After(st, order[..k]), d), Score(order[k], After(st, order[..k]), d))
  {
    forall k, j | 0 <= k <= j < |order|
      ensures !Less(Score(order[j], After(st, order[..k]), d), Score(order[k], After(st, order[..k]), d))
    {
      if k == 0 {
        assert order[..0] == [];
      } else {
        AfterPrefix(st, order, order1, k - 1);
        assert order[j] == order1[j - 1] && order[k] == order1[k - 1];
      }
    }
  }

  /** Repairing the first k + 1 buildings is repairing the first, then the next k. */
  lemma AfterPrefix(st: State, order: seq<Batiment>, order1: seq<Batiment>, k: nat)
    requires |order| > 0 && order1 == order[1..] && k < |order1|
    ensures After(st, order[..k + 1]) == After(Repaired(st, order[0].listInfras), order1[..k])
  {
    var p := order[..k + 1];
    assert p[0] == order[0] && p[1..] == order1[..k];
  }

  /**
   * At the end, every segment of every building taken is "infra_intacte";
   * every other segment keeps its state.
   */
  lemma {:induction false} RunRepairs(todo: seq<Batiment>, st: State, phase: int, ext: Externals)
    ensures var r := Run(todo, st, phase, ext);
      && r.states.Keys == st.Keys
      && (forall i | i in st && i in Universe(todo) :: r.states[i] == InfraIntacte)
      && (forall i | i in st && i !in Universe(todo) :: r.states[i] == st[i])
    decreases |todo|
  {
    if todo != [] {
      var sel := Select(todo, st, ext.difficulty);
      var st1 := Repaired(st, sel.0.listInfras);
      RunRepairs(sel.1, st1, phase + 1, ext);
      RunUnfold(todo, st, phase, ext);
      RepairsStep(todo, sel.1, sel.0, st, Run(sel.1, st1, phase + 1, ext).states);
    }
  }

  lemma RepairsStep(todo: seq<Batiment>, rest: seq<Batiment>, best: Batiment, st: State, fin: State)
    requires multiset(rest) + multiset{best} == multiset(todo)
    requires fin.Keys == st.Keys
    requires forall i | i in st && i in Universe(rest) :: fin[i] == InfraIntacte
    requires forall i | i in st && i !in Universe(rest) :: fin[i] == Repaired(st, best.listInfras)[i]
    ensures forall i | i in st && i in Universe(todo) :: fin[i] == InfraIntacte
    ensures forall i | i in st && i !in Universe(todo) :: fin[i] == st[i]
  {
    assert best in todo by {
      assert best in multiset(todo);
    }
    forall i | i in st && i in Universe(todo)
      ensures fin[i] == InfraIntacte
    {
      var b :| b in todo && i in b.listInfras;
      assert multiset(rest)[b] + multiset{best}[b] > 0 by {
        assert b in multiset(todo);
      }
      if b != best {
        assert b in multiset(rest);
        InUniverse(rest, b);
      }
    }
    forall i | i in st && i !in Universe(todo)
      ensures fin[i] == st[i]
    {
      InUniverse(todo, best);
      forall b | b in rest ensures i !in b.listInfras {
        assert b in multiset(rest);
        assert b in multiset(todo);
        InUniverse(todo, b);
      }
    }
  }

  /** A building with no house is never scheduled. */
  lemma ZeroHousesNeverScheduled(bs: seq<Batiment>, st: State, ext: Externals)
    ensures forall b | b in Intacts(bs, st, ext) :: b !in Run(ToRepair(bs, st, ext), st, 1, ext).order
  {
    var todo := ToRepair(bs, st, ext);
    RunShape(todo, st, 1, ext);
    forall x | x in Run(todo, st, 1, ext).order
      ensures HousesIn(x, st, ext) > 0
    {
      assert x in multiset(todo);
    }
  }

  // ---------------------------------------------------------------------
  // planifier_reparations
  // ---------------------------------------------------------------------

  /** The outcome of a run that has already produced `plan` and taken `order`, and goes on as `r`. */
  function Resume(plan: seq<Entry>, order: seq<Batiment>, r: Outcome): Outcome
  {
    Outcome(plan + r.plan, order + r.order, r.states)
  }

  /** Nothing done yet: the whole run is still ahead. */
  lemma ResumeNothing(r: Outcome)
    ensures Resume([], [], r) == r
  {
    assert [] + r.plan == r.plan;
    assert [] + r.order == r.order;
  }

  /** Nothing left: what is done is the whole run, and the state reached is its final state. */
  lemma ResumeEnd(whole: Outcome, plan: seq<Entry>, order: seq<Batiment>, st: State, phase: int, ext: Externals)
    requires whole == Resume(plan, order, Run([], st, phase, ext))
    ensures whole.plan == plan && whole.states == st
  {
    assert plan + [] == plan;
  }

  /** One turn of the loop moves the building taken, and its entry, from what is left to what is done. */
  lemma ResumeStep(whole: Outcome, plan: seq<Entry>, order: seq<Batiment>, e: Entry, best: Batiment, r: Outcome, r1: Outcome)
    requires r == Outcome([e] + r1.plan, [best] + r1.order, r1.states)
    requires whole == Resume(plan, order, r)
    ensures whole == Resume(plan + [e], order + [best], r1)
  {
    assert plan + ([e] + r1.plan) == plan + [e] + r1.plan;
    assert order + ([best] + r1.order) == order + [best] + r1.order;
  }

  /**
   * One turn of the loop, as the method performs it: sorting by the keys of
   * the current state and popping the head is `Select`, so the entry and the
   * building taken join what is done and `Run` goes on from the rest.
   */
  lemma LoopStep(whole: Outcome, plan: seq<Entry>, order: seq<Batiment>, todo: seq<Batiment>, st: State, phase: int,
                 ext: Externals, sorted: seq<Batiment>)
    requires todo != [] && sorted == Sort(todo, ByKey(Keys(todo, st, ext.difficulty)))
    requires whole == Resume(plan, order, Run(todo, st, phase, ext))
    ensures |sorted| == |todo|
    ensures whole == Resume(plan + [EntryOf(sorted[0], st, phase, ext)], order + [sorted[0]],
                            Run(sorted[1..], Repaired(st, sorted[0].listInfras), phase + 1, ext))
    ensures sorted[0] in todo && forall b | b in sorted[1..] :: b in todo
  {
    var best := sorted[0];
    assert (best, sorted[1..]) == Select(todo, st, ext.difficulty);
    RunUnfold(todo, st, phase, ext);
    ResumeStep(whole, plan, order, EntryOf(best, st, phase, ext), best,
               Run(todo, st, phase, ext), Run(sorted[1..], Repaired(st, best.listInfras), phase + 1, ext));
    SelectKeeps(todo, st, ext.difficulty);
  }

  /** The building taken and the buildings left all come from the list. */
  lemma SelectKeeps(todo: seq<Batiment>, st: State, difficulty: Infra -> ExtReal)
    requires todo != []
    ensures var sel := Select(todo, st, difficulty);
      sel.0 in todo && forall b | b in sel.1 :: b in todo
  {
    var sel := Select(todo, st, difficulty);
    assert sel.0 in multiset(todo);
    forall b | b in sel.1 ensures b in todo {
      assert b in multiset(sel.1);
      assert b in multiset(todo);
    }
  }

  /** Every building to repair is one of the buildings. */
  lemma ToRepairIn(bs: seq<Batiment>, st: State, ext: Externals)
    ensures forall b | b in ToRepair(bs, st, ext) :: b in bs
  {
  }

  /**
   * Step 3: the buildings with no house and those with at least one, each
   * in the order of the buildings, read in the current state `st0`.
   */
  method Categorize(batiments: seq<Batiment>, ext: Externals, ghost st0: State)
      returns (intacts: seq<Batiment>, aReparer: seq<Batiment>)
    requires Mirrors(st0, Universe(batiments))
    ensures intacts == Intacts(batiments, st0, ext)
    ensures aReparer == ToRepair(batiments, st0, ext)
  {
    intacts, aReparer := [], [];
    for k := 0 to |batiments|
      invariant intacts == Intacts(batiments[..k], st0, ext)
      invariant aReparer == ToRepair(batiments[..k], st0, ext)
    {
      var b := batiments[k];
      InUniverse(batiments, b);
      HeapReadsState(b, st0);
      var houses := ext.houses(b, TypesOf(b.listInfras));
      assert batiments[..k + 1][..k] == batiments[..k];
      if houses == 0 {
        intacts := intacts + [b];
      }
      if houses > 0 {
        aReparer := aReparer + [b];
      }
    }
    assert batiments[..|batiments|] == batiments;
  }

  /** The scores the sort compares, read from the heap: those of `Keys` in the state the heap is in. */
  method ScoreKeys(batiments: seq<Batiment>, todo: seq<Batiment>, difficulty: Infra -> ExtReal, ghost st: State)
      returns (keys: map<Batiment, ExtReal>)
    requires Mirrors(st, Universe(batiments))
    requires forall b | b in todo :: b in batiments
    ensures keys == Keys(todo, st, difficulty)
  {
    forall b | b in todo
      ensures b.GetPriorityScore(difficulty) == Score(b, st, difficulty)
    {
      InUniverse(batiments, b);
      HeapReadsScore(b, st, difficulty);
    }
    keys := map b | b in todo :: b.GetPriorityScore(difficulty);
    MapsAgree(keys, Keys(todo, st, difficulty));
  }

  lemma MapsAgree<K, V>(m1: map<K, V>, m2: map<K, V>)
    requires m1.Keys == m2.Keys
    requires forall k | k in m1 :: m1[k] == m2[k]
    ensures m1 == m2
  {
  }

  /** The entry of the building taken, read from the heap before its repair: that of `EntryOf`. */
  method RecordEntry(batiments: seq<Batiment>, best: Batiment, phase: int, ext: Externals, ghost st: State)
      returns (e: Entry)
    requires Mirrors(st, Universe(batiments))
    requires best in batiments
    ensures e == EntryOf(best, st, phase, ext)
  {
    InUniverse(batiments, best);
    HeapReadsState(best, st);
    var s := TypesOf(best.listInfras);
    e := Entry(phase, best.idBuilding, best.typeBatiment, ext.totalCost(best, s), ext.realDuration(best, s),
               ext.houses(best, s), ext.lastScore(best, s), ext.lastScore(best, s));
  }

  /** `best.repair()`: the heap and its mirror `st` move together. */
  method RepairMirrored(best: Batiment, ghost st: State, ghost u: set<Infra>)
    requires Mirrors(st, u)
    requires forall i | i in best.listInfras :: i in u
    modifies best.listInfras
    ensures Mirrors(Repaired(st, best.listInfras), u)
  {
    label BeforeRepair:
    best.Repair();
    forall i | i in u
      ensures Repaired(st, best.listInfras)[i] == i.infraType
    {
      if i !in best.listInfras {
        assert i.infraType == old@BeforeRepair(i.infraType) == st[i];
      }
    }
  }

  /**
   * One turn of `while batiments_a_reparer`: score, sort, pop the head,
   * record its entry, repair it.  What is done grows by that building and
   * its entry, and `Run` goes on from the rest in the repaired state.
   */
  method Turn(batiments: seq<Batiment>, todo: seq<Batiment>, phase: int, ext: Externals,
              ghost whole: Outcome, ghost plan: seq<Entry>, ghost order: seq<Batiment>, ghost st: State)
      returns (e: Entry, rest: seq<Batiment>, ghost best: Batiment, ghost st1: State)
    requires Mirrors(st, Universe(batiments))
    requires todo != [] && forall b | b in todo :: b in batiments
    requires whole == Resume(plan, order, Run(todo, st, phase, ext))
    modifies Universe(batiments)
    ensures Mirrors(st1, Universe(batiments))
    ensures |rest| < |todo| && forall b | b in rest :: b in batiments
    ensures whole == Resume(plan + [e], order + [best], Run(rest, st1, phase + 1, ext))
  {
    var keys := ScoreKeys(batiments, todo, ext.difficulty, st);
    var sorted := Sort(todo, ByKey(keys));
    var b := sorted[0];
    LoopStep(whole, plan, order, todo, st, phase, ext, sorted);
    rest := sorted[1..];
    e := RecordEntry(batiments, b, phase, ext, st);
    InUniverse(batiments, b);
    RepairMirrored(b, st, Universe(batiments));
    best, st1 := b, Repaired(st, b.listInfras);
  }

  /**
   * Step 4: the loop.  It records the entries `Run` describes and leaves
   * every segment in the state `Run` ends with.
   */
  method RepairLoop(batiments: seq<Batiment>, aReparer: seq<Batiment>, ext: Externals, ghost st0: State)
      returns (plan: seq<Entry>)
    requires Mirrors(st0, Universe(batiments))
    requires forall b | b in aReparer :: b in batiments
    modifies Universe(batiments)
    ensures plan == Run(aReparer, st0, 1, ext).plan
    ensures Mirrors(Run(aReparer, st0, 1, ext).states, Universe(batiments))
  {
    ghost var whole := Run(aReparer, st0, 1, ext);
    var todo := aReparer;
    var phase := 1;
    plan := [];
    ghost var st := st0;
    ghost var order: seq<Batiment> := [];
    ResumeNothing(whole);
    while |todo| > 0
      invariant Mirrors(st, Universe(batiments))
      invariant forall b | b in todo :: b in batiments
      invariant whole == Resume(plan, order, Run(todo, st, phase, ext))
      decreases |todo|
    {
      var e; ghost var best;
      e, todo, best, st := Turn(batiments, todo, phase, ext, whole, plan, order, st);
      plan := plan + [e];
      order := order + [best];
      phase := phase + 1;
    }
    ResumeEnd(whole, plan, order, st, phase, ext);
  }

  /**
   * Steps 3 to 5 on the buildings of step 2: the plan and the totals are
   * those of `Run` from the initial state, the states of the segments end as
   * `Run` says, and nothing outside the network changes.
   */
  method Schedule(batiments: seq<Batiment>, ext: Externals)
      returns (intacts: seq<Batiment>, aReparer: seq<Batiment>, plan: seq<Entry>,
               totalCout: real, totalDuree: real, totalMaisons: int)
    modifies Universe(batiments)
    ensures var st0 := old(map i | i in Universe(batiments) :: i.infraType);
      && intacts == Intacts(batiments, st0, ext)
      && aReparer == ToRepair(batiments, st0, ext)
      && plan == Run(aReparer, st0, 1, ext).plan
      && Mirrors(Run(aReparer, st0, 1, ext).states, Universe(batiments))
    ensures totalCout == SumCost(plan) && totalDuree == SumDuration(plan) && totalMaisons == SumHouses(plan)
  {
    ghost var st0 := map i | i in Universe(batiments) :: i.infraType;
    intacts, aReparer := Categorize(batiments, ext, st0);
    ToRepairIn(batiments, st0, ext);
    plan := RepairLoop(batiments, aReparer, ext, st0);

    // Step 5
    totalCout := SumCost(plan);
    totalDuree := SumDuration(plan);
    totalMaisons := SumHouses(plan);
  }

  /** The state each segment of `bs` is created with: that of the first row of its id. */
  function InitialStates(rows: seq<Row>, bs: seq<Batiment>): State
  {
    map i | i in Universe(bs) :: FirstState(rows, i.infraId)
  }

  /** The segments of the buildings of step 2 are objects of step 1, in the state of their first row. */
  lemma BuiltNetwork(rows: seq<Row>, infraDict: map<string, Infra>, batiments: seq<Batiment>)
    requires SegmentTable(rows, infraDict)
    requires |batiments| == |GroupKeys(rows)|
    requires forall k | 0 <= k < |batiments| :: BuildingOf(rows, infraDict, GroupKeys(rows)[k], batiments[k])
    ensures Universe(batiments) <= infraDict.Values
    ensures (map i | i in Universe(batiments) :: i.infraType) == InitialStates(rows, batiments)
  {
    forall i | i in Universe(batiments)
      ensures i in infraDict.Values && i.infraType == FirstState(rows, i.infraId)
    {
      var id := InTable(rows, infraDict, batiments, i);
      StoredState(rows, infraDict, id);
    }
    StatesAsBuilt(rows, batiments);
  }

  /** The state of the first row of segment `id`, or "" when no row has it. */
  function FirstState(rows: seq<Row>, id: string): string
  {
    var j := FirstIndex(rows, id); if j < |rows| then rows[j].infraType else ""
  }

  /** An object of step 1 has the state of the first row of its id. */
  lemma StoredState(rows: seq<Row>, infraDict: map<string, Infra>, id: string)
    requires SegmentTable(rows, infraDict) && id in infraDict
    ensures infraDict[id].infraType == FirstState(rows, infraDict[id].infraId)
  {
    var j := FirstIndex(rows, id);
    assert j < |rows| && BuiltFrom(infraDict[id], rows[j]) && infraDict[id].infraType == FirstState(rows, id);
  }

  /** Segments in the state of their first row make up the initial states. */
  lemma StatesAsBuilt(rows: seq<Row>, bs: seq<Batiment>)
    requires forall i | i in Universe(bs) :: i.infraType == FirstState(rows, i.infraId)
    ensures (map i | i in Universe(bs) :: i.infraType) == InitialStates(rows, bs)
  {
  }

  /** A segment of a building of step 2 is the object stored under some id. */
  lemma InTable(rows: seq<Row>, infraDict: map<string, Infra>, batiments: seq<Batiment>, i: Infra) returns (id: string)
    requires |batiments| == |GroupKeys(rows)|
    requires forall k | 0 <= k < |batiments| :: BuildingOf(rows, infraDict, GroupKeys(rows)[k], batiments[k])
    requires i in Universe(batiments)
    ensures id in infraDict && infraDict[id] == i
  {
    var b :| b in batiments && i in b.listInfras;
    var k :| 0 <= k < |batiments| && batiments[k] == b;
    var j :| 0 <= j < |b.listInfras| && b.listInfras[j] == i;
    var ids := SegmentIdsOf(rows, GroupKeys(rows)[k]);
    id := ids[j];
  }

  /**
   * `planifier_reparations`, steps 1 to 5: the objects are built from the
   * table and the plan is the one `Run` computes from the states of the
   * table's rows.
   */
  method PlanifierReparations(rows: seq<Row>, ext: Externals)
      returns (batiments: seq<Batiment>, intacts: seq<Batiment>, aReparer: seq<Batiment>, plan: seq<Entry>,
               totalCout: real, totalDuree: real, totalMaisons: int, ghost infraDict: map<string, Infra>)
    ensures SegmentIndex(rows, infraDict) && Universe(batiments) <= infraDict.Values
    ensures |batiments| == |GroupKeys(rows)|
    ensures forall k | 0 <= k < |batiments| :: BuildingOf(rows, infraDict, GroupKeys(rows)[k], batiments[k])
    ensures var st0 := InitialStates(rows, batiments);
      && intacts == Intacts(batiments, st0, ext)
      && aReparer == ToRepair(batiments, st0, ext)
      && plan == Run(aReparer, st0, 1, ext).plan
      && Mirrors(Run(aReparer, st0, 1, ext).states, Universe(batiments))
    ensures totalCout == SumCost(plan) && totalDuree == SumDuration(plan) && totalMaisons == SumHouses(plan)
  {
    var dict := BuildInfras(rows);
    infraDict := dict;
    batiments := BuildBatiments(rows, dict);
    BuiltNetwork(rows, dict, batiments);
    assert forall i | i in Universe(batiments) :: fresh(i) by {
      forall i | i in Universe(batiments) ensures fresh(i) {
        var id :| id in dict && dict[id] == i;
      }
    }
    intacts, aReparer, plan, totalCout, totalDuree, totalMaisons := Schedule(batiments, ext);
  }
}
