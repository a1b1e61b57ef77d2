/**
 * raccordement_phase.py: the rows of the plan (one per building to repair)
 * are sorted by score and cut into construction phases — every hospital in
 * phase 0, every other building in the first of four cost slices (40, 60, 80
 * and 100 % of the total cost) that its running cost still fits in — and
 * each phase is then summarised: cost summed, duration the longest one,
 * four workers per house.
 */
module Phases {
  import opened Lists

  /** One row of `plan_df`. */
  datatype PlanRow = PlanRow(idBatiment: string, typeBatiment: string, coutTotal: real,
                             dureeTotaleH: real, nbMaisons: int, score: real)

  /** A row with its `phase_construct`. */
  datatype Phased = Phased(row: PlanRow, phase: int)

  const Hopital: string := "h\U{F4}pital"

  // ---------------------------------------------------------------------
  // assigner_phases
  // ---------------------------------------------------------------------

  /** The order of `sort_values(by="score")`. */
  function ByScore(): (PlanRow, PlanRow) -> bool
  {
    (a: PlanRow, b: PlanRow) => a.score < b.score
  }

  lemma ByScoreIsStrictWeakOrder(rows: seq<PlanRow>)
    ensures StrictWeakOrderOn(rows, ByScore())
  {
  }

  /** `plan_df["cout_total"].sum()`, hospitals included. */
  function TotalCost(rows: seq<PlanRow>): real
  {
    if rows == [] then 0.0 else TotalCost(rows[..|rows| - 1]) + rows[|rows| - 1].coutTotal
  }

  /** `seuils["phase_k"]`: 40, 60, 80 and 100 % of the total cost. */
  function Threshold(k: int, total: real): real
    requires 1 <= k <= 4
  {
    if k == 1 then total * 0.40
    else if k == 2 then total * 0.60
    else if k == 3 then total * 0.80
    else total
  }

  /** The phase of a row whose running cost is `cum`: the first slice it fits in, the last one otherwise. */
  function Bucket(cum: real, total: real): (k: int)
    ensures 1 <= k <= 4
    ensures k < 4 ==> cum <= Threshold(k, total)
    ensures forall j | 1 <= j < k :: cum > Threshold(j, total)
  {
    if cum <= total * 0.40 then 1
    else if cum <= total * 0.60 then 2
    else if cum <= total * 0.80 then 3
    else 4
  }

  /** A larger running cost never gives an earlier phase. */
  lemma BucketMonotone(c1: real, c2: real, total: real)
    requires c1 <= c2
    ensures Bucket(c1, total) <= Bucket(c2, total)
  {
  }

  /** `cum_cost` after the rows `rows`: hospitals add nothing. */
  function CumCost(rows: seq<PlanRow>): real
  {
    if rows == [] then 0.0
    else
      var last := rows[|rows| - 1];
      CumCost(rows[..|rows| - 1]) + (if last.typeBatiment == Hopital then 0.0 else last.coutTotal)
  }

  /** The phase given to the `i`-th row of the sorted plan. */
  function PhaseAt(sorted: seq<PlanRow>, i: int): (p: int)
    requires 0 <= i < |sorted|
    ensures 0 <= p <= 4
    ensures p == 0 <==> sorted[i].typeBatiment == Hopital
  {
    if sorted[i].typeBatiment == Hopital then 0 else Bucket(CumCost(sorted[..i + 1]), TotalCost(sorted))
  }

  /** The rows of a phased plan, in order. */
  function RowsOf(plan: seq<Phased>): (rows: seq<PlanRow>)
    ensures |rows| == |plan| && forall i | 0 <= i < |plan| :: rows[i] == plan[i].row
  {
    seq(|plan|, i requires 0 <= i < |plan| => plan[i].row)
  }

  predicate SortedByScore(rows: seq<PlanRow>)
  {
    forall i, j | 0 <= i < j < |rows| :: rows[i].score <= rows[j].score
  }

  /**
   * `assigner_phases`: the rows, sorted by score, each with its phase; the
   * running cost is kept in `cumCost` as the source does.  Only the order of
   * rows with equal scores is left open, as `sort_values` does not promise one.
   */
  method AssignPhases(planDf: seq<PlanRow>) returns (plan: seq<Phased>)
    ensures multiset(RowsOf(plan)) == multiset(planDf) && SortedByScore(RowsOf(plan))
    ensures forall i | 0 <= i < |plan| :: plan[i].phase == PhaseAt(RowsOf(plan), i)
  {
    var sorted := Sort(planDf, ByScore());
    plan := PhaseRows(sorted);
    PhasedSorted(planDf, sorted, plan);
  }

  /** The loop of `assigner_phases` over the sorted rows, keeping the running cost in `cumCost`. */
  method PhaseRows(sorted: seq<PlanRow>) returns (plan: seq<Phased>)
    ensures |plan| == |sorted|
    ensures forall j | 0 <= j < |sorted| :: plan[j] == Phased(sorted[j], PhaseAt(sorted, j))
  {
    var totalCost := TotalCost(sorted);
    var cumCost := 0.0;
    plan := [];
    for i := 0 to |sorted|
      invariant |plan| == i
      invariant cumCost == CumCost(sorted[..i])
      invariant forall j | 0 <= j < i :: plan[j] == Phased(sorted[j], PhaseAt(sorted, j))
    {
      var row := sorted[i];
      CumCostStep(sorted, i);
      var phase;
      if row.typeBatiment == Hopital {
        phase := 0;
      } else {
        cumCost := cumCost + row.coutTotal;
        if cumCost <= totalCost * 0.40 {
          phase := 1;
        } else if cumCost <= totalCost * 0.60 {
          phase := 2;
        } else if cumCost <= totalCost * 0.80 {
          phase := 3;
        } else {
          phase := 4;
        }
      }
      assert phase == PhaseAt(sorted, i);
      ghost var before := plan;
      plan := plan + [Phased(row, phase)];
      forall j | 0 <= j < i + 1 ensures plan[j] == Phased(sorted[j], PhaseAt(sorted, j)) {
        if j < i { assert plan[j] == before[j]; }
      }
    }
  }

  /** A plan that carries the sorted rows in order, each with its phase, meets `AssignPhases`' contract. */
  lemma PhasedSorted(planDf: seq<PlanRow>, sorted: seq<PlanRow>, plan: seq<Phased>)
    requires sorted == Sort(planDf, ByScore())
    requires |plan| == |sorted|
    requires forall j | 0 <= j < |sorted| :: plan[j] == Phased(sorted[j], PhaseAt(sorted, j))
    ensures multiset(RowsOf(plan)) == multiset(planDf) && SortedByScore(RowsOf(plan))
    ensures forall i | 0 <= i < |plan| :: plan[i].phase == PhaseAt(RowsOf(plan), i)
  {
    SortedRows(planDf);
    assert RowsOf(plan) == sorted;
  }

  /** One more row adds its own cost to `cum_cost`, unless it is a hospital. */
  lemma CumCostStep(sorted: seq<PlanRow>, i: int)
    requires 0 <= i < |sorted|
    ensures CumCost(sorted[..i + 1]) == CumCost(sorted[..i]) + (if sorted[i].typeBatiment == Hopital then 0.0 else sorted[i].coutTotal)
  {
    assert sorted[..i + 1][..i] == sorted[..i];
  }

  /** The stable sort by score is one of the orders `sort_values` may produce. */
  lemma SortedRows(planDf: seq<PlanRow>)
    ensures var s := Sort(planDf, ByScore()); multiset(s) == multiset(planDf) && SortedByScore(s)
  {
    ByScoreIsStrictWeakOrder(planDf);
    SortIsSorted(planDf, ByScore());
    var s := Sort(planDf, ByScore());
    forall i, j | 0 <= i < j < |s| ensures s[i].score <= s[j].score {
      assert !ByScore()(s[j], s[i]);
    }
  }

  /** The thresholds do not depend on the order of the rows: any permutation has the same total cost. */
  lemma {:induction false} TotalCostPermutation(a: seq<PlanRow>, b: seq<PlanRow>)
    requires multiset(a) == multiset(b)
    ensures TotalCost(a) == TotalCost(b)
    decreases |a|
  {
    if a == [] {
      assert |b| == |multiset(b)| == 0;
    } else {
      var n := |a| - 1;
      var x := a[n];
      assert a == a[..n] + [x];
      assert x in multiset(b);
      var k :| 0 <= k < |b| && b[k] == x;
      RemoveOne(a, b, k);
      TotalCostPermutation(a[..n], b[..k] + b[k + 1..]);
      TotalCostRemove(b, k);
    }
  }

  /** Taking row k out of a list takes its cost out of the total. */
  lemma TotalCostRemove(b: seq<PlanRow>, k: int)
    requires 0 <= k < |b|
    ensures TotalCost(b) == TotalCost(b[..k] + b[k + 1..]) + b[k].coutTotal
  {
    var x := b[k];
    assert b == b[..k] + [x] + b[k + 1..];
    TotalCostAppend(b[..k] + [x], b[k + 1..]);
    TotalCostAppend(b[..k], b[k + 1..]);
    assert TotalCost(b[..k] + [x]) == TotalCost(b[..k]) + x.coutTotal by {
      assert (b[..k] + [x])[..k] == b[..k];
    }
  }

  lemma {:induction false} TotalCostAppend(u: seq<PlanRow>, v: seq<PlanRow>)
    ensures TotalCost(u + v) == TotalCost(u) + TotalCost(v)
    decreases |v|
  {
    if v == [] {
      assert u + v == u;
    } else {
      var n := |v| - 1;
      TotalCostAppend(u, v[..n]);
      assert (u + v)[..|u + v| - 1] == u + v[..n];
    }
  }

  lemma {:induction false} CumCostGrows(rows: seq<PlanRow>, i: int, j: int)
    requires 0 <= i <= j <= |rows|
    requires forall k | 0 <= k < |rows| && rows[k].typeBatiment != Hopital :: rows[k].coutTotal >= 0.0
    ensures CumCost(rows[..i]) <= CumCost(rows[..j])
    decreases j - i
  {
    if i < j {
      CumCostGrows(rows, i, j - 1);
      assert rows[..j][..j - 1] == rows[..j - 1];
    }
  }

  /**
   * With non-negative costs, phases never go down along the sorted rows
   * that are not hospitals.
   */
  lemma PhasesNonDecreasing(sorted: seq<PlanRow>, i: int, j: int)
    requires 0 <= i <= j < |sorted|
    requires forall k | 0 <= k < |sorted| && sorted[k].typeBatiment != Hopital :: sorted[k].coutTotal >= 0.0
    requires sorted[i].typeBatiment != Hopital && sorted[j].typeBatiment != Hopital
    ensures PhaseAt(sorted, i) <= PhaseAt(sorted, j)
  {
    CumCostGrows(sorted, i + 1, j + 1);
    BucketMonotone(CumCost(sorted[..i + 1]), CumCost(sorted[..j + 1]), TotalCost(sorted));
  }

  /** With non-negative costs, the last slice takes whatever is left, so no row ever goes past the total. */
  lemma {:induction false} CumCostBelowTotal(rows: seq<PlanRow>)
    requires forall k | 0 <= k < |rows| :: rows[k].coutTotal >= 0.0
    ensures 0.0 <= CumCost(rows) <= TotalCost(rows)
  {
    if rows != [] {
      CumCostBelowTotal(rows[..|rows| - 1]);
    }
  }

  // ---------------------------------------------------------------------
  // executer_phases
  // ---------------------------------------------------------------------

  /** What `get_building_houses`, `get_total_cost` and `get_real_duration` return for a building. */
  datatype Figures = Figures(houses: int, totalCost: real, realDuration: real)

  /** The summary printed for one phase. */
  datatype Summary = Summary(phase: int, coutTotal: real, dureeMax: real, ouvriers: int)

  datatype Outcome = Done(summaries: seq<Summary>) | KeyError(key: string)

  const OuvriersParPrise: int := 4

  /** The phase numbers of the plan, each once, in increasing order. */
  function PhaseNumbers(plan: seq<Phased>): (ps: seq<int>)
    ensures forall i | 0 <= i < |plan| :: plan[i].phase in ps
    ensures forall p | p in ps :: exists i | 0 <= i < |plan| :: plan[i].phase == p
    ensures forall i, j | 0 <= i < j < |ps| :: ps[i] < ps[j]
  {
    var xs := seq(|plan|, i requires 0 <= i < |plan| => plan[i].phase);
    var ps := Sort(Distinct(xs), IntLess);
    PhaseOrder(plan, xs, ps);
    ps
  }

  predicate IntLess(a: int, b: int)
  {
    a < b
  }

  /** `sorted(plan_df["phase_construct"].unique())` holds every phase of the plan once, increasing, and nothing else. */
  lemma PhaseOrder(plan: seq<Phased>, xs: seq<int>, ps: seq<int>)
    requires |xs| == |plan| && forall i | 0 <= i < |xs| :: xs[i] == plan[i].phase
    requires ps == Sort(Distinct(xs), IntLess)
    ensures forall i | 0 <= i < |plan| :: plan[i].phase in ps
    ensures forall p | p in ps :: exists i | 0 <= i < |plan| :: plan[i].phase == p
    ensures forall i, j | 0 <= i < j < |ps| :: ps[i] < ps[j]
  {
    var d := Distinct(xs);
    IntLessOrder(d);
    SortIsSorted(d, IntLess);
    IncreasingFromSorted(d, ps);
    SamePhases(plan, xs, d, ps);
  }

  lemma IntLessOrder(d: seq<int>)
    ensures StrictWeakOrderOn(d, IntLess)
  {
  }

  /** A rearrangement of the distinct phases of the plan holds exactly the plan's phases. */
  lemma SamePhases(plan: seq<Phased>, xs: seq<int>, d: seq<int>, ps: seq<int>)
    requires |xs| == |plan| && forall i | 0 <= i < |xs| :: xs[i] == plan[i].phase
    requires forall x | x in xs :: x in d
    requires forall x | x in d :: x in xs
    requires multiset(ps) == multiset(d)
    ensures forall i | 0 <= i < |plan| :: plan[i].phase in ps
    ensures forall p | p in ps :: exists i | 0 <= i < |plan| :: plan[i].phase == p
  {
    forall i | 0 <= i < |plan| ensures plan[i].phase in ps {
      assert xs[i] in xs;
      assert xs[i] in multiset(d);
    }
    forall p | p in ps ensures exists i | 0 <= i < |plan| :: plan[i].phase == p {
      assert p in multiset(d);
      assert p in d && p in xs;
      var i :| 0 <= i < |xs| && xs[i] == p;
    }
  }

  lemma IncreasingFromSorted(d: seq<int>, ps: seq<int>)
    requires forall i, j | 0 <= i < j < |d| :: d[i] != d[j]
    requires multiset(ps) == multiset(d)
    requires SortedBy(ps, IntLess)
    ensures forall i, j | 0 <= i < j < |ps| :: ps[i] < ps[j]
  {
    forall i, j | 0 <= i < j < |ps| ensures ps[i] < ps[j] {
      assert !(ps[j] < ps[i]);
      DistinctAfterSort(d, ps, i, j);
    }
  }

  /** `plan_df[plan_df["phase_construct"] == p]`, in row order. */
  function RowsIn(plan: seq<Phased>, p: int): seq<PlanRow>
  {
    if plan == [] then []
    else
      var last := plan[|plan| - 1];
      RowsIn(plan[..|plan| - 1], p) + (if last.phase == p then [last.row] else [])
  }

  /** `batiments_dict[id]`, where the id is known. */
  function FiguresOf(batiments: map<string, Figures>, id: string): Figures
  {
    if id in batiments then batiments[id] else Figures(0, 0.0, 0.0)
  }

  function PhaseCost(rows: seq<PlanRow>, batiments: map<string, Figures>): real
  {
    if rows == [] then 0.0
    else PhaseCost(rows[..|rows| - 1], batiments) + FiguresOf(batiments, rows[|rows| - 1].idBatiment).totalCost
  }

  /** `max` folded over the durations, from 0. */
  function PhaseDuration(rows: seq<PlanRow>, batiments: map<string, Figures>): real
  {
    if rows == [] then 0.0
    else
      var d := FiguresOf(batiments, rows[|rows| - 1].idBatiment).realDuration;
      var m := PhaseDuration(rows[..|rows| - 1], batiments);
      if m >= d then m else d
  }

  function PhaseWorkers(rows: seq<PlanRow>, batiments: map<string, Figures>): int
  {
    if rows == [] then 0
    else PhaseWorkers(rows[..|rows| - 1], batiments) + FiguresOf(batiments, rows[|rows| - 1].idBatiment).houses * OuvriersParPrise
  }

  /** The summary of phase `p`. */
  function SummaryOf(plan: seq<Phased>, p: int, batiments: map<string, Figures>): Summary
  {
    var rows := RowsIn(plan, p);
    Summary(p, PhaseCost(rows, batiments), PhaseDuration(rows, batiments), PhaseWorkers(rows, batiments))
  }

  /** The rows of phase `p` are exactly the rows of the plan marked `p`. */
  /** Filtering keeps row order: the rows of a phase in `a + b` are those in `a` followed by those in `b`. */
  lemma {:induction false} RowsInOrder(a: seq<Phased>, b: seq<Phased>, p: int)
    ensures RowsIn(a + b, p) == RowsIn(a, p) + RowsIn(b, p)
  {
    if b == [] {
      assert a + b == a;
    } else {
      var n := |b| - 1;
      assert (a + b)[..|a + b| - 1] == a + b[..n];
      RowsInOrder(a, b[..n], p);
    }
  }

  lemma {:induction false} RowsInSpec(plan: seq<Phased>, p: int)
    ensures forall i | 0 <= i < |plan| && plan[i].phase == p :: plan[i].row in RowsIn(plan, p)
    ensures forall row | row in RowsIn(plan, p) :: exists i | 0 <= i < |plan| :: plan[i].phase == p && plan[i].row == row
  {
    if plan != [] {
      var n := |plan| - 1;
      var front := plan[..n];
      RowsInSpec(front, p);
      forall i | 0 <= i < |plan| && plan[i].phase == p ensures plan[i].row in RowsIn(plan, p) {
        if i < n {
          assert front[i] == plan[i];
        }
      }
      forall row | row in RowsIn(plan, p)
        ensures exists i | 0 <= i < |plan| :: plan[i].phase == p && plan[i].row == row
      {
        if row in RowsIn(front, p) {
          var i :| 0 <= i < |front| && front[i].phase == p && front[i].row == row;
          assert plan[i] == front[i];
        } else {
          assert plan[n].phase == p && plan[n].row == row;
        }
      }
    }
  }

  /** The cost of the whole plan, row by row. */
  function PlanCost(plan: seq<Phased>, batiments: map<string, Figures>): real
  {
    if plan == [] then 0.0
    else PlanCost(plan[..|plan| - 1], batiments) + FiguresOf(batiments, plan[|plan| - 1].row.idBatiment).totalCost
  }

  /** The phase costs of the phases `ps`, added up. */
  function CostOverPhases(plan: seq<Phased>, ps: seq<int>, batiments: map<string, Figures>): real
  {
    if ps == [] then 0.0
    else PhaseCost(RowsIn(plan, ps[0]), batiments) + CostOverPhases(plan, ps[1..], batiments)
  }

  /** The phases partition the plan: their costs add up to the cost of the whole plan. */
  lemma PhaseCostsAddUp(plan: seq<Phased>, batiments: map<string, Figures>)
    ensures CostOverPhases(plan, PhaseNumbers(plan), batiments) == PlanCost(plan, batiments)
  {
    CostOverCovering(plan, PhaseNumbers(plan), batiments);
  }

  lemma {:induction false} CostOverCovering(plan: seq<Phased>, ps: seq<int>, batiments: map<string, Figures>)
    requires forall i, j | 0 <= i < j < |ps| :: ps[i] != ps[j]
    requires forall i | 0 <= i < |plan| :: plan[i].phase in ps
    ensures CostOverPhases(plan, ps, batiments) == PlanCost(plan, batiments)
  {
    if plan == [] {
      CostOverNoRows(ps, batiments);
    } else {
      var n := |plan| - 1;
      assert forall i | 0 <= i < n :: plan[..n][i] == plan[i];
      CostOverCovering(plan[..n], ps, batiments);
      CostOverStep(plan, ps, batiments);
    }
  }

  lemma {:induction false} CostOverNoRows(ps: seq<int>, batiments: map<string, Figures>)
    ensures CostOverPhases([], ps, batiments) == 0.0
  {
    if ps != [] {
      CostOverNoRows(ps[1..], batiments);
    }
  }

  /** Adding the last row of the plan adds its cost to the one phase of `ps` it belongs to. */
  lemma {:induction false} CostOverStep(plan: seq<Phased>, ps: seq<int>, batiments: map<string, Figures>)
    requires plan != []
    requires forall i, j | 0 <= i < j < |ps| :: ps[i] != ps[j]
    ensures var last := plan[|plan| - 1];
      CostOverPhases(plan, ps, batiments)
      == CostOverPhases(plan[..|plan| - 1], ps, batiments)
         + (if last.phase in ps then FiguresOf(batiments, last.row.idBatiment).totalCost else 0.0)
  {
    if ps != [] {
      var last := plan[|plan| - 1];
      assert forall i, j | 0 <= i < j < |ps[1..]| :: ps[1..][i] != ps[1..][j] by {
        forall i, j | 0 <= i < j < |ps[1..]| ensures ps[1..][i] != ps[1..][j] {
          assert ps[1..][i] == ps[i + 1] && ps[1..][j] == ps[j + 1];
        }
      }
      CostOverStep(plan, ps[1..], batiments);
      if last.phase == ps[0] {
        assert last.phase !in ps[1..] by {
          forall k | 0 <= k < |ps[1..]| ensures ps[1..][k] != ps[0] {
            assert ps[1..][k] == ps[k + 1];
          }
        }
        var rows := RowsIn(plan[..|plan| - 1], ps[0]);
        assert RowsIn(plan, ps[0]) == rows + [last.row];
        assert (rows + [last.row])[..|rows|] == rows;
      } else {
        assert RowsIn(plan, ps[0]) == RowsIn(plan[..|plan| - 1], ps[0]);
      }
      assert last.phase in ps <==> last.phase == ps[0] || last.phase in ps[1..];
    }
  }

  /**
   * The duration of a phase is the longest duration of its rows, and 0 when
   * they are all shorter: it bounds every row and is either 0 or one of them.
   */
  lemma {:induction false} PhaseDurationIsMax(rows: seq<PlanRow>, batiments: map<string, Figures>)
    ensures PhaseDuration(rows, batiments) >= 0.0
    ensures forall k | 0 <= k < |rows| :: PhaseDuration(rows, batiments) >= FiguresOf(batiments, rows[k].idBatiment).realDuration
    ensures PhaseDuration(rows, batiments) == 0.0
         || exists k | 0 <= k < |rows| :: PhaseDuration(rows, batiments) == FiguresOf(batiments, rows[k].idBatiment).realDuration
  {
    if rows != [] {
      var n := |rows| - 1;
      PhaseDurationIsMax(rows[..n], batiments);
      assert forall k | 0 <= k < n :: rows[..n][k] == rows[k];
    }
  }

  /** The houses of a phase's buildings. */
  function PhaseHouses(rows: seq<PlanRow>, batiments: map<string, Figures>): int
  {
    if rows == [] then 0
    else FiguresOf(batiments, rows[0].idBatiment).houses + PhaseHouses(rows[1..], batiments)
  }

  lemma {:induction false} PhaseHousesLast(rows: seq<PlanRow>, batiments: map<string, Figures>)
    requires rows != []
    ensures PhaseHouses(rows, batiments)
         == PhaseHouses(rows[..|rows| - 1], batiments) + FiguresOf(batiments, rows[|rows| - 1].idBatiment).houses
  {
    if |rows| > 1 {
      PhaseHousesLast(rows[1..], batiments);
      assert rows[1..][..|rows| - 2] == rows[..|rows| - 1][1..];
    }
  }

  /** Four workers per house of the phase. */
  lemma {:induction false} PhaseWorkersPerHouse(rows: seq<PlanRow>, batiments: map<string, Figures>)
    ensures PhaseWorkers(rows, batiments) == OuvriersParPrise * PhaseHouses(rows, batiments)
  {
    if rows != [] {
      var n := |rows| - 1;
      PhaseWorkersPerHouse(rows[..n], batiments);
      PhaseHousesLast(rows, batiments);
    }
  }

  /** What the rows of one phase give: a summary, or the first building missing from the dictionary. */
  datatype PhaseOutcome = Summarized(summary: Summary) | Missing(key: string)

  /** `key` is the building of row `j` of `rows`, the first row whose building is not in the dictionary. */
  ghost predicate FirstMissing(rows: seq<PlanRow>, batiments: map<string, Figures>, key: string)
  {
    exists j | 0 <= j < |rows| ::
      && rows[j].idBatiment == key && key !in batiments
      && forall m | 0 <= m < j :: rows[m].idBatiment in batiments
  }

  /** The body of the loop of `executer_phases` for one phase: the three accumulators over its rows. */
  method SummarizePhase(plan: seq<Phased>, phaseNum: int, batiments: map<string, Figures>) returns (r: PhaseOutcome)
    ensures r.Summarized? <==> forall i | 0 <= i < |plan| && plan[i].phase == phaseNum :: plan[i].row.idBatiment in batiments
    ensures r.Summarized? ==> r.summary == SummaryOf(plan, phaseNum, batiments)
    ensures r.Missing? ==> FirstMissing(RowsIn(plan, phaseNum), batiments, r.key)
    ensures r.Missing? ==> exists i | 0 <= i < |plan| :: plan[i].phase == phaseNum && plan[i].row.idBatiment == r.key
  {
    var batimentsPhase := RowsIn(plan, phaseNum);
    RowsInSpec(plan, phaseNum);
    var phaseCoutTotal := 0.0;
    var phaseDureeMax := 0.0;
    var totalOuvriers := 0;
    for j := 0 to |batimentsPhase|
      invariant phaseCoutTotal == PhaseCost(batimentsPhase[..j], batiments)
      invariant phaseDureeMax == PhaseDuration(batimentsPhase[..j], batiments)
      invariant totalOuvriers == PhaseWorkers(batimentsPhase[..j], batiments)
      invariant forall m | 0 <= m < j :: batimentsPhase[m].idBatiment in batiments
    {
      var row := batimentsPhase[j];
      if row.idBatiment !in batiments {
        assert row in batimentsPhase;
        assert batimentsPhase[j].idBatiment == row.idBatiment;
        return Missing(row.idBatiment);
      }
      var bat := batiments[row.idBatiment];
      var nbPrises := bat.houses;
      var nbOuvriers := nbPrises * OuvriersParPrise;
      var coutBat := bat.totalCost;
      var dureeBat := bat.realDuration;
      assert batimentsPhase[..j + 1][..j] == batimentsPhase[..j];
      phaseCoutTotal := phaseCoutTotal + coutBat;
      phaseDureeMax := if phaseDureeMax >= dureeBat then phaseDureeMax else dureeBat;
      totalOuvriers := totalOuvriers + nbOuvriers;
    }
    assert batimentsPhase[..|batimentsPhase|] == batimentsPhase;
    return Summarized(Summary(phaseNum, phaseCoutTotal, phaseDureeMax, totalOuvriers));
  }

  /**
   * `executer_phases`: one summary per phase number, in increasing order.
   * A row whose building is not in the dictionary raises `KeyError`: the
   * first such row of the first phase that has one.
   */
  method ExecutePhases(plan: seq<Phased>, batiments: map<string, Figures>) returns (r: Outcome)
    ensures r.Done? <==> forall i | 0 <= i < |plan| :: plan[i].row.idBatiment in batiments
    ensures r.Done? ==> (|r.summaries| == |PhaseNumbers(plan)|
      && forall k | 0 <= k < |r.summaries| :: r.summaries[k] == SummaryOf(plan, PhaseNumbers(plan)[k], batiments))
    ensures r.KeyError? ==> exists k | 0 <= k < |PhaseNumbers(plan)| ::
      && (forall i | 0 <= i < |plan| && plan[i].phase < PhaseNumbers(plan)[k] :: plan[i].row.idBatiment in batiments)
      && FirstMissing(RowsIn(plan, PhaseNumbers(plan)[k]), batiments, r.key)
  {
    var phaseNums := PhaseNumbers(plan);
    var k;
    r, k := SummarizeAll(plan, phaseNums, batiments);
    if r.Done? {
      forall i | 0 <= i < |plan| ensures plan[i].row.idBatiment in batiments {
        var m :| 0 <= m < |phaseNums| && phaseNums[m] == plan[i].phase;
      }
    } else {
      EarlierPhases(plan, phaseNums, k, batiments);
      assert !forall i | 0 <= i < |plan| :: plan[i].row.idBatiment in batiments by {
        var i :| 0 <= i < |plan| && plan[i].phase == phaseNums[k] && plan[i].row.idBatiment == r.key;
      }
    }
  }

  /**
   * The loop of `executer_phases` over the phase numbers `ps`: it stops at
   * phase `ps[k]` when that phase has a row whose building is missing.
   */
  method SummarizeAll(plan: seq<Phased>, ps: seq<int>, batiments: map<string, Figures>) returns (r: Outcome, k: int)
    ensures r.Done? ==> |r.summaries| == |ps| && forall m | 0 <= m < |ps| :: r.summaries[m] == SummaryOf(plan, ps[m], batiments)
    ensures r.Done? ==> forall m, i | 0 <= m < |ps| && 0 <= i < |plan| && plan[i].phase == ps[m] :: plan[i].row.idBatiment in batiments
    ensures r.KeyError? ==> (
      && 0 <= k < |ps|
      && (forall m, i | 0 <= m < k && 0 <= i < |plan| && plan[i].phase == ps[m] :: plan[i].row.idBatiment in batiments)
      && FirstMissing(RowsIn(plan, ps[k]), batiments, r.key)
      && exists i | 0 <= i < |plan| :: plan[i].phase == ps[k] && plan[i].row.idBatiment == r.key)
  {
    var summaries := [];
    k := 0;
    while k < |ps|
      invariant 0 <= k <= |ps|
      invariant |summaries| == k
      invariant forall m | 0 <= m < k :: summaries[m] == SummaryOf(plan, ps[m], batiments)
      invariant forall m, i | 0 <= m < k && 0 <= i < |plan| && plan[i].phase == ps[m] :: plan[i].row.idBatiment in batiments
    {
      var s := SummarizePhase(plan, ps[k], batiments);
      if s.Missing? {
        return KeyError(s.key), k;
      }
      ghost var before := summaries;
      summaries := summaries + [s.summary];
      forall m | 0 <= m < k + 1 ensures summaries[m] == SummaryOf(plan, ps[m], batiments) {
        if m < k { assert summaries[m] == before[m]; }
      }
      k := k + 1;
    }
    return Done(summaries), k;
  }

  /** With increasing phase numbers that cover the plan, the phases before `ps[k]` are the phases `ps[m]`, m < k. */
  lemma EarlierPhases(plan: seq<Phased>, ps: seq<int>, k: int, batiments: map<string, Figures>)
    requires ps == PhaseNumbers(plan) && 0 <= k < |ps|
    requires forall m, i | 0 <= m < k && 0 <= i < |plan| && plan[i].phase == ps[m] :: plan[i].row.idBatiment in batiments
    ensures forall i | 0 <= i < |plan| && plan[i].phase < ps[k] :: plan[i].row.idBatiment in batiments
  {
    forall i | 0 <= i < |plan| && plan[i].phase < ps[k] ensures plan[i].row.idBatiment in batiments {
      var m :| 0 <= m < |ps| && ps[m] == plan[i].phase;
      assert m < k;
    }
  }
}
