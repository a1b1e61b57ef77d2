/**
 * Batiment.py: a building and the segments that feed it.  The segments are
 * shared objects: a building only holds references, so repairing one
 * building changes what every building sharing a segment reports.
 *
 * The aggregates are stated twice over: as functions of a set `pend` of
 * segments still "a_remplacer" (the specification, used by the planner's
 * proofs), and as the heap-reading members of `Batiment`, which are those
 * functions applied to the current states of the building's segments.
 */
module Batiments {
  import opened ExtReals
  import opened Infras
  import Text

  /** PRIORITE_PAR_TYPE. */
  const PrioriteParType: map<string, int> := map["h\U{F4}pital" := 1, "\U{E9}cole" := 2, "habitation" := 3]

  /** `PRIORITE_PAR_TYPE.get(type, 4)`: 1 for a hospital, 2 for a school, 3 for housing, 4 otherwise. */
  function BasePriority(typeBatiment: string): (r: int)
    ensures 1 <= r <= 4
    ensures r == 1 <==> typeBatiment == "h\U{F4}pital"
    ensures r == 2 <==> typeBatiment == "\U{E9}cole"
    ensures r == 3 <==> typeBatiment == "habitation"
    ensures typeBatiment !in PrioriteParType <==> r == 4
  {
    if typeBatiment in PrioriteParType then PrioriteParType[typeBatiment] else 4
  }

  // ---------------------------------------------------------------------
  // Aggregates over the segments still to replace
  // ---------------------------------------------------------------------

  /** The segments of `xs` that are pending in state `pend`. */
  function PendingOf(xs: seq<Infra>, pend: set<Infra>): set<Infra>
  {
    set i | i in xs && i in pend
  }

  /** Sum of the material costs of the segments of `xs` that are pending, in list order. */
  function CostOf(xs: seq<Infra>, pend: set<Infra>): real
  {
    if xs == [] then 0.0
    else (if xs[0] in pend then xs[0].GetInfraCost() else 0.0) + CostOf(xs[1..], pend)
  }

  /** Sum of the durations of the segments of `xs` that are pending. */
  function DurationOf(xs: seq<Infra>, pend: set<Infra>): real
  {
    if xs == [] then 0.0
    else (if xs[0] in pend then xs[0].GetInfraDuration() else 0.0) + DurationOf(xs[1..], pend)
  }

  /** Sum of the difficulties of the segments of `xs` that are pending; `difficulty` is the per-segment value. */
  function DifficultyOf(xs: seq<Infra>, pend: set<Infra>, difficulty: Infra -> ExtReal): ExtReal
  {
    if xs == [] then Finite(0.0)
    else Add(if xs[0] in pend then difficulty(xs[0]) else Finite(0.0), DifficultyOf(xs[1..], pend, difficulty))
  }

  /** A list none of whose segments is pending reports zero for all three aggregates. */
  lemma {:induction false} NothingPendingIsZero(xs: seq<Infra>, pend: set<Infra>, difficulty: Infra -> ExtReal)
    requires forall i | i in xs :: i !in pend
    ensures CostOf(xs, pend) == 0.0 && DurationOf(xs, pend) == 0.0
    ensures DifficultyOf(xs, pend, difficulty) == Finite(0.0)
  {
    if xs != [] {
      assert forall i | i in xs[1..] :: i in xs;
      NothingPendingIsZero(xs[1..], pend, difficulty);
    }
  }

  /**
   * Repairing the segments `repaired` lowers each aggregate of a list by
   * exactly the contribution of its pending segments that were repaired.
   */
  lemma {:induction false} RepairSplitsCost(xs: seq<Infra>, pend: set<Infra>, repaired: set<Infra>)
    ensures CostOf(xs, pend) == CostOf(xs, pend - repaired) + CostOf(xs, pend * repaired)
  {
    if xs != [] {
      RepairSplitsCost(xs[1..], pend, repaired);
    }
  }

  lemma {:induction false} RepairSplitsDuration(xs: seq<Infra>, pend: set<Infra>, repaired: set<Infra>)
    ensures DurationOf(xs, pend) == DurationOf(xs, pend - repaired) + DurationOf(xs, pend * repaired)
  {
    if xs != [] {
      RepairSplitsDuration(xs[1..], pend, repaired);
    }
  }

  lemma {:induction false} RepairSplitsDifficulty(xs: seq<Infra>, pend: set<Infra>, repaired: set<Infra>, difficulty: Infra -> ExtReal)
    ensures DifficultyOf(xs, pend, difficulty)
         == Add(DifficultyOf(xs, pend - repaired, difficulty), DifficultyOf(xs, pend * repaired, difficulty))
  {
    if xs != [] {
      var tail := xs[1..];
      RepairSplitsDifficulty(tail, pend, repaired, difficulty);
      var h := if xs[0] in pend then difficulty(xs[0]) else Finite(0.0);
      var hKept := if xs[0] in pend - repaired then difficulty(xs[0]) else Finite(0.0);
      var hRepaired := if xs[0] in pend * repaired then difficulty(xs[0]) else Finite(0.0);
      assert DifficultyOf(xs, pend, difficulty) == Add(h, DifficultyOf(tail, pend, difficulty));
      assert DifficultyOf(xs, pend - repaired, difficulty) == Add(hKept, DifficultyOf(tail, pend - repaired, difficulty));
      assert DifficultyOf(xs, pend * repaired, difficulty) == Add(hRepaired, DifficultyOf(tail, pend * repaired, difficulty));
      AddSplit(h, hKept, hRepaired, DifficultyOf(tail, pend - repaired, difficulty), DifficultyOf(tail, pend * repaired, difficulty));
    }
  }

  // ---------------------------------------------------------------------
  // Priority score
  // ---------------------------------------------------------------------

  /** `diff * 0.5 + cout * 0.3 / 1000 + duree * 0.2 / 10`. */
  function SubScore(diff: ExtReal, cout: real, duree: real): ExtReal
  {
    Add(Add(Scale(diff, 0.5), Finite(cout * 0.3 / 1000.0)), Finite(duree * 0.2 / 10.0))
  }

  /** `priority_base * 10000 + sub_score`; lower is more urgent. */
  function PriorityScore(base: int, diff: ExtReal, cout: real, duree: real): ExtReal
  {
    Add(Finite(base as real * 10000.0), SubScore(diff, cout, duree))
  }

  /** Category dominates: with both sub-scores in [0, 10000), a smaller base always gives a strictly smaller score. */
  lemma CategoryDominates(baseA: int, diffA: ExtReal, coutA: real, dureeA: real,
                          baseB: int, diffB: ExtReal, coutB: real, dureeB: real)
    requires baseA < baseB
    requires SubScore(diffA, coutA, dureeA).Finite? && 0.0 <= SubScore(diffA, coutA, dureeA).value < 10000.0
    requires SubScore(diffB, coutB, dureeB).Finite? && 0.0 <= SubScore(diffB, coutB, dureeB).value < 10000.0
    ensures Less(PriorityScore(baseA, diffA, coutA, dureeA), PriorityScore(baseB, diffB, coutB, dureeB))
  {
    assert (baseA as real + 1.0) * 10000.0 <= baseB as real * 10000.0;
  }

  /** With difficulty and duration fixed and the difficulty finite, more remaining cost means a strictly worse score. */
  lemma CostRaisesScore(base: int, diff: ExtReal, cout1: real, cout2: real, duree: real)
    requires diff.Finite? && cout1 < cout2
    ensures Less(PriorityScore(base, diff, cout1, duree), PriorityScore(base, diff, cout2, duree))
  {
  }

  /** An infinite difficulty makes the score infinite: cost and duration no longer separate such buildings. */
  lemma InfiniteDifficultyHidesCost(base: int, cout1: real, cout2: real, duree: real)
    ensures !Less(PriorityScore(base, Inf, cout1, duree), PriorityScore(base, Inf, cout2, duree))
  {
  }

  // ---------------------------------------------------------------------
  // The building
  // ---------------------------------------------------------------------

  class Batiment {
    const idBuilding: string
    const typeBatiment: string
    const listInfras: seq<Infra>

    /** The type is lower-cased and stripped of surrounding white space. */
    constructor (idBuilding: string, typeBatiment: string, listInfras: seq<Infra>)
      ensures this.idBuilding == idBuilding && this.listInfras == listInfras
      ensures this.typeBatiment == Text.Normalize(typeBatiment)
    {
      this.idBuilding := idBuilding;
      this.typeBatiment := Text.Normalize(typeBatiment);
      this.listInfras := listInfras;
    }

    /** The referenced segments whose state is exactly "a_remplacer". */
    function Pending(): set<Infra>
      reads listInfras
    {
      set i | i in listInfras && i.infraType == ARemplacer
    }

    function GetBuildingDifficulty(difficulty: Infra -> ExtReal): ExtReal
      reads listInfras
    {
      DifficultyOf(listInfras, Pending(), difficulty)
    }

    function GetBuildingCost(): real
      reads listInfras
    {
      CostOf(listInfras, Pending())
    }

    function GetBuildingDuration(): real
      reads listInfras
    {
      DurationOf(listInfras, Pending())
    }

    /** Repairs every referenced segment; segments of other buildings change only where they are shared. */
    method Repair()
      modifies listInfras
      ensures forall i | i in listInfras :: i.infraType == InfraIntacte
      ensures Pending() == {}
      ensures GetBuildingCost() == 0.0 && GetBuildingDuration() == 0.0
      ensures forall difficulty: Infra -> ExtReal :: GetBuildingDifficulty(difficulty) == Finite(0.0)
    {
      for k := 0 to |listInfras|
        invariant forall j | 0 <= j < k :: listInfras[j].infraType == InfraIntacte
      {
        listInfras[k].RepairInfra();
      }
      forall difficulty: Infra -> ExtReal
        ensures GetBuildingDifficulty(difficulty) == Finite(0.0)
      {
        NothingPendingIsZero(listInfras, Pending(), difficulty);
      }
      NothingPendingIsZero(listInfras, Pending(), x => Finite(0.0));
    }

    function GetPriorityScore(difficulty: Infra -> ExtReal): ExtReal
      reads listInfras
    {
      ScoreAt(this, Pending(), difficulty)
    }

    /** `__lt__`: compares the current priority scores. */
    predicate Lt(other: Batiment, difficulty: Infra -> ExtReal)
      reads listInfras, other.listInfras
    {
      Less(GetPriorityScore(difficulty), other.GetPriorityScore(difficulty))
    }
  }

  /** The score of `b` when its pending segments are `pend`. */
  function ScoreAt(b: Batiment, pend: set<Infra>, difficulty: Infra -> ExtReal): ExtReal
  {
    PriorityScore(BasePriority(b.typeBatiment), DifficultyOf(b.listInfras, pend, difficulty),
                  CostOf(b.listInfras, pend), DurationOf(b.listInfras, pend))
  }

  /** Between two comparisons that see the same states, `__lt__` is irreflexive and transitive. */
  lemma LtIsStrictOrder(a: Batiment, b: Batiment, c: Batiment, pa: set<Infra>, pb: set<Infra>, pc: set<Infra>,
                        difficulty: Infra -> ExtReal)
    ensures !Less(ScoreAt(a, pa, difficulty), ScoreAt(a, pa, difficulty))
    ensures Less(ScoreAt(a, pa, difficulty), ScoreAt(b, pb, difficulty))
         && Less(ScoreAt(b, pb, difficulty), ScoreAt(c, pc, difficulty))
        ==> Less(ScoreAt(a, pa, difficulty), ScoreAt(c, pc, difficulty))
  {
    LessIsStrictWeakOrder(ScoreAt(a, pa, difficulty), ScoreAt(b, pb, difficulty), ScoreAt(c, pc, difficulty));
  }
}
