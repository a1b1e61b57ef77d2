/**
 * The planning loop of raccordement-electrique.py (lines 94-127) and
 * raccordement-electrique-2.py (lines 113-151).  The buildings with a
 * segment not yet repaired are sorted by difficulty, the head is popped,
 * every one of its segments still unrepaired is repaired and billed to it,
 * and an entry is appended; the phase number goes up after every tenth
 * entry.  The second script also records the ids of the segments repaired,
 * joined with ", "; the first script's entry is the same without them.
 *
 * The state of the network is the set of segments not yet repaired.  The
 * proofs mirror it in a ghost set `pend`; `Run` is the loop written as a
 * recursive function of that set, and the method is proved to compute
 * exactly what `Run` computes.
 */
module RaccordementLoop {
  import opened ExtReals
  import opened Lists
  import Text
  import Planification
  import opened Raccordement

  const Hopital: string := "h\U{F4}pital"
  const CoutHoraire: real := 300.0 / 8.0
  const NbOuvriersParInfra: int := 4
  const MargeHopital: real := 0.2
  const AutonomieGenerateurH: real := 20.0
  const EntreesParPhase: int := 10

  // ---------------------------------------------------------------------
  // The state of the network
  // ---------------------------------------------------------------------

  function Elems(xs: seq<Infra>): set<Infra>
  {
    set i | i in xs
  }

  function Segments(b: Batiment): set<Infra>
  {
    Elems(b.listInfras)
  }

  /** Every segment of a building of `bs`. */
  function Universe(bs: seq<Batiment>): set<Infra>
  {
    set b, i | b in bs && i in b.listInfras :: i
  }

  lemma InUniverse(bs: seq<Batiment>, b: Batiment)
    requires b in bs
    ensures Segments(b) <= Universe(bs)
  {
  }

  lemma UniverseCons(b: Batiment, bs: seq<Batiment>)
    ensures Universe([b] + bs) == Segments(b) + Universe(bs)
  {
    assert forall x | x in [b] + bs :: x == b || x in bs;
  }

  /** `pend` describes the heap: it holds exactly the segments of `u` whose `reparee` is false. */
  ghost predicate Mirrors(pend: set<Infra>, u: set<Infra>)
    reads u
  {
    pend <= u && forall i | i in u :: i in pend <==> !i.reparee
  }

  /** The difficulty of `b` when the segments not yet repaired are `pend`. */
  function Difficulty(b: Batiment, pend: set<Infra>): ExtReal
  {
    DifficultyOf(b.listInfras, pend)
  }

  /** The difficulty of a list only depends on which of its own segments are pending. */
  lemma {:induction false} DifficultyLocal(xs: seq<Infra>, p1: set<Infra>, p2: set<Infra>)
    requires forall i | i in xs :: i in p1 <==> i in p2
    ensures DifficultyOf(xs, p1) == DifficultyOf(xs, p2)
  {
    if xs != [] {
      assert forall i | i in xs[1..] :: i in xs;
      DifficultyLocal(xs[1..], p1, p2);
    }
  }

  lemma HeapReadsDifficulty(b: Batiment, pend: set<Infra>)
    requires forall i | i in b.listInfras :: i in pend <==> !i.reparee
    ensures b.GetBuildingDifficulty() == Difficulty(b, pend)
  {
    DifficultyLocal(b.listInfras, b.Unrepaired(), pend);
  }

  // ---------------------------------------------------------------------
  // phase_0 and to_repair
  // ---------------------------------------------------------------------

  predicate Intact(b: Batiment, pend: set<Infra>)
  {
    forall i | i in b.listInfras :: i !in pend
  }

  /** `phase_0`: the buildings all of whose segments are repaired, in order. */
  function Phase0(bs: seq<Batiment>, pend: set<Infra>): seq<Batiment>
  {
    if bs == [] then []
    else
      var front := bs[..|bs| - 1];
      var last := bs[|bs| - 1];
      assert bs == front + [last];
      Phase0(front, pend) + (if Intact(last, pend) then [last] else [])
  }

  /** `to_repair`: the buildings with a segment not yet repaired, in order. */
  function ToRepair(bs: seq<Batiment>, pend: set<Infra>): seq<Batiment>
  {
    if bs == [] then []
    else
      var front := bs[..|bs| - 1];
      var last := bs[|bs| - 1];
      assert bs == front + [last];
      ToRepair(front, pend) + (if !Intact(last, pend) then [last] else [])
  }

  /** `phase_0` holds the buildings with nothing pending and `to_repair` the others. */
  lemma {:induction false} SplitMembers(bs: seq<Batiment>, pend: set<Infra>)
    ensures forall b | b in Phase0(bs, pend) :: b in bs && Intact(b, pend)
    ensures forall b | b in bs && Intact(b, pend) :: b in Phase0(bs, pend)
    ensures forall b | b in ToRepair(bs, pend) :: b in bs && !Intact(b, pend)
    ensures forall b | b in bs && !Intact(b, pend) :: b in ToRepair(bs, pend)
  {
    if bs != [] {
      var front := bs[..|bs| - 1];
      var last := bs[|bs| - 1];
      SplitMembers(front, pend);
      assert bs == front + [last];
    }
  }

  /** The two lists split the buildings: together they hold each building exactly as often as the list does. */
  lemma {:induction false} SplitIsPartition(bs: seq<Batiment>, pend: set<Infra>)
    ensures multiset(Phase0(bs, pend)) + multiset(ToRepair(bs, pend)) == multiset(bs)
  {
    if bs != [] {
      var front := bs[..|bs| - 1];
      var last := bs[|bs| - 1];
      SplitIsPartition(front, pend);
      assert bs == front + [last];
      assert multiset(bs) == multiset(front) + multiset{last};
      if Intact(last, pend) {
        assert Phase0(bs, pend) == Phase0(front, pend) + [last] && ToRepair(bs, pend) == ToRepair(front, pend);
        assert multiset(Phase0(bs, pend)) == multiset(Phase0(front, pend)) + multiset{last};
      } else {
        assert Phase0(bs, pend) == Phase0(front, pend) && ToRepair(bs, pend) == ToRepair(front, pend) + [last];
        assert multiset(ToRepair(bs, pend)) == multiset(ToRepair(front, pend)) + multiset{last};
      }
    }
  }

  /** Every pending segment of the network belongs to a building to repair. */
  lemma PendingInToRepair(bs: seq<Batiment>, pend: set<Infra>)
    ensures pend * Universe(bs) <= Universe(ToRepair(bs, pend))
  {
    SplitMembers(bs, pend);
    forall i | i in pend * Universe(bs) ensures i in Universe(ToRepair(bs, pend)) {
      var b :| b in bs && i in b.listInfras;
      assert b in ToRepair(bs, pend);
    }
  }

  // ---------------------------------------------------------------------
  // What one building is billed
  // ---------------------------------------------------------------------

  datatype Bill = Bill(repaired: seq<Infra>, cost: real, time: real, workers: int)

  function Min(a: int, b: int): int
  {
    if a <= b then a else b
  }

  /**
   * The inner loop over `building.list_infras`: a segment still unrepaired
   * when it is reached is repaired and billed, so a segment listed twice is
   * billed once.
   */
  function BillOf(xs: seq<Infra>, pend: set<Infra>): Bill
  {
    if xs == [] then Bill([], 0.0, 0.0, 0)
    else
      var n := |xs| - 1;
      var prior := BillOf(xs[..n], pend);
      var i := xs[n];
      if i in pend && i !in xs[..n] then
        Bill(prior.repaired + [i], prior.cost + i.prixTotal,
             prior.time + i.dureeTotale / NbOuvriersParInfra as real,
             prior.workers + Min(NbOuvriersParInfra, i.nbMaisons))
      else prior
  }

  /**
   * A building is billed exactly its segments that were pending, each once,
   * in the order they first appear in its list, and at most four workers
   * per segment.
   */
  lemma {:induction false} BillSpec(xs: seq<Infra>, pend: set<Infra>)
    ensures var bill := BillOf(xs, pend);
      && (set i | i in bill.repaired) == pend * (set i | i in xs)
      && (forall a, b | 0 <= a < b < |bill.repaired| :: bill.repaired[a] != bill.repaired[b])
      && (forall i | i in bill.repaired :: i in xs)
      && (forall a, b | 0 <= a < b < |bill.repaired| :: IndexOf(xs, bill.repaired[a]) < IndexOf(xs, bill.repaired[b]))
      && bill.workers <= NbOuvriersParInfra * |bill.repaired|
  {
    if xs != [] {
      var n := |xs| - 1;
      BillSpec(xs[..n], pend);
      assert xs == xs[..n] + [xs[n]];
      var prior := BillOf(xs[..n], pend);
      var bill := BillOf(xs, pend);
      assert (set i | i in xs) == (set i | i in xs[..n]) + {xs[n]};
      if xs[n] in pend && xs[n] !in xs[..n] {
        assert (set i | i in prior.repaired + [xs[n]]) == (set i | i in prior.repaired) + {xs[n]};
        assert xs[n] !in prior.repaired by {
          assert xs[n] !in (set i | i in prior.repaired);
        }
        assert bill.repaired == prior.repaired + [xs[n]];
      } else {
        assert bill.repaired == prior.repaired;
      }
      FirstOccurrenceStep(xs[..n], xs[n], prior.repaired, bill.repaired);
    }
  }

  /** A building none of whose segments is pending is billed nothing. */
  lemma {:induction false} NothingPendingIsFree(xs: seq<Infra>, pend: set<Infra>)
    requires forall i | i in xs :: i !in pend
    ensures BillOf(xs, pend) == Bill([], 0.0, 0.0, 0)
  {
    if xs != [] {
      var n := |xs| - 1;
      assert forall i | i in xs[..n] :: i in xs;
      NothingPendingIsFree(xs[..n], pend);
    }
  }

  function Ids(xs: seq<Infra>): (r: seq<string>)
    ensures |r| == |xs| && forall k | 0 <= k < |xs| :: r[k] == xs[k].infraId
  {
    seq(|xs|, k requires 0 <= k < |xs| => xs[k].infraId)
  }

  // ---------------------------------------------------------------------
  // The entries
  // ---------------------------------------------------------------------

  /** What one turn of the loop records about the building taken: an entry of `planification` but its phase. */
  datatype Work = Work(batiment: string, typ: string, infraReparees: string,
                       temps: real, cout: real, ouvriers: int, alerte: bool)

  /** One element of `planification`. */
  datatype Entry = Entry(phase: int, work: Work)

  predicate IsHospital(b: Batiment)
  {
    Text.Lower(b.typeBatiment) == Hopital
  }

  /** The turn of building `b` when the pending segments are `pend`. */
  function WorkOf(b: Batiment, pend: set<Infra>): Work
  {
    var bill := BillOf(b.listInfras, pend);
    var temps := if IsHospital(b) then bill.time * (1.0 + MargeHopital) else bill.time;
    Work(b.idBatiment, b.typeBatiment, Text.Join(Ids(bill.repaired), Text.Separator),
         temps, bill.cost + temps * CoutHoraire, bill.workers, IsHospital(b) && temps > AutonomieGenerateurH)
  }

  /**
   * Hospitals get 20 % more time, and the generator warning is raised
   * exactly for a hospital whose time goes over 20 hours; the cost is the
   * material billed plus 37.5 an hour.
   */
  lemma HospitalMargin(b: Batiment, pend: set<Infra>)
    ensures var w := WorkOf(b, pend); var bill := BillOf(b.listInfras, pend);
      && w.temps == (if IsHospital(b) then 1.2 * bill.time else bill.time)
      && (w.alerte <==> IsHospital(b) && w.temps > 20.0)
      && w.cout == bill.cost + 37.5 * w.temps
      && (!IsHospital(b) ==> !w.alerte)
  {
  }

  /**
   * A building all of whose segments were repaired through earlier
   * selections has difficulty 0 and still gets an entry, with no segment,
   * no cost, no time and no worker.
   */
  lemma ZeroEntry(b: Batiment, pend: set<Infra>)
    requires Intact(b, pend)
    ensures Difficulty(b, pend) == Finite(0.0)
    ensures var w := WorkOf(b, pend);
      w.infraReparees == "" && w.temps == 0.0 && w.cout == 0.0 && w.ouvriers == 0 && !w.alerte
  {
    NothingPendingIsEasy(b.listInfras, pend);
    NothingPendingIsFree(b.listInfras, pend);
  }

  /**
   * The second script writes the ids joined with ", " and the map section
   * splits them on ", ": the ids come back when there is at least one and
   * none contains the separator.
   */
  lemma InfraRepareesRoundTrip(b: Batiment, pend: set<Infra>)
    requires var ids := Ids(BillOf(b.listInfras, pend).repaired);
      |ids| > 0 && forall x | x in ids :: !Text.Contains(x, Text.Separator)
    ensures Text.Split(WorkOf(b, pend).infraReparees, Text.Separator) == Ids(BillOf(b.listInfras, pend).repaired)
  {
    Text.SplitJoin(Ids(BillOf(b.listInfras, pend).repaired));
  }

  /** The phase of the entry appended when `count` entries exist. */
  function PhaseOf(count: nat): int
  {
    1 + count / EntreesParPhase
  }

  /** The turns, in order, each stamped with its phase. */
  function Plan(works: seq<Work>): seq<Entry>
  {
    seq(|works|, k requires 0 <= k < |works| => Entry(PhaseOf(k), works[k]))
  }

  /**
   * The counter of the loop: the first entry is in phase 1 and the phase
   * goes up by one exactly when the number of entries already made is a
   * multiple of ten, so every phase but the last holds ten entries.
   */
  lemma PhaseCounter(works: seq<Work>)
    ensures |Plan(works)| == |works|
    ensures forall k | 0 <= k < |works| :: Plan(works)[k].work == works[k]
    ensures |works| > 0 ==> Plan(works)[0].phase == 1
    ensures forall k | 0 < k < |works| ::
      Plan(works)[k].phase == if k % EntreesParPhase == 0 then Plan(works)[k - 1].phase + 1 else Plan(works)[k - 1].phase
  {
    forall k | 0 < k < |works|
      ensures PhaseOf(k) == if k % EntreesParPhase == 0 then PhaseOf(k - 1) + 1 else PhaseOf(k - 1)
    {
      PhaseStep(k - 1);
    }
  }

  lemma PhaseStep(n: nat)
    ensures PhaseOf(n + 1) == if (n + 1) % EntreesParPhase == 0 then PhaseOf(n) + 1 else PhaseOf(n)
  {
  }

  lemma PlanAppend(works: seq<Work>, w: Work)
    ensures Plan(works + [w]) == Plan(works) + [Entry(PhaseOf(|works|), w)]
  {
  }

  // ---------------------------------------------------------------------
  // The loop, as a function of the state
  // ---------------------------------------------------------------------

  function Keys(todo: seq<Batiment>, pend: set<Infra>): map<Batiment, ExtReal>
  {
    map b | b in todo :: Difficulty(b, pend)
  }

  /** `to_repair.sort()` then `to_repair.pop(0)`: the building taken and the list left behind. */
  function Select(todo: seq<Batiment>, pend: set<Infra>): (r: (Batiment, seq<Batiment>))
    requires |todo| > 0
    ensures multiset(r.1) + multiset{r.0} == multiset(todo)
    ensures |r.1| == |todo| - 1
  {
    var s := Sort(todo, ByKey(Keys(todo, pend)));
    assert s == [s[0]] + s[1..];
    (s[0], s[1..])
  }

  /**
   * The building taken is the least difficult, and strictly less difficult
   * than every building in front of it: among equals the earliest wins.
   */
  lemma SelectTakesMinimum(todo: seq<Batiment>, pend: set<Infra>)
    requires |todo| > 0
    ensures var best := Select(todo, pend).0;
      && (forall b | b in todo :: !Less(Difficulty(b, pend), Difficulty(best, pend)))
      && exists m | 0 <= m < |todo| :: todo[m] == best && forall j | 0 <= j < m :: Less(Difficulty(best, pend), Difficulty(todo[j], pend))
  {
    var keys := Keys(todo, pend);
    PopFirstMin(todo, keys);
    var m := FirstMin(todo, ByKey(keys));
    forall b | b in todo
      ensures !Less(Difficulty(b, pend), Difficulty(todo[m], pend))
    {
      var j :| 0 <= j < |todo| && todo[j] == b;
    }
  }

  datatype Outcome = Outcome(works: seq<Work>, order: seq<Batiment>, pend: set<Infra>)

  /** The `while to_repair` loop from list `todo` with pending segments `pend`. */
  function Run(todo: seq<Batiment>, pend: set<Infra>): Outcome
    decreases |todo|
  {
    if todo == [] then Outcome([], [], pend)
    else
      var (best, rest) := Select(todo, pend);
      var r := Run(rest, pend - Segments(best));
      Outcome([WorkOf(best, pend)] + r.works, [best] + r.order, r.pend)
  }

  lemma RunUnfold(todo: seq<Batiment>, pend: set<Infra>)
    requires todo != []
    ensures var sel := Select(todo, pend);
      var r1 := Run(sel.1, pend - Segments(sel.0));
      Run(todo, pend) == Outcome([WorkOf(sel.0, pend)] + r1.works, [sel.0] + r1.order, r1.pend)
  {
  }

  /**
   * The loop runs once per building to repair: one entry each, for the
   * building taken at that step, and the buildings taken are a permutation
   * of the list.
   */
  lemma {:induction false} RunShape(todo: seq<Batiment>, pend: set<Infra>)
    ensures var r := Run(todo, pend);
      && |r.works| == |todo| && |r.order| == |todo|
      && multiset(r.order) == multiset(todo)
      && forall k | 0 <= k < |todo| :: r.works[k].batiment == r.order[k].idBatiment
    decreases |todo|
  {
    if todo != [] {
      var sel := Select(todo, pend);
      var r1 := Run(sel.1, pend - Segments(sel.0));
      RunShape(sel.1, pend - Segments(sel.0));
      RunUnfold(todo, pend);
      ShapeStep(Run(todo, pend), r1, WorkOf(sel.0, pend), sel.0, todo, sel.1);
    }
  }

  lemma ShapeStep(r: Outcome, r1: Outcome, w: Work, best: Batiment, todo: seq<Batiment>, rest: seq<Batiment>)
    requires r == Outcome([w] + r1.works, [best] + r1.order, r1.pend)
    requires w.batiment == best.idBatiment
    requires multiset(rest) + multiset{best} == multiset(todo) && |rest| == |todo| - 1
    requires |r1.works| == |rest| && |r1.order| == |rest| && multiset(r1.order) == multiset(rest)
    requires forall k | 0 <= k < |rest| :: r1.works[k].batiment == r1.order[k].idBatiment
    ensures |r.works| == |todo| && |r.order| == |todo|
    ensures multiset(r.order) == multiset(todo)
    ensures forall k | 0 <= k < |todo| :: r.works[k].batiment == r.order[k].idBatiment
  {
    assert multiset(r.order) == multiset{best} + multiset(r1.order);
    forall k | 0 <= k < |todo|
      ensures r.works[k].batiment == r.order[k].idBatiment
    {
      if k > 0 {
        assert r.works[k] == r1.works[k - 1] && r.order[k] == r1.order[k - 1];
      }
    }
  }

  /**
   * The k-th turn happens when exactly the segments of the first k
   * buildings taken have been repaired; the segments left pending at the
   * end are those of no building taken.
   */
  lemma {:induction false} RunEntries(todo: seq<Batiment>, pend: set<Infra>)
    ensures var r := Run(todo, pend);
      && |r.works| == |r.order|
      && (forall k | 0 <= k < |r.works| :: r.works[k] == WorkOf(r.order[k], pend - Universe(r.order[..k])))
      && r.pend == pend - Universe(r.order)
    decreases |todo|
  {
    if todo != [] {
      var sel := Select(todo, pend);
      RunEntries(sel.1, pend - Segments(sel.0));
      RunUnfold(todo, pend);
      EntriesStep(Run(todo, pend), Run(sel.1, pend - Segments(sel.0)), sel.0, pend);
    }
  }

  lemma EntriesStep(r: Outcome, r1: Outcome, best: Batiment, pend: set<Infra>)
    requires r == Outcome([WorkOf(best, pend)] + r1.works, [best] + r1.order, r1.pend)
    requires |r1.works| == |r1.order|
    requires forall k | 0 <= k < |r1.works| ::
      r1.works[k] == WorkOf(r1.order[k], pend - Segments(best) - Universe(r1.order[..k]))
    requires r1.pend == pend - Segments(best) - Universe(r1.order)
    ensures |r.works| == |r.order|
    ensures forall k | 0 <= k < |r.works| :: r.works[k] == WorkOf(r.order[k], pend - Universe(r.order[..k]))
    ensures r.pend == pend - Universe(r.order)
  {
    UniverseCons(best, r1.order);
    forall k | 0 <= k < |r.works|
      ensures r.works[k] == WorkOf(r.order[k], pend - Universe(r.order[..k]))
    {
      if k == 0 {
        assert r.order[..0] == [];
        assert pend - Universe(r.order[..0]) == pend;
      } else {
        assert r.order[..k] == [best] + r1.order[..k - 1];
        UniverseCons(best, r1.order[..k - 1]);
        assert pend - Universe(r.order[..k]) == pend - Segments(best) - Universe(r1.order[..k - 1]);
        assert r.works[k] == r1.works[k - 1] && r.order[k] == r1.order[k - 1];
      }
    }
  }

  /**
   * The building taken at step k is the least difficult, in the state of
   * step k, among the buildings not yet taken.
   */
  lemma {:induction false} RunSelectsMinimum(todo: seq<Batiment>, pend: set<Infra>)
    ensures var r := Run(todo, pend);
      |r.order| == |todo| &&
      forall k, j | 0 <= k <= j < |todo| ::
        !Less(Difficulty(r.order[j], pend - Universe(r.order[..k])), Difficulty(r.order[k], pend - Universe(r.order[..k])))
    decreases |todo|
  {
    RunShape(todo, pend);
    if todo != [] {
      var sel := Select(todo, pend);
      var pend1 := pend - Segments(sel.0);
      RunSelectsMinimum(sel.1, pend1);
      RunUnfold(todo, pend);
      SelectTakesMinimum(todo, pend);
      var order := Run(todo, pend).order;
      forall j | 0 <= j < |order|
        ensures !Less(Difficulty(order[j], pend), Difficulty(sel.0, pend))
      {
        assert order[j] in multiset(todo);
      }
      MinimumStep(order, Run(sel.1, pend1).order, sel.0, pend);
    }
  }

  lemma MinimumStep(order: seq<Batiment>, order1: seq<Batiment>, best: Batiment, pend: set<Infra>)
    requires order == [best] + order1
    requires forall j | 0 <= j < |order| :: !Less(Difficulty(order[j], pend), Difficulty(best, pend))
    requires forall k, j | 0 <= k <= j < |order1| ::
      !Less(Difficulty(order1[j], pend - Segments(best) - Universe(order1[..k])),
            Difficulty(order1[k], pend - Segments(best) - Universe(order1[..k])))
    ensures forall k, j | 0 <= k <= j < |order| ::
      !Less(Difficulty(order[j], pend - Universe(order[..k])), Difficulty(order[k], pend - Universe(order[..k])))
  {
    forall k, j | 0 <= k <= j < |order|
      ensures !Less(Difficulty(order[j], pend - Universe(order[..k])), Difficulty(order[k], pend - Universe(order[..k])))
    {
      if k == 0 {
        assert order[..0] == [];
        assert pend - Universe(order[..0]) == pend;
      } else {
        PendingPrefix(pend, order, order1, best, k - 1);
        assert order[j] == order1[j - 1] && order[k] == order1[k - 1];
      }
    }
  }

  /** Repairing the first k + 1 buildings is repairing the first, then the next k. */
  lemma PendingPrefix(pend: set<Infra>, order: seq<Batiment>, order1: seq<Batiment>, best: Batiment, k: nat)
    requires order == [best] + order1 && k < |order1|
    ensures pend - Universe(order[..k + 1]) == pend - Segments(best) - Universe(order1[..k])
  {
    assert order[..k + 1] == [best] + order1[..k];
    UniverseCons(best, order1[..k]);
  }

  // ---------------------------------------------------------------------
  // The batches of repaired segments
  // ---------------------------------------------------------------------

  /** The segments billed at step k of the order `order`: those of the k-th building not repaired by an earlier one. */
  function Batch(order: seq<Batiment>, pend: set<Infra>, k: int): set<Infra>
    requires 0 <= k < |order|
  {
    pend * Segments(order[k]) - Universe(order[..k])
  }

  /** The k-th entry bills exactly the k-th batch, each segment once. */
  lemma EntryBillsBatch(order: seq<Batiment>, pend: set<Infra>, k: int)
    requires 0 <= k < |order|
    ensures var bill := BillOf(order[k].listInfras, pend - Universe(order[..k]));
      && (set i | i in bill.repaired) == Batch(order, pend, k)
      && forall a, b | 0 <= a < b < |bill.repaired| :: bill.repaired[a] != bill.repaired[b]
  {
    BillSpec(order[k].listInfras, pend - Universe(order[..k]));
  }

  /** No segment is billed twice: the batches of two different steps are disjoint. */
  lemma BatchesDisjoint(order: seq<Batiment>, pend: set<Infra>)
    ensures forall k, l | 0 <= k < l < |order| :: Batch(order, pend, k) !! Batch(order, pend, l)
  {
    forall k, l | 0 <= k < l < |order| ensures Batch(order, pend, k) !! Batch(order, pend, l) {
      assert order[k] in order[..l];
      InUniverse(order[..l], order[k]);
    }
  }

  /** Every pending segment of a building taken is billed at some step. */
  lemma BatchesCover(order: seq<Batiment>, pend: set<Infra>)
    ensures forall i | i in pend * Universe(order) :: exists k | 0 <= k < |order| :: i in Batch(order, pend, k)
  {
    forall i | i in pend * Universe(order) ensures exists k | 0 <= k < |order| :: i in Batch(order, pend, k) {
      var k := FirstHolder(order, i);
      assert i !in Universe(order[..k]);
      assert i in Segments(order[k]);
      assert i in Batch(order, pend, k);
    }
  }

  /** The first step whose building has segment `i`. */
  function FirstHolder(order: seq<Batiment>, i: Infra): (k: int)
    requires i in Universe(order)
    ensures 0 <= k < |order| && i in order[k].listInfras
    ensures forall m | 0 <= m < k :: i !in order[m].listInfras
  {
    if i in order[0].listInfras then 0
    else
      assert i in Universe(order[1..]) by {
        var b :| b in order && i in b.listInfras;
        assert b != order[0];
      }
      var k := FirstHolder(order[1..], i);
      k + 1
  }

  /**
   * At the end every segment of a building is repaired: a building with a
   * pending segment is in `to_repair`, so it is taken and repaired.
   */
  lemma EverythingRepaired(bs: seq<Batiment>, pend: set<Infra>)
    ensures Run(ToRepair(bs, pend), pend).pend * Universe(bs) == {}
  {
    var todo := ToRepair(bs, pend);
    RunEntries(todo, pend);
    RunShape(todo, pend);
    PendingInToRepair(bs, pend);
    var order := Run(todo, pend).order;
    forall i | i in Universe(todo) ensures i in Universe(order) {
      var b :| b in todo && i in b.listInfras;
      assert b in multiset(order);
    }
  }

  // ---------------------------------------------------------------------
  // The script
  // ---------------------------------------------------------------------

  /** What is done, followed by what `r` still does. */
  function Resume(works: seq<Work>, order: seq<Batiment>, r: Outcome): Outcome
  {
    Outcome(works + r.works, order + r.order, r.pend)
  }

  lemma ResumeNothing(r: Outcome)
    ensures Resume([], [], r) == r
  {
    assert [] + r.works == r.works;
    assert [] + r.order == r.order;
  }

  lemma ResumeEnd(whole: Outcome, works: seq<Work>, order: seq<Batiment>, pend: set<Infra>)
    requires whole == Resume(works, order, Run([], pend))
    ensures whole.works == works && whole.pend == pend
  {
    assert works + [] == works;
  }

  lemma ResumeStep(whole: Outcome, works: seq<Work>, order: seq<Batiment>, w: Work, best: Batiment, r: Outcome, r1: Outcome)
    requires r == Outcome([w] + r1.works, [best] + r1.order, r1.pend)
    requires whole == Resume(works, order, r)
    ensures whole == Resume(works + [w], order + [best], r1)
  {
    assert works + ([w] + r1.works) == works + [w] + r1.works;
    assert order + ([best] + r1.order) == order + [best] + r1.order;
  }

  /** The building taken and the buildings left all come from the list. */
  lemma SelectKeeps(todo: seq<Batiment>, pend: set<Infra>)
    requires todo != []
    ensures var sel := Select(todo, pend);
      sel.0 in todo && forall b | b in sel.1 :: b in todo
  {
    var sel := Select(todo, pend);
    assert sel.0 in multiset(todo);
    forall b | b in sel.1 ensures b in todo {
      assert b in multiset(sel.1);
      assert b in multiset(todo);
    }
  }

  /**
   * One turn of the loop: sorting by the difficulties of the current state
   * and popping the head is `Select`, so the entry and the building taken
   * join what is done and `Run` goes on from the rest.
   */
  lemma LoopStep(whole: Outcome, works: seq<Work>, order: seq<Batiment>, todo: seq<Batiment>, pend: set<Infra>,
                 sorted: seq<Batiment>)
    requires todo != [] && sorted == Sort(todo, ByKey(Keys(todo, pend)))
    requires whole == Resume(works, order, Run(todo, pend))
    ensures |sorted| == |todo|
    ensures whole == Resume(works + [WorkOf(sorted[0], pend)], order + [sorted[0]],
                            Run(sorted[1..], pend - Segments(sorted[0])))
    ensures sorted[0] in todo && forall b | b in sorted[1..] :: b in todo
  {
    var best := sorted[0];
    assert (best, sorted[1..]) == Select(todo, pend);
    RunUnfold(todo, pend);
    ResumeStep(whole, works, order, WorkOf(best, pend), best,
               Run(todo, pend), Run(sorted[1..], pend - Segments(best)));
    SelectKeeps(todo, pend);
  }

  /** `phase_0` and `to_repair`, read from the heap. */
  method Classify(batiments: seq<Batiment>, ghost pend: set<Infra>) returns (phase0: seq<Batiment>, toRepair: seq<Batiment>)
    requires Mirrors(pend, Universe(batiments))
    ensures phase0 == Phase0(batiments, pend) && toRepair == ToRepair(batiments, pend)
  {
    phase0, toRepair := [], [];
    for k := 0 to |batiments|
      invariant phase0 == Phase0(batiments[..k], pend)
      invariant toRepair == ToRepair(batiments[..k], pend)
    {
      var b := batiments[k];
      InUniverse(batiments, b);
      assert b.AllRepaired() <==> Intact(b, pend);
      assert batiments[..k + 1][..k] == batiments[..k];
      if b.AllRepaired() {
        phase0 := phase0 + [b];
      } else {
        toRepair := toRepair + [b];
      }
    }
    assert batiments[..|batiments|] == batiments;
  }

  /** The difficulties the sort compares, read from the heap. */
  method DifficultyKeys(batiments: seq<Batiment>, todo: seq<Batiment>, ghost pend: set<Infra>)
      returns (keys: map<Batiment, ExtReal>)
    requires Mirrors(pend, Universe(batiments))
    requires forall b | b in todo :: b in batiments
    ensures keys == Keys(todo, pend)
  {
    forall b | b in todo
      ensures b.GetBuildingDifficulty() == Difficulty(b, pend)
    {
      InUniverse(batiments, b);
      HeapReadsDifficulty(b, pend);
    }
    keys := map b | b in todo :: b.GetBuildingDifficulty();
    Planification.MapsAgree(keys, Keys(todo, pend));
  }

  /**
   * The inner loop: every segment of `building` still unrepaired is
   * repaired and billed.  What it bills is `BillOf`, and the heap and its
   * mirror move together.
   */
  method RepairAndBill(building: Batiment, ghost pend: set<Infra>, ghost u: set<Infra>)
      returns (infraReparees: seq<string>, totalCost: real, totalTime: real, ouvriersUtilises: int)
    requires Mirrors(pend, u) && Segments(building) <= u
    modifies Segments(building)
    ensures var bill := BillOf(building.listInfras, pend);
      infraReparees == Ids(bill.repaired) && totalCost == bill.cost && totalTime == bill.time && ouvriersUtilises == bill.workers
    ensures Mirrors(pend - Segments(building), u)
  {
    var xs := building.listInfras;
    infraReparees, totalCost, totalTime, ouvriersUtilises := [], 0.0, 0.0, 0;
    assert Elems(xs[..0]) == {};
    for k := 0 to |xs|
      invariant var bill := BillOf(xs[..k], pend);
        infraReparees == Ids(bill.repaired) && totalCost == bill.cost && totalTime == bill.time && ouvriersUtilises == bill.workers
      invariant Mirrors(pend - Elems(xs[..k]), u)
    {
      var infra := xs[k];
      assert xs[..k + 1][..k] == xs[..k];
      assert Elems(xs[..k + 1]) == Elems(xs[..k]) + {infra};
      ghost var before := pend - Elems(xs[..k]);
      assert !infra.reparee <==> infra in pend && infra !in xs[..k];
      if !infra.reparee {
        infra.RepairInfra();
        totalCost := totalCost + infra.prixTotal;
        totalTime := totalTime + infra.dureeTotale / NbOuvriersParInfra as real;
        ouvriersUtilises := ouvriersUtilises + Min(NbOuvriersParInfra, infra.nbMaisons);
        infraReparees := infraReparees + [infra.infraId];
      }
      assert Mirrors(before - {infra}, u);
    }
    assert xs[..|xs|] == xs;
  }

  /**
   * The body of the loop once `building` is popped: repair and bill it,
   * then fill its entry, with the hospital margin and the generator
   * warning.
   */
  method WorkFor(building: Batiment, ghost pend: set<Infra>, ghost u: set<Infra>) returns (w: Work)
    requires Mirrors(pend, u) && Segments(building) <= u
    modifies Segments(building)
    ensures w == WorkOf(building, pend)
    ensures Mirrors(pend - Segments(building), u)
  {
    var infraReparees, totalCost, totalTime, ouvriersUtilises := RepairAndBill(building, pend, u);
    var alerte := false;
    if Text.Lower(building.typeBatiment) == Hopital {
      totalTime := totalTime * (1.0 + MargeHopital);
      alerte := totalTime > AutonomieGenerateurH;
    }
    var coutOuvriers := totalTime * CoutHoraire;
    w := Work(building.idBatiment, building.typeBatiment, Text.Join(infraReparees, Text.Separator),
              totalTime, totalCost + coutOuvriers, ouvriersUtilises, alerte);
  }

  /**
   * One turn of `while to_repair`: sort, pop the head, repair and bill it.
   * What is done grows by that building and its turn, and `Run` goes on
   * from the rest in the new state.
   */
  method Turn(batiments: seq<Batiment>, todo: seq<Batiment>,
              ghost whole: Outcome, ghost works: seq<Work>, ghost order: seq<Batiment>, ghost pend: set<Infra>)
      returns (w: Work, rest: seq<Batiment>, ghost best: Batiment, ghost pend1: set<Infra>)
    requires Mirrors(pend, Universe(batiments))
    requires todo != [] && forall b | b in todo :: b in batiments
    requires whole == Resume(works, order, Run(todo, pend))
    modifies Universe(batiments)
    ensures Mirrors(pend1, Universe(batiments))
    ensures |rest| < |todo| && forall b | b in rest :: b in batiments
    ensures whole == Resume(works + [w], order + [best], Run(rest, pend1))
  {
    var keys := DifficultyKeys(batiments, todo, pend);
    var sorted := Sort(todo, ByKey(keys));
    var building := sorted[0];
    LoopStep(whole, works, order, todo, pend, sorted);
    rest := sorted[1..];
    InUniverse(batiments, building);
    w := WorkFor(building, pend, Universe(batiments));
    best, pend1 := building, pend - Segments(building);
  }

  /**
   * The loop: the entries are the turns `Run` describes, stamped with the
   * phase counter, and the heap ends in the state `Run` ends with.
   */
  method RepairLoop(batiments: seq<Batiment>, toRepair: seq<Batiment>, ghost pend0: set<Infra>)
      returns (planification: seq<Entry>)
    requires Mirrors(pend0, Universe(batiments))
    requires forall b | b in toRepair :: b in batiments
    modifies Universe(batiments)
    ensures planification == Plan(Run(toRepair, pend0).works)
    ensures Mirrors(Run(toRepair, pend0).pend, Universe(batiments))
  {
    ghost var whole := Run(toRepair, pend0);
    var todo := toRepair;
    var phase := 1;
    planification := [];
    ghost var pend := pend0;
    ghost var works: seq<Work> := [];
    ghost var order: seq<Batiment> := [];
    ResumeNothing(whole);
    while |todo| > 0
      invariant Mirrors(pend, Universe(batiments))
      invariant forall b | b in todo :: b in batiments
      invariant planification == Plan(works)
      invariant phase == PhaseOf(|works|)
      invariant whole == Resume(works, order, Run(todo, pend))
      decreases |todo|
    {
      var w; ghost var best;
      w, todo, best, pend := Turn(batiments, todo, whole, works, order, pend);
      PlanAppend(works, w);
      PhaseStep(|works|);
      planification := planification + [Entry(phase, w)];
      works := works + [w];
      order := order + [best];
      if |planification| % EntreesParPhase == 0 {
        phase := phase + 1;
      }
    }
    ResumeEnd(whole, works, order, pend);
  }

  /** The segments of `bs` not repaired when the objects are built. */
  function InitiallyPending(bs: seq<Batiment>): set<Infra>
  {
    set i | i in Universe(bs) && i.infraType != InfraIntacte
  }

  /** Every segment of a building is an object of the table, so it starts repaired exactly when it is intact. */
  lemma InitialMirror(rows: seq<Row>, infrasDict: map<string, Infra>, batiments: seq<Batiment>)
    requires forall id | id in infrasDict :: infrasDict[id].reparee <==> infrasDict[id].infraType == InfraIntacte
    requires |batiments| == |Planification.GroupKeys(Keyed(rows))|
    requires forall k | 0 <= k < |batiments| ::
      BuildingOf(rows, infrasDict, Planification.GroupKeys(Keyed(rows))[k], batiments[k])
    ensures Mirrors(InitiallyPending(batiments), Universe(batiments))
    ensures Universe(batiments) <= infrasDict.Values
  {
    forall i | i in Universe(batiments) ensures i in infrasDict.Values && (i.reparee <==> i.infraType == InfraIntacte) {
      var b :| b in batiments && i in b.listInfras;
      var k :| 0 <= k < |batiments| && batiments[k] == b;
      var j :| 0 <= j < |b.listInfras| && b.listInfras[j] == i;
      var ids := Planification.SegmentIdsOf(Keyed(rows), Planification.GroupKeys(Keyed(rows))[k]);
      assert ids[j] in infrasDict && i == infrasDict[ids[j]];
    }
  }

  lemma RepairedAtEnd(u: set<Infra>, pend: set<Infra>)
    requires Mirrors(pend, u) && pend * u == {}
    ensures forall i | i in u :: i.reparee
  {
    forall i | i in u ensures i.reparee {
      assert i !in pend * u;
    }
  }

  /**
   * The whole script up to the export: clean the table, build the objects,
   * split the buildings and run the loop.  The plan is the one `Run`
   * computes from the initial states, and every segment ends repaired.
   */
  method Planifier(data: seq<Row>)
      returns (batiments: seq<Batiment>, phase0: seq<Batiment>, toRepair: seq<Batiment>, planification: seq<Entry>,
               ghost infrasDict: map<string, Infra>)
    ensures var rows := DropDuplicates(data);
      && SegmentTable(rows, infrasDict) && Universe(batiments) <= infrasDict.Values
      && |batiments| == |Planification.GroupKeys(Keyed(rows))|
      && forall k | 0 <= k < |batiments| :: BuildingOf(rows, infrasDict, Planification.GroupKeys(Keyed(rows))[k], batiments[k])
    ensures phase0 == Phase0(batiments, InitiallyPending(batiments))
    ensures toRepair == ToRepair(batiments, InitiallyPending(batiments))
    ensures planification == Plan(Run(toRepair, InitiallyPending(batiments)).works)
    ensures forall i | i in Universe(batiments) :: i.reparee
  {
    var rows := DropDuplicates(data);
    var dict := BuildInfras(rows);
    infrasDict := dict;
    batiments := BuildBatiments(rows, dict);
    ghost var pend0 := InitiallyPending(batiments);
    InitialMirror(rows, dict, batiments);
    assert forall i | i in Universe(batiments) :: fresh(i) by {
      forall i | i in Universe(batiments) ensures fresh(i) {
        var id :| id in dict && dict[id] == i;
      }
    }
    phase0, toRepair := Classify(batiments, pend0);
    SplitMembers(batiments, pend0);
    planification := RepairLoop(batiments, toRepair, pend0);
    EverythingRepaired(batiments, pend0);
    RepairedAtEnd(Universe(batiments), Run(toRepair, pend0).pend);
  }
}
