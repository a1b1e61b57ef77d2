/**
 * Infra.py: a cable segment.  Its material fixes a cost and a duration per
 * metre; its state string `infraType` goes from "a_remplacer" to
 * "infra_intacte" when it is repaired.  Every other attribute is set once
 * by the constructor and never reassigned, so it is a `const` here; the
 * per-metre rates the source caches in `__init__` are functions of the
 * (constant) material.
 */
module Infras {

  /** COUT_PAR_TYPE: euros per metre. */
  const CoutParType: map<string, real> := map["aerien" := 500.0, "semi-aerien" := 750.0, "fourreau" := 900.0]

  /** DUREE_PAR_TYPE: hours per metre. */
  const DureeParType: map<string, real> := map["aerien" := 2.0, "semi-aerien" := 4.0, "fourreau" := 5.0]

  const CoutOuvrier8h: real := 300.0
  const MaxOuvriers: int := 4

  /** The two states the planner writes or tests. */
  const ARemplacer: string := "a_remplacer"
  const InfraIntacte: string := "infra_intacte"

  /** `table.get(key, 0)`. */
  function RateOf(table: map<string, real>, key: string): (r: real)
    ensures key !in table ==> r == 0.0
    ensures key in table ==> r == table[key]
  {
    if key in table then table[key] else 0.0
  }

  class Infra {
    const infraId: string
    const length: real
    var infraType: string
    const nbHouses: int
    const typeInfra: string

    constructor (infraId: string, length: real, infraType: string, nbHouses: int, typeInfra: string)
      ensures this.infraId == infraId && this.length == length && this.infraType == infraType
      ensures this.nbHouses == nbHouses && this.typeInfra == typeInfra
    {
      this.infraId := infraId;
      this.length := length;
      this.infraType := infraType;
      this.nbHouses := nbHouses;
      this.typeInfra := typeInfra;
    }

    /** `cout_par_m`: the material's rate, 0 for a material outside the table. */
    function CoutParM(): real
    {
      RateOf(CoutParType, typeInfra)
    }

    /** `duree_par_m`: the material's rate, 0 for a material outside the table. */
    function DureeParM(): real
    {
      RateOf(DureeParType, typeInfra)
    }

    /** Marks the segment repaired, whatever its state was; calling it again changes nothing. */
    method RepairInfra()
      modifies this`infraType
      ensures infraType == InfraIntacte
    {
      infraType := InfraIntacte;
    }

    /** Material cost: 500, 750 or 900 euros per metre, nothing for an unknown material. */
    function GetInfraCost(): (r: real)
      ensures typeInfra == "aerien" ==> r == 500.0 * length
      ensures typeInfra == "semi-aerien" ==> r == 750.0 * length
      ensures typeInfra == "fourreau" ==> r == 900.0 * length
      ensures typeInfra !in CoutParType ==> r == 0.0
      ensures length >= 0.0 ==> r >= 0.0
    {
      length * CoutParM()
    }

    /** Theoretical duration: 2, 4 or 5 hours per metre, nothing for an unknown material. */
    function GetInfraDuration(): (r: real)
      ensures typeInfra == "aerien" ==> r == 2.0 * length
      ensures typeInfra == "semi-aerien" ==> r == 4.0 * length
      ensures typeInfra == "fourreau" ==> r == 5.0 * length
      ensures typeInfra !in DureeParType ==> r == 0.0
      ensures length >= 0.0 ==> r >= 0.0
    {
      length * DureeParM()
    }
  }

  /** An unknown material costs nothing and takes no time, whatever the length. */
  lemma UnknownMaterialIsFree(i: Infra)
    requires i.typeInfra !in CoutParType
    ensures i.GetInfraCost() == 0.0 && i.GetInfraDuration() == 0.0
  {
  }
}
