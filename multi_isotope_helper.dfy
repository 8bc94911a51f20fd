/** The C++ helpers for multi-isotope uranium mixtures: the fixed table of
    uranium nuclides, the conversion between mass numbers and nuclide
    identifiers (ZZAAAMMMM, e.g. 922350000 for U-235), the share of one
    isotope in the uranium of a composition, and the per-isotope stage
    separation factors derived from the U-235 factor. */
module MultiIsotopeHelper {
  import opened Wrappers

  /** Mass numbers of the tracked uranium isotopes, in table order. */
  const MassNumbers: seq<int> := [232, 233, 234, 235, 236, 238]

  /** Nuclide identifiers of the same isotopes, in the same order. */
  const NucIDs: seq<int> := [922320000, 922330000, 922340000, 922350000, 922360000, 922380000]

  const U235: int := 922350000
  const U238: int := 922380000

  /** A composition: nuclide identifier to atom or mass fraction. Entries of
      other elements may be present; only uranium is counted. */
  type CompMap = map<int, real>

  /** A cyclus composition carries both an atom and a mass view. How one is
      derived from the other (atomic masses) is not part of this model. */
  datatype Composition = Composition(atom: CompMap, mass: CompMap)

  /** A material: a quantity of some composition. */
  datatype Material = Material(quantity: real, comp: Composition)

  // ---------------------------------------------------------------------------
  // Isotope table

  /** Overwrites the output with the six uranium nuclide identifiers. */
  method IsotopesNucID() returns (isotopes: seq<int>)
    ensures isotopes == [922320000, 922330000, 922340000, 922350000, 922360000, 922380000]
    ensures isotopes == NucIDs
  {
    isotopes := MassNumbers;
    var i := 0;
    while i < |isotopes|
      invariant |isotopes| == |MassNumbers| && 0 <= i <= |isotopes|
      invariant forall j :: 0 <= j < i ==> isotopes[j] == (92 * 1000 + MassNumbers[j]) * 10000
      invariant forall j :: i <= j < |isotopes| ==> isotopes[j] == MassNumbers[j]
    {
      isotopes := isotopes[i := (92 * 1000 + isotopes[i]) * 10000];
      i := i + 1;
    }
  }

  /** Mass number to nuclide identifier; anything outside the table is not
      uranium and is rejected. */
  function IsotopeToNucID(isotope: int): (r: Result<int>)
    ensures r.Success? <==> isotope in MassNumbers
    ensures forall i :: 0 <= i < |MassNumbers| && MassNumbers[i] == isotope ==> r == Success(NucIDs[i])
    ensures r.Failure? ==> r.error.ValueError?
  {
    if isotope !in MassNumbers then
      Failure(ValueError("Invalid (non-uranium) isotope!"))
    else
      Success((92 * 1000 + isotope) * 10000)
  }

  /** Nuclide identifier to mass number; the inverse table lookup. */
  function NucIDToIsotope(nucID: int): (r: Result<int>)
    ensures r.Success? <==> nucID in NucIDs
    ensures forall i :: 0 <= i < |NucIDs| && NucIDs[i] == nucID ==> r == Success(MassNumbers[i])
    ensures r.Failure? ==> r.error.ValueError?
  {
    if nucID !in NucIDs then
      Failure(ValueError("Invalid (non-uranium) isotope!"))
    else
      Success(nucID / 10000 - 92 * 1000)
  }

  /** The two conversions are mutually inverse on the table. */
  lemma IsotopeRoundTrip(isotope: int, nucID: int)
    ensures isotope in MassNumbers ==> NucIDToIsotope(IsotopeToNucID(isotope).value) == Success(isotope)
    ensures nucID in NucIDs ==> IsotopeToNucID(NucIDToIsotope(nucID).value) == Success(nucID)
  {
  }

  // ---------------------------------------------------------------------------
  // Uranium shares

  function Entry(m: CompMap, nucID: int): real {
    if nucID in m then m[nucID] else 0.0
  }

  /** Sum of the entries of `m` at the identifiers `ids`, missing ones as 0. */
  function SumOver(m: CompMap, ids: seq<int>): real {
    if ids == [] then 0.0 else SumOver(m, ids[..|ids| - 1]) + Entry(m, ids[|ids| - 1])
  }

  /** Total uranium in a composition: the sum over the six isotopes. */
  function UraniumTotal(m: CompMap): real {
    SumOver(m, NucIDs)
  }

  /** Share of `nucID` in the uranium of `m`. */
  function UraniumShare(m: CompMap, nucID: int): real
    requires UraniumTotal(m) != 0.0
  {
    Entry(m, nucID) / UraniumTotal(m)
  }

  /** The atom-fraction share of `isotope` among the uranium isotopes. The
      source reads `isotope_assay` uninitialised unless the isotope is a
      uranium entry of the map, and divides by the uranium total. */
  method MultiIsotopeAtomFrac(compmap: CompMap, isotope: int) returns (assay: real)
    requires isotope in NucIDs && isotope in compmap
    requires UraniumTotal(compmap) != 0.0
    ensures assay == UraniumShare(compmap, isotope)
  {
    var isotopes := IsotopesNucID();
    var isotopeAssay := 0.0;
    var uraniumAtomFrac := 0.0;
    var k := 0;
    while k < |isotopes|
      invariant 0 <= k <= |isotopes|
      invariant uraniumAtomFrac == SumOver(compmap, isotopes[..k])
      invariant isotope in isotopes[..k] ==> isotopeAssay == compmap[isotope]
    {
      var i := isotopes[k];
      if i in compmap {
        uraniumAtomFrac := uraniumAtomFrac + compmap[i];
        if i == isotope {
          isotopeAssay := compmap[i];
        }
      }
      assert isotopes[..k + 1][..k] == isotopes[..k];
      k := k + 1;
    }
    assert isotopes[..k] == NucIDs;
    assay := isotopeAssay / uraniumAtomFrac;
  }

  /** The mass-fraction share: the same rule applied to a mass map (the
      source repeats the loop of the atom version verbatim). */
  method MultiIsotopeMassFrac(compmap: CompMap, isotope: int) returns (assay: real)
    requires isotope in NucIDs && isotope in compmap
    requires UraniumTotal(compmap) != 0.0
    ensures assay == UraniumShare(compmap, isotope)
  {
    assay := MultiIsotopeAtomFrac(compmap, isotope);
  }

  method MultiIsotopeAtomFracOfComp(comp: Composition, isotope: int) returns (assay: real)
    requires isotope in NucIDs && isotope in comp.atom
    requires UraniumTotal(comp.atom) != 0.0
    ensures assay == UraniumShare(comp.atom, isotope)
  {
    assay := MultiIsotopeAtomFrac(comp.atom, isotope);
  }

  method MultiIsotopeAtomFracOfMaterial(rsrc: Material, isotope: int) returns (assay: real)
    requires isotope in NucIDs && isotope in rsrc.comp.atom
    requires UraniumTotal(rsrc.comp.atom) != 0.0
    ensures assay == UraniumShare(rsrc.comp.atom, isotope)
  {
    assay := MultiIsotopeAtomFracOfComp(rsrc.comp, isotope);
  }

  method MultiIsotopeMassFracOfComp(comp: Composition, isotope: int) returns (assay: real)
    requires isotope in NucIDs && isotope in comp.mass
    requires UraniumTotal(comp.mass) != 0.0
    ensures assay == UraniumShare(comp.mass, isotope)
  {
    assay := MultiIsotopeMassFrac(comp.mass, isotope);
  }

  method MultiIsotopeMassFracOfMaterial(rsrc: Material, isotope: int) returns (assay: real)
    requires isotope in NucIDs && isotope in rsrc.comp.mass
    requires UraniumTotal(rsrc.comp.mass) != 0.0
    ensures assay == UraniumShare(rsrc.comp.mass, isotope)
  {
    assay := MultiIsotopeMassFracOfComp(rsrc.comp, isotope);
  }

  /** The U-235 atom assay of a composition map. */
  method MultiIsotopeAtomAssay(compmap: CompMap) returns (assay: real)
    requires U235 in compmap && UraniumTotal(compmap) != 0.0
    ensures assay == UraniumShare(compmap, U235)
  {
    var u235 := IsotopeToNucID(235);
    assay := MultiIsotopeAtomFrac(compmap, u235.value);
  }

  method MultiIsotopeAtomAssayOfComp(comp: Composition) returns (assay: real)
    requires U235 in comp.atom && UraniumTotal(comp.atom) != 0.0
    ensures assay == UraniumShare(comp.atom, U235)
  {
    var u235 := IsotopeToNucID(235);
    assay := MultiIsotopeAtomFracOfComp(comp, u235.value);
  }

  method MultiIsotopeAtomAssayOfMaterial(rsrc: Material) returns (assay: real)
    requires U235 in rsrc.comp.atom && UraniumTotal(rsrc.comp.atom) != 0.0
    ensures assay == UraniumShare(rsrc.comp.atom, U235)
  {
    var u235 := IsotopeToNucID(235);
    assay := MultiIsotopeAtomFracOfMaterial(rsrc, u235.value);
  }

  /** The U-235 mass assay of a composition map. */
  method MultiIsotopeMassAssay(compmap: CompMap) returns (assay: real)
    requires U235 in compmap && UraniumTotal(compmap) != 0.0
    ensures assay == UraniumShare(compmap, U235)
  {
    var u235 := IsotopeToNucID(235);
    assay := MultiIsotopeMassFrac(compmap, u235.value);
  }

  method MultiIsotopeMassAssayOfComp(comp: Composition) returns (assay: real)
    requires U235 in comp.mass && UraniumTotal(comp.mass) != 0.0
    ensures assay == UraniumShare(comp.mass, U235)
  {
    var u235 := IsotopeToNucID(235);
    assay := MultiIsotopeMassFracOfComp(comp, u235.value);
  }

  method MultiIsotopeMassAssayOfMaterial(rsrc: Material) returns (assay: real)
    requires U235 in rsrc.comp.mass && UraniumTotal(rsrc.comp.mass) != 0.0
    ensures assay == UraniumShare(rsrc.comp.mass, U235)
  {
    var u235 := IsotopeToNucID(235);
    assay := MultiIsotopeMassFracOfMaterial(rsrc, u235.value);
  }

  predicate NonNegative(m: CompMap) {
    forall k :: k in m ==> m[k] >= 0.0
  }

  lemma {:induction false} SumOverNonNegative(m: CompMap, ids: seq<int>)
    requires NonNegative(m)
    ensures SumOver(m, ids) >= 0.0
  {
    if ids != [] {
      SumOverNonNegative(m, ids[..|ids| - 1]);
    }
  }

  /** With non-negative entries, each listed entry is at most the sum. */
  lemma {:induction false} EntryAtMostSum(m: CompMap, ids: seq<int>, nucID: int)
    requires NonNegative(m) && nucID in ids
    ensures Entry(m, nucID) <= SumOver(m, ids)
  {
    var last := ids[|ids| - 1];
    SumOverNonNegative(m, ids[..|ids| - 1]);
    if nucID != last {
      assert nucID in ids[..|ids| - 1] by {
        var j :| 0 <= j < |ids| && ids[j] == nucID;
        assert j < |ids| - 1;
        assert ids[..|ids| - 1][j] == nucID;
      }
      EntryAtMostSum(m, ids[..|ids| - 1], nucID);
    }
  }

  /** For non-negative compositions every share is a fraction in [0, 1]. */
  lemma UraniumShareBounds(m: CompMap, nucID: int)
    requires NonNegative(m) && nucID in NucIDs && UraniumTotal(m) != 0.0
    ensures 0.0 <= UraniumShare(m, nucID) <= 1.0
  {
    EntryAtMostSum(m, NucIDs, nucID);
    SumOverNonNegative(m, NucIDs);
    var t := UraniumTotal(m);
    var e := Entry(m, nucID);
    assert 0.0 <= e <= t && t > 0.0;
    FractionBounds(e, t);
  }

  lemma FractionBounds(e: real, t: real)
    requires 0.0 <= e <= t && t > 0.0
    ensures 0.0 <= e / t <= 1.0
  {
  }

  /** Sum of the shares of `ids`, as the shares of a composition sum. */
  function ShareSum(m: CompMap, ids: seq<int>): real
    requires UraniumTotal(m) != 0.0
  {
    if ids == [] then 0.0 else ShareSum(m, ids[..|ids| - 1]) + UraniumShare(m, ids[|ids| - 1])
  }

  lemma {:induction false} ShareSumScales(m: CompMap, ids: seq<int>)
    requires UraniumTotal(m) != 0.0
    ensures ShareSum(m, ids) == SumOver(m, ids) / UraniumTotal(m)
  {
    if ids != [] {
      var init, last := ids[..|ids| - 1], ids[|ids| - 1];
      ShareSumScales(m, init);
      var t := UraniumTotal(m);
      var a, b := SumOver(m, init), Entry(m, last);
      assert UraniumShare(m, last) == b / t;
      assert ShareSum(m, ids) == a / t + b / t;
      DivAdd(a, b, t);
    }
  }

  lemma DivAdd(a: real, b: real, t: real)
    requires t != 0.0
    ensures a / t + b / t == (a + b) / t
  {
  }

  /** The six uranium shares of a composition add up to 1. */
  lemma SharesSumToOne(m: CompMap)
    requires UraniumTotal(m) != 0.0
    ensures ShareSum(m, NucIDs) == 1.0
  {
    ShareSumScales(m, NucIDs);
    var t := UraniumTotal(m);
    assert SumOver(m, NucIDs) == t;
    assert t / t == 1.0;
  }

  lemma {:induction false} SumOverIgnores(m: CompMap, ids: seq<int>, k: int, v: real)
    requires k !in ids
    ensures SumOver(m[k := v], ids) == SumOver(m, ids)
  {
    if ids != [] {
      SumOverIgnores(m, ids[..|ids| - 1], k, v);
    }
  }

  /** Entries of other elements do not change any uranium share: they go to
      the tails, as the source's comment says. */
  lemma NonUraniumIgnored(m: CompMap, k: int, v: real, nucID: int)
    requires k !in NucIDs && nucID in NucIDs && UraniumTotal(m) != 0.0
    ensures UraniumTotal(m[k := v]) == UraniumTotal(m)
    ensures UraniumShare(m[k := v], nucID) == UraniumShare(m, nucID)
  {
    SumOverIgnores(m, NucIDs, k, v);
  }

  // ---------------------------------------------------------------------------
  // Separation factors

  /** The stage separation factor of the isotope with mass number `a` for an
      overall U-235 factor `gamma`: gamma is squared first, then the excess
      over 1 is interpolated linearly in the mass difference to U-238. */
  function StageSeparationFactor(gamma: real, a: int): real {
    1.0 + (238 - a) as real * (gamma * gamma - 1.0) / 3.0
  }

  /** Fills a map from each uranium nuclide to its stage separation factor. */
  method CalculateSeparationFactor(alpha235: real) returns (factors: map<int, real>)
    ensures factors.Keys == set i | 0 <= i < |NucIDs| :: NucIDs[i]
    ensures forall i :: 0 <= i < |NucIDs| ==> factors[NucIDs[i]] == StageSeparationFactor(alpha235, MassNumbers[i])
  {
    var isotopes := IsotopesNucID();
    factors := map[];
    var alpha := alpha235 * alpha235;
    for k := 0 to |isotopes|
      invariant factors.Keys == set i | 0 <= i < k :: NucIDs[i]
      invariant forall i :: 0 <= i < k ==> factors[NucIDs[i]] == StageSeparationFactor(alpha235, MassNumbers[i])
    {
      var isotope := NucIDToIsotope(isotopes[k]);
      assert isotope == Success(MassNumbers[k]);
      var deltaMass := 238.0 - isotope.value as real;
      factors := factors[isotopes[k] := 1.0 + deltaMass * (alpha - 1.0) / (238.0 - 235.0)];
    }
  }

  /** U-238, the key component, has factor 1; U-235 has the squared factor. */
  lemma SeparationFactorAnchors(gamma: real)
    ensures StageSeparationFactor(gamma, 238) == 1.0
    ensures StageSeparationFactor(gamma, 235) == gamma * gamma
  {
  }

  /** For gamma > 1 the factors strictly decrease as the mass number grows,
      so along the table they are strictly decreasing. */
  lemma SeparationFactorDecreasing(gamma: real, i: int, j: int)
    requires gamma > 1.0 && 0 <= i < j < |MassNumbers|
    ensures StageSeparationFactor(gamma, MassNumbers[i]) > StageSeparationFactor(gamma, MassNumbers[j])
  {
    var g2 := gamma * gamma - 1.0;
    assert g2 > 0.0 by {
      assert gamma * gamma > gamma * 1.0;
    }
    var di := (238 - MassNumbers[i]) as real;
    var dj := (238 - MassNumbers[j]) as real;
    assert di > dj;
    assert di * g2 > dj * g2;
  }
}
