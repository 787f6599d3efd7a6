/**
 * Reading a reaction's equation: the net stoichiometry of every species
 * named by the reaction's reactant and product references, and the
 * filter that keeps only species the model knows and that are not on the
 * boundary.
 */
module Stoichiometry {
  import opened Wrappers
  import opened Required

  /** A species reference of a reaction: the species id and its stoichiometry, when set. */
  datatype SpeciesReference = SpeciesReference(info: SBaseInfo, species: string, stoichiometry: Option<real>)

  /** The species ids the references name. */
  function Species(refs: seq<SpeciesReference>): (ids: set<string>)
    decreases |refs|
  {
    if refs == [] then {} else Species(refs[..|refs| - 1]) + {refs[|refs| - 1].species}
  }

  /** Species names exactly the species of the references. */
  lemma {:induction false} SpeciesNamed(refs: seq<SpeciesReference>, sid: string)
    ensures sid in Species(refs) <==> exists i :: 0 <= i < |refs| && refs[i].species == sid
    decreases |refs|
  {
    if refs != [] {
      var init := refs[..|refs| - 1];
      SpeciesNamed(init, sid);
      assert forall i :: 0 <= i < |init| ==> init[i] == refs[i];
      if sid == refs[|refs| - 1].species {
        assert refs[|refs| - 1].species == sid;
      }
    }
  }

  lemma StepAt(refs: seq<SpeciesReference>, i: nat)
    requires i < |refs|
    ensures Species(refs[..i + 1]) == Species(refs[..i]) + {refs[i].species}
    ensures forall sid ::
              Total(refs[..i + 1], sid) == Total(refs[..i], sid) + Contribution(refs[i], sid)
    ensures AllSet(refs[..i]) && refs[i].stoichiometry.Some? ==> AllSet(refs[..i + 1])
  {
    assert refs[..i + 1][..i] == refs[..i];
  }

  predicate AllSet(refs: seq<SpeciesReference>)
  {
    forall i :: 0 <= i < |refs| ==> refs[i].stoichiometry.Some?
  }

  /** What one reference adds to the total of `sid`. */
  function Contribution(sref: SpeciesReference, sid: string): real
  {
    if sref.species == sid && sref.stoichiometry.Some? then sref.stoichiometry.value else 0.0
  }

  /** The sum of the stoichiometries with which the references name `sid`. */
  function Total(refs: seq<SpeciesReference>, sid: string): real
    decreases |refs|
  {
    if refs == [] then 0.0
    else
      var last := refs[|refs| - 1];
      Total(refs[..|refs| - 1], sid) + Contribution(last, sid)
  }

  /** A species no reference names has total 0. */
  lemma {:induction false} TotalOfUnnamed(refs: seq<SpeciesReference>, sid: string)
    requires sid !in Species(refs)
    ensures Total(refs, sid) == 0.0
    decreases |refs|
  {
    if refs != [] {
      TotalOfUnnamed(refs[..|refs| - 1], sid);
    }
  }

  function Get0(m: map<string, real>, sid: string): real
  {
    if sid in m then m[sid] else 0.0
  }

  function Signed(negate: bool, x: real): real
  {
    if negate then -x else x
  }

  /**
   * One of the two loops of the `defaultdict` fold: each reference's
   * stoichiometry is subtracted from its species' entry (`-=`, for
   * reactants) or added to it (`+=`, for products). A reference without a
   * stoichiometry is an error.
   */
  method Accumulate(start: map<string, real>, refs: seq<SpeciesReference>, subtract: bool)
    returns (r: Result<map<string, real>>)
    ensures r.Ok? <==> AllSet(refs)
    ensures r.Ok? ==> r.value.Keys == start.Keys + Species(refs)
    ensures r.Ok? ==> forall sid :: Get0(r.value, sid) == Get0(start, sid) + Signed(subtract, Total(refs, sid))
  {
    var stoichiometry := start;
    for i := 0 to |refs|
      invariant AllSet(refs[..i])
      invariant stoichiometry.Keys == start.Keys + Species(refs[..i])
      invariant forall sid :: Get0(stoichiometry, sid) == Get0(start, sid) + Signed(subtract, Total(refs[..i], sid))
    {
      var sref := refs[i];
      StepAt(refs, i);
      var coefficient := CheckRequired(sref.info, sref.stoichiometry, "stoichiometry");
      if coefficient.Err? {
        return Err(coefficient.error);
      }
      stoichiometry := stoichiometry[sref.species := Get0(stoichiometry, sref.species) + Signed(subtract, coefficient.value)];
    }
    assert refs[..|refs|] == refs;
    return Ok(stoichiometry);
  }

  /**
   * The `defaultdict` fold: each reactant's stoichiometry is subtracted
   * and each product's added, from 0, for every species named.
   */
  method NetStoichiometry(reactants: seq<SpeciesReference>, products: seq<SpeciesReference>)
    returns (r: Result<map<string, real>>)
    ensures r.Ok? <==> AllSet(reactants) && AllSet(products)
    ensures r.Ok? ==> r.value.Keys == Species(reactants) + Species(products)
    ensures r.Ok? ==> forall sid :: sid in r.value ==>
      r.value[sid] == Total(products, sid) - Total(reactants, sid)
  {
    var negated := Accumulate(map[], reactants, true);
    if negated.Err? {
      return negated;
    }
    r := Accumulate(negated.value, products, false);
    if r.Ok? {
      forall sid | sid in r.value
        ensures r.value[sid] == Total(products, sid) - Total(reactants, sid)
      {
        assert Get0(r.value, sid) == Get0(negated.value, sid) + Total(products, sid);
      }
    }
  }

  /**
   * The loop building `object_stoichiometry`: boundary species and species
   * the model does not know are skipped, every other species keeps its
   * net coefficient.
   */
  method FilterStoichiometry(net: map<string, real>, boundaryIds: set<string>, knownIds: set<string>)
    returns (kept: map<string, real>)
    ensures kept.Keys <= net.Keys
    ensures forall sid :: sid in kept <==> sid in net && sid !in boundaryIds && sid in knownIds
    ensures forall sid :: sid in kept ==> kept[sid] == net[sid]
  {
    kept := map[];
    var todo := net.Keys;
    while todo != {}
      invariant todo <= net.Keys
      invariant forall sid :: sid in kept <==> sid in net && sid !in todo && sid !in boundaryIds && sid in knownIds
      invariant forall sid :: sid in kept ==> kept[sid] == net[sid]
      decreases todo
    {
      var sid :| sid in todo;
      todo := todo - {sid};
      if sid in boundaryIds {
        continue;
      }
      if sid !in knownIds {
        continue;
      }
      kept := kept[sid := net[sid]];
    }
  }

  /**
   * The equation of one reaction as read: the net coefficient of every
   * named species that is known and not on the boundary.
   */
  method ReactionStoichiometry(reactants: seq<SpeciesReference>, products: seq<SpeciesReference>,
                               boundaryIds: set<string>, knownIds: set<string>)
    returns (r: Result<map<string, real>>)
    ensures r.Ok? <==> AllSet(reactants) && AllSet(products)
    ensures r.Ok? ==> forall sid :: sid in r.value <==>
      (sid in Species(reactants) || sid in Species(products)) && sid !in boundaryIds && sid in knownIds
    ensures r.Ok? ==> forall sid :: sid in r.value ==>
      r.value[sid] == Total(products, sid) - Total(reactants, sid)
  {
    var net := NetStoichiometry(reactants, products);
    if net.Err? {
      return net;
    }
    var kept := FilterStoichiometry(net.value, boundaryIds, knownIds);
    return Ok(kept);
  }

  /** A species named only as a reactant, once with coefficient c, has net coefficient -c. */
  lemma {:induction false} SingleReactant(reactants: seq<SpeciesReference>, products: seq<SpeciesReference>, i: nat)
    requires i < |reactants| && reactants[i].stoichiometry.Some?
    requires forall j :: 0 <= j < |reactants| && j != i ==> reactants[j].species != reactants[i].species
    requires reactants[i].species !in Species(products)
    ensures Total(products, reactants[i].species) - Total(reactants, reactants[i].species)
      == -reactants[i].stoichiometry.value
  {
    TotalOfUnnamed(products, reactants[i].species);
    TotalSingle(reactants, i);
  }

  lemma {:induction false} TotalSingle(refs: seq<SpeciesReference>, i: nat)
    requires i < |refs| && refs[i].stoichiometry.Some?
    requires forall j :: 0 <= j < |refs| && j != i ==> refs[j].species != refs[i].species
    ensures Total(refs, refs[i].species) == refs[i].stoichiometry.value
    decreases |refs|
  {
    var init := refs[..|refs| - 1];
    var sid := refs[i].species;
    if i == |refs| - 1 {
      assert forall j :: 0 <= j < |init| ==> init[j] == refs[j];
      SpeciesNamed(init, sid);
      TotalOfUnnamed(init, sid);
    } else {
      TotalSingle(init, i);
    }
  }
}
