/**
 * Writing a reaction's equation: each metabolite's coefficient goes to
 * the products (positive) or, negated, to the reactants (zero or
 * negative), under the species id `M_<id>`, and each list is emitted
 * sorted by species id.
 *
 * Like the rest of the writer, this is currently unreachable in the
 * source: `_model_to_sbml` raises `NameError` at line 374 (`model_id` is
 * undefined), before the reaction loop.
 */
module SpeciesReferences {
  import opened Wrappers
  import opened Text
  import Required
  import Stoichiometry

  /** The SBML species id of a metabolite. */
  function SpeciesId(metaboliteId: string): string
  {
    "M_" + metaboliteId
  }

  lemma SpeciesIdInjective(a: string, b: string)
    requires SpeciesId(a) == SpeciesId(b)
    ensures a == b
  {
    assert a == SpeciesId(a)[2..] && b == SpeciesId(b)[2..];
  }

  /**
   * The two dictionaries of the split: a metabolite with a positive
   * coefficient is a product with that coefficient, any other is a
   * reactant with the coefficient negated, and nothing else is in either.
   */
  ghost predicate IsSplit(metabolites: map<string, real>, reactants: map<string, real>, products: map<string, real>)
  {
    && (forall id :: id in metabolites && metabolites[id] > 0.0 ==>
          SpeciesId(id) in products && products[SpeciesId(id)] == metabolites[id] && SpeciesId(id) !in reactants)
    && (forall id :: id in metabolites && metabolites[id] <= 0.0 ==>
          SpeciesId(id) in reactants && reactants[SpeciesId(id)] == -metabolites[id] && SpeciesId(id) !in products)
    && (forall k :: k in reactants ==> exists id :: id in metabolites && k == SpeciesId(id))
    && (forall k :: k in products ==> exists id :: id in metabolites && k == SpeciesId(id))
  }

  /** The loop over a reaction's metabolites that fills `reactants` and `products`. */
  method SplitStoichiometry(metabolites: map<string, real>)
    returns (reactants: map<string, real>, products: map<string, real>)
    ensures IsSplit(metabolites, reactants, products)
    ensures forall k :: k in reactants ==> reactants[k] >= 0.0
    ensures forall k :: k in products ==> products[k] > 0.0
  {
    reactants, products := map[], map[];
    var todo := metabolites.Keys;
    while todo != {}
      invariant todo <= metabolites.Keys
      invariant forall id :: id in metabolites && id !in todo && metabolites[id] > 0.0 ==>
        SpeciesId(id) in products && products[SpeciesId(id)] == metabolites[id] && SpeciesId(id) !in reactants
      invariant forall id :: id in metabolites && id !in todo && metabolites[id] <= 0.0 ==>
        SpeciesId(id) in reactants && reactants[SpeciesId(id)] == -metabolites[id] && SpeciesId(id) !in products
      invariant forall k :: k in reactants ==> exists id :: id in metabolites && id !in todo && k == SpeciesId(id)
      invariant forall k :: k in products ==> exists id :: id in metabolites && id !in todo && k == SpeciesId(id)
      invariant forall k :: k in reactants ==> reactants[k] >= 0.0
      invariant forall k :: k in products ==> products[k] > 0.0
      decreases todo
    {
      var id :| id in todo;
      var metId := SpeciesId(id);
      forall other | other in metabolites && other !in todo && SpeciesId(other) == metId
        ensures false
      {
        SpeciesIdInjective(other, id);
      }
      todo := todo - {id};
      if metabolites[id] > 0.0 {
        products := products[metId := metabolites[id]];
      } else {
        reactants := reactants[metId := -metabolites[id]];
      }
    }
  }

  /** `sorted(iteritems(d))`: the entries of a dictionary in ascending order of their keys. */
  ghost function SortedItems(m: map<string, real>): (items: seq<(string, real)>)
    ensures |items| == |m|
    ensures forall i :: 0 <= i < |items| ==> items[i].0 in m && items[i].1 == m[items[i].0]
    ensures forall k :: k in m ==> exists i :: 0 <= i < |items| && items[i].0 == k
    ensures forall i, j :: 0 <= i < j < |items| ==> Less(items[i].0, items[j].0)
  {
    var keys := SortedStrings(m.Keys);
    var items := seq(|keys|, i requires 0 <= i < |keys| => (keys[i], m[keys[i]]));
    ItemsCover(m, keys, items);
    items
  }

  lemma ItemsCover(m: map<string, real>, keys: seq<string>, items: seq<(string, real)>)
    requires forall k :: k in m ==> k in keys
    requires |items| == |keys| && forall i :: 0 <= i < |keys| ==> items[i].0 == keys[i]
    ensures forall k :: k in m ==> exists i :: 0 <= i < |items| && items[i].0 == k
  {
    forall k | k in m
      ensures exists i :: 0 <= i < |items| && items[i].0 == k
    {
      var i :| 0 <= i < |keys| && keys[i] == k;
      assert items[i].0 == k;
    }
  }

  /** The `speciesReference` elements emitted for one dictionary, as the reader sees them. */
  ghost function EmittedReferences(m: map<string, real>): (refs: seq<Stoichiometry.SpeciesReference>)
    ensures |refs| == |m|
    ensures forall i :: 0 <= i < |refs| ==>
      refs[i].species in m && refs[i].stoichiometry == Some(m[refs[i].species])
  {
    var items := SortedItems(m);
    seq(|items|, i requires 0 <= i < |items| =>
      Stoichiometry.SpeciesReference(Required.SBaseInfo("", None, None), items[i].0, Some(items[i].1)))
  }

  /** The emitted species ids are strictly ascending, so no species is emitted twice. */
  lemma EmittedAscending(m: map<string, real>)
    ensures var refs := EmittedReferences(m);
      forall i, j :: 0 <= i < j < |refs| ==> Less(refs[i].species, refs[j].species)
  {
  }

  /** Each entry of the dictionary is emitted exactly once. */
  lemma {:induction false} EmittedOnce(m: map<string, real>, k: string)
    requires k in m
    ensures Stoichiometry.Total(EmittedReferences(m), k) == m[k]
    ensures k in Stoichiometry.Species(EmittedReferences(m))
  {
    var refs := EmittedReferences(m);
    var items := SortedItems(m);
    var i :| 0 <= i < |items| && items[i].0 == k;
    assert refs[i].species == k;
    forall j | 0 <= j < |refs| && j != i
      ensures refs[j].species != refs[i].species
    {
      if j < i { LessIrreflexiveAt(items[j].0, items[i].0); }
      else { LessIrreflexiveAt(items[i].0, items[j].0); }
    }
    Stoichiometry.TotalSingle(refs, i);
    Stoichiometry.SpeciesNamed(refs, k);
  }

  lemma LessIrreflexiveAt(a: string, b: string)
    requires Less(a, b)
    ensures a != b
  {
    if a == b { LessIrreflexive(a); }
  }

  /** No reference is emitted for a key the dictionary lacks. */
  lemma {:induction false} NotEmitted(m: map<string, real>, k: string)
    requires k !in m
    ensures Stoichiometry.Total(EmittedReferences(m), k) == 0.0
  {
    var refs := EmittedReferences(m);
    Stoichiometry.SpeciesNamed(refs, k);
    Stoichiometry.TotalOfUnnamed(refs, k);
  }

  /**
   * Round trip with the reader's net-stoichiometry rule: for the emitted
   * reactant and product references, products minus reactants gives back
   * each metabolite's coefficient under its species id.
   */
  lemma WrittenEquationReadsBack(metabolites: map<string, real>, reactants: map<string, real>,
                                 products: map<string, real>, id: string)
    requires IsSplit(metabolites, reactants, products) && id in metabolites
    ensures var sid := SpeciesId(id);
      Stoichiometry.Total(EmittedReferences(products), sid)
        - Stoichiometry.Total(EmittedReferences(reactants), sid) == metabolites[id]
  {
    var sid := SpeciesId(id);
    if metabolites[id] > 0.0 {
      EmittedOnce(products, sid);
      NotEmitted(reactants, sid);
    } else {
      EmittedOnce(reactants, sid);
      NotEmitted(products, sid);
    }
  }

  /** The emitted references name exactly the keys of the dictionary. */
  lemma EmittedSpecies(m: map<string, real>)
    ensures Stoichiometry.Species(EmittedReferences(m)) == m.Keys
  {
    var refs := EmittedReferences(m);
    forall k | k in Stoichiometry.Species(refs) ensures k in m {
      Stoichiometry.SpeciesNamed(refs, k);
    }
    forall k | k in m ensures k in Stoichiometry.Species(refs) {
      EmittedOnce(m, k);
    }
  }

  /**
   * Reading the written equation back names no other species: the species
   * of the emitted reactants and products are exactly the `M_<id>` of the
   * reaction's metabolites.
   */
  lemma WrittenSpecies(metabolites: map<string, real>, reactants: map<string, real>,
                       products: map<string, real>)
    requires IsSplit(metabolites, reactants, products)
    ensures Stoichiometry.Species(EmittedReferences(reactants)) + Stoichiometry.Species(EmittedReferences(products))
      == set id | id in metabolites :: SpeciesId(id)
  {
    EmittedSpecies(reactants);
    EmittedSpecies(products);
    SplitKeys(metabolites, reactants, products);
  }

  /** Helper for WrittenSpecies: the split's keys are the species ids of the metabolites. */
  lemma SplitKeys(metabolites: map<string, real>, reactants: map<string, real>, products: map<string, real>)
    requires IsSplit(metabolites, reactants, products)
    ensures reactants.Keys + products.Keys == set id | id in metabolites :: SpeciesId(id)
  {
    var named := set id | id in metabolites :: SpeciesId(id);
    forall k | k in reactants.Keys + products.Keys ensures k in named {
      var id :| id in metabolites && k == SpeciesId(id);
    }
  }
}
