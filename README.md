# cobrapy SBML (FBC) conversion rules in Dafny

This project models the rules inside `cobra/io/sbmlnew.py`, cobrapy's SBML
import and export layer for the FBC (flux balance constraints) package,
that do not depend on libsbml. SBML elements become plain datatypes:
species references are (element info, species id, optional stoichiometry)
records, the element info being what the missing-attribute message prints,
parameters are (id, optional value, constant flag, SBO term) records, and a
CV term is its list of resource URIs. Python's `None` is `Option.None` and
a raised exception is `Result.Err`. Stoichiometries and bounds are `real`.

Modules:

- `Text`: the Python string operations the code uses (`startswith`,
  `endswith`, `split(sep, 1)`, `strip()`, and string order for `sorted`).
- `Required`: `_check_required`, which returns a required attribute or
  raises `CobraSBMLError`.
- `Direction`: the `LONG_SHORT_DIRECTION` and `SHORT_LONG_DIRECTION`
  tables and the lookups into them.
- `Annotation`: `annotate_cobra_from_sbase`. A class `Annotated` stands for
  the cobra object; its `annotation` dictionary is updated in place by
  nested loops over the CV terms and their resources. A URI is accepted
  when it starts with `http://identifiers.org/` and a `/` follows. The
  first identifier of a provider is stored as a string. Later ones turn
  the entry into a list and are appended in order. The SBO term is an
  integer entry under `"SBO"`. A URI whose provider is `"SBO"` makes the
  code call `append` on that integer, which raises; the model returns
  `ok == false` in that case, with the dictionary as it was at the moment
  of the exception.
- `Stoichiometry`: the reader's equation. The `defaultdict` fold subtracts
  reactant and adds product stoichiometries from 0. A filter then drops
  boundary species and species the model does not know.
- `GeneRule`: the removal of outer parentheses from a gene-reaction rule.
- `FluxBounds`: `create_bound` on a `ParameterList` class, with the minimum
  and maximum defaults. Also the reader's resolution of a reaction's flux
  bound ids to constant parameters. A round trip is proved: for reactions
  with distinct ids, reading back the ids the writer chose gives each
  reaction's bounds.
- `SpeciesReferences`: the writer's reactant/product split under the
  species ids `M_<id>`, and the emission of each dictionary sorted by id.
  A round trip with the reader's fold is proved: the emitted references
  give back each metabolite's coefficient and name no other species.

The writer rules (`create_bound`, the reactant/product split, the sorted
emission, and the `SHORT_LONG_DIRECTION` lookup of the objective at line
409) are modelled as written. In the source they cannot run:
`_model_to_sbml` raises `NameError` at line 374, because `model_id` is not
defined anywhere in the file, so its `return doc` at line 377 and the code
after it are never reached (that code also uses other undefined names,
such as `comp` at line 376).

## Model

| member | source | states |
|---|---|---|
| Text.SplitOnce | cobra/io/sbmlnew.py:594-599 | `split("/", 1)` unpacked into two parts succeeds iff the separator occurs; then the input is first part + `/` + second part and the first part has no `/` |
| Text.SplitOnceUnique | cobra/io/sbmlnew.py:595 | the split at the first separator is unique: `a + "/" + b` with no `/` in `a` splits into exactly `(a, b)` |
| Text.Strip | cobra/io/sbmlnew.py:313 | the result of `strip()` is no longer than its input and neither starts nor ends with whitespace |
| Text.StripSlice | cobra/io/sbmlnew.py:313 | `strip()` returns a slice `s[i..j]` of its input where everything before `i` and from `j` on is whitespace |
| Text.StripIdempotent | cobra/io/sbmlnew.py:313 | stripping twice is stripping once |
| Text.SortedStrings | cobra/io/sbmlnew.py:524 | the elements of a set in strictly ascending string order, each exactly once |
| Required.MissingAttributeMessage | cobra/io/sbmlnew.py:557-562 | the message is exactly the head naming the attribute and the element, followed directly by ` with id '…'` if the id is set, else ` with name '…'` if the name is set, else nothing |
| Required.CheckRequired | cobra/io/sbmlnew.py:549-564 | succeeds iff the value is set, and then returns it unchanged; otherwise fails with the missing-attribute message |
| Direction.DirectionTablesInverse | cobra/io/sbmlnew.py:48-49 | each table maps every key to a key of the other table that maps back to it |
| Direction.ToShortDirection | cobra/io/sbmlnew.py:330 | `maximize` gives `max`, `minimize` gives `min`, any other objective type raises |
| Direction.ToLongDirection | cobra/io/sbmlnew.py:409 | `max` gives `maximize`, `min` gives `minimize`, any other direction raises (a lookup in the unreachable writer) |
| Direction.DirectionRoundTrip | cobra/io/sbmlnew.py:48-49 | converting a direction one way and back returns it |
| GeneRule.StripOuterParens | cobra/io/sbmlnew.py:311-313 | a rule not both starting with `(` and ending with `)` is unchanged; otherwise the result is at least two characters shorter and has no surrounding whitespace |
| GeneRule.StripOuterParensSlice | cobra/io/sbmlnew.py:311-313 | for a parenthesised rule the result is `gpr[1:-1].strip()`: a slice `gpr[i..j]` strictly inside the parentheses with only whitespace between `(` and `i` and between `j` and `)` |
| GeneRule.StripOuterParensOfPrinted | cobra/io/sbmlnew.py:311-313 | for a body without leading or trailing whitespace, a rule of the form `( ` + body + ` )` comes back as its body |
| Annotation.ParseUri | cobra/io/sbmlnew.py:591-599 | a URI is accepted iff it starts with the 23-character `http://identifiers.org/` and a `/` follows; then it is the prefix + provider + `/` + identifier with no `/` in the provider |
| Annotation.AddIdentifier | cobra/io/sbmlnew.py:601-607 | one identifier for a provider: fails, changing nothing, iff the provider holds the integer SBO term; otherwise the provider's entry becomes what `Expected` gives for that one identifier and every other key is unchanged |
| Annotation.AddUri | cobra/io/sbmlnew.py:588-607 | a rejected URI changes nothing; no key is ever removed and the SBO term entry is never changed |
| Annotation.AddUris | cobra/io/sbmlnew.py:586-607 | reading URIs in turn never removes a key and never changes the SBO term entry |
| Annotation.Annotate | cobra/io/sbmlnew.py:567-607 | with an SBO term set, the dictionary ends with it under `SBO` whatever URIs follow; without CV terms the read succeeds; no key is removed |
| Annotation.ParseUriOfWellFormed | cobra/io/sbmlnew.py:591-595 | every such URI is accepted with exactly that provider and identifier, even if the identifier contains `/` |
| Annotation.RejectedUri | cobra/io/sbmlnew.py:591-599 | a URI without the prefix or without a `/` after it leaves the dictionary unchanged |
| Annotation.AddUrisEntries | cobra/io/sbmlnew.py:601-607 | on success every key's entry is its old entry extended by the identifiers read for it in URI order: a new provider holds one identifier as a string and two or more as a list |
| Annotation.FreshProvider | cobra/io/sbmlnew.py:601-607 | a provider absent before is present iff it was read; seen once it maps to that identifier, seen k >= 2 times to the list of all k identifiers in URI order |
| Annotation.OtherKeysUnchanged | cobra/io/sbmlnew.py:601-607 | a key no accepted URI names keeps its entry, or stays absent |
| Annotation.AddUrisOk | cobra/io/sbmlnew.py:577-607 | reading succeeds iff no accepted URI names a provider whose entry is the integer SBO term |
| Annotation.AddUrisConcat | cobra/io/sbmlnew.py:586-607 | reading two runs of URIs is reading the first and then the second; after an exception nothing more is read |
| Annotation.Annotated.AddResource | cobra/io/sbmlnew.py:590-607 | one resource URI updates the dictionary in place as the per-URI rule says |
| Annotation.Annotated.AddResources | cobra/io/sbmlnew.py:589-607 | the inner loop reads a CV term's resources in order |
| Annotation.Annotated.AddTerms | cobra/io/sbmlnew.py:586-607 | the outer loop reads all CV terms' resources in order |
| Annotation.Annotated.AnnotateFromSBase | cobra/io/sbmlnew.py:567-607 | stores the SBO term if set, returns if there are no CV terms, and otherwise reads all their URIs into the dictionary |
| Stoichiometry.TotalOfUnnamed | cobra/io/sbmlnew.py:239 | a species no reference names contributes 0, the default of the `defaultdict` |
| Stoichiometry.Accumulate | cobra/io/sbmlnew.py:240-247 | one loop subtracts (reactants) or adds (products) each stoichiometry to its species' entry; succeeds iff every stoichiometry is set; the keys are the old keys plus the named species |
| Stoichiometry.NetStoichiometry | cobra/io/sbmlnew.py:239-247 | the keys are exactly the species named by reactants or products, and each value is the sum of its product stoichiometries minus the sum of its reactant stoichiometries; fails iff some stoichiometry is missing |
| Stoichiometry.FilterStoichiometry | cobra/io/sbmlnew.py:250-262 | a species is kept iff it is in the net stoichiometry, not on the boundary and known to the model; kept keys are a subset of the net keys and keep their value exactly |
| Stoichiometry.ReactionStoichiometry | cobra/io/sbmlnew.py:239-262 | the reaction's equation: the net coefficient of exactly the named species that are known and not on the boundary |
| Stoichiometry.TotalSingle | cobra/io/sbmlnew.py:240-247 | a species named by exactly one reference totals that reference's stoichiometry |
| Stoichiometry.SingleReactant | cobra/io/sbmlnew.py:240-247 | a species named once, only as a reactant, gets the negated stoichiometry |
| FluxBounds.MinLowerBound | cobra/io/sbmlnew.py:420 | the result is one of the lower bounds and no lower bound is smaller |
| FluxBounds.MaxUpperBound | cobra/io/sbmlnew.py:421 | the result is one of the upper bounds and no upper bound is larger |
| FluxBounds.DefaultBounds | cobra/io/sbmlnew.py:419-424 | -1000 and 1000 for a model without reactions, otherwise the smallest lower and largest upper bound |
| FluxBounds.SharedBoundId | cobra/io/sbmlnew.py:438-443 | the minimum is tried first, then 0, then the maximum; no shared id iff the value is none of them |
| FluxBounds.ReactionBoundIdInjective | cobra/io/sbmlnew.py:445 | distinct (reaction id, bound type) pairs give distinct `R_<id>_<bound_type>` ids |
| FluxBounds.ReactionBoundIdNotShared | cobra/io/sbmlnew.py:445 | a created id is never one of the three shared ids |
| FluxBounds.FindParameter | cobra/io/sbmlnew.py:222-223 | a parameter with the id, if any; none iff no parameter has it |
| FluxBounds.FindParameterFirst | cobra/io/sbmlnew.py:222-223 | `getParameter` returns the first parameter with the id, whatever parameters with the same id follow |
| FluxBounds.ResolveBound | cobra/io/sbmlnew.py:222-233 | a bound resolves iff the first parameter with that id is constant and has a value, and then to that value; an unknown id fails |
| FluxBounds.ReadFluxBounds | cobra/io/sbmlnew.py:215-233 | reading succeeds iff there is an fbc plugin, both bound ids are set and both resolve, and then gives the two resolved values |
| FluxBounds.SharedResolves | cobra/io/sbmlnew.py:426-443 | a shared id resolves to the bound value it was chosen for |
| FluxBounds.CreatedFinds | cobra/io/sbmlnew.py:444-449 | with distinct reaction ids, the first parameter with a created id is the one created for that bound |
| FluxBounds.WriteReadBound | cobra/io/sbmlnew.py:433-449 | with distinct reaction ids, every id `create_bound` returns resolves in the written list to that bound's value |
| FluxBounds.ParameterList.constructor | cobra/io/sbmlnew.py:419-431 | the list starts with the shared minimum, maximum and zero parameters |
| FluxBounds.ParameterList.CreateBound | cobra/io/sbmlnew.py:433-449 | a shared value returns its shared id and appends nothing; any other value appends exactly one constant parameter `R_<id>_<bound_type>` with that value and returns its id |
| FluxBounds.ParameterList.WriteBounds | cobra/io/sbmlnew.py:489-503 | for each reaction in order, the upper and then the lower bound id, with the parameters these calls append |
| FluxBounds.WriteFluxBounds | cobra/io/sbmlnew.py:414-503 | with distinct reaction ids, reading each written reaction's bound ids back gives exactly its lower and upper bound |
| SpeciesReferences.SpeciesIdInjective | cobra/io/sbmlnew.py:517 | distinct metabolite ids give distinct `M_<id>` species ids |
| SpeciesReferences.SplitStoichiometry | cobra/io/sbmlnew.py:514-521 | a positive coefficient goes unchanged to the products, any other negated to the reactants; each metabolite is in exactly one dictionary under `M_<id>`; all reactant values are >= 0 |
| SpeciesReferences.SortedItems | cobra/io/sbmlnew.py:524 | every entry of the dictionary once, in strictly ascending id order |
| SpeciesReferences.EmittedReferences | cobra/io/sbmlnew.py:522-531 | one species reference per dictionary entry, each naming a key of the dictionary with that key's value |
| SpeciesReferences.EmittedAscending | cobra/io/sbmlnew.py:522-531 | emitted species references are in strictly ascending species id order |
| SpeciesReferences.EmittedOnce | cobra/io/sbmlnew.py:522-531 | each dictionary entry is emitted exactly once with its value |
| SpeciesReferences.WrittenEquationReadsBack | cobra/io/sbmlnew.py:514-531 | reading the emitted reactants and products back with the net-stoichiometry rule gives each metabolite's original coefficient |
| SpeciesReferences.EmittedSpecies | cobra/io/sbmlnew.py:522-531 | the emitted references name exactly the keys of the dictionary |
| SpeciesReferences.WrittenSpecies | cobra/io/sbmlnew.py:514-531 | the species read back from the emitted reactants and products are exactly the `M_<id>` of the reaction's metabolites, no others |

## Left out

- Reading and writing documents (paths, strings, file handles, compression) and the error wrapping around them (lines 70-148): these are libsbml calls whose behaviour is not visible here.
- Plugin lookups, namespace and document setup, and the FBC strictness warnings (lines 159-167, 363-377): libsbml calls.
- The cobra classes `Model`, `Reaction`, `Metabolite` and `Gene`, `add_metabolites`, `add_reactions`, `set_objective` and the solver objective: their code is not part of this model. A cobra object appears only as its annotation dictionary; a reaction appears as its id and bounds, or as its metabolite-to-coefficient map; the model appears as its reaction list and as the set of metabolite ids it knows.
- The species, compartment and gene loops of the reader (lines 174-204). The boundary ids and the ids known to the model are inputs of the stoichiometry filter.
- The reader's objective loop (lines 324-346), apart from the direction lookup at line 330: it feeds `set_objective`.
- The conversion of gene-product associations to rules: `process_gpr` and `process_association` are commented out (lines 268-296), the rule is fixed to `''` (line 309), and `parse_gpr`, `construct_gpr_xml` and `strnum` are not part of this model.
- `validate_sbml_model`, which is only a failing assertion (line 616).
- Warnings and their messages (lines 164-167, 253-261, 592, 597).
- Floating-point semantics: stoichiometries and bounds are reals, so there is no rounding and no NaN.
- XML emission in the unreachable writer (lines 380-546) beyond the bound selection and the reactant/product split: units, compartments, species, genes, objectives, the `fbc:` attributes, `annotate_sbml_from_cobra` and the string form of numbers (`strnum`).
- Dictionary order: `object_stoichiometry`, the writer's two dictionaries and the `annotation` dictionary are modelled as maps, so insertion order is not modelled. Only the sorted emission order is.
- Required.MissingAttributeMessage: the printed form of the element is an input, and the name branch uses the element's `name` attribute for what the source reads with `sbase.get("name")`.
- Text.Strip: counts as whitespace only the characters `str.isspace()` accepts below U+0100.
