/**
 * Reading cross-references (`annotate_cobra_from_sbase`): the SBO term and
 * every identifiers.org resource URI of an SBML element's CV terms are
 * gathered into the annotation dictionary of the cobra object.
 */
module Annotation {
  import opened Wrappers
  import opened Text

  /**
   * A value of the annotation dictionary: one identifier (a `str`), a list
   * of identifiers, or the integer SBO term stored under "SBO".
   */
  datatype Entry = Single(id: string) | Many(ids: seq<string>) | Term(sbo: int)

  type Annotations = map<string, Entry>

  /** One controlled-vocabulary term of an SBML element: its resource URIs. */
  datatype CVTerm = CVTerm(resources: seq<string>)

  /** What the reader uses of an SBML element: its SBO term and its CV terms, when set. */
  datatype SBase = SBase(sboTerm: Option<int>, cvTerms: Option<seq<CVTerm>>)

  /** The state after reading URIs: the dictionary, and false when an append raised. */
  datatype Outcome = Outcome(annotations: Annotations, ok: bool)

  const IdentifiersPrefix := "http://identifiers.org/"

  /**
   * A URI is accepted when it starts with the identifiers.org prefix and a
   * `/` follows; the provider is the text up to that first `/` and the
   * identifier is the rest, further slashes included.
   */
  function ParseUri(uri: string): (r: Option<(string, string)>)
    ensures r.Some? <==> StartsWith(uri, IdentifiersPrefix) && '/' in uri[|IdentifiersPrefix|..]
    ensures r.Some? ==> uri == IdentifiersPrefix + r.value.0 + "/" + r.value.1 && '/' !in r.value.0
  {
    assert |IdentifiersPrefix| == 23;
    if !StartsWith(uri, IdentifiersPrefix) then None
    else
      var r := SplitOnce(uri[23..], '/');
      if r.Some? then
        assert uri == uri[..23] + uri[23..];
        r
      else r
  }

  /** Every URI of that shape is accepted, with exactly that provider and identifier. */
  lemma ParseUriOfWellFormed(provider: string, identifier: string)
    requires '/' !in provider
    ensures ParseUri(IdentifiersPrefix + provider + "/" + identifier) == Some((provider, identifier))
  {
    var uri := IdentifiersPrefix + provider + "/" + identifier;
    assert uri[..|IdentifiersPrefix|] == IdentifiersPrefix;
    assert uri[|IdentifiersPrefix|..] == provider + ['/'] + identifier;
    SplitOnceUnique(provider, '/', identifier);
  }

  /**
   * One accepted (provider, identifier) pair: a new provider gets the
   * identifier itself; a provider holding a single identifier is turned
   * into a list and extended; a list is extended; appending to the SBO
   * term, an integer, raises.
   */
  function AddIdentifier(ann: Annotations, provider: string, identifier: string): (o: Outcome)
    ensures o.ok <==> !(provider in ann && ann[provider].Term?)
    ensures !o.ok ==> o.annotations == ann
    ensures o.ok ==> Get(o.annotations, provider) == Expected(Get(ann, provider), [identifier])
    ensures forall k :: k != provider ==> Get(o.annotations, k) == Get(ann, k)
  {
    if provider !in ann then Outcome(ann[provider := Single(identifier)], true)
    else match ann[provider]
      case Single(s) =>
        assert [s] + [identifier] == [s, identifier];
        Outcome(ann[provider := Many([s, identifier])], true)
      case Many(xs) => Outcome(ann[provider := Many(xs + [identifier])], true)
      case Term(_) => Outcome(ann, false)
  }

  /** One resource URI: a rejected URI leaves the dictionary alone. */
  function AddUri(ann: Annotations, uri: string): (o: Outcome)
    ensures ParseUri(uri).None? ==> o == Outcome(ann, true)
    ensures ann.Keys <= o.annotations.Keys
    ensures forall k :: k in ann && ann[k].Term? ==> o.annotations[k] == ann[k]
  {
    match ParseUri(uri)
    case None => Outcome(ann, true)
    case Some((provider, identifier)) => AddIdentifier(ann, provider, identifier)
  }

  /** The URIs one after another, stopping at the first that raises. */
  function AddUris(ann: Annotations, uris: seq<string>): (o: Outcome)
    ensures ann.Keys <= o.annotations.Keys
    ensures forall k :: k in ann && ann[k].Term? ==> o.annotations[k] == ann[k]
    decreases |uris|
  {
    if uris == [] then Outcome(ann, true)
    else
      var o := AddUris(ann, uris[..|uris| - 1]);
      if o.ok then AddUri(o.annotations, uris[|uris| - 1]) else o
  }

  /** All resource URIs of the CV terms, term by term, in order. */
  function Resources(terms: seq<CVTerm>): (r: seq<string>)
    decreases |terms|
  {
    if terms == [] then [] else Resources(terms[..|terms| - 1]) + terms[|terms| - 1].resources
  }

  /** The whole of `annotate_cobra_from_sbase` on the annotation dictionary `ann`. */
  function Annotate(ann: Annotations, sbase: SBase): (o: Outcome)
    ensures sbase.sboTerm.Some? ==> "SBO" in o.annotations && o.annotations["SBO"] == Term(sbase.sboTerm.value)
    ensures sbase.cvTerms.None? ==> o.ok
    ensures ann.Keys <= o.annotations.Keys
  {
    var withSbo := if sbase.sboTerm.Some? then ann["SBO" := Term(sbase.sboTerm.value)] else ann;
    match sbase.cvTerms
    case None => Outcome(withSbo, true)
    case Some(terms) => AddUris(withSbo, Resources(terms))
  }

  // ---------------------------------------------------------------------
  // A reference definition of the accumulated dictionary.

  /** The identifiers of the accepted URIs with the given provider, in URI order. */
  function IdsFor(uris: seq<string>, provider: string): (ids: seq<string>)
    decreases |uris|
  {
    if uris == [] then []
    else
      var rest := IdsFor(uris[..|uris| - 1], provider);
      match ParseUri(uris[|uris| - 1])
      case Some((p, id)) => if p == provider then rest + [id] else rest
      case None => rest
  }

  function Get(ann: Annotations, key: string): Option<Entry>
  {
    if key in ann then Some(ann[key]) else None
  }

  /**
   * What a provider's entry is after identifiers `ids` were read for it,
   * given what it was before: nothing new keeps the entry; a provider seen
   * for the first time holds its one identifier, or the list of all of
   * them when there are two or more; an existing identifier or list is
   * followed by all of them in order.
   */
  function Expected(prior: Option<Entry>, ids: seq<string>): Option<Entry>
  {
    if ids == [] then prior
    else match prior
      case None => if |ids| == 1 then Some(Single(ids[0])) else Some(Many(ids))
      case Some(Single(s)) => Some(Many([s] + ids))
      case Some(Many(xs)) => Some(Many(xs + ids))
      case Some(Term(t)) => Some(Term(t))
  }

  /** The read succeeds exactly when no accepted URI names a provider that holds the SBO term. */
  predicate NoAppendToTerm(ann: Annotations, uris: seq<string>)
  {
    forall i :: 0 <= i < |uris| && ParseUri(uris[i]).Some? && ParseUri(uris[i]).value.0 in ann ==>
      !ann[ParseUri(uris[i]).value.0].Term?
  }

  lemma AddUrisAppend(ann: Annotations, uris: seq<string>, uri: string)
    ensures AddUris(ann, uris + [uri]) ==
      (var o := AddUris(ann, uris); if o.ok then AddUri(o.annotations, uri) else o)
  {
    assert (uris + [uri])[..|uris|] == uris;
  }

  lemma IdsForAppend(uris: seq<string>, uri: string, provider: string)
    ensures IdsFor(uris + [uri], provider) == IdsFor(uris, provider) + IdsFor([uri], provider)
  {
    assert (uris + [uri])[..|uris|] == uris;
  }

  /** The entry after one more identifier for its provider. */
  function Extend(prior: Option<Entry>, identifier: string): Option<Entry>
  {
    match prior
    case None => Some(Single(identifier))
    case Some(Single(s)) => Some(Many([s, identifier]))
    case Some(Many(xs)) => Some(Many(xs + [identifier]))
    case Some(Term(t)) => Some(Term(t))
  }

  lemma ExpectedAppend(prior: Option<Entry>, ids: seq<string>, identifier: string)
    ensures Expected(prior, ids + [identifier]) == Extend(Expected(prior, ids), identifier)
  {
    if ids != [] {
      match prior
      case None =>
        if |ids| == 1 { assert [ids[0], identifier] == ids + [identifier]; }
      case Some(Single(s)) => assert [s] + ids + [identifier] == [s] + (ids + [identifier]);
      case Some(Many(xs)) => assert xs + ids + [identifier] == xs + (ids + [identifier]);
      case Some(Term(t)) =>
    } else {
      match prior
      case Some(Single(s)) =>
        assert ids + [identifier] == [identifier];
        assert [s] + [identifier] == [s, identifier];
      case _ =>
        assert ids + [identifier] == [identifier];
    }
  }

  lemma AddIdentifierEntry(ann: Annotations, provider: string, identifier: string, key: string)
    requires AddIdentifier(ann, provider, identifier).ok
    ensures Get(AddIdentifier(ann, provider, identifier).annotations, key) ==
      if key == provider then Extend(Get(ann, key), identifier) else Get(ann, key)
  {
  }

  /**
   * The accumulation rule. On success each key ends up as Expected says
   * from its old entry and the identifiers read for it; in particular a
   * key no accepted URI names keeps its entry.
   */
  lemma {:induction false} AddUrisEntries(ann: Annotations, uris: seq<string>, key: string)
    requires AddUris(ann, uris).ok
    ensures Get(AddUris(ann, uris).annotations, key) == Expected(Get(ann, key), IdsFor(uris, key))
    decreases |uris|
  {
    if uris != [] {
      var init, last := uris[..|uris| - 1], uris[|uris| - 1];
      assert uris == init + [last];
      AddUrisAppend(ann, init, last);
      IdsForAppend(init, last, key);
      var o := AddUris(ann, init);
      assert o.ok;
      AddUrisEntries(ann, init, key);
      match ParseUri(last)
      case None =>
      case Some((p, id)) =>
        AddIdentifierEntry(o.annotations, p, id, key);
        if p == key {
          ExpectedAppend(Get(ann, key), IdsFor(init, key), id);
        }
    }
  }

  /** Reading succeeds exactly when no accepted URI names a provider whose entry is the integer SBO term. */
  lemma {:induction false} AddUrisOk(ann: Annotations, uris: seq<string>)
    ensures AddUris(ann, uris).ok <==> NoAppendToTerm(ann, uris)
    decreases |uris|
  {
    if uris != [] {
      var init, last := uris[..|uris| - 1], uris[|uris| - 1];
      assert uris == init + [last];
      AddUrisAppend(ann, init, last);
      AddUrisOk(ann, init);
      NoAppendToTermAppend(ann, init, last);
      if AddUris(ann, init).ok {
        LastUriOk(ann, init, last);
      }
    }
  }

  /** Helper for AddUrisOk: the condition splits over the last URI. */
  lemma NoAppendToTermAppend(ann: Annotations, init: seq<string>, last: string)
    ensures NoAppendToTerm(ann, init + [last]) <==> NoAppendToTerm(ann, init) && NoAppendToTerm(ann, [last])
  {
    var uris := init + [last];
    assert forall i :: 0 <= i < |init| ==> uris[i] == init[i];
    assert uris[|init|] == last;
  }

  /** Helper for AddUrisOk: after a successful read, one more URI fails iff it appends to the SBO term. */
  lemma LastUriOk(ann: Annotations, init: seq<string>, last: string)
    requires AddUris(ann, init).ok
    ensures AddUri(AddUris(ann, init).annotations, last).ok <==> NoAppendToTerm(ann, [last])
  {
    var o := AddUris(ann, init);
    assert [last][0] == last;
    match ParseUri(last)
    case None =>
    case Some((p, id)) =>
      AddUrisEntries(ann, init, p);
      if p in ann && ann[p].Term? {
        assert Get(o.annotations, p) == Get(ann, p);
      } else if p in o.annotations {
        assert !o.annotations[p].Term?;
      }
  }

  /**
   * Reading `u + v` is reading `u` and then, unless an append raised,
   * reading `v`; once an append raised, the remaining URIs are not read.
   */
  lemma {:induction false} AddUrisConcat(ann: Annotations, u: seq<string>, v: seq<string>)
    ensures AddUris(ann, u + v) ==
      (var o := AddUris(ann, u); if o.ok then AddUris(o.annotations, v) else o)
    decreases |v|
  {
    if v == [] {
      assert u + v == u;
    } else {
      var init, last := v[..|v| - 1], v[|v| - 1];
      assert v == init + [last];
      assert u + v == (u + init) + [last];
      AddUrisAppend(ann, u + init, last);
      AddUrisConcat(ann, u, init);
      var o := AddUris(ann, u);
      if o.ok {
        AddUrisAppend(o.annotations, init, last);
      }
    }
  }

  /**
   * Reading into an object with no entry for the provider: one identifier
   * is stored as a string, k >= 2 identifiers as the list of all k in URI
   * order.
   */
  lemma FreshProvider(ann: Annotations, uris: seq<string>, provider: string)
    requires provider !in ann && AddUris(ann, uris).ok
    ensures var result := AddUris(ann, uris).annotations;
      var ids := IdsFor(uris, provider);
      && (provider in result <==> |ids| >= 1)
      && (|ids| == 1 ==> result[provider] == Single(ids[0]))
      && (|ids| >= 2 ==> result[provider] == Many(ids))
  {
    AddUrisEntries(ann, uris, provider);
  }

  /** Keys that no accepted URI names keep their entries (or their absence). */
  lemma OtherKeysUnchanged(ann: Annotations, uris: seq<string>, key: string)
    requires AddUris(ann, uris).ok && IdsFor(uris, key) == []
    ensures key in AddUris(ann, uris).annotations <==> key in ann
    ensures key in ann ==> AddUris(ann, uris).annotations[key] == ann[key]
  {
    AddUrisEntries(ann, uris, key);
  }

  /** A URI that is rejected leaves the dictionary unchanged. */
  lemma RejectedUri(ann: Annotations, uri: string)
    requires !StartsWith(uri, IdentifiersPrefix) || '/' !in uri[|IdentifiersPrefix|..]
    ensures AddUri(ann, uri) == Outcome(ann, true)
  {
  }

  lemma {:induction false} ResourcesMonotone(terms: seq<CVTerm>, j: nat)
    requires j <= |terms|
    ensures Resources(terms[..j]) <= Resources(terms)
    decreases |terms| - j
  {
    if j < |terms| {
      ResourcesMonotone(terms, j + 1);
      assert terms[..j + 1][..j] == terms[..j];
    } else {
      assert terms[..j] == terms;
    }
  }

  /** A cobra object (metabolite, gene or reaction) as far as its annotation dictionary goes. */
  class Annotated {
    var annotation: Annotations

    constructor (annotation: Annotations)
      ensures this.annotation == annotation
    {
      this.annotation := annotation;
    }

    /**
     * The body of the inner loop of `annotate_cobra_from_sbase`: one
     * resource URI is checked, split and accumulated; `ok` is false when
     * the append raised.
     */
    method AddResource(uri: string) returns (ok: bool)
      modifies this
      ensures Outcome(annotation, ok) == AddUri(old(annotation), uri)
    {
      if !StartsWith(uri, IdentifiersPrefix) {
        return true;
      }
      var parts := SplitOnce(uri[23..], '/');
      if parts.None? {
        return true;
      }
      assert ParseUri(uri) == parts;
      var (provider, identifier) := parts.value;
      if provider in annotation {
        if annotation[provider].Single? {
          assert [annotation[provider].id] + [identifier] == [annotation[provider].id, identifier];
          annotation := annotation[provider := Many([annotation[provider].id])];
        }
        if annotation[provider].Term? {
          return false;
        }
        annotation := annotation[provider := Many(annotation[provider].ids + [identifier])];
      } else {
        annotation := annotation[provider := Single(identifier)];
      }
      return true;
    }

    /**
     * `annotate_cobra_from_sbase(self, sbase)`: the dictionary is updated in
     * place; `ok` is false when an append raised, and the dictionary is
     * then as it was when the exception was raised.
     */
    method AnnotateFromSBase(sbase: SBase) returns (ok: bool)
      modifies this
      ensures Outcome(annotation, ok) == Annotate(old(annotation), sbase)
    {
      if sbase.sboTerm.Some? {
        annotation := annotation["SBO" := Term(sbase.sboTerm.value)];
      }
      if sbase.cvTerms.None? {
        return true;
      }
      ok := AddTerms(sbase.cvTerms.value);
    }

    /** The inner loop: the resources of one CV term, in order. */
    method AddResources(resources: seq<string>) returns (ok: bool)
      modifies this
      ensures Outcome(annotation, ok) == AddUris(old(annotation), resources)
    {
      ghost var start := annotation;
      for k := 0 to |resources|
        invariant AddUris(start, resources[..k]) == Outcome(annotation, true)
      {
        assert resources[..k + 1] == resources[..k] + [resources[k]];
        AddUrisAppend(start, resources[..k], resources[k]);
        ok := AddResource(resources[k]);
        if !ok {
          assert resources == resources[..k + 1] + resources[k + 1..];
          AddUrisConcat(start, resources[..k + 1], resources[k + 1..]);
          return;
        }
      }
      assert resources[..|resources|] == resources;
      return true;
    }

    /** The outer loop: the CV terms, in order. */
    method AddTerms(terms: seq<CVTerm>) returns (ok: bool)
      modifies this
      ensures Outcome(annotation, ok) == AddUris(old(annotation), Resources(terms))
    {
      ghost var start := annotation;
      for i := 0 to |terms|
        invariant AddUris(start, Resources(terms[..i])) == Outcome(annotation, true)
      {
        assert terms[..i + 1][..i] == terms[..i];
        assert Resources(terms[..i + 1]) == Resources(terms[..i]) + terms[i].resources;
        AddUrisConcat(start, Resources(terms[..i]), terms[i].resources);
        ok := AddResources(terms[i].resources);
        if !ok {
          ResourcesMonotone(terms, i + 1);
          var done := Resources(terms[..i + 1]);
          assert Resources(terms) == done + Resources(terms)[|done|..];
          AddUrisConcat(start, done, Resources(terms)[|done|..]);
          return;
        }
      }
      assert terms[..|terms|] == terms;
      return true;
    }
  }
}
