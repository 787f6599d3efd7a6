/**
 * Flux bounds as SBML parameters. The writer shares three parameters (the
 * smallest lower bound, the largest upper bound, and 0) and creates one
 * parameter per other bound value (`create_bound`); the reader resolves a
 * reaction's lower and upper flux bound ids to constant parameter values.
 *
 * The writer part is currently unreachable in the source: `_model_to_sbml`
 * raises `NameError` at line 374 (`model_id` is undefined), before the
 * code that builds the parameter list.
 */
module FluxBounds {
  import opened Wrappers
  import opened Required

  datatype BoundType = LowerBound | UpperBound

  /** The reaction attribute `create_bound` reads, as passed in `bound_type`. */
  function AttributeName(b: BoundType): string
  {
    match b
    case LowerBound => "lower_bound"
    case UpperBound => "upper_bound"
  }

  /** A cobra reaction as far as its bounds go. */
  datatype Reaction = Reaction(id: string, lowerBound: real, upperBound: real)

  function BoundOf(r: Reaction, b: BoundType): real
  {
    match b
    case LowerBound => r.lowerBound
    case UpperBound => r.upperBound
  }

  /** An SBML parameter: id, value when set, the `constant` flag and the SBO term. */
  datatype Parameter = Parameter(id: string, value: Option<real>, constant: bool, sboTerm: string)

  const DefaultLowerBound: real := -1000.0
  const DefaultUpperBound: real := 1000.0
  const LowerBoundId := "cobra_default_lb"
  const UpperBoundId := "cobra_default_ub"
  const ZeroBoundId := "cobra_0_bound"
  const SboFluxBound := "SBO:0000626"
  const SboReactionBound := "SBO:0000625"

  /** `min(lower bounds)`: the smallest lower bound of a non-empty list of reactions. */
  function MinLowerBound(rs: seq<Reaction>): (m: real)
    requires |rs| > 0
    ensures exists i :: 0 <= i < |rs| && rs[i].lowerBound == m
    ensures forall i :: 0 <= i < |rs| ==> m <= rs[i].lowerBound
    decreases |rs|
  {
    if |rs| == 1 then rs[0].lowerBound
    else
      var m := MinLowerBound(rs[1..]);
      assert forall i :: 1 <= i < |rs| ==> rs[i] == rs[1..][i - 1];
      if rs[0].lowerBound <= m then rs[0].lowerBound else m
  }

  /** `max(upper bounds)`: the largest upper bound of a non-empty list of reactions. */
  function MaxUpperBound(rs: seq<Reaction>): (m: real)
    requires |rs| > 0
    ensures exists i :: 0 <= i < |rs| && rs[i].upperBound == m
    ensures forall i :: 0 <= i < |rs| ==> rs[i].upperBound <= m
    decreases |rs|
  {
    if |rs| == 1 then rs[0].upperBound
    else
      var m := MaxUpperBound(rs[1..]);
      assert forall i :: 1 <= i < |rs| ==> rs[i] == rs[1..][i - 1];
      if m <= rs[0].upperBound then rs[0].upperBound else m
  }

  /** The values of the shared lower and upper parameters: -1000 and 1000 for a model without reactions. */
  function DefaultBounds(rs: seq<Reaction>): (bounds: (real, real))
    ensures |rs| == 0 ==> bounds == (DefaultLowerBound, DefaultUpperBound)
    ensures |rs| > 0 ==> forall i :: 0 <= i < |rs| ==> bounds.0 <= rs[i].lowerBound && rs[i].upperBound <= bounds.1
    ensures |rs| > 0 ==> exists i :: 0 <= i < |rs| && rs[i].lowerBound == bounds.0
    ensures |rs| > 0 ==> exists i :: 0 <= i < |rs| && rs[i].upperBound == bounds.1
  {
    if |rs| > 0 then (MinLowerBound(rs), MaxUpperBound(rs)) else (DefaultLowerBound, DefaultUpperBound)
  }

  /** The three shared parameters, in the order they are written. */
  function SharedParameters(minValue: real, maxValue: real): seq<Parameter>
  {
    [Parameter(LowerBoundId, Some(minValue), true, SboFluxBound),
     Parameter(UpperBoundId, Some(maxValue), true, SboFluxBound),
     Parameter(ZeroBoundId, Some(0.0), true, SboFluxBound)]
  }

  /**
   * The shared parameter a bound value reuses, tried in order: the minimum,
   * then 0, then the maximum; None when the value is none of them.
   */
  function SharedBoundId(value: real, minValue: real, maxValue: real): (r: Option<string>)
    ensures r == Some(LowerBoundId) <==> value == minValue
    ensures r == Some(ZeroBoundId) <==> value != minValue && value == 0.0
    ensures r == Some(UpperBoundId) <==> value != minValue && value != 0.0 && value == maxValue
    ensures r.None? <==> value != minValue && value != 0.0 && value != maxValue
  {
    if value == minValue then Some(LowerBoundId)
    else if value == 0.0 then Some(ZeroBoundId)
    else if value == maxValue then Some(UpperBoundId)
    else None
  }

  /** The id of a parameter created for one bound of one reaction. */
  function ReactionBoundId(reactionId: string, b: BoundType): string
  {
    "R_" + reactionId + "_" + AttributeName(b)
  }

  /** Distinct (reaction, bound type) pairs get distinct parameter ids. */
  lemma ReactionBoundIdInjective(r1: string, b1: BoundType, r2: string, b2: BoundType)
    requires ReactionBoundId(r1, b1) == ReactionBoundId(r2, b2)
    ensures r1 == r2 && b1 == b2
  {
    var s := ReactionBoundId(r1, b1);
    assert |AttributeName(b1)| == |AttributeName(b2)| == 11;
    assert |r1| == |r2|;
    assert s[2..2 + |r1|] == r1;
    assert ReactionBoundId(r2, b2)[2..2 + |r2|] == r2;
    assert s[3 + |r1|..] == AttributeName(b1);
    assert ReactionBoundId(r2, b2)[3 + |r2|..] == AttributeName(b2);
  }

  /** A created parameter id is never one of the shared ids. */
  lemma ReactionBoundIdNotShared(r: string, b: BoundType)
    ensures ReactionBoundId(r, b) !in {LowerBoundId, UpperBoundId, ZeroBoundId}
  {
    assert ReactionBoundId(r, b)[0] == 'R';
  }

  /** The id `create_bound` returns for one bound of one reaction. */
  function BoundId(r: Reaction, b: BoundType, minValue: real, maxValue: real): string
  {
    match SharedBoundId(BoundOf(r, b), minValue, maxValue)
    case Some(id) => id
    case None => ReactionBoundId(r.id, b)
  }

  /** The parameters `create_bound` appends for one bound of one reaction: none or one. */
  function NewParameters(r: Reaction, b: BoundType, minValue: real, maxValue: real): seq<Parameter>
  {
    if SharedBoundId(BoundOf(r, b), minValue, maxValue).Some? then []
    else [Parameter(ReactionBoundId(r.id, b), Some(BoundOf(r, b)), true, SboReactionBound)]
  }

  /** All parameters created while writing the reactions, upper bound before lower bound. */
  function Created(rs: seq<Reaction>, minValue: real, maxValue: real): seq<Parameter>
    decreases |rs|
  {
    if rs == [] then []
    else
      var r := rs[|rs| - 1];
      Created(rs[..|rs| - 1], minValue, maxValue)
        + NewParameters(r, UpperBound, minValue, maxValue)
        + NewParameters(r, LowerBound, minValue, maxValue)
  }

  // ---------------------------------------------------------------------
  // Reading bounds back.

  /** `model.getParameter(id)`: the first parameter with that id. */
  function FindParameter(ps: seq<Parameter>, id: string): (r: Option<Parameter>)
    ensures r.Some? ==> r.value in ps && r.value.id == id
    ensures r.None? <==> forall i :: 0 <= i < |ps| ==> ps[i].id != id
    decreases |ps|
  {
    if ps == [] then None
    else if ps[0].id == id then Some(ps[0])
    else
      var r := FindParameter(ps[1..], id);
      assert forall i :: 1 <= i < |ps| ==> ps[i] == ps[1..][i - 1];
      r
  }

  lemma {:induction false} FindParameterAppend(a: seq<Parameter>, b: seq<Parameter>, id: string)
    ensures FindParameter(a + b, id) == if FindParameter(a, id).Some? then FindParameter(a, id) else FindParameter(b, id)
    decreases |a|
  {
    if a == [] {
      assert a + b == b;
    } else {
      assert (a + b)[1..] == a[1..] + b;
      FindParameterAppend(a[1..], b, id);
    }
  }

  /** FindParameter picks the first parameter with the id, whatever parameters with that id follow. */
  lemma {:induction false} FindParameterFirst(ps: seq<Parameter>, id: string, i: nat)
    requires i < |ps| && ps[i].id == id
    requires forall k :: 0 <= k < i ==> ps[k].id != id
    ensures FindParameter(ps, id) == Some(ps[i])
    decreases i
  {
    if i > 0 {
      assert forall k :: 0 <= k < i - 1 ==> ps[1..][k] == ps[k + 1];
      FindParameterFirst(ps[1..], id, i - 1);
    }
  }

  /** The value of a bound parameter, which must exist and be constant with a value. */
  function ResolveBound(ps: seq<Parameter>, id: string): (r: Result<real>)
    ensures r.Ok? ==> exists p :: p in ps && p.id == id && p.constant && p.value == Some(r.value)
    ensures (forall i :: 0 <= i < |ps| ==> ps[i].id != id) ==> r.Err?
    ensures r.Ok? <==> FindParameter(ps, id).Some? && FindParameter(ps, id).value.constant
                       && FindParameter(ps, id).value.value.Some?
    ensures r.Ok? ==> FindParameter(ps, id).value.value == Some(r.value)
  {
    match FindParameter(ps, id)
    case None => Err("'NoneType' object has no attribute 'constant'")
    case Some(p) => if p.constant && p.value.Some? then Ok(p.value.value) else Err("No constant bound")
  }

  /** The fbc attributes of an SBML reaction: its two flux bound ids, when set. */
  datatype FbcReaction = FbcReaction(info: SBaseInfo, lowerFluxBound: Option<string>, upperFluxBound: Option<string>)

  datatype SbmlReaction = SbmlReaction(info: SBaseInfo, fbc: Option<FbcReaction>)

  /**
   * The lower and upper bound of a reaction as read: the fbc plugin must
   * exist, both bound ids must be set, and each must name a constant
   * parameter with a value; the checks fail in that order.
   */
  function ReadFluxBounds(ps: seq<Parameter>, r: SbmlReaction): (b: Result<(real, real)>)
    ensures b.Ok? ==> r.fbc.Some? && r.fbc.value.lowerFluxBound.Some? && r.fbc.value.upperFluxBound.Some?
    ensures b.Ok? ==> ResolveBound(ps, r.fbc.value.lowerFluxBound.value) == Ok(b.value.0)
    ensures b.Ok? ==> ResolveBound(ps, r.fbc.value.upperFluxBound.value) == Ok(b.value.1)
    ensures r.fbc.Some? && r.fbc.value.lowerFluxBound.Some? && r.fbc.value.upperFluxBound.Some?
            && ResolveBound(ps, r.fbc.value.lowerFluxBound.value).Ok?
            && ResolveBound(ps, r.fbc.value.upperFluxBound.value).Ok?
            ==> b.Ok?
  {
    match r.fbc
    case None => Err("No flux bounds on reaction")
    case Some(f) =>
      match CheckRequired(f.info, f.lowerFluxBound, "lowerFluxBound")
      case Err(e) => Err(e)
      case Ok(lbId) =>
        match CheckRequired(f.info, f.upperFluxBound, "upperFluxBound")
        case Err(e) => Err(e)
        case Ok(ubId) =>
          match ResolveBound(ps, lbId)
          case Err(e) => Err(e)
          case Ok(lb) =>
            match ResolveBound(ps, ubId)
            case Err(e) => Err(e)
            case Ok(ub) => Ok((lb, ub))
  }

  /** An SBML reaction carrying the two bound ids the writer chose for it. */
  function WrittenReaction(lowerId: string, upperId: string): SbmlReaction
  {
    var none := SBaseInfo("", None, None);
    SbmlReaction(none, Some(FbcReaction(none, Some(lowerId), Some(upperId))))
  }

  // ---------------------------------------------------------------------
  // Writing and reading back.

  predicate DistinctIds(rs: seq<Reaction>)
  {
    forall i, j :: 0 <= i < j < |rs| ==> rs[i].id != rs[j].id
  }

  lemma NewParametersIds(r: Reaction, b: BoundType, minValue: real, maxValue: real, rid: string, b': BoundType)
    requires r.id != rid || b != b'
    ensures FindParameter(NewParameters(r, b, minValue, maxValue), ReactionBoundId(rid, b')) == None
  {
    if ReactionBoundId(r.id, b) == ReactionBoundId(rid, b') {
      ReactionBoundIdInjective(r.id, b, rid, b');
    }
  }

  /** No parameter is created for a reaction that is not in the list. */
  lemma {:induction false} NotCreated(rs: seq<Reaction>, rid: string, b: BoundType, minValue: real, maxValue: real)
    requires forall k :: 0 <= k < |rs| ==> rs[k].id != rid
    ensures FindParameter(Created(rs, minValue, maxValue), ReactionBoundId(rid, b)) == None
    decreases |rs|
  {
    if rs != [] {
      var init, r := rs[..|rs| - 1], rs[|rs| - 1];
      var id := ReactionBoundId(rid, b);
      NotCreated(init, rid, b, minValue, maxValue);
      NewParametersIds(r, UpperBound, minValue, maxValue, rid, b);
      NewParametersIds(r, LowerBound, minValue, maxValue, rid, b);
      var up, low := NewParameters(r, UpperBound, minValue, maxValue), NewParameters(r, LowerBound, minValue, maxValue);
      FindParameterAppend(Created(init, minValue, maxValue) + up, low, id);
      FindParameterAppend(Created(init, minValue, maxValue), up, id);
    }
  }

  /** The parameter created for a bound is the first with its id. */
  lemma {:induction false} CreatedFinds(rs: seq<Reaction>, j: nat, b: BoundType, minValue: real, maxValue: real)
    requires DistinctIds(rs) && j < |rs|
    requires SharedBoundId(BoundOf(rs[j], b), minValue, maxValue).None?
    ensures FindParameter(Created(rs, minValue, maxValue), ReactionBoundId(rs[j].id, b))
      == Some(Parameter(ReactionBoundId(rs[j].id, b), Some(BoundOf(rs[j], b)), true, SboReactionBound))
    decreases |rs|
  {
    var init, r := rs[..|rs| - 1], rs[|rs| - 1];
    var id := ReactionBoundId(rs[j].id, b);
    var up, low := NewParameters(r, UpperBound, minValue, maxValue), NewParameters(r, LowerBound, minValue, maxValue);
    FindParameterAppend(Created(init, minValue, maxValue) + up, low, id);
    FindParameterAppend(Created(init, minValue, maxValue), up, id);
    if j == |rs| - 1 {
      NotCreated(init, rs[j].id, b, minValue, maxValue);
      if b == LowerBound {
        NewParametersIds(r, UpperBound, minValue, maxValue, rs[j].id, b);
      }
    } else {
      assert DistinctIds(init);
      CreatedFinds(init, j, b, minValue, maxValue);
      assert init[j] == rs[j];
    }
  }

  /** A shared id resolves to its shared parameter, whatever follows the shared parameters. */
  lemma SharedResolves(minValue: real, maxValue: real, rest: seq<Parameter>, value: real)
    requires SharedBoundId(value, minValue, maxValue).Some?
    ensures ResolveBound(SharedParameters(minValue, maxValue) + rest, SharedBoundId(value, minValue, maxValue).value)
      == Ok(value)
  {
    var shared := SharedParameters(minValue, maxValue);
    var id := SharedBoundId(value, minValue, maxValue).value;
    FindParameterAppend(shared, rest, id);
    if id == LowerBoundId {
      assert FindParameter(shared, id) == Some(shared[0]);
    } else if id == ZeroBoundId {
      assert shared[0].id != id && shared[1].id != id;
      assert FindParameter(shared, id) == Some(shared[2]);
    } else {
      assert shared[0].id != id;
      assert FindParameter(shared, id) == Some(shared[1]);
    }
  }

  /**
   * Round trip: when reaction ids are distinct, the id the writer chose for
   * a bound resolves, in the written parameter list, to that bound's value.
   */
  lemma WriteReadBound(rs: seq<Reaction>, j: nat, b: BoundType, minValue: real, maxValue: real)
    requires DistinctIds(rs) && j < |rs|
    ensures ResolveBound(SharedParameters(minValue, maxValue) + Created(rs, minValue, maxValue),
                         BoundId(rs[j], b, minValue, maxValue))
      == Ok(BoundOf(rs[j], b))
  {
    var value := BoundOf(rs[j], b);
    var created := Created(rs, minValue, maxValue);
    if SharedBoundId(value, minValue, maxValue).Some? {
      SharedResolves(minValue, maxValue, created, value);
    } else {
      var id := ReactionBoundId(rs[j].id, b);
      assert BoundId(rs[j], b, minValue, maxValue) == id;
      ReactionBoundIdNotShared(rs[j].id, b);
      assert FindParameter(SharedParameters(minValue, maxValue), id) == None;
      FindParameterAppend(SharedParameters(minValue, maxValue), created, id);
      CreatedFinds(rs, j, b, minValue, maxValue);
    }
  }

  /**
   * The flux-bound parameters of a document (an SBML `listOfParameters`):
   * the three shared parameters followed by those `create_bound` adds.
   */
  class ParameterList {
    var parameters: seq<Parameter>
    const minValue: real
    const maxValue: real

    ghost predicate Valid()
      reads this
    {
      |parameters| >= 3 && parameters[..3] == SharedParameters(minValue, maxValue)
    }

    /** The list as first written: the shared minimum, maximum and zero parameters. */
    constructor (reactions: seq<Reaction>)
      ensures (minValue, maxValue) == DefaultBounds(reactions)
      ensures parameters == SharedParameters(minValue, maxValue)
      ensures Valid()
    {
      var bounds := DefaultBounds(reactions);
      minValue, maxValue := bounds.0, bounds.1;
      parameters := SharedParameters(bounds.0, bounds.1);
    }

    /**
     * `create_bound(reaction, bound_type)`: a value equal to the minimum, 0
     * or the maximum (tried in that order) reuses that shared parameter;
     * any other value appends one new parameter `R_<id>_<bound_type>`
     * holding it. Returns the id of the parameter that holds the bound.
     */
    method CreateBound(reaction: Reaction, boundType: BoundType) returns (id: string)
      requires Valid()
      modifies this
      ensures Valid()
      ensures var value := BoundOf(reaction, boundType);
        match SharedBoundId(value, minValue, maxValue)
        case Some(shared) => id == shared && parameters == old(parameters)
        case None =>
          && id == "R_" + reaction.id + "_" + AttributeName(boundType)
          && parameters == old(parameters) + [Parameter(id, Some(value), true, SboReactionBound)]
      ensures id == BoundId(reaction, boundType, minValue, maxValue)
      ensures parameters == old(parameters) + NewParameters(reaction, boundType, minValue, maxValue)
    {
      var value := BoundOf(reaction, boundType);
      if value == minValue {
        return LowerBoundId;
      } else if value == 0.0 {
        return ZeroBoundId;
      } else if value == maxValue {
        return UpperBoundId;
      } else {
        id := "R_" + reaction.id + "_" + AttributeName(boundType);
        parameters := parameters + [Parameter(id, Some(value), true, SboReactionBound)];
      }
    }

    /**
     * The bound attributes of the reaction loop of the writer: for each
     * reaction in order, the upper bound and then the lower bound.
     */
    method WriteBounds(reactions: seq<Reaction>) returns (ids: seq<(string, string)>)
      requires Valid()
      modifies this
      ensures Valid()
      ensures parameters == old(parameters) + Created(reactions, minValue, maxValue)
      ensures |ids| == |reactions|
      ensures forall j :: 0 <= j < |reactions| ==>
        ids[j] == (BoundId(reactions[j], UpperBound, minValue, maxValue),
                   BoundId(reactions[j], LowerBound, minValue, maxValue))
    {
      ids := [];
      for i := 0 to |reactions|
        invariant Valid()
        invariant parameters == old(parameters) + Created(reactions[..i], minValue, maxValue)
        invariant |ids| == i
        invariant forall j :: 0 <= j < i ==>
          ids[j] == (BoundId(reactions[j], UpperBound, minValue, maxValue),
                     BoundId(reactions[j], LowerBound, minValue, maxValue))
      {
        assert reactions[..i + 1][..i] == reactions[..i];
        var upperId := CreateBound(reactions[i], UpperBound);
        var lowerId := CreateBound(reactions[i], LowerBound);
        ids := ids + [(upperId, lowerId)];
      }
      assert reactions[..|reactions|] == reactions;
    }
  }

  /**
   * Writing the flux bounds of a model's reactions into a fresh parameter
   * list. When reaction ids are distinct, reading each reaction's written
   * bound ids back gives exactly its bounds.
   */
  method WriteFluxBounds(reactions: seq<Reaction>) returns (parameters: seq<Parameter>, ids: seq<(string, string)>)
    ensures |ids| == |reactions|
    ensures |parameters| >= 3 && parameters[..3] == SharedParameters(DefaultBounds(reactions).0, DefaultBounds(reactions).1)
    ensures DistinctIds(reactions) ==> forall j :: 0 <= j < |reactions| ==>
      ReadFluxBounds(parameters, WrittenReaction(ids[j].1, ids[j].0)) == Ok((reactions[j].lowerBound, reactions[j].upperBound))
  {
    var list := new ParameterList(reactions);
    ids := list.WriteBounds(reactions);
    parameters := list.parameters;
    if DistinctIds(reactions) {
      forall j | 0 <= j < |reactions|
        ensures ReadFluxBounds(parameters, WrittenReaction(ids[j].1, ids[j].0)) == Ok((reactions[j].lowerBound, reactions[j].upperBound))
      {
        WriteReadBound(reactions, j, LowerBound, list.minValue, list.maxValue);
        WriteReadBound(reactions, j, UpperBound, list.minValue, list.maxValue);
      }
    }
  }
}
