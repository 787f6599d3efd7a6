/** The two tables converting between long and short optimisation directions. */
module Direction {
  import opened Wrappers

  /** `LONG_SHORT_DIRECTION`: SBML objective type to the solver's direction. */
  const LongShort: map<string, string> := map["maximize" := "max", "minimize" := "min"]

  /** `SHORT_LONG_DIRECTION`: the solver's direction to the SBML objective type. */
  const ShortLong: map<string, string> := map["min" := "minimize", "max" := "maximize"]

  /** The tables are mutual inverses. */
  lemma DirectionTablesInverse()
    ensures forall l :: l in LongShort ==> LongShort[l] in ShortLong && ShortLong[LongShort[l]] == l
    ensures forall s :: s in ShortLong ==> ShortLong[s] in LongShort && LongShort[ShortLong[s]] == s
  {
  }

  /** Indexing `LONG_SHORT_DIRECTION`: any other objective type raises KeyError. */
  function ToShortDirection(objectiveType: string): (r: Result<string>)
    ensures r.Ok? <==> objectiveType == "maximize" || objectiveType == "minimize"
    ensures objectiveType == "maximize" ==> r == Ok("max")
    ensures objectiveType == "minimize" ==> r == Ok("min")
  {
    if objectiveType in LongShort then Ok(LongShort[objectiveType])
    else Err("KeyError: " + objectiveType)
  }

  /**
   * Indexing `SHORT_LONG_DIRECTION`: any other direction raises KeyError.
   * The writer does this for the objective after the `NameError` that
   * stops `_model_to_sbml`, so in the source this lookup cannot run.
   */
  function ToLongDirection(direction: string): (r: Result<string>)
    ensures r.Ok? <==> direction == "max" || direction == "min"
    ensures direction == "max" ==> r == Ok("maximize")
    ensures direction == "min" ==> r == Ok("minimize")
  {
    if direction in ShortLong then Ok(ShortLong[direction])
    else Err("KeyError: " + direction)
  }

  /**
   * Converting an objective type to a direction and back gives it again,
   * and conversely. (Only the reader's conversion can run in the source;
   * this states what the unreachable writer's lookup would give.)
   */
  lemma DirectionRoundTrip(objectiveType: string, direction: string)
    ensures ToShortDirection(objectiveType).Ok? ==>
      ToLongDirection(ToShortDirection(objectiveType).value) == Ok(objectiveType)
    ensures ToLongDirection(direction).Ok? ==>
      ToShortDirection(ToLongDirection(direction).value) == Ok(direction)
  {
  }
}
