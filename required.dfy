/** `_check_required`: a required SBML attribute is returned as it is, or its absence is an error. */
module Required {
  import opened Wrappers
  import opened Text

  /**
   * What the error message uses of an SBML element: its printed form and
   * its optional `id` and `name` attributes.
   */
  datatype SBaseInfo = SBaseInfo(repr: string, id: Option<string>, name: Option<string>)

  /** The `CobraSBMLError` message for a missing attribute. */
  function MissingAttributeMessage(sbase: SBaseInfo, attribute: string): (msg: string)
    ensures StartsWith(msg, "required attribute '" + attribute + "' not found in '" + sbase.repr + "'")
    ensures sbase.id.Some? ==> EndsWith(msg, " with id '" + sbase.id.value + "'")
    ensures sbase.id.Some? ==>
      |msg| == |"required attribute '" + attribute + "' not found in '" + sbase.repr + "'"|
               + |" with id '" + sbase.id.value + "'"|
    ensures sbase.id.None? && sbase.name.Some? ==> EndsWith(msg, " with name '" + sbase.name.value + "'")
    ensures sbase.id.None? && sbase.name.Some? ==>
      |msg| == |"required attribute '" + attribute + "' not found in '" + sbase.repr + "'"|
               + |" with name '" + sbase.name.value + "'"|
    ensures sbase.id.None? && sbase.name.None? ==>
      msg == "required attribute '" + attribute + "' not found in '" + sbase.repr + "'"
  {
    var head := "required attribute '" + attribute + "' not found in '" + sbase.repr + "'";
    var tail :=
      if sbase.id.Some? then " with id '" + sbase.id.value + "'"
      else if sbase.name.Some? then " with name '" + sbase.name.value + "'"
      else "";
    assert (head + tail)[..|head|] == head;
    assert (head + tail)[|head + tail| - |tail|..] == tail;
    head + tail
  }

  /**
   * The attribute's value when it is set; otherwise a failure whose
   * message names the attribute and the element.
   */
  function CheckRequired<T>(sbase: SBaseInfo, value: Option<T>, attribute: string): (r: Result<T>)
    ensures r.Ok? <==> value.Some?
    ensures r.Ok? ==> r.value == value.value
    ensures r.Err? ==> StartsWith(r.error, "required attribute '" + attribute + "' not found in '")
    ensures r.Err? ==> r.error == MissingAttributeMessage(sbase, attribute)
  {
    match value
    case Some(v) => Ok(v)
    case None =>
      var msg := MissingAttributeMessage(sbase, attribute);
      var head := "required attribute '" + attribute + "' not found in '";
      assert msg[..|head|] == (head + sbase.repr + "'")[..|head|];
      Err(msg)
  }
}
