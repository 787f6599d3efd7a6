/** The clean-up of a reaction's gene-reaction rule string while reading. */
module GeneRule {
  import opened Text

  predicate Parenthesised(gpr: string)
  {
    StartsWith(gpr, "(") && EndsWith(gpr, ")")
  }

  /**
   * Removes one pair of outer parentheses, and the whitespace just inside
   * them, from a rule that starts with `(` and ends with `)`; any other
   * rule is kept as it is. (The reader itself always sets the rule to the
   * empty string first, which this keeps empty.)
   */
  function StripOuterParens(gpr: string): (r: string)
    ensures !Parenthesised(gpr) ==> r == gpr
    ensures Parenthesised(gpr) ==> |gpr| >= 2 && |r| <= |gpr| - 2
    ensures Parenthesised(gpr) ==> r == [] || (!IsSpace(r[0]) && !IsSpace(r[|r| - 1]))
  {
    if Parenthesised(gpr) then
      assert gpr[0] == '(' && gpr[|gpr| - 1] == ')';
      Strip(gpr[1..|gpr| - 1])
    else gpr
  }

  /**
   * A rule written as `( ` + body + ` )`, the form the commented-out
   * `process_gpr` would produce, comes back as its body when the body has
   * no surrounding whitespace.
   */
  lemma {:induction false} StripOuterParensOfPrinted(body: string)
    requires body == [] || (!IsSpace(body[0]) && !IsSpace(body[|body| - 1]))
    ensures StripOuterParens("( " + body + " )") == body
  {
    var gpr := "( " + body + " )";
    PrintedInner(body);
    StripOuterParensInner(gpr);
    StripPadded(body);
  }

  /**
   * What StripOuterParens keeps of a parenthesised rule: the slice
   * `gpr[i..j]` between the parentheses, where everything from just after
   * `(` up to `i`, and from `j` up to just before `)`, is whitespace.
   */
  lemma StripOuterParensSlice(gpr: string) returns (i: nat, j: nat)
    requires Parenthesised(gpr)
    ensures 1 <= i <= j <= |gpr| - 1 && StripOuterParens(gpr) == gpr[i..j]
    ensures SpaceIn(gpr, 1, i) && SpaceIn(gpr, j, |gpr| - 1)
  {
    StripOuterParensInner(gpr);
    var inner := gpr[1..|gpr| - 1];
    var a, b := StripSlice(inner);
    InnerSlice(gpr, a, b);
    i, j := a + 1, b + 1;
    calc {
      StripOuterParens(gpr);
    ==
      Strip(inner);
    ==
      inner[a..b];
    ==
      gpr[i..j];
    }
  }

  /** Helper: a parenthesised rule is stripped between its first and last character. */
  lemma StripOuterParensInner(gpr: string)
    requires Parenthesised(gpr)
    ensures |gpr| >= 2 && StripOuterParens(gpr) == Strip(gpr[1..|gpr| - 1])
  {
    assert gpr[0] == '(' && gpr[|gpr| - 1] == ')';
  }

  /** Helper: the printed form is parenthesised, with the body padded by one space inside. */
  lemma PrintedInner(body: string)
    ensures var gpr := "( " + body + " )";
      Parenthesised(gpr) && gpr[1..|gpr| - 1] == " " + body + " "
  {
    var gpr := "( " + body + " )";
    assert gpr[..1] == "(" && gpr[|gpr| - 1..] == ")";
  }

  /** Helper: stripping a body without surrounding whitespace, padded by one space each side. */
  lemma StripPadded(body: string)
    requires body == [] || (!IsSpace(body[0]) && !IsSpace(body[|body| - 1]))
    ensures Strip(" " + body + " ") == body
  {
    var inner := " " + body + " ";
    if body == [] {
      TrimStartOf(inner, inner, []);
    } else {
      TrimStartOf(inner, " ", body + " ");
      TrimEndOf(body + " ", body, " ");
    }
  }

  /** Helper for StripOuterParensSlice: positions in `gpr[1..|gpr| - 1]` are those of `gpr` shifted by one. */
  lemma InnerSlice(gpr: string, a: nat, b: nat)
    requires |gpr| >= 2 && a <= b <= |gpr| - 2
    requires SpaceIn(gpr[1..|gpr| - 1], 0, a) && SpaceIn(gpr[1..|gpr| - 1], b, |gpr| - 2)
    ensures gpr[1..|gpr| - 1][a..b] == gpr[a + 1..b + 1]
    ensures SpaceIn(gpr, 1, a + 1) && SpaceIn(gpr, b + 1, |gpr| - 1)
  {
    var inner := gpr[1..|gpr| - 1];
    assert |inner| == |gpr| - 2 && inner == gpr[1..1 + |inner|];
    SpaceInShift(gpr, 1, inner, 0, a);
    SpaceInShift(gpr, 1, inner, b, |inner|);
    assert forall k :: 0 <= k < b - a ==> inner[a..b][k] == gpr[a + 1..b + 1][k];
  }
}
