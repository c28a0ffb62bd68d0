/** `PostsRequest`: the paging input of the page controller's listing; its page size may reach 100. */
module PostsRequest {
  import opened Php
  import opened Rules

  const PER_PAGE_MAX: int := 100

  function Authorize(): (r: bool)
    ensures r
  {
    true
  }

  /** `rules()`. */
  function RuleTable(): (r: seq<(string, seq<Rule>)>)
    ensures RuleKeys(r) == {"per_page", "page"}
  {
    var r := [
      ("per_page", [Nullable, Integer, Min(1), Max(PER_PAGE_MAX)]),
      ("page", [Nullable, Integer, Min(1)])];
    assert r[0].0 == "per_page" && r[1].0 == "page";
    r
  }

  /** No rule here consults the database. */
  function NoIds(t: Table): set<int> {
    {}
  }

  predicate Passes(input: Input) {
    Rules.Passes(input, RuleTable(), NoIds)
  }

  /** The request's rules, stated field by field. */
  predicate Valid(input: Input) {
    OptionalRangeOk(input, "per_page", 1, Some(PER_PAGE_MAX)) && OptionalRangeOk(input, "page", 1, None)
  }

  lemma PassesIff(input: Input)
    ensures Passes(input) <==> Valid(input)
  {
    var rules := RuleTable();
    NullableIntegerMinMax(input, "per_page", 1, PER_PAGE_MAX, NoIds);
    NullableIntegerMin(input, "page", 1, NoIds);
    if Valid(input) {
      forall i | 0 <= i < |rules| ensures AttributePasses(input, rules[i].0, rules[i].1, NoIds) {
        assert i == 0 || i == 1;
      }
    }
    if Passes(input) {
      assert AttributePasses(input, rules[0].0, rules[0].1, NoIds);
      assert AttributePasses(input, rules[1].0, rules[1].1, NoIds);
    }
  }

  /** Input with neither key is valid: every rule is nullable. */
  lemma EmptyValid()
    ensures Passes(map[])
  {
    PassesIff(map[]);
  }

  /** Over an otherwise valid input, `page` must be an integer of at least 1. */
  lemma PageBoundaries(input: Input, n: int)
    requires Valid(input)
    ensures !Passes(input["page" := VStr("a")])
    ensures Passes(input["page" := VInt(n)]) <==> n >= 1
  {
    var a := "a";
    assert !IsTrimmed(a[0]) && !IntString(a);
    PassesIff(input["page" := VStr("a")]);
    PassesIff(input["page" := VInt(n)]);
  }

  /** Over an otherwise valid input, `per_page` must be an integer from 1 to 100. */
  lemma PerPageBoundaries(input: Input, n: int)
    requires Valid(input)
    ensures !Passes(input["per_page" := VStr("a")])
    ensures Passes(input["per_page" := VInt(n)]) <==> 1 <= n <= PER_PAGE_MAX
  {
    var a := "a";
    assert !IsTrimmed(a[0]) && !IntString(a);
    PassesIff(input["per_page" := VStr("a")]);
    PassesIff(input["per_page" := VInt(n)]);
  }

  function ValidatedInput(input: Input): Input {
    Validated(input, RuleTable())
  }

  /** After validation a page is at least 1 and a page size between 1 and 100. */
  lemma ValidatedBounds(input: Input)
    requires Normalised(input) && Passes(input)
    ensures IntOr(ValidatedInput(input), "page", 1) >= 1
    ensures 1 <= IntOr(ValidatedInput(input), "per_page", 15) <= PER_PAGE_MAX
  {
    PassesIff(input);
    if "page" in input && input["page"].VStr? {
      NormalisedNotBlank(input, "page");
    }
    if "per_page" in input && input["per_page"].VStr? {
      NormalisedNotBlank(input, "per_page");
    }
  }
}
