/** `PostRequest`: the paging input of the post listings. */
module PostRequest {
  import opened Php
  import opened Rules

  const PER_PAGE_MAX: int := 50

  function Authorize(): (r: bool)
    ensures r
  {
    true
  }

  /** `rules()`. */
  function RuleTable(): (r: seq<(string, seq<Rule>)>)
    ensures RuleKeys(r) == {"page", "per_page"}
  {
    var r := [
      ("page", [Nullable, Integer, Min(1)]),
      ("per_page", [Nullable, Integer, Min(1), Max(PER_PAGE_MAX)])];
    assert r[0].0 == "page" && r[1].0 == "per_page";
    r
  }

  /** No rule here consults the database. */
  function NoIds(t: Table): set<int> {
    {}
  }

  predicate Passes(input: Input) {
    Rules.Passes(input, RuleTable(), NoIds)
  }

  /** The request's rules, stated field by field. */
  predicate Valid(input: Input) {
    OptionalRangeOk(input, "page", 1, None) && OptionalRangeOk(input, "per_page", 1, Some(PER_PAGE_MAX))
  }

  lemma PassesIff(input: Input)
    ensures Passes(input) <==> Valid(input)
  {
    var rules := RuleTable();
    NullableIntegerMin(input, "page", 1, NoIds);
    NullableIntegerMinMax(input, "per_page", 1, PER_PAGE_MAX, NoIds);
    if Valid(input) {
      forall i | 0 <= i < |rules| ensures AttributePasses(input, rules[i].0, rules[i].1, NoIds) {
        assert i == 0 || i == 1;
      }
    }
    if Passes(input) {
      assert AttributePasses(input, rules[0].0, rules[0].1, NoIds);
      assert AttributePasses(input, rules[1].0, rules[1].1, NoIds);
    }
  }

  /** An empty input is valid: both fields are optional. */
  lemma EmptyValid()
    ensures Passes(map[])
  {
    PassesIff(map[]);
  }

  /** Over an otherwise valid input, `page` must be an integer of at least 1. */
  lemma PageBoundaries(input: Input, n: int)
    requires Valid(input)
    ensures !Passes(input["page" := VStr("a")])
    ensures Passes(input["page" := VInt(n)]) <==> n >= 1
  {
    var a := "a";
    assert !IsTrimmed(a[0]) && !IntString(a);
    PassesIff(input["page" := VStr("a")]);
    PassesIff(input["page" := VInt(n)]);
  }

  /** Over an otherwise valid input, `per_page` must be an integer from 1 to 50. */
  lemma PerPageBoundaries(input: Input, n: int)
    requires Valid(input)
    ensures !Passes(input["per_page" := VStr("a")])
    ensures Passes(input["per_page" := VInt(n)]) <==> 1 <= n <= PER_PAGE_MAX
  {
    var a := "a";
    assert !IsTrimmed(a[0]) && !IntString(a);
    PassesIff(input["per_page" := VStr("a")]);
    PassesIff(input["per_page" := VInt(n)]);
  }

  function ValidatedInput(input: Input): Input {
    Validated(input, RuleTable())
  }

  /** After validation a page is at least 1 and a page size between 1 and 50. */
  lemma ValidatedBounds(input: Input)
    requires Normalised(input) && Passes(input)
    ensures IntOr(ValidatedInput(input), "page", 1) >= 1
    ensures 1 <= IntOr(ValidatedInput(input), "per_page", 15) <= PER_PAGE_MAX
  {
    PassesIff(input);
    if "page" in input && input["page"].VStr? {
      NormalisedNotBlank(input, "page");
    }
    if "per_page" in input && input["per_page"].VStr? {
      NormalisedNotBlank(input, "per_page");
    }
  }
}
