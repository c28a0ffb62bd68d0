/** `SearchRequest`: the input of the post search. */
module SearchRequest {
  import opened Php
  import opened Store
  import opened Rules

  const Q_MAX_LENGTH: int := 100
  const PER_PAGE_MAX: int := 50

  function Authorize(): (r: bool)
    ensures r
  {
    true
  }

  /** `rules()`. */
  function RuleTable(): (r: seq<(string, seq<Rule>)>)
    ensures RuleKeys(r) == {"q", "category", "author", "tag", "page", "per_page"}
  {
    var r := [
      ("q", [Required, StringRule, Max(Q_MAX_LENGTH)]),
      ("category", [Nullable, Integer, Exists(Categories)]),
      ("author", [Nullable, Integer, Exists(Users)]),
      ("tag", [Nullable, Integer, Exists(Tags)]),
      ("page", [Nullable, Integer, Min(1)]),
      ("per_page", [Nullable, Integer, Min(1), Max(PER_PAGE_MAX)])];
    assert r[0].0 == "q" && r[1].0 == "category" && r[2].0 == "author";
    assert r[3].0 == "tag" && r[4].0 == "page" && r[5].0 == "per_page";
    r
  }

  /** The ids each `exists` rule looks up. */
  function KnownIds(db: Db): Table -> set<int> {
    (t: Table) =>
      match t
      case Categories => set c | c in db.categories :: c.id
      case Users => set u | u in db.users :: u.id
      case Tags => set g | g in db.tags :: g.id
  }

  predicate Passes(input: Input, db: Db) {
    Rules.Passes(input, RuleTable(), KnownIds(db))
  }

  /** The request's rules, stated field by field. */
  predicate Valid(input: Input, db: Db) {
    && RequiredStringOk(input, "q", Q_MAX_LENGTH)
    && OptionalIdOk(input, "category", set c | c in db.categories :: c.id)
    && OptionalIdOk(input, "author", set u | u in db.users :: u.id)
    && OptionalIdOk(input, "tag", set g | g in db.tags :: g.id)
    && OptionalRangeOk(input, "page", 1, None)
    && OptionalRangeOk(input, "per_page", 1, Some(PER_PAGE_MAX))
  }

  /** The validator accepts exactly the inputs the field-by-field reading allows. */
  lemma PassesIff(input: Input, db: Db)
    ensures Passes(input, db) <==> Valid(input, db)
  {
    var rules, ids := RuleTable(), KnownIds(db);
    RequiredStringMax(input, "q", Q_MAX_LENGTH, ids);
    NullableIntegerExists(input, "category", Categories, ids);
    NullableIntegerExists(input, "author", Users, ids);
    NullableIntegerExists(input, "tag", Tags, ids);
    NullableIntegerMin(input, "page", 1, ids);
    NullableIntegerMinMax(input, "per_page", 1, PER_PAGE_MAX, ids);
    if Valid(input, db) {
      forall i | 0 <= i < |rules| ensures AttributePasses(input, rules[i].0, rules[i].1, ids) {
        assert i == 0 || i == 1 || i == 2 || i == 3 || i == 4 || i == 5;
      }
    }
    if Passes(input, db) {
      assert AttributePasses(input, rules[0].0, rules[0].1, ids);
      assert AttributePasses(input, rules[1].0, rules[1].1, ids);
      assert AttributePasses(input, rules[2].0, rules[2].1, ids);
      assert AttributePasses(input, rules[3].0, rules[3].1, ids);
      assert AttributePasses(input, rules[4].0, rules[4].1, ids);
      assert AttributePasses(input, rules[5].0, rules[5].1, ids);
    }
  }

  function ValidatedInput(input: Input): Input {
    Validated(input, RuleTable())
  }

  /** What the controllers can rely on once validation passed: a search
      term of at most 100 characters, filter ids that exist, a page of at
      least 1 and a page size between 1 and 50. */
  lemma ValidatedBounds(input: Input, db: Db)
    requires Normalised(input) && Passes(input, db)
    ensures "q" in ValidatedInput(input) && ValidatedInput(input)["q"].VStr?
    ensures |ValidatedInput(input)["q"].s| <= Q_MAX_LENGTH
    ensures OptionalInt(ValidatedInput(input), "category").Some? ==> IsCategoryId(db, OptionalInt(ValidatedInput(input), "category").value)
    ensures OptionalInt(ValidatedInput(input), "author").Some? ==> IsUserId(db, OptionalInt(ValidatedInput(input), "author").value)
    ensures OptionalInt(ValidatedInput(input), "tag").Some? ==> IsTagId(db, OptionalInt(ValidatedInput(input), "tag").value)
    ensures IntOr(ValidatedInput(input), "page", 1) >= 1
    ensures 1 <= IntOr(ValidatedInput(input), "per_page", 15) <= PER_PAGE_MAX
  {
    PassesIff(input, db);
    var v := ValidatedInput(input);
    if OptionalInt(v, "category").Some? {
      var n := OptionalInt(v, "category").value;
      assert n in set c | c in db.categories :: c.id;
    }
    if OptionalInt(v, "author").Some? {
      var n := OptionalInt(v, "author").value;
      assert n in set u | u in db.users :: u.id;
    }
    if OptionalInt(v, "tag").Some? {
      var n := OptionalInt(v, "tag").value;
      assert n in set g | g in db.tags :: g.id;
    }
    if "page" in input && input["page"].VStr? {
      NormalisedNotBlank(input, "page");
    }
    if "per_page" in input && input["per_page"].VStr? {
      NormalisedNotBlank(input, "per_page");
    }
  }

  function Repeat(c: char, n: nat): (s: string)
    ensures |s| == n && forall i :: 0 <= i < n ==> s[i] == c
  {
    seq(n, _ => c)
  }

  /** `q` is required and must be a string. */
  lemma QRequired(db: Db)
    ensures !Passes(map["q" := VNull], db)
    ensures !Passes(map["q" := VInt(123)], db)
  {
    PassesIff(map["q" := VNull], db);
    PassesIff(map["q" := VInt(123)], db);
  }

  /** `q` is at most 100 characters long. */
  lemma QLength(db: Db)
    ensures !Passes(map["q" := VStr(Repeat('a', 101))], db)
    ensures Passes(map["q" := VStr(Repeat('a', 100))], db)
  {
    PassesIff(map["q" := VStr(Repeat('a', 101))], db);
    var a100 := Repeat('a', 100);
    assert !IsTrimmed(a100[0]);
    PassesIff(map["q" := VStr(a100)], db);
  }

  /** Over an otherwise valid input, a category may be null, and a number
      passes exactly when it names an existing category. */
  lemma CategoryBoundaries(input: Input, db: Db, n: int)
    requires Valid(input, db)
    ensures Passes(input["category" := VNull], db)
    ensures Passes(input["category" := VInt(n)], db) <==> IsCategoryId(db, n)
  {
    PassesIff(input["category" := VNull], db);
    PassesIff(input["category" := VInt(n)], db);
    if IsCategoryId(db, n) {
      var c :| c in db.categories && c.id == n;
      assert n in set c | c in db.categories :: c.id;
    }
  }

  /** Over an otherwise valid input, `page` must be an integer of at least 1. */
  lemma PageBoundaries(input: Input, db: Db, n: int)
    requires Valid(input, db)
    ensures !Passes(input["page" := VStr("abc")], db)
    ensures Passes(input["page" := VInt(n)], db) <==> n >= 1
  {
    var abc := "abc";
    assert !IsTrimmed(abc[0]) && !IntString(abc);
    PassesIff(input["page" := VStr("abc")], db);
    PassesIff(input["page" := VInt(n)], db);
  }

  /** Over an otherwise valid input, `per_page` must be an integer from 1 to 50. */
  lemma PerPageBoundaries(input: Input, db: Db, n: int)
    requires Valid(input, db)
    ensures Passes(input["per_page" := VInt(n)], db) <==> 1 <= n <= PER_PAGE_MAX
  {
    PassesIff(input["per_page" := VInt(n)], db);
  }

  /** The smallest valid input: a search term and nothing else. */
  lemma TermOnlyValid(db: Db)
    ensures Valid(map["q" := VStr("test")], db)
  {
    var test := "test";
    assert !IsTrimmed(test[0]);
  }
}
