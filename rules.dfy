/** The part of Laravel's validator that the request classes use: the rules
    `required`, `nullable`, `string`, `integer`, `min`, `max` and `exists`,
    the skipping of non-implicit rules for absent, blank or nullable-null
    values, and `validated()`. */
module Rules {
  import opened Php

  /** A request input value. */
  datatype Value = VNull | VInt(n: int) | VStr(s: string)

  /** The request input: a key maps to a value when the client sent it. */
  type Input = map<string, Value>

  /** The tables an `exists` rule can name. */
  datatype Table = Categories | Users | Tags

  datatype Rule =
    | Required
    | Nullable
    | StringRule
    | Integer
    | Min(lo: int)
    | Max(hi: int)
    | Exists(table: Table)

  predicate IsDigit(c: char) {
    '0' <= c <= '9'
  }

  predicate AllDigits(s: string) {
    forall i :: 0 <= i < |s| ==> IsDigit(s[i])
  }

  function DigitsValue(s: string): (n: nat)
    requires AllDigits(s)
    decreases |s|
  {
    if s == [] then 0 else DigitsValue(s[..|s| - 1]) * 10 + (s[|s| - 1] as int - '0' as int)
  }

  /** The digits after an optional sign are "0" or do not start with '0'. */
  predicate CanonicalDigits(d: string) {
    |d| > 0 && AllDigits(d) && (d == "0" || d[0] != '0')
  }

  predicate HasSign(s: string) {
    |s| > 0 && (s[0] == '-' || s[0] == '+')
  }

  /** A string that `FILTER_VALIDATE_INT` accepts: an optional sign followed
      by decimal digits without a leading zero. */
  predicate IntString(s: string) {
    if HasSign(s) then CanonicalDigits(s[1..]) else CanonicalDigits(s)
  }

  function IntStringValue(s: string): int
    requires IntString(s)
  {
    if HasSign(s) then (if s[0] == '-' then 0 - DigitsValue(s[1..]) as int else DigitsValue(s[1..]))
    else DigitsValue(s)
  }

  /** The `integer` rule. */
  predicate IsInteger(v: Value) {
    v.VInt? || (v.VStr? && IntString(v.s))
  }

  /** The integer an accepted value stands for. */
  function AsInt(v: Value): (r: Option<int>)
    ensures r.Some? <==> IsInteger(v)
    ensures v.VInt? ==> r == Some(v.n)
  {
    if v.VInt? then Some(v.n)
    else if v.VStr? && IntString(v.s) then Some(IntStringValue(v.s))
    else None
  }

  /** PHP's truthiness of a request value as `when(...)` reads it: null, the
      strings "" and "0", and the integer 0 are falsy; every other string,
      "-0" and "+0" among them, is truthy. */
  predicate Truthy(v: Value) {
    match v
    case VNull => false
    case VStr(s) => !EmptyString(s)
    case VInt(n) => n != 0
  }

  /** Canonical digits spell zero only as "0". */
  lemma {:induction false} DigitsZero(d: string)
    requires CanonicalDigits(d)
    ensures DigitsValue(d) == 0 <==> d == "0"
  {
    if d != "0" {
      LeadingDigitPositive(d);
    }
  }

  lemma {:induction false} LeadingDigitPositive(d: string)
    requires |d| > 0 && AllDigits(d) && d[0] != '0'
    ensures DigitsValue(d) > 0
    decreases |d|
  {
    if |d| > 1 {
      var init := d[..|d| - 1];
      assert init[0] == d[0];
      LeadingDigitPositive(init);
    }
  }

  /** The integer strings that stand for 0 are "0", "-0" and "+0". */
  lemma IntStringZero(s: string)
    requires IntString(s)
    ensures IntStringValue(s) == 0 <==> s == "0" || s == "-0" || s == "+0"
  {
    if HasSign(s) {
      DigitsZero(s[1..]);
      if s[1..] == "0" {
        assert s == [s[0]] + s[1..];
      }
    } else {
      DigitsZero(s);
    }
  }

  /** The decimal length of an integer, which is what `mb_strlen` measures
      for an integer value outside a numeric rule. */
  function DecimalLength(n: int): (k: nat)
    ensures k >= 1
    decreases if n < 0 then -n + 1 else n
  {
    if n < 0 then 1 + DecimalLength(-n) else if n < 10 then 1 else 1 + DecimalLength(n / 10)
  }

  /** `getSize`: the number itself under a numeric rule, else the length. */
  function Size(v: Value, numeric: bool): int {
    if numeric && IsInteger(v) then AsInt(v).value
    else match v
      case VStr(s) => |s|
      case VInt(n) => DecimalLength(n)
      case VNull => 0
  }

  function Lookup(input: Input, key: string): Value {
    if key in input then input[key] else VNull
  }

  /** `required`: present, not null, and not blank after trimming. */
  predicate RequiredPasses(v: Value) {
    match v
    case VNull => false
    case VStr(s) => !Blank(s)
    case VInt(_) => true
  }

  predicate IsImplicit(r: Rule) {
    r.Required?
  }

  /** Whether the validator runs rule `r` on attribute `key`: implicit rules
      always; the others only for a present value that is not a blank string
      and not a null the attribute is `nullable` for. */
  predicate Validatable(input: Input, key: string, rules: seq<Rule>, r: Rule) {
    || IsImplicit(r)
    || (&& key in input
        && !(input[key].VStr? && Blank(input[key].s))
        && !(Nullable in rules && input[key] == VNull))
  }

  predicate RulePasses(v: Value, rules: seq<Rule>, r: Rule, knownIds: Table -> set<int>) {
    match r
    case Required => RequiredPasses(v)
    case Nullable => true
    case StringRule => v.VStr?
    case Integer => IsInteger(v)
    case Min(lo) => Size(v, Integer in rules) >= lo
    case Max(hi) => Size(v, Integer in rules) <= hi
    case Exists(t) => AsInt(v).Some? && AsInt(v).value in knownIds(t)
  }

  /** Every rule of one attribute that runs passes. */
  predicate AttributePasses(input: Input, key: string, rules: seq<Rule>, knownIds: Table -> set<int>) {
    forall i :: 0 <= i < |rules| && Validatable(input, key, rules, rules[i]) ==>
      RulePasses(Lookup(input, key), rules, rules[i], knownIds)
  }

  /** The validator passes: every attribute passes its rules. */
  predicate Passes(input: Input, rules: seq<(string, seq<Rule>)>, knownIds: Table -> set<int>) {
    forall i :: 0 <= i < |rules| ==> AttributePasses(input, rules[i].0, rules[i].1, knownIds)
  }

  function RuleKeys(rules: seq<(string, seq<Rule>)>): (ks: set<string>)
    ensures forall i :: 0 <= i < |rules| ==> rules[i].0 in ks
    ensures forall k :: k in ks ==> exists i :: 0 <= i < |rules| && rules[i].0 == k
  {
    set i | 0 <= i < |rules| :: rules[i].0
  }

  /** `validated()`: the present input entries that some rule names. */
  function Validated(input: Input, rules: seq<(string, seq<Rule>)>): (r: Input)
    ensures forall k :: k in r <==> k in input && k in RuleKeys(rules)
    ensures forall k :: k in r ==> r[k] == input[k]
  {
    map k | k in input && k in RuleKeys(rules) :: input[k]
  }

  /** What the framework's `TrimStrings` and `ConvertEmptyStringsToNull`
      middleware leave: no string value is empty or starts or ends with
      white space. */
  predicate Normalised(input: Input) {
    forall k :: k in input && input[k].VStr? ==>
      input[k].s != [] && !IsTrimmed(input[k].s[0]) && !IsTrimmed(input[k].s[|input[k].s| - 1])
  }

  /** A normalised string is never blank. */
  lemma NormalisedNotBlank(input: Input, key: string)
    requires Normalised(input) && key in input && input[key].VStr?
    ensures !Blank(input[key].s)
  {
    assert !IsTrimmed(input[key].s[0]);
  }

  /** The integer a validated optional entry supplies, or `default` when the
      entry is absent or null: `$validated[$key] ?? $default`. */
  function IntOr(validated: Input, key: string, default: int): int {
    if key in validated && AsInt(validated[key]).Some? then AsInt(validated[key]).value else default
  }

  /** The integer a validated optional entry supplies, if it supplies one. */
  function OptionalInt(validated: Input, key: string): Option<int> {
    if key in validated then AsInt(validated[key]) else None
  }

  // ---------------------------------------------------------------------
  // The rule lists the request classes use, stated directly

  /** An entry the non-implicit rules skip: absent, null, or a blank string. */
  predicate Skipped(input: Input, key: string) {
    key !in input || input[key] == VNull || (input[key].VStr? && Blank(input[key].s))
  }

  predicate RequiredStringOk(input: Input, key: string, maxLen: int) {
    key in input && input[key].VStr? && !Blank(input[key].s) && |input[key].s| <= maxLen
  }

  predicate OptionalIdOk(input: Input, key: string, ids: set<int>) {
    Skipped(input, key) || (AsInt(input[key]).Some? && AsInt(input[key]).value in ids)
  }

  predicate OptionalRangeOk(input: Input, key: string, lo: int, hi: Option<int>) {
    || Skipped(input, key)
    || (&& AsInt(input[key]).Some?
        && lo <= AsInt(input[key]).value
        && (hi.None? || AsInt(input[key]).value <= hi.value))
  }

  /** `['required', 'string', 'max:n']`. */
  lemma RequiredStringMax(input: Input, key: string, n: int, knownIds: Table -> set<int>)
    ensures AttributePasses(input, key, [Required, StringRule, Max(n)], knownIds) <==> RequiredStringOk(input, key, n)
  {
    var rules := [Required, StringRule, Max(n)];
    if AttributePasses(input, key, rules, knownIds) {
      assert Validatable(input, key, rules, rules[0]);
      assert RulePasses(Lookup(input, key), rules, rules[0], knownIds);
      assert Validatable(input, key, rules, rules[1]);
      assert Validatable(input, key, rules, rules[2]);
    }
  }

  /** `['nullable', 'integer', 'exists:table,id']`. */
  lemma NullableIntegerExists(input: Input, key: string, t: Table, knownIds: Table -> set<int>)
    ensures AttributePasses(input, key, [Nullable, Integer, Exists(t)], knownIds) <==> OptionalIdOk(input, key, knownIds(t))
  {
    var rules := [Nullable, Integer, Exists(t)];
    if AttributePasses(input, key, rules, knownIds) && !Skipped(input, key) {
      assert Validatable(input, key, rules, rules[2]);
    }
  }

  /** `['nullable', 'integer', 'min:lo']`. */
  lemma NullableIntegerMin(input: Input, key: string, lo: int, knownIds: Table -> set<int>)
    ensures AttributePasses(input, key, [Nullable, Integer, Min(lo)], knownIds) <==> OptionalRangeOk(input, key, lo, None)
  {
    var rules := [Nullable, Integer, Min(lo)];
    if AttributePasses(input, key, rules, knownIds) && !Skipped(input, key) {
      assert Validatable(input, key, rules, rules[1]);
      assert Validatable(input, key, rules, rules[2]);
    }
  }

  /** `['nullable', 'integer', 'min:lo', 'max:hi']`. */
  lemma NullableIntegerMinMax(input: Input, key: string, lo: int, hi: int, knownIds: Table -> set<int>)
    ensures AttributePasses(input, key, [Nullable, Integer, Min(lo), Max(hi)], knownIds) <==> OptionalRangeOk(input, key, lo, Some(hi))
  {
    var rules := [Nullable, Integer, Min(lo), Max(hi)];
    if AttributePasses(input, key, rules, knownIds) && !Skipped(input, key) {
      assert Validatable(input, key, rules, rules[1]);
      assert Validatable(input, key, rules, rules[2]);
      assert Validatable(input, key, rules, rules[3]);
    }
  }
}
