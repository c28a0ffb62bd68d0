/** The few pieces of PHP semantics the blog core depends on: nullable
    values, truthiness as `when()` and `empty()` test it, the whitespace set
    of `trim`, SQL `LIKE '%t%'` as substring containment, `strip_tags` and
    Laravel's `Str::limit`. */
module Php {

  datatype Option<+T> = None | Some(value: T)

  datatype Result<+T, +E> = Ok(value: T) | Err(error: E)

  /** Truthiness of a `?string` as `Builder::when` tests it: null, "" and "0" are falsy. */
  predicate TruthyString(s: Option<string>) {
    s.Some? && s.value != "" && s.value != "0"
  }

  /** Truthiness of a `?int`: null and 0 are falsy. */
  predicate TruthyInt(n: Option<int>) {
    n.Some? && n.value != 0
  }

  /** `empty($s)` for a string: true for "" and for "0". */
  predicate EmptyString(s: string) {
    s == "" || s == "0"
  }

  /** The characters `trim` and `rtrim` strip by default: space, tab, newline,
      carriage return, NUL and vertical tab. */
  predicate IsTrimmed(c: char) {
    c == ' ' || c == '\t' || c == '\n' || c == '\r' || c == 0 as char || c == 11 as char
  }

  /** `trim($s) === ''`: the string is empty or made of trimmed characters only. */
  predicate Blank(s: string) {
    forall i :: 0 <= i < |s| ==> IsTrimmed(s[i])
  }

  /** `rtrim($s)`: drop trailing whitespace. */
  function RTrim(s: string): (r: string)
    ensures |r| <= |s| && r == s[..|r|]
    ensures r == [] || !IsTrimmed(r[|r| - 1])
    ensures Blank(s[|r|..])
  {
    if s == [] || !IsTrimmed(s[|s| - 1]) then s else RTrim(s[..|s| - 1])
  }

  predicate IsPrefix(t: string, s: string) {
    |t| <= |s| && s[..|t|] == t
  }

  /** `s LIKE '%t%'` read as plain substring containment. */
  predicate Contains(s: string, t: string)
    decreases |s|
  {
    IsPrefix(t, s) || (|s| > 0 && Contains(s[1..], t))
  }

  /** Containment holds exactly when `t` occurs at some offset of `s`. */
  lemma {:induction false} ContainsAt(s: string, t: string)
    ensures Contains(s, t) <==> exists i :: 0 <= i <= |s| && IsPrefix(t, s[i..])
    decreases |s|
  {
    if Contains(s, t) {
      if !IsPrefix(t, s) {
        ContainsAt(s[1..], t);
        var i :| 0 <= i <= |s[1..]| && IsPrefix(t, s[1..][i..]);
        assert s[1..][i..] == s[i + 1..];
      } else {
        assert s[0..] == s;
      }
    }
    if exists i :: 0 <= i <= |s| && IsPrefix(t, s[i..]) {
      var i :| 0 <= i <= |s| && IsPrefix(t, s[i..]);
      if i == 0 {
        assert s[0..] == s;
      } else {
        assert s[1..][i - 1..] == s[i..];
        ContainsAt(s[1..], t);
      }
    }
  }

  /** `ctype isspace`, the test `strip_tags` applies to the character after '<'. */
  predicate IsSpace(c: char) {
    c == ' ' || c == '\t' || c == '\n' || c == '\r' || c == 11 as char || c == 12 as char
  }

  /** `strip_tags($s)`: drop every `<...>` tag; a '<' followed by white space
      opens no tag and is kept. */
  function StripTags(s: string): (r: string)
    ensures |r| <= |s|
  {
    Strip(s, false)
  }

  function Strip(s: string, inTag: bool): (r: string)
    ensures |r| <= |s|
    ensures !inTag && '<' !in s ==> r == s
  {
    if s == [] then []
    else if inTag then Strip(s[1..], s[0] != '>')
    else if s[0] == '<' && !(|s| > 1 && IsSpace(s[1])) then Strip(s[1..], true)
    else [s[0]] + Strip(s[1..], false)
  }

  /** Text without markup passes `strip_tags` unchanged. */
  lemma StripTagsIdentity(s: string)
    requires '<' !in s
    ensures StripTags(s) == s
  {
  }

  /** `Str::limit($s, $limit)` with every character one column wide: a string
      that fits is returned as it is; a longer one is cut to `limit`
      characters, right-trimmed, and given the ending "...". */
  function StrLimit(s: string, limit: nat): (r: string)
    ensures |s| <= limit ==> r == s
    ensures |s| > limit ==> |r| >= 3 && r[|r| - 3..] == "..." && IsPrefix(r[..|r| - 3], s)
    ensures |r| <= limit + 3
  {
    if |s| <= limit then s
    else
      var head := RTrim(s[..limit]);
      assert (head + "...")[..|head|] == head;
      head + "..."
  }
}
