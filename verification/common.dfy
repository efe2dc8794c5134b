/** Shared vocabulary of the marketplace backend: optional request values,
    handler results, record ids, and the string and sequence helpers the
    controllers rely on. */
module Common {

  /** A request field or a document field that may be absent. */
  datatype Option<+T> = None | Some(value: T)

  /** The HTTP status and message a handler answers with when it fails. */
  datatype Failure = Failure(status: int, message: string)

  /** What a handler produces: a value on success, a failure otherwise. */
  datatype Result<+T> = Ok(value: T) | Err(failure: Failure)

  type UserId = string
  type ProductId = string
  type ShopkeeperId = string

  /** JavaScript truthiness of an optional string: absent and "" are falsy. */
  predicate Truthy(x: Option<string>) {
    x.Some? && x.value != ""
  }

  /** JavaScript truthiness of an optional number: absent and 0 are falsy. */
  predicate TruthyNumber(x: Option<int>) {
    x.Some? && x.value != 0
  }

  /** `x || current` on a string field. */
  function OrString(x: Option<string>, current: Option<string>): Option<string> {
    if Truthy(x) then x else current
  }

  /** `x || current` on a number field. */
  function OrNumber(x: Option<int>, current: Option<int>): Option<int> {
    if TruthyNumber(x) then x else current
  }

  /** `x || current` on a field holding an object or an array: any supplied
      object or array is truthy, even an empty one. */
  function OrObject<T>(x: Option<T>, current: T): T {
    if x.Some? then x.value else current
  }

  predicate NoDuplicates<T(==)>(s: seq<T>) {
    forall i, j :: 0 <= i < j < |s| ==> s[i] != s[j]
  }

  // ---------------------------------------------------------------------
  // Record ids

  /** A digit of a document id's canonical text, which is lower-case. */
  predicate IsHexDigit(c: char) {
    '0' <= c <= '9' || 'a' <= c <= 'f'
  }

  /** The canonical textual form of a document id: 24 lower-case
      hexadecimal digits. */
  predicate IsObjectId(s: string) {
    |s| == 24 && forall i :: 0 <= i < |s| ==> IsHexDigit(s[i])
  }

  // ---------------------------------------------------------------------
  // Strings

  function LowerChar(c: char): char {
    if 'A' <= c <= 'Z' then (c as int + 32) as char else c
  }

  /** ASCII lower-casing, the case folding of a case-insensitive match. */
  function Lower(s: string): (r: string)
    ensures |r| == |s|
    ensures forall i :: 0 <= i < |s| ==> r[i] == LowerChar(s[i])
  {
    seq(|s|, i requires 0 <= i < |s| => LowerChar(s[i]))
  }

  /** `t` occurs in `s` starting at offset `k`. */
  predicate OccursAt(s: string, t: string, k: int) {
    0 <= k && k + |t| <= |s| && s[k..k + |t|] == t
  }

  /** `t` is a substring of `s`. */
  predicate Contains(s: string, t: string) {
    exists k :: 0 <= k <= |s| - |t| && OccursAt(s, t, k)
  }

  /** Literal, case-insensitive substring match. */
  predicate ContainsIgnoreCase(s: string, t: string) {
    Contains(Lower(s), Lower(t))
  }

  /** The empty term occurs in every string. */
  lemma EmptyTermMatches(s: string)
    ensures ContainsIgnoreCase(s, "")
  {
    assert OccursAt(Lower(s), Lower(""), 0);
  }

  // ---------------------------------------------------------------------
  // Sequence lookups

  /** `Array.prototype.indexOf` / `find`: the first index holding `x`, or -1. */
  function FirstIndexOf<T(==)>(s: seq<T>, x: T): (i: int)
    ensures -1 <= i < |s|
    ensures i == -1 <==> x !in s
    ensures 0 <= i ==> s[i] == x && x !in s[..i]
  {
    if s == [] then -1
    else if s[0] == x then 0
    else
      var j := FirstIndexOf(s[1..], x);
      if j == -1 then -1 else j + 1
  }

  /** The last index holding `x`, or -1. */
  function LastIndexOf<T(==)>(s: seq<T>, x: T): (i: int)
    ensures -1 <= i < |s|
    ensures i == -1 <==> x !in s
    ensures 0 <= i ==> s[i] == x && x !in s[i + 1..]
  {
    if s == [] then -1
    else if s[|s| - 1] == x then |s| - 1
    else
      assert s == s[..|s| - 1] + [s[|s| - 1]];
      LastIndexOf(s[..|s| - 1], x)
  }

  /** Without duplicates the first and the last occurrence coincide: with
      one entry per user, a last-match scan and a first-match lookup pick the
      same entry. */
  lemma FirstIsLastWhenUnique<T>(s: seq<T>, x: T)
    requires NoDuplicates(s)
    ensures FirstIndexOf(s, x) == LastIndexOf(s, x)
  {
  }

  /** `r` keeps the order of the elements it takes from `s`. */
  ghost predicate IsSubsequence<T>(r: seq<T>, s: seq<T>)
    decreases |s|
  {
    if r == [] then true
    else if s == [] then false
    else (r[0] == s[0] && IsSubsequence(r[1..], s[1..])) || IsSubsequence(r, s[1..])
  }
}
