/**
 * The JavaScript string operations the application relies on, over `string`
 * (a sequence of characters): `startsWith`, `endsWith`, `includes`,
 * `indexOf`, `lastIndexOf`, `replace` of a literal with `''`, `slice`,
 * the `||` fallback on optional strings and the blank test behind `trim()`.
 */
module JsStrings {
  import opened Wrappers

  /** `s.startsWith(p)` */
  predicate StartsWith(s: string, p: string) {
    |p| <= |s| && s[..|p|] == p
  }

  /** `s.endsWith(p)` */
  predicate EndsWith(s: string, p: string) {
    |p| <= |s| && s[|s| - |p|..] == p
  }

  /** `t` occurs in `s` starting at index `i`. */
  predicate OccursAt(s: string, t: string, i: nat) {
    i + |t| <= |s| && s[i..i + |t|] == t
  }

  /** `s.indexOf(t, k)`: the first occurrence of `t` at or after `k`. */
  function IndexOfFrom(s: string, t: string, k: nat): (r: Option<nat>)
    decreases |s| - k
    ensures r.Some? ==> k <= r.value && OccursAt(s, t, r.value)
    ensures r.Some? ==> forall j: nat :: k <= j < r.value ==> !OccursAt(s, t, j)
    ensures r.None? ==> forall j: nat :: k <= j ==> !OccursAt(s, t, j)
  {
    if k + |t| > |s| then None
    else if OccursAt(s, t, k) then Some(k)
    else IndexOfFrom(s, t, k + 1)
  }

  /** `s.indexOf(t)` */
  function IndexOf(s: string, t: string): Option<nat> {
    IndexOfFrom(s, t, 0)
  }

  /** `s.includes(t)` */
  predicate Includes(s: string, t: string) {
    IndexOf(s, t).Some?
  }

  /** The last occurrence of `t` in `s` that starts at or before `k`. */
  function LastIndexAtMost(s: string, t: string, k: nat): (r: Option<nat>)
    decreases k
    ensures r.Some? ==> r.value <= k && OccursAt(s, t, r.value)
    ensures r.Some? ==> forall j: nat :: r.value < j <= k ==> !OccursAt(s, t, j)
    ensures r.None? ==> forall j: nat :: j <= k ==> !OccursAt(s, t, j)
  {
    if OccursAt(s, t, k) then Some(k)
    else if k == 0 then None
    else LastIndexAtMost(s, t, k - 1)
  }

  /** `s.lastIndexOf(t)` */
  function LastIndexOf(s: string, t: string): (r: Option<nat>)
    ensures r.Some? ==> OccursAt(s, t, r.value)
    ensures r.Some? ==> forall j: nat :: r.value < j ==> !OccursAt(s, t, j)
    ensures r.None? ==> forall j: nat :: !OccursAt(s, t, j)
  {
    if |t| > |s| then None else LastIndexAtMost(s, t, |s| - |t|)
  }

  /** `s.replace(pat, '')`: removes the first occurrence of `pat`, if any. */
  function RemoveFirst(s: string, pat: string): string {
    match IndexOf(s, pat)
    case None => s
    case Some(i) => s[..i] + s[i + |pat|..]
  }

  /** Truthiness of an optional string: present and not empty. */
  predicate Truthy(o: Option<string>) {
    o.Some? && o.value != ""
  }

  /** `o || fallback` for an optional string. */
  function Or(o: Option<string>, fallback: string): string {
    if Truthy(o) then o.value else fallback
  }

  /** `s.slice(0, k)` for a non-negative `k` (clamped to the length). */
  function SliceTo(s: string, k: nat): string {
    if k <= |s| then s[..k] else s
  }

  /** `s.slice(k)` for a non-negative `k` (clamped to the length). */
  function SliceFrom(s: string, k: nat): string {
    if k <= |s| then s[k..] else ""
  }

  /** The characters `String.prototype.trim` removes: white space and line terminators. */
  predicate IsTrimmed(c: char) {
    || c == '\t' || c == '\n' || c == '\U{B}' || c == '\U{C}' || c == '\r' || c == ' '
    || c == '\U{A0}' || c == '\U{1680}' || ('\U{2000}' <= c <= '\U{200A}')
    || c == '\U{2028}' || c == '\U{2029}' || c == '\U{202F}' || c == '\U{205F}'
    || c == '\U{3000}' || c == '\U{FEFF}'
  }

  /** `!s.trim()`: the string is empty once trimmed. */
  predicate IsBlank(s: string) {
    forall i :: 0 <= i < |s| ==> IsTrimmed(s[i])
  }

  /**
   * Occurrences are found by `includes`: an occurrence anywhere makes
   * `Includes` true, and `Includes` names one.
   */
  lemma IncludesIff(s: string, t: string)
    ensures Includes(s, t) <==> exists i: nat :: OccursAt(s, t, i)
  {
    if Includes(s, t) {
      assert OccursAt(s, t, IndexOf(s, t).value);
    }
  }
}
