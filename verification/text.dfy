/** The two string primitives the reading generator relies on: lower-casing (`strings.ToLower`)
    and substring search (`strings.Contains`). */
module Text {

  predicate IsUpper(c: char) {
    'A' <= c <= 'Z'
  }

  /** The two non-ASCII characters whose lower case is an ASCII letter: U+0130 (capital I with
      dot above) lowers to 'i' and U+212A (Kelvin sign) to 'k'. */
  const DottedCapitalI: char := '\U{0130}'
  const KelvinSign: char := '\U{212A}'

  /** Lower-case one character as `unicode.ToLower` does wherever the result is ASCII:
      'A'..'Z' become 'a'..'z', U+0130 becomes 'i', U+212A becomes 'k'. Every other character is
      kept; Go would lower some of them to other non-ASCII letters. */
  function LowerChar(c: char): (d: char)
    ensures !IsUpper(d)
    ensures c as int < 128 && !IsUpper(c) ==> d == c
    ensures IsUpper(c) ==> d as int - c as int == 'a' as int - 'A' as int
    ensures d as int < 128 <==> c as int < 128 || c == DottedCapitalI || c == KelvinSign
  {
    if IsUpper(c) then (c as int - 'A' as int + 'a' as int) as char
    else if c == DottedCapitalI then 'i'
    else if c == KelvinSign then 'k'
    else c
  }

  /** `strings.ToLower`: the same length, each character lowered, no upper-case ASCII letter
      left. */
  function Lower(s: string): (r: string)
    ensures |r| == |s|
    ensures forall i :: 0 <= i < |s| ==> r[i] == LowerChar(s[i])
    ensures forall i :: 0 <= i < |r| ==> !IsUpper(r[i])
  {
    if s == [] then [] else [LowerChar(s[0])] + Lower(s[1..])
  }

  /** Lowering twice is lowering once. */
  lemma LowerIdempotent(s: string)
    ensures Lower(Lower(s)) == Lower(s)
  {
  }

  /** `sub` occurs in `s` starting at index `i`. */
  ghost predicate OccursAt(s: string, sub: string, i: int) {
    0 <= i && i + |sub| <= |s| && s[i..i + |sub|] == sub
  }

  /** `strings.Contains`: a left-to-right scan for `sub`; the empty string occurs everywhere. */
  function Contains(s: string, sub: string): (r: bool)
    ensures r <==> exists i :: OccursAt(s, sub, i)
    decreases |s|
  {
    if |sub| > |s| then false
    else if s[..|sub|] == sub then
      assert OccursAt(s, sub, 0);
      true
    else
      assert forall i :: OccursAt(s, sub, i) ==> i >= 1 && OccursAt(s[1..], sub, i - 1);
      assert forall i :: OccursAt(s[1..], sub, i) ==> OccursAt(s, sub, i + 1);
      Contains(s[1..], sub)
  }

  /** Substring containment is transitive: if `mid` occurs in `s` and `sub` occurs in `mid`,
      then `sub` occurs in `s`. */
  lemma ContainsTransitive(s: string, mid: string, sub: string)
    requires Contains(s, mid) && Contains(mid, sub)
    ensures Contains(s, sub)
  {
    var i :| OccursAt(s, mid, i);
    var j :| OccursAt(mid, sub, j);
    assert mid == s[i..i + |mid|];
    assert forall k :: 0 <= k < |sub| ==> sub[k] == mid[j + k] == s[i + j + k];
    assert OccursAt(s, sub, i + j);
  }

  /** A string lacking one of `sub`'s characters does not contain `sub`. */
  lemma MissingCharExcludes(s: string, sub: string, c: char)
    requires c in sub && c !in s
    ensures !Contains(s, sub)
  {
  }

  /** A string contains each of its prefixes. */
  lemma ContainsPrefix(s: string, n: nat)
    requires n <= |s|
    ensures Contains(s, s[..n])
  {
    assert OccursAt(s, s[..n], 0);
  }
}
