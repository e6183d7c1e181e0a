/** White space as Rust's `char::is_whitespace` and `str::trim` see it. */
module Whitespace {

  /** The Unicode White_Space property, which is what the source's string methods test. */
  predicate IsBlankCode(v: int) {
    || 9 <= v <= 13 || v == 0x20 || v == 0x85 || v == 0xA0 || v == 0x1680
    || 0x2000 <= v <= 0x200A || v == 0x2028 || v == 0x2029 || v == 0x202F || v == 0x205F || v == 0x3000
  }

  predicate IsBlank(c: char) {
    IsBlankCode(c as int)
  }

  /** The index just after the last character before `p` that is not blank. */
  function BlankTail(s: string, p: nat): (k: nat)
    requires p <= |s|
    ensures k <= p && (k == 0 || !IsBlank(s[k - 1]))
    ensures forall i :: k <= i < p ==> IsBlank(s[i])
  {
    if p > 0 && IsBlank(s[p - 1]) then BlankTail(s, p - 1) else p
  }

  /** The index of the first character from `p` on that is not blank. */
  function BlankHead(s: string, p: nat): (k: nat)
    requires p <= |s|
    ensures p <= k <= |s| && (k == |s| || !IsBlank(s[k]))
    ensures forall i :: p <= i < k ==> IsBlank(s[i])
    decreases |s| - p
  {
    if p < |s| && IsBlank(s[p]) then BlankHead(s, p + 1) else p
  }

  /** The index just after the last blank character before `p`. */
  function WordStart(s: string, p: nat): (k: nat)
    requires p <= |s|
    ensures k <= p && (k == 0 || IsBlank(s[k - 1]))
    ensures forall i :: k <= i < p ==> !IsBlank(s[i])
  {
    if p > 0 && !IsBlank(s[p - 1]) then WordStart(s, p - 1) else p
  }

  predicate AllBlank(s: string) {
    forall i :: 0 <= i < |s| ==> IsBlank(s[i])
  }

  /** A text whose ends are not blank: what `trim` leaves. */
  predicate Trimmed(s: string) {
    s == [] || (!IsBlank(s[0]) && !IsBlank(s[|s| - 1]))
  }

  function Trim(s: string): (t: string)
    ensures Trimmed(t)
    ensures t == [] <==> AllBlank(s)
    ensures Trimmed(s) ==> t == s
  {
    var lo, hi := BlankHead(s, 0), BlankTail(s, |s|);
    if lo < hi then s[lo..hi] else []
  }
}
