/** `conditionUppercase` and the case mappings it applies. The mappings act on
    ASCII letters; every other character is left as it is. */
module Casing {

  predicate IsAsciiLower(c: char) { 'a' <= c <= 'z' }

  predicate IsAsciiUpper(c: char) { 'A' <= c <= 'Z' }

  function UpperChar(c: char): (u: char)
    ensures !IsAsciiLower(u)
    ensures IsAsciiLower(c) ==> IsAsciiUpper(u) && u as int == c as int - 32
    ensures !IsAsciiLower(c) ==> u == c
  {
    if IsAsciiLower(c) then (c as int - 32) as char else c
  }

  function LowerChar(c: char): (l: char)
    ensures !IsAsciiUpper(l)
    ensures IsAsciiUpper(c) ==> IsAsciiLower(l) && l as int == c as int + 32
    ensures !IsAsciiUpper(c) ==> l == c
  {
    if IsAsciiUpper(c) then (c as int + 32) as char else c
  }

  /** `String.prototype.toUpperCase`, character by character. */
  function ToUpperCase(s: string): (r: string)
    ensures |r| == |s|
    ensures forall i :: 0 <= i < |s| ==> r[i] == UpperChar(s[i])
  {
    if s == [] then [] else [UpperChar(s[0])] + ToUpperCase(s[1..])
  }

  /** `String.prototype.toLowerCase`, character by character. */
  function ToLowerCase(s: string): (r: string)
    ensures |r| == |s|
    ensures forall i :: 0 <= i < |s| ==> r[i] == LowerChar(s[i])
  {
    if s == [] then [] else [LowerChar(s[0])] + ToLowerCase(s[1..])
  }

  /** The one case transform applied to every generated identifier: upper case
      when `uc` holds, lower case otherwise. */
  function ConditionUppercase(uc: bool, s: string): (r: string)
    ensures |r| == |s|
    ensures uc ==> forall i :: 0 <= i < |r| ==> !IsAsciiLower(r[i])
    ensures !uc ==> forall i :: 0 <= i < |r| ==> !IsAsciiUpper(r[i])
    ensures forall i :: 0 <= i < |s| ==> LowerChar(r[i]) == LowerChar(s[i])
  {
    if uc then ToUpperCase(s) else ToLowerCase(s)
  }

  /** Conditioning twice with the same flag is conditioning once. */
  lemma ConditionIdempotent(uc: bool, s: string)
    ensures ConditionUppercase(uc, ConditionUppercase(uc, s)) == ConditionUppercase(uc, s)
  {
    ConditionAbsorbs(uc, uc, s);
  }

  /** Re-conditioning forgets the earlier choice: the last flag alone decides. */
  lemma ConditionAbsorbs(first: bool, last: bool, s: string)
    ensures ConditionUppercase(last, ConditionUppercase(first, s)) == ConditionUppercase(last, s)
  {
    var t := ConditionUppercase(first, s);
    var a, b := ConditionUppercase(last, t), ConditionUppercase(last, s);
    forall i | 0 <= i < |s|
      ensures a[i] == b[i]
    {
      if last {
        assert a[i] == UpperChar(t[i]) && b[i] == UpperChar(s[i]);
      } else {
        assert a[i] == LowerChar(t[i]) && b[i] == LowerChar(s[i]);
      }
    }
  }
}
