/**
 * The few pieces of JavaScript value semantics that the screens rely on:
 * values that may be `null`/`undefined`, the truthiness test that `!x` and
 * `x || y` perform on a string, and the length of a string, which JavaScript
 * counts in UTF-16 code units.
 */
module Js {

  /** A value that may be `null` or `undefined` (both are `None`). */
  datatype Option<+T> = None | Some(value: T) {
    /** `x || fallback` for a value whose present form is always truthy
        (an object or an array). */
    function GetOr(fallback: T): (r: T)
      ensures Some? ==> r == value
      ensures None? ==> r == fallback
    {
      match this
      case Some(v) => v
      case None => fallback
    }
  }

  /** Truthiness of a string that may be missing: `null`, `undefined` and
      the empty string are falsy, every other string is truthy. */
  predicate Truthy(s: Option<string>)
    ensures Truthy(s) <==> s != None && s != Some("")
  {
    s.Some? && s.value != ""
  }

  /** Whether a character lies outside the Basic Multilingual Plane, so that
      UTF-16 stores it as a surrogate pair. */
  predicate IsSupplementary(c: char) {
    c > '\U{FFFF}'
  }

  /** `s.length` in JavaScript: the number of UTF-16 code units of `s`. */
  function Utf16Length(s: string): (n: nat)
    ensures |s| <= n <= 2 * |s|
  {
    if s == [] then 0
    else (if IsSupplementary(s[0]) then 2 else 1) + Utf16Length(s[1..])
  }

  /** The UTF-16 length of a string agrees with its number of characters
      exactly when no character needs a surrogate pair. */
  lemma {:induction false} Utf16LengthBounds(s: string)
    ensures Utf16Length(s) == |s| <==> forall i :: 0 <= i < |s| ==> !IsSupplementary(s[i])
  {
    if s != [] {
      Utf16LengthBounds(s[1..]);
      if Utf16Length(s) == |s| {
        forall i | 0 <= i < |s| ensures !IsSupplementary(s[i]) {
          if i > 0 { assert s[i] == s[1..][i - 1]; }
        }
      }
      if forall i :: 0 <= i < |s| ==> !IsSupplementary(s[i]) {
        assert forall i :: 0 <= i < |s[1..]| ==> !IsSupplementary(s[1..][i]) by {
          forall i | 0 <= i < |s[1..]| ensures !IsSupplementary(s[1..][i]) {
            assert s[1..][i] == s[i + 1];
          }
        }
      }
    }
  }
}
