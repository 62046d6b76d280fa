/** The few JavaScript value semantics the bridge's string handling depends on:
    truthiness of a possibly-undefined string, the `||` operator on strings,
    template-literal rendering of `undefined`, and the line terminators that the
    regular-expression `.` does not match. */
module JsValues {
  import opened Wrappers

  /** A string-or-undefined value is truthy exactly when it is defined and non-empty. */
  predicate Truthy(v: Option<string>) {
    v.Some? && v.value != ""
  }

  /** `${v}` inside a template literal: `undefined` is rendered as the text "undefined". */
  function Render(v: Option<string>): (r: string)
    ensures v.Some? ==> r == v.value
    ensures v.None? ==> r == "undefined"
    // only the empty string renders as the empty text
    ensures r == "" <==> v == Some("")
  {
    v.GetOr("undefined")
  }

  /** `v || fallback` where `fallback` is a string: a falsy `v` yields the fallback. */
  function OrElse(v: Option<string>, fallback: string): (r: string)
    ensures Truthy(v) ==> r == v.value
    ensures !Truthy(v) ==> r == fallback
    ensures r != "" <==> Truthy(v) || fallback != ""
  {
    if Truthy(v) then v.value else fallback
  }

  /** The line terminators of ECMAScript (section 12.3 of ECMA-262): LF, CR, LS and PS. */
  predicate IsLineTerminator(c: char) {
    c == '\n' || c == '\r' || c == '\U{2028}' || c == '\U{2029}'
  }

  /** No character of `s` is a line terminator. */
  predicate NoLineTerminator(s: string) {
    forall i :: 0 <= i < |s| ==> !IsLineTerminator(s[i])
  }
}
