/**
 * The name form: the submit handler passes on the trimmed name, and only
 * when something other than white space was typed; the submit button is
 * disabled under the same condition.
 */
module NameInput {
  import opened Wrappers
  import opened JsString

  /** handleSubmit: the name passed to onSubmit, or None when onSubmit is not called. */
  function HandleSubmit(name: string): (submitted: Option<string>)
    ensures submitted.Some? <==> !AllWhitespace(name)
    ensures submitted.Some? ==>
      && submitted.value != ""
      && !IsWhitespace(submitted.value[0])
      && !IsWhitespace(submitted.value[|submitted.value| - 1])
      && Trim(submitted.value) == submitted.value
    ensures submitted.Some? ==> exists i :: TrimmedAt(submitted.value, name, i)
  {
    var trimmed := Trim(name);
    if trimmed != "" then
      TrimIdempotent(name);
      assert TrimmedAt(trimmed, name, TrimOffset(name));
      Some(trimmed)
    else
      None
  }

  /**
   * sub is the contiguous piece of s that starts at index i, and everything
   * of s before and after it is white space.
   */
  predicate TrimmedAt(sub: string, s: string, i: int)
  {
    && 0 <= i <= |s| - |sub| && s[i..i + |sub|] == sub
    && (forall j :: 0 <= j < i ==> IsWhitespace(s[j]))
    && (forall j :: i + |sub| <= j < |s| ==> IsWhitespace(s[j]))
  }

  /** Whether the submit button is disabled: exactly when the trimmed name is empty. */
  function SubmitDisabled(name: string): (disabled: bool)
    ensures disabled <==> AllWhitespace(name)
  {
    Trim(name) == ""
  }

  /** The button is disabled exactly when the handler would not submit. */
  lemma DisabledIffRejected(name: string)
    ensures SubmitDisabled(name) <==> HandleSubmit(name) == None
  {
  }
}
