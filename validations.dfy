/** The existence check every lookup by id goes through. */
module Validations {
  import opened Wrappers

  /** The text of the exception raised for a missing entity. */
  function NotFoundMessage(simpleName: string, identifier: string): string {
    simpleName + " with identifier " + identifier + " not found"
  }

  /**
   * `validateOptionalExistence(optional, clazz, identifier)`: the contained
   * value, or a failure naming the class (by its simple name) and the label
   * the caller passed as identifier.
   */
  function ValidateOptionalExistence<T>(optional: Option<T>, simpleName: string, identifier: string): (r: Result<T, string>)
    ensures r.Success? <==> optional.Some?
    ensures r.Success? ==> r.value == optional.value
    ensures r.Failure? ==> r.error == NotFoundMessage(simpleName, identifier)
  {
    if optional.None? then Failure(NotFoundMessage(simpleName, identifier)) else Success(optional.value)
  }

  /** The message of the failure starts with the class name and ends with " not found". */
  lemma NotFoundMessageShape(simpleName: string, identifier: string)
    ensures var m := NotFoundMessage(simpleName, identifier);
      m[..|simpleName|] == simpleName && m[|m| - 10..] == " not found" &&
      m[|simpleName|..|simpleName| + 17] == " with identifier "
  {
    var m := NotFoundMessage(simpleName, identifier);
    assert m == simpleName + (" with identifier " + (identifier + " not found"));
  }

  /** On success the result depends on the optional alone, not on the class or the label. */
  lemma ValidateIgnoresLabels<T>(optional: Option<T>, n1: string, i1: string, n2: string, i2: string)
    requires optional.Some?
    ensures ValidateOptionalExistence(optional, n1, i1) == ValidateOptionalExistence(optional, n2, i2)
  {
  }
}
