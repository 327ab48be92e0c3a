/** The custom `@EmptyList` constraint and its validator. The validator keeps
    no state (its `initialize` does nothing), so it is a predicate on the
    collection alone. */
module EmptyListValidation {
  import opened Wrappers

  /** The constraint's default message. */
  const Message := "List must be empty"

  /** `isValid`: a null collection, or one that holds no element. */
  function IsValid<T>(collection: Option<seq<T>>): (valid: bool)
    ensures collection.None? ==> valid
    ensures valid <==> !exists x :: collection.Some? && x in collection.value
  {
    assert collection.Some? && |collection.value| > 0 ==> collection.value[0] in collection.value;
    collection.None? || |collection.value| == 0
  }
}
