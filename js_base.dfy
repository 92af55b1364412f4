/** Values shared by every part of the model: JavaScript's `undefined` and its
    truthiness rules for the string fields of a request body. */
module JsBase {

  /** `None` stands for `undefined` (a missing property or map entry). */
  datatype Option<T> = None | Some(value: T)

  /** A string field is truthy in JavaScript exactly when it is present and not `""`. */
  predicate Present(s: Option<string>)
  {
    s.Some? && s.value != ""
  }
}
