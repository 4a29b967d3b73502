/** The slice of the form-state library's state the form layer reads: the
    per-field error records. The library itself is not modelled. */
module FormState {
  import opened Results
  import Js

  /** An entry of `formState.errors`; only its `message` is read. */
  datatype ErrorEntry = ErrorEntry(message: Option<string>)

  /** `formState.errors`, keyed by field name. */
  type FieldErrors = map<string, ErrorEntry>

  /** `value?.message` is truthy. */
  predicate HasMessage(e: ErrorEntry)
  {
    Js.TruthyString(e.message)
  }
}
