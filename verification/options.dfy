/** Small failure-carrying wrappers shared by every module of the model. */
module Options {

  /** Python's `Optional[T]`: either `None` or a present value. */
  datatype Option<+T> = None | Some(value: T)

  /** The outcome of a call into the network: a value, or the exception it raised. */
  datatype Reply<+T> = Ok(value: T) | Raised(message: string)

  /** Python truthiness of an optional string: present and non-empty. */
  predicate Truthy(s: Option<string>)
  {
    s.Some? && s.value != ""
  }
}
