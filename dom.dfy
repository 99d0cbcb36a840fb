/** Values shared by the page scripts: an attribute or storage entry that may be absent. */
module Dom {

  /** `null` in the browser API (an absent attribute, a missing storage key) is `None`. */
  datatype Option<+T> = None | Some(value: T)
}
