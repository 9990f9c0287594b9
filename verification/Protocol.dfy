/** Types shared by every module of the model. */
module Protocol {

  datatype Option<+T> = None | Some(value: T)

  /** `Option::or`. */
  function Or<T>(first: Option<T>, second: Option<T>): Option<T> {
    if first.Some? then first else second
  }

  /** JSON-RPC request ids: a string and an integer that print alike are different ids. */
  datatype RequestId = StringId(text: string) | IntegerId(value: int)

  /** The largest `usize`, at which `saturating_add` stops counting. */
  const USIZE_MAX: nat := 0xFFFF_FFFF_FFFF_FFFF
}
