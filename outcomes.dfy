/** What the calculator's operations return: Rust's `Option` and `Result`, plus the
    panics (`unreachable!()`, `unimplemented!()`) that some inputs reach. */
module Outcomes {

  datatype Option<+T> = None | Some(value: T)

  /** `Ok` and `Err` are Rust's `Result`; `Panic` stands for a call that aborts the
      program instead of returning, with the message the Rust macro prints. */
  datatype Outcome<+T> = Ok(value: T) | Err(error: string) | Panic(message: string)

  /** Message of `unreachable!()`. */
  const Unreachable := "internal error: entered unreachable code"

  /** Message of `unimplemented!()`. */
  const Unimplemented := "not implemented"
}
