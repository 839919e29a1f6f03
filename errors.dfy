/** Error and result plumbing of the interpreter.

    `ForthError` mirrors the error enum of src/errors.rs:4-11 and adds
    `IndexOutOfBound`, the variant that src/entities/complex/array.rs uses.
    `Result<()>` stands for Rust's `Result<()>`: `Ok(())` is success. */
module Errors {

  datatype ForthError = StackUnderflow | InvalidOperands | VariableNotExist | IndexOutOfBound

  datatype Option<+T> = None | Some(value: T)

  datatype Result<+T> = Ok(value: T) | Err(error: ForthError)

  /** The state an operation leaves behind, together with what it returned. */
  datatype Effect<+S> = Effect(after: S, result: Result<()>)
}
