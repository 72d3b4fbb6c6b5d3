/** The ways the CPU core can stop abnormally.  Every `todo!()` and
    out-of-bounds index of the Rust code becomes one variant here, so that
    callers can tell them apart.  The `u16` additions that could panic on
    overflow in a debug build never overflow, so they need no variant. */
module Results {
  import opened Words

  datatype Error =
    /** An index past the end of a fixed-size buffer: memory (0xFFFF cells),
        a slice of it, or the 4096-byte frame of the screen. */
    | OutOfBounds(index: int)
    /** The resolver's fall-through arm: a mode it does not implement. */
    | ModeNotImplemented
    /** The dispatcher's `todo!()` arm: `opcode` was fetched from `at`. */
    | Unimplemented(opcode: u8, at: u16)

  /** A failure-compatible result, usable with `:-`. */
  datatype Result<+T> = Ok(value: T) | Err(error: Error) {

    predicate IsFailure() {
      Err?
    }

    function PropagateFailure<U>(): Result<U>
      requires Err?
    {
      Err(error)
    }

    function Extract(): T
      requires Ok?
    {
      value
    }
  }
}
