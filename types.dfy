/** Machine integer widths and the small value types the window code shares. */
module Types {

  /** Rust `u8`. */
  type Byte = x: int | 0 <= x < 0x100

  /** Rust `u16`. */
  type U16 = x: int | 0 <= x < 0x1_0000

  /** Rust `u32`. */
  type U32 = x: int | 0 <= x < 0x1_0000_0000

  /** Rust's `std::ops::Range`: the half-open interval `start..end`. */
  datatype Range<T> = Range(start: T, end: T)

  datatype Option<+T> = None | Some(value: T)

  /** The reason an operation of the window code panics. */
  datatype Panic =
    | SlcIdOverflow        // `slc_id + 1` does not fit in a `u8`
    | TractMapOutOfRange   // the slice map was asked about slices it does not hold
    | SliceOutOfRange      // `VertexBuffer::slice` returned `None`
    | LockPoisoned         // the mutex was poisoned by a writer that panicked
    | AlreadyInitialized   // `Ui::element` after `Ui::init`
    | NotInitialized       // `Ui::resize` before `Ui::init`
    | BuffersNotInitialized // `Ui::draw` before `Ui::init`

  /** A value, or the panic that replaced it. */
  datatype Result<+T> = Ok(value: T) | Err(panic: Panic)

  /** The end of an operation that returns nothing: it finished, or it panicked. */
  datatype Outcome = Done | Panicked(panic: Panic)
}
